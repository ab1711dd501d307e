/**
 The notification queues as step machines.

 `ConcurrentQueue` is the goroutine of chain/queue.go: an output channel with a buffer and an
 overflow list.  `Handler` is the select loop of chain/btcd.go (and of chain/neutrino.go), which
 also serves the latest connected block.
 */
module ConcurrentQueue {
  import opened Wrappers

  /** `accepted` and `delivered` are history: what the goroutine took from the input channel and what
      the consumer received. */
  datatype Queue<T> = Queue(
    capacity: nat,
    chanOut: seq<T>,
    overflow: seq<T>,
    running: bool,
    accepted: seq<T>,
    delivered: seq<T>)

  datatype Step<T> =
    /** An item arrives; if the overflow list is empty and the output channel can take it, it goes there. */
    | Push(item: T)
    /** As Push, with a consumer waiting on an empty output channel. */
    | PushDirect(item: T)
    /** An item arrives and the nested select then picks the quit channel: the item is lost. */
    | PushThenQuit(item: T)
    /** The head of the overflow list moves to the output channel's buffer. */
    | Shift
    /** The head of the overflow list goes straight to a waiting consumer. */
    | ShiftDirect
    /** The consumer receives from the buffer. */
    | Pop
    | Quit

  predicate Enabled<T>(q: Queue<T>, step: Step<T>) {
    match step
    case Push(_) => q.running
    case PushDirect(_) => q.running && q.overflow == [] && q.chanOut == []
    case PushThenQuit(_) => q.running && q.overflow == []
    case Shift => q.running && q.overflow != [] && |q.chanOut| < q.capacity
    case ShiftDirect => q.running && q.overflow != [] && q.chanOut == []
    case Pop => q.chanOut != []
    case Quit => q.running
  }

  function Next<T>(q: Queue<T>, step: Step<T>): Queue<T>
    requires Enabled(q, step)
  {
    match step
    case Push(x) =>
      var r := q.(accepted := q.accepted + [x]);
      if q.overflow == [] && |q.chanOut| < q.capacity then r.(chanOut := q.chanOut + [x])
      else r.(overflow := q.overflow + [x])
    case PushDirect(x) => q.(accepted := q.accepted + [x], delivered := q.delivered + [x])
    case PushThenQuit(x) => q.(accepted := q.accepted + [x], running := false)
    case Shift => q.(chanOut := q.chanOut + [q.overflow[0]], overflow := q.overflow[1..])
    case ShiftDirect => q.(delivered := q.delivered + [q.overflow[0]], overflow := q.overflow[1..])
    case Pop => q.(delivered := q.delivered + [q.chanOut[0]], chanOut := q.chanOut[1..])
    case Quit => q.(running := false)
  }

  function New<T>(capacity: nat): Queue<T> {
    Queue(capacity, [], [], true, [], [])
  }

  function Run<T>(capacity: nat, steps: seq<Step<T>>): Option<Queue<T>> {
    if steps == [] then Some(New(capacity))
    else match Run(capacity, steps[..|steps| - 1])
      case None => None
      case Some(q) => if Enabled(q, steps[|steps| - 1]) then Some(Next(q, steps[|steps| - 1])) else None
  }

  /** While running, delivered items followed by held items are exactly the accepted items, in order;
      after quitting at most the one item in flight is missing at the end. */
  ghost predicate Fifo<T>(q: Queue<T>) {
    && q.delivered + q.chanOut + q.overflow <= q.accepted
    && |q.accepted| <= |q.delivered + q.chanOut + q.overflow| + (if q.running then 0 else 1)
    && |q.chanOut| <= q.capacity
  }

  lemma FifoNext<T>(q: Queue<T>, step: Step<T>)
    requires Fifo(q) && Enabled(q, step)
    ensures Fifo(Next(q, step))
  {
    var held := q.delivered + q.chanOut + q.overflow;
    var r := Next(q, step);
    match step {
      case Push(x) =>
        assert q.accepted == held;
        assert r.delivered + r.chanOut + r.overflow == held + [x];
      case PushDirect(x) =>
        assert q.accepted == held;
        assert r.delivered + r.chanOut + r.overflow == held + [x];
      case PushThenQuit(x) =>
      case Shift => assert r.delivered + r.chanOut + r.overflow == held;
      case ShiftDirect => assert r.delivered + r.chanOut + r.overflow == held;
      case Pop => assert r.delivered + r.chanOut + r.overflow == held;
      case Quit =>
    }
  }

  /** In every run the queue is first-in first-out and loses nothing before it quits. */
  lemma {:induction false} RunFifo<T>(capacity: nat, steps: seq<Step<T>>)
    ensures Run(capacity, steps).Some? ==>
      var q := Run(capacity, steps).value;
      && Fifo(q)
      && q.delivered <= q.accepted
      && (q.running ==> q.delivered + q.chanOut + q.overflow == q.accepted)
      && (!q.running ==> |q.accepted| <= |q.delivered + q.chanOut + q.overflow| + 1)
  {
    if steps != [] && Run(capacity, steps).Some? {
      RunFifo(capacity, steps[..|steps| - 1]);
      FifoNext(Run(capacity, steps[..|steps| - 1]).value, steps[|steps| - 1]);
    }
  }

  /** A running queue accepts any item, and one that holds something can deliver its first item to a consumer
      that is ready; after quitting what the channel's buffer holds can still be received. */
  lemma CanAcceptAndDeliver<T>(q: Queue<T>, item: T)
    ensures q.running ==> Enabled(q, Push(item)) && Next(q, Push(item)).accepted == q.accepted + [item]
    ensures q.chanOut != [] ==> Enabled(q, Pop) && Next(q, Pop).delivered == q.delivered + [q.chanOut[0]]
    ensures q.running && q.chanOut == [] && q.overflow != [] ==>
      Enabled(q, ShiftDirect) && Next(q, ShiftDirect).delivered == q.delivered + [q.overflow[0]]
    ensures q.running && q.chanOut == [] && q.overflow == [] ==>
      Enabled(q, PushDirect(item)) && Next(q, PushDirect(item)).delivered == q.delivered + [item]
  {
  }
}

module NotificationHandler {
  import opened Wrappers

  datatype ServedBlock = ServedBlock(hash: nat, height: int)

  datatype Ntfn = BlockConnected(hash: nat, height: int) | Other(id: nat)

  /** The loop's variables; `enqueueOpen` and `dequeueOn` say whether those channels are non-nil.
      `accepted`, `delivered` and `drained` (ended because the input was closed and emptied) are history. */
  datatype Handler = Handler(
    notifications: seq<Ntfn>,
    enqueueOpen: bool,
    dequeueOn: bool,
    next: Option<Ntfn>,
    bs: ServedBlock,
    running: bool,
    accepted: seq<Ntfn>,
    delivered: seq<Ntfn>,
    drained: bool)

  datatype Step = Enqueue(n: Ntfn) | EnqueueClosed | Dequeue | ServeBlock | Quit

  predicate Enabled(h: Handler, step: Step) {
    h.running &&
    match step
    case Enqueue(_) => h.enqueueOpen
    case EnqueueClosed => h.enqueueOpen
    case Dequeue => h.dequeueOn && h.next.Some?
    case ServeBlock => true
    case Quit => true
  }

  function Next(h: Handler, step: Step): Handler
    requires Enabled(h, step)
  {
    match step
    case Enqueue(n) =>
      var g := if |h.notifications| == 0 then h.(next := Some(n), dequeueOn := true) else h;
      g.(notifications := h.notifications + [n], accepted := h.accepted + [n])
    case EnqueueClosed =>
      if |h.notifications| == 0 then h.(running := false, drained := true) else h.(enqueueOpen := false)
    case Dequeue =>
      var n := h.next.value;
      var g := h.(delivered := h.delivered + [n],
                  bs := if n.BlockConnected? then ServedBlock(n.hash, n.height) else h.bs,
                  notifications := if |h.notifications| > 0 then h.notifications[1..] else []);
      if |g.notifications| != 0 then g.(next := Some(g.notifications[0]))
      else if !h.enqueueOpen then g.(running := false, drained := true)
      else g.(dequeueOn := false)
    case ServeBlock => h
    case Quit => h.(running := false)
  }

  function Start(best: ServedBlock): Handler {
    Handler([], true, false, None, best, true, [], [], false)
  }

  function Run(best: ServedBlock, steps: seq<Step>): Option<Handler> {
    if steps == [] then Some(Start(best))
    else match Run(best, steps[..|steps| - 1])
      case None => None
      case Some(h) => if Enabled(h, steps[|steps| - 1]) then Some(Next(h, steps[|steps| - 1])) else None
  }

  /** The block of the last connected notification, or the initial best block. */
  function LastConnected(best: ServedBlock, ns: seq<Ntfn>): ServedBlock {
    if ns == [] then best
    else if ns[|ns| - 1].BlockConnected? then ServedBlock(ns[|ns| - 1].hash, ns[|ns| - 1].height)
    else LastConnected(best, ns[..|ns| - 1])
  }

  /** Notification i is a connected block and no later one is. */
  ghost predicate IsLastConnected(ns: seq<Ntfn>, i: nat) {
    i < |ns| && ns[i].BlockConnected? && forall j :: i < j < |ns| ==> !ns[j].BlockConnected?
  }

  lemma {:induction false} LastConnectedMeans(best: ServedBlock, ns: seq<Ntfn>)
    ensures if exists i: nat :: IsLastConnected(ns, i)
            then exists i: nat ::
              IsLastConnected(ns, i) && LastConnected(best, ns) == ServedBlock(ns[i].hash, ns[i].height)
            else LastConnected(best, ns) == best
  {
    if ns != [] {
      var n := |ns| - 1;
      if ns[n].BlockConnected? {
        assert IsLastConnected(ns, n);
      } else {
        LastConnectedMeans(best, ns[..n]);
        forall i: nat ensures IsLastConnected(ns[..n], i) <==> IsLastConnected(ns, i) {
        }
      }
    }
  }

  ghost predicate Inv(best: ServedBlock, h: Handler) {
    && h.delivered + h.notifications == h.accepted
    && (h.running ==> (h.dequeueOn <==> h.notifications != []))
    && (h.dequeueOn && h.notifications != [] ==> h.next == Some(h.notifications[0]))
    && (h.running && !h.enqueueOpen ==> h.notifications != [])
    && (h.drained ==> !h.running && h.notifications == [])
    && h.bs == LastConnected(best, h.delivered)
  }

  lemma DequeueKeepsInv(best: ServedBlock, h: Handler)
    requires Inv(best, h) && Enabled(h, Dequeue)
    ensures Inv(best, Next(h, Dequeue))
  {
    var n := h.next.value;
    assert h.notifications != [] && n == h.notifications[0];
    MoveHead(h.delivered, h.notifications);
    LastConnectedStep(best, h.delivered, n);
  }

  lemma MoveHead(a: seq<Ntfn>, b: seq<Ntfn>)
    requires b != []
    ensures (a + [b[0]]) + b[1..] == a + b
  {
  }

  lemma LastConnectedStep(best: ServedBlock, ns: seq<Ntfn>, n: Ntfn)
    ensures LastConnected(best, ns + [n])
         == if n.BlockConnected? then ServedBlock(n.hash, n.height) else LastConnected(best, ns)
  {
    assert (ns + [n])[..|ns|] == ns;
  }

  lemma InvNext(best: ServedBlock, h: Handler, step: Step)
    requires Inv(best, h) && Enabled(h, step)
    ensures Inv(best, Next(h, step))
  {
    match step {
      case Enqueue(n) => assert h.delivered + (h.notifications + [n]) == h.accepted + [n];
      case EnqueueClosed =>
      case Dequeue => DequeueKeepsInv(best, h);
      case ServeBlock =>
      case Quit =>
    }
  }

  /** In every run: what was delivered, followed by what is queued, is what was accepted, in order;
      `next` is the head of the queue whenever the dequeue case can fire; the block served is the last
      delivered connected block or the initial one; and a handler that ends because its input was
      closed has delivered everything it accepted. */
  lemma {:induction false} RunInv(best: ServedBlock, steps: seq<Step>)
    ensures Run(best, steps).Some? ==>
      var h := Run(best, steps).value;
      && Inv(best, h)
      && (h.running && h.dequeueOn ==> h.notifications != [] && h.next == Some(h.notifications[0]))
      && (h.drained ==> h.delivered == h.accepted)
      && (if exists i: nat :: IsLastConnected(h.delivered, i)
          then exists i: nat :: IsLastConnected(h.delivered, i)
                           && h.bs == ServedBlock(h.delivered[i].hash, h.delivered[i].height)
          else h.bs == best)
  {
    if steps != [] && Run(best, steps).Some? {
      RunInv(best, steps[..|steps| - 1]);
      InvNext(best, Run(best, steps[..|steps| - 1]).value, steps[|steps| - 1]);
    }
    if Run(best, steps).Some? {
      LastConnectedMeans(best, Run(best, steps).value.delivered);
    }
  }

  /** A handler in any run accepts a notification as long as its input is open, and delivers the oldest one it
      holds as soon as its consumer is ready. */
  lemma CanAcceptAndDeliver(best: ServedBlock, steps: seq<Step>, n: Ntfn)
    requires Run(best, steps).Some? && Run(best, steps).value.running
    ensures var h := Run(best, steps).value;
            && (h.enqueueOpen ==> Enabled(h, Enqueue(n)) && Next(h, Enqueue(n)).accepted == h.accepted + [n])
            && (h.notifications != [] ==>
                  Enabled(h, Dequeue) && Next(h, Dequeue).delivered == h.delivered + [h.notifications[0]])
            && (!h.enqueueOpen ==> h.notifications != [])
  {
    RunInv(best, steps);
  }
}
