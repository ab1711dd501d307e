/**
 The pruned block dispatcher (chain/pruned_block_dispatcher.go): clients ask for blocks, a block
 that is already being fetched is shared between its waiters, and a failed fetch is cancelled.

 Each operation holds the dispatcher's lock, so a run is a sequence of operations.  Channels are
 numbers; `capacity` is the buffer size a reply channel is made with.  The last fields of the state
 are history: the waiters of a pending block, the waiters that had joined a pending request when a
 response served them (since the last cancel of the block), and per reply channel which hashes were
 registered on it, handed to delivery, or dropped by a cancel.
 */
module PrunedDispatcher {
  import opened Sequences

  type Hash = nat
  type Chan = nat
  type CancelChan = nat

  const MAX_INV_PER_MSG := 50000

  datatype Waiter = Waiter(reply: Chan, cancel: CancelChan)

  type Log = map<Chan, multiset<Hash>>

  datatype State = State(
    queried: map<Hash, seq<Chan>>,
    cancels: map<Hash, seq<CancelChan>>,
    nextChan: Chan,
    capacity: map<Chan, nat>,
    waiters: map<Hash, seq<Waiter>>,
    served: map<Hash, seq<Waiter>>,
    registered: Log,
    handed: Log,
    dropped: Log)

  const INITIAL := State(map[], map[], 0, map[], map[], map[], map[], map[], map[])

  function At<T>(m: map<Hash, seq<T>>, h: Hash): seq<T> {
    if h in m then m[h] else []
  }

  function Logged(l: Log, c: Chan): multiset<Hash> {
    if c in l then l[c] else multiset{}
  }

  function Record(l: Log, c: Chan, h: Hash): Log {
    l[c := Logged(l, c) + multiset{h}]
  }

  function RecordAll(l: Log, cs: seq<Chan>, h: Hash): Log {
    if cs == [] then l else Record(RecordAll(l, cs[..|cs| - 1], h), cs[|cs| - 1], h)
  }

  // ---------------------------------------------------------------- operations

  function Open(s: State, size: nat): State {
    s.(nextChan := s.nextChan + 1, capacity := s.capacity[s.nextChan := size])
  }

  function Register(s: State, h: Hash, w: Waiter): State {
    s.(queried := s.queried[h := At(s.queried, h) + [w.reply]],
       cancels := if h in s.queried then s.cancels[h := At(s.cancels, h) + [w.cancel]] else s.cancels,
       waiters := s.waiters[h := At(s.waiters, h) + [w]],
       registered := Record(s.registered, w.reply, h))
  }

  function RegisterAll(s: State, blocks: seq<Hash>, w: Waiter): State {
    if blocks == [] then s else Register(RegisterAll(s, blocks[..|blocks| - 1], w), blocks[|blocks| - 1], w)
  }

  /** A request for the blocks, of which the first `accepted` are registered. */
  function Request(s: State, blocks: seq<Hash>, accepted: nat, cancel: CancelChan): State {
    RegisterAll(Open(s, |blocks|), Take(blocks, accepted), Waiter(s.nextChan, cancel))
  }

  function Take(blocks: seq<Hash>, n: nat): (r: seq<Hash>)
    ensures |r| <= |blocks|
  {
    if n < |blocks| then blocks[..n] else blocks
  }

  /** The waiters that joined a request already pending: all but the first. */
  function Joined(ws: seq<Waiter>): seq<Waiter> {
    if ws == [] then [] else ws[1..]
  }

  /** A valid block arrives; cancel channels are left behind. */
  function Respond(s: State, h: Hash): State {
    if h !in s.queried then s
    else s.(queried := s.queried - {h},
            waiters := s.waiters - {h},
            served := s.served[h := At(s.served, h) + Joined(At(s.waiters, h))],
            handed := RecordAll(s.handed, s.queried[h], h))
  }

  function Cancel(s: State, h: Hash): State {
    s.(queried := s.queried - {h},
       cancels := s.cancels - {h},
       waiters := s.waiters - {h},
       served := s.served - {h},
       dropped := RecordAll(s.dropped, At(s.queried, h), h))
  }

  datatype Event =
    | OnRequest(blocks: seq<Hash>, accepted: nat, cancel: CancelChan)
    | OnResponse(h: Hash)
    | OnCancel(h: Hash)

  function Apply(s: State, e: Event): State {
    match e
    case OnRequest(blocks, accepted, cancel) => Request(s, blocks, accepted, cancel)
    case OnResponse(h) => Respond(s, h)
    case OnCancel(h) => Cancel(s, h)
  }

  function Run(es: seq<Event>): State {
    if es == [] then INITIAL else Apply(Run(es[..|es| - 1]), es[|es| - 1])
  }

  // ---------------------------------------------------------------- invariants

  ghost function Replies(ws: seq<Waiter>): seq<Chan> {
    seq(|ws|, i requires 0 <= i < |ws| => ws[i].reply)
  }

  ghost function CancelsOf(ws: seq<Waiter>): seq<CancelChan> {
    seq(|ws|, i requires 0 <= i < |ws| => ws[i].cancel)
  }

  /** The pending list of h is its waiters' reply channels, and its cancel list is the cancel channels of
      the served waiters that had joined, followed by those of the current ones. */
  ghost predicate WaitersMatch(s: State, h: Hash) {
    && (h in s.queried <==> h in s.waiters)
    && At(s.queried, h) == Replies(At(s.waiters, h))
    && (h in s.queried ==> s.waiters[h] != [])
    && At(s.cancels, h) == CancelsOf(At(s.served, h) + Joined(At(s.waiters, h)))
  }

  /** Registrations of h on c are pending, handed to delivery or dropped, each exactly once. */
  ghost predicate Balanced(s: State, c: Chan, h: Hash) {
    Logged(s.registered, c)[h] == multiset(At(s.queried, h))[c] + Logged(s.handed, c)[h] + Logged(s.dropped, c)[h]
  }

  /** No channel is registered for more blocks than it can buffer. */
  ghost predicate Bounded(s: State, c: Chan) {
    && (c in s.capacity <==> c < s.nextChan)
    && |Logged(s.registered, c)| <= if c in s.capacity then s.capacity[c] else 0
  }

  ghost predicate Inv(s: State) {
    && (forall h {:trigger WaitersMatch(s, h)} :: WaitersMatch(s, h))
    && (forall c, h {:trigger Balanced(s, c, h)} :: Balanced(s, c, h))
    && (forall c {:trigger Bounded(s, c)} :: Bounded(s, c))
  }

  lemma {:induction false} RecordAllAt(l: Log, cs: seq<Chan>, h: Hash, c: Chan, g: Hash)
    ensures Logged(RecordAll(l, cs, h), c)[g] == Logged(l, c)[g] + if g == h then multiset(cs)[c] else 0
  {
    if cs != [] {
      var n := |cs| - 1;
      RecordAllAt(l, cs[..n], h, c, g);
      CountAppend(cs[..n], cs[n], c);
      assert cs == cs[..n] + [cs[n]];
    }
  }

  lemma RegisterWaiters(s: State, h: Hash, w: Waiter, g: Hash)
    requires WaitersMatch(s, g) && WaitersMatch(s, h)
    ensures WaitersMatch(Register(s, h, w), g)
  {
    var r := Register(s, h, w);
    if g == h {
      JoinWaiters(At(s.served, h), At(s.waiters, h), w);
      assert At(r.served, h) == At(s.served, h) && At(r.waiters, h) == At(s.waiters, h) + [w];
    } else {
      assert At(r.queried, g) == At(s.queried, g) && At(r.waiters, g) == At(s.waiters, g);
      assert At(r.cancels, g) == At(s.cancels, g);
    }
  }

  lemma JoinWaiters(before: seq<Waiter>, ws: seq<Waiter>, w: Waiter)
    ensures Replies(ws + [w]) == Replies(ws) + [w.reply]
    ensures CancelsOf(before + Joined(ws + [w]))
         == if ws == [] then CancelsOf(before + Joined(ws)) else CancelsOf(before + Joined(ws)) + [w.cancel]
  {
    if ws == [] {
      assert Joined(ws + [w]) == [];
    } else {
      assert Joined(ws + [w]) == Joined(ws) + [w];
      assert before + (Joined(ws) + [w]) == (before + Joined(ws)) + [w];
    }
  }

  lemma RegisterBalanced(s: State, h: Hash, w: Waiter, c: Chan, g: Hash)
    requires Balanced(s, c, g)
    ensures Balanced(Register(s, h, w), c, g)
  {
    if g == h {
      CountAppend(At(s.queried, h), w.reply, c);
    }
  }

  lemma {:induction false} RegisterAllKeeps(s: State, blocks: seq<Hash>, w: Waiter, h: Hash, c: Chan, g: Hash)
    requires forall x {:trigger WaitersMatch(s, x)} :: WaitersMatch(s, x)
    requires Balanced(s, c, g)
    ensures WaitersMatch(RegisterAll(s, blocks, w), h)
    ensures Balanced(RegisterAll(s, blocks, w), c, g)
  {
    if blocks == [] {
      assert WaitersMatch(s, h);
    } else {
      var n := |blocks| - 1;
      var r := RegisterAll(s, blocks[..n], w);
      RegisterAllKeeps(s, blocks[..n], w, h, c, g);
      RegisterAllKeeps(s, blocks[..n], w, blocks[n], c, g);
      RegisterWaiters(r, blocks[n], w, h);
      RegisterBalanced(r, blocks[n], w, c, g);
    }
  }

  lemma {:induction false} RegisterAllCounts(s: State, blocks: seq<Hash>, w: Waiter, c: Chan)
    ensures var r := RegisterAll(s, blocks, w);
            && r.nextChan == s.nextChan && r.capacity == s.capacity
            && |Logged(r.registered, c)| == |Logged(s.registered, c)| + if c == w.reply then |blocks| else 0
  {
    if blocks != [] {
      RegisterAllCounts(s, blocks[..|blocks| - 1], w, c);
    }
  }

  lemma RequestPointwise(s: State, blocks: seq<Hash>, accepted: nat, cancel: CancelChan, c: Chan, h: Hash)
    requires Inv(s)
    ensures WaitersMatch(Request(s, blocks, accepted, cancel), h)
            && Balanced(Request(s, blocks, accepted, cancel), c, h)
  {
    var o := Open(s, |blocks|);
    forall g ensures WaitersMatch(o, g) {
      assert WaitersMatch(s, g);
    }
    assert Balanced(s, c, h);
    assert Balanced(o, c, h);
    RegisterAllKeeps(o, Take(blocks, accepted), Waiter(s.nextChan, cancel), h, c, h);
  }

  lemma RequestBounded(s: State, blocks: seq<Hash>, accepted: nat, cancel: CancelChan, c: Chan)
    requires Inv(s)
    ensures Bounded(Request(s, blocks, accepted, cancel), c)
  {
    assert Bounded(s, c);
    RegisterAllCounts(Open(s, |blocks|), Take(blocks, accepted), Waiter(s.nextChan, cancel), c);
  }

  lemma RequestKeepsInv(s: State, blocks: seq<Hash>, accepted: nat, cancel: CancelChan)
    requires Inv(s)
    ensures Inv(Request(s, blocks, accepted, cancel))
  {
    var r := Request(s, blocks, accepted, cancel);
    forall h ensures WaitersMatch(r, h) {
      RequestPointwise(s, blocks, accepted, cancel, 0, h);
    }
    forall c, h ensures Balanced(r, c, h) {
      RequestPointwise(s, blocks, accepted, cancel, c, h);
    }
    forall c ensures Bounded(r, c) {
      RequestBounded(s, blocks, accepted, cancel, c);
    }
  }

  lemma RespondWaiters(s: State, h: Hash, g: Hash)
    requires WaitersMatch(s, g)
    ensures WaitersMatch(Respond(s, h), g)
  {
    var r := Respond(s, h);
    if h in s.queried && g == h {
      assert At(r.served, h) + Joined(At(r.waiters, h)) == At(s.served, h) + Joined(At(s.waiters, h));
    }
  }

  lemma RespondBalanced(s: State, h: Hash, c: Chan, g: Hash)
    requires Balanced(s, c, g)
    ensures Balanced(Respond(s, h), c, g)
  {
    RecordAllAt(s.handed, At(s.queried, h), h, c, g);
    assert h in s.queried ==> At(Respond(s, h).queried, g) == if g == h then [] else At(s.queried, g);
  }

  lemma RespondKeepsInv(s: State, h: Hash)
    requires Inv(s)
    ensures Inv(Respond(s, h))
  {
    var r := Respond(s, h);
    forall g ensures WaitersMatch(r, g) {
      assert WaitersMatch(s, g);
      RespondWaiters(s, h, g);
    }
    forall c, g ensures Balanced(r, c, g) {
      assert Balanced(s, c, g);
      RespondBalanced(s, h, c, g);
    }
    forall c ensures Bounded(r, c) {
      assert Bounded(s, c);
    }
  }

  lemma CancelWaiters(s: State, h: Hash, g: Hash)
    requires WaitersMatch(s, g)
    ensures WaitersMatch(Cancel(s, h), g)
  {
  }

  lemma CancelBalanced(s: State, h: Hash, c: Chan, g: Hash)
    requires Balanced(s, c, g)
    ensures Balanced(Cancel(s, h), c, g)
  {
    RecordAllAt(s.dropped, At(s.queried, h), h, c, g);
    assert At(Cancel(s, h).queried, g) == if g == h then [] else At(s.queried, g);
  }

  lemma CancelKeepsInv(s: State, h: Hash)
    requires Inv(s)
    ensures Inv(Cancel(s, h))
  {
    var r := Cancel(s, h);
    forall g ensures WaitersMatch(r, g) {
      assert WaitersMatch(s, g);
      CancelWaiters(s, h, g);
    }
    forall c, g ensures Balanced(r, c, g) {
      assert Balanced(s, c, g);
      CancelBalanced(s, h, c, g);
    }
    forall c ensures Bounded(r, c) {
      assert Bounded(s, c);
    }
  }

  /** Every interleaving of requests, responses and cancels keeps the invariants. */
  lemma {:induction false} RunKeepsInv(es: seq<Event>)
    ensures Inv(Run(es))
  {
    if es == [] {
      assert forall h :: WaitersMatch(INITIAL, h);
    } else {
      RunKeepsInv(es[..|es| - 1]);
      var s := Run(es[..|es| - 1]);
      match es[|es| - 1] {
        case OnRequest(blocks, accepted, cancel) => RequestKeepsInv(s, blocks, accepted, cancel);
        case OnResponse(h) => RespondKeepsInv(s, h);
        case OnCancel(h) => CancelKeepsInv(s, h);
      }
    }
  }

  lemma SubsetCount(a: multiset<Hash>, b: multiset<Hash>)
    requires a <= b
    ensures |a| <= |b|
  {
    assert b == a + (b - a);
  }

  /** In every run, the deliveries handed to a reply channel fit in its buffer. */
  lemma DeliveriesFitBuffer(es: seq<Event>, c: Chan)
    ensures var s := Run(es);
            |Logged(s.handed, c)| <= if c in s.capacity then s.capacity[c] else 0
  {
    var s := Run(es);
    RunKeepsInv(es);
    assert Bounded(s, c);
    forall h ensures Logged(s.handed, c)[h] <= Logged(s.registered, c)[h] {
      assert Balanced(s, c, h);
    }
    SubsetCount(Logged(s.handed, c), Logged(s.registered, c));
  }

  /** Every served waiter was handed the block. */
  ghost predicate ServedHanded(s: State, h: Hash) {
    forall w :: w in At(s.served, h) ==> h in Logged(s.handed, w.reply)
  }

  lemma {:induction false} RegisterAllHistory(s: State, blocks: seq<Hash>, w: Waiter)
    ensures RegisterAll(s, blocks, w).served == s.served && RegisterAll(s, blocks, w).handed == s.handed
  {
    if blocks != [] {
      RegisterAllHistory(s, blocks[..|blocks| - 1], w);
    }
  }

  lemma RespondHands(s: State, h: Hash, g: Hash)
    requires WaitersMatch(s, h) && ServedHanded(s, g)
    ensures ServedHanded(Respond(s, h), g)
  {
    var r := Respond(s, h);
    if h in s.queried {
      forall w | w in At(r.served, g) ensures g in Logged(r.handed, w.reply) {
        RecordAllAt(s.handed, s.queried[h], h, w.reply, g);
        if w !in At(s.served, g) {
          assert g == h;
          var i :| 0 <= i < |s.waiters[h]| && s.waiters[h][i] == w;
          assert s.queried[h][i] == w.reply;
        }
      }
    }
  }

  lemma {:induction false} RunHands(es: seq<Event>, h: Hash)
    ensures ServedHanded(Run(es), h)
  {
    if es != [] {
      var front := es[..|es| - 1];
      var s := Run(front);
      RunHands(front, h);
      match es[|es| - 1] {
        case OnRequest(blocks, accepted, cancel) =>
          RegisterAllHistory(Open(s, |blocks|), Take(blocks, accepted), Waiter(s.nextChan, cancel));
        case OnResponse(g) =>
          RunKeepsInv(front);
          assert WaitersMatch(s, g);
          RespondHands(s, g, h);
        case OnCancel(g) =>
      }
    }
  }

  /** In every run, cancelling a pending hash reaches every waiter but the first; the only other channels
      it reaches are those of waiters that had joined the request and were handed the block already. */
  lemma CancelReachesDependents(es: seq<Event>, h: Hash)
    requires h in Run(es).queried
    ensures var s := Run(es);
            && h in s.waiters && s.waiters[h] != [] && s.queried[h] == Replies(s.waiters[h])
            && At(s.cancels, h) == CancelsOf(At(s.served, h) + s.waiters[h][1..])
            && |At(s.cancels, h)| >= |s.queried[h]| - 1
            && forall w :: w in At(s.served, h) ==> h in Logged(s.handed, w.reply)
  {
    RunKeepsInv(es);
    assert WaitersMatch(Run(es), h);
    RunHands(es, h);
  }

  /** Event i is a response that finds several waiters for h. */
  ghost predicate ServesSeveral(es: seq<Event>, h: Hash, i: nat)
    requires i < |es|
  {
    es[i] == OnResponse(h) && |At(Run(es[..i]).waiters, h)| > 1
  }

  /** Since the last cancel of h some response found several waiters for it. */
  ghost predicate Stale(es: seq<Event>, h: Hash) {
    exists i :: 0 <= i < |es| && ServesSeveral(es, h, i) && OnCancel(h) !in es[i..]
  }

  lemma StaleLast(es: seq<Event>, h: Hash)
    requires es != []
    ensures var n := |es| - 1;
            Stale(es, h) <==> es[n] != OnCancel(h) && (Stale(es[..n], h) || ServesSeveral(es, h, n))
  {
    var n := |es| - 1;
    var front := es[..n];
    forall i: nat | i < n
      ensures ServesSeveral(front, h, i) <==> ServesSeveral(es, h, i)
      ensures OnCancel(h) in es[i..] <==> OnCancel(h) in front[i..] || es[n] == OnCancel(h)
    {
      assert front[..i] == es[..i];
      assert es[i..] == front[i..] + [es[n]];
    }
    assert es[n..] == [es[n]];
  }

  lemma {:induction false} ServedIffStale(es: seq<Event>, h: Hash)
    ensures At(Run(es).served, h) != [] <==> Stale(es, h)
  {
    if es != [] {
      var front := es[..|es| - 1];
      var s := Run(front);
      ServedIffStale(front, h);
      StaleLast(es, h);
      match es[|es| - 1] {
        case OnRequest(blocks, accepted, cancel) =>
          RegisterAllHistory(Open(s, |blocks|), Take(blocks, accepted), Waiter(s.nextChan, cancel));
        case OnResponse(g) =>
          RunKeepsInv(front);
          assert WaitersMatch(s, g);
        case OnCancel(g) =>
      }
    }
  }

  /** In every run, a cancel of a pending hash reaches the waiters that depend on it and nobody else if
      and only if no response since the last cancel of the hash found several waiters. */
  lemma CancelReachesOnlyCurrent(es: seq<Event>, h: Hash)
    requires h in Run(es).queried
    ensures var s := Run(es);
            At(s.cancels, h) == CancelsOf(Joined(At(s.waiters, h))) <==> !Stale(es, h)
  {
    var s := Run(es);
    RunKeepsInv(es);
    assert WaitersMatch(s, h);
    ServedIffStale(es, h);
    if At(s.served, h) == [] {
      assert At(s.served, h) + Joined(At(s.waiters, h)) == Joined(At(s.waiters, h));
    } else {
      assert |CancelsOf(At(s.served, h) + Joined(At(s.waiters, h)))| > |CancelsOf(Joined(At(s.waiters, h)))|;
    }
  }

  /** A run after which a cancel reaches a channel although the hash has a single waiter: two requests
      share a block, it is served, and a third request asks for it again. */
  lemma StaleChannelReached()
    ensures var es := [OnRequest([7], 1, 10), OnRequest([7], 1, 11), OnResponse(7), OnRequest([7], 1, 12)];
            && At(Run(es).waiters, 7) == [Waiter(2, 12)]
            && At(Run(es).cancels, 7) == [11]
  {
    var e1, e2, e3, e4 := OnRequest([7], 1, 10), OnRequest([7], 1, 11), OnResponse(7), OnRequest([7], 1, 12);
    var s1 := Apply(INITIAL, e1);
    var s2 := Apply(s1, e2);
    var s3 := Apply(s2, e3);
    var s4 := Apply(s3, e4);
    RegisterOne(Open(INITIAL, 1), 7, Waiter(0, 10));
    RegisterOne(Open(s1, 1), 7, Waiter(1, 11));
    RegisterOne(Open(s3, 1), 7, Waiter(2, 12));
    assert At(s2.cancels, 7) == [11] && At(s2.waiters, 7) == [Waiter(0, 10), Waiter(1, 11)];
    assert [e1, e2, e3, e4][..3] == [e1, e2, e3] && [e1, e2, e3][..2] == [e1, e2] && [e1, e2][..1] == [e1]
           && [e1][..0] == [];
    assert Run([e1]) == s1;
    assert Run([e1, e2]) == s2;
    assert Run([e1, e2, e3]) == s3;
    assert Run([e1, e2, e3, e4]) == s4;
  }

  lemma RegisterOne(s: State, h: Hash, w: Waiter)
    ensures RegisterAll(s, [h], w) == Register(s, h, w)
  {
    assert [h][..0] == [];
    assert RegisterAll(s, [h][..0], w) == s;
  }

  // ---------------------------------------------------------------- the dispatcher

  /** The first occurrences of the hashes that are not pending, in order. */
  function NewHashes(blocks: seq<Hash>, pending: set<Hash>): seq<Hash> {
    if blocks == [] then []
    else
      var n := |blocks| - 1;
      NewHashes(blocks[..n], pending) + (if blocks[n] in pending || blocks[n] in blocks[..n] then [] else [blocks[n]])
  }

  /** NewHashes lists each hash that is not pending exactly once. */
  lemma {:induction false} NewHashesAre(blocks: seq<Hash>, pending: set<Hash>, h: Hash)
    ensures multiset(NewHashes(blocks, pending))[h] == if h in blocks && h !in pending then 1 else 0
  {
    if blocks != [] {
      var n := |blocks| - 1;
      NewHashesAre(blocks[..n], pending, h);
      assert blocks == blocks[..n] + [blocks[n]];
      CountAppend(NewHashes(blocks[..n], pending), blocks[n], h);
      assert NewHashes(blocks[..n], pending) + [] == NewHashes(blocks[..n], pending);
    }
  }

  /** Position i holds a hash that is not pending and occurs at no earlier position. */
  ghost predicate IsFirst(blocks: seq<Hash>, pending: set<Hash>, i: nat) {
    i < |blocks| && blocks[i] !in pending && blocks[i] !in blocks[..i]
  }

  /** hs lists the hashes at the positions `at`: all the first ones, in ascending order. */
  ghost predicate ListsFirst(blocks: seq<Hash>, pending: set<Hash>, hs: seq<Hash>, at: seq<nat>) {
    && |at| == |hs| && Ascending(at)
    && (forall m :: 0 <= m < |at| ==> at[m] < |blocks| && hs[m] == blocks[at[m]])
    && (forall i: nat :: i in at <==> IsFirst(blocks, pending, i))
  }

  lemma ListMore(blocks: seq<Hash>, pending: set<Hash>, hs: seq<Hash>, at: seq<nat>, h: Hash)
    requires ListsFirst(blocks, pending, hs, at)
    ensures if h in pending || h in blocks then ListsFirst(blocks + [h], pending, hs, at)
            else ListsFirst(blocks + [h], pending, hs + [h], at + [|blocks|])
  {
    var all := blocks + [h];
    forall i: nat | i < |blocks| ensures IsFirst(all, pending, i) <==> IsFirst(blocks, pending, i) {
      assert all[..i] == blocks[..i] && all[i] == blocks[i];
    }
    assert all[..|blocks|] == blocks && all[|blocks|] == h;
    forall i: nat ensures i in at + [|blocks|] <==> i in at || i == |blocks| {
    }
    forall i: nat ensures IsFirst(all, pending, i) ==> i < |blocks| || i == |blocks| {
    }
  }

  /** NewHashes lists the hashes that are not pending by their first occurrence, in order. */
  lemma {:induction false} NewHashesByPosition(blocks: seq<Hash>, pending: set<Hash>) returns (at: seq<nat>)
    ensures ListsFirst(blocks, pending, NewHashes(blocks, pending), at)
  {
    at := [];
    if blocks != [] {
      var n := |blocks| - 1;
      var front, h := blocks[..n], blocks[n];
      assert blocks == front + [h];
      at := NewHashesByPosition(front, pending);
      ListMore(front, pending, NewHashes(front, pending), at, h);
      if h in pending || h in front {
        assert NewHashes(blocks, pending) == NewHashes(front, pending);
      } else {
        assert NewHashes(blocks, pending) == NewHashes(front, pending) + [h];
        at := at + [n];
      }
    }
  }

  /** A complete request opens one reply channel whose buffer is exactly the number of its blocks, and
      registers exactly as many. */
  lemma RequestOpens(s: State, blocks: seq<Hash>, accepted: nat, cancel: CancelChan)
    requires Inv(s)
    ensures var r := Request(s, blocks, accepted, cancel);
            && r.nextChan == s.nextChan + 1 && r.capacity == s.capacity[s.nextChan := |blocks|]
            && |Logged(r.registered, s.nextChan)| == if accepted < |blocks| then accepted else |blocks|
  {
    assert Bounded(s, s.nextChan);
    RegisterAllCounts(Open(s, |blocks|), Take(blocks, accepted), Waiter(s.nextChan, cancel), s.nextChan);
  }

  lemma {:induction false} RegisterAllKeys(s: State, blocks: seq<Hash>, w: Waiter, h: Hash)
    ensures h in RegisterAll(s, blocks, w).queried <==> h in s.queried || h in blocks
  {
    if blocks != [] {
      var n := |blocks| - 1;
      RegisterAllKeys(s, blocks[..n], w, h);
      assert blocks == blocks[..n] + [blocks[n]];
    }
  }

  /** Non-empty lists of exactly `size` entries, except that the last may be shorter unless `full`. */
  ghost predicate Packed(reqs: seq<seq<Hash>>, size: int, full: bool) {
    forall k :: 0 <= k < |reqs| ==> 0 < |reqs[k]| <= size && (k < |reqs| - 1 || full ==> |reqs[k]| == size)
  }

  datatype Progress = Progress(progressed: bool, finished: bool)

  class Dispatcher {
    const maxRequestInvs: int
    var blocksQueried: map<Hash, seq<Chan>>
    var blockQueryCancel: map<Hash, seq<CancelChan>>
    var nextChan: Chan
    ghost var s: State

    /** The fields are those of the ghost state. */
    ghost predicate Linked()
      reads this
    {
      s.queried == blocksQueried && s.cancels == blockQueryCancel && s.nextChan == nextChan
    }

    ghost predicate Valid()
      reads this
    {
      Linked() && Inv(s)
    }

    constructor (maxRequestInvs: int)
      requires maxRequestInvs <= MAX_INV_PER_MSG
      ensures Valid() && s == INITIAL && this.maxRequestInvs == maxRequestInvs
    {
      this.maxRequestInvs := maxRequestInvs;
      blocksQueried, blockQueryCancel, nextChan, s := map[], map[], 0, INITIAL;
      new;
      RunKeepsInv([]);
    }

    /** Add a waiter for h; true iff nobody was waiting for it. */
    method RegisterBlock(h: Hash, w: Waiter) returns (isNew: bool)
      requires Linked()
      modifies this
      ensures Linked() && s == Register(old(s), h, w)
      ensures isNew <==> h !in old(blocksQueried)
    {
      isNew := h !in blocksQueried;
      if !isNew {
        var cancels := if h in blockQueryCancel then blockQueryCancel[h] else [];
        blockQueryCancel := blockQueryCancel[h := cancels + [w.cancel]];
      }
      var chans := if h in blocksQueried then blocksQueried[h] else [];
      blocksQueried := blocksQueried[h := chans + [w.reply]];
      s := Register(s, h, w);
    }

    method NewRequest(blocks: seq<Hash>, cancel: CancelChan)
      returns (ok: bool, reqs: seq<seq<Hash>>, reply: Chan, ghost accepted: nat)
      requires Valid() && maxRequestInvs <= MAX_INV_PER_MSG
      modifies this
      ensures Valid() && reply == old(nextChan)
      ensures s == Request(old(s), blocks, accepted, cancel)
      ensures ok ==> accepted == |blocks|
      ensures maxRequestInvs >= 1 ==>
        && ok
        && Flatten(reqs) == NewHashes(blocks, old(blocksQueried).Keys)
        && Packed(reqs, maxRequestInvs, false)
    {
      ghost var s0, pending := s, blocksQueried.Keys;
      reply := nextChan;
      nextChan := nextChan + 1;
      s := Open(s, |blocks|);
      ok, reqs, accepted := RegisterBlocks(blocks, Waiter(reply, cancel));
      assert Take(blocks, accepted) == blocks[..accepted];
      RequestKeepsInv(s0, blocks, accepted, cancel);
    }

    method RegisterBlocks(blocks: seq<Hash>, w: Waiter) returns (ok: bool, reqs: seq<seq<Hash>>, ghost accepted: nat)
      requires Linked() && maxRequestInvs <= MAX_INV_PER_MSG
      modifies this
      ensures Linked() && accepted <= |blocks| && s == RegisterAll(old(s), blocks[..accepted], w)
      ensures ok ==> accepted == |blocks|
      ensures maxRequestInvs >= 1 ==>
        && ok
        && Flatten(reqs) == NewHashes(blocks, old(s).queried.Keys)
        && Packed(reqs, maxRequestInvs, false)
    {
      ghost var o := s;
      var getData: seq<Hash> := [];
      reqs := [];
      for i := 0 to |blocks|
        invariant Linked() && s == RegisterAll(o, blocks[..i], w)
        invariant (reqs, getData) == Fill(blocks, o.queried.Keys, maxRequestInvs, i)
      {
        RegisterNext(o, blocks, i, w);
        if blocks[i] !in blocksQueried && |getData| + 1 > MAX_INV_PER_MSG {
          ok, accepted := false, i;
          FillInventories(blocks, o.queried.Keys, maxRequestInvs, i);
          return;
        }
        ghost var filled := Filled(getData, blocks, o.queried.Keys, i);
        var isNew := RegisterBlock(blocks[i], w);
        if isNew {
          getData := getData + [blocks[i]];
        }
        assert getData == filled;
        if (|getData| > 0 && i == |blocks| - 1) || |getData| == maxRequestInvs {
          reqs := reqs + [getData];
          getData := [];
        }
      }
      assert blocks[..|blocks|] == blocks;
      ok, accepted := true, |blocks|;
      FillInventories(blocks, o.queried.Keys, maxRequestInvs, |blocks|);
    }

    /** A message arrives for a request.  `isBlock` and `isGetData` are the message type tests and
        `sane` the block validation; delivery goes to every waiter of the block. */
    method HandleResp(invs: seq<Hash>, h: Hash, isBlock: bool, isGetData: bool, sane: bool)
      returns (progress: Progress, delivered: seq<Chan>)
      requires Valid()
      modifies this
      ensures Valid()
      ensures progress.progressed == (isBlock && isGetData && sane && h in old(blocksQueried))
      ensures s == if progress.progressed then Respond(old(s), h) else old(s)
      ensures delivered == if progress.progressed then old(blocksQueried)[h] else []
      ensures progress.finished <==> progress.progressed && forall inv :: inv in invs ==> inv !in blocksQueried
    {
      progress, delivered := Progress(false, false), [];
      if !isBlock || !isGetData || h !in blocksQueried || !sane { return; }
      delivered := blocksQueried[h];
      RespondKeepsInv(s, h);
      s := Respond(s, h);
      blocksQueried := blocksQueried - {h};
      progress := Progress(true, true);
      for k := 0 to |invs|
        invariant progress == Progress(true, true)
        invariant forall j :: 0 <= j < k ==> invs[j] !in blocksQueried
      {
        if invs[k] in blocksQueried {
          progress := Progress(true, false);
          return;
        }
      }
    }

    /** Forget the request for h and fail every dependent waiter. */
    method CancelRequest(h: Hash) returns (failed: seq<CancelChan>)
      requires Valid()
      modifies this
      ensures Valid() && s == Cancel(old(s), h) && h !in blocksQueried
      ensures failed == At(old(blockQueryCancel), h)
      ensures forall i :: 1 <= i < |At(old(s).waiters, h)| ==> At(old(s).waiters, h)[i].cancel in failed
    {
      failed := if h in blockQueryCancel then blockQueryCancel[h] else [];
      CancelCovers(s, h);
      CancelKeepsInv(s, h);
      s := Cancel(s, h);
      blocksQueried := blocksQueried - {h};
      blockQueryCancel := blockQueryCancel - {h};
    }
  }

  lemma CancelCovers(s: State, h: Hash)
    requires Inv(s)
    ensures forall i :: 1 <= i < |At(s.waiters, h)| ==> At(s.waiters, h)[i].cancel in At(s.cancels, h)
  {
    assert WaitersMatch(s, h);
    var ws, served := At(s.waiters, h), At(s.served, h);
    forall i | 1 <= i < |ws| ensures ws[i].cancel in At(s.cancels, h) {
      assert (served + Joined(ws))[|served| + i - 1] == ws[i];
      assert CancelsOf(served + Joined(ws))[|served| + i - 1] == ws[i].cancel;
    }
  }

  lemma RegisterNext(o: State, blocks: seq<Hash>, i: nat, w: Waiter)
    requires i < |blocks|
    ensures RegisterAll(o, blocks[..i + 1], w) == Register(RegisterAll(o, blocks[..i], w), blocks[i], w)
    ensures blocks[i] in RegisterAll(o, blocks[..i], w).queried <==> blocks[i] in o.queried || blocks[i] in blocks[..i]
  {
    assert blocks[..i + 1][..i] == blocks[..i] && blocks[..i + 1][i] == blocks[i];
    RegisterAllKeys(o, blocks[..i], w, blocks[i]);
  }

  /** The lists queued so far, and the one being filled, hold the new hashes of the first i blocks. */
  ghost predicate Inventoried(reqs: seq<seq<Hash>>, getData: seq<Hash>, blocks: seq<Hash>, i: nat,
                              pending: set<Hash>, size: int)
    requires i <= |blocks|
  {
    && Flatten(reqs) + getData == NewHashes(blocks[..i], pending)
    && Packed(reqs, size, i < |blocks|)
    && |getData| < size && (i == |blocks| ==> getData == [])
  }

  /** The lists queued, and the one being filled, after the first i blocks. */
  function Fill(blocks: seq<Hash>, pending: set<Hash>, size: int, i: nat): (seq<seq<Hash>>, seq<Hash>)
    requires i <= |blocks|
  {
    if i == 0 then ([], [])
    else
      var (reqs, getData) := Fill(blocks, pending, size, i - 1);
      var filled := Filled(getData, blocks, pending, i - 1);
      if (|filled| > 0 && i == |blocks|) || |filled| == size then (reqs + [filled], []) else (reqs, filled)
  }

  function Filled(getData: seq<Hash>, blocks: seq<Hash>, pending: set<Hash>, i: nat): seq<Hash>
    requires i < |blocks|
  {
    if blocks[i] in pending || blocks[i] in blocks[..i] then getData else getData + [blocks[i]]
  }

  lemma {:induction false} FillInventories(blocks: seq<Hash>, pending: set<Hash>, size: int, i: nat)
    requires i <= |blocks|
    ensures size >= 1 ==>
      var (reqs, getData) := Fill(blocks, pending, size, i); Inventoried(reqs, getData, blocks, i, pending, size)
  {
    if i > 0 {
      FillInventories(blocks, pending, size, i - 1);
      var (reqs, getData) := Fill(blocks, pending, size, i - 1);
      InventoryNext(reqs, getData, blocks, i - 1, pending, size);
    }
  }

  lemma InventoryNext(reqs: seq<seq<Hash>>, getData: seq<Hash>, blocks: seq<Hash>, i: nat, pending: set<Hash>,
                      size: int)
    requires i < |blocks|
    ensures size >= 1 && Inventoried(reqs, getData, blocks, i, pending, size) ==>
      var filled := Filled(getData, blocks, pending, i);
      if (|filled| > 0 && i == |blocks| - 1) || |filled| == size
      then Inventoried(reqs + [filled], [], blocks, i + 1, pending, size)
      else Inventoried(reqs, filled, blocks, i + 1, pending, size)
  {
    var filled := Filled(getData, blocks, pending, i);
    assert blocks[..i + 1][..i] == blocks[..i];
    FlattenAppend(reqs, filled);
    assert Flatten(reqs) + (getData + [blocks[i]]) == Flatten(reqs) + getData + [blocks[i]];
  }
}
