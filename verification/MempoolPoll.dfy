/**
 Polling the backend's mempool (chain/mempool.go): unmark everything, mark what the snapshot still
 has, sweep the rest and fetch the unseen transactions in batches.

 The first part lets other callers add and clean transactions between any two lock acquisitions of
 the poll.  The second part is the poll run on its own, with its batching.
 */
module MempoolPoll {
  import opened Wrappers
  import opened Wire
  import opened Sequences
  import opened LocalMempool

  // ---------------------------------------------------------------- the poll among other callers

  datatype Phase = Idle | Scanning | Found | Swept

  /** The pool, the poll's local state, and what has happened since its unmark step. */
  datatype State = State(
    pool: Pool,
    phase: Phase,
    snapshot: seq<Txid>,
    i: nat,
    newTxids: seq<Txid>,
    held: set<Txid>,
    added: set<Txid>,
    cleaned: set<Txid>,
    swept: set<Txid>)

  /** One critical section: of another caller, or of the poll. */
  datatype Step =
    | EnvAdd(tx: Tx)
    | EnvClean(txs: seq<Tx>)
    | PollUnmark(snapshot: seq<Txid>)
    | PollCheck
    | PollMark
    | PollSweep

  function Hashes(txs: seq<Tx>): set<Txid> {
    set k | 0 <= k < |txs| :: txs[k].hash
  }

  predicate Enabled(s: State, step: Step) {
    match step
    case EnvAdd(_) => true
    case EnvClean(_) => true
    case PollUnmark(_) => s.phase == Idle || s.phase == Swept
    case PollCheck => s.phase == Scanning && s.i < |s.snapshot|
    case PollMark => s.phase == Found && s.i < |s.snapshot|
    case PollSweep => s.phase == Scanning && s.i == |s.snapshot|
  }

  predicate Polling(s: State) {
    s.phase == Scanning || s.phase == Found
  }

  function Unmarked(p: Pool): set<Txid> {
    set t | t in p.txs && !p.txs[t]
  }

  function Next(s: State, step: Step, indexed: bool): State
    requires Enabled(s, step)
  {
    match step
    case EnvAdd(tx) =>
      s.(pool := Add(s.pool, tx, indexed),
         added := if Polling(s) && tx.ins != [OutPoint(0, 0xFFFF_FFFF)] then s.added + {tx.hash} else s.added)
    case EnvClean(txs) =>
      s.(pool := Clean(s.pool, txs), cleaned := if Polling(s) then s.cleaned + Hashes(txs) else s.cleaned)
    case PollUnmark(snapshot) =>
      State(UnmarkAll(s.pool), Scanning, snapshot, 0, [], s.pool.txs.Keys, {}, {}, {})
    case PollCheck =>
      if s.snapshot[s.i] in s.pool.txs then s.(phase := Found)
      else s.(i := s.i + 1, newTxids := s.newTxids + [s.snapshot[s.i]])
    case PollMark =>
      s.(pool := Mark(s.pool, s.snapshot[s.i]), phase := Scanning, i := s.i + 1)
    case PollSweep =>
      s.(pool := Sweep(s.pool), phase := Swept, swept := Unmarked(s.pool))
  }

  const INITIAL := State(EMPTY_POOL, Idle, [], 0, [], {}, {}, {}, {})

  /** The state after a run, if every step was enabled when it was taken. */
  function Run(steps: seq<Step>, indexed: bool): Option<State> {
    if steps == [] then Some(INITIAL)
    else match Run(steps[..|steps| - 1], indexed)
      case None => None
      case Some(s) =>
        if Enabled(s, steps[|steps| - 1]) then Some(Next(s, steps[|steps| - 1], indexed)) else None
  }

  /** Left to the sweep: held at the unmark, and since then neither added, cleaned nor marked. */
  ghost predicate Condemned(s: State, t: Txid)
    requires s.i <= |s.snapshot|
  {
    t in s.held && t !in s.added && t !in s.cleaned && t !in s.snapshot[..s.i]
  }

  ghost predicate Inv(s: State) {
    && s.i <= |s.snapshot|
    && (s.phase == Found ==> s.i < |s.snapshot|)
    && (Polling(s) ==> forall t :: t in s.held && t !in s.cleaned ==> t in s.pool.txs)
    && (Polling(s) ==> forall t :: (t in s.pool.txs && !s.pool.txs[t]) <==> Condemned(s, t))
    && (s.phase == Swept ==> s.swept == s.held - s.added - s.cleaned - (set t | t in s.snapshot))
  }

  lemma {:induction false} CleanTracks(p: Pool, txs: seq<Tx>)
    ensures Clean(p, txs).txs == p.txs - Hashes(txs)
  {
    if txs != [] {
      var n := |txs| - 1;
      CleanTracks(p, txs[..n]);
      assert Hashes(txs) == Hashes(txs[..n]) + {txs[n].hash} by {
        forall k | 0 <= k < n ensures txs[k].hash in Hashes(txs[..n]) {
          assert txs[..n][k] == txs[k];
        }
      }
      assert p.txs - Hashes(txs[..n]) - {txs[n].hash} == p.txs - Hashes(txs);
    } else {
      assert Hashes(txs) == {};
    }
  }

  lemma InvNext(s: State, step: Step, indexed: bool)
    requires Inv(s) && Enabled(s, step)
    ensures Inv(Next(s, step, indexed))
  {
    var s' := Next(s, step, indexed);
    match step {
      case EnvAdd(tx) =>
      case EnvClean(txs) => CleanTracks(s.pool, txs);
      case PollUnmark(_) =>
      case PollCheck => assert s.snapshot[..s.i + 1] == s.snapshot[..s.i] + [s.snapshot[s.i]];
      case PollMark => assert s.snapshot[..s.i + 1] == s.snapshot[..s.i] + [s.snapshot[s.i]];
      case PollSweep =>
        assert s.snapshot[..s.i] == s.snapshot;
        forall t ensures t in s'.swept <==> t in s.held - s.added - s.cleaned - (set u | u in s.snapshot) {
          assert t in s'.swept <==> Condemned(s, t);
        }
    }
  }

  lemma {:induction false} InvRun(steps: seq<Step>, indexed: bool)
    ensures Run(steps, indexed).Some? ==> Inv(Run(steps, indexed).value)
  {
    if steps != [] && Run(steps, indexed).Some? {
      InvRun(steps[..|steps| - 1], indexed);
      InvNext(Run(steps[..|steps| - 1], indexed).value, steps[|steps| - 1], indexed);
    }
  }

  /** In every interleaving, a sweep deletes exactly the transactions that were held at the unmark
      step, are not in the snapshot, and were neither added again nor cleaned in between. */
  lemma SweepDeletesExactly(steps: seq<Step>, indexed: bool)
    requires Run(steps, indexed).Some? && Enabled(Run(steps, indexed).value, PollSweep)
    ensures var s := Run(steps, indexed).value;
            s.pool.txs.Keys - Sweep(s.pool).txs.Keys == s.held - s.added - s.cleaned - (set t | t in s.snapshot)
  {
    var s := Run(steps, indexed).value;
    InvRun(steps, indexed);
    InvNext(s, PollSweep, indexed);
    assert s.pool.txs.Keys - Sweep(s.pool).txs.Keys == Unmarked(s.pool);
  }

  // ---------------------------------------------------------------- the poll on its own

  type Fetch = Txid -> Option<Tx>

  /** The backend answers a request for a txid with that transaction, or with an error. */
  ghost predicate Honest(fetch: Fetch) {
    forall t :: fetch(t).Some? ==> fetch(t).value.hash == t
  }

  ghost predicate NoDup(s: seq<Txid>) {
    forall i, j :: 0 <= i < j < |s| ==> s[i] != s[j]
  }

  ghost function ToSet(s: seq<Txid>): set<Txid> {
    set t | t in s
  }

  /** The transactions received for the ids, in order. */
  function Replies(fetch: Fetch, ids: seq<Txid>): seq<Tx> {
    if ids == [] then []
    else
      var before := Replies(fetch, ids[..|ids| - 1]);
      match fetch(ids[|ids| - 1])
      case None => before
      case Some(tx) => before + [tx]
  }

  lemma RepliesStep(fetch: Fetch, ids: seq<Txid>, t: Txid)
    ensures Replies(fetch, ids + [t]) ==
      match fetch(t)
      case None => Replies(fetch, ids)
      case Some(tx) => Replies(fetch, ids) + [tx]
  {
    assert (ids + [t])[..|ids|] == ids;
  }

  function AddAll(p: Pool, txs: seq<Tx>, indexed: bool): Pool {
    if txs == [] then p else Add(AddAll(p, txs[..|txs| - 1], indexed), txs[|txs| - 1], indexed)
  }

  lemma AddAllStep(p: Pool, txs: seq<Tx>, tx: Tx, indexed: bool)
    ensures AddAll(p, txs + [tx], indexed) == Add(AddAll(p, txs, indexed), tx, indexed)
  {
    assert (txs + [tx])[..|txs|] == txs;
  }

  lemma AnswerOne(order: seq<Txid>, todo: set<Txid>, t: Txid)
    requires t in todo
    ensures multiset(order + [t]) + multiset(todo - {t}) == multiset(order) + multiset(todo)
  {
    assert multiset(todo) == multiset(todo - {t})[t := 1];
    assert multiset(order + [t]) == multiset(order) + multiset{t};
  }

  /** The ids of the snapshot that are not held, in order. */
  function Unseen(snapshot: seq<Txid>, held: set<Txid>): seq<Txid> {
    if snapshot == [] then []
    else
      var n := |snapshot| - 1;
      Unseen(snapshot[..n], held) + (if snapshot[n] in held then [] else [snapshot[n]])
  }

  /** What the sweep of an undisturbed poll leaves. */
  ghost function Kept(p: Pool, snapshot: seq<Txid>): Pool {
    Pool(map t | t in p.txs && t in snapshot :: true,
         map op | op in p.spends && (p.spends[op] in p.txs ==> p.spends[op] in snapshot) :: p.spends[op])
  }

  /** Every request of the batch is answered, in some order: the transactions received are tracked
      and appended to those received before.  `p` is the pool before the first batch. */
  method ProcessBatch(m: Mempool, batch: set<Txid>, fetch: Fetch, newTxes0: seq<Tx>, ghost order0: seq<Txid>,
                      ghost p: Pool)
    returns (newTxes: seq<Tx>, ghost order: seq<Txid>)
    requires m.Valid()
    requires newTxes0 == Replies(fetch, order0) && m.View() == AddAll(p, newTxes0, m.Indexed())
    modifies m, m.inputs
    ensures m.Valid()
    ensures multiset(order) == multiset(order0) + multiset(batch)
    ensures newTxes == Replies(fetch, order) && m.View() == AddAll(p, newTxes, m.Indexed())
  {
    newTxes, order := newTxes0, order0;
    var todo := batch;
    while todo != {}
      invariant m.Valid()
      invariant multiset(order) + multiset(todo) == multiset(order0) + multiset(batch)
      invariant newTxes == Replies(fetch, order) && m.View() == AddAll(p, newTxes, m.Indexed())
    {
      var t :| t in todo;
      AnswerOne(order, todo, t);
      RepliesStep(fetch, order, t);
      todo := todo - {t};
      order := order + [t];
      match fetch(t) {
        case None =>
        case Some(tx) =>
          AddAllStep(p, newTxes, tx, m.Indexed());
          m.AddTx(tx);
          newTxes := newTxes + [tx];
      }
    }
  }

  /** The ids of the batches, once per batch. */
  ghost function Distinct(bs: seq<seq<Txid>>): multiset<Txid> {
    if bs == [] then multiset{} else Distinct(bs[..|bs| - 1]) + multiset(ToSet(bs[|bs| - 1]))
  }

  /** After sending the batches `sent`, answered in the given order. */
  ghost predicate Progress(m: Mempool, p: Pool, fetch: Fetch, newTxes: seq<Tx>, sent: seq<seq<Txid>>, order: seq<Txid>)
    reads m, m.inputs
  {
    && m.Valid()
    && multiset(order) == Distinct(sent)
    && newTxes == Replies(fetch, order)
    && m.View() == AddAll(p, newTxes, m.Indexed())
  }

  method SendBatch(m: Mempool, queued: seq<Txid>, receivers: set<Txid>, fetch: Fetch, newTxes0: seq<Tx>,
                   sent0: seq<seq<Txid>>, ghost order0: seq<Txid>, ghost p: Pool, ghost sendOk: nat -> bool,
                   ghost size: nat)
    returns (newTxes: seq<Tx>, sent: seq<seq<Txid>>, ghost order: seq<Txid>)
    requires Progress(m, p, fetch, newTxes0, sent0, order0)
    requires Batched(sent0, sendOk, size, true) && sendOk(|sent0|)
    requires receivers == ToSet(queued) && 0 < |receivers| <= size
    modifies m, m.inputs
    ensures Progress(m, p, fetch, newTxes, sent, order)
    ensures Batched(sent, sendOk, size, |receivers| == size)
    ensures Flatten(sent) == Flatten(sent0) + queued
  {
    newTxes, order := ProcessBatch(m, receivers, fetch, newTxes0, order0, p);
    FlattenAppend(sent0, queued);
    DistinctAppend(sent0, queued);
    BatchedAppend(sent0, sendOk, size, queued);
    sent := sent0 + [queued];
  }

  /** Requests the ids in batches; `sendOk(k)` says whether sending batch k succeeds.  `sent` holds
      the requests of each batch sent, in order. */
  method BatchGetRawTxes(m: Mempool, txids: seq<Txid>, batchSize: nat, fetch: Fetch, sendOk: nat -> bool)
    returns (ok: bool, newTxes: seq<Tx>, sent: seq<seq<Txid>>, ghost order: seq<Txid>)
    requires m.Valid() && batchSize > 0
    modifies m, m.inputs
    ensures Progress(m, old(m.View()), fetch, newTxes, sent, order)
    ensures if ok then Flatten(sent) == txids else Flatten(sent) < txids && !sendOk(|sent|)
    ensures Batched(sent, sendOk, batchSize, !ok)
  {
    newTxes, sent, order := [], [], [];
    var queued, receivers := [], {};
    ghost var p := m.View();
    for i := 0 to |txids|
      invariant Progress(m, p, fetch, newTxes, sent, order)
      invariant Flatten(sent) + queued == txids[..i]
      invariant receivers == ToSet(queued) && |receivers| < batchSize
      invariant Batched(sent, sendOk, batchSize, true)
    {
      Enqueue(Flatten(sent), queued, txids, i);
      queued := queued + [txids[i]];
      receivers := receivers + {txids[i]};
      ModFull(|receivers|, batchSize);
      if |receivers| % batchSize == 0 {
        if !sendOk(|sent|) { ok := false; return; }
        newTxes, sent, order := SendBatch(m, queued, receivers, fetch, newTxes, sent, order, p, sendOk, batchSize);
        queued, receivers := [], {};
      }
    }
    assert txids[..|txids|] == txids;
    ok := true;
    EmptySet(queued);
    if receivers == {} { return; }
    if !sendOk(|sent|) { ok := false; return; }
    newTxes, sent, order := SendBatch(m, queued, receivers, fetch, newTxes, sent, order, p, sendOk, batchSize);
  }

  /** Batches were sent successfully and hold `size` distinct ids, except that the last may hold
      fewer (but not none) unless `full`. */
  ghost predicate Batched(sent: seq<seq<Txid>>, sendOk: nat -> bool, size: nat, full: bool) {
    sent == []
    || (var n := |sent| - 1;
        && Batched(sent[..n], sendOk, size, true)
        && sendOk(n)
        && 0 < |ToSet(sent[n])| <= size
        && (full ==> |ToSet(sent[n])| == size))
  }

  lemma BatchedAppend(sent: seq<seq<Txid>>, sendOk: nat -> bool, size: nat, batch: seq<Txid>)
    requires Batched(sent, sendOk, size, true) && sendOk(|sent|) && 0 < |ToSet(batch)| <= size
    ensures Batched(sent + [batch], sendOk, size, |ToSet(batch)| == size)
  {
    assert (sent + [batch])[..|sent|] == sent;
  }

  lemma {:induction false} BatchedAt(sent: seq<seq<Txid>>, sendOk: nat -> bool, size: nat, full: bool, k: nat)
    requires Batched(sent, sendOk, size, full) && k < |sent|
    ensures sendOk(k) && 0 < |ToSet(sent[k])| <= size && (k < |sent| - 1 || full ==> |ToSet(sent[k])| == size)
  {
    if k < |sent| - 1 {
      BatchedAt(sent[..|sent| - 1], sendOk, size, true, k);
    }
  }

  lemma ModFull(n: nat, size: nat)
    requires 0 < n <= size
    ensures n % size == 0 <==> n == size
  {
  }

  lemma EmptySet(s: seq<Txid>)
    ensures ToSet(s) == {} <==> s == []
  {
    if s != [] {
      assert s[0] in ToSet(s);
    }
  }

  lemma Enqueue(done: seq<Txid>, queued: seq<Txid>, txids: seq<Txid>, i: nat)
    requires i < |txids| && done + queued == txids[..i]
    ensures done + (queued + [txids[i]]) == txids[..i + 1]
    ensures done < txids
    ensures ToSet(queued + [txids[i]]) == ToSet(queued) + {txids[i]}
    ensures 0 < |ToSet(queued + [txids[i]])| <= |ToSet(queued)| + 1
  {
    assert txids[i] in ToSet(queued + [txids[i]]);
    assert txids[..i + 1] == txids[..i] + [txids[i]];
  }

  lemma DistinctAppend(bs: seq<seq<Txid>>, b: seq<Txid>)
    ensures Distinct(bs + [b]) == Distinct(bs) + multiset(ToSet(b))
  {
    assert (bs + [b])[..|bs|] == bs;
  }

  // ---------------------------------------------------------------- one whole poll

  /** Unmark, scan the snapshot and sweep. */
  method ScanAndSweep(m: Mempool, snapshot: seq<Txid>) returns (newTxids: seq<Txid>)
    requires m.Valid()
    modifies m, m.inputs
    ensures m.Valid()
    ensures m.View() == Kept(old(m.View()), snapshot)
    ensures newTxids == Unseen(snapshot, old(m.txs).Keys)
  {
    ghost var p := m.View();
    m.UnmarkTxs();
    assert m.View() == MarkedBy(p, []);
    newTxids := Scan(m, snapshot, p);
    m.DeleteUnmarked();
    SweepKeeps(p, snapshot);
  }

  /** Mark what the snapshot has and list what is not held. */
  method Scan(m: Mempool, snapshot: seq<Txid>, ghost p: Pool) returns (newTxids: seq<Txid>)
    requires m.Valid() && m.View() == MarkedBy(p, [])
    modifies m
    ensures m.Valid() && m.View() == MarkedBy(p, snapshot)
    ensures newTxids == Unseen(snapshot, p.txs.Keys)
  {
    newTxids := [];
    for i := 0 to |snapshot|
      invariant m.Valid()
      invariant m.View() == MarkedBy(p, snapshot[..i])
      invariant newTxids == Unseen(snapshot[..i], p.txs.Keys)
    {
      UnseenStep(snapshot, i, p.txs.Keys);
      MarkedStep(p, snapshot, i);
      if m.ContainsTx(snapshot[i]) {
        m.MarkTx(snapshot[i]);
      } else {
        newTxids := newTxids + [snapshot[i]];
      }
    }
    assert snapshot[..|snapshot|] == snapshot;
  }

  /** The pool in which exactly the transactions of s are marked. */
  ghost function MarkedBy(p: Pool, s: seq<Txid>): Pool {
    p.(txs := map t | t in p.txs :: t in s)
  }

  lemma MarkedStep(p: Pool, s: seq<Txid>, i: nat)
    requires i < |s|
    ensures MarkedBy(p, s[..i + 1]) == Mark(MarkedBy(p, s[..i]), s[i])
    ensures s[i] !in p.txs ==> MarkedBy(p, s[..i + 1]) == MarkedBy(p, s[..i])
    ensures MarkedBy(p, s[..i]).txs.Keys == p.txs.Keys
  {
    assert s[..i + 1] == s[..i] + [s[i]];
  }

  lemma UnseenStep(s: seq<Txid>, i: nat, held: set<Txid>)
    requires i < |s|
    ensures Unseen(s[..i + 1], held) == if s[i] in held then Unseen(s[..i], held) else Unseen(s[..i], held) + [s[i]]
  {
    assert s[..i + 1][..i] == s[..i];
  }

  lemma SweepKeeps(p: Pool, snapshot: seq<Txid>)
    ensures Sweep(MarkedBy(p, snapshot)) == Kept(p, snapshot)
  {
    var m := MarkedBy(p, snapshot);
    assert Sweep(m).txs == Kept(p, snapshot).txs;
    assert Sweep(m).spends == Kept(p, snapshot).spends;
  }

  method UpdateMempoolTxes(m: Mempool, snapshot: seq<Txid>, batchSize: nat, fetch: Fetch, sendOk: nat -> bool)
    returns (ok: bool, newTxes: seq<Tx>, sent: seq<seq<Txid>>, ghost order: seq<Txid>)
    requires m.Valid() && batchSize > 0
    modifies m, m.inputs
    ensures m.Valid()
    ensures m.View() == AddAll(Kept(old(m.View()), snapshot), Replies(fetch, order), m.Indexed())
    ensures newTxes == if ok then Replies(fetch, order) else []
    ensures multiset(order) == Distinct(sent)
    ensures if ok then Flatten(sent) == Unseen(snapshot, old(m.txs).Keys)
                  else Flatten(sent) < Unseen(snapshot, old(m.txs).Keys) && !sendOk(|sent|)
    ensures Batched(sent, sendOk, batchSize, !ok)
  {
    var newTxids := ScanAndSweep(m, snapshot);
    ok, newTxes, sent, order := BatchGetRawTxes(m, newTxids, batchSize, fetch, sendOk);
    if !ok {
      newTxes := [];
    }
  }

  // ---------------------------------------------------------------- what a poll achieves

  lemma {:induction false} RepliesAre(fetch: Fetch, ids: seq<Txid>, tx: Tx)
    requires Honest(fetch)
    ensures multiset(Replies(fetch, ids))[tx] == if fetch(tx.hash) == Some(tx) then multiset(ids)[tx.hash] else 0
  {
    if ids != [] {
      var before, t := ids[..|ids| - 1], ids[|ids| - 1];
      assert ids == before + [t];
      RepliesAre(fetch, before, tx);
      RepliesStep(fetch, before, t);
      CountAppend(before, t, tx.hash);
      if fetch(t).Some? {
        CountAppend(Replies(fetch, before), fetch(t).value, tx);
      }
    }
  }

  lemma {:induction false} AddAllTracks(p: Pool, txs: seq<Tx>, indexed: bool)
    ensures AddAll(p, txs, indexed).txs.Keys
         == p.txs.Keys + (set tx | tx in txs && tx.ins != [OutPoint(0, 0xFFFF_FFFF)] :: tx.hash)
  {
    if txs != [] {
      var n := |txs| - 1;
      AddAllTracks(p, txs[..n], indexed);
      assert txs == txs[..n] + [txs[n]];
    }
  }

  lemma {:induction false} NoDupDistinct(bs: seq<seq<Txid>>)
    requires NoDup(Flatten(bs))
    ensures Distinct(bs) == multiset(Flatten(bs))
    ensures forall k :: 0 <= k < |bs| ==> |ToSet(bs[k])| == |bs[k]|
  {
    if bs != [] {
      var n := |bs| - 1;
      var a, b := Flatten(bs[..n]), bs[n];
      assert forall i :: 0 <= i < |a| ==> Flatten(bs)[i] == a[i];
      assert forall i :: 0 <= i < |b| ==> Flatten(bs)[|a| + i] == b[i];
      NoDupDistinct(bs[..n]);
      NoDupSet(b);
      assert multiset(a + b) == multiset(a) + multiset(b);
      forall k | 0 <= k < |bs| ensures |ToSet(bs[k])| == |bs[k]| {
        assert k < n ==> bs[..n][k] == bs[k];
      }
    }
  }

  lemma {:induction false} NoDupSet(s: seq<Txid>)
    requires NoDup(s)
    ensures multiset(ToSet(s)) == multiset(s) && |ToSet(s)| == |s|
  {
    if s != [] {
      var n := |s| - 1;
      NoDupSet(s[..n]);
      assert s == s[..n] + [s[n]];
      assert s[n] !in s[..n];
      assert ToSet(s) == ToSet(s[..n]) + {s[n]};
    }
  }

  lemma {:induction false} UnseenIs(snapshot: seq<Txid>, held: set<Txid>)
    ensures forall t :: t in Unseen(snapshot, held) <==> t in snapshot && t !in held
    ensures NoDup(snapshot) ==> NoDup(Unseen(snapshot, held))
  {
    if snapshot != [] {
      var n := |snapshot| - 1;
      UnseenIs(snapshot[..n], held);
      assert snapshot == snapshot[..n] + [snapshot[n]];
      if NoDup(snapshot) {
        assert snapshot[n] !in snapshot[..n];
      }
    }
  }

  /** With a snapshot free of duplicates and no backend error, each unseen id is requested exactly
      once, in snapshot order and in full batches except perhaps the last. */
  lemma PollRequests(snapshot: seq<Txid>, held: set<Txid>, batchSize: nat, sendOk: nat -> bool, sent: seq<seq<Txid>>)
    requires NoDup(snapshot) && Flatten(sent) == Unseen(snapshot, held) && Batched(sent, sendOk, batchSize, false)
    ensures NoDup(Flatten(sent)) && forall t :: t in Flatten(sent) <==> t in snapshot && t !in held
    ensures forall k :: 0 <= k < |sent| ==> 0 < |sent[k]| <= batchSize && (k < |sent| - 1 ==> |sent[k]| == batchSize)
  {
    UnseenIs(snapshot, held);
    NoDupDistinct(sent);
    forall k | 0 <= k < |sent| ensures 0 < |sent[k]| <= batchSize && (k < |sent| - 1 ==> |sent[k]| == batchSize) {
      BatchedAt(sent, sendOk, batchSize, false, k);
    }
  }

  /** It returns, once each, exactly the unseen transactions the backend has. */
  lemma PollReturns(snapshot: seq<Txid>, held: set<Txid>, fetch: Fetch, sent: seq<seq<Txid>>, order: seq<Txid>, tx: Tx)
    requires NoDup(snapshot) && Honest(fetch)
    requires Flatten(sent) == Unseen(snapshot, held) && multiset(order) == Distinct(sent)
    ensures multiset(Replies(fetch, order))[tx]
         == if fetch(tx.hash) == Some(tx) && tx.hash in snapshot && tx.hash !in held then 1 else 0
  {
    UnseenIs(snapshot, held);
    NoDupDistinct(sent);
    RepliesAre(fetch, order, tx);
    OnceEach(Unseen(snapshot, held), tx.hash);
  }

  /** It leaves tracked exactly what it held and the snapshot still has, and what it fetched. */
  lemma PollTracks(p: Pool, snapshot: seq<Txid>, fetch: Fetch, sent: seq<seq<Txid>>, order: seq<Txid>, indexed: bool)
    requires NoDup(snapshot) && Honest(fetch)
    requires Flatten(sent) == Unseen(snapshot, p.txs.Keys) && multiset(order) == Distinct(sent)
    ensures AddAll(Kept(p, snapshot), Replies(fetch, order), indexed).txs.Keys
         == (p.txs.Keys * ToSet(snapshot))
          + (set t | t in snapshot && t !in p.txs && fetch(t).Some? && fetch(t).value.ins != [OutPoint(0, 0xFFFF_FFFF)])
  {
    var got := Replies(fetch, order);
    AddAllTracks(Kept(p, snapshot), got, indexed);
    assert (set tx | tx in got && tx.ins != [OutPoint(0, 0xFFFF_FFFF)] :: tx.hash)
        == (set t | t in snapshot && t !in p.txs && fetch(t).Some?
                    && fetch(t).value.ins != [OutPoint(0, 0xFFFF_FFFF)]) by {
      forall tx ensures tx in got <==> fetch(tx.hash) == Some(tx) && tx.hash in snapshot && tx.hash !in p.txs {
        PollReturns(snapshot, p.txs.Keys, fetch, sent, order, tx);
        assert tx in got <==> tx in multiset(got);
      }
      forall t | t in snapshot && t !in p.txs && fetch(t).Some? && fetch(t).value.ins != [OutPoint(0, 0xFFFF_FFFF)]
        ensures t in (set tx | tx in got && tx.ins != [OutPoint(0, 0xFFFF_FFFF)] :: tx.hash)
      {
        assert fetch(t).value in got;
      }
    }
    assert Kept(p, snapshot).txs.Keys == p.txs.Keys * ToSet(snapshot);
  }

  lemma OnceEach(s: seq<Txid>, t: Txid)
    requires NoDup(s)
    ensures multiset(s)[t] == if t in s then 1 else 0
  {
    NoDupSet(s);
    assert t in s <==> t in ToSet(s);
  }
}
