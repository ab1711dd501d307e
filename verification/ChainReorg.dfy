/**
 Following the best chain in the bitcoind client (chain/bitcoind_client.go).

 The backend is an immutable tree of blocks.  The client keeps the stamp of its best block and
 appends notifications to a queue.  A subscriber replays that queue with a stack: a disconnect pops
 one block, a connect pushes one.  The theorems say that the stack is always the path from genesis
 to the client's best block, what a reorganisation emits, and what a failing backend call does.
 */
module ChainReorg {
  import opened Wrappers

  type Hash = nat

  datatype Node = Node(prev: Hash, height: nat, time: int)

  type BlockTree = map<Hash, Node>

  datatype BlockStamp = BlockStamp(hash: Hash, height: int, time: int)

  datatype Ntfn =
    | FilteredBlockConnected(hash: Hash, height: int)
    | BlockConnected(hash: Hash, height: int, time: int)
    | BlockDisconnected(hash: Hash, height: int, time: int)

  /** A block's parent is one level below it, unless it is a root. */
  ghost predicate Linked(t: BlockTree, h: Hash)
    requires h in t
  {
    if t[h].height == 0 then t[h].prev !in t
    else t[h].prev in t && t[t[h].prev].height == t[h].height - 1
  }

  /** Every block is linked to its parent, and genesis is the only root. */
  ghost predicate WellFormed(t: BlockTree) {
    && (forall h {:trigger Linked(t, h)} :: h in t ==> Linked(t, h))
    && (forall g, h {:trigger Linked(t, g), Linked(t, h)} ::
          g in t && h in t && t[g].height == 0 && t[h].height == 0 ==> g == h)
  }

  function Stamp(t: BlockTree, h: Hash): BlockStamp
    requires h in t
  {
    BlockStamp(h, t[h].height, t[h].time)
  }

  /** The blocks from genesis up to and including `h`. */
  ghost function Path(t: BlockTree, h: Hash): (p: seq<Hash>)
    requires WellFormed(t) && h in t
    ensures |p| == t[h].height + 1 && p[|p| - 1] == h
    decreases t[h].height
  {
    assert Linked(t, h);
    if t[h].height == 0 then [h] else Path(t, t[h].prev) + [h]
  }

  /** A prefix of a path is the path of the block it ends in. */
  lemma {:induction false} PathPrefix(t: BlockTree, h: Hash, k: nat)
    requires WellFormed(t) && h in t && k <= t[h].height
    ensures var p := Path(t, h); p[k] in t && t[p[k]].height == k && Path(t, p[k]) == p[..k + 1]
    ensures k > 0 ==> t[Path(t, h)[k]].prev == Path(t, h)[k - 1]
    decreases t[h].height
  {
    var p := Path(t, h);
    assert Linked(t, h);
    if k == t[h].height {
      assert p[..k + 1] == p;
    } else {
      var q := Path(t, t[h].prev);
      PathPrefix(t, t[h].prev, k);
      assert p == q + [h];
      assert p[..k + 1] == q[..k + 1];
    }
  }

  lemma PathLink(t: BlockTree, h: Hash, k: nat)
    requires WellFormed(t) && h in t && k <= t[h].height
    ensures var p := Path(t, h);
            && p[k] in t && t[p[k]].height == k
            && (k > 0 ==> t[p[k]].prev == p[k - 1] && p[k - 1] in t)
  {
    PathPrefix(t, h, k);
    if k > 0 {
      PathPrefix(t, h, k - 1);
    }
  }

  lemma AppendAssoc(a: seq<Ntfn>, b: seq<Ntfn>, c: seq<Ntfn>)
    ensures (a + b) + c == a + (b + c)
  {
  }

  lemma DropStep(p: seq<Hash>, i: nat)
    requires i < |p|
    ensures p[i..] == [p[i]] + p[i + 1..] && p[i..][1..] == p[i + 1..]
  {
  }

  // ---------------------------------------------------------------- the subscriber's view

  /** The blocks a subscriber holds, and the block announced but not yet connected. */
  datatype View = View(stack: seq<Hash>, announced: Option<Hash>)

  /** One notification.  It is only accepted at the height the subscriber expects. */
  function Apply(v: View, n: Ntfn): Option<View> {
    match n
    case FilteredBlockConnected(h, height) =>
      if v.announced.None? && height == |v.stack| then Some(View(v.stack, Some(h))) else None
    case BlockConnected(h, height, _) =>
      if v.announced == Some(h) && height == |v.stack| then Some(View(v.stack + [h], None)) else None
    case BlockDisconnected(_, height, _) =>
      if v.announced.None? && |v.stack| > 0 && height == |v.stack| - 1
      then Some(View(v.stack[..|v.stack| - 1], None)) else None
  }

  function Replay(v: View, trace: seq<Ntfn>): Option<View> {
    if trace == [] then Some(v)
    else match Replay(v, trace[..|trace| - 1])
      case None => None
      case Some(w) => Apply(w, trace[|trace| - 1])
  }

  lemma {:induction false} ReplayConcat(v: View, a: seq<Ntfn>, b: seq<Ntfn>)
    ensures Replay(v, a + b) == (match Replay(v, a) case None => None case Some(w) => Replay(w, b))
  {
    if b == [] {
      assert a + b == a;
    } else {
      assert (a + b)[..|a + b| - 1] == a + b[..|b| - 1];
      ReplayConcat(v, a, b[..|b| - 1]);
    }
  }

  lemma ReplayOne(v: View, n: Ntfn)
    ensures Replay(v, [n]) == Apply(v, n)
  {
    assert [n][..0] == [];
    assert Replay(v, [n][..0]) == Some(v);
  }

  // ---------------------------------------------------------------- what a reorganisation emits

  /** The greatest f <= k such that the two paths agree on their first f blocks. */
  ghost function ForkLen(pc: seq<Hash>, pn: seq<Hash>, k: nat): (f: nat)
    requires k <= |pc| && k <= |pn|
    ensures f <= k
  {
    if pc[..k] == pn[..k] then k else ForkLen(pc, pn, k - 1)
  }

  lemma {:induction false} ForkLenIsGreatest(pc: seq<Hash>, pn: seq<Hash>, k: nat, g: nat)
    requires k <= |pc| && k <= |pn| && g <= k
    ensures var f := ForkLen(pc, pn, k); pc[..f] == pn[..f] && (pc[..g] == pn[..g] ==> g <= f)
  {
    if pc[..k] != pn[..k] {
      ForkLenIsGreatest(pc, pn, k - 1, if g == k then 0 else g);
    }
  }

  /** The length of the part of the current chain that survives: its tip is always disconnected. */
  ghost function Fork(t: BlockTree, cur: Hash, tip: Hash): (f: nat)
    requires WellFormed(t) && cur in t && tip in t && t[cur].height <= t[tip].height
    ensures f <= t[cur].height
  {
    ForkLen(Path(t, cur), Path(t, tip), t[cur].height)
  }

  /** The notification that pops the block at height k.  Only the tip is named by its own hash;
      every deeper one carries the hash of the popped block's parent. */
  function DisconnectAt(t: BlockTree, pc: seq<Hash>, k: nat): Ntfn
    requires k < |pc| && pc[k] in t
  {
    BlockDisconnected(if k == |pc| - 1 then pc[k] else t[pc[k]].prev, k, t[pc[k]].time)
  }

  ghost function Disconnects(t: BlockTree, pc: seq<Hash>, k: nat): (s: seq<Ntfn>)
    requires k <= |pc| && forall i :: 0 <= i < |pc| ==> pc[i] in t
    ensures |s| == |pc| - k
    decreases |pc| - k
  {
    if k == |pc| then [] else Disconnects(t, pc, k + 1) + [DisconnectAt(t, pc, k)]
  }

  function ConnectAt(t: BlockTree, h: Hash, height: int): seq<Ntfn>
    requires h in t
  {
    [FilteredBlockConnected(h, height), BlockConnected(h, height, t[h].time)]
  }

  ghost function Connects(t: BlockTree, pn: seq<Hash>, f: nat, k: nat): (s: seq<Ntfn>)
    requires f <= k <= |pn| && forall i :: 0 <= i < |pn| ==> pn[i] in t
    ensures |s| == 2 * (k - f)
    decreases k
  {
    if k == f then [] else Connects(t, pn, f, k - 1) + ConnectAt(t, pn[k - 1], k - 1)
  }

  lemma PathInTree(t: BlockTree, h: Hash)
    requires WellFormed(t) && h in t
    ensures forall i :: 0 <= i < |Path(t, h)| ==> Path(t, h)[i] in t && t[Path(t, h)[i]].height == i
  {
    forall i | 0 <= i < |Path(t, h)| ensures Path(t, h)[i] in t && t[Path(t, h)[i]].height == i {
      PathPrefix(t, h, i);
    }
  }

  ghost function Plan(t: BlockTree, cur: Hash, tip: Hash): (s: seq<Ntfn>)
    requires WellFormed(t) && cur in t && tip in t && t[cur].height <= t[tip].height
  {
    PathInTree(t, cur);
    PathInTree(t, tip);
    var f := Fork(t, cur, tip);
    var pn := Path(t, tip);
    Disconnects(t, Path(t, cur), f) + Connects(t, pn, f, |pn|)
  }

  datatype ClientState = ClientState(best: BlockStamp, trace: seq<Ntfn>)

  /** The effect of one block notification when every backend call succeeds. */
  ghost function HandleBlock(t: BlockTree, s: ClientState, b: Hash): ClientState
    requires WellFormed(t) && b in t && s.best.hash in t
  {
    if t[b].prev == s.best.hash then
      ClientState(Stamp(t, b), s.trace + ConnectAt(t, b, s.best.height + 1))
    else if t[b].height < t[s.best.hash].height then
      s
    else
      ClientState(Stamp(t, b), s.trace + Plan(t, s.best.hash, b))
  }

  ghost function Run(t: BlockTree, s: ClientState, bs: seq<Hash>): (r: ClientState)
    requires WellFormed(t) && s.best.hash in t && forall b :: b in bs ==> b in t
    ensures r.best.hash in t
  {
    if bs == [] then s else HandleBlock(t, Run(t, s, bs[..|bs| - 1]), bs[|bs| - 1])
  }

  /** Replaying the queue from the view at start-up gives exactly the path to the best block. */
  ghost predicate InSync(t: BlockTree, start: Hash, s: ClientState)
    requires WellFormed(t)
  {
    && start in t
    && s.best.hash in t
    && s.best == BlockStamp(s.best.hash, t[s.best.hash].height, t[s.best.hash].time)
    && Replay(View(Path(t, start), None), s.trace) == Some(View(Path(t, s.best.hash), None))
  }

  // ---------------------------------------------------------------- proofs about the plan

  /** Disconnects pop any stack of the right length. */
  lemma {:induction false} ReplayDisconnects(t: BlockTree, pc: seq<Hash>, stack: seq<Hash>, k: nat)
    requires k <= |pc| == |stack| && forall i :: 0 <= i < |pc| ==> pc[i] in t
    ensures Replay(View(stack, None), Disconnects(t, pc, k)) == Some(View(stack[..k], None))
    decreases |pc| - k
  {
    if k == |pc| {
      assert stack[..k] == stack;
    } else {
      ReplayDisconnects(t, pc, stack, k + 1);
      ReplayConcat(View(stack, None), Disconnects(t, pc, k + 1), [DisconnectAt(t, pc, k)]);
      ReplayOne(View(stack[..k + 1], None), DisconnectAt(t, pc, k));
      assert stack[..k + 1][..k] == stack[..k];
    }
  }

  /** And no other stack. */
  lemma {:induction false} DisconnectsRefused(t: BlockTree, pc: seq<Hash>, stack: seq<Hash>, k: nat)
    requires k < |pc| != |stack| && forall i :: 0 <= i < |pc| ==> pc[i] in t
    ensures Replay(View(stack, None), Disconnects(t, pc, k)).None?
    decreases |pc| - k
  {
    ReplayConcat(View(stack, None), Disconnects(t, pc, k + 1), [DisconnectAt(t, pc, k)]);
    if k == |pc| - 1 {
      ReplayOne(View(stack, None), DisconnectAt(t, pc, k));
    } else {
      DisconnectsRefused(t, pc, stack, k + 1);
    }
  }

  lemma ReplayConnectOne(t: BlockTree, stack: seq<Hash>, h: Hash)
    requires h in t
    ensures Replay(View(stack, None), ConnectAt(t, h, |stack|)) == Some(View(stack + [h], None))
  {
    var c := ConnectAt(t, h, |stack|);
    ReplayConcat(View(stack, None), [c[0]], [c[1]]);
    ReplayOne(View(stack, None), c[0]);
    ReplayOne(View(stack, Some(h)), c[1]);
    assert c == [c[0]] + [c[1]];
  }

  /** Connects push the new branch on any stack of the right length. */
  lemma {:induction false} ReplayConnects(t: BlockTree, pn: seq<Hash>, f: nat, k: nat, base: seq<Hash>)
    requires |base| == f <= k <= |pn| && forall i :: 0 <= i < |pn| ==> pn[i] in t
    ensures Replay(View(base, None), Connects(t, pn, f, k)) == Some(View(base + pn[f..k], None))
    decreases k
  {
    if k == f {
      assert base + pn[f..k] == base;
    } else {
      ReplayConnects(t, pn, f, k - 1, base);
      ReplayConcat(View(base, None), Connects(t, pn, f, k - 1), ConnectAt(t, pn[k - 1], k - 1));
      ReplayConnectOne(t, base + pn[f..k - 1], pn[k - 1]);
      assert (base + pn[f..k - 1]) + [pn[k - 1]] == base + pn[f..k];
    }
  }

  lemma PlanReplays(t: BlockTree, cur: Hash, tip: Hash)
    requires WellFormed(t) && cur in t && tip in t && t[cur].height <= t[tip].height
    ensures Replay(View(Path(t, cur), None), Plan(t, cur, tip)) == Some(View(Path(t, tip), None))
  {
    var pc, pn, f := Path(t, cur), Path(t, tip), Fork(t, cur, tip);
    PathInTree(t, cur);
    PathInTree(t, tip);
    ForkLenIsGreatest(pc, pn, t[cur].height, 0);
    ReplayDisconnects(t, pc, pc, f);
    ReplayConnects(t, pn, f, |pn|, pn[..f]);
    ReplayConcat(View(pc, None), Disconnects(t, pc, f), Connects(t, pn, f, |pn|));
    assert pn[..f] + pn[f..|pn|] == pn;
  }

  /** One block notification keeps the subscriber's view equal to the path to the best block. */
  lemma HandleBlockKeepsSync(t: BlockTree, start: Hash, s: ClientState, b: Hash)
    requires WellFormed(t) && b in t && InSync(t, start, s)
    ensures InSync(t, start, HandleBlock(t, s, b))
  {
    var v := View(Path(t, start), None);
    assert Linked(t, b);
    if t[b].prev == s.best.hash {
      ReplayConcat(v, s.trace, ConnectAt(t, b, s.best.height + 1));
      ReplayConnectOne(t, Path(t, s.best.hash), b);
    } else if t[b].height >= t[s.best.hash].height {
      ReplayConcat(v, s.trace, Plan(t, s.best.hash, b));
      PlanReplays(t, s.best.hash, b);
    }
  }

  /** Over every run of block notifications, from any starting best block. */
  lemma {:induction false} RunKeepsSync(t: BlockTree, start: Hash, bs: seq<Hash>)
    requires WellFormed(t) && start in t && forall b :: b in bs ==> b in t
    ensures InSync(t, start, Run(t, ClientState(Stamp(t, start), []), bs))
  {
    if bs != [] {
      RunKeepsSync(t, start, bs[..|bs| - 1]);
      HandleBlockKeepsSync(t, start, Run(t, ClientState(Stamp(t, start), []), bs[..|bs| - 1]), bs[|bs| - 1]);
    }
  }

  /** Heights of the disconnects fall by one from the old tip to the fork. */
  lemma {:induction false} DisconnectsFallToFork(t: BlockTree, pc: seq<Hash>, k: nat, i: nat)
    requires k <= |pc| && (forall j :: 0 <= j < |pc| ==> pc[j] in t) && i < |pc| - k
    ensures Disconnects(t, pc, k)[i] == DisconnectAt(t, pc, |pc| - 1 - i)
    decreases |pc| - k
  {
    if i < |pc| - k - 1 {
      DisconnectsFallToFork(t, pc, k + 1, i);
    }
  }

  /** The connects are the blocks of the new branch in order, each announced and then connected. */
  lemma {:induction false} ConnectsAreNewBranch(t: BlockTree, pn: seq<Hash>, f: nat, k: nat, j: nat)
    requires f <= j < k <= |pn| && forall i :: 0 <= i < |pn| ==> pn[i] in t
    ensures var s := Connects(t, pn, f, k);
            s[2 * (j - f)..2 * (j - f) + 2]
            == [FilteredBlockConnected(pn[j], j), BlockConnected(pn[j], j, t[pn[j]].time)]
    decreases k
  {
    if j < k - 1 {
      ConnectsAreNewBranch(t, pn, f, k - 1, j);
      var a, b := Connects(t, pn, f, k - 1), ConnectAt(t, pn[k - 1], k - 1);
      assert (a + b)[2 * (j - f)..2 * (j - f) + 2] == a[2 * (j - f)..2 * (j - f) + 2];
    }
  }

  /** A disconnect names the block it pops exactly when it is the first of its reorganisation; so all
      of a reorganisation's disconnects name their blocks if and only if the tip's parent survives. */
  lemma DisconnectsNameTheirBlocks(t: BlockTree, cur: Hash, tip: Hash)
    requires WellFormed(t) && cur in t && tip in t && t[cur].height <= t[tip].height
    ensures var pc, f := Path(t, cur), Fork(t, cur, tip);
            && |Plan(t, cur, tip)| >= |pc| - f
            && ((forall i :: 0 <= i < |pc| - f ==> Plan(t, cur, tip)[i].hash == pc[|pc| - 1 - i])
                <==> f == t[cur].height)
  {
    var pc, f := Path(t, cur), Fork(t, cur, tip);
    PathInTree(t, cur);
    PathInTree(t, tip);
    forall i | 0 <= i < |pc| - f
      ensures Plan(t, cur, tip)[i] == DisconnectAt(t, pc, |pc| - 1 - i)
      ensures t[pc[|pc| - 1 - i]].prev != pc[|pc| - 1 - i]
    {
      DisconnectsFallToFork(t, pc, f, i);
      PathPrefix(t, cur, |pc| - 1 - i);
      assert Linked(t, pc[|pc| - 1 - i]);
    }
    if f < t[cur].height {
      assert Plan(t, cur, tip)[1] == DisconnectAt(t, pc, |pc| - 2);
      assert Plan(t, cur, tip)[1].hash != pc[|pc| - 1 - 1];
    }
  }

  /** The disconnects of a reorganisation, spelled out: the i-th is for the i-th block below the old tip,
      with that block's height and time; the first carries the tip's own hash, every later one the hash of
      the block's parent. */
  lemma PlanDisconnects(t: BlockTree, cur: Hash, tip: Hash, i: nat)
    requires WellFormed(t) && cur in t && tip in t && t[cur].height <= t[tip].height
    requires i < |Path(t, cur)| - Fork(t, cur, tip)
    ensures var pc := Path(t, cur);
            var h := pc[|pc| - 1 - i];
            && h in t && i < |Plan(t, cur, tip)|
            && Plan(t, cur, tip)[i] == BlockDisconnected(if i == 0 then h else t[h].prev, |pc| - 1 - i, t[h].time)
  {
    PathInTree(t, cur);
    PathInTree(t, tip);
    DisconnectsFallToFork(t, Path(t, cur), Fork(t, cur, tip), i);
  }

  /** Its connects, spelled out: after the disconnects come, for each block of the new branch in order, the
      filtered and the plain notification with that block's hash, height and time, and nothing more. */
  lemma PlanConnects(t: BlockTree, cur: Hash, tip: Hash, j: nat)
    requires WellFormed(t) && cur in t && tip in t && t[cur].height <= t[tip].height
    requires Fork(t, cur, tip) <= j <= t[tip].height
    ensures var pc, pn, f := Path(t, cur), Path(t, tip), Fork(t, cur, tip);
            var at := |pc| - f + 2 * (j - f);
            && |Plan(t, cur, tip)| == |pc| - f + 2 * (|pn| - f)
            && pn[j] in t
            && Plan(t, cur, tip)[at] == FilteredBlockConnected(pn[j], j)
            && Plan(t, cur, tip)[at + 1] == BlockConnected(pn[j], j, t[pn[j]].time)
  {
    PathInTree(t, cur);
    PathInTree(t, tip);
    var pn, f := Path(t, tip), Fork(t, cur, tip);
    var s := Connects(t, pn, f, |pn|);
    ConnectsAreNewBranch(t, pn, f, |pn|, j);
    var at := 2 * (j - f);
    assert s[at..at + 2][0] == s[at] && s[at..at + 2][1] == s[at + 1];
  }

  /** A direct successor is announced and connected at its own height and time. */
  lemma SuccessorConnects(t: BlockTree, start: Hash, s: ClientState, b: Hash)
    requires WellFormed(t) && b in t && InSync(t, start, s) && t[b].prev == s.best.hash
    ensures HandleBlock(t, s, b).trace
         == s.trace + [FilteredBlockConnected(b, t[b].height), BlockConnected(b, t[b].height, t[b].time)]
  {
    assert Linked(t, b);
  }

  /** h is the last of the blocks with the greatest height, or the start if all blocks are lower. */
  ghost predicate LastHighest(t: BlockTree, start: Hash, bs: seq<Hash>, h: Hash)
    requires h in t && start in t && forall b :: b in bs ==> b in t
  {
    && t[start].height <= t[h].height
    && (forall b :: b in bs ==> t[b].height <= t[h].height)
    && ((h == start && forall b :: b in bs ==> t[b].height < t[h].height)
        || exists k :: 0 <= k < |bs| && bs[k] == h && forall b :: b in bs[k + 1..] ==> t[b].height < t[h].height)
  }

  lemma LastHighestStep(t: BlockTree, start: Hash, bs: seq<Hash>, b: Hash, h: Hash)
    requires h in t && start in t && b in t && forall x :: x in bs ==> x in t
    requires LastHighest(t, start, bs, h)
    ensures LastHighest(t, start, bs + [b], if t[b].height < t[h].height then h else b)
  {
    var all := bs + [b];
    if t[b].height < t[h].height {
      if k :| 0 <= k < |bs| && bs[k] == h && forall x :: x in bs[k + 1..] ==> t[x].height < t[h].height {
        assert all[k + 1..] == bs[k + 1..] + [b] && all[k] == h;
      }
    } else {
      assert all[|bs|] == b && all[|bs| + 1..] == [];
    }
  }

  /** After every run the best block is the last notified block of the greatest height seen, or the block
      the client started at when every notified block is lower. */
  lemma {:induction false} BestIsLastHighest(t: BlockTree, start: Hash, bs: seq<Hash>)
    requires WellFormed(t) && start in t && forall b :: b in bs ==> b in t
    ensures LastHighest(t, start, bs, Run(t, ClientState(Stamp(t, start), []), bs).best.hash)
  {
    if bs != [] {
      var front, b := bs[..|bs| - 1], bs[|bs| - 1];
      var s := Run(t, ClientState(Stamp(t, start), []), front);
      assert bs == front + [b] && Linked(t, b);
      BestIsLastHighest(t, start, front);
      LastHighestStep(t, start, front, b, s.best.hash);
    }
  }

  // ---------------------------------------------------------------- failing backend calls

  /** The backend call, counted from 0, after which the first disconnect is emitted. */
  ghost function FirstEmittingCall(t: BlockTree, cur: Hash, tip: Hash): nat
    requires cur in t && tip in t && t[cur].height <= t[tip].height
  {
    t[tip].height - t[cur].height + 2
  }

  ghost function TotalCalls(t: BlockTree, cur: Hash, tip: Hash): nat
    requires WellFormed(t) && cur in t && tip in t && t[cur].height <= t[tip].height
  {
    var f := Fork(t, cur, tip);
    FirstEmittingCall(t, cur, tip) + 2 * (t[cur].height - f) + (t[tip].height + 1 - f)
  }

  /** The height the walk back has reached when call k is made, and the height the fast-forward has. */
  ghost function WalkedTo(t: BlockTree, cur: Hash, tip: Hash, k: nat): (h: nat)
    requires WellFormed(t) && cur in t && tip in t && t[cur].height <= t[tip].height
    requires FirstEmittingCall(t, cur, tip) <= k < TotalCalls(t, cur, tip)
    ensures Fork(t, cur, tip) <= h <= t[cur].height
  {
    var f, first := Fork(t, cur, tip), FirstEmittingCall(t, cur, tip);
    if k < first + 2 * (t[cur].height - f) then t[cur].height - (k - first) / 2 else f
  }

  ghost function ForwardedTo(t: BlockTree, cur: Hash, tip: Hash, k: nat): (m: nat)
    requires WellFormed(t) && cur in t && tip in t && t[cur].height <= t[tip].height
    requires FirstEmittingCall(t, cur, tip) <= k < TotalCalls(t, cur, tip)
    ensures Fork(t, cur, tip) <= m <= t[tip].height
  {
    var f, first := Fork(t, cur, tip), FirstEmittingCall(t, cur, tip);
    if k < first + 2 * (t[cur].height - f) then f else f + (k - first - 2 * (t[cur].height - f))
  }

  /** What has been emitted when call k is made. */
  ghost function Emitted(t: BlockTree, cur: Hash, tip: Hash, k: nat): seq<Ntfn>
    requires WellFormed(t) && cur in t && tip in t && t[cur].height <= t[tip].height
    requires k < TotalCalls(t, cur, tip)
  {
    PathInTree(t, cur);
    PathInTree(t, tip);
    if k < FirstEmittingCall(t, cur, tip) then
      []
    else
      (Disconnects(t, Path(t, cur), WalkedTo(t, cur, tip, k))
       + Connects(t, Path(t, tip), Fork(t, cur, tip), ForwardedTo(t, cur, tip, k)))
  }

  lemma {:induction false} DisconnectsPrefix(t: BlockTree, pc: seq<Hash>, k: nat, m: nat)
    requires k <= m <= |pc| && forall i :: 0 <= i < |pc| ==> pc[i] in t
    ensures Disconnects(t, pc, k)[..|pc| - m] == Disconnects(t, pc, m)
    decreases m - k
  {
    if k < m {
      DisconnectsPrefix(t, pc, k + 1, m);
      var s := Disconnects(t, pc, k + 1);
      assert (s + [DisconnectAt(t, pc, k)])[..|pc| - m] == s[..|pc| - m];
    } else {
      assert Disconnects(t, pc, k)[..|pc| - m] == Disconnects(t, pc, k);
    }
  }

  lemma {:induction false} ConnectsPrefix(t: BlockTree, pn: seq<Hash>, f: nat, m: nat, k: nat)
    requires f <= m <= k <= |pn| && forall i :: 0 <= i < |pn| ==> pn[i] in t
    ensures Connects(t, pn, f, k)[..2 * (m - f)] == Connects(t, pn, f, m)
    decreases k
  {
    if m < k {
      ConnectsPrefix(t, pn, f, m, k - 1);
      var s := Connects(t, pn, f, k - 1);
      assert (s + ConnectAt(t, pn[k - 1], k - 1))[..2 * (m - f)] == s[..2 * (m - f)];
    } else {
      assert Connects(t, pn, f, k)[..2 * (m - f)] == Connects(t, pn, f, k);
    }
  }

  lemma PrefixOfConcat(a: seq<Ntfn>, b: seq<Ntfn>, i: nat, j: nat)
    requires i <= |a| && j < |b| && (i < |a| ==> j == 0)
    ensures a[..i] + b[..j] < a + b
  {
  }

  /** A reorganisation cut short emits a proper prefix of its plan. */
  lemma EmittedIsPrefix(t: BlockTree, cur: Hash, tip: Hash, k: nat)
    requires WellFormed(t) && cur in t && tip in t && t[cur].height <= t[tip].height
    requires k < TotalCalls(t, cur, tip)
    ensures Emitted(t, cur, tip, k) < Plan(t, cur, tip)
  {
    PathInTree(t, cur);
    PathInTree(t, tip);
    var pc, pn, f := Path(t, cur), Path(t, tip), Fork(t, cur, tip);
    if k >= FirstEmittingCall(t, cur, tip) {
      var h, m := WalkedTo(t, cur, tip, k), ForwardedTo(t, cur, tip, k);
      DisconnectsPrefix(t, pc, f, h);
      ConnectsPrefix(t, pn, f, m, |pn|);
      PrefixOfConcat(Disconnects(t, pc, f), Connects(t, pn, f, |pn|), |pc| - h, 2 * (m - f));
    }
  }

  lemma SpliceIs(p: seq<Hash>, f: nat, front: seq<Hash>)
    requires |front| == f <= |p|
    ensures front + p[f..] == p <==> front == p[..f]
  {
    assert p == p[..f] + p[f..];
    assert (front + p[f..])[..f] == front;
  }

  /** Replaying part of a reorganisation from any stack. */
  lemma PartReplays(t: BlockTree, cur: Hash, tip: Hash, stack: seq<Hash>, h: nat, m: nat)
    requires WellFormed(t) && cur in t && tip in t && t[cur].height <= t[tip].height
    requires forall i :: 0 <= i < |Path(t, cur)| ==> Path(t, cur)[i] in t
    requires forall i :: 0 <= i < |Path(t, tip)| ==> Path(t, tip)[i] in t
    requires Fork(t, cur, tip) <= h <= t[cur].height && Fork(t, cur, tip) <= m <= |Path(t, tip)|
    requires h > Fork(t, cur, tip) ==> m == Fork(t, cur, tip)
    ensures var pc, pn, f := Path(t, cur), Path(t, tip), Fork(t, cur, tip);
            Replay(View(stack, None), Disconnects(t, pc, h) + Connects(t, pn, f, m))
            == if |stack| != |pc| then None
               else Some(View(if h > f then stack[..h] else stack[..f] + pn[f..m], None))
  {
    var pc, pn, f := Path(t, cur), Path(t, tip), Fork(t, cur, tip);
    ReplayConcat(View(stack, None), Disconnects(t, pc, h), Connects(t, pn, f, m));
    if |stack| != |pc| {
      DisconnectsRefused(t, pc, stack, h);
    } else {
      ReplayDisconnects(t, pc, stack, h);
      if h == f {
        ReplayConnects(t, pn, f, m, stack[..f]);
      }
    }
  }

  /** A complete reorganisation makes one call for the height, one per block above our tip, one for the
      tip's header, two per step back and one per block connected; and call k finds this much queued. */
  lemma CallsMade(t: BlockTree, cur: Hash, tip: Hash, k: nat)
    requires WellFormed(t) && cur in t && tip in t && t[cur].height <= t[tip].height
    ensures var above, back := t[tip].height - t[cur].height, t[cur].height - Fork(t, cur, tip);
            && TotalCalls(t, cur, tip) == 1 + above + 1 + 2 * back + (above + back + 1)
            && (k < TotalCalls(t, cur, tip) ==>
                  |Emitted(t, cur, tip, k)| ==
                    if k < 2 + above then 0
                    else if k < 2 + above + 2 * back then 1 + (k - 2 - above) / 2
                    else back + 1 + 2 * (k - 2 - above - 2 * back))
  {
  }

  lemma EmittedReplays(t: BlockTree, cur: Hash, tip: Hash, k: nat)
    requires WellFormed(t) && cur in t && tip in t && t[cur].height <= t[tip].height
    requires FirstEmittingCall(t, cur, tip) <= k < TotalCalls(t, cur, tip)
    ensures var pc, pn, f := Path(t, cur), Path(t, tip), Fork(t, cur, tip);
            var h, m := WalkedTo(t, cur, tip, k), ForwardedTo(t, cur, tip, k);
            Replay(View(pc, None), Emitted(t, cur, tip, k)) == Some(View(if h > f then pc[..h] else pn[..m], None))
  {
    var pc, pn, f := Path(t, cur), Path(t, tip), Fork(t, cur, tip);
    var h, m := WalkedTo(t, cur, tip, k), ForwardedTo(t, cur, tip, k);
    PathInTree(t, cur);
    PathInTree(t, tip);
    PartReplays(t, cur, tip, pc, h, m);
    ForkLenIsGreatest(pc, pn, t[cur].height, 0);
    SpliceIs(pn[..m], f, pc[..f]);
    assert pn[..m][f..] == pn[f..m] && pn[..m][..f] == pn[..f];
  }

  /** When backend call k of a reorganisation fails, the best block stays and the subscriber's view
      still matches it if and only if nothing had been emitted yet, or the old tip lies on the new
      branch and has just been connected again. */
  lemma FailedReorgInSync(t: BlockTree, start: Hash, s: ClientState, tip: Hash, k: nat)
    requires WellFormed(t) && InSync(t, start, s) && tip in t && s.best.height <= t[tip].height
    requires k < TotalCalls(t, s.best.hash, tip)
    ensures var cur := s.best.hash;
            InSync(t, start, s.(trace := s.trace + Emitted(t, cur, tip, k)))
            <==> (k < FirstEmittingCall(t, cur, tip)
                  || (Path(t, cur) <= Path(t, tip) && k == FirstEmittingCall(t, cur, tip) + 1))
  {
    var cur := s.best.hash;
    var first := FirstEmittingCall(t, cur, tip);
    ReplayConcat(View(Path(t, start), None), s.trace, Emitted(t, cur, tip, k));
    if k < first {
      assert s.trace + Emitted(t, cur, tip, k) == s.trace;
    } else {
      EmittedReplays(t, cur, tip, k);
      CutStackIsOldPath(t, cur, tip, k);
    }
  }

  lemma CutStackIsOldPath(t: BlockTree, cur: Hash, tip: Hash, k: nat)
    requires WellFormed(t) && cur in t && tip in t && t[cur].height <= t[tip].height
    requires FirstEmittingCall(t, cur, tip) <= k < TotalCalls(t, cur, tip)
    ensures var pc, pn, f := Path(t, cur), Path(t, tip), Fork(t, cur, tip);
            var h, m := WalkedTo(t, cur, tip, k), ForwardedTo(t, cur, tip, k);
            (if h > f then pc[..h] else pn[..m]) == pc <==> pc <= pn && k == FirstEmittingCall(t, cur, tip) + 1
  {
    var pc, pn, f := Path(t, cur), Path(t, tip), Fork(t, cur, tip);
    var h, m := WalkedTo(t, cur, tip, k), ForwardedTo(t, cur, tip, k);
    if pc <= pn {
      assert pc[..|pc| - 1] == pn[..|pc| - 1];
      ForkLenIsGreatest(pc, pn, |pc| - 1, |pc| - 1);
    }
    if h == f && pn[..m] == pc {
      assert pc <= pn;
    }
  }

  // ---------------------------------------------------------------- runs with failing calls

  /** One block notification in which backend call k, counted from 0, fails if it is made. */
  ghost function Notify(t: BlockTree, s: ClientState, b: Hash, k: nat): (ClientState, bool)
    requires WellFormed(t) && b in t && s.best.hash in t
  {
    var cur := s.best.hash;
    if t[b].prev == cur then (HandleBlock(t, s, b), true)
    else if t[b].height < t[cur].height then (s, k >= 1)
    else if k >= TotalCalls(t, cur, b) then (HandleBlock(t, s, b), true)
    else (s.(trace := s.trace + Emitted(t, cur, b, k)), false)
  }

  /** What one notification makes of a subscriber's stack of blocks; nothing if it cannot be replayed. */
  ghost function Follow(t: BlockTree, cur: Hash, stack: seq<Hash>, b: Hash, k: nat): Option<seq<Hash>>
    requires WellFormed(t) && b in t && cur in t
  {
    if t[b].prev == cur then
      if |stack| == t[cur].height + 1 then Some(stack + [b]) else None
    else if t[b].height < t[cur].height || k < FirstEmittingCall(t, cur, b) then Some(stack)
    else if |stack| != t[cur].height + 1 then None
    else
      var pn, f := Path(t, b), Fork(t, cur, b);
      if k >= TotalCalls(t, cur, b) then Some(stack[..f] + pn[f..])
      else if WalkedTo(t, cur, b, k) > f then Some(stack[..WalkedTo(t, cur, b, k)])
      else Some(stack[..f] + pn[f..ForwardedTo(t, cur, b, k)])
  }

  ghost function AsView(stack: Option<seq<Hash>>): Option<View> {
    if stack.None? then None else Some(View(stack.value, None))
  }

  lemma ReorgFollowed(t: BlockTree, cur: Hash, tip: Hash, stack: seq<Hash>, k: nat)
    requires WellFormed(t) && cur in t && tip in t && t[cur].height <= t[tip].height && t[tip].prev != cur
    requires k >= FirstEmittingCall(t, cur, tip)
    ensures Replay(View(stack, None),
                   if k >= TotalCalls(t, cur, tip) then Plan(t, cur, tip) else Emitted(t, cur, tip, k))
            == AsView(Follow(t, cur, stack, tip, k))
  {
    PathInTree(t, cur);
    PathInTree(t, tip);
    var pn, f := Path(t, tip), Fork(t, cur, tip);
    if k >= TotalCalls(t, cur, tip) {
      PartReplays(t, cur, tip, stack, f, |pn|);
      assert pn[f..|pn|] == pn[f..];
    } else {
      PartReplays(t, cur, tip, stack, WalkedTo(t, cur, tip, k), ForwardedTo(t, cur, tip, k));
    }
  }

  /** One notification, failing or not, moves the replayed stack as Follow says. */
  lemma NotifyFollowed(t: BlockTree, v: View, s: ClientState, stack: seq<Hash>, b: Hash, k: nat)
    requires WellFormed(t) && b in t && s.best.hash in t && s.best == Stamp(t, s.best.hash)
    requires Replay(v, s.trace) == Some(View(stack, None))
    ensures Replay(v, Notify(t, s, b, k).0.trace) == AsView(Follow(t, s.best.hash, stack, b, k))
  {
    var cur := s.best.hash;
    if t[b].prev == cur {
      ReplayConcat(v, s.trace, ConnectAt(t, b, s.best.height + 1));
      ConnectFollowed(t, stack, b, s.best.height + 1);
    } else if t[b].height >= t[cur].height {
      if k >= TotalCalls(t, cur, b) {
        ReplayConcat(v, s.trace, Plan(t, cur, b));
      } else {
        ReplayConcat(v, s.trace, Emitted(t, cur, b, k));
      }
      if k < FirstEmittingCall(t, cur, b) {
        assert s.trace + Emitted(t, cur, b, k) == s.trace;
      } else {
        ReorgFollowed(t, cur, b, stack, k);
      }
    }
  }

  lemma ConnectFollowed(t: BlockTree, stack: seq<Hash>, b: Hash, height: int)
    requires b in t
    ensures Replay(View(stack, None), ConnectAt(t, b, height))
            == if height == |stack| then Some(View(stack + [b], None)) else None
  {
    if height == |stack| {
      ReplayConnectOne(t, stack, b);
    } else {
      var c := ConnectAt(t, b, height);
      ReplayConcat(View(stack, None), [c[0]], [c[1]]);
      ReplayOne(View(stack, None), c[0]);
      assert c == [c[0]] + [c[1]];
    }
  }

  /** A run of notifications, each with the backend call at which it fails if it gets there. */
  ghost function RunFailing(t: BlockTree, s: ClientState, ns: seq<(Hash, nat)>): (r: ClientState)
    requires WellFormed(t) && s.best.hash in t && forall n :: n in ns ==> n.0 in t
    ensures r.best.hash in t
  {
    if ns == [] then s
    else Notify(t, RunFailing(t, s, ns[..|ns| - 1]), ns[|ns| - 1].0, ns[|ns| - 1].1).0
  }

  /** The stack over such a run. */
  ghost function FollowRun(t: BlockTree, s: ClientState, ns: seq<(Hash, nat)>): Option<seq<Hash>>
    requires WellFormed(t) && s.best.hash in t && forall n :: n in ns ==> n.0 in t
  {
    if ns == [] then Some(Path(t, s.best.hash))
    else
      match FollowRun(t, s, ns[..|ns| - 1])
      case None => None
      case Some(stack) =>
        Follow(t, RunFailing(t, s, ns[..|ns| - 1]).best.hash, stack, ns[|ns| - 1].0, ns[|ns| - 1].1)
  }

  lemma NotifyExtends(t: BlockTree, s: ClientState, b: Hash, k: nat)
    requires WellFormed(t) && b in t && s.best.hash in t
    ensures s.trace <= Notify(t, s, b, k).0.trace
    ensures s.best == Stamp(t, s.best.hash) ==> Notify(t, s, b, k).0.best == Stamp(t, Notify(t, s, b, k).0.best.hash)
  {
  }

  /** Over every run in which any notification may fail at any backend call, replaying the whole queue is
      possible exactly when following the stack is, and gives that stack. */
  lemma {:induction false} RunFailingFollowed(t: BlockTree, start: Hash, ns: seq<(Hash, nat)>)
    requires WellFormed(t) && start in t && forall n :: n in ns ==> n.0 in t
    ensures var s0 := ClientState(Stamp(t, start), []);
            && RunFailing(t, s0, ns).best == Stamp(t, RunFailing(t, s0, ns).best.hash)
            && Replay(View(Path(t, start), None), RunFailing(t, s0, ns).trace) == AsView(FollowRun(t, s0, ns))
  {
    if ns != [] {
      var s0, front, b, k := ClientState(Stamp(t, start), []), ns[..|ns| - 1], ns[|ns| - 1].0, ns[|ns| - 1].1;
      var s, v := RunFailing(t, s0, front), View(Path(t, start), None);
      RunFailingFollowed(t, start, front);
      NotifyExtends(t, s, b, k);
      if FollowRun(t, s0, front).None? {
        var trace := Notify(t, s, b, k).0.trace;
        ReplayConcat(v, s.trace, trace[|s.trace|..]);
        assert s.trace + trace[|s.trace|..] == trace;
      } else {
        NotifyFollowed(t, v, s, FollowRun(t, s0, front).value, b, k);
      }
    }
  }

  /** When the stack has another length than the path to the best block, no later notification that
      queues anything can be replayed. */
  lemma LengthMismatchIsFatal(t: BlockTree, v: View, s: ClientState, stack: seq<Hash>, b: Hash, k: nat)
    requires WellFormed(t) && b in t && s.best.hash in t && s.best == Stamp(t, s.best.hash)
    requires Replay(v, s.trace) == Some(View(stack, None)) && |stack| != s.best.height + 1
    ensures Replay(v, Notify(t, s, b, k).0.trace).None? <==> Notify(t, s, b, k).0.trace != s.trace
  {
    NotifyFollowed(t, v, s, stack, b, k);
    var cur := s.best.hash;
    if t[b].prev != cur && t[b].height >= t[cur].height && k >= TotalCalls(t, cur, b) {
      PathInTree(t, cur);
      assert |Plan(t, cur, b)| > 0;
    }
  }

  /** A reorganisation that failed at call k, after something was queued, is repaired by a later complete
      one if and only if it had got to connecting the new branch exactly up to the old tip's height and
      the later one goes back at least as deep. */
  lemma RepairedIff(t: BlockTree, start: Hash, s: ClientState, tip: Hash, k: nat, tip2: Hash)
    requires WellFormed(t) && InSync(t, start, s) && tip in t && tip2 in t
    requires s.best.height <= t[tip].height && s.best.height <= t[tip2].height && t[tip2].prev != s.best.hash
    requires FirstEmittingCall(t, s.best.hash, tip) <= k < TotalCalls(t, s.best.hash, tip)
    ensures var cur := s.best.hash;
            InSync(t, start, HandleBlock(t, s.(trace := s.trace + Emitted(t, cur, tip, k)), tip2))
            <==> ForwardedTo(t, cur, tip, k) == t[cur].height + 1 && Fork(t, cur, tip2) <= Fork(t, cur, tip)
  {
    var cur := s.best.hash;
    var cut := s.(trace := s.trace + Emitted(t, cur, tip, k));
    var v, stack := View(Path(t, start), None), CutStack(t, cur, tip, k);
    ReplayConcat(v, s.trace, Emitted(t, cur, tip, k));
    EmittedReplays(t, cur, tip, k);
    NotifyFollowed(t, v, cut, stack, tip2, TotalCalls(t, cur, tip2));
    CutStackRepaired(t, cur, tip, k, tip2);
  }

  /** The stack after a reorganisation cut off at call k. */
  ghost function CutStack(t: BlockTree, cur: Hash, tip: Hash, k: nat): seq<Hash>
    requires WellFormed(t) && cur in t && tip in t && t[cur].height <= t[tip].height
    requires FirstEmittingCall(t, cur, tip) <= k < TotalCalls(t, cur, tip)
  {
    if WalkedTo(t, cur, tip, k) > Fork(t, cur, tip) then Path(t, cur)[..WalkedTo(t, cur, tip, k)]
    else Path(t, tip)[..ForwardedTo(t, cur, tip, k)]
  }

  lemma CutStackRepaired(t: BlockTree, cur: Hash, tip: Hash, k: nat, tip2: Hash)
    requires WellFormed(t) && cur in t && tip in t && tip2 in t
    requires t[cur].height <= t[tip].height && t[cur].height <= t[tip2].height && t[tip2].prev != cur
    requires FirstEmittingCall(t, cur, tip) <= k < TotalCalls(t, cur, tip)
    ensures Follow(t, cur, CutStack(t, cur, tip, k), tip2, TotalCalls(t, cur, tip2)) == Some(Path(t, tip2))
            <==> ForwardedTo(t, cur, tip, k) == t[cur].height + 1 && Fork(t, cur, tip2) <= Fork(t, cur, tip)
  {
    var pc, pn, pn2, f2 := Path(t, cur), Path(t, tip), Path(t, tip2), Fork(t, cur, tip2);
    var m, stack := ForwardedTo(t, cur, tip, k), CutStack(t, cur, tip, k);
    assert |stack| == |pc| <==> m == |pc|;
    if m == |pc| {
      assert Follow(t, cur, stack, tip2, TotalCalls(t, cur, tip2)) == Some(stack[..f2] + pn2[f2..]);
      assert stack == pn[..m] && stack[..f2] == pn[..f2];
      Deepest(pc, pn, pn2, t[cur].height);
      SpliceIs(pn2, f2, pn[..f2]);
    }
  }

  /** Two branches agree with a third path at least as far as the second of them forks off. */
  lemma Deepest(pc: seq<Hash>, pn: seq<Hash>, pn2: seq<Hash>, k: nat)
    requires k <= |pc| && k <= |pn| && k <= |pn2|
    ensures var f, f2 := ForkLen(pc, pn, k), ForkLen(pc, pn2, k); pn[..f2] == pn2[..f2] <==> f2 <= f
  {
    var f, f2 := ForkLen(pc, pn, k), ForkLen(pc, pn2, k);
    ForkLenIsGreatest(pc, pn, k, f2);
    ForkLenIsGreatest(pc, pn2, k, 0);
    if f2 <= f {
      assert pc[..f2] == pc[..f][..f2] && pn[..f2] == pn[..f][..f2];
    }
  }

  // ---------------------------------------------------------------- instances

  /** Genesis 0 with the branches 1, 2 and 11, 12. */
  const TWO_BRANCHES: BlockTree :=
    map[0 := Node(100, 0, 500),
        1 := Node(0, 1, 510), 2 := Node(1, 2, 520),
        11 := Node(0, 1, 511), 12 := Node(11, 2, 522)]

  lemma TwoBranches()
    ensures WellFormed(TWO_BRANCHES)
    ensures Path(TWO_BRANCHES, 2) == [0, 1, 2] && Path(TWO_BRANCHES, 12) == [0, 11, 12]
    ensures Fork(TWO_BRANCHES, 2, 12) == 1
  {
    var t := TWO_BRANCHES;
    assert forall h :: h in t ==> Linked(t, h);
    assert Path(t, 0) == [0];
    assert Path(t, 1) == [0, 1];
    assert Path(t, 11) == [0, 11];
    var pc, pn := Path(t, 2), Path(t, 12);
    assert pc == [0, 1, 2] && pn == [0, 11, 12];
    assert pc[..2][1] != pn[..2][1];
    assert pc[..1] == [0] == pn[..1];
    assert ForkLen(pc, pn, 1) == 1;
  }

  /** Moving from block 2 to block 12, the second disconnect carries genesis's hash for block 1. */
  lemma SecondDisconnectMisnamed()
    ensures WellFormed(TWO_BRANCHES)
    ensures |Plan(TWO_BRANCHES, 2, 12)| >= 2 && Plan(TWO_BRANCHES, 2, 12)[1] == BlockDisconnected(0, 1, 510)
  {
    TwoBranches();
    var t, pc := TWO_BRANCHES, Path(TWO_BRANCHES, 2);
    PathInTree(t, 2);
    PathInTree(t, 12);
    DisconnectsFallToFork(t, pc, 1, 1);
  }

  /** If the call after the first disconnect fails, the queue has disconnected block 2 and the best block
      is still block 2. */
  lemma FailureLeavesSync()
    ensures WellFormed(TWO_BRANCHES)
    ensures var s := ClientState(Stamp(TWO_BRANCHES, 2), []);
            var (r, ok) := Notify(TWO_BRANCHES, s, 12, 2);
            !ok && r.best == s.best && |r.trace| == 1 && InSync(TWO_BRANCHES, 2, s) && !InSync(TWO_BRANCHES, 2, r)
  {
    TwoBranches();
    var s := ClientState(Stamp(TWO_BRANCHES, 2), []);
    FailedReorgInSync(TWO_BRANCHES, 2, s, 12, 2);
    assert s.trace + Emitted(TWO_BRANCHES, 2, 12, 2) == Emitted(TWO_BRANCHES, 2, 12, 2);
    assert Path(TWO_BRANCHES, 2)[1] != Path(TWO_BRANCHES, 12)[1];
    PathInTree(TWO_BRANCHES, 2);
    PathInTree(TWO_BRANCHES, 12);
  }

  // ---------------------------------------------------------------- the client

  class BitcoindClient {
    const tree: BlockTree
    var bestBlock: BlockStamp
    var ntfns: seq<Ntfn>

    ghost predicate Valid()
      reads this
    {
      && WellFormed(tree)
      && bestBlock.hash in tree
      && bestBlock == Stamp(tree, bestBlock.hash)
    }

    function State(): ClientState
      reads this
    {
      ClientState(bestBlock, ntfns)
    }

    constructor (tree: BlockTree, start: Hash)
      requires WellFormed(tree) && start in tree
      ensures Valid() && this.tree == tree && State() == ClientState(Stamp(tree, start), [])
    {
      this.tree := tree;
      bestBlock := BlockStamp(start, tree[start].height, tree[start].time);
      ntfns := [];
    }

    /** Queue the disconnect of block k of pc, after those of all the blocks above it. */
    method OnBlockDisconnected(b: BlockStamp, time: int, ghost was: seq<Ntfn>, ghost pc: seq<Hash>, ghost k: nat)
      requires k < |pc| && forall i :: 0 <= i < |pc| ==> pc[i] in tree
      requires DisconnectAt(tree, pc, k) == BlockDisconnected(b.hash, b.height, time)
      requires ntfns == was + Disconnects(tree, pc, k + 1)
      modifies this`ntfns
      ensures ntfns == old(ntfns) + [BlockDisconnected(b.hash, b.height, time)]
      ensures ntfns == was + Disconnects(tree, pc, k)
    {
      ntfns := ntfns + [BlockDisconnected(b.hash, b.height, time)];
      AppendAssoc(was, Disconnects(tree, pc, k + 1), [DisconnectAt(tree, pc, k)]);
    }

    /** The notification shape of filterBlock: the filtered block first, then the plain one. */
    method FilterBlock(b: Hash, height: int)
      requires b in tree
      modifies this`ntfns
      ensures ntfns == old(ntfns) + ConnectAt(tree, b, height)
    {
      ntfns := ntfns + [FilteredBlockConnected(b, height)];
      ntfns := ntfns + [BlockConnected(b, height, tree[b].time)];
    }

    /** One block notification.  The backend answers the first `failAt` calls of this notification
        and fails the next one, if there is one. */
    method OnBlock(b: Hash, failAt: nat) returns (ok: bool)
      requires Valid() && b in tree
      modifies this
      ensures Valid()
      ensures (State(), ok) == Notify(tree, old(State()), b, failAt)
    {
      assert Linked(tree, b);
      if tree[b].prev == bestBlock.hash {
        FilterBlock(b, bestBlock.height + 1);
        bestBlock := BlockStamp(b, bestBlock.height + 1, tree[b].time);
        return true;
      }
      ok := Reorg(b, failAt);
    }

    method Reorg(reorgBlock: Hash, failAt: nat) returns (ok: bool)
      requires Valid() && reorgBlock in tree
      modifies this
      ensures Valid()
      ensures tree[reorgBlock].height < old(bestBlock).height ==> ok == (failAt >= 1) && State() == old(State())
      ensures tree[reorgBlock].height >= old(bestBlock).height ==>
        var cur := old(bestBlock).hash;
        && ok == (failAt >= TotalCalls(tree, cur, reorgBlock))
        && (ok ==> State() == ClientState(Stamp(tree, reorgBlock), old(ntfns) + Plan(tree, cur, reorgBlock)))
        && (!ok ==> State() == ClientState(old(bestBlock), old(ntfns) + Emitted(tree, cur, reorgBlock, failAt)))
    {
      if failAt == 0 { return false; }
      if tree[reorgBlock].height < bestBlock.height { return true; }
      ghost var cur, was := bestBlock.hash, ntfns;
      ghost var pc, pn, f := Path(tree, cur), Path(tree, reorgBlock), Fork(tree, cur, reorgBlock);
      PathInTree(tree, cur);
      PathInTree(tree, reorgBlock);
      var calls, blocksToNotify, previousBlock, height;
      ok, calls, blocksToNotify, previousBlock := CollectBranch(reorgBlock, failAt);
      if !ok { return; }
      ForkParents(tree, cur, reorgBlock);
      ghost var cut;
      ok, calls, blocksToNotify, height, cut := WalkBack(failAt, calls, blocksToNotify, previousBlock, pc, pn, f);
      if !ok {
        FailedInWalk(tree, cur, reorgBlock, failAt, cut);
        return;
      }
      ok, cut := FastForward(failAt, calls, blocksToNotify, height, pn, f);
      AppendAssoc(was, Disconnects(tree, pc, f), Connects(tree, pn, f, cut));
      if !ok {
        FailedInForward(tree, cur, reorgBlock, failAt, cut);
      }
    }

    /** First loop: collect the new branch down to the height of our tip. */
    method CollectBranch(reorgBlock: Hash, failAt: nat)
      returns (ok: bool, calls: nat, blocksToNotify: seq<Hash>, previousBlock: Hash)
      requires Valid() && reorgBlock in tree && bestBlock.height <= tree[reorgBlock].height && 1 <= failAt
      ensures calls == (if ok then FirstEmittingCall(tree, bestBlock.hash, reorgBlock) - 1 else failAt)
      ensures if ok then calls <= failAt else failAt < FirstEmittingCall(tree, bestBlock.hash, reorgBlock) - 1
      ensures ok ==>
        && blocksToNotify == Path(tree, reorgBlock)[bestBlock.height..]
        && Path(tree, reorgBlock)[bestBlock.height] in tree
        && previousBlock == tree[Path(tree, reorgBlock)[bestBlock.height]].prev
    {
      ghost var pn := Path(tree, reorgBlock);
      var bestHeight := tree[reorgBlock].height;
      calls, blocksToNotify, previousBlock := 1, [reorgBlock], tree[reorgBlock].prev;
      var i := bestHeight - 1;
      assert pn[bestHeight..] == [reorgBlock];
      while i >= bestBlock.height
        invariant bestBlock.height - 1 <= i <= bestHeight - 1
        invariant blocksToNotify == pn[i + 1..]
        invariant pn[i + 1] in tree && previousBlock == tree[pn[i + 1]].prev
        invariant calls == bestHeight - i <= failAt
      {
        if calls == failAt { ok := false; return; }
        calls := calls + 1;
        PathLink(tree, reorgBlock, i + 1);
        DropStep(pn, i);
        blocksToNotify := [previousBlock] + blocksToNotify;
        previousBlock := tree[previousBlock].prev;
        i := i - 1;
      }
      ok := true;
    }

    /** Second loop: disconnect and walk both branches back until their parents agree. */
    method WalkBack(failAt: nat, calls0: nat, blocks0: seq<Hash>, previous0: Hash,
                    ghost pc: seq<Hash>, ghost pn: seq<Hash>, ghost f: nat)
      returns (ok: bool, calls: nat, blocksToNotify: seq<Hash>, height: int, ghost cut: nat)
      requires bestBlock.hash in tree && bestBlock.time == tree[bestBlock.hash].time
      requires 0 <= bestBlock.height == |pc| - 1 && pc[|pc| - 1] == bestBlock.hash
      requires ForksAt(tree, pc, pn, f)
      requires calls0 <= failAt
      requires blocks0 == pn[bestBlock.height..]
      requires previous0 == tree[pn[bestBlock.height]].prev
      modifies this`ntfns
      ensures f <= cut <= |pc| && ntfns == old(ntfns) + Disconnects(tree, pc, cut)
      ensures !ok ==> if cut == |pc| then failAt == calls0
                      else f < cut && 1 <= failAt - calls0 - 2 * (bestBlock.height - cut) <= 2
      ensures ok ==> cut == f && calls == calls0 + 1 + 2 * (bestBlock.height - f) <= failAt
      ensures ok ==> blocksToNotify == pn[f..] && height == f - 1
    {
      ghost var cur, curHeight, was := bestBlock.hash, bestBlock.height, ntfns;
      var currentBlock, previousBlock := bestBlock, previous0;
      calls, blocksToNotify, height, cut := calls0, blocks0, 0, |pc|;
      if calls == failAt { ok := false; return; }
      calls := calls + 1;
      var currentHeader := tree[currentBlock.hash];
      while previousBlock != currentHeader.prev
        invariant f <= currentBlock.height <= curHeight
        invariant cut == currentBlock.height + 1
        invariant currentHeader == tree[pc[currentBlock.height]]
        invariant currentBlock.time == currentHeader.time
        invariant currentBlock.hash == (if currentBlock.height == curHeight then cur else currentHeader.prev)
        invariant blocksToNotify == pn[currentBlock.height..]
        invariant previousBlock == tree[pn[currentBlock.height]].prev
        invariant ntfns == was + Disconnects(tree, pc, cut)
        invariant calls == calls0 + 1 + 2 * (curHeight - currentBlock.height) <= failAt
        decreases currentBlock.height
      {
        cut := currentBlock.height;
        assert ParentsAgree(tree, pc, pn, cut) <==> cut == f;
        OnBlockDisconnected(currentBlock, currentBlock.time, was, pc, cut);
        if calls == failAt { ok := false; return; }
        calls := calls + 1;
        currentHeader := tree[currentHeader.prev];
        currentBlock := BlockStamp(currentHeader.prev, currentBlock.height - 1, currentHeader.time);
        if calls == failAt { ok := false; return; }
        calls := calls + 1;
        DropStep(pn, cut - 1);
        blocksToNotify := [previousBlock] + blocksToNotify;
        previousBlock := tree[previousBlock].prev;
      }
      assert ParentsAgree(tree, pc, pn, currentBlock.height) <==> currentBlock.height == f;
      OnBlockDisconnected(currentBlock, currentHeader.time, was, pc, f);
      ok, height, cut := true, currentBlock.height - 1, f;
    }

    /** Third loop: connect the new branch and move the best block to its tip. */
    method FastForward(failAt: nat, calls0: nat, blocks0: seq<Hash>, height0: int, ghost pn: seq<Hash>, ghost f: nat)
      returns (ok: bool, ghost cut: nat)
      requires Valid() && f < |pn| && height0 == f - 1 && blocks0 == pn[f..]
      requires forall i :: 0 <= i < |pn| ==> pn[i] in tree && tree[pn[i]].height == i
      requires calls0 <= failAt
      modifies this
      ensures Valid()
      ensures f <= cut <= |pn| && ntfns == old(ntfns) + Connects(tree, pn, f, cut)
      ensures ok ==> cut == |pn| && failAt >= calls0 + (|pn| - f) && bestBlock == Stamp(tree, pn[|pn| - 1])
      ensures !ok ==> cut < |pn| && failAt == calls0 + (cut - f) && bestBlock == old(bestBlock)
    {
      var calls, blocksToNotify, currentBlock := calls0, blocks0, bestBlock.(height := height0);
      cut := f;
      while blocksToNotify != []
        invariant f <= cut == currentBlock.height + 1 <= |pn|
        invariant blocksToNotify == pn[cut..]
        invariant cut > f ==> currentBlock == Stamp(tree, pn[cut - 1])
        invariant ntfns == old(ntfns) + Connects(tree, pn, f, cut)
        invariant bestBlock == old(bestBlock)
        invariant calls == calls0 + (cut - f) <= failAt
        decreases |blocksToNotify|
      {
        var nextBlock := blocksToNotify[0];
        var nextHeight := currentBlock.height + 1;
        if calls == failAt { ok := false; return; }
        calls := calls + 1;
        DropStep(pn, cut);
        FilterBlock(nextBlock, nextHeight);
        AppendAssoc(old(ntfns), Connects(tree, pn, f, cut), ConnectAt(tree, nextBlock, nextHeight));
        currentBlock := BlockStamp(nextBlock, nextHeight, tree[nextBlock].time);
        blocksToNotify := blocksToNotify[1..];
        cut := cut + 1;
      }
      bestBlock, ok := currentBlock, true;
    }
  }

  ghost predicate ParentsAgree(t: BlockTree, pc: seq<Hash>, pn: seq<Hash>, h: nat)
    requires h < |pc| && h < |pn| && pc[h] in t && pn[h] in t
  {
    t[pc[h]].prev == t[pn[h]].prev
  }

  /** Walking down from the tip of pc, the parents on the two branches first agree at height f. */
  ghost predicate ForksAt(t: BlockTree, pc: seq<Hash>, pn: seq<Hash>, f: nat) {
    && f < |pc| <= |pn|
    && (forall h :: 0 <= h < |pc| ==> pc[h] in t)
    && (forall h :: 0 <= h < |pn| ==> pn[h] in t)
    && (forall h {:trigger ParentsAgree(t, pc, pn, h)} :: f <= h < |pc| ==>
          (ParentsAgree(t, pc, pn, h) <==> h == f)
          && (f < h ==> t[pc[h]].prev == pc[h - 1] && t[pn[h]].prev == pn[h - 1]))
  }

  lemma ForkParents(t: BlockTree, cur: Hash, tip: Hash)
    requires WellFormed(t) && cur in t && tip in t && t[cur].height <= t[tip].height
    ensures ForksAt(t, Path(t, cur), Path(t, tip), Fork(t, cur, tip))
  {
    var pc, pn, f := Path(t, cur), Path(t, tip), Fork(t, cur, tip);
    PathInTree(t, cur);
    PathInTree(t, tip);
    forall h | f <= h < |pc|
      ensures ParentsAgree(t, pc, pn, h) <==> h == f
      ensures f < h ==> t[pc[h]].prev == pc[h - 1] && t[pn[h]].prev == pn[h - 1]
    {
      PathLink(t, cur, h);
      PathLink(t, tip, h);
      if t[pc[h]].prev == t[pn[h]].prev {
        WalkEnd(t, cur, tip, h);
      } else {
        WalkStep(t, cur, tip, h);
      }
    }
  }

  /** While the parents at height h differ, the fork lies below h. */
  lemma WalkStep(t: BlockTree, cur: Hash, tip: Hash, h: nat)
    requires WellFormed(t) && cur in t && tip in t && h <= t[cur].height <= t[tip].height
    requires Path(t, cur)[h] in t && Path(t, tip)[h] in t
    requires t[Path(t, cur)[h]].prev != t[Path(t, tip)[h]].prev
    ensures Fork(t, cur, tip) < h
  {
    var pc, pn, f := Path(t, cur), Path(t, tip), Fork(t, cur, tip);
    PathLink(t, cur, h);
    PathLink(t, tip, h);
    PathLink(t, cur, 0);
    PathLink(t, tip, 0);
    assert Linked(t, pc[0]) && Linked(t, pn[0]);
    ForkLenIsGreatest(pc, pn, t[cur].height, 0);
    assert forall i :: 0 <= i < f ==> pc[i] == pc[..f][i] == pn[..f][i] == pn[i];
  }

  /** Once the parents at height h agree, the fork is at h. */
  lemma WalkEnd(t: BlockTree, cur: Hash, tip: Hash, h: nat)
    requires WellFormed(t) && cur in t && tip in t && t[cur].height <= t[tip].height
             && Fork(t, cur, tip) <= h <= t[cur].height
    requires Path(t, cur)[h] in t && Path(t, tip)[h] in t
    requires t[Path(t, cur)[h]].prev == t[Path(t, tip)[h]].prev
    ensures Fork(t, cur, tip) == h
  {
    var pc, pn := Path(t, cur), Path(t, tip);
    if h > 0 {
      PathLink(t, cur, h);
      PathLink(t, tip, h);
      PathPrefix(t, cur, h - 1);
      PathPrefix(t, tip, h - 1);
      ForkLenIsGreatest(pc, pn, t[cur].height, h);
    }
  }

  lemma FailedInWalk(t: BlockTree, cur: Hash, tip: Hash, k: nat, cut: nat)
    requires WellFormed(t) && cur in t && tip in t && t[cur].height <= t[tip].height
    requires forall i :: 0 <= i < |Path(t, cur)| ==> Path(t, cur)[i] in t
    requires if cut == t[cur].height + 1 then k == FirstEmittingCall(t, cur, tip) - 1
             else Fork(t, cur, tip) < cut <= t[cur].height
                  && 0 <= k - FirstEmittingCall(t, cur, tip) - 2 * (t[cur].height - cut) <= 1
    ensures k < TotalCalls(t, cur, tip)
    ensures Emitted(t, cur, tip, k) == Disconnects(t, Path(t, cur), cut)
  {
    PathInTree(t, tip);
    var pc, first := Path(t, cur), FirstEmittingCall(t, cur, tip);
    if k >= first {
      HalfIs(k - first, t[cur].height - cut);
      assert WalkedTo(t, cur, tip, k) == cut && ForwardedTo(t, cur, tip, k) == Fork(t, cur, tip);
      assert Disconnects(t, pc, cut) + [] == Disconnects(t, pc, cut);
    }
  }

  lemma HalfIs(x: nat, y: int)
    requires 0 <= x - 2 * y <= 1
    ensures x / 2 == y
  {
  }

  lemma FailedInForward(t: BlockTree, cur: Hash, tip: Hash, k: nat, cut: nat)
    requires WellFormed(t) && cur in t && tip in t && t[cur].height <= t[tip].height
    requires forall i :: 0 <= i < |Path(t, cur)| ==> Path(t, cur)[i] in t
    requires forall i :: 0 <= i < |Path(t, tip)| ==> Path(t, tip)[i] in t
    requires var f := Fork(t, cur, tip);
             f <= cut <= t[tip].height && k == FirstEmittingCall(t, cur, tip) + 2 * (t[cur].height - f) + (cut - f)
    ensures k < TotalCalls(t, cur, tip)
    ensures var f := Fork(t, cur, tip);
            Emitted(t, cur, tip, k) == Disconnects(t, Path(t, cur), f) + Connects(t, Path(t, tip), f, cut)
  {
    assert WalkedTo(t, cur, tip, k) == Fork(t, cur, tip) && ForwardedTo(t, cur, tip, k) == cut;
  }
}
