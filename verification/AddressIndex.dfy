/**
 Child indices of one account (waddrmgr/scoped_manager.go, waddrmgr/db.go): handing out the next
 addresses of a branch and extending a branch up to an index, inside database transactions that
 commit or roll back, next to a cache of the next index of each branch.

 Key derivation is abstracted to its outcome per branch and index: a valid child, an invalid child
 (skipped, as in the "Child key derivation (CKD) functions" section of BIP 32) or another failure.
 */
module AddressIndex {
  import opened Wrappers
  import opened Sequences

  datatype Branch = External | Internal
  datatype Child = ValidChild | InvalidChild | OtherFailure
  type Derive = (Branch, nat) -> Child

  const MAX_ADDRESSES_PER_ACCOUNT := 0x7FFF_FFFF
  const TWO_TO_32 := 0x1_0000_0000

  datatype Error = TooManyAddresses | KeyChain

  /** What the database has for a branch: the next index in the account row, and the indices of the
      addresses stored, in the order they were written. */
  datatype BranchRow = BranchRow(next: nat, stored: seq<nat>)

  datatype Db = Db(external: BranchRow, internal: BranchRow)

  function RowOf(db: Db, b: Branch): BranchRow {
    if b == External then db.external else db.internal
  }

  function WithRow(db: Db, b: Branch, row: BranchRow): Db {
    if b == External then db.(external := row) else db.(internal := row)
  }

  datatype Cache = Cache(external: nat, internal: nat)

  function CachedNext(c: Cache, b: Branch): nat {
    if b == External then c.external else c.internal
  }

  function WithNext(c: Cache, b: Branch, n: nat): Cache {
    if b == External then c.(external := n) else c.(internal := n)
  }

  /** `onCommit` holds the closures to run after a commit, each setting a cached next index; `panics` says
      that one of the closures queued takes the last of no addresses. */
  datatype State = State(committed: Db, working: Db, cache: Option<Cache>, onCommit: seq<(Branch, nat)>, panics: bool)

  // ---------------------------------------------------------------- deriving children

  /** Past the hardened boundary no index is an invalid child, so that the search for the next valid
      child ends. */
  ghost predicate SearchEnds(derive: Derive) {
    forall b, i :: i > MAX_ADDRESSES_PER_ACCOUNT ==> derive(b, i) != InvalidChild
  }

  /** The least index from i on that is not an invalid child. */
  ghost function NextChild(derive: Derive, b: Branch, i: nat): (j: nat)
    requires SearchEnds(derive)
    ensures i <= j && derive(b, j) != InvalidChild
    ensures forall k :: i <= k < j ==> derive(b, k) == InvalidChild
    decreases MAX_ADDRESSES_PER_ACCOUNT + 1 - i
  {
    if derive(b, i) == InvalidChild then NextChild(derive, b, i + 1) else i
  }

  /** n valid children from i on, and the index after the last of them. */
  ghost function Children(derive: Derive, b: Branch, i: nat, n: nat): Option<(seq<nat>, nat)>
    requires SearchEnds(derive)
  {
    if n == 0 then Some(([], i))
    else match Children(derive, b, i, n - 1)
      case None => None
      case Some((found, k)) =>
        var j := NextChild(derive, b, k);
        if derive(b, j) == OtherFailure then None else Some((found + [j], j + 1))
  }

  /** Valid children from i on until the next index passes `last`. */
  ghost function ChildrenThrough(derive: Derive, b: Branch, i: nat, last: nat): Option<(seq<nat>, nat)>
    requires SearchEnds(derive)
    decreases last + 1 - i
  {
    if i > last then Some(([], i))
    else
      var j := NextChild(derive, b, i);
      if derive(b, j) == OtherFailure then None
      else match ChildrenThrough(derive, b, j + 1, last)
        case None => None
        case Some((rest, k)) => Some(([j] + rest, k))
  }

  /** Write the addresses in turn, each moving the next index past itself. */
  function PutAll(row: BranchRow, found: seq<nat>): BranchRow {
    if found == [] then row
    else BranchRow(found[|found| - 1] + 1, PutAll(row, found[..|found| - 1]).stored + [found[|found| - 1]])
  }

  // ---------------------------------------------------------------- operations

  /** The cache entry, loaded from the database of the running transaction when missing. */
  function Loaded(s: State): Cache {
    if s.cache.Some? then s.cache.value else Cache(s.working.external.next, s.working.internal.next)
  }

  /** The next n valid children within the limit on a branch, and the index after them. */
  ghost function FindNext(derive: Derive, b: Branch, next: nat, n: nat): Result<(seq<nat>, nat), Error>
    requires SearchEnds(derive)
  {
    if n > MAX_ADDRESSES_PER_ACCOUNT || (next + n) % TWO_TO_32 > MAX_ADDRESSES_PER_ACCOUNT then Err(TooManyAddresses)
    else match Children(derive, b, next, n)
      case None => Err(KeyChain)
      case Some(children) => Ok(children)
  }

  ghost function NextAddresses(derive: Derive, s: State, b: Branch, n: nat): (State, Result<seq<nat>, Error>)
    requires SearchEnds(derive)
  {
    var loaded := s.(cache := Some(Loaded(s)));
    match FindNext(derive, b, CachedNext(Loaded(s), b), n)
    case Err(e) => (loaded, Err(e))
    case Ok((found, k)) =>
      (loaded.(working := WithRow(s.working, b, PutAll(RowOf(s.working, b), found)),
               onCommit := s.onCommit + [(b, k)],
               panics := s.panics || n == 0),
       Ok(found))
  }

  /** The valid children through `last`; none when it is already passed. */
  ghost function FindThrough(derive: Derive, b: Branch, next: nat, last: nat): Result<(seq<nat>, nat), Error>
    requires SearchEnds(derive)
  {
    if last < next then Ok(([], next))
    else if last > MAX_ADDRESSES_PER_ACCOUNT then Err(TooManyAddresses)
    else match ChildrenThrough(derive, b, next, last)
      case None => Err(KeyChain)
      case Some(children) => Ok(children)
  }

  ghost function ExtendAddresses(derive: Derive, s: State, b: Branch, last: nat): (State, Result<seq<nat>, Error>)
    requires SearchEnds(derive)
  {
    var loaded := s.(cache := Some(Loaded(s)));
    match FindThrough(derive, b, CachedNext(Loaded(s), b), last)
    case Err(e) => (loaded, Err(e))
    case Ok((found, k)) =>
      (loaded.(working := WithRow(s.working, b, PutAll(RowOf(s.working, b), found)),
               cache := Some(WithNext(Loaded(s), b, k))),
       Ok(found))
  }

  function ApplyClosures(c: Option<Cache>, fs: seq<(Branch, nat)>): Option<Cache> {
    if fs == [] || c.None? then c
    else match ApplyClosures(c, fs[..|fs| - 1])
      case None => None
      case Some(d) => Some(WithNext(d, fs[|fs| - 1].0, fs[|fs| - 1].1))
  }

  /** A commit whose closures all run. */
  function Commit(s: State): State {
    State(s.working, s.working, ApplyClosures(s.cache, s.onCommit), [], false)
  }

  function Rollback(s: State): State {
    State(s.committed, s.committed, s.cache, [], false)
  }

  // ---------------------------------------------------------------- invariants

  /** The indices found from i up to k are exactly the valid ones, in increasing order. */
  ghost predicate ExactRun(derive: Derive, b: Branch, i: nat, k: nat, found: seq<nat>) {
    && i <= k
    && Ascending(found)
    && (forall j: nat :: j in found <==> i <= j < k && derive(b, j) == ValidChild)
  }

  /** The stored indices are exactly the valid ones below the next index, each stored once. */
  ghost predicate RowExact(derive: Derive, b: Branch, row: BranchRow) {
    ExactRun(derive, b, 0, row.next, row.stored)
  }

  /** Between transactions: database rows are exact and the cache, if any, agrees with them. */
  ghost predicate Inv(derive: Derive, s: State) {
    && s.working == s.committed && s.onCommit == [] && !s.panics
    && RowExact(derive, External, s.committed.external)
    && RowExact(derive, Internal, s.committed.internal)
    && (s.cache.Some? ==> s.cache.value == Cache(s.committed.external.next, s.committed.internal.next))
  }

  lemma Extends(derive: Derive, b: Branch, i: nat, k: nat, found: seq<nat>)
    requires SearchEnds(derive) && ExactRun(derive, b, i, k, found)
    requires derive(b, NextChild(derive, b, k)) == ValidChild
    ensures ExactRun(derive, b, i, NextChild(derive, b, k) + 1, found + [NextChild(derive, b, k)])
  {
    var j := NextChild(derive, b, k);
    assert forall m :: 0 <= m < |found| ==> found[m] in found;
    forall x: nat ensures x in found + [j] <==> i <= x < j + 1 && derive(b, x) == ValidChild {
      if k <= x < j {
        assert derive(b, x) == InvalidChild;
      }
    }
  }

  lemma {:induction false} ChildrenExact(derive: Derive, b: Branch, i: nat, n: nat)
    requires SearchEnds(derive)
    ensures match Children(derive, b, i, n)
      case None => true
      case Some((found, k)) =>
        ExactRun(derive, b, i, k, found) && |found| == n && (n > 0 ==> found[n - 1] + 1 == k)
  {
    if n > 0 {
      ChildrenExact(derive, b, i, n - 1);
      match Children(derive, b, i, n - 1) {
        case None =>
        case Some((found, k)) =>
          if derive(b, NextChild(derive, b, k)) != OtherFailure {
            Extends(derive, b, i, k, found);
          }
      }
    }
  }

  lemma Prepends(derive: Derive, b: Branch, i: nat, k: nat, rest: seq<nat>)
    requires SearchEnds(derive)
    requires var j := NextChild(derive, b, i); derive(b, j) == ValidChild && ExactRun(derive, b, j + 1, k, rest)
    ensures ExactRun(derive, b, i, k, [NextChild(derive, b, i)] + rest)
  {
    var j := NextChild(derive, b, i);
    forall x: nat ensures x in [j] + rest <==> i <= x < k && derive(b, x) == ValidChild {
      if i <= x < j {
        assert derive(b, x) == InvalidChild;
      }
    }
    assert forall m :: 0 <= m < |rest| ==> rest[m] in rest;
  }

  ghost predicate ExactThrough(derive: Derive, b: Branch, i: nat, last: nat, found: seq<nat>, k: nat) {
    && ExactRun(derive, b, i, k, found) && k > last
    && (if i <= last then found != [] && found[|found| - 1] + 1 == k else found == [] && k == i)
  }

  lemma PrependsThrough(derive: Derive, b: Branch, i: nat, last: nat, rest: seq<nat>, k: nat)
    requires SearchEnds(derive) && i <= last && derive(b, NextChild(derive, b, i)) == ValidChild
    requires ExactThrough(derive, b, NextChild(derive, b, i) + 1, last, rest, k)
    ensures ExactThrough(derive, b, i, last, [NextChild(derive, b, i)] + rest, k)
  {
    Prepends(derive, b, i, k, rest);
  }

  lemma {:induction false} ChildrenThroughExact(derive: Derive, b: Branch, i: nat, last: nat)
    requires SearchEnds(derive)
    ensures match ChildrenThrough(derive, b, i, last)
      case None => true
      case Some((found, k)) => ExactThrough(derive, b, i, last, found, k)
    decreases last + 1 - i
  {
    if i <= last {
      var j := NextChild(derive, b, i);
      if derive(b, j) != OtherFailure {
        ChildrenThroughExact(derive, b, j + 1, last);
        match ChildrenThrough(derive, b, j + 1, last) {
          case None =>
          case Some((rest, k)) => PrependsThrough(derive, b, i, last, rest, k);
        }
      }
    }
  }

  lemma {:induction false} PutAllIs(row: BranchRow, found: seq<nat>)
    ensures PutAll(row, found).stored == row.stored + found
    ensures PutAll(row, found).next == if found == [] then row.next else found[|found| - 1] + 1
  {
    if found != [] {
      PutAllIs(row, found[..|found| - 1]);
      assert found == found[..|found| - 1] + [found[|found| - 1]];
    }
  }

  /** Writing an exact run that starts at the next index keeps the row exact. */
  lemma PutKeepsExact(derive: Derive, b: Branch, row: BranchRow, found: seq<nat>, k: nat)
    requires RowExact(derive, b, row) && ExactRun(derive, b, row.next, k, found)
    requires if found == [] then k == row.next else found[|found| - 1] + 1 == k
    ensures PutAll(row, found).next == k
    ensures RowExact(derive, b, PutAll(row, found))
  {
    PutAllIs(row, found);
    var all := row.stored + found;
    assert forall m :: 0 <= m < |row.stored| ==> row.stored[m] in row.stored;
    assert forall m :: 0 <= m < |found| ==> found[m] in found;
    forall x: nat ensures x in all <==> x < k && derive(b, x) == ValidChild {}
  }

  // ---------------------------------------------------------------- transactions

  datatype Call = CallNext(n: nat) | CallExtend(last: nat)

  ghost function Invoke(derive: Derive, s: State, b: Branch, call: Call): (State, Result<seq<nat>, Error>)
    requires SearchEnds(derive)
  {
    match call
    case CallNext(n) => NextAddresses(derive, s, b, n)
    case CallExtend(last) => ExtendAddresses(derive, s, b, last)
  }

  ghost function RunCalls(derive: Derive, s: State, calls: seq<(Branch, Call)>): State
    requires SearchEnds(derive)
  {
    if calls == [] then s
    else Invoke(derive, RunCalls(derive, s, calls[..|calls| - 1]), calls[|calls| - 1].0, calls[|calls| - 1].1).0
  }

  datatype Tx = Tx(calls: seq<(Branch, Call)>, commit: bool)

  ghost function RunTx(derive: Derive, s: State, tx: Tx): State
    requires SearchEnds(derive)
  {
    var t := RunCalls(derive, s, tx.calls);
    if tx.commit then Commit(t) else Rollback(t)
  }

  ghost function RunTxs(derive: Derive, s: State, txs: seq<Tx>): State
    requires SearchEnds(derive)
  {
    if txs == [] then s else RunTx(derive, RunTxs(derive, s, txs[..|txs| - 1]), txs[|txs| - 1])
  }

  /** On each branch any extensions come first and then at most one request for new addresses, of at least
      one address; and no extension is rolled back. */
  ghost predicate WellBehaved(tx: Tx) {
    && NextComesLast(tx.calls)
    && (tx.commit || forall i :: 0 <= i < |tx.calls| ==> tx.calls[i].1.CallNext?)
  }

  ghost predicate NextComesLast(calls: seq<(Branch, Call)>) {
    && (forall i, j :: 0 <= i < j < |calls| && calls[i].1.CallNext? ==> calls[i].0 != calls[j].0)
    && (forall i :: 0 <= i < |calls| && calls[i].1.CallNext? ==> calls[i].1.n >= 1)
  }

  /** The cache as it will be once the pending closures have run. */
  function Pending(s: State): Option<Cache> {
    ApplyClosures(s.cache, s.onCommit)
  }

  /** Inside a transaction: the row is exact, and committing makes the cache agree with it. */
  ghost predicate Mid(derive: Derive, s: State, b: Branch) {
    && RowExact(derive, b, RowOf(s.working, b))
    && (s.cache.Some? ==> Pending(s).Some? && CachedNext(Pending(s).value, b) == RowOf(s.working, b).next)
    && (s.cache.None? ==> s.onCommit == [])
  }

  /** Rolling back leaves the cache in agreement. */
  ghost predicate Undoable(s: State, b: Branch) {
    s.cache.Some? ==> CachedNext(s.cache.value, b) == RowOf(s.committed, b).next
  }

  /** The cached next index is that of the running transaction. */
  ghost predicate Synced(s: State, b: Branch) {
    s.cache.Some? ==> CachedNext(s.cache.value, b) == RowOf(s.working, b).next
  }

  lemma {:induction false} ClosuresKeepSome(c: Cache, fs: seq<(Branch, nat)>)
    ensures ApplyClosures(Some(c), fs).Some?
  {
    if fs != [] {
      ClosuresKeepSome(c, fs[..|fs| - 1]);
    }
  }

  lemma ClosureAppend(c: Cache, fs: seq<(Branch, nat)>, f: (Branch, nat))
    ensures ApplyClosures(Some(c), fs).Some?
    ensures ApplyClosures(Some(c), fs + [f]) == Some(WithNext(ApplyClosures(Some(c), fs).value, f.0, f.1))
  {
    ClosuresKeepSome(c, fs);
    assert (fs + [f])[..|fs|] == fs;
  }

  /** A closure for one branch does not reach the other. */
  lemma {:induction false} ClosuresFor(c: Cache, fs: seq<(Branch, nat)>, b: Branch, n: nat)
    requires forall i :: 0 <= i < |fs| ==> fs[i].0 != b
    ensures ApplyClosures(Some(c), fs).Some? && ApplyClosures(Some(WithNext(c, b, n)), fs).Some?
    ensures ApplyClosures(Some(WithNext(c, b, n)), fs).value == WithNext(ApplyClosures(Some(c), fs).value, b, n)
    ensures CachedNext(ApplyClosures(Some(c), fs).value, b) == CachedNext(c, b)
  {
    if fs != [] {
      ClosuresFor(c, fs[..|fs| - 1], b, n);
    }
  }

  lemma NextOn(derive: Derive, s: State, b: Branch, n: nat)
    requires SearchEnds(derive) && Mid(derive, s, b) && Synced(s, b) && n >= 1
    requires forall i :: 0 <= i < |s.onCommit| ==> s.onCommit[i].0 != b
    ensures var t := NextAddresses(derive, s, b, n).0; Mid(derive, t, b) && t.cache == Some(Loaded(s))
  {
    var c, row := Loaded(s), RowOf(s.working, b);
    var (t, r) := NextAddresses(derive, s, b, n);
    ClosuresFor(c, s.onCommit, b, 0);
    assert CachedNext(c, b) == row.next && t.cache == Some(c);
    if r.Ok? {
      ChildrenExact(derive, b, row.next, n);
      var (found, k) := Children(derive, b, row.next, n).value;
      PutKeepsExact(derive, b, row, found, k);
      ClosureAppend(c, s.onCommit, (b, k));
      assert RowOf(t.working, b) == PutAll(row, found);
    } else {
      assert t == s.(cache := Some(c));
    }
  }

  lemma ExtendOn(derive: Derive, s: State, b: Branch, last: nat)
    requires SearchEnds(derive) && Mid(derive, s, b) && Synced(s, b)
    requires forall i :: 0 <= i < |s.onCommit| ==> s.onCommit[i].0 != b
    ensures var t := ExtendAddresses(derive, s, b, last).0;
            Mid(derive, t, b) && t.cache.Some? && Synced(t, b) && t.onCommit == s.onCommit
  {
    var c, row := Loaded(s), RowOf(s.working, b);
    ClosuresFor(c, s.onCommit, b, 0);
    if last >= row.next {
      ChildrenThroughExact(derive, b, row.next, last);
      match ChildrenThrough(derive, b, row.next, last) {
        case None =>
        case Some((found, k)) =>
          PutKeepsExact(derive, b, row, found, k);
          ClosuresFor(c, s.onCommit, b, k);
      }
    }
  }

  /** A call on a branch on which no new addresses were requested in this transaction. */
  lemma InvokeOn(derive: Derive, s: State, b: Branch, call: Call)
    requires SearchEnds(derive) && Mid(derive, s, b) && Synced(s, b)
    requires call.CallNext? ==> call.n >= 1
    requires forall i :: 0 <= i < |s.onCommit| ==> s.onCommit[i].0 != b
    requires s.cache.None? ==> s.working == s.committed
    ensures var t := Invoke(derive, s, b, call).0;
            && Mid(derive, t, b) && t.cache.Some? && t.committed == s.committed && t.panics == s.panics
            && (call.CallNext? && Undoable(s, b) ==> Undoable(t, b))
            && (call.CallExtend? ==> Synced(t, b) && t.onCommit == s.onCommit)
  {
    match call {
      case CallNext(n) => NextOn(derive, s, b, n);
      case CallExtend(last) => ExtendOn(derive, s, b, last);
    }
  }

  /** What a call on b leaves of the other branch o. */
  ghost predicate Spared(derive: Derive, s: State, t: State, o: Branch) {
    && Mid(derive, t, o) && t.committed == s.committed
    && (Synced(s, o) ==> Synced(t, o))
    && (Undoable(s, o) ==> Undoable(t, o))
  }

  lemma NextOff(derive: Derive, s: State, b: Branch, n: nat, o: Branch)
    requires SearchEnds(derive) && o != b && Mid(derive, s, o)
    requires s.cache.None? ==> s.working == s.committed
    ensures Spared(derive, s, NextAddresses(derive, s, b, n).0, o)
  {
    var c := Loaded(s);
    var (t, r) := NextAddresses(derive, s, b, n);
    ClosuresKeepSome(c, s.onCommit);
    assert t.cache == Some(c) && RowOf(t.working, o) == RowOf(s.working, o);
    if r.Ok? {
      ClosureAppend(c, s.onCommit, (b, Children(derive, b, CachedNext(c, b), n).value.1));
    }
  }

  lemma ExtendOff(derive: Derive, s: State, b: Branch, last: nat, o: Branch)
    requires SearchEnds(derive) && o != b && Mid(derive, s, o)
    requires forall i :: 0 <= i < |s.onCommit| ==> s.onCommit[i].0 != b
    requires s.cache.None? ==> s.working == s.committed
    ensures Spared(derive, s, ExtendAddresses(derive, s, b, last).0, o)
  {
    var c := Loaded(s);
    var (t, r) := ExtendAddresses(derive, s, b, last);
    ClosuresKeepSome(c, s.onCommit);
    assert RowOf(t.working, o) == RowOf(s.working, o);
    if r.Ok? {
      ClosuresFor(c, s.onCommit, b, FindThrough(derive, b, CachedNext(c, b), last).value.1);
    }
  }

  /** The same call, seen from the other branch. */
  lemma InvokeOff(derive: Derive, s: State, b: Branch, call: Call, o: Branch)
    requires SearchEnds(derive) && o != b && Mid(derive, s, o)
    requires forall i :: 0 <= i < |s.onCommit| ==> s.onCommit[i].0 != b
    requires s.cache.None? ==> s.working == s.committed
    ensures Spared(derive, s, Invoke(derive, s, b, call).0, o)
  {
    match call {
      case CallNext(n) => NextOff(derive, s, b, n, o);
      case CallExtend(last) => ExtendOff(derive, s, b, last, o);
    }
  }

  ghost predicate Requested(calls: seq<(Branch, Call)>, b: Branch) {
    exists i :: 0 <= i < |calls| && calls[i].0 == b && calls[i].1.CallNext?
  }

  /** Inside a transaction, after the given calls. */
  ghost predicate TxInv(derive: Derive, s: State, calls: seq<(Branch, Call)>, b: Branch) {
    && Mid(derive, s, b)
    && (!Requested(calls, b) ==> Synced(s, b) && forall i :: 0 <= i < |s.onCommit| ==> s.onCommit[i].0 != b)
    && ((forall i :: 0 <= i < |calls| ==> calls[i].1.CallNext?) ==> Undoable(s, b))
    && (s.cache.None? ==> s.working == s.committed)
    && !s.panics
  }

  lemma ClosuresAre(derive: Derive, s: State, b: Branch, call: Call, o: Branch)
    requires SearchEnds(derive) && o != b && forall i :: 0 <= i < |s.onCommit| ==> s.onCommit[i].0 != o
    ensures var t := Invoke(derive, s, b, call).0; forall i :: 0 <= i < |t.onCommit| ==> t.onCommit[i].0 != o
  {
  }

  lemma RequestedFront(calls: seq<(Branch, Call)>, b: Branch)
    requires calls != []
    ensures var n := |calls| - 1;
            Requested(calls, b) <==> Requested(calls[..n], b) || (calls[n].0 == b && calls[n].1.CallNext?)
    ensures NextComesLast(calls) ==>
      NextComesLast(calls[..|calls| - 1]) && !Requested(calls[..|calls| - 1], calls[|calls| - 1].0)
  {
    var n := |calls| - 1;
    assert forall i :: 0 <= i < n ==> calls[..n][i] == calls[i];
  }

  lemma {:induction false} CallsKeepTxInv(derive: Derive, s: State, calls: seq<(Branch, Call)>, b: Branch)
    requires SearchEnds(derive) && Inv(derive, s) && NextComesLast(calls)
    ensures RunCalls(derive, s, calls).committed == s.committed
    ensures TxInv(derive, RunCalls(derive, s, calls), calls, b)
  {
    if calls != [] {
      var n := |calls| - 1;
      var front, c, call := calls[..n], calls[n].0, calls[n].1;
      var t := RunCalls(derive, s, front);
      RequestedFront(calls, b);
      CallsKeepTxInv(derive, s, front, b);
      CallsKeepTxInv(derive, s, front, c);
      InvokeOn(derive, t, c, call);
      if b != c {
        InvokeOff(derive, t, c, call, b);
        if !Requested(calls, b) {
          ClosuresAre(derive, t, c, call, b);
        }
      }
      if forall i :: 0 <= i < |calls| ==> calls[i].1.CallNext? {
        assert forall i :: 0 <= i < n ==> front[i] == calls[i];
        assert call.CallNext?;
      }
    }
  }

  /** A well-behaved transaction keeps the invariants: after a commit and after a rollback. */
  lemma TxKeepsInv(derive: Derive, s: State, tx: Tx)
    requires SearchEnds(derive) && Inv(derive, s) && WellBehaved(tx)
    ensures Inv(derive, RunTx(derive, s, tx))
    ensures !tx.commit ==> RunTx(derive, s, tx).committed == s.committed
  {
    CallsKeepTxInv(derive, s, tx.calls, External);
    CallsKeepTxInv(derive, s, tx.calls, Internal);
  }

  /** Over every run of well-behaved transactions: on each branch the stored indices are exactly the
      valid ones below the next index, none is stored twice, and the cached next indices are those of
      the database. */
  lemma {:induction false} RunKeepsInv(derive: Derive, s: State, txs: seq<Tx>)
    requires SearchEnds(derive) && Inv(derive, s)
    requires forall i :: 0 <= i < |txs| ==> WellBehaved(txs[i])
    ensures Inv(derive, RunTxs(derive, s, txs))
  {
    if txs != [] {
      RunKeepsInv(derive, s, txs[..|txs| - 1]);
      TxKeepsInv(derive, RunTxs(derive, s, txs[..|txs| - 1]), txs[|txs| - 1]);
    }
  }

  /** An extension that succeeds leaves every valid index up to `last` stored. */
  lemma ExtendCovers(derive: Derive, s: State, b: Branch, last: nat)
    requires SearchEnds(derive) && Inv(derive, s) && ExtendAddresses(derive, s, b, last).1.Ok?
    ensures var row := RowOf(Commit(ExtendAddresses(derive, s, b, last).0).committed, b);
            row.next > last && forall i: nat :: i <= last && derive(b, i) == ValidChild ==> i in row.stored
  {
    var row := RowOf(s.working, b);
    if last >= row.next {
      ChildrenThroughExact(derive, b, row.next, last);
      var (found, k) := ChildrenThrough(derive, b, row.next, last).value;
      PutKeepsExact(derive, b, row, found, k);
    }
  }

  /** The addresses handed out are the next n valid indices of the branch, none of them stored before. */
  lemma NextIsFresh(derive: Derive, s: State, b: Branch, n: nat)
    requires SearchEnds(derive) && Inv(derive, s) && n >= 1 && NextAddresses(derive, s, b, n).1.Ok?
    ensures var found := NextAddresses(derive, s, b, n).1.value;
            && |found| == n
            && ExactRun(derive, b, RowOf(s.committed, b).next, found[n - 1] + 1, found)
            && forall i :: i in found ==> i !in RowOf(s.committed, b).stored
  {
    ChildrenExact(derive, b, RowOf(s.committed, b).next, n);
  }

  // ---------------------------------------------------------------- when a call succeeds

  /** The number of valid children from i up to k. */
  ghost function ValidCount(derive: Derive, b: Branch, i: nat, k: nat): nat
    decreases k
  {
    if k <= i then 0 else ValidCount(derive, b, i, k - 1) + if derive(b, k - 1) == ValidChild then 1 else 0
  }

  lemma {:induction false} CountGrows(derive: Derive, b: Branch, i: nat, k: nat, m: nat)
    requires i <= k <= m
    ensures ValidCount(derive, b, i, k) <= ValidCount(derive, b, i, m)
    ensures (forall x :: k <= x < m ==> derive(b, x) != ValidChild)
            ==> ValidCount(derive, b, i, k) == ValidCount(derive, b, i, m)
    decreases m
  {
    if k < m {
      CountGrows(derive, b, i, k, m - 1);
    }
  }

  lemma {:induction false} ChildrenCount(derive: Derive, b: Branch, i: nat, n: nat)
    requires SearchEnds(derive) && Children(derive, b, i, n).Some?
    ensures var k := Children(derive, b, i, n).value.1;
            i <= k && ValidCount(derive, b, i, k) == n && forall j :: i <= j < k ==> derive(b, j) != OtherFailure
  {
    if n > 0 {
      ChildrenCount(derive, b, i, n - 1);
      var k := Children(derive, b, i, n - 1).value.1;
      var j := NextChild(derive, b, k);
      CountGrows(derive, b, i, k, j);
      assert derive(b, j) == ValidChild && Children(derive, b, i, n).value.1 == j + 1;
      assert ValidCount(derive, b, i, j + 1) == ValidCount(derive, b, i, j) + 1;
    }
  }

  /** A derivation fails before n valid children are found: some child other than an invalid one cannot be
      derived and has fewer than n valid ones before it. */
  ghost predicate FailsWithin(derive: Derive, b: Branch, i: nat, n: nat) {
    exists j :: i <= j && derive(b, j) == OtherFailure && ValidCount(derive, b, i, j) < n
  }

  lemma {:induction false} ChildrenFail(derive: Derive, b: Branch, i: nat, n: nat)
    requires SearchEnds(derive)
    ensures Children(derive, b, i, n).None? <==> FailsWithin(derive, b, i, n)
  {
    if Children(derive, b, i, n).Some? {
      ChildrenCount(derive, b, i, n);
      var k := Children(derive, b, i, n).value.1;
      forall j | i <= j && derive(b, j) == OtherFailure ensures ValidCount(derive, b, i, j) >= n {
        CountGrows(derive, b, i, k, j);
      }
    } else {
      ChildrenFail(derive, b, i, n - 1);
      if Children(derive, b, i, n - 1).Some? {
        ChildrenCount(derive, b, i, n - 1);
        var k := Children(derive, b, i, n - 1).value.1;
        CountGrows(derive, b, i, k, NextChild(derive, b, k));
        assert derive(b, NextChild(derive, b, k)) == OtherFailure;
      }
    }
  }

  /** A derivation fails before the children through `last` are found: at or below `last`, or above it with
      only invalid children from `last` on before it. */
  ghost predicate FailsThrough(derive: Derive, b: Branch, i: nat, last: nat) {
    exists j :: i <= j && derive(b, j) == OtherFailure && forall x :: last <= x < j ==> derive(b, x) == InvalidChild
  }

  lemma {:induction false} ThroughFails(derive: Derive, b: Branch, i: nat, last: nat)
    requires SearchEnds(derive) && i <= last
    ensures ChildrenThrough(derive, b, i, last).None? <==> FailsThrough(derive, b, i, last)
    decreases last - i
  {
    var j0 := NextChild(derive, b, i);
    if derive(b, j0) == ValidChild {
      if j0 + 1 <= last {
        ThroughFails(derive, b, j0 + 1, last);
        forall j | i <= j && derive(b, j) == OtherFailure ensures j0 + 1 <= j {
        }
      } else {
        assert ChildrenThrough(derive, b, j0 + 1, last).Some?;
      }
    } else {
      assert derive(b, j0) == OtherFailure;
    }
  }

  /** nextAddresses fails exactly when the limit of 2^31 - 1 addresses would be passed, as the uint32 sum shows
      it, or else when a derivation fails before enough valid children are found. */
  lemma NextFailsIff(derive: Derive, s: State, b: Branch, n: nat)
    requires SearchEnds(derive)
    ensures var r, next := NextAddresses(derive, s, b, n).1, CachedNext(Loaded(s), b);
            var tooMany := n > 0x7FFF_FFFF || (next + n) % 0x1_0000_0000 > 0x7FFF_FFFF;
            && (r == Err(TooManyAddresses) <==> tooMany)
            && (r == Err(KeyChain) <==> !tooMany && FailsWithin(derive, b, next, n))
            && (r.Ok? <==> !tooMany && !FailsWithin(derive, b, next, n))
  {
    ChildrenFail(derive, b, CachedNext(Loaded(s), b), n);
  }

  /** extendAddresses does nothing below the next index, and otherwise fails exactly above the limit or when
      a derivation fails on the way. */
  lemma ExtendFailsIff(derive: Derive, s: State, b: Branch, last: nat)
    requires SearchEnds(derive)
    ensures var r, next := ExtendAddresses(derive, s, b, last).1, CachedNext(Loaded(s), b);
            && (last < next ==> r == Ok([]))
            && (r == Err(TooManyAddresses) <==> next <= last && last > 0x7FFF_FFFF)
            && (r == Err(KeyChain) <==> next <= last <= 0x7FFF_FFFF && FailsThrough(derive, b, next, last))
  {
    var next := CachedNext(Loaded(s), b);
    if next <= last {
      ThroughFails(derive, b, next, last);
    }
  }

  // ---------------------------------------------------------------- several calls in one transaction

  /** The indices a call returns; none when it fails. */
  ghost function Given(derive: Derive, s: State, b: Branch, call: Call): seq<nat>
    requires SearchEnds(derive)
  {
    var r := Invoke(derive, s, b, call).1;
    if r.Ok? then r.value else []
  }

  /** A call made, and the indices it returned. */
  datatype Answer = Answer(branch: Branch, call: Call, given: seq<nat>) {
    predicate Gives(b: Branch) {
      branch == b && given != []
    }

    predicate GivesNext(b: Branch) {
      Gives(b) && call.CallNext?
    }
  }

  ghost function Answers(derive: Derive, s: State, calls: seq<(Branch, Call)>): (r: seq<Answer>)
    requires SearchEnds(derive)
    ensures |r| == |calls|
  {
    if calls == [] then []
    else
      var front, c, call := calls[..|calls| - 1], calls[|calls| - 1].0, calls[|calls| - 1].1;
      Answers(derive, s, front) + [Answer(c, call, Given(derive, RunCalls(derive, s, front), c, call))]
  }

  /** All indices of branch b that were returned, in order. */
  function Handed(answers: seq<Answer>, b: Branch): seq<nat> {
    if answers == [] then []
    else
      var n := |answers| - 1;
      Handed(answers[..n], b) + if answers[n].branch == b then answers[n].given else []
  }

  ghost predicate Repeats(s: seq<nat>) {
    exists i, j :: 0 <= i < j < |s| && s[i] == s[j]
  }

  ghost predicate NextGave(answers: seq<Answer>, b: Branch) {
    exists i :: 0 <= i < |answers| && answers[i].GivesNext(b)
  }

  /** Some call returned indices of b after a request for new addresses on b had returned some. */
  ghost predicate GivesAfterNext(answers: seq<Answer>, b: Branch) {
    exists i, j :: 0 <= i < j < |answers| && answers[i].GivesNext(b) && answers[j].Gives(b)
  }

  lemma AnswerLast(answers: seq<Answer>, a: Answer, b: Branch)
    ensures NextGave(answers + [a], b) <==> NextGave(answers, b) || a.GivesNext(b)
    ensures GivesAfterNext(answers + [a], b) <==> GivesAfterNext(answers, b) || (NextGave(answers, b) && a.Gives(b))
    ensures Handed(answers + [a], b) == Handed(answers, b) + if a.branch == b then a.given else []
  {
    var all := answers + [a];
    assert all[..|answers|] == answers && all[|answers|] == a;
    if NextGave(answers, b) {
      var i :| 0 <= i < |answers| && answers[i].GivesNext(b);
      assert all[i].GivesNext(b);
    }
    if GivesAfterNext(answers, b) {
      var i, j :| 0 <= i < j < |answers| && answers[i].GivesNext(b) && answers[j].Gives(b);
      assert all[i].GivesNext(b) && all[j].Gives(b);
    }
  }

  lemma {:induction false} ChildrenFirst(derive: Derive, b: Branch, i: nat, n: nat)
    requires SearchEnds(derive) && n > 0 && Children(derive, b, i, n).Some?
    ensures Children(derive, b, i, n).value.0 != [] && Children(derive, b, i, n).value.0[0] == NextChild(derive, b, i)
  {
    if n > 1 {
      ChildrenFirst(derive, b, i, n - 1);
    } else {
      assert Children(derive, b, i, 0) == Some(([], i));
    }
  }

  /** What one call returns, and what it does to the cached next index of its branch. */
  lemma CallMoves(derive: Derive, s: State, b: Branch, call: Call)
    requires SearchEnds(derive)
    ensures var t, g, start := Invoke(derive, s, b, call).0, Given(derive, s, b, call), CachedNext(Loaded(s), b);
            && Ascending(g)
            && (g == [] || call.CallNext? ==> CachedNext(Loaded(t), b) == start)
            && (g != [] ==> g[0] == NextChild(derive, b, start))
            && (call.CallExtend? ==> forall x :: x in g ==> x < CachedNext(Loaded(t), b))
  {
    var start := CachedNext(Loaded(s), b);
    match call {
      case CallNext(n) =>
        ChildrenExact(derive, b, start, n);
        if n > 0 && Children(derive, b, start, n).Some? {
          ChildrenFirst(derive, b, start, n);
        }
      case CallExtend(last) =>
        if start <= last {
          ChildrenThroughExact(derive, b, start, last);
        }
    }
  }

  /** A call on one branch leaves the next index read for the other. */
  lemma CallSparesOther(derive: Derive, s: State, b: Branch, call: Call, o: Branch)
    requires SearchEnds(derive) && o != b
    ensures CachedNext(Loaded(Invoke(derive, s, b, call).0), o) == CachedNext(Loaded(s), o)
  {
  }

  lemma Joined(h: seq<nat>, g: seq<nat>, c: nat)
    requires Ascending(h) && Ascending(g)
    requires forall x :: x in h ==> x < c
    requires g != [] ==> c <= g[0]
    ensures Ascending(h + g)
  {
    assert forall i :: 0 <= i < |h| ==> h[i] in h;
  }

  lemma RepeatsGrow(h: seq<nat>, g: seq<nat>)
    requires Repeats(h) || (g != [] && g[0] in h)
    ensures Repeats(h + g)
  {
    if Repeats(h) {
      var i, j :| 0 <= i < j < |h| && h[i] == h[j];
      assert (h + g)[i] == (h + g)[j];
    } else {
      var i :| 0 <= i < |h| && h[i] == g[0];
      assert (h + g)[i] == (h + g)[|h|];
    }
  }

  /** What the indices of b returned so far are, and how they lie to the cached next index. */
  ghost predicate Returned(derive: Derive, h: seq<nat>, c: nat, b: Branch, nextGave: bool, afterNext: bool)
    requires SearchEnds(derive)
  {
    && (afterNext ==> nextGave && Repeats(h))
    && (!afterNext ==> Ascending(h))
    && (!nextGave ==> forall x :: x in h ==> x < c)
    && (nextGave && !afterNext ==> NextChild(derive, b, c) in h)
  }

  lemma {:induction false} CallsReturn(derive: Derive, s: State, calls: seq<(Branch, Call)>, b: Branch)
    requires SearchEnds(derive)
    ensures var answers := Answers(derive, s, calls);
            Returned(derive, Handed(answers, b), CachedNext(Loaded(RunCalls(derive, s, calls)), b), b,
                     NextGave(answers, b), GivesAfterNext(answers, b))
  {
    if calls != [] {
      var front, c, call := calls[..|calls| - 1], calls[|calls| - 1].0, calls[|calls| - 1].1;
      var t, answers := RunCalls(derive, s, front), Answers(derive, s, front);
      var g := Given(derive, t, c, call);
      CallsReturn(derive, s, front, b);
      AnswerLast(answers, Answer(c, call, g), b);
      if c == b {
        CallMoves(derive, t, b, call);
        ReturnedGrows(derive, Handed(answers, b), CachedNext(Loaded(t), b), b, NextGave(answers, b),
                      GivesAfterNext(answers, b), g, CachedNext(Loaded(Invoke(derive, t, b, call).0), b),
                      call.CallNext?);
      } else {
        CallSparesOther(derive, t, c, call, b);
        assert Handed(answers, b) + [] == Handed(answers, b);
      }
    }
  }

  /** One more call returning g moves the cached next index from c to d. */
  lemma ReturnedGrows(derive: Derive, h: seq<nat>, c: nat, b: Branch, nextGave: bool, afterNext: bool,
                      g: seq<nat>, d: nat, isNext: bool)
    requires SearchEnds(derive) && Returned(derive, h, c, b, nextGave, afterNext)
    requires Ascending(g) && (g == [] || isNext ==> d == c) && (g != [] ==> g[0] == NextChild(derive, b, c))
    requires !isNext ==> forall x :: x in g ==> x < d
    ensures Returned(derive, h + g, d, b, nextGave || (isNext && g != []), afterNext || (nextGave && g != []))
  {
    if afterNext || (nextGave && g != []) {
      RepeatsGrow(h, g);
    } else if g == [] {
      assert h + g == h;
    } else {
      Joined(h, g, c);
      assert g[0] in h + g;
    }
  }

  /** Within one transaction, from any state: some index of a branch is handed out twice if and only if
      some call returns indices of it after a request for new addresses did. */
  lemma RepeatsIffAfterNext(derive: Derive, s: State, calls: seq<(Branch, Call)>, b: Branch)
    requires SearchEnds(derive)
    ensures var answers := Answers(derive, s, calls); Repeats(Handed(answers, b)) <==> GivesAfterNext(answers, b)
  {
    CallsReturn(derive, s, calls, b);
  }

  /** Two calls in a row that both return indices of a branch overlap if and only if the first is a
      request for new addresses. */
  lemma TwoCallsOverlap(derive: Derive, s: State, b: Branch, c1: Call, c2: Call)
    requires SearchEnds(derive)
    requires Given(derive, s, b, c1) != [] && Given(derive, Invoke(derive, s, b, c1).0, b, c2) != []
    ensures (exists i :: i in Given(derive, s, b, c1) && i in Given(derive, Invoke(derive, s, b, c1).0, b, c2))
       <==> c1.CallNext?
  {
    var t := Invoke(derive, s, b, c1).0;
    var g1, g2 := Given(derive, s, b, c1), Given(derive, t, b, c2);
    CallMoves(derive, s, b, c1);
    CallMoves(derive, t, b, c2);
    if c1.CallNext? {
      assert g1[0] in g1 && g1[0] in g2;
    } else {
      assert forall i :: 0 <= i < |g2| ==> g2[0] <= g2[i];
    }
  }

  /** A second request of the same size returns the very same indices. */
  lemma SecondCallRepeats(derive: Derive, s: State, b: Branch, n: nat)
    requires SearchEnds(derive) && NextAddresses(derive, s, b, n).1.Ok?
    ensures NextAddresses(derive, NextAddresses(derive, s, b, n).0, b, n).1 == NextAddresses(derive, s, b, n).1
  {
  }

  /** An instance: two requests for one address each return index 0. */
  lemma TwoRequestsRepeat(derive: Derive, s: State, b: Branch)
    requires SearchEnds(derive) && derive(b, 0) == ValidChild
    requires s == State(NEW_ACCOUNT, NEW_ACCOUNT, None, [], false)
    ensures Given(derive, s, b, CallNext(1)) == [0]
    ensures Given(derive, Invoke(derive, s, b, CallNext(1)).0, b, CallNext(1)) == [0]
  {
    var none: seq<nat> := [];
    assert NextChild(derive, b, 0) == 0 && Children(derive, b, 0, 0) == Some((none, 0));
    assert Children(derive, b, 0, 1) == Some((none + [0], 1));
  }

  /** Call i asks for no addresses and succeeds. */
  ghost predicate AsksForNone(derive: Derive, s: State, calls: seq<(Branch, Call)>, i: nat)
    requires SearchEnds(derive) && i < |calls|
  {
    calls[i].1 == CallNext(0) && Invoke(derive, RunCalls(derive, s, calls[..i]), calls[i].0, calls[i].1).1.Ok?
  }

  /** A commit panics if and only if some successful request of the transaction was for no addresses. */
  lemma {:induction false} PanicsIffNoneAsked(derive: Derive, s: State, calls: seq<(Branch, Call)>)
    requires SearchEnds(derive) && !s.panics
    ensures RunCalls(derive, s, calls).panics <==> exists i :: 0 <= i < |calls| && AsksForNone(derive, s, calls, i)
  {
    if calls != [] {
      var n := |calls| - 1;
      var front := calls[..n];
      PanicsIffNoneAsked(derive, s, front);
      forall i: nat | i < n
        ensures AsksForNone(derive, s, front, i) <==> AsksForNone(derive, s, calls, i)
      {
        assert front[..i] == calls[..i];
      }
      assert RunCalls(derive, s, calls).panics
        <==> RunCalls(derive, s, front).panics || AsksForNone(derive, s, calls, n);
    }
  }

  /** Rolling back an extension that wrote something leaves the cache ahead of the database. */
  lemma RolledBackExtendDisagrees(derive: Derive, s: State, b: Branch, last: nat)
    requires SearchEnds(derive) && Inv(derive, s) && ExtendAddresses(derive, s, b, last).1.Ok?
    ensures var t := Rollback(ExtendAddresses(derive, s, b, last).0);
            && t.cache.Some?
            && (CachedNext(t.cache.value, b) == RowOf(t.committed, b).next <==> last < RowOf(s.committed, b).next)
  {
    var row := RowOf(s.working, b);
    if last >= row.next {
      ChildrenThroughExact(derive, b, row.next, last);
    }
  }

  // ---------------------------------------------------------------- the manager

  class ScopedManager {
    const derive: Derive
    var committed: Db
    var working: Db
    var cache: Option<Cache>
    var onCommit: seq<(Branch, nat)>
    var panics: bool

    function Current(): State
      reads this
    {
      State(committed, working, cache, onCommit, panics)
    }

    constructor (derive: Derive)
      ensures this.derive == derive && Current() == State(NEW_ACCOUNT, NEW_ACCOUNT, None, [], false)
    {
      this.derive := derive;
      committed, working, cache, onCommit, panics := NEW_ACCOUNT, NEW_ACCOUNT, None, [], false;
    }

    /** The cached next index of a branch, loading the account if it is not cached. */
    method LoadNext(b: Branch) returns (next: nat)
      modifies this`cache
      ensures cache == Some(Loaded(old(Current()))) && next == CachedNext(Loaded(old(Current())), b)
    {
      if cache.None? {
        cache := Some(Cache(working.external.next, working.internal.next));
      }
      next := CachedNext(cache.value, b);
    }

    /** Inner loop of both operations: skip invalid children. */
    method FindChild(b: Branch, i: nat) returns (j: nat)
      requires SearchEnds(derive)
      ensures j == NextChild(derive, b, i)
    {
      j := i;
      while derive(b, j) == InvalidChild
        invariant NextChild(derive, b, j) == NextChild(derive, b, i)
        decreases MAX_ADDRESSES_PER_ACCOUNT + 1 - j
      {
        j := j + 1;
      }
    }

    /** Write one chained address: the address row, and the next index of the account row. */
    method PutChainedAddress(b: Branch, index: nat)
      modifies this`working
      ensures working == WithRow(old(working), b, BranchRow(index + 1, RowOf(old(working), b).stored + [index]))
    {
      working := WithRow(working, b, BranchRow(index + 1, RowOf(working, b).stored + [index]));
    }

    method PutAddresses(b: Branch, found: seq<nat>)
      modifies this`working
      ensures working == WithRow(old(working), b, PutAll(RowOf(old(working), b), found))
    {
      for k := 0 to |found|
        invariant working == WithRow(old(working), b, PutAll(RowOf(old(working), b), found[..k]))
      {
        assert found[..k + 1][..k] == found[..k];
        PutChainedAddress(b, found[k]);
      }
      assert found[..|found|] == found;
    }

    /** Derive n valid children from `start` on. */
    method DeriveNext(b: Branch, start: nat, n: nat) returns (r: Option<(seq<nat>, nat)>)
      requires SearchEnds(derive)
      ensures r == Children(derive, b, start, n)
    {
      var next, found: seq<nat> := start, [];
      for i := 0 to n
        invariant Children(derive, b, start, i) == Some((found, next))
      {
        var j := FindChild(b, next);
        if derive(b, j) == OtherFailure {
          ChildrenStayFailed(derive, b, start, i + 1, n);
          return None;
        }
        assert Children(derive, b, start, i + 1) == Some((found + [j], j + 1));
        found, next := found + [j], j + 1;
      }
      return Some((found, next));
    }

    /** Derive valid children from `start` on until the next index passes `last`. */
    method DeriveThrough(b: Branch, start: nat, last: nat) returns (r: Option<(seq<nat>, nat)>)
      requires SearchEnds(derive)
      ensures r == ChildrenThrough(derive, b, start, last)
    {
      var next, found: seq<nat> := start, [];
      PrefixedNone(ChildrenThrough(derive, b, start, last));
      while next <= last
        invariant ChildrenThrough(derive, b, start, last) == Prefixed(found, ChildrenThrough(derive, b, next, last))
        decreases last + 1 - next
      {
        var j := FindChild(b, next);
        if derive(b, j) == OtherFailure { return None; }
        ThroughNext(derive, b, found, next, last);
        found, next := found + [j], j + 1;
      }
      assert found + [] == found;
      return Some((found, next));
    }

    method Next(b: Branch, n: nat) returns (r: Result<seq<nat>, Error>)
      requires SearchEnds(derive)
      modifies this
      ensures (Current(), r) == NextAddresses(derive, old(Current()), b, n)
    {
      var start := LoadNext(b);
      if n > MAX_ADDRESSES_PER_ACCOUNT || (start + n) % TWO_TO_32 > MAX_ADDRESSES_PER_ACCOUNT {
        return Err(TooManyAddresses);
      }
      var children := DeriveNext(b, start, n);
      if children.None? { return Err(KeyChain); }
      PutAddresses(b, children.value.0);
      onCommit, panics := onCommit + [(b, children.value.1)], panics || n == 0;
      return Ok(children.value.0);
    }

    method Extend(b: Branch, last: nat) returns (r: Result<seq<nat>, Error>)
      requires SearchEnds(derive)
      modifies this
      ensures (Current(), r) == ExtendAddresses(derive, old(Current()), b, last)
    {
      var start := LoadNext(b);
      if last < start { return Ok([]); }
      if last > MAX_ADDRESSES_PER_ACCOUNT { return Err(TooManyAddresses); }
      var children := DeriveThrough(b, start, last);
      if children.None? { return Err(KeyChain); }
      PutAddresses(b, children.value.0);
      cache := Some(WithNext(cache.value, b, children.value.1));
      return Ok(children.value.0);
    }

    /** Commits the database, then runs the closures; a panic among them leaves the cache open. */
    method CommitTx() returns (ok: bool)
      modifies this
      ensures ok == !old(panics)
      ensures ok ==> Current() == Commit(old(Current()))
      ensures !ok ==> committed == old(working)
    {
      committed := working;
      if panics {
        return false;
      }
      for k := 0 to |onCommit|
        invariant committed == working == old(working) && onCommit == old(onCommit) && !panics
        invariant cache == ApplyClosures(old(cache), onCommit[..k])
      {
        assert onCommit[..k + 1][..k] == onCommit[..k];
        ApplySome(old(cache), onCommit[..k]);
        if cache.Some? {
          cache := Some(WithNext(cache.value, onCommit[k].0, onCommit[k].1));
        }
      }
      assert onCommit[..|onCommit|] == onCommit;
      onCommit := [];
      return true;
    }

    method RollbackTx()
      modifies this
      ensures Current() == Rollback(old(Current()))
    {
      working, onCommit, panics := committed, [], false;
    }
  }

  /** So every run of well-behaved transactions on a new account keeps the invariants. */
  lemma RunFromNewAccount(derive: Derive, txs: seq<Tx>)
    requires SearchEnds(derive) && forall i :: 0 <= i < |txs| ==> WellBehaved(txs[i])
    ensures Inv(derive, RunTxs(derive, State(NEW_ACCOUNT, NEW_ACCOUNT, None, [], false), txs))
  {
    RunKeepsInv(derive, State(NEW_ACCOUNT, NEW_ACCOUNT, None, [], false), txs);
  }

  const NEW_ACCOUNT := Db(BranchRow(0, []), BranchRow(0, []))

  lemma {:induction false} ChildrenStayFailed(derive: Derive, b: Branch, i: nat, m: nat, n: nat)
    requires SearchEnds(derive) && m <= n && Children(derive, b, i, m).None?
    ensures Children(derive, b, i, n).None?
  {
    if m < n {
      ChildrenStayFailed(derive, b, i, m, n - 1);
    }
  }

  function Prefixed(found: seq<nat>, rest: Option<(seq<nat>, nat)>): Option<(seq<nat>, nat)> {
    match rest case None => None case Some((more, k)) => Some((found + more, k))
  }

  lemma PrefixedNone(rest: Option<(seq<nat>, nat)>)
    ensures Prefixed([], rest) == rest
  {
    match rest {
      case None =>
      case Some((more, k)) => assert [] + more == more;
    }
  }

  lemma PrefixedStep(found: seq<nat>, j: nat, rest: Option<(seq<nat>, nat)>)
    ensures Prefixed(found + [j], rest)
         == Prefixed(found, match rest case None => None case Some((more, k)) => Some(([j] + more, k)))
  {
    match rest {
      case None =>
      case Some((more, k)) => assert found + [j] + more == found + ([j] + more);
    }
  }

  lemma ThroughNext(derive: Derive, b: Branch, found: seq<nat>, next: nat, last: nat)
    requires SearchEnds(derive) && next <= last && derive(b, NextChild(derive, b, next)) == ValidChild
    ensures var j := NextChild(derive, b, next);
            Prefixed(found, ChildrenThrough(derive, b, next, last))
            == Prefixed(found + [j], ChildrenThrough(derive, b, j + 1, last))
  {
    var j := NextChild(derive, b, next);
    PrefixedStep(found, j, ChildrenThrough(derive, b, j + 1, last));
  }

  lemma ApplySome(c: Option<Cache>, fs: seq<(Branch, nat)>)
    ensures ApplyClosures(c, fs).Some? <==> c.Some?
  {
    if c.Some? {
      ClosuresKeepSome(c.value, fs);
    }
  }
}
