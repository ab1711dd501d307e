/**
 The bounded store of block hashes by height (waddrmgr/db.go, waddrmgr/migrations.go).  Only the
 heights matter here; the hash stored at a height is opaque.
 */
module BlockWindow {
  const MAX_REORG_DEPTH := 10000

  type Hash = nat

  function StaleHeight(height: int): int {
    height - MAX_REORG_DEPTH
  }

  predicate Within(lo: int, hi: int, h: int) {
    lo <= h <= hi
  }

  /** The heights from lo to hi. */
  function Range(lo: int, hi: int): (r: set<int>)
    ensures forall h :: h in r <==> lo <= h <= hi
  {
    set h: int | lo <= h <= hi && Within(lo, hi, h)
  }

  lemma {:induction false} RangeSize(lo: int, hi: int)
    ensures |Range(lo, hi)| == if lo <= hi then hi - lo + 1 else 0
    decreases hi - lo
  {
    if lo > hi {
      assert Range(lo, hi) == {};
    } else {
      RangeSize(lo, hi - 1);
      assert Range(lo, hi) == Range(lo, hi - 1) + {hi};
    }
  }

  // ---------------------------------------------------------------- the simple model

  /** The heights stored after storing `height`, if that is allowed. */
  predicate CanStore(stored: set<int>, birthdaySet: bool, height: int) {
    height > 0 && birthdaySet ==> height - 1 in stored
  }

  function Stored(stored: set<int>, height: int): set<int> {
    if StaleHeight(height) > 0 then stored + {height} - {StaleHeight(height)} else stored + {height}
  }

  /** A hash is refused exactly when the birthday block is set, the height is above genesis and the height
      below is not stored; so before the birthday block is set none is. */
  lemma RefusedMeans(stored: set<int>, birthdaySet: bool, height: int)
    ensures !CanStore(stored, birthdaySet, height) <==> birthdaySet && height >= 1 && height - 1 !in stored
    ensures !birthdaySet ==> CanStore(stored, birthdaySet, height)
  {
  }

  /** What is stored after a hash was: its height besides what was there, without the height 10000 below it
      unless that is genesis or lower. */
  lemma StoredMeans(stored: set<int>, height: int, h: int)
    ensures h in Stored(stored, height)
       <==> (h in stored || h == height) && !(height - 10000 > 0 && h == height - 10000)
  {
  }

  class SyncBucket {
    var hashes: map<int, Hash>
    var syncedTo: int
    var birthdaySet: bool

    constructor (genesis: Hash)
      ensures hashes == map[0 := genesis] && syncedTo == 0 && !birthdaySet
    {
      hashes, syncedTo, birthdaySet := map[0 := genesis], 0, false;
    }

    /** Stores the hash at the height, drops the stale one and moves the tip.  Once the birthday
        block is set, the height below must be stored. */
    method PutSyncedTo(height: int, hash: Hash) returns (ok: bool)
      modifies this
      ensures ok == CanStore(old(hashes).Keys, birthdaySet, height) && birthdaySet == old(birthdaySet)
      ensures !ok ==> hashes == old(hashes) && syncedTo == old(syncedTo)
      ensures ok ==> syncedTo == height && hashes.Keys == Stored(old(hashes).Keys, height)
      ensures ok ==> forall h :: h in hashes ==> hashes[h] == if h == height then hash else old(hashes)[h]
    {
      if height > 0 && birthdaySet && height - 1 !in hashes {
        return false;
      }
      hashes := hashes[height := hash];
      if StaleHeight(height) > 0 {
        hashes := hashes - {StaleHeight(height)};
      }
      syncedTo := height;
      return true;
    }

    /** The migration that drops every height but genesis below the window. */
    method StoreMaxReorgDepth()
      modifies this
      ensures syncedTo == old(syncedTo) && birthdaySet == old(birthdaySet)
      ensures hashes == old(hashes) - Range(1, StaleHeight(syncedTo))
      ensures forall h :: h in hashes <==> h in old(hashes) && !(1 <= h <= syncedTo - 10000)
    {
      var maxStale := StaleHeight(syncedTo);
      if maxStale < 1 {
        assert hashes == hashes - Range(1, maxStale);
        return;
      }
      var height := maxStale;
      while height > 0
        invariant 0 <= height <= maxStale
        invariant syncedTo == old(syncedTo) && birthdaySet == old(birthdaySet)
        invariant hashes == old(hashes) - Range(height + 1, maxStale)
      {
        hashes := hashes - {height};
        height := height - 1;
      }
    }
  }

  // ---------------------------------------------------------------- runs

  datatype Move = Up | Down

  /** The heights stored, the tip, and the greatest and least heights ever reached (the least counting
      genesis). */
  datatype Track = Track(stored: set<int>, tip: int, highest: int, lowest: int)

  function Target(t: Track, m: Move): int {
    match m case Up => t.tip + 1 case Down => t.tip - 1
  }

  /** One call one above or one below the tip, with the birthday block set; a refused call changes
      nothing.  Nothing in the call itself stops a tip below genesis. */
  function Step(t: Track, m: Move): Track {
    var h := Target(t, m);
    if !CanStore(t.stored, true, h) then t
    else Track(Stored(t.stored, h), h, Max(t.highest, h), Min(t.lowest, h))
  }

  const AT_GENESIS := Track({0}, 0, 0, 0)

  function Run(t: Track, ms: seq<Move>): Track {
    if ms == [] then t else Step(Run(t, ms[..|ms| - 1]), ms[|ms| - 1])
  }

  function Max(x: int, y: int): int {
    if x >= y then x else y
  }

  function Min(x: int, y: int): int {
    if x <= y then x else y
  }

  /** Genesis and the last MaxReorgDepth heights up to the highest ever reached. */
  function Window(highest: int): set<int> {
    {0} + Range(Max(1, highest - (MAX_REORG_DEPTH - 1)), highest)
  }

  /** A tip from which a rollback succeeds: while the window still reaches genesis, any; afterwards those
      with two stored heights below them. */
  predicate CanRollBack(highest: int, tip: int) {
    highest <= MAX_REORG_DEPTH || tip > highest - (MAX_REORG_DEPTH - 2)
  }

  ghost predicate Inv(t: Track) {
    && t.lowest <= t.tip <= t.highest && t.lowest <= 0 <= t.highest
    && t.stored == Window(t.highest) + Range(t.lowest, -1)
    && (t.highest <= MAX_REORG_DEPTH || t.tip >= t.highest - (MAX_REORG_DEPTH - 2))
  }

  lemma InvStep(t: Track, m: Move)
    requires Inv(t)
    ensures Inv(Step(t, m))
    ensures Step(t, m) != t <==> m == Up || CanRollBack(t.highest, t.tip)
  {
    var h := Target(t, m);
    if CanStore(t.stored, true, h) {
      var r := Step(t, m);
      assert forall x :: x in r.stored <==> x in Window(r.highest) + Range(r.lowest, -1);
    }
  }

  /** In every run the heights stored are exactly genesis and the last MaxReorgDepth heights up to the
      highest reached, and whatever was reached below genesis; storing the next height always succeeds,
      and a rollback succeeds exactly while the window allows it. */
  lemma {:induction false} RunKeepsWindow(start: Track, ms: seq<Move>)
    requires Inv(start)
    ensures var t := Run(start, ms);
            && Inv(t)
            && (forall h :: h in t.stored
                  <==> h == 0 || (1 <= h <= t.highest && h >= t.highest - 9999) || t.lowest <= h < 0)
            && t.stored == Window(t.highest) + Range(t.lowest, -1)
            && (t.lowest == 0 ==> t.stored == Window(t.highest))
            && Step(t, Up).tip == t.tip + 1
            && Step(t, Down).tip == if t.highest <= 10000 || t.tip > t.highest - 9998 then t.tip - 1 else t.tip
  {
    if ms != [] {
      RunKeepsWindow(start, ms[..|ms| - 1]);
      InvStep(Run(start, ms[..|ms| - 1]), ms[|ms| - 1]);
    }
    InvStep(Run(start, ms), Up);
    InvStep(Run(start, ms), Down);
    WindowMeans(Run(start, ms));
  }

  lemma WindowMeans(t: Track)
    requires t.stored == Window(t.highest) + Range(t.lowest, -1)
    ensures forall h :: h in t.stored
              <==> h == 0 || (1 <= h <= t.highest && h >= t.highest - 9999) || t.lowest <= h < 0
    ensures t.lowest == 0 ==> t.stored == Window(t.highest)
  {
  }

  /** Runs may start at genesis, or from a full store of heights that the migration has pruned. */
  lemma RunsMayStart(tip: nat)
    ensures Inv(AT_GENESIS)
    ensures Inv(Track(Range(0, tip) - Range(1, StaleHeight(tip)), tip, tip, 0))
  {
    MigrationYieldsWindow(tip);
    assert AT_GENESIS.stored == Window(0);
    assert forall h :: h !in Range(0, -1);
  }

  /** The migration turns a store of all heights up to the tip into the window. */
  lemma MigrationYieldsWindow(tip: nat)
    ensures Range(0, tip) - Range(1, StaleHeight(tip)) == Window(tip)
  {
    assert forall h :: h in Range(0, tip) - Range(1, StaleHeight(tip)) <==> h in Window(tip);
  }

  /** At most MaxReorgDepth + 1 hashes are ever stored, besides those below genesis. */
  lemma StoreIsBounded(start: Track, ms: seq<Move>)
    requires Inv(start)
    ensures var t := Run(start, ms); |t.stored| <= 10001 - t.lowest
  {
    RunKeepsWindow(start, ms);
    var t := Run(start, ms);
    var m, lo := t.highest, Max(1, t.highest - (MAX_REORG_DEPTH - 1));
    RangeSize(lo, m);
    RangeSize(t.lowest, -1);
    assert |Window(m)| <= 1 + |Range(lo, m)|;
  }
}
