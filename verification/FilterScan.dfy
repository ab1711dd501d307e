/**
 The two block scans: every block (chain/bitcoind_client.go) and only the blocks whose compact
 filter matches (chain/btcd.go, chain/neutrino.go).  Both return the first block with a relevant
 transaction; the theorem says they return the same response.
 */
module FilterScan {
  import opened Wrappers
  import opened Wire
  import opened BlockFilter

  datatype ScanError = BlockUnavailable | FilterUnavailable | FilterMalformed | MatchFailed | NoScriptForAddress

  /** A block's compact filter.  `matchAny` may answer true for a list with no script of the block. */
  datatype CFilter = CFilter(dataLen: nat, parses: bool, n: nat, matchAny: seq<Script> -> Option<bool>)

  datatype Backend = Backend(blocks: map<Hash, Block>, filters: map<Hash, CFilter>)

  datatype Response = Response(
    batchIndex: nat,
    block: Hash,
    external: set<ScopedIndex>,
    internal: set<ScopedIndex>,
    outPoints: map<OutPoint, Address>,
    txns: seq<Tx>)

  type Reverse = map<Address, ScopedIndex>
  type PayTo = Address -> Option<Script>

  ghost function ResponseFor(req: Request, extract: Extract, ex: Reverse, inr: Reverse, i: nat, b: Block): Response
    requires i < |req.blocks|
  {
    Response(i, req.blocks[i], BlockMarks(ex, extract, b, |b|), BlockMarks(inr, extract, b, |b|),
             BlockOutPoints(req, extract, b, |b|), RelevantTxns(req, extract, {}, b, |b|))
  }

  ghost predicate IsMatch(req: Request, extract: Extract, b: Block) {
    RelevantTxns(req, extract, {}, b, |b|) != []
  }

  ghost function FullFrom(req: Request, extract: Extract, ex: Reverse, inr: Reverse, be: Backend, i: nat)
    : ScanResult
    requires i <= |req.blocks|
    decreases |req.blocks| - i
  {
    if i == |req.blocks| then Ok(None)
    else if req.blocks[i] !in be.blocks then Err(BlockUnavailable)
    else if IsMatch(req, extract, be.blocks[req.blocks[i]]) then
      Ok(Some(ResponseFor(req, extract, ex, inr, i, be.blocks[req.blocks[i]])))
    else FullFrom(req, extract, ex, inr, be, i + 1)
  }

  ghost function CompactFrom(req: Request, extract: Extract, ex: Reverse, inr: Reverse, be: Backend, wl: seq<Script>,
                             i: nat)
    : ScanResult
    requires i <= |req.blocks|
    decreases |req.blocks| - i
  {
    if i == |req.blocks| then Ok(None)
    else if req.blocks[i] !in be.filters then Err(FilterUnavailable)
    else
      var f := be.filters[req.blocks[i]];
      if f.dataLen < 4 then CompactFrom(req, extract, ex, inr, be, wl, i + 1)
      else if !f.parses then Err(FilterMalformed)
      else if f.n == 0 then CompactFrom(req, extract, ex, inr, be, wl, i + 1)
      else if f.matchAny(wl).None? then Err(MatchFailed)
      else if !f.matchAny(wl).value then CompactFrom(req, extract, ex, inr, be, wl, i + 1)
      else if req.blocks[i] !in be.blocks then Err(BlockUnavailable)
      else if IsMatch(req, extract, be.blocks[req.blocks[i]]) then
        Ok(Some(ResponseFor(req, extract, ex, inr, i, be.blocks[req.blocks[i]])))
      else CompactFrom(req, extract, ex, inr, be, wl, i + 1)
  }

  // ---------------------------------------------------------------- the scans

  type ScanResult = Result<Option<Response>, ScanError>

  /** r answers a full scan, for some reverse indexes of the request (which are unique when its
      addresses are distinct). */
  ghost predicate FullAnswer(req: Request, extract: Extract, be: Backend, r: ScanResult) {
    exists ex, inr :: ReverseOf(ex, req.external) && ReverseOf(inr, req.internal)
                      && r == FullFrom(req, extract, ex, inr, be, 0)
  }

  /** Some watched address has no script. */
  ghost predicate Unscriptable(req: Request, payTo: PayTo) {
    exists a :: (Watches(req, a) || a in req.watched.Values) && payTo(a).None?
  }

  /** r answers a compact-filter scan, for some reverse indexes and some order of the watch list. */
  ghost predicate CompactAnswer(req: Request, extract: Extract, payTo: PayTo, be: Backend, r: ScanResult) {
    if Unscriptable(req, payTo) then r == Err(NoScriptForAddress)
    else exists ex, inr, wl :: ReverseOf(ex, req.external) && ReverseOf(inr, req.internal)
                               && IsWatchList(req, payTo, wl)
                               && r == CompactFrom(req, extract, ex, inr, be, wl, 0)
  }

  method FullScan(req: Request, extract: Extract, be: Backend) returns (r: ScanResult)
    ensures FullAnswer(req, extract, be, r)
  {
    var bf := new BlockFilterer(req, extract);
    ghost var ex, inr := bf.c.exRev, bf.c.inRev;
    for i := 0 to |req.blocks|
      invariant bf.c == Setup(req, extract, ex, inr) && fresh(bf) && bf.Found() == NO_FINDINGS
      invariant FullFrom(req, extract, ex, inr, be, 0) == FullFrom(req, extract, ex, inr, be, i)
    {
      if req.blocks[i] !in be.blocks {
        r := Err(BlockUnavailable);
        return;
      }
      var hit, resp := FilterOne(bf, i, be.blocks[req.blocks[i]]);
      if hit {
        r := Ok(Some(resp));
        return;
      }
    }
    r := Ok(None);
  }

  /** Run a fresh filterer over one block; if nothing matches it is still fresh. */
  method FilterOne(bf: BlockFilterer, i: nat, b: Block) returns (hit: bool, resp: Response)
    requires ValidSetup(bf.c) && bf.Found() == NO_FINDINGS && i < |bf.c.req.blocks|
    modifies bf
    ensures hit == IsMatch(bf.c.req, bf.c.extract, b)
    ensures hit ==> resp == ResponseFor(bf.c.req, bf.c.extract, bf.c.exRev, bf.c.inRev, i, b)
    ensures !hit ==> bf.Found() == NO_FINDINGS
  {
    assert bf.foundOutPoints.Keys == {};
    hit := bf.FilterBlock(b);
    assert NO_FINDINGS.ops + BlockOutPoints(bf.c.req, bf.c.extract, b, |b|)
           == BlockOutPoints(bf.c.req, bf.c.extract, b, |b|);
    resp := Response(i, bf.c.req.blocks[i], bf.foundExternal, bf.foundInternal, bf.foundOutPoints, bf.relevantTxns);
  }

  /** Scripts for the given addresses, appended in any order; an error if one has no script. */
  method AppendScripts(addrs: set<Address>, payTo: PayTo, wl0: seq<Script>) returns (wl: Option<seq<Script>>)
    ensures wl.None? <==> exists a :: a in addrs && payTo(a).None?
    ensures wl.Some? ==> forall s :: s in wl.value <==> s in wl0 || exists a :: a in addrs && payTo(a) == Some(s)
  {
    var out, todo := wl0, addrs;
    while todo != {}
      invariant todo <= addrs
      invariant forall a :: a in addrs && a !in todo ==> payTo(a).Some?
      invariant forall s :: s in out <==> s in wl0 || exists a :: a in addrs && a !in todo && payTo(a) == Some(s)
    {
      var a :| a in todo;
      match payTo(a) {
        case None => return None;
        case Some(s) => out := out + [s];
      }
      todo := todo - {a};
    }
    return Some(out);
  }

  ghost predicate IsWatchList(req: Request, payTo: PayTo, wl: seq<Script>) {
    forall s :: s in wl <==> exists a :: (Watches(req, a) || a in req.watched.Values) && payTo(a) == Some(s)
  }

  method BuildWatchList(req: Request, payTo: PayTo) returns (wl: Option<seq<Script>>)
    ensures wl.Some? ==> IsWatchList(req, payTo, wl.value)
    ensures wl.None? <==> Unscriptable(req, payTo)
  {
    wl := AppendScripts(req.external.Values, payTo, []);
    if wl.None? { return; }
    wl := AppendScripts(req.internal.Values, payTo, wl.value);
    if wl.None? { return; }
    wl := AppendScripts(req.watched.Values, payTo, wl.value);
  }

  method CompactScan(req: Request, extract: Extract, payTo: PayTo, be: Backend) returns (r: ScanResult)
    ensures CompactAnswer(req, extract, payTo, be, r)
  {
    var bf := new BlockFilterer(req, extract);
    ghost var ex, inr := bf.c.exRev, bf.c.inRev;
    var list := BuildWatchList(req, payTo);
    if list.None? {
      return Err(NoScriptForAddress);
    }
    var wl := list.value;
    for i := 0 to |req.blocks|
      invariant bf.c == Setup(req, extract, ex, inr) && fresh(bf) && bf.Found() == NO_FINDINGS
      invariant CompactFrom(req, extract, ex, inr, be, wl, 0) == CompactFrom(req, extract, ex, inr, be, wl, i)
    {
      if req.blocks[i] !in be.filters { r := Err(FilterUnavailable); return; }
      var f := be.filters[req.blocks[i]];
      if f.dataLen < 4 { continue; }
      if !f.parses { r := Err(FilterMalformed); return; }
      if f.n == 0 { continue; }
      var matched := f.matchAny(wl);
      if matched.None? { r := Err(MatchFailed); return; }
      if !matched.value { continue; }
      if req.blocks[i] !in be.blocks { r := Err(BlockUnavailable); return; }
      var hit, resp := FilterOne(bf, i, be.blocks[req.blocks[i]]);
      if hit { r := Ok(Some(resp)); return; }
    }
    r := Ok(None);
  }

  // ---------------------------------------------------------------- agreement

  /** The backend has every requested block and a readable filter for it. */
  ghost predicate Serves(req: Request, be: Backend, wl: seq<Script>) {
    forall k :: 0 <= k < |req.blocks| ==> ServesBlock(be, wl, req.blocks[k])
  }

  ghost predicate ServesBlock(be: Backend, wl: seq<Script>, h: Hash) {
    && h in be.blocks && h in be.filters
    && (be.filters[h].dataLen >= 4 ==> be.filters[h].parses)
    && be.filters[h].matchAny(wl).Some?
  }

  /** The scripts of the "Contents" part of the Block Filters section of BIP 158: those of the
      block's parseable outputs and those of the outputs its inputs spend. */
  ghost predicate InContents(extract: Extract, prevScript: OutPoint -> Script, b: Block, s: Script) {
    exists j :: 0 <= j < |b| &&
      ((s in b[j].outs && AddrsOf(extract, s) != []) || exists op :: op in b[j].ins && prevScript(op) == s)
  }

  /** A filter never misses a script of its block. */
  ghost predicate NoFalseNegatives(extract: Extract, prevScript: OutPoint -> Script, b: Block, f: CFilter,
                                   wl: seq<Script>) {
    (exists s :: s in wl && InContents(extract, prevScript, b, s)) ==>
      f.dataLen >= 4 && f.n > 0 && f.matchAny(wl) == Some(true)
  }

  /** Watched addresses are paid only by their canonical scripts. */
  ghost predicate CanonicalOutputs(req: Request, extract: Extract, payTo: PayTo, b: Block) {
    forall j, s, a ::
      0 <= j < |b| && s in b[j].outs && a in AddrsOf(extract, s) && Watches(req, a) ==> payTo(a) == Some(s)
  }

  /** Each watched outpoint is mapped to the address of the output it names. */
  ghost predicate WatchedNamed(req: Request, payTo: PayTo, prevScript: OutPoint -> Script) {
    forall op :: op in req.watched ==> payTo(req.watched[op]) == Some(prevScript(op))
  }

  ghost predicate Faithful(req: Request, extract: Extract, payTo: PayTo, prevScript: OutPoint -> Script, be: Backend,
                           wl: seq<Script>) {
    && Serves(req, be, wl)
    && IsWatchList(req, payTo, wl)
    && WatchedNamed(req, payTo, prevScript)
    && forall k :: 0 <= k < |req.blocks| ==>
         && CanonicalOutputs(req, extract, payTo, be.blocks[req.blocks[k]])
         && NoFalseNegatives(extract, prevScript, be.blocks[req.blocks[k]], be.filters[req.blocks[k]], wl)
  }

  /** A block with a relevant transaction holds a watched script. */
  lemma MatchHasWatchedScript(req: Request, extract: Extract, payTo: PayTo, prevScript: OutPoint -> Script, b: Block,
                              wl: seq<Script>)
    requires IsMatch(req, extract, b)
    requires IsWatchList(req, payTo, wl) && WatchedNamed(req, payTo, prevScript)
             && CanonicalOutputs(req, extract, payTo, b)
    ensures exists s :: s in wl && InContents(extract, prevScript, b, s)
  {
    SomeRelevant(req, extract, {}, b, |b|);
    var k :| 0 <= k < |b| && Relevant(req, extract, {}, b, k);
    if SpendsAny(b[k], req.watched.Keys) {
      var op :| op in b[k].ins && op in req.watched.Keys;
      var s := prevScript(op);
      assert req.watched[op] in req.watched.Values;
      assert s in wl && InContents(extract, prevScript, b, s);
    } else if PaysWatched(req, extract, b[k]) {
      var i :| 0 <= i < |b[k].outs| && Pays(req, extract, b[k].outs[i]);
      PayingOutputIsWatched(req, extract, payTo, prevScript, b, k, i, wl);
    } else {
      var op :| op in b[k].ins && CreatedIn(req, extract, b[..k], op);
      var j :| 0 <= j < k && CreatedBy(req, extract, b[..k][j], op);
      PayingOutputIsWatched(req, extract, payTo, prevScript, b, j, op.index, wl);
    }
  }

  lemma PayingOutputIsWatched(req: Request, extract: Extract, payTo: PayTo, prevScript: OutPoint -> Script,
                              b: Block, j: nat, i: nat, wl: seq<Script>)
    requires j < |b| && i < |b[j].outs| && Pays(req, extract, b[j].outs[i])
    requires IsWatchList(req, payTo, wl) && CanonicalOutputs(req, extract, payTo, b)
    ensures b[j].outs[i] in wl && InContents(extract, prevScript, b, b[j].outs[i])
  {
    var s := b[j].outs[i];
    var a :| a in extract(s).value && Watches(req, a);
    assert a in AddrsOf(extract, s) && payTo(a) == Some(s);
  }

  ghost predicate MatchAt(req: Request, extract: Extract, be: Backend, k: nat)
    requires k < |req.blocks| && req.blocks[k] in be.blocks
  {
    IsMatch(req, extract, be.blocks[req.blocks[k]])
  }

  /** The filter of block h says that it holds a watched script. */
  ghost predicate Seen(be: Backend, wl: seq<Script>, h: Hash)
    requires h in be.filters
  {
    be.filters[h].dataLen >= 4 && be.filters[h].n > 0 && be.filters[h].matchAny(wl) == Some(true)
  }

  /** Block k has a relevant transaction and no block from i up to it has one. */
  ghost predicate FirstMatch(req: Request, extract: Extract, be: Backend, i: nat, k: nat)
    requires k < |req.blocks| && forall j :: 0 <= j < |req.blocks| ==> req.blocks[j] in be.blocks
  {
    MatchAt(req, extract, be, k) && forall j :: i <= j < k ==> !MatchAt(req, extract, be, j)
  }

  /** What a compact-filter scan from block i finds lies at or after block i. */
  lemma {:induction false} CompactLooksAhead(req: Request, extract: Extract, ex: Reverse, inr: Reverse, be: Backend,
                                             wl: seq<Script>, i: nat)
    requires i <= |req.blocks|
    ensures var r := CompactFrom(req, extract, ex, inr, be, wl, i);
            r.Ok? && r.value.Some? ==> r.value.value.batchIndex >= i
    decreases |req.blocks| - i
  {
    if i < |req.blocks| {
      CompactLooksAhead(req, extract, ex, inr, be, wl, i + 1);
    }
  }

  lemma FirstMatchMoves(req: Request, extract: Extract, be: Backend, i: nat, k: nat)
    requires k < |req.blocks| && forall j :: 0 <= j < |req.blocks| ==> req.blocks[j] in be.blocks
    requires i < k && !MatchAt(req, extract, be, i)
    ensures FirstMatch(req, extract, be, i, k) <==> FirstMatch(req, extract, be, i + 1, k)
  {
  }

  /** The filter of the first block from i on with a relevant transaction, if there is one, matches. */
  ghost predicate FirstIsSeen(req: Request, extract: Extract, be: Backend, wl: seq<Script>, i: nat)
    requires Serves(req, be, wl)
  {
    forall k :: i <= k < |req.blocks| && FirstMatch(req, extract, be, i, k) ==> Seen(be, wl, req.blocks[k])
  }

  lemma AtMatch(req: Request, extract: Extract, ex: Reverse, inr: Reverse, be: Backend, wl: seq<Script>, i: nat)
    requires i < |req.blocks| && Serves(req, be, wl) && MatchAt(req, extract, be, i)
    ensures CompactFrom(req, extract, ex, inr, be, wl, i) == FullFrom(req, extract, ex, inr, be, i)
            <==> Seen(be, wl, req.blocks[i])
    ensures FirstIsSeen(req, extract, be, wl, i) <==> Seen(be, wl, req.blocks[i])
  {
    assert ServesBlock(be, wl, req.blocks[i]);
    CompactLooksAhead(req, extract, ex, inr, be, wl, i + 1);
    assert FirstMatch(req, extract, be, i, i);
  }

  lemma AtMiss(req: Request, extract: Extract, ex: Reverse, inr: Reverse, be: Backend, wl: seq<Script>, i: nat)
    requires i < |req.blocks| && Serves(req, be, wl) && !MatchAt(req, extract, be, i)
    ensures CompactFrom(req, extract, ex, inr, be, wl, i) == CompactFrom(req, extract, ex, inr, be, wl, i + 1)
    ensures FullFrom(req, extract, ex, inr, be, i) == FullFrom(req, extract, ex, inr, be, i + 1)
    ensures FirstIsSeen(req, extract, be, wl, i) <==> FirstIsSeen(req, extract, be, wl, i + 1)
  {
    assert ServesBlock(be, wl, req.blocks[i]);
    forall k | i < k < |req.blocks|
      ensures FirstMatch(req, extract, be, i, k) <==> FirstMatch(req, extract, be, i + 1, k)
    {
      FirstMatchMoves(req, extract, be, i, k);
    }
  }

  lemma {:induction false} ScansAgreeFrom(req: Request, extract: Extract, ex: Reverse, inr: Reverse, be: Backend,
                                          wl: seq<Script>, i: nat)
    requires i <= |req.blocks| && Serves(req, be, wl)
    ensures CompactFrom(req, extract, ex, inr, be, wl, i) == FullFrom(req, extract, ex, inr, be, i)
            <==> FirstIsSeen(req, extract, be, wl, i)
    decreases |req.blocks| - i
  {
    if i < |req.blocks| {
      if MatchAt(req, extract, be, i) {
        AtMatch(req, extract, ex, inr, be, wl, i);
      } else {
        AtMiss(req, extract, ex, inr, be, wl, i);
        ScansAgreeFrom(req, extract, ex, inr, be, wl, i + 1);
      }
    }
  }

  /** The block has a relevant transaction. */
  ghost predicate HasRelevant(req: Request, extract: Extract, b: Block) {
    exists k :: 0 <= k < |b| && Relevant(req, extract, {}, b, k)
  }

  /** When the backend serves every block and filter, the two scans agree if and only if the filter of
      the first block with a relevant transaction, if there is one, has at least 4 bytes, is not empty and
      matches the watch list. */
  lemma ScansAgreeIff(req: Request, extract: Extract, ex: Reverse, inr: Reverse, be: Backend, wl: seq<Script>)
    requires Serves(req, be, wl)
    ensures CompactFrom(req, extract, ex, inr, be, wl, 0) == FullFrom(req, extract, ex, inr, be, 0)
            <==> forall k :: (0 <= k < |req.blocks| && HasRelevant(req, extract, be.blocks[req.blocks[k]])
                              && forall j :: 0 <= j < k ==> !HasRelevant(req, extract, be.blocks[req.blocks[j]]))
                             ==> var f := be.filters[req.blocks[k]];
                                 f.dataLen >= 4 && f.n > 0 && f.matchAny(wl) == Some(true)
  {
    forall k | 0 <= k < |req.blocks|
      ensures MatchAt(req, extract, be, k) <==> HasRelevant(req, extract, be.blocks[req.blocks[k]])
    {
      SomeRelevant(req, extract, {}, be.blocks[req.blocks[k]], |be.blocks[req.blocks[k]]|);
    }
    ScansAgreeFrom(req, extract, ex, inr, be, wl, 0);
  }

  /** The compact-filter scan returns what the full scan returns, for every request. */
  lemma CompactAgreesWithFull(req: Request, extract: Extract, payTo: PayTo, prevScript: OutPoint -> Script,
                              ex: Reverse, inr: Reverse, be: Backend, wl: seq<Script>)
    requires Faithful(req, extract, payTo, prevScript, be, wl)
    ensures CompactFrom(req, extract, ex, inr, be, wl, 0) == FullFrom(req, extract, ex, inr, be, 0)
  {
    forall k | 0 <= k < |req.blocks| && FirstMatch(req, extract, be, 0, k) ensures Seen(be, wl, req.blocks[k]) {
      MatchHasWatchedScript(req, extract, payTo, prevScript, be.blocks[req.blocks[k]], wl);
    }
    ScansAgreeFrom(req, extract, ex, inr, be, wl, 0);
  }

  // ---------------------------------------------------------------- what a response says

  /** The response names block i of the request and lists exactly what that block has for the wallet: the
      requested external and internal indices whose address it pays, its outputs that pay a requested
      address, and its relevant transactions in block order. */
  ghost predicate Describes(req: Request, extract: Extract, b: Block, x: Response) {
    && x.batchIndex < |req.blocks| && x.block == req.blocks[x.batchIndex]
    && (forall si :: si in x.external <==> si in req.external && PaidIn(extract, b, req.external[si]))
    && (forall si :: si in x.internal <==> si in req.internal && PaidIn(extract, b, req.internal[si]))
    && (forall op :: op in x.outPoints
          <==> exists j :: 0 <= j < |b| && op.hash == b[j].hash && PaysAt(req, extract, b[j], op.index))
    && (forall op :: op in x.outPoints ==>
          exists j :: 0 <= j < |b| && op.hash == b[j].hash && PaysAt(req, extract, b[j], op.index)
                      && x.outPoints[op] == extract(b[j].outs[op.index]).value[0])
    && (exists at :: ListsRelevant(req, extract, {}, b, |b|, x.txns, at))
  }

  lemma ResponseDescribes(req: Request, extract: Extract, ex: Reverse, inr: Reverse, i: nat, b: Block)
    requires i < |req.blocks| && ReverseOf(ex, req.external) && ReverseOf(inr, req.internal)
    requires DistinctAddresses(req.external) && DistinctAddresses(req.internal)
    ensures Describes(req, extract, b, ResponseFor(req, extract, ex, inr, i, b))
  {
    var x := ResponseFor(req, extract, ex, inr, i, b);
    FoundIndicesExact(ex, req.external, extract, b);
    FoundIndicesExact(inr, req.internal, extract, b);
    forall op ensures op in x.outPoints
      <==> exists j :: 0 <= j < |b| && op.hash == b[j].hash && PaysAt(req, extract, b[j], op.index)
      ensures op in x.outPoints ==>
        exists j :: 0 <= j < |b| && op.hash == b[j].hash && PaysAt(req, extract, b[j], op.index)
                    && x.outPoints[op] == extract(b[j].outs[op.index]).value[0]
    {
      OutPointsMean(req, extract, b, op);
    }
    var at := RelevantTxnsByPosition(req, extract, {}, b, |b|);
  }

  lemma {:induction false} FullFound(req: Request, extract: Extract, ex: Reverse, inr: Reverse, be: Backend, i: nat)
    requires i <= |req.blocks|
    ensures var r := FullFrom(req, extract, ex, inr, be, i);
            r.Ok? && r.value.Some? ==>
              var k := r.value.value.batchIndex;
              && i <= k < |req.blocks| && req.blocks[k] in be.blocks
              && r.value.value == ResponseFor(req, extract, ex, inr, k, be.blocks[req.blocks[k]])
    decreases |req.blocks| - i
  {
    if i < |req.blocks| {
      FullFound(req, extract, ex, inr, be, i + 1);
    }
  }

  lemma {:induction false} CompactFound(req: Request, extract: Extract, ex: Reverse, inr: Reverse, be: Backend,
                                        wl: seq<Script>, i: nat)
    requires i <= |req.blocks|
    ensures var r := CompactFrom(req, extract, ex, inr, be, wl, i);
            r.Ok? && r.value.Some? ==>
              var k := r.value.value.batchIndex;
              && i <= k < |req.blocks| && req.blocks[k] in be.blocks
              && r.value.value == ResponseFor(req, extract, ex, inr, k, be.blocks[req.blocks[k]])
    decreases |req.blocks| - i
  {
    if i < |req.blocks| {
      CompactFound(req, extract, ex, inr, be, wl, i + 1);
    }
  }

  /** A response of either scan describes the block it names. */
  lemma AnswerDescribes(req: Request, extract: Extract, payTo: PayTo, be: Backend, x: Response)
    requires DistinctAddresses(req.external) && DistinctAddresses(req.internal)
    requires FullAnswer(req, extract, be, Ok(Some(x))) || CompactAnswer(req, extract, payTo, be, Ok(Some(x)))
    ensures x.block in be.blocks && Describes(req, extract, be.blocks[x.block], x)
  {
    var found: ScanResult := Ok(Some(x));
    var ex, inr;
    if FullAnswer(req, extract, be, found) {
      ex, inr :| ReverseOf(ex, req.external) && ReverseOf(inr, req.internal)
                 && found == FullFrom(req, extract, ex, inr, be, 0);
      FullFound(req, extract, ex, inr, be, 0);
    } else {
      var wl;
      ex, inr, wl :| ReverseOf(ex, req.external) && ReverseOf(inr, req.internal) && IsWatchList(req, payTo, wl)
                     && found == CompactFrom(req, extract, ex, inr, be, wl, 0);
      CompactFound(req, extract, ex, inr, be, wl, 0);
    }
    ResponseDescribes(req, extract, ex, inr, x.batchIndex, be.blocks[req.blocks[x.batchIndex]]);
  }

  lemma ReverseIsUnique(r1: Reverse, r2: Reverse, fwd: map<ScopedIndex, Address>)
    requires ReverseOf(r1, fwd) && ReverseOf(r2, fwd) && DistinctAddresses(fwd)
    ensures r1 == r2
  {
    assert forall a :: a in r1 ==> fwd[r1[a]] == fwd[r2[a]];
  }

  /** With distinct addresses, a compact-filter scan and a full scan of the same request answer alike,
      whatever the order of their reverse indexes and of the watch list. */
  lemma ScansAnswerAlike(req: Request, extract: Extract, payTo: PayTo, prevScript: OutPoint -> Script, be: Backend,
                         compact: ScanResult, full: ScanResult)
    requires !Unscriptable(req, payTo) && DistinctAddresses(req.external) && DistinctAddresses(req.internal)
    requires forall wl :: IsWatchList(req, payTo, wl) ==> Faithful(req, extract, payTo, prevScript, be, wl)
    requires CompactAnswer(req, extract, payTo, be, compact) && FullAnswer(req, extract, be, full)
    ensures compact == full
  {
    var ex, inr, wl :| ReverseOf(ex, req.external) && ReverseOf(inr, req.internal) && IsWatchList(req, payTo, wl)
                       && compact == CompactFrom(req, extract, ex, inr, be, wl, 0);
    var ex', inr' :| ReverseOf(ex', req.external) && ReverseOf(inr', req.internal)
                     && full == FullFrom(req, extract, ex', inr', be, 0);
    ReverseIsUnique(ex, ex', req.external);
    ReverseIsUnique(inr, inr', req.internal);
    CompactAgreesWithFull(req, extract, payTo, prevScript, ex, inr, be, wl);
  }

  /** The full scan returns the first matching block, or nothing when there is none. */
  lemma {:induction false} FullScanFindsFirst(req: Request, extract: Extract, ex: Reverse, inr: Reverse, be: Backend,
                                              i: nat)
    requires i <= |req.blocks| && forall k :: 0 <= k < |req.blocks| ==> req.blocks[k] in be.blocks
    ensures match FullFrom(req, extract, ex, inr, be, i)
      case Ok(None) => forall k :: i <= k < |req.blocks| ==> !MatchAt(req, extract, be, k)
      case Ok(Some(r)) =>
        && i <= r.batchIndex < |req.blocks|
        && (forall k :: i <= k < r.batchIndex ==> !MatchAt(req, extract, be, k))
        && MatchAt(req, extract, be, r.batchIndex)
        && r == ResponseFor(req, extract, ex, inr, r.batchIndex, be.blocks[req.blocks[r.batchIndex]])
      case Err(_) => false
    decreases |req.blocks| - i
  {
    if i < |req.blocks| && !MatchAt(req, extract, be, i) {
      FullScanFindsFirst(req, extract, ex, inr, be, i + 1);
      assert FullFrom(req, extract, ex, inr, be, i) == FullFrom(req, extract, ex, inr, be, i + 1);
    }
  }

  /** The full scan, by its first decisive block: it stops at the first block that cannot be fetched, with
      that error, or that has a relevant transaction, with a response for it; otherwise it finds nothing. */
  lemma {:induction false} FullStopsAt(req: Request, extract: Extract, ex: Reverse, inr: Reverse, be: Backend, i: nat)
    returns (k: nat)
    requires i <= |req.blocks|
    ensures i <= k <= |req.blocks|
    ensures forall j :: i <= j < k ==>
      req.blocks[j] in be.blocks && !HasRelevant(req, extract, be.blocks[req.blocks[j]])
    ensures var r := FullFrom(req, extract, ex, inr, be, i);
            if k == |req.blocks| then r == Ok(None)
            else if req.blocks[k] !in be.blocks then r == Err(BlockUnavailable)
            else
              && HasRelevant(req, extract, be.blocks[req.blocks[k]])
              && r.Ok? && r.value.Some? && r.value.value.batchIndex == k
    decreases |req.blocks| - i
  {
    k := i;
    if i < |req.blocks| && req.blocks[i] in be.blocks {
      var b := be.blocks[req.blocks[i]];
      SomeRelevant(req, extract, {}, b, |b|);
      if !IsMatch(req, extract, b) {
        k := FullStopsAt(req, extract, ex, inr, be, i + 1);
      }
    }
  }

  /** The compact-filter scan passes over a block whose filter data are shorter than 4 bytes, whose filter is
      empty or does not match, or which has no relevant transaction after all. */
  ghost predicate Passed(req: Request, extract: Extract, be: Backend, wl: seq<Script>, h: Hash) {
    && h in be.filters
    && var f := be.filters[h];
       || f.dataLen < 4
       || (f.parses && f.n == 0)
       || (f.parses && f.matchAny(wl) == Some(false))
       || (f.parses && f.matchAny(wl) == Some(true) && h in be.blocks && !HasRelevant(req, extract, be.blocks[h]))
  }

  /** The compact-filter scan, by its first decisive block. */
  lemma {:induction false} CompactStopsAt(req: Request, extract: Extract, ex: Reverse, inr: Reverse, be: Backend,
                                          wl: seq<Script>, i: nat)
    returns (k: nat)
    requires i <= |req.blocks|
    ensures i <= k <= |req.blocks|
    ensures forall j :: i <= j < k ==> Passed(req, extract, be, wl, req.blocks[j])
    ensures var r := CompactFrom(req, extract, ex, inr, be, wl, i);
            if k == |req.blocks| then r == Ok(None)
            else
              var h := req.blocks[k];
              && !Passed(req, extract, be, wl, h)
              && if h !in be.filters then r == Err(FilterUnavailable)
                 else if !be.filters[h].parses then r == Err(FilterMalformed)
                 else if be.filters[h].matchAny(wl).None? then r == Err(MatchFailed)
                 else if h !in be.blocks then r == Err(BlockUnavailable)
                 else r.Ok? && r.value.Some? && r.value.value.batchIndex == k
    decreases |req.blocks| - i
  {
    k := i;
    if i < |req.blocks| {
      var h := req.blocks[i];
      if h in be.blocks {
        SomeRelevant(req, extract, {}, be.blocks[h], |be.blocks[h]|);
      }
      if Passed(req, extract, be, wl, h) {
        k := CompactStopsAt(req, extract, ex, inr, be, wl, i + 1);
      }
    }
  }

  /** A request for one block that matches, although its filter holds none of the watched scripts. */
  lemma OneBlockScans(req: Request, extract: Extract, ex: Reverse, be: Backend, wl: seq<Script>, h: Hash)
    requires req.blocks == [h] && h in be.blocks && h in be.filters && IsMatch(req, extract, be.blocks[h])
    requires var f := be.filters[h]; f.dataLen >= 4 && f.parses && f.n > 0 && f.matchAny(wl) == Some(false)
    ensures FullFrom(req, extract, ex, map[], be, 0) == Ok(Some(ResponseFor(req, extract, ex, map[], 0, be.blocks[h])))
    ensures CompactFrom(req, extract, ex, map[], be, wl, 0) == Ok(None)
  {
    assert CompactFrom(req, extract, ex, map[], be, wl, 1) == Ok(None);
  }

  lemma OnePayingOutput(req: Request, extract: Extract, tx: Tx, a: Address)
    requires tx.outs == [1] && extract(1) == Some([a]) && Watches(req, a)
    ensures IsMatch(req, extract, [tx])
  {
    assert a in extract(1).value && AnyWatched(req, extract(1).value);
    assert Pays(req, extract, tx.outs[0]);
    assert Relevant(req, extract, {}, [tx], 0);
    SomeRelevant(req, extract, {}, [tx], 1);
  }

  /** The canonical-script assumption is needed: an output that pays a watched address with another
      script (as a bare public key output does) is found by the full scan only. */
  lemma NonCanonicalOutputIsMissed()
    ensures exists req: Request, extract: Extract, payTo: PayTo, prevScript: OutPoint -> Script, ex: Reverse,
            be: Backend, wl: seq<Script> ::
      && ReverseOf(ex, req.external)
      && Serves(req, be, wl) && IsWatchList(req, payTo, wl) && WatchedNamed(req, payTo, prevScript)
      && (forall k :: 0 <= k < |req.blocks| ==>
            NoFalseNegatives(extract, prevScript, be.blocks[req.blocks[k]], be.filters[req.blocks[k]], wl))
      && FullFrom(req, extract, ex, map[], be, 0).Ok? && FullFrom(req, extract, ex, map[], be, 0).value.Some?
      && CompactFrom(req, extract, ex, map[], be, wl, 0) == Ok(None)
  {
    var si := ScopedIndex(0, 0);
    var fwd: map<ScopedIndex, Address> := map[si := 7];
    var req := Request([5], fwd, map[], map[]);
    var extract: Extract := s => if s == 1 then Some([7]) else None;
    var payTo: PayTo := a => Some(2);
    var prevScript: OutPoint -> Script := op => 0;
    var tx := Tx(9, [], [1]);
    var b: Block := [tx];
    var f := CFilter(8, true, 1, wl => Some(1 in wl));
    var be := Backend(map[5 := b], map[5 := f]);
    var ex: Reverse := map[7 := si];
    var wl: seq<Script> := [2];
    assert fwd[si] == 7 && 7 in fwd.Values;
    assert Watches(req, 7);
    assert IsWatchList(req, payTo, wl);
    OnePayingOutput(req, extract, tx, 7);
    OneBlockScans(req, extract, ex, be, wl, 5);
    assert !InContents(extract, prevScript, b, 2);
    assert NoFalseNegatives(extract, prevScript, b, f, wl);
    assert Serves(req, be, wl);
    assert ReverseOf(ex, req.external);
    assert WatchedNamed(req, payTo, prevScript);
  }
}
