/**
 The block filterer (chain/block_filterer.go): which transactions, outpoints and address indices of a
 block it finds.  A declaration of relevance comes first; the filterer is proved to meet it.

 Addresses and scripts are opaque.  `extract` stands for script parsing: it gives the addresses an
 output script pays, or nothing when the script cannot be parsed.
 */
module BlockFilter {
  import opened Wrappers
  import opened Wire
  import opened Sequences

  type Address = nat
  type Script = nat

  datatype Tx = Tx(hash: Hash, ins: seq<OutPoint>, outs: seq<Script>)
  type Block = seq<Tx>
  datatype ScopedIndex = ScopedIndex(scope: nat, index: nat)
  type Extract = Script -> Option<seq<Address>>

  datatype Request = Request(
    blocks: seq<Hash>,
    external: map<ScopedIndex, Address>,
    internal: map<ScopedIndex, Address>,
    watched: map<OutPoint, Address>)

  // ---------------------------------------------------------------- declarative relevance

  predicate Watches(req: Request, a: Address) {
    a in req.external.Values || a in req.internal.Values
  }

  predicate AnyWatched(req: Request, addrs: seq<Address>) {
    exists a :: a in addrs && Watches(req, a)
  }

  /** The output pays at least one watched address. */
  predicate Pays(req: Request, extract: Extract, s: Script) {
    extract(s).Some? && AnyWatched(req, extract(s).value)
  }

  /** One of the first n outputs does. */
  ghost predicate PaysUpTo(req: Request, extract: Extract, tx: Tx, n: nat)
    requires n <= |tx.outs|
  {
    n > 0 && (PaysUpTo(req, extract, tx, n - 1) || Pays(req, extract, tx.outs[n - 1]))
  }

  ghost predicate PaysWatched(req: Request, extract: Extract, tx: Tx) {
    exists i :: 0 <= i < |tx.outs| && Pays(req, extract, tx.outs[i])
  }

  lemma {:induction false} PaysUpToExact(req: Request, extract: Extract, tx: Tx, n: nat)
    requires n <= |tx.outs|
    ensures PaysUpTo(req, extract, tx, n) <==> exists i :: 0 <= i < n && Pays(req, extract, tx.outs[i])
  {
    if n > 0 {
      PaysUpToExact(req, extract, tx, n - 1);
    }
  }

  ghost predicate SpendsAny(tx: Tx, ops: set<OutPoint>) {
    exists op :: op in tx.ins && op in ops
  }

  /** One of the first n inputs spends an outpoint of the set. */
  ghost predicate SpendsUpTo(tx: Tx, ops: set<OutPoint>, n: nat)
    requires n <= |tx.ins|
  {
    n > 0 && (SpendsUpTo(tx, ops, n - 1) || tx.ins[n - 1] in ops)
  }

  lemma {:induction false} SpendsUpToExact(tx: Tx, ops: set<OutPoint>, n: nat)
    requires n <= |tx.ins|
    ensures SpendsUpTo(tx, ops, n) <==> exists i :: 0 <= i < n && tx.ins[i] in ops
  {
    if n > 0 {
      SpendsUpToExact(tx, ops, n - 1);
    }
  }

  ghost predicate CreatedBy(req: Request, extract: Extract, tx: Tx, op: OutPoint) {
    op.hash == tx.hash && op.index < |tx.outs| && Pays(req, extract, tx.outs[op.index])
  }

  /** The outpoint is an output, paying a watched address, of one of the transactions. */
  ghost predicate CreatedIn(req: Request, extract: Extract, txs: seq<Tx>, op: OutPoint) {
    exists j :: 0 <= j < |txs| && CreatedBy(req, extract, txs[j], op)
  }

  /** Transaction k pays a watched address, spends a watched outpoint, or spends an output of an
      earlier transaction of the block that pays a watched address.  `prior` holds the outpoints
      found before this block; it is empty for a fresh filterer. */
  ghost predicate Relevant(req: Request, extract: Extract, prior: set<OutPoint>, b: Block, k: nat)
    requires k < |b|
  {
    || PaysWatched(req, extract, b[k])
    || SpendsAny(b[k], req.watched.Keys)
    || SpendsAny(b[k], prior)
    || exists op :: op in b[k].ins && CreatedIn(req, extract, b[..k], op)
  }

  /** The relevant transactions among the first k, in block order. */
  ghost function RelevantTxns(req: Request, extract: Extract, prior: set<OutPoint>, b: Block, k: nat): (txns: seq<Tx>)
    requires k <= |b|
  {
    if k == 0 then []
    else RelevantTxns(req, extract, prior, b, k - 1)
         + (if Relevant(req, extract, prior, b, k - 1) then [b[k - 1]] else [])
  }

  /** Output i of the transaction pays one of the request's addresses. */
  ghost predicate PaysAt(req: Request, extract: Extract, tx: Tx, i: nat) {
    && i < |tx.outs| && extract(tx.outs[i]).Some?
    && exists a :: a in extract(tx.outs[i]).value && (a in req.external.Values || a in req.internal.Values)
  }

  /** Relevance, spelled out: transaction k has an input that is watched, was found before, or is a paying
      output of an earlier transaction of the block, or it has a paying output itself. */
  lemma RelevantMeans(req: Request, extract: Extract, prior: set<OutPoint>, b: Block, k: nat)
    requires k < |b|
    ensures Relevant(req, extract, prior, b, k)
        <==> (exists op :: op in b[k].ins
                && (op in req.watched || op in prior
                    || exists j :: 0 <= j < k && op.hash == b[j].hash && PaysAt(req, extract, b[j], op.index)))
             || exists i :: PaysAt(req, extract, b[k], i)
  {
    forall tx, i: nat ensures PaysAt(req, extract, tx, i) <==> i < |tx.outs| && Pays(req, extract, tx.outs[i]) {
    }
    forall op ensures CreatedIn(req, extract, b[..k], op)
                 <==> exists j :: 0 <= j < k && op.hash == b[j].hash && PaysAt(req, extract, b[j], op.index)
    {
      if j :| 0 <= j < k && op.hash == b[j].hash && PaysAt(req, extract, b[j], op.index) {
        assert b[..k][j] == b[j] && CreatedBy(req, extract, b[..k][j], op);
      }
      if j :| 0 <= j < k && CreatedBy(req, extract, b[..k][j], op) {
        assert PaysAt(req, extract, b[j], op.index);
      }
    }
    if PaysWatched(req, extract, b[k]) {
      var i :| 0 <= i < |b[k].outs| && Pays(req, extract, b[k].outs[i]);
      assert PaysAt(req, extract, b[k], i);
    }
  }

  /** at gives, in ascending order, the positions in b of the listed transactions: those of all the relevant
      ones among the first k. */
  ghost predicate ListsRelevant(req: Request, extract: Extract, prior: set<OutPoint>, b: Block, k: nat, txns: seq<Tx>,
                                at: seq<nat>)
    requires k <= |b|
  {
    && |at| == |txns| && Ascending(at)
    && (forall m :: 0 <= m < |at| ==> at[m] < k && txns[m] == b[at[m]])
    && (forall j: nat :: j in at <==> j < k && Relevant(req, extract, prior, b, j))
  }

  lemma ListMore(req: Request, extract: Extract, prior: set<OutPoint>, b: Block, k: nat, txns: seq<Tx>, at: seq<nat>)
    requires k < |b| && ListsRelevant(req, extract, prior, b, k, txns, at)
    ensures if Relevant(req, extract, prior, b, k)
            then ListsRelevant(req, extract, prior, b, k + 1, txns + [b[k]], at + [k])
            else ListsRelevant(req, extract, prior, b, k + 1, txns, at)
  {
    forall j: nat ensures j in at + [k] <==> j in at || j == k {
    }
  }

  /** Each relevant transaction is listed exactly once, in block order. */
  lemma {:induction false} RelevantTxnsByPosition(req: Request, extract: Extract, prior: set<OutPoint>, b: Block,
                                                  k: nat)
    returns (at: seq<nat>)
    requires k <= |b|
    ensures ListsRelevant(req, extract, prior, b, k, RelevantTxns(req, extract, prior, b, k), at)
  {
    if k == 0 {
      at := [];
    } else {
      var txns := RelevantTxns(req, extract, prior, b, k - 1);
      at := RelevantTxnsByPosition(req, extract, prior, b, k - 1);
      ListMore(req, extract, prior, b, k - 1, txns, at);
      if Relevant(req, extract, prior, b, k - 1) {
        assert RelevantTxns(req, extract, prior, b, k) == txns + [b[k - 1]];
        at := at + [k - 1];
      } else {
        assert RelevantTxns(req, extract, prior, b, k) == txns;
      }
    }
  }

  // ---------------------------------------------------------------- what a block's outputs yield

  function AddrsOf(extract: Extract, s: Script): seq<Address> {
    match extract(s) case Some(addrs) => addrs case None => []
  }

  /** The index a reverse index gives for an address, and those for the first k of a list. */
  function Mark(rev: map<Address, ScopedIndex>, a: Address): set<ScopedIndex> {
    if a in rev then {rev[a]} else {}
  }

  ghost function Marks(rev: map<Address, ScopedIndex>, addrs: seq<Address>, k: nat): set<ScopedIndex>
    requires k <= |addrs|
  {
    if k == 0 then {} else Marks(rev, addrs, k - 1) + Mark(rev, addrs[k - 1])
  }

  ghost function TxMarks(rev: map<Address, ScopedIndex>, extract: Extract, tx: Tx, n: nat): set<ScopedIndex>
    requires n <= |tx.outs|
  {
    if n == 0 then {}
    else
      var addrs := AddrsOf(extract, tx.outs[n - 1]);
      TxMarks(rev, extract, tx, n - 1) + Marks(rev, addrs, |addrs|)
  }

  ghost function BlockMarks(rev: map<Address, ScopedIndex>, extract: Extract, b: Block, k: nat): set<ScopedIndex>
    requires k <= |b|
  {
    if k == 0 then {} else BlockMarks(rev, extract, b, k - 1) + TxMarks(rev, extract, b[k - 1], |b[k - 1].outs|)
  }

  /** The outpoints of the first n outputs that pay a watched address, each with its first address. */
  ghost function TxOutPoints(req: Request, extract: Extract, tx: Tx, n: nat): map<OutPoint, Address>
    requires n <= |tx.outs|
  {
    if n == 0 then map[]
    else if Pays(req, extract, tx.outs[n - 1]) then
      TxOutPoints(req, extract, tx, n - 1)[OutPoint(tx.hash, n - 1) := extract(tx.outs[n - 1]).value[0]]
    else TxOutPoints(req, extract, tx, n - 1)
  }

  ghost function BlockOutPoints(req: Request, extract: Extract, b: Block, k: nat): map<OutPoint, Address>
    requires k <= |b|
  {
    if k == 0 then map[]
    else BlockOutPoints(req, extract, b, k - 1) + TxOutPoints(req, extract, b[k - 1], |b[k - 1].outs|)
  }

  lemma {:induction false} TxOutPointsExact(req: Request, extract: Extract, tx: Tx, n: nat, op: OutPoint)
    requires n <= |tx.outs|
    ensures op in TxOutPoints(req, extract, tx, n) <==> CreatedBy(req, extract, tx, op) && op.index < n
    ensures op in TxOutPoints(req, extract, tx, n) ==>
      TxOutPoints(req, extract, tx, n)[op] == extract(tx.outs[op.index]).value[0]
  {
    if n > 0 {
      TxOutPointsExact(req, extract, tx, n - 1, op);
    }
  }

  lemma CreatedInSplit(req: Request, extract: Extract, b: Block, k: nat, op: OutPoint)
    requires 0 < k <= |b|
    ensures CreatedIn(req, extract, b[..k], op) <==>
      CreatedIn(req, extract, b[..k - 1], op) || CreatedBy(req, extract, b[k - 1], op)
  {
    var p, q := b[..k - 1], b[..k];
    if j :| 0 <= j < |p| && CreatedBy(req, extract, p[j], op) {
      assert CreatedBy(req, extract, q[j], op);
    }
    if CreatedBy(req, extract, b[k - 1], op) {
      assert CreatedBy(req, extract, q[k - 1], op);
    }
    if j :| 0 <= j < |q| && CreatedBy(req, extract, q[j], op) && j != k - 1 {
      assert CreatedBy(req, extract, p[j], op);
    }
  }

  /** The found outpoints are exactly the outputs of the block that pay a watched address; the
      recorded address is the first address of such an output. */
  lemma {:induction false} BlockOutPointsExact(req: Request, extract: Extract, b: Block, k: nat, op: OutPoint)
    requires k <= |b|
    ensures op in BlockOutPoints(req, extract, b, k) <==> CreatedIn(req, extract, b[..k], op)
    ensures op in BlockOutPoints(req, extract, b, k) ==>
      exists j :: 0 <= j < k && CreatedBy(req, extract, b[j], op)
                  && BlockOutPoints(req, extract, b, k)[op] == extract(b[j].outs[op.index]).value[0]
  {
    if k > 0 {
      BlockOutPointsExact(req, extract, b, k - 1, op);
      TxOutPointsExact(req, extract, b[k - 1], |b[k - 1].outs|, op);
      CreatedInSplit(req, extract, b, k, op);
    }
  }

  /** Some output of the block pays address a. */
  ghost predicate PaidIn(extract: Extract, b: Block, a: Address) {
    exists j, i :: 0 <= j < |b| && 0 <= i < |b[j].outs| && a in AddrsOf(extract, b[j].outs[i])
  }

  /** One of the addresses has index x. */
  ghost predicate MarkedBy(rev: map<Address, ScopedIndex>, addrs: seq<Address>, x: ScopedIndex) {
    exists j :: 0 <= j < |addrs| && addrs[j] in rev && rev[addrs[j]] == x
  }

  lemma {:induction false} MarksExact(rev: map<Address, ScopedIndex>, addrs: seq<Address>, k: nat, x: ScopedIndex)
    requires k <= |addrs|
    ensures x in Marks(rev, addrs, k) <==> exists j :: 0 <= j < k && addrs[j] in rev && rev[addrs[j]] == x
  {
    if k > 0 {
      MarksExact(rev, addrs, k - 1, x);
    }
  }

  lemma {:induction false} TxMarksExact(rev: map<Address, ScopedIndex>, extract: Extract, tx: Tx, n: nat,
                                        x: ScopedIndex)
    requires n <= |tx.outs|
    ensures x in TxMarks(rev, extract, tx, n)
        <==> exists i :: 0 <= i < n && MarkedBy(rev, AddrsOf(extract, tx.outs[i]), x)
  {
    if n > 0 {
      TxMarksExact(rev, extract, tx, n - 1, x);
      var addrs := AddrsOf(extract, tx.outs[n - 1]);
      MarksExact(rev, addrs, |addrs|, x);
      assert x in Marks(rev, addrs, |addrs|) <==> MarkedBy(rev, addrs, x);
    }
  }

  /** Some output of the transaction pays an address with index x. */
  ghost predicate TxMarkedBy(rev: map<Address, ScopedIndex>, extract: Extract, tx: Tx, x: ScopedIndex) {
    exists i :: 0 <= i < |tx.outs| && MarkedBy(rev, AddrsOf(extract, tx.outs[i]), x)
  }

  lemma {:induction false} BlockMarksExact(rev: map<Address, ScopedIndex>, extract: Extract, b: Block, k: nat,
                                           x: ScopedIndex)
    requires k <= |b|
    ensures x in BlockMarks(rev, extract, b, k) <==> exists j :: 0 <= j < k && TxMarkedBy(rev, extract, b[j], x)
  {
    if k > 0 {
      BlockMarksExact(rev, extract, b, k - 1, x);
      TxMarksExact(rev, extract, b[k - 1], |b[k - 1].outs|, x);
      assert x in TxMarks(rev, extract, b[k - 1], |b[k - 1].outs|) <==> TxMarkedBy(rev, extract, b[k - 1], x);
    }
  }

  /** The addresses of the request are distinct. */
  ghost predicate DistinctAddresses(fwd: map<ScopedIndex, Address>) {
    forall x, y :: x in fwd && y in fwd && fwd[x] == fwd[y] ==> x == y
  }

  /** With distinct addresses in the request, the found indices are exactly the requested indices
      whose address the block pays. */
  lemma FoundIndicesExact(rev: map<Address, ScopedIndex>, fwd: map<ScopedIndex, Address>, extract: Extract, b: Block)
    requires ReverseOf(rev, fwd)
    requires DistinctAddresses(fwd)
    ensures BlockMarks(rev, extract, b, |b|) == set x | x in fwd && PaidIn(extract, b, fwd[x])
  {
    forall x ensures x in BlockMarks(rev, extract, b, |b|) <==> x in fwd && PaidIn(extract, b, fwd[x]) {
      BlockMarksExact(rev, extract, b, |b|, x);
      if x in fwd && PaidIn(extract, b, fwd[x]) {
        var j, i :| 0 <= j < |b| && 0 <= i < |b[j].outs| && fwd[x] in AddrsOf(extract, b[j].outs[i]);
        assert fwd[x] in rev && rev[fwd[x]] == x;
        assert MarkedBy(rev, AddrsOf(extract, b[j].outs[i]), x);
        assert TxMarkedBy(rev, extract, b[j], x);
      }
    }
  }

  // ---------------------------------------------------------------- the filterer

  /** A reverse index: exactly the addresses of the request, each with one of its own indices. */
  ghost predicate ReverseOf(rev: map<Address, ScopedIndex>, fwd: map<ScopedIndex, Address>) {
    && rev.Keys == fwd.Values
    && forall a :: a in rev ==> rev[a] in fwd && fwd[rev[a]] == a
  }

  method BuildReverse(fwd: map<ScopedIndex, Address>) returns (rev: map<Address, ScopedIndex>)
    ensures ReverseOf(rev, fwd)
  {
    rev := map[];
    var todo := fwd.Keys;
    while todo != {}
      invariant todo <= fwd.Keys
      invariant forall si :: si in fwd && si !in todo ==> fwd[si] in rev
      invariant forall a :: a in rev ==> rev[a] in fwd && fwd[rev[a]] == a
    {
      var si :| si in todo;
      rev := rev[fwd[si] := si];
      todo := todo - {si};
    }
  }

  /** What a filterer has found so far. */
  datatype Findings = Findings(
    external: set<ScopedIndex>, internal: set<ScopedIndex>, ops: map<OutPoint, Address>, txns: seq<Tx>)

  const NO_FINDINGS := Findings({}, {}, map[], [])

  /** A request with its script parser and reverse indexes. */
  datatype Setup = Setup(
    req: Request,
    extract: Extract,
    exRev: map<Address, ScopedIndex>,
    inRev: map<Address, ScopedIndex>)

  ghost predicate ValidSetup(c: Setup) {
    ReverseOf(c.exRev, c.req.external) && ReverseOf(c.inRev, c.req.internal)
  }

  function AddAddr(c: Setup, f: Findings, a: Address): Findings {
    f.(external := f.external + Mark(c.exRev, a), internal := f.internal + Mark(c.inRev, a))
  }

  ghost function AddAddrs(c: Setup, f: Findings, addrs: seq<Address>, k: nat): Findings
    requires k <= |addrs|
  {
    if k == 0 then f else AddAddr(c, AddAddrs(c, f, addrs, k - 1), addrs[k - 1])
  }

  ghost function AddOutput(c: Setup, f: Findings, tx: Tx, n: nat): Findings
    requires n < |tx.outs|
  {
    match c.extract(tx.outs[n])
    case None => f
    case Some(addrs) =>
      var g := AddAddrs(c, f, addrs, |addrs|);
      if Pays(c.req, c.extract, tx.outs[n]) then g.(ops := g.ops[OutPoint(tx.hash, n) := addrs[0]]) else g
  }

  ghost function AddOutputs(c: Setup, f: Findings, tx: Tx, n: nat): Findings
    requires n <= |tx.outs|
  {
    if n == 0 then f else AddOutput(c, AddOutputs(c, f, tx, n - 1), tx, n - 1)
  }

  /** What FilterTx tests, given the outpoints found so far. */
  ghost predicate Hit(req: Request, extract: Extract, found: set<OutPoint>, tx: Tx) {
    || SpendsUpTo(tx, req.watched.Keys, |tx.ins|)
    || SpendsUpTo(tx, found, |tx.ins|)
    || PaysUpTo(req, extract, tx, |tx.outs|)
  }

  ghost function AddTx(c: Setup, f: Findings, tx: Tx): Findings {
    var g := AddOutputs(c, f, tx, |tx.outs|);
    if Hit(c.req, c.extract, f.ops.Keys, tx) then g.(txns := g.txns + [tx]) else g
  }

  ghost function AddTxs(c: Setup, f: Findings, b: Block, k: nat): Findings
    requires k <= |b|
  {
    if k == 0 then f else AddTx(c, AddTxs(c, f, b, k - 1), b[k - 1])
  }

  class BlockFilterer {
    const c: Setup
    var foundExternal: set<ScopedIndex>
    var foundInternal: set<ScopedIndex>
    var foundOutPoints: map<OutPoint, Address>
    var relevantTxns: seq<Tx>

    function Found(): Findings
      reads this
    {
      Findings(foundExternal, foundInternal, foundOutPoints, relevantTxns)
    }

    constructor (req: Request, extract: Extract)
      ensures c.req == req && c.extract == extract && ValidSetup(c)
      ensures Found() == NO_FINDINGS
    {
      var ex := BuildReverse(req.external);
      var inr := BuildReverse(req.internal);
      c := Setup(req, extract, ex, inr);
      foundExternal, foundInternal, foundOutPoints, relevantTxns := {}, {}, map[], [];
    }

    /** Marks the watched addresses among `addrs`; true iff there is one. */
    method FilterOutputAddrs(addrs: seq<Address>) returns (isRelevant: bool)
      requires ValidSetup(c)
      modifies this`foundExternal, this`foundInternal
      ensures isRelevant == AnyWatched(c.req, addrs)
      ensures Found() == AddAddrs(c, old(Found()), addrs, |addrs|)
    {
      isRelevant := false;
      for k := 0 to |addrs|
        invariant isRelevant <==> exists j :: 0 <= j < k && Watches(c.req, addrs[j])
        invariant Found() == AddAddrs(c, old(Found()), addrs, k)
      {
        var a := addrs[k];
        if a in c.exRev {
          foundExternal := foundExternal + {c.exRev[a]};
          isRelevant := true;
        }
        if a in c.inRev {
          foundInternal := foundInternal + {c.inRev[a]};
          isRelevant := true;
        }
      }
    }

    /** True iff the transaction spends a watched or found outpoint or pays a watched address; its
        paying outputs are recorded. */
    method FilterTx(tx: Tx) returns (isRelevant: bool)
      requires ValidSetup(c)
      modifies this`foundExternal, this`foundInternal, this`foundOutPoints
      ensures isRelevant == Hit(c.req, c.extract, old(foundOutPoints).Keys, tx)
      ensures Found() == AddOutputs(c, old(Found()), tx, |tx.outs|)
    {
      isRelevant := false;
      for k := 0 to |tx.ins|
        invariant isRelevant <==> SpendsUpTo(tx, c.req.watched.Keys, k) || SpendsUpTo(tx, foundOutPoints.Keys, k)
        invariant Found() == old(Found())
      {
        if tx.ins[k] in c.req.watched {
          isRelevant := true;
        }
        if tx.ins[k] in foundOutPoints {
          isRelevant := true;
        }
      }
      ghost var spends := isRelevant;
      for n := 0 to |tx.outs|
        invariant isRelevant <==> spends || PaysUpTo(c.req, c.extract, tx, n)
        invariant Found() == AddOutputs(c, old(Found()), tx, n)
      {
        match c.extract(tx.outs[n]) {
          case None =>
          case Some(addrs) =>
            var hit := FilterOutputAddrs(addrs);
            if hit {
              isRelevant := true;
              foundOutPoints := foundOutPoints[OutPoint(tx.hash, n) := addrs[0]];
            }
        }
      }
    }

    /** Filters a whole block.  The relevant transactions, the found outpoints and the found indices
        are the declared ones, and a block without a relevant transaction leaves the filterer as it was. */
    method FilterBlock(b: Block) returns (hasRelevant: bool)
      requires ValidSetup(c)
      modifies this`foundExternal, this`foundInternal, this`foundOutPoints, this`relevantTxns
      ensures Found() == Declared(c, old(Found()), b)
      ensures hasRelevant <==> RelevantTxns(c.req, c.extract, old(foundOutPoints).Keys, b, |b|) != []
      ensures !hasRelevant ==> Found() == old(Found())
    {
      ghost var f := Found();
      hasRelevant := false;
      for k := 0 to |b|
        invariant hasRelevant <==> |AddTxs(c, f, b, k).txns| > |f.txns|
        invariant Found() == AddTxs(c, f, b, k)
      {
        TxnsGrow(c, f, b, k);
        AddOutputsOps(c, Found(), b[k], |b[k].outs|);
        var hit := FilterTx(b[k]);
        if hit {
          relevantTxns := relevantTxns + [b[k]];
          hasRelevant := true;
        }
      }
      FindingsAreDeclared(c, f, b);
    }
  }

  /** The declared findings after a block, from earlier findings f. */
  ghost function Declared(c: Setup, f: Findings, b: Block): Findings {
    Findings(f.external + BlockMarks(c.exRev, c.extract, b, |b|),
             f.internal + BlockMarks(c.inRev, c.extract, b, |b|),
             f.ops + BlockOutPoints(c.req, c.extract, b, |b|),
             f.txns + RelevantTxns(c.req, c.extract, f.ops.Keys, b, |b|))
  }

  /** The findings after a block, spelled out for a request with distinct addresses: besides what was found
      before, the requested external and internal indices whose address the block pays, its outputs that pay a
      requested address, and its relevant transactions in block order. */
  lemma DeclaredMeans(c: Setup, f: Findings, b: Block) returns (at: seq<nat>)
    requires ValidSetup(c) && DistinctAddresses(c.req.external) && DistinctAddresses(c.req.internal)
    ensures var g := Declared(c, f, b);
            && (forall x :: x in g.external
                  <==> x in f.external || (x in c.req.external && PaidIn(c.extract, b, c.req.external[x])))
            && (forall x :: x in g.internal
                  <==> x in f.internal || (x in c.req.internal && PaidIn(c.extract, b, c.req.internal[x])))
            && (forall op :: op in g.ops <==> op in f.ops || op in BlockOutPoints(c.req, c.extract, b, |b|))
            && f.txns <= g.txns
            && ListsRelevant(c.req, c.extract, f.ops.Keys, b, |b|, g.txns[|f.txns|..], at)
  {
    FoundIndicesExact(c.exRev, c.req.external, c.extract, b);
    FoundIndicesExact(c.inRev, c.req.internal, c.extract, b);
    at := RelevantTxnsByPosition(c.req, c.extract, f.ops.Keys, b, |b|);
    assert Declared(c, f, b).txns[|f.txns|..] == RelevantTxns(c.req, c.extract, f.ops.Keys, b, |b|);
  }

  /** The outpoints a block yields are its outputs that pay a requested address, each with the first address of
      such an output. */
  lemma OutPointsMean(req: Request, extract: Extract, b: Block, op: OutPoint)
    ensures op in BlockOutPoints(req, extract, b, |b|)
        <==> exists j :: 0 <= j < |b| && op.hash == b[j].hash && PaysAt(req, extract, b[j], op.index)
    ensures op in BlockOutPoints(req, extract, b, |b|) ==>
      exists j :: 0 <= j < |b| && op.hash == b[j].hash && PaysAt(req, extract, b[j], op.index)
                  && BlockOutPoints(req, extract, b, |b|)[op] == extract(b[j].outs[op.index]).value[0]
  {
    BlockOutPointsExact(req, extract, b, |b|, op);
    assert b[..|b|] == b;
    if j :| 0 <= j < |b| && op.hash == b[j].hash && PaysAt(req, extract, b[j], op.index) {
      assert CreatedBy(req, extract, b[j], op);
    }
    if op in BlockOutPoints(req, extract, b, |b|) {
      var j :| 0 <= j < |b| && CreatedBy(req, extract, b[j], op)
               && BlockOutPoints(req, extract, b, |b|)[op] == extract(b[j].outs[op.index]).value[0];
      assert PaysAt(req, extract, b[j], op.index);
    }
  }

  // ---------------------------------------------------------------- the filterer computes the declared findings

  lemma {:induction false} AddAddrsMarks(c: Setup, f: Findings, addrs: seq<Address>, k: nat, x: ScopedIndex)
    requires k <= |addrs|
    ensures x in AddAddrs(c, f, addrs, k).external <==> x in f.external || x in Marks(c.exRev, addrs, k)
    ensures x in AddAddrs(c, f, addrs, k).internal <==> x in f.internal || x in Marks(c.inRev, addrs, k)
  {
    if k > 0 {
      AddAddrsMarks(c, f, addrs, k - 1, x);
    }
  }

  lemma {:induction false} AddAddrsKeeps(c: Setup, f: Findings, addrs: seq<Address>, k: nat)
    requires k <= |addrs|
    ensures AddAddrs(c, f, addrs, k).ops == f.ops && AddAddrs(c, f, addrs, k).txns == f.txns
  {
    if k > 0 {
      AddAddrsKeeps(c, f, addrs, k - 1);
    }
  }

  lemma {:induction false} AddOutputsMarks(c: Setup, f: Findings, tx: Tx, n: nat, x: ScopedIndex)
    requires n <= |tx.outs|
    ensures x in AddOutputs(c, f, tx, n).external <==> x in f.external || x in TxMarks(c.exRev, c.extract, tx, n)
    ensures x in AddOutputs(c, f, tx, n).internal <==> x in f.internal || x in TxMarks(c.inRev, c.extract, tx, n)
  {
    if n > 0 {
      AddOutputsMarks(c, f, tx, n - 1, x);
      var addrs := AddrsOf(c.extract, tx.outs[n - 1]);
      AddAddrsMarks(c, AddOutputs(c, f, tx, n - 1), addrs, |addrs|, x);
    }
  }

  lemma MergeUpdate(a: map<OutPoint, Address>, b: map<OutPoint, Address>, op: OutPoint, x: Address)
    ensures (a + b)[op := x] == a + b[op := x]
  {
  }

  lemma {:induction false} AddOutputsOps(c: Setup, f: Findings, tx: Tx, n: nat)
    requires n <= |tx.outs|
    ensures AddOutputs(c, f, tx, n).ops == f.ops + TxOutPoints(c.req, c.extract, tx, n)
    ensures AddOutputs(c, f, tx, n).txns == f.txns
  {
    if n > 0 {
      AddOutputsOps(c, f, tx, n - 1);
      var addrs := AddrsOf(c.extract, tx.outs[n - 1]);
      AddAddrsKeeps(c, AddOutputs(c, f, tx, n - 1), addrs, |addrs|);
      if Pays(c.req, c.extract, tx.outs[n - 1]) {
        MergeUpdate(f.ops, TxOutPoints(c.req, c.extract, tx, n - 1), OutPoint(tx.hash, n - 1), addrs[0]);
      }
    }
  }

  lemma {:induction false} TxnsGrow(c: Setup, f: Findings, b: Block, k: nat)
    requires k <= |b|
    ensures |AddTxs(c, f, b, k).txns| >= |f.txns|
  {
    if k > 0 {
      TxnsGrow(c, f, b, k - 1);
      AddOutputsOps(c, AddTxs(c, f, b, k - 1), b[k - 1], |b[k - 1].outs|);
    }
  }

  lemma AddTxOps(c: Setup, f: Findings, tx: Tx)
    ensures AddTx(c, f, tx).ops == f.ops + TxOutPoints(c.req, c.extract, tx, |tx.outs|)
  {
    AddOutputsOps(c, f, tx, |tx.outs|);
  }

  lemma MergeAssoc(a: map<OutPoint, Address>, b: map<OutPoint, Address>, c: map<OutPoint, Address>)
    ensures (a + b) + c == a + (b + c)
  {
  }

  lemma {:induction false} AddTxsMarks(c: Setup, f: Findings, b: Block, k: nat, x: ScopedIndex)
    requires k <= |b|
    ensures x in AddTxs(c, f, b, k).external <==> x in f.external || x in BlockMarks(c.exRev, c.extract, b, k)
    ensures x in AddTxs(c, f, b, k).internal <==> x in f.internal || x in BlockMarks(c.inRev, c.extract, b, k)
  {
    if k > 0 {
      AddTxsMarks(c, f, b, k - 1, x);
      AddOutputsMarks(c, AddTxs(c, f, b, k - 1), b[k - 1], |b[k - 1].outs|, x);
    }
  }

  lemma {:induction false} AddTxsOps(c: Setup, f: Findings, b: Block, k: nat)
    requires k <= |b|
    ensures AddTxs(c, f, b, k).ops == f.ops + BlockOutPoints(c.req, c.extract, b, k)
  {
    if k > 0 {
      AddTxsOps(c, f, b, k - 1);
      AddTxOps(c, AddTxs(c, f, b, k - 1), b[k - 1]);
      MergeAssoc(f.ops, BlockOutPoints(c.req, c.extract, b, k - 1),
                 TxOutPoints(c.req, c.extract, b[k - 1], |b[k - 1].outs|));
    }
  }

  lemma {:induction false} AddTxsTxns(c: Setup, f: Findings, b: Block, k: nat)
    requires k <= |b|
    ensures AddTxs(c, f, b, k).txns == f.txns + RelevantTxns(c.req, c.extract, f.ops.Keys, b, k)
  {
    if k > 0 {
      var g := AddTxs(c, f, b, k - 1);
      AddTxsTxns(c, f, b, k - 1);
      AddTxsOps(c, f, b, k - 1);
      AddOutputsOps(c, g, b[k - 1], |b[k - 1].outs|);
      HitIsRelevant(c.req, c.extract, f.ops, b, k - 1);
    }
  }

  /** The filterer finds exactly the declared transactions, outpoints and indices, and nothing new
      when the block has no relevant transaction. */
  lemma FindingsAreDeclared(c: Setup, f: Findings, b: Block)
    requires ValidSetup(c)
    ensures AddTxs(c, f, b, |b|) == Declared(c, f, b)
    ensures RelevantTxns(c.req, c.extract, f.ops.Keys, b, |b|) == [] ==> Declared(c, f, b) == f
  {
    forall x
      ensures x in AddTxs(c, f, b, |b|).external <==> x in Declared(c, f, b).external
      ensures x in AddTxs(c, f, b, |b|).internal <==> x in Declared(c, f, b).internal
    {
      AddTxsMarks(c, f, b, |b|, x);
    }
    AddTxsOps(c, f, b, |b|);
    AddTxsTxns(c, f, b, |b|);
    if RelevantTxns(c.req, c.extract, f.ops.Keys, b, |b|) == [] {
      NothingFound(c, f.ops.Keys, b);
    }
  }

  lemma MarkedPays(c: Setup, rev: map<Address, ScopedIndex>, s: Script, x: ScopedIndex)
    requires ValidSetup(c) && (rev == c.exRev || rev == c.inRev) && MarkedBy(rev, AddrsOf(c.extract, s), x)
    ensures Pays(c.req, c.extract, s)
  {
    var addrs := AddrsOf(c.extract, s);
    var j :| 0 <= j < |addrs| && addrs[j] in rev && rev[addrs[j]] == x;
    assert addrs[j] in addrs && Watches(c.req, addrs[j]);
  }

  lemma NothingFound(c: Setup, prior: set<OutPoint>, b: Block)
    requires ValidSetup(c) && RelevantTxns(c.req, c.extract, prior, b, |b|) == []
    ensures BlockMarks(c.exRev, c.extract, b, |b|) == {} && BlockMarks(c.inRev, c.extract, b, |b|) == {}
    ensures BlockOutPoints(c.req, c.extract, b, |b|) == map[]
  {
    SomeRelevant(c.req, c.extract, prior, b, |b|);
    forall j | 0 <= j < |b| ensures !PaysWatched(c.req, c.extract, b[j]) {
      assert !Relevant(c.req, c.extract, prior, b, j);
    }
    forall op ensures op !in BlockOutPoints(c.req, c.extract, b, |b|) {
      BlockOutPointsExact(c.req, c.extract, b, |b|, op);
    }
    forall x ensures x !in BlockMarks(c.exRev, c.extract, b, |b|) {
      BlockMarksExact(c.exRev, c.extract, b, |b|, x);
      if j, i :| 0 <= j < |b| && 0 <= i < |b[j].outs| && MarkedBy(c.exRev, AddrsOf(c.extract, b[j].outs[i]), x) {
        MarkedPays(c, c.exRev, b[j].outs[i], x);
      }
    }
    forall x ensures x !in BlockMarks(c.inRev, c.extract, b, |b|) {
      BlockMarksExact(c.inRev, c.extract, b, |b|, x);
      if j, i :| 0 <= j < |b| && 0 <= i < |b[j].outs| && MarkedBy(c.inRev, AddrsOf(c.extract, b[j].outs[i]), x) {
        MarkedPays(c, c.inRev, b[j].outs[i], x);
      }
    }
  }

  /** There is a relevant transaction among the first k exactly when the list is not empty. */
  lemma {:induction false} SomeRelevant(req: Request, extract: Extract, prior: set<OutPoint>, b: Block, k: nat)
    requires k <= |b|
    ensures RelevantTxns(req, extract, prior, b, k) != []
        <==> exists j :: 0 <= j < k && Relevant(req, extract, prior, b, j)
  {
    if k > 0 {
      SomeRelevant(req, extract, prior, b, k - 1);
    }
  }

  /** What FilterTx tests at transaction k is what the declaration of relevance says. */
  lemma HitIsRelevant(req: Request, extract: Extract, prior: map<OutPoint, Address>, b: Block, k: nat)
    requires k < |b|
    ensures Hit(req, extract, (prior + BlockOutPoints(req, extract, b, k)).Keys, b[k])
        <==> Relevant(req, extract, prior.Keys, b, k)
  {
    var all := (prior + BlockOutPoints(req, extract, b, k)).Keys;
    PaysUpToExact(req, extract, b[k], |b[k].outs|);
    SpendsUpToExact(b[k], req.watched.Keys, |b[k].ins|);
    SpendsUpToExact(b[k], all, |b[k].ins|);
    forall op ensures op in all <==> op in prior.Keys || CreatedIn(req, extract, b[..k], op) {
      BlockOutPointsExact(req, extract, b, k, op);
    }
  }
}
