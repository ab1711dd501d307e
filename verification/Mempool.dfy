/**
 The local mempool (chain/mempool.go).

 `CachedInputs` keeps two maps that index each other: outpoint to spending transaction and
 transaction to spent outpoints.  It refines one plain map from outpoint to spender, in which
 removing a transaction filters out its entries.  `Mempool` puts a mark next to each transaction.
 */
module LocalMempool {
  import opened Wrappers
  import opened Wire

  type Txid = Hash

  datatype Tx = Tx(hash: Txid, ins: seq<OutPoint>)

  const MAX_INDEX := 0xFFFF_FFFF

  predicate IsCoinBase(tx: Tx) {
    |tx.ins| == 1 && tx.ins[0] == OutPoint(0, MAX_INDEX)
  }

  // ---------------------------------------------------------------- the simple model

  type Spends = map<OutPoint, Txid>

  function WithoutTx(sp: Spends, t: Txid): Spends {
    map op | op in sp && sp[op] != t :: sp[op]
  }

  function WithInputs(sp: Spends, ins: seq<OutPoint>, t: Txid): Spends {
    if ins == [] then sp else WithInputs(sp, ins[..|ins| - 1], t)[ins[|ins| - 1] := t]
  }

  /** Tracked transactions with their marks, and who spends what. */
  datatype Pool = Pool(txs: map<Txid, bool>, spends: Spends)

  function Add(p: Pool, tx: Tx, indexed: bool): Pool {
    if IsCoinBase(tx) then p
    else Pool(p.txs[tx.hash := true], if indexed then WithInputs(p.spends, tx.ins, tx.hash) else p.spends)
  }

  function CleanOne(p: Pool, t: Txid): Pool {
    Pool(p.txs - {t}, WithoutTx(p.spends, t))
  }

  function Clean(p: Pool, txs: seq<Tx>): Pool {
    if txs == [] then p else CleanOne(Clean(p, txs[..|txs| - 1]), txs[|txs| - 1].hash)
  }

  function UnmarkAll(p: Pool): Pool {
    p.(txs := map t | t in p.txs :: false)
  }

  function Mark(p: Pool, t: Txid): Pool {
    if t in p.txs then p.(txs := p.txs[t := true]) else p
  }

  /** Drop the transactions without a mark. */
  function Sweep(p: Pool): Pool {
    Pool(map t | t in p.txs && p.txs[t] :: true,
         map op | op in p.spends && !(p.spends[op] in p.txs && !p.txs[p.spends[op]]) :: p.spends[op])
  }

  datatype Op = OpAdd(tx: Tx) | OpClean(txs: seq<Tx>) | OpUnmarkAll | OpMark(t: Txid) | OpSweep

  function Apply(p: Pool, op: Op, indexed: bool): Pool {
    match op
    case OpAdd(tx) => Add(p, tx, indexed)
    case OpClean(txs) => Clean(p, txs)
    case OpUnmarkAll => UnmarkAll(p)
    case OpMark(t) => Mark(p, t)
    case OpSweep => Sweep(p)
  }

  const EMPTY_POOL := Pool(map[], map[])

  function Run(ops: seq<Op>, indexed: bool): Pool {
    if ops == [] then EMPTY_POOL else Apply(Run(ops[..|ops| - 1], indexed), ops[|ops| - 1], indexed)
  }

  // ---------------------------------------------------------------- the two-way index

  class CachedInputs {
    var inputs: Spends
    var txids: map<Txid, set<OutPoint>>

    /** inputs[op] == t exactly when op is in txids[t]. */
    ghost predicate Valid()
      reads this
    {
      && (forall op :: op in inputs ==> inputs[op] in txids && op in txids[inputs[op]])
      && (forall t, op :: t in txids && op in txids[t] ==> op in inputs && inputs[op] == t)
    }

    constructor ()
      ensures Valid() && inputs == map[] && txids == map[]
    {
      inputs, txids := map[], map[];
    }

    method HasInput(op: OutPoint) returns (r: Option<Txid>)
      requires Valid()
      ensures r == if op in inputs then Some(inputs[op]) else None
    {
      r := if op in inputs then Some(inputs[op]) else None;
    }

    method AddInput(op: OutPoint, txid: Txid)
      requires Valid()
      modifies this
      ensures Valid()
      ensures inputs == old(inputs)[op := txid]
      ensures txids.Keys == old(txids).Keys + {txid}
    {
      if txid !in txids {
        txids := txids[txid := {}];
      }
      txids := txids[txid := txids[txid] + {op}];
      if op in inputs && inputs[op] != txid {
        var oldTxid := inputs[op];
        txids := txids[oldTxid := txids[oldTxid] - {op}];
      }
      inputs := inputs[op := txid];
    }

    method RemoveInputsFromTx(txid: Txid)
      requires Valid()
      modifies this
      ensures Valid()
      ensures inputs == WithoutTx(old(inputs), txid)
      ensures txids == old(txids) - {txid}
    {
      var ops := if txid in txids then txids[txid] else {};
      while ops != {}
        invariant ops <= if txid in old(txids) then old(txids)[txid] else {}
        invariant txids == old(txids)
        invariant forall op :: op in inputs ==> op in old(inputs) && inputs[op] == old(inputs)[op]
        invariant forall op :: op in old(inputs) && (old(inputs)[op] != txid || op in ops) ==> op in inputs
        invariant forall op :: op in inputs && inputs[op] == txid ==> op in ops
      {
        var op :| op in ops;
        inputs := inputs - {op};
        ops := ops - {op};
      }
      txids := txids - {txid};
    }
  }

  // ---------------------------------------------------------------- the mempool

  class Mempool {
    var txs: map<Txid, bool>
    const inputs: CachedInputs?

    /** The index is consistent and indexes only tracked transactions. */
    ghost predicate Valid()
      reads this, inputs
    {
      inputs != null ==> inputs.Valid() && inputs.txids.Keys <= txs.Keys
    }

    ghost function View(): Pool
      reads this, inputs
    {
      Pool(txs, if inputs == null then map[] else inputs.inputs)
    }

    predicate Indexed() {
      inputs != null
    }

    constructor (hasPrevoutRPC: bool)
      ensures Valid() && View() == EMPTY_POOL && Indexed() == !hasPrevoutRPC
      ensures inputs != null ==> fresh(inputs)
    {
      txs := map[];
      if hasPrevoutRPC {
        inputs := null;
      } else {
        inputs := new CachedInputs();
      }
    }

    predicate ContainsTx(t: Txid)
      reads this
    {
      t in txs
    }

    /** The spender of an outpoint, when the index is kept. */
    method ContainsInput(op: OutPoint) returns (r: Option<Txid>)
      requires Valid()
      ensures r == if op in View().spends then Some(View().spends[op]) else None
    {
      if inputs == null { return None; }
      r := inputs.HasInput(op);
    }

    method RemoveInputs(t: Txid)
      requires inputs != null ==> inputs.Valid()
      modifies inputs
      ensures inputs != null ==> inputs.Valid() && inputs.txids == old(inputs.txids) - {t}
      ensures View() == Pool(txs, WithoutTx(old(View()).spends, t))
    {
      if inputs == null { return; }
      inputs.RemoveInputsFromTx(t);
    }

    method UpdateInputs(tx: Tx)
      requires Valid() && tx.hash in txs
      modifies inputs
      ensures Valid()
      ensures var was := old(View()).spends;
              View() == Pool(txs, if Indexed() then WithInputs(was, tx.ins, tx.hash) else was)
    {
      if inputs == null { return; }
      for k := 0 to |tx.ins|
        invariant Valid()
        invariant inputs.inputs == WithInputs(old(inputs.inputs), tx.ins[..k], tx.hash)
      {
        inputs.AddInput(tx.ins[k], tx.hash);
        assert tx.ins[..k + 1][..k] == tx.ins[..k];
      }
      assert tx.ins[..|tx.ins|] == tx.ins;
    }

    method AddTx(tx: Tx)
      requires Valid()
      modifies this, inputs
      ensures Valid() && View() == Add(old(View()), tx, Indexed())
    {
      if IsCoinBase(tx) { return; }
      txs := txs[tx.hash := true];
      UpdateInputs(tx);
    }

    method CleanTxs(cleaned: seq<Tx>)
      requires Valid()
      modifies this, inputs
      ensures Valid() && View() == Clean(old(View()), cleaned)
    {
      for k := 0 to |cleaned|
        invariant Valid() && View() == Clean(old(View()), cleaned[..k])
      {
        var txid := cleaned[k].hash;
        assert cleaned[..k + 1][..k] == cleaned[..k];
        txs := txs - {txid};
        RemoveInputs(txid);
      }
      assert cleaned[..|cleaned|] == cleaned;
    }

    method UnmarkTxs()
      requires Valid()
      modifies this
      ensures Valid() && View() == UnmarkAll(old(View()))
    {
      var todo := txs.Keys;
      while todo != {}
        invariant todo <= txs.Keys == old(txs).Keys
        invariant forall t :: t in txs && t !in todo ==> !txs[t]
      {
        var t :| t in todo;
        txs := txs[t := false];
        todo := todo - {t};
      }
    }

    method MarkTx(t: Txid)
      requires Valid()
      modifies this
      ensures Valid() && View() == Mark(old(View()), t)
    {
      if t !in txs { return; }
      txs := txs[t := true];
    }

    method DeleteUnmarked()
      requires Valid()
      modifies this, inputs
      ensures Valid() && View() == Sweep(old(View()))
    {
      var todo := txs.Keys;
      ghost var gone: set<Txid> := {};
      while todo != {}
        invariant todo <= txs.Keys
        invariant Valid()
        invariant todo !! gone
        invariant txs == old(txs) - gone
        invariant forall t :: t in gone ==> t in old(txs) && !old(txs)[t]
        invariant forall t :: t in txs && t !in todo ==> txs[t]
        invariant View().spends == WithoutTxs(old(View()).spends, gone)
      {
        var t :| t in todo;
        todo := todo - {t};
        if !txs[t] {
          WithoutStep(old(View()).spends, gone, t);
          txs := txs - {t};
          gone := gone + {t};
          RemoveInputs(t);
        }
      }
      SweepIs(old(View()), gone);
    }
  }

  lemma WithoutStep(sp: Spends, gone: set<Txid>, t: Txid)
    ensures WithoutTx(WithoutTxs(sp, gone), t) == WithoutTxs(sp, gone + {t})
  {
  }

  lemma SweepIs(p: Pool, gone: set<Txid>)
    requires forall t :: t in gone <==> t in p.txs && !p.txs[t]
    ensures Sweep(p) == Pool(p.txs - gone, WithoutTxs(p.spends, gone))
  {
    assert Sweep(p).txs == p.txs - gone;
    assert Sweep(p).spends == WithoutTxs(p.spends, gone);
  }

  function WithoutTxs(sp: Spends, gone: set<Txid>): Spends {
    map op | op in sp && sp[op] !in gone :: sp[op]
  }

  // ---------------------------------------------------------------- what every run keeps

  lemma {:induction false} WithInputsAt(sp: Spends, ins: seq<OutPoint>, t: Txid, op: OutPoint)
    ensures op in WithInputs(sp, ins, t) <==> op in ins || op in sp
    ensures op in WithInputs(sp, ins, t) ==> WithInputs(sp, ins, t)[op] == if op in ins then t else sp[op]
  {
    if ins != [] {
      WithInputsAt(sp, ins[..|ins| - 1], t, op);
      assert ins == ins[..|ins| - 1] + [ins[|ins| - 1]];
    }
  }

  ghost predicate Closed(p: Pool) {
    forall op :: op in p.spends ==> p.spends[op] in p.txs
  }

  /** The operation adds a transaction, not a coinbase, that spends op. */
  predicate Adds(o: Op, op: OutPoint) {
    o.OpAdd? && o.tx.ins != [OutPoint(0, 0xFFFF_FFFF)] && op in o.tx.ins
  }

  /** Adding a transaction is refused exactly when its only input is the null outpoint of a coinbase;
      otherwise it becomes tracked and marked and, when the index is kept, the spender of all its inputs. */
  lemma AddMeans(p: Pool, tx: Tx, indexed: bool)
    ensures tx.ins == [OutPoint(0, 0xFFFF_FFFF)] ==> Add(p, tx, indexed) == p
    ensures tx.ins != [OutPoint(0, 0xFFFF_FFFF)] ==>
      var q := Add(p, tx, indexed);
      && q.txs == p.txs[tx.hash := true]
      && (forall op :: op in q.spends <==> op in p.spends || (indexed && op in tx.ins))
      && (forall op :: op in q.spends ==> q.spends[op] == if indexed && op in tx.ins then tx.hash else p.spends[op])
  {
    forall op
      ensures op in WithInputs(p.spends, tx.ins, tx.hash) <==> op in p.spends || op in tx.ins
      ensures op in WithInputs(p.spends, tx.ins, tx.hash) ==>
              WithInputs(p.spends, tx.ins, tx.hash)[op] == if op in tx.ins then tx.hash else p.spends[op]
    {
      WithInputsAt(p.spends, tx.ins, tx.hash, op);
    }
  }

  /** Unmarking clears the mark of every tracked transaction, marking sets that of one tracked transaction,
      and a sweep keeps exactly the marked ones and the entries of their inputs. */
  lemma MarkingMeans(p: Pool, t: Txid, u: Txid)
    ensures u in UnmarkAll(p).txs <==> u in p.txs
    ensures u in p.txs ==> !UnmarkAll(p).txs[u]
    ensures u in Mark(p, t).txs <==> u in p.txs
    ensures u in p.txs ==> Mark(p, t).txs[u] == (u == t || p.txs[u])
    ensures UnmarkAll(p).spends == p.spends && Mark(p, t).spends == p.spends
    ensures u in Sweep(p).txs <==> u in p.txs && p.txs[u]
    ensures u in Sweep(p).txs ==> Sweep(p).txs[u]
    ensures Closed(p) ==> forall op :: op in Sweep(p).spends <==> op in p.spends && p.txs[p.spends[op]]
  {
  }

  lemma {:induction false} CleanSpends(p: Pool, txs: seq<Tx>, op: OutPoint)
    requires Closed(p)
    ensures var q := Clean(p, txs);
            && Closed(q)
            && (op in q.spends <==> op in p.spends && p.spends[op] in q.txs)
            && (op in q.spends ==> q.spends[op] == p.spends[op])
  {
    if txs != [] {
      CleanSpends(p, txs[..|txs| - 1], op);
    }
  }

  /** One operation: an added spender takes the outpoint; otherwise the spender stays exactly as
      long as it is tracked. */
  lemma StepSpends(p: Pool, o: Op, op: OutPoint, t: Txid)
    requires Closed(p)
    ensures var q := Apply(p, o, true);
            (op in q.spends && q.spends[op] == t) <==>
              if Adds(o, op) then t == o.tx.hash else op in p.spends && p.spends[op] == t && t in q.txs
    ensures Closed(Apply(p, o, true))
  {
    match o {
      case OpAdd(tx) =>
        assert IsCoinBase(tx) <==> tx.ins == [OutPoint(0, 0xFFFF_FFFF)];
        forall x ensures x in WithInputs(p.spends, tx.ins, tx.hash) <==> x in tx.ins || x in p.spends
          ensures x in WithInputs(p.spends, tx.ins, tx.hash) ==>
                  WithInputs(p.spends, tx.ins, tx.hash)[x] == if x in tx.ins then tx.hash else p.spends[x]
        {
          WithInputsAt(p.spends, tx.ins, tx.hash, x);
        }
      case OpClean(txs) => CleanSpends(p, txs, op);
      case OpUnmarkAll =>
      case OpMark(_) =>
      case OpSweep =>
    }
  }

  lemma {:induction false} RunClosed(ops: seq<Op>)
    ensures Closed(Run(ops, true))
  {
    if ops != [] {
      RunClosed(ops[..|ops| - 1]);
      StepSpends(Run(ops[..|ops| - 1], true), ops[|ops| - 1], OutPoint(0, 0), 0);
    }
  }

  /** After event j, t is still tracked, and event j did not hand op to another spender. */
  ghost predicate Keeps(ops: seq<Op>, j: nat, op: OutPoint, t: Txid)
    requires j < |ops|
  {
    !Adds(ops[j], op) && t in Run(ops[..j + 1], true).txs
  }

  /** Event k added t spending op, and every later event keeps it. */
  ghost predicate HeldSince(ops: seq<Op>, k: nat, op: OutPoint, t: Txid) {
    && k < |ops| && Adds(ops[k], op) && ops[k].tx.hash == t
    && forall j {:trigger Keeps(ops, j, op, t)} :: k < j < |ops| ==> Keeps(ops, j, op, t)
  }

  /** Over every run, the index names t as the spender of op exactly when t is the last added
      spender of op and has been tracked without a break since. */
  lemma {:induction false} SpenderIsLastAdded(ops: seq<Op>, op: OutPoint, t: Txid)
    ensures var p := Run(ops, true);
            (op in p.spends && p.spends[op] == t) <==> exists k :: HeldSince(ops, k, op, t)
  {
    if ops != [] {
      var n := |ops| - 1;
      RunClosed(ops[..n]);
      StepSpends(Run(ops[..n], true), ops[n], op, t);
      SpenderIsLastAdded(ops[..n], op, t);
      if Adds(ops[n], op) {
        assert t == ops[n].tx.hash ==> HeldSince(ops, n, op, t);
        forall k: nat | HeldSince(ops, k, op, t) ensures k == n {
          assert k < n ==> Keeps(ops, n, op, t);
        }
      } else {
        forall k: nat ensures HeldSince(ops, k, op, t) <==> HeldSince(ops[..n], k, op, t) && t in Run(ops, true).txs {
          if HeldSince(ops, k, op, t) {
            HeldForward(ops, k, op, t);
          }
          if HeldSince(ops[..n], k, op, t) && t in Run(ops, true).txs {
            HeldBack(ops, k, op, t);
          }
        }
      }
    }
  }

  lemma KeepsFront(ops: seq<Op>, j: nat, op: OutPoint, t: Txid)
    requires j < |ops| - 1
    ensures Keeps(ops[..|ops| - 1], j, op, t) <==> Keeps(ops, j, op, t)
  {
    assert ops[..|ops| - 1][..j + 1] == ops[..j + 1];
  }

  lemma KeepsLast(ops: seq<Op>, op: OutPoint, t: Txid)
    requires ops != [] && !Adds(ops[|ops| - 1], op)
    ensures Keeps(ops, |ops| - 1, op, t) <==> t in Run(ops, true).txs
  {
    assert ops[..|ops|] == ops;
  }

  lemma HeldForward(ops: seq<Op>, k: nat, op: OutPoint, t: Txid)
    requires ops != [] && !Adds(ops[|ops| - 1], op) && HeldSince(ops, k, op, t)
    ensures HeldSince(ops[..|ops| - 1], k, op, t) && t in Run(ops, true).txs
  {
    KeepsLast(ops, op, t);
    var front := ops[..|ops| - 1];
    assert k < |front| && front[k] == ops[k];
    forall j | k < j < |front| ensures Keeps(front, j, op, t) {
      KeepsFront(ops, j, op, t);
    }
  }

  lemma HeldBack(ops: seq<Op>, k: nat, op: OutPoint, t: Txid)
    requires ops != [] && !Adds(ops[|ops| - 1], op)
    requires HeldSince(ops[..|ops| - 1], k, op, t) && t in Run(ops, true).txs
    ensures HeldSince(ops, k, op, t)
  {
    KeepsLast(ops, op, t);
    assert ops[..|ops| - 1][k] == ops[k];
    forall j | k < j < |ops| - 1 ensures Keeps(ops, j, op, t) {
      KeepsFront(ops, j, op, t);
    }
  }
}
