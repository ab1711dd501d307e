/**
 Auto-renew selection (wallet/autorenew.go): which unspent outputs one run renews.
 */
module AutoRenew {
  import opened Wrappers
  import opened Sorting
  import opened Expiry

  datatype Policy = Policy(enabled: bool, windowStart: int32, windowEnd: int32, maxUtxosPerRun: int, maxFeeRate: int)

  datatype Config = Config(
    policy: Policy,
    interval: int,
    failureBackoff: int,
    amount: int,
    maxRenewAmountPerRun: int,
    minConf: int32,
    expiryWindowBlocks: nat,
    expiringThreshold: int32)

  datatype ConfigError =
    | NegativeWindow | WindowReversed | MaxUtxosNotPositive | FeeRateNotPositive | IntervalNotPositive
    | NegativeBackoff | NegativeBudget | NegativeMinConf | NoExpiryWindow | NegativeThreshold
    | AmountNotPositive | BudgetBelowAmount

  function ValidatePolicy(p: Policy): Option<ConfigError> {
    if p.windowStart < 0 || p.windowEnd < 0 then Some(NegativeWindow)
    else if p.windowStart < p.windowEnd then Some(WindowReversed)
    else if p.maxUtxosPerRun <= 0 then Some(MaxUtxosNotPositive)
    else if p.maxFeeRate <= 0 then Some(FeeRateNotPositive)
    else None
  }

  function Validate(c: Config): Option<ConfigError> {
    if ValidatePolicy(c.policy).Some? then ValidatePolicy(c.policy)
    else if c.interval <= 0 then Some(IntervalNotPositive)
    else if c.failureBackoff < 0 then Some(NegativeBackoff)
    else if c.maxRenewAmountPerRun < 0 then Some(NegativeBudget)
    else if c.minConf < 0 then Some(NegativeMinConf)
    else if c.expiryWindowBlocks == 0 then Some(NoExpiryWindow)
    else if c.expiringThreshold < 0 then Some(NegativeThreshold)
    else if c.policy.enabled && c.amount <= 0 then Some(AmountNotPositive)
    else if c.policy.enabled && c.maxRenewAmountPerRun > 0 && c.maxRenewAmountPerRun < c.amount then
      Some(BudgetBelowAmount)
    else None
  }

  /** The accepted configurations: a window within bounds, positive limits, and, when enabled, a positive
      amount that a set budget covers. */
  lemma AcceptedMeans(c: Config)
    ensures Validate(c).None?
       <==> && 0 <= c.policy.windowEnd <= c.policy.windowStart
            && c.policy.maxUtxosPerRun > 0 && c.policy.maxFeeRate > 0
            && c.interval > 0 && c.failureBackoff >= 0 && c.maxRenewAmountPerRun >= 0 && c.minConf >= 0
            && c.expiryWindowBlocks > 0 && c.expiringThreshold >= 0
            && (c.policy.enabled ==> c.amount > 0)
            && (c.policy.enabled && c.maxRenewAmountPerRun > 0 ==> c.maxRenewAmountPerRun >= c.amount)
  {
  }

  predicate IsInWindow(blocksToExpiry: int32, p: Policy) {
    p.enabled && p.windowEnd <= blocksToExpiry <= p.windowStart
  }

  // ---------------------------------------------------------------- candidates

  /** An unspent output; the outpoint is its "hash:index" text, by which ties are broken. */
  datatype Output = Output(outPoint: string, value: int, createHeight: int32)

  datatype Candidate = Candidate(outPoint: string, amount: int, blocksToExpiry: int32)

  /** Policy resolved from the chain, and the tip the run starts from. */
  datatype Context = Context(tip: int32, reclaimBps: nat, dustThreshold: int)

  const DEFAULT_RENEW_WARNING_BLOCKS: int32 := 12

  function Wrap64(x: int): int {
    (x + 0x8000_0000_0000_0000) % 0x1_0000_0000_0000_0000 - 0x8000_0000_0000_0000
  }

  /** Wrap64 gives the one int64 that differs by a multiple of 2^64. */
  lemma Wrap64Means(x: int)
    ensures -0x8000_0000_0000_0000 <= Wrap64(x) <= 0x7FFF_FFFF_FFFF_FFFF
    ensures (x - Wrap64(x)) % 0x1_0000_0000_0000_0000 == 0
  {
  }

  /** Go's division truncates towards zero. */
  function TruncDiv(x: int, d: nat): int
    requires d > 0
  {
    if x >= 0 then x / d else -((-x) / d)
  }

  function ProjectedReclaim(amount: int, bps: nat): int {
    TruncDiv(Wrap64(amount * bps), 10000)
  }

  function CandidateOf(c: Config, ctx: Context, o: Output): Option<Candidate> {
    if o.createHeight < 0 then None
    else
      var info := BuildExpiryInfo(o.createHeight, ctx.tip, c.expiryWindowBlocks, c.expiringThreshold,
                                  DEFAULT_RENEW_WARNING_BLOCKS, o.value, ProjectedReclaim(o.value, ctx.reclaimBps),
                                  ctx.dustThreshold);
      if info.Err? then None
      else if !IsInWindow(info.value.blocksToExpiry, c.policy) then None
      else if o.value <= c.amount then None
      else Some(Candidate(o.outPoint, o.value, info.value.blocksToExpiry))
  }

  /** The eligible outputs, in the order they arrive. */
  function Eligible(c: Config, ctx: Context, outputs: seq<Output>): seq<Candidate> {
    if outputs == [] then []
    else
      var n := |outputs| - 1;
      Eligible(c, ctx, outputs[..n]) + (match CandidateOf(c, ctx, outputs[n]) case None => [] case Some(x) => [x])
  }

  const MAX_INT64 := 0x7FFF_FFFF_FFFF_FFFF

  /** An output is eligible exactly when it is confirmed, worth more than the renewal amount, its
      remaining blocks lie in the renewal window, and the product of its value and the reclaim ratio,
      wrapped to int64, does not give a negative projection. */
  lemma EligibleMeans(c: Config, ctx: Context, o: Output)
    requires c.policy.enabled && c.amount > 0 && ctx.tip >= 0 && ctx.dustThreshold >= 0
    requires 0 <= o.createHeight ==> o.createHeight + c.expiryWindowBlocks <= MAX_INT32
    ensures var expiry := o.createHeight + c.expiryWindowBlocks;
            var left := if ctx.tip >= expiry then 0 else expiry - ctx.tip;
            CandidateOf(c, ctx, o) ==
              if o.createHeight >= 0 && o.value > c.amount && c.policy.windowEnd <= left <= c.policy.windowStart
                 && Wrap64(o.value * ctx.reclaimBps) > -10000
              then Some(Candidate(o.outPoint, o.value, left)) else None
  {
    if o.createHeight >= 0 && o.value > c.amount {
      TruncSign(Wrap64(o.value * ctx.reclaimBps));
      if ProjectedReclaim(o.value, ctx.reclaimBps) >= 0 {
        ExpiredTogether(o.createHeight, ctx.tip, c.expiryWindowBlocks, c.expiringThreshold,
                        DEFAULT_RENEW_WARNING_BLOCKS,
                        o.value, ProjectedReclaim(o.value, ctx.reclaimBps), ctx.dustThreshold);
      }
    }
  }

  lemma TruncSign(x: int)
    ensures TruncDiv(x, 10000) >= 0 <==> x > -10000
  {
  }

  /** An amount whose product with the reclaim ratio leaves int64 is skipped although it is in the
      window: the wrapped projection is negative. */
  lemma HugeOutputIsSkipped()
    ensures exists c: Config, ctx: Context, o: Output ::
      && Validate(c).None? && c.policy.enabled && ctx.tip >= 0 && ctx.dustThreshold >= 0
      && 0 <= o.createHeight && o.createHeight + c.expiryWindowBlocks <= MAX_INT32
      && c.amount < o.value <= MAX_INT64
      && c.policy.windowEnd <= o.createHeight + c.expiryWindowBlocks - ctx.tip <= c.policy.windowStart
      && CandidateOf(c, ctx, o).None?
  {
    var c := Config(Policy(true, 1000, 0, 10, 1), 1, 0, 1, 0, 0, 100, 0);
    var ctx := Context(0, 7000, 546);
    var o := Output("a", 2_000_000_000_000_000, 0);
    assert Validate(c).None?;
    assert ProjectedReclaim(o.value, 7000) < 0;
    assert CandidateOf(c, ctx, o).None?;
  }

  // ---------------------------------------------------------------- urgency order

  predicate TextLess(a: string, b: string) {
    b != [] && (a == [] || a[0] < b[0] || (a[0] == b[0] && TextLess(a[1..], b[1..])))
  }

  predicate MoreUrgent(x: Candidate, y: Candidate) {
    if x.blocksToExpiry != y.blocksToExpiry then x.blocksToExpiry < y.blocksToExpiry
    else TextLess(x.outPoint, y.outPoint)
  }

  lemma {:induction false} TextLessTotal(a: string, b: string)
    ensures !(TextLess(a, b) && TextLess(b, a))
    ensures !TextLess(a, b) && !TextLess(b, a) ==> a == b
  {
    if a != [] && b != [] {
      TextLessTotal(a[1..], b[1..]);
      if a[0] == b[0] && a[1..] == b[1..] {
        assert a == [a[0]] + a[1..] && b == [b[0]] + b[1..];
      }
    }
  }

  lemma {:induction false} TextNotGreaterTransitive(a: string, b: string, c: string)
    requires !TextLess(b, a) && !TextLess(c, b)
    ensures !TextLess(c, a)
  {
    if a != [] && b != [] && c != [] && a[0] == b[0] == c[0] {
      TextNotGreaterTransitive(a[1..], b[1..], c[1..]);
    }
  }

  /** a does not come after b in the order of texts: it is a prefix of b, or has the smaller character at the
      first position where they differ. */
  ghost predicate NotAfter(a: string, b: string) {
    a <= b || exists k :: 0 <= k < |a| && k < |b| && a[..k] == b[..k] && a[k] < b[k]
  }

  lemma {:induction false} TextLessMeans(a: string, b: string)
    ensures !TextLess(b, a) <==> NotAfter(a, b)
  {
    if a != [] && b != [] && a[0] == b[0] {
      TextLessMeans(a[1..], b[1..]);
      assert a == [a[0]] + a[1..] && b == [b[0]] + b[1..];
      if k :| 0 <= k < |a| && k < |b| && a[..k] == b[..k] && a[k] < b[k] {
        assert k > 0 && a[1..][..k - 1] == a[..k][1..] && b[1..][..k - 1] == b[..k][1..];
        assert a[1..][k - 1] < b[1..][k - 1];
      }
      if k :| 0 <= k < |a[1..]| && k < |b[1..]| && a[1..][..k] == b[1..][..k] && a[1..][k] < b[1..][k] {
        assert a[..k + 1] == [a[0]] + a[1..][..k] && b[..k + 1] == [b[0]] + b[1..][..k];
        assert a[k + 1] < b[k + 1];
      }
    } else if a != [] && b != [] {
      assert a[..0] == b[..0];
    }
  }

  /** x has no more blocks left than y, and on a tie its outpoint text does not come after y's. */
  ghost predicate GoesFirst(x: Candidate, y: Candidate) {
    && x.blocksToExpiry <= y.blocksToExpiry
    && (x.blocksToExpiry == y.blocksToExpiry ==> NotAfter(x.outPoint, y.outPoint))
  }

  lemma UrgencyMeans(x: Candidate, y: Candidate)
    ensures !MoreUrgent(y, x) <==> GoesFirst(x, y)
  {
    TextLessMeans(x.outPoint, y.outPoint);
  }

  lemma SortedGoesFirst(s: seq<Candidate>)
    ensures Sorted(s, MoreUrgent) <==> forall i, j :: 0 <= i < j < |s| ==> GoesFirst(s[i], s[j])
  {
    forall i, j | 0 <= i < j < |s| ensures !MoreUrgent(s[j], s[i]) <==> GoesFirst(s[i], s[j]) {
      UrgencyMeans(s[i], s[j]);
    }
  }

  lemma MoreUrgentIsOrder()
    ensures WeakOrder(MoreUrgent)
  {
    forall x: Candidate, y: Candidate ensures !MoreUrgent(x, y) || !MoreUrgent(y, x) {
      TextLessTotal(x.outPoint, y.outPoint);
    }
    forall x: Candidate, y: Candidate, z: Candidate | !MoreUrgent(y, x) && !MoreUrgent(z, y) ensures !MoreUrgent(z, x) {
      if x.blocksToExpiry == y.blocksToExpiry == z.blocksToExpiry {
        TextNotGreaterTransitive(x.outPoint, y.outPoint, z.outPoint);
      }
    }
  }

  // ---------------------------------------------------------------- one run

  /** s holds the given candidates in order of urgency. */
  ghost predicate Arranges(s: seq<Candidate>, found: seq<Candidate>) {
    && (forall i, j :: 0 <= i < j < |s| ==> GoesFirst(s[i], s[j]))
    && multiset(s) == multiset(found)
  }

  /** Collects the candidates, sorts them by urgency and keeps at most MaxUtxosPerRun of them. */
  method BuildCandidates(c: Config, ctx: Context, outputs: seq<Output>) returns (candidates: seq<Candidate>)
    requires c.policy.maxUtxosPerRun >= 0
    ensures exists s :: Arranges(s, Eligible(c, ctx, outputs)) && candidates == s[..Min(|s|, c.policy.maxUtxosPerRun)]
  {
    var found: seq<Candidate> := [];
    for i := 0 to |outputs|
      invariant found == Eligible(c, ctx, outputs[..i])
    {
      assert outputs[..i + 1][..i] == outputs[..i];
      var x := CandidateOf(c, ctx, outputs[i]);
      if x.Some? {
        found := found + [x.value];
      }
    }
    assert outputs[..|outputs|] == outputs;
    var a := new Candidate[|found|](i requires 0 <= i < |found| => found[i]);
    assert a[..] == found;
    MoreUrgentIsOrder();
    Sort(a, MoreUrgent);
    SortedGoesFirst(a[..]);
    assert Arranges(a[..], found);
    candidates := a[..];
    if |candidates| > c.policy.maxUtxosPerRun {
      candidates := candidates[..c.policy.maxUtxosPerRun];
    }
  }

  function Min(x: int, y: int): int {
    if x <= y then x else y
  }

  function LimitByBudget(candidates: seq<Candidate>, amount: int, budget: int): seq<Candidate> {
    if budget <= 0 || amount <= 0 || candidates == [] then candidates
    else if budget / amount <= 0 then []
    else if |candidates| > budget / amount then candidates[..budget / amount]
    else candidates
  }

  /** The number of outputs a run renews. */
  function RunSize(c: Config, eligible: nat): (k: int)
    requires c.policy.maxUtxosPerRun >= 0
  {
    var k := Min(eligible, c.policy.maxUtxosPerRun);
    if c.maxRenewAmountPerRun > 0 && c.amount > 0 then Min(k, c.maxRenewAmountPerRun / c.amount) else k
  }

  /** The outputs chosen are the first so many of the eligible ones in order of urgency. */
  ghost predicate RenewalRun(c: Config, ctx: Context, outputs: seq<Output>, chosen: seq<Candidate>)
    requires c.policy.maxUtxosPerRun >= 0
  {
    exists s :: Arranges(s, Eligible(c, ctx, outputs)) && 0 <= RunSize(c, |s|) <= |s| && chosen == s[..RunSize(c, |s|)]
  }

  lemma LimitIs(c: Config, s: seq<Candidate>)
    requires c.policy.maxUtxosPerRun >= 0
    ensures 0 <= RunSize(c, |s|) <= |s|
    ensures LimitByBudget(s[..Min(|s|, c.policy.maxUtxosPerRun)], c.amount, c.maxRenewAmountPerRun)
            == s[..RunSize(c, |s|)]
  {
    if c.maxRenewAmountPerRun > 0 && c.amount > 0 {
      var k, q := Min(|s|, c.policy.maxUtxosPerRun), c.maxRenewAmountPerRun / c.amount;
      assert q >= 0 && RunSize(c, |s|) == Min(k, q);
      if q < k {
        assert s[..k][..q] == s[..q];
      }
    }
  }

  method SelectForRenewal(c: Config, ctx: Context, outputs: seq<Output>) returns (chosen: seq<Candidate>)
    requires c.policy.maxUtxosPerRun >= 0
    ensures RenewalRun(c, ctx, outputs, chosen)
  {
    var candidates := BuildCandidates(c, ctx, outputs);
    ghost var s :| Arranges(s, Eligible(c, ctx, outputs)) && candidates == s[..Min(|s|, c.policy.maxUtxosPerRun)];
    LimitIs(c, s);
    chosen := LimitByBudget(candidates, c.amount, c.maxRenewAmountPerRun);
  }

  // ---------------------------------------------------------------- what a run achieves

  /** k is the greatest number of outputs that the count, the limit per run and a set budget allow. */
  ghost predicate GreatestAllowed(c: Config, count: nat, k: int) {
    && 1 <= k <= count && k <= c.policy.maxUtxosPerRun
    && (c.maxRenewAmountPerRun > 0 ==> k * c.amount <= c.maxRenewAmountPerRun)
    && (k < count && k < c.policy.maxUtxosPerRun ==>
          c.maxRenewAmountPerRun > 0 && (k + 1) * c.amount > c.maxRenewAmountPerRun)
  }

  /** A validated, enabled run with something eligible renews at least one output and as many as the limits
      allow. */
  lemma RunWithinBudget(c: Config, eligible: nat)
    requires Validate(c).None? && c.policy.enabled && eligible >= 1
    ensures GreatestAllowed(c, eligible, RunSize(c, eligible))
    ensures c.maxRenewAmountPerRun > 0 ==>
      RunSize(c, eligible) == Min(Min(eligible, c.policy.maxUtxosPerRun), c.maxRenewAmountPerRun / c.amount)
    ensures c.maxRenewAmountPerRun == 0 ==> RunSize(c, eligible) == Min(eligible, c.policy.maxUtxosPerRun)
  {
    if c.maxRenewAmountPerRun > 0 {
      var b, a, k := c.maxRenewAmountPerRun, c.amount, RunSize(c, eligible);
      QuotientAtLeastOne(b, a);
      QuotientIsGreatest(b, a);
      ProductWithin(k, b, a);
    }
  }

  lemma QuotientIsGreatest(b: int, a: int)
    requires 0 < a && 0 <= b
    ensures (b / a + 1) * a > b
  {
    assert b == a * (b / a) + b % a;
  }

  lemma QuotientAtLeastOne(b: int, a: int)
    requires 0 < a <= b
    ensures b / a >= 1
  {
    assert b == a * (b / a) + b % a;
  }

  lemma ProductWithin(k: int, b: int, a: int)
    requires 0 < a && 0 <= k <= b / a && 0 <= b
    ensures k * a <= b
  {
    var q := b / a;
    assert b == a * q + b % a;
    assert (q - k) * a >= 0;
  }

  lemma SplitOrder(s: seq<Candidate>, k: nat, x: Candidate, y: Candidate)
    requires forall i, j :: 0 <= i < j < |s| ==> GoesFirst(s[i], s[j])
    requires k <= |s| && x in s[..k] && y in s[k..]
    ensures GoesFirst(x, y)
  {
    var i :| 0 <= i < k && s[..k][i] == x;
    var j :| 0 <= j < |s| - k && s[k..][j] == y;
    assert s[i] == x && s[k + j] == y;
  }

  /** Taking the first k in order of urgency: those taken are in that order, and anything left out has more
      blocks left, or as many and an outpoint text that does not come before. */
  lemma NoneSkippedIsMoreUrgent(s: seq<Candidate>, found: seq<Candidate>, k: nat)
    requires Arranges(s, found) && k <= |s|
    ensures multiset(s[..k]) <= multiset(found)
    ensures forall i, j :: 0 <= i < j < k ==> GoesFirst(s[i], s[j])
    ensures forall x, y :: x in s[..k] && y in multiset(found) - multiset(s[..k]) ==> GoesFirst(x, y)
  {
    assert s == s[..k] + s[k..];
    assert multiset(found) - multiset(s[..k]) == multiset(s[k..]);
    forall x, y | x in s[..k] && y in multiset(s[k..]) ensures GoesFirst(x, y) {
      SplitOrder(s, k, x, y);
    }
  }

  /** An enabled, validated run with something eligible takes as many outputs as the count, the limit per
      run and the budget allow, at least one, in order of urgency; no eligible output it leaves out is
      more urgent than one it takes. */
  lemma RunTakesMostUrgent(c: Config, ctx: Context, outputs: seq<Output>, chosen: seq<Candidate>)
    requires Validate(c).None? && c.policy.enabled && Eligible(c, ctx, outputs) != []
    requires RenewalRun(c, ctx, outputs, chosen)
    ensures GreatestAllowed(c, |Eligible(c, ctx, outputs)|, |chosen|)
    ensures multiset(chosen) <= multiset(Eligible(c, ctx, outputs))
    ensures forall i, j :: 0 <= i < j < |chosen| ==> GoesFirst(chosen[i], chosen[j])
    ensures forall x, y ::
      x in chosen && y in multiset(Eligible(c, ctx, outputs)) - multiset(chosen) ==> GoesFirst(x, y)
  {
    var all := Eligible(c, ctx, outputs);
    var s :| Arranges(s, all) && 0 <= RunSize(c, |s|) <= |s| && chosen == s[..RunSize(c, |s|)];
    SameLength(s, all);
    RunWithinBudget(c, |all|);
    NoneSkippedIsMoreUrgent(s, all, RunSize(c, |all|));
  }

  lemma {:induction false} EligibleConcat(c: Config, ctx: Context, a: seq<Output>, b: seq<Output>)
    ensures Eligible(c, ctx, a + b) == Eligible(c, ctx, a) + Eligible(c, ctx, b)
  {
    if b == [] {
      assert a + b == a;
    } else {
      assert (a + b)[..|a + b| - 1] == a + b[..|b| - 1];
      EligibleConcat(c, ctx, a, b[..|b| - 1]);
    }
  }

  lemma EligibleWithout(c: Config, ctx: Context, outs: seq<Output>, j: nat)
    requires j < |outs|
    ensures multiset(Eligible(c, ctx, outs))
         == multiset(Eligible(c, ctx, Without(outs, j))) + multiset(Eligible(c, ctx, [outs[j]]))
  {
    var a, b := outs[..j], outs[j + 1..];
    SplitAt(outs, j);
    EligibleConcat(c, ctx, a, [outs[j]] + b);
    EligibleConcat(c, ctx, [outs[j]], b);
    EligibleConcat(c, ctx, a, b);
  }

  lemma {:induction false} EligibleOfPermutation(c: Config, ctx: Context, a: seq<Output>, b: seq<Output>)
    requires multiset(a) == multiset(b)
    ensures multiset(Eligible(c, ctx, a)) == multiset(Eligible(c, ctx, b))
    decreases |a|
  {
    SameLength(a, b);
    if a != [] {
      var j := HeadOccurs(b, a);
      MultisetWithout(b, j);
      MultisetWithout(a, 0);
      EligibleOfPermutation(c, ctx, Without(a, 0), Without(b, j));
      EligibleWithout(c, ctx, b, j);
      EligibleWithout(c, ctx, a, 0);
    }
  }

  ghost predicate DistinctOutPoints(outs: seq<Output>) {
    forall o, p :: o in outs && p in outs && o.outPoint == p.outPoint ==> o == p
  }

  /** The eligible outputs are exactly the outputs that are candidates. */
  lemma {:induction false} EligibleFrom(c: Config, ctx: Context, outs: seq<Output>, x: Candidate)
    ensures x in Eligible(c, ctx, outs) <==> exists o :: o in outs && CandidateOf(c, ctx, o) == Some(x)
  {
    if outs != [] {
      var n := |outs| - 1;
      EligibleFrom(c, ctx, outs[..n], x);
      assert outs == outs[..n] + [outs[n]];
    }
  }

  lemma ArrangementsAgree(c: Config, ctx: Context, a: seq<Output>, b: seq<Output>, sa: seq<Candidate>,
                          sb: seq<Candidate>)
    requires multiset(a) == multiset(b) && DistinctOutPoints(a)
    requires Arranges(sa, Eligible(c, ctx, a)) && Arranges(sb, Eligible(c, ctx, b))
    ensures sa == sb
  {
    EligibleOfPermutation(c, ctx, a, b);
    forall x, y | x in sa && y in sa && !MoreUrgent(x, y) && !MoreUrgent(y, x) ensures x == y {
      assert x in multiset(sa) && y in multiset(sa);
      TextLessTotal(x.outPoint, y.outPoint);
      EligibleFrom(c, ctx, a, x);
      EligibleFrom(c, ctx, a, y);
    }
    SortedGoesFirst(sa);
    SortedGoesFirst(sb);
    SortedIsUnique(sa, sb, MoreUrgent);
  }

  /** What a run chooses does not depend on the order in which the unspent outputs arrive. */
  lemma OrderIndependent(c: Config, ctx: Context, a: seq<Output>, b: seq<Output>, ca: seq<Candidate>,
                         cb: seq<Candidate>)
    requires c.policy.maxUtxosPerRun >= 0
    requires multiset(a) == multiset(b) && DistinctOutPoints(a)
    requires RenewalRun(c, ctx, a, ca) && RenewalRun(c, ctx, b, cb)
    ensures ca == cb
  {
    var sa :| Arranges(sa, Eligible(c, ctx, a)) && 0 <= RunSize(c, |sa|) <= |sa| && ca == sa[..RunSize(c, |sa|)];
    var sb :| Arranges(sb, Eligible(c, ctx, b)) && 0 <= RunSize(c, |sb|) <= |sb| && cb == sb[..RunSize(c, |sb|)];
    ArrangementsAgree(c, ctx, a, b, sa, sb);
  }
}
