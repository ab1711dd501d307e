/**
 Largest-first coin selection (wallet/createtx.go): coins are sorted by descending value, and an
 input source hands out ever longer prefixes of them as it is asked for larger targets.
 */
module CoinSelection {
  import opened Sorting
  import opened Wire

  datatype Coin = Coin(outPoint: OutPoint, value: int, script: nat)

  function Sum(coins: seq<Coin>): int {
    if coins == [] then 0 else Sum(coins[..|coins| - 1]) + coins[|coins| - 1].value
  }

  ghost predicate NonNegative(coins: seq<Coin>) {
    forall c :: c in coins ==> c.value >= 0
  }

  predicate LargerFirst(x: Coin, y: Coin) {
    y.value < x.value
  }

  /** Sorts the coins in place, largest value first. */
  method ArrangeCoins(eligible: array<Coin>)
    modifies eligible
    ensures Sorted(eligible[..], LargerFirst)
    ensures forall i, j :: 0 <= i < j < eligible.Length ==> eligible[i].value >= eligible[j].value
    ensures multiset(eligible[..]) == multiset(old(eligible[..]))
  {
    Sort(eligible, LargerFirst);
    forall i, j | 0 <= i < j < eligible.Length ensures eligible[i].value >= eligible[j].value {
      assert !LargerFirst(eligible[..][j], eligible[..][i]);
    }
  }

  // ---------------------------------------------------------------- the input source

  /** Starting from k coins, the number of coins after a call with the given target. */
  function Advance(coins: seq<Coin>, k: nat, target: int): (r: nat)
    requires k <= |coins|
    ensures k <= r <= |coins|
    decreases |coins| - k
  {
    if Sum(coins[..k]) < target && k < |coins| then Advance(coins, k + 1, target) else k
  }

  /** The number of coins after a whole sequence of calls. */
  function Taken(coins: seq<Coin>, targets: seq<int>): (r: nat)
    ensures r <= |coins|
  {
    if targets == [] then 0 else Advance(coins, Taken(coins, targets[..|targets| - 1]), targets[|targets| - 1])
  }

  function OutPoints(coins: seq<Coin>): seq<OutPoint> {
    seq(|coins|, i requires 0 <= i < |coins| => coins[i].outPoint)
  }

  function Values(coins: seq<Coin>): seq<int> {
    seq(|coins|, i requires 0 <= i < |coins| => coins[i].value)
  }

  function Scripts(coins: seq<Coin>): seq<nat> {
    seq(|coins|, i requires 0 <= i < |coins| => coins[i].script)
  }

  class InputSource {
    var eligible: seq<Coin>
    var currentTotal: int
    var currentInputs: seq<OutPoint>
    var currentScripts: seq<nat>
    var currentInputValues: seq<int>
    ghost const coins: seq<Coin>
    ghost var asked: seq<int>

    /** The accumulators describe the first k coins. */
    ghost predicate Holds(k: nat)
      reads this
    {
      && k <= |coins|
      && eligible == coins[k..]
      && currentTotal == Sum(coins[..k])
      && currentInputs == OutPoints(coins[..k])
      && currentScripts == Scripts(coins[..k])
      && currentInputValues == Values(coins[..k])
    }

    ghost predicate Valid()
      reads this
    {
      Holds(Taken(coins, asked))
    }

    constructor (coins: seq<Coin>)
      ensures Valid() && this.coins == coins && asked == []
    {
      eligible, currentTotal, currentInputs, currentScripts, currentInputValues := coins, 0, [], [], [];
      this.coins, asked := coins, [];
    }

    method Call(target: int) returns (total: int, inputs: seq<OutPoint>, values: seq<int>, scripts: seq<nat>)
      requires Valid()
      modifies this
      ensures Valid() && asked == old(asked) + [target]
      ensures var chosen := coins[..Taken(coins, asked)];
              && total == Sum(chosen) && inputs == OutPoints(chosen)
              && values == Values(chosen) && scripts == Scripts(chosen)
              && |inputs| == |chosen| && |values| == |chosen| && |scripts| == |chosen|
              && forall i :: 0 <= i < |chosen| ==>
                   inputs[i] == chosen[i].outPoint && values[i] == chosen[i].value && scripts[i] == chosen[i].script
    {
      ghost var k: nat := Taken(coins, asked);
      ghost var goal := Advance(coins, k, target);
      while currentTotal < target && |eligible| != 0
        invariant Holds(k) && Advance(coins, k, target) == goal && asked == old(asked)
        decreases |eligible|
      {
        var nextCredit := eligible[0];
        eligible := eligible[1..];
        TakeStep(coins, k);
        currentTotal := currentTotal + nextCredit.value;
        currentInputs := currentInputs + [nextCredit.outPoint];
        currentScripts := currentScripts + [nextCredit.script];
        currentInputValues := currentInputValues + [nextCredit.value];
        k := k + 1;
      }
      assert (asked + [target])[..|asked|] == asked;
      asked := asked + [target];
      total, inputs, values, scripts := currentTotal, currentInputs, currentInputValues, currentScripts;
    }
  }

  lemma TakeStep(coins: seq<Coin>, k: nat)
    requires k < |coins|
    ensures coins[k..][0] == coins[k] && coins[k..][1..] == coins[k + 1..]
    ensures Sum(coins[..k + 1]) == Sum(coins[..k]) + coins[k].value
    ensures OutPoints(coins[..k + 1]) == OutPoints(coins[..k]) + [coins[k].outPoint]
    ensures Values(coins[..k + 1]) == Values(coins[..k]) + [coins[k].value]
    ensures Scripts(coins[..k + 1]) == Scripts(coins[..k]) + [coins[k].script]
  {
    assert coins[..k + 1][..k] == coins[..k];
  }

  // ---------------------------------------------------------------- the shortest prefix

  /** The greatest target asked so far, counting an implicit zero. */
  function Greatest(targets: seq<int>): int {
    if targets == [] then 0
    else
      var g, t := Greatest(targets[..|targets| - 1]), targets[|targets| - 1];
      if t > g then t else g
  }

  /** k is the least number of leading coins that reaches the target, or all of them if none does. */
  ghost predicate ShortestPrefix(coins: seq<Coin>, target: int, k: nat) {
    && k <= |coins|
    && (k == |coins| || Sum(coins[..k]) >= target)
    && forall j :: 0 <= j < k ==> Sum(coins[..j]) < target
  }

  lemma {:induction false} PrefixSumsGrow(coins: seq<Coin>, i: nat, j: nat)
    requires NonNegative(coins) && i <= j <= |coins|
    ensures Sum(coins[..i]) <= Sum(coins[..j])
    decreases j
  {
    if i < j {
      PrefixSumsGrow(coins, i, j - 1);
      TakeStep(coins, j - 1);
      assert coins[j - 1] in coins;
    }
  }

  lemma {:induction false} AdvanceStops(coins: seq<Coin>, k: nat, target: int)
    requires k <= |coins|
    ensures var r := Advance(coins, k, target);
            && (r == |coins| || Sum(coins[..r]) >= target)
            && (forall j :: k <= j < r ==> Sum(coins[..j]) < target)
    decreases |coins| - k
  {
    if Sum(coins[..k]) < target && k < |coins| {
      AdvanceStops(coins, k + 1, target);
    }
  }

  /** After any sequence of calls with any targets, the coins handed out are the shortest prefix
      reaching the greatest target so far, or all coins. */
  lemma {:induction false} TakenIsShortest(coins: seq<Coin>, targets: seq<int>)
    requires NonNegative(coins)
    ensures ShortestPrefix(coins, Greatest(targets), Taken(coins, targets))
  {
    if targets != [] {
      var n := |targets| - 1;
      var k, g, t := Taken(coins, targets[..n]), Greatest(targets[..n]), targets[n];
      TakenIsShortest(coins, targets[..n]);
      AdvanceStops(coins, k, t);
      var r := Taken(coins, targets);
      PrefixSumsGrow(coins, k, r);
      forall j | 0 <= j < r ensures Sum(coins[..j]) < Greatest(targets) {
        if j >= k {
          assert Sum(coins[..j]) < t;
        }
      }
    }
  }

  // ---------------------------------------------------------------- no fewer coins suffice

  lemma {:induction false} SumSplit(a: seq<Coin>, b: seq<Coin>)
    ensures Sum(a + b) == Sum(a) + Sum(b)
  {
    if b == [] {
      assert a + b == a;
    } else {
      assert (a + b)[..|a + b| - 1] == a + b[..|b| - 1];
      SumSplit(a, b[..|b| - 1]);
    }
  }

  /** The greatest target is at least zero and at least every target, and is one of these. */
  lemma {:induction false} GreatestMeans(targets: seq<int>)
    ensures Greatest(targets) >= 0 && forall t :: t in targets ==> t <= Greatest(targets)
    ensures Greatest(targets) == 0 || Greatest(targets) in targets
  {
    if targets != [] {
      var front := targets[..|targets| - 1];
      GreatestMeans(front);
      assert targets == front + [targets[|targets| - 1]];
    }
  }

  lemma SumOne(c: Coin)
    ensures Sum([c]) == c.value
  {
    assert [c][..0] == [];
  }

  lemma SumWithout(s: seq<Coin>, i: nat)
    requires i < |s|
    ensures Sum(s) == s[i].value + Sum(Without(s, i))
  {
    var a, b := s[..i], s[i + 1..];
    SplitAt(s, i);
    SumSplit(a, [s[i]] + b);
    SumSplit([s[i]], b);
    SumSplit(a, b);
    SumOne(s[i]);
  }

  /** In descending order, dropping the first coin does not raise a prefix sum. */
  lemma {:induction false} ShiftLowers(coins: seq<Coin>, m: nat)
    requires Sorted(coins, LargerFirst) && m < |coins|
    ensures Sum(coins[1..][..m]) <= Sum(coins[..m])
    decreases m
  {
    if m > 0 {
      ShiftLowers(coins, m - 1);
      TakeStep(coins[1..], m - 1);
      TakeStep(coins, m - 1);
      assert !LargerFirst(coins[m], coins[m - 1]);
    }
  }

  lemma PrefixSplit(coins: seq<Coin>, m: nat)
    requires 0 < m <= |coins|
    ensures Sum(coins[..m]) == coins[0].value + Sum(coins[1..][..m - 1])
  {
    assert coins[..m] == [coins[0]] + coins[1..][..m - 1];
    SumSplit([coins[0]], coins[1..][..m - 1]);
    SumOne(coins[0]);
  }

  /** Any pick of coins is worth at most as many coins taken from the front. */
  lemma {:induction false} PrefixIsBest(coins: seq<Coin>, pick: seq<Coin>)
    requires Sorted(coins, LargerFirst) && multiset(pick) <= multiset(coins)
    ensures |pick| <= |coins| && Sum(pick) <= Sum(coins[..|pick|])
    decreases |coins|
  {
    PickFits(pick, coins);
    if pick != [] {
      if i :| 0 <= i < |pick| && pick[i] == coins[0] {
        PickWithHead(coins, pick, i);
        SumWithout(pick, i);
        PrefixIsBest(coins[1..], Without(pick, i));
        PrefixSplit(coins, |pick|);
      } else {
        PickWithoutHead(coins, pick);
        PrefixIsBest(coins[1..], pick);
        ShiftLowers(coins, |pick|);
      }
    }
  }

  lemma PickWithHead(coins: seq<Coin>, pick: seq<Coin>, i: nat)
    requires multiset(pick) <= multiset(coins) && coins != [] && i < |pick| && pick[i] == coins[0]
    ensures multiset(Without(pick, i)) <= multiset(coins[1..]) && |Without(pick, i)| == |pick| - 1
  {
    MultisetWithout(pick, i);
    TailMultiset(coins);
  }

  lemma PickWithoutHead(coins: seq<Coin>, pick: seq<Coin>)
    requires multiset(pick) <= multiset(coins) && coins != [] && coins[0] !in pick
    ensures multiset(pick) <= multiset(coins[1..])
  {
    TailMultiset(coins);
    assert coins[0] !in multiset(pick);
  }

  lemma PickFits(pick: seq<Coin>, coins: seq<Coin>)
    requires multiset(pick) <= multiset(coins)
    ensures |pick| <= |coins|
  {
    assert multiset(coins) == multiset(pick) + (multiset(coins) - multiset(pick));
    assert |multiset(pick)| == |pick| && |multiset(coins)| == |coins|;
  }

  /** Largest-first is optimal: once coins of non-negative value are arranged, after any sequence of
      calls no pick of fewer eligible coins reaches the greatest target asked for. */
  lemma NoFewerCoinsReach(eligible: seq<Coin>, arranged: seq<Coin>, targets: seq<int>, pick: seq<Coin>)
    requires NonNegative(eligible)
    requires Sorted(arranged, LargerFirst) && multiset(arranged) == multiset(eligible)
    requires multiset(pick) <= multiset(eligible) && |pick| < Taken(arranged, targets)
    ensures Sum(pick) < Greatest(targets)
  {
    forall c | c in arranged ensures c.value >= 0 {
      assert c in multiset(eligible);
    }
    TakenIsShortest(arranged, targets);
    PrefixIsBest(arranged, pick);
  }
}
