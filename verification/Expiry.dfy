/**
 Output expiry (wallet/expiry.go).  Heights are int32 and every int32 operation wraps as in the
 source.
 */
module Expiry {
  import opened Wrappers

  const MAX_INT32 := 0x7FFF_FFFF
  const MIN_INT32 := -0x8000_0000
  const MAX_UINT32 := 0xFFFF_FFFF

  type int32 = x: int | MIN_INT32 <= x <= MAX_INT32

  /** Two's complement truncation to 32 bits. */
  function Wrap32(x: int): (r: int32)
    ensures MIN_INT32 <= x <= MAX_INT32 ==> r == x
  {
    (x + 0x8000_0000) % 0x1_0000_0000 - 0x8000_0000
  }

  datatype Status = StatusOk | StatusExpiring | StatusExpired
  datatype Risk = RiskOk | RiskNearExpiry | RiskTooLateNextBlock | RiskExpired
  datatype ExpiryError = InvalidCreateHeight | WindowTooLarge | HeightOverflow | NegativeAmount

  datatype RenewalRisk = RenewalRisk(
    warningBlocks: int32,
    latestRenewHeight: int32,
    blocksUntilLatestRenew: int32,
    renewableInNextBlock: bool,
    nearExpiryWarning: bool,
    risk: Risk)

  datatype ExpiryInfo = ExpiryInfo(
    createHeight: int32,
    expiryHeight: int32,
    blocksToExpiry: int32,
    daysToExpiry: int32,
    status: Status,
    dustRisk: bool,
    renewal: RenewalRisk)

  function CalculateExpiryHeight(createHeight: int32, windowBlocks: nat): Result<int32, ExpiryError> {
    if createHeight < 0 then Err(InvalidCreateHeight)
    else if windowBlocks > MAX_UINT32 then Err(WindowTooLarge)
    else
      var expiry := createHeight + windowBlocks;
      if expiry > MAX_UINT32 then Err(HeightOverflow) else Ok(Wrap32(expiry))
  }

  function ClassifyExpiryStatus(tip: int32, expiry: int32, thresholdBlocks: int32): Status {
    if tip >= expiry then StatusExpired
    else
      var threshold := if thresholdBlocks < 0 then 0 else thresholdBlocks;
      if Wrap32(expiry - tip) <= threshold then StatusExpiring else StatusOk
  }

  function EstimateDaysToExpiry(blocksToExpiry: int32): int32 {
    if blocksToExpiry <= 0 then 0 else blocksToExpiry / 144
  }

  function EvaluateRenewalRisk(tip: int32, expiry: int32, warning: int32): RenewalRisk {
    var w: int32 := if warning < 0 then 0 else warning;
    var latest: int32 := if expiry == MIN_INT32 then expiry else expiry - 1;
    var until := Wrap32(latest - tip);
    var untilLatest: int32 := if until < 0 then 0 else until;
    var next: int32 := if tip == MAX_INT32 then tip else tip + 1;
    if tip >= expiry then RenewalRisk(w, latest, untilLatest, false, false, RiskExpired)
    else if next >= expiry then RenewalRisk(w, latest, untilLatest, false, true, RiskTooLateNextBlock)
    else if Wrap32(expiry - tip) <= w then RenewalRisk(w, latest, untilLatest, true, true, RiskNearExpiry)
    else RenewalRisk(w, latest, untilLatest, true, false, RiskOk)
  }

  function BuildExpiryInfo(createHeight: int32, tip: int32, windowBlocks: nat, threshold: int32, warning: int32,
                           amount: int, projectedReclaim: int, dustThreshold: int): Result<ExpiryInfo, ExpiryError> {
    match CalculateExpiryHeight(createHeight, windowBlocks)
    case Err(e) => Err(e)
    case Ok(expiry) =>
      var status := ClassifyExpiryStatus(tip, expiry, threshold);
      var blocksToExpiry := if status == StatusExpired then 0 else Wrap32(expiry - tip);
      if amount < 0 || projectedReclaim < 0 || dustThreshold < 0 then Err(NegativeAmount)
      else Ok(ExpiryInfo(createHeight, expiry, blocksToExpiry, EstimateDaysToExpiry(blocksToExpiry), status,
                         projectedReclaim < dustThreshold, EvaluateRenewalRisk(tip, expiry, warning)))
  }

  /** The chain's expiry parameters; the expiry key of an output is its creation height plus the window. */
  datatype ChainExpiry = ChainExpiry(enableAtHeight: int32, windowBlocks: nat)

  predicate IsExpiredForSpending(params: Option<ChainExpiry>, createHeight: int32, tip: int32) {
    && createHeight >= 0
    && params.Some?
    && var spendHeight := if tip == MAX_INT32 then tip else tip + 1;
       && spendHeight >= params.value.enableAtHeight
       && spendHeight >= Wrap32(createHeight + params.value.windowBlocks)
  }

  // ---------------------------------------------------------------- properties

  function StatusRank(s: Status): nat {
    match s case StatusOk => 0 case StatusExpiring => 1 case StatusExpired => 2
  }

  function RiskRank(r: Risk): nat {
    match r case RiskOk => 0 case RiskNearExpiry => 1 case RiskTooLateNextBlock => 2 case RiskExpired => 3
  }

  /** An accepted expiry height is the true sum if and only if the sum fits int32; otherwise it is
      negative and the output counts as expired at every tip. */
  lemma ExpiryHeightExact(createHeight: int32, windowBlocks: nat)
    requires createHeight >= 0 && createHeight + windowBlocks <= MAX_UINT32
    ensures var e := CalculateExpiryHeight(createHeight, windowBlocks);
            && e.Ok?
            && (e.value == createHeight + windowBlocks <==> createHeight + windowBlocks <= MAX_INT32)
            && (createHeight + windowBlocks > MAX_INT32 ==>
                  && e.value < 0
                  && forall tip: int32, t: int32 ::
                       tip >= 0 ==> ClassifyExpiryStatus(tip, e.value, t) == StatusExpired)
  {
    var sum := createHeight + windowBlocks;
    if sum > MAX_INT32 {
      assert (sum + 0x8000_0000) % 0x1_0000_0000 == sum - 0x8000_0000;
    }
  }

  /** As the tip grows, the status moves only from ok to expiring to expired and the risk only forward
      to expired. */
  lemma StatesMoveForward(tip: int32, later: int32, expiry: int32, threshold: int32, warning: int32)
    requires 0 <= tip <= later
    ensures StatusRank(ClassifyExpiryStatus(tip, expiry, threshold))
         <= StatusRank(ClassifyExpiryStatus(later, expiry, threshold))
    ensures RiskRank(EvaluateRenewalRisk(tip, expiry, warning).risk)
         <= RiskRank(EvaluateRenewalRisk(later, expiry, warning).risk)
  {
    if later < expiry {
      assert Wrap32(expiry - tip) == expiry - tip && Wrap32(expiry - later) == expiry - later;
    }
  }

  /** Below the expiry height an output is expiring exactly when at most the threshold of blocks is left (at
      most 0, so never, for a negative threshold). */
  lemma StatusMeans(tip: int32, expiry: int32, threshold: int32)
    requires tip >= 0
    ensures ClassifyExpiryStatus(tip, expiry, threshold) ==
              if expiry <= tip then StatusExpired
              else if expiry - tip <= threshold then StatusExpiring
              else StatusOk
  {
  }

  /** The renewal view: the last height at which a renewal can be included is one below the expiry height;
      the risk is expired from the expiry height on, too late one block earlier, near expiry while at most the
      warning number of blocks is left, and ok before that. */
  lemma RiskMeans(tip: int32, expiry: int32, warning: int32)
    requires tip >= 0 && expiry >= 0
    ensures var r := EvaluateRenewalRisk(tip, expiry, warning);
            && r.warningBlocks == (if warning < 0 then 0 else warning)
            && r.latestRenewHeight == expiry - 1
            && r.blocksUntilLatestRenew == (if tip >= expiry then 0 else expiry - 1 - tip)
            && (r.renewableInNextBlock <==> tip + 1 < expiry)
            && (r.nearExpiryWarning <==> tip + 1 == expiry || (tip + 1 < expiry && expiry - tip <= warning))
            && r.risk == (if tip >= expiry then RiskExpired
                          else if tip + 1 == expiry then RiskTooLateNextBlock
                          else if expiry - tip <= warning then RiskNearExpiry
                          else RiskOk)
  {
  }

  /** The whole view of an output, and exactly when there is none. */
  lemma InfoMeans(createHeight: int32, tip: int32, windowBlocks: nat, threshold: int32, warning: int32,
                  amount: int, reclaim: int, dust: int)
    requires tip >= 0
    ensures var r := BuildExpiryInfo(createHeight, tip, windowBlocks, threshold, warning, amount, reclaim, dust);
            && (r == Err(InvalidCreateHeight) <==> createHeight < 0)
            && (r == Err(WindowTooLarge) <==> createHeight >= 0 && windowBlocks > 0xFFFF_FFFF)
            && (r == Err(HeightOverflow)
                <==> createHeight >= 0 && windowBlocks <= 0xFFFF_FFFF && createHeight + windowBlocks > 0xFFFF_FFFF)
            && (r == Err(NegativeAmount)
                <==> createHeight >= 0 && createHeight + windowBlocks <= 0xFFFF_FFFF
                     && (amount < 0 || reclaim < 0 || dust < 0))
            && (r.Ok? && createHeight + windowBlocks <= MAX_INT32 ==>
                  var expiry := createHeight + windowBlocks;
                  var left := if tip >= expiry then 0 else expiry - tip;
                  && r.value.createHeight == createHeight && r.value.expiryHeight == expiry
                  && r.value.blocksToExpiry == left && r.value.daysToExpiry == left / 144
                  && r.value.status == ClassifyExpiryStatus(tip, expiry, threshold)
                  && (r.value.dustRisk <==> reclaim < dust)
                  && r.value.renewal == EvaluateRenewalRisk(tip, expiry, warning))
  {
  }

  /** An output is barred exactly when it is confirmed, the chain has expiry rules, they are active at the next
      height, and the next height has reached creation plus window. */
  lemma BarredMeans(params: Option<ChainExpiry>, createHeight: int32, tip: int32)
    requires 0 <= tip < MAX_INT32
    requires params.Some? && createHeight >= 0 ==> createHeight + params.value.windowBlocks <= MAX_INT32
    ensures IsExpiredForSpending(params, createHeight, tip)
       <==> createHeight >= 0 && params.Some? && tip + 1 >= params.value.enableAtHeight
            && tip + 1 >= createHeight + params.value.windowBlocks
  {
  }

  /** For non-negative heights whose sum fits int32: the status, the risk and BlocksToExpiry agree on
      expiry, and BlocksToExpiry counts down to it. */
  lemma ExpiredTogether(createHeight: int32, tip: int32, windowBlocks: nat, threshold: int32, warning: int32,
                        amount: int, reclaim: int, dust: int)
    requires createHeight >= 0 && tip >= 0 && createHeight + windowBlocks <= MAX_INT32
    requires amount >= 0 && reclaim >= 0 && dust >= 0
    ensures var r := BuildExpiryInfo(createHeight, tip, windowBlocks, threshold, warning, amount, reclaim, dust);
            && r.Ok?
            && (r.value.status == StatusExpired <==> r.value.blocksToExpiry == 0)
            && (r.value.renewal.risk == RiskExpired <==> r.value.blocksToExpiry == 0)
            && r.value.blocksToExpiry ==
                 if tip >= createHeight + windowBlocks then 0 else createHeight + windowBlocks - tip
  {
    ExpiryHeightExact(createHeight, windowBlocks);
  }

  /** Once expiry is active, with the chain's own window, an output is barred from spending exactly
      when a renewal can no longer be included in the next block. */
  lemma BarredIffNotRenewable(params: ChainExpiry, createHeight: int32, tip: int32, warning: int32)
    requires createHeight >= 0 && tip >= 0 && createHeight + params.windowBlocks <= MAX_INT32
    requires (if tip == MAX_INT32 then tip else tip + 1) >= params.enableAtHeight
    ensures var e := CalculateExpiryHeight(createHeight, params.windowBlocks);
            && e.Ok?
            && (IsExpiredForSpending(Some(params), createHeight, tip)
                <==> !EvaluateRenewalRisk(tip, e.value, warning).renewableInNextBlock)
  {
    ExpiryHeightExact(createHeight, params.windowBlocks);
  }
}
