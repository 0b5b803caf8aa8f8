/** Budget state of one agent and its cost accounting (orchestra/budget.py). */
module Budget {
  import opened Wrappers

  /** Token counts reported with one model response. */
  datatype Usage = Usage(tokensIn: nat, tokensOut: nat, tokensCached: nat, total: nat)

  datatype Limits = Limits(maxTokens: int, maxSteps: nat, maxWall: Option<real>, maxContext: Option<int>,
                           cacheDiscount: real)

  /** The fields of a budget state, as a value. */
  datatype Account = Account(
    limits: Limits, tokensUsed: nat, tokensIn: nat, tokensOut: nat, tokensCached: nat,
    stepsUsed: nat, cumulativePaid: int, prevStepPaid: int)

  function Opened(limits: Limits): Account { Account(limits, 0, 0, 0, 0, 0, 0, 0) }

  /** Python's `int()` on a float: truncation towards zero. */
  function Truncate(x: real): int { if x >= 0.0 then x.Floor else -((-x).Floor) }

  /** The paid cost of one call: uncached input, discounted cached input, output. */
  function StepPaid(u: Usage, discount: real): int {
    (if u.tokensIn > u.tokensCached then u.tokensIn - u.tokensCached else 0)
    + Truncate(u.tokensCached as real * discount) + u.tokensOut
  }

  function Delta(prev: int, paid: int): int { if paid - prev < 0 then paid else paid - prev }

  function Charged(a: Account, u: Usage): Account {
    var paid := StepPaid(u, a.limits.cacheDiscount);
    a.(tokensUsed := u.total, tokensIn := u.tokensIn, tokensOut := u.tokensOut, tokensCached := u.tokensCached,
       cumulativePaid := a.cumulativePaid + Delta(a.prevStepPaid, paid), prevStepPaid := paid)
  }

  function AtMostOne(x: real): real { if x < 1.0 then x else 1.0 }

  function TokenRatio(a: Account): real {
    if a.limits.maxTokens <= 0 then 0.0 else AtMostOne(a.cumulativePaid as real / a.limits.maxTokens as real)
  }

  function StepRatio(a: Account): real {
    if a.limits.maxSteps == 0 then 0.0 else AtMostOne(a.stepsUsed as real / a.limits.maxSteps as real)
  }

  /** `elapsed` is the wall clock read at that moment. */
  function WallRatio(a: Account, elapsed: real): Option<real> {
    if a.limits.maxWall.None? || a.limits.maxWall.value <= 0.0 then None
    else Some(AtMostOne(elapsed / a.limits.maxWall.value))
  }

  function ContextRatio(a: Account): Option<real> {
    if a.limits.maxContext.None? || a.limits.maxContext.value <= 0 then None
    else if a.tokensIn == 0 then Some(0.0)
    else Some(AtMostOne(a.tokensIn as real / a.limits.maxContext.value as real))
  }

  function Larger(x: real, y: Option<real>): real { if y.Some? && y.value > x then y.value else x }

  function MaxRatio(a: Account, elapsed: real): real {
    Larger(Larger(Larger(TokenRatio(a), Some(StepRatio(a))), WallRatio(a, elapsed)), ContextRatio(a))
  }

  predicate Exhausted(a: Account, elapsed: real) { MaxRatio(a, elapsed) >= 1.0 }

  class BudgetState {
    const limits: Limits
    var tokensUsed: nat
    var tokensIn: nat
    var tokensOut: nat
    var tokensCached: nat
    var stepsUsed: nat
    var cumulativePaid: int
    var prevStepPaid: int

    constructor (limits: Limits)
      ensures Value() == Opened(limits)
    {
      this.limits := limits;
      tokensUsed, tokensIn, tokensOut, tokensCached, stepsUsed := 0, 0, 0, 0, 0;
      cumulativePaid, prevStepPaid := 0, 0;
    }

    function Value(): Account
      reads this
    {
      Account(limits, tokensUsed, tokensIn, tokensOut, tokensCached, stepsUsed, cumulativePaid, prevStepPaid)
    }

    method UpdateTokens(u: Usage)
      modifies this
      ensures Value() == Charged(old(Value()), u)
    {
      tokensUsed := u.total;
      tokensIn := u.tokensIn;
      tokensOut := u.tokensOut;
      tokensCached := u.tokensCached;
      var currentStepPaid := StepPaid(u, limits.cacheDiscount);
      var delta := currentStepPaid - prevStepPaid;
      if delta < 0 {
        delta := currentStepPaid;
      }
      cumulativePaid := cumulativePaid + delta;
      prevStepPaid := currentStepPaid;
    }

    method SetStepsUsed(steps: nat)
      modifies this
      ensures Value() == old(Value()).(stepsUsed := steps)
    {
      stepsUsed := steps;
    }
  }

  // ------------------------------------------------- what the ratios compare

  lemma QuotientAtLeast(x: real, y: real, bound: real)
    requires y > 0.0
    ensures x / y >= bound <==> x >= bound * y
  {
    var r := x / y;
    assert r * y == x;
    if r >= bound {
      assert (r - bound) * y >= 0.0;
    } else {
      assert (bound - r) * y > 0.0;
    }
  }

  /** A share of a limit, if there is one, is used up. */
  predicate UsedUp(used: real, limit: Option<real>, share: real) {
    limit.Some? && limit.value > 0.0 && used >= share * limit.value
  }

  function AsReal(limit: Option<int>): Option<real> {
    match limit case None => None case Some(x) => Some(x as real)
  }

  lemma CappedRatio(used: real, limit: real, share: real)
    requires limit > 0.0 && share <= 1.0
    ensures AtMostOne(used / limit) >= share <==> used >= share * limit
  {
    QuotientAtLeast(used, limit, share);
  }

  lemma TokensReach(a: Account, share: real)
    requires 0.0 < share <= 1.0
    ensures TokenRatio(a) >= share <==> UsedUp(a.cumulativePaid as real, Some(a.limits.maxTokens as real), share)
  {
    if a.limits.maxTokens > 0 {
      CappedRatio(a.cumulativePaid as real, a.limits.maxTokens as real, share);
    }
  }

  lemma StepsReach(a: Account, share: real)
    requires 0.0 < share <= 1.0
    ensures StepRatio(a) >= share <==> UsedUp(a.stepsUsed as real, Some(a.limits.maxSteps as real), share)
  {
    if a.limits.maxSteps > 0 {
      CappedRatio(a.stepsUsed as real, a.limits.maxSteps as real, share);
    }
  }

  lemma WallReaches(a: Account, elapsed: real, share: real)
    requires 0.0 < share <= 1.0
    ensures WallRatio(a, elapsed).Some? && WallRatio(a, elapsed).value >= share
            <==> UsedUp(elapsed, a.limits.maxWall, share)
  {
    if a.limits.maxWall.Some? && a.limits.maxWall.value > 0.0 {
      CappedRatio(elapsed, a.limits.maxWall.value, share);
    }
  }

  lemma ContextReaches(a: Account, share: real)
    requires 0.0 < share <= 1.0
    ensures ContextRatio(a).Some? && ContextRatio(a).value >= share
            <==> UsedUp(a.tokensIn as real, AsReal(a.limits.maxContext), share)
  {
    if a.limits.maxContext.Some? && a.limits.maxContext.value > 0 {
      CappedRatio(a.tokensIn as real, a.limits.maxContext.value as real, share);
      assert share * a.limits.maxContext.value as real > 0.0;
    }
  }

  /** Each ratio reaches a share exactly when that share of its limit is used:
      of the paid tokens, the steps, the wall clock and the input tokens of the
      last call. An axis without a positive limit reaches none. */
  lemma RatioReaches(a: Account, elapsed: real, share: real)
    requires 0.0 < share <= 1.0
    ensures TokenRatio(a) >= share <==> UsedUp(a.cumulativePaid as real, Some(a.limits.maxTokens as real), share)
    ensures StepRatio(a) >= share <==> UsedUp(a.stepsUsed as real, Some(a.limits.maxSteps as real), share)
    ensures WallRatio(a, elapsed).Some? && WallRatio(a, elapsed).value >= share
            <==> UsedUp(elapsed, a.limits.maxWall, share)
    ensures ContextRatio(a).Some? && ContextRatio(a).value >= share
            <==> UsedUp(a.tokensIn as real, AsReal(a.limits.maxContext), share)
  {
    hide TokenRatio, StepRatio, WallRatio, ContextRatio, UsedUp, AsReal;
    TokensReach(a, share);
    StepsReach(a, share);
    WallReaches(a, elapsed, share);
    ContextReaches(a, share);
  }

  /** The largest ratio reaches a share exactly when some axis has used it up;
      with share 1 that is exhaustion. */
  lemma MaxReaches(a: Account, elapsed: real, share: real)
    requires 0.0 < share <= 1.0
    ensures MaxRatio(a, elapsed) >= share <==>
      || UsedUp(a.cumulativePaid as real, Some(a.limits.maxTokens as real), share)
      || UsedUp(a.stepsUsed as real, Some(a.limits.maxSteps as real), share)
      || UsedUp(elapsed, a.limits.maxWall, share)
      || UsedUp(a.tokensIn as real, AsReal(a.limits.maxContext), share)
  {
    hide TokenRatio, StepRatio, WallRatio, ContextRatio, UsedUp;
    RatioReaches(a, elapsed, share);
  }

  lemma ExhaustedIff(a: Account, elapsed: real)
    ensures Exhausted(a, elapsed) <==>
      || (a.limits.maxTokens > 0 && a.cumulativePaid >= a.limits.maxTokens)
      || (a.limits.maxSteps > 0 && a.stepsUsed >= a.limits.maxSteps)
      || (a.limits.maxWall.Some? && 0.0 < a.limits.maxWall.value <= elapsed)
      || (a.limits.maxContext.Some? && a.limits.maxContext.value > 0 && a.tokensIn >= a.limits.maxContext.value)
  {
    MaxReaches(a, elapsed, 1.0);
  }

  // ------------------------------------------------------------ cost accounting

  function ChargedAll(a: Account, us: seq<Usage>): Account {
    if us == [] then a else Charged(ChargedAll(a, us[..|us| - 1]), us[|us| - 1])
  }

  function Costs(us: seq<Usage>, discount: real): seq<int> {
    seq(|us|, i requires 0 <= i < |us| => StepPaid(us[i], discount))
  }

  /** Step `i` ends a maximal stretch of non-decreasing cost. */
  predicate EndsStretch(costs: seq<int>, i: nat)
    requires i < |costs|
  {
    i == |costs| - 1 || costs[i + 1] < costs[i]
  }

  /** The sum of the costs that end a stretch, among the first `n` steps. */
  function PeakSum(costs: seq<int>, n: nat): int
    requires n <= |costs|
  {
    if n == 0 then 0 else PeakSum(costs, n - 1) + if EndsStretch(costs, n - 1) then costs[n - 1] else 0
  }

  function Sum(costs: seq<int>): int {
    if costs == [] then 0 else Sum(costs[..|costs| - 1]) + costs[|costs| - 1]
  }

  lemma {:induction false} PeakSumPrefix(costs: seq<int>, more: seq<int>, n: nat)
    requires n < |costs| && costs <= more
    ensures PeakSum(more, n) == PeakSum(costs, n)
  {
    if n > 0 {
      PeakSumPrefix(costs, more, n - 1);
    }
  }

  /** The paid total is the sum of the last costs of the maximal non-decreasing stretches. */
  lemma {:induction false} PaidIsPeaks(a: Account, us: seq<Usage>)
    requires a.cumulativePaid == 0 && a.prevStepPaid == 0
    requires us != [] ==> StepPaid(us[0], a.limits.cacheDiscount) >= 0
    ensures var costs := Costs(us, a.limits.cacheDiscount);
            && ChargedAll(a, us).cumulativePaid == PeakSum(costs, |costs|)
            && ChargedAll(a, us).limits == a.limits
            && (us != [] ==> ChargedAll(a, us).prevStepPaid == costs[|costs| - 1])
  {
    if us != [] {
      var d := a.limits.cacheDiscount;
      var k := |us| - 1;
      PaidIsPeaks(a, us[..k]);
      var before, costs := Costs(us[..k], d), Costs(us, d);
      if k == 0 {
        assert us[..k] == [];
      }
      PeakSumNext(before, costs);
    }
  }

  /** One more cost: the stretch before it ends there only if the cost drops. */
  lemma PeakSumNext(before: seq<int>, costs: seq<int>)
    requires |costs| == |before| + 1 && before <= costs
    ensures var k := |before|;
            PeakSum(costs, k + 1)
            == PeakSum(before, k) + costs[k] - if k > 0 && before[k - 1] <= costs[k] then before[k - 1] else 0
  {
    hide EndsStretch;
    var k := |before|;
    LastEnds(costs);
    if k > 0 {
      PeakSumPrefix(before, costs, k - 1);
      LastEnds(before);
      assert EndsStretch(costs, k - 1) <==> costs[k] < costs[k - 1] by {
        DropEnds(costs, k - 1);
      }
    }
  }

  lemma LastEnds(costs: seq<int>)
    requires costs != []
    ensures EndsStretch(costs, |costs| - 1)
  {
  }

  lemma DropEnds(costs: seq<int>, i: nat)
    requires i + 1 < |costs|
    ensures EndsStretch(costs, i) <==> costs[i + 1] < costs[i]
  {
  }

  lemma CostsAreNat(u: Usage, discount: real)
    requires discount >= 0.0
    ensures StepPaid(u, discount) >= 0
  {
    assert u.tokensCached as real * discount >= 0.0;
  }

  /** What one call costs: an output token one, an input token one unless it is
      cached, and all cached tokens together their discounted number, cut down. */
  lemma StepCosts(u: Usage, discount: real)
    requires discount >= 0.0
    ensures var uncached := if u.tokensIn > u.tokensCached then u.tokensIn - u.tokensCached else 0;
            var cached := StepPaid(u, discount) - uncached - u.tokensOut;
            cached as real <= u.tokensCached as real * discount < cached as real + 1.0
    ensures StepPaid(u.(tokensOut := u.tokensOut + 1), discount) == StepPaid(u, discount) + 1
    ensures u.tokensIn >= u.tokensCached ==>
              StepPaid(u.(tokensIn := u.tokensIn + 1), discount) == StepPaid(u, discount) + 1
  {
    assert u.tokensCached as real * discount >= 0.0;
  }

  /** The token counts an account shows are those of the last call. */
  lemma LastCall(a: Account, us: seq<Usage>)
    requires us != []
    ensures var b, u := ChargedAll(a, us), us[|us| - 1];
            && b.tokensUsed == u.total && b.tokensIn == u.tokensIn && b.tokensOut == u.tokensOut
            && b.tokensCached == u.tokensCached
  {
  }

  /** With a non-negative discount the paid total never decreases, is at least
      every single cost and at most their sum, and equals the last cost when the
      costs never drop. */
  lemma {:induction false} PaidBounds(a: Account, us: seq<Usage>)
    requires a.cumulativePaid == 0 && a.prevStepPaid == 0 && a.limits.cacheDiscount >= 0.0
    ensures var costs := Costs(us, a.limits.cacheDiscount);
            var paid := ChargedAll(a, us).cumulativePaid;
            && ChargedAll(a, us).limits == a.limits
            && 0 <= ChargedAll(a, us).prevStepPaid <= paid <= Sum(costs)
            && (us != [] ==> ChargedAll(a, us[..|us| - 1]).cumulativePaid <= paid
                             && ChargedAll(a, us).prevStepPaid == costs[|costs| - 1])
            && (forall i :: 0 <= i < |costs| ==> costs[i] <= paid)
            && ((forall i, j :: 0 <= i < j < |costs| ==> costs[i] <= costs[j]) && us != [] ==>
                 paid == costs[|costs| - 1])
  {
    if us != [] {
      var d, k := a.limits.cacheDiscount, |us| - 1;
      PaidBounds(a, us[..k]);
      var before, costs := Costs(us[..k], d), Costs(us, d);
      CostsAreNat(us[k], d);
      assert costs[..k] == before;
      assert forall i :: 0 <= i < k ==> costs[i] == before[i];
      if k > 0 {
        assert costs[k - 1] == before[k - 1];
      }
    }
  }
}
