/** The pension projection: a state contribution looked up in a tiered
    schedule, a strategy interest rate, then year-by-year compounding of the
    monthly contributions until the retirement age of 65. */
module Pension {
  import opened CSharp
  import opened Responses
  import Constants

  datatype PensionProduct = PensionProduct(
    productId: string,
    name: string,
    dynamicPercentage: real,
    conservativePercentage: real,
    balancedPercentage: real)

  datatype PensionCalcRequest = PensionCalcRequest(
    productId: Option<string>,
    email: Option<string>,
    currentSavings: real,
    userContribution: real,
    employerContribution: real,
    userAge: Int32,
    pensionStrategy: Option<string>)

  /** One tier of the state-contribution schedule: from a monthly user
      contribution of `userContribution`, the state adds `stateContribution`. */
  datatype StateContributionValue = StateContributionValue(userContribution: Int32, stateContribution: Int32)

  datatype PensionCalcResponse = PensionCalcResponse(
    stateContribution: Int32,
    totalSavings: real,
    valorization: real,
    stateContributionTotal: Int32)

  // ---------------------------------------------------------------------
  // The state-contribution scan

  /** The scan's `nearestLower` after the first `n` schedule entries, in
      storage order: an entry replaces it when the entry's threshold is at
      most the user's contribution and above the current `nearestLower`
      (the state value chosen so far, not the threshold chosen so far). */
  function ScanPrefix(values: seq<StateContributionValue>, userContribution: real, n: nat): Int32
    requires n <= |values|
  {
    if n == 0 then 0
    else
      var nearestLower := ScanPrefix(values, userContribution, n - 1);
      var entry := values[n - 1];
      if entry.userContribution as real <= userContribution && entry.userContribution > nearestLower
      then entry.stateContribution
      else nearestLower
  }

  function NearestLower(values: seq<StateContributionValue>, userContribution: real): Int32 {
    ScanPrefix(values, userContribution, |values|)
  }

  /** The scan's result is 0 or the state value of an entry whose threshold
      the user's contribution reaches. */
  lemma {:induction false} ScanIsZeroOrQualifyingEntry(values: seq<StateContributionValue>, userContribution: real, n: nat)
    requires n <= |values|
    ensures var r := ScanPrefix(values, userContribution, n);
            r == 0 ||
            exists j :: 0 <= j < n && values[j].userContribution as real <= userContribution && values[j].stateContribution == r
  {
    if n > 0 {
      ScanIsZeroOrQualifyingEntry(values, userContribution, n - 1);
      var r := ScanPrefix(values, userContribution, n);
      if r != ScanPrefix(values, userContribution, n - 1) {
        assert values[n - 1].userContribution as real <= userContribution && values[n - 1].stateContribution == r;
      }
    }
  }

  /** Without an entry whose threshold is positive and reached, the result
      is 0 (an empty schedule included). */
  lemma {:induction false} ScanIsZeroWithoutPositiveQualifying(values: seq<StateContributionValue>, userContribution: real, n: nat)
    requires n <= |values|
    requires forall j :: 0 <= j < n ==> !(0 < values[j].userContribution && values[j].userContribution as real <= userContribution)
    ensures ScanPrefix(values, userContribution, n) == 0
  {
    if n > 0 {
      ScanIsZeroWithoutPositiveQualifying(values, userContribution, n - 1);
    }
  }

  /** With non-negative state values the scan never goes below 0. */
  lemma {:induction false} ScanNonNegative(values: seq<StateContributionValue>, userContribution: real, n: nat)
    requires n <= |values|
    requires forall j :: 0 <= j < |values| ==> values[j].stateContribution >= 0
    ensures ScanPrefix(values, userContribution, n) >= 0
  {
    if n > 0 {
      ScanNonNegative(values, userContribution, n - 1);
    }
  }

  /** ... so an entry with threshold 0 (or below) is never chosen: it
      leaves `nearestLower` as it was. */
  lemma ZeroThresholdNeverChosen(values: seq<StateContributionValue>, userContribution: real, n: nat)
    requires 0 < n <= |values|
    requires values[n - 1].userContribution <= 0
    requires forall j :: 0 <= j < |values| ==> values[j].stateContribution >= 0
    ensures ScanPrefix(values, userContribution, n) == ScanPrefix(values, userContribution, n - 1)
  {
    ScanNonNegative(values, userContribution, n - 1);
  }

  /** State values never negative, and positive at every positive
      threshold: a (0, 0) tier is allowed. */
  ghost predicate PositiveAtPositiveThresholds(values: seq<StateContributionValue>) {
    && (forall k :: 0 <= k < |values| ==> values[k].stateContribution >= 0)
    && (forall k :: 0 <= k < |values| && values[k].userContribution > 0 ==> values[k].stateContribution > 0)
  }

  /** With state values positive at positive thresholds, reaching one
      positive threshold makes the result positive. */
  lemma {:induction false} ScanPositiveOnceQualified(values: seq<StateContributionValue>, userContribution: real, n: nat, j: nat)
    requires j < n <= |values|
    requires 0 < values[j].userContribution && values[j].userContribution as real <= userContribution
    requires PositiveAtPositiveThresholds(values)
    ensures ScanPrefix(values, userContribution, n) > 0
  {
    var entry := values[n - 1];
    if n - 1 > j {
      ScanPositiveOnceQualified(values, userContribution, n - 1, j);
      if entry.userContribution as real <= userContribution && entry.userContribution > ScanPrefix(values, userContribution, n - 1) {
        assert entry.userContribution > 0;
      }
    } else {
      ScanNonNegative(values, userContribution, n - 1);
    }
  }

  /** With state values positive at positive thresholds: the result is 0
      exactly when no entry has a positive threshold that the user's
      contribution reaches. */
  lemma ScanIsZeroIffNoPositiveQualifying(values: seq<StateContributionValue>, userContribution: real)
    requires PositiveAtPositiveThresholds(values)
    ensures NearestLower(values, userContribution) == 0 <==>
            forall j :: 0 <= j < |values| ==> !(0 < values[j].userContribution && values[j].userContribution as real <= userContribution)
  {
    if j :| 0 <= j < |values| && 0 < values[j].userContribution && values[j].userContribution as real <= userContribution {
      ScanPositiveOnceQualified(values, userContribution, |values|, j);
    } else {
      ScanIsZeroWithoutPositiveQualifying(values, userContribution, |values|);
    }
  }

  /** A well-formed schedule: thresholds strictly ascending in storage order,
      and each tier's state value non-negative and below its own threshold,
      except that the first tier may be the "nothing from nothing" tier with
      threshold 0 and state value 0. */
  ghost predicate WellFormedSchedule(values: seq<StateContributionValue>) {
    && (forall i, k :: 0 <= i < k < |values| ==> values[i].userContribution < values[k].userContribution)
    && (forall k :: 0 <= k < |values| ==>
          || 0 <= values[k].stateContribution < values[k].userContribution
          || (k == 0 && values[k].userContribution == 0 && values[k].stateContribution == 0))
  }

  /** Entry `j` has the largest threshold the user's contribution reaches. */
  ghost predicate IsLargestQualifying(values: seq<StateContributionValue>, userContribution: real, j: int) {
    && 0 <= j < |values|
    && values[j].userContribution as real <= userContribution
    && forall k :: 0 <= k < |values| && values[k].userContribution as real <= userContribution ==>
         values[k].userContribution <= values[j].userContribution
  }

  lemma {:induction false} ScanTakesReachedTier(values: seq<StateContributionValue>, userContribution: real, n: nat)
    requires WellFormedSchedule(values)
    requires 0 < n <= |values|
    requires values[n - 1].userContribution as real <= userContribution
    ensures ScanPrefix(values, userContribution, n) == values[n - 1].stateContribution
  {
    if n > 1 {
      ScanTakesReachedTier(values, userContribution, n - 1);
    }
  }

  lemma {:induction false} ScanSkipsUnreachedTiers(values: seq<StateContributionValue>, userContribution: real, k: nat, n: nat)
    requires k <= n <= |values|
    requires forall m :: k <= m < n ==> values[m].userContribution as real > userContribution
    ensures ScanPrefix(values, userContribution, n) == ScanPrefix(values, userContribution, k)
  {
    if n > k {
      ScanSkipsUnreachedTiers(values, userContribution, k, n - 1);
    }
  }

  /** On a well-formed schedule the scan finds the state value of the tier
      with the largest reached threshold. */
  lemma ScanFindsLargestReachedTier(values: seq<StateContributionValue>, userContribution: real, j: int)
    requires WellFormedSchedule(values)
    requires IsLargestQualifying(values, userContribution, j)
    ensures NearestLower(values, userContribution) == values[j].stateContribution
  {
    forall m | j + 1 <= m < |values|
      ensures values[m].userContribution as real > userContribution
    {
      assert values[j].userContribution < values[m].userContribution;
    }
    ScanSkipsUnreachedTiers(values, userContribution, j + 1, |values|);
    ScanTakesReachedTier(values, userContribution, j + 1);
  }

  /** Off a well-formed schedule the scan and the largest reached tier part
      ways: with tiers (100, 150) and (120, 200), a contribution of 130
      reaches both, but 120 is not above the chosen 150, so the scan
      answers 150, not 200. */
  lemma ScanComparesAgainstChosenStateValue()
    ensures var values := [StateContributionValue(100, 150), StateContributionValue(120, 200)];
            && IsLargestQualifying(values, 130.0, 1)
            && NearestLower(values, 130.0) == 150
            && values[1].stateContribution == 200
  {
    var values := [StateContributionValue(100, 150), StateContributionValue(120, 200)];
    assert ScanPrefix(values, 130.0, 1) == 150;
  }

  /** `GetStateContribution`: the scan over the schedule, in storage order. */
  method GetStateContribution(stateContributionValues: seq<StateContributionValue>, userContribution: real)
    returns (nearestLower: Int32)
    ensures nearestLower == NearestLower(stateContributionValues, userContribution)
    ensures nearestLower == 0 ||
            exists j :: 0 <= j < |stateContributionValues| &&
                        stateContributionValues[j].userContribution as real <= userContribution &&
                        stateContributionValues[j].stateContribution == nearestLower
  {
    nearestLower := 0;
    var i := 0;
    while i < |stateContributionValues|
      invariant 0 <= i <= |stateContributionValues|
      invariant nearestLower == ScanPrefix(stateContributionValues, userContribution, i)
    {
      var entry := stateContributionValues[i];
      if entry.userContribution as real <= userContribution && entry.userContribution > nearestLower {
        nearestLower := entry.stateContribution;
      }
      i := i + 1;
    }
    ScanIsZeroOrQualifyingEntry(stateContributionValues, userContribution, |stateContributionValues|);
  }

  // ---------------------------------------------------------------------
  // Strategy rate

  /** The rate for a strategy: an exact match on the lower-case names
      "dynamická" and "konzervativní", anything else (null included) the
      balanced rate. */
  function GetStrategyInterestrate(product: PensionProduct, pensionStrategy: Option<string>): (rate: real)
    ensures pensionStrategy == Some("dynamická") ==> rate == product.dynamicPercentage
    ensures pensionStrategy == Some("konzervativní") ==> rate == product.conservativePercentage
    ensures pensionStrategy != Some("dynamická") && pensionStrategy != Some("konzervativní") ==>
              rate == product.balancedPercentage
  {
    if pensionStrategy == Some("dynamická") then product.dynamicPercentage
    else if pensionStrategy == Some("konzervativní") then product.conservativePercentage
    else product.balancedPercentage
  }

  /** The capitalised display names miss the match: "Dynamická" and
      "Konzervativní" are priced at the balanced rate. */
  lemma DisplayNamesGetBalancedRate(product: PensionProduct)
    ensures GetStrategyInterestrate(product, Some(Constants.Dynamic)) == product.balancedPercentage
    ensures GetStrategyInterestrate(product, Some(Constants.Conservative)) == product.balancedPercentage
    ensures GetStrategyInterestrate(product, Some(Constants.Balanced)) == product.balancedPercentage
  {
    assert Constants.Dynamic[0] != 'd';
    assert Constants.Conservative[0] != 'k';
  }

  // ---------------------------------------------------------------------
  // Compounding and valorization

  /** How many times a `for (int i = 0; i < n; i++)` loop runs. */
  function Iterations(n: int): (k: nat)
    ensures n <= 0 ==> k == 0
    ensures n > 0 ==> k == n
  {
    if n > 0 then n else 0
  }

  /** Twelve months of the user's, the employer's and the state's contribution. */
  function YearlyContribution(userContribution: real, employerContribution: real, stateContribution: int): real {
    (userContribution + employerContribution + stateContribution as real) * 12.0
  }

  /** The savings after `n` years: each year the yearly contribution is
      added, then the whole balance grows by the factor `growth`. */
  function Compound(n: nat, savings: real, yearly: real, growth: real): real {
    if n == 0 then savings else (Compound(n - 1, savings, yearly, growth) + yearly) * growth
  }

  /** The savings plus `n` years of contributions, without interest. */
  function Contributed(n: nat, savings: real, yearly: real): real {
    savings + n as real * yearly
  }

  /** At a 0% rate compounding only adds up the contributions. */
  lemma {:induction false} CompoundWithoutInterest(n: nat, savings: real, yearly: real)
    ensures Compound(n, savings, yearly, 1.0) == Contributed(n, savings, yearly)
  {
    if n > 0 {
      CompoundWithoutInterest(n - 1, savings, yearly);
      assert Contributed(n, savings, yearly) == Contributed(n - 1, savings, yearly) + yearly;
    }
  }

  lemma GrowthNeverShrinks(x: real, growth: real)
    requires x >= 0.0 && growth >= 1.0
    ensures x * growth >= x
  {
    assert x * growth - x == x * (growth - 1.0);
  }

  /** At a non-negative rate, with non-negative savings and contributions,
      the compounded balance is at least what was paid in. */
  lemma {:induction false} CompoundAtLeastContributed(n: nat, savings: real, yearly: real, growth: real)
    requires savings >= 0.0 && yearly >= 0.0 && growth >= 1.0
    ensures Compound(n, savings, yearly, growth) >= Contributed(n, savings, yearly)
  {
    if n > 0 {
      CompoundAtLeastContributed(n - 1, savings, yearly, growth);
      GrowthNeverShrinks(Compound(n - 1, savings, yearly, growth) + yearly, growth);
    }
  }

  /** `CalculateTotalPension`: the compounding loop, run `max(n, 0)` times. */
  method CalculateTotalPension(
    yearsToRetirement: Int32,
    totalSavings: real,
    userContribution: real,
    employerContribution: real,
    stateContribution: Int32,
    strategyInterestRate: real)
    returns (currentTotalSavings: real)
    ensures currentTotalSavings ==
            Compound(Iterations(yearsToRetirement), totalSavings,
                     YearlyContribution(userContribution, employerContribution, stateContribution),
                     1.0 + strategyInterestRate / 100.0)
  {
    currentTotalSavings := totalSavings;
    var totalContribution := userContribution + employerContribution + stateContribution as real;
    var i := 0;
    while i < yearsToRetirement
      invariant 0 <= i <= Iterations(yearsToRetirement)
      invariant currentTotalSavings ==
                Compound(i, totalSavings, YearlyContribution(userContribution, employerContribution, stateContribution),
                         1.0 + strategyInterestRate / 100.0)
    {
      var yearlyContribution := totalContribution * 12.0;
      currentTotalSavings := currentTotalSavings + yearlyContribution;
      currentTotalSavings := currentTotalSavings * (1.0 + strategyInterestRate / 100.0);
      i := i + 1;
    }
  }

  /** `GetValoritization`: the given total minus the savings plus `max(n, 0)`
      years of contributions. */
  method GetValoritization(
    yearsToRetirement: Int32,
    totalSavings: real,
    userContribution: real,
    employerContribution: real,
    stateContribution: Int32,
    totalValueSaved: real)
    returns (valorization: real)
    ensures valorization ==
            totalValueSaved - Contributed(Iterations(yearsToRetirement), totalSavings,
                                          YearlyContribution(userContribution, employerContribution, stateContribution))
  {
    var currentTotalSavings := totalSavings;
    var totalContribution := userContribution + employerContribution + stateContribution as real;
    var i := 0;
    while i < yearsToRetirement
      invariant 0 <= i <= Iterations(yearsToRetirement)
      invariant currentTotalSavings ==
                Contributed(i, totalSavings, YearlyContribution(userContribution, employerContribution, stateContribution))
    {
      var yearlyContribution := totalContribution * 12.0;
      currentTotalSavings := currentTotalSavings + yearlyContribution;
      i := i + 1;
    }
    valorization := totalValueSaved - currentTotalSavings;
  }

  /** The valorization of a projection: the interest earned on top of what
      was paid in. */
  function Valorization(n: nat, savings: real, yearly: real, rate: real): real {
    Compound(n, savings, yearly, 1.0 + rate / 100.0) - Contributed(n, savings, yearly)
  }

  /** Without years left or without interest there is nothing earned; with
      a non-negative rate, savings and contributions it is never negative. */
  lemma ValorizationBounds(n: nat, savings: real, yearly: real, rate: real)
    ensures n == 0 ==> Valorization(n, savings, yearly, rate) == 0.0
    ensures rate == 0.0 ==> Valorization(n, savings, yearly, rate) == 0.0
    ensures rate >= 0.0 && savings >= 0.0 && yearly >= 0.0 ==> Valorization(n, savings, yearly, rate) >= 0.0
  {
    if rate == 0.0 {
      CompoundWithoutInterest(n, savings, yearly);
    }
    if rate >= 0.0 && savings >= 0.0 && yearly >= 0.0 {
      CompoundAtLeastContributed(n, savings, yearly, 1.0 + rate / 100.0);
    }
  }

  // ---------------------------------------------------------------------
  // The projection

  /** `65 - UserAge` in unchecked `int` arithmetic. */
  function YearsToRetirement(userAge: Int32): (years: Int32)
    ensures userAge >= 65 - Int32Max ==> years == 65 - userAge
    ensures userAge < 65 - Int32Max ==> years == 65 - userAge - 0x1_0000_0000
  {
    Wrap32(65 - userAge)
  }

  /** `stateContribution * 12 * yearsToRetirement` in unchecked `int`
      arithmetic: the unclamped years, so negative past 65. */
  function StateContributionTotal(stateContribution: Int32, yearsToRetirement: Int32): (total: Int32)
    ensures InInt32(stateContribution * 12) && InInt32(stateContribution * 12 * yearsToRetirement) ==>
              total == stateContribution * 12 * yearsToRetirement
  {
    Wrap32(Wrap32(stateContribution * 12) * yearsToRetirement)
  }

  /** Past the retirement age a positive state contribution gives a negative
      state-contribution total (while the product fits an `int`). */
  lemma StateTotalNegativePastRetirement(stateContribution: Int32, userAge: Int32)
    requires 65 < userAge
    requires 0 < stateContribution
    requires InInt32(stateContribution * 12 * (65 - userAge))
    ensures StateContributionTotal(stateContribution, YearsToRetirement(userAge)) < 0
  {
    var years := YearsToRetirement(userAge);
    assert years < 0;
    assert stateContribution * 12 <= -(stateContribution * 12 * years) by {
      assert stateContribution * 12 * years == (stateContribution * 12) * years;
      MultiplyByNegative(stateContribution * 12, years);
    }
    assert stateContribution * 12 * years < 0 by {
      MultiplyByNegative(stateContribution * 12, years);
    }
  }

  lemma MultiplyByNegative(a: int, b: int)
    requires a > 0 && b < 0
    ensures a * b <= -a
  {
    assert a * b == -(a * (-b));
    assert a * (-b) >= a;
  }

  /** `CalculatePension`: the schedule is read first, then the product; a
      read that throws is a server error; a null from either is NOT_FOUND,
      with the schedule's message winning when both are missing. */
  method CalculatePension(
    data: PensionCalcRequest,
    product: Fetched<PensionProduct>,
    state: Fetched<seq<StateContributionValue>>)
    returns (res: BaseResponse<PensionCalcResponse>)
    ensures state.Threw? || product.Threw? ==> res == Failed(StoreFault)
    ensures !state.Threw? && !product.Threw? && state.NullResult? ==> res == NotFound(StateContributionsMissing)
    ensures !state.Threw? && !product.Threw? && state.Found? && product.NullResult? ==>
              res == NotFound(ProductNotFound(data.productId))
    ensures res.status == OK <==> state.Found? && product.Found?
    ensures res.status == OK ==>
      var years := YearsToRetirement(data.userAge);
      var stateContribution := NearestLower(state.value, data.userContribution);
      var yearly := YearlyContribution(data.userContribution, data.employerContribution, stateContribution);
      var rate := GetStrategyInterestrate(product.value, data.pensionStrategy);
      && res.message == NoMessage
      && res.data == Some(PensionCalcResponse(
           stateContribution,
           Compound(Iterations(years), data.currentSavings, yearly, 1.0 + rate / 100.0),
           Valorization(Iterations(years), data.currentSavings, yearly, rate),
           StateContributionTotal(stateContribution, years)))
  {
    if state.Threw? || product.Threw? {
      return Failed(StoreFault);
    }
    if product.NullResult? || state.NullResult? {
      var message := NoMessage;
      if product.NullResult? {
        message := ProductNotFound(data.productId);
      }
      if state.NullResult? {
        message := StateContributionsMissing;
      }
      return BaseResponse(None, NOT_FOUND, message);
    }
    var totalSavings := data.currentSavings;
    var yearsToRetirement := YearsToRetirement(data.userAge);
    var stateContribution := GetStateContribution(state.value, data.userContribution);
    var strategyInterestRate := GetStrategyInterestrate(product.value, data.pensionStrategy);
    var totalValue := CalculateTotalPension(
      yearsToRetirement, totalSavings, data.userContribution, data.employerContribution,
      stateContribution, strategyInterestRate);
    var valorization := GetValoritization(
      yearsToRetirement, totalSavings, data.userContribution, data.employerContribution,
      stateContribution, totalValue);
    var resData := PensionCalcResponse(
      stateContribution, totalValue, valorization, StateContributionTotal(stateContribution, yearsToRetirement));
    res := Success(resData);
  }

  /** A 45-year-old contributing 100 a month, against the schedule
      (0, 0), (100, 20): 20 years to go, a state contribution of 20 and a
      state-contribution total of 20 * 12 * 20 = 4800. */
  lemma FortyFiveYearOldExample()
    ensures var values := [StateContributionValue(0, 0), StateContributionValue(100, 20)];
            && WellFormedSchedule(values)
            && PositiveAtPositiveThresholds(values)
            && NearestLower(values, 100.0) == 20
            && YearsToRetirement(45) == 20
            && StateContributionTotal(20, 20) == 4800
  {
    var values := [StateContributionValue(0, 0), StateContributionValue(100, 20)];
    assert ScanPrefix(values, 100.0, 1) == 0;
  }

  /** At or past the retirement age the loops run no times: the projected
      total is the current savings and the valorization is 0, whatever the
      contributions and the rate. */
  lemma RetiredProjectionIsCurrentSavings(userAge: Int32, savings: real, yearly: real, rate: real)
    requires 65 <= userAge
    ensures var n := Iterations(YearsToRetirement(userAge));
            && n == 0
            && Compound(n, savings, yearly, 1.0 + rate / 100.0) == savings
            && Valorization(n, savings, yearly, rate) == 0.0
  {
    ValorizationBounds(0, savings, yearly, rate);
  }
}
