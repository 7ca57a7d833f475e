/** The life-insurance premium calculator: each of six benefits is priced
    from its requested amount and the product's coefficient, with smoker
    and sport surcharges taken off the same base, then rounded to a whole
    yearly price and truncated to a monthly one. */
module LifeInsurance {
  import opened CSharp
  import opened Responses

  /** The ordinal of the `InvalidityLevel` enum (whose declaration is not
      part of this model); the bound keeps `level * 2` inside an `int`. */
  type InvalidityLevel = n: nat | n < 0x4000_0000

  /** A product's coefficient profile. */
  datatype LifeInsuranceProduct = LifeInsuranceProduct(
    productId: string,
    name: string,
    deathCoefficient: real,
    injuriesCoefficient: real,
    diseasesCoefficient: real,
    workIncapacityCoefficient: real,
    hospitalizationCoefficient: real,
    invalidityCoefficient: real,
    smokerCoefficient: real,
    sportCoefficient: real,
    sportCoefficientP: real)

  datatype LifeInsuranceProductCalcRequest = LifeInsuranceProductCalcRequest(
    productId: Option<string>,
    email: Option<string>,
    deathInsurance: Int32,
    injuriesInsurance: Int32,
    diseasesInsurance: Int32,
    workIncapacityInsurance: Int32,
    hospitalizationInsurance: Int32,
    invalidityInsurance: Int32,
    hospitalizationLength: Int32,
    invalidityLevel: InvalidityLevel,
    isSmoker: bool,
    doesSport: bool)

  /** The `{ "yearly", "monthly" }` dictionary one benefit is priced into. */
  datatype ItemPrice = ItemPrice(yearly: Int32, monthly: Int32)

  datatype InsurancePrice = InsurancePrice(
    deathInsurancePrice: Int32,
    injuriesInsurancePrice: Int32,
    diseasesInsurancePrice: Int32,
    workIncapacityInsurancePrice: Int32,
    hospitalizationInsurancePrice: Int32,
    invalidityInsurancePrice: Int32,
    totalInsurancePrice: Int32)

  datatype LifeInsuranceCalcResponse = LifeInsuranceCalcResponse(
    yearlyLifeInsurance: InsurancePrice,
    monthlyLifeInsurance: InsurancePrice)

  /** `totalYearly / 12`: the monthly price is the yearly one divided by
      twelve and truncated toward zero. */
  function Monthly(yearly: Int32): (monthly: Int32)
    ensures yearly >= 0 ==> 12 * monthly <= yearly <= 12 * monthly + 11
    ensures yearly < 0 ==> 12 * monthly - 11 <= yearly <= 12 * monthly
  {
    Div(yearly, 12)
  }

  /** A yearly price as a real number turned into the whole yearly and
      monthly prices; `None` is the overflow `Convert.ToInt32` throws. */
  function Priced(yearly: real): (r: Option<ItemPrice>)
    ensures r.Some? <==> InInt32(RoundHalfEven(yearly))
    ensures r.Some? ==> r.value.yearly == RoundHalfEven(yearly)
    ensures r.Some? ==> r.value.monthly == Monthly(r.value.yearly)
  {
    match ConvertToInt32(yearly)
    case None => None
    case Some(y) => Some(ItemPrice(y, Monthly(y)))
  }

  /** The requested amount in pricing units: one-time payouts are priced per
      whole thousand (integer division), recurring ones per unit. */
  function PricingUnits(isOnetimePayof: bool, amount: Int32): int {
    Div(amount, if isOnetimePayof then 1000 else 1)
  }

  /** A yearly base price plus the smoker and sport additives, each
      computed from that same base. */
  function Surcharged(yearlyBase: real, isSmoker: bool, smokeCoef: real, doesSport: bool, sportCoef: real): real {
    var smokerAdditive := if isSmoker then yearlyBase * (1.0 + smokeCoef / 100.0) - yearlyBase else 0.0;
    var sportAdditive := if doesSport then yearlyBase * (1.0 + sportCoef / 100.0) - yearlyBase else 0.0;
    yearlyBase + (smokerAdditive + sportAdditive)
  }

  /** The yearly price before rounding: the surcharged base price. */
  function SurchargedYearly(
    isOnetimePayof: bool, amount: Int32, coef: real,
    isSmoker: bool, smokeCoef: real, doesSport: bool, sportCoef: real): real
  {
    Surcharged(PricingUnits(isOnetimePayof, amount) as real * coef, isSmoker, smokeCoef, doesSport, sportCoef)
  }

  /** The first `CalculateItemPrice` overload: the surcharged yearly price,
      rounded, and its monthly share. The surcharges are one multiplier on
      the base price; `None` is the rounding overflow. */
  function CalculateItemPrice(
    isOnetimePayof: bool, amount: Int32, coef: real,
    isSmoker: bool, smokeCoef: real, doesSport: bool, sportCoef: real): (r: Option<ItemPrice>)
    ensures r == Priced(PricingUnits(isOnetimePayof, amount) as real * coef
                        * SurchargeFactor(isSmoker, smokeCoef, doesSport, sportCoef))
  {
    var base := PricingUnits(isOnetimePayof, amount) as real * coef;
    SurchargedIsFactor(base, isSmoker, smokeCoef, doesSport, sportCoef);
    var yearly := SurchargedYearly(isOnetimePayof, amount, coef, isSmoker, smokeCoef, doesSport, sportCoef);
    var factored := PricingUnits(isOnetimePayof, amount) as real * coef
                    * SurchargeFactor(isSmoker, smokeCoef, doesSport, sportCoef);
    assert yearly == factored;
    Priced(yearly)
  }

  /** The surcharges as one multiplier on the base price: each
      enabled surcharge adds its percentage of the same base once. */
  function SurchargeFactor(isSmoker: bool, smokeCoef: real, doesSport: bool, sportCoef: real): real {
    1.0 + (if isSmoker then smokeCoef / 100.0 else 0.0) + (if doesSport then sportCoef / 100.0 else 0.0)
  }

  /** The additive of a `c` percent surcharge on `b`. */
  lemma PercentAdditive(b: real, c: real)
    ensures b * (1.0 + c / 100.0) - b == b * (c / 100.0)
  {
  }

  /** Adding both additives to the base is multiplying it by the factor. */
  lemma SurchargedIsFactor(b: real, isSmoker: bool, smokeCoef: real, doesSport: bool, sportCoef: real)
    ensures Surcharged(b, isSmoker, smokeCoef, doesSport, sportCoef) == b * SurchargeFactor(isSmoker, smokeCoef, doesSport, sportCoef)
  {
    var s := if isSmoker then smokeCoef / 100.0 else 0.0;
    var p := if doesSport then sportCoef / 100.0 else 0.0;
    PercentAdditive(b, smokeCoef);
    PercentAdditive(b, sportCoef);
    assert Surcharged(b, isSmoker, smokeCoef, doesSport, sportCoef) == b + (b * s + b * p);
    assert b + (b * s + b * p) == b * (1.0 + s + p);
  }

  /** The surcharges are additive off one base and never compound: with
      both on, the yearly price before rounding is the compounded price
      less the cross term `base * smoker% * sport%`. */
  lemma ItemPriceIsAdditiveSurcharge(
    isOnetimePayof: bool, amount: Int32, coef: real, smokeCoef: real, sportCoef: real)
    ensures var base := PricingUnits(isOnetimePayof, amount) as real * coef;
            var smoker := smokeCoef / 100.0;
            var sport := sportCoef / 100.0;
            SurchargedYearly(isOnetimePayof, amount, coef, true, smokeCoef, true, sportCoef)
              == base * (1.0 + smoker) * (1.0 + sport) - base * smoker * sport
  {
    var base := PricingUnits(isOnetimePayof, amount) as real * coef;
    SurchargedIsFactor(base, true, smokeCoef, true, sportCoef);
    CrossTerm(base, smokeCoef / 100.0, sportCoef / 100.0);
  }

  lemma CrossTerm(b: real, x: real, y: real)
    ensures b * (1.0 + x + y) == b * (1.0 + x) * (1.0 + y) - b * x * y
  {
    assert (1.0 + x) * (1.0 + y) == 1.0 + x + y + x * y;
    assert b * ((1.0 + x) * (1.0 + y)) == b * (1.0 + x + y) + b * (x * y);
  }

  /** Without either flag the yearly price is the rounded base. */
  lemma NoSurchargeIsRoundedBase(isOnetimePayof: bool, amount: Int32, coef: real, smokeCoef: real, sportCoef: real)
    ensures var r := CalculateItemPrice(isOnetimePayof, amount, coef, false, smokeCoef, false, sportCoef);
            var base := PricingUnits(isOnetimePayof, amount) as real * coef;
            (r.Some? <==> InInt32(RoundHalfEven(base))) && (r.Some? ==> r.value.yearly == RoundHalfEven(base))
  {
    var units := PricingUnits(isOnetimePayof, amount) as real;
    var r := CalculateItemPrice(isOnetimePayof, amount, coef, false, smokeCoef, false, sportCoef);
    var yearly := SurchargedYearly(isOnetimePayof, amount, coef, false, smokeCoef, false, sportCoef);
    assert yearly == units * coef;
    PricedOfEqual(yearly, units * coef);
  }

  lemma PricedOfEqual(x: real, y: real)
    requires x == y
    ensures Priced(x) == Priced(y)
  {
  }

  /** A one-time payout below a thousand (in absolute value) prices at 0,
      whatever the coefficient and the flags. */
  lemma OneTimePayoutBelowThousandIsFree(
    amount: Int32, coef: real, isSmoker: bool, smokeCoef: real, doesSport: bool, sportCoef: real)
    requires -1000 < amount < 1000
    ensures CalculateItemPrice(true, amount, coef, isSmoker, smokeCoef, doesSport, sportCoef) == Some(ItemPrice(0, 0))
  {
    assert PricingUnits(true, amount) == 0;
    NoUnitsIsFree(true, amount, coef, isSmoker, smokeCoef, doesSport, sportCoef);
  }

  /** No pricing units, no price. */
  lemma NoUnitsIsFree(
    isOnetimePayof: bool, amount: Int32, coef: real, isSmoker: bool, smokeCoef: real, doesSport: bool, sportCoef: real)
    requires PricingUnits(isOnetimePayof, amount) == 0
    ensures CalculateItemPrice(isOnetimePayof, amount, coef, isSmoker, smokeCoef, doesSport, sportCoef) == Some(ItemPrice(0, 0))
  {
    SurchargedIsFactor(0.0, isSmoker, smokeCoef, doesSport, sportCoef);
    assert SurchargedYearly(isOnetimePayof, amount, coef, isSmoker, smokeCoef, doesSport, sportCoef) == 0.0;
    assert RoundHalfEven(0.0) == 0;
    assert Priced(0.0) == Some(ItemPrice(0, 0));
  }

  /** The second overload: the invalidity price, the base price multiplied
      (unchecked) by `1 + level * 2 / 10`. */
  function CalculateInvalidityItemPrice(
    isOnetimePayof: bool, amount: Int32, coef: real,
    isSmoker: bool, smokeCoef: real, doesSport: bool, sportCoef: real,
    invalidityLevel: InvalidityLevel): (r: Option<ItemPrice>)
    ensures var b := CalculateItemPrice(isOnetimePayof, amount, coef, isSmoker, smokeCoef, doesSport, sportCoef);
            && (r.Some? <==> b.Some?)
            && (r.Some? ==> r.value.yearly == Wrap32(b.value.yearly * (1 + invalidityLevel / 5)))
            && (r.Some? ==> r.value.monthly == Monthly(r.value.yearly))
  {
    assert Div(invalidityLevel * 2, 10) == invalidityLevel / 5;
    match CalculateItemPrice(isOnetimePayof, amount, coef, isSmoker, smokeCoef, doesSport, sportCoef)
    case None => None
    case Some(baseRes) =>
      var additive := 1 + Div(invalidityLevel * 2, 10);
      var totalYearly := Wrap32(baseRes.yearly * additive);
      Some(ItemPrice(totalYearly, Monthly(totalYearly)))
  }

  /** The invalidity multiplier is a step: levels 0-4 leave the price as it
      is and levels 5-9 double it. */
  lemma InvalidityLevelSteps(
    isOnetimePayof: bool, amount: Int32, coef: real,
    isSmoker: bool, smokeCoef: real, doesSport: bool, sportCoef: real,
    invalidityLevel: InvalidityLevel)
    ensures var b := CalculateItemPrice(isOnetimePayof, amount, coef, isSmoker, smokeCoef, doesSport, sportCoef);
            var r := CalculateInvalidityItemPrice(isOnetimePayof, amount, coef, isSmoker, smokeCoef, doesSport, sportCoef, invalidityLevel);
            && (invalidityLevel <= 4 ==> r == b)
            && (5 <= invalidityLevel <= 9 && r.Some? ==> r.value.yearly == Wrap32(2 * b.value.yearly))
  {
    var b := CalculateItemPrice(isOnetimePayof, amount, coef, isSmoker, smokeCoef, doesSport, sportCoef);
    if b.Some? && invalidityLevel <= 4 {
      assert invalidityLevel / 5 == 0;
      assert Wrap32(b.value.yearly * 1) == b.value.yearly;
      assert Monthly(b.value.yearly) == b.value.monthly;
    }
    if b.Some? && 5 <= invalidityLevel <= 9 {
      assert invalidityLevel / 5 == 1;
      assert b.value.yearly * (1 + 1) == 2 * b.value.yearly;
    }
  }

  /** The third overload: the hospitalization price, the base price
      multiplied (unchecked) by `length / 1000 + 1`; `isHospitalization`
      is not used. */
  function CalculateHospitalizationItemPrice(
    isOnetimePayof: bool, amount: Int32, coef: real,
    isSmoker: bool, smokeCoef: real, doesSport: bool, sportCoef: real,
    isHospitalization: bool, hospitalizationLength: Int32): (r: Option<ItemPrice>)
    ensures var b := CalculateItemPrice(isOnetimePayof, amount, coef, isSmoker, smokeCoef, doesSport, sportCoef);
            && (r.Some? <==> b.Some?)
            && (r.Some? && hospitalizationLength >= 0 ==>
                  r.value.yearly == Wrap32(b.value.yearly * (hospitalizationLength / 1000 + 1)))
            && (r.Some? && hospitalizationLength < 0 ==>
                  r.value.yearly == Wrap32(b.value.yearly * (1 - (-(hospitalizationLength as int)) / 1000)))
            && (r.Some? ==> r.value.monthly == Monthly(r.value.yearly))
  {
    match CalculateItemPrice(isOnetimePayof, amount, coef, isSmoker, smokeCoef, doesSport, sportCoef)
    case None => None
    case Some(baseRes) =>
      var additive := Div(hospitalizationLength, 1000) + 1;
      var totalYearly := Wrap32(baseRes.yearly * additive);
      Some(ItemPrice(totalYearly, Monthly(totalYearly)))
  }

  /** Lengths 0-999 leave the base price as it is; a length between `k`
      and `k + 1` thousands multiplies it by `k + 1`; the flag changes
      nothing. */
  lemma HospitalizationLengthSteps(
    isOnetimePayof: bool, amount: Int32, coef: real,
    isSmoker: bool, smokeCoef: real, doesSport: bool, sportCoef: real,
    isHospitalization: bool, hospitalizationLength: Int32, k: nat)
    ensures var b := CalculateItemPrice(isOnetimePayof, amount, coef, isSmoker, smokeCoef, doesSport, sportCoef);
            var r := CalculateHospitalizationItemPrice(isOnetimePayof, amount, coef, isSmoker, smokeCoef, doesSport, sportCoef,
                                                       isHospitalization, hospitalizationLength);
            && r == CalculateHospitalizationItemPrice(isOnetimePayof, amount, coef, isSmoker, smokeCoef, doesSport, sportCoef,
                                                      !isHospitalization, hospitalizationLength)
            && (0 <= hospitalizationLength <= 999 ==> r == b)
            && (1000 * k <= hospitalizationLength < 1000 * (k + 1) && r.Some? ==>
                  r.value.yearly == Wrap32(b.value.yearly * (k + 1)))
  {
    if 1000 * k <= hospitalizationLength < 1000 * (k + 1) {
      assert hospitalizationLength / 1000 == k;
    }
    var b := CalculateItemPrice(isOnetimePayof, amount, coef, isSmoker, smokeCoef, doesSport, sportCoef);
    if b.Some? && 0 <= hospitalizationLength <= 999 {
      assert Div(hospitalizationLength, 1000) == 0;
      assert Monthly(b.value.yearly) == b.value.monthly;
    }
  }

  /** A benefit with no requested amount costs nothing, in every overload,
      whatever the flags, the level and the length. */
  lemma ZeroAmountIsFree(
    isOnetimePayof: bool, coef: real, isSmoker: bool, smokeCoef: real, doesSport: bool, sportCoef: real,
    invalidityLevel: InvalidityLevel, isHospitalization: bool, hospitalizationLength: Int32)
    ensures CalculateItemPrice(isOnetimePayof, 0, coef, isSmoker, smokeCoef, doesSport, sportCoef) == Some(ItemPrice(0, 0))
    ensures CalculateInvalidityItemPrice(isOnetimePayof, 0, coef, isSmoker, smokeCoef, doesSport, sportCoef, invalidityLevel)
         == Some(ItemPrice(0, 0))
    ensures CalculateHospitalizationItemPrice(isOnetimePayof, 0, coef, isSmoker, smokeCoef, doesSport, sportCoef,
                                              isHospitalization, hospitalizationLength) == Some(ItemPrice(0, 0))
  {
    assert PricingUnits(isOnetimePayof, 0) == 0;
    NoUnitsIsFree(isOnetimePayof, 0, coef, isSmoker, smokeCoef, doesSport, sportCoef);
  }

  /** The exact sum of a sequence, added left to right. */
  function Sum(xs: seq<int>): int {
    if xs == [] then 0 else Sum(xs[..|xs| - 1]) + xs[|xs| - 1]
  }

  /** Every running total of the left-to-right sum is an `int`. */
  ghost predicate RunningSumsFit(xs: seq<int>) {
    forall k :: 0 <= k <= |xs| ==> InInt32(Sum(xs[..k]))
  }

  /** LINQ `Sum()` over `int`: a checked left-to-right addition; `None` is
      the `OverflowException` it throws at the first running total that
      leaves the `int` range. */
  function CheckedSum(xs: seq<Int32>): (r: Option<Int32>)
    ensures r.Some? <==> RunningSumsFit(xs)
    ensures r.Some? ==> r.value == Sum(xs)
  {
    if xs == [] then Some(0)
    else
      var init := xs[..|xs| - 1];
      assert forall k :: 0 <= k <= |init| ==> init[..k] == xs[..k];
      assert xs[..|xs|] == xs;
      match CheckedSum(init)
      case None => None
      case Some(s) =>
        if InInt32(s + xs[|xs| - 1]) then Some(s + xs[|xs| - 1]) else None
  }

  /** A sum of terms bounded by `m` is bounded by `m` times their number. */
  lemma {:induction false} SumBound(xs: seq<int>, m: int)
    requires forall i :: 0 <= i < |xs| ==> -m <= xs[i] <= m
    ensures -(|xs| * m) <= Sum(xs) <= |xs| * m
  {
    if xs != [] {
      SumBound(xs[..|xs| - 1], m);
    }
  }

  /** Small enough terms never make a checked sum overflow. */
  lemma RunningSumsFitWhenSmall(xs: seq<int>, m: int)
    requires 0 <= m
    requires forall i :: 0 <= i < |xs| ==> -m <= xs[i] <= m
    requires |xs| * m <= Int32Max
    ensures RunningSumsFit(xs)
  {
    forall k | 0 <= k <= |xs|
      ensures InInt32(Sum(xs[..k]))
    {
      var prefix := xs[..k];
      assert forall i :: 0 <= i < |prefix| ==> -m <= prefix[i] <= m;
      SumBound(prefix, m);
      MulMonotonic(k, |xs|, m);
    }
  }

  lemma MulMonotonic(k: int, n: int, m: int)
    requires 0 <= k <= n && 0 <= m
    ensures k * m <= n * m
  {
  }

  /** The six benefit prices of one request, in the order the source
      computes them. */
  function DeathPrice(d: LifeInsuranceProductCalcRequest, p: LifeInsuranceProduct): Option<ItemPrice> {
    CalculateItemPrice(true, d.deathInsurance, p.deathCoefficient, d.isSmoker, p.smokerCoefficient, d.doesSport, p.sportCoefficient)
  }

  function InjuryPrice(d: LifeInsuranceProductCalcRequest, p: LifeInsuranceProduct): Option<ItemPrice> {
    CalculateItemPrice(true, d.injuriesInsurance, p.injuriesCoefficient, d.isSmoker, p.smokerCoefficient, d.doesSport, p.sportCoefficient)
  }

  function DiseasePrice(d: LifeInsuranceProductCalcRequest, p: LifeInsuranceProduct): Option<ItemPrice> {
    CalculateItemPrice(true, d.diseasesInsurance, p.diseasesCoefficient, d.isSmoker, p.smokerCoefficient, d.doesSport, p.sportCoefficient)
  }

  function WorkIncapacityPrice(d: LifeInsuranceProductCalcRequest, p: LifeInsuranceProduct): Option<ItemPrice> {
    CalculateItemPrice(false, d.workIncapacityInsurance, p.workIncapacityCoefficient,
                       d.isSmoker, p.smokerCoefficient, d.doesSport, p.sportCoefficient)
  }

  function InvalidityPrice(d: LifeInsuranceProductCalcRequest, p: LifeInsuranceProduct): Option<ItemPrice> {
    CalculateInvalidityItemPrice(true, d.invalidityInsurance, p.invalidityCoefficient,
                                 d.isSmoker, p.smokerCoefficient, d.doesSport, p.sportCoefficient, d.invalidityLevel)
  }

  function HospitalizationPrice(d: LifeInsuranceProductCalcRequest, p: LifeInsuranceProduct): Option<ItemPrice> {
    CalculateHospitalizationItemPrice(false, d.hospitalizationInsurance, p.hospitalizationCoefficient,
                                      d.isSmoker, p.smokerCoefficient, d.doesSport, p.sportCoefficient,
                                      false, d.hospitalizationLength)
  }

  /** The request can be priced without an `OverflowException`: every
      benefit's `Convert.ToInt32` succeeds and the checked yearly total
      stays an `int` (the monthly total always does). */
  ghost predicate Priceable(d: LifeInsuranceProductCalcRequest, p: LifeInsuranceProduct) {
    && DeathPrice(d, p).Some? && InjuryPrice(d, p).Some? && DiseasePrice(d, p).Some?
    && WorkIncapacityPrice(d, p).Some? && InvalidityPrice(d, p).Some? && HospitalizationPrice(d, p).Some?
    && RunningSumsFit([DeathPrice(d, p).value.yearly, InjuryPrice(d, p).value.yearly, DiseasePrice(d, p).value.yearly,
                       WorkIncapacityPrice(d, p).value.yearly, HospitalizationPrice(d, p).value.yearly,
                       InvalidityPrice(d, p).value.yearly])
  }

  /** The per-benefit prices and the two totals in the response agree. */
  ghost predicate Consistent(r: LifeInsuranceCalcResponse) {
    var y := r.yearlyLifeInsurance;
    var m := r.monthlyLifeInsurance;
    && y.totalInsurancePrice == y.deathInsurancePrice + y.injuriesInsurancePrice + y.diseasesInsurancePrice
                                + y.workIncapacityInsurancePrice + y.hospitalizationInsurancePrice + y.invalidityInsurancePrice
    && m.totalInsurancePrice == m.deathInsurancePrice + m.injuriesInsurancePrice + m.diseasesInsurancePrice
                                + m.workIncapacityInsurancePrice + m.hospitalizationInsurancePrice + m.invalidityInsurancePrice
    && m.deathInsurancePrice == Monthly(y.deathInsurancePrice)
    && m.injuriesInsurancePrice == Monthly(y.injuriesInsurancePrice)
    && m.diseasesInsurancePrice == Monthly(y.diseasesInsurancePrice)
    && m.workIncapacityInsurancePrice == Monthly(y.workIncapacityInsurancePrice)
    && m.hospitalizationInsurancePrice == Monthly(y.hospitalizationInsurancePrice)
    && m.invalidityInsurancePrice == Monthly(y.invalidityInsurancePrice)
  }

  /** `CalculatePrice` once the profile has been read from the store. */
  function CalculatePrice(productData: LifeInsuranceProductCalcRequest, product: Fetched<LifeInsuranceProduct>)
    : (res: BaseResponse<LifeInsuranceCalcResponse>)
    ensures product.Threw? ==> res == Failed(StoreFault)
    ensures product.NullResult? ==> res == NotFound(ProductNotFound(productData.productId))
    ensures res.data.Some? <==> res.status == OK
    ensures res.status == OK ==> Consistent(res.data.value)
    ensures res.status == OK ==>
      var p := product.value;
      var y := res.data.value.yearlyLifeInsurance;
      && Some(y.deathInsurancePrice) == ItemYearly(CalculateItemPrice(true, productData.deathInsurance, p.deathCoefficient,
           productData.isSmoker, p.smokerCoefficient, productData.doesSport, p.sportCoefficient))
      && Some(y.workIncapacityInsurancePrice) == ItemYearly(CalculateItemPrice(false, productData.workIncapacityInsurance,
           p.workIncapacityCoefficient, productData.isSmoker, p.smokerCoefficient, productData.doesSport, p.sportCoefficient))
      && Some(y.injuriesInsurancePrice) == ItemYearly(InjuryPrice(productData, p))
      && Some(y.diseasesInsurancePrice) == ItemYearly(DiseasePrice(productData, p))
      && Some(y.hospitalizationInsurancePrice) == ItemYearly(HospitalizationPrice(productData, p))
      && Some(y.invalidityInsurancePrice) == ItemYearly(InvalidityPrice(productData, p))
    ensures product.Found? ==> (res.status == OK <==> Priceable(productData, product.value))
    ensures product.Found? && res.status != OK ==> res == Failed(Overflow)
  {
    match product
    case Threw => Failed(StoreFault)
    case NullResult => NotFound(ProductNotFound(productData.productId))
    case Found(p) =>
      var death := DeathPrice(productData, p);
      var injury := InjuryPrice(productData, p);
      var disease := DiseasePrice(productData, p);
      var workIncapacity := WorkIncapacityPrice(productData, p);
      var invalidity := InvalidityPrice(productData, p);
      var hospitalization := HospitalizationPrice(productData, p);
      if death.None? || injury.None? || disease.None? || workIncapacity.None? || invalidity.None? || hospitalization.None? then
        Failed(Overflow)
      else
        var yearly := [death.value.yearly, injury.value.yearly, disease.value.yearly,
                       workIncapacity.value.yearly, hospitalization.value.yearly, invalidity.value.yearly];
        var monthly := [death.value.monthly, injury.value.monthly, disease.value.monthly,
                        workIncapacity.value.monthly, hospitalization.value.monthly, invalidity.value.monthly];
        var yearlyTotal := CheckedSum(yearly);
        var monthlyTotal := CheckedSum(monthly);
        PricedMonthly(death, injury, disease, workIncapacity, invalidity, hospitalization, productData, p);
        RunningSumsFitWhenSmall(monthly, 178956971);
        if yearlyTotal.None? || monthlyTotal.None? then
          Failed(Overflow)
        else
          SumOfSix(yearly);
          SumOfSix(monthly);
          Success(LifeInsuranceCalcResponse(
            InsurancePrice(death.value.yearly, injury.value.yearly, disease.value.yearly,
                           workIncapacity.value.yearly, hospitalization.value.yearly, invalidity.value.yearly,
                           yearlyTotal.value),
            InsurancePrice(death.value.monthly, injury.value.monthly, disease.value.monthly,
                           workIncapacity.value.monthly, hospitalization.value.monthly, invalidity.value.monthly,
                           monthlyTotal.value)))
  }

  function ItemYearly(r: Option<ItemPrice>): Option<int> {
    if r.Some? then Some(r.value.yearly) else None
  }

  lemma SumOfSix(xs: seq<int>)
    requires |xs| == 6
    ensures Sum(xs) == xs[0] + xs[1] + xs[2] + xs[3] + xs[4] + xs[5]
  {
    assert xs[..5][..4] == xs[..4];
    assert xs[..4][..3] == xs[..3];
    assert xs[..3][..2] == xs[..2];
    assert xs[..2][..1] == xs[..1];
    assert xs[..1][..0] == [];
    assert Sum(xs[..1]) == xs[0];
    assert Sum(xs[..2]) == xs[0] + xs[1];
    assert Sum(xs[..3]) == xs[0] + xs[1] + xs[2];
    assert Sum(xs[..4]) == xs[0] + xs[1] + xs[2] + xs[3];
    assert Sum(xs[..5]) == xs[0] + xs[1] + xs[2] + xs[3] + xs[4];
  }

  /** Every benefit's monthly price is its yearly price over twelve. */
  lemma PricedMonthly(
    death: Option<ItemPrice>, injury: Option<ItemPrice>, disease: Option<ItemPrice>,
    workIncapacity: Option<ItemPrice>, invalidity: Option<ItemPrice>, hospitalization: Option<ItemPrice>,
    d: LifeInsuranceProductCalcRequest, p: LifeInsuranceProduct)
    requires death == DeathPrice(d, p) && injury == InjuryPrice(d, p) && disease == DiseasePrice(d, p)
    requires workIncapacity == WorkIncapacityPrice(d, p) && invalidity == InvalidityPrice(d, p)
    requires hospitalization == HospitalizationPrice(d, p)
    ensures death.Some? ==> death.value.monthly == Monthly(death.value.yearly)
    ensures injury.Some? ==> injury.value.monthly == Monthly(injury.value.yearly)
    ensures disease.Some? ==> disease.value.monthly == Monthly(disease.value.yearly)
    ensures workIncapacity.Some? ==> workIncapacity.value.monthly == Monthly(workIncapacity.value.yearly)
    ensures invalidity.Some? ==> invalidity.value.monthly == Monthly(invalidity.value.yearly)
    ensures hospitalization.Some? ==> hospitalization.value.monthly == Monthly(hospitalization.value.yearly)
  {
  }

  /** The monthly total is the sum of the truncated monthly prices, not the
      yearly total over twelve: two benefits of 6 a year each cost 12 a
      year and 0 a month. */
  lemma MonthlyTotalIsNotYearlyTotalOverTwelve()
    ensures var d := LifeInsuranceProductCalcRequest(Some("p"), None, 0, 0, 0, 6, 6, 0, 1, 0, false, false);
            var p := LifeInsuranceProduct("p", "n", 1.0, 1.0, 1.0, 1.0, 1.0, 1.0, 0.0, 0.0, 0.0);
            var r := CalculatePrice(d, Found(p));
            && r.status == OK
            && r.data.value.yearlyLifeInsurance.totalInsurancePrice == 12
            && r.data.value.monthlyLifeInsurance.totalInsurancePrice == 0
  {
    var d := LifeInsuranceProductCalcRequest(Some("p"), None, 0, 0, 0, 6, 6, 0, 1, 0, false, false);
    var p := LifeInsuranceProduct("p", "n", 1.0, 1.0, 1.0, 1.0, 1.0, 1.0, 0.0, 0.0, 0.0);
    ZeroAmountIsFree(true, 1.0, false, 0.0, false, 0.0, 0, false, 1);
    assert RoundHalfEven(6.0) == 6;
    assert WorkIncapacityPrice(d, p) == Some(ItemPrice(6, 0));
    assert CalculateItemPrice(false, 6, 1.0, false, 0.0, false, 0.0) == Some(ItemPrice(6, 0));
    assert Wrap32(6 * (1 / 1000 + 1)) == 6;
    assert HospitalizationPrice(d, p) == Some(ItemPrice(6, 0));
    assert DeathPrice(d, p) == Some(ItemPrice(0, 0));
    assert InjuryPrice(d, p) == Some(ItemPrice(0, 0));
    assert DiseasePrice(d, p) == Some(ItemPrice(0, 0));
    assert InvalidityPrice(d, p) == Some(ItemPrice(0, 0));
    RunningSumsFitWhenSmall([0, 0, 0, 6, 6, 0], 6);
    RunningSumsFitWhenSmall([0, 0, 0, 0, 0, 0], 0);
    SumOfSix([0, 0, 0, 6, 6, 0]);
  }

  /** A smoker asking for 100000 of death cover at coefficient 5.0 and a 10%
      smoker surcharge pays 550 a year and 45 a month for it. */
  lemma SmokerDeathCoverScenario()
    ensures CalculateItemPrice(true, 100000, 5.0, true, 10.0, false, -5.0) == Some(ItemPrice(550, 45))
  {
    assert PricingUnits(true, 100000) as real * 5.0 * SurchargeFactor(true, 10.0, false, -5.0) == 550.0;
    assert RoundHalfEven(550.0) == 550;
  }
}
