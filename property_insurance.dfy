/** The property-insurance premium calculator: a per-square-metre rate
    chosen by property type, plus equipment and liability rates, each
    switched on or off by the request and multiplied by the floor area. */
module PropertyInsurance {
  import opened CSharp
  import opened Responses

  /** A product's coefficient profile (all rates are per square metre). */
  datatype PropertyInsuranceProduct = PropertyInsuranceProduct(
    productId: string,
    name: string,
    housePerMeterSquareCoefficient: real,
    flatPerMeterSquareCoefficient: real,
    garagePerMeterSquareCoefficient: real,
    equipmentCoefficient: real,
    liabilityCoefficient: real)

  datatype PropertyInsuranceProductCalcRequest = PropertyInsuranceProductCalcRequest(
    productId: Option<string>,
    email: Option<string>,
    propertyType: Option<string>,
    street: string,
    city: string,
    zipCode: string,
    squareMeters: Int32,
    shouldCalculateProperty: bool,
    shouldCalculateEquipment: bool,
    shouldCalculateLiability: bool)

  /** One breakdown: the three component prices and their total. */
  datatype PropertyInsuranceCalc = PropertyInsuranceCalc(
    propertyPrice: real,
    equipmentPrice: real,
    liabilityPrice: real,
    totalPrice: real)

  datatype PropertyInsuranceCalcResponse = PropertyInsuranceCalcResponse(
    perMeterSquareCalc: PropertyInsuranceCalc,
    totalCalc: PropertyInsuranceCalc)

  /** The house and flat property-type names, read from the resource file
      (`None` when the lookup yields null, which never equals a string). */
  datatype PropertyTypeNames = PropertyTypeNames(house: Option<string>, flat: Option<string>)

  /** The per-metre property rate: an exact, case-sensitive match on the
      house name, then on the flat name; anything else is a garage. */
  function GetCoefficient(propertyType: string, names: PropertyTypeNames, product: PropertyInsuranceProduct): (rate: real)
    ensures names.house == Some(propertyType) ==> rate == product.housePerMeterSquareCoefficient
    ensures names.house != Some(propertyType) && names.flat == Some(propertyType) ==>
              rate == product.flatPerMeterSquareCoefficient
    ensures names.house != Some(propertyType) && names.flat != Some(propertyType) ==>
              rate == product.garagePerMeterSquareCoefficient
  {
    if names.house == Some(propertyType) then product.housePerMeterSquareCoefficient
    else if names.flat == Some(propertyType) then product.flatPerMeterSquareCoefficient
    else product.garagePerMeterSquareCoefficient
  }

  /** The private `CalculatePropertyInsurance`: each enabled component is its
      rate times the floor area, a disabled one is 0, and the total is their
      sum. Note the order of the two coefficient parameters. */
  function CalculateComponentPrices(
    data: PropertyInsuranceProductCalcRequest,
    liabilityCoefficient: real,
    equipmentyCoefficient: real,
    coefficient: real): (r: PropertyInsuranceCalc)
    ensures r.propertyPrice == if data.shouldCalculateProperty then coefficient * data.squareMeters as real else 0.0
    ensures r.equipmentPrice == if data.shouldCalculateEquipment then equipmentyCoefficient * data.squareMeters as real else 0.0
    ensures r.liabilityPrice == if data.shouldCalculateLiability then liabilityCoefficient * data.squareMeters as real else 0.0
    ensures r.totalPrice == r.propertyPrice + r.equipmentPrice + r.liabilityPrice
  {
    var area := data.squareMeters as real;
    var propertyPrice := if data.shouldCalculateProperty then coefficient * area else 0.0;
    var equipmentPrice := if data.shouldCalculateEquipment then equipmentyCoefficient * area else 0.0;
    var liabilityPrice := if data.shouldCalculateLiability then liabilityCoefficient * area else 0.0;
    PropertyInsuranceCalc(propertyPrice, equipmentPrice, liabilityPrice, propertyPrice + equipmentPrice + liabilityPrice)
  }

  /** The per-square-metre breakdown: each enabled component's rate, and
      the sum of all three rates whatever the toggles. */
  function PerMeterCalc(
    request: PropertyInsuranceProductCalcRequest, product: PropertyInsuranceProduct, perMeterPropertyPrice: real)
    : (r: PropertyInsuranceCalc)
    ensures r.propertyPrice == if request.shouldCalculateProperty then perMeterPropertyPrice else 0.0
    ensures r.equipmentPrice == if request.shouldCalculateEquipment then product.equipmentCoefficient else 0.0
    ensures r.liabilityPrice == if request.shouldCalculateLiability then product.liabilityCoefficient else 0.0
    ensures r.totalPrice == perMeterPropertyPrice + product.equipmentCoefficient + product.liabilityCoefficient
    ensures request.shouldCalculateProperty && request.shouldCalculateEquipment && request.shouldCalculateLiability ==>
              r.totalPrice == r.propertyPrice + r.equipmentPrice + r.liabilityPrice
  {
    PropertyInsuranceCalc(
      if request.shouldCalculateProperty then perMeterPropertyPrice else 0.0,
      if request.shouldCalculateEquipment then product.equipmentCoefficient else 0.0,
      if request.shouldCalculateLiability then product.liabilityCoefficient else 0.0,
      perMeterPropertyPrice + product.equipmentCoefficient + product.liabilityCoefficient)
  }

  /** The public `CalculatePropertyInsurance` once the profile has been read.
      It passes the equipment coefficient where the private function expects
      the liability one and vice versa. */
  function CalculatePropertyInsurance(
    request: PropertyInsuranceProductCalcRequest, names: PropertyTypeNames, product: Fetched<PropertyInsuranceProduct>)
    : (res: BaseResponse<PropertyInsuranceCalcResponse>)
    ensures product.Threw? ==> res == Failed(StoreFault)
    ensures product.NullResult? ==> res == NotFound(ProductNotFound(request.productId))
    ensures product.Found? && request.propertyType.None? ==> res == Failed(NullReference)
    ensures res.status == OK <==> product.Found? && request.propertyType.Some?
    ensures res.status == OK ==> res.data.Some?
    ensures res.status == OK ==>
      var p := product.value;
      var rate := GetCoefficient(request.propertyType.value, names, p);
      var area := request.squareMeters as real;
      var perMeter := res.data.value.perMeterSquareCalc;
      var total := res.data.value.totalCalc;
      && total.totalPrice == total.propertyPrice + total.equipmentPrice + total.liabilityPrice
      && perMeter.totalPrice == rate + p.equipmentCoefficient + p.liabilityCoefficient
      && (request.shouldCalculateProperty ==> total.propertyPrice == rate * area && perMeter.propertyPrice == rate)
      && (request.shouldCalculateEquipment ==>
            total.equipmentPrice == p.liabilityCoefficient * area && perMeter.equipmentPrice == p.equipmentCoefficient)
      && (request.shouldCalculateLiability ==>
            total.liabilityPrice == p.equipmentCoefficient * area && perMeter.liabilityPrice == p.liabilityCoefficient)
      && (!request.shouldCalculateProperty ==> total.propertyPrice == 0.0 && perMeter.propertyPrice == 0.0)
      && (!request.shouldCalculateEquipment ==> total.equipmentPrice == 0.0 && perMeter.equipmentPrice == 0.0)
      && (!request.shouldCalculateLiability ==> total.liabilityPrice == 0.0 && perMeter.liabilityPrice == 0.0)
  {
    match product
    case Threw => Failed(StoreFault)
    case NullResult => NotFound(ProductNotFound(request.productId))
    case Found(p) =>
      if request.propertyType.None? then Failed(NullReference)
      else
        var perMeterPropertyPrice := GetCoefficient(request.propertyType.value, names, p);
        var calcResult := CalculateComponentPrices(request, p.equipmentCoefficient, p.liabilityCoefficient, perMeterPropertyPrice);
        Success(PropertyInsuranceCalcResponse(PerMeterCalc(request, p, perMeterPropertyPrice), calcResult))
  }

  /** With all three components enabled, the total premium is the sum of
      the per-metre rates times the area (the swap cancels out). */
  lemma AllComponentsTotalIsPerMeterTimesArea(
    request: PropertyInsuranceProductCalcRequest, names: PropertyTypeNames, p: PropertyInsuranceProduct)
    requires request.propertyType.Some?
    requires request.shouldCalculateProperty && request.shouldCalculateEquipment && request.shouldCalculateLiability
    ensures var r := CalculatePropertyInsurance(request, names, Found(p)).data.value;
            r.totalCalc.totalPrice == r.perMeterSquareCalc.totalPrice * request.squareMeters as real
  {
    var rate := GetCoefficient(request.propertyType.value, names, p);
    var area := request.squareMeters as real;
    assert rate * area + p.liabilityCoefficient * area + p.equipmentCoefficient * area
        == (rate + p.equipmentCoefficient + p.liabilityCoefficient) * area;
  }

  /** The swap shows whenever exactly one of equipment and liability is
      enabled: a 30/m2 equipment cover on 80 m2 is priced 800 (the 10/m2
      liability rate) instead of 2400, and the total with it. */
  lemma SwappedCoefficientsChangeTotal(h: string, f: string)
    ensures var names := PropertyTypeNames(Some(h), Some(f));
            var request := PropertyInsuranceProductCalcRequest(Some("id"), None, Some(h), "", "", "", 80, false, true, false);
            var p := PropertyInsuranceProduct("id", "n", 120.0, 100.0, 50.0, 30.0, 10.0);
            var r := CalculatePropertyInsurance(request, names, Found(p)).data.value;
            && r.totalCalc.equipmentPrice == 800.0
            && r.totalCalc.totalPrice == 800.0
            && r.perMeterSquareCalc.equipmentPrice * 80.0 == 2400.0
  {
  }

  /** The three-component example: a 120/m2 house of 80 m2 with 30/m2
      equipment and 10/m2 liability cover totals 12800, of which equipment
      shows 800 and liability 2400. */
  lemma HouseExample(h: string, f: string)
    ensures var names := PropertyTypeNames(Some(h), Some(f));
            var request := PropertyInsuranceProductCalcRequest(Some("id"), None, Some(h), "", "", "", 80, true, true, true);
            var p := PropertyInsuranceProduct("id", "n", 120.0, 100.0, 50.0, 30.0, 10.0);
            CalculatePropertyInsurance(request, names, Found(p)).data.value.totalCalc
              == PropertyInsuranceCalc(9600.0, 800.0, 2400.0, 12800.0)
  {
  }

  /** The total breakdown the code evidently intends: each coefficient
      passed to its own parameter. */
  function IntendedTotalCalc(
    request: PropertyInsuranceProductCalcRequest, p: PropertyInsuranceProduct, perMeterPropertyPrice: real)
    : (total: PropertyInsuranceCalc)
    ensures var perMeter := PerMeterCalc(request, p, perMeterPropertyPrice);
            var area := request.squareMeters as real;
            && total.propertyPrice == perMeter.propertyPrice * area
            && total.equipmentPrice == perMeter.equipmentPrice * area
            && total.liabilityPrice == perMeter.liabilityPrice * area
            && total.totalPrice == total.propertyPrice + total.equipmentPrice + total.liabilityPrice
  {
    CalculateComponentPrices(request, p.liabilityCoefficient, p.equipmentCoefficient, perMeterPropertyPrice)
  }

  /** The code as written agrees with the intended breakdown exactly when
      the swap cannot show: both or neither of equipment and liability
      enabled, or equal coefficients (or no area). */
  lemma SwapIsHarmlessOnlyWhenSymmetric(
    request: PropertyInsuranceProductCalcRequest, names: PropertyTypeNames, p: PropertyInsuranceProduct)
    requires request.propertyType.Some?
    ensures var rate := GetCoefficient(request.propertyType.value, names, p);
            var written := CalculatePropertyInsurance(request, names, Found(p)).data.value.totalCalc;
            var intended := IntendedTotalCalc(request, p, rate);
            (written.totalPrice == intended.totalPrice) <==>
              (|| request.shouldCalculateEquipment == request.shouldCalculateLiability
               || p.equipmentCoefficient == p.liabilityCoefficient
               || request.squareMeters == 0)
  {
    var rate := GetCoefficient(request.propertyType.value, names, p);
    var area := request.squareMeters as real;
    var written := CalculatePropertyInsurance(request, names, Found(p)).data.value.totalCalc;
    var intended := IntendedTotalCalc(request, p, rate);
    var e := p.equipmentCoefficient;
    var l := p.liabilityCoefficient;
    var equipmentOn := request.shouldCalculateEquipment;
    var liabilityOn := request.shouldCalculateLiability;
    var property := if request.shouldCalculateProperty then rate * area else 0.0;
    assert written.totalPrice == property + (if equipmentOn then l * area else 0.0) + (if liabilityOn then e * area else 0.0) by {
      assert written == CalculateComponentPrices(request, e, l, rate);
    }
    assert intended.totalPrice == property + (if equipmentOn then e * area else 0.0) + (if liabilityOn then l * area else 0.0) by {
      assert intended == CalculateComponentPrices(request, l, e, rate);
    }
    assert request.squareMeters == 0 <==> area == 0.0;
    SwappedTotalsAgree(property, e, l, area, equipmentOn, liabilityOn);
  }

  /** The two totals, with the equipment and liability rates swapped or
      not, agree exactly when the toggles agree, the rates do or the area
      is zero. */
  lemma SwappedTotalsAgree(property: real, e: real, l: real, area: real, equipmentOn: bool, liabilityOn: bool)
    ensures (property + (if equipmentOn then l * area else 0.0) + (if liabilityOn then e * area else 0.0)
             == property + (if equipmentOn then e * area else 0.0) + (if liabilityOn then l * area else 0.0))
            <==> (equipmentOn == liabilityOn || e == l || area == 0.0)
  {
    if equipmentOn != liabilityOn {
      ScaledRatesEqual(e, l, area);
    }
  }

  /** Two rates times one area agree exactly when the rates do or the area
      is zero. */
  lemma ScaledRatesEqual(x: real, y: real, area: real)
    ensures x * area == y * area <==> x == y || area == 0.0
  {
    if x * area == y * area && area != 0.0 {
      assert (x - y) * area == 0.0;
    }
  }
}
