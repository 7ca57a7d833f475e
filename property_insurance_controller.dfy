/** The guard clauses of the property-insurance endpoints. */
module PropertyInsuranceController {
  import opened CSharp
  import opened Responses
  import PropertyInsurance

  datatype PropertyInsuranceCall =
    | GetOne(id: string)
    | CalculatePropertyInsurance(request: PropertyInsurance.PropertyInsuranceProductCalcRequest)

  /** Looking a product up by id: a null or empty id is refused. */
  function GetPropertyInsuranceProduct(id: Option<string>): (d: Dispatch<PropertyInsuranceCall>)
    ensures d.Rejected? <==> IsNullOrEmpty(id)
    ensures d.Rejected? ==> d.exception == ArgumentException
    ensures d.Forwarded? ==> d.call == GetOne(id.value) && id.value != ""
  {
    if IsNullOrEmpty(id) then Rejected(ArgumentException) else Forwarded(GetOne(id.value))
  }

  /** A premium calculation: refused for a null or empty product id, an
      area below one square metre, or no component chosen; otherwise
      forwarded unchanged. */
  function CalculatePropertyInsurance(request: PropertyInsurance.PropertyInsuranceProductCalcRequest)
    : (d: Dispatch<PropertyInsuranceCall>)
    ensures d.Rejected? <==>
              || IsNullOrEmpty(request.productId)
              || request.squareMeters < 1
              || (!request.shouldCalculateProperty && !request.shouldCalculateEquipment && !request.shouldCalculateLiability)
    ensures d.Rejected? ==> d.exception == ArgumentException
    ensures d.Forwarded? ==> d.call == PropertyInsuranceCall.CalculatePropertyInsurance(request)
  {
    if IsNullOrEmpty(request.productId) then Rejected(ArgumentException)
    else if request.squareMeters < 1 then Rejected(ArgumentException)
    else if !request.shouldCalculateProperty && !request.shouldCalculateEquipment && !request.shouldCalculateLiability
    then Rejected(ArgumentException)
    else Forwarded(PropertyInsuranceCall.CalculatePropertyInsurance(request))
  }

  lemma PositiveProduct(a: real, b: real)
    requires a > 0.0 && b > 0.0
    ensures a * b > 0.0
  {
  }

  /** Downstream of the guard: for a product with positive rates, a
      forwarded request whose property type is given always costs
      something in total. */
  lemma ForwardedRequestHasPositiveTotal(
    request: PropertyInsurance.PropertyInsuranceProductCalcRequest,
    names: PropertyInsurance.PropertyTypeNames,
    p: PropertyInsurance.PropertyInsuranceProduct)
    requires CalculatePropertyInsurance(request).Forwarded?
    requires request.propertyType.Some?
    requires p.housePerMeterSquareCoefficient > 0.0 && p.flatPerMeterSquareCoefficient > 0.0
    requires p.garagePerMeterSquareCoefficient > 0.0
    requires p.equipmentCoefficient > 0.0 && p.liabilityCoefficient > 0.0
    ensures PropertyInsurance.CalculatePropertyInsurance(request, names, Found(p)).status == OK
    ensures PropertyInsurance.CalculatePropertyInsurance(request, names, Found(p)).data.value.totalCalc.totalPrice > 0.0
  {
    var rate := PropertyInsurance.GetCoefficient(request.propertyType.value, names, p);
    var area := request.squareMeters as real;
    PositiveProduct(rate, area);
    PositiveProduct(p.equipmentCoefficient, area);
    PositiveProduct(p.liabilityCoefficient, area);
    var total := PropertyInsurance.CalculatePropertyInsurance(request, names, Found(p)).data.value.totalCalc;
    assert total.propertyPrice >= 0.0 && total.equipmentPrice >= 0.0 && total.liabilityPrice >= 0.0;
  }
}
