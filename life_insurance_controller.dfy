/** The guard clauses of the life-insurance endpoints: which requests are
    refused with an exception and which reach the service. */
module LifeInsuranceController {
  import opened CSharp
  import opened Responses
  import LifeInsurance

  /** The service call an accepted request turns into. */
  datatype LifeInsuranceCall =
    | GetOne(id: string)
    | GetOneByProductId(productId: string)
    | GetProductIdFromId(id: string)
    | CalculatePrice(request: LifeInsurance.LifeInsuranceProductCalcRequest)

  /** Looking a product up by database id: a null or empty id is refused. */
  function GetLifeInsuraceProductById(id: Option<string>): (d: Dispatch<LifeInsuranceCall>)
    ensures d.Rejected? <==> IsNullOrEmpty(id)
    ensures d.Rejected? ==> d.exception == ArgumentException
    ensures d.Forwarded? ==> d.call == GetOne(id.value) && id.value != ""
  {
    if IsNullOrEmpty(id) then Rejected(ArgumentException) else Forwarded(GetOne(id.value))
  }

  /** Looking a product up by product id: a null or empty id is refused. */
  function GetLifeInsuraceProductByProductId(productId: Option<string>): (d: Dispatch<LifeInsuranceCall>)
    ensures d.Rejected? <==> IsNullOrEmpty(productId)
    ensures d.Rejected? ==> d.exception == ArgumentException
    ensures d.Forwarded? ==> d.call == GetOneByProductId(productId.value) && productId.value != ""
  {
    if IsNullOrEmpty(productId) then Rejected(ArgumentException) else Forwarded(GetOneByProductId(productId.value))
  }

  /** Mapping a database id to its product id: a null or empty id is refused. */
  function GetLifeInsuraceProductId(id: Option<string>): (d: Dispatch<LifeInsuranceCall>)
    ensures d.Rejected? <==> IsNullOrEmpty(id)
    ensures d.Rejected? ==> d.exception == ArgumentException
    ensures d.Forwarded? ==> d.call == GetProductIdFromId(id.value) && id.value != ""
  {
    if IsNullOrEmpty(id) then Rejected(ArgumentException) else Forwarded(GetProductIdFromId(id.value))
  }

  /** A premium calculation: refused when the product id is null or empty,
      or when hospitalization cover is asked for with a stay shorter than
      one day; otherwise forwarded unchanged. */
  function CalculateLifeInsurance(request: LifeInsurance.LifeInsuranceProductCalcRequest): (d: Dispatch<LifeInsuranceCall>)
    ensures d.Rejected? <==>
              IsNullOrEmpty(request.productId) ||
              (request.hospitalizationInsurance > 0 && request.hospitalizationLength < 1)
    ensures d.Rejected? ==> d.exception == ArgumentException
    ensures d.Forwarded? ==> d.call == CalculatePrice(request)
  {
    if IsNullOrEmpty(request.productId) then Rejected(ArgumentException)
    else if request.hospitalizationInsurance > 0 && request.hospitalizationLength < 1 then Rejected(ArgumentException)
    else Forwarded(CalculatePrice(request))
  }

  /** Only the product id and the hospitalization stay are checked: any
      other field may be negative, a smoker or sport flag anything, and the
      request still goes through. */
  lemma OnlyProductIdAndStayAreChecked(request: LifeInsurance.LifeInsuranceProductCalcRequest, other: LifeInsurance.LifeInsuranceProductCalcRequest)
    requires other.productId == request.productId
    requires other.hospitalizationInsurance > 0 <==> request.hospitalizationInsurance > 0
    requires other.hospitalizationLength == request.hospitalizationLength
    ensures CalculateLifeInsurance(other).Forwarded? <==> CalculateLifeInsurance(request).Forwarded?
  {
  }

  /** A forwarded request with hospitalization cover has a stay of at least
      one day, so its hospitalization price is the base price times the
      non-negative-length multiplier `length / 1000 + 1`. */
  lemma ForwardedHospitalizationUsesLengthMultiplier(
    request: LifeInsurance.LifeInsuranceProductCalcRequest, p: LifeInsurance.LifeInsuranceProduct)
    requires CalculateLifeInsurance(request).Forwarded?
    requires request.hospitalizationInsurance > 0
    ensures request.hospitalizationLength >= 1
    ensures var b := LifeInsurance.CalculateItemPrice(false, request.hospitalizationInsurance, p.hospitalizationCoefficient,
                                                      request.isSmoker, p.smokerCoefficient, request.doesSport, p.sportCoefficient);
            var r := LifeInsurance.HospitalizationPrice(request, p);
            r.Some? ==> r.value.yearly == Wrap32(b.value.yearly * (request.hospitalizationLength / 1000 + 1))
  {
  }
}
