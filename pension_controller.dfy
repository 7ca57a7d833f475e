/** The guard clauses of the pension projection endpoint. */
module PensionController {
  import opened CSharp
  import opened Responses
  import Constants
  import Pension

  datatype PensionCall = CalculatePension(request: Pension.PensionCalcRequest)

  /** A strategy name the guard admits: its lower-case form is that of one
      of the three display names. */
  predicate KnownStrategy(strategy: string) {
    || ToLower(strategy) == ToLower(Constants.Balanced)
    || ToLower(strategy) == ToLower(Constants.Conservative)
    || ToLower(strategy) == ToLower(Constants.Dynamic)
  }

  /** `GetPensionValue`: a null strategy throws when it is lower-cased, an
      unknown one and a zero user contribution are refused; anything else
      (any age, any product id) is forwarded unchanged. */
  function GetPensionValue(request: Pension.PensionCalcRequest): (d: Dispatch<PensionCall>)
    ensures request.pensionStrategy.None? ==> d == Rejected(NullReferenceException)
    ensures d.Forwarded? <==>
              request.pensionStrategy.Some? && KnownStrategy(request.pensionStrategy.value) &&
              request.userContribution != 0.0
    ensures request.pensionStrategy.Some? && d.Rejected? ==> d.exception == ArgumentException
    ensures d.Forwarded? ==> d.call == CalculatePension(request)
  {
    if request.pensionStrategy.None? then Rejected(NullReferenceException)
    else if !KnownStrategy(request.pensionStrategy.value) then Rejected(ArgumentException)
    else if request.userContribution == 0.0 then Rejected(ArgumentException)
    else Forwarded(CalculatePension(request))
  }

  /** Lower-casing a name whose first letter is an ASCII capital and whose
      other letters are already lower case changes only the first letter. */
  lemma LowerCaseCapitalised(s: string, lower: string)
    requires |s| == |lower| > 0 && 'A' <= s[0] <= 'Z' && lower[0] == (s[0] as int + 32) as char
    requires forall i :: 1 <= i < |s| ==> s[i] == lower[i] && ToLowerChar(lower[i]) == lower[i]
    ensures ToLower(s) == lower
  {
  }

  /** The lower-case forms of the three display names. */
  lemma LowerCaseDynamic()
    ensures ToLower(Constants.Dynamic) == "dynamická"
  {
    assert ToLowerChar('á') == 'á';
    LowerCaseCapitalised(Constants.Dynamic, "dynamická");
  }

  lemma LowerCaseConservative()
    ensures ToLower(Constants.Conservative) == "konzervativní"
  {
    assert ToLowerChar('í') == 'í';
    LowerCaseCapitalised(Constants.Conservative, "konzervativní");
  }

  lemma LowerCaseBalanced()
    ensures ToLower(Constants.Balanced) == "vyvážená"
  {
    assert ToLowerChar('á') == 'á' && ToLowerChar('ž') == 'ž';
    LowerCaseCapitalised(Constants.Balanced, "vyvážená");
  }

  /** The guard admits a strategy exactly when its lower-case form is one
      of "vyvážená", "konzervativní" and "dynamická". */
  lemma KnownStrategyNames(strategy: string)
    ensures KnownStrategy(strategy) <==>
              ToLower(strategy) == "vyvážená" || ToLower(strategy) == "konzervativní" || ToLower(strategy) == "dynamická"
  {
    LowerCaseBalanced();
    LowerCaseConservative();
    LowerCaseDynamic();
  }

  /** The display name "Dynamická" passes the guard, but it reaches the
      service in its original case and is priced at the balanced rate; the
      lower-case "dynamická" is priced at the dynamic rate. */
  lemma DisplayNamePassesButGetsBalancedRate(request: Pension.PensionCalcRequest, product: Pension.PensionProduct)
    requires request.userContribution != 0.0
    ensures var r := request.(pensionStrategy := Some(Constants.Dynamic));
            && GetPensionValue(r) == Forwarded(CalculatePension(r))
            && Pension.GetStrategyInterestrate(product, GetPensionValue(r).call.request.pensionStrategy)
                 == product.balancedPercentage
    ensures var r := request.(pensionStrategy := Some("dynamická"));
            && GetPensionValue(r) == Forwarded(CalculatePension(r))
            && Pension.GetStrategyInterestrate(product, GetPensionValue(r).call.request.pensionStrategy)
                 == product.dynamicPercentage
  {
    LowerCaseDynamic();
    assert ToLowerChar('á') == 'á';
    assert ToLower("dynamická") == "dynamická";
    Pension.DisplayNamesGetBalancedRate(product);
  }

  /** Age is not checked: two requests that differ only in age are
      treated alike. */
  lemma AgeIsNotChecked(request: Pension.PensionCalcRequest, age: Int32)
    ensures GetPensionValue(request.(userAge := age)).Forwarded? == GetPensionValue(request).Forwarded?
  {
  }

  /** Negative user contributions pass the guard. */
  lemma NegativeContributionPasses(request: Pension.PensionCalcRequest)
    requires request.pensionStrategy == Some(Constants.Balanced)
    requires request.userContribution < 0.0
    ensures GetPensionValue(request).Forwarded?
  {
  }
}
