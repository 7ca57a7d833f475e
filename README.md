# Insurance and pension calculators

A model of the calculation engine of an insurance and pension web backend,
and the request guards in front of it:

- **Life insurance** (`LifeInsurance`). Six benefits are priced: death,
  injuries, diseases, work incapacity, invalidity and hospitalization. Each
  price is the requested amount times the product's coefficient. One-time
  payouts count whole thousands. Smoker and sport surcharges are each taken
  off the same unsurcharged base. The result goes through `Convert.ToInt32`
  and then through the invalidity-level or hospitalization-length steps.
  Each benefit has a yearly price and a truncated monthly price, and the two
  price sets have checked totals.
- **Property insurance** (`PropertyInsurance`). A per-square-metre rate is
  chosen by property type, plus equipment and liability rates. Each is
  switched on by the request. The response holds a per-metre breakdown and
  a total breakdown that is multiplied by the floor area.
- **Pension projection** (`Pension`). A state contribution is found by
  scanning a tiered schedule, and a rate is chosen by strategy name. The
  monthly contributions are compounded year by year until age 65. The
  result also has the valorization (interest earned above what was paid
  in) and the lifetime state contribution.
- **Controllers** (`LifeInsuranceController`, `PropertyInsuranceController`,
  `PensionController`). These are the guard clauses that either throw
  `ArgumentException` (or `NullReferenceException`) or forward the request
  to its service unchanged.

`CSharp` models the C# behaviour the arithmetic depends on:

- 32-bit `int`;
- division that truncates toward zero;
- unchecked wrap-around (`Wrap32`);
- `Convert.ToInt32(double)`, which rounds half to even and throws outside
  the `int` range;
- `string.IsNullOrEmpty`;
- `ToLower` for the Latin letters the strategy names use.

LINQ's checked `Sum()` over the six benefit prices (`CheckedSum`) lives in
`LifeInsurance`, beside its only use.

`Responses` models the `BaseResponse<T>` envelope. A store read is a
parameter of type `Fetched<T>`:

- `Found`: the record.
- `NullResult`: the NOT_FOUND branch.
- `Threw`: an exception, answered INTERNAL_SERVER_ERROR. `FirstAsync` throws
  when no document matches.

A `null` string is `None` in an `Option<string>`. `double` and `float` are
`real`.

Points where the code's behaviour is easy to mistake:

- The yearly price is rounded half to even by `Convert.ToInt32`
  (Services/LifeInsuranceService.cs:345), not truncated.
- The invalidity and hospitalization multipliers are applied in `int`
  arithmetic after that rounding (Services/LifeInsuranceService.cs:363-368,
  385-390).
- The tier scan compares each threshold with the state value chosen so far,
  not with the largest threshold found so far
  (Services/PensionService.cs:220). It agrees with "the value of the largest
  threshold not above the contribution" on a schedule whose thresholds
  ascend and whose state values lie below their own thresholds, a leading
  tier (0, 0) allowed. That condition is sufficient, not necessary.
  `Pension.ScanFindsLargestReachedTier` proves that agreement and
  `Pension.ScanComparesAgainstChosenStateValue` shows the two part ways.
- A year count of zero or less runs the compounding loop no times.
  `StateContributionTotal` uses the year count unclamped.

## Model

| member | source | states |
|---|---|---|
| CSharp.Div | Services/LifeInsuranceService.cs:335 | integer division with a positive divisor truncates toward zero: the quotient brackets the dividend from below for non-negative and from above for negative dividends |
| CSharp.Wrap32 | Services/LifeInsuranceService.cs:366 | unchecked `int` multiplication: the result is congruent to the exact product modulo 2^32 and equals it whenever it fits |
| CSharp.RoundHalfEven | Services/LifeInsuranceService.cs:345 | `Convert.ToInt32` rounds to a nearest integer, taking the even one on an exact tie |
| CSharp.RoundHalfEvenUnique | Services/LifeInsuranceService.cs:345 | that rounding has exactly one answer |
| CSharp.ConvertToInt32 | Services/LifeInsuranceService.cs:345 | the conversion succeeds exactly when the rounded value is an `int`, and then yields it; otherwise it throws |
| CSharp.ToLower | Controllers/PensionController.cs:62-64 | lower-casing keeps the length and maps every character through the per-letter case mapping |
| LifeInsurance.Monthly | Services/LifeInsuranceService.cs:347 | the monthly price times 12 falls short of the yearly price by 0 to 11 (and exceeds it by 0 to 11 for a negative yearly price) |
| LifeInsurance.Priced | Services/LifeInsuranceService.cs:345-347 | a benefit is priced exactly when the rounded yearly price fits an `int`; the yearly price is that rounded value and the monthly price is its truncated twelfth |
| LifeInsurance.CalculateItemPrice | Services/LifeInsuranceService.cs:324-350 | the first overload's price is the base price in pricing units times the coefficient, times one multiplier 1 + smoker% + sport% (each surcharge a share of the same base), rounded by `Convert.ToInt32` with overflow as no price |
| LifeInsurance.ItemPriceIsAdditiveSurcharge | Services/LifeInsuranceService.cs:324-350 | with both surcharges on, the yearly price before rounding is the compounded price base × (1 + smoker%) × (1 + sport%) less the cross term base × smoker% × sport%: each surcharge is a share of the same unsurcharged base, so they add and never compound |
| LifeInsurance.NoSurchargeIsRoundedBase | Services/LifeInsuranceService.cs:335-345 | with neither flag the yearly price is the rounded base price, and the price exists exactly when that fits an `int` |
| LifeInsurance.OneTimePayoutBelowThousandIsFree | Services/LifeInsuranceService.cs:334-335 | a one-time payout of less than a thousand in absolute value prices at 0 yearly and 0 monthly, whatever the coefficient and the flags |
| LifeInsurance.NoUnitsIsFree | Services/LifeInsuranceService.cs:334-345 | a benefit with no pricing units (amount, or whole thousands of it, zero) costs 0 yearly and 0 monthly whatever the coefficient and the surcharges |
| LifeInsurance.CalculateInvalidityItemPrice | Services/LifeInsuranceService.cs:352-371 | the invalidity price exists exactly when the first overload's price does; its yearly price is that price times 1 + level/5 with 32-bit wrap-around, and its monthly price is the yearly one over twelve, truncated |
| LifeInsurance.InvalidityLevelSteps | Services/LifeInsuranceService.cs:352-371 | levels 0-4 leave the first overload's price unchanged and levels 5-9 double its yearly price (unchecked) |
| LifeInsurance.CalculateHospitalizationItemPrice | Services/LifeInsuranceService.cs:373-393 | the hospitalization price exists exactly when the first overload's price does; its yearly price is that price times (whole thousands of the length, truncated toward zero) + 1 with 32-bit wrap-around, for either sign of the length, and its monthly price is the yearly one over twelve, truncated |
| LifeInsurance.HospitalizationLengthSteps | Services/LifeInsuranceService.cs:373-393 | the `isHospitalization` flag changes nothing; lengths 0-999 leave the first overload's price unchanged, and a length from 1000k up to 1000k + 999 multiplies its yearly price by k + 1 (unchecked) |
| LifeInsurance.ZeroAmountIsFree | Services/LifeInsuranceService.cs:324-393 | a benefit with no requested amount costs 0 in all three overloads |
| LifeInsurance.CheckedSum | Services/LifeInsuranceService.cs:269-294 | `Sum()` over `int` succeeds exactly when every running total fits an `int`, and then returns the exact sum |
| LifeInsurance.RunningSumsFitWhenSmall | Services/LifeInsuranceService.cs:286-294 | a sum of terms each within ±m never overflows when their number times m fits an `int`, so the total of six monthly prices never overflows |
| LifeInsurance.CalculatePrice | Services/LifeInsuranceService.cs:177-322 | a store exception is a 500 and a null product a NOT_FOUND naming the product id; for a found product the answer is OK exactly when every benefit and the yearly total can be computed without overflow (otherwise a 500), and then each yearly price is that benefit's overload result, each monthly price its truncated twelfth, and both totals the sums of their six prices |
| LifeInsurance.MonthlyTotalIsNotYearlyTotalOverTwelve | Services/LifeInsuranceService.cs:269-294 | the monthly total is the sum of truncated monthly prices: two 6-a-year benefits total 12 a year and 0 a month |
| LifeInsurance.SmokerDeathCoverScenario | Services/LifeInsuranceService.cs:324-350 | death cover of 100000 at coefficient 5.0 for a smoker with a 10% surcharge costs 550 a year and 45 a month |
| PropertyInsurance.GetCoefficient | Services/PropertyInsuranceService.cs:321-331 | the property rate is the house rate on an exact match with the house name, else the flat rate on an exact match with the flat name, else the garage rate |
| PropertyInsurance.CalculateComponentPrices | Services/PropertyInsuranceService.cs:285-318 | each enabled component costs its coefficient times the area and a disabled one 0; the total is the sum of the three |
| PropertyInsurance.PerMeterCalc | Services/PropertyInsuranceService.cs:218-225 | each enabled component of the per-metre breakdown is its rate and a disabled one 0, while the total is the sum of all three rates whatever the toggles; with every component enabled the total is the sum of the components |
| PropertyInsurance.CalculatePropertyInsurance | Services/PropertyInsuranceService.cs:188-283 | a store exception is a 500, a null product a NOT_FOUND naming the product id, a null property type a 500; otherwise OK, the per-metre total is always the sum of all three rates, each enabled component shows its rate per metre, each disabled one 0 in both breakdowns, and the total breakdown prices equipment at the liability rate and liability at the equipment rate |
| PropertyInsurance.AllComponentsTotalIsPerMeterTimesArea | Services/PropertyInsuranceService.cs:211-234 | with all three components enabled the total premium is the per-metre total times the area |
| PropertyInsurance.SwappedCoefficientsChangeTotal | Services/PropertyInsuranceService.cs:211-216 | with equipment only, at 30 per m2 for equipment and 10 for liability on 80 m2, the equipment price and the total are 800, while the per-metre equipment rate times the area is 2400 |
| PropertyInsurance.HouseExample | Services/PropertyInsuranceService.cs:204-234 | a 120 per m2 house of 80 m2 with all three components costs 12800, with equipment shown at 800 and liability at 2400 |
| PropertyInsurance.IntendedTotalCalc | Services/PropertyInsuranceService.cs:211-234 | with each coefficient passed to its own parameter, every total component is its per-metre component times the area |
| PropertyInsurance.SwapIsHarmlessOnlyWhenSymmetric | Services/PropertyInsuranceService.cs:211-216 | the total as written equals the intended total exactly when equipment and liability are both on or both off, their coefficients are equal, or the area is 0 |
| Pension.ScanIsZeroOrQualifyingEntry | Services/PensionService.cs:212-227 | the scan result is 0 or the state value of an entry whose threshold the user's contribution reaches |
| Pension.ScanIsZeroWithoutPositiveQualifying | Services/PensionService.cs:212-224 | without an entry whose positive threshold is reached (an empty schedule included) the result is 0 |
| Pension.ScanNonNegative | Services/PensionService.cs:212-224 | with non-negative state values the running result never goes below 0 |
| Pension.ZeroThresholdNeverChosen | Services/PensionService.cs:220 | with non-negative state values an entry of threshold 0 or below leaves the running result unchanged |
| Pension.ScanPositiveOnceQualified | Services/PensionService.cs:218-224 | with state values never negative and positive at every positive threshold (a (0, 0) tier allowed), once a positive threshold is reached the result stays positive |
| Pension.ScanIsZeroIffNoPositiveQualifying | Services/PensionService.cs:212-227 | with state values never negative and positive at every positive threshold (a (0, 0) tier allowed), the result is 0 exactly when no positive threshold is reached |
| Pension.ScanTakesReachedTier | Services/PensionService.cs:218-224 | on an ascending schedule with state values below their thresholds (a leading (0, 0) tier allowed), the scan after a reached entry holds that entry's state value |
| Pension.ScanSkipsUnreachedTiers | Services/PensionService.cs:218-224 | entries whose threshold is above the contribution leave the result unchanged |
| Pension.ScanFindsLargestReachedTier | Services/PensionService.cs:212-227 | on an ascending schedule with state values below their thresholds (a leading (0, 0) tier allowed), the scan returns the value of the largest reached threshold |
| Pension.ScanComparesAgainstChosenStateValue | Services/PensionService.cs:220 | with tiers (100, 150) and (120, 200) and contribution 130 the scan returns 150 although 120 is the largest reached threshold |
| Pension.GetStateContribution | Services/PensionService.cs:209-228 | the loop returns the scan over the whole schedule in storage order, which is 0 or a reached entry's state value |
| Pension.GetStrategyInterestrate | Services/PensionService.cs:230-238 | "dynamická" gives the dynamic rate, "konzervativní" the conservative rate, any other name or null the balanced rate |
| Pension.DisplayNamesGetBalancedRate | Services/PensionService.cs:233-237 | the capitalised display names "Dynamická", "Konzervativní" and "Vyvážená" all get the balanced rate |
| Pension.Iterations | Services/PensionService.cs:252 | a `for` loop up to n runs n times for positive n and no times otherwise |
| Pension.CompoundWithoutInterest | Services/PensionService.cs:252-257 | at a 0% rate compounding is the savings plus n yearly contributions |
| Pension.CompoundAtLeastContributed | Services/PensionService.cs:252-257 | at a non-negative rate with non-negative savings and contributions the balance is never below what was paid in |
| Pension.CalculateTotalPension | Services/PensionService.cs:240-260 | the loop runs max(n, 0) times, each adding twelve months of all three contributions and then growing by 1 + rate/100, starting from the current savings |
| Pension.GetValoritization | Services/PensionService.cs:262-281 | the valorization is the given total minus the savings plus max(n, 0) yearly contributions |
| Pension.ValorizationBounds | Services/PensionService.cs:240-281 | the valorization is 0 when no years are left or the rate is 0, and never negative at a non-negative rate with non-negative savings and contributions |
| Pension.YearsToRetirement | Services/PensionService.cs:162 | `65 - UserAge` is exact except below age 65 - 2^31 + 1, where it wraps |
| Pension.StateContributionTotal | Services/PensionService.cs:193 | when the products fit an `int` the total is state contribution times 12 times the unclamped year count |
| Pension.StateTotalNegativePastRetirement | Services/PensionService.cs:162-193 | past age 65 a positive state contribution gives a negative state-contribution total |
| Pension.CalculatePension | Services/PensionService.cs:136-207 | a store exception is a 500; a null schedule is a NOT_FOUND with the schedule message even when the product is missing too; a null product is a NOT_FOUND naming the product id; otherwise OK with the scanned state contribution, the compounded total, its valorization and the state-contribution total |
| Pension.FortyFiveYearOldExample | Services/PensionService.cs:161-193 | the schedule with tiers (0, 0) and (100, 20) is well formed and positive at its positive threshold, and a 45-year-old contributing 100 against it has 20 years to go, a state contribution of 20, and a state-contribution total of 4800 |
| Pension.RetiredProjectionIsCurrentSavings | Services/PensionService.cs:240-281 | at age 65 or over both loops run no times, so the projected total is the current savings and the valorization is 0, whatever the contributions and the rate |
| LifeInsuranceController.GetLifeInsuraceProductById | Controllers/LifeInsuranceController.cs:34-46 | refused with `ArgumentException` exactly when the id is null or empty, otherwise forwarded to `GetOne` |
| LifeInsuranceController.GetLifeInsuraceProductByProductId | Controllers/LifeInsuranceController.cs:50-62 | refused exactly when the product id is null or empty, otherwise forwarded to `GetOneByProductId` |
| LifeInsuranceController.GetLifeInsuraceProductId | Controllers/LifeInsuranceController.cs:66-77 | refused exactly when the id is null or empty, otherwise forwarded to `GetProductIdFromId` |
| LifeInsuranceController.CalculateLifeInsurance | Controllers/LifeInsuranceController.cs:88-101 | refused exactly when the product id is null or empty or hospitalization cover comes with a stay under one day; otherwise the request is forwarded unchanged |
| LifeInsuranceController.OnlyProductIdAndStayAreChecked | Controllers/LifeInsuranceController.cs:88-100 | no other field affects whether a calculation is forwarded |
| LifeInsuranceController.ForwardedHospitalizationUsesLengthMultiplier | Controllers/LifeInsuranceController.cs:94-100 | a forwarded request with hospitalization cover has a stay of at least one day and is priced with the multiplier length / 1000 + 1 |
| PropertyInsuranceController.GetPropertyInsuranceProduct | Controllers/PropertyInsuranceController.cs:41-48 | refused exactly when the id is null or empty, otherwise forwarded to `GetOne` |
| PropertyInsuranceController.CalculatePropertyInsurance | Controllers/PropertyInsuranceController.cs:61-80 | refused exactly when the product id is null or empty, the area is below 1 m2, or no component is chosen; otherwise forwarded unchanged |
| PropertyInsuranceController.ForwardedRequestHasPositiveTotal | Controllers/PropertyInsuranceController.cs:61-79 | a forwarded request with a property type, priced against positive rates, is answered OK with a positive total |
| PensionController.GetPensionValue | Controllers/PensionController.cs:59-78 | a null strategy throws `NullReferenceException`; otherwise the request is forwarded unchanged exactly when the lower-cased strategy is that of one of the three display names and the user contribution is not 0, else `ArgumentException` |
| PensionController.LowerCaseDynamic | Helpers/Constants.cs:9 | "Dynamická" lower-cases to "dynamická" |
| PensionController.LowerCaseConservative | Helpers/Constants.cs:10 | "Konzervativní" lower-cases to "konzervativní" |
| PensionController.LowerCaseBalanced | Helpers/Constants.cs:11 | "Vyvážená" lower-cases to "vyvážená" |
| PensionController.KnownStrategyNames | Controllers/PensionController.cs:61-69 | a strategy is accepted exactly when it lower-cases to "vyvážená", "konzervativní" or "dynamická" |
| PensionController.DisplayNamePassesButGetsBalancedRate | Controllers/PensionController.cs:61-77 | "Dynamická" passes the guard but reaches the service in its original case and gets the balanced rate, while "dynamická" gets the dynamic rate |
| PensionController.AgeIsNotChecked | Controllers/PensionController.cs:61-77 | the age never affects whether a request is forwarded |
| PensionController.NegativeContributionPasses | Controllers/PensionController.cs:71-75 | a negative user contribution passes the guard |

## Left out

- MongoDB reads become the `Fetched` parameters of the service functions, and logging is dropped. The GetAll/GetOne/Create/Delete operations, the order and product services and their controllers are store-and-retrieve I/O with no calculation.
- PropertyInsurance.CalculatePropertyInsurance: the e-mail branch (Services/PropertyInsuranceService.cs:236-258) and the e-mail service are left out. They send SMTP mail from templates that are not part of this model. The send runs inside the `try`, so the contract "OK exactly when the product is found and the property type is non-null" holds only when no mail is sent (an empty `Email`) or the send succeeds. A malformed address (`MailboxAddress.Parse`, Services/EmailService.cs:31) or an SMTP failure rethrown by `SendEmail` (Services/EmailService.cs:45-50) turns the answer into INTERNAL_SERVER_ERROR.
- The state schedule is read twice, at Services/PensionService.cs:145 and :215. The model uses one schedule for both reads, so a store that changes between them is not modelled. `Find(...).ToList()` never yields null, so the "schedule missing" branch is unreachable in practice; it is modelled from the code anyway.
- `double` and `float` are exact reals. IEEE-754 rounding is not modelled, nor the single-precision accumulation at Services/PensionService.cs:250 and :254. `Convert.ToInt32` overflow is modelled exactly, on the real value.
- The property prices are read back from a dictionary keyed by four resource strings. The model assumes those keys are distinct and non-null. The house and flat names are parameters (`PropertyTypeNames`).
- `ToLower` covers ASCII, the Latin-1 capitals and the Latin Extended-A capitals, which include every Czech letter. Culture-specific mappings (the Turkish dotted I) and every other capital are left unmapped: Greek, Cyrillic, Latin Extended-B and the letterlike signs. The Kelvin sign U+212A, for instance, lower-cases to 'k' in .NET, so "\u212Aonzervativní" passes the strategy guard (Controllers/PensionController.cs:61-69) while `PensionController.KnownStrategy` in the model rejects it.
- `InvalidityLevel` is an enum whose declaration is not part of this model. It is an ordinal below 2^30, so `level * 2` cannot wrap.
- A null request body, model binding and async/await are left out.

## Findings

| source | as written | input that shows it | evidently intended | confidence | as-written member | corrected member |
|---|---|---|---|---|---|---|
| Services/PropertyInsuranceService.cs:211-216, 285-290 | The call passes `EquipmentCoefficient`, then `LiabilityCoefficient`. The private function's parameters are `liabilityCoefficient`, then `equipmentyCoefficient`. Equipment is therefore priced at the liability rate and liability at the equipment rate. | Equipment only; equipment 30 per m2, liability 10 per m2, 80 m2. The total is 800, not 2400, while the per-metre breakdown shows equipment at 30. | Each component's total is its per-metre rate times the area, as the per-metre breakdown (lines 218-225) reports. | high; not executed | PropertyInsurance.SwappedCoefficientsChangeTotal | PropertyInsurance.IntendedTotalCalc |
