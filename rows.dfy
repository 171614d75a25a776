/** The flat row the scraper writes for each plan (process_plan), the plan
    detail link, the processing loop that counts plans it cannot read, and
    the rule that admits a row to the cost calculator. */
module Rows {
  import opened Text
  import opened Numbers
  import opened Plans
  import opened Tariffs

  /** The columns of a plan row, less the API's own yearly cost estimates. */
  datatype PlanRow = PlanRow(
    planId: string,
    planName: string,
    retailer: string,
    distributor: string,
    planUrl: string,
    tariffType: string,
    pricingModel: string,
    contractTerm: string,
    benefitPeriod: string,
    supplyCharge: Option<real>,
    usageRateMin: Option<real>,
    usageRateMax: Option<real>,
    peakRate: Option<real>,
    offPeakRate: Option<real>,
    solarFitMin: real,
    solarFitMax: real,
    solarFitDetails: string,
    controlledLoad: string,
    clRate: real,
    clSupply: real,
    discounts: string,
    fees: string,
    paymentOptions: string,
    meterTypes: string)

  // ---------------------------------------------------------------------
  // Plan detail link
  // ---------------------------------------------------------------------

  const PlanUrlHead := "https://www.energymadeeasy.gov.au/plan?id="
  const PostcodeParam := "&postcode="
  const PlanUrlTail := "&pricingPeriod=yearly&withDiscounts=true&benchmarkUsage=medium"

  /** build_plan_url. */
  function BuildPlanUrl(planId: string, postcode: string): (url: string)
    ensures StartsWith(url, PlanUrlHead)
  {
    assert (PlanUrlHead + planId + PostcodeParam + postcode + PlanUrlTail)[..|PlanUrlHead|] == PlanUrlHead;
    PlanUrlHead + planId + PostcodeParam + postcode + PlanUrlTail
  }

  /** The text of s before the first c (all of s without one). */
  function TakeUntil(s: string, c: char): (r: string)
    ensures |r| <= |s| && r == s[..|r|] && c !in r
  {
    if s == [] || s[0] == c then [] else [s[0]] + TakeUntil(s[1..], c)
  }

  lemma {:induction false} TakeUntilStops(a: string, b: string, c: char)
    requires c !in a && b != [] && b[0] == c
    ensures TakeUntil(a + b, c) == a
    decreases |a|
  {
    if a != [] {
      assert (a + b)[1..] == a[1..] + b;
      assert a[0] in a;
      TakeUntilStops(a[1..], b, c);
    }
  }

  /** The id query parameter of a plan link: the text after "?id=" up to the
      next '&'. */
  function PlanIdOfUrl(url: string): Option<string> {
    if StartsWith(url, PlanUrlHead) then Some(TakeUntil(url[|PlanUrlHead|..], '&')) else None
  }

  /** A plan id without '&' is read back from its link. */
  lemma PlanUrlNamesPlan(planId: string, postcode: string)
    requires '&' !in planId
    ensures PlanIdOfUrl(BuildPlanUrl(planId, postcode)) == Some(planId)
  {
    var rest := PostcodeParam + postcode + PlanUrlTail;
    var url := BuildPlanUrl(planId, postcode);
    assert url == PlanUrlHead + (planId + rest);
    assert url[|PlanUrlHead|..] == planId + rest;
    TakeUntilStops(planId, rest, '&');
  }

  /** Two plans with ids free of '&' share a link only when they have the
      same id and postcode. */
  lemma PlanUrlInjective(id1: string, pc1: string, id2: string, pc2: string)
    requires '&' !in id1 && '&' !in id2
    requires BuildPlanUrl(id1, pc1) == BuildPlanUrl(id2, pc2)
    ensures id1 == id2 && pc1 == pc2
  {
    PlanUrlNamesPlan(id1, pc1);
    PlanUrlNamesPlan(id2, pc2);
    var url := BuildPlanUrl(id1, pc1);
    var n := |PlanUrlHead + id1 + PostcodeParam|;
    assert url == (PlanUrlHead + id1 + PostcodeParam) + pc1 + PlanUrlTail;
    assert url == (PlanUrlHead + id2 + PostcodeParam) + pc2 + PlanUrlTail;
    assert pc1 == url[n..|url| - |PlanUrlTail|];
    assert pc2 == url[n..|url| - |PlanUrlTail|];
  }

  // ---------------------------------------------------------------------
  // process_plan
  // ---------------------------------------------------------------------

  /** process_plan reads the plan without raising: the plan has planData
      with a first contract and a fuelType, every block rate of the first
      tariff period has a unitPrice, and so has every controlled-load rate.
      A plan without planData has neither contracts nor a fuelType here. */
  predicate Processable(p: Plan) {
    p.contracts != [] && p.fuelType.Some? &&
    UsagePriced(p.contracts[0]) && LoadsPriced(p.contracts[0])
  }

  /** The row of a plan; None when one of process_plan's lookups raises
      (planData, contract[0], fuelType, a unitPrice). An empty distributor
      name shows as "N/A". */
  function ProcessPlan(p: Plan, postcode: string, distributorName: string): (r: Option<PlanRow>)
    ensures r.Some? <==> Processable(p)
    ensures r.Some? ==> (r.value.planId == p.planId &&
      r.value.distributor == (if distributorName != [] then distributorName else "N/A"))
  {
    if !Processable(p) then None
    else
      var c := p.contracts[0];
      Some(PlanRow(
        p.planId, p.planName, p.retailerName,
        if distributorName != [] then distributorName else "N/A",
        BuildPlanUrl(p.planId, postcode),
        p.tariffType, c.pricingModel, ContractTerm(c), BenefitPeriod(c),
        SupplyCharge(c), UsageRateMin(c), UsageRateMax(c), TouPeakRate(c), TouOffPeakRate(c),
        SolarFitMin(c), SolarFitMax(c), SolarFitDetails(c),
        ControlledLoadText(c), ControlledLoadRate(c), ControlledLoadSupply(c),
        Discounts(c), Fees(c), PaymentOptions(c), MeterTypes(c)))
  }

  /** The rates of a row agree with each other: minimum and maximum usage
      rates are present together and ordered, peak and off-peak exist only
      for time-of-use and are the maximum and minimum, the solar feed-in
      range is ordered and non-negative, and the distributor is never empty. */
  lemma RowRatesConsistent(p: Plan, postcode: string, distributorName: string)
    requires Processable(p)
    ensures var row := ProcessPlan(p, postcode, distributorName).value;
      (row.usageRateMin.Some? <==> row.usageRateMax.Some?) &&
      (row.usageRateMin.Some? ==> row.usageRateMin.value <= row.usageRateMax.value) &&
      (row.pricingModel == "TOU" ==> row.peakRate == row.usageRateMax && row.offPeakRate == row.usageRateMin) &&
      (row.pricingModel != "TOU" ==> row.peakRate.None? && row.offPeakRate.None?) &&
      0.0 <= row.solarFitMin <= row.solarFitMax &&
      row.distributor != []
  {
    var c := p.contracts[0];
    UsageRateRange(c);
    TouRatesAreExtremes(c);
    SolarFitRange(c);
  }

  // ---------------------------------------------------------------------
  // Step 4 of main: process every filtered plan
  // ---------------------------------------------------------------------

  /** plan.get("_distributor_name", "N/A"). */
  function DistributorOf(p: Plan): string {
    match p.distributorTag
    case Some(name) => name
    case None => "N/A"
  }

  /** The rows of the plans that can be processed, in order. */
  function ProcessedRows(plans: seq<Plan>, postcode: string): (rows: seq<PlanRow>)
    ensures |rows| <= |plans|
  {
    if plans == [] then []
    else
      var p := plans[|plans| - 1];
      var rows := ProcessedRows(plans[..|plans| - 1], postcode);
      match ProcessPlan(p, postcode, DistributorOf(p))
      case Some(row) => rows + [row]
      case None => rows
  }

  /** The number of plans process_plan raises on. */
  function FailedCount(plans: seq<Plan>): nat {
    if plans == [] then 0
    else FailedCount(plans[..|plans| - 1]) + (if Processable(plans[|plans| - 1]) then 0 else 1)
  }

  lemma ProcessStep(plans: seq<Plan>, i: nat, postcode: string)
    requires i < |plans|
    ensures var p := plans[i]; var row := ProcessPlan(p, postcode, DistributorOf(p));
      ProcessedRows(plans[..i + 1], postcode) ==
        ProcessedRows(plans[..i], postcode) + (if row.Some? then [row.value] else []) &&
      FailedCount(plans[..i + 1]) == FailedCount(plans[..i]) + (if row.None? then 1 else 0)
  {
    assert plans[..i + 1][..i] == plans[..i];
  }

  /** The processing loop: a row per plan, or one more error. */
  method ProcessPlans(plans: seq<Plan>, postcode: string) returns (rows: seq<PlanRow>, errors: nat)
    ensures rows == ProcessedRows(plans, postcode)
    ensures errors == FailedCount(plans)
  {
    rows := [];
    errors := 0;
    var i := 0;
    while i < |plans|
      invariant 0 <= i <= |plans|
      invariant rows == ProcessedRows(plans[..i], postcode)
      invariant errors == FailedCount(plans[..i])
    {
      var plan := plans[i];
      ProcessStep(plans, i, postcode);
      match ProcessPlan(plan, postcode, DistributorOf(plan)) {
        case Some(row) => rows := rows + [row];
        case None => errors := errors + 1;
      }
      i := i + 1;
    }
    assert plans[..i] == plans;
  }

  /** Every plan gives a row or counts as an error, never both. */
  lemma {:induction false} RowsAndErrorsAddUp(plans: seq<Plan>, postcode: string)
    ensures |ProcessedRows(plans, postcode)| + FailedCount(plans) == |plans|
    decreases |plans|
  {
    if plans != [] {
      RowsAndErrorsAddUp(plans[..|plans| - 1], postcode);
    }
  }

  /** A row keeps the distributor its plan was tagged with; untagged plans
      and empty tags show "N/A". */
  lemma {:induction false} RowsKeepDistributor(plans: seq<Plan>, postcode: string)
    ensures forall row :: row in ProcessedRows(plans, postcode) ==>
      exists p :: (p in plans && Processable(p) &&
        row.planId == p.planId &&
        row.distributor == (if DistributorOf(p) != [] then DistributorOf(p) else "N/A"))
    decreases |plans|
  {
    if plans != [] {
      var init := plans[..|plans| - 1];
      RowsKeepDistributor(init, postcode);
      var last := plans[|plans| - 1];
      forall row | row in ProcessedRows(plans, postcode)
        ensures exists p :: (p in plans && Processable(p) &&
          row.planId == p.planId &&
          row.distributor == (if DistributorOf(p) != [] then DistributorOf(p) else "N/A"))
      {
        if row in ProcessedRows(init, postcode) {
          var p :| p in init && Processable(p) && row.planId == p.planId &&
            row.distributor == (if DistributorOf(p) != [] then DistributorOf(p) else "N/A");
          assert p in plans;
        } else {
          assert last in plans;
        }
      }
    }
  }

  // ---------------------------------------------------------------------
  // Rows admitted to the cost calculator
  // ---------------------------------------------------------------------

  /** A supply charge, and a single-rate plan's usage rate or a time-of-use
      plan's peak rate. */
  predicate CalcEligible(row: PlanRow) {
    row.supplyCharge.Some? &&
    ((row.usageRateMax.Some? && row.pricingModel == "SR") ||
     (row.peakRate.Some? && row.pricingModel == "TOU"))
  }

  /** An admitted row comes from a contract with a priced first tariff
      period; a time-of-use row has both its peak and off-peak rate, peak
      not below off-peak. */
  lemma EligibleRowHasRates(p: Plan, postcode: string, distributorName: string)
    requires Processable(p)
    requires CalcEligible(ProcessPlan(p, postcode, distributorName).value)
    ensures p.contracts[0].tariffPeriods != []
    ensures UsageRates(p.contracts[0]) != []
    ensures var row := ProcessPlan(p, postcode, distributorName).value;
      row.pricingModel == "TOU" ==>
        row.peakRate.Some? && row.offPeakRate.Some? && row.offPeakRate.value <= row.peakRate.value
  {
    var c := p.contracts[0];
    UsageRateRange(c);
    TouRatesAreExtremes(c);
  }
}
