/** What the Plan Calculator sheet computes for each admitted plan row. The
    sheet's formulas are a pure function of five inputs: daily usage (B4),
    daily export (B5), usage profile (B6), controlled load Yes/No (B7) and
    controlled-load usage (B8). Amounts are cents, except the monthly cost,
    which is dollars. */
module Calculator {
  import opened Text
  import opened Numbers
  import opened Lists
  import opened Plans
  import opened Tariffs
  import opened SolarTiers
  import opened Rows

  // ---------------------------------------------------------------------
  // Usage profiles
  // ---------------------------------------------------------------------

  datatype UsageProfile = UsageProfile(name: string, peakShare: real, offPeakShare: real)

  /** USAGE_PROFILES, in dropdown order. */
  const UsageProfiles: seq<UsageProfile> := [
    UsageProfile("Flat Usage", 0.50, 0.50),
    UsageProfile("Slight Peak", 0.60, 0.40),
    UsageProfile("Heavy Peak", 0.75, 0.25),
    UsageProfile("Off-Peak Heavy", 0.30, 0.70),
    UsageProfile("Battery Optimised", 0.10, 0.90)]

  /** The share both nested IFs fall back to. */
  const FallbackShare := 0.5

  /** The nested IF(B6="name", share, ...) formula for the peak share: the
      first profile whose name equals the selection, as a spreadsheet
      compares text (ignoring case). */
  function PeakShareOf(table: seq<UsageProfile>, selection: string): real {
    if table == [] then FallbackShare
    else if SameTextIgnoringCase(selection, table[0].name) then table[0].peakShare
    else PeakShareOf(table[1..], selection)
  }

  /** The same nested IF for the off-peak share. */
  function OffPeakShareOf(table: seq<UsageProfile>, selection: string): real {
    if table == [] then FallbackShare
    else if SameTextIgnoringCase(selection, table[0].name) then table[0].offPeakShare
    else OffPeakShareOf(table[1..], selection)
  }

  /** The first profile matching the selection gives both shares. */
  lemma {:induction false} ShareOfFirstMatch(table: seq<UsageProfile>, selection: string, k: nat)
    requires k < |table| && SameTextIgnoringCase(selection, table[k].name)
    requires forall j :: 0 <= j < k ==> !SameTextIgnoringCase(selection, table[j].name)
    ensures PeakShareOf(table, selection) == table[k].peakShare
    ensures OffPeakShareOf(table, selection) == table[k].offPeakShare
    decreases k
  {
    if k > 0 {
      ShareOfFirstMatch(table[1..], selection, k - 1);
    }
  }

  /** A selection matching no profile gets 0.5 for both shares. */
  lemma {:induction false} ShareFallback(table: seq<UsageProfile>, selection: string)
    requires forall j :: 0 <= j < |table| ==> !SameTextIgnoringCase(selection, table[j].name)
    ensures PeakShareOf(table, selection) == FallbackShare
    ensures OffPeakShareOf(table, selection) == FallbackShare
    decreases |table|
  {
    if table != [] {
      ShareFallback(table[1..], selection);
    }
  }

  /** With a table whose entries split usage completely, the two formulas
      always add up to the whole day, whatever is selected. */
  lemma {:induction false} SharesSumToOne(table: seq<UsageProfile>, selection: string)
    requires forall j :: 0 <= j < |table| ==> table[j].peakShare + table[j].offPeakShare == 1.0
    requires forall j :: 0 <= j < |table| ==> 0.0 <= table[j].peakShare <= 1.0
    ensures PeakShareOf(table, selection) + OffPeakShareOf(table, selection) == 1.0
    ensures 0.0 <= PeakShareOf(table, selection) <= 1.0
    decreases |table|
  {
    if table != [] && !SameTextIgnoringCase(selection, table[0].name) {
      SharesSumToOne(table[1..], selection);
    }
  }

  lemma ProfilesSplitUsage()
    ensures forall j :: 0 <= j < |UsageProfiles| ==>
      UsageProfiles[j].peakShare + UsageProfiles[j].offPeakShare == 1.0 &&
      0.0 <= UsageProfiles[j].peakShare <= 1.0
  {
  }

  /** Each profile name, typed in any letter case, selects that profile's
      shares. */
  lemma ProfileSelectsItself(k: nat, selection: string)
    requires k < |UsageProfiles| && SameTextIgnoringCase(selection, UsageProfiles[k].name)
    ensures PeakShareOf(UsageProfiles, selection) == UsageProfiles[k].peakShare
    ensures OffPeakShareOf(UsageProfiles, selection) == UsageProfiles[k].offPeakShare
  {
    var t := UsageProfiles;
    var first := Lower(selection)[0];
    assert Lower(t[k].name)[0] == first;
    assert Lower(t[0].name)[0] == 'f' && Lower(t[1].name)[0] == 's' && Lower(t[2].name)[0] == 'h';
    assert Lower(t[3].name)[0] == 'o' && Lower(t[4].name)[0] == 'b';
    forall j | 0 <= j < k ensures !SameTextIgnoringCase(selection, t[j].name) {
      assert Lower(t[j].name)[0] != first;
    }
    ShareOfFirstMatch(t, selection, k);
  }

  // ---------------------------------------------------------------------
  // The static columns of a calculator row
  // ---------------------------------------------------------------------

  /** `value or 0`. */
  function OrZero(x: Option<real>): real {
    if x.Some? then x.value else 0.0
  }

  /** Columns I, J and the cap written into the credit formula. */
  datatype FitColumns = FitColumns(tier1Rate: real, tier1Volume: real, tier2Rate: real)

  /** Two or more tiers: the first tier's rate and cap and the second tier's
      rate; a single tier is flat, whatever its cap; none pays nothing. */
  function FitColumnsOf(tiers: seq<Tier>): (f: FitColumns)
    ensures |tiers| == 0 ==> f == FitColumns(0.0, 0.0, 0.0)
    ensures |tiers| == 1 ==> f == FitColumns(tiers[0].rate, 0.0, 0.0)
    ensures |tiers| >= 2 ==> f == FitColumns(tiers[0].rate, tiers[0].volume, tiers[1].rate)
  {
    if |tiers| >= 2 then FitColumns(tiers[0].rate, tiers[0].volume, tiers[1].rate)
    else if |tiers| == 1 then FitColumns(tiers[0].rate, 0.0, 0.0)
    else FitColumns(0.0, 0.0, 0.0)
  }

  /** In calculator order the cap used is the largest cap of any tier, and
      it is 0 only when no tier is capped (or there are fewer than two). */
  lemma FirstTierHasLargestCap(tiers: seq<Tier>)
    requires |tiers| >= 2 && CappedFirstDescending(tiers)
    ensures forall i :: 0 <= i < |tiers| ==> tiers[i].volume <= FitColumnsOf(tiers).tier1Volume || tiers[i].volume == 0.0
    ensures FitColumnsOf(tiers).tier1Volume == 0.0 ==> forall i :: 0 <= i < |tiers| ==> tiers[i].volume == 0.0
  {
  }

  /** Only the first two tiers reach the columns: with two capped tiers and
      an uncapped remainder, column J holds the second cap's rate and the
      remainder's rate is not used. */
  lemma ColumnsUseFirstTwoTiers(tiers: seq<Tier>, later: seq<Tier>)
    requires |tiers| >= 2
    ensures FitColumnsOf(tiers + later) == FitColumnsOf(tiers)
  {
  }

  /** The per-plan values of columns E to M. */
  datatype CalcRow = CalcRow(
    isTou: bool,
    supply: real,
    usageRate: real,
    peakRate: real,
    offPeakRate: real,
    fit: FitColumns,
    clRate: real,
    clSupply: real)

  /** The static columns of a plan row. A description whose numbers do not
      parse makes float() raise, so the row must have a readable one. */
  function CalcRowOf(row: PlanRow): CalcRow
    requires ParseTiers(row.solarFitDetails).Some?
  {
    CalcRow(
      row.pricingModel == "TOU",
      OrZero(row.supplyCharge),
      OrZero(row.usageRateMax),
      OrZero(row.peakRate),
      OrZero(row.offPeakRate),
      FitColumnsOf(ParseTiers(row.solarFitDetails).value),
      row.clRate,
      row.clSupply)
  }

  /** Every processed row has a readable description, and its tiers are
      the priced retailer steps of its contract as the parser recovers them. */
  lemma ProcessedRowParses(p: Plan, postcode: string, distributorName: string)
    requires Processable(p)
    ensures var row := ProcessPlan(p, postcode, distributorName).value;
      ParseTiers(row.solarFitDetails) ==
        Some(SortBy(TiersRead(TierEntries(p.contracts[0].solarFits)), TierLe))
  {
    ParseFormatRoundTrip(p.contracts[0]);
  }

  // ---------------------------------------------------------------------
  // The cost formulas
  // ---------------------------------------------------------------------

  /** B4 .. B8. */
  datatype Inputs = Inputs(
    dailyUsage: real,
    dailyExport: real,
    profile: string,
    controlledLoad: string,
    clUsage: real)

  /** Column N: the profile's peak share for time-of-use, 1 for single rate. */
  function PeakShare(inputs: Inputs, r: CalcRow): real {
    if r.isTou then PeakShareOf(UsageProfiles, inputs.profile) else 1.0
  }

  /** Column O: the profile's off-peak share for time-of-use, 0 for single rate. */
  function OffPeakShare(inputs: Inputs, r: CalcRow): real {
    if r.isTou then OffPeakShareOf(UsageProfiles, inputs.profile) else 0.0
  }

  /** Column P: B4*(N*G+O*H) for time-of-use, B4*F otherwise. */
  function UsageCost(inputs: Inputs, r: CalcRow): real {
    if r.isTou then inputs.dailyUsage * (PeakShare(inputs, r) * r.peakRate + OffPeakShare(inputs, r) * r.offPeakRate)
    else inputs.dailyUsage * r.usageRate
  }

  function Min(a: real, b: real): real { if a <= b then a else b }

  function Max(a: real, b: real): real { if a >= b then a else b }

  /** Column Q: with a cap, MIN(B5,cap)*I + MAX(B5-cap,0)*J; without, B5*I. */
  function SolarCredit(exported: real, f: FitColumns): real {
    if f.tier1Volume > 0.0 then
      Min(exported, f.tier1Volume) * f.tier1Rate + Max(exported - f.tier1Volume, 0.0) * f.tier2Rate
    else exported * f.tier1Rate
  }

  /** Column R: IF(B7="Yes", B8*L+M, 0). */
  function ControlledLoadCost(inputs: Inputs, r: CalcRow): real {
    if SameTextIgnoringCase(inputs.controlledLoad, "Yes") then inputs.clUsage * r.clRate + r.clSupply else 0.0
  }

  /** Column S: E+P-Q+R. */
  function NetPerDay(inputs: Inputs, r: CalcRow): real {
    r.supply + UsageCost(inputs, r) - SolarCredit(inputs.dailyExport, r.fit) + ControlledLoadCost(inputs, r)
  }

  /** Column T: S*30.44/100, dollars per month. */
  function NetPerMonth(inputs: Inputs, r: CalcRow): real {
    NetPerDay(inputs, r) * 30.44 / 100.0
  }

  /** The credit is the exported up to the cap at the first rate plus the rest
      at the second rate; the two pieces meet at the cap. */
  lemma SolarCreditPiecewise(exported: real, f: FitColumns)
    requires f.tier1Volume > 0.0
    ensures exported <= f.tier1Volume ==> SolarCredit(exported, f) == exported * f.tier1Rate
    ensures exported >= f.tier1Volume ==>
      SolarCredit(exported, f) == f.tier1Volume * f.tier1Rate + (exported - f.tier1Volume) * f.tier2Rate
  {
  }

  /** 0 <= n*d <= d for a share n and a non-negative d. */
  lemma ShareOfAmount(n: real, d: real)
    requires 0.0 <= n <= 1.0 && d >= 0.0
    ensures 0.0 <= n * d <= d
  {
    assert (1.0 - n) * d >= 0.0;
  }

  /** Multiplying by a non-negative factor keeps an order. */
  lemma ScaleLe(u: real, a: real, b: real)
    requires u >= 0.0 && a <= b
    ensures u * a <= u * b
  {
    assert u * b - u * a == u * (b - a);
  }

  /** With non-negative rates, exporting more never earns less. */
  lemma SolarCreditMonotone(x: real, y: real, f: FitColumns)
    requires 0.0 <= x <= y
    requires f.tier1Rate >= 0.0 && f.tier2Rate >= 0.0
    ensures SolarCredit(x, f) <= SolarCredit(y, f)
  {
    var v := f.tier1Volume;
    if v > 0.0 {
      var a, a' := Min(x, v), Min(y, v);
      var b, b' := Max(x - v, 0.0), Max(y - v, 0.0);
      assert a <= a' && b <= b';
      assert a * f.tier1Rate <= a' * f.tier1Rate;
      assert b * f.tier2Rate <= b' * f.tier2Rate;
    } else {
      assert x * f.tier1Rate <= y * f.tier1Rate;
    }
  }

  /** With a cap, the credit lies between the export valued at the lower
      and at the higher of the two rates. */
  lemma SolarCreditBounds(x: real, f: FitColumns)
    requires 0.0 <= x && f.tier1Volume > 0.0
    ensures x * Min(f.tier1Rate, f.tier2Rate) <= SolarCredit(x, f) <= x * Max(f.tier1Rate, f.tier2Rate)
  {
    var v := f.tier1Volume;
    var lo := Min(f.tier1Rate, f.tier2Rate);
    var hi := Max(f.tier1Rate, f.tier2Rate);
    var a := Min(x, v);
    var b := Max(x - v, 0.0);
    assert a + b == x && a >= 0.0 && b >= 0.0;
    assert a * lo <= a * f.tier1Rate <= a * hi;
    assert b * lo <= b * f.tier2Rate <= b * hi;
    assert x * lo == a * lo + b * lo;
    assert x * hi == a * hi + b * hi;
  }

  /** A description with one step credits all exported at its rate, even when
      that step has a cap; one with no step credits nothing. */
  lemma FewTiersAreFlat(exported: real, tiers: seq<Tier>)
    requires |tiers| <= 1
    ensures |tiers| == 1 ==> SolarCredit(exported, FitColumnsOf(tiers)) == exported * tiers[0].rate
    ensures |tiers| == 0 ==> SolarCredit(exported, FitColumnsOf(tiers)) == 0.0
  {
  }

  /** Single-rate usage ignores the profile; time-of-use usage with equal
      peak and off-peak rates costs the same under every profile, and with
      non-negative usage lies between the off-peak and the peak price. */
  lemma UsageCostProperties(inputs: Inputs, r: CalcRow, profile: string)
    ensures !r.isTou ==> UsageCost(inputs, r) == UsageCost(inputs.(profile := profile), r)
    ensures r.isTou && r.peakRate == r.offPeakRate ==> UsageCost(inputs, r) == inputs.dailyUsage * r.peakRate
    ensures r.isTou && inputs.dailyUsage >= 0.0 && r.offPeakRate <= r.peakRate ==>
      inputs.dailyUsage * r.offPeakRate <= UsageCost(inputs, r) <= inputs.dailyUsage * r.peakRate
  {
    ProfilesSplitUsage();
    SharesSumToOne(UsageProfiles, inputs.profile);
    if r.isTou {
      var n := PeakShare(inputs, r);
      var o := OffPeakShare(inputs, r);
      assert o == 1.0 - n;
      assert n * r.peakRate + o * r.offPeakRate == r.offPeakRate + n * (r.peakRate - r.offPeakRate);
      if r.offPeakRate <= r.peakRate {
        ShareOfAmount(n, r.peakRate - r.offPeakRate);
        if inputs.dailyUsage >= 0.0 {
          var d := r.peakRate - r.offPeakRate;
          var u := inputs.dailyUsage;
          assert UsageCost(inputs, r) == u * r.offPeakRate + u * (n * d);
          ScaleLe(u, n * d, d);
          ScaleLe(u, 0.0, n * d);
          assert u * r.peakRate == u * r.offPeakRate + u * d;
        }
      }
    }
  }

  /** The controlled-load cost is 0 unless the switch says "Yes" (in any
      letter case), whatever the controlled-load usage. */
  lemma ControlledLoadGate(inputs: Inputs, r: CalcRow, clUsage: real)
    ensures !SameTextIgnoringCase(inputs.controlledLoad, "Yes") ==>
      ControlledLoadCost(inputs, r) == 0.0 && ControlledLoadCost(inputs.(clUsage := clUsage), r) == 0.0
    ensures SameTextIgnoringCase(inputs.controlledLoad, "Yes") ==>
      ControlledLoadCost(inputs, r) == inputs.clUsage * r.clRate + r.clSupply
  {
  }

  /** With non-negative prices, more usage never costs less. */
  lemma UsageCostMonotone(inputs: Inputs, r: CalcRow, moreUsage: real)
    requires 0.0 <= inputs.dailyUsage <= moreUsage
    requires r.usageRate >= 0.0 && 0.0 <= r.offPeakRate <= r.peakRate
    ensures UsageCost(inputs, r) <= UsageCost(inputs.(dailyUsage := moreUsage), r)
  {
    var more := inputs.(dailyUsage := moreUsage);
    if r.isTou {
      SharesSumToOne(UsageProfiles, inputs.profile);
      var n := PeakShare(inputs, r);
      var o := OffPeakShare(inputs, r);
      assert o == 1.0 - n;
      ShareOfAmount(n, r.peakRate);
      ShareOfAmount(o, r.offPeakRate);
      var price := n * r.peakRate + o * r.offPeakRate;
      assert UsageCost(inputs, r) == inputs.dailyUsage * price;
      assert UsageCost(more, r) == moreUsage * price;
      ScaleLe(price, inputs.dailyUsage, moreUsage);
    } else {
      ScaleLe(r.usageRate, inputs.dailyUsage, moreUsage);
    }
  }

  /** With non-negative prices, more usage never lowers the monthly cost
      and more exported never raises it; the month is 30.44 days in dollars. */
  lemma NetCostMonotone(inputs: Inputs, r: CalcRow, moreUsage: real, moreExport: real)
    requires 0.0 <= inputs.dailyUsage <= moreUsage
    requires 0.0 <= inputs.dailyExport <= moreExport
    requires r.usageRate >= 0.0 && 0.0 <= r.offPeakRate <= r.peakRate
    requires r.fit.tier1Rate >= 0.0 && r.fit.tier2Rate >= 0.0
    ensures NetPerMonth(inputs, r) <= NetPerMonth(inputs.(dailyUsage := moreUsage), r)
    ensures NetPerMonth(inputs.(dailyExport := moreExport), r) <= NetPerMonth(inputs, r)
    ensures NetPerMonth(inputs, r) == NetPerDay(inputs, r) * 0.3044
  {
    UsageCostMonotone(inputs, r, moreUsage);
    SolarCreditMonotone(inputs.dailyExport, moreExport, r.fit);
  }

  // ---------------------------------------------------------------------
  // Rows admitted to the calculator
  // ---------------------------------------------------------------------

  /** The list comprehension that keeps the rows with enough rate data. */
  function CalcPlans(rows: seq<PlanRow>): (r: seq<PlanRow>)
    ensures forall row :: row in r <==> row in rows && CalcEligible(row)
  {
    if rows == [] then []
    else
      var init := CalcPlans(rows[..|rows| - 1]);
      var last := rows[|rows| - 1];
      assert rows == rows[..|rows| - 1] + [last];
      if CalcEligible(last) then init + [last] else init
  }

  /** A time-of-use plan admitted to the calculator has its off-peak rate
      too, so its columns G and H are both the plan's own rates. */
  lemma AdmittedTouRow(p: Plan, postcode: string, distributorName: string)
    requires Processable(p)
    requires var row := ProcessPlan(p, postcode, distributorName).value;
      CalcEligible(row) && row.pricingModel == "TOU"
    ensures var row := ProcessPlan(p, postcode, distributorName).value;
      ParseTiers(row.solarFitDetails).Some? &&
      CalcRowOf(row).peakRate == UsageRateMax(p.contracts[0]).value &&
      CalcRowOf(row).offPeakRate == UsageRateMin(p.contracts[0]).value &&
      CalcRowOf(row).offPeakRate <= CalcRowOf(row).peakRate
  {
    ProcessedRowParses(p, postcode, distributorName);
    EligibleRowHasRates(p, postcode, distributorName);
    TouRatesAreExtremes(p.contracts[0]);
  }
}
