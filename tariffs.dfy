/** Normalising one plan contract into comparable numbers and labels: the
    supply charge, usage rates, retailer solar feed-in rates and tiers,
    controlled load, discounts, fees, payment options, meter types, benefit
    period and contract term. Amounts the API sends exclusive of GST are
    multiplied by GstFactor and rounded to two places. */
module Tariffs {
  import opened Text
  import opened Numbers
  import opened Lists
  import opened Plans

  // ---------------------------------------------------------------------
  // Supply charge and usage rates: first tariff period only
  // ---------------------------------------------------------------------

  /** Daily supply charge of the first tariff period, GST included (c/day):
      round(charge * 1.1, 2). */
  function SupplyCharge(c: Contract): (r: Option<real>)
    ensures r.Some? <==> c.tariffPeriods != [] && c.tariffPeriods[0].dailySupplyCharge.Some?
    ensures r.Some? ==> IsRound2(c.tariffPeriods[0].dailySupplyCharge.value * GstFactor, r.value)
  {
    if c.tariffPeriods != [] && c.tariffPeriods[0].dailySupplyCharge.Some? then
      Some(WithGst(c.tariffPeriods[0].dailySupplyCharge.value))
    else None
  }

  /** The block rates of all time-of-use blocks, block by block. */
  function FlattenBlocks(blocks: seq<TouBlock>): seq<BlockRate> {
    if blocks == [] then []
    else FlattenBlocks(blocks[..|blocks| - 1]) + blocks[|blocks| - 1].blockRates
  }

  /** Every block rate of every block is among the flattened ones. */
  lemma {:induction false} FlattenHas(blocks: seq<TouBlock>, i: nat, j: nat)
    requires i < |blocks| && j < |blocks[i].blockRates|
    ensures blocks[i].blockRates[j] in FlattenBlocks(blocks)
    decreases |blocks|
  {
    if i < |blocks| - 1 {
      FlattenHas(blocks[..|blocks| - 1], i, j);
    }
  }

  /** The usage block rates that count for a contract: those of its first
      tariff period; for time-of-use pricing, those of every block. */
  function FirstPeriodBlockRates(c: Contract): seq<BlockRate> {
    if c.tariffPeriods == [] then []
    else if c.pricingModel == "TOU" then FlattenBlocks(c.tariffPeriods[0].touBlocks)
    else c.tariffPeriods[0].blockRates
  }

  /** Every block rate has a unitPrice. */
  predicate Priced(brs: seq<BlockRate>) {
    forall b :: b in brs ==> b.unitPrice.Some?
  }

  /** The block rates that count all have a unitPrice; otherwise reading
      br["unitPrice"] raises KeyError while the usage rates are collected. */
  predicate UsagePriced(c: Contract) {
    Priced(FirstPeriodBlockRates(c))
  }

  /** Each block rate with GST, rounded to two places. */
  function GstRates(brs: seq<BlockRate>): (r: seq<real>)
    requires Priced(brs)
    ensures |r| == |brs|
    ensures forall i :: 0 <= i < |brs| ==> r[i] == WithGst(brs[i].unitPrice.value)
  {
    seq(|brs|, i requires 0 <= i < |brs| => WithGst(brs[i].unitPrice.value))
  }

  lemma GstRatesAppend(brs: seq<BlockRate>, b: BlockRate)
    requires Priced(brs) && b.unitPrice.Some?
    ensures Priced(brs + [b])
    ensures GstRates(brs + [b]) == GstRates(brs) + [WithGst(b.unitPrice.value)]
  {
    var l, r := GstRates(brs + [b]), GstRates(brs) + [WithGst(b.unitPrice.value)];
    assert |l| == |r|;
    forall i | 0 <= i < |l| ensures l[i] == r[i] {
      if i < |brs| {
        assert (brs + [b])[i] == brs[i];
      }
    }
  }

  /** The usage rates of a contract, GST included (c/kWh). */
  function UsageRates(c: Contract): (r: seq<real>)
    requires UsagePriced(c)
    ensures c.tariffPeriods == [] ==> r == []
    ensures |r| == |FirstPeriodBlockRates(c)|
  {
    GstRates(FirstPeriodBlockRates(c))
  }

  /** Collects the usage rates as the scraper's loops do: block by block for
      time-of-use pricing, otherwise from the period's own block rates.
      None when a block rate without unitPrice makes the lookup raise. */
  method CollectUsageRates(c: Contract) returns (rates: Option<seq<real>>)
    ensures rates.Some? <==> UsagePriced(c)
    ensures rates.Some? ==> rates.value == UsageRates(c)
    ensures rates.Some? ==> forall i :: 0 <= i < |rates.value| ==>
      rates.value[i] == WithGst(FirstPeriodBlockRates(c)[i].unitPrice.value)
  {
    if c.tariffPeriods == [] {
      return Some([]);
    }
    var tp := c.tariffPeriods[0];
    if c.pricingModel == "TOU" {
      var blocks := tp.touBlocks;
      var acc: seq<real> := [];
      var i := 0;
      while i < |blocks|
        invariant 0 <= i <= |blocks|
        invariant Priced(FlattenBlocks(blocks[..i]))
        invariant acc == GstRates(FlattenBlocks(blocks[..i]))
      {
        var brs := blocks[i].blockRates;
        var j := 0;
        while j < |brs|
          invariant 0 <= j <= |brs|
          invariant Priced(FlattenBlocks(blocks[..i]) + brs[..j])
          invariant acc == GstRates(FlattenBlocks(blocks[..i]) + brs[..j])
        {
          if brs[j].unitPrice.None? {
            FlattenHas(blocks, i, j);
            return None;
          }
          var done := FlattenBlocks(blocks[..i]) + brs[..j];
          GstRatesAppend(done, brs[j]);
          assert done + [brs[j]] == FlattenBlocks(blocks[..i]) + brs[..j + 1];
          acc := acc + [WithGst(brs[j].unitPrice.value)];
          j := j + 1;
        }
        assert brs[..j] == brs;
        assert blocks[..i + 1][..i] == blocks[..i];
        i := i + 1;
      }
      assert blocks[..i] == blocks;
      rates := Some(acc);
    } else if Priced(tp.blockRates) {
      rates := Some(GstRates(tp.blockRates));
    } else {
      rates := None;
    }
  }

  function UsageRateMin(c: Contract): Option<real>
    requires UsagePriced(c)
  {
    var r := UsageRates(c);
    if r == [] then None else Some(MinOf(r))
  }

  function UsageRateMax(c: Contract): Option<real>
    requires UsagePriced(c)
  {
    var r := UsageRates(c);
    if r == [] then None else Some(MaxOf(r))
  }

  /** Peak rate: the highest usage rate, for time-of-use pricing only. */
  function TouPeakRate(c: Contract): Option<real>
    requires UsagePriced(c)
  {
    if c.pricingModel != "TOU" then None else UsageRateMax(c)
  }

  /** Off-peak rate: the lowest usage rate, for time-of-use pricing only. */
  function TouOffPeakRate(c: Contract): Option<real>
    requires UsagePriced(c)
  {
    if c.pricingModel != "TOU" then None else UsageRateMin(c)
  }

  /** Minimum and maximum are both present or both absent, absent exactly
      when there is no usage rate (in particular with no tariff period),
      and the minimum never exceeds the maximum; both are rates of the list. */
  lemma UsageRateRange(c: Contract)
    requires UsagePriced(c)
    ensures UsageRateMin(c).None? <==> UsageRates(c) == []
    ensures UsageRateMax(c).None? <==> UsageRates(c) == []
    ensures c.tariffPeriods == [] ==> UsageRateMin(c).None? && UsageRateMax(c).None?
    ensures UsageRateMin(c).Some? ==> UsageRateMin(c).value <= UsageRateMax(c).value
    ensures UsageRateMin(c).Some? ==>
      UsageRateMin(c).value in UsageRates(c) && UsageRateMax(c).value in UsageRates(c)
  {
    var r := UsageRates(c);
    if r != [] {
      assert MinOf(r) <= r[0] <= MaxOf(r);
    }
  }

  /** Time-of-use peak and off-peak are the maximum and minimum usage rate;
      for any other pricing model both are absent. */
  lemma TouRatesAreExtremes(c: Contract)
    requires UsagePriced(c)
    ensures c.pricingModel == "TOU" ==>
      TouPeakRate(c) == UsageRateMax(c) && TouOffPeakRate(c) == UsageRateMin(c)
    ensures c.pricingModel != "TOU" ==> TouPeakRate(c).None? && TouOffPeakRate(c).None?
    ensures TouOffPeakRate(c).Some? ==> TouOffPeakRate(c).value <= TouPeakRate(c).value
  {
    UsageRateRange(c);
  }

  /** Only the first tariff period counts: replacing the later ones changes
      neither the supply charge nor any usage rate. */
  lemma FirstPeriodOnly(c: Contract, later: seq<TariffPeriod>)
    requires c.tariffPeriods != [] && UsagePriced(c)
    ensures var c' := c.(tariffPeriods := [c.tariffPeriods[0]] + later);
      SupplyCharge(c') == SupplyCharge(c) && UsagePriced(c') && UsageRates(c') == UsageRates(c) &&
      TouPeakRate(c') == TouPeakRate(c) && TouOffPeakRate(c') == TouOffPeakRate(c)
  {
    var c' := c.(tariffPeriods := [c.tariffPeriods[0]] + later);
    assert c'.tariffPeriods[0] == c.tariffPeriods[0];
    assert FirstPeriodBlockRates(c') == FirstPeriodBlockRates(c);
  }

  // ---------------------------------------------------------------------
  // Retailer solar feed-in rates
  // ---------------------------------------------------------------------

  /** The price of each step of a solar entry (0 for a step without one). */
  function StepPrices(srs: seq<SolarRate>): (r: seq<real>)
    ensures |r| == |srs|
  {
    if srs == [] then [] else StepPrices(srs[..|srs| - 1]) + [Value(srs[|srs| - 1].unitPrice)]
  }

  /** The rates one entry offers: its flat rate if it has one, else its step prices. */
  function EntryRates(fit: SolarFit): seq<real> {
    match fit.rate
    case Some(x) => [x]
    case None => StepPrices(fit.singleTariffRates)
  }

  predicate IsGovernment(fit: SolarFit) {
    fit.fitType == "G"
  }

  /** The rates of all entries, government schemes skipped, before the
      positive filter. */
  function RawSolarRates(fits: seq<SolarFit>): seq<real> {
    if fits == [] then []
    else
      var prev := RawSolarRates(fits[..|fits| - 1]);
      var fit := fits[|fits| - 1];
      if IsGovernment(fit) then prev else prev + EntryRates(fit)
  }

  /** The positive elements of s, in order. */
  function PositiveOnly(s: seq<real>): (r: seq<real>)
    ensures forall i :: 0 <= i < |r| ==> r[i] > 0.0
    ensures forall x :: x in r <==> x in s && x > 0.0
  {
    if s == [] then []
    else
      var prev := PositiveOnly(s[..|s| - 1]);
      assert s == s[..|s| - 1] + [s[|s| - 1]];
      if s[|s| - 1] > 0.0 then prev + [s[|s| - 1]] else prev
  }

  /** The retailer feed-in rates of a contract: positive, and never GST-adjusted. */
  function SolarFitRates(c: Contract): seq<real> {
    PositiveOnly(RawSolarRates(c.solarFits))
  }

  method CollectSolarFitRates(c: Contract) returns (rates: seq<real>)
    ensures rates == SolarFitRates(c)
    ensures forall i :: 0 <= i < |rates| ==> rates[i] > 0.0
  {
    var fits := c.solarFits;
    if fits == [] {
      return [];
    }
    var raw: seq<real> := [];
    var i := 0;
    while i < |fits|
      invariant 0 <= i <= |fits|
      invariant raw == RawSolarRates(fits[..i])
    {
      var fit := fits[i];
      assert fits[..i + 1][..i] == fits[..i];
      if !IsGovernment(fit) {
        match fit.rate {
          case Some(x) =>
            raw := raw + [x];
          case None =>
            var srs := fit.singleTariffRates;
            var j := 0;
            while j < |srs|
              invariant 0 <= j <= |srs|
              invariant raw == RawSolarRates(fits[..i]) + StepPrices(srs[..j])
            {
              assert srs[..j + 1][..j] == srs[..j];
              raw := raw + [Value(srs[j].unitPrice)];
              j := j + 1;
            }
            assert srs[..j] == srs;
        }
      }
      i := i + 1;
    }
    assert fits[..i] == fits;
    rates := PositiveOnly(raw);
  }

  /** The entries that are not government schemes, in order. */
  function RetailerFits(fits: seq<SolarFit>): (r: seq<SolarFit>)
    ensures forall i :: 0 <= i < |r| ==> !IsGovernment(r[i])
  {
    if fits == [] then []
    else
      var prev := RetailerFits(fits[..|fits| - 1]);
      if IsGovernment(fits[|fits| - 1]) then prev else prev + [fits[|fits| - 1]]
  }

  /** Government entries never contribute: dropping them changes no rate. */
  lemma {:induction false} GovernmentFitsIgnored(fits: seq<SolarFit>)
    ensures RawSolarRates(RetailerFits(fits)) == RawSolarRates(fits)
    decreases |fits|
  {
    if fits != [] {
      var init := fits[..|fits| - 1];
      var fit := fits[|fits| - 1];
      GovernmentFitsIgnored(init);
      if !IsGovernment(fit) {
        var rf := RetailerFits(init) + [fit];
        assert rf[..|rf| - 1] == RetailerFits(init);
      }
    }
  }

  /** Every feed-in rate is positive and is, as the API sent it, a rate of
      some retailer entry. */
  lemma {:induction false} SolarRateOrigin(fits: seq<SolarFit>, x: real)
    requires x in RawSolarRates(fits)
    ensures exists k :: 0 <= k < |fits| && !IsGovernment(fits[k]) && x in EntryRates(fits[k])
    decreases |fits|
  {
    var init := fits[..|fits| - 1];
    var fit := fits[|fits| - 1];
    if x in RawSolarRates(init) {
      SolarRateOrigin(init, x);
      var k :| 0 <= k < |init| && !IsGovernment(init[k]) && x in EntryRates(init[k]);
      assert fits[k] == init[k];
    } else {
      assert !IsGovernment(fit) && x in EntryRates(fit);
    }
  }

  /** round(min(rates), 2), or 0.0 when no positive retailer rate exists. */
  function SolarFitMin(c: Contract): real {
    var r := SolarFitRates(c);
    if r == [] then 0.0 else Round2(MinOf(r))
  }

  /** round(max(rates), 2), or 0.0 when no positive retailer rate exists. */
  function SolarFitMax(c: Contract): real {
    var r := SolarFitRates(c);
    if r == [] then 0.0 else Round2(MaxOf(r))
  }

  lemma SolarFitRange(c: Contract)
    ensures SolarFitRates(c) == [] ==> SolarFitMin(c) == 0.0 && SolarFitMax(c) == 0.0
    ensures SolarFitMin(c) <= SolarFitMax(c)
    ensures SolarFitMin(c) >= 0.0
  {
    var r := SolarFitRates(c);
    if r != [] {
      assert MinOf(r) <= r[0] <= MaxOf(r);
      Round2Monotone(MinOf(r), MaxOf(r));
      Round2Monotone(0.0, MinOf(r));
      Round2Exact(0);
    }
  }

  // ---------------------------------------------------------------------
  // Solar feed-in tier description
  // ---------------------------------------------------------------------

  /** The steps of a list whose price is positive, in order. */
  function PricedSteps(srs: seq<SolarRate>): (r: seq<SolarRate>)
    ensures forall i :: 0 <= i < |r| ==> Value(r[i].unitPrice) > 0.0
  {
    if srs == [] then []
    else
      var prev := PricedSteps(srs[..|srs| - 1]);
      var sr := srs[|srs| - 1];
      if Value(sr.unitPrice) > 0.0 then prev + [sr] else prev
  }

  /** The steps the description lists: the priced steps of every entry that
      is not a government scheme (whether or not the entry has a flat rate). */
  function TierEntries(fits: seq<SolarFit>): (r: seq<SolarRate>)
    ensures forall i :: 0 <= i < |r| ==> Value(r[i].unitPrice) > 0.0
  {
    if fits == [] then []
    else
      var prev := TierEntries(fits[..|fits| - 1]);
      var fit := fits[|fits| - 1];
      if IsGovernment(fit) then prev else prev + PricedSteps(fit.singleTariffRates)
  }

  /** A step is described exactly when it is in the list and priced. */
  lemma {:induction false} PricedStepsMembers(srs: seq<SolarRate>)
    ensures forall e :: e in PricedSteps(srs) <==> e in srs && Value(e.unitPrice) > 0.0
    decreases |srs|
  {
    if srs != [] {
      var init := srs[..|srs| - 1];
      PricedStepsMembers(init);
      assert srs == init + [srs[|srs| - 1]];
    }
  }

  /** The priced steps of two lists are those of each, in order, so the
      filter keeps the order of the steps. */
  lemma {:induction false} PricedStepsAppend(a: seq<SolarRate>, b: seq<SolarRate>)
    ensures PricedSteps(a + b) == PricedSteps(a) + PricedSteps(b)
    decreases |b|
  {
    if b == [] {
      assert a + b == a;
    } else {
      var init := b[..|b| - 1];
      assert (a + b)[..|a + b| - 1] == a + init;
      PricedStepsAppend(a, init);
    }
  }

  /** A step is described exactly when it is a priced step of an entry that
      is not a government scheme. */
  lemma {:induction false} TierEntriesMembers(fits: seq<SolarFit>)
    ensures forall e :: e in TierEntries(fits) <==>
      exists k :: 0 <= k < |fits| && !IsGovernment(fits[k]) &&
        e in fits[k].singleTariffRates && Value(e.unitPrice) > 0.0
    decreases |fits|
  {
    if fits != [] {
      var init := fits[..|fits| - 1];
      var fit := fits[|fits| - 1];
      TierEntriesMembers(init);
      PricedStepsMembers(fit.singleTariffRates);
      forall e
        ensures e in TierEntries(fits) <==>
          exists k :: 0 <= k < |fits| && !IsGovernment(fits[k]) &&
            e in fits[k].singleTariffRates && Value(e.unitPrice) > 0.0
      {
        if e in TierEntries(fits) {
          if e in TierEntries(init) {
            var k :| 0 <= k < |init| && !IsGovernment(init[k]) &&
              e in init[k].singleTariffRates && Value(e.unitPrice) > 0.0;
            assert fits[k] == init[k];
          } else {
            assert fits[|fits| - 1] == fit;
          }
        }
        if exists k :: 0 <= k < |fits| && !IsGovernment(fits[k]) &&
             e in fits[k].singleTariffRates && Value(e.unitPrice) > 0.0 {
          var k :| 0 <= k < |fits| && !IsGovernment(fits[k]) &&
            e in fits[k].singleTariffRates && Value(e.unitPrice) > 0.0;
          if k < |init| {
            assert init[k] == fits[k];
          }
        }
      }
    }
  }

  /** The described steps of two entry lists are those of each, in order. */
  lemma {:induction false} TierEntriesAppend(a: seq<SolarFit>, b: seq<SolarFit>)
    ensures TierEntries(a + b) == TierEntries(a) + TierEntries(b)
    decreases |b|
  {
    if b == [] {
      assert a + b == a;
    } else {
      var init := b[..|b| - 1];
      assert (a + b)[..|a + b| - 1] == a + init;
      TierEntriesAppend(a, init);
    }
  }

  /** "<price>c/kWh", followed by the cap text. */
  function TierText(e: SolarRate): string {
    Show(e.unitPrice) + "c/kWh" + CapText(e)
  }

  /** " (first <volume>kWh/day)" for a positive volume, else nothing. */
  function CapText(e: SolarRate): string {
    if Value(e.volume) > 0.0 then " (first " + Show(e.volume) + "kWh/day)" else ""
  }

  function TierTexts(es: seq<SolarRate>): seq<string> {
    Map(TierText, es)
  }

  const NoSolarFit: string := "No solar feed-in tariff"

  /** The solar feed-in description: the tier texts joined by "; ", or
      NoSolarFit when no step is priced. */
  function SolarFitDetails(c: Contract): (r: string)
    ensures TierEntries(c.solarFits) == [] <==> r == NoSolarFit
  {
    var es := TierEntries(c.solarFits);
    if es == [] then NoSolarFit
    else
      assert TierText(es[0])[0] == Show(es[0].unitPrice)[0];
      assert Join(TierTexts(es), "; ")[0] == TierText(es[0])[0] by {
        MapAt(TierText, es, 0);
        JoinStartsWithFirst(TierTexts(es), "; ");
      }
      ShowFirstChar(es[0].unitPrice);
      Join(TierTexts(es), "; ")
  }

  lemma {:induction false} JoinStartsWithFirst(parts: seq<string>, sep: string)
    requires |parts| >= 1 && |parts[0]| >= 1
    ensures |Join(parts, sep)| >= 1 && Join(parts, sep)[0] == parts[0][0]
  {
    if |parts| > 1 {
      assert Join(parts, sep) == parts[0] + sep + Join(parts[1..], sep);
    }
  }

  /** The text of a positive number starts with a digit, unlike NoSolarFit. */
  lemma ShowFirstChar(d: Dec)
    requires Value(d) > 0.0
    ensures IsDigitChar(Show(d)[0])
  {
    assert !d.negative;
    if d.frac == [] {
      ShowUnsignedWhole(d);
    } else if Positional(d) {
      ShowUnsignedFrac(d);
      assert Show(d)[0] == NatText(d.whole)[0];
    } else {
      ShowSci(d);
      SciFirstDigit(d);
    }
  }

  lemma TierTextsConcat(a: seq<SolarRate>, b: seq<SolarRate>)
    ensures TierTexts(a + b) == TierTexts(a) + TierTexts(b)
  {
    MapConcat(TierText, a, b);
  }

  /** The text of one priced step, with its volume cap when it has one. */
  method FormatTier(sr: SolarRate) returns (t: string)
    ensures t == TierText(sr)
  {
    var cap := "";
    if Value(sr.volume) > 0.0 {
      cap := " (first " + Show(sr.volume) + "kWh/day)";
    }
    t := Show(sr.unitPrice) + "c/kWh" + cap;
  }

  /** The texts of the priced steps of one entry, step by step. */
  method DescribeSteps(srs: seq<SolarRate>) returns (texts: seq<string>)
    ensures texts == TierTexts(PricedSteps(srs))
  {
    texts := [];
    ghost var listed: seq<SolarRate> := [];
    var j := 0;
    while j < |srs|
      invariant 0 <= j <= |srs|
      invariant listed == PricedSteps(srs[..j])
      invariant texts == TierTexts(listed)
    {
      var sr := srs[j];
      assert srs[..j + 1][..j] == srs[..j];
      if Value(sr.unitPrice) > 0.0 {
        var t := FormatTier(sr);
        TierTextsConcat(listed, [sr]);
        texts := texts + [t];
        listed := listed + [sr];
      }
      j := j + 1;
    }
    assert srs[..j] == srs;
  }

  method DescribeSolarFit(c: Contract) returns (text: string)
    ensures text == SolarFitDetails(c)
  {
    var fits := c.solarFits;
    if fits == [] {
      return NoSolarFit;
    }
    var details: seq<string> := [];
    var i := 0;
    while i < |fits|
      invariant 0 <= i <= |fits|
      invariant details == TierTexts(TierEntries(fits[..i]))
    {
      var fit := fits[i];
      assert fits[..i + 1][..i] == fits[..i];
      if !IsGovernment(fit) {
        var texts := DescribeSteps(fit.singleTariffRates);
        TierTextsConcat(TierEntries(fits[..i]), PricedSteps(fit.singleTariffRates));
        details := details + texts;
      }
      i := i + 1;
    }
    assert fits[..i] == fits;
    if details == [] {
      return NoSolarFit;
    }
    text := Join(details, "; ");
  }

  // ---------------------------------------------------------------------
  // Controlled load
  // ---------------------------------------------------------------------

  /** rates[0].get("unitPrice", 0). */
  function PriceOrZero(r: ClRate): real {
    if r.unitPrice.Some? then r.unitPrice.value else 0.0
  }

  /** Usage rate of the first controlled load, GST included; 0.0 without
      one or without rates, and a rate without unitPrice counts as 0. */
  function ControlledLoadRate(c: Contract): (r: real)
    ensures c.controlledLoads == [] || c.controlledLoads[0].rates == [] ==> r == 0.0
    ensures c.controlledLoads != [] && c.controlledLoads[0].rates != [] ==>
      IsRound2(PriceOrZero(c.controlledLoads[0].rates[0]) * GstFactor, r)
  {
    if c.controlledLoads == [] then 0.0
    else
      var rs := c.controlledLoads[0].rates;
      if rs == [] then 0.0 else WithGst(PriceOrZero(rs[0]))
  }

  /** Daily supply charge of the first controlled load, GST included: 0.0
      without one or when the charge is zero, round(charge * 1.1, 2)
      otherwise. */
  function ControlledLoadSupply(c: Contract): (r: real)
    ensures c.controlledLoads == [] || c.controlledLoads[0].dailySupplyCharge == 0.0 ==> r == 0.0
    ensures c.controlledLoads != [] && c.controlledLoads[0].dailySupplyCharge != 0.0 ==>
      IsRound2(c.controlledLoads[0].dailySupplyCharge * GstFactor, r)
  {
    if c.controlledLoads == [] then 0.0
    else
      var charge := c.controlledLoads[0].dailySupplyCharge;
      if charge != 0.0 then WithGst(charge) else 0.0
  }

  /** Every rate of the load has a unitPrice; otherwise reading
      r['unitPrice'] raises KeyError while the load is described. */
  predicate LoadPriced(cl: ControlledLoad) {
    forall j :: 0 <= j < |cl.rates| ==> cl.rates[j].unitPrice.Some?
  }

  /** Every load of the list is priced, checked from the front. */
  predicate AllLoadsPriced(cls: seq<ControlledLoad>) {
    cls == [] || (AllLoadsPriced(cls[..|cls| - 1]) && LoadPriced(cls[|cls| - 1]))
  }

  /** One unpriced load makes the whole list unpriced. */
  lemma NotAllLoadsPriced(cls: seq<ControlledLoad>, i: nat)
    requires i < |cls| && !LoadPriced(cls[i])
    ensures !AllLoadsPriced(cls)
  {
    AllLoadsPricedMeans(cls);
  }

  predicate LoadsPriced(c: Contract) {
    AllLoadsPriced(c.controlledLoads)
  }

  lemma {:induction false} AllLoadsPricedMeans(cls: seq<ControlledLoad>)
    ensures AllLoadsPriced(cls) <==> forall k :: 0 <= k < |cls| ==> LoadPriced(cls[k])
    decreases |cls|
  {
    if cls != [] {
      var init := cls[..|cls| - 1];
      AllLoadsPricedMeans(init);
      assert forall k :: 0 <= k < |init| ==> init[k] == cls[k];
    }
  }

  /** The supply text of a load: the GST-inclusive charge to two places. */
  function ClSupplyText(cl: ControlledLoad): string {
    if cl.dailySupplyCharge != 0.0
    then " + " + Fixed2(cl.dailySupplyCharge * GstFactor) + "c/day supply" else ""
  }

  /** One controlled load as text: its name, its rates with GST to two
      places, and its supply charge when non-zero. */
  function ClPart(cl: ControlledLoad): string {
    cl.displayName + ": " + Join(ClRateTexts(cl.rates), ", ") + ClSupplyText(cl)
  }

  /** A rate's unitPrice with GST to two places and "c/kWh". A rate without
      unitPrice never reaches the text: the lookup raises first (see
      DescribeOneLoad), so the 0 it would print here is never printed. */
  function ClRateText(r: ClRate): string {
    Fixed2(PriceOrZero(r) * GstFactor) + "c/kWh"
  }

  function ClRateTexts(rs: seq<ClRate>): seq<string> {
    Map(ClRateText, rs)
  }

  function ClParts(cls: seq<ControlledLoad>): seq<string> {
    Map(ClPart, cls)
  }

  /** One text per controlled load, in the order of the loads. */
  lemma ClPartsEach(cls: seq<ControlledLoad>)
    ensures |ClParts(cls)| == |cls|
    ensures forall i :: 0 <= i < |cls| ==> ClParts(cls)[i] == ClPart(cls[i])
  {
    forall i | 0 <= i < |cls| ensures ClParts(cls)[i] == ClPart(cls[i]) {
      MapAt(ClPart, cls, i);
    }
  }

  /** All controlled loads as text, joined by "; ", or "N/A" without any. */
  function ControlledLoadText(c: Contract): string {
    if c.controlledLoads == [] then "N/A" else Join(ClParts(c.controlledLoads), "; ")
  }

  /** The text of one controlled load, the supply charge appended when
      non-zero; None when a rate without unitPrice makes the lookup raise. */
  method DescribeOneLoad(cl: ControlledLoad) returns (part: Option<string>)
    ensures part.Some? <==> LoadPriced(cl)
    ensures part.Some? ==> part.value == ClPart(cl)
  {
    if !LoadPriced(cl) {
      return None;
    }
    var text := cl.displayName + ": " + Join(ClRateTexts(cl.rates), ", ");
    if cl.dailySupplyCharge != 0.0 {
      var supply := " + " + Fixed2(cl.dailySupplyCharge * GstFactor) + "c/day supply";
      text := text + supply;
    }
    part := Some(text);
  }

  /** The loop over the controlled loads; None as soon as one of them
      cannot be described. */
  method DescribeControlledLoad(c: Contract) returns (text: Option<string>)
    ensures text.Some? <==> LoadsPriced(c)
    ensures text.Some? ==> text.value == ControlledLoadText(c)
  {
    var cls := c.controlledLoads;
    if cls == [] {
      return Some("N/A");
    }
    var parts: seq<string> := [];
    var i := 0;
    while i < |cls|
      invariant 0 <= i <= |cls|
      invariant AllLoadsPriced(cls[..i])
      invariant parts == ClParts(cls[..i])
    {
      var part := DescribeOneLoad(cls[i]);
      if part.None? {
        NotAllLoadsPriced(cls, i);
        return None;
      }
      assert cls[..i + 1][..i] == cls[..i];
      parts := parts + [part.value];
      i := i + 1;
    }
    assert cls[..i] == cls;
    text := Some(if parts != [] then Join(parts, "; ") else "N/A");
  }

  /** The first rate in the text of the first load cl, read back, is
      ControlledLoadRate: the text prints the unrounded product to two places
      and the column rounds the same product to two places. */
  lemma ClTextAgreesWithRate(c: Contract, cl: ControlledLoad)
    requires c.controlledLoads != [] && cl == c.controlledLoads[0]
    requires cl.rates != [] && cl.rates[0].unitPrice.Some? && cl.rates[0].unitPrice.value >= 0.0
    ensures var x := cl.rates[0].unitPrice.value * GstFactor;
      ClRateTexts(cl.rates)[0] == Fixed2(x) + "c/kWh" &&
      NumberChars(Fixed2(x)) && ParseNumberRun(Fixed2(x)) == Some(ControlledLoadRate(c))
  {
    MapAt(ClRateText, cl.rates, 0);
    Fixed2Denotes(cl.rates[0].unitPrice.value * GstFactor);
  }

  /** The supply charge in the text of the first load cl, read back, is the
      CL supply column: a positive charge is printed to two places after the
      rates, and the column rounds the same product to two places. */
  lemma ClSupplyTextAgrees(c: Contract, cl: ControlledLoad)
    requires c.controlledLoads != [] && cl == c.controlledLoads[0]
    requires cl.dailySupplyCharge > 0.0
    ensures var x := cl.dailySupplyCharge * GstFactor;
      ClSupplyText(cl) == " + " + Fixed2(x) + "c/day supply" &&
      NumberChars(Fixed2(x)) && ParseNumberRun(Fixed2(x)) == Some(ControlledLoadSupply(c))
  {
    Fixed2Denotes(cl.dailySupplyCharge * GstFactor);
  }

  /** Only the first controlled load decides the rate and the supply charge. */
  lemma FirstControlledLoadOnly(c: Contract, later: seq<ControlledLoad>)
    requires c.controlledLoads != []
    ensures var c' := c.(controlledLoads := [c.controlledLoads[0]] + later);
      ControlledLoadRate(c') == ControlledLoadRate(c) && ControlledLoadSupply(c') == ControlledLoadSupply(c)
  {
    var c' := c.(controlledLoads := [c.controlledLoads[0]] + later);
    assert c'.controlledLoads[0] == c.controlledLoads[0];
  }

  // ---------------------------------------------------------------------
  // Discounts and fees
  // ---------------------------------------------------------------------

  /** A number is truthy in Python when present and non-zero. */
  predicate Truthy(o: Option<Dec>) {
    o.Some? && Value(o.value) != 0.0
  }

  /** "<name> (<pct>%)" for a percentage discount, else "<name> ($<amount>)"
      for a fixed one, else the bare name. */
  function DiscountText(d: Discount): string {
    if Truthy(d.percent) then d.name + " (" + Show(d.percent.value) + "%)"
    else if Truthy(d.amount) then d.name + " ($" + Show(d.amount.value) + ")"
    else d.name
  }

  function DiscountTexts(ds: seq<Discount>): seq<string> {
    Map(DiscountText, ds)
  }

  function Discounts(c: Contract): string {
    if c.discounts == [] then "None" else Join(DiscountTexts(c.discounts), "; ")
  }

  /** The text of one discount, branch by branch. */
  method FormatDiscount(d: Discount) returns (t: string)
    ensures t == DiscountText(d)
  {
    if Truthy(d.percent) {
      t := d.name + " (" + Show(d.percent.value) + "%)";
    } else if Truthy(d.amount) {
      t := d.name + " ($" + Show(d.amount.value) + ")";
    } else {
      t := d.name;
    }
  }

  method DescribeDiscounts(c: Contract) returns (text: string)
    ensures text == Discounts(c)
  {
    var ds := c.discounts;
    if ds == [] {
      return "None";
    }
    var parts: seq<string> := [];
    var i := 0;
    while i < |ds|
      invariant 0 <= i <= |ds|
      invariant parts == DiscountTexts(ds[..i])
    {
      var t := FormatDiscount(ds[i]);
      MapSnoc(DiscountText, ds[..i], ds[i]);
      TakeSnoc(ds, i);
      parts := parts + [t];
      i := i + 1;
    }
    assert ds[..i] == ds;
    text := Join(parts, "; ");
  }

  /** Fee-type codes and their labels. */
  const FeeTypes: map<string, string> := map[
    "ConnF" := "Connection Fee",
    "DiscoF" := "Disconnection Fee",
    "DiscoFMO" := "Disconnection Fee (Move Out)",
    "DiscoFNP" := "Disconnection Fee (Non-Payment)",
    "ChDF" := "Charge Dispute Fee",
    "DDF" := "Dishonoured Direct Debit Fee",
    "LPF" := "Late Payment Fee",
    "PBF" := "Paper Bill Fee",
    "CCF" := "Credit Card Fee",
    "PPF" := "Payment Processing Fee",
    "RecoF" := "Reconnection Fee",
    "MBSF" := "Membership Fee",
    "OF" := "Other Fee"]

  /** The label of a fee: the table's label for a known code, the code
      itself for an unknown one, "Unknown" when the fee has no type. */
  function FeeLabel(f: Fee): (r: string)
    ensures f.feeType.None? ==> r == "Unknown"
    ensures f.feeType.Some? && f.feeType.value !in FeeTypes ==> r == f.feeType.value
    ensures f.feeType.Some? && f.feeType.value in FeeTypes ==> r == FeeTypes[f.feeType.value]
  {
    match f.feeType
    case None => "Unknown"
    case Some(code) => if code in FeeTypes then FeeTypes[code] else code
  }

  function FeeText(f: Fee): string {
    FeeLabel(f) + ": $" + Fixed2(f.amount)
  }

  function FeeTexts(fs: seq<Fee>): (r: seq<string>)
    ensures |r| == |fs|
    ensures forall i :: 0 <= i < |fs| ==> r[i] == FeeText(fs[i])
  {
    if fs == [] then []
    else
      assert forall i :: 0 <= i < |fs| - 1 ==> fs[..|fs| - 1][i] == fs[i];
      FeeTexts(fs[..|fs| - 1]) + [FeeText(fs[|fs| - 1])]
  }

  function Fees(c: Contract): string {
    if c.fees == [] then "None" else Join(FeeTexts(c.fees), "; ")
  }

  method DescribeFees(c: Contract) returns (text: string)
    ensures text == Fees(c)
  {
    var fs := c.fees;
    if fs == [] {
      return "None";
    }
    var parts: seq<string> := [];
    var i := 0;
    while i < |fs|
      invariant 0 <= i <= |fs|
      invariant parts == FeeTexts(fs[..i])
    {
      assert fs[..i + 1][..i] == fs[..i];
      parts := parts + [FeeLabel(fs[i]) + ": $" + Fixed2(fs[i].amount)];
      i := i + 1;
    }
    assert fs[..i] == fs;
    text := Join(parts, "; ");
  }

  // ---------------------------------------------------------------------
  // Payment options, meter types, benefit period, contract term
  // ---------------------------------------------------------------------

  const PaymentOptionLabels: map<string, string> := map[
    "P" := "Post/Mail",
    "DD" := "Direct Debit",
    "CC" := "Credit Card",
    "BP" := "BPay",
    "CP" := "Centrepay"]

  /** The table's label for a known payment code; an unknown code passes through. */
  function PaymentLabel(o: string): (r: string)
    ensures o !in PaymentOptionLabels ==> r == o
    ensures o in PaymentOptionLabels ==> r == PaymentOptionLabels[o]
  {
    if o in PaymentOptionLabels then PaymentOptionLabels[o] else o
  }

  function PaymentLabels(os: seq<string>): (r: seq<string>)
    ensures |r| == |os|
    ensures forall i :: 0 <= i < |os| ==> r[i] == PaymentLabel(os[i])
  {
    seq(|os|, i requires 0 <= i < |os| => PaymentLabel(os[i]))
  }

  /** The payment options as labels joined by ", ", or "N/A" without any. */
  function PaymentOptions(c: Contract): string {
    if c.paymentOptions == [] then "N/A" else Join(PaymentLabels(c.paymentOptions), ", ")
  }

  /** When no code contains a comma, the text splits back into one label
      per payment option, each the table's label or the code itself. */
  lemma PaymentOptionsSplit(c: Contract)
    requires c.paymentOptions != []
    requires forall i :: 0 <= i < |c.paymentOptions| ==> ',' !in c.paymentOptions[i]
    ensures Split(PaymentOptions(c), ", ") == PaymentLabels(c.paymentOptions)
    ensures |Split(PaymentOptions(c), ", ")| == |c.paymentOptions|
  {
    var ls := PaymentLabels(c.paymentOptions);
    forall i | 0 <= i < |ls| ensures ", "[0] !in ls[i] {
      var o := c.paymentOptions[i];
      if o in PaymentOptionLabels {
        assert o == "P" || o == "DD" || o == "CC" || o == "BP" || o == "CP";
      }
    }
    SplitJoin(ls, ", ");
  }

  const MeterTypeLabels: map<string, string> := map[
    "Type 6" := "Basic Meter",
    "Type 4" := "Smart Meter",
    "Type 4a" := "Smart Meter (4a)",
    "Type 1" := "Interval Meter"]

  /** The table's label for a known meter type; an unknown type passes through. */
  function MeterLabel(m: string): (r: string)
    ensures m !in MeterTypeLabels ==> r == m
    ensures m in MeterTypeLabels ==> r == MeterTypeLabels[m]
  {
    if m in MeterTypeLabels then MeterTypeLabels[m] else m
  }

  function MeterLabels(ms: seq<string>): (r: seq<string>)
    ensures |r| == |ms|
    ensures forall i :: 0 <= i < |ms| ==> r[i] == MeterLabel(ms[i])
  {
    if ms == [] then []
    else
      assert forall i :: 0 <= i < |ms| - 1 ==> ms[..|ms| - 1][i] == ms[i];
      MeterLabels(ms[..|ms| - 1]) + [MeterLabel(ms[|ms| - 1])]
  }

  /** A label is its own de-duplication key. */
  function Identity(s: string): string { s }

  /** The meter labels without repeats, in the order first seen. */
  function UniqueMeterLabels(c: Contract): seq<string> {
    Dedup(MeterLabels(c.meterTypes), Identity)
  }

  function MeterTypes(c: Contract): string {
    if c.meterTypes == [] then "N/A" else Join(UniqueMeterLabels(c), ", ")
  }

  method DescribeMeterTypes(c: Contract) returns (text: string)
    ensures text == MeterTypes(c)
  {
    var meters := c.meterTypes;
    if meters == [] {
      return "N/A";
    }
    var readable: seq<string> := [];
    var i := 0;
    while i < |meters|
      invariant 0 <= i <= |meters|
      invariant readable == MeterLabels(meters[..i])
    {
      assert meters[..i + 1][..i] == meters[..i];
      readable := readable + [MeterLabel(meters[i])];
      i := i + 1;
    }
    assert meters[..i] == meters;
    var unique := UniqueLabels(readable);
    text := Join(unique, ", ");
  }

  /** Drops repeated labels with a set of those already seen. */
  method UniqueLabels(readable: seq<string>) returns (unique: seq<string>)
    ensures unique == Dedup(readable, Identity)
  {
    var seen: set<string> := {};
    unique := [];
    var k := 0;
    while k < |readable|
      invariant 0 <= k <= |readable|
      invariant unique == Dedup(readable[..k], Identity)
      invariant seen == KeysOf(unique, Identity)
    {
      var r := readable[k];
      UniqueLabelsStep(readable, k, unique);
      if r !in seen {
        seen := seen + {r};
        unique := unique + [r];
      }
      assert unique == Dedup(readable[..k + 1], Identity);
      k := k + 1;
    }
    assert readable[..|readable|] == readable;
  }

  /** One step of UniqueLabels: the next label is kept exactly when it is new. */
  lemma UniqueLabelsStep(readable: seq<string>, k: nat, unique: seq<string>)
    requires k < |readable|
    requires unique == Dedup(readable[..k], Identity)
    ensures Dedup(readable[..k + 1], Identity) ==
      if readable[k] in KeysOf(unique, Identity) then unique else unique + [readable[k]]
    ensures KeysOf(unique + [readable[k]], Identity) == KeysOf(unique, Identity) + {readable[k]}
  {
    assert readable[..k + 1] == readable[..k] + [readable[k]];
    DedupSnoc(readable[..k], readable[k], Identity);
    KeysOfSnoc(unique, readable[k], Identity);
  }

  /** No meter label is listed twice. */
  lemma MeterLabelsDistinct(c: Contract)
    ensures var u := UniqueMeterLabels(c);
      forall i, j :: 0 <= i < j < |u| ==> u[i] != u[j]
  {
    var u := UniqueMeterLabels(c);
    DedupDistinct(MeterLabels(c.meterTypes), Identity);
    forall i, j | 0 <= i < j < |u| ensures u[i] != u[j] {
      assert Identity(u[i]) != Identity(u[j]);
    }
  }

  /** Exactly the labels of the contract's meter types are listed. */
  lemma MeterLabelsComplete(c: Contract)
    ensures forall m :: m in c.meterTypes ==> MeterLabel(m) in UniqueMeterLabels(c)
    ensures forall l :: l in UniqueMeterLabels(c) ==> l in MeterLabels(c.meterTypes)
  {
    var u := UniqueMeterLabels(c);
    var all := MeterLabels(c.meterTypes);
    DedupKeys(all, Identity);
    forall m | m in c.meterTypes ensures MeterLabel(m) in u {
      var k :| 0 <= k < |c.meterTypes| && c.meterTypes[k] == m;
      assert Identity(all[k]) in KeysOf(u, Identity);
      KeysOfWitness(u, Identity, all[k]);
    }
    DedupFirst(all, Identity);
    forall l | l in u ensures l in all {
      var i :| 0 <= i < |u| && u[i] == l;
      assert u[i] == all[FirstIndex(all, Identity, Identity(u[i]))];
    }
  }

  /** Labels come in the order in which the contract first lists them. */
  lemma MeterLabelsFirstSeenOrder(c: Contract)
    ensures FirstSeenOrder(UniqueMeterLabels(c), MeterLabels(c.meterTypes), Identity)
  {
    DedupOrder(MeterLabels(c.meterTypes), Identity);
  }

  /** The benefit period, or "N/A" when empty. */
  function BenefitPeriod(c: Contract): (r: string)
    ensures r != []
    ensures c.benefitPeriod == [] ==> r == "N/A"
    ensures c.benefitPeriod != [] ==> r == c.benefitPeriod
  {
    if c.benefitPeriod == [] then "N/A" else c.benefitPeriod
  }

  const TermLabels: map<string, string> := map[
    "E" := "No lock-in",
    "1" := "1 year",
    "2" := "2 years",
    "3" := "3 years"]

  /** The contract term as text: the table's label, else the code itself,
      else "N/A" for an empty code. */
  function ContractTerm(c: Contract): (r: string)
    ensures r != []
    ensures c.termType in TermLabels ==> r == TermLabels[c.termType]
    ensures c.termType == "E" ==> r == "No lock-in"
    ensures c.termType !in TermLabels && c.termType != [] ==> r == c.termType
    ensures c.termType == [] ==> r == "N/A"
  {
    var t := c.termType;
    if t in TermLabels then TermLabels[t] else if t != [] then t else "N/A"
  }
}
