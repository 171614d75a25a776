/** The residential plan filter: plans with demand charges or a controlled
    load are dropped unless the matching switch includes them, and the
    dropped plans are counted by reason. */
module PlanFilter {
  import opened Plans

  /** plan["planData"]["contract"][0] exists: every plan the filter reads
      must have a contract, or the lookup raises. */
  predicate HasContract(p: Plan) { |p.contracts| >= 1 }

  /** Some tariff period of the first contract has a non-empty demandCharge list. */
  predicate HasDemandCharge(p: Plan)
    requires HasContract(p)
  {
    var tps := p.contracts[0].tariffPeriods;
    exists k :: 0 <= k < |tps| && tps[k].demandCharges > 0
  }

  /** plan_has_demand_charge: scans the tariff periods and stops at the
      first one with demand charges. */
  method PlanHasDemandCharge(p: Plan) returns (found: bool)
    requires HasContract(p)
    ensures found == HasDemandCharge(p)
  {
    var tps := p.contracts[0].tariffPeriods;
    var k := 0;
    while k < |tps|
      invariant 0 <= k <= |tps|
      invariant forall j :: 0 <= j < k ==> tps[j].demandCharges == 0
    {
      if tps[k].demandCharges > 0 {
        return true;
      }
      k := k + 1;
    }
    return false;
  }

  /** plan_has_controlled_load: the first contract lists a controlled load. */
  predicate HasControlledLoad(p: Plan)
    requires HasContract(p)
  {
    |p.contracts[0].controlledLoads| > 0
  }

  datatype Verdict = Kept | DemandFiltered | ControlledLoadFiltered

  /** The demand gate is tried first, then the controlled-load gate. */
  function Classify(p: Plan, includeControlledLoad: bool, includeDemand: bool): (v: Verdict)
    requires (includeDemand && includeControlledLoad) || HasContract(p)
    ensures v == DemandFiltered <==> !includeDemand && HasDemandCharge(p)
    ensures v == ControlledLoadFiltered <==>
      !includeControlledLoad && HasControlledLoad(p) && (includeDemand || !HasDemandCharge(p))
  {
    if !includeDemand && HasDemandCharge(p) then DemandFiltered
    else if !includeControlledLoad && HasControlledLoad(p) then ControlledLoadFiltered
    else Kept
  }

  /** Every plan has a contract. The filter needs this only when some
      switch is off: with both on, both gates short-circuit before the
      contract is read. */
  predicate AllHaveContracts(plans: seq<Plan>) {
    forall i :: 0 <= i < |plans| ==> HasContract(plans[i])
  }

  /** The plans kept, in input order. */
  function KeptPlans(plans: seq<Plan>, includeControlledLoad: bool, includeDemand: bool): (r: seq<Plan>)
    requires (includeDemand && includeControlledLoad) || AllHaveContracts(plans)
    ensures |r| <= |plans|
  {
    if plans == [] then []
    else
      var p := plans[|plans| - 1];
      var r := KeptPlans(plans[..|plans| - 1], includeControlledLoad, includeDemand);
      if Classify(p, includeControlledLoad, includeDemand) == Kept then r + [p] else r
  }

  /** The number of plans that receive verdict v. */
  function CountVerdict(plans: seq<Plan>, includeControlledLoad: bool, includeDemand: bool, v: Verdict): nat
    requires (includeDemand && includeControlledLoad) || AllHaveContracts(plans)
  {
    if plans == [] then 0
    else
      CountVerdict(plans[..|plans| - 1], includeControlledLoad, includeDemand, v)
      + (if Classify(plans[|plans| - 1], includeControlledLoad, includeDemand) == v then 1 else 0)
  }

  /** The stats dict of filter_plans. */
  datatype FilterStats = FilterStats(total: nat, demandFiltered: nat, controlledLoadFiltered: nat, kept: nat)

  /** filter_plans: one pass, counting each dropped plan under the first
      gate that drops it and appending the others. */
  method FilterPlans(plans: seq<Plan>, includeControlledLoad: bool, includeDemand: bool)
    returns (filtered: seq<Plan>, stats: FilterStats)
    requires (includeDemand && includeControlledLoad) || AllHaveContracts(plans)
    ensures filtered == KeptPlans(plans, includeControlledLoad, includeDemand)
    ensures stats == FilterStats(
      |plans|,
      CountVerdict(plans, includeControlledLoad, includeDemand, DemandFiltered),
      CountVerdict(plans, includeControlledLoad, includeDemand, ControlledLoadFiltered),
      |filtered|)
  {
    stats := FilterStats(|plans|, 0, 0, 0);
    filtered := [];
    var i := 0;
    while i < |plans|
      invariant 0 <= i <= |plans|
      invariant filtered == KeptPlans(plans[..i], includeControlledLoad, includeDemand)
      invariant stats == FilterStats(
        |plans|,
        CountVerdict(plans[..i], includeControlledLoad, includeDemand, DemandFiltered),
        CountVerdict(plans[..i], includeControlledLoad, includeDemand, ControlledLoadFiltered),
        0)
    {
      var plan := plans[i];
      assert plans[..i + 1][..i] == plans[..i];
      assert plans[..i + 1][i] == plan;
      var demand := false;
      if !includeDemand {
        demand := PlanHasDemandCharge(plan);
      }
      if demand {
        stats := stats.(demandFiltered := stats.demandFiltered + 1);
      } else if !includeControlledLoad && HasControlledLoad(plan) {
        stats := stats.(controlledLoadFiltered := stats.controlledLoadFiltered + 1);
      } else {
        filtered := filtered + [plan];
      }
      i := i + 1;
    }
    assert plans[..i] == plans;
    stats := stats.(kept := |filtered|);
  }

  /** kept + demand_filtered + controlled_load_filtered == total. */
  lemma {:induction false} FilterCountsAddUp(plans: seq<Plan>, includeControlledLoad: bool, includeDemand: bool)
    requires (includeDemand && includeControlledLoad) || AllHaveContracts(plans)
    ensures |KeptPlans(plans, includeControlledLoad, includeDemand)|
      + CountVerdict(plans, includeControlledLoad, includeDemand, DemandFiltered)
      + CountVerdict(plans, includeControlledLoad, includeDemand, ControlledLoadFiltered)
      == |plans|
    decreases |plans|
  {
    if plans != [] {
      FilterCountsAddUp(plans[..|plans| - 1], includeControlledLoad, includeDemand);
    }
  }

  /** A plan is kept exactly when it is an input plan that neither gate drops. */
  lemma {:induction false} KeptExactly(plans: seq<Plan>, includeControlledLoad: bool, includeDemand: bool)
    requires (includeDemand && includeControlledLoad) || AllHaveContracts(plans)
    ensures forall p :: p in KeptPlans(plans, includeControlledLoad, includeDemand) <==>
      p in plans && ((includeDemand && includeControlledLoad) || HasContract(p)) &&
      Classify(p, includeControlledLoad, includeDemand) == Kept
    decreases |plans|
  {
    if plans != [] {
      var init := plans[..|plans| - 1];
      KeptExactly(init, includeControlledLoad, includeDemand);
      assert plans == init + [plans[|plans| - 1]];
    }
  }

  /** Filtering works plan by plan, so it keeps the input order: the kept
      plans of two lists one after the other are those of the first list
      followed by those of the second. */
  lemma {:induction false} KeptPlansAppend(a: seq<Plan>, b: seq<Plan>, includeControlledLoad: bool, includeDemand: bool)
    requires (includeDemand && includeControlledLoad) || (AllHaveContracts(a) && AllHaveContracts(b))
    ensures (includeDemand && includeControlledLoad) || AllHaveContracts(a + b)
    ensures KeptPlans(a + b, includeControlledLoad, includeDemand) ==
      KeptPlans(a, includeControlledLoad, includeDemand) + KeptPlans(b, includeControlledLoad, includeDemand)
    decreases |b|
  {
    assert forall i :: 0 <= i < |a + b| ==> (a + b)[i] == if i < |a| then a[i] else b[i - |a|];
    if b != [] {
      var b' := b[..|b| - 1];
      KeptPlansAppend(a, b', includeControlledLoad, includeDemand);
      assert (a + b)[..|a + b| - 1] == a + b';
    } else {
      assert a + b == a;
    }
  }

  /** A plan with both a demand charge and a controlled load, with both
      switches off, is counted under demand_filtered only. */
  lemma BothCountedAsDemand(p: Plan)
    requires HasContract(p) && HasDemandCharge(p) && HasControlledLoad(p)
    ensures CountVerdict([p], false, false, DemandFiltered) == 1
    ensures CountVerdict([p], false, false, ControlledLoadFiltered) == 0
    ensures KeptPlans([p], false, false) == []
  {
    assert [p][..0] == [];
  }

  /** With both switches on neither gate looks at a plan, so every plan is
      kept, in order, and none is counted as filtered; this holds for
      plans without a contract too. */
  lemma {:induction false} KeepAllWithoutGates(plans: seq<Plan>)
    ensures KeptPlans(plans, true, true) == plans
    ensures CountVerdict(plans, true, true, DemandFiltered) == 0
    ensures CountVerdict(plans, true, true, ControlledLoadFiltered) == 0
    decreases |plans|
  {
    if plans != [] {
      KeepAllWithoutGates(plans[..|plans| - 1]);
      assert plans[..|plans| - 1] + [plans[|plans| - 1]] == plans;
    }
  }
}
