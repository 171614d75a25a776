/** Which electricity distributors the scraper fetches plans for: the supply
    areas the meta API lists for a postcode, the probe of each one's plan
    count, the user's choice among those that have plans, and the --dist
    option. The probe results and the user's answers are inputs: a probe is
    a map from distributor id to plan count (a missing id is a failed probe,
    -1), and the answers are the lines the user types, in order. */
module Distributors {
  import opened Text
  import opened Numbers
  import opened Lists

  /** A supply area record of the meta API. */
  datatype SupplyArea = SupplyArea(id: string, name: string)

  /** One item of the meta API's data list, with its planData.supplyArea list. */
  datatype MetaItem = MetaItem(supplyAreas: seq<SupplyArea>)

  /** A distributor dict: planCount is set once a probe has found plans
      (or to 0 for the --dist entries). */
  datatype Distributor = Distributor(id: string, name: string, planCount: Option<int>)

  function DistId(d: Distributor): string { d.id }

  /** The order of sorted(..., key=lambda d: d["name"]). */
  predicate NameLe(a: Distributor, b: Distributor) { LexLe(a.name, b.name) }

  lemma NameLeTotalPreorder()
    ensures TotalPreorder(NameLe)
  {
    forall a: Distributor, b: Distributor ensures NameLe(a, b) || NameLe(b, a) {
      LexLeTotal(a.name, b.name);
    }
    forall a: Distributor, b: Distributor, c: Distributor | NameLe(a, b) && NameLe(b, c)
      ensures NameLe(a, c)
    {
      LexLeTrans(a.name, b.name, c.name);
    }
  }

  // ---------------------------------------------------------------------
  // fetch_distributors: de-duplicate by id, sort by name
  // ---------------------------------------------------------------------

  /** The {id, name} entries of a list of supply areas. */
  function AreaEntries(areas: seq<SupplyArea>): (r: seq<Distributor>)
    ensures |r| == |areas|
    ensures forall i :: 0 <= i < |areas| ==> r[i] == Distributor(areas[i].id, areas[i].name, None)
  {
    seq(|areas|, i requires 0 <= i < |areas| => Distributor(areas[i].id, areas[i].name, None))
  }

  lemma AreaEntriesSnoc(before: seq<Distributor>, areas: seq<SupplyArea>, j: nat)
    requires j < |areas|
    ensures before + AreaEntries(areas[..j + 1]) ==
      (before + AreaEntries(areas[..j])) + [Distributor(areas[j].id, areas[j].name, None)]
  {
    assert AreaEntries(areas[..j + 1]) ==
      AreaEntries(areas[..j]) + [Distributor(areas[j].id, areas[j].name, None)];
  }

  /** Every supply area of every item, in the order the nested loops visit them. */
  function Candidates(items: seq<MetaItem>): seq<Distributor> {
    if items == [] then []
    else Candidates(items[..|items| - 1]) + AreaEntries(items[|items| - 1].supplyAreas)
  }

  /** The distributors of a postcode: first entry per id, sorted by name. */
  function Discovered(items: seq<MetaItem>): seq<Distributor> {
    SortBy(Dedup(Candidates(items), DistId), NameLe)
  }

  /** The nested loops with the seen set, then sorted(). */
  method CollectDistributors(items: seq<MetaItem>) returns (distributors: seq<Distributor>)
    ensures distributors == Discovered(items)
  {
    var seen: set<string> := {};
    var found: seq<Distributor> := [];
    var i := 0;
    while i < |items|
      invariant 0 <= i <= |items|
      invariant found == Dedup(Candidates(items[..i]), DistId)
      invariant seen == KeysOf(found, DistId)
    {
      assert items[..i + 1][..i] == items[..i];
      found, seen := AddSupplyAreas(Candidates(items[..i]), found, seen, items[i].supplyAreas);
      i := i + 1;
    }
    assert items[..i] == items;
    distributors := SortBy(found, NameLe);
  }

  /** The inner loop over one item's supply areas: an area whose id was not
      seen yet is recorded and appended. */
  method AddSupplyAreas(before: seq<Distributor>, found: seq<Distributor>, seen: set<string>, areas: seq<SupplyArea>)
    returns (found': seq<Distributor>, seen': set<string>)
    requires found == Dedup(before, DistId) && seen == KeysOf(found, DistId)
    ensures found' == Dedup(before + AreaEntries(areas), DistId)
    ensures seen' == KeysOf(found', DistId)
  {
    found', seen' := found, seen;
    var j := 0;
    assert before + AreaEntries(areas[..0]) == before;
    while j < |areas|
      invariant 0 <= j <= |areas|
      invariant found' == Dedup(before + AreaEntries(areas[..j]), DistId)
      invariant seen' == KeysOf(found', DistId)
    {
      var d := Distributor(areas[j].id, areas[j].name, None);
      var prefix := before + AreaEntries(areas[..j]);
      AreaEntriesSnoc(before, areas, j);
      DedupSnoc(prefix, d, DistId);
      if areas[j].id !in seen' {
        assert (found' + [d])[..|found'|] == found';
        seen' := seen' + {areas[j].id};
        found' := found' + [d];
      }
      j := j + 1;
    }
    assert areas[..j] == areas;
  }

  /** No id is listed twice. */
  lemma DiscoveredIdsDistinct(items: seq<MetaItem>)
    ensures var ds := Discovered(items);
      forall i, j :: 0 <= i < j < |ds| ==> ds[i].id != ds[j].id
  {
    var u := Dedup(Candidates(items), DistId);
    DedupDistinct(Candidates(items), DistId);
    SortKeepsDistinctKeys(u, NameLe, DistId);
    var ds := Discovered(items);
    forall i, j | 0 <= i < j < |ds| ensures ds[i].id != ds[j].id {
      assert DistId(ds[i]) != DistId(ds[j]);
    }
  }

  /** The list is in ascending order of name. */
  lemma DiscoveredSortedByName(items: seq<MetaItem>)
    ensures var ds := Discovered(items);
      forall i, j :: 0 <= i < j < |ds| ==> LexLe(ds[i].name, ds[j].name)
  {
    NameLeTotalPreorder();
    SortBySorted(Dedup(Candidates(items), DistId), NameLe);
    var ds := Discovered(items);
    forall i, j | 0 <= i < j < |ds| ensures LexLe(ds[i].name, ds[j].name) {
      assert NameLe(ds[i], ds[j]);
    }
  }

  /** Each listed distributor is the first supply area that carried its id,
      and every id of a supply area is listed. */
  lemma DiscoveredFirstOccurrence(items: seq<MetaItem>)
    ensures var c := Candidates(items);
      forall d :: d in Discovered(items) ==>
        d.id in KeysOf(c, DistId) && d == c[FirstIndex(c, DistId, d.id)]
    ensures var c := Candidates(items);
      forall i :: 0 <= i < |c| ==> c[FirstIndex(c, DistId, c[i].id)] in Discovered(items)
  {
    var c := Candidates(items);
    var u := Dedup(c, DistId);
    var ds := Discovered(items);
    DedupFirst(c, DistId);
    DedupKeys(c, DistId);
    assert multiset(ds) == multiset(u);
    forall d | d in ds ensures d.id in KeysOf(c, DistId) && d == c[FirstIndex(c, DistId, d.id)] {
      assert d in multiset(u);
      var k :| 0 <= k < |u| && u[k] == d;
      assert DistId(u[k]) == d.id;
    }
    forall i | 0 <= i < |c| ensures c[FirstIndex(c, DistId, c[i].id)] in ds {
      assert DistId(c[i]) in KeysOf(u, DistId);
      KeysOfWitness(u, DistId, c[i].id);
      var k :| 0 <= k < |u| && DistId(u[k]) == c[i].id;
      assert u[k] in multiset(ds);
    }
  }

  // ---------------------------------------------------------------------
  // Probing: keep the distributors whose probe finds plans
  // ---------------------------------------------------------------------

  /** probe_distributor_plans: the number of plans, or -1 on any failure. */
  function ProbeCount(probes: map<string, int>, id: string): int {
    if id in probes then probes[id] else -1
  }

  /** The distributors whose probe count is positive, in order, each carrying
      its count. */
  function Available(ds: seq<Distributor>, probes: map<string, int>): (r: seq<Distributor>)
    ensures |r| <= |ds|
  {
    if ds == [] then []
    else
      var d := ds[|ds| - 1];
      var n := ProbeCount(probes, d.id);
      if n > 0 then Available(ds[..|ds| - 1], probes) + [d.(planCount := Some(n))]
      else Available(ds[..|ds| - 1], probes)
  }

  /** The probing loop: sets plan_count on each distributor with plans and
      appends it. */
  method ProbeDistributors(ds: seq<Distributor>, probes: map<string, int>) returns (available: seq<Distributor>)
    ensures available == Available(ds, probes)
  {
    available := [];
    var i := 0;
    while i < |ds|
      invariant 0 <= i <= |ds|
      invariant available == Available(ds[..i], probes)
    {
      assert ds[..i + 1][..i] == ds[..i];
      var count := ProbeCount(probes, ds[i].id);
      if count > 0 {
        available := available + [ds[i].(planCount := Some(count))];
      }
      i := i + 1;
    }
    assert ds[..i] == ds;
  }

  /** A distributor that carries the positive plan count its probe found. */
  predicate HasPlans(d: Distributor, probes: map<string, int>) {
    d.planCount.Some? && d.planCount.value > 0 && d.planCount.value == ProbeCount(probes, d.id)
  }

  /** Every kept distributor is a probed one whose count is positive, and
      carries that count. */
  lemma {:induction false} AvailableCounted(ds: seq<Distributor>, probes: map<string, int>)
    ensures forall d :: d in Available(ds, probes) ==>
      HasPlans(d, probes) && exists e :: e in ds && d == e.(planCount := d.planCount)
    decreases |ds|
  {
    if ds != [] {
      var p := ds[..|ds| - 1];
      AvailableCounted(p, probes);
      var rp := Available(p, probes);
      var last := ds[|ds| - 1];
      var n := ProbeCount(probes, last.id);
      assert Available(ds, probes) == if n > 0 then rp + [last.(planCount := Some(n))] else rp;
      forall d | d in Available(ds, probes)
        ensures HasPlans(d, probes) && exists e :: e in ds && d == e.(planCount := d.planCount)
      {
        if d in rp {
          var e :| e in p && d == e.(planCount := d.planCount);
          assert e in ds;
        } else {
          assert d == last.(planCount := Some(n));
          assert last in ds;
        }
      }
    }
  }

  /** Every distributor whose probe finds plans is kept. */
  lemma {:induction false} AvailableComplete(ds: seq<Distributor>, probes: map<string, int>)
    ensures forall j :: 0 <= j < |ds| && ProbeCount(probes, ds[j].id) > 0 ==>
      ds[j].(planCount := Some(ProbeCount(probes, ds[j].id))) in Available(ds, probes)
    decreases |ds|
  {
    if ds != [] {
      var p := ds[..|ds| - 1];
      AvailableComplete(p, probes);
      forall j | 0 <= j < |ds| && ProbeCount(probes, ds[j].id) > 0
        ensures ds[j].(planCount := Some(ProbeCount(probes, ds[j].id))) in Available(ds, probes)
      {
        if j < |p| {
          assert ds[j] == p[j];
        }
      }
    }
  }

  // ---------------------------------------------------------------------
  // The user's choice
  // ---------------------------------------------------------------------

  /** Python int() of a stripped text: an optional sign and decimal digits. */
  function PyInt(s: string): Option<int> {
    if s != [] && (s[0] == '+' || s[0] == '-') then
      var ds := s[1..];
      var v: int := if ds != [] && AllDigits(ds) then DigitsValue(ds) else 0;
      if ds != [] && AllDigits(ds) then Some(if s[0] == '-' then -v else v)
      else None
    else if s != [] && AllDigits(s) then Some(DigitsValue(s))
    else None
  }

  datatype Choice = All | Index(i: nat) | Invalid

  /** One answer, stripped and upper-cased: "A" for all, a number 1..count
      for one distributor, anything else invalid. */
  function ReadChoice(answer: string, count: nat): (c: Choice)
    ensures var t := Upper(Strip(answer));
      (c == All <==> t == "A") &&
      (c.Index? <==> t != "A" && PyInt(t).Some? && 1 <= PyInt(t).value <= count) &&
      (c.Index? ==> c.i == PyInt(t).value - 1 && c.i < count)
  {
    var t := Upper(Strip(answer));
    if t == "A" then All
    else
      match PyInt(t)
      case Some(n) => if 0 <= n - 1 < count then Index(n - 1) else Invalid
      case None => Invalid
  }

  /** The menu number [k+1] shown for the k-th distributor selects it. */
  lemma ReadMenuNumber(k: nat, count: nat)
    requires k < count
    ensures ReadChoice(NatText(k + 1), count) == Index(k)
  {
    NatTextValue(k + 1);
    DigitsChoice(NatText(k + 1), count);
  }

  /** A typed number selects the distributor it numbers, from 1. */
  lemma DigitsChoice(s: string, count: nat)
    requires s != [] && AllDigits(s)
    ensures ReadChoice(s, count) ==
      if 1 <= DigitsValue(s) <= count then Index(DigitsValue(s) - 1) else Invalid
  {
    DigitsReadAsTyped(s);
    assert IsDigitChar(s[0]);
    assert s != "A" by { assert "A"[0] == 'A'; }
    assert PyInt(s) == Some(DigitsValue(s));
  }

  /** A text of digits is unchanged by strip() and upper(). */
  lemma DigitsReadAsTyped(s: string)
    requires s != [] && AllDigits(s)
    ensures Upper(Strip(s)) == s
  {
    assert !IsSpace(s[0]);
    assert StripLeft(s) == s;
    assert !IsSpace(s[|s| - 1]);
    assert StripRight(s) == s;
    assert Upper(s) == s;
  }

  /** The answer loop: the first valid answer decides; None when the answers
      run out first. */
  function ChooseFrom(available: seq<Distributor>, answers: seq<string>): (r: Option<seq<Distributor>>)
    ensures r.Some? ==> r.value == available || (|r.value| == 1 && r.value[0] in available)
    ensures r.Some? ==> forall d :: d in r.value ==> d in available
  {
    if answers == [] then None
    else
      match ReadChoice(answers[0], |available|)
      case All => Some(available)
      case Index(i) => Some([available[i]])
      case Invalid => ChooseFrom(available, answers[1..])
  }

  method AskChoice(available: seq<Distributor>, answers: seq<string>) returns (r: Option<seq<Distributor>>)
    ensures r == ChooseFrom(available, answers)
  {
    var k := 0;
    while k < |answers|
      invariant 0 <= k <= |answers|
      invariant ChooseFrom(available, answers[k..]) == ChooseFrom(available, answers)
    {
      assert answers[k..][1..] == answers[k + 1..];
      var choice := ReadChoice(answers[k], |available|);
      if choice == All {
        return Some(available);
      }
      if choice.Index? {
        return Some([available[choice.i]]);
      }
      k := k + 1;
    }
    return None;
  }

  /** select_distributor_interactive on the discovered list: none or one is
      returned as is; otherwise the ones with plans, or the user's choice
      among them when there are several. */
  function SelectInteractive(ds: seq<Distributor>, probes: map<string, int>, answers: seq<string>): Option<seq<Distributor>> {
    if |ds| == 0 then Some([])
    else if |ds| == 1 then Some(ds)
    else
      var available := Available(ds, probes);
      if |available| <= 1 then Some(available)
      else ChooseFrom(available, answers)
  }

  method SelectDistributorInteractive(items: seq<MetaItem>, probes: map<string, int>, answers: seq<string>)
    returns (r: Option<seq<Distributor>>)
    ensures r == SelectInteractive(Discovered(items), probes, answers)
  {
    var ds := CollectDistributors(items);
    if |ds| == 0 {
      return Some([]);
    }
    if |ds| == 1 {
      return Some(ds);
    }
    var available := ProbeDistributors(ds, probes);
    if |available| == 0 {
      return Some([]);
    }
    if |available| == 1 {
      return Some(available);
    }
    r := AskChoice(available, answers);
  }

  /** No distributor gives an empty selection, a single one is returned
      unprobed; with several, every returned distributor had a positive
      probe count and carries it, and the result is all of them or one. */
  lemma SelectInteractiveRules(ds: seq<Distributor>, probes: map<string, int>, answers: seq<string>)
    ensures |ds| == 0 ==> SelectInteractive(ds, probes, answers) == Some([])
    ensures |ds| == 1 ==> SelectInteractive(ds, probes, answers) == Some(ds)
    ensures var r := SelectInteractive(ds, probes, answers);
      |ds| > 1 && r.Some? ==>
        (forall d :: d in r.value ==> HasPlans(d, probes)) &&
        (r.value == Available(ds, probes) || |r.value| == 1)
  {
    if |ds| > 1 {
      AvailableCounted(ds, probes);
    }
  }

  // ---------------------------------------------------------------------
  // The --dist option
  // ---------------------------------------------------------------------

  /** The entry used when --dist all finds no distributor with plans. */
  const Auto := Distributor("", "Auto", Some(0))

  /** --dist all: every distributor with plans, or the Auto entry. */
  function AllOrAuto(ds: seq<Distributor>, probes: map<string, int>): (r: seq<Distributor>)
    ensures r != []
  {
    var available := Available(ds, probes);
    if available == [] then [Auto] else available
  }

  /** next((d["name"] for d in ds if d["id"] == id), f"ID {id}"). */
  function NameForId(ds: seq<Distributor>, id: string): string {
    if ds == [] then "ID " + id
    else if ds[0].id == id then ds[0].name
    else NameForId(ds[1..], id)
  }

  lemma {:induction false} NameForIdFirst(ds: seq<Distributor>, id: string, k: nat)
    requires k < |ds| && ds[k].id == id
    requires forall j :: 0 <= j < k ==> ds[j].id != id
    ensures NameForId(ds, id) == ds[k].name
    decreases k
  {
    if k > 0 {
      NameForIdFirst(ds[1..], id, k - 1);
    }
  }

  lemma {:induction false} NameForIdMissing(ds: seq<Distributor>, id: string)
    requires forall j :: 0 <= j < |ds| ==> ds[j].id != id
    ensures NameForId(ds, id) == "ID " + id
    decreases |ds|
  {
    if ds != [] {
      NameForIdMissing(ds[1..], id);
    }
  }

  /** Step 2 of main: "all" in any letter case, a distributor id, or the
      interactive choice when --dist is absent or empty. None when the
      user's answers run out. */
  function Resolve(dist: string, items: seq<MetaItem>, probes: map<string, int>, answers: seq<string>)
    : Option<seq<Distributor>>
  {
    if dist != [] && Lower(dist) == "all" then Some(AllOrAuto(Discovered(items), probes))
    else if dist != [] then Some([Distributor(dist, NameForId(Discovered(items), dist), Some(0))])
    else SelectInteractive(Discovered(items), probes, answers)
  }

  method ResolveDistributors(dist: string, items: seq<MetaItem>, probes: map<string, int>, answers: seq<string>)
    returns (selected: Option<seq<Distributor>>)
    ensures selected == Resolve(dist, items, probes, answers)
  {
    if dist != [] && Lower(dist) == "all" {
      var ds := CollectDistributors(items);
      var kept := ProbeDistributors(ds, probes);
      if kept == [] {
        kept := [Auto];
      }
      return Some(kept);
    } else if dist != [] {
      var ds := CollectDistributors(items);
      return Some([Distributor(dist, NameForId(ds, dist), Some(0))]);
    }
    selected := SelectDistributorInteractive(items, probes, answers);
  }

  /** --dist all never leaves the selection empty: each entry had plans, or
      the selection is the single Auto entry. */
  lemma DistAllSelection(dist: string, items: seq<MetaItem>, probes: map<string, int>, answers: seq<string>)
    requires dist != [] && Lower(dist) == "all"
    ensures var r := Resolve(dist, items, probes, answers);
      r.Some? && r.value != [] &&
      (r.value == [Auto] || forall d :: d in r.value ==> HasPlans(d, probes))
  {
    AvailableCounted(Discovered(items), probes);
  }

  /** --dist <id> selects exactly that id, named after the first distributor
      with that id, or "ID <id>" when none has it. */
  lemma DistIdSelection(dist: string, items: seq<MetaItem>, probes: map<string, int>, answers: seq<string>)
    requires dist != [] && Lower(dist) != "all"
    ensures var r := Resolve(dist, items, probes, answers);
      r.Some? && |r.value| == 1 && r.value[0].id == dist && r.value[0].planCount == Some(0)
    ensures var ds := Discovered(items); var r := Resolve(dist, items, probes, answers);
      (forall j :: 0 <= j < |ds| ==> ds[j].id != dist) ==> r.value[0].name == "ID " + dist
    ensures var ds := Discovered(items); var r := Resolve(dist, items, probes, answers);
      forall k :: 0 <= k < |ds| && ds[k].id == dist ==> r.value[0].name == ds[k].name
  {
    var ds := Discovered(items);
    if forall j :: 0 <= j < |ds| ==> ds[j].id != dist {
      NameForIdMissing(ds, dist);
    }
    DiscoveredIdsDistinct(items);
    forall k | 0 <= k < |ds| && ds[k].id == dist
      ensures Resolve(dist, items, probes, answers).value[0].name == ds[k].name
    {
      NameForIdFirst(ds, dist, k);
    }
  }
}
