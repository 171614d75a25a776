/** The pure parts of the scraper's main routine: the postcode check, the
    gathering of each selected distributor's plans under its name, the
    distributor label of the export and the file-name suffix made from it. */
module Cli {
  import opened Text
  import opened Numbers
  import opened Plans
  import opened Distributors

  // ---------------------------------------------------------------------
  // Postcode check
  // ---------------------------------------------------------------------

  /** A postcode is accepted when it is non-empty, all digits and four
      characters long. */
  predicate ValidPostcode(p: string) {
    p != [] && AllDigits(p) && |p| == 4
  }

  /** The four-digit, zero-padded text of a number below 10000. */
  function PostcodeText(n: nat): (p: string)
    requires n < 10000
    ensures ValidPostcode(p)
  {
    [DigitChar(n / 10 / 10 / 10), DigitChar(n / 10 / 10 % 10), DigitChar(n / 10 % 10), DigitChar(n % 10)]
  }

  lemma DigitRoundTrip(d: Digit)
    ensures CharDigit(DigitChar(d)) == d
  {
  }

  /** The value of a four-character digit string, digit by digit. */
  lemma FourDigitsValue(p: string)
    requires ValidPostcode(p)
    ensures DigitsValue(p) ==
      ((CharDigit(p[0]) * 10 + CharDigit(p[1])) * 10 + CharDigit(p[2])) * 10 + CharDigit(p[3])
  {
    var p1, p2, p3 := p[..1], p[..2], p[..3];
    assert p1[..0] == [] && p1[0] == p[0];
    assert p2[..1] == p1 && p2[1] == p[1];
    assert p3[..2] == p2 && p3[2] == p[2];
    assert p[..3] == p3;
    assert DigitsValue(p1) == CharDigit(p[0]);
    assert DigitsValue(p2) == CharDigit(p[0]) * 10 + CharDigit(p[1]);
    assert DigitsValue(p3) == DigitsValue(p2) * 10 + CharDigit(p[2]);
  }

  /** A zero-padded postcode reads back as its number. */
  lemma PostcodeValue(n: nat)
    requires n < 10000
    ensures DigitsValue(PostcodeText(n)) == n
  {
    var p := PostcodeText(n);
    var q1 := n / 10;
    var q2 := q1 / 10;
    var q3 := q2 / 10;
    assert n == q1 * 10 + n % 10;
    assert q1 == q2 * 10 + q1 % 10;
    assert q2 == q3 * 10 + q2 % 10;
    FourDigitsValue(p);
    DigitRoundTrip(q3);
    DigitRoundTrip(q2 % 10);
    DigitRoundTrip(q1 % 10);
    DigitRoundTrip(n % 10);
  }

  /** Every accepted postcode is the zero-padded text of its own value. */
  lemma PostcodeRoundTrip(p: string)
    requires ValidPostcode(p)
    ensures DigitsValue(p) < 10000 && PostcodeText(DigitsValue(p)) == p
  {
    FourDigitsValue(p);
    var a: int, b: int, c: int, d: int := CharDigit(p[0]), CharDigit(p[1]), CharDigit(p[2]), CharDigit(p[3]);
    var v := DigitsValue(p);
    var q2 := a * 10 + b;
    var q1 := q2 * 10 + c;
    assert v == q1 * 10 + d;
    assert v / 10 == q1 && v % 10 == d;
    assert q1 / 10 == q2 && q1 % 10 == c;
    assert q2 / 10 == a && q2 % 10 == b;
  }

  /** The accepted postcodes are exactly the four-digit numbers 0000..9999. */
  lemma PostcodesAreFourDigitNumbers(p: string)
    ensures ValidPostcode(p) <==> exists n: nat :: n < 10000 && PostcodeText(n) == p
  {
    if ValidPostcode(p) {
      PostcodeRoundTrip(p);
    }
  }

  // ---------------------------------------------------------------------
  // Step 3 of main: fetch and tag the plans of each selected distributor
  // ---------------------------------------------------------------------

  /** The plans of one distributor, each tagged with its name. */
  function Tagged(plans: seq<Plan>, name: string): (r: seq<Plan>)
    ensures |r| == |plans|
    ensures forall i :: 0 <= i < |plans| ==> r[i] == plans[i].(distributorTag := Some(name))
  {
    seq(|plans|, i requires 0 <= i < |plans| => plans[i].(distributorTag := Some(name)))
  }

  /** The plans of all selected distributors, in selection order; fetched
      maps a distributor id to the plans the API returned, and an id it
      lacks stands for a failed request, which is skipped. */
  function Gathered(selected: seq<Distributor>, fetched: map<string, seq<Plan>>): seq<Plan> {
    if selected == [] then []
    else
      var d := selected[|selected| - 1];
      var before := Gathered(selected[..|selected| - 1], fetched);
      if d.id in fetched then before + Tagged(fetched[d.id], d.name) else before
  }

  /** The names of the selected distributors, whether or not their plans
      could be fetched. */
  function SelectedNames(selected: seq<Distributor>): (names: seq<string>)
    ensures |names| == |selected|
    ensures forall i :: 0 <= i < |selected| ==> names[i] == selected[i].name
  {
    seq(|selected|, i requires 0 <= i < |selected| => selected[i].name)
  }

  /** Sets the distributor name on every plan of one response. */
  method TagPlans(raw: seq<Plan>, name: string) returns (tagged: seq<Plan>)
    ensures tagged == Tagged(raw, name)
  {
    tagged := [];
    var k := 0;
    while k < |raw|
      invariant 0 <= k <= |raw|
      invariant tagged == Tagged(raw[..k], name)
    {
      tagged := tagged + [raw[k].(distributorTag := Some(name))];
      k := k + 1;
    }
    assert raw[..k] == raw;
  }

  lemma GatheredStep(selected: seq<Distributor>, fetched: map<string, seq<Plan>>, i: nat)
    requires i < |selected|
    ensures Gathered(selected[..i + 1], fetched) ==
      Gathered(selected[..i], fetched) +
        (if selected[i].id in fetched then Tagged(fetched[selected[i].id], selected[i].name) else [])
    ensures SelectedNames(selected[..i + 1]) == SelectedNames(selected[..i]) + [selected[i].name]
  {
    assert selected[..i + 1][..i] == selected[..i];
  }

  /** The fetch loop: every selected name is recorded, and the plans of
      each distributor whose request succeeded are tagged and appended. */
  method GatherPlans(selected: seq<Distributor>, fetched: map<string, seq<Plan>>)
    returns (plans: seq<Plan>, names: seq<string>)
    ensures plans == Gathered(selected, fetched)
    ensures names == SelectedNames(selected)
  {
    plans := [];
    names := [];
    var i := 0;
    while i < |selected|
      invariant 0 <= i <= |selected|
      invariant plans == Gathered(selected[..i], fetched)
      invariant names == SelectedNames(selected[..i])
    {
      var d := selected[i];
      GatheredStep(selected, fetched, i);
      names := names + [d.name];
      if d.id in fetched {
        var tagged := TagPlans(fetched[d.id], d.name);
        plans := plans + tagged;
      }
      i := i + 1;
    }
    assert selected[..i] == selected;
  }

  /** Every gathered plan is a fetched plan of some selected distributor,
      tagged with that distributor's name. */
  lemma {:induction false} GatheredFromSelected(selected: seq<Distributor>, fetched: map<string, seq<Plan>>)
    ensures forall p :: p in Gathered(selected, fetched) ==>
      exists d, q :: (d in selected && d.id in fetched && q in fetched[d.id] &&
        p == q.(distributorTag := Some(d.name)))
    decreases |selected|
  {
    if selected != [] {
      var init := selected[..|selected| - 1];
      var d := selected[|selected| - 1];
      GatheredFromSelected(init, fetched);
      forall p | p in Gathered(selected, fetched)
        ensures exists d, q :: (d in selected && d.id in fetched && q in fetched[d.id] &&
          p == q.(distributorTag := Some(d.name)))
      {
        if p in Gathered(init, fetched) {
          var e, q :| e in init && e.id in fetched && q in fetched[e.id] &&
            p == q.(distributorTag := Some(e.name));
          assert e in selected;
        } else {
          var t := Tagged(fetched[d.id], d.name);
          var k :| 0 <= k < |t| && t[k] == p;
          assert fetched[d.id][k] in fetched[d.id];
          assert d in selected;
        }
      }
    }
  }

  /** Every fetched plan of every selected distributor is gathered, tagged
      with that distributor's name. */
  lemma {:induction false} GatheredComplete(selected: seq<Distributor>, fetched: map<string, seq<Plan>>)
    ensures forall d, q :: d in selected && d.id in fetched && q in fetched[d.id] ==>
      q.(distributorTag := Some(d.name)) in Gathered(selected, fetched)
    decreases |selected|
  {
    if selected != [] {
      var init := selected[..|selected| - 1];
      var last := selected[|selected| - 1];
      GatheredComplete(init, fetched);
      assert selected == init + [last];
      forall d, q | d in selected && d.id in fetched && q in fetched[d.id]
        ensures q.(distributorTag := Some(d.name)) in Gathered(selected, fetched)
      {
        if d in init {
          assert q.(distributorTag := Some(d.name)) in Gathered(init, fetched);
        } else {
          assert d == last;
          var k :| 0 <= k < |fetched[d.id]| && fetched[d.id][k] == q;
          assert Tagged(fetched[d.id], d.name)[k] == q.(distributorTag := Some(d.name));
        }
      }
    }
  }

  // ---------------------------------------------------------------------
  // Step 5 of main: the distributor label and the file-name suffix
  // ---------------------------------------------------------------------

  /** Up to three names joined with " + ", otherwise "<count> distributors". */
  function DistributorLabel(names: seq<string>): string {
    if |names| <= 3 then Join(names, " + ") else NatText(|names|) + " distributors"
  }

  /** A label of one to three names splits back into those names when none
      of them contains '+'. */
  lemma FewNamesListed(names: seq<string>)
    requires 1 <= |names| <= 3
    requires forall i :: 0 <= i < |names| ==> '+' !in names[i]
    ensures Split(DistributorLabel(names), " + ") == names
  {
    SplitJoinSecond(names, " + ");
  }

  /** The label of more than three names starts with their count. */
  lemma ManyNamesCounted(names: seq<string>)
    requires |names| > 3
    ensures var run := NumberRun(DistributorLabel(names));
      AllDigits(run) && DigitsValue(run) == |names|
  {
    var digits := NatText(|names|);
    NumberRunStops(digits, " distributors");
    NatTextValue(|names|);
  }

  /** Characters kept by the sanitiser: letters, digits, space and '-'. */
  predicate KeptInName(c: char) { IsAlnum(c) || c == ' ' || c == '-' }

  /** Characters of a sanitised name. */
  predicate FileNameChar(c: char) { IsAlnum(c) || c == '-' || c == '_' }

  /** Every character the sanitiser does not keep becomes '_'. */
  function Sanitise(s: string): (r: string)
    ensures |r| == |s|
    ensures forall i :: 0 <= i < |s| ==> r[i] == (if KeptInName(s[i]) then s[i] else '_')
  {
    seq(|s|, i requires 0 <= i < |s| => if KeptInName(s[i]) then s[i] else '_')
  }

  /** The first n characters (all of s when it is shorter). */
  function Take(s: string, n: nat): (r: string)
    ensures |r| <= n && |r| <= |s| && r == s[..|r|]
    ensures |s| <= n ==> r == s
  {
    if |s| <= n then s else s[..n]
  }

  /** The sanitised distributor label: unsafe characters to '_', surrounding
      spaces stripped, inner spaces to '_', at most 30 characters. */
  function SafeName(info: string): string {
    Take(ReplaceChar(Strip(Sanitise(info)), ' ', '_'), 30)
  }

  /** The sanitiser leaves only kept characters and '_'. */
  lemma SanitisedChars(info: string)
    ensures forall c :: c in Sanitise(info) ==> KeptInName(c) || c == '_'
  {
    var s := Sanitise(info);
    forall c | c in s
      ensures KeptInName(c) || c == '_'
    {
      var k :| 0 <= k < |s| && s[k] == c;
    }
  }

  /** A sanitised name is at most 30 characters of letters, digits, '-'
      and '_'. */
  lemma SafeNameChars(info: string)
    ensures |SafeName(info)| <= 30
    ensures forall k :: 0 <= k < |SafeName(info)| ==> FileNameChar(SafeName(info)[k])
  {
    var t := Strip(Sanitise(info));
    SanitisedChars(info);
    StripKeepsChars(Sanitise(info));
    var u := ReplaceChar(t, ' ', '_');
    forall k | 0 <= k < |u|
      ensures FileNameChar(u[k])
    {
      assert t[k] in t;
    }
    var r := Take(u, 30);
    assert forall k :: 0 <= k < |r| ==> r[k] == u[k];
  }

  /** A name of letters, digits, spaces and '-', without surrounding
      spaces, is left alone by the sanitiser and by strip(). */
  lemma PlainNameStripped(name: string)
    requires forall k :: 0 <= k < |name| ==> KeptInName(name[k]) || name[k] == '_'
    requires name != [] ==> name[0] != ' ' && name[|name| - 1] != ' '
    ensures Strip(Sanitise(name)) == name
  {
    assert Sanitise(name) == name;
    if name != [] {
      assert !IsSpace(name[0]) && !IsSpace(name[|name| - 1]);
      assert StripLeft(name) == name;
      assert StripRight(name) == name;
    }
  }

  /** A label of letters, digits, spaces and '-', without surrounding spaces
      and no longer than 30 characters, keeps its characters with each space
      turned into '_'. */
  lemma SafeNameOfPlainLabel(info: string)
    requires |info| <= 30
    requires forall k :: 0 <= k < |info| ==> KeptInName(info[k])
    requires info != [] ==> info[0] != ' ' && info[|info| - 1] != ' '
    ensures SafeName(info) == ReplaceChar(info, ' ', '_')
  {
    PlainNameStripped(info);
  }

  /** Sanitising a sanitised name changes nothing. */
  lemma SafeNameIdempotent(info: string)
    ensures SafeName(SafeName(info)) == SafeName(info)
  {
    var n := SafeName(info);
    SafeNameChars(info);
    PlainNameStripped(n);
    assert ReplaceChar(n, ' ', '_') == n;
  }

  /** The labels that give the export file no distributor suffix. */
  predicate NoSuffix(info: string) {
    info == "" || info == "All / Auto" || info == "Auto"
  }

  lemma PrefixedChars(name: string)
    requires forall k :: 0 <= k < |name| ==> FileNameChar(name[k])
    ensures forall k :: 0 <= k < |"_" + name| ==> FileNameChar(("_" + name)[k])
  {
  }

  /** The part of the export file name after the fuel type: empty for no
      label and for the "All / Auto" and "Auto" labels, otherwise '_' and
      the sanitised label. */
  function FileSuffix(info: string): (r: string)
    ensures r == [] <==> NoSuffix(info)
    ensures r != [] ==> r[0] == '_' && |r| <= 31 && forall k :: 0 <= k < |r| ==> FileNameChar(r[k])
  {
    if NoSuffix(info) then ""
    else
      var name := SafeName(info);
      SafeNameChars(info);
      PrefixedChars(name);
      "_" + name
  }
}
