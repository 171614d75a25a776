/** Reading the solar feed-in description back into (rate, volume) tiers for
    the cost calculator. The description is the text Tariffs.SolarFitDetails
    writes, so formatter and parser form a pair: parsing gives back exactly
    the priced steps, ordered capped tiers first, by descending cap. */
module SolarTiers {
  import opened Text
  import opened Numbers
  import opened Lists
  import opened Plans
  import opened Tariffs

  /** A feed-in tier: rate in c/kWh and daily volume cap in kWh (0 = uncapped). */
  datatype Tier = Tier(rate: real, volume: real)

  /** The order of the sort key (volume == 0, -volume): capped tiers before
      uncapped ones, larger caps first. */
  predicate TierLe(a: Tier, b: Tier) {
    if (a.volume == 0.0) != (b.volume == 0.0) then a.volume != 0.0
    else -a.volume <= -b.volume
  }

  lemma TierLeTotalPreorder()
    ensures TotalPreorder(TierLe)
  {
  }

  /** Tiers in calculator order: every capped tier before every uncapped one,
      and capped tiers by non-increasing cap. */
  predicate CappedFirstDescending(ts: seq<Tier>) {
    forall i, j :: 0 <= i < j < |ts| ==>
      (ts[i].volume == 0.0 ==> ts[j].volume == 0.0) &&
      (ts[j].volume != 0.0 ==> ts[i].volume >= ts[j].volume)
  }

  lemma SortedIsCappedFirst(ts: seq<Tier>)
    requires SortedBy(ts, TierLe)
    ensures CappedFirstDescending(ts)
  {
    forall i, j | 0 <= i < j < |ts|
      ensures ts[i].volume == 0.0 ==> ts[j].volume == 0.0
      ensures ts[j].volume != 0.0 ==> ts[i].volume >= ts[j].volume
    {
      assert TierLe(ts[i], ts[j]);
    }
  }

  // ---------------------------------------------------------------------
  // The pattern ([\d.]+)c/kWh(?:\s*\(first\s+([\d.]+)kWh/day\))?
  // ---------------------------------------------------------------------

  /** What the pattern captures when it matches at the start of a part: the
      rate group and, when the optional cap group matched, the volume group. */
  datatype TierMatch = NoMatch | Matched(rateText: string, volumeText: Option<string>)

  /** The cap group \s*\(first\s+([\d.]+)kWh/day\) at the start of s, giving
      the captured volume text. */
  function MatchCap(s: string): (r: Option<string>)
    ensures r.Some? ==> r.value != [] && NumberChars(r.value)
  {
    var s1 := s[|SpaceRun(s)|..];
    if !StartsWith(s1, "(first") then None
    else
      var s2 := s1[6..];
      var sp := SpaceRun(s2);
      if sp == [] then None
      else
        var s3 := s2[|sp|..];
        var vol := NumberRun(s3);
        if vol == [] || !StartsWith(s3[|vol|..], "kWh/day)") then None
        else Some(vol)
  }

  /** The whole pattern at the start of p. The runs of digits and dots and
      of spaces are greedy, and no shorter run could be followed by the
      literal text after it, so the first try is the only match. */
  function MatchTier(p: string): (m: TierMatch)
    ensures m.Matched? ==> m.rateText != [] && NumberChars(m.rateText)
    ensures m.Matched? && m.volumeText.Some? ==>
      m.volumeText.value != [] && NumberChars(m.volumeText.value)
  {
    var rate := NumberRun(p);
    var rest := p[|rate|..];
    if rate == [] || !StartsWith(rest, "c/kWh") then NoMatch
    else Matched(rate, MatchCap(rest[5..]))
  }

  /** float() of the captured groups, the volume 0.0 without a cap group;
      None when float() raises ValueError. */
  function TierOfMatch(rateText: string, volumeText: Option<string>): (r: Option<Tier>)
    requires NumberChars(rateText)
    requires volumeText.Some? ==> NumberChars(volumeText.value)
    ensures r.Some? ==> r.value.rate >= 0.0 && r.value.volume >= 0.0
  {
    var rate := ParseNumberRun(rateText);
    var volume := if volumeText.None? then Some(0.0) else ParseNumberRun(volumeText.value);
    if rate.None? || volume.None? then None else Some(Tier(rate.value, volume.value))
  }

  /** What one stripped part of a description contributes: nothing when the
      pattern does not match, a tier when it does, and a failure when a
      captured number does not parse. */
  datatype PartReading = Skipped | Unreadable | Read(tier: Tier)

  function ReadPart(part: string): (r: PartReading)
    ensures r.Read? ==> r.tier.rate >= 0.0 && r.tier.volume >= 0.0
  {
    match MatchTier(Strip(part))
    case NoMatch => Skipped
    case Matched(rt, vt) =>
      match TierOfMatch(rt, vt)
      case None => Unreadable
      case Some(t) => Read(t)
  }

  /** The tiers of the parts that match, in order; None once a captured
      number does not parse. */
  function ReadTiers(parts: seq<string>): (r: Option<seq<Tier>>)
    ensures r.Some? ==> |r.value| <= |parts|
  {
    if parts == [] then Some([])
    else
      match ReadTiers(parts[..|parts| - 1])
      case None => None
      case Some(ts) =>
        match ReadPart(parts[|parts| - 1])
        case Skipped => Some(ts)
        case Unreadable => None
        case Read(t) => Some(ts + [t])
  }

  /** The tiers of a description, in calculator order: none for an empty
      description or NoSolarFit, None when a number does not parse. */
  function ParseTiers(details: string): (r: Option<seq<Tier>>)
    ensures details == [] || details == NoSolarFit ==> r == Some([])
    ensures r.Some? ==> CappedFirstDescending(r.value)
  {
    if details == [] || details == NoSolarFit then Some([])
    else
      match ReadTiers(Split(details, "; "))
      case None => None
      case Some(ts) =>
        TierLeTotalPreorder();
        SortBySorted(ts, TierLe);
        SortedIsCappedFirst(SortBy(ts, TierLe));
        Some(SortBy(ts, TierLe))
  }

  lemma {:induction false} ReadTiersFailureSticks(parts: seq<string>, k: nat)
    requires k <= |parts| && ReadTiers(parts[..k]) == None
    ensures ReadTiers(parts) == None
    decreases |parts| - k
  {
    if k < |parts| {
      assert parts[..k + 1][..k] == parts[..k];
      ReadTiersFailureSticks(parts, k + 1);
    } else {
      assert parts[..k] == parts;
    }
  }

  /** Reading one more part extends the tiers read so far by that part's
      contribution. */
  lemma ReadTiersStep(parts: seq<string>, i: nat, tiers: seq<Tier>)
    requires i < |parts| && ReadTiers(parts[..i]) == Some(tiers)
    ensures ReadPart(parts[i]) == Skipped ==> ReadTiers(parts[..i + 1]) == Some(tiers)
    ensures ReadPart(parts[i]) == Unreadable ==> ReadTiers(parts) == None
    ensures ReadPart(parts[i]).Read? ==>
      ReadTiers(parts[..i + 1]) == Some(tiers + [ReadPart(parts[i]).tier])
  {
    assert parts[..i + 1][..i] == parts[..i];
    if ReadPart(parts[i]) == Unreadable {
      ReadTiersFailureSticks(parts, i + 1);
    }
  }

  /** A description that is neither empty nor NoSolarFit is read part by
      part and its tiers sorted. */
  lemma ParseTiersRead(details: string)
    requires details != [] && details != NoSolarFit
    ensures ReadTiers(Split(details, "; ")).None? ==> ParseTiers(details) == None
    ensures ReadTiers(Split(details, "; ")).Some? ==>
      ParseTiers(details) == Some(SortBy(ReadTiers(Split(details, "; ")).value, TierLe))
  {
  }

  /** Splits the description on "; ", matches each stripped part, appends
      its tier, then sorts the tiers in place. */
  method ParseSolarFitTiers(details: string) returns (r: Option<seq<Tier>>)
    ensures r == ParseTiers(details)
  {
    if details == [] || details == NoSolarFit {
      return Some([]);
    }
    ParseTiersRead(details);
    var parts := Split(details, "; ");
    var tiers: seq<Tier> := [];
    var i := 0;
    while i < |parts|
      invariant 0 <= i <= |parts|
      invariant ReadTiers(parts[..i]) == Some(tiers)
    {
      ReadTiersStep(parts, i, tiers);
      match ReadPart(parts[i]) {
        case Skipped =>
        case Unreadable =>
          return None;
        case Read(t) =>
          tiers := tiers + [t];
      }
      i := i + 1;
    }
    assert parts[..i] == parts;
    r := Some(SortBy(tiers, TierLe));
  }

  // ---------------------------------------------------------------------
  // Round trip with the description formatter
  // ---------------------------------------------------------------------

  /** The tier a priced step describes: its price, and its volume when
      positive (otherwise uncapped). */
  function TierOf(e: SolarRate): Tier {
    Tier(Magnitude(e.unitPrice), if Value(e.volume) > 0.0 then Magnitude(e.volume) else 0.0)
  }

  function TiersOf(es: seq<SolarRate>): (r: seq<Tier>)
    ensures |r| == |es|
  {
    if es == [] then [] else TiersOf(es[..|es| - 1]) + [TierOf(es[|es| - 1])]
  }

  /** What the parser recovers from the text of one priced step. A price
      that str() prints in exponent notation ("5e-05") stops the rate group
      at the 'e', so the step is skipped; a volume printed that way makes the
      optional cap group fail, so the step reads as uncapped. */
  function TierRead(e: SolarRate): Option<Tier> {
    if !Positional(e.unitPrice) then None
    else if Value(e.volume) > 0.0 && Positional(e.volume) then Some(TierOf(e))
    else Some(Tier(Magnitude(e.unitPrice), 0.0))
  }

  function TiersRead(es: seq<SolarRate>): (r: seq<Tier>)
    ensures |r| <= |es|
  {
    if es == [] then []
    else
      var prev := TiersRead(es[..|es| - 1]);
      match TierRead(es[|es| - 1])
      case None => prev
      case Some(t) => prev + [t]
  }

  /** Every priced number of the steps prints without an exponent. */
  predicate AllPositional(es: seq<SolarRate>) {
    forall i :: 0 <= i < |es| ==>
      Positional(es[i].unitPrice) && (Value(es[i].volume) > 0.0 ==> Positional(es[i].volume))
  }

  /** When no number prints in exponent notation, every step is read back
      as the tier it describes. */
  lemma {:induction false} TiersReadPositional(es: seq<SolarRate>)
    requires AllPositional(es)
    ensures TiersRead(es) == TiersOf(es)
    decreases |es|
  {
    if es != [] {
      var init := es[..|es| - 1];
      assert forall i :: 0 <= i < |init| ==> init[i] == es[i];
      TiersReadPositional(init);
    }
  }

  lemma DigitsNoSemicolon(s: string)
    requires AllDigits(s)
    ensures ';' !in s
  {
  }

  lemma ShowNoSemicolon(d: Dec)
    ensures ';' !in Show(d)
  {
    var w := NatText(d.whole);
    DigitsNoSemicolon(w);
    var sign: string := if d.negative then "-" else "";
    if d.frac == [] {
      var isign: string := if d.negative && d.whole != 0 then "-" else "";
      assert Show(d) == isign + w;
    } else if Positional(d) {
      FracDigitsDigits(d.frac);
      DigitsNoSemicolon(FracDigits(d.frac));
      assert Show(d) == sign + (w + "." + FracDigits(d.frac));
    } else {
      SciTextShape(d);
      assert Show(d) == sign + SciText(d);
    }
  }

  lemma RateNoSemicolon(p: string, cap: string)
    requires ';' !in p && ';' !in cap
    ensures ';' !in p + "c/kWh" + cap
  {
    assert ';' !in "c/kWh";
  }

  lemma CapNoSemicolon(v: string)
    requires ';' !in v
    ensures ';' !in " (first " + v + "kWh/day)"
  {
    assert ';' !in " (first " && ';' !in "kWh/day)";
  }

  lemma TierTextNoSemicolon(e: SolarRate)
    ensures ';' !in TierText(e)
  {
    ShowNoSemicolon(e.unitPrice);
    if Value(e.volume) > 0.0 {
      ShowNoSemicolon(e.volume);
      CapNoSemicolon(Show(e.volume));
    }
    RateNoSemicolon(Show(e.unitPrice), CapText(e));
  }

  /** The facts about the positional text of a positive number that the
      matcher needs. */
  lemma PositiveShow(d: Dec)
    requires Value(d) > 0.0 && Positional(d)
    ensures Show(d) != [] && IsDigitChar(Show(d)[0]) && NumberChars(Show(d))
    ensures ParseNumberRun(Show(d)) == Some(Magnitude(d))
  {
    ShowParses(d);
    ShowFirstChar(d);
  }

  /** The exponent-notation text of a positive number: a run of digits and
      a point that the 'e' of the exponent ends. */
  lemma SciShow(d: Dec)
    requires Value(d) > 0.0 && !Positional(d)
    ensures var m := MantissaText(SigDigits(d));
      var x := ExponentText(DecimalExponent(d));
      Show(d) == m + x && m != [] && IsDigitChar(m[0]) && NumberChars(m) && x != [] && x[0] == 'e'
  {
    ShowSci(d);
    SciTextShape(d);
  }

  lemma LeadingSpace(a: string)
    requires a != [] && !IsSpace(a[0])
    ensures SpaceRun(" " + a) == " "
    ensures (" " + a)[1..] == a
  {
    SpaceRunStops(" ", a);
  }

  lemma CapLiterals(v: string)
    ensures " (first " + v + "kWh/day)" == " " + ("(first" + (" " + (v + "kWh/day)")))
    ensures StartsWith("(first" + (" " + (v + "kWh/day)")), "(first")
    ensures ("(first" + (" " + (v + "kWh/day)")))[6..] == " " + (v + "kWh/day)")
  {
    var b := " " + (v + "kWh/day)");
    assert ("(first" + b)[..6] == "(first";
    assert ("(first" + b)[6..] == b;
  }

  /** The cap group on a cap text whose volume text starts with the run m
      and continues with x: it reaches the number run m and captures it
      exactly when "kWh/day)" follows the run. */
  lemma MatchCapRun(m: string, x: string)
    requires m != [] && IsDigitChar(m[0]) && NumberChars(m)
    requires x == [] || !(IsDigitChar(x[0]) || x[0] == '.')
    ensures MatchCap(" (first " + (m + x) + "kWh/day)") ==
      if StartsWith(x + "kWh/day)", "kWh/day)") then Some(m) else None
  {
    var v := m + x;
    var t := x + "kWh/day)";
    var c := v + "kWh/day)";
    assert c == m + t;
    CapLiterals(v);
    LeadingSpace("(first" + (" " + c));
    LeadingSpace(c);
    NumberRunStops(m, t);
    assert c[|m|..] == t;
  }

  /** The cap text of a positionally printed volume is matched and captures
      the volume text. */
  lemma MatchCapText(v: string)
    requires v != [] && IsDigitChar(v[0]) && NumberChars(v)
    ensures MatchCap(" (first " + v + "kWh/day)") == Some(v)
  {
    MatchCapRun(v, []);
    assert v + [] == v;
  }

  /** The cap text of a volume in exponent notation is not matched. */
  lemma MatchCapSci(m: string, x: string)
    requires m != [] && IsDigitChar(m[0]) && NumberChars(m)
    requires x != [] && x[0] == 'e'
    ensures MatchCap(" (first " + (m + x) + "kWh/day)") == None
  {
    MatchCapRun(m, x);
    assert (x + "kWh/day)")[0] != "kWh/day)"[0];
  }

  lemma MatchCapEmpty()
    ensures MatchCap("") == None
  {
    assert SpaceRun("") == [];
  }

  /** A rate text followed by "c/kWh" and a cap text is matched with that
      rate and whatever the cap group makes of the cap text. */
  lemma MatchRateText(p: string, cap: string)
    requires p != [] && NumberChars(p)
    ensures MatchTier(p + "c/kWh" + cap) == Matched(p, MatchCap(cap))
  {
    var t := p + "c/kWh" + cap;
    assert t == p + ("c/kWh" + cap);
    NumberRunStops(p, "c/kWh" + cap);
    var rest := t[|p|..];
    assert rest == "c/kWh" + cap;
    assert rest[..5] == "c/kWh";
    assert rest[5..] == cap;
  }

  /** A rate in exponent notation: the rate group stops at the 'e', which is
      not followed by "c/kWh", so the pattern does not match. */
  lemma MatchSciRate(m: string, x: string, cap: string)
    requires m != [] && NumberChars(m)
    requires x != [] && x[0] == 'e'
    ensures MatchTier(m + x + "c/kWh" + cap) == NoMatch
  {
    var t := m + x + "c/kWh" + cap;
    assert t == m + (x + "c/kWh" + cap);
    NumberRunStops(m, x + "c/kWh" + cap);
    assert t[|m|..] == x + "c/kWh" + cap;
    assert t[|m|] == 'e';
  }

  /** A text that neither starts nor ends with white space is its own strip. */
  lemma StripUnspaced(t: string)
    requires t != [] && !IsSpace(t[0]) && !IsSpace(t[|t| - 1])
    ensures Strip(t) == t
  {
    assert StripLeft(t) == t;
  }

  lemma EndsOfConcat(a: string, b: string)
    requires a != [] && b != []
    ensures (a + b)[0] == a[0] && (a + b)[|a + b| - 1] == b[|b| - 1]
  {
  }

  /** The text of one priced step starts with a digit and ends with 'h' or ')'. */
  lemma TierTextEnds(e: SolarRate)
    requires Value(e.unitPrice) > 0.0
    ensures var t := TierText(e);
      t != [] && !IsSpace(t[0]) && !IsSpace(t[|t| - 1])
  {
    var p := Show(e.unitPrice);
    var rate := p + "c/kWh";
    ShowFirstChar(e.unitPrice);
    EndsOfConcat(p, "c/kWh");
    if Value(e.volume) > 0.0 {
      var cap := " (first " + Show(e.volume) + "kWh/day)";
      EndsOfConcat(" (first " + Show(e.volume), "kWh/day)");
      EndsOfConcat(rate, cap);
    } else {
      assert TierText(e) == rate + "";
    }
  }

  /** The text of one priced step has no surrounding white space. */
  lemma StripTierText(e: SolarRate)
    requires Value(e.unitPrice) > 0.0
    ensures Strip(TierText(e)) == TierText(e)
  {
    TierTextEnds(e);
    StripUnspaced(TierText(e));
  }

  /** float() of the captured texts gives the step's tier. */
  lemma TierOfTexts(p: string, v: Option<string>, rate: real, volume: real)
    requires NumberChars(p) && ParseNumberRun(p) == Some(rate)
    requires v.Some? ==> NumberChars(v.value) && ParseNumberRun(v.value) == Some(volume)
    requires v.None? ==> volume == 0.0
    ensures TierOfMatch(p, v) == Some(Tier(rate, volume))
  {
  }

  /** A step whose price prints in exponent notation is skipped. */
  lemma ReadSciRateText(e: SolarRate)
    requires Value(e.unitPrice) > 0.0 && !Positional(e.unitPrice)
    ensures ReadPart(TierText(e)) == Skipped
  {
    StripTierText(e);
    SciShow(e.unitPrice);
    MatchSciRate(MantissaText(SigDigits(e.unitPrice)), ExponentText(DecimalExponent(e.unitPrice)), CapText(e));
  }

  /** A positionally printed step with a positionally printed cap reads
      back as its price and its cap. */
  lemma ReadCappedText(e: SolarRate)
    requires Value(e.unitPrice) > 0.0 && Positional(e.unitPrice)
    requires Value(e.volume) > 0.0 && Positional(e.volume)
    ensures ReadPart(TierText(e)) == Read(Tier(Magnitude(e.unitPrice), Magnitude(e.volume)))
  {
    StripTierText(e);
    PositiveShow(e.unitPrice);
    PositiveShow(e.volume);
    MatchRateText(Show(e.unitPrice), CapText(e));
    MatchCapText(Show(e.volume));
    TierOfTexts(Show(e.unitPrice), Some(Show(e.volume)), Magnitude(e.unitPrice), Magnitude(e.volume));
  }

  /** A positionally printed step with a cap in exponent notation reads
      back as its price, uncapped. */
  lemma ReadSciCapText(e: SolarRate)
    requires Value(e.unitPrice) > 0.0 && Positional(e.unitPrice)
    requires Value(e.volume) > 0.0 && !Positional(e.volume)
    ensures ReadPart(TierText(e)) == Read(Tier(Magnitude(e.unitPrice), 0.0))
  {
    StripTierText(e);
    PositiveShow(e.unitPrice);
    SciShow(e.volume);
    MatchRateText(Show(e.unitPrice), CapText(e));
    MatchCapSci(MantissaText(SigDigits(e.volume)), ExponentText(DecimalExponent(e.volume)));
    TierOfTexts(Show(e.unitPrice), None, Magnitude(e.unitPrice), 0.0);
  }

  /** A positionally printed step without a positive volume reads back as
      its price, uncapped. */
  lemma ReadUncappedText(e: SolarRate)
    requires Value(e.unitPrice) > 0.0 && Positional(e.unitPrice)
    requires Value(e.volume) <= 0.0
    ensures ReadPart(TierText(e)) == Read(Tier(Magnitude(e.unitPrice), 0.0))
  {
    StripTierText(e);
    PositiveShow(e.unitPrice);
    MatchRateText(Show(e.unitPrice), CapText(e));
    MatchCapEmpty();
    TierOfTexts(Show(e.unitPrice), None, Magnitude(e.unitPrice), 0.0);
  }

  /** The text of one priced step reads back as TierRead says. */
  lemma ReadTierText(e: SolarRate)
    requires Value(e.unitPrice) > 0.0
    ensures ReadPart(TierText(e)) == (if TierRead(e).Some? then Read(TierRead(e).value) else Skipped)
  {
    if !Positional(e.unitPrice) {
      ReadSciRateText(e);
    } else if Value(e.volume) <= 0.0 {
      ReadUncappedText(e);
    } else if Positional(e.volume) {
      ReadCappedText(e);
    } else {
      ReadSciCapText(e);
    }
  }

  lemma {:induction false} ReadTierTexts(es: seq<SolarRate>)
    requires forall i :: 0 <= i < |es| ==> Value(es[i].unitPrice) > 0.0
    ensures ReadTiers(TierTexts(es)) == Some(TiersRead(es))
    decreases |es|
  {
    if es != [] {
      var init := es[..|es| - 1];
      var ts := TierTexts(es);
      ReadTierTexts(init);
      assert ts[..|ts| - 1] == TierTexts(init);
      ReadTierText(es[|es| - 1]);
    }
  }

  /** Parsing the description of a contract gives back the tiers of its
      priced retailer steps, in calculator order; a step loses its tier or
      its cap only where str() prints its number in exponent notation. */
  lemma ParseFormatRoundTrip(c: Contract)
    ensures ParseTiers(SolarFitDetails(c)) == Some(SortBy(TiersRead(TierEntries(c.solarFits)), TierLe))
  {
    var es := TierEntries(c.solarFits);
    if es != [] {
      var texts := TierTexts(es);
      forall i | 0 <= i < |texts| ensures "; "[0] !in texts[i] {
        MapAt(TierText, es, i);
        TierTextNoSemicolon(es[i]);
      }
      SplitJoin(texts, "; ");
      ShowFirstChar(es[0].unitPrice);
      MapAt(TierText, es, 0);
      JoinStartsWithFirst(texts, "; ");
      ReadTierTexts(es);
    }
  }

  /** With every number printed positionally the round trip is exact. */
  lemma ParseFormatExact(c: Contract)
    requires AllPositional(TierEntries(c.solarFits))
    ensures ParseTiers(SolarFitDetails(c)) == Some(SortBy(TiersOf(TierEntries(c.solarFits)), TierLe))
  {
    ParseFormatRoundTrip(c);
    TiersReadPositional(TierEntries(c.solarFits));
  }
}
