/** Character classes, decimal digit strings, joining and splitting text.
    Python's str methods used by the scraper (isdigit, isalnum, strip,
    upper, lower, join, split) are modelled on ASCII. */
module Text {

  /** Whitespace as Python's str.strip and the regex class \s see it (ASCII
      part): space, tab, line feed, vertical tab, form feed, carriage return
      and the four separators 0x1C to 0x1F. */
  predicate IsSpace(c: char) {
    c == ' ' || c == '\t' || c == '\n' || c == '\r' || c == 11 as char || c == 12 as char
    || (28 as char <= c <= 31 as char)
  }

  predicate IsDigitChar(c: char) { '0' <= c <= '9' }

  predicate IsLetter(c: char) { ('a' <= c <= 'z') || ('A' <= c <= 'Z') }

  predicate IsAlnum(c: char) { IsDigitChar(c) || IsLetter(c) }

  predicate AllDigits(s: string) {
    forall i :: 0 <= i < |s| ==> IsDigitChar(s[i])
  }

  type Digit = d: int | 0 <= d <= 9

  function DigitChar(d: Digit): (c: char)
    ensures IsDigitChar(c)
  {
    (48 + d) as char
  }

  function CharDigit(c: char): (d: Digit)
    requires IsDigitChar(c)
    ensures DigitChar(d) == c
  {
    (c as int - 48)
  }

  /** The value of a string of decimal digits, most significant first. */
  function DigitsValue(s: string): nat
    requires AllDigits(s)
  {
    if s == [] then 0 else DigitsValue(s[..|s| - 1]) * 10 + CharDigit(s[|s| - 1])
  }

  /** Decimal text of a natural number, without leading zeros ("0" for zero). */
  function NatText(n: nat): (s: string)
    ensures |s| >= 1 && AllDigits(s)
    ensures |s| > 1 ==> s[0] != '0'
    decreases n
  {
    if n < 10 then [DigitChar(n)] else NatText(n / 10) + [DigitChar(n % 10)]
  }

  lemma {:induction false} NatTextValue(n: nat)
    ensures DigitsValue(NatText(n)) == n
    decreases n
  {
    var s := NatText(n);
    if n >= 10 {
      NatTextValue(n / 10);
      assert s[..|s| - 1] == NatText(n / 10);
    }
  }

  /** Python str.join. */
  function Join(parts: seq<string>, sep: string): (r: string)
    ensures parts == [] ==> r == []
    ensures |parts| == 1 ==> r == parts[0]
  {
    if parts == [] then []
    else if |parts| == 1 then parts[0]
    else parts[0] + sep + Join(parts[1..], sep)
  }

  /** Python str.split(sep) for a non-empty separator: the text is cut at
      each occurrence of sep, scanning from the left; there is always at
      least one piece. */
  function Split(s: string, sep: string): (r: seq<string>)
    requires |sep| >= 1
    ensures |r| >= 1
    decreases |s|
  {
    if |s| == 0 then [""]
    else if StartsWith(s, sep) then [""] + Split(s[|sep|..], sep)
    else
      var rest := Split(s[1..], sep);
      [[s[0]] + rest[0]] + rest[1..]
  }

  lemma {:induction false} SplitPiece(p: string, tail: string, sep: string)
    requires |sep| >= 1 && sep[0] !in p
    ensures Split(p + tail, sep) == [p + Split(tail, sep)[0]] + Split(tail, sep)[1..]
    decreases |p|
  {
    var t := Split(tail, sep);
    if p == [] {
      assert t == [t[0]] + t[1..];
      assert p + tail == tail && p + t[0] == t[0];
    } else {
      assert p[0] in p;
      assert (p + tail)[0] == p[0];
      assert (p + tail)[1..] == p[1..] + tail;
      SplitPiece(p[1..], tail, sep);
      assert [p[0]] + (p[1..] + t[0]) == p + t[0];
    }
  }

  /** Splitting a joined text on its separator gives back the parts, when no
      part contains the separator's first character. */
  lemma {:induction false} SplitJoin(parts: seq<string>, sep: string)
    requires |parts| >= 1 && |sep| >= 1
    requires forall i :: 0 <= i < |parts| ==> sep[0] !in parts[i]
    ensures Split(Join(parts, sep), sep) == parts
    decreases |parts|
  {
    if |parts| == 1 {
      SplitPiece(parts[0], "", sep);
      assert Split("", sep) == [""];
      assert parts[0] + "" == parts[0];
    } else {
      var rest := Join(parts[1..], sep);
      SplitJoin(parts[1..], sep);
      assert Join(parts, sep) == parts[0] + (sep + rest);
      SplitPiece(parts[0], sep + rest, sep);
      assert (sep + rest)[..|sep|] == sep;
      assert (sep + rest)[|sep|..] == rest;
      var t := Split(sep + rest, sep);
      assert t == [""] + parts[1..];
      assert t[0] == "" && t[1..] == parts[1..];
      assert parts[0] + t[0] == parts[0];
      assert parts == [parts[0]] + parts[1..];
    }
  }

  /** As SplitPiece, for a piece free of the separator's second character,
      when what follows it does not start with that character. */
  lemma {:induction false} SplitPieceSecond(p: string, tail: string, sep: string)
    requires |sep| >= 2 && sep[1] !in p
    requires tail == [] || tail[0] != sep[1]
    ensures Split(p + tail, sep) == [p + Split(tail, sep)[0]] + Split(tail, sep)[1..]
    decreases |p|
  {
    var t := Split(tail, sep);
    if p == [] {
      assert t == [t[0]] + t[1..];
      assert p + tail == tail && p + t[0] == t[0];
    } else {
      assert (p + tail)[0] == p[0];
      assert (p + tail)[1..] == p[1..] + tail;
      if |p| >= 2 {
        assert p[1] in p;
        assert (p + tail)[1] == p[1];
      } else if tail != [] {
        assert (p + tail)[1] == tail[0];
      }
      assert !StartsWith(p + tail, sep);
      SplitPieceSecond(p[1..], tail, sep);
      assert [p[0]] + (p[1..] + t[0]) == p + t[0];
    }
  }

  /** Splitting a joined text on its separator gives back the parts, when no
      part contains the separator's second character and the separator does
      not start with it. */
  lemma {:induction false} SplitJoinSecond(parts: seq<string>, sep: string)
    requires |parts| >= 1 && |sep| >= 2 && sep[0] != sep[1]
    requires forall i :: 0 <= i < |parts| ==> sep[1] !in parts[i]
    ensures Split(Join(parts, sep), sep) == parts
    decreases |parts|
  {
    if |parts| == 1 {
      SplitPieceSecond(parts[0], "", sep);
      assert Split("", sep) == [""];
      assert parts[0] + "" == parts[0];
    } else {
      var rest := Join(parts[1..], sep);
      SplitJoinSecond(parts[1..], sep);
      assert Join(parts, sep) == parts[0] + (sep + rest);
      SplitPieceSecond(parts[0], sep + rest, sep);
      assert (sep + rest)[..|sep|] == sep;
      assert (sep + rest)[|sep|..] == rest;
      var t := Split(sep + rest, sep);
      assert t == [""] + parts[1..];
      assert t[0] == "" && t[1..] == parts[1..];
      assert parts[0] + t[0] == parts[0];
      assert parts == [parts[0]] + parts[1..];
    }
  }

  /** Python str.lstrip() with no argument. */
  function StripLeft(s: string): (r: string)
    ensures |r| <= |s| && r == s[|s| - |r|..]
    ensures r != [] ==> !IsSpace(r[0])
    ensures s != [] && !IsSpace(s[0]) ==> r == s
  {
    if s != [] && IsSpace(s[0]) then StripLeft(s[1..]) else s
  }

  /** Python str.rstrip() with no argument. */
  function StripRight(s: string): (r: string)
    ensures |r| <= |s| && r == s[..|r|]
    ensures r != [] ==> !IsSpace(r[|r| - 1])
    ensures s != [] && !IsSpace(s[|s| - 1]) ==> r == s
  {
    if s != [] && IsSpace(s[|s| - 1]) then StripRight(s[..|s| - 1]) else s
  }

  /** Python str.strip() with no argument. */
  function Strip(s: string): string {
    StripRight(StripLeft(s))
  }

  /** Stripping only removes characters. */
  lemma StripKeepsChars(s: string)
    ensures forall c :: c in Strip(s) ==> c in s
  {
    var l := StripLeft(s);
    var t := StripRight(l);
    forall c | c in t
      ensures c in s
    {
      var k :| 0 <= k < |t| && t[k] == c;
      assert l[k] == c;
      assert s[|s| - |l| + k] == c;
    }
  }

  function UpperChar(c: char): char {
    if 'a' <= c <= 'z' then (c as int - 32) as char else c
  }

  function LowerChar(c: char): char {
    if 'A' <= c <= 'Z' then (c as int + 32) as char else c
  }

  /** Python str.upper() on ASCII letters. */
  function Upper(s: string): (r: string)
    ensures |r| == |s|
    ensures forall i :: 0 <= i < |s| ==> r[i] == UpperChar(s[i])
  {
    seq(|s|, i requires 0 <= i < |s| => UpperChar(s[i]))
  }

  /** Python str.lower() on ASCII letters. */
  function Lower(s: string): (r: string)
    ensures |r| == |s|
    ensures forall i :: 0 <= i < |s| ==> r[i] == LowerChar(s[i])
  {
    seq(|s|, i requires 0 <= i < |s| => LowerChar(s[i]))
  }

  /** Text comparison as a spreadsheet's "=" does it: ignoring letter case. */
  predicate SameTextIgnoringCase(a: string, b: string) {
    Lower(a) == Lower(b)
  }

  /** Python str.replace for a one-character pattern and replacement. */
  function ReplaceChar(s: string, from: char, to: char): (r: string)
    ensures |r| == |s|
    ensures forall i :: 0 <= i < |s| ==> r[i] == (if s[i] == from then to else s[i])
  {
    seq(|s|, i requires 0 <= i < |s| => if s[i] == from then to else s[i])
  }

  /** The longest prefix of s whose characters all satisfy the "digits or
      dots" class [\d.] of a regular expression. */
  function NumberRun(s: string): (r: string)
    ensures |r| <= |s| && r == s[..|r|]
    ensures forall i :: 0 <= i < |r| ==> IsDigitChar(r[i]) || r[i] == '.'
    ensures |r| < |s| ==> !(IsDigitChar(s[|r|]) || s[|r|] == '.')
  {
    if s != [] && (IsDigitChar(s[0]) || s[0] == '.') then [s[0]] + NumberRun(s[1..]) else []
  }

  lemma {:induction false} NumberRunStops(run: string, tail: string)
    requires forall i :: 0 <= i < |run| ==> IsDigitChar(run[i]) || run[i] == '.'
    requires tail == [] || !(IsDigitChar(tail[0]) || tail[0] == '.')
    ensures NumberRun(run + tail) == run
    decreases |run|
  {
    if run != [] {
      assert (run + tail)[1..] == run[1..] + tail;
      NumberRunStops(run[1..], tail);
    }
  }

  /** The longest prefix of s made of whitespace. */
  function SpaceRun(s: string): (r: string)
    ensures |r| <= |s| && r == s[..|r|]
    ensures forall i :: 0 <= i < |r| ==> IsSpace(r[i])
    ensures |r| < |s| ==> !IsSpace(s[|r|])
  {
    if s != [] && IsSpace(s[0]) then [s[0]] + SpaceRun(s[1..]) else []
  }

  lemma {:induction false} SpaceRunStops(run: string, tail: string)
    requires forall i :: 0 <= i < |run| ==> IsSpace(run[i])
    requires tail == [] || !IsSpace(tail[0])
    ensures SpaceRun(run + tail) == run
    decreases |run|
  {
    if run != [] {
      assert (run + tail)[1..] == run[1..] + tail;
      SpaceRunStops(run[1..], tail);
    }
  }

  predicate StartsWith(s: string, prefix: string) {
    |prefix| <= |s| && s[..|prefix|] == prefix
  }
}
