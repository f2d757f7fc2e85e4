/** The text-along-a-path layer's option defaults and its reader for distance
    literals such as "10 km": a leading run of decimal digits, optional
    whitespace, then a unit that is exactly "m" or "km" (any case), pixels
    otherwise. */
module TextPath {
  import opened JsStrings

  datatype DistanceUnit = PIXELS | METERS | KILOMETERS

  datatype TextAlign = LEFT | RIGHT

  /** A distance option as the layer stores it: a number and a unit. */
  type Distance = (real, DistanceUnit)

  /** The argument of `parseDistance`, which accepts a number or a string. */
  datatype DistanceInput = NumberInput(x: real) | TextInput(s: string)

  datatype TextPathOptions = TextPathOptions(size: Distance, verticalOffset: Distance, color: string, align: TextAlign)

  const TextPathOptionsDefaults: TextPathOptions :=
    TextPathOptions((10.0, PIXELS), (0.0, PIXELS), "black", LEFT)

  /** The length of the run of decimal digits that `s` starts with. */
  function DigitRun(s: string): (n: nat)
    ensures n <= |s|
    ensures AllDigits(s[..n])
    ensures n < |s| ==> !IsDigit(s[n])
  {
    if s != [] && IsDigit(s[0]) then
      var n := 1 + DigitRun(s[1..]);
      assert s[..n] == [s[0]] + s[1..][..n - 1];
      n
    else 0
  }

  /** `s` after its leading whitespace (what `\s*` consumes). */
  function SkipWhitespace(s: string): (r: string)
    ensures |r| <= |s| && r == s[|s| - |r|..]
    ensures r == [] || !IsWhitespace(r[0])
  {
    if s != [] && IsWhitespace(s[0]) then SkipWhitespace(s[1..]) else s
  }

  /** `s` up to its first line terminator (what `.*` consumes). */
  function UpToLineTerminator(s: string): (r: string)
    ensures |r| <= |s| && r == s[..|r|]
    ensures forall i :: 0 <= i < |r| ==> !IsLineTerminator(r[i])
    ensures |r| < |s| ==> IsLineTerminator(s[|r|])
  {
    if s == [] || IsLineTerminator(s[0]) then []
    else
      var r := [s[0]] + UpToLineTerminator(s[1..]);
      assert s[..|r|] == [s[0]] + s[1..][..|r| - 1];
      r
  }

  /** The two groups of `/^(\d+)\s*(.*)/`, if it matches. */
  datatype DistanceMatch = DistanceMatch(digits: string, rest: string)

  function MatchDistance(s: string): (m: Option<DistanceMatch>)
    ensures m.Some? <==> s != [] && IsDigit(s[0])
    ensures m.Some? ==> m.value.digits != [] && AllDigits(m.value.digits)
  {
    var n := DigitRun(s);
    if n == 0 then None
    else Some(DistanceMatch(s[..n], UpToLineTerminator(SkipWhitespace(s[n..]))))
  }

  /** The unit a remainder names: exactly "m" or "km", pixels for anything else. */
  function UnitOf(rest: string): (u: DistanceUnit)
    ensures u == METERS <==> rest == "m"
    ensures u == KILOMETERS <==> rest == "km"
  {
    if rest == "m" then METERS else if rest == "km" then KILOMETERS else PIXELS
  }

  /** What `parseDistance` returns: (0, PIXELS) for a number and for a string that does not
      start with a digit; otherwise the value of the leading digits, which is a
      non-negative whole number, and the unit named by what follows them. */
  function DistanceLiteral(d: DistanceInput): (r: Distance)
    ensures d.NumberInput? ==> r == (0.0, PIXELS)
    ensures d.TextInput? && (d.s == [] || !IsDigit(d.s[0])) ==> r == (0.0, PIXELS)
    ensures r.0 >= 0.0 && r.0 == r.0.Floor as real
    ensures r.1 != PIXELS ==> d.TextInput? && d.s != [] && IsDigit(d.s[0])
  {
    match d
    case NumberInput(_) => (0.0, PIXELS)
    case TextInput(s) =>
      match MatchDistance(Lower(s))
      case None => (0.0, PIXELS)
      case Some(m) => (DigitsValue(m.digits) as real, UnitOf(m.rest))
  }

  /** `parseDistance`: start from (0, PIXELS), overwrite the unit from the remainder, then
      the value from the digits. */
  method ParseDistance(d: DistanceInput) returns (result: Distance)
    ensures result == DistanceLiteral(d)
  {
    result := (0.0, PIXELS);
    if d.TextInput? {
      var m := MatchDistance(Lower(d.s));
      if m.Some? {
        if m.value.rest == "m" {
          result := (result.0, METERS);
        } else if m.value.rest == "km" {
          result := (result.0, KILOMETERS);
        }
        result := (DigitsValue(m.value.digits) as real, result.1);
      }
    }
  }

  /** The unit spellings this model writes back: "m", "km", and "px" for pixels. */
  function UnitText(u: DistanceUnit): string {
    match u
    case PIXELS => "px"
    case METERS => "m"
    case KILOMETERS => "km"
  }

  lemma {:induction false} DigitRunPrefix(ds: string, tail: string)
    requires AllDigits(ds)
    requires tail == [] || !IsDigit(tail[0])
    ensures DigitRun(ds + tail) == |ds|
  {
    if ds != [] {
      assert (ds + tail)[1..] == ds[1..] + tail;
      DigitRunPrefix(ds[1..], tail);
    } else {
      assert ds + tail == tail;
    }
  }

  /** Whitespace-only padding is skipped entirely. */
  lemma {:induction false} SkipWhitespacePrefix(ws: string, tail: string)
    requires forall i :: 0 <= i < |ws| ==> IsWhitespace(ws[i])
    requires tail == [] || !IsWhitespace(tail[0])
    ensures SkipWhitespace(ws + tail) == tail
  {
    if ws != [] {
      assert (ws + tail)[1..] == ws[1..] + tail;
      SkipWhitespacePrefix(ws[1..], tail);
    } else {
      assert ws + tail == tail;
    }
  }

  /** A number written in decimal, any whitespace, and a lower-case unit spelling read back
      as that number and unit. */
  lemma LiteralRoundTrip(n: nat, ws: string, u: DistanceUnit)
    requires forall i :: 0 <= i < |ws| ==> IsWhitespace(ws[i])
    ensures DistanceLiteral(TextInput(NatToString(n) + ws + UnitText(u))) == (n as real, u)
  {
    var ds := NatToString(n);
    LowerOfLiteral(ds, ws, u);
    UnitTextShape(u);
    MatchOfLiteral(ds, ws, UnitText(u));
    DigitsValueOfNatToString(n);
  }

  /** The regular expression splits digits, whitespace and a unit spelling into the digits
      and the unit spelling. */
  lemma MatchOfLiteral(ds: string, ws: string, unit: string)
    requires ds != [] && AllDigits(ds)
    requires forall i :: 0 <= i < |ws| ==> IsWhitespace(ws[i])
    requires unit != [] && !IsWhitespace(unit[0]) && !IsDigit(unit[0])
    requires UpToLineTerminator(unit) == unit
    ensures MatchDistance(ds + ws + unit) == Some(DistanceMatch(ds, unit))
  {
    var s := ds + ws + unit;
    var tail := ws + unit;
    assert s == ds + tail;
    assert tail[0] == if ws != [] then ws[0] else unit[0];
    DigitRunPrefix(ds, tail);
    SkipWhitespacePrefix(ws, unit);
    assert s[|ds|..] == tail;
    assert s[..|ds|] == ds;
    MatchFromParts(s, |ds|, unit);
  }

  /** A match is read off from the length of the digit run and the remainder. */
  lemma MatchFromParts(s: string, n: nat, rest: string)
    requires n == DigitRun(s) && n > 0
    requires UpToLineTerminator(SkipWhitespace(s[n..])) == rest
    ensures MatchDistance(s) == Some(DistanceMatch(s[..n], rest))
  {
  }

  /** A unit spelling starts with a letter and holds no line terminator. */
  lemma UnitTextShape(u: DistanceUnit)
    ensures !IsWhitespace(UnitText(u)[0]) && !IsDigit(UnitText(u)[0])
    ensures UpToLineTerminator(UnitText(u)) == UnitText(u)
  {
  }

  /** Digits, whitespace and a unit spelling contain no upper-case letter. */
  lemma LowerOfLiteral(ds: string, ws: string, u: DistanceUnit)
    requires AllDigits(ds)
    requires forall i :: 0 <= i < |ws| ==> IsWhitespace(ws[i])
    ensures Lower(ds + ws + UnitText(u)) == ds + ws + UnitText(u)
  {
    var unit := UnitText(u);
    var s := ds + ws + unit;
    forall i | 0 <= i < |s|
      ensures Lower(s)[i] == s[i]
    {
      if i < |ds| {
        assert s[i] == ds[i];
        KeptByLower(s[i]);
      } else if i < |ds| + |ws| {
        assert s[i] == ws[i - |ds|];
        KeptByLower(s[i]);
      } else {
        assert s[i] == unit[i - |ds| - |ws|];
        KeptByLower(s[i]);
      }
    }
  }

  lemma KeptByLower(c: char)
    requires IsDigit(c) || IsWhitespace(c) || c in "pxmk"
    ensures LowerChar(c) == c
  {
  }

  /** Upper- and lower-case spellings read alike. */
  lemma CaseInsensitive(s: string)
    ensures DistanceLiteral(TextInput(s)) == DistanceLiteral(TextInput(Lower(s)))
  {
    LowerIdempotent(s);
  }

  /** The unit spellings in upper case. */
  function UpperUnitText(u: DistanceUnit): string {
    match u
    case PIXELS => "PX"
    case METERS => "M"
    case KILOMETERS => "KM"
  }

  /** An upper-case unit is recognised: "10 KM" reads as ten kilometres. */
  lemma UpperCaseUnit(n: nat, ws: string, u: DistanceUnit)
    requires forall i :: 0 <= i < |ws| ==> IsWhitespace(ws[i])
    ensures DistanceLiteral(TextInput(NatToString(n) + ws + UpperUnitText(u))) == (n as real, u)
  {
    var ds := NatToString(n);
    CaseInsensitive(ds + ws + UpperUnitText(u));
    LowerOfUpperLiteral(ds, ws, u);
    LiteralRoundTrip(n, ws, u);
  }

  lemma LowerOfUpperLiteral(ds: string, ws: string, u: DistanceUnit)
    requires AllDigits(ds)
    requires forall i :: 0 <= i < |ws| ==> IsWhitespace(ws[i])
    ensures Lower(ds + ws + UpperUnitText(u)) == ds + ws + UnitText(u)
  {
    LowerAppend(ds + ws, UpperUnitText(u));
    LowerOfNumberAndSpace(ds, ws);
    assert Lower(UpperUnitText(u)) == UnitText(u);
  }

  /** A fraction stops the digits, and a remainder that starts with '.' names no unit:
      "1.5 km" reads as one pixel. */
  lemma FractionStopsDigits(n: nat, tail: string)
    ensures DistanceLiteral(TextInput(NatToString(n) + "." + tail)) == (n as real, PIXELS)
  {
    var ds := NatToString(n);
    var rest := "." + Lower(tail);
    LowerOfFraction(ds, tail);
    DotNamesNoUnit(Lower(tail));
    ReadDigitsThen(ds, rest);
    LiteralOfMatch(ds + "." + tail, ds, UpToLineTerminator(rest));
    DigitsValueOfNatToString(n);
  }

  /** A string reads as the value of the digits its lower case matches and the unit the
      remainder names. */
  lemma LiteralOfMatch(s: string, ds: string, rest: string)
    requires MatchDistance(Lower(s)) == Some(DistanceMatch(ds, rest))
    ensures AllDigits(ds)
    ensures DistanceLiteral(TextInput(s)) == (DigitsValue(ds) as real, UnitOf(rest))
  {
  }

  /** A remainder that starts with '.' is no unit spelling. */
  lemma DotNamesNoUnit(t: string)
    ensures var rest := "." + t;
            rest != [] && !IsDigit(rest[0]) && !IsWhitespace(rest[0])
            && UnitOf(UpToLineTerminator(rest)) == PIXELS
  {
    var rest := "." + t;
    assert rest[0] == '.' && rest[1..] == t;
    assert !IsLineTerminator(rest[0]);
    var r := UpToLineTerminator(rest);
    assert r == [rest[0]] + UpToLineTerminator(t);
    assert r[0] == '.';
  }

  lemma LowerOfFraction(ds: string, tail: string)
    requires AllDigits(ds)
    ensures Lower(ds + "." + tail) == ds + ("." + Lower(tail))
  {
    LowerAppend(ds, "." + tail);
    LowerAppend(".", tail);
    LowerOfNumberAndSpace(ds, "");
    assert ds + "" == ds;
    assert ds + "." + tail == ds + ("." + tail);
  }

  /** Digits followed by something that is neither a digit nor whitespace match with that
      something cut at the first line terminator. */
  lemma ReadDigitsThen(ds: string, rest: string)
    requires ds != [] && AllDigits(ds)
    requires rest != [] && !IsDigit(rest[0]) && !IsWhitespace(rest[0])
    ensures MatchDistance(ds + rest) == Some(DistanceMatch(ds, UpToLineTerminator(rest)))
  {
    var s := ds + rest;
    DigitRunPrefix(ds, rest);
    assert s[|ds|..] == rest;
    assert s[..|ds|] == ds;
    MatchFromParts(s, |ds|, UpToLineTerminator(rest));
  }

  /** Lower-casing works character by character. */
  lemma LowerAppend(a: string, b: string)
    ensures Lower(a + b) == Lower(a) + Lower(b)
  {
    assert forall i :: 0 <= i < |a + b| ==> Lower(a + b)[i] == (Lower(a) + Lower(b))[i];
  }

  /** Digits and whitespace have no upper case. */
  lemma LowerOfNumberAndSpace(ds: string, ws: string)
    requires AllDigits(ds)
    requires forall i :: 0 <= i < |ws| ==> IsWhitespace(ws[i])
    ensures Lower(ds + ws) == ds + ws
  {
    var s := ds + ws;
    forall i | 0 <= i < |s|
      ensures Lower(s)[i] == s[i]
    {
      if i < |ds| {
        assert s[i] == ds[i];
      } else {
        assert s[i] == ws[i - |ds|];
      }
      KeptByLower(s[i]);
    }
  }

  /** The default size is what "10px" reads as, and the default offset is what any number
      reads as. */
  lemma DefaultsAreLiterals(x: real)
    ensures TextPathOptionsDefaults.size == DistanceLiteral(TextInput("10px"))
    ensures TextPathOptionsDefaults.verticalOffset == DistanceLiteral(NumberInput(x))
  {
    TenPx();
    LiteralRoundTrip(10, "", PIXELS);
  }

  lemma TenPx()
    ensures NatToString(10) + "" + UnitText(PIXELS) == "10px"
  {
    assert NatToString(10) == "10";
  }
}
