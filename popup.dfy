/** Text helpers of the location popup: phone numbers split into groups of
    three from the end, a compass sector chosen from a bearing, optional table
    rows and an optional accuracy suffix. */
module Popup {
  import opened JsStrings

  /** The separator placed between phone groups. */
  const Nbsp: string := "&nbsp;"

  /** `input.substr(input.length - 3)`: the last three characters, except that a
      two-character input yields only its last character, because the negative start -1
      counts from the end. */
  function Last3AsWritten(s: string): (r: string)
    ensures |s| != 2 ==> r == s[if |s| < 3 then 0 else |s| - 3..]
    ensures |s| == 2 ==> r == s[1..]
  {
    SubstrFrom(s, |s| - 3)
  }

  /** The groups the phone loop builds from `input` with `k` rounds left: each round takes
      `Last3AsWritten` off the end and keeps `input.slice(0, -3)` for the next round. */
  function PhoneGroupsAsWritten(input: string, k: nat): (g: seq<string>)
    ensures |g| == k + 1
    decreases k
  {
    if k == 0 then [input]
    else PhoneGroupsAsWritten(DropLast(input, 3), k - 1) + [Last3AsWritten(input)]
  }

  /** A leading "00" of the first group becomes "+"; nothing else changes. */
  function RewriteInternationalPrefix(groups: seq<string>): (r: seq<string>)
    ensures |r| == |groups|
    ensures |groups| > 0 ==> r[1..] == groups[1..]
    ensures |groups| > 0 && StartsWith(groups[0], "00") ==> r[0] == "+" + groups[0][2..]
    ensures |groups| > 0 && !StartsWith(groups[0], "00") ==> r[0] == groups[0]
  {
    if |groups| > 0 && StartsWith(groups[0], "00") then groups[0 := "+" + SubstrFrom(groups[0], 2)]
    else groups
  }

  /** What `formatPhone` returns for `phone`. */
  function PhoneText(phone: string): string {
    Join(RewriteInternationalPrefix(PhoneGroupsAsWritten(RemoveWhitespace(phone), 3)), Nbsp)
  }

  /** `formatPhone`: whitespace removed, three rounds of taking three characters off the
      end, the remainder put in front, a leading "00" rewritten as "+", and the groups
      joined with "&nbsp;". */
  method FormatPhone(phone: string) returns (r: string)
    ensures r == PhoneText(phone)
  {
    var input := RemoveWhitespace(phone);
    ghost var original := input;
    var groups: seq<string> := [];
    for i := 0 to 3
      invariant PhoneGroupsAsWritten(input, 3 - i) + groups == PhoneGroupsAsWritten(original, 3)
    {
      groups := [SubstrFrom(input, |input| - 3)] + groups;
      input := DropLast(input, 3);
    }
    groups := [input] + groups;
    if |groups| > 0 && StartsWith(groups[0], "00") {
      groups := groups[0 := "+" + SubstrFrom(groups[0], 2)];
    }
    r := Join(groups, Nbsp);
  }

  /** Zero when `x` is negative. */
  function ClampAtZero(x: int): nat {
    if x < 0 then 0 else x
  }

  /** The grouping evidently intended: three groups of (at most) three characters taken
      from the end and whatever is left in front, so that nothing is lost. */
  function PhoneGroups(s: string): (g: seq<string>)
    ensures |g| == 4
    ensures g[0] + g[1] + g[2] + g[3] == s
    ensures |g[1]| <= 3 && |g[2]| <= 3 && |g[3]| <= 3
    ensures |s| >= 9 ==> g[0] == s[..|s| - 9] && |g[1]| == 3 && |g[2]| == 3 && |g[3]| == 3
  {
    var n := |s|;
    var a, b, c := ClampAtZero(n - 9), ClampAtZero(n - 6), ClampAtZero(n - 3);
    var g := [s[..a], s[a..b], s[b..c], s[c..]];
    assert g[0] + g[1] + g[2] + g[3] == s;
    g
  }

  /** A round on at least three characters takes exactly the last three off the end. */
  lemma RoundOfThree(s: string, k: nat)
    requires |s| >= 3 && k >= 1
    ensures PhoneGroupsAsWritten(s, k) == PhoneGroupsAsWritten(s[..|s| - 3], k - 1) + [s[|s| - 3..]]
  {
  }

  /** A round on fewer than three characters leaves nothing for the next round, and keeps
      only the last character of a two-character remainder. */
  lemma RoundOfFewer(s: string, k: nat)
    requires |s| < 3 && k >= 1
    ensures PhoneGroupsAsWritten(s, k) == PhoneGroupsAsWritten("", k - 1) + [if |s| == 2 then s[1..] else s]
  {
  }

  /** Rounds on nothing give empty groups. */
  lemma RoundsOfNothing()
    ensures PhoneGroupsAsWritten("", 0) == [""]
    ensures PhoneGroupsAsWritten("", 1) == ["", ""]
    ensures PhoneGroupsAsWritten("", 2) == ["", "", ""]
  {
    RoundOfFewer("", 1);
    RoundOfFewer("", 2);
  }

  /** Whenever the input length is not 2, 5 or 8, the loop as written produces exactly the
      intended groups. */
  lemma PhoneGroupsAsWrittenAgrees(s: string)
    requires |s| != 2 && |s| != 5 && |s| != 8
    ensures PhoneGroupsAsWritten(s, 3) == PhoneGroups(s)
  {
    var n := |s|;
    if n >= 9 {
      AgreesFromNine(s);
    } else if n >= 6 {
      AgreesFromSix(s);
    } else {
      AgreesBelowSix(s);
    }
  }

  lemma AgreesFromNine(s: string)
    requires |s| >= 9
    ensures PhoneGroupsAsWritten(s, 3) == PhoneGroups(s)
  {
    RoundsFromNine(s);
  }

  /** On nine characters or more, every round takes three. */
  lemma RoundsFromNine(s: string)
    requires |s| >= 9
    ensures var n := |s|;
            PhoneGroupsAsWritten(s, 3) == [s[..n - 9], s[n - 9..n - 6], s[n - 6..n - 3], s[n - 3..]]
  {
    var n := |s|;
    Reassemble(s, n - 9, n - 6, n - 3);
    RoundsOfParts(s[..n - 9], s[n - 9..n - 6], s[n - 6..n - 3], s[n - 3..]);
  }

  /** A text cut at three points is the concatenation of the four pieces. */
  lemma Reassemble(s: string, a: nat, b: nat, c: nat)
    requires a <= b <= c <= |s|
    ensures s[..a] + s[a..b] + s[b..c] + s[c..] == s
  {
    assert s[..a] + s[a..b] == s[..b];
    assert s[..b] + s[b..c] == s[..c];
  }

  /** Three rounds on a text made of a head and three groups of three give those parts. */
  lemma RoundsOfParts(g0: string, g1: string, g2: string, g3: string)
    requires |g1| == 3 && |g2| == 3 && |g3| == 3
    ensures PhoneGroupsAsWritten(g0 + g1 + g2 + g3, 3) == [g0, g1, g2, g3]
  {
    RoundOfConcat(g0, g1, 1);
    RoundOfConcat(g0 + g1, g2, 2);
    RoundOfConcat(g0 + g1 + g2, g3, 3);
  }

  /** A round on a text ending in three characters takes exactly those. */
  lemma RoundOfConcat(rest: string, last: string, k: nat)
    requires |last| == 3 && k >= 1
    ensures PhoneGroupsAsWritten(rest + last, k) == PhoneGroupsAsWritten(rest, k - 1) + [last]
  {
    var x := rest + last;
    assert x[..|x| - 3] == rest && x[|x| - 3..] == last;
    RoundOfThree(x, k);
  }

  lemma AgreesFromSix(s: string)
    requires 6 <= |s| < 8
    ensures PhoneGroupsAsWritten(s, 3) == PhoneGroups(s)
  {
    var n := |s|;
    Reassemble3(s, n - 6, n - 3);
    RoundsOfShortHead(s[..n - 6], s[n - 6..n - 3], s[n - 3..]);
    assert PhoneGroups(s) == ["", s[..n - 6], s[n - 6..n - 3], s[n - 3..]];
  }

  /** A text cut at two points is the concatenation of the three pieces. */
  lemma Reassemble3(s: string, a: nat, b: nat)
    requires a <= b <= |s|
    ensures s[..a] + s[a..b] + s[b..] == s
  {
    assert s[..a] + s[a..b] == s[..b];
  }

  /** A head shorter than two characters in front of two groups of three is kept whole. */
  lemma RoundsOfShortHead(h: string, g2: string, g3: string)
    requires |h| < 2 && |g2| == 3 && |g3| == 3
    ensures PhoneGroupsAsWritten(h + g2 + g3, 3) == ["", h, g2, g3]
  {
    RoundOfConcat(h + g2, g3, 3);
    RoundOfConcat(h, g2, 2);
    RoundOfFewer(h, 1);
    RoundsOfNothing();
  }

  lemma AgreesBelowSix(s: string)
    requires |s| < 6 && |s| != 2 && |s| != 5
    ensures PhoneGroupsAsWritten(s, 3) == PhoneGroups(s)
  {
    RoundsOfNothing();
    if |s| >= 3 {
      AgreesFromThree(s);
    } else {
      RoundOfFewer(s, 3);
      assert PhoneGroups(s) == ["", "", "", s];
    }
  }

  /** Three or four characters: one full group and a short remainder in front of it. */
  lemma AgreesFromThree(s: string)
    requires |s| == 3 || |s| == 4
    ensures PhoneGroupsAsWritten(s, 3) == PhoneGroups(s)
  {
    var n := |s|;
    assert s[..n - 3] + s[n - 3..] == s;
    RoundsOfOneGroup(s[..n - 3], s[n - 3..]);
    assert PhoneGroups(s) == ["", "", s[..n - 3], s[n - 3..]];
  }

  /** A head shorter than two characters in front of one group of three is kept whole. */
  lemma RoundsOfOneGroup(h: string, g: string)
    requires |h| < 2 && |g| == 3
    ensures PhoneGroupsAsWritten(h + g, 3) == ["", "", h, g]
  {
    RoundOfConcat(h, g, 3);
    RoundOfFewer(h, 2);
    RoundsOfNothing();
  }

  /** The groups the loop as written produces for lengths 2, 5 and 8: the character in front
      of the last full groups is missing from all of them. */
  lemma PhoneGroupsAsWrittenShort(s: string)
    requires |s| == 2 || |s| == 5 || |s| == 8
    ensures |s| == 8 ==> PhoneGroupsAsWritten(s, 3) == ["", s[1..2], s[2..5], s[5..]]
    ensures |s| == 5 ==> PhoneGroupsAsWritten(s, 3) == ["", "", s[1..2], s[2..]]
    ensures |s| == 2 ==> PhoneGroupsAsWritten(s, 3) == ["", "", "", s[1..]]
  {
    if |s| == 8 {
      ShortOfEight(s);
    } else if |s| == 5 {
      ShortOfFive(s);
    } else {
      RoundsOfNothing();
      RoundOfFewer(s, 3);
    }
  }

  lemma ShortOfEight(s: string)
    requires |s| == 8
    ensures PhoneGroupsAsWritten(s, 3) == ["", s[1..2], s[2..5], s[5..]]
  {
    Reassemble(s, 1, 2, 5);
    RoundsOfEight(s[..1], s[1..2], s[2..5], s[5..]);
  }

  lemma ShortOfFive(s: string)
    requires |s| == 5
    ensures PhoneGroupsAsWritten(s, 3) == ["", "", s[1..2], s[2..]]
  {
    Reassemble3(s, 1, 2);
    RoundsOfFive(s[..1], s[1..2], s[2..]);
  }

  /** Two single characters in front of two groups of three: the first one is lost. */
  lemma RoundsOfEight(x: string, y: string, g2: string, g3: string)
    requires |x| == 1 && |y| == 1 && |g2| == 3 && |g3| == 3
    ensures PhoneGroupsAsWritten(x + y + g2 + g3, 3) == ["", y, g2, g3]
  {
    RoundOfConcat(x + y + g2, g3, 3);
    RoundOfConcat(x + y, g2, 2);
    RoundOfFewer(x + y, 1);
    assert (x + y)[1..] == y;
    RoundsOfNothing();
  }

  /** Two single characters in front of one group of three: the first one is lost. */
  lemma RoundsOfFive(x: string, y: string, g3: string)
    requires |x| == 1 && |y| == 1 && |g3| == 3
    ensures PhoneGroupsAsWritten(x + y + g3, 3) == ["", "", y, g3]
  {
    RoundOfConcat(x + y, g3, 3);
    RoundOfFewer(x + y, 2);
    assert (x + y)[1..] == y;
    RoundsOfNothing();
  }

  /** When the input length is 2, 5 or 8, one round meets a two-character remainder: it
      keeps only the last of those characters and then slices both away, so the groups
      put back together lose the first character of the input. */
  lemma PhoneGroupsAsWrittenDropsFirst(s: string)
    requires |s| == 2 || |s| == 5 || |s| == 8
    ensures var g := PhoneGroupsAsWritten(s, 3); g[0] + g[1] + g[2] + g[3] == s[1..]
  {
    if |s| == 8 {
      DropsFirstOfEight(s);
    } else if |s| == 5 {
      DropsFirstOfFive(s);
    } else {
      DropsFirstOfTwo(s);
    }
  }

  lemma DropsFirstOfEight(s: string)
    requires |s| == 8
    ensures var g := PhoneGroupsAsWritten(s, 3); g[0] + g[1] + g[2] + g[3] == s[1..]
  {
    PhoneGroupsAsWrittenShort(s);
    var g := PhoneGroupsAsWritten(s, 3);
    assert g[0] == "" && g[1] == s[1..2] && g[2] == s[2..5] && g[3] == s[5..];
    assert s[1..] == s[1..2] + s[2..5] + s[5..];
  }

  lemma DropsFirstOfFive(s: string)
    requires |s| == 5
    ensures var g := PhoneGroupsAsWritten(s, 3); g[0] + g[1] + g[2] + g[3] == s[1..]
  {
    PhoneGroupsAsWrittenShort(s);
    var g := PhoneGroupsAsWritten(s, 3);
    assert g[0] == "" && g[1] == "" && g[2] == s[1..2] && g[3] == s[2..];
    assert s[1..] == s[1..2] + s[2..];
  }

  lemma DropsFirstOfTwo(s: string)
    requires |s| == 2
    ensures var g := PhoneGroupsAsWritten(s, 3); g[0] + g[1] + g[2] + g[3] == s[1..]
  {
    PhoneGroupsAsWrittenShort(s);
    var g := PhoneGroupsAsWritten(s, 3);
    assert g[0] == "" && g[1] == "" && g[2] == "" && g[3] == s[1..];
  }

  /** "12345" loses its leading "1": the loop makes the groups "", "", "2", "345". */
  lemma FormatPhoneLosesDigit()
    ensures PhoneGroupsAsWritten("12345", 3) == ["", "", "2", "345"]
  {
    var s := "12345";
    PhoneGroupsAsWrittenShort(s);
    assert s[1..2] == "2" && s[2..] == "345";
  }

  /** Any phone number of five characters besides whitespace loses its first one: the text
      is two empty groups, the second character, and the last three. */
  lemma FiveCharacterPhoneText(phone: string)
    requires |phone| == 5 && NoWhitespace(phone)
    ensures PhoneText(phone) == Nbsp + Nbsp + phone[1..2] + Nbsp + phone[2..]
  {
    PhoneGroupsAsWrittenShort(phone);
    PhoneTextOfGroups(phone, ["", "", phone[1..2], phone[2..]]);
    assert "" + Nbsp + "" == Nbsp;
  }

  /** When the groups do not start with "00", the text is just the groups joined. */
  lemma PhoneTextOfGroups(phone: string, g: seq<string>)
    requires PhoneGroupsAsWritten(RemoveWhitespace(phone), 3) == g
    requires !StartsWith(g[0], "00")
    ensures PhoneText(phone) == g[0] + Nbsp + g[1] + Nbsp + g[2] + Nbsp + g[3]
  {
    assert RewriteInternationalPrefix(g) == g;
    JoinFour(g, Nbsp);
  }

  /** Four groups joined with a separator. */
  lemma JoinFour(g: seq<string>, sep: string)
    requires |g| == 4
    ensures Join(g, sep) == g[0] + sep + g[1] + sep + g[2] + sep + g[3]
  {
    assert Join(g[3..], sep) == g[3];
    assert Join(g[2..], sep) == g[2] + sep + Join(g[3..], sep);
    assert Join(g[1..], sep) == g[1] + sep + Join(g[2..], sep);
  }

  /** For a phone number with at least nine characters besides whitespace, the text is four
      groups joined by "&nbsp;": the last three hold three characters each and the first
      holds the rest, with a leading "00" of the first group written as "+". */
  lemma PhoneTextLong(phone: string)
    requires |RemoveWhitespace(phone)| >= 9
    ensures var s := RemoveWhitespace(phone);
            var n := |s|;
            var head := s[..n - 9];
            PhoneText(phone)
            == (if StartsWith(head, "00") then "+" + head[2..] else head)
               + Nbsp + s[n - 9..n - 6] + Nbsp + s[n - 6..n - 3] + Nbsp + s[n - 3..]
  {
    var s := RemoveWhitespace(phone);
    var n := |s|;
    PhoneGroupsAsWrittenAgrees(s);
    var g := RewriteInternationalPrefix(PhoneGroups(s));
    assert PhoneGroups(s) == [s[..n - 9], s[n - 9..n - 6], s[n - 6..n - 3], s[n - 3..]];
    JoinFour(g, Nbsp);
  }

  /** The phone text with the intended grouping: `PhoneGroups` in place of the loop's. */
  function CorrectedPhoneText(phone: string): string {
    Join(RewriteInternationalPrefix(PhoneGroups(RemoveWhitespace(phone))), Nbsp)
  }

  /** Outside lengths 2, 5 and 8 the corrected text is exactly what `formatPhone` gives. */
  lemma CorrectedPhoneTextAgrees(phone: string)
    requires |RemoveWhitespace(phone)| !in {2, 5, 8}
    ensures CorrectedPhoneText(phone) == PhoneText(phone)
  {
    PhoneGroupsAsWrittenAgrees(RemoveWhitespace(phone));
  }

  /** A five-character number keeps all its characters once corrected: the first two form
      a group and the last three another. */
  lemma CorrectedFiveCharacterText(phone: string)
    requires |phone| == 5 && NoWhitespace(phone)
    ensures CorrectedPhoneText(phone) == Nbsp + Nbsp + phone[..2] + Nbsp + phone[2..]
  {
    var g := PhoneGroups(phone);
    assert g == ["", "", phone[..2], phone[2..]];
    assert !StartsWith(g[0], "00");
    assert RewriteInternationalPrefix(g) == g;
    JoinFour(g, Nbsp);
    assert "" + Nbsp + "" == Nbsp;
  }

  /** The bearing labels, clockwise from north, each an arrow followed by a name. */
  const Directions: seq<string> := ["↑N", "↗NE", "→E", "↘SE", "↓S", "↙SW", "←W", "↖NW"]

  /** `Math.ceil`. */
  function Ceil(x: real): (r: int)
    ensures r as real >= x && (r as real) - 1.0 < x
  {
    -((-x).Floor)
  }

  /** `x % m` on numbers: `x` less a whole multiple of `m`, taking the sign of `x`. */
  function RealRem(x: real, m: real): (r: real)
    requires m > 0.0
    ensures x >= 0.0 ==> 0.0 <= r < m
    ensures x < 0.0 ==> -m < r <= 0.0
    ensures exists t: int :: DiffersByMultiple(x, r, m, t)
  {
    if x >= 0.0 then
      var t := (x / m).Floor;
      FloorScaled(x, m);
      assert DiffersByMultiple(x, x - m * t as real, m, t);
      x - m * t as real
    else
      var t := (-x / m).Floor;
      FloorScaled(-x, m);
      assert m * (-t) as real == -(m * t as real);
      assert DiffersByMultiple(x, x + m * t as real, m, -t);
      x + m * t as real
  }

  /** `x` and `r` differ by `t` times `m`. */
  predicate DiffersByMultiple(x: real, r: real, m: real, t: int) {
    x - r == m * t as real
  }

  /** The whole number of times `m` fits into a non-negative `x` leaves less than `m` over. */
  lemma FloorScaled(x: real, m: real)
    requires x >= 0.0 && m > 0.0
    ensures var t := (x / m).Floor; 0.0 <= x - m * (t as real) < m
  {
    var q := x / m;
    var t := q.Floor;
    var f := q - t as real;
    assert 0.0 <= f < 1.0;
    assert x == m * q;
    assert x - m * t as real == m * f;
    assert m * (1.0 - f) > 0.0;
    assert m * f >= 0.0;
    assert m * f < m;
    assert x - m * (t as real) < m;
    assert t == (x / m).Floor;
  }

  /** `i % 8` on an integer: `i` less a multiple of 8, taking the sign of `i`. */
  function IntRem8(i: int): (r: int)
    ensures -8 < r < 8
    ensures i >= 0 ==> r >= 0
    ensures i < 0 ==> r <= 0
    ensures (i - r) % 8 == 0
  {
    if i >= 0 then i % 8 else -((-i) % 8)
  }

  /** `Math.ceil(((bearing % 360) - 22.5) / 45) % DIRECTIONS.length`. */
  function DirectionIndex(bearing: real): int {
    IntRem8(Ceil((RealRem(bearing, 360.0) - 22.5) / 45.0))
  }

  /** The entry `DIRECTIONS[index]`, or None where the index is negative and the lookup
      yields undefined (calling `substr` on it then throws). */
  function DirectionEntry(bearing: real): Option<string> {
    var i := DirectionIndex(bearing);
    if 0 <= i < |Directions| then Some(Directions[i]) else None
  }

  /** The names of the directions, clockwise from north. */
  const DirectionNames: seq<string> := ["N", "NE", "E", "SE", "S", "SW", "W", "NW"]

  /** The arrows of the directions, clockwise from north. */
  const DirectionArrows: seq<string> := ["↑", "↗", "→", "↘", "↓", "↙", "←", "↖"]

  /** `getDirection`: the entry without its arrow, that is the name at the index. */
  function GetDirection(bearing: real): (r: Option<string>)
    ensures r.Some? <==> DirectionEntry(bearing).Some?
    ensures r.Some? ==> r.value == DirectionNames[DirectionIndex(bearing)]
  {
    match DirectionEntry(bearing)
    case Some(e) =>
      EntryParts(DirectionIndex(bearing));
      Some(SubstrFrom(e, 1))
    case None => None
  }

  /** `getDirectionArrow`: the arrow alone, `substr(0, 1)`, that is the arrow at the index. */
  function GetDirectionArrow(bearing: real): (r: Option<string>)
    ensures r.Some? <==> DirectionEntry(bearing).Some?
    ensures r.Some? ==> r.value == DirectionArrows[DirectionIndex(bearing)]
  {
    match DirectionEntry(bearing)
    case Some(e) =>
      EntryParts(DirectionIndex(bearing));
      Some(e[..if |e| < 1 then |e| else 1])
    case None => None
  }

  /** Every entry is its arrow, one character, followed by its name. */
  lemma EntryParts(i: int)
    requires 0 <= i < |Directions|
    ensures |DirectionArrows[i]| == 1
    ensures Directions[i] == DirectionArrows[i] + DirectionNames[i]
  {
  }

  /** A whole turn more selects the same entry, so one turn covers every non-negative
      bearing. */
  lemma DirectionIndexPeriodic(bearing: real)
    requires bearing >= 0.0
    ensures DirectionIndex(bearing + 360.0) == DirectionIndex(bearing)
  {
    var q := bearing / 360.0;
    assert (bearing + 360.0) / 360.0 == q + 1.0;
    assert (q + 1.0).Floor == q.Floor + 1;
    assert RealRem(bearing + 360.0, 360.0) == RealRem(bearing, 360.0);
  }

  /** For a bearing in the sector (22.5 + 45(k-1), 22.5 + 45k] of one turn, the entry
      chosen is number k, where sector 8 wraps round to north. */
  lemma DirectionSector(bearing: real, k: int)
    requires 0.0 <= bearing < 360.0
    requires 0 <= k <= 8
    requires 22.5 + 45.0 * (k - 1) as real < bearing <= 22.5 + 45.0 * k as real
    ensures DirectionIndex(bearing) == k % 8
  {
    assert RealRem(bearing, 360.0) == bearing;
    var x := (bearing - 22.5) / 45.0;
    assert (k - 1) as real < x <= k as real;
    assert Ceil(x) == k;
  }

  /** Every non-negative bearing selects one of the eight entries. */
  lemma DirectionIndexInRange(bearing: real)
    requires bearing >= 0.0
    ensures 0 <= DirectionIndex(bearing) < 8
    ensures DirectionEntry(bearing).Some?
  {
    var m := RealRem(bearing, 360.0);
    var x := (m - 22.5) / 45.0;
    assert -0.5 <= x < 7.5;
    assert 0 <= Ceil(x) <= 8;
  }

  /** A lookup is defined exactly when the bearing's remainder modulo 360 lies above -22.5,
      or at or below -337.5, where the index comes out as -8 % 8, which is -0 and selects
      north; every other negative bearing makes the index negative. */
  lemma DirectionDefinedWhen(bearing: real)
    ensures DirectionEntry(bearing).Some? <==> (RealRem(bearing, 360.0) > -22.5 || RealRem(bearing, 360.0) <= -337.5)
  {
    var m := RealRem(bearing, 360.0);
    var x := (m - 22.5) / 45.0;
    var c := Ceil(x);
    if m > -22.5 {
      assert -1.0 < x < 7.5;
      assert 0 <= c <= 8;
    } else if m <= -337.5 {
      assert -8.5 < x <= -8.0;
      assert c == -8;
    } else {
      assert -8.0 < x <= -1.0;
      assert -7 <= c <= -1;
      assert IntRem8(c) == c;
    }
  }

  /** Both directions from zero up to 22.5 degrees and from above 337.5 degrees read north. */
  lemma NorthAroundZero(bearing: real)
    requires 0.0 <= bearing <= 22.5 || 337.5 < bearing < 360.0
    ensures GetDirection(bearing) == Some("N")
    ensures GetDirectionArrow(bearing) == Some("↑")
  {
    if bearing <= 22.5 {
      DirectionSector(bearing, 0);
    } else {
      DirectionSector(bearing, 8);
    }
    assert Directions[0] == "↑N";
    assert "↑N"[..1] == "↑";
    assert "↑N"[1..] == "N";
  }

  /** The arrow and the direction come from the same entry: together they spell it, and the
      arrow is one character. */
  lemma ArrowThenDirection(bearing: real)
    requires DirectionEntry(bearing).Some?
    ensures GetDirectionArrow(bearing).Some? && GetDirection(bearing).Some?
    ensures |GetDirectionArrow(bearing).value| == 1
    ensures GetDirectionArrow(bearing).value + GetDirection(bearing).value == DirectionEntry(bearing).value
  {
    var e := DirectionEntry(bearing).value;
    assert e in Directions;
    assert |e| >= 2;
    assert e[..1] + e[1..] == e;
  }

  /** A value shown in a popup row: undefined, a number or a string. */
  datatype InfoValue = Undefined | Num(x: real) | Str(s: string)

  /** JavaScript truthiness of such a value (NaN is not modelled). */
  predicate Truthy(v: InfoValue) {
    match v
    case Undefined => false
    case Num(x) => x != 0.0
    case Str(s) => s != ""
  }

  /** `${value}`; how a number is written is left to `numberText`. */
  function ValueText(v: InfoValue, numberText: real -> string): string {
    match v
    case Undefined => "undefined"
    case Num(x) => numberText(x)
    case Str(s) => s
  }

  const RowStart: string := "<tr>\n            <th>"
  const RowMiddle: string := "</th>\n            <td>"
  const RowEnd: string := "</td>\n        </tr>"

  /** `getInfoLine(name, value, suffix)`, with `suffix` standing for what the suffix callback
      returns: nothing for a falsy value, otherwise one table row with the name in its
      header cell and the value followed by the suffix in its data cell. */
  function GetInfoLine(name: string, value: InfoValue, suffix: string, numberText: real -> string): (r: string)
    ensures r == "" <==> !Truthy(value)
    ensures Truthy(value) ==> StartsWith(r, RowStart + name + RowMiddle)
    ensures Truthy(value) ==> r[|RowStart + name + RowMiddle|..] == ValueText(value, numberText) + suffix + RowEnd
  {
    if Truthy(value) then
      var r := RowStart + name + RowMiddle + ValueText(value, numberText) + suffix + RowEnd;
      assert r == (RowStart + name + RowMiddle) + (ValueText(value, numberText) + suffix + RowEnd);
      r
    else ""
  }

  /** `withAccuracy(accuracy)`: " ±a " for a present, non-zero accuracy, a single space
      otherwise. */
  function WithAccuracy(accuracy: Option<real>, numberText: real -> string): (r: string)
    ensures (accuracy.Some? && accuracy.value != 0.0) <==> r != " "
    ensures accuracy.Some? && accuracy.value != 0.0 ==> r == " ±" + numberText(accuracy.value) + " "
  {
    if accuracy.Some? && accuracy.value != 0.0 then " ±" + numberText(accuracy.value) + " " else " "
  }
}
