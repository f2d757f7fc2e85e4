/** The JavaScript string built-ins the location page relies on, written out
    over Dafny strings: whitespace as `\s` and `trim` understand it, `split`
    on one character, `join`, `startsWith`, `substr` with a negative start,
    `slice(0, -k)`, lower-casing and decimal digit strings. */
module JsStrings {

  datatype Option<T> = None | Some(value: T)

  /** The characters matched by `\s` and removed by `trim`: WhiteSpace and
      LineTerminator of the ECMAScript grammar. */
  predicate IsWhitespace(c: char) {
    c == ' ' || c == '\t' || c == '\n' || c == '\r' || c == '\U{B}' || c == '\U{C}'
    || c == '\U{A0}' || c == '\U{1680}' || ('\U{2000}' <= c <= '\U{200A}')
    || c == '\U{2028}' || c == '\U{2029}' || c == '\U{202F}' || c == '\U{205F}'
    || c == '\U{3000}' || c == '\U{FEFF}'
  }

  /** The characters that the regular-expression `.` does not match. */
  predicate IsLineTerminator(c: char) {
    c == '\n' || c == '\r' || c == '\U{2028}' || c == '\U{2029}'
  }

  predicate IsDigit(c: char) {
    '0' <= c <= '9'
  }

  predicate NoWhitespace(s: string) {
    forall i :: 0 <= i < |s| ==> !IsWhitespace(s[i])
  }

  /** How many whitespace characters `s` starts with. */
  function LeadingWhitespace(s: string): (n: nat)
    ensures n <= |s|
    ensures forall i :: 0 <= i < n ==> IsWhitespace(s[i])
    ensures n < |s| ==> !IsWhitespace(s[n])
  {
    if s != [] && IsWhitespace(s[0]) then
      var n := 1 + LeadingWhitespace(s[1..]);
      assert forall i :: 1 <= i < n ==> s[i] == s[1..][i - 1];
      n
    else 0
  }

  /** How many whitespace characters `s` ends with. */
  function TrailingWhitespace(s: string): (n: nat)
    ensures n <= |s|
    ensures forall i :: |s| - n <= i < |s| ==> IsWhitespace(s[i])
    ensures n < |s| ==> !IsWhitespace(s[|s| - 1 - n])
  {
    if s != [] && IsWhitespace(s[|s| - 1]) then
      var n := 1 + TrailingWhitespace(s[..|s| - 1]);
      assert forall i :: |s| - n <= i < |s| - 1 ==> s[i] == s[..|s| - 1][i];
      n
    else 0
  }

  /** `String.prototype.trim`: the longest run of whitespace is removed at both ends. */
  function Trim(s: string): (r: string)
    ensures r == [] || (!IsWhitespace(r[0]) && !IsWhitespace(r[|r| - 1]))
    ensures var k := LeadingWhitespace(s);
              k + |r| <= |s| && s[k..k + |r|] == r
              && (forall i :: k + |r| <= i < |s| ==> IsWhitespace(s[i]))
  {
    var k := LeadingWhitespace(s);
    if k == |s| then []
    else
      var e := |s| - TrailingWhitespace(s);
      s[k..e]
  }

  /** Whitespace around a text that neither starts nor ends with whitespace is exactly what
      `trim` removes. */
  lemma TrimPadded(pre: string, body: string, post: string)
    requires forall i :: 0 <= i < |pre| ==> IsWhitespace(pre[i])
    requires forall i :: 0 <= i < |post| ==> IsWhitespace(post[i])
    requires body == [] || (!IsWhitespace(body[0]) && !IsWhitespace(body[|body| - 1]))
    ensures Trim(pre + body + post) == body
  {
    var s := pre + body + post;
    var r := Trim(s);
    var k := LeadingWhitespace(s);
    if body == [] {
      assert forall i :: 0 <= i < |s| ==> IsWhitespace(s[i]);
    } else {
      assert s[|pre|] == body[0];
      assert s[|pre| + |body| - 1] == body[|body| - 1];
      assert k <= |pre|;
      assert r != [] ==> s[k] == r[0];
      assert k == |pre|;
      assert k + |r| == |pre| + |body|;
    }
  }

  /** `s.replace(/\s+/g, '')`: every whitespace character is dropped, all others kept in order. */
  function RemoveWhitespace(s: string): (r: string)
    ensures NoWhitespace(r)
    ensures NoWhitespace(s) ==> r == s
    ensures (forall i :: 0 <= i < |s| ==> IsWhitespace(s[i])) ==> r == []
    ensures |r| <= |s|
  {
    if s == [] then []
    else if IsWhitespace(s[0]) then RemoveWhitespace(s[1..])
    else [s[0]] + RemoveWhitespace(s[1..])
  }

  /** Removing whitespace works piece by piece, so the other characters keep their order. */
  lemma {:induction false} RemoveWhitespaceAppend(a: string, b: string)
    ensures RemoveWhitespace(a + b) == RemoveWhitespace(a) + RemoveWhitespace(b)
    decreases |a|
  {
    if a == [] {
      assert a + b == b;
    } else {
      assert (a + b)[0] == a[0] && (a + b)[1..] == a[1..] + b;
      RemoveWhitespaceAppend(a[1..], b);
    }
  }

  function StartsWith(s: string, prefix: string): bool {
    |prefix| <= |s| && s[..|prefix|] == prefix
  }

  /** `s.split(c)` for a one-character separator: never empty, and no piece holds `c`. */
  function Split(s: string, c: char): (r: seq<string>)
    ensures |r| >= 1
    ensures forall i :: 0 <= i < |r| ==> c !in r[i]
  {
    if s == [] then [""]
    else
      var rest := Split(s[1..], c);
      if s[0] == c then [""] + rest else [[s[0]] + rest[0]] + rest[1..]
  }

  /** `xs.join(sep)`. */
  function Join(xs: seq<string>, sep: string): string {
    if |xs| == 0 then ""
    else if |xs| == 1 then xs[0]
    else xs[0] + sep + Join(xs[1..], sep)
  }

  /** Splitting a string and joining the pieces with the same separator gives the string back. */
  lemma {:induction false} JoinSplit(s: string, c: char)
    ensures Join(Split(s, c), [c]) == s
  {
    if s != [] {
      var rest := Split(s[1..], c);
      JoinSplit(s[1..], c);
      if s[0] == c {
        assert Split(s, c) == [""] + rest;
        assert Join([""] + rest, [c]) == "" + [c] + Join(rest, [c]);
      } else {
        var r := Split(s, c);
        assert r == [[s[0]] + rest[0]] + rest[1..];
        if |rest| == 1 {
          assert Join(r, [c]) == [s[0]] + rest[0];
        } else {
          assert r[1..] == rest[1..];
          assert Join(rest, [c]) == rest[0] + [c] + Join(rest[1..], [c]);
          assert Join(r, [c]) == [s[0]] + rest[0] + [c] + Join(rest[1..], [c]);
        }
      }
    }
  }

  /** A piece free of the separator, followed by the rest of the string, splits into that
      piece glued to the first piece of the rest. */
  lemma {:induction false} SplitPrefix(x: string, t: string, c: char)
    requires c !in x
    ensures Split(x + t, c) == [x + Split(t, c)[0]] + Split(t, c)[1..]
  {
    if x != [] {
      assert (x + t)[1..] == x[1..] + t;
      SplitPrefix(x[1..], t, c);
      var rest := Split(x[1..] + t, c);
      assert x[0] != c;
      assert Split(x + t, c) == [[x[0]] + rest[0]] + rest[1..];
      assert rest[1..] == Split(t, c)[1..];
      assert [x[0]] + rest[0] == x + Split(t, c)[0];
    } else {
      assert x + t == t;
      assert x + Split(t, c)[0] == Split(t, c)[0];
      assert Split(t, c) == [Split(t, c)[0]] + Split(t, c)[1..];
    }
  }

  /** Joining pieces that do not contain the separator and splitting again gives the pieces back. */
  lemma {:induction false} SplitJoin(xs: seq<string>, c: char)
    requires |xs| >= 1
    requires forall i :: 0 <= i < |xs| ==> c !in xs[i]
    ensures Split(Join(xs, [c]), c) == xs
  {
    if |xs| == 1 {
      SplitPrefix(xs[0], "", c);
      assert xs[0] + "" == xs[0];
    } else {
      var tail := Join(xs[1..], [c]);
      SplitJoin(xs[1..], c);
      assert Join(xs, [c]) == xs[0] + ([c] + tail);
      SplitPrefix(xs[0], [c] + tail, c);
      assert ([c] + tail)[1..] == tail;
      assert Split([c] + tail, c) == [""] + Split(tail, c);
      assert xs[0] + "" == xs[0];
      assert xs == [xs[0]] + xs[1..];
    }
  }

  /** `s.substr(start)`: a negative start counts from the end and is clamped at 0. */
  function SubstrFrom(s: string, start: int): (r: string)
    ensures 0 <= start <= |s| ==> r == s[start..]
    ensures start < 0 ==> r == s[if |s| + start < 0 then 0 else |s| + start..]
  {
    var from := if start < 0 then (if |s| + start < 0 then 0 else |s| + start)
                else if start > |s| then |s| else start;
    s[from..]
  }

  /** `s.slice(0, -k)`: all but the last `k` characters, or nothing. */
  function DropLast(s: string, k: nat): (r: string)
    ensures |s| >= k ==> r == s[..|s| - k] && |r| == |s| - k
    ensures |s| < k ==> r == ""
  {
    if |s| < k then "" else s[..|s| - k]
  }

  /** `toLowerCase` on one character. Only ASCII letters and the Kelvin sign, which
      lower-cases to ASCII 'k', are mapped: no other character lower-cases to a digit,
      whitespace, a line terminator, 'm', 'p', 'x' or 'k', the characters a distance
      literal is read by. */
  function LowerChar(c: char): (r: char)
    ensures 'A' <= c <= 'Z' ==> r == (c as int + 32) as char
    ensures !('A' <= c <= 'Z') && c != '\U{212A}' ==> r == c
    ensures !('A' <= r <= 'Z')
  {
    if 'A' <= c <= 'Z' then (c as int + 32) as char
    else if c == '\U{212A}' then 'k'
    else c
  }

  function Lower(s: string): (r: string)
    ensures |r| == |s|
    ensures forall i :: 0 <= i < |s| ==> r[i] == LowerChar(s[i])
  {
    if s == [] then [] else [LowerChar(s[0])] + Lower(s[1..])
  }

  /** Lower-casing twice is lower-casing once. */
  lemma LowerIdempotent(s: string)
    ensures Lower(Lower(s)) == Lower(s)
  {
  }

  function DigitValue(c: char): nat
    requires IsDigit(c)
  {
    c as int - '0' as int
  }

  function DigitChar(d: nat): (c: char)
    requires d < 10
    ensures IsDigit(c) && DigitValue(c) == d
  {
    ('0' as int + d) as char
  }

  predicate AllDigits(s: string) {
    forall i :: 0 <= i < |s| ==> IsDigit(s[i])
  }

  /** The number a run of decimal digits denotes (`parseFloat` of such a run). */
  function DigitsValue(s: string): nat
    requires AllDigits(s)
  {
    if s == [] then 0 else DigitsValue(s[..|s| - 1]) * 10 + DigitValue(s[|s| - 1])
  }

  /** The decimal rendering of a natural number, as `${n}` gives it. */
  function NatToString(n: nat): (r: string)
    ensures r != [] && AllDigits(r)
  {
    if n < 10 then [DigitChar(n)] else NatToString(n / 10) + [DigitChar(n % 10)]
  }

  /** The decimal rendering of an integer, with a leading '-' for a negative one. */
  function IntToString(i: int): string {
    if i < 0 then "-" + NatToString(-i) else NatToString(i)
  }

  /** Reading back the decimal rendering of a number gives the number. */
  lemma {:induction false} DigitsValueOfNatToString(n: nat)
    ensures DigitsValue(NatToString(n)) == n
  {
    if n >= 10 {
      var r := NatToString(n);
      DigitsValueOfNatToString(n / 10);
      assert r[..|r| - 1] == NatToString(n / 10);
    }
  }
}
