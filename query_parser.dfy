/** Reading a location record from a URL query string, either as positional
    comma-separated values after `q=` or as `key=value` pairs joined by `&`.
    The record starts from fixed defaults and each recognised field is stored
    with the type its name calls for. `parseFloat`, `Date.parse` and the
    percent-decoding of `decodeURIComponent` are supplied by the host; the
    clock reading used for the default date is a parameter. */
module QueryParser {
  import opened JsStrings

  datatype Provider = UNKNOWN | GPS | NETWORK

  /** A JavaScript number as far as this parser can tell: a value, or NaN. */
  datatype Number = NaN | Finite(x: real)

  /** What a record field may hold. */
  datatype Value = Num(n: Number) | DateValue(t: Number) | Prov(p: Provider) | Text(s: string) | Flag(b: bool)

  /** The built-ins the parser calls: `parseFloat`, `Date.parse`, and the decoding
      `decodeURIComponent` performs on text that holds a '%'. */
  datatype Host = Host(parseFloat: string -> Number, dateParse: string -> Number, decodePercent: string -> string)

  /** `decodeURIComponent`: text without any '%' comes back unchanged. */
  function Decode(host: Host, s: string): (r: string)
    ensures '%' !in s ==> r == s
  {
    if '%' in s then host.decodePercent(s) else s
  }

  /** The field `k` of a record, if the record has one. */
  function Lookup(fields: map<string, Value>, k: string): Option<Value> {
    if k in fields then Some(fields[k]) else None
  }

  /** The fields stored as numbers. */
  const NumberKeys: set<string> := {"lat", "lng", "alt", "radius", "bearing", "speed", "dbg"}

  /** The field each comma-separated position goes to. */
  const Positions: seq<string> := ["date", "provider", "lat", "lng", "alt", "radius", "name", "phone",
                                   "bearing", "speed", "dbg"]

  /** A fresh record. Bearing and speed are declared without an initial value, so the record
      has no such fields until they are assigned. */
  function Defaults(now: real): (m: map<string, Value>)
    ensures "bearing" !in m && "speed" !in m
    ensures Lookup(m, "provider") == Some(Prov(UNKNOWN))
    ensures Lookup(m, "date") == Some(DateValue(Finite(now)))
  {
    map[
      "date" := DateValue(Finite(now)),
      "provider" := Prov(UNKNOWN),
      "lat" := Num(Finite(53.4296143)),
      "lng" := Num(Finite(14.5445406)),
      "alt" := Num(Finite(37.0)),
      "radius" := Num(Finite(750.0)),
      "name" := Text("Frania Bąbolewska"),
      "phone" := Text("+48123456789"),
      "hasStreetView" := Flag(false),
      "dbg" := Num(Finite(0.0))
    ]
  }

  /** The record's own fields together with bearing and speed. */
  const AllowedKeys: set<string> := {"date", "provider", "lat", "lng", "alt", "radius", "name", "phone",
                                     "hasStreetView", "dbg", "bearing", "speed"}

  /** `parseValue(output, key, value)` on the record's fields: numbers for the numeric
      fields, a date for `date`, GPS or NETWORK for `provider` (any other provider text
      changes nothing), and the text itself for any other key. No other field changes. */
  function StoreValue(fields: map<string, Value>, key: string, value: string, host: Host): (r: map<string, Value>)
    ensures forall k :: k != key ==> Lookup(r, k) == Lookup(fields, k)
    ensures key in NumberKeys ==> Lookup(r, key) == Some(Num(host.parseFloat(value)))
    ensures key == "date" ==> Lookup(r, key) == Some(DateValue(host.dateParse(value)))
    ensures key == "provider" && value == "gps" ==> Lookup(r, key) == Some(Prov(GPS))
    ensures key == "provider" && value == "network" ==> Lookup(r, key) == Some(Prov(NETWORK))
    ensures key == "provider" && value != "gps" && value != "network" ==> r == fields
    ensures key !in NumberKeys && key != "date" && key != "provider" ==> Lookup(r, key) == Some(Text(value))
  {
    if key in NumberKeys then fields[key := Num(host.parseFloat(value))]
    else if key == "date" then fields[key := DateValue(host.dateParse(value))]
    else if key == "provider" then
      if value == "gps" then fields[key := Prov(GPS)]
      else if value == "network" then fields[key := Prov(NETWORK)]
      else fields
    else fields[key := Text(value)]
  }

  /** The record being filled in, updated in place. */
  class ParsedQuery {
    var fields: map<string, Value>

    /** `new ParsedQuery()`, read at clock time `now`. */
    constructor (now: real)
      ensures fields == Defaults(now)
    {
      fields := Defaults(now);
    }

    /** `parseValue(this, key, value)`: stores one field and returns the same record. */
    method ParseValue(key: string, value: string, host: Host) returns (r: ParsedQuery)
      modifies this
      ensures r == this
      ensures fields == StoreValue(old(fields), key, value, host)
    {
      if key in NumberKeys {
        fields := fields[key := Num(host.parseFloat(value))];
      } else if key == "date" {
        fields := fields[key := DateValue(host.dateParse(value))];
      } else if key == "provider" {
        if value == "gps" {
          fields := fields[key := Prov(GPS)];
        } else if value == "network" {
          fields := fields[key := Prov(NETWORK)];
        }
      } else {
        fields := fields[key := Text(value)];
      }
      r := this;
    }
  }

  /** One comma-separated entry at `position`: entries past the last position and entries
      that decode to nothing leave the record as it is. */
  function CsvStep(fields: map<string, Value>, entry: string, position: nat, host: Host): (r: map<string, Value>)
    ensures position >= |Positions| ==> r == fields
    ensures Decode(host, entry) == "" ==> r == fields
    ensures forall k :: (position >= |Positions| || k != Positions[position]) ==> Lookup(r, k) == Lookup(fields, k)
  {
    if position < |Positions| then
      var value := Decode(host, entry);
      if value != "" then StoreValue(fields, Positions[position], value, host) else fields
    else fields
  }

  /** The `reduce` over the entries, from the first to the last. */
  function CsvFold(fields: map<string, Value>, entries: seq<string>, host: Host): map<string, Value>
    decreases |entries|
  {
    if entries == [] then fields
    else CsvStep(CsvFold(fields, entries[..|entries| - 1], host), entries[|entries| - 1], |entries| - 1, host)
  }

  /** `csv.replace(/^q[\=]/, '')`. */
  function CsvBody(csv: string): (r: string)
    ensures StartsWith(csv, "q=") ==> csv == "q=" + r
    ensures !StartsWith(csv, "q=") ==> r == csv
  {
    if StartsWith(csv, "q=") then csv[2..] else csv
  }

  /** The record `parseCSVQuery(csv)` builds. */
  function CsvFields(csv: string, now: real, host: Host): map<string, Value> {
    CsvFold(Defaults(now), Split(CsvBody(csv), ','), host)
  }

  /** `parseCSVQuery`: a fresh record, then each entry in turn. */
  method ParseCSVQuery(csv: string, now: real, host: Host) returns (state: ParsedQuery)
    ensures fresh(state)
    ensures state.fields == CsvFields(csv, now, host)
  {
    var positionMapping := Positions;
    var entries := Split(CsvBody(csv), ',');
    state := new ParsedQuery(now);
    for position := 0 to |entries|
      invariant fresh(state)
      invariant state.fields == CsvFold(Defaults(now), entries[..position], host)
    {
      assert entries[..position + 1][..position] == entries[..position];
      if position < |positionMapping| {
        var key := positionMapping[position];
        var value := Decode(host, entries[position]);
        if value != "" {
          state := state.ParseValue(key, value, host);
        }
      }
    }
    assert entries[..|entries|] == entries;
  }

  /** The value part of a pair split at '=': the text after the first '=' up to the next
      one, or "undefined" (what `decodeURIComponent(undefined)` gives) when there is no '='. */
  function PairValue(pair: seq<string>, host: Host): string {
    if |pair| >= 2 then Decode(host, pair[1]) else "undefined"
  }

  /** The key part of a pair. */
  function PairKey(pairString: string, host: Host): string {
    Decode(host, Split(pairString, '=')[0])
  }

  /** One `key=value` pair: keys that are not allowed leave the record as it is. */
  function ObjectStep(fields: map<string, Value>, pairString: string, host: Host): (r: map<string, Value>)
    ensures PairKey(pairString, host) !in AllowedKeys ==> r == fields
    ensures forall k :: k != PairKey(pairString, host) ==> Lookup(r, k) == Lookup(fields, k)
  {
    var pair := Split(pairString, '=');
    var key := Decode(host, pair[0]);
    if key in AllowedKeys then StoreValue(fields, key, PairValue(pair, host), host) else fields
  }

  /** The `reduce` over the pairs, from the first to the last. */
  function ObjectFold(fields: map<string, Value>, pairs: seq<string>, host: Host): map<string, Value>
    decreases |pairs|
  {
    if pairs == [] then fields
    else ObjectStep(ObjectFold(fields, pairs[..|pairs| - 1], host), pairs[|pairs| - 1], host)
  }

  /** The record `parseObjectQuery(q)` builds. */
  function ObjectFields(q: string, now: real, host: Host): map<string, Value> {
    ObjectFold(Defaults(now), Split(q, '&'), host)
  }

  /** The keys of a fresh record once bearing and speed are set on it are the allowed keys. */
  lemma AllowedKeysOfRecord(now: real)
    ensures Defaults(now)["speed" := Num(Finite(0.0))]["bearing" := Num(Finite(0.0))].Keys == AllowedKeys
  {
  }

  /** `const allowed = new ParsedQuery(); allowed.bearing = allowed.speed = 0;`: the keys of
      that record. */
  method AllowedRecordKeys(now: real) returns (keys: set<string>)
    ensures keys == AllowedKeys
  {
    var allowed := new ParsedQuery(now);
    allowed.fields := allowed.fields["speed" := Num(Finite(0.0))];
    allowed.fields := allowed.fields["bearing" := Num(Finite(0.0))];
    AllowedKeysOfRecord(now);
    keys := allowed.fields.Keys;
  }

  /** `parseObjectQuery`: the allowed keys are those of a fresh record once bearing and speed
      are set on it; then each pair in turn. */
  method ParseObjectQuery(q: string, now: real, host: Host) returns (state: ParsedQuery)
    ensures fresh(state)
    ensures state.fields == ObjectFields(q, now, host)
  {
    var allowedKeys := AllowedRecordKeys(now);
    var pairs := Split(q, '&');
    state := new ParsedQuery(now);
    for i := 0 to |pairs|
      invariant fresh(state)
      invariant state.fields == ObjectFold(Defaults(now), pairs[..i], host)
    {
      assert pairs[..i + 1][..i] == pairs[..i];
      var pair := Split(pairs[i], '=');
      var key := Decode(host, pair[0]);
      if key in allowedKeys {
        var value := if |pair| >= 2 then Decode(host, pair[1]) else "undefined";
        state := state.ParseValue(key, value, host);
      }
    }
    assert pairs[..|pairs|] == pairs;
  }

  /** `queryString.trim().replace(/^\?/, '')`. */
  function QueryText(queryString: string): (r: string)
    ensures var t := Trim(queryString); r == t || (StartsWith(t, "?") && t == "?" + r)
  {
    var t := Trim(queryString);
    if StartsWith(t, "?") then t[1..] else t
  }

  /** The record `parseQuery(queryString)` returns: positional values when the text starts
      with "q=", pairs otherwise. */
  function QueryFields(queryString: string, now: real, host: Host): map<string, Value> {
    var q := QueryText(queryString);
    if StartsWith(q, "q=") then CsvFields(q, now, host) else ObjectFields(q, now, host)
  }

  /** `parseQuery`. */
  method ParseQuery(queryString: string, now: real, host: Host) returns (r: ParsedQuery)
    ensures fresh(r)
    ensures r.fields == QueryFields(queryString, now, host)
  {
    var q := QueryText(queryString);
    if StartsWith(q, "q=") {
      r := ParseCSVQuery(q, now, host);
    } else {
      r := ParseObjectQuery(q, now, host);
    }
  }

  /** Surrounding whitespace is dropped, and so is one leading '?' but no more. */
  lemma QueryTextStripsPadding(pre: string, body: string, post: string)
    requires forall i :: 0 <= i < |pre| ==> IsWhitespace(pre[i])
    requires forall i :: 0 <= i < |post| ==> IsWhitespace(post[i])
    requires body == [] || !IsWhitespace(body[|body| - 1])
    ensures QueryText(pre + "?" + body + post) == body
    ensures body != [] && !IsWhitespace(body[0]) && body[0] != '?' ==> QueryText(pre + body + post) == body
  {
    var q := "?" + body;
    assert !IsWhitespace(q[0]) && !IsWhitespace(q[|q| - 1]);
    assert pre + "?" + body + post == pre + q + post;
    TrimPadded(pre, q, post);
    assert q[1..] == body;
    if body != [] && !IsWhitespace(body[0]) && body[0] != '?' {
      TrimPadded(pre, body, post);
    }
  }

  /** An empty query (after trimming and dropping a leading '?') yields exactly the defaults:
      its single empty pair has the empty key, which is not a field. */
  lemma EmptyQueryGivesDefaults(queryString: string, now: real, host: Host)
    requires QueryText(queryString) == ""
    ensures QueryFields(queryString, now, host) == Defaults(now)
  {
    EmptyPairsChangeNothing(Defaults(now), host);
  }

  /** The text "" is one empty pair, and a pair with the empty key stores nothing. */
  lemma EmptyPairsChangeNothing(fields: map<string, Value>, host: Host)
    ensures ObjectFold(fields, Split("", '&'), host) == fields
  {
    assert Split("", '&') == [""];
    assert Split("", '=') == [""];
    assert PairKey("", host) == "";
    assert ObjectFold(fields, [""], host) == ObjectStep(fields, "", host);
  }

  /** The empty string itself is such a query. */
  lemma EmptyStringGivesDefaults(now: real, host: Host)
    ensures QueryFields("", now, host) == Defaults(now)
  {
    assert Trim("") == "";
    EmptyQueryGivesDefaults("", now, host);
  }

  /** Every position is written only by its own entry: the field at position `i` ends up as
      that entry alone makes it. */
  lemma {:induction false} CsvFoldAtPosition(fields: map<string, Value>, entries: seq<string>, i: nat, host: Host)
    requires i < |entries| && i < |Positions|
    ensures Lookup(CsvFold(fields, entries, host), Positions[i])
            == Lookup(CsvStep(fields, entries[i], i, host), Positions[i])
    decreases |entries|
  {
    var n := |entries| - 1;
    var init := entries[..n];
    if i < n {
      assert init[i] == entries[i];
      CsvFoldAtPosition(fields, init, i, host);
      StepKeepsOtherPosition(CsvFold(fields, init, host), entries[n], n, i, host);
    } else {
      CsvFoldAtLast(fields, entries, host);
    }
  }

  /** The last entry decides the field at its own position. */
  lemma CsvFoldAtLast(fields: map<string, Value>, entries: seq<string>, host: Host)
    requires 0 < |entries| <= |Positions|
    ensures var n := |entries| - 1;
            Lookup(CsvFold(fields, entries, host), Positions[n])
            == Lookup(CsvStep(fields, entries[n], n, host), Positions[n])
  {
    var n := |entries| - 1;
    PositionsDistinct(n);
    CsvFoldElsewhere(fields, entries[..n], Positions[n], host);
  }

  /** An entry never changes the field of another position. */
  lemma StepKeepsOtherPosition(fields: map<string, Value>, entry: string, n: nat, i: nat, host: Host)
    requires i < |Positions| && i != n
    ensures Lookup(CsvStep(fields, entry, n, host), Positions[i]) == Lookup(fields, Positions[i])
  {
    if n < |Positions| {
      PositionIndexOfPositions(n);
      PositionIndexOfPositions(i);
    }
  }

  /** The positions before `i` name other fields. */
  lemma PositionsDistinct(i: nat)
    requires i < |Positions|
    ensures forall j :: 0 <= j < i ==> Positions[j] != Positions[i]
  {
    forall j | 0 <= j < i
      ensures Positions[j] != Positions[i]
    {
      PositionIndexOfPositions(j);
      PositionIndexOfPositions(i);
    }
  }

  /** Where a field sits among the positions; 11 for a field without a position. */
  function PositionIndex(k: string): nat {
    if k == "date" then 0 else if k == "provider" then 1 else if k == "lat" then 2
    else if k == "lng" then 3 else if k == "alt" then 4 else if k == "radius" then 5
    else if k == "name" then 6 else if k == "phone" then 7 else if k == "bearing" then 8
    else if k == "speed" then 9 else if k == "dbg" then 10 else 11
  }

  /** No field has two positions. */
  lemma PositionIndexOfPositions(i: nat)
    requires i < |Positions|
    ensures PositionIndex(Positions[i]) == i
  {
    if i == 0 {} else if i == 1 {} else if i == 2 {} else if i == 3 {} else if i == 4 {}
    else if i == 5 {} else if i == 6 {} else if i == 7 {} else if i == 8 {} else if i == 9 {}
  }

  /** A field whose position no entry reaches keeps the value it had. */
  lemma {:induction false} CsvFoldElsewhere(fields: map<string, Value>, entries: seq<string>, k: string, host: Host)
    requires forall i :: 0 <= i < |entries| && i < |Positions| ==> Positions[i] != k
    ensures Lookup(CsvFold(fields, entries, host), k) == Lookup(fields, k)
    decreases |entries|
  {
    if entries != [] {
      var n := |entries| - 1;
      CsvFoldElsewhere(fields, entries[..n], k, host);
    }
  }

  /** Entries past the eleventh are ignored. */
  lemma {:induction false} CsvFoldIgnoresExtra(fields: map<string, Value>, entries: seq<string>, host: Host)
    requires |entries| >= |Positions|
    ensures CsvFold(fields, entries, host) == CsvFold(fields, entries[..|Positions|], host)
    decreases |entries|
  {
    if |entries| > |Positions| {
      var n := |entries| - 1;
      assert CsvFold(fields, entries, host) == CsvStep(CsvFold(fields, entries[..n], host), entries[n], n, host);
      assert entries[..n][..|Positions|] == entries[..|Positions|];
      CsvFoldIgnoresExtra(fields, entries[..n], host);
    } else {
      assert entries[..|Positions|] == entries;
    }
  }

  /** Positional values: the field at position `i` holds what its entry stores; an entry that
      decodes to nothing keeps the default. */
  lemma CsvPosition(csv: string, now: real, host: Host, i: nat)
    requires var entries := Split(CsvBody(csv), ','); i < |entries| && i < |Positions|
    ensures var entries := Split(CsvBody(csv), ',');
            var value := Decode(host, entries[i]);
            Lookup(CsvFields(csv, now, host), Positions[i])
            == (if value == "" then Lookup(Defaults(now), Positions[i])
                else Lookup(StoreValue(Defaults(now), Positions[i], value, host), Positions[i]))
  {
    CsvFoldAtPosition(Defaults(now), Split(CsvBody(csv), ','), i, host);
  }

  /** Folding over two runs of pairs is folding over the first, then the second. */
  lemma {:induction false} ObjectFoldAppend(fields: map<string, Value>, a: seq<string>, b: seq<string>, host: Host)
    ensures ObjectFold(fields, a + b, host) == ObjectFold(ObjectFold(fields, a, host), b, host)
    decreases |b|
  {
    if b == [] {
      assert a + b == a;
    } else {
      var n := |b| - 1;
      assert (a + b)[..|a + b| - 1] == a + b[..n];
      ObjectFoldAppend(fields, a, b[..n], host);
    }
  }

  /** A field that no pair names keeps the value it had. */
  lemma {:induction false} ObjectFoldElsewhere(fields: map<string, Value>, pairs: seq<string>, k: string, host: Host)
    requires forall i :: 0 <= i < |pairs| ==> PairKey(pairs[i], host) != k
    ensures Lookup(ObjectFold(fields, pairs, host), k) == Lookup(fields, k)
    decreases |pairs|
  {
    if pairs != [] {
      ObjectFoldElsewhere(fields, pairs[..|pairs| - 1], k, host);
    }
  }

  /** The last pair that names a field decides it: later pairs with other keys change
      nothing about it. */
  lemma LastOccurrenceWins(fields: map<string, Value>, before: seq<string>, p: string, after: seq<string>, host: Host)
    requires forall i :: 0 <= i < |after| ==> PairKey(after[i], host) != PairKey(p, host)
    ensures var k := PairKey(p, host);
            Lookup(ObjectFold(fields, before + [p] + after, host), k)
            == Lookup(ObjectStep(ObjectFold(fields, before, host), p, host), k)
  {
    ObjectFoldAppend(fields, before + [p], after, host);
    ObjectFoldElsewhere(ObjectFold(fields, before + [p], host), after, PairKey(p, host), host);
    assert (before + [p])[..|before + [p]| - 1] == before;
  }

  /** Fields the query never names keep their defaults. */
  lemma UnmentionedKeepsDefault(q: string, now: real, host: Host, k: string)
    requires forall i :: 0 <= i < |Split(q, '&')| ==> PairKey(Split(q, '&')[i], host) != k
    ensures Lookup(ObjectFields(q, now, host), k) == Lookup(Defaults(now), k)
  {
    ObjectFoldElsewhere(Defaults(now), Split(q, '&'), k, host);
  }

  /** A pair without '=' cuts into one piece. */
  lemma SplitWithout(s: string, c: char)
    requires c !in s
    ensures Split(s, c) == [s]
  {
    SplitPrefix(s, "", c);
    assert s + "" == s;
  }

  /** The value of a pair is the text between its first and second '=': whatever follows a
      second '=' is dropped. */
  lemma PairBetweenEquals(key: string, value: string, tail: string)
    requires '=' !in key && '=' !in value
    requires tail == "" || tail[0] == '='
    ensures var pair := Split(key + "=" + value + tail, '=');
            |pair| >= 2 && pair[0] == key && pair[1] == value
  {
    var c := '=';
    var t := "=" + value + tail;
    assert key + "=" + value + tail == key + t;
    SplitPrefix(key, t, c);
    assert t[0] == c && t[1..] == value + tail;
    assert Split(t, c) == [""] + Split(value + tail, c);
    SplitPrefix(value, tail, c);
    if tail == "" {
      assert Split(tail, c)[0] == "";
    } else {
      assert Split(tail, c) == [""] + Split(tail[1..], c);
    }
  }

  /** For an allowed key without '=' and a value free of '=' and '%', the pair
      "key=value" stores `value` under `key` exactly as `parseValue` would. */
  lemma PairStoresValue(fields: map<string, Value>, key: string, value: string, host: Host)
    requires key in AllowedKeys && '%' !in key
    requires '=' !in key && '=' !in value && '%' !in value
    ensures ObjectStep(fields, key + "=" + value, host) == StoreValue(fields, key, value, host)
  {
    PairBetweenEquals(key, value, "");
    assert key + "=" + value + "" == key + "=" + value;
  }

  /** A pair with no '=' stores the text "undefined" under its key. */
  lemma PairWithoutValue(fields: map<string, Value>, key: string, host: Host)
    requires key in AllowedKeys && '%' !in key && '=' !in key
    ensures ObjectStep(fields, key, host) == StoreValue(fields, key, "undefined", host)
  {
    SplitWithout(key, '=');
  }
}
