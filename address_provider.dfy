/** Reverse geocoding text: the request URL for the Nominatim service and the
    multi-line address made from its answer. The fetch itself is not modelled. */
module AddressProvider {
  import opened JsStrings

  /** The address parts the service may return; each may be missing. */
  datatype Address = Address(
    houseNumber: Option<string>,
    road: Option<string>,
    neighbourhood: Option<string>,
    suburb: Option<string>,
    hamlet: Option<string>,
    cityDistrict: Option<string>,
    village: Option<string>,
    town: Option<string>,
    city: Option<string>,
    county: Option<string>,
    stateDistrict: Option<string>,
    state: Option<string>,
    postcode: Option<string>,
    country: Option<string>)

  datatype NominatimResponse = NominatimResponse(name: Option<string>, address: Address)

  /** JavaScript truthiness of an optional string: present and not empty. */
  predicate Present(v: Option<string>) {
    v.Some? && v.value != ""
  }

  /** `values.filter((v) => !!v)`: the present values, in order. */
  function Kept(values: seq<Option<string>>): (r: seq<string>)
    ensures |r| <= |values|
    ensures forall i :: 0 <= i < |r| ==> r[i] != ""
    ensures |r| == 0 <==> forall i :: 0 <= i < |values| ==> !Present(values[i])
  {
    if values == [] then []
    else (if Present(values[0]) then [values[0].value] else []) + Kept(values[1..])
  }

  /** `joinNotNull(separator, ...values)`: the present values joined by the separator. */
  function JoinNotNull(separator: string, values: seq<Option<string>>): (r: string)
    ensures r == "" <==> forall i :: 0 <= i < |values| ==> !Present(values[i])
  {
    var kept := Kept(values);
    if |kept| == 0 then "" else JoinStartsWithFirst(kept, separator); Join(kept, separator)
  }

  /** A join of at least one piece begins with its first piece. */
  lemma JoinStartsWithFirst(xs: seq<string>, separator: string)
    requires |xs| >= 1
    ensures |Join(xs, separator)| >= |xs[0]|
    ensures Join(xs, separator)[..|xs[0]|] == xs[0]
  {
    if |xs| > 1 {
      var rest := separator + Join(xs[1..], separator);
      assert Join(xs, separator) == xs[0] + rest;
    }
  }

  /** Filtering one more value at the end keeps it exactly when it is present. */
  lemma {:induction false} KeptSnoc(values: seq<Option<string>>, v: Option<string>)
    ensures Kept(values + [v]) == Kept(values) + (if Present(v) then [v.value] else [])
  {
    if values != [] {
      assert (values + [v])[1..] == values[1..] + [v];
      KeptSnoc(values[1..], v);
    }
  }

  /** A join with one more piece at the end. */
  lemma {:induction false} JoinSnoc(xs: seq<string>, x: string, separator: string)
    requires |xs| >= 1
    ensures Join(xs + [x], separator) == Join(xs, separator) + separator + x
  {
    if |xs| == 1 {
      assert Join([x], separator) == x;
      assert (xs + [x])[1..] == [x];
    } else {
      assert (xs + [x])[1..] == xs[1..] + [x];
      JoinSnoc(xs[1..], x, separator);
    }
  }

  /** Adding a value at the end: an absent value changes nothing; a present one is appended,
      after the separator unless nothing came before it. */
  lemma JoinNotNullSnoc(separator: string, values: seq<Option<string>>, v: Option<string>)
    ensures !Present(v) ==> JoinNotNull(separator, values + [v]) == JoinNotNull(separator, values)
    ensures Present(v) && JoinNotNull(separator, values) == "" ==> JoinNotNull(separator, values + [v]) == v.value
    ensures Present(v) && JoinNotNull(separator, values) != ""
            ==> JoinNotNull(separator, values + [v]) == JoinNotNull(separator, values) + separator + v.value
  {
    KeptSnoc(values, v);
    var kept := Kept(values);
    if !Present(v) {
      assert kept + [] == kept;
    } else if |kept| > 0 {
      JoinSnoc(kept, v.value, separator);
    }
  }

  /** Two values join to nothing exactly when neither is present. */
  lemma JoinNotNullPair(separator: string, x: Option<string>, y: Option<string>)
    ensures JoinNotNull(separator, [x, y]) == "" <==> !Present(x) && !Present(y)
  {
    var values := [x, y];
    assert values[0] == x && values[1] == y;
  }

  /** `a || b` on optional strings. */
  function Or(a: Option<string>, b: Option<string>): Option<string> {
    if Present(a) then a else b
  }

  /** `city || town || village || hamlet`: the first present one of the four, or the
      hamlet value as it is when none is present. */
  function Locality(a: Address): (r: Option<string>)
    ensures Present(r) <==> Present(a.city) || Present(a.town) || Present(a.village) || Present(a.hamlet)
    ensures Present(a.city) ==> r == a.city
    ensures !Present(a.city) && Present(a.town) ==> r == a.town
    ensures !Present(a.city) && !Present(a.town) && Present(a.village) ==> r == a.village
    ensures !Present(a.city) && !Present(a.town) && !Present(a.village) ==> r == a.hamlet
  {
    Or(a.city, Or(a.town, Or(a.village, a.hamlet)))
  }

  /** The nine lines of an address, before empty ones are dropped. */
  function AddressLines(response: NominatimResponse): seq<Option<string>> {
    var a := response.address;
    [ Some(JoinNotNull(" ", [response.name])),
      Some(JoinNotNull(" ", [a.road, a.houseNumber])),
      Some(JoinNotNull(" ", [a.suburb])),
      Some(JoinNotNull(" ", [a.cityDistrict])),
      Some(JoinNotNull(" ", [a.postcode, Locality(a)])),
      Some(JoinNotNull(" ", [a.county])),
      Some(JoinNotNull(" ", [a.stateDistrict])),
      Some(JoinNotNull(" ", [a.state])),
      Some(JoinNotNull(" ", [a.country])) ]
  }

  /** Every field that `formatAddress` shows. */
  predicate AnyShownField(response: NominatimResponse) {
    var a := response.address;
    Present(response.name) || Present(a.road) || Present(a.houseNumber) || Present(a.suburb)
    || Present(a.cityDistrict) || Present(a.postcode) || Present(Locality(a)) || Present(a.county)
    || Present(a.stateDistrict) || Present(a.state) || Present(a.country)
  }

  /** `formatAddress`: the non-empty lines joined with "<br>". The text is empty exactly when
      none of the shown fields is present. */
  function FormatAddress(response: NominatimResponse): (r: string)
    ensures r == "" <==> !AnyShownField(response)
  {
    var lines := AddressLines(response);
    LinesPresent(response);
    JoinNotNull("<br>", lines)
  }

  /** A line is present exactly when one of the fields it shows is. */
  lemma LinesPresent(response: NominatimResponse)
    ensures (forall i :: 0 <= i < 9 ==> !Present(AddressLines(response)[i])) <==> !AnyShownField(response)
  {
    var lines := AddressLines(response);
    LineByLine(response);
    if AnyShownField(response) {
      assert exists i :: 0 <= i < 9 && Present(lines[i]);
    }
  }

  lemma LineByLine(response: NominatimResponse)
    ensures var lines := AddressLines(response);
            var a := response.address;
            (Present(lines[0]) <==> Present(response.name))
            && (Present(lines[1]) <==> Present(a.road) || Present(a.houseNumber))
            && (Present(lines[2]) <==> Present(a.suburb))
            && (Present(lines[3]) <==> Present(a.cityDistrict))
            && (Present(lines[4]) <==> Present(a.postcode) || Present(Locality(a)))
            && (Present(lines[5]) <==> Present(a.county))
            && (Present(lines[6]) <==> Present(a.stateDistrict))
            && (Present(lines[7]) <==> Present(a.state))
            && (Present(lines[8]) <==> Present(a.country))
  {
    var a := response.address;
    JoinNotNullPair(" ", a.road, a.houseNumber);
    JoinNotNullPair(" ", a.postcode, Locality(a));
  }

  /** The neighbourhood is never shown: changing it leaves the text as it was. */
  lemma NeighbourhoodIgnored(response: NominatimResponse, n: Option<string>)
    ensures FormatAddress(response.(address := response.address.(neighbourhood := n))) == FormatAddress(response)
  {
    var other := response.(address := response.address.(neighbourhood := n));
    assert AddressLines(other) == AddressLines(response);
  }

  /** Road and house number share one line, road first. */
  lemma RoadLine(response: NominatimResponse)
    requires Present(response.address.road) && Present(response.address.houseNumber)
    ensures AddressLines(response)[1] == Some(response.address.road.value + " " + response.address.houseNumber.value)
  {
    JoinNotNullBoth(" ", response.address.road, response.address.houseNumber);
  }

  /** Two present values are joined with the separator between them. */
  lemma JoinNotNullBoth(separator: string, x: Option<string>, y: Option<string>)
    requires Present(x) && Present(y)
    ensures JoinNotNull(separator, [x, y]) == x.value + separator + y.value
  {
    assert Kept([x]) == [x.value];
    JoinNotNullSnoc(separator, [x], y);
    assert [x] + [y] == [x, y];
  }

  /** The address part of an answer with only a road, a house number, a town and a country. */
  function SampleAddress(): Address {
    Address(Some("12"), Some("Elm Street"), Some("Centre"), None, None, None, None, Some("Town"),
            None, None, None, None, None, Some("Land"))
  }

  /** That answer gives three non-empty lines: the road with its number, the town (the
      city being absent) and the country; the neighbourhood is left out. */
  lemma SampleAddressLines()
    ensures AddressLines(NominatimResponse(None, SampleAddress()))
            == [Some(""), Some("Elm Street 12"), Some(""), Some(""), Some("Town"),
                Some(""), Some(""), Some(""), Some("Land")]
  {
    var r := NominatimResponse(None, SampleAddress());
    var lines := AddressLines(r);
    SampleRoadLine();
    SampleTownLine();
    JoinNotNullSnoc(" ", [], Some("Land"));
    assert [] + [Some("Land")] == [Some("Land")];
  }

  lemma SampleRoadLine()
    ensures AddressLines(NominatimResponse(None, SampleAddress()))[1] == Some("Elm Street 12")
  {
    RoadLine(NominatimResponse(None, SampleAddress()));
    assert "Elm Street" + " " + "12" == "Elm Street 12";
  }

  lemma SampleTownLine()
    ensures AddressLines(NominatimResponse(None, SampleAddress()))[4] == Some("Town")
  {
    assert Locality(SampleAddress()) == Some("Town");
    JoinNotNullSnoc(" ", [None], Some("Town"));
    assert [None] + [Some("Town")] == [SampleAddress().postcode, Locality(SampleAddress())];
  }

  /** Only those three lines are kept, in order. */
  lemma SampleAddressKept()
    ensures Kept(AddressLines(NominatimResponse(None, SampleAddress()))) == ["Elm Street 12", "Town", "Land"]
  {
    SampleAddressLines();
    KeptOfThreeLines("Elm Street 12", "Town", "Land");
  }

  /** The sample answer renders as its three lines separated by "<br>". */
  lemma SampleAddressText()
    ensures FormatAddress(NominatimResponse(None, SampleAddress())) == "Elm Street 12<br>Town<br>Land"
  {
    SampleAddressKept();
    FormatAddressOfKept(NominatimResponse(None, SampleAddress()), ["Elm Street 12", "Town", "Land"]);
    JoinThree("Elm Street 12", "Town", "Land", "<br>");
    SampleText();
  }

  /** The sample's three lines and separators, spelled out. */
  lemma SampleText()
    ensures "Elm Street 12" + "<br>" + "Town" + "<br>" + "Land" == "Elm Street 12<br>Town<br>Land"
  {
  }

  /** With the kept lines known and not all empty, the text is those lines joined by "<br>". */
  lemma FormatAddressOfKept(response: NominatimResponse, kept: seq<string>)
    requires Kept(AddressLines(response)) == kept && kept != []
    ensures FormatAddress(response) == Join(kept, "<br>")
  {
  }

  /** Three pieces joined with a separator. */
  lemma JoinThree(a: string, b: string, c: string, separator: string)
    ensures Join([a, b, c], separator) == a + separator + b + separator + c
  {
    var xs := [a, b, c];
    assert xs[1..] == [b, c] && [b, c][1..] == [c];
    assert Join([c], separator) == c;
    assert Join([b, c], separator) == b + separator + c;
    assert Join(xs, separator) == a + separator + (b + separator + c);
  }

  /** Nine lines of which only the second, fifth and ninth are non-empty keep exactly those. */
  lemma KeptOfThreeLines(a: string, b: string, c: string)
    requires a != "" && b != "" && c != ""
    ensures Kept([Some(""), Some(a), Some(""), Some(""), Some(b), Some(""), Some(""), Some(""), Some(c)])
            == [a, b, c]
  {
    var tail := [Some(b), Some(""), Some(""), Some(""), Some(c)];
    KeptOfTail(b, c);
    KeptOfHead(a, tail);
    assert [Some(""), Some(a), Some(""), Some("")] + tail
        == [Some(""), Some(a), Some(""), Some(""), Some(b), Some(""), Some(""), Some(""), Some(c)];
  }

  lemma KeptOfTail(b: string, c: string)
    requires b != "" && c != ""
    ensures Kept([Some(b), Some(""), Some(""), Some(""), Some(c)]) == [b, c]
  {
    var t := [Some(b), Some(""), Some(""), Some(""), Some(c)];
    assert Kept(t[4..]) == [c];
    assert Kept(t[3..]) == [c];
    assert Kept(t[2..]) == [c];
    assert Kept(t[1..]) == [c];
  }

  lemma KeptOfHead(a: string, rest: seq<Option<string>>)
    requires a != ""
    ensures Kept([Some(""), Some(a), Some(""), Some("")] + rest) == [a] + Kept(rest)
  {
    var t := [Some(""), Some(a), Some(""), Some("")] + rest;
    assert t[3..][1..] == rest;
    assert Kept(t[3..]) == Kept(rest);
    assert t[2..][1..] == t[3..];
    assert Kept(t[2..]) == Kept(rest);
    assert t[1..][1..] == t[2..];
    assert Kept(t[1..]) == [a] + Kept(rest);
  }

  /** The start of every request URL. */
  const NominatimBase: string := "https://nominatim.openstreetmap.org/reverse?"

  /** The query object, key by key in its declaration order, with numbers written out by
      `numberText`. */
  function QueryParameters(lat: real, lon: real, language: string, numberText: real -> string): seq<string> {
    [ "format=jsonv2",
      "accept-language=" + language,
      "lat=" + numberText(lat),
      "lon=" + numberText(lon),
      "zoom=18",
      "addressdetails=1" ]
  }

  /** `getNominatimUrl(latLng, language)`: the base followed by the parameters joined with
      "&". The language is inserted as it is. */
  function NominatimUrl(lat: real, lon: real, language: string, numberText: real -> string): (r: string)
    ensures |r| >= |NominatimBase| && r[..|NominatimBase|] == NominatimBase
  {
    var r := NominatimBase + Join(QueryParameters(lat, lon, language, numberText), "&");
    assert r[..|NominatimBase|] == NominatimBase;
    r
  }

  /** When neither the language nor the written coordinates contain "&", cutting the query
      part of the URL at every "&" gives back the six parameters in order. */
  lemma NominatimUrlParameters(lat: real, lon: real, language: string, numberText: real -> string)
    requires '&' !in language && '&' !in numberText(lat) && '&' !in numberText(lon)
    ensures var r := NominatimUrl(lat, lon, language, numberText);
            Split(r[|NominatimBase|..], '&') == QueryParameters(lat, lon, language, numberText)
  {
    var ps := QueryParameters(lat, lon, language, numberText);
    assert forall i :: 0 <= i < |ps| ==> '&' !in ps[i] by {
      assert '&' !in "format=jsonv2" && '&' !in "zoom=18" && '&' !in "addressdetails=1";
      assert '&' !in "accept-language=" && '&' !in "lat=" && '&' !in "lon=";
    }
    SplitJoin(ps, '&');
    var r := NominatimUrl(lat, lon, language, numberText);
    assert r[|NominatimBase|..] == Join(ps, "&");
  }
}
