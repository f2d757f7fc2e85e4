# Location page core, modelled in Dafny

This project models the non-visual core of a Leaflet page that shows a device's
location, given in the page's URL, on a map with a popup. The parts modelled are:

- **Distances** (`distances.dfy`, module `Distances`). Immutable distance objects hold a
  value and a unit. The meters-per-unit table covers metres, kilometres, feet, yards,
  miles and nautical miles. The module has the factory functions, `multiply`, and `to`.
  Pixel and natural distances are one class, `GenericDistance`, with a `kind` tag.
  When the source returns the receiver itself, the contract says `r == this`.
- **Speeds** (`speeds.dfy`, module `Speeds`). The same value-object pattern over m/s,
  km/h, mph and knots.
- **Query parsing** (`query_parser.dfy`, module `QueryParser`). A location record is read
  from a query string. There are two forms: positional comma-separated values after
  `q=`, and `key=value` pairs joined by `&`. The record is a class whose field map is
  updated in place, starting from the defaults. Each field is stored as a number, a
  date, a provider or raw text, depending on its name.
- **Popup text** (`popup.dfy`, module `Popup`):
  - `formatPhone`, an imperative loop proved against a function of its input;
  - the compass-sector and arrow lookup from a bearing;
  - the optional table row;
  - the optional accuracy suffix.
- **Address text** (`address_provider.dfy`, module `AddressProvider`):
  - `joinNotNull`;
  - the nine address lines of `formatAddress` and the fallback chain that picks the
    locality;
  - the reverse-geocoding request URL.
- **Distance literals** (`text_path.dfy`, module `TextPath`). `parseDistance` reads a
  leading run of digits, optional whitespace and a unit that is exactly `m` or `km`, in
  any case. It also holds the text-path option defaults.
- **Retrying** (`promise_retrier.dfy`, module `PromiseRetrier`). It counts the calls of a
  promise factory, given the outcome of each call, and builds the final rejection message.
- **JavaScript string built-ins** (`jsstrings.dfy`, module `JsStrings`). These are the ones
  the core relies on:
  - `trim`, with JavaScript's whitespace set;
  - `split` and `join` on one character;
  - `substr` with a negative start and `slice(0, -k)`;
  - `toLowerCase`;
  - decimal digit strings.

Quantities are exact reals.

The code has no conversion error type. A pixel distance cannot be converted to a
geographic unit, but only TypeScript's static types stop it (`src/distance.ts:51`,
`src/distance.ts:67`), so the model states this as preconditions of `To`.

Built-ins that depend on the host are parameters. A `Host` value supplies `parseFloat`,
`Date.parse` and the decoding of percent escapes. A `numberText` function stands for how a
number is written, and the current time is passed in as a `now` parameter.

## Model

| member | source | states |
|---|---|---|
| Distances.MetersPerUnit | src/distance.ts:12-20 | every natural unit has a positive number of metres per unit (m 1, km 1000, ft 0.3048, yd 0.9144, mi 1609.344, nm 1852) |
| Distances.GenericDistance.Natural | src/distance.ts:46-49 | a natural distance holds exactly the given value and unit |
| Distances.GenericDistance.Pixel | src/distance.ts:62-65 | a pixel distance holds the given value with unit PIXELS |
| Distances.GenericDistance.Multiply | src/distance.ts:34-39 | the result has value v*k and the same unit; it is the receiver itself exactly when k is 1, and otherwise a new natural distance, even for pixels |
| Distances.GenericDistance.To | src/distance.ts:51-58 | a natural distance converted to another natural unit has value v*ratio[source]/ratio[target] and the target unit; it is the receiver itself exactly when the unit is unchanged, or when the distance is in pixels (src/distance.ts:67-69) |
| Distances.Distance | src/distance.ts:102-108 | `distance(v, U)` has value v and unit U, and is a pixel distance exactly when U is PIXELS |
| Distances.Pixels | src/distance.ts:72-74 | builds the same value as `distance(v, PIXELS)` |
| Distances.Meters | src/distance.ts:76-78 | builds the same value as `distance(v, METERS)` |
| Distances.Kilometers | src/distance.ts:80-82 | builds the same value as `distance(v, KILOMETERS)` |
| Distances.Feet | src/distance.ts:84-86 | builds the same value as `distance(v, FEET)` |
| Distances.Yards | src/distance.ts:88-90 | builds the same value as `distance(v, YARDS)` |
| Distances.Miles | src/distance.ts:92-94 | builds the same value as `distance(v, MILES)` |
| Distances.NauticalMiles | src/distance.ts:96-98 | builds the same value as `distance(v, NAUTICAL_MILES)` |
| Distances.ConvertRoundTrip | src/distance.ts:53-54 | converting U→V→U gives back the original value |
| Distances.ConvertCompose | src/distance.ts:53-54 | converting U→V→W equals converting U→W directly |
| Distances.ConvertKeepsSign | src/distance.ts:53-54 | conversion keeps zero, positive and negative values as they are (each direction of each) |
| Distances.ConvertMonotonic | src/distance.ts:53-54 | conversion keeps the order of two values |
| Distances.KnownConversions | src/distance.ts:12-20 | 1 km is 1000 m, 1 mi is 1.609344 km, 1 nm is 1852 m, 1 m is 0.001 km |
| Distances.SampleKilometreAgrees | src/__test__/distance.test.ts:27-42 | 1000 m, 1 km, 3281 ft, 1094 yd, 0.6214 mi and 0.54 nm each convert to any other's unit within one percent of it |
| Speeds.PerMeterPerSecond | src/speed.ts:11-16 | every unit has a positive ratio (m/s 1, km/h 3.6, mph 2.237, kn 1.944), so `to` is total |
| Speeds.Speed.constructor | src/speed.ts:25-28 | the speed holds the given value and unit |
| Speeds.Speed.To | src/speed.ts:30-37 | the result has the target unit and value v/ratio[source]*ratio[target]; it is the receiver itself exactly when the unit is unchanged |
| Speeds.MakeSpeed | src/speed.ts:41-43 | `speed(v, u)` has value v and unit u |
| Speeds.ConvertRoundTrip | src/speed.ts:34-36 | converting U→V→U gives back the original value |
| Speeds.ConvertCompose | src/speed.ts:34-36 | converting U→V→W equals converting U→W directly |
| Speeds.ConvertKeepsSign | src/speed.ts:34-36 | conversion keeps zero, positive and negative values as they are |
| Speeds.SampleSpeedAgrees | src/__test__/speed.test.ts:5-22 | 10 m/s, 36 km/h, 22.37 mph and 19.44 kn convert into one another exactly |
| QueryParser.Decode | src/query-parser.ts:80 | `decodeURIComponent` leaves text without '%' unchanged |
| QueryParser.Defaults | src/query-parser.ts:27-41 | a fresh record has provider UNKNOWN, the current date, no bearing and no speed, and the listed default values |
| QueryParser.StoreValue | src/query-parser.ts:55-70 | the seven number fields get `parseFloat(value)`; date gets `Date.parse(value)`; provider becomes GPS for "gps", NETWORK for "network" and is left alone otherwise; any other key gets the raw text; no other field changes |
| QueryParser.ParsedQuery.constructor | src/query-parser.ts:27-41 | a new record holds exactly the defaults |
| QueryParser.ParsedQuery.ParseValue | src/query-parser.ts:55-70 | updates this record in place as `StoreValue` says and returns the same record |
| QueryParser.CsvStep | src/query-parser.ts:77-86 | an entry past the eleventh position, or one that decodes to "", leaves the record unchanged; an entry changes no field other than its own position's |
| QueryParser.CsvBody | src/query-parser.ts:75 | one leading "q=" is removed and nothing else |
| QueryParser.ParseCSVQuery | src/query-parser.ts:72-87 | returns a fresh record holding the fold of the entries over the defaults |
| QueryParser.ObjectStep | src/query-parser.ts:93-100 | a pair whose decoded key is not a record field leaves the record unchanged; a pair changes no field other than its key |
| QueryParser.AllowedKeysOfRecord | src/query-parser.ts:90-91 | the allowed keys are the default fields plus bearing and speed |
| QueryParser.AllowedRecordKeys | src/query-parser.ts:90-91 | computes exactly that set of allowed keys |
| QueryParser.ParseObjectQuery | src/query-parser.ts:89-102 | returns a fresh record holding the fold of the `&`-separated pairs over the defaults |
| QueryParser.QueryText | src/query-parser.ts:47 | the result is the trimmed input, with at most one leading '?' removed |
| QueryParser.ParseQuery | src/query-parser.ts:46-53 | returns a fresh record: CSV parsing when the cleaned text starts with "q=", pair parsing otherwise |
| QueryParser.QueryTextStripsPadding | src/query-parser.ts:47 | surrounding whitespace and one leading '?' are removed and the rest is kept whole |
| QueryParser.EmptyQueryGivesDefaults | src/query-parser.ts:89-101 | a query that is empty once cleaned yields exactly the default record |
| QueryParser.EmptyStringGivesDefaults | src/__test__/query-parser.test.ts:6-9 | `parseQuery('')` yields exactly the default record |
| QueryParser.CsvFoldAtPosition | src/query-parser.ts:77-86 | the field at position i ends as entry i alone makes it, whatever the other entries are |
| QueryParser.CsvFoldElsewhere | src/query-parser.ts:77-86 | a field that is not the target of any entry's position keeps its value |
| QueryParser.CsvFoldIgnoresExtra | src/query-parser.ts:78-79 | entries after the eleventh have no effect |
| QueryParser.CsvPosition | src/query-parser.ts:72-87 | field i of a CSV query holds its entry's stored value, or its default when the entry decodes to "" |
| QueryParser.PositionsDistinct | src/query-parser.ts:73-74 | the eleven position names are distinct |
| QueryParser.ObjectFoldAppend | src/query-parser.ts:92-101 | folding a + b over the pairs is folding a and then b |
| QueryParser.ObjectFoldElsewhere | src/query-parser.ts:92-101 | pairs with other keys leave a field unchanged |
| QueryParser.LastOccurrenceWins | src/query-parser.ts:92-101 | the last pair naming a key decides its field |
| QueryParser.UnmentionedKeepsDefault | src/query-parser.ts:86-101 | a field that no pair names keeps its default |
| QueryParser.PairBetweenEquals | src/query-parser.ts:94-97 | the value of a pair is the text between its first and second '=' |
| QueryParser.PairStoresValue | src/query-parser.ts:94-98 | a pair `key=value` for an allowed key stores the value as `parseValue` would |
| QueryParser.PairWithoutValue | src/query-parser.ts:94-98 | a pair without '=' stores the text "undefined" for its key |
| Popup.Last3AsWritten | src/popup.ts:10 | `substr(length - 3)` gives the last three characters, but only the last one for a two-character string |
| Popup.PhoneGroupsAsWritten | src/popup.ts:9-13 | the loop produces one group per round plus the remainder in front |
| Popup.RewriteInternationalPrefix | src/popup.ts:14-16 | a leading "00" of the first group becomes "+" and nothing else changes |
| Popup.FormatPhone | src/popup.ts:6-18 | the loop's result equals the phone-text function of its input |
| Popup.PhoneGroups | src/popup.ts:8-17 | corrected grouping: four groups that concatenate back to the input; the last three hold at most three characters, and exactly three when there are nine or more |
| Popup.PhoneGroupsAsWrittenAgrees | src/popup.ts:9-13 | for every length other than 2, 5 and 8 the loop's groups are the corrected groups |
| Popup.PhoneGroupsAsWrittenShort | src/popup.ts:9-13 | the groups the loop gives for lengths 2, 5 and 8 |
| Popup.PhoneGroupsAsWrittenDropsFirst | src/popup.ts:9-13 | for lengths 2, 5 and 8 the groups concatenate to the input without its first character |
| Popup.FormatPhoneLosesDigit | src/popup.ts:9-13 | "12345" is grouped as "", "", "2", "345" |
| Popup.FiveCharacterPhoneText | src/popup.ts:6-18 | any whitespace-free five-character number is formatted without its first character |
| Popup.PhoneTextLong | src/popup.ts:6-18 | for nine or more characters besides whitespace, the text is the head (with "00" as "+") and three groups of three joined by "&nbsp;" |
| Popup.CorrectedPhoneTextAgrees | src/popup.ts:6-18 | the corrected text equals `formatPhone`'s output for every length other than 2, 5 and 8 |
| Popup.CorrectedFiveCharacterText | src/popup.ts:6-18 | with the corrected grouping a five-character number keeps every character |
| Popup.Ceil | src/popup.ts:36 | `Math.ceil`: the least integer not below x |
| Popup.RealRem | src/popup.ts:35 | `%` on numbers: x minus the remainder is a whole multiple of m, and the remainder has x's sign and is smaller than m in size |
| Popup.IntRem8 | src/popup.ts:36 | `% 8` on integers: i minus the remainder is a multiple of 8, the remainder lies strictly between -8 and 8, and it has i's sign (truncation toward zero) |
| Popup.GetDirection | src/popup.ts:34-37 | defined exactly when the entry exists, and then the direction name at the computed index (see DirectionDefinedWhen, NorthAroundZero, ArrowThenDirection) |
| Popup.GetDirectionArrow | src/popup.ts:39-42 | defined exactly when the entry exists, and then the arrow at the computed index, the same index as `getDirection` |
| Popup.EntryParts | src/popup.ts:30-32 | every entry is a one-character arrow followed by the direction's name |
| Popup.DirectionIndexPeriodic | src/popup.ts:35 | a bearing one whole turn larger selects the same entry |
| Popup.DirectionSector | src/popup.ts:35-36 | bearings in (22.5+45(k-1), 22.5+45k] select entry k mod 8 |
| Popup.DirectionIndexInRange | src/popup.ts:30-42 | for a non-negative bearing the index lies in 0..7 and there is an entry |
| Popup.DirectionDefinedWhen | src/popup.ts:34-42 | there is an entry exactly when `bearing % 360` is above -22.5 or at most -337.5 |
| Popup.NorthAroundZero | src/popup.ts:34-42 | [0, 22.5] and (337.5, 360) both give "N" and "↑" |
| Popup.ArrowThenDirection | src/popup.ts:36-41 | the arrow is one character, and the arrow followed by the direction is the whole entry |
| Popup.GetInfoLine | src/popup.ts:20-28 | "" exactly for a falsy value; otherwise a row whose header cell is the name and whose data cell is the value followed by the suffix |
| Popup.WithAccuracy | src/popup.ts:44-46 | " ±a " for a truthy accuracy a, and " " exactly otherwise |
| AddressProvider.Kept | src/address-provider.ts:29 | the filter keeps only non-empty values, and keeps none exactly when no value is present |
| AddressProvider.JoinNotNull | src/address-provider.ts:28-31 | "" exactly when every value is missing or empty |
| AddressProvider.JoinNotNullSnoc | src/address-provider.ts:28-31 | appending a missing value changes nothing; appending a present one adds it, after the separator when something precedes it |
| AddressProvider.JoinNotNullBoth | src/address-provider.ts:28-31 | two present values are joined with one separator in argument order |
| AddressProvider.Locality | src/address-provider.ts:41 | the first present of city, town, village, hamlet |
| AddressProvider.FormatAddress | src/address-provider.ts:33-46 | "" exactly when no shown field is present |
| AddressProvider.LineByLine | src/address-provider.ts:35-45 | each of the nine lines is non-empty exactly when one of its own fields is present |
| AddressProvider.NeighbourhoodIgnored | src/address-provider.ts:33-46 | the neighbourhood never affects the text |
| AddressProvider.RoadLine | src/address-provider.ts:38 | road and house number are joined by one space, road first |
| AddressProvider.SampleAddressLines | src/address-provider.ts:33-46 | a sample answer gives its lines in the fixed order, the town standing in for the missing city |
| AddressProvider.SampleAddressKept | src/address-provider.ts:33-46 | that answer keeps exactly three non-empty lines, in order |
| AddressProvider.SampleAddressText | src/address-provider.ts:33-46 | that answer renders as "Elm Street 12<br>Town<br>Land" |
| AddressProvider.NominatimUrl | src/address-provider.ts:76-90 | the URL starts with the fixed reverse endpoint |
| AddressProvider.NominatimUrlParameters | src/address-provider.ts:76-90 | the query part splits at '&' into format=jsonv2, accept-language, lat, lon, zoom=18, addressdetails=1, in that order |
| TextPath.DigitRun | src/leaflet-textpath.ts:51 | `\d+` takes the longest run of leading digits |
| TextPath.SkipWhitespace | src/leaflet-textpath.ts:51 | `\s*` drops the leading whitespace and nothing more |
| TextPath.UpToLineTerminator | src/leaflet-textpath.ts:51 | `.*` runs up to the first line terminator |
| TextPath.MatchDistance | src/leaflet-textpath.ts:51 | the pattern matches exactly when the text starts with a digit, and then captures a non-empty digit run |
| TextPath.UnitOf | src/leaflet-textpath.ts:53-56 | METERS exactly for "m", KILOMETERS exactly for "km", PIXELS otherwise |
| TextPath.DistanceLiteral | src/leaflet-textpath.ts:48-61 | a number, or a string not starting with a digit, gives [0, PIXELS]; the value is always a non-negative integer; a unit other than pixels needs a leading digit |
| TextPath.ParseDistance | src/leaflet-textpath.ts:48-61 | the method that overwrites the default pair computes the distance literal |
| TextPath.LiteralRoundTrip | src/leaflet-textpath.ts:48-61 | a number written in decimal, any whitespace and a unit name read back as that number and unit |
| TextPath.UpperCaseUnit | src/leaflet-textpath.ts:51 | the same holds with the unit name in capitals |
| TextPath.CaseInsensitive | src/leaflet-textpath.ts:51 | a string and its lower-case form read the same |
| TextPath.FractionStopsDigits | src/leaflet-textpath.ts:51-57 | "n.anything" reads as n pixels: the fraction is dropped and no unit is recognised |
| TextPath.DefaultsAreLiterals | src/leaflet-textpath.ts:32-37 | the default size is what "10px" reads as, and the default vertical offset is what any number reads as |
| PromiseRetrier.RunPromise | src/promise-retrier.ts:2-14 | between 1 and times+1 calls; success exactly when one of the allowed calls resolves, and then with the first such value; every earlier call was rejected; failure only after all allowed calls, with the last reason |
| PromiseRetrier.RetryPromise | src/promise-retrier.ts:16-26 | the same bounds from call 0; the final rejection reads "reason (times+1 times)" |
| PromiseRetrier.AlwaysFailingGivesUpAfterThree | src/__test__/promise-retrier.test.ts:17-22 | with the default count a factory that always fails is called 3 times and rejects with "failed (3 times)" |
| PromiseRetrier.FailingOnceSucceedsOnSecondCall | src/__test__/promise-retrier.test.ts:24-30 | a factory that fails once is called twice and resolves with "succeeded" |
| JsStrings.Trim | src/query-parser.ts:47 | `trim`: the result starts and ends without whitespace, and is the input minus its leading and trailing whitespace |
| JsStrings.TrimPadded | src/query-parser.ts:47 | trimming whitespace padding gives back the padded text |
| JsStrings.RemoveWhitespace | src/popup.ts:7 | no whitespace remains; text without whitespace is unchanged and text of whitespace only becomes "" |
| JsStrings.RemoveWhitespaceAppend | src/popup.ts:7 | removal works piece by piece, so together with the above every other character is kept, in order |
| JsStrings.Split | src/query-parser.ts:76 | `split` gives at least one piece, and no piece contains the separator |
| JsStrings.JoinSplit | src/query-parser.ts:92 | joining the pieces with the separator gives back the text |
| JsStrings.SplitJoin | src/address-provider.ts:85-88 | splitting a join of separator-free pieces gives back the pieces |
| JsStrings.SubstrFrom | src/popup.ts:10 | `substr(start)`: a negative start counts from the end, clamped at 0 |
| JsStrings.DropLast | src/popup.ts:11 | `slice(0, -k)` drops the last k characters, or gives "" when there are fewer |
| JsStrings.LowerChar | src/leaflet-textpath.ts:51 | `toLowerCase` on one character: A-Z map to a-z, no upper-case ASCII letter remains, other characters except the Kelvin sign are unchanged |
| JsStrings.Lower | src/leaflet-textpath.ts:51 | `toLowerCase` maps every character and keeps the length |
| JsStrings.LowerIdempotent | src/leaflet-textpath.ts:51 | lower-casing twice is lower-casing once |
| JsStrings.DigitsValueOfNatToString | src/leaflet-textpath.ts:57 | reading the decimal digits of n back gives n |

## Left out

- `calculateEndPoint` (spherical trigonometry), the map and SVG layers, the text layer,
  street-view probing and debug images are not modelled. They are floating-point
  geometry, DOM and network code.
- `getAddress` is not modelled: it is a `fetch` call. `formatAddress` is modelled over
  the answer it would receive.
- `preparePopup` is not modelled. It depends on the locale, `Date` formatting and an HTML
  template.
- Floating point is not modelled. Quantities are exact reals, so IEEE-754 rounding and
  NaN arithmetic are absent. `Number` in the query parser only tells NaN from a real
  value.
- `parseFloat`, `Date.parse`, the decoding of percent escapes, and the clock behind `now()`
  are host parameters. The `URIError` that `decodeURIComponent` throws on a malformed
  escape is not modelled.
- QueryParser.ObjectStep: `key in allowed` is modelled as membership in the record's
  explicit field set. Prototype-chain names such as `constructor` are not accepted.
- QueryParser.StoreValue: values are kept in a map from field name to value, so
  TypeScript's property types are not enforced.
- The query-parser test also expects a `zoom` field that the code never sets; that
  expectation is not modelled.
- Popup.GetInfoLine: the suffix callback is modelled as the text it returns. How a number
  is written (`numberText`) is a parameter. NaN as a falsy value is not modelled.
- Popup.WithAccuracy: how the accuracy number is written is a parameter.
- AddressProvider.NominatimUrl: how `lat` and `lon` are written is a parameter.
- JsStrings.LowerChar: only ASCII letters and the Kelvin sign are lower-cased. The rest
  of Unicode case mapping is not modelled. It cannot change what `parseDistance` reads:
  no other character lower-cases to a digit, whitespace, a line terminator, 'm', 'p',
  'x' or 'k'.
- JsStrings: strings are sequences of characters, not of UTF-16 code units.
- PromiseRetrier.RunPromise: the retry count is modelled as a whole number (`int`). The
  source takes any number. With a fractional count such as 1.5, `times > 0` allows
  calls at 1.5, 0.5 and -0.5, so 3 calls, while the message says "(2.5 times)". That
  mismatch is not modelled. Every caller passes a whole number: the default 2, or the
  tests' 3.
- PromiseRetrier.RunPromise: promises, `then`/`catch` and the `setTimeout` delay are
  abstracted into the outcome of each factory call. The timeout value is not modelled.
- Distances.GenericDistance.To: pixel to geographic conversion is excluded by
  preconditions, following the code. The code has no conversion error type. At run time
  a pixel distance's `to` returns itself, and `ONE_METER['px']` is undefined.
- Popup.GetDirection: a negative bearing whose remainder modulo 360 lies in (-337.5, -22.5]
  selects a negative index. There the code reads a missing entry and throws. The model
  returns `None` (see `Popup.DirectionDefinedWhen`). Bearings from the device are not
  negative.

## Findings

| source | as written | input that shows it | evidently intended | confidence | as-written member | corrected member |
|---|---|---|---|---|---|---|
| src/popup.ts:9-12 | each round takes `input.substr(input.length - 3)` and keeps `input.slice(0, -3)`; when two characters remain, `substr(-1)` takes only the last one while `slice(0, -3)` discards both | "12345" is formatted as "&nbsp;&nbsp;2&nbsp;345", losing the "1"; every whitespace-free length of 2, 5 or 8 loses its first character | the groups concatenate back to the whole number | not executed | Popup.PhoneGroupsAsWrittenDropsFirst | Popup.PhoneGroups |
