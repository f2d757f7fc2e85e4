/** Distance quantities: a number with a unit tag. Geographic ("natural")
    distances convert into one another through a table of meters per unit;
    pixel distances never convert. Objects are immutable, and `Multiply` and
    `To` hand back the receiver itself when there is nothing to do. */
module Distances {

  datatype Unit = PIXELS | METERS | KILOMETERS | FEET | YARDS | MILES | NAUTICAL_MILES

  /** The units that have an entry in the meters-per-unit table. */
  type NaturalUnit = u: Unit | u != PIXELS witness METERS

  /** How many meters one of `u` is. */
  function MetersPerUnit(u: NaturalUnit): (r: real)
    ensures r > 0.0
  {
    match u
    case METERS => 1.0
    case KILOMETERS => 1000.0
    case FEET => 0.3048
    case YARDS => 0.9144
    case MILES => 1609.344
    case NAUTICAL_MILES => 1852.0
  }

  /** The value `v` in `source` units expressed in `target` units: to meters, then out of meters. */
  function Convert(v: real, source: NaturalUnit, target: NaturalUnit): real {
    v * MetersPerUnit(source) / MetersPerUnit(target)
  }

  /** Which of the two subclasses an object is. */
  datatype Kind = NaturalKind | PixelKind

  /** The kind `distance(value, unit)` builds for a unit. */
  function KindOf(u: Unit): Kind {
    if u == PIXELS then PixelKind else NaturalKind
  }

  class GenericDistance {
    const value: real
    const unit: Unit
    const kind: Kind

    /** A pixel distance always carries the pixel unit; a natural one may carry any unit. */
    ghost predicate Valid() {
      kind == PixelKind ==> unit == PIXELS
    }

    /** `new NaturalDistance(value, unit)`. */
    constructor Natural(value: real, unit: Unit)
      ensures Valid()
      ensures this.value == value && this.unit == unit && kind == NaturalKind
    {
      this.value := value;
      this.unit := unit;
      this.kind := NaturalKind;
    }

    /** `new PixelDistance(value)`. */
    constructor Pixel(value: real)
      ensures Valid()
      ensures this.value == value && unit == PIXELS && kind == PixelKind
    {
      this.value := value;
      this.unit := PIXELS;
      this.kind := PixelKind;
    }

    /** Scales the value and keeps the unit. A factor of exactly 1 gives back this very
        object; any other factor gives a new natural distance, also for a pixel distance. */
    method Multiply(k: real) returns (r: GenericDistance)
      requires Valid()
      ensures r.Valid()
      ensures r.value == value * k && r.unit == unit
      ensures r == this <==> k == 1.0
      ensures k != 1.0 ==> r.kind == NaturalKind && fresh(r)
    {
      if k != 1.0 {
        r := new GenericDistance.Natural(value * k, unit);
      } else {
        r := this;
      }
    }

    /** A pixel distance converts only to pixels and gives back itself. A natural distance
        gives back itself for its own unit, and otherwise a new natural distance holding
        the converted value. Neither side of a natural conversion may be the pixel unit:
        the meters-per-unit table has no entry for it. */
    method To(target: Unit) returns (r: GenericDistance)
      requires Valid()
      requires kind == PixelKind ==> target == PIXELS
      requires kind == NaturalKind ==> unit != PIXELS && target != PIXELS
      ensures r.Valid()
      ensures r.unit == target && r.kind == kind
      ensures r == this <==> (kind == PixelKind || target == unit)
      ensures kind == PixelKind ==> r.value == value
      ensures kind == NaturalKind ==> r.value == Convert(value, unit, target)
    {
      if kind == PixelKind {
        r := this;
      } else if target != unit {
        var source := value * MetersPerUnit(unit);
        var converted := source / MetersPerUnit(target);
        r := new GenericDistance.Natural(converted, target);
      } else {
        r := this;
      }
    }
  }

  /** What `distance(v, u)` promises: value, unit, and the subclass chosen by the unit. */
  ghost predicate IsDistance(d: GenericDistance, v: real, u: Unit) {
    d.Valid() && d.value == v && d.unit == u && d.kind == KindOf(u)
  }

  /** `distance(value, unit)`: a pixel distance for PIXELS, a natural one for every other unit. */
  method Distance(value: real, unit: Unit) returns (r: GenericDistance)
    ensures IsDistance(r, value, unit)
    ensures r.kind == PixelKind <==> unit == PIXELS
  {
    if unit == PIXELS {
      r := new GenericDistance.Pixel(value);
    } else {
      r := new GenericDistance.Natural(value, unit);
    }
  }

  method Pixels(value: real) returns (r: GenericDistance)
    ensures IsDistance(r, value, PIXELS)
  {
    r := new GenericDistance.Pixel(value);
  }

  method Meters(value: real) returns (r: GenericDistance)
    ensures IsDistance(r, value, METERS)
  {
    r := new GenericDistance.Natural(value, METERS);
  }

  method Kilometers(value: real) returns (r: GenericDistance)
    ensures IsDistance(r, value, KILOMETERS)
  {
    r := new GenericDistance.Natural(value, KILOMETERS);
  }

  method Feet(value: real) returns (r: GenericDistance)
    ensures IsDistance(r, value, FEET)
  {
    r := new GenericDistance.Natural(value, FEET);
  }

  method Yards(value: real) returns (r: GenericDistance)
    ensures IsDistance(r, value, YARDS)
  {
    r := new GenericDistance.Natural(value, YARDS);
  }

  method Miles(value: real) returns (r: GenericDistance)
    ensures IsDistance(r, value, MILES)
  {
    r := new GenericDistance.Natural(value, MILES);
  }

  method NauticalMiles(value: real) returns (r: GenericDistance)
    ensures IsDistance(r, value, NAUTICAL_MILES)
  {
    r := new GenericDistance.Natural(value, NAUTICAL_MILES);
  }

  /** Converting to a unit and back returns the original value exactly. */
  lemma ConvertRoundTrip(v: real, u: NaturalUnit, w: NaturalUnit)
    ensures Convert(Convert(v, u, w), w, u) == v
  {
    var a, b := MetersPerUnit(u), MetersPerUnit(w);
    assert (v * a / b) * b == v * a;
  }

  /** Converting through an intermediate unit is converting directly. */
  lemma ConvertCompose(v: real, u: NaturalUnit, w: NaturalUnit, x: NaturalUnit)
    ensures Convert(Convert(v, u, w), w, x) == Convert(v, u, x)
  {
    var a, b, c := MetersPerUnit(u), MetersPerUnit(w), MetersPerUnit(x);
    assert (v * a / b) * b == v * a;
  }

  /** Every ratio is positive, so conversion keeps zero at zero and keeps the sign. */
  lemma ConvertKeepsSign(v: real, u: NaturalUnit, w: NaturalUnit)
    ensures Convert(v, u, w) == 0.0 <==> v == 0.0
    ensures Convert(v, u, w) > 0.0 <==> v > 0.0
    ensures Convert(v, u, w) < 0.0 <==> v < 0.0
  {
    ScaleKeepsSign(v, MetersPerUnit(u), MetersPerUnit(w));
  }

  lemma ScaleKeepsSign(v: real, a: real, b: real)
    requires a > 0.0 && b > 0.0
    ensures v * a / b == 0.0 <==> v == 0.0
    ensures v * a / b > 0.0 <==> v > 0.0
    ensures v * a / b < 0.0 <==> v < 0.0
  {
    var f := a / b;
    assert f > 0.0;
    assert v * a / b == v * f;
    if v > 0.0 { assert v * f > 0.0; }
    if v < 0.0 { assert (-v) * f > 0.0; }
  }

  /** Conversion keeps the order of two values. */
  lemma ConvertMonotonic(v: real, v': real, u: NaturalUnit, w: NaturalUnit)
    requires v < v'
    ensures Convert(v, u, w) < Convert(v', u, w)
  {
    ScaleMonotonic(v, v', MetersPerUnit(u), MetersPerUnit(w));
  }

  lemma ScaleMonotonic(v: real, v': real, a: real, b: real)
    requires v < v' && a > 0.0 && b > 0.0
    ensures v * a / b < v' * a / b
  {
    ScaleKeepsSign(v' - v, a, b);
    assert (v' - v) * a / b == (v' * a - v * a) / b;
    assert (v' * a - v * a) / b == v' * a / b - v * a / b;
  }

  /** Fixed conversions that follow from the metres-per-unit table. */
  lemma KnownConversions()
    ensures Convert(1.0, KILOMETERS, METERS) == 1000.0
    ensures Convert(1.0, MILES, KILOMETERS) == 1.609344
    ensures Convert(1.0, NAUTICAL_MILES, METERS) == 1852.0
    ensures Convert(1.0, METERS, KILOMETERS) == 0.001
  {
  }

  /** `|a - b| < 0.01 * max(a, b)` for two positive values. */
  predicate WithinOnePercent(a: real, b: real) {
    a > 0.0 && b > 0.0
    && (if a >= b then a - b < a / 100.0 else b - a < b / 100.0)
  }

  /** About one kilometre, written in every natural unit. */
  function SampleKilometre(): seq<(real, NaturalUnit)> {
    [(1000.0, METERS), (1.0, KILOMETERS), (3281.0, FEET), (1094.0, YARDS),
     (0.6214, MILES), (0.54, NAUTICAL_MILES)]
  }

  /** Each sample converted to the unit of any other sample lands within one percent of it. */
  lemma SampleKilometreAgrees(i: nat, j: nat)
    requires i < 6 && j < 6
    ensures WithinOnePercent(
              Convert(SampleKilometre()[i].0, SampleKilometre()[i].1, SampleKilometre()[j].1),
              SampleKilometre()[j].0)
  {
    var s := SampleKilometre();
    assert s[i].0 * MetersPerUnit(s[i].1) >= 1000.0;
    assert s[i].0 * MetersPerUnit(s[i].1) <= 1000.36;
    assert s[j].0 * MetersPerUnit(s[j].1) >= 1000.0;
    assert s[j].0 * MetersPerUnit(s[j].1) <= 1000.36;
  }
}
