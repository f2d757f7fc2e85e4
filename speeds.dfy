/** Speed quantities: a number with one of four unit tags, converted through a
    table of how many of each unit make one meter per second. */
module Speeds {

  datatype Unit = METERS_PER_SECOND | KILOMETERS_PER_HOUR | MILES_PER_HOUR | KNOTS

  /** How many of `u` one meter per second is. Every unit has an entry. */
  function PerMeterPerSecond(u: Unit): (r: real)
    ensures r > 0.0
  {
    match u
    case METERS_PER_SECOND => 1.0
    case KILOMETERS_PER_HOUR => 3.6
    case MILES_PER_HOUR => 2.237
    case KNOTS => 1.944
  }

  /** The value `v` in `source` units expressed in `target` units: divide into meters per
      second, then multiply out. */
  function Convert(v: real, source: Unit, target: Unit): real {
    v / PerMeterPerSecond(source) * PerMeterPerSecond(target)
  }

  class Speed {
    const value: real
    const unit: Unit

    constructor (value: real, unit: Unit)
      ensures this.value == value && this.unit == unit
    {
      this.value := value;
      this.unit := unit;
    }

    /** The same unit gives back this very object; any other unit a new speed holding the
        converted value. Every unit is accepted. */
    method To(target: Unit) returns (r: Speed)
      ensures r.unit == target
      ensures r.value == Convert(value, unit, target)
      ensures r == this <==> target == unit
    {
      if target == unit {
        r := this;
      } else {
        var source := value / PerMeterPerSecond(unit);
        var converted := source * PerMeterPerSecond(target);
        r := new Speed(converted, target);
      }
    }
  }

  /** `speed(value, unit)`. */
  method MakeSpeed(value: real, unit: Unit) returns (r: Speed)
    ensures r.value == value && r.unit == unit
  {
    r := new Speed(value, unit);
  }

  /** Converting to a unit and back returns the original value exactly. */
  lemma ConvertRoundTrip(v: real, u: Unit, w: Unit)
    ensures Convert(Convert(v, u, w), w, u) == v
  {
    var a, b := PerMeterPerSecond(u), PerMeterPerSecond(w);
    assert (v / a * b) / b == v / a;
  }

  /** Converting through an intermediate unit is converting directly. */
  lemma ConvertCompose(v: real, u: Unit, w: Unit, x: Unit)
    ensures Convert(Convert(v, u, w), w, x) == Convert(v, u, x)
  {
    var a, b := PerMeterPerSecond(u), PerMeterPerSecond(w);
    assert (v / a * b) / b == v / a;
  }

  /** Every ratio is positive, so conversion keeps zero at zero and keeps the sign. */
  lemma ConvertKeepsSign(v: real, u: Unit, w: Unit)
    ensures Convert(v, u, w) == 0.0 <==> v == 0.0
    ensures Convert(v, u, w) > 0.0 <==> v > 0.0
    ensures Convert(v, u, w) < 0.0 <==> v < 0.0
  {
    var a, b := PerMeterPerSecond(u), PerMeterPerSecond(w);
    var f := b / a;
    assert f > 0.0;
    assert Convert(v, u, w) == v * f;
    if v > 0.0 { assert v * f > 0.0; }
    if v < 0.0 { assert (-v) * f > 0.0; }
  }

  /** Ten meters per second, written in every unit. */
  function SampleSpeed(): seq<(real, Unit)> {
    [(10.0, METERS_PER_SECOND), (36.0, KILOMETERS_PER_HOUR), (22.37, MILES_PER_HOUR), (19.44, KNOTS)]
  }

  /** Each sample converted to the unit of any other sample is exactly that other sample. */
  lemma SampleSpeedAgrees(i: nat, j: nat)
    requires i < 4 && j < 4
    ensures Convert(SampleSpeed()[i].0, SampleSpeed()[i].1, SampleSpeed()[j].1) == SampleSpeed()[j].0
  {
    var s := SampleSpeed();
    assert s[i].0 / PerMeterPerSecond(s[i].1) == 10.0;
  }
}
