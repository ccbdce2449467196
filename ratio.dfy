/** What the completeness and volume checks share: reading a measurement and
    its expected minimum from the metadata, and the verdict of the one
    against the other. */
module Ratio {

  import opened Results
  import opened Values
  import opened Registry

  /** Either metadata value is absent or None. */
  predicate Absent(d: Dataset, valueKey: string, minimumKey: string)
  {
    d.Get(valueKey, Null).Null? || d.Get(minimumKey, Null).Null?
  }

  /** Both metadata values as floats, when both are present and `float()`
      accepts both. */
  function Readings(d: Dataset, valueKey: string, minimumKey: string): (r: Option<(real, real)>)
    ensures r.Some? <==> !Absent(d, valueKey, minimumKey)
                         && ToFloat(d.Get(valueKey, Null)).Some?
                         && ToFloat(d.Get(minimumKey, Null)).Some?
    ensures r.Some? ==> r.value == (ToFloat(d.Get(valueKey, Null)).value, ToFloat(d.Get(minimumKey, Null)).value)
  {
    var v, m := d.Get(valueKey, Null), d.Get(minimumKey, Null);
    if v.Null? || m.Null? then None
    else
      match (ToFloat(v), ToFloat(m))
      case (Some(x), Some(y)) => Some((x, y))
      case _ => None
  }

  /** The verdict of a measurement against a positive minimum: GREEN when it
      meets the minimum, YELLOW when it is at least nine tenths of it, RED
      below that. */
  function MinimumStatus(value: real, minimum: real): (s: Status)
    requires minimum > 0.0
    ensures s == GREEN <==> value >= minimum
    ensures s == RED <==> value < 0.9 * minimum
  {
    var ratio := value / minimum;
    NineTenths(value, minimum);
    if value >= minimum then GREEN else if ratio >= 0.9 then YELLOW else RED
  }

  lemma NineTenths(value: real, minimum: real)
    requires minimum > 0.0
    ensures value / minimum >= 0.9 <==> value >= 0.9 * minimum
  {
    var ratio := value / minimum;
    assert ratio * minimum == value;
  }

  /** A larger measurement never gets a worse verdict. */
  lemma MinimumMonotone(smaller: real, larger: real, minimum: real)
    requires minimum > 0.0 && smaller <= larger
    ensures Severity(MinimumStatus(larger, minimum)) <= Severity(MinimumStatus(smaller, minimum))
  {
  }
}
