/** Dataset metadata is an open mapping loaded from YAML. Its values are
    modelled as a variant, together with the three Python builtins the core
    applies to them: truthiness (`x or ""`), `str(x)` and `float(x)`. */
module Values {

  import opened Results
  import opened Strings

  datatype Value =
    | Null                              // None
    | Bool(b: bool)
    | Int(i: int)
    | Float(r: real)                    // a float, as an exact rational
    | Str(s: string)
    | Time(seconds: int)                // a datetime, as seconds since the epoch (UTC)
    | List(items: seq<Value>)           // a list or a tuple
    | Dict(entries: map<string, Value>) // a mapping with string keys
    | Other                             // anything else

  /** Python truthiness. */
  predicate Truthy(v: Value)
  {
    match v
    case Null => false
    case Bool(b) => b
    case Int(i) => i != 0
    case Float(r) => r != 0.0
    case Str(s) => s != ""
    case Time(_) => true
    case List(items) => items != []
    case Dict(entries) => entries != map[]
    case Other => true
  }

  /** `str(v)`. Exact for strings, integers, booleans, None and floats with an
      integral value below 10^16 in magnitude, which Python prints without
      an exponent; other values get a placeholder naming their kind. */
  function Text(v: Value): (t: string)
    ensures v.Str? ==> t == v.s
    ensures v.Int? ==> ParseDecimal(t) == Some(v.i as real)
  {
    match v
    case Null => "None"
    case Bool(b) => if b then "True" else "False"
    case Int(i) => IntTextIsDecimal(i); IntToString(i)
    case Float(r) =>
      if r == r.Floor as real && -10000000000000000.0 < r < 10000000000000000.0
      then IntToString(r.Floor) + ".0" else "<float>"
    case Str(s) => s
    case Time(_) => "<datetime>"
    case List(_) => "<list>"
    case Dict(_) => "<dict>"
    case Other => "<object>"
  }

  /** `float(v)`, or None where Python raises TypeError or ValueError. */
  function ToFloat(v: Value): (r: Option<real>)
    ensures v.Null? || v.Time? || v.List? || v.Dict? || v.Other? ==> r == None
    ensures v.Int? ==> r == Some(v.i as real)
    ensures v.Float? ==> r == Some(v.r)
  {
    match v
    case Bool(b) => Some(if b then 1.0 else 0.0)
    case Int(i) => Some(i as real)
    case Float(r) => Some(r)
    case Str(s) => ParseDecimal(s)
    case _ => None
  }

  /** `float(str(i))` and `float(i)` agree on integers. */
  lemma IntTextConverts(i: int)
    ensures ToFloat(Str(Text(Int(i)))) == ToFloat(Int(i))
  {
    IntTextIsDecimal(i);
  }

  /** A list of strings as a metadata value. */
  function StrList(names: seq<string>): (v: Value)
    ensures v.List? && |v.items| == |names|
    ensures forall i :: 0 <= i < |names| ==> v.items[i] == Str(names[i])
  {
    List(seq(|names|, i requires 0 <= i < |names| => Str(names[i])))
  }
}
