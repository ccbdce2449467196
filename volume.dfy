/** The volume check: the size in bytes against the expected minimum, with
    both sizes also written in binary units. */
module Volume {

  import opened Results
  import opened Strings
  import opened Values
  import opened Registry
  import opened Numbers
  import opened Ratio

  const SizeKey := "bytes"
  const MinimumKey := "expected_min_bytes"

  /** The binary units tried in order, largest first, with their factors. */
  const Units: seq<(nat, string)> :=
    [(1099511627776, "TB"), (1073741824, "GB"), (1048576, "MB"), (1024, "KB")]

  /** The first unit whose factor does not exceed `value`. */
  function FirstUnit(units: seq<(nat, string)>, value: real): (r: Option<(nat, string)>)
    ensures r.Some? ==> r.value in units && r.value.0 as real <= value
    ensures r.None? ==> forall i :: 0 <= i < |units| ==> value < units[i].0 as real
    ensures r.Some? ==> exists i :: 0 <= i < |units| && units[i] == r.value
                                    && forall j :: 0 <= j < i ==> value < units[j].0 as real
  {
    if units == [] then None
    else if value >= units[0].0 as real then Some(units[0])
    else
      var r := FirstUnit(units[1..], value);
      if r.Some? then
        var i :| 0 <= i < |units[1..]| && units[1..][i] == r.value
                  && forall j :: 0 <= j < i ==> value < units[1..][j].0 as real;
        assert units[i + 1] == r.value;
        assert forall j :: 0 <= j < i + 1 ==> value < units[j].0 as real by {
          forall j | 0 <= j < i + 1 ensures value < units[j].0 as real {
            if j > 0 { assert units[j] == units[1..][j - 1]; }
          }
        }
        r
      else
        r
  }

  /** `_format_bytes`: the value in the first unit that fits, with two
      decimals, or in bytes with none. */
  function FormatBytes(value: real): (t: string)
  {
    match FirstUnit(Units, value)
    case Some((factor, unit)) => Fixed(value / factor as real, 2) + " " + unit
    case None => Fixed(value, 0) + " B"
  }

  /** The unit `_format_bytes` should pick, stated by ranges of the value:
      the largest binary unit not above it, or bytes below one kibibyte. */
  function ByteUnit(value: real): (u: (nat, string))
    ensures u.1 == "B" || u.1 == "KB" || u.1 == "MB" || u.1 == "GB" || u.1 == "TB"
    ensures u.0 >= 1 && (u.1 == "B" || u.0 as real <= value) && (u.1 == "TB" || value < 1024.0 * u.0 as real)
  {
    if value >= 1099511627776.0 then (1099511627776, "TB")
    else if value >= 1073741824.0 then (1073741824, "GB")
    else if value >= 1048576.0 then (1048576, "MB")
    else if value >= 1024.0 then (1024, "KB")
    else (1, "B")
  }

  /** The search picks the unit the ranges describe. */
  lemma FirstUnitIsByteUnit(value: real)
    ensures var u := ByteUnit(value);
            FirstUnit(Units, value) == if u.1 == "B" then None else Some(u)
  {
    var gb, mb, kb := Units[1..], Units[2..], Units[3..];
    assert gb == [(1073741824, "GB"), (1048576, "MB"), (1024, "KB")];
    assert mb == gb[1..] && mb == [(1048576, "MB"), (1024, "KB")];
    assert kb == mb[1..] && kb == [(1024, "KB")];
    assert kb[1..] == [];
    if value < 1099511627776.0 {
      assert FirstUnit(Units, value) == FirstUnit(gb, value);
      if value < 1073741824.0 {
        assert FirstUnit(gb, value) == FirstUnit(mb, value);
        if value < 1048576.0 {
          assert FirstUnit(mb, value) == FirstUnit(kb, value);
        }
      }
    }
  }

  /** The decimal places shown for a unit: none for bytes, two otherwise. */
  function Places(unit: string): nat
  {
    if unit == "B" then 0 else 2
  }

  /** The text is a number, a space and the unit; the number reads back as
      the value in that unit rounded to two places (bytes: to an integer). */
  lemma FormatBytesReadsBack(value: real)
    ensures var u := ByteUnit(value);
            var parts := Split(FormatBytes(value), ' ');
            |parts| == 2 && parts[1] == u.1
            && ParseDecimal(parts[0]) == Some(Round(value / u.0 as real, Places(u.1)))
  {
    var u := ByteUnit(value);
    var x := value / u.0 as real;
    FormatBytesForm(value);
    FixedChars(x, Places(u.1));
    FixedReadsBack(x, Places(u.1));
    TextReadsBack(FormatBytes(value), Fixed(x, Places(u.1)), u.1, Round(x, Places(u.1)));
  }

  lemma TextReadsBack(text: string, number: string, unit: string, v: real)
    requires text == number + " " + unit
    requires forall c :: c in number ==> c == '-' || c == '.' || IsDigit(c)
    requires unit == "B" || unit == "KB" || unit == "MB" || unit == "GB" || unit == "TB"
    requires ParseDecimal(number) == Some(v)
    ensures var parts := Split(text, ' ');
            |parts| == 2 && parts[1] == unit && ParseDecimal(parts[0]) == Some(v)
  {
    NumberAndUnit(number, unit);
  }

  /** The text in terms of the unit the ranges describe. */
  lemma FormatBytesForm(value: real)
    ensures var u := ByteUnit(value);
            FormatBytes(value) == Fixed(value / u.0 as real, Places(u.1)) + " " + u.1
  {
    var u := ByteUnit(value);
    FirstUnitIsByteUnit(value);
    if u.1 == "B" {
      assert FormatBytes(value) == Fixed(value, 0) + " B";
      assert value / u.0 as real == value;
    } else {
      assert FormatBytes(value) == Fixed(value / u.0 as real, 2) + " " + u.1;
    }
  }

  /** A number and a unit, neither holding a space, split apart at the space
      between them. */
  lemma NumberAndUnit(number: string, unit: string)
    requires forall c :: c in number ==> c == '-' || c == '.' || IsDigit(c)
    requires unit == "B" || unit == "KB" || unit == "MB" || unit == "GB" || unit == "TB"
    ensures Split(number + " " + unit, ' ') == [number, unit]
  {
    assert ' ' !in number;
    assert number + " " + unit == number + [' '] + unit;
    SplitPrefix(number, unit, ' ');
    SplitNoSeparator(unit, ' ');
  }

  /** The verdict, message and details of the volume check. */
  function CheckVolume(d: Dataset, now: int): (r: CheckResult)
    ensures r.name == "volume"
    ensures Absent(d, SizeKey, MinimumKey) ==>
              r.status == YELLOW && r.message == "Missing bytes or expected_min_bytes metadata."
              && r.details == map[SizeKey := d.Get(SizeKey, Null), MinimumKey := d.Get(MinimumKey, Null)]
    ensures !Absent(d, SizeKey, MinimumKey) && Readings(d, SizeKey, MinimumKey).None? ==>
              r.status == YELLOW && r.message == "Invalid bytes or expected_min_bytes value."
              && r.details == map[SizeKey := d.Get(SizeKey, Null), MinimumKey := d.Get(MinimumKey, Null)]
    ensures Readings(d, SizeKey, MinimumKey).Some? && Readings(d, SizeKey, MinimumKey).value.1 <= 0.0 ==>
              r.status == YELLOW && r.message == "expected_min_bytes must be greater than 0."
              && r.details == map[MinimumKey := Float(Readings(d, SizeKey, MinimumKey).value.1)]
    // GREEN and RED need valid readings and a positive minimum.
    ensures r.status == GREEN <==>
              && Readings(d, SizeKey, MinimumKey).Some?
              && var (size, minimum) := Readings(d, SizeKey, MinimumKey).value;
                 minimum > 0.0 && size >= minimum
    ensures r.status == RED <==>
              && Readings(d, SizeKey, MinimumKey).Some?
              && var (size, minimum) := Readings(d, SizeKey, MinimumKey).value;
                 minimum > 0.0 && size < 0.9 * minimum
    ensures r.status == GREEN ==> r.message == "Volume meets expected minimum."
    ensures r.status == RED ==> r.message == "Volume significantly below expected minimum."
    ensures Readings(d, SizeKey, MinimumKey).Some? && Readings(d, SizeKey, MinimumKey).value.1 > 0.0 ==>
              var (size, minimum) := Readings(d, SizeKey, MinimumKey).value;
              (r.status == YELLOW ==> r.message == "Volume slightly below expected minimum.")
              && r.details == map[SizeKey := Float(size), MinimumKey := Float(minimum),
                                   "ratio" := Float(Round(size / minimum, 3)),
                                   "bytes_human" := Str(FormatBytes(size)),
                                   "expected_min_human" := Str(FormatBytes(minimum))]
  {
    var size, minimum := d.Get(SizeKey, Null), d.Get(MinimumKey, Null);
    if size.Null? || minimum.Null? then
      CheckResult("volume", YELLOW, "Missing bytes or expected_min_bytes metadata.",
                  map[SizeKey := size, MinimumKey := minimum])
    else if ToFloat(size).None? || ToFloat(minimum).None? then
      CheckResult("volume", YELLOW, "Invalid bytes or expected_min_bytes value.",
                  map[SizeKey := size, MinimumKey := minimum])
    else
      var s, m := ToFloat(size).value, ToFloat(minimum).value;
      assert Readings(d, SizeKey, MinimumKey) == Some((s, m));
      if m <= 0.0 then
        CheckResult("volume", YELLOW, "expected_min_bytes must be greater than 0.",
                    map[MinimumKey := Float(m)])
      else
        var status := MinimumStatus(s, m);
        var message := match status
          case GREEN => "Volume meets expected minimum."
          case YELLOW => "Volume slightly below expected minimum."
          case RED => "Volume significantly below expected minimum.";
        CheckResult("volume", status, message,
                    map[SizeKey := Float(s), MinimumKey := Float(m), "ratio" := Float(Round(s / m, 3)),
                        "bytes_human" := Str(FormatBytes(s)), "expected_min_human" := Str(FormatBytes(m))])
  }

  /** The check as the registry holds it. */
  const VolumeCheck: CheckSpec :=
    CheckSpec("volume", "Dataset volume meets expected minimum.",
              (d: Dataset, now: int) => Some(CheckVolume(d, now)))

  /** A dataset with the given size and expected minimum. */
  function Sized(size: int, minimum: int): (d: Dataset)
    ensures d.Get(SizeKey, Null) == Int(size) && d.Get(MinimumKey, Null) == Int(minimum)
  {
    Dataset("sample", "", "", "", map[SizeKey := Int(size), MinimumKey := Int(minimum)], "")
  }

  /** 1200 of 1000 bytes is GREEN, 950 is YELLOW, 500 is RED. */
  lemma VolumeGreenExample(now: int)
    ensures CheckVolume(Sized(1200, 1000), now).status == GREEN
  {
  }

  lemma VolumeYellowExample(now: int)
    ensures CheckVolume(Sized(950, 1000), now).status == YELLOW
  {
  }

  lemma VolumeRedExample(now: int)
    ensures CheckVolume(Sized(500, 1000), now).status == RED
  {
  }
}
