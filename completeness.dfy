/** The completeness check: the record count against the expected minimum. */
module Completeness {

  import opened Results
  import opened Values
  import opened Registry
  import opened Numbers
  import opened Ratio

  const CountKey := "record_count"
  const MinimumKey := "expected_min_records"

  /** The verdict, message and details of the completeness check. */
  function CheckCompleteness(d: Dataset, now: int): (r: CheckResult)
    ensures r.name == "completeness"
    ensures Absent(d, CountKey, MinimumKey) ==>
              r.status == YELLOW && r.message == "Missing record_count or expected_min_records metadata."
              && r.details == map[CountKey := d.Get(CountKey, Null), MinimumKey := d.Get(MinimumKey, Null)]
    ensures !Absent(d, CountKey, MinimumKey) && Readings(d, CountKey, MinimumKey).None? ==>
              r.status == YELLOW && r.message == "Invalid record_count or expected_min_records value."
              && r.details == map[CountKey := d.Get(CountKey, Null), MinimumKey := d.Get(MinimumKey, Null)]
    ensures Readings(d, CountKey, MinimumKey).Some? && Readings(d, CountKey, MinimumKey).value.1 <= 0.0 ==>
              r.status == YELLOW && r.message == "expected_min_records must be greater than 0."
              && r.details == map[MinimumKey := Float(Readings(d, CountKey, MinimumKey).value.1)]
    // GREEN and RED need valid readings and a positive minimum.
    ensures r.status == GREEN <==>
              && Readings(d, CountKey, MinimumKey).Some?
              && var (count, minimum) := Readings(d, CountKey, MinimumKey).value;
                 minimum > 0.0 && count >= minimum
    ensures r.status == RED <==>
              && Readings(d, CountKey, MinimumKey).Some?
              && var (count, minimum) := Readings(d, CountKey, MinimumKey).value;
                 minimum > 0.0 && count < 0.9 * minimum
    ensures r.status == GREEN ==> r.message == "Record count meets expected minimum."
    ensures r.status == RED ==> r.message == "Record count significantly below expected minimum."
    ensures Readings(d, CountKey, MinimumKey).Some? && Readings(d, CountKey, MinimumKey).value.1 > 0.0 ==>
              var (count, minimum) := Readings(d, CountKey, MinimumKey).value;
              (r.status == YELLOW ==> r.message == "Record count slightly below expected minimum.")
              && r.details == map[CountKey := Float(count), MinimumKey := Float(minimum),
                                   "ratio" := Float(Round(count / minimum, 3))]
  {
    var count, minimum := d.Get(CountKey, Null), d.Get(MinimumKey, Null);
    if count.Null? || minimum.Null? then
      CheckResult("completeness", YELLOW, "Missing record_count or expected_min_records metadata.",
                  map[CountKey := count, MinimumKey := minimum])
    else if ToFloat(count).None? || ToFloat(minimum).None? then
      CheckResult("completeness", YELLOW, "Invalid record_count or expected_min_records value.",
                  map[CountKey := count, MinimumKey := minimum])
    else
      var c, m := ToFloat(count).value, ToFloat(minimum).value;
      assert Readings(d, CountKey, MinimumKey) == Some((c, m));
      if m <= 0.0 then
        CheckResult("completeness", YELLOW, "expected_min_records must be greater than 0.",
                    map[MinimumKey := Float(m)])
      else
        var status := MinimumStatus(c, m);
        var message := match status
          case GREEN => "Record count meets expected minimum."
          case YELLOW => "Record count slightly below expected minimum."
          case RED => "Record count significantly below expected minimum.";
        CheckResult("completeness", status, message,
                    map[CountKey := Float(c), MinimumKey := Float(m), "ratio" := Float(Round(c / m, 3))])
  }

  /** The check as the registry holds it. */
  const CompletenessCheck: CheckSpec :=
    CheckSpec("completeness", "Dataset meets expected record count.",
              (d: Dataset, now: int) => Some(CheckCompleteness(d, now)))

  /** More records never make the verdict worse. */
  lemma CompletenessMonotone(d: Dataset, fewer: int, more: int, now: int)
    requires fewer <= more
    ensures var low := d.(metadata := d.metadata[CountKey := Int(fewer)]);
            var high := d.(metadata := d.metadata[CountKey := Int(more)]);
            Severity(CheckCompleteness(high, now).status) <= Severity(CheckCompleteness(low, now).status)
  {
    var low := d.(metadata := d.metadata[CountKey := Int(fewer)]);
    var high := d.(metadata := d.metadata[CountKey := Int(more)]);
    var m := d.Get(MinimumKey, Null);
    assert low.Get(MinimumKey, Null) == m && high.Get(MinimumKey, Null) == m;
    assert low.Get(CountKey, Null) == Int(fewer) && high.Get(CountKey, Null) == Int(more);
    if !m.Null? && ToFloat(m).Some? && ToFloat(m).value > 0.0 {
      var e := ToFloat(m).value;
      assert Readings(low, CountKey, MinimumKey) == Some((fewer as real, e));
      assert Readings(high, CountKey, MinimumKey) == Some((more as real, e));
      MinimumMonotone(fewer as real, more as real, e);
    } else {
      assert CheckCompleteness(low, now).status == YELLOW;
    }
  }

  /** A dataset with the given record count and expected minimum. */
  function Counted(count: int, minimum: int): (d: Dataset)
    ensures d.Get(CountKey, Null) == Int(count) && d.Get(MinimumKey, Null) == Int(minimum)
  {
    Dataset("sample", "", "", "", map[CountKey := Int(count), MinimumKey := Int(minimum)], "")
  }

  /** 120 of 100 records is GREEN, 95 is YELLOW, 50 is RED. */
  lemma CompletenessGreenExample(now: int)
    ensures CheckCompleteness(Counted(120, 100), now).status == GREEN
  {
  }

  lemma CompletenessYellowExample(now: int)
    ensures CheckCompleteness(Counted(95, 100), now).status == YELLOW
  {
  }

  lemma CompletenessRedExample(now: int)
    ensures CheckCompleteness(Counted(50, 100), now).status == RED
  {
  }
}
