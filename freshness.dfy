/** The freshness check: the age of the last update against the dataset's
    SLA in hours, with a YELLOW band up to one and a half times the SLA. */
module Freshness {

  import opened Results
  import opened Strings
  import opened Values
  import opened Registry
  import opened Numbers

  const TimeKey := "last_updated"
  const SlaKey := "freshness_hours"

  /** `parse_datetime`: a metadata value read as seconds since the epoch, or
      None when it cannot be read as a date and time. Whatever else it does,
      it reads None as None and a date and time as itself. */
  type TimeParser = p: Value -> Option<int> | p(Null).None? && forall t :: p(Time(t)) == Some(t)
    witness TimeOnly

  /** The parser that reads only date and time values. */
  function TimeOnly(v: Value): Option<int>
  {
    if v.Time? then Some(v.seconds) else None
  }

  /** The hours from `last` to `now`, both in seconds since the epoch. */
  function AgeHours(now: int, last: int): (age: real)
    ensures age * 3600.0 == (now - last) as real
  {
    (now - last) as real / 3600.0
  }

  /** The verdict of an age against an SLA: GREEN within the SLA, YELLOW
      within one and a half times it, RED beyond. */
  function AgeStatus(age: real, sla: real): (s: Status)
    ensures s == GREEN <==> age <= sla
    ensures s == YELLOW <==> sla < age && 2.0 * age <= 3.0 * sla
    ensures s == RED <==> sla < age && 2.0 * age > 3.0 * sla
  {
    if age <= sla then GREEN else if age <= sla * 1.5 then YELLOW else RED
  }

  /** For a fixed SLA an older update never gets a better verdict. */
  lemma AgeMonotone(younger: real, older: real, sla: real)
    requires younger <= older
    ensures Severity(AgeStatus(younger, sla)) <= Severity(AgeStatus(older, sla))
  {
  }

  /** The message of a checked dataset. */
  function AgeMessage(age: real, sla: real): (m: string)
  {
    "Age " + Fixed(age, 1) + "h (SLA " + Fixed(sla, 1) + "h)."
  }

  /** The message names the age and the SLA, each reading back as the value
      rounded to one decimal place. */
  lemma AgeMessageReadsBack(age: real, sla: real)
    ensures var m := AgeMessage(age, sla);
            && |m| >= 4 && m[..4] == "Age " && 'h' in m[4..]
            && var (ageText, rest) := Partition(m[4..], 'h');
               && ParseDecimal(ageText) == Some(Round(age, 1))
               && |rest| >= 6 && rest[..6] == " (SLA " && 'h' in rest[6..]
               && ParseDecimal(Partition(rest[6..], 'h').0) == Some(Round(sla, 1))
  {
    FixedChars(age, 1);
    FixedChars(sla, 1);
    MessageParts(Fixed(age, 1), Fixed(sla, 1));
    FixedReadsBack(age, 1);
    FixedReadsBack(sla, 1);
  }

  /** Partitioning the message at the unit letter recovers both numbers,
      which hold no such letter. */
  lemma MessageParts(a: string, s: string)
    requires 'h' !in a && 'h' !in s
    ensures var m := "Age " + a + "h (SLA " + s + "h).";
            && |m| >= 4 && m[..4] == "Age " && 'h' in m[4..]
            && var (ageText, rest) := Partition(m[4..], 'h');
               && ageText == a
               && |rest| >= 6 && rest[..6] == " (SLA " && 'h' in rest[6..]
               && Partition(rest[6..], 'h').0 == s
  {
    var tail := " (SLA " + s + "h).";
    var m := "Age " + a + "h (SLA " + s + "h).";
    assert m == "Age " + a + "h" + tail;
    assert m[4..] == a + ['h'] + tail;
    PartitionFirst(a, tail, 'h');
    assert tail[..6] == " (SLA ";
    assert tail[6..] == s + ['h'] + ").";
    PartitionFirst(s, ").", 'h');
  }

  /** The verdict, message and details of the freshness check at `now`. */
  function CheckFreshness(d: Dataset, now: int, parse: TimeParser): (r: CheckResult)
    ensures r.name == "freshness"
    ensures d.Get(TimeKey, Null).Null? ==>
              r.status == YELLOW && r.message == "Missing last_updated or freshness_hours metadata."
    ensures parse(d.Get(TimeKey, Null)).None? || d.Get(SlaKey, Null).Null? ==>
              r.status == YELLOW && r.message == "Missing last_updated or freshness_hours metadata."
              && r.details == map[TimeKey := d.Get(TimeKey, Null), SlaKey := d.Get(SlaKey, Null)]
    ensures parse(d.Get(TimeKey, Null)).Some? && !d.Get(SlaKey, Null).Null? && ToFloat(d.Get(SlaKey, Null)).None? ==>
              r.status == YELLOW && r.message == "Invalid freshness_hours value."
              && r.details == map[SlaKey := d.Get(SlaKey, Null)]
    ensures parse(d.Get(TimeKey, Null)).Some? && ToFloat(d.Get(SlaKey, Null)).Some? ==>
              var last := parse(d.Get(TimeKey, Null)).value;
              var age, sla := AgeHours(now, last), ToFloat(d.Get(SlaKey, Null)).value;
              r.status == AgeStatus(age, sla) && r.message == AgeMessage(age, sla)
              && r.details == map[TimeKey := Time(last), "age_hours" := Float(Round(age, 2)), "sla_hours" := Float(sla)]
    ensures r.status != YELLOW ==> parse(d.Get(TimeKey, Null)).Some? && ToFloat(d.Get(SlaKey, Null)).Some?
  {
    var raw := d.Get(TimeKey, Null);
    var last := parse(raw);
    var hours := d.Get(SlaKey, Null);
    if last.None? || hours.Null? then
      CheckResult("freshness", YELLOW, "Missing last_updated or freshness_hours metadata.",
                  map[TimeKey := raw, SlaKey := hours])
    else if ToFloat(hours).None? then
      CheckResult("freshness", YELLOW, "Invalid freshness_hours value.", map[SlaKey := hours])
    else
      var age, sla := AgeHours(now, last.value), ToFloat(hours).value;
      CheckResult("freshness", AgeStatus(age, sla), AgeMessage(age, sla),
                  map[TimeKey := Time(last.value), "age_hours" := Float(Round(age, 2)), "sla_hours" := Float(sla)])
  }

  /** An older update never gets a better verdict from the check. */
  lemma FreshnessMonotone(d: Dataset, now: int, parse: TimeParser, newer: int, older: int)
    requires older <= newer
    ensures var dNewer := d.(metadata := d.metadata[TimeKey := Time(newer)]);
            var dOlder := d.(metadata := d.metadata[TimeKey := Time(older)]);
            Severity(CheckFreshness(dNewer, now, parse).status) <= Severity(CheckFreshness(dOlder, now, parse).status)
  {
    var dNewer := d.(metadata := d.metadata[TimeKey := Time(newer)]);
    var dOlder := d.(metadata := d.metadata[TimeKey := Time(older)]);
    assert dNewer.Get(SlaKey, Null) == dOlder.Get(SlaKey, Null) == d.Get(SlaKey, Null);
    var hours := d.Get(SlaKey, Null);
    if ToFloat(hours).Some? {
      assert AgeHours(now, newer) <= AgeHours(now, older);
      AgeMonotone(AgeHours(now, newer), AgeHours(now, older), ToFloat(hours).value);
    }
  }

  /** The check as the registry holds it, reading timestamps with `parse`. */
  function FreshnessCheck(parse: TimeParser): (spec: CheckSpec)
    ensures spec.name == "freshness"
    ensures forall d: Dataset, now: int :: spec.runner(d, now) == Some(CheckFreshness(d, now, parse))
  {
    CheckSpec("freshness", "Data is updated within freshness SLA.",
              (d: Dataset, now: int) => Some(CheckFreshness(d, now, parse)))
  }

  /** 2026-02-07T18:30:00Z in seconds since the epoch. */
  const ExampleNow := 1770489000

  /** A dataset updated at the text `updated` with a 12-hour SLA. */
  function Updated(updated: string): (d: Dataset)
    ensures d.Get(TimeKey, Null) == Str(updated) && d.Get(SlaKey, Null) == Int(12)
  {
    Dataset("sample", "", "", "", map[TimeKey := Str(updated), SlaKey := Int(12)], "")
  }

  /** Six hours old against a 12-hour SLA is GREEN. */
  lemma FreshExample(parse: TimeParser)
    requires parse(Str("2026-02-07T12:30:00Z")) == Some(1770467400)
    ensures CheckFreshness(Updated("2026-02-07T12:30:00Z"), ExampleNow, parse).status == GREEN
  {
    assert AgeHours(ExampleNow, 1770467400) == 6.0;
  }

  /** Fifty-six hours old against a 12-hour SLA is RED. */
  lemma StaleExample(parse: TimeParser)
    requires parse(Str("2026-02-05T10:30:00Z")) == Some(1770287400)
    ensures CheckFreshness(Updated("2026-02-05T10:30:00Z"), ExampleNow, parse).status == RED
  {
    assert AgeHours(ExampleNow, 1770287400) == 56.0;
  }
}
