/** The schema check: the dataset's fields against the expected fields, as
    sets. */
module Schema {

  import opened Results
  import opened Strings
  import opened Values
  import opened Registry

  /** `_normalize_schema`: a list or tuple becomes its elements as strings, in
      order; None and every other value become the empty list. */
  function NormalizeSchema(v: Value): (r: seq<string>)
    ensures v.List? ==> |r| == |v.items| && forall i :: 0 <= i < |r| ==> r[i] == Text(v.items[i])
    ensures !v.List? ==> r == []
  {
    match v
    case List(items) => seq(|items|, i requires 0 <= i < |items| => Text(items[i]))
    case _ => []
  }

  /** A list of strings, as metadata, normalizes back to itself. */
  lemma NormalizeStrList(names: seq<string>)
    ensures NormalizeSchema(StrList(names)) == names
  {
  }

  /** `set(fields)` */
  function Fields(fields: seq<string>): (s: set<string>)
    ensures forall f :: f in s <==> f in fields
    ensures s == {} <==> fields == []
  {
    assert fields != [] ==> fields[0] in fields;
    set f | f in fields
  }

  /** `sorted(set(a) - set(b))`: the fields of `a` that `b` lacks, ascending
      and without repeats. */
  function Difference(a: seq<string>, b: seq<string>): (r: seq<string>)
    ensures Ascending(r)
    ensures forall f :: f in r <==> f in a && f !in b
  {
    SortedNames(Fields(a) - Fields(b))
  }

  /** The normalized actual and expected fields of a dataset. */
  function Actual(d: Dataset): seq<string>
  {
    NormalizeSchema(d.Get("schema", Null))
  }

  function Expected(d: Dataset): seq<string>
  {
    NormalizeSchema(d.Get("expected_schema", Null))
  }

  /** The verdict, message and details of the schema check. Missing fields
      make it RED whatever else holds; extra fields alone make it YELLOW. */
  function CheckSchema(d: Dataset, now: int): (r: CheckResult)
    ensures r.name == "schema"
    ensures Actual(d) == [] || Expected(d) == [] ==>
              r.status == YELLOW && r.message == "Missing schema or expected_schema metadata."
              && r.details == map["schema" := StrList(Actual(d)), "expected_schema" := StrList(Expected(d))]
    ensures r.status == RED <==>
              Actual(d) != [] && exists f :: f in Expected(d) && f !in Actual(d)
    ensures r.status == GREEN <==>
              Actual(d) != [] && Expected(d) != [] && Fields(Actual(d)) == Fields(Expected(d))
    ensures r.status == RED ==> r.message == "Missing expected fields."
    ensures r.status == GREEN ==> r.message == "Schema matches expected fields."
                                  && r.details == map["missing" := StrList([]), "extra" := StrList([])]
    ensures Actual(d) != [] && Expected(d) != [] ==>
              (r.status == YELLOW ==> r.message == "Schema has extra fields.")
              && r.details == map["missing" := StrList(Difference(Expected(d), Actual(d))),
                                   "extra" := StrList(Difference(Actual(d), Expected(d)))]
  {
    var actual, expected := Actual(d), Expected(d);
    if actual == [] || expected == [] then
      CheckResult("schema", YELLOW, "Missing schema or expected_schema metadata.",
                  map["schema" := StrList(actual), "expected_schema" := StrList(expected)])
    else
      var missing, extra := Difference(expected, actual), Difference(actual, expected);
      var (status, message) :=
        if missing != [] then (RED, "Missing expected fields.")
        else if extra != [] then (YELLOW, "Schema has extra fields.")
        else (GREEN, "Schema matches expected fields.");
      assert missing != [] ==> missing[0] in missing;
      assert extra != [] ==> extra[0] in extra;
      CheckResult("schema", status, message, map["missing" := StrList(missing), "extra" := StrList(extra)])
  }

  /** The missing and extra fields never share a field. */
  lemma DifferencesDisjoint(actual: seq<string>, expected: seq<string>)
    ensures forall f :: f in Difference(expected, actual) ==> f !in Difference(actual, expected)
  {
  }

  /** Only the sets of fields count: reordering or repeating fields on
      either side changes neither the verdict nor the message, and, once
      both sides are present, not the details either. */
  lemma SchemaSetsOnly(d1: Dataset, d2: Dataset, now: int)
    requires Fields(Actual(d1)) == Fields(Actual(d2))
    requires Fields(Expected(d1)) == Fields(Expected(d2))
    ensures CheckSchema(d1, now).status == CheckSchema(d2, now).status
    ensures CheckSchema(d1, now).message == CheckSchema(d2, now).message
    ensures Actual(d1) != [] && Expected(d1) != [] ==> CheckSchema(d1, now) == CheckSchema(d2, now)
  {
  }

  /** The check as the registry holds it. */
  const SchemaCheck: CheckSpec :=
    CheckSpec("schema", "Schema matches expected fields.",
              (d: Dataset, now: int) => Some(CheckSchema(d, now)))

  /** A dataset with the given fields and expected fields. */
  function Described(fields: seq<string>, expected: seq<string>): (d: Dataset)
    ensures Actual(d) == fields && Expected(d) == expected
  {
    NormalizeStrList(fields);
    NormalizeStrList(expected);
    Dataset("sample", "", "", "", map["schema" := StrList(fields), "expected_schema" := StrList(expected)], "")
  }

  /** A missing `ts` is RED, and `ts` is the whole of the missing list. */
  lemma SchemaMissingExample(now: int)
    ensures var r := CheckSchema(Described(["id", "user_id"], ["id", "user_id", "ts"]), now);
            r.status == RED && r.details["missing"] == StrList(["ts"]) && r.details["extra"] == StrList([])
  {
    var a, e := ["id", "user_id"], ["id", "user_id", "ts"];
    SingleDifference(e, a, "ts");
    NoDifference(a, e);
  }

  /** An extra `device` alone is YELLOW. */
  lemma SchemaExtraExample(now: int)
    ensures var r := CheckSchema(Described(["id", "user_id", "ts", "device"], ["id", "user_id", "ts"]), now);
            r.status == YELLOW && r.details["missing"] == StrList([]) && r.details["extra"] == StrList(["device"])
  {
    var a, e := ["id", "user_id", "ts", "device"], ["id", "user_id", "ts"];
    SingleDifference(a, e, "device");
    NoDifference(e, a);
  }

  /** Equal fields are GREEN. */
  lemma SchemaMatchExample(now: int)
    ensures CheckSchema(Described(["id", "user_id"], ["id", "user_id"]), now).status == GREEN
  {
  }

  /** When exactly one field of `a` is absent from `b`, that field is the
      whole difference. */
  lemma SingleDifference(a: seq<string>, b: seq<string>, f: string)
    requires f in a && f !in b
    requires forall g :: g in a && g != f ==> g in b
    ensures Difference(a, b) == [f]
  {
    var r := Difference(a, b);
    assert Fields(a) - Fields(b) == {f};
    assert |r| == 1;
    assert r[0] in r;
  }

  /** When every field of `a` is in `b`, nothing is left over. */
  lemma NoDifference(a: seq<string>, b: seq<string>)
    requires forall g :: g in a ==> g in b
    ensures Difference(a, b) == []
  {
  }
}
