/** The four built-in checks together, as a registry holding them runs them. */
module Builtins {

  import opened Results
  import opened Strings
  import opened Registry
  import opened Completeness
  import opened Freshness
  import opened Schema
  import opened Volume

  /** The built-in checks in ascending name order. */
  function BuiltinChecks(parse: TimeParser): (specs: seq<CheckSpec>)
    ensures CheckNames(specs) == ["completeness", "freshness", "schema", "volume"]
  {
    [CompletenessCheck, FreshnessCheck(parse), SchemaCheck, VolumeCheck]
  }

  /** The built-in names are listed as `sorted` lists them. */
  lemma BuiltinsSorted(parse: TimeParser)
    ensures CheckNames(BuiltinChecks(parse)) == SortedNames({"completeness", "freshness", "schema", "volume"})
  {
    var names := CheckNames(BuiltinChecks(parse));
    assert Less(names[0], names[1]) && Less(names[1], names[2]) && Less(names[2], names[3]);
    LessTransitive(names[0], names[1], names[2]);
    LessTransitive(names[1], names[2], names[3]);
    LessTransitive(names[0], names[2], names[3]);
    SortedNamesUnique(names, {"completeness", "freshness", "schema", "volume"});
  }

  /** A registry holding exactly the four built-in checks lists them in
      this order. */
  lemma RegistryListsBuiltins(reg: CheckRegistry, parse: TimeParser)
    requires reg.Valid() && reg.checks == BuiltinTable(parse)
    ensures reg.List() == BuiltinChecks(parse)
  {
    BuiltinsSorted(parse);
    BuiltinsFiled(parse);
    ListedAs(reg, BuiltinChecks(parse));
  }

  /** Each built-in check is filed in the table under its own name. */
  lemma BuiltinsFiled(parse: TimeParser)
    ensures var specs, t := BuiltinChecks(parse), BuiltinTable(parse);
            forall i :: 0 <= i < |specs| ==> specs[i].name in t && t[specs[i].name] == specs[i]
  {
    FiledUnderNames(BuiltinChecks(parse), BuiltinTable(parse));
  }

  /** The registry's table once the four built-in checks are registered. */
  function BuiltinTable(parse: TimeParser): (t: map<string, CheckSpec>)
    ensures t.Keys == {"completeness", "freshness", "schema", "volume"}
    ensures t["completeness"] == CompletenessCheck && t["freshness"] == FreshnessCheck(parse)
    ensures t["schema"] == SchemaCheck && t["volume"] == VolumeCheck
  {
    map["completeness" := CompletenessCheck, "freshness" := FreshnessCheck(parse),
        "schema" := SchemaCheck, "volume" := VolumeCheck]
  }

  lemma FiledUnderNames(specs: seq<CheckSpec>, checks: map<string, CheckSpec>)
    requires |specs| == 4
    requires specs[0].name in checks && checks[specs[0].name] == specs[0]
    requires specs[1].name in checks && checks[specs[1].name] == specs[1]
    requires specs[2].name in checks && checks[specs[2].name] == specs[2]
    requires specs[3].name in checks && checks[specs[3].name] == specs[3]
    ensures forall i :: 0 <= i < |specs| ==> specs[i].name in checks && checks[specs[i].name] == specs[i]
  {
  }

  /** Every built-in check returns a result, so running them never fails
      and yields one result per check, in name order. */
  lemma BuiltinsRun(parse: TimeParser, d: Dataset, now: int)
    ensures var r := RunChecks(BuiltinChecks(parse), d, now);
            && r.Ok? && |r.value| == 4
            && r.value[0].name == "completeness" && r.value[1].name == "freshness"
            && r.value[2].name == "schema" && r.value[3].name == "volume"
  {
    var specs := BuiltinChecks(parse);
    RunnerResults(specs, d, now);
  }

  lemma RunnerResults(specs: seq<CheckSpec>, d: Dataset, now: int)
    requires |specs| == 4
    requires specs[0].runner(d, now).Some? && specs[1].runner(d, now).Some?
    requires specs[2].runner(d, now).Some? && specs[3].runner(d, now).Some?
    ensures forall i :: 0 <= i < |specs| ==> specs[i].runner(d, now).Some?
  {
  }
}
