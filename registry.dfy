/** The registries of the health pipeline: the statuses a check can report,
    check results, datasets and their metadata, and the two name-keyed tables
    (one of checks, one of datasets) that reject duplicate names and list
    their entries in ascending name order. */
module Registry {

  import opened Results
  import opened Strings
  import opened Values

  /** The three health statuses, from best to worst. */
  datatype Status = GREEN | YELLOW | RED
  {
    /** The enum's string value. */
    function Name(): (s: string)
      ensures s == "GREEN" <==> this == GREEN
      ensures s == "YELLOW" <==> this == YELLOW
      ensures s == "RED" <==> this == RED
    {
      match this
      case GREEN => "GREEN"
      case YELLOW => "YELLOW"
      case RED => "RED"
    }
  }

  /** The rank of a status in GREEN < YELLOW < RED. */
  function Severity(s: Status): (n: nat)
    ensures n <= 2
    ensures n == 0 <==> s == GREEN
    ensures n == 2 <==> s == RED
  {
    match s
    case GREEN => 0
    case YELLOW => 1
    case RED => 2
  }

  /** Distinct statuses have distinct ranks: the order is total and strict. */
  lemma SeverityInjective(a: Status, b: Status)
    ensures Severity(a) == Severity(b) <==> a == b
  {
  }

  /** The outcome of one check on one dataset. */
  datatype CheckResult = CheckResult(name: string, status: Status, message: string, details: map<string, Value>)

  /** The fields `to_dict` writes before the metadata is merged over them. */
  const BaseFields: set<string> := {"name", "description", "location", "owner", "source"}

  /** The fields `_dataset_from_dict` reads itself and keeps out of the metadata. */
  const ReservedFields: set<string> := {"name", "description", "location", "owner"}

  /** A dataset definition: four descriptive fields, free-form metadata that
      the checks read, and the file it was loaded from. */
  datatype Dataset = Dataset(
    name: string,
    description: string,
    location: string,
    owner: string,
    metadata: map<string, Value>,
    source: string)
  {
    /** `dataset.get(key, default)` */
    function Get(key: string, default: Value): (v: Value)
      ensures key in metadata ==> v == metadata[key]
      ensures key !in metadata ==> v == default
    {
      if key in metadata then metadata[key] else default
    }

    /** `dataset.to_dict()`: the five base fields as strings, with every
        metadata entry written over them, so that metadata wins on a clash. */
    function ToDict(): (d: map<string, Value>)
      ensures d.Keys == BaseFields + metadata.Keys
      ensures forall k :: k in metadata ==> d[k] == metadata[k]
      ensures "name" !in metadata ==> d["name"] == Str(name)
      ensures "description" !in metadata ==> d["description"] == Str(description)
      ensures "location" !in metadata ==> d["location"] == Str(location)
      ensures "owner" !in metadata ==> d["owner"] == Str(owner)
      ensures "source" !in metadata ==> d["source"] == Str(source)
    {
      var base := map["name" := Str(name), "description" := Str(description),
                       "location" := Str(location), "owner" := Str(owner),
                       "source" := Str(source)];
      base + metadata
    }
  }

  /** A check as `run_all` sees it: a function from a dataset and the
      evaluation time (seconds since the epoch) to a result, or to None when
      the check returns something that is not a `CheckResult`. */
  type Runner = (Dataset, int) -> Option<CheckResult>

  datatype CheckSpec = CheckSpec(name: string, description: string, runner: Runner)

  /** The values of a name-keyed table, in ascending order of their names. */
  function InNameOrder<T>(m: map<string, T>): (r: seq<T>)
    ensures |r| == |m.Keys|
    ensures forall i :: 0 <= i < |r| ==> SortedNames(m.Keys)[i] in m && r[i] == m[SortedNames(m.Keys)[i]]
  {
    var names := SortedNames(m.Keys);
    seq(|names|, i requires 0 <= i < |names| => m[names[i]])
  }

  function CheckNames(specs: seq<CheckSpec>): (r: seq<string>)
    ensures |r| == |specs| && forall i :: 0 <= i < |r| ==> r[i] == specs[i].name
  {
    seq(|specs|, i requires 0 <= i < |specs| => specs[i].name)
  }

  function DatasetNames(ds: seq<Dataset>): (r: seq<string>)
    ensures |r| == |ds| && forall i :: 0 <= i < |r| ==> r[i] == ds[i].name
  {
    seq(|ds|, i requires 0 <= i < |ds| => ds[i].name)
  }

  /** What `run_all` computes from a list of checks: every runner's result in
      list order, or the error of the first runner that returns something
      other than a `CheckResult`. */
  function RunChecks(specs: seq<CheckSpec>, d: Dataset, now: int): (r: Result<seq<CheckResult>>)
    ensures r.Ok? <==> forall i :: 0 <= i < |specs| ==> specs[i].runner(d, now).Some?
    ensures r.Ok? ==> |r.value| == |specs|
                      && forall i :: 0 <= i < |specs| ==> Some(r.value[i]) == specs[i].runner(d, now)
  {
    if specs == [] then Ok([])
    else
      match RunChecks(specs[..|specs| - 1], d, now)
      case Err(e) => Err(e)
      case Ok(rs) =>
        match specs[|specs| - 1].runner(d, now)
        case None => Err(ValueError("Check " + specs[|specs| - 1].name + " returned invalid result type"))
        case Some(c) => Ok(rs + [c])
  }

  /** A failed run reports the first check whose runner returned something
      other than a `CheckResult`, by name. */
  lemma {:induction false} RunChecksFailure(specs: seq<CheckSpec>, d: Dataset, now: int)
    requires RunChecks(specs, d, now).Err?
    ensures exists i :: && 0 <= i < |specs|
                        && (forall j :: 0 <= j < i ==> specs[j].runner(d, now).Some?)
                        && specs[i].runner(d, now).None?
                        && RunChecks(specs, d, now).error
                           == ValueError("Check " + specs[i].name + " returned invalid result type")
    decreases |specs|, 1
  {
    if RunChecks(specs[..|specs| - 1], d, now).Err? {
      FrontFailure(specs, d, now);
    } else {
      LastFailure(specs, d, now);
    }
  }

  /** A run whose checks before the last already failed reports what they
      report. */
  lemma {:induction false} FrontFailure(specs: seq<CheckSpec>, d: Dataset, now: int)
    requires specs != [] && RunChecks(specs[..|specs| - 1], d, now).Err?
    ensures RunChecks(specs, d, now).Err?
    ensures exists i :: && 0 <= i < |specs|
                        && (forall j :: 0 <= j < i ==> specs[j].runner(d, now).Some?)
                        && specs[i].runner(d, now).None?
                        && RunChecks(specs, d, now).error
                           == ValueError("Check " + specs[i].name + " returned invalid result type")
    decreases |specs|, 0
  {
    var front := specs[..|specs| - 1];
    RunChecksFailure(front, d, now);
    var i :| && 0 <= i < |front|
             && (forall j :: 0 <= j < i ==> front[j].runner(d, now).Some?)
             && front[i].runner(d, now).None?
             && RunChecks(front, d, now).error
                == ValueError("Check " + front[i].name + " returned invalid result type");
    assert specs[i] == front[i];
    assert forall j :: 0 <= j < i ==> specs[j] == front[j];
  }

  /** A run whose checks before the last succeeded fails at the last. */
  lemma LastFailure(specs: seq<CheckSpec>, d: Dataset, now: int)
    requires specs != [] && RunChecks(specs[..|specs| - 1], d, now).Ok?
    requires RunChecks(specs, d, now).Err?
    ensures exists i :: && 0 <= i < |specs|
                        && (forall j :: 0 <= j < i ==> specs[j].runner(d, now).Some?)
                        && specs[i].runner(d, now).None?
                        && RunChecks(specs, d, now).error
                           == ValueError("Check " + specs[i].name + " returned invalid result type")
  {
    var front := specs[..|specs| - 1];
    var i := |specs| - 1;
    assert forall j :: 0 <= j < i ==> specs[j] == front[j];
  }

  /** Running one more check after a successful prefix. */
  lemma RunChecksExtend(specs: seq<CheckSpec>, i: nat, d: Dataset, now: int)
    requires i < |specs| && RunChecks(specs[..i], d, now).Ok?
    ensures RunChecks(specs[..i + 1], d, now)
            == match specs[i].runner(d, now)
               case None => Err(ValueError("Check " + specs[i].name + " returned invalid result type"))
               case Some(c) => Ok(RunChecks(specs[..i], d, now).value + [c])
  {
    assert specs[..i + 1][..i] == specs[..i];
  }

  /** Once a prefix of the checks has failed, the whole list fails the same way. */
  lemma {:induction false} FailurePersists(specs: seq<CheckSpec>, i: nat, d: Dataset, now: int)
    requires i <= |specs|
    requires RunChecks(specs[..i], d, now).Err?
    ensures RunChecks(specs, d, now) == RunChecks(specs[..i], d, now)
    decreases |specs| - i
  {
    if i < |specs| {
      assert specs[..i + 1][..i] == specs[..i];
      FailurePersists(specs, i + 1, d, now);
    } else {
      assert specs[..i] == specs;
    }
  }

  /** A sequence of specs, each filed under its name in the registry and
      named in sorted order of the registry's names, is what `List` gives. */
  lemma ListedAs(reg: CheckRegistry, specs: seq<CheckSpec>)
    requires reg.Valid()
    requires CheckNames(specs) == SortedNames(reg.checks.Keys)
    requires forall i :: 0 <= i < |specs| ==> specs[i].name in reg.checks && reg.checks[specs[i].name] == specs[i]
    ensures reg.List() == specs
  {
    var r := reg.List();
    forall i | 0 <= i < |r| ensures r[i] == specs[i] {
      assert CheckNames(r)[i] == CheckNames(specs)[i];
    }
  }

  /** A table of checks keyed by name, as `CheckRegistry` keeps it. */
  class CheckRegistry {
    var checks: map<string, CheckSpec>

    /** Every entry is filed under its own name. */
    ghost predicate Valid()
      reads this
    {
      forall n :: n in checks ==> checks[n].name == n
    }

    constructor()
      ensures Valid() && checks == map[]
    {
      checks := map[];
    }

    /** `register`: a name already present is refused and the table is left
        as it was; otherwise exactly that entry is added. */
    method Register(name: string, description: string, runner: Runner) returns (r: Outcome)
      requires Valid()
      modifies this
      ensures Valid()
      ensures name in old(checks) ==> r == Fail(ValueError("Check already registered: " + name))
                                      && checks == old(checks)
      ensures name !in old(checks) ==> r == Pass
                                       && checks == old(checks)[name := CheckSpec(name, description, runner)]
    {
      if name in checks {
        return Fail(ValueError("Check already registered: " + name));
      }
      checks := checks[name := CheckSpec(name, description, runner)];
      return Pass;
    }

    /** `list`: one spec per registered name, in strictly ascending name order. */
    function List(): (r: seq<CheckSpec>)
      reads this
      requires Valid()
      ensures |r| == |checks.Keys|
      ensures forall i :: 0 <= i < |r| ==> r[i].name in checks && checks[r[i].name] == r[i]
      ensures forall n :: n in checks <==> n in CheckNames(r)
      ensures Ascending(CheckNames(r))
      ensures CheckNames(r) == SortedNames(checks.Keys)
    {
      var r := InNameOrder(checks);
      assert CheckNames(r) == SortedNames(checks.Keys);
      r
    }

    /** `run_all`: runs every check in `List()` order. */
    method RunAll(d: Dataset, now: int) returns (r: Result<seq<CheckResult>>)
      requires Valid()
      ensures r == RunChecks(List(), d, now)
    {
      var specs := List();
      var results: seq<CheckResult> := [];
      var i := 0;
      while i < |specs|
        invariant 0 <= i <= |specs|
        invariant RunChecks(specs[..i], d, now) == Ok(results)
      {
        var out := specs[i].runner(d, now);
        RunChecksExtend(specs, i, d, now);
        if out.None? {
          FailurePersists(specs, i + 1, d, now);
          return Err(ValueError("Check " + specs[i].name + " returned invalid result type"));
        }
        results := results + [out.value];
        i := i + 1;
      }
      assert specs[..i] == specs;
      return Ok(results);
    }
  }

  /** A table of datasets keyed by name, as `DatasetRegistry` keeps it. */
  class DatasetRegistry {
    var datasets: map<string, Dataset>

    /** Every dataset is filed under its own name. */
    ghost predicate Valid()
      reads this
    {
      forall n :: n in datasets ==> datasets[n].name == n
    }

    constructor()
      ensures Valid() && datasets == map[]
    {
      datasets := map[];
    }

    /** `add`: a dataset whose name is already present is refused and the
        table is left as it was; otherwise exactly that entry is added. */
    method Add(d: Dataset) returns (r: Outcome)
      requires Valid()
      modifies this
      ensures Valid()
      ensures d.name in old(datasets) ==> r == Fail(ValueError("Dataset already registered: " + d.name))
                                          && datasets == old(datasets)
      ensures d.name !in old(datasets) ==> r == Pass && datasets == old(datasets)[d.name := d]
    {
      if d.name in datasets {
        return Fail(ValueError("Dataset already registered: " + d.name));
      }
      datasets := datasets[d.name := d];
      return Pass;
    }

    /** `list`: one dataset per registered name, in strictly ascending name order. */
    function List(): (r: seq<Dataset>)
      reads this
      requires Valid()
      ensures |r| == |datasets.Keys|
      ensures forall i :: 0 <= i < |r| ==> r[i].name in datasets && datasets[r[i].name] == r[i]
      ensures forall n :: n in datasets <==> n in DatasetNames(r)
      ensures Ascending(DatasetNames(r))
      ensures DatasetNames(r) == SortedNames(datasets.Keys)
    {
      var r := InNameOrder(datasets);
      assert DatasetNames(r) == SortedNames(datasets.Keys);
      r
    }
  }

  /** `str(payload.get(key) or "")`: the text of a present, truthy field, and
      the empty string otherwise. */
  function Field(entries: map<string, Value>, key: string): (t: string)
    ensures key in entries && entries[key].Str? ==> t == entries[key].s
    ensures key in entries && Truthy(entries[key]) ==> t == Text(entries[key])
    ensures key in entries && !Truthy(entries[key]) ==> t == ""
    ensures key !in entries ==> t == ""
  {
    if key in entries && Truthy(entries[key]) then Text(entries[key]) else ""
  }

  /** `_dataset_from_dict`: a mapping with a non-blank name becomes a dataset
      whose name is that name stripped of surrounding whitespace, whose three
      descriptive fields are read the same way, and whose metadata is every
      other entry, unchanged. */
  function DatasetFromDict(payload: Value, source: string): (r: Result<Dataset>)
    ensures !payload.Dict? ==> r == Err(ValueError("Dataset entry must be a mapping"))
    ensures payload.Dict? && Strip(Field(payload.entries, "name")) == []
            ==> r == Err(ValueError("Dataset entry missing required field: name"))
    ensures payload.Dict? && Strip(Field(payload.entries, "name")) != [] ==> r.Ok?
    ensures r.Ok? ==>
              && r.value.name == Strip(Field(payload.entries, "name"))
              && r.value.description == Field(payload.entries, "description")
              && r.value.location == Field(payload.entries, "location")
              && r.value.owner == Field(payload.entries, "owner")
              && r.value.source == source
              && r.value.metadata.Keys == payload.entries.Keys - ReservedFields
              && forall k :: k in r.value.metadata ==> r.value.metadata[k] == payload.entries[k]
  {
    match payload
    case Dict(entries) =>
      var name := Strip(Field(entries, "name"));
      if name == [] then Err(ValueError("Dataset entry missing required field: name"))
      else
        var metadata := map k | k in entries && k !in ReservedFields :: entries[k];
        Ok(Dataset(name, Field(entries, "description"), Field(entries, "location"),
                   Field(entries, "owner"), metadata, source))
    case _ => Err(ValueError("Dataset entry must be a mapping"))
  }

  /** A loaded dataset's name is non-empty and has no surrounding whitespace:
      stripping it again changes nothing. */
  lemma LoadedNameTrimmed(payload: Value, source: string)
    requires DatasetFromDict(payload, source).Ok?
    ensures var n := DatasetFromDict(payload, source).value.name;
            n != [] && !IsSpace(n[0]) && !IsSpace(n[|n| - 1]) && Strip(n) == n
  {
    StripIdempotent(Field(payload.entries, "name"));
  }

  /** `get` on a loaded dataset returns the payload's own value for any key
      other than the four reserved fields, and the default for absent keys. */
  lemma LoadedGet(entries: map<string, Value>, source: string, key: string, default: Value)
    requires DatasetFromDict(Dict(entries), source).Ok?
    requires key !in ReservedFields
    ensures DatasetFromDict(Dict(entries), source).value.Get(key, default)
            == if key in entries then entries[key] else default
  {
  }

  /** `to_dict` of a loaded dataset gives back every payload entry except the
      reserved ones verbatim; a payload `source` entry overrides the file name. */
  lemma LoadedToDict(entries: map<string, Value>, source: string)
    requires DatasetFromDict(Dict(entries), source).Ok?
    ensures var d := DatasetFromDict(Dict(entries), source).value.ToDict();
            && (forall k :: k in entries && k !in ReservedFields ==> k in d && d[k] == entries[k])
            && ("source" !in entries ==> d["source"] == Str(source))
            && d["name"] == Str(DatasetFromDict(Dict(entries), source).value.name)
  {
  }
}
