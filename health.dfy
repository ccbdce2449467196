/** Evaluation and aggregation: a dataset's status is the worst status of its
    checks, a report holds one evaluated dataset per input dataset, all
    evaluated at one shared time, and its summary counts datasets per status. */
module Health {

  import opened Results
  import opened Strings
  import opened Registry

  /** The worst-wins rule over a set of statuses: RED if present, else
      YELLOW if present, else GREEN (also for no statuses at all). */
  function WorstOf(statuses: set<Status>): (s: Status)
    ensures s != GREEN ==> s in statuses
    ensures statuses == {} ==> s == GREEN
    ensures forall t :: t in statuses ==> Severity(t) <= Severity(s)
  {
    if RED in statuses then RED
    else if YELLOW in statuses then YELLOW
    else GREEN
  }

  /** `{result.status for result in results}` */
  function ResultStatuses(results: seq<CheckResult>): (r: set<Status>)
    ensures forall s :: s in r <==> exists i :: 0 <= i < |results| && results[i].status == s
  {
    set i | 0 <= i < |results| :: results[i].status
  }

  /** `aggregate_status`: RED iff some check is RED; otherwise YELLOW iff
      some check is YELLOW; otherwise GREEN, which is also the status of no
      checks at all. */
  function AggregateStatus(results: seq<CheckResult>): (s: Status)
    ensures s == RED <==> exists i :: 0 <= i < |results| && results[i].status == RED
    ensures s == YELLOW <==> && (forall i :: 0 <= i < |results| ==> results[i].status != RED)
                             && (exists i :: 0 <= i < |results| && results[i].status == YELLOW)
    ensures s == GREEN <==> forall i :: 0 <= i < |results| ==> results[i].status == GREEN
    ensures results == [] ==> s == GREEN
  {
    var statuses := ResultStatuses(results);
    assert RED in statuses <==> exists i :: 0 <= i < |results| && results[i].status == RED;
    assert YELLOW in statuses <==> exists i :: 0 <= i < |results| && results[i].status == YELLOW;
    WorstOf(statuses)
  }

  function Max(a: nat, b: nat): nat
  {
    if a < b then b else a
  }

  /** Reference definition: the largest severity among the results, 0 for none. */
  function MaxSeverity(results: seq<CheckResult>): nat
  {
    if results == [] then 0
    else Max(MaxSeverity(results[..|results| - 1]), Severity(results[|results| - 1].status))
  }

  /** The worst-wins rule is the severity maximum. */
  lemma {:induction false} AggregateIsMaxSeverity(results: seq<CheckResult>)
    ensures Severity(AggregateStatus(results)) == MaxSeverity(results)
  {
    if results != [] {
      var front := results[..|results| - 1];
      AggregateIsMaxSeverity(front);
      var last := results[|results| - 1];
      assert forall i :: 0 <= i < |front| ==> front[i] == results[i];
      if AggregateStatus(front) == RED {
        var i :| 0 <= i < |front| && front[i].status == RED;
        assert results[i].status == RED;
      } else if AggregateStatus(front) == YELLOW {
        var i :| 0 <= i < |front| && front[i].status == YELLOW;
        assert results[i].status == YELLOW;
      }
      if last.status == RED {
        assert results[|results| - 1].status == RED;
      } else if last.status == YELLOW {
        assert results[|results| - 1].status == YELLOW;
      }
    }
  }

  /** The aggregate depends on the set of statuses alone: reordering or
      duplicating results does not change it. */
  lemma AggregateOfSameStatuses(a: seq<CheckResult>, b: seq<CheckResult>)
    requires ResultStatuses(a) == ResultStatuses(b)
    ensures AggregateStatus(a) == AggregateStatus(b)
  {
    assert RED in ResultStatuses(a) <==> RED in ResultStatuses(b);
    assert YELLOW in ResultStatuses(a) <==> YELLOW in ResultStatuses(b);
  }

  /** In particular, any permutation of the results has the same aggregate. */
  lemma AggregatePermutation(a: seq<CheckResult>, b: seq<CheckResult>)
    requires multiset(a) == multiset(b)
    ensures AggregateStatus(a) == AggregateStatus(b)
  {
    forall s ensures s in ResultStatuses(a) <==> s in ResultStatuses(b) {
      if s in ResultStatuses(a) {
        var i :| 0 <= i < |a| && a[i].status == s;
        assert a[i] in multiset(b);
        var j :| 0 <= j < |b| && b[j] == a[i];
      }
      if s in ResultStatuses(b) {
        var j :| 0 <= j < |b| && b[j].status == s;
        assert b[j] in multiset(a);
        var i :| 0 <= i < |a| && a[i] == b[j];
      }
    }
    AggregateOfSameStatuses(a, b);
  }

  /** Repeating a result already present does not change the aggregate. */
  lemma AggregateDuplicate(a: seq<CheckResult>, i: nat)
    requires i < |a|
    ensures AggregateStatus(a + [a[i]]) == AggregateStatus(a)
  {
    var b := a + [a[i]];
    forall s ensures s in ResultStatuses(a) <==> s in ResultStatuses(b) {
      if s in ResultStatuses(b) {
        var j :| 0 <= j < |b| && b[j].status == s;
        if j < |a| { assert a[j] == b[j]; } else { assert a[i] == b[j]; }
      }
      if s in ResultStatuses(a) {
        var j :| 0 <= j < |a| && a[j].status == s;
        assert b[j] == a[j];
      }
    }
    AggregateOfSameStatuses(a, b);
  }

  /** One evaluated dataset. */
  datatype DatasetHealth = DatasetHealth(dataset: Dataset, status: Status, checks: seq<CheckResult>)

  /** Per-status dataset counts, as `summary` returns them. */
  datatype Counts = Counts(green: nat, yellow: nat, red: nat, total: nat)

  /** The statuses of a list of evaluated datasets, in order. */
  function DatasetStatuses(ds: seq<DatasetHealth>): (r: seq<Status>)
    ensures |r| == |ds| && forall i :: 0 <= i < |ds| ==> r[i] == ds[i].status
  {
    seq(|ds|, i requires 0 <= i < |ds| => ds[i].status)
  }

  /** How many datasets of `ds` have status `s`. */
  function Tally(ds: seq<DatasetHealth>, s: Status): (n: nat)
    ensures n <= |ds|
  {
    if ds == [] then 0
    else Tally(ds[..|ds| - 1], s) + (if ds[|ds| - 1].status == s then 1 else 0)
  }

  lemma TallyStep(ds: seq<DatasetHealth>, i: nat)
    requires i < |ds|
    ensures forall s :: Tally(ds[..i + 1], s) == Tally(ds[..i], s) + if ds[i].status == s then 1 else 0
  {
    assert ds[..i + 1][..i] == ds[..i];
  }

  /** `Tally` is the multiplicity of the status among the datasets' statuses. */
  lemma {:induction false} TallyIsMultiplicity(ds: seq<DatasetHealth>, s: Status)
    ensures Tally(ds, s) == multiset(DatasetStatuses(ds))[s]
  {
    if ds != [] {
      var front := ds[..|ds| - 1];
      TallyIsMultiplicity(front, s);
      assert DatasetStatuses(ds) == DatasetStatuses(front) + [ds[|ds| - 1].status];
    }
  }

  /** Every dataset has exactly one of the three statuses. */
  lemma {:induction false} TallySum(ds: seq<DatasetHealth>)
    ensures Tally(ds, GREEN) + Tally(ds, YELLOW) + Tally(ds, RED) == |ds|
  {
    if ds != [] {
      TallySum(ds[..|ds| - 1]);
    }
  }

  /** The per-status counts of a list of evaluated datasets. */
  function CountsOf(ds: seq<DatasetHealth>): (c: Counts)
    ensures c.total == |ds| && c.green + c.yellow + c.red == c.total
    ensures c.green == multiset(DatasetStatuses(ds))[GREEN]
    ensures c.yellow == multiset(DatasetStatuses(ds))[YELLOW]
    ensures c.red == multiset(DatasetStatuses(ds))[RED]
  {
    TallySum(ds);
    TallyIsMultiplicity(ds, GREEN);
    TallyIsMultiplicity(ds, YELLOW);
    TallyIsMultiplicity(ds, RED);
    Counts(Tally(ds, GREEN), Tally(ds, YELLOW), Tally(ds, RED), |ds|)
  }

  /** A report: the evaluation time (seconds since the epoch) and one
      evaluated dataset per input dataset. */
  datatype HealthReport = HealthReport(generatedAt: int, datasets: seq<DatasetHealth>)
  {
    /** `summary`: counts the datasets of each status in one pass over the
        report, together with their total. */
    method Summary() returns (c: Counts)
      ensures c == CountsOf(datasets)
    {
      var counts: map<Status, nat> := map[GREEN := 0, YELLOW := 0, RED := 0];
      assert forall s :: s in counts by {
        forall s ensures s in counts {
          match s { case GREEN => case YELLOW => case RED => }
        }
      }
      var i := 0;
      while i < |datasets|
        invariant 0 <= i <= |datasets|
        invariant forall s :: s in counts && counts[s] == Tally(datasets[..i], s)
      {
        var s := datasets[i].status;
        TallyStep(datasets, i);
        counts := counts[s := counts[s] + 1];
        i := i + 1;
      }
      assert datasets[..i] == datasets;
      c := Counts(counts[GREEN], counts[YELLOW], counts[RED], |datasets|);
    }
  }

  /** One dataset evaluated against an ordered list of checks: the results of
      running them all, and their aggregate status; fails as running them
      fails. */
  function Evaluate(d: Dataset, specs: seq<CheckSpec>, now: int): (r: Result<DatasetHealth>)
    ensures r.Ok? <==> RunChecks(specs, d, now).Ok?
    ensures r.Ok? ==> && r.value.dataset == d
                      && r.value.checks == RunChecks(specs, d, now).value
                      && r.value.status == AggregateStatus(r.value.checks)
    ensures r.Err? ==> r.error == RunChecks(specs, d, now).error
  {
    match RunChecks(specs, d, now)
    case Ok(results) => Ok(DatasetHealth(d, AggregateStatus(results), results))
    case Err(e) => Err(e)
  }

  /** `evaluate_dataset`: `Evaluate` against the registry's checks, in the
      order `run_all` runs them. */
  function EvaluateDataset(d: Dataset, registry: CheckRegistry, now: int): (r: Result<DatasetHealth>)
    reads registry
    requires registry.Valid()
    ensures r.Ok? <==> RunChecks(registry.List(), d, now).Ok?
    ensures r.Ok? ==> && r.value.dataset == d
                      && r.value.checks == RunChecks(registry.List(), d, now).value
                      && r.value.status == AggregateStatus(r.value.checks)
    ensures r.Err? ==> r.error == RunChecks(registry.List(), d, now).error
  {
    Evaluate(d, registry.List(), now)
  }

  /** The list comprehension of `evaluate_all`: every dataset evaluated at
      the same time `now`, in input order, or the first failure. */
  function EvaluateEach(ds: seq<Dataset>, specs: seq<CheckSpec>, now: int): (r: Result<seq<DatasetHealth>>)
    ensures r.Ok? <==> forall i :: 0 <= i < |ds| ==> Evaluate(ds[i], specs, now).Ok?
    ensures r.Ok? ==> && |r.value| == |ds|
                      && forall i :: 0 <= i < |ds| ==> Ok(r.value[i]) == Evaluate(ds[i], specs, now)
  {
    if ds == [] then Ok([])
    else
      match EvaluateEach(ds[..|ds| - 1], specs, now)
      case Err(e) => Err(e)
      case Ok(hs) =>
        match Evaluate(ds[|ds| - 1], specs, now)
        case Err(e) => Err(e)
        case Ok(h) => Ok(hs + [h])
  }

  /** A failed evaluation reports the failure of the first dataset whose
      checks fail. */
  lemma {:induction false} EvaluateEachFailure(ds: seq<Dataset>, specs: seq<CheckSpec>, now: int)
    requires EvaluateEach(ds, specs, now).Err?
    ensures exists i :: && 0 <= i < |ds|
                        && (forall j :: 0 <= j < i ==> Evaluate(ds[j], specs, now).Ok?)
                        && Evaluate(ds[i], specs, now) == Err(EvaluateEach(ds, specs, now).error)
  {
    var front := ds[..|ds| - 1];
    if EvaluateEach(front, specs, now).Err? {
      EvaluateEachFailure(front, specs, now);
      var i :| && 0 <= i < |front|
               && (forall j :: 0 <= j < i ==> Evaluate(front[j], specs, now).Ok?)
               && Evaluate(front[i], specs, now) == Err(EvaluateEach(front, specs, now).error);
      assert forall j :: 0 <= j <= i ==> ds[j] == front[j];
    } else {
      assert forall j :: 0 <= j < |front| ==> ds[j] == front[j];
    }
  }

  /** `evaluate_all`: the evaluation time is `now` when given and the clock
      reading otherwise; every dataset is evaluated against the registry's
      checks at that one time, and the report carries it. */
  function EvaluateAll(ds: seq<Dataset>, registry: CheckRegistry, now: Option<int>, clock: int): (r: Result<HealthReport>)
    reads registry
    requires registry.Valid()
    ensures var t := if now.Some? then now.value else clock;
            && (r.Ok? <==> EvaluateEach(ds, registry.List(), t).Ok?)
            && (r.Ok? ==> r.value == HealthReport(t, EvaluateEach(ds, registry.List(), t).value))
            && (r.Err? ==> r.error == EvaluateEach(ds, registry.List(), t).error)
    ensures now.Some? && r.Ok? ==> r.value.generatedAt == now.value
  {
    var t := match now case Some(given) => given case None => clock;
    match EvaluateEach(ds, registry.List(), t)
    case Ok(hs) => Ok(HealthReport(t, hs))
    case Err(e) => Err(e)
  }

  /** The i-th evaluated dataset of a report is the i-th input dataset, with
      the checks run at the report's time and their aggregate status. */
  lemma ReportEntry(ds: seq<Dataset>, registry: CheckRegistry, now: Option<int>, clock: int, i: nat)
    requires registry.Valid()
    requires EvaluateAll(ds, registry, now, clock).Ok?
    requires i < |ds|
    ensures var report := EvaluateAll(ds, registry, now, clock).value;
            && |report.datasets| == |ds|
            && report.datasets[i].dataset == ds[i]
            && report.datasets[i].checks == RunChecks(registry.List(), ds[i], report.generatedAt).value
            && report.datasets[i].status == AggregateStatus(report.datasets[i].checks)
  {
    var t := if now.Some? then now.value else clock;
    assert Ok(EvaluateEach(ds, registry.List(), t).value[i]) == EvaluateDataset(ds[i], registry, t);
  }

  /** A registry with one check that is RED for the dataset named `bad` and
      GREEN otherwise, run over the datasets `good` and `bad`, gives one
      GREEN, no YELLOW, one RED and two in total. */
  method GoodAndBadExample() returns (c: Counts)
    ensures c == Counts(1, 0, 1, 2)
  {
    var registry := new CheckRegistry();
    var runner: Runner := (d: Dataset, now: int) =>
      Some(CheckResult("dummy", if d.name == "bad" then RED else GREEN, "ok", map[]));
    var outcome := registry.Register("dummy", "test", runner);
    var spec := CheckSpec("dummy", "test", runner);
    SingleCheckList(registry, spec);
    var good := Dataset("good", "", "", "", map[], "");
    var bad := Dataset("bad", "", "", "", map[], "");
    var t := 1770422400; // 2026-02-07T00:00:00Z
    var greenResult := CheckResult("dummy", GREEN, "ok", map[]);
    var redResult := CheckResult("dummy", RED, "ok", map[]);
    assert runner(good, t) == Some(greenResult);
    assert runner(bad, t) == Some(redResult);
    RunOne(spec, good, t);
    RunOne(spec, bad, t);
    EvaluateTwo(good, bad, [spec], t);
    var report := EvaluateAll([good, bad], registry, Some(t), 0);
    var healthy, failing := DatasetHealth(good, GREEN, [greenResult]), DatasetHealth(bad, RED, [redResult]);
    assert report.value.datasets == [healthy, failing];
    TallyTwo(healthy, failing, GREEN);
    TallyTwo(healthy, failing, YELLOW);
    TallyTwo(healthy, failing, RED);
    c := report.value.Summary();
  }

  lemma RunOne(spec: CheckSpec, d: Dataset, now: int)
    ensures RunChecks([spec], d, now)
            == match spec.runner(d, now)
               case None => Err(ValueError("Check " + spec.name + " returned invalid result type"))
               case Some(c) => Ok([c])
  {
    assert [spec][..0] == [];
    assert RunChecks([], d, now) == Ok([]);
    match spec.runner(d, now) {
      case None =>
      case Some(c) => assert [] + [c] == [c];
    }
  }

  lemma EvaluateTwo(a: Dataset, b: Dataset, specs: seq<CheckSpec>, now: int)
    requires Evaluate(a, specs, now).Ok? && Evaluate(b, specs, now).Ok?
    ensures EvaluateEach([a, b], specs, now)
            == Ok([Evaluate(a, specs, now).value, Evaluate(b, specs, now).value])
  {
    var ha, hb := Evaluate(a, specs, now).value, Evaluate(b, specs, now).value;
    assert [a][..0] == [];
    assert EvaluateEach([a], specs, now) == Ok([ha]) by {
      assert [] + [ha] == [ha];
    }
    assert [a, b][..1] == [a];
    assert [ha] + [hb] == [ha, hb];
  }

  lemma SingleCheckList(registry: CheckRegistry, spec: CheckSpec)
    requires registry.Valid() && registry.checks == map[spec.name := spec]
    ensures registry.List() == [spec]
  {
    SortedNamesUnique([spec.name], {spec.name});
    assert registry.checks.Keys == {spec.name};
  }

  lemma TallyTwo(a: DatasetHealth, b: DatasetHealth, s: Status)
    ensures Tally([a, b], s) == (if a.status == s then 1 else 0) + (if b.status == s then 1 else 0)
  {
    assert [a, b][..1] == [a];
    assert [a][..0] == [];
  }

  /** GREEN and YELLOW results aggregate to YELLOW; adding a RED one makes
      it RED. */
  lemma AggregateExample()
    ensures var gy := [CheckResult("a", GREEN, "ok", map[]), CheckResult("b", YELLOW, "warn", map[])];
            && AggregateStatus(gy) == YELLOW
            && AggregateStatus(gy + [CheckResult("c", RED, "bad", map[])]) == RED
  {
    var gy := [CheckResult("a", GREEN, "ok", map[]), CheckResult("b", YELLOW, "warn", map[])];
    assert gy[1].status == YELLOW;
    assert (gy + [CheckResult("c", RED, "bad", map[])])[2].status == RED;
  }
}
