# dataset-health, modelled in Dafny

dataset-health evaluates data-quality checks over a catalogue of dataset
definitions. Each dataset is loaded from YAML into a `Dataset` with free-form
metadata. Every registered check runs on every dataset at one shared time.
A dataset's status is the worst of its checks' statuses (GREEN < YELLOW <
RED). A report collects the evaluated datasets and can be rendered as
Prometheus text or as CloudWatch metric records.

This project models that core:

- the registries of checks and datasets (`registry.dfy`, module `Registry`);
- evaluation and aggregation (`health.dfy`, module `Health`);
- the Prometheus and CloudWatch outputs (`output.dfy`, module `Output`);
- the four built-in checks: `completeness.dfy`, `volume.dfy`, `schema.dfy`
  and `freshness.dfy`, with what completeness and volume share in
  `ratio.dfy`, and the four run together in `builtins.dfy`.

Supporting modules model the Python builtins that the core relies on:

- `results.dfy`: Option, Result, and `ValueError` as a value.
- `strings.dfy`: `strip`, `split`, `join`, `partition`, `replace`, string
  order, `sorted` over a set of strings, `str(int)`, and `float()` on decimal
  text.
- `values.dfy`: metadata values, truthiness, `str()` and `float()`.
- `numbers.dfy`: `round(x, n)` and the `:.nf` format.

Each core file keeps its own form:

- Objects that the source updates in place are classes: `CheckRegistry` and
  `DatasetRegistry`. Their methods carry `modifies` clauses.
- Loops become methods proved against a specification function. These are
  `run_all`, `summary`, `render_prometheus`, `parse_cloudwatch_dimensions`
  and `build_cloudwatch_metrics`.
- Pure code becomes functions and lemmas.

Python floats are exact rationals (`real`). Timestamps are integer seconds
since the epoch. Every exception the core raises is a `ValueError`, kept as an
`Err` value that carries the program's message.

## Model

| member | source | states |
|---|---|---|
| `Registry.Status.Name` | dataset-health/src/registry.py:14-17 | each status's string value is its own name, and the three names are distinct |
| `Registry.Severity` | dataset-health/src/registry.py:14-17 | the order GREEN < YELLOW < RED as ranks 0..2; only GREEN ranks 0 and only RED ranks 2 |
| `Registry.SeverityInjective` | dataset-health/src/registry.py:14-17 | distinct statuses have distinct ranks |
| `Registry.Dataset.Get` | dataset-health/src/registry.py:45-46 | a present key yields its metadata value; an absent key yields the default |
| `Registry.Dataset.ToDict` | dataset-health/src/registry.py:48-57 | the keys are the five base fields plus the metadata keys; metadata wins on a clash; otherwise each base field appears as a string |
| `Registry.RunChecks` | dataset-health/src/registry.py:79-86 | succeeds iff every runner returns a result; on success the results are one per check, in order |
| `Registry.RunChecksFailure` | dataset-health/src/registry.py:81-84 | a failed run names the first check whose runner returned no result, with the program's message |
| `Registry.FailurePersists` | dataset-health/src/registry.py:81-84 | once a prefix of the checks has failed, the whole run fails with that same error |
| `Registry.CheckRegistry.constructor` | dataset-health/src/registry.py:68-69 | a new registry is empty |
| `Registry.CheckRegistry.Register` | dataset-health/src/registry.py:71-74 | a duplicate name is refused with "Check already registered: <name>" and the table is unchanged; otherwise exactly that entry is added |
| `Registry.CheckRegistry.List` | dataset-health/src/registry.py:76-77 | one spec per registered name, filed under its own name, with names strictly ascending |
| `Registry.CheckRegistry.RunAll` | dataset-health/src/registry.py:79-86 | the loop computes `RunChecks` over `List()` order, stopping at the first invalid result |
| `Registry.DatasetRegistry.constructor` | dataset-health/src/registry.py:101-102 | a new registry is empty |
| `Registry.DatasetRegistry.Add` | dataset-health/src/registry.py:104-107 | a duplicate name is refused with "Dataset already registered: <name>" and the table is unchanged; otherwise exactly that dataset is added |
| `Registry.DatasetRegistry.List` | dataset-health/src/registry.py:109-110 | one dataset per registered name, filed under its own name, with names strictly ascending |
| `Registry.Field` | dataset-health/src/registry.py:142-144 | a present string field is read as is; a present truthy value reads as its `str()`; an absent field, or a present falsy one (None, 0, False, "", an empty list or mapping), reads as "" |
| `Registry.DatasetFromDict` | dataset-health/src/registry.py:136-157 | error cases: a non-mapping gives "Dataset entry must be a mapping"; a blank name gives "Dataset entry missing required field: name"; otherwise the name is stripped and the other fields are read as text; the metadata is every non-reserved entry, unchanged |
| `Registry.LoadedNameTrimmed` | dataset-health/src/registry.py:139-141 | a loaded name is non-empty, has no surrounding whitespace, and is unchanged by stripping again |
| `Registry.LoadedGet` | dataset-health/src/registry.py:145-149 | `get` on a loaded dataset returns the payload's own value for every non-reserved key |
| `Registry.LoadedToDict` | dataset-health/src/registry.py:48-57 | `to_dict` of a loaded dataset gives back every non-reserved payload entry verbatim; a payload `source` overrides the file name |
| `Health.WorstOf` | dataset-health/src/health.py:11-16 | the chosen status is at least as severe as every member; it is GREEN for the empty set; any other result is a member |
| `Health.AggregateStatus` | dataset-health/src/health.py:10-16 | RED iff some check is RED; YELLOW iff none is RED and some is YELLOW; GREEN iff all are GREEN, including no checks |
| `Health.AggregateIsMaxSeverity` | dataset-health/src/health.py:10-16 | checked against an independent definition: the aggregate's rank is the largest rank among the results |
| `Health.AggregateOfSameStatuses` | dataset-health/src/health.py:11 | the aggregate depends only on the set of statuses |
| `Health.AggregatePermutation` | dataset-health/src/health.py:11 | reordering the results does not change the aggregate |
| `Health.AggregateDuplicate` | dataset-health/src/health.py:11 | repeating a result does not change the aggregate |
| `Health.AggregateExample` | dataset-health/tests/test_health.py:9-17 | GREEN with YELLOW is YELLOW; adding RED makes it RED |
| `Health.TallyIsMultiplicity` | dataset-health/src/health.py:39-41 | the one-pass tally of a status equals its multiplicity among the datasets' statuses |
| `Health.TallySum` | dataset-health/src/health.py:39-42 | the three tallies add up to the number of datasets |
| `Health.CountsOf` | dataset-health/src/health.py:38-43 | each count is its status's multiplicity; total is the number of datasets and equals the sum of the three |
| `Health.HealthReport.Summary` | dataset-health/src/health.py:38-43 | the counting loop computes `CountsOf` of the report's datasets |
| `Health.Evaluate` | dataset-health/src/health.py:53-56 | succeeds iff running the checks succeeds; the result keeps the dataset and the check results, with status their aggregate |
| `Health.EvaluateDataset` | dataset-health/src/health.py:53-56 | as `Evaluate`, against the registry's checks in `run_all` order |
| `Health.EvaluateEach` | dataset-health/src/health.py:61-64 | succeeds iff every dataset evaluates; one entry per dataset, in input order |
| `Health.EvaluateEachFailure` | dataset-health/src/health.py:61-64 | a failed evaluation carries the error of the first failing dataset |
| `Health.EvaluateAll` | dataset-health/src/health.py:59-65 | the time is `now` when given, else the clock; every dataset is evaluated at that one time, and the report carries it |
| `Health.ReportEntry` | dataset-health/src/health.py:59-65 | entry i of the report is input dataset i, with results from running the checks at the report's time and their aggregate status |
| `Health.GoodAndBadExample` | dataset-health/tests/test_health.py:20-36 | one check that is RED for "bad", run over "good" and "bad", gives counts GREEN 1, YELLOW 0, RED 1, total 2 |
| `Output.StatusValue` | dataset-health/src/output.py:11-15 | `STATUS_TO_VALUE[status]` is the status's rank: GREEN 0, YELLOW 1, RED 2 |
| `Output.StatusValueInjective` | dataset-health/src/output.py:27-28 | distinct statuses get distinct gauge values |
| `Output.GaugeTextIsDecimal` | dataset-health/src/output.py:63 | the gauge text is the decimal text of the status value |
| `Output.OverallStatus` | dataset-health/src/output.py:18-24 | RED iff some dataset is RED; YELLOW iff none is RED and some is YELLOW; GREEN for no datasets; its value bounds every dataset's value |
| `Output.PromLabelValue` | dataset-health/src/output.py:53-54 | the escaped label holds no raw newline and is never shorter than its input |
| `Output.PromLabelIsEscape` | dataset-health/src/output.py:53-54 | the three chained replacements equal an independent per-character escape |
| `Output.PromLabelRoundTrip` | dataset-health/src/output.py:53-54 | unescaping the label value gives back the original string |
| `Output.UnescapeEscape` | dataset-health/src/output.py:53-54 | the per-character escape is undone by `Unescape` |
| `Output.PlainLabel` | dataset-health/src/output.py:53-54 | a value without backslash, newline or quote is unchanged |
| `Output.PromConcat` | dataset-health/src/output.py:53-54 | escaping distributes over concatenation |
| `Output.PromHeader` | dataset-health/src/output.py:60-72 | the fixed part of the exposition is exactly 11 lines, none holding a newline |
| `Output.DatasetLine` | dataset-health/src/output.py:74-76 | a per-dataset sample is one line, whatever the dataset's name |
| `Output.DatasetLines` | dataset-health/src/output.py:73-77 | one sample line per dataset, in report order |
| `Output.AppendSamples` | dataset-health/src/output.py:73-77 | the loop appends exactly the per-dataset sample lines to the header |
| `Output.RenderPrometheus` | dataset-health/src/output.py:57-78 | the text is the header and the sample lines joined by newlines |
| `Output.PrometheusLines` | dataset-health/src/output.py:57-78 | splitting the text at newlines gives 11 + n lines: the header (with the overall status and the report's counts), then sample line i for dataset i |
| `Output.ParseItem` | dataset-health/src/output.py:86-96 | a malformed item fails with "CloudWatch dimensions must be key=value pairs" |
| `Output.ItemSkipped` | dataset-health/src/output.py:86-90 | an item is skipped iff it is blank; a non-blank item without '=' is an error |
| `Output.ItemDimension` | dataset-health/src/output.py:91-96 | a parsed name and value are non-empty and stripped; the name holds no '='; both come from the item's characters |
| `Output.Collect` | dataset-health/src/output.py:84-97 | each error comes from some item; at most one dimension per item |
| `Output.CollectOk` | dataset-health/src/output.py:85-97 | collecting succeeds iff every item does |
| `Output.CollectedFrom` | dataset-health/src/output.py:96 | every dimension is the parse of some item |
| `Output.CollectConcat` | dataset-health/src/output.py:85-97 | collection distributes over concatenation, keeping item order |
| `Output.ErrorPersists` | dataset-health/src/output.py:89-95 | the first malformed item decides the result |
| `Output.Dimensions` | dataset-health/src/output.py:81-97 | empty input gives no dimensions; any failure is the key=value error |
| `Output.DimensionsWellFormed` | dataset-health/src/output.py:85-96 | every parsed dimension has a non-empty, stripped name and value, with no comma in either and no '=' in the name |
| `Output.DimensionItems` | dataset-health/src/output.py:85 | the items `raw.split(",")` gives are exactly the comma-free pieces, in order, that join back to `raw` with commas, and they are what the dimensions are parsed from |
| `Output.ItemsOk` | dataset-health/src/output.py:85-97 | parsing succeeds iff every item parses |
| `Output.ParseCloudwatchDimensions` | dataset-health/src/output.py:81-97 | the loop computes `Dimensions(raw)`, including the early return on the first malformed item |
| `Output.ParsePair` | dataset-health/src/output.py:91-96 | a stripped `name=value` item parses to exactly that dimension |
| `Output.DimensionsRoundTrip` | dataset-health/src/output.py:81-97 | formatting expressible dimensions as `k=v,...` and parsing that text gives them back |
| `Output.ExampleDimensions` | dataset-health/tests/test_output.py:66-71 | "env=prod,team=data-platform" parses to env=prod then team=data-platform |
| `Output.CountMetric` | dataset-health/src/output.py:123-131 | the metric `DatasetHealthCount`, valued at the count with unit `Count`, whose dimensions are the base dimensions followed by exactly one `Status` dimension naming the status |
| `Output.DatasetMetric` | dataset-health/src/output.py:134-143 | the metric `DatasetHealthDatasetStatus`, valued at the dataset's gauge (0, 1 or 2) with unit `None`, whose dimensions are the base dimensions followed by exactly one `Dataset` dimension naming the dataset |
| `Output.DatasetMetrics` | dataset-health/src/output.py:134-143 | one dataset metric per dataset, in report order |
| `Output.BuildCloudwatchMetrics` | dataset-health/src/output.py:100-145 | the loops compute `CloudwatchMetrics`, including the dimension-limit error |
| `Output.AppendDatasetMetrics` | dataset-health/src/output.py:134-143 | the loop appends exactly the per-dataset metrics |
| `Output.MetricsShape` | dataset-health/src/output.py:105-145 | error iff more than 9 base dimensions, with the program's message; otherwise 5 metrics, plus n when datasets are included: the overall value, the total, the GREEN/YELLOW/RED counts (which sum to the total), then one per dataset |
| `Output.MetricsWithinLimit` | dataset-health/src/output.py:105-106 | every metric extends the base dimensions by at most one, so none has more than 10 |
| `Output.MetricsCount` | dataset-health/src/output.py:100-145 | two datasets with datasets included give 7 metrics |
| `Output.TwoDatasetSummary` | dataset-health/tests/test_output.py:39-47 | alpha GREEN and beta RED: the overall status is RED; counts are 1, 0, 1, total 2 |
| `Output.TwoDatasetMetrics` | dataset-health/tests/test_output.py:74-82 | the same report gives 7 metrics with the four metric names, and overall value 2 |
| `Ratio.Readings` | dataset-health/src/checks/completeness.py:8-28 | both readings exist iff both values are present and `float()` accepts both; the readings are those floats |
| `Ratio.MinimumStatus` | dataset-health/src/checks/completeness.py:38-47 | against a positive minimum: GREEN iff the value meets it; RED iff the value is below nine tenths of it |
| `Ratio.MinimumMonotone` | dataset-health/src/checks/completeness.py:38-47 | a larger measurement never gets a worse verdict |
| `Completeness.CheckCompleteness` | dataset-health/src/checks/completeness.py:7-57 | name "completeness"; a missing or non-numeric value, or a minimum ≤ 0, is YELLOW with the program's message and details; GREEN iff both are valid and count ≥ minimum > 0; RED iff both are valid and count < 0.9·minimum; details are both floats and the ratio rounded to 3 places |
| `Completeness.CompletenessMonotone` | dataset-health/src/checks/completeness.py:38-47 | raising the record count never worsens the verdict |
| `Completeness.CompletenessGreenExample` | dataset-health/tests/test_checks.py:35-42 | 120 of 100 records is GREEN |
| `Completeness.CompletenessYellowExample` | dataset-health/tests/test_checks.py:35-42 | 95 of 100 is YELLOW |
| `Completeness.CompletenessRedExample` | dataset-health/tests/test_checks.py:35-42 | 50 of 100 is RED |
| `Volume.FirstUnit` | dataset-health/src/checks/volume.py:13-15 | the first-match search: the unit found is the first whose factor does not exceed the value; none is found only if every factor exceeds it |
| `Volume.ByteUnit` | dataset-health/src/checks/volume.py:6-16 | the reference unit: the largest factor not above the value, so the value in that unit lies in [1, 1024), except for TB and B |
| `Volume.FirstUnitIsByteUnit` | dataset-health/src/checks/volume.py:6-16 | the search over TB, GB, MB, KB picks the reference unit, and finds none exactly below 1024 |
| `Volume.FormatBytesForm` | dataset-health/src/checks/volume.py:13-16 | the text is the value in the chosen unit, with 2 places (bytes: 0), a space and the unit |
| `Volume.FormatBytesReadsBack` | dataset-health/src/checks/volume.py:6-16 | the text splits into a number and the unit; the number reads back as the value in that unit, rounded to the places shown |
| `Volume.CheckVolume` | dataset-health/src/checks/volume.py:20-73 | name "volume"; a missing or non-numeric value, or a minimum ≤ 0, is YELLOW with the program's message and details; GREEN iff size ≥ minimum > 0; RED iff size < 0.9·minimum; details add both sizes in binary units |
| `Volume.VolumeGreenExample` | dataset-health/tests/test_checks.py:61-68 | 1200 of 1000 bytes is GREEN |
| `Volume.VolumeYellowExample` | dataset-health/tests/test_checks.py:61-68 | 950 of 1000 is YELLOW |
| `Volume.VolumeRedExample` | dataset-health/tests/test_checks.py:61-68 | 500 of 1000 is RED |
| `Schema.NormalizeSchema` | dataset-health/src/checks/schema.py:6-13 | a list or tuple becomes its elements as strings, in order; None and anything else become [] |
| `Schema.NormalizeStrList` | dataset-health/src/checks/schema.py:9-12 | a list of strings normalizes back to itself |
| `Schema.Fields` | dataset-health/src/checks/schema.py:29-30 | the set holds exactly the listed fields; it is empty iff the list is |
| `Schema.Difference` | dataset-health/src/checks/schema.py:31-32 | sorted ascending with no repeats; holds exactly the fields of one side missing from the other |
| `Schema.CheckSchema` | dataset-health/src/checks/schema.py:17-49 | name "schema"; an empty side is YELLOW "Missing schema or expected_schema metadata."; RED iff some expected field is absent, whatever else holds; GREEN iff both sides are non-empty with equal field sets, with both lists empty; otherwise YELLOW with the extra fields; details are the missing and extra lists |
| `Schema.DifferencesDisjoint` | dataset-health/src/checks/schema.py:31-32 | no field is both missing and extra |
| `Schema.SchemaSetsOnly` | dataset-health/src/checks/schema.py:29-32 | reordering or repeating fields on either side changes neither the verdict nor the message, nor, with both sides present, the details |
| `Schema.SchemaMissingExample` | dataset-health/tests/test_checks.py:45-58 | a missing `ts` is RED, with missing ["ts"] and no extra |
| `Schema.SchemaExtraExample` | dataset-health/tests/test_checks.py:45-58 | an extra `device` is YELLOW, with no missing and extra ["device"] |
| `Schema.SchemaMatchExample` | dataset-health/tests/test_checks.py:45-58 | equal fields are GREEN |
| `Freshness.AgeHours` | dataset-health/src/checks/freshness.py:31 | the age in hours times 3600 is the elapsed seconds |
| `Freshness.AgeStatus` | dataset-health/src/checks/freshness.py:32-37 | GREEN iff age ≤ SLA; YELLOW iff SLA < age and 2·age ≤ 3·SLA; RED iff SLA < age and 2·age > 3·SLA |
| `Freshness.AgeMonotone` | dataset-health/src/checks/freshness.py:31-37 | for a fixed SLA, a greater age never gets a better verdict |
| `Freshness.AgeMessageReadsBack` | dataset-health/src/checks/freshness.py:42 | "Age …h (SLA …h).": the two numbers read back as the age and the SLA rounded to one place |
| `Freshness.CheckFreshness` | dataset-health/src/checks/freshness.py:10-48 | name "freshness"; a dataset without `last_updated` is YELLOW with the missing-metadata message; a missing or unparseable timestamp, or a missing SLA, is YELLOW; a non-numeric SLA is YELLOW; each has the program's message and details; otherwise the verdict is `AgeStatus` of the age in hours, with the age message and details; only a checked dataset is GREEN or RED |
| `Freshness.FreshnessMonotone` | dataset-health/src/checks/freshness.py:31-37 | for any parser, an older date-and-time update never gets a better verdict from the check |
| `Freshness.FreshnessCheck` | dataset-health/src/checks/freshness.py:7-8 | the registered check is named "freshness" and runs `CheckFreshness` |
| `Freshness.FreshExample` | dataset-health/tests/test_checks.py:19-24 | updated six hours before 2026-02-07T18:30Z, against a 12-hour SLA: GREEN |
| `Freshness.StaleExample` | dataset-health/tests/test_checks.py:27-32 | updated 56 hours before, against a 12-hour SLA: RED |
| `Builtins.BuiltinChecks` | dataset-health/src/registry.py:183-185 | the four built-in checks, named completeness, freshness, schema, volume |
| `Builtins.BuiltinsSorted` | dataset-health/src/registry.py:76-77 | those names are the `sorted` listing of the four names |
| `Builtins.BuiltinTable` | dataset-health/src/registry.py:183-185 | the registry table after the four built-ins register: exactly their four names, each mapped to its check |
| `Builtins.RegistryListsBuiltins` | dataset-health/src/registry.py:76-77 | a registry holding exactly the four built-ins lists them as `BuiltinChecks` does |
| `Registry.ListedAs` | dataset-health/src/registry.py:76-77 | `list` is the only sequence of filed specs whose names are the registry's names in sorted order |
| `Builtins.BuiltinsRun` | dataset-health/src/registry.py:79-86 | running the built-in checks never fails and gives four results, named after their checks in that order |
| `Values.Text` | dataset-health/src/checks/schema.py:10 | `str()` of a string is itself; `str()` of an int reads back through `float()` as that int |
| `Values.ToFloat` | dataset-health/src/checks/completeness.py:19-22 | `float()` accepts ints and floats exactly; it refuses None, datetimes, lists, dicts and other objects |
| `Numbers.Round` | dataset-health/src/checks/completeness.py:56 | `round(x, n)` times 10^n is x times 10^n rounded to the nearest integer, ties to the even one, so it lies on the 10^-n grid within half a unit in the n-th place of x |
| `Numbers.FixedReadsBack` | dataset-health/src/checks/freshness.py:42 | the `:.nf` text reads back through `float()` as `round(x, n)` |
| `Numbers.RoundHalfEven` | dataset-health/src/checks/freshness.py:45 | rounding goes to the nearest integer, and a tie goes to the even one |
| `Numbers.FixedChars` | dataset-health/src/checks/volume.py:15-16 | the `:.nf` text holds only a minus sign, a point and digits, so it never holds the space before the unit |
| `Strings.SortedNames` | dataset-health/src/registry.py:77 | `sorted` of a set of names: the same names, ascending, one each |
| `Strings.SortedNamesUnique` | dataset-health/src/registry.py:77 | any ascending list with exactly those names is the sorted list |
| `Strings.SplitJoin` | dataset-health/src/output.py:78 | splitting a joined text at the separator gives back the parts when none of them holds the separator |
| `Strings.JoinSplit` | dataset-health/src/output.py:85 | joining the pieces of `s.split(sep)` with `sep` gives `s` back, so splitting the dimension text loses no character |
| `Strings.Strip` | dataset-health/src/output.py:86 | `strip` removes exactly the surrounding whitespace |

## Left out

- Loading datasets from files is not modelled: `DatasetRegistry.load_from_path` and `_load_file` do filesystem globbing and `yaml.safe_load`. Only the conversion of one payload, `_dataset_from_dict`, is modelled.
- Plugin discovery is not modelled: `load_builtin_checks` and `load_entrypoint_checks` use importlib, and the `register_check` decorator writes to the global `CHECK_REGISTRY`. The model uses an explicit registry instance, and the four built-in checks are listed in `Builtins.BuiltinChecks`.
- `parse_datetime` is only partly modelled: its text and numeric cases delegate to `datetime.fromisoformat` and `fromtimestamp`, which are not part of this model. The freshness check takes it as a parameter `parse` of type `Freshness.TimeParser`, giving seconds since the epoch or None. The type fixes the two cases of registry.py:161-166 that need no library: None reads as None, and a date and time reads as itself. What it returns for strings and numbers is left to the parameter.
- The clock is a parameter: `datetime.now()` in `evaluate_all` is the `clock` argument of `Health.EvaluateAll`, and every check receives the evaluation time. The fallback `now = now or datetime.now(timezone.utc)` in `check_freshness` is not modelled: `evaluate_all` always passes a datetime down through `evaluate_dataset`, so `Freshness.CheckFreshness` takes `now` as a plain argument.
- `Freshness.CheckFreshness`: the `last_updated` detail is the timestamp as a `Time` value, not its `isoformat()` text.
- Floats are exact rationals. The thresholds 0.9 and 1.5 are exact, so a ratio within one rounding error of 0.9 can fall differently than in IEEE doubles. NaN and infinities are not modelled.
- `Values.ToFloat`: `float()` on text accepts optional surrounding whitespace, an optional sign, and decimal digits with at most one point. Exponents, `inf`, `nan` and underscores are not accepted.
- `Values.Text`: `str()` is exact for strings, integers, booleans, None and integral floats below 10^16 in magnitude. Other values get a placeholder naming their kind. A float of magnitude 10^16 or more, which Python prints in exponent form (`str(1e16)` is "1e+16"), becomes "<float>", and so does a non-integral float: `name: 1.5` becomes "<float>" rather than "1.5". A date or a list becomes "<datetime>" or "<list>" rather than Python's `str()` text. Two different non-integral floats, two dates or two lists thus read alike, so `Schema.CheckSchema` treats them as the same field: schema `[1.5]` against expected `[2.5]` is GREEN in the model and RED in Python. The placeholders affect the items of a schema list and the four text fields of a dataset (`name`, `description`, `location`, `owner`), which `Registry.Field` reads through `Text`.
- Negative zero: floats are exact reals, which have no negative zero, so `-0.0` is the same value as `0.0` and its `str()` reads "0.0" where Python prints "-0.0".
- Not modelled, as thin wrappers over `json.dumps`: `render_summary_json`, `render_jsonl` and the `to_dict` methods of `CheckResult`, `DatasetHealth` and `HealthReport`.
- `emit_cloudwatch_metrics` is not modelled: it is a boto3 network client that sends metrics in chunks.
- `cli.py` and `explain.py` are not modelled: argument parsing, file output, printing and an HTML template.
- `Output.PrometheusLines` states the header and the sample lines through the model's own line functions. It does not compare the rendered text to the test's literal substrings such as `dataset_health_dataset_status{dataset="alpha"}`.
- `Builtins.BuiltinsRun` gives the number of results and their names. Each result's contents are stated by the check functions themselves.
