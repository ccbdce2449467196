/** Rendering a health report for monitoring systems: the numeric gauge of a
    status, the overall status of a report, the Prometheus text exposition
    of a report, and the CloudWatch dimensions and metric data built from
    it. */
module Output {

  import opened Results
  import opened Strings
  import opened Registry
  import opened Health

  // ---------------------------------------------------------------------
  // Gauges
  // ---------------------------------------------------------------------

  /** `STATUS_TO_VALUE` */
  const StatusToValue: map<Status, int> := map[GREEN := 0, YELLOW := 1, RED := 2]

  /** `status_value`: the gauge of a status, 0 for GREEN, 1 for YELLOW and 2
      for RED, so that a worse status has a larger gauge. */
  function StatusValue(s: Status): (n: int)
    ensures n == Severity(s)
    ensures 0 <= n <= 2
  {
    assert s.GREEN? || s.YELLOW? || s.RED?;
    StatusToValue[s]
  }

  /** The decimal text of a gauge. */
  function GaugeText(s: Status): string
  {
    match s
    case GREEN => "0"
    case YELLOW => "1"
    case RED => "2"
  }

  /** The gauge text is the decimal text of the gauge, as an f-string writes
      it. */
  lemma GaugeTextIsDecimal(s: Status)
    ensures GaugeText(s) == IntToString(StatusValue(s))
  {
  }

  /** Distinct statuses have distinct gauges. */
  lemma StatusValueInjective(s: Status, t: Status)
    ensures StatusValue(s) == StatusValue(t) ==> s == t
  {
    SeverityInjective(s, t);
  }

  /** `overall_status`: RED when some dataset is RED, otherwise YELLOW when
      some dataset is YELLOW, otherwise (also for an empty report) GREEN. */
  function OverallStatus(report: HealthReport): (s: Status)
    ensures s == RED <==> exists i :: 0 <= i < |report.datasets| && report.datasets[i].status == RED
    ensures s == YELLOW <==>
              && (forall i :: 0 <= i < |report.datasets| ==> report.datasets[i].status != RED)
              && (exists i :: 0 <= i < |report.datasets| && report.datasets[i].status == YELLOW)
    ensures report.datasets == [] ==> s == GREEN
    ensures forall i :: 0 <= i < |report.datasets| ==> StatusValue(report.datasets[i].status) <= StatusValue(s)
  {
    var statuses := set i | 0 <= i < |report.datasets| :: report.datasets[i].status;
    assert forall i :: 0 <= i < |report.datasets| ==> report.datasets[i].status in statuses;
    WorstOf(statuses)
  }

  // ---------------------------------------------------------------------
  // Prometheus label values
  // ---------------------------------------------------------------------

  /** `_prom_label_value`: backslashes doubled first, then line feeds and
      double quotes escaped with a backslash. */
  function PromLabelValue(v: string): (r: string)
    ensures '\n' !in r
    ensures |r| >= |v|
  {
    var a := ReplaceChar(v, '\\', "\\\\");
    var b := ReplaceChar(a, '\n', "\\n");
    ReplaceLength(v, '\\', "\\\\");
    ReplaceLength(a, '\n', "\\n");
    ReplaceLength(b, '"', "\\\"");
    ReplaceChar(b, '"', "\\\"")
  }

  lemma {:induction false} ReplaceLength(s: string, c: char, with: string)
    requires |with| >= 1
    ensures |ReplaceChar(s, c, with)| >= |s|
  {
    if s != [] {
      ReplaceLength(s[1..], c, with);
    }
  }

  /** The escape of one character in a label value of the Prometheus text
      exposition format. */
  function EscapeChar(c: char): string
  {
    if c == '\\' then "\\\\"
    else if c == '\n' then "\\n"
    else if c == '"' then "\\\""
    else [c]
  }

  /** Escaping a label value character by character. */
  function Escape(s: string): string
  {
    if s == [] then "" else EscapeChar(s[0]) + Escape(s[1..])
  }

  /** Reading an escaped label value of the Prometheus text exposition
      format: a backslash introduces one of `\\`, `\n` and `\"`; a raw double
      quote or line feed, or any other backslash sequence, is rejected. */
  function Unescape(t: string): (r: Option<string>)
  {
    if t == [] then Some("")
    else if t[0] == '\\' then
      if |t| < 2 then None
      else
        var c := if t[1] == '\\' then Some('\\')
                 else if t[1] == 'n' then Some('\n')
                 else if t[1] == '"' then Some('"')
                 else None;
        match (c, Unescape(t[2..]))
        case (Some(x), Some(rest)) => Some([x] + rest)
        case _ => None
    else if t[0] == '"' || t[0] == '\n' then None
    else
      match Unescape(t[1..])
      case Some(rest) => Some([t[0]] + rest)
      case None => None
  }

  /** The chained replacements escape each character on its own: the order
      of the three replacements (backslashes first) makes them agree with
      the per-character escape. */
  lemma {:induction false} PromLabelIsEscape(s: string)
    ensures PromLabelValue(s) == Escape(s)
  {
    if s != [] {
      assert s == [s[0]] + s[1..];
      PromConcat([s[0]], s[1..]);
      PromChar(s[0]);
      PromLabelIsEscape(s[1..]);
    }
  }

  lemma PromConcat(a: string, b: string)
    ensures PromLabelValue(a + b) == PromLabelValue(a) + PromLabelValue(b)
  {
    ReplaceConcat(a, b, '\\', "\\\\");
    var a1, b1 := ReplaceChar(a, '\\', "\\\\"), ReplaceChar(b, '\\', "\\\\");
    ReplaceConcat(a1, b1, '\n', "\\n");
    var a2, b2 := ReplaceChar(a1, '\n', "\\n"), ReplaceChar(b1, '\n', "\\n");
    ReplaceConcat(a2, b2, '"', "\\\"");
  }

  lemma {:induction false} ReplaceConcat(a: string, b: string, c: char, with: string)
    ensures ReplaceChar(a + b, c, with) == ReplaceChar(a, c, with) + ReplaceChar(b, c, with)
  {
    if a == [] {
      assert a + b == b;
    } else {
      assert (a + b)[0] == a[0] && (a + b)[1..] == a[1..] + b;
      ReplaceConcat(a[1..], b, c, with);
    }
  }

  lemma PromChar(x: char)
    ensures PromLabelValue([x]) == EscapeChar(x)
  {
    ReplaceSingle(x, '\\', "\\\\");
    if x == '\\' {
      ReplaceTwo('\\', '\\', '\n', "\\n");
      ReplaceTwo('\\', '\\', '"', "\\\"");
    } else {
      ReplaceSingle(x, '\n', "\\n");
      if x == '\n' {
        ReplaceTwo('\\', 'n', '"', "\\\"");
      } else {
        ReplaceSingle(x, '"', "\\\"");
      }
    }
  }

  lemma ReplaceSingle(x: char, c: char, with: string)
    ensures ReplaceChar([x], c, with) == if x == c then with else [x]
  {
    assert [x][1..] == [];
  }

  lemma ReplaceTwo(x: char, y: char, c: char, with: string)
    requires x != c && y != c
    ensures ReplaceChar([x, y], c, with) == [x, y]
  {
    assert [x, y][1..] == [y];
    ReplaceSingle(y, c, with);
  }

  /** `Unescape` reads back what `Escape` writes, so distinct dataset names
      give distinct label values. */
  lemma {:induction false} UnescapeEscape(s: string)
    ensures Unescape(Escape(s)) == Some(s)
  {
    if s != [] {
      UnescapeEscape(s[1..]);
      UnescapeChar(s[0], Escape(s[1..]));
      assert [s[0]] + s[1..] == s;
    }
  }

  lemma UnescapeChar(x: char, rest: string)
    ensures Unescape(EscapeChar(x) + rest) ==
            match Unescape(rest)
            case Some(r) => Some([x] + r)
            case None => None
  {
    var t := EscapeChar(x) + rest;
    if x == '\\' || x == '\n' || x == '"' {
      assert t[2..] == rest;
    } else {
      assert t[1..] == rest;
    }
  }

  /** A label value reads back, through the exposition format's escapes, as
      the dataset name it was made from. */
  lemma PromLabelRoundTrip(v: string)
    ensures Unescape(PromLabelValue(v)) == Some(v)
  {
    PromLabelIsEscape(v);
    UnescapeEscape(v);
  }

  /** A name without backslashes, line feeds and double quotes is written
      unchanged. */
  lemma PlainLabel(v: string)
    requires '\\' !in v && '\n' !in v && '"' !in v
    ensures PromLabelValue(v) == v
  {
    ReplaceAbsent(v, '\\', "\\\\");
    ReplaceAbsent(v, '\n', "\\n");
    ReplaceAbsent(v, '"', "\\\"");
  }

  lemma {:induction false} ReplaceAbsent(s: string, c: char, with: string)
    requires c !in s
    ensures ReplaceChar(s, c, with) == s
  {
    if s != [] {
      ReplaceAbsent(s[1..], c, with);
      assert [s[0]] + s[1..] == s;
    }
  }

  // ---------------------------------------------------------------------
  // Prometheus text exposition
  // ---------------------------------------------------------------------

  const StatusGauge := "dataset_health_status"
  const SummaryGauge := "dataset_health_summary"
  const DatasetGauge := "dataset_health_dataset_status"
  const Legend := " (0=GREEN,1=YELLOW,2=RED)."

  /** The help, type and sample lines before the per-dataset samples. */
  function PromHeader(overall: Status, c: Counts): (lines: seq<string>)
    ensures |lines| == 11
    ensures forall i :: 0 <= i < 11 ==> '\n' !in lines[i]
  {
    HeaderOneLine(overall, c);
    [ "# HELP " + StatusGauge + " Overall dataset health status" + Legend,
      "# TYPE " + StatusGauge + " gauge",
      StatusGauge + " " + GaugeText(overall),
      "# HELP " + SummaryGauge + " Dataset counts by status.",
      "# TYPE " + SummaryGauge + " gauge",
      SummaryGauge + "{status=\"GREEN\"} " + IntToString(c.green),
      SummaryGauge + "{status=\"YELLOW\"} " + IntToString(c.yellow),
      SummaryGauge + "{status=\"RED\"} " + IntToString(c.red),
      SummaryGauge + "{status=\"TOTAL\"} " + IntToString(c.total),
      "# HELP " + DatasetGauge + " Per-dataset health status" + Legend,
      "# TYPE " + DatasetGauge + " gauge" ]
  }

  /** The sample of one dataset: its name as an escaped label and its gauge. */
  function DatasetLine(h: DatasetHealth): (line: string)
    ensures '\n' !in line
  {
    NamesOneLine();
    DatasetGauge + "{dataset=\"" + PromLabelValue(h.dataset.name) + "\"} "
      + GaugeText(h.status)
  }

  lemma IntTextOneLine(i: int)
    ensures '\n' !in IntToString(i)
  {
    IntTextChars(i);
  }

  lemma NamesOneLine()
    ensures '\n' !in StatusGauge && '\n' !in SummaryGauge && '\n' !in DatasetGauge
  {
  }

  lemma HelpOneLine()
    ensures '\n' !in " Overall dataset health status" && '\n' !in Legend
    ensures '\n' !in " Per-dataset health status" && '\n' !in " Dataset counts by status."
  {
    OverallHelpOneLine();
    LegendOneLine();
    DatasetHelpOneLine();
    SummaryHelpOneLine();
  }

  lemma OverallHelpOneLine() ensures '\n' !in " Overall dataset health status" {}
  lemma LegendOneLine() ensures '\n' !in Legend {}
  lemma DatasetHelpOneLine() ensures '\n' !in " Per-dataset health status" {}
  lemma SummaryHelpOneLine() ensures '\n' !in " Dataset counts by status." {}

  lemma HeaderOneLine(overall: Status, c: Counts)
    ensures '\n' !in "# HELP " + StatusGauge + " Overall dataset health status" + Legend
    ensures '\n' !in "# TYPE " + StatusGauge + " gauge"
    ensures '\n' !in StatusGauge + " " + GaugeText(overall)
    ensures '\n' !in "# HELP " + SummaryGauge + " Dataset counts by status."
    ensures '\n' !in "# TYPE " + SummaryGauge + " gauge"
    ensures '\n' !in SummaryGauge + "{status=\"GREEN\"} " + IntToString(c.green)
    ensures '\n' !in SummaryGauge + "{status=\"YELLOW\"} " + IntToString(c.yellow)
    ensures '\n' !in SummaryGauge + "{status=\"RED\"} " + IntToString(c.red)
    ensures '\n' !in SummaryGauge + "{status=\"TOTAL\"} " + IntToString(c.total)
    ensures '\n' !in "# HELP " + DatasetGauge + " Per-dataset health status" + Legend
    ensures '\n' !in "# TYPE " + DatasetGauge + " gauge"
  {
    NamesOneLine();
    HelpOneLine();
    IntTextOneLine(c.green);
    IntTextOneLine(c.yellow);
    IntTextOneLine(c.red);
    IntTextOneLine(c.total);
  }

  /** One sample per dataset, in report order. */
  function DatasetLines(ds: seq<DatasetHealth>): (lines: seq<string>)
    ensures |lines| == |ds|
    ensures forall i :: 0 <= i < |ds| ==> lines[i] == DatasetLine(ds[i])
  {
    if ds == [] then []
    else DatasetLines(ds[..|ds| - 1]) + [DatasetLine(ds[|ds| - 1])]
  }

  /** The lines of the exposition of a report. */
  function PromLines(report: HealthReport): seq<string>
  {
    PromHeader(OverallStatus(report), CountsOf(report.datasets)) + DatasetLines(report.datasets)
  }

  /** `render_prometheus`: the lines of the exposition joined by line
      feeds. */
  method RenderPrometheus(report: HealthReport) returns (text: string)
    ensures text == Join(PromLines(report), '\n')
  {
    var overall := OverallStatus(report);
    var summary := report.Summary();
    var lines := AppendSamples(PromHeader(overall, summary), report.datasets);
    text := Join(lines, '\n');
  }

  /** The loop of `render_prometheus`: one sample appended per dataset. */
  method AppendSamples(header: seq<string>, ds: seq<DatasetHealth>) returns (lines: seq<string>)
    ensures lines == header + DatasetLines(ds)
  {
    lines := header;
    for i := 0 to |ds|
      invariant lines == header + DatasetLines(ds[..i])
    {
      assert ds[..i + 1][..i] == ds[..i];
      lines := lines + [DatasetLine(ds[i])];
    }
    assert ds[..|ds|] == ds;
  }

  /** The exposition splits at line feeds into the eleven header lines,
      carrying the overall gauge and the counts, followed by exactly one
      sample per dataset, in report order. */
  lemma PrometheusLines(report: HealthReport)
    ensures var lines := Split(Join(PromLines(report), '\n'), '\n');
            && |lines| == 11 + |report.datasets|
            && lines[..11] == PromHeader(OverallStatus(report), CountsOf(report.datasets))
            && forall i :: 0 <= i < |report.datasets| ==> lines[11 + i] == DatasetLine(report.datasets[i])
  {
    var lines := PromLines(report);
    assert forall j :: 0 <= j < |lines| ==> '\n' !in lines[j];
    SplitJoin(lines, '\n');
  }

  // ---------------------------------------------------------------------
  // CloudWatch dimensions
  // ---------------------------------------------------------------------

  /** A CloudWatch dimension: `{"Name": name, "Value": value}`. */
  datatype Dimension = Dimension(name: string, value: string)

  const DimensionsError := "CloudWatch dimensions must be key=value pairs"

  /** One comma-separated item of a dimensions option: nothing when blank,
      otherwise a key and a value split at the first `=`, both stripped and
      both required to be non-empty. */
  function ParseItem(item: string): (r: Result<Option<Dimension>>)
    ensures r.Err? ==> r.error == ValueError(DimensionsError)
  {
    var t := Strip(item);
    if t == [] then Ok(None)
    else if '=' !in t then Err(ValueError(DimensionsError))
    else
      var (k, v) := Partition(t, '=');
      var key, value := Strip(k), Strip(v);
      if key == [] || value == [] then Err(ValueError(DimensionsError))
      else Ok(Some(Dimension(key, value)))
  }

  /** A blank item, and only a blank item, is skipped; a non-blank item
      without `=` is an error. */
  lemma ItemSkipped(item: string)
    ensures ParseItem(item) == Ok(None) <==> Strip(item) == []
    ensures Strip(item) != [] && '=' !in Strip(item) ==> ParseItem(item).Err?
  {
  }

  /** A parsed dimension has a non-empty, stripped key free of `=` and a
      non-empty, stripped value, both made of the item's characters. */
  lemma ItemDimension(item: string)
    requires ParseItem(item).Ok? && ParseItem(item).value.Some?
    ensures var d := ParseItem(item).value.value;
            && d.name != [] && d.value != [] && '=' !in d.name
            && Strip(d.name) == d.name && Strip(d.value) == d.value
            && (forall c :: c in d.name ==> c in item)
            && (forall c :: c in d.value ==> c in item)
  {
    var t := Strip(item);
    var (k, v) := Partition(t, '=');
    StripIdempotent(k);
    StripIdempotent(v);
    StripChars(item);
    StripChars(k);
    StripChars(v);
  }

  lemma StripChars(s: string)
    ensures forall c :: c in Strip(s) ==> c in s
  {
  }

  /** The outcomes of the items in order, blank ones skipped; the first
      malformed item is the error. */
  function Collect(outcomes: seq<Result<Option<Dimension>>>): (r: Result<seq<Dimension>>)
    ensures r.Ok? ==> |r.value| <= |outcomes|
    ensures r.Err? ==> exists i :: 0 <= i < |outcomes| && outcomes[i] == Err(r.error)
  {
    if outcomes == [] then Ok([])
    else
      var front := outcomes[..|outcomes| - 1];
      assert forall i :: 0 <= i < |front| ==> front[i] == outcomes[i];
      match Collect(front)
      case Err(e) => Err(e)
      case Ok(ds) =>
        match outcomes[|outcomes| - 1]
        case Err(e) => Err(e)
        case Ok(None) => Ok(ds)
        case Ok(Some(d)) => Ok(ds + [d])
  }

  /** The outcome of each item. */
  function Outcomes(items: seq<string>): (r: seq<Result<Option<Dimension>>>)
    ensures |r| == |items| && forall i :: 0 <= i < |items| ==> r[i] == ParseItem(items[i])
  {
    seq(|items|, i requires 0 <= i < |items| => ParseItem(items[i]))
  }

  /** The items in order, blank ones skipped; the first malformed item is
      the error. */
  function ParseItems(items: seq<string>): (r: Result<seq<Dimension>>)
    ensures r.Err? ==> r.error == ValueError(DimensionsError)
  {
    Collect(Outcomes(items))
  }

  /** The items parse exactly when each of them does. */
  lemma {:induction false} CollectOk(outcomes: seq<Result<Option<Dimension>>>)
    ensures Collect(outcomes).Ok? <==> forall i :: 0 <= i < |outcomes| ==> outcomes[i].Ok?
  {
    if outcomes != [] {
      var front := outcomes[..|outcomes| - 1];
      assert forall i :: 0 <= i < |front| ==> front[i] == outcomes[i];
      CollectOk(front);
    }
  }

  /** Every dimension comes from one of the items. */
  lemma {:induction false} CollectedFrom(outcomes: seq<Result<Option<Dimension>>>, i: nat)
    requires Collect(outcomes).Ok? && i < |Collect(outcomes).value|
    ensures exists j :: 0 <= j < |outcomes| && outcomes[j] == Ok(Some(Collect(outcomes).value[i]))
  {
    var front := outcomes[..|outcomes| - 1];
    assert forall k :: 0 <= k < |front| ==> front[k] == outcomes[k];
    var ds := Collect(front).value;
    if i < |ds| {
      CollectedFrom(front, i);
    } else {
      assert outcomes[|outcomes| - 1] == Ok(Some(Collect(outcomes).value[i]));
    }
  }

  /** `parse_cloudwatch_dimensions` as a function: the empty option gives no
      dimensions, otherwise the comma-separated items are parsed in order. */
  function Dimensions(raw: string): (r: Result<seq<Dimension>>)
    ensures raw == [] ==> r == Ok([])
    ensures r.Err? ==> r.error == ValueError(DimensionsError)
  {
    if raw == [] then Ok([]) else ParseItems(Split(raw, ','))
  }

  /** The items a non-empty option text is cut into are exactly its
      comma-free pieces, in order, that join back to it with commas: no
      character of the text is lost or moved by the split. */
  lemma DimensionItems(raw: string, items: seq<string>)
    requires raw != []
    ensures items == Split(raw, ',') <==>
            && items != []
            && (forall i :: 0 <= i < |items| ==> ',' !in items[i])
            && Join(items, ',') == raw
    ensures Dimensions(raw) == ParseItems(Split(raw, ','))
  {
    JoinSplit(raw, ',');
    if items != [] && (forall i :: 0 <= i < |items| ==> ',' !in items[i]) && Join(items, ',') == raw {
      SplitJoin(items, ',');
    }
  }

  /** Every parsed dimension has a non-empty, stripped name and value, and
      neither holds a comma; the name holds no `=`. */
  lemma DimensionsWellFormed(raw: string, i: nat)
    requires Dimensions(raw).Ok? && i < |Dimensions(raw).value|
    ensures var d := Dimensions(raw).value[i];
            && d.name != [] && d.value != [] && '=' !in d.name
            && ',' !in d.name && ',' !in d.value
            && Strip(d.name) == d.name && Strip(d.value) == d.value
  {
    var items := Split(raw, ',');
    CollectedFrom(Outcomes(items), i);
    var j :| 0 <= j < |items| && Outcomes(items)[j] == Ok(Some(Dimensions(raw).value[i]));
    ItemDimension(items[j]);
  }

  /** The items parse exactly when each of them does. */
  lemma ItemsOk(items: seq<string>)
    ensures ParseItems(items).Ok? <==> forall i :: 0 <= i < |items| ==> ParseItem(items[i]).Ok?
  {
    CollectOk(Outcomes(items));
  }

  /** `parse_cloudwatch_dimensions`, item by item. */
  method ParseCloudwatchDimensions(raw: string) returns (r: Result<seq<Dimension>>)
    ensures r == Dimensions(raw)
  {
    if raw == [] {
      return Ok([]);
    }
    var items := Split(raw, ',');
    ghost var outcomes := Outcomes(items);
    var dimensions: seq<Dimension> := [];
    for i := 0 to |items|
      invariant Collect(outcomes[..i]) == Ok(dimensions)
    {
      var outcome := ParseItem(items[i]);
      CollectStep(outcomes, i, dimensions, outcome);
      match outcome {
        case Err(e) =>
          ErrorPersists(outcomes, i + 1);
          return Err(e);
        case Ok(None) =>
        case Ok(Some(d)) =>
          dimensions := dimensions + [d];
      }
    }
    assert outcomes[..|items|] == outcomes;
    r := Ok(dimensions);
  }

  /** Collecting one more outcome after a successful prefix. */
  lemma CollectStep(outcomes: seq<Result<Option<Dimension>>>, i: nat, dimensions: seq<Dimension>,
                    outcome: Result<Option<Dimension>>)
    requires i < |outcomes| && outcomes[i] == outcome
    requires Collect(outcomes[..i]) == Ok(dimensions)
    ensures Collect(outcomes[..i + 1]) == match outcome
                                         case Err(e) => Err(e)
                                         case Ok(None) => Ok(dimensions)
                                         case Ok(Some(d)) => Ok(dimensions + [d])
  {
    assert outcomes[..i + 1][..i] == outcomes[..i];
  }

  /** Once a prefix of the outcomes fails, all of them fail the same way. */
  lemma {:induction false} ErrorPersists(outcomes: seq<Result<Option<Dimension>>>, n: nat)
    requires n <= |outcomes| && Collect(outcomes[..n]).Err?
    ensures Collect(outcomes) == Collect(outcomes[..n])
    decreases |outcomes| - n
  {
    if n == |outcomes| {
      assert outcomes[..n] == outcomes;
    } else {
      var front := outcomes[..|outcomes| - 1];
      assert front[..n] == outcomes[..n];
      ErrorPersists(front, n);
      assert Collect(front).Err?;
    }
  }

  /** Collecting distributes over concatenation: the dimensions keep the
      order of their items. */
  lemma {:induction false} CollectConcat(a: seq<Result<Option<Dimension>>>, b: seq<Result<Option<Dimension>>>)
    requires Collect(a).Ok? && Collect(b).Ok?
    ensures Collect(a + b) == Ok(Collect(a).value + Collect(b).value)
  {
    if b == [] {
      assert a + b == a && Collect(a).value + [] == Collect(a).value;
    } else {
      var front, last := b[..|b| - 1], b[|b| - 1];
      assert (a + b)[..|a + b| - 1] == a + front;
      assert (a + b)[|a + b| - 1] == last;
      assert Collect(front).Ok?;
      CollectConcat(a, front);
      var x, y := Collect(a).value, Collect(front).value;
      match last {
        case Ok(None) =>
        case Ok(Some(d)) =>
          assert (x + y) + [d] == x + (y + [d]);
      }
    }
  }

  /** `Name=Value` with a stripped key free of `=` and a stripped value (which
      may hold `=`) parses to that dimension. */
  lemma ParsePair(name: string, value: string, item: string)
    requires name != [] && value != [] && '=' !in name
    requires !IsSpace(name[0]) && !IsSpace(name[|name| - 1])
    requires !IsSpace(value[0]) && !IsSpace(value[|value| - 1])
    requires item == name + "=" + value
    ensures ParseItem(item) == Ok(Some(Dimension(name, value)))
  {
    assert item[0] == name[0] && item[|item| - 1] == value[|value| - 1];
    NoSpaceStrip(item);
    assert '=' in item by { assert item[|name|] == '='; }
    PartitionFirst(name, value, '=');
    NoSpaceStrip(name);
    NoSpaceStrip(value);
  }

  /** A dimension that the option syntax can express. */
  predicate Expressible(d: Dimension)
  {
    && d.name != [] && d.value != [] && '=' !in d.name
    && ',' !in d.name && ',' !in d.value
    && !IsSpace(d.name[0]) && !IsSpace(d.name[|d.name| - 1])
    && !IsSpace(d.value[0]) && !IsSpace(d.value[|d.value| - 1])
  }

  /** The items `Name=Value` of the given dimensions. */
  function Pairs(ds: seq<Dimension>): (items: seq<string>)
    ensures |items| == |ds|
  {
    seq(|ds|, i requires 0 <= i < |ds| => ds[i].name + "=" + ds[i].value)
  }

  /** The option text that lists the given dimensions. */
  function FormatDimensions(ds: seq<Dimension>): string
  {
    Join(Pairs(ds), ',')
  }

  /** Parsing the option text of expressible dimensions gives them back. */
  lemma DimensionsRoundTrip(ds: seq<Dimension>)
    requires forall i :: 0 <= i < |ds| ==> Expressible(ds[i])
    ensures Dimensions(FormatDimensions(ds)) == Ok(ds)
  {
    if ds != [] {
      var items := Pairs(ds);
      assert items[0] == ds[0].name + "=" + ds[0].value;
      assert FormatDimensions(ds) != [];
      SplitJoin(items, ',');
      PairsOutcomes(ds);
      PairsCollect(ds, Outcomes(items));
    }
  }

  lemma PairsOutcomes(ds: seq<Dimension>)
    requires forall i :: 0 <= i < |ds| ==> Expressible(ds[i])
    ensures forall i :: 0 <= i < |ds| ==> Outcomes(Pairs(ds))[i] == Ok(Some(ds[i]))
  {
    var items := Pairs(ds);
    forall i | 0 <= i < |ds| ensures Outcomes(items)[i] == Ok(Some(ds[i])) {
      ParsePair(ds[i].name, ds[i].value, items[i]);
    }
  }

  lemma {:induction false} PairsCollect(ds: seq<Dimension>, outcomes: seq<Result<Option<Dimension>>>)
    requires |outcomes| == |ds|
    requires forall i :: 0 <= i < |ds| ==> outcomes[i] == Ok(Some(ds[i]))
    ensures Collect(outcomes) == Ok(ds)
  {
    if ds != [] {
      var n := |ds| - 1;
      assert forall i :: 0 <= i < n ==> ds[..n][i] == ds[i] && outcomes[..n][i] == outcomes[i];
      PairsCollect(ds[..n], outcomes[..n]);
      assert ds[..n] + [ds[n]] == ds;
    }
  }

  /** The example of the dimensions-parsing test. */
  lemma ExampleDimensions()
    ensures Dimensions("env=prod,team=data-platform")
            == Ok([Dimension("env", "prod"), Dimension("team", "data-platform")])
  {
    var ds := [Dimension("env", "prod"), Dimension("team", "data-platform")];
    ExampleExpressible(ds);
    ExampleFormat(ds);
    DimensionsRoundTrip(ds);
  }

  lemma ExampleExpressible(ds: seq<Dimension>)
    requires ds == [Dimension("env", "prod"), Dimension("team", "data-platform")]
    ensures forall i :: 0 <= i < |ds| ==> Expressible(ds[i])
  {
    assert Expressible(ds[0]);
    assert Expressible(ds[1]);
  }

  lemma ExampleFormat(ds: seq<Dimension>)
    requires ds == [Dimension("env", "prod"), Dimension("team", "data-platform")]
    ensures FormatDimensions(ds) == "env=prod,team=data-platform"
  {
    var items := Pairs(ds);
    assert items[0] == "env=prod" && items[1] == "team=data-platform";
    assert items[1..] == ["team=data-platform"];
    ExampleJoin(items);
  }

  lemma ExampleJoin(items: seq<string>)
    requires items == ["env=prod", "team=data-platform"]
    ensures Join(items, ',') == "env=prod,team=data-platform"
  {
    assert items[1..] == ["team=data-platform"];
  }

  // ---------------------------------------------------------------------
  // CloudWatch metric data
  // ---------------------------------------------------------------------

  /** One entry of CloudWatch metric data. */
  datatype Metric = Metric(name: string, dimensions: seq<Dimension>, value: int, unit: string)

  const MaxBaseDimensions := 9
  const LimitError := "CloudWatch dimensions limit exceeded (max 9 base dimensions)."

  /** The dimensions of `m` are `base` and at most one more. */
  predicate Extends(m: Metric, base: seq<Dimension>)
  {
    |base| <= |m.dimensions| <= |base| + 1 && m.dimensions[..|base|] == base
  }

  /** The count of one status: the base dimensions and a `Status` dimension
      naming it. */
  function CountMetric(base: seq<Dimension>, s: Status, count: nat): (m: Metric)
    ensures |m.dimensions| == |base| + 1 && m.dimensions[..|base|] == base
    ensures m.dimensions[|base|] == Dimension("Status", s.Name())
    ensures m.name == "DatasetHealthCount" && m.value == count && m.unit == "Count"
  {
    Metric("DatasetHealthCount", base + [Dimension("Status", s.Name())], count, "Count")
  }

  /** The gauge of one dataset: the base dimensions and a `Dataset`
      dimension naming it. */
  function DatasetMetric(base: seq<Dimension>, h: DatasetHealth): (m: Metric)
    ensures |m.dimensions| == |base| + 1 && m.dimensions[..|base|] == base
    ensures m.dimensions[|base|] == Dimension("Dataset", h.dataset.name)
    ensures m.name == "DatasetHealthDatasetStatus" && m.value == StatusValue(h.status) && m.unit == "None"
  {
    Metric("DatasetHealthDatasetStatus", base + [Dimension("Dataset", h.dataset.name)], StatusValue(h.status), "None")
  }

  /** The count of each status, in the order GREEN, YELLOW, RED. */
  function CountMetrics(base: seq<Dimension>, c: Counts): seq<Metric>
  {
    [CountMetric(base, GREEN, c.green), CountMetric(base, YELLOW, c.yellow), CountMetric(base, RED, c.red)]
  }

  /** The gauge of each dataset, in report order. */
  function DatasetMetrics(base: seq<Dimension>, ds: seq<DatasetHealth>): (ms: seq<Metric>)
    ensures |ms| == |ds|
    ensures forall i :: 0 <= i < |ds| ==> ms[i] == DatasetMetric(base, ds[i])
  {
    if ds == [] then []
    else DatasetMetrics(base, ds[..|ds| - 1]) + [DatasetMetric(base, ds[|ds| - 1])]
  }

  /** The metric data of a report. */
  function CloudwatchMetrics(report: HealthReport, base: seq<Dimension>, includeDatasets: bool): Result<seq<Metric>>
  {
    if |base| > MaxBaseDimensions then Err(ValueError(LimitError))
    else
      var c := CountsOf(report.datasets);
      Ok([ Metric("DatasetHealthOverallStatus", base, StatusValue(OverallStatus(report)), "None"),
           Metric("DatasetHealthTotal", base, c.total, "Count") ]
         + CountMetrics(base, c)
         + (if includeDatasets then DatasetMetrics(base, report.datasets) else []))
  }

  /** `build_cloudwatch_metrics`. */
  method BuildCloudwatchMetrics(report: HealthReport, base: seq<Dimension>, includeDatasets: bool)
    returns (r: Result<seq<Metric>>)
    ensures r == CloudwatchMetrics(report, base, includeDatasets)
  {
    if |base| > MaxBaseDimensions {
      return Err(ValueError(LimitError));
    }
    var summary := report.Summary();
    var metrics := [
      Metric("DatasetHealthOverallStatus", base, StatusValue(OverallStatus(report)), "None"),
      Metric("DatasetHealthTotal", base, summary.total, "Count")
    ];
    ghost var head := metrics;
    var statuses := [GREEN, YELLOW, RED];
    var counts := [summary.green, summary.yellow, summary.red];
    for k := 0 to 3
      invariant metrics == head + CountMetrics(base, summary)[..k]
    {
      assert CountMetrics(base, summary)[k] == CountMetric(base, statuses[k], counts[k]);
      assert CountMetrics(base, summary)[..k + 1] == CountMetrics(base, summary)[..k] + [CountMetrics(base, summary)[k]];
      metrics := metrics + [CountMetric(base, statuses[k], counts[k])];
    }
    assert CountMetrics(base, summary)[..3] == CountMetrics(base, summary);
    if includeDatasets {
      metrics := AppendDatasetMetrics(metrics, base, report.datasets);
    } else {
      assert metrics == metrics + [];
    }
    r := Ok(metrics);
  }

  /** The dataset loop of `build_cloudwatch_metrics`. */
  method AppendDatasetMetrics(prefix: seq<Metric>, base: seq<Dimension>, ds: seq<DatasetHealth>)
    returns (metrics: seq<Metric>)
    ensures metrics == prefix + DatasetMetrics(base, ds)
  {
    metrics := prefix;
    for i := 0 to |ds|
      invariant metrics == prefix + DatasetMetrics(base, ds[..i])
    {
      assert ds[..i + 1][..i] == ds[..i];
      metrics := metrics + [DatasetMetric(base, ds[i])];
    }
    assert ds[..|ds|] == ds;
  }

  /** More than nine base dimensions is an error; otherwise the overall
      gauge and the total, one count per status (GREEN, YELLOW, RED) adding
      up to the total, and, when asked for, one gauge per dataset in report
      order. */
  lemma MetricsShape(report: HealthReport, base: seq<Dimension>, includeDatasets: bool)
    ensures var r := CloudwatchMetrics(report, base, includeDatasets);
            && (r.Err? <==> |base| > MaxBaseDimensions)
            && (r.Err? ==> r.error == ValueError(LimitError))
            && (r.Ok? ==>
                  var ms, ds, c := r.value, report.datasets, CountsOf(report.datasets);
                  && |ms| == 5 + (if includeDatasets then |ds| else 0)
                  && ms[0] == Metric("DatasetHealthOverallStatus", base, StatusValue(OverallStatus(report)), "None")
                  && ms[1] == Metric("DatasetHealthTotal", base, |ds|, "Count")
                  && ms[2] == CountMetric(base, GREEN, c.green)
                  && ms[3] == CountMetric(base, YELLOW, c.yellow)
                  && ms[4] == CountMetric(base, RED, c.red)
                  && ms[2].value + ms[3].value + ms[4].value == ms[1].value
                  && (forall i :: 0 <= i < |ms| - 5 ==> ms[5 + i] == DatasetMetric(base, ds[i])))
  {
    var r := CloudwatchMetrics(report, base, includeDatasets);
    if r.Ok? {
      var c := CountsOf(report.datasets);
      var tail := if includeDatasets then DatasetMetrics(base, report.datasets) else [];
      ListShape(r.value, base, StatusValue(OverallStatus(report)), c, tail);
      assert |tail| == |r.value| - 5;
      forall i | 0 <= i < |tail| ensures r.value[5 + i] == DatasetMetric(base, report.datasets[i]) {
        assert r.value[5 + i] == tail[i];
      }
    }
  }

  lemma ListShape(ms: seq<Metric>, base: seq<Dimension>, overall: int, c: Counts, tail: seq<Metric>)
    requires ms == [ Metric("DatasetHealthOverallStatus", base, overall, "None"),
                     Metric("DatasetHealthTotal", base, c.total, "Count") ]
                   + CountMetrics(base, c) + tail
    ensures |ms| == 5 + |tail|
    ensures ms[0] == Metric("DatasetHealthOverallStatus", base, overall, "None")
    ensures ms[1] == Metric("DatasetHealthTotal", base, c.total, "Count")
    ensures ms[2] == CountMetric(base, GREEN, c.green)
    ensures ms[3] == CountMetric(base, YELLOW, c.yellow)
    ensures ms[4] == CountMetric(base, RED, c.red)
    ensures forall i :: 0 <= i < |tail| ==> ms[5 + i] == tail[i]
  {
  }

  /** Every metric carries the base dimensions first and at most one more,
      so never more than ten dimensions in all. */
  lemma MetricsWithinLimit(report: HealthReport, base: seq<Dimension>, includeDatasets: bool)
    ensures var r := CloudwatchMetrics(report, base, includeDatasets);
            r.Ok? ==> forall i :: 0 <= i < |r.value| ==> Extends(r.value[i], base) && |r.value[i].dimensions| <= 10
  {
    var r := CloudwatchMetrics(report, base, includeDatasets);
    if r.Ok? {
      forall i | 0 <= i < |r.value| ensures Extends(r.value[i], base) {
        if i >= 5 {
          assert r.value[i] == DatasetMetric(base, report.datasets[i - 5]);
        }
      }
    }
  }

  /** Two datasets and the per-dataset gauges give seven metrics. */
  lemma MetricsCount(report: HealthReport, base: seq<Dimension>)
    requires |report.datasets| == 2 && |base| <= MaxBaseDimensions
    ensures var r := CloudwatchMetrics(report, base, true);
            r.Ok? && |r.value| == 7
  {
  }

  // ---------------------------------------------------------------------
  // The report of the output tests
  // ---------------------------------------------------------------------

  /** One GREEN and one RED dataset, evaluated on 7 February 2026 (UTC). */
  function TwoDatasetReport(): HealthReport
  {
    var alpha := Dataset("alpha", "", "", "team-a", map[], "");
    var beta := Dataset("beta", "", "", "team-b", map[], "");
    HealthReport(1770422400, [
      DatasetHealth(alpha, GREEN, [CheckResult("check", GREEN, "ok", map[])]),
      DatasetHealth(beta, RED, [CheckResult("check", RED, "bad", map[])])])
  }

  /** The report is RED overall and counts one GREEN and one RED dataset. */
  lemma TwoDatasetSummary()
    ensures OverallStatus(TwoDatasetReport()) == RED
    ensures CountsOf(TwoDatasetReport().datasets) == Counts(1, 0, 1, 2)
  {
    var ds := TwoDatasetReport().datasets;
    assert ds[1].status == RED;
    TallyTwo(ds[0], ds[1], GREEN);
    TallyTwo(ds[0], ds[1], YELLOW);
    TallyTwo(ds[0], ds[1], RED);
    assert ds == [ds[0], ds[1]];
  }

  /** The report gives seven metrics with the per-dataset gauges. */
  lemma TwoDatasetMetrics()
    ensures var r := CloudwatchMetrics(TwoDatasetReport(), [], true);
            && r.Ok? && |r.value| == 7
            && r.value[0].name == "DatasetHealthOverallStatus" && r.value[0].value == 2
            && r.value[1].name == "DatasetHealthTotal"
            && r.value[2].name == "DatasetHealthCount"
            && r.value[5].name == "DatasetHealthDatasetStatus"
  {
    TwoDatasetSummary();
    MetricsShape(TwoDatasetReport(), [], true);
  }
}
