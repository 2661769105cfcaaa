/** The collab baseline gate: capture a report into a baseline, and check a later
    report against it. Numbers are exact; every rejected document is `None`. */
module CollabBaseline {
  import opened Std

  // Documents.

  /** A decoded JSON document. `NonFinite` is a number the decoder lets through as not
      a number or infinite. */
  datatype Json =
    | Null
    | Bool(flag: bool)
    | Int(n: int)
    | Num(x: real)
    | NonFinite
    | Str(s: string)
    | Arr(items: seq<Json>)
    | Obj(fields: map<string, Json>)

  /** `dict.get`: a missing key and an explicit null look the same. */
  function Get(doc: Json, key: string): Json {
    if doc.Obj? && key in doc.fields then doc.fields[key] else Null
  }

  predicate IsCount(v: Json) {
    v.Int? && v.n >= 0
  }

  /** The value of a count that has been required. */
  function Count(doc: Json, key: string): nat {
    if IsCount(Get(doc, key)) then Get(doc, key).n else 0
  }

  /** A finite, non-negative number. */
  function FiniteNumber(v: Json): Option<real> {
    match v
    case Int(n) => if n >= 0 then Some(n as real) else None
    case Num(x) => if x >= 0.0 then Some(x) else None
    case _ => None
  }

  const TOLERANCE := 0.000000001

  function Abs(x: real): real {
    if x < 0.0 then -x else x
  }

  function Max(x: real, y: real): real {
    if x < y then y else x
  }

  predicate IsClose(x: real, y: real) {
    Abs(x - y) <= Max(TOLERANCE * Max(Abs(x), Abs(y)), TOLERANCE)
  }

  // One distribution.

  /** A distribution belongs to a harness, and to a tool unless it is protocol
      traffic. */
  type Key = (string, Option<string>)

  function KeyOf(item: Json): Key {
    (match Get(item, "harness") case Str(s) => s case _ => "",
     match Get(item, "tool_name") case Str(s) => Some(s) case _ => None)
  }

  predicate MeanMatches(doc: Json, rows: nat, total: nat)
    requires rows > 0
  {
    match FiniteNumber(Get(doc, "mean_output_tokens"))
    case None => false
    case Some(mean) => IsClose(mean, total as real / rows as real)
  }

  function P95(item: Json): nat {
    Count(item, "p95_output_tokens")
  }

  function Rows(item: Json): nat {
    Count(item, "row_count")
  }

  function Total(item: Json): nat {
    Count(item, "total_output_tokens")
  }

  predicate NamesOk(item: Json) {
    && Get(item, "harness").Str? && Get(item, "harness").s != ""
    && (Get(item, "tool_name").Null? || (Get(item, "tool_name").Str? && Get(item, "tool_name").s != ""))
  }

  predicate PercentilesOk(item: Json) {
    && IsCount(Get(item, "p50_output_tokens"))
    && IsCount(Get(item, "p95_output_tokens"))
    && IsCount(Get(item, "max_output_tokens"))
    && Count(item, "p50_output_tokens") <= P95(item) <= Count(item, "max_output_tokens")
  }

  function ValidateDistribution(item: Json): Option<Key> {
    if !item.Obj? || !NamesOk(item) then None
    else if !IsCount(Get(item, "row_count")) || Rows(item) == 0 then None
    else if !IsCount(Get(item, "total_chars")) || !IsCount(Get(item, "total_output_tokens")) then None
    else if !MeanMatches(item, Rows(item), Total(item)) || !PercentilesOk(item) then None
    else Some(KeyOf(item))
  }

  // A list of them.

  ghost predicate AllValid(items: seq<Json>) {
    forall item | item in items :: ValidateDistribution(item).Some?
  }

  ghost predicate KeysDistinct(items: seq<Json>) {
    forall i, j | 0 <= i < j < |items| :: KeyOf(items[i]) != KeyOf(items[j])
  }

  /** A usable, unambiguous set of distributions. */
  ghost predicate Sound(items: seq<Json>) {
    items != [] && AllValid(items) && KeysDistinct(items)
  }

  ghost function KeySet(items: seq<Json>): set<Key> {
    set i | 0 <= i < |items| :: KeyOf(items[i])
  }

  /** Validate every item, refusing a key seen before. */
  method ValidateAll(items: seq<Json>) returns (ok: bool)
    ensures ok <==> AllValid(items) && KeysDistinct(items)
  {
    hide ValidateDistribution, KeyOf;
    var seen: set<Key> := {};
    for n := 0 to |items|
      invariant AllValid(items[..n]) && KeysDistinct(items[..n])
      invariant seen == KeySet(items[..n])
    {
      ItemKey(items[n]);
      assert items[..n + 1] == items[..n] + [items[n]];
      var key := ValidateDistribution(items[n]);
      if key.None? {
        assert items[n] in items;
        return false;
      }
      if key.value in seen {
        return false;
      }
      seen := seen + {key.value};
    }
    assert items[..|items|] == items;
    return true;
  }

  lemma ItemKey(item: Json)
    ensures ValidateDistribution(item).Some? ==> ValidateDistribution(item).value == KeyOf(item)
  {
  }

  // A report.

  function McpOf(report: Json): Json {
    Get(Get(report, "value_summary"), "mcp_response")
  }

  function ItemsOf(report: Json): seq<Json> {
    match Get(McpOf(report), "distributions")
    case Arr(items) => items
    case _ => []
  }

  /** The figures of the whole agree with those of its parts. */
  ghost predicate GoodReport(report: Json) {
    && Sound(ItemsOf(report))
    && IsCount(Get(McpOf(report), "row_count"))
    && IsCount(Get(McpOf(report), "total_output_tokens"))
    && Rows(McpOf(report)) == Sum(ItemsOf(report), Rows)
    && Total(McpOf(report)) == Sum(ItemsOf(report), Total)
    && Rows(McpOf(report)) > 0
    && MeanMatches(McpOf(report), Rows(McpOf(report)), Total(McpOf(report)))
  }

  method SumOf(items: seq<Json>, f: Json -> nat) returns (sum: nat)
    ensures sum == Sum(items, f)
  {
    sum := 0;
    for n := 0 to |items|
      invariant sum == Sum(items[..n], f)
    {
      assert items[..n + 1][..n] == items[..n];
      sum := sum + f(items[n]);
    }
    assert items[..|items|] == items;
  }

  method McpDistributions(report: Json) returns (r: Option<seq<Json>>)
    ensures r == if GoodReport(report) then Some(ItemsOf(report)) else None
  {
    hide AllValid, KeysDistinct, MeanMatches, IsCount;
    var mcp := McpOf(report);
    if !mcp.Obj? || !Get(mcp, "distributions").Arr? {
      return None;
    }
    var items := ItemsOf(report);
    if items == [] || !IsCount(Get(mcp, "row_count")) || !IsCount(Get(mcp, "total_output_tokens")) {
      return None;
    }
    if Rows(mcp) == 0 || !MeanMatches(mcp, Rows(mcp), Total(mcp)) {
      return None;
    }
    var valid := ValidateAll(items);
    if !valid {
      return None;
    }
    var rows := SumOf(items, Rows);
    var total := SumOf(items, Total);
    if rows != Rows(mcp) || total != Total(mcp) {
      return None;
    }
    return Some(items);
  }

  // Capturing.

  const KIND := "ironmem-collab-baseline"

  function ThresholdOf(v: Json): Option<real> {
    match FiniteNumber(v)
    case None => None
    case Some(x) => if x <= 10.0 then Some(x) else None
  }

  function TasksOf(report: Json): seq<Json> {
    match Get(report, "tasks")
    case Arr(tasks) => tasks
    case _ => []
  }

  /** Row `i` is the first for the session, and its outcome is absent or an object. */
  ghost predicate IsTask(report: Json, session: string, i: int) {
    && 0 <= i < |TasksOf(report)|
    && Get(TasksOf(report)[i], "task_key") == Str(session)
    && (forall j | 0 <= j < i :: Get(TasksOf(report)[j], "task_key") != Str(session))
    && (Get(TasksOf(report)[i], "outcome").Null? || Get(TasksOf(report)[i], "outcome").Obj?)
  }

  ghost predicate Reports(report: Json, session: string) {
    && Get(Get(report, "generated_for"), "task") == Str(session)
    && exists i :: IsTask(report, session, i)
  }

  /** The session's row, in a report made for that session. */
  method ReportTask(report: Json, session: string) returns (r: Option<Json>)
    ensures r.Some? <==> Reports(report, session)
    ensures r.Some? ==> exists i :: IsTask(report, session, i) && r.value == TasksOf(report)[i]
  {
    hide Get;
    if Get(Get(report, "generated_for"), "task") != Str(session) || !Get(report, "tasks").Arr? {
      return None;
    }
    var tasks := TasksOf(report);
    for n := 0 to |tasks|
      invariant forall j | 0 <= j < n :: Get(tasks[j], "task_key") != Str(session)
    {
      if Get(tasks[n], "task_key") == Str(session) {
        var outcome := Get(tasks[n], "outcome");
        if !outcome.Null? && !outcome.Obj? {
          return None;
        }
        assert IsTask(report, session, n);
        return Some(tasks[n]);
      }
    }
    return None;
  }

  /** What the gate reads from a baseline. */
  ghost predicate Captures(baseline: Json, report: Json, threshold: Json) {
    && Get(baseline, "kind") == Str(KIND)
    && Get(baseline, "schema_version") == Int(1)
    && Get(baseline, "mcp_response_distributions") == Arr(ItemsOf(report))
    && Get(baseline, "threshold") == Obj(map["max_p95_relative_increase" := threshold])
  }

  function Core(capturedAt: string, reference: Json, threshold: Json, items: seq<Json>): map<string, Json> {
    map["schema_version" := Int(1),
        "kind" := Str(KIND),
        "captured_at" := Str(capturedAt),
        "reference" := reference,
        "threshold" := Obj(map["max_p95_relative_increase" := threshold]),
        "mcp_response_distributions" := Arr(items)]
  }

  lemma CoreIsRead(profiles: map<string, Json>, capturedAt: string, reference: Json, threshold: Json, report: Json)
    ensures var baseline := Obj(profiles + Core(capturedAt, reference, threshold, ItemsOf(report)));
            && Captures(baseline, report, threshold)
            && Get(baseline, "captured_at") == Str(capturedAt) && Get(baseline, "reference") == reference
  {
    hide ItemsOf;
  }

  lemma ReferenceIsRead(reference: map<string, Json>)
    ensures forall key | key in reference :: Get(Obj(reference), key) == reference[key]
  {
  }

  lemma OfThisSession(report: Json, session: string)
    requires Reports(report, session)
    ensures Get(Get(report, "generated_for"), "task") == Str(session)
  {
  }

  /** `profiles` are the entries the gate never reads (phase totals, prompts and review
      artifacts), or `None` when one of them cannot be made. */
  method BuildBaseline(report: Json, session: string, capturedAt: string, threshold: Json,
                       profiles: Option<map<string, Json>>)
    returns (r: Option<Json>)
    ensures r.Some? <==> && ThresholdOf(threshold).Some? && Reports(report, session)
                         && GoodReport(report) && profiles.Some?
    ensures r.Some? ==> && Captures(r.value, report, threshold)
                        && Get(r.value, "captured_at") == Str(capturedAt)
                        && Get(Get(r.value, "reference"), "collab_session_id") == Str(session)
                        && Get(Get(r.value, "reference"), "report_task") == Str(session)
    ensures r.Some? ==> exists i :: && IsTask(report, session, i)
                                    && Get(Get(r.value, "reference"), "outcome")
                                       == Get(Get(TasksOf(report)[i], "outcome"), "outcome")
  {
    hide GoodReport, Reports;
    if ThresholdOf(threshold).None? {
      return None;
    }
    var task := ReportTask(report, session);
    if task.None? {
      return None;
    }
    var distributions := McpDistributions(report);
    if distributions.None? || profiles.None? {
      return None;
    }
    var reference := map["collab_session_id" := Str(session),
                         "report_task" := Get(Get(report, "generated_for"), "task"),
                         "outcome" := Get(Get(task.value, "outcome"), "outcome")];
    ReferenceIsRead(reference);
    assert Reports(report, session);
    OfThisSession(report, session);
    hide Captures, Get;
    CoreIsRead(profiles.value, capturedAt, Obj(reference), threshold, report);
    return Some(Obj(profiles.value + Core(capturedAt, Obj(reference), threshold, distributions.value)));
  }

  // Checking.

  /** The version is compared by value, so 1.0 and true count as 1. */
  predicate IsVersionOne(v: Json) {
    v == Int(1) || v == Num(1.0) || v == Bool(true)
  }

  function BaselineItems(baseline: Json): seq<Json> {
    match Get(baseline, "mcp_response_distributions")
    case Arr(items) => items
    case _ => []
  }

  ghost predicate GoodBaseline(baseline: Json) {
    && Get(baseline, "kind") == Str(KIND)
    && IsVersionOne(Get(baseline, "schema_version"))
    && Sound(BaselineItems(baseline))
  }

  /** A baseline's distributions as a report whose figures follow from them. */
  function Wrapped(items: seq<Json>, rows: nat, total: nat): Json
    requires rows > 0
  {
    Obj(map["value_summary" := Obj(map["mcp_response" := Obj(map[
      "row_count" := Int(rows),
      "total_output_tokens" := Int(total),
      "mean_output_tokens" := Num(total as real / rows as real),
      "distributions" := Arr(items)])])])
  }

  lemma WrappedIsGood(items: seq<Json>, rows: nat, total: nat)
    requires Sound(items) && rows == Sum(items, Rows) > 0 && total == Sum(items, Total)
    ensures GoodReport(Wrapped(items, rows, total)) && ItemsOf(Wrapped(items, rows, total)) == items
  {
    hide Sound;
    var mcp := McpOf(Wrapped(items, rows, total));
    assert Get(mcp, "mean_output_tokens") == Num(total as real / rows as real);
    assert Rows(mcp) == rows && Total(mcp) == total;
    assert total as real / rows as real >= 0.0;
  }

  lemma RowsArePositive(items: seq<Json>)
    requires Sound(items)
    ensures Sum(items, Rows) > 0
  {
    assert Last(items) in items;
  }

  method BaselineDistributions(baseline: Json) returns (r: Option<seq<Json>>)
    ensures r == if GoodBaseline(baseline) then Some(BaselineItems(baseline)) else None
  {
    hide AllValid, KeysDistinct, GoodReport;
    if Get(baseline, "kind") != Str(KIND) || !IsVersionOne(Get(baseline, "schema_version")) {
      return None;
    }
    var items := BaselineItems(baseline);
    if items == [] {
      return None;
    }
    var valid := ValidateAll(items);
    if !valid {
      return None;
    }
    RowsArePositive(items);
    var rows := SumOf(items, Rows);
    var total := SumOf(items, Total);
    WrappedIsGood(items, rows, total);
    r := McpDistributions(Wrapped(items, rows, total));
  }

  datatype Comparison = Comparison(key: Key, baseline: nat, current: nat, allowed: real)

  datatype Regression = Missing(key: Key) | Increase(comparison: Comparison)

  datatype Check = Check(passed: bool, threshold: real, comparisons: seq<Comparison>, regressions: seq<Regression>)

  function Allowed(item: Json, t: real): real {
    P95(item) as real * (1.0 + t)
  }

  /** The distribution with this key, if the report has one. */
  function Find(items: seq<Json>, key: Key): (r: Option<Json>)
    ensures r.Some? ==> r.value in items && KeyOf(r.value) == key
    ensures r.None? ==> forall item | item in items :: KeyOf(item) != key
  {
    if items == [] then None
    else if KeyOf(Last(items)) == key then Some(Last(items))
    else Find(items[..|items| - 1], key)
  }

  function Compared(expected: Json, actual: Json, t: real): Comparison {
    Comparison(KeyOf(expected), P95(expected), P95(actual), Allowed(expected, t))
  }

  ghost function Comparisons(base: seq<Json>, current: seq<Json>, t: real): seq<Comparison> {
    if base == [] then []
    else Comparisons(base[..|base| - 1], current, t)
         + match Find(current, KeyOf(Last(base)))
           case None => []
           case Some(actual) => [Compared(Last(base), actual, t)]
  }

  ghost function Regressions(base: seq<Json>, current: seq<Json>, t: real): seq<Regression> {
    if base == [] then []
    else Regressions(base[..|base| - 1], current, t)
         + match Find(current, KeyOf(Last(base)))
           case None => [Missing(KeyOf(Last(base)))]
           case Some(actual) =>
             if P95(actual) as real > Allowed(Last(base), t) then [Increase(Compared(Last(base), actual, t))] else []
  }

  /** What passing means: every tool of the baseline is still there, and none costs more
      than the threshold allows. */
  ghost predicate Passes(base: seq<Json>, current: seq<Json>, t: real) {
    forall e | e in base :: exists a | a in current :: KeyOf(a) == KeyOf(e) && P95(a) as real <= Allowed(e, t)
  }

  lemma {:induction false} NoRegressionIsPassing(base: seq<Json>, current: seq<Json>, t: real)
    requires KeysDistinct(current)
    ensures Regressions(base, current, t) == [] <==> Passes(base, current, t)
  {
    hide KeyOf, P95, Allowed;
    if base != [] {
      var front, e := base[..|base| - 1], Last(base);
      NoRegressionIsPassing(front, current, t);
      assert base == front + [e];
      var found := Find(current, KeyOf(e));
      forall a | a in current && KeyOf(a) == KeyOf(e) ensures found == Some(a) {
        KeyIsUnique(current, a, found.value);
      }
    }
  }

  lemma KeyIsUnique(items: seq<Json>, a: Json, b: Json)
    requires KeysDistinct(items) && a in items && b in items && KeyOf(a) == KeyOf(b)
    ensures a == b
  {
  }

  /** The distributions by key. */
  method DistributionMap(items: seq<Json>) returns (r: map<Key, Json>)
    requires KeysDistinct(items)
    ensures forall key :: (if key in r then Some(r[key]) else None) == Find(items, key)
  {
    hide KeyOf;
    r := map[];
    for n := 0 to |items|
      invariant forall key :: (if key in r then Some(r[key]) else None) == Find(items[..n], key)
    {
      assert items[..n + 1][..n] == items[..n];
      r := r[KeyOf(items[n]) := items[n]];
    }
    assert items[..|items|] == items;
  }

  /** The threshold in force: the baseline's, unless overridden. The baseline's must be
      a number either way. */
  function ThresholdInForce(baseline: Json, override: Option<Json>): Option<real> {
    var configured := Get(Get(baseline, "threshold"), "max_p95_relative_increase");
    if !(configured.Int? || configured.Num? || configured.NonFinite?) then None
    else ThresholdOf(if override.Some? then override.value else configured)
  }

  lemma GoodReportHasDistinctKeys(report: Json)
    requires GoodReport(report)
    ensures KeysDistinct(ItemsOf(report))
  {
  }

  lemma CheckedExactly(baseline: Json, report: Json, override: Option<Json>)
    ensures GoodBaseline(baseline) <==> UsableBaseline(baseline)
    ensures GoodReport(report) <==> UsableReport(report)
    ensures forall t :: ThresholdInForce(baseline, override) == Some(t) <==> Applies(baseline, override, t)
    ensures GoodBaseline(baseline) && GoodReport(report) ==>
              forall t :: Passes(BaselineItems(baseline), ItemsOf(report), t)
                          <==> WithinBounds(Baselined(baseline), Tools(report), t)
  {
    BaselineExactly(baseline);
    ReportExactly(report);
    hide Get, Passes, Applies, ThresholdInForce, UsableReport, UsableBaseline, WithinBounds, Sum, Sound, MeanMatches;
    forall t ensures ThresholdInForce(baseline, override) == Some(t) <==> Applies(baseline, override, t) {
      ThresholdExactly(baseline, override, t);
    }
    if GoodBaseline(baseline) && GoodReport(report) {
      forall t ensures Passes(BaselineItems(baseline), ItemsOf(report), t)
                       <==> WithinBounds(Baselined(baseline), Tools(report), t)
      {
        PassesExactly(BaselineItems(baseline), ItemsOf(report), t);
      }
    }
  }

  method CheckRegression(baseline: Json, report: Json, override: Option<Json>) returns (r: Option<Check>)
    ensures r.Some? <==> GoodBaseline(baseline) && GoodReport(report) && ThresholdInForce(baseline, override).Some?
    ensures r.Some? ==>
              && Some(r.value.threshold) == ThresholdInForce(baseline, override)
              && r.value.comparisons == Comparisons(BaselineItems(baseline), ItemsOf(report), r.value.threshold)
              && r.value.regressions == Regressions(BaselineItems(baseline), ItemsOf(report), r.value.threshold)
              && (r.value.passed <==> r.value.regressions == [])
              && (r.value.passed <==> Passes(BaselineItems(baseline), ItemsOf(report), r.value.threshold))
    ensures r.Some? <==> && UsableBaseline(baseline) && UsableReport(report)
                         && exists t :: Applies(baseline, override, t)
    ensures r.Some? ==>
              && Applies(baseline, override, r.value.threshold)
              && (r.value.passed <==> WithinBounds(Baselined(baseline), Tools(report), r.value.threshold))
  {
    CheckedExactly(baseline, report, override);
    hide Applies, UsableBaseline, UsableReport, WithinBounds, Baselined, Tools;
    hide ThresholdInForce, KeyOf, Allowed, P95, Find, Get, ItemsOf, BaselineItems, KeysDistinct, GoodReport, GoodBaseline, Passes;
    var baselineItems := BaselineDistributions(baseline);
    if baselineItems.None? {
      return None;
    }
    var currentItems := McpDistributions(report);
    if currentItems.None? {
      return None;
    }
    var base, current := baselineItems.value, currentItems.value;
    var t := ThresholdInForce(baseline, override);
    if t.None? {
      return None;
    }
    GoodReportHasDistinctKeys(report);
    var threshold := t.value;
    var currentByKey := DistributionMap(current);
    var regressions: seq<Regression> := [];
    var comparisons: seq<Comparison> := [];
    for n := 0 to |base|
      invariant comparisons == Comparisons(base[..n], current, threshold)
      invariant regressions == Regressions(base[..n], current, threshold)
    {
      assert base[..n + 1][..n] == base[..n];
      var expected := base[n];
      var key := KeyOf(expected);
      if key !in currentByKey {
        regressions := regressions + [Missing(key)];
        continue;
      }
      var comparison := Compared(expected, currentByKey[key], threshold);
      comparisons := comparisons + [comparison];
      if comparison.current as real > comparison.allowed {
        regressions := regressions + [Increase(comparison)];
      }
    }
    assert base[..|base|] == base;
    NoRegressionIsPassing(base, current, threshold);
    return Some(Check(regressions == [], threshold, comparisons, regressions));
  }

  // What is accepted and what passes, field by field.

  /** The document's number, if it is one that counts. */
  predicate IsNumber(v: Json, x: real) {
    (v.Int? && v.n >= 0 && x == v.n as real) || (v.Num? && v.x >= 0.0 && x == v.x)
  }

  /** Equal up to a billionth of the larger, or of one. */
  predicate Near(x: real, y: real) {
    || (x - y <= 0.000000001 && y - x <= 0.000000001)
    || (x - y <= 0.000000001 * x && y - x <= 0.000000001 * x)
    || (x - y <= 0.000000001 * y && y - x <= 0.000000001 * y)
  }

  /** The field holds a count. */
  predicate HasFigure(doc: Json, key: string) {
    Get(doc, key).Int? && Get(doc, key).n >= 0
  }

  function Figure(doc: Json, key: string): nat {
    if Get(doc, key).Int? && Get(doc, key).n >= 0 then Get(doc, key).n else 0
  }

  function Listed(v: Json): seq<Json> {
    if v.Arr? then v.items else []
  }

  ghost predicate HasMean(doc: Json) {
    && HasFigure(doc, "row_count") && Figure(doc, "row_count") > 0 && HasFigure(doc, "total_output_tokens")
    && exists mean | IsNumber(Get(doc, "mean_output_tokens"), mean) ::
         Near(mean, Figure(doc, "total_output_tokens") as real / Figure(doc, "row_count") as real)
  }

  /** A usable distribution. */
  ghost predicate IsUsable(item: Json) {
    && item.Obj?
    && Get(item, "harness").Str? && Get(item, "harness").s != ""
    && (Get(item, "tool_name") == Null || (Get(item, "tool_name").Str? && Get(item, "tool_name").s != ""))
    && HasFigure(item, "total_chars") && HasMean(item)
    && HasFigure(item, "p50_output_tokens") && HasFigure(item, "p95_output_tokens") && HasFigure(item, "max_output_tokens")
    && Figure(item, "p50_output_tokens") <= Figure(item, "p95_output_tokens") <= Figure(item, "max_output_tokens")
  }

  predicate SameTool(a: Json, b: Json) {
    Get(a, "harness") == Get(b, "harness") && Get(a, "tool_name") == Get(b, "tool_name")
  }

  /** A list of usable distributions, each of its own tool. */
  ghost predicate UsableList(items: seq<Json>) {
    && items != [] && (forall item | item in items :: IsUsable(item))
    && forall i, j | 0 <= i < j < |items| :: !SameTool(items[i], items[j])
  }

  function Response(report: Json): Json {
    Get(Get(report, "value_summary"), "mcp_response")
  }

  function Tools(report: Json): seq<Json> {
    Listed(Get(Response(report), "distributions"))
  }

  function Baselined(baseline: Json): seq<Json> {
    Listed(Get(baseline, "mcp_response_distributions"))
  }

  /** The report's own figures agree with those of its distributions. */
  ghost predicate UsableReport(report: Json) {
    && UsableList(Tools(report)) && HasMean(Response(report))
    && Figure(Response(report), "row_count") == Sum(Tools(report), (item: Json) => Figure(item, "row_count"))
    && Figure(Response(report), "total_output_tokens")
       == Sum(Tools(report), (item: Json) => Figure(item, "total_output_tokens"))
  }

  ghost predicate UsableBaseline(baseline: Json) {
    && Get(baseline, "kind") == Str("ironmem-collab-baseline")
    && Get(baseline, "schema_version") in {Int(1), Num(1.0), Bool(true)}
    && UsableList(Baselined(baseline))
  }

  /** The threshold that applies: a finite number from zero to ten, the override's if
      there is one; the baseline's must be a number in any case. */
  ghost predicate Applies(baseline: Json, override: Option<Json>, t: real) {
    var configured := Get(Get(baseline, "threshold"), "max_p95_relative_increase");
    && (configured.Int? || configured.Num? || configured.NonFinite?)
    && IsNumber(if override.Some? then override.value else configured, t) && t <= 10.0
  }

  /** Every tool of the baseline is in the report, at no more than its 95th percentile
      increased by the threshold. */
  ghost predicate WithinBounds(base: seq<Json>, current: seq<Json>, t: real) {
    forall e | e in base :: exists a | a in current ::
      && SameTool(a, e)
      && Figure(a, "p95_output_tokens") as real <= Figure(e, "p95_output_tokens") as real * (1.0 + t)
  }

  lemma CloseIsNear(x: real, y: real)
    requires x >= 0.0 && y >= 0.0
    ensures IsClose(x, y) <==> Near(x, y)
  {
  }

  lemma NumberExactly(v: Json, x: real)
    ensures FiniteNumber(v) == Some(x) <==> IsNumber(v, x)
  {
  }

  lemma MeanExactly(doc: Json)
    ensures IsCount(Get(doc, "row_count")) && Rows(doc) > 0 && IsCount(Get(doc, "total_output_tokens"))
            && MeanMatches(doc, Rows(doc), Total(doc))
            <==> HasMean(doc)
  {
    hide Get, IsClose, Near, IsNumber, FiniteNumber;
    if IsCount(Get(doc, "row_count")) && Rows(doc) > 0 && IsCount(Get(doc, "total_output_tokens")) {
      var q := Total(doc) as real / Rows(doc) as real;
      assert q >= 0.0;
      var v := Get(doc, "mean_output_tokens");
      forall x ensures FiniteNumber(v) == Some(x) <==> IsNumber(v, x) {
        NumberExactly(v, x);
      }
      if FiniteNumber(v).Some? {
        NumberIsNotNegative(v);
        CloseIsNear(FiniteNumber(v).value, q);
      }
    }
  }

  lemma NumberIsNotNegative(v: Json)
    requires FiniteNumber(v).Some?
    ensures FiniteNumber(v).value >= 0.0
  {
  }

  /** A distribution is accepted exactly if it is usable. */
  lemma ItemExactly(item: Json)
    ensures ValidateDistribution(item).Some? <==> IsUsable(item)
  {
    hide Get, MeanMatches, HasMean;
    MeanExactly(item);
  }

  lemma ToolExactly(a: Json, b: Json)
    requires IsUsable(a) && IsUsable(b)
    ensures KeyOf(a) == KeyOf(b) <==> SameTool(a, b)
  {
    hide Get, HasMean;
  }

  lemma ListExactly(items: seq<Json>)
    ensures Sound(items) <==> UsableList(items)
  {
    hide ValidateDistribution, IsUsable, KeyOf, SameTool;
    forall item | item in items ensures ValidateDistribution(item).Some? <==> IsUsable(item) {
      ItemExactly(item);
    }
    if forall item | item in items :: IsUsable(item) {
      forall i, j | 0 <= i < j < |items| ensures KeyOf(items[i]) == KeyOf(items[j]) <==> SameTool(items[i], items[j]) {
        ToolExactly(items[i], items[j]);
      }
    }
  }

  lemma {:induction false} SumsAgree(items: seq<Json>, f: Json -> nat, g: Json -> nat)
    requires forall item :: f(item) == g(item)
    ensures Sum(items, f) == Sum(items, g)
  {
    if items != [] {
      SumsAgree(items[..|items| - 1], f, g);
    }
  }

  lemma ReportExactly(report: Json)
    ensures ItemsOf(report) == Tools(report)
    ensures GoodReport(report) <==> UsableReport(report)
  {
    var mcp, items := Response(report), ItemsOf(report);
    assert McpOf(report) == mcp;
    MeanExactly(mcp);
    hide Get;
    assert items == Tools(report);
    ListExactly(items);
    hide Sound, UsableList, HasMean, MeanMatches, ItemsOf, Tools, McpOf, Response;
    SumsAgree(items, Rows, (item: Json) => Figure(item, "row_count"));
    SumsAgree(items, Total, (item: Json) => Figure(item, "total_output_tokens"));
  }

  lemma BaselineExactly(baseline: Json)
    ensures BaselineItems(baseline) == Baselined(baseline)
    ensures GoodBaseline(baseline) <==> UsableBaseline(baseline)
  {
    hide Get, Sound, UsableList;
    ListExactly(BaselineItems(baseline));
  }

  lemma ThresholdExactly(baseline: Json, override: Option<Json>, t: real)
    ensures ThresholdInForce(baseline, override) == Some(t) <==> Applies(baseline, override, t)
  {
    hide Get;
  }

  lemma SoundIsUsable(items: seq<Json>)
    requires Sound(items)
    ensures forall item | item in items :: IsUsable(item)
  {
    hide ValidateDistribution, IsUsable, KeysDistinct;
    forall item | item in items ensures IsUsable(item) {
      ItemExactly(item);
    }
  }

  lemma PassesExactly(base: seq<Json>, current: seq<Json>, t: real)
    requires Sound(base) && Sound(current)
    ensures Passes(base, current, t) <==> WithinBounds(base, current, t)
  {
    hide Sound;
    SoundIsUsable(base);
    SoundIsUsable(current);
    forall item ensures P95(item) == Figure(item, "p95_output_tokens") {
      FigureIsP95(item);
    }
    forall e, a | e in base && a in current ensures KeyOf(a) == KeyOf(e) <==> SameTool(a, e) {
      ToolExactly(a, e);
    }
    hide Get, KeyOf, SameTool, IsUsable, P95, Figure;
  }

  // Laws.

  /** A tool is reported missing exactly when the baseline has it and the report does
      not. */
  lemma {:induction false} MissingExactly(base: seq<Json>, current: seq<Json>, t: real, key: Key)
    ensures Missing(key) in Regressions(base, current, t)
            <==> (exists e | e in base :: KeyOf(e) == key) && forall a | a in current :: KeyOf(a) != key
  {
    hide KeyOf, P95, Allowed;
    if base != [] {
      var front, e := base[..|base| - 1], Last(base);
      MissingExactly(front, current, t, key);
      assert base == front + [e];
    }
  }

  /** The comparison of two distributions of one tool. */
  ghost predicate IsComparison(c: Comparison, e: Json, a: Json, t: real) {
    && KeyOf(a) == KeyOf(e) == c.key
    && c.baseline == Figure(e, "p95_output_tokens") && c.current == Figure(a, "p95_output_tokens")
    && c.allowed == Figure(e, "p95_output_tokens") as real * (1.0 + t)
  }

  lemma FindExactly(current: seq<Json>, key: Key, a: Json)
    requires KeysDistinct(current)
    ensures Find(current, key) == Some(a) <==> a in current && KeyOf(a) == key
  {
    hide KeyOf;
    var found := Find(current, key);
    if a in current && KeyOf(a) == key {
      KeyIsUnique(current, a, found.value);
    }
  }

  lemma ComparedIs(e: Json, a: Json, t: real, c: Comparison)
    requires KeyOf(a) == KeyOf(e)
    ensures c == Compared(e, a, t) <==> IsComparison(c, e, a, t)
    ensures P95(a) as real > Allowed(e, t) <==> Compared(e, a, t).current as real > Compared(e, a, t).allowed
  {
    FigureIsP95(e);
    FigureIsP95(a);
    hide KeyOf, P95, Figure;
  }

  lemma FigureIsP95(item: Json)
    ensures P95(item) == Figure(item, "p95_output_tokens")
  {
    hide Get;
  }

  /** Compared are exactly the tools both sides have; reported as increased exactly those
      of them that exceed what is allowed. */
  lemma {:induction false} IncreaseExactly(base: seq<Json>, current: seq<Json>, t: real, c: Comparison)
    requires KeysDistinct(current)
    ensures c in Comparisons(base, current, t)
            <==> exists e, a | e in base && a in current :: IsComparison(c, e, a, t)
    ensures Increase(c) in Regressions(base, current, t)
            <==> c in Comparisons(base, current, t) && c.current as real > c.allowed
  {
    hide KeyOf, P95, Allowed, Compared, Figure, KeysDistinct;
    if base != [] {
      var front, e := base[..|base| - 1], Last(base);
      IncreaseExactly(front, current, t, c);
      assert base == front + [e];
      forall a ensures Find(current, KeyOf(e)) == Some(a) <==> a in current && KeyOf(a) == KeyOf(e) {
        FindExactly(current, KeyOf(e), a);
      }
      forall a | KeyOf(a) == KeyOf(e)
        ensures c == Compared(e, a, t) <==> IsComparison(c, e, a, t)
        ensures P95(a) as real > Allowed(e, t) <==> Compared(e, a, t).current as real > Compared(e, a, t).allowed
      {
        ComparedIs(e, a, t, c);
      }
    }
  }

  lemma AllowedGrows(e: Json, low: real, high: real)
    requires low <= high
    ensures Allowed(e, low) <= Allowed(e, high)
  {
    hide P95;
    var p := P95(e) as real;
    assert p * (high - low) >= 0.0;
    assert p * (1.0 + high) - p * (1.0 + low) == p * (high - low);
  }

  /** A higher threshold never fails what a lower one passed. */
  lemma MonotoneInThreshold(base: seq<Json>, current: seq<Json>, low: real, high: real)
    requires low <= high && Passes(base, current, low)
    ensures Passes(base, current, high)
  {
    hide KeyOf, P95, Allowed;
    forall e | e in base
      ensures exists a | a in current :: KeyOf(a) == KeyOf(e) && P95(a) as real <= Allowed(e, high)
    {
      var a :| a in current && KeyOf(a) == KeyOf(e) && P95(a) as real <= Allowed(e, low);
      AllowedGrows(e, low, high);
    }
  }

  /** Tools the baseline does not know make no difference, wherever they appear. */
  lemma AddedToolsAreFree(base: seq<Json>, before: seq<Json>, added: seq<Json>, after: seq<Json>, t: real)
    requires forall e, a | e in base && a in added :: KeyOf(a) != KeyOf(e)
    ensures Passes(base, before + added + after, t) <==> Passes(base, before + after, t)
  {
    hide KeyOf, P95, Allowed;
  }

  lemma InForceIsNotNegative(baseline: Json, override: Option<Json>)
    requires ThresholdInForce(baseline, override).Some?
    ensures 0.0 <= ThresholdInForce(baseline, override).value <= 10.0
  {
  }

  lemma PassesItself(items: seq<Json>, t: real)
    requires t >= 0.0
    ensures Passes(items, items, t)
  {
    hide KeyOf, P95;
    forall e | e in items ensures P95(e) as real <= Allowed(e, t) {
      AllowedGrows(e, 0.0, t);
    }
  }

  /** A captured baseline is one the gate accepts, and holds what was captured. */
  lemma CapturedIsGood(baseline: Json, report: Json, threshold: Json, override: Option<Json>)
    requires Captures(baseline, report, threshold) && GoodReport(report) && ThresholdOf(threshold).Some?
    ensures GoodBaseline(baseline) && BaselineItems(baseline) == ItemsOf(report)
    ensures ThresholdInForce(baseline, override) == ThresholdOf(if override.Some? then override.value else threshold)
  {
    hide Sound, McpOf;
  }

  /** Capture, then check the same report: the result is always a pass, under the
      captured threshold and under any valid override. */
  method CaptureThenCheck(report: Json, session: string, capturedAt: string, threshold: Json,
                          profiles: Option<map<string, Json>>, override: Option<Json>)
    returns (baseline: Option<Json>, check: Option<Check>)
    ensures baseline.Some? && (override.None? || ThresholdOf(override.value).Some?) ==>
              && check.Some? && check.value.passed && check.value.regressions == []
              && Some(check.value.threshold) == ThresholdOf(if override.Some? then override.value else threshold)
  {
    hide GoodReport, GoodBaseline, Captures, ThresholdInForce, Passes, ThresholdOf, Regressions, Comparisons;
    baseline := BuildBaseline(report, session, capturedAt, threshold, profiles);
    if baseline.None? {
      return None, None;
    }
    CapturedIsGood(baseline.value, report, threshold, override);
    check := CheckRegression(baseline.value, report, override);
    if check.Some? {
      InForceIsNotNegative(baseline.value, override);
      PassesItself(ItemsOf(report), check.value.threshold);
    }
  }
}
