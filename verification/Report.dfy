/** Metric rows, their aggregation per arm, and the headline gate. */
module Report {
  import opened Std
  import opened Tokens

  const MIN_TASKS_PER_ARM: nat := 8
  const IRONMEM := "ironmem"
  const SUPERPOWERS := "superpowers"

  /** What an arm's agent run came to. */
  datatype AgentOutcome = Completed | Failed | Excluded

  /** The outcome column of a row; a loaded file may hold any other text. */
  datatype RowOutcome = Agent(outcome: AgentOutcome) | Merged | OtherOutcome(text: string)

  datatype ArmOutcome = ArmOutcome(
    usage: Usage, codexUsage: Usage, reviewRounds: u32, fixCommits: u32, outcome: AgentOutcome)

  datatype TaskMetric = TaskMetric(
    arm: string, taskKey: string, outcome: RowOutcome, ciGreen: bool, estimated: bool, claude: Usage,
    codexInput: u32, codexOutput: u32, codexCacheRead: u32, reviewRounds: u32, fixCommits: u32)
  {
    function TokensToDone(): u64 {
      claude.Total() + codexInput + codexOutput + codexCacheRead
    }

    function ReworkLoops(): u64 {
      reviewRounds + fixCommits
    }

    /** Counts towards the headline. */
    predicate IsDone() {
      !estimated && outcome == Merged && ciGreen
    }
  }

  function TaskKey(taskId: string, arm: string): string {
    taskId + ":" + arm
  }

  /** The done-proxy: merged exactly when the agent completed and its gates passed. */
  function BuildArmMetric(taskId: string, arm: string, o: ArmOutcome, ciGreen: bool): TaskMetric {
    var green := o.outcome == Completed && ciGreen;
    TaskMetric(arm, TaskKey(taskId, arm), if green then Merged else Agent(o.outcome), green, false, o.usage,
               o.codexUsage.input, o.codexUsage.output, o.codexUsage.cacheRead, o.reviewRounds, o.fixCommits)
  }

  /** A built row is measured, not estimated; it is done, merged and green all at once or
      not at all, and otherwise shows its run's outcome; its tokens are the Claude plus the
      Codex total as long as Codex reports no cache creation; rounds and commits are kept
      apart. */
  lemma BuiltRow(taskId: string, arm: string, o: ArmOutcome, ciGreen: bool)
    ensures var m := BuildArmMetric(taskId, arm, o, ciGreen);
            && (m.IsDone() <==> o.outcome == Completed && ciGreen)
            && (m.outcome == Merged <==> m.IsDone()) && (m.ciGreen <==> m.IsDone())
            && (m.outcome != Merged ==> m.outcome == Agent(o.outcome)) && !m.estimated
            && (m.outcome == Agent(Excluded) <==> o.outcome == Excluded)
            && m.arm == arm && m.taskKey == taskId + ":" + arm
            && m.reviewRounds == o.reviewRounds && m.fixCommits == o.fixCommits
            && m.ReworkLoops() == o.reviewRounds + o.fixCommits
            && (m.TokensToDone() == o.usage.Total() + o.codexUsage.Total() <==> o.codexUsage.cacheCreation == 0)
  {
  }

  // ---- aggregation ----

  datatype ArmAgg = ArmAgg(
    completed: seq<u64>, rework: seq<u64>, attempted: nat, attemptedTokens: u64, merged: nat,
    seenTaskKeys: set<string>, duplicatesIgnored: nat)

  const NO_ROWS := ArmAgg([], [], 0, 0, 0, {}, 0)

  /** The rows of one arm. */
  function ArmRows(rows: seq<TaskMetric>, arm: string): seq<TaskMetric> {
    if rows == [] then []
    else
      var front := ArmRows(rows[..|rows| - 1], arm);
      if Last(rows).arm == arm then front + [Last(rows)] else front
  }

  function Keys(rows: seq<TaskMetric>): set<string> {
    set i | 0 <= i < |rows| :: rows[i].taskKey
  }

  /** The first row of every task key, in order. */
  function FirstRows(rows: seq<TaskMetric>): (r: seq<TaskMetric>)
    ensures |r| <= |rows|
  {
    if rows == [] then []
    else
      var front := rows[..|rows| - 1];
      if Last(rows).taskKey in Keys(front) then FirstRows(front) else FirstRows(front) + [Last(rows)]
  }

  /** What a row has to be to count towards the headline, field by field. */
  predicate IsDoneRow(m: TaskMetric) {
    !m.estimated && m.outcome == Merged && m.ciGreen
  }

  function DoneRows(rows: seq<TaskMetric>): seq<TaskMetric> {
    if rows == [] then []
    else
      var front := DoneRows(rows[..|rows| - 1]);
      if IsDoneRow(Last(rows)) then front + [Last(rows)] else front
  }

  /** Everything both agents spent on the row. */
  function TokensOf(m: TaskMetric): nat {
    m.claude.input + m.claude.cacheCreation + m.claude.cacheRead + m.claude.output
    + m.codexInput + m.codexCacheRead + m.codexOutput
  }

  /** Review rounds and fix commits. */
  function ReworkOf(m: TaskMetric): nat {
    m.reviewRounds + m.fixCommits
  }

  function TokenColumn(rows: seq<TaskMetric>): (r: seq<u64>)
    ensures |r| == |rows| && forall i | 0 <= i < |r| :: r[i] == TokensOf(rows[i])
  {
    seq(|rows|, i requires 0 <= i < |rows| => TokensOf(rows[i]))
  }

  function ReworkColumn(rows: seq<TaskMetric>): (r: seq<u64>)
    ensures |r| == |rows| && forall i | 0 <= i < |r| :: r[i] == ReworkOf(rows[i])
  {
    seq(|rows|, i requires 0 <= i < |rows| => ReworkOf(rows[i]))
  }

  /** What one arm's rows aggregate to. */
  function ArmFigures(rows: seq<TaskMetric>): ArmAgg {
    var first := FirstRows(rows);
    var done := DoneRows(first);
    ArmAgg(TokenColumn(done), ReworkColumn(done), |first|, Clamp64(Sum(first, TokensOf)), |done|,
           Keys(rows), |rows| - |first|)
  }

  lemma {:induction false} FirstRowsFacts(rows: seq<TaskMetric>)
    ensures Keys(FirstRows(rows)) == Keys(rows)
    ensures |Keys(rows)| == |FirstRows(rows)|
  {
    if rows != [] {
      var front, row := rows[..|rows| - 1], Last(rows);
      FirstRowsFacts(front);
      KeysSnoc(front, row);
      assert rows == front + [row];
      KeysSnoc(FirstRows(front), row);
    }
  }

  lemma KeysSnoc(rows: seq<TaskMetric>, row: TaskMetric)
    ensures Keys(rows + [row]) == Keys(rows) + {row.taskKey}
  {
    var longer := rows + [row];
    forall k | k in Keys(rows) ensures k in Keys(longer) {
      var i :| 0 <= i < |rows| && rows[i].taskKey == k;
      assert longer[i].taskKey == k;
    }
    assert longer[|rows|] == row;
  }

  lemma {:induction false} DoneRowsFit(rows: seq<TaskMetric>)
    ensures |DoneRows(rows)| <= |rows|
  {
    if rows != [] {
      DoneRowsFit(rows[..|rows| - 1]);
    }
  }

  /** Counting laws of one arm: attempted is the number of distinct task keys,
      attempted and ignored duplicates make up the rows, and merged, completed and
      rework agree and never exceed attempted. */
  lemma AggregationLaws(rows: seq<TaskMetric>)
    ensures var a := ArmFigures(rows);
            && a.attempted == |Keys(rows)|
            && a.attempted + a.duplicatesIgnored == |rows|
            && a.merged == |a.completed| == |a.rework| <= a.attempted
  {
    FirstRowsFacts(rows);
    DoneRowsFit(FirstRows(rows));
  }

  function Arms(rows: seq<TaskMetric>): set<string> {
    set i | 0 <= i < |rows| :: rows[i].arm
  }

  /** The effect of one more row of an arm. */
  lemma FiguresSnoc(rows: seq<TaskMetric>, row: TaskMetric)
    ensures var a, b := ArmFigures(rows), ArmFigures(rows + [row]);
            if row.taskKey in a.seenTaskKeys then b == a.(duplicatesIgnored := a.duplicatesIgnored + 1)
            else b == a.(attempted := a.attempted + 1,
                         attemptedTokens := Clamp64(a.attemptedTokens + row.TokensToDone()),
                         seenTaskKeys := a.seenTaskKeys + {row.taskKey},
                         merged := a.merged + (if row.IsDone() then 1 else 0),
                         completed := a.completed + (if row.IsDone() then [row.TokensToDone()] else []),
                         rework := a.rework + (if row.IsDone() then [row.ReworkLoops()] else []))
  {
    hide Keys, DoneRows, Sum;
    assert (rows + [row])[..|rows|] == rows;
    KeysSnoc(rows, row);
    if row.taskKey !in Keys(rows) {
      var first := FirstRows(rows);
      assert FirstRows(rows + [row]) == first + [row];
      SelectedSnoc(first, row);
    } else {
      assert Keys(rows + [row]) == Keys(rows);
    }
  }

  lemma SelectedSnoc(first: seq<TaskMetric>, row: TaskMetric)
    ensures Sum(first + [row], TokensOf) == Sum(first, TokensOf) + row.TokensToDone()
    ensures var done, longer := DoneRows(first), DoneRows(first + [row]);
            if row.IsDone() then
              && TokenColumn(longer) == TokenColumn(done) + [row.TokensToDone()]
              && ReworkColumn(longer) == ReworkColumn(done) + [row.ReworkLoops()]
              && |longer| == |done| + 1
            else longer == done
  {
    RowFigures(row);
    hide TokensOf, ReworkOf, IsDoneRow;
    assert (first + [row])[..|first|] == first;
  }

  lemma RowFigures(row: TaskMetric)
    ensures row.TokensToDone() == TokensOf(row) && row.ReworkLoops() == ReworkOf(row)
    ensures row.IsDone() <==> IsDoneRow(row)
  {
  }

  lemma ArmsSnoc(rows: seq<TaskMetric>, row: TaskMetric)
    ensures Arms(rows + [row]) == Arms(rows) + {row.arm}
  {
    var longer := rows + [row];
    forall a | a in Arms(rows) ensures a in Arms(longer) {
      var i :| 0 <= i < |rows| && rows[i].arm == a;
      assert longer[i].arm == a;
    }
    assert longer[|rows|] == row;
  }

  lemma {:induction false} NoArmRows(rows: seq<TaskMetric>, arm: string)
    requires arm !in Arms(rows)
    ensures ArmRows(rows, arm) == []
  {
    if rows != [] {
      ArmsSnoc(rows[..|rows| - 1], Last(rows));
      assert rows == rows[..|rows| - 1] + [Last(rows)];
      NoArmRows(rows[..|rows| - 1], arm);
    }
  }

  /** Count one row into its arm. */
  method CountRow(before: ArmAgg, t: TaskMetric, ghost rows: seq<TaskMetric>) returns (agg: ArmAgg)
    requires before == ArmFigures(rows)
    ensures agg == ArmFigures(rows + [t])
  {
    FiguresSnoc(rows, t);
    hide ArmFigures;
    if t.taskKey in before.seenTaskKeys {
      return before.(duplicatesIgnored := before.duplicatesIgnored + 1);
    }
    agg := before.(seenTaskKeys := before.seenTaskKeys + {t.taskKey}, attempted := before.attempted + 1,
                   attemptedTokens := Clamp64(before.attemptedTokens + t.TokensToDone()));
    if t.IsDone() {
      agg := agg.(merged := agg.merged + 1, completed := agg.completed + [t.TokensToDone()],
                  rework := agg.rework + [t.ReworkLoops()]);
    }
  }

  /** One pass over all rows computes every arm's figures. */
  method Aggregate(rows: seq<TaskMetric>) returns (byArm: map<string, ArmAgg>)
    ensures byArm.Keys == Arms(rows)
    ensures forall arm | arm in byArm :: byArm[arm] == ArmFigures(ArmRows(rows, arm))
  {
    hide ArmFigures;
    byArm := map[];
    for i := 0 to |rows|
      invariant byArm.Keys == Arms(rows[..i])
      invariant forall arm | arm in byArm :: byArm[arm] == ArmFigures(ArmRows(rows[..i], arm))
    {
      var t := rows[i];
      ghost var before := rows[..i];
      assert rows[..i + 1] == before + [t] && (before + [t])[..i] == before;
      ArmsSnoc(before, t);
      if t.arm !in byArm {
        NoArmRows(before, t.arm);
        EmptyFigures();
      }
      var agg := CountRow(if t.arm in byArm then byArm[t.arm] else NO_ROWS, t, ArmRows(before, t.arm));
      byArm := byArm[t.arm := agg];
    }
    assert rows[..|rows|] == rows;
  }

  lemma EmptyFigures()
    ensures ArmFigures([]) == NO_ROWS
  {
    assert Keys([]) == {};
  }

  /** Appending rows that were already seen changes the duplicate count only. */
  lemma {:induction false} SeenRowsOnlyCount(rows: seq<TaskMetric>, again: seq<TaskMetric>)
    requires Keys(again) <= Keys(rows)
    ensures ArmFigures(rows + again)
            == ArmFigures(rows).(duplicatesIgnored := ArmFigures(rows).duplicatesIgnored + |again|)
  {
    if again == [] {
      assert rows + again == rows;
    } else {
      var front, row := again[..|again| - 1], Last(again);
      assert again == front + [row];
      KeysSnoc(front, row);
      SeenRowsOnlyCount(rows, front);
      assert rows + again == (rows + front) + [row];
      FiguresSnoc(rows + front, row);
    }
  }

  // ---- order ----

  /** Mean, as the report computes it; the empty mean is zero. */
  function Mean(xs: seq<u64>): real {
    if xs == [] then 0.0 else Sum(xs, Value) as real / |xs| as real
  }

  function Value(x: u64): nat { x }

  /** The mean times the number of terms is their sum. */
  lemma MeanIsExact(xs: seq<u64>)
    ensures Mean(xs) * |xs| as real == Sum(xs, Value) as real
    ensures xs == [] ==> Mean(xs) == 0.0
  {
  }

  /** `r` is the largest minus the smallest element, zero for no elements. */
  ghost predicate IsSpread(xs: seq<u64>, r: nat) {
    if xs == [] then r == 0
    else exists lo, hi | lo in xs && hi in xs :: (forall x | x in xs :: lo <= x <= hi) && r == hi - lo
  }

  method Spread(xs: seq<u64>) returns (r: u64)
    ensures IsSpread(xs, r)
  {
    if xs == [] { return 0; }
    var lo, hi := xs[0], xs[0];
    for i := 1 to |xs|
      invariant lo in xs && hi in xs
      invariant forall j | 0 <= j < i :: lo <= xs[j] <= hi
    {
      if xs[i] < lo { lo := xs[i]; }
      if hi < xs[i] { hi := xs[i]; }
    }
    return hi - lo;
  }

  /** The same task rows, with the figures a report prints about them. */
  ghost predicate SameFigures(a: ArmAgg, b: ArmAgg) {
    && a.attempted == b.attempted && a.attemptedTokens == b.attemptedTokens && a.merged == b.merged
    && Mean(a.completed) == Mean(b.completed) && Mean(a.rework) == Mean(b.rework)
    && (forall r :: IsSpread(a.completed, r) <==> IsSpread(b.completed, r))
  }

  ghost predicate DistinctKeys(rows: seq<TaskMetric>) {
    forall i, j | 0 <= i < j < |rows| :: rows[i].taskKey != rows[j].taskKey
  }

  lemma {:induction false} DistinctRowsAreFirst(rows: seq<TaskMetric>)
    requires DistinctKeys(rows)
    ensures FirstRows(rows) == rows
  {
    if rows != [] {
      DistinctRowsAreFirst(rows[..|rows| - 1]);
    }
  }

  lemma {:induction false} DoneRowsConcat(a: seq<TaskMetric>, b: seq<TaskMetric>)
    ensures DoneRows(a + b) == DoneRows(a) + DoneRows(b)
  {
    if b == [] {
      assert a + b == a;
    } else {
      assert (a + b)[..|a + b| - 1] == a + b[..|b| - 1];
      DoneRowsConcat(a, b[..|b| - 1]);
    }
  }

  lemma {:induction false} DoneRowsPermute(a: seq<TaskMetric>, b: seq<TaskMetric>)
    requires multiset(a) == multiset(b)
    ensures multiset(DoneRows(a)) == multiset(DoneRows(b))
    decreases |a|
  {
    if a == [] {
      assert |multiset(b)| == 0;
    } else {
      var x, front := Last(a), a[..|a| - 1];
      assert a == front + [x];
      var left, right := Without(x, multiset(front), b);
      DoneRowsPermute(front, left + right);
      DoneRowsConcat(front, [x]);
      DoneRowsConcat(left, right);
      DoneRowsConcat(left + [x], right);
      DoneRowsConcat(left, [x]);
    }
  }

  lemma {:induction false} ColumnSums(rows: seq<TaskMetric>)
    ensures Sum(TokenColumn(rows), Value) == Sum(rows, TokensOf)
    ensures Sum(ReworkColumn(rows), Value) == Sum(rows, ReworkOf)
  {
    if rows != [] {
      var front := rows[..|rows| - 1];
      ColumnSums(front);
      assert TokenColumn(rows)[..|rows| - 1] == TokenColumn(front);
      assert ReworkColumn(rows)[..|rows| - 1] == ReworkColumn(front);
    }
  }

  lemma TokenColumnMembers(a: seq<TaskMetric>, b: seq<TaskMetric>)
    requires multiset(a) == multiset(b)
    ensures forall x :: x in TokenColumn(a) ==> x in TokenColumn(b)
  {
    forall x | x in TokenColumn(a) ensures x in TokenColumn(b) {
      var i :| 0 <= i < |a| && TokenColumn(a)[i] == x;
      assert a[i] in multiset(b);
      var j :| 0 <= j < |b| && b[j] == a[i];
      assert TokenColumn(b)[j] == x;
    }
  }

  /** With distinct task keys, the order of an arm's rows does not show in its figures. */
  lemma FiguresPermute(a: seq<TaskMetric>, b: seq<TaskMetric>)
    requires multiset(a) == multiset(b) && DistinctKeys(a) && DistinctKeys(b)
    ensures SameFigures(ArmFigures(a), ArmFigures(b))
  {
    DistinctRowsAreFirst(a);
    DistinctRowsAreFirst(b);
    assert |a| == |multiset(a)| == |b|;
    SumPermutes(a, b, TokensOf);
    var c, d := DoneRows(a), DoneRows(b);
    DoneRowsPermute(a, b);
    assert |c| == |multiset(c)| == |d|;
    ColumnSums(c);
    ColumnSums(d);
    SumPermutes(c, d, TokensOf);
    SumPermutes(c, d, ReworkOf);
    TokenColumnMembers(c, d);
    TokenColumnMembers(d, c);
  }

  // ---- the headline gate ----

  datatype Evidence = Smoke | Live

  datatype Headline = NotHeadline | TooFewTasks | Delta(n: nat)

  function DoneCount(byArm: map<string, ArmAgg>, arm: string): nat {
    if arm in byArm then |byArm[arm].completed| else 0
  }

  function HeadlineOf(evidence: Evidence, byArm: map<string, ArmAgg>): Headline {
    var iron, superp := DoneCount(byArm, IRONMEM), DoneCount(byArm, SUPERPOWERS);
    if evidence != Live then NotHeadline
    else if iron < MIN_TASKS_PER_ARM || superp < MIN_TASKS_PER_ARM then TooFewTasks
    else Delta(if iron <= superp then iron else superp)
  }

  /** The keys of an arm's rows that are done on their first occurrence. */
  function DoneKeys(rows: seq<TaskMetric>, arm: string): set<string> {
    Keys(DoneRows(FirstRows(ArmRows(rows, arm))))
  }

  lemma {:induction false} DoneKeysCounted(first: seq<TaskMetric>)
    requires DistinctKeys(first)
    ensures |Keys(DoneRows(first))| == |DoneRows(first)| && Keys(DoneRows(first)) <= Keys(first)
  {
    if first != [] {
      var front, row := first[..|first| - 1], Last(first);
      assert first == front + [row];
      DoneKeysCounted(front);
      KeysSnoc(front, row);
      KeysSnoc(DoneRows(front), row);
    }
  }

  lemma {:induction false} FirstRowsDistinct(rows: seq<TaskMetric>)
    ensures DistinctKeys(FirstRows(rows))
  {
    if rows != [] {
      var front := rows[..|rows| - 1];
      FirstRowsDistinct(front);
      FirstRowsFacts(front);
      var first := FirstRows(front);
      forall i | 0 <= i < |first| ensures first[i].taskKey in Keys(first) {}
    }
  }

  /** A delta is shown exactly when the evidence is live and each of the two arms has
      at least eight distinct done task keys; it is about the smaller number of them. Live
      evidence with fewer is reported as such. */
  lemma HeadlineGate(evidence: Evidence, rows: seq<TaskMetric>, byArm: map<string, ArmAgg>)
    requires byArm.Keys == Arms(rows)
    requires forall arm | arm in byArm :: byArm[arm] == ArmFigures(ArmRows(rows, arm))
    ensures HeadlineOf(evidence, byArm).Delta?
            <==> evidence == Live && |DoneKeys(rows, "ironmem")| >= 8 && |DoneKeys(rows, "superpowers")| >= 8
    ensures HeadlineOf(evidence, byArm) == NotHeadline <==> evidence != Live
    ensures HeadlineOf(evidence, byArm).Delta? ==>
              var n := HeadlineOf(evidence, byArm).n;
              var iron, superp := |DoneKeys(rows, "ironmem")|, |DoneKeys(rows, "superpowers")|;
              n <= iron && n <= superp && (n == iron || n == superp)
  {
    forall arm ensures DoneCount(byArm, arm) == |DoneKeys(rows, arm)| {
      if arm !in byArm {
        NoArmRows(rows, arm);
        EmptyFigures();
        assert Keys([]) == {};
      }
      FirstRowsDistinct(ArmRows(rows, arm));
      DoneKeysCounted(FirstRows(ArmRows(rows, arm)));
    }
  }
}
