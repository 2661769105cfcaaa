/** From a run to the report: live task runs, the files they leave, and why pacing a
    campaign in batches does not change its figures. */
module Campaign {
  import opened Std
  import opened Tokens
  import opened Report
  import opened Corpus
  import StreamUsage
  import CodexTokens
  import Dispatch
  import CollabDriver
  import CollabTask

  datatype Arm = Ironmem | Superpowers

  function Label(arm: Arm): string {
    if arm == Ironmem then IRONMEM else SUPERPOWERS
  }

  // ---- the two arms ----

  /** The ironmem arm's outcome: how the collab run was classified. */
  function CollabOutcome(run: CollabTask.CollabRunResult): ArmOutcome {
    ArmOutcome(run.claudeUsage, run.codexUsage, run.reviewRounds, run.fixCommits,
               match run.disposition
               case TerminalRun => if run.reachedPhase == Dispatch.CodingComplete then Completed else Failed
               case ExcludedRetryable => Excluded)
  }

  /** The superpowers arm's outcome; a success without tokens is refused. */
  function SuperpowersOutcome(exitedOk: bool, parsed: Result<StreamUsage.CliResult, StreamUsage.ParseError>)
    : Option<ArmOutcome>
  {
    if parsed.Err? then None
    else
      var completed := exitedOk && !parsed.value.isError;
      if completed && parsed.value.usage.Total() == 0 then None
      else Some(ArmOutcome(parsed.value.usage, NO_USAGE, 0, 0, if completed then Completed else Failed))
  }

  /** A row is merged exactly if the run's last poll showed `CodingComplete` and the
      gates were green, and then both agents spent tokens and every Claude turn was
      measured; it failed exactly if that poll showed `CodingFailed`, and it is excluded
      exactly if a session limit cut the run. */
  lemma MergedIsEarned(taskId: string, log: seq<CollabDriver.Event>, attribution: Result<Usage, string>,
                       run: CollabTask.CollabRunResult, ciGreen: bool)
    requires CollabTask.RowIsSound(log, attribution, run)
    ensures var row := BuildArmMetric(taskId, IRONMEM, CollabOutcome(run), ciGreen);
            && (row.outcome == Merged
                <==> ciGreen && CollabTask.ReachedEnd(log)
                     && CollabDriver.DispatchPoll(log).value.phase == Dispatch.CodingComplete)
            && (row.outcome == Merged ==> CollabTask.FullyMeasured(log, run.codexUsage)
                                          && row.claude == ClampedSum(CollabDriver.ClaudeUsages(log)))
            && (row.outcome == Agent(Failed) <==> FailedRun(log))
            && (row.outcome == Agent(Excluded) <==> CollabTask.SessionLimited(log))
            && row.reviewRounds == run.reviewRounds && row.fixCommits == run.fixCommits
  {
  }

  ghost predicate FailedRun(log: seq<CollabDriver.Event>) {
    CollabTask.ReachedEnd(log) && CollabDriver.DispatchPoll(log).value.phase == Dispatch.CodingFailed
  }

  /** When the superpowers arm has a result at all: its transcript can be read, and a
      clean success has spent tokens. */
  lemma SuperpowersHasRow(exitedOk: bool, parsed: Result<StreamUsage.CliResult, StreamUsage.ParseError>)
    ensures SuperpowersOutcome(exitedOk, parsed).None?
            <==> parsed.Err? || (exitedOk && !parsed.value.isError && parsed.value.usage.Total() == 0)
  {
  }

  /** A merged superpowers row is earned too: a clean exit, a result event without
      error, tokens that were measured, and green gates. */
  lemma SuperpowersMergedIsEarned(taskId: string, exitedOk: bool,
                                  parsed: Result<StreamUsage.CliResult, StreamUsage.ParseError>, ciGreen: bool)
    requires SuperpowersOutcome(exitedOk, parsed).Some?
    ensures var row := BuildArmMetric(taskId, SUPERPOWERS, SuperpowersOutcome(exitedOk, parsed).value, ciGreen);
            && row.TokensToDone() == parsed.value.usage.Total() && row.reviewRounds == 0 && row.fixCommits == 0
            && (row.outcome == Agent(Failed) <==> !exitedOk || parsed.value.isError)
            && row.outcome != Agent(Excluded)
            && (row.outcome == Merged ==>
                  exitedOk && !parsed.value.isError && ciGreen && row.TokensToDone() != 0)
  {
  }

  /** What a worker printed: the raw bytes, and the transcript lines in them. */
  datatype Transcript = Transcript(raw: string, lines: seq<StreamUsage.Line>)

  /** The driver's worker result is what is read out of the transcript. */
  ghost predicate ReadFrom(r: CollabDriver.WorkerResult, t: Transcript) {
    var read := StreamUsage.TextAndUsage(t.raw, StreamUsage.Reading(t.lines));
    && r.usage == read.usage && r.stdout == read.text
    && r.usageUnparseable == read.usageUnparseable && r.isError == read.isError
  }

  /** `transcripts` are those of the run's Claude turns that returned a result. */
  ghost predicate Transcribed(log: seq<CollabDriver.Event>, transcripts: seq<Transcript>) {
    if log == [] then transcripts == []
    else
      var front, e := log[..|log| - 1], Last(log);
      if e.Claude? && e.result.Ok? then
        && transcripts != []
        && ReadFrom(e.result.value, Last(transcripts))
        && Transcribed(front, transcripts[..|transcripts| - 1])
      else Transcribed(front, transcripts)
  }

  /** The final usages of a transcript's messages, if it can be read at all. */
  ghost function Measured(t: Transcript): seq<Usage> {
    if StreamUsage.Reading(t.lines).Ok? then StreamUsage.FinalUsages(t.lines, {}) else []
  }

  ghost function AllMeasured(transcripts: seq<Transcript>): seq<seq<Usage>> {
    if transcripts == [] then []
    else AllMeasured(transcripts[..|transcripts| - 1]) + [Measured(Last(transcripts))]
  }

  /** The driver's usages are the measured ones, clamped turn by turn; and the run is
      flagged exactly if some transcript could not be read. */
  lemma {:induction false} UsagesAreMeasured(log: seq<CollabDriver.Event>, transcripts: seq<Transcript>)
    requires Transcribed(log, transcripts)
    ensures CollabDriver.ClaudeUsages(log) == EachClamped(AllMeasured(transcripts))
    ensures CollabDriver.AnyUnparseable(log) <==> exists t | t in transcripts :: StreamUsage.Reading(t.lines).Err?
  {
    hide StreamUsage.Reading, StreamUsage.FinalUsages;
    if log != [] {
      var front, e := log[..|log| - 1], Last(log);
      if e.Claude? && e.result.Ok? {
        var before, t := transcripts[..|transcripts| - 1], Last(transcripts);
        UsagesAreMeasured(front, before);
        assert transcripts == before + [t];
        var parts := AllMeasured(before);
        assert (parts + [Measured(t)])[..|parts|] == parts;
        MeasuredUsage(e.result.value, t);
      } else {
        UsagesAreMeasured(front, transcripts);
      }
    }
  }

  lemma MeasuredUsage(r: CollabDriver.WorkerResult, t: Transcript)
    requires ReadFrom(r, t)
    ensures r.usage == ClampedSum(Measured(t))
    ensures r.usageUnparseable <==> StreamUsage.Reading(t.lines).Err?
    ensures r.usageUnparseable ==> r.stdout == t.raw && !r.isError
    ensures !r.usageUnparseable ==>
              var read := StreamUsage.Reading(t.lines).value; r.stdout == read.text && r.isError == read.isError
  {
  }

  /** Token conservation from transcripts to the row: it counts the final usage of
      every message of every transcript that can be read, clamped once, plus the Codex
      total. In a merged row that is every transcript of the run. */
  lemma TokensAreConserved(taskId: string, log: seq<CollabDriver.Event>, run: CollabTask.CollabRunResult,
                           ciGreen: bool, transcripts: seq<Transcript>)
    requires run.claudeUsage == ClampedSum(CollabDriver.ClaudeUsages(log)) && run.codexUsage.cacheCreation == 0
    requires Transcribed(log, transcripts)
    ensures var row := BuildArmMetric(taskId, IRONMEM, CollabOutcome(run), ciGreen);
            row.TokensToDone() == ClampedSum(Flatten(AllMeasured(transcripts))).Total() + run.codexUsage.Total()
    ensures !CollabDriver.AnyUnparseable(log) ==> forall t | t in transcripts :: StreamUsage.Reading(t.lines).Ok?
  {
    hide Transcribed;
    UsagesAreMeasured(log, transcripts);
    NestedClamp(AllMeasured(transcripts));
    BuiltRow(taskId, IRONMEM, CollabOutcome(run), ciGreen);
  }

  /** The global review rounds in the last row the loop polled. */
  ghost function RoundsSeen(log: seq<CollabDriver.Event>): u32 {
    if CollabDriver.DispatchPoll(log).Some? then CollabDriver.DispatchPoll(log).value.globalReviewRound else 0
  }

  lemma NothingAttributed(log: seq<CollabDriver.Event>)
    ensures !CollabTask.YieldsRow(log, Err(""))
  {
  }

  /** The calls of a run do not depend on how the Codex tokens are attributed after it. */
  lemma AttributionComesAfter(ctx: CollabDriver.Context, world: CollabDriver.World, attribution: Result<Usage, string>,
                              log: seq<CollabDriver.Event>, outcome: CollabDriver.DriveOutcome)
    requires CollabDriver.Run(ctx, world.(attribute := attribution), log, outcome)
    ensures CollabDriver.Run(ctx, world, log, outcome)
  {
    hide CollabDriver.Lawful, CollabDriver.InContext, CollabDriver.AnsweredBy, CollabDriver.Stop;
    CollabDriver.SameAnswers(world.(attribute := attribution), world, log);
  }

  /** A task through the ironmem arm, from the rollouts on disk and the driver's world to
      its row. The log is this world's one run; there is a row exactly if the rollouts can
      be read and the run yields one with their total, and then it says what the run cost
      and how it ended. */
  method MeasureIronmemTask(ctx: CollabDriver.Context, world: CollabDriver.World,
                            rollouts: seq<seq<CodexTokens.Line>>, window: CodexTokens.TimeWindow,
                            inWorktree: CodexTokens.InWorktree, ciGreen: bool)
    returns (row: Option<TaskMetric>, log: seq<CollabDriver.Event>, outcome: CollabDriver.DriveOutcome)
    ensures CollabDriver.Run(ctx, world, log, outcome)
    ensures var codex := ClampedSum(CodexTokens.Matching(rollouts, window, inWorktree));
            && (row.Some? <==> CodexTokens.AllReadable(rollouts) && CollabTask.YieldsRow(log, Ok(codex)))
            && (row.Some? ==>
                  && (exists run: CollabTask.CollabRunResult :: CollabTask.RowIsSound(log, Ok(codex), run)
                        && row.value == BuildArmMetric(ctx.taskId, IRONMEM, CollabOutcome(run), ciGreen))
                  && (forall transcripts: seq<Transcript> | Transcribed(log, transcripts) ::
                        row.value.TokensToDone() == ClampedSum(Flatten(AllMeasured(transcripts))).Total() + codex.Total())
                  && (row.value.outcome == Merged <==> MergedRun(log, codex, ciGreen))
                  && (row.value.outcome == Agent(Failed) <==> FailedRun(log))
                  && (row.value.outcome == Agent(Excluded) <==> CollabTask.SessionLimited(log))
                  && row.value.fixCommits == Clamp32(Sum(CollabDriver.ReworkCommits(log), CollabDriver.Commits))
                  && row.value.reviewRounds == RoundsSeen(log))
  {
    hide Transcribed, AllMeasured, CollabDriver.Underway, CollabDriver.Stop, CollabTask.YieldsRow, CollabTask.RowIsSound;
    hide MergedRun, FailedRun, CollabTask.SessionLimited;
    var attributed := CodexTokens.AttributeCodexTokens(rollouts, window, inWorktree);
    var attribution := match attributed case Ok(usage) => Ok(usage) case Err(_) => Err("");
    var result;
    result, log, outcome := CollabTask.RunCollabTask(ctx, world.(attribute := attribution));
    AttributionComesAfter(ctx, world, attribution, log, outcome);
    if result.Err? {
      NothingAttributed(log);
      return None, log, outcome;
    }
    var run := result.value;
    RowHasAttribution(log, attribution, run);
    row := Some(BuildArmMetric(ctx.taskId, IRONMEM, CollabOutcome(run), ciGreen));
    forall transcripts: seq<Transcript> | Transcribed(log, transcripts)
      ensures row.value.TokensToDone() == ClampedSum(Flatten(AllMeasured(transcripts))).Total() + run.codexUsage.Total()
    {
      TokensAreConserved(ctx.taskId, log, run, ciGreen, transcripts);
    }
    MergedRunIsEarned(ctx.taskId, log, attribution, run, ciGreen);
  }

  lemma RowHasAttribution(log: seq<CollabDriver.Event>, attribution: Result<Usage, string>, run: CollabTask.CollabRunResult)
    requires CollabTask.RowIsSound(log, attribution, run)
    ensures attribution == Ok(run.codexUsage)
    ensures run.claudeUsage == ClampedSum(CollabDriver.ClaudeUsages(log))
    ensures run.fixCommits == Clamp32(Sum(CollabDriver.ReworkCommits(log), CollabDriver.Commits))
    ensures run.reviewRounds == RoundsSeen(log)
  {
    hide CollabTask.ReachedEnd, CollabTask.SessionLimited, CollabTask.FullyMeasured;
  }

  /** What a merged row stands for: a run whose last poll showed `CodingComplete`, with
      tokens of both agents, every transcript readable, and green gates. */
  ghost predicate MergedRun(log: seq<CollabDriver.Event>, codex: Usage, ciGreen: bool) {
    && ciGreen && CollabTask.ReachedEnd(log)
    && CollabDriver.DispatchPoll(log).value.phase == Dispatch.CodingComplete
    && codex.Total() != 0 && ClampedSum(CollabDriver.ClaudeUsages(log)).Total() != 0
    && forall transcripts: seq<Transcript> | Transcribed(log, transcripts) ::
         forall t | t in transcripts :: StreamUsage.Reading(t.lines).Ok?
  }

  lemma MergedRunIsEarned(taskId: string, log: seq<CollabDriver.Event>, attribution: Result<Usage, string>,
                          run: CollabTask.CollabRunResult, ciGreen: bool)
    requires CollabTask.RowIsSound(log, attribution, run)
    ensures var row := BuildArmMetric(taskId, IRONMEM, CollabOutcome(run), ciGreen);
            && (row.outcome == Merged <==> MergedRun(log, run.codexUsage, ciGreen))
            && (row.outcome == Agent(Failed) <==> FailedRun(log))
            && (row.outcome == Agent(Excluded) <==> CollabTask.SessionLimited(log))
            && row.reviewRounds == run.reviewRounds && row.fixCommits == run.fixCommits
  {
    MergedIsEarned(taskId, log, attribution, run, ciGreen);
    hide CollabTask.RowIsSound, CollabTask.SessionLimited, CollabTask.ReachedEnd, Transcribed, BuildArmMetric, CollabOutcome;
    forall transcripts: seq<Transcript> | Transcribed(log, transcripts) && !CollabDriver.AnyUnparseable(log)
      ensures forall t | t in transcripts :: StreamUsage.Reading(t.lines).Ok?
    {
      UsagesAreMeasured(log, transcripts);
    }
  }

  // ---- one task ----

  datatype LiveWorld = LiveWorld(execute: Arm -> Result<ArmOutcome, string>, gates: Arm -> Result<bool, string>)

  /** Gates run only for a completed arm. */
  function ArmRow(taskId: string, arm: Arm, world: LiveWorld): Result<TaskMetric, string> {
    match world.execute(arm)
    case Err(e) => Err(e)
    case Ok(o) =>
      if o.outcome != Completed then Ok(BuildArmMetric(taskId, Label(arm), o, false))
      else match world.gates(arm)
        case Err(e) => Err(e)
        case Ok(green) => Ok(BuildArmMetric(taskId, Label(arm), o, green))
  }

  ghost predicate AllRun(taskId: string, arms: seq<Arm>, world: LiveWorld) {
    forall arm | arm in arms :: ArmRow(taskId, arm, world).Ok?
  }

  /** One row an arm, in order. */
  ghost function LiveRows(taskId: string, arms: seq<Arm>, world: LiveWorld): seq<TaskMetric>
    requires AllRun(taskId, arms, world)
  {
    if arms == [] then []
    else LiveRows(taskId, arms[..|arms| - 1], world) + [ArmRow(taskId, Last(arms), world).value]
  }

  method RunTaskLive(taskId: string, arms: seq<Arm>, world: LiveWorld) returns (r: Result<seq<TaskMetric>, string>)
    ensures r.Ok? <==> AllRun(taskId, arms, world)
    ensures r.Ok? ==> r.value == LiveRows(taskId, arms, world)
  {
    var metrics: seq<TaskMetric> := [];
    for i := 0 to |arms|
      invariant AllRun(taskId, arms[..i], world) && metrics == LiveRows(taskId, arms[..i], world)
    {
      var outcome := world.execute(arms[i]);
      assert arms[i] in arms;
      if outcome.Err? { return Err(outcome.error); }
      var ciGreen := false;
      if outcome.value.outcome == Completed {
        var gates := world.gates(arms[i]);
        if gates.Err? { return Err(gates.error); }
        ciGreen := gates.value;
      }
      assert arms[..i + 1][..i] == arms[..i];
      metrics := metrics + [BuildArmMetric(taskId, Label(arms[i]), outcome.value, ciGreen)];
    }
    assert arms[..|arms|] == arms;
    return Ok(metrics);
  }

  /** The rows that are excluded, or those that are not, in order. */
  function Only(rows: seq<TaskMetric>, excluded: bool): seq<TaskMetric> {
    if rows == [] then []
    else
      var front := Only(rows[..|rows| - 1], excluded);
      if (Last(rows).outcome == Agent(Excluded)) == excluded then front + [Last(rows)] else front
  }

  /** The files a live task leaves: excluded rows apart, corpus rows for the report. */
  method ExecuteApprovedLive(taskId: string, arms: seq<Arm>, world: LiveWorld)
    returns (r: Result<(seq<TaskMetric>, seq<TaskMetric>), string>)
    ensures r.Ok? <==> AllRun(taskId, arms, world)
    ensures r.Ok? ==> var rows := LiveRows(taskId, arms, world); r.value == (Only(rows, true), Only(rows, false))
  {
    var metrics := RunTaskLive(taskId, arms, world);
    if metrics.Err? { return Err(metrics.error); }
    var rows := metrics.value;
    var excluded: seq<TaskMetric>, corpus: seq<TaskMetric> := [], [];
    for i := 0 to |rows|
      invariant excluded == Only(rows[..i], true) && corpus == Only(rows[..i], false)
    {
      assert rows[..i + 1][..i] == rows[..i];
      if rows[i].outcome == Agent(Excluded) {
        excluded := excluded + [rows[i]];
      } else {
        corpus := corpus + [rows[i]];
      }
    }
    assert rows[..|rows|] == rows;
    return Ok((excluded, corpus));
  }

  /** Every row goes to exactly one of the two files, and only excluded ones are kept
      from the report. */
  lemma {:induction false} RowsArePartitioned(rows: seq<TaskMetric>)
    ensures multiset(Only(rows, true)) + multiset(Only(rows, false)) == multiset(rows)
    ensures forall row | row in Only(rows, true) :: row.outcome == Agent(Excluded)
    ensures forall row | row in Only(rows, false) :: row.outcome != Agent(Excluded)
  {
    if rows != [] {
      assert rows == rows[..|rows| - 1] + [Last(rows)];
      RowsArePartitioned(rows[..|rows| - 1]);
    }
  }

  // ---- the directory of a campaign ----

  datatype MetricsFile = MetricsFile(evidence: Evidence, rows: seq<TaskMetric>)

  function AllRows(files: seq<MetricsFile>): seq<TaskMetric> {
    if files == [] then [] else AllRows(files[..|files| - 1]) + Last(files).rows
  }

  /** Union the task files; one that is not live, or no row at all, is an error. */
  method LoadMetricsDir(files: seq<MetricsFile>) returns (rows: Option<seq<TaskMetric>>)
    ensures rows.Some? <==> (forall f | f in files :: f.evidence == Live) && AllRows(files) != []
    ensures rows.Some? ==> rows.value == AllRows(files)
  {
    var tasks: seq<TaskMetric> := [];
    for i := 0 to |files|
      invariant forall j | 0 <= j < i :: files[j].evidence == Live
      invariant tasks == AllRows(files[..i])
    {
      assert files[..i + 1][..i] == files[..i];
      assert files[i] in files;
      if files[i].evidence != Live { return None; }
      tasks := tasks + files[i].rows;
    }
    assert files[..|files|] == files;
    return if tasks == [] then None else Some(tasks);
  }

  // ---- batching ----

  /** The rows a task's run leaves for the corpus, keyed by its id, one an arm. */
  ghost predicate WellKeyed(t: Task, rows: seq<TaskMetric>) {
    && (forall i | 0 <= i < |rows| :: rows[i].taskKey == TaskKey(t.id, rows[i].arm))
    && (forall i, j | 0 <= i < j < |rows| :: rows[i].arm != rows[j].arm)
  }

  lemma ArmRowIsKeyed(taskId: string, arm: Arm, world: LiveWorld)
    requires ArmRow(taskId, arm, world).Ok?
    ensures var row := ArmRow(taskId, arm, world).value; row.arm == Label(arm) && row.taskKey == TaskKey(taskId, row.arm)
  {
    hide TaskKey, Label;
  }

  lemma OneMoreKeyed(t: Task, rows: seq<TaskMetric>, row: TaskMetric)
    requires WellKeyed(t, rows) && row.taskKey == TaskKey(t.id, row.arm) && forall other | other in rows :: other.arm != row.arm
    ensures WellKeyed(t, rows + [row])
  {
    hide TaskKey;
    assert forall i | 0 <= i < |rows| :: rows[i] in rows;
  }

  /** The rows of the arms are named as the report looks them up. */
  lemma LabelsAreNames()
    ensures Label(Ironmem) == "ironmem" && Label(Superpowers) == "superpowers"
  {
  }

  lemma LabelsDiffer(a: Arm, b: Arm)
    requires a != b
    ensures Label(a) != Label(b)
  {
    assert Label(Ironmem)[0] == 'i' && Label(Superpowers)[0] == 's';
  }

  /** What a run over different arms leaves for the corpus is keyed as the report
      needs it. */
  lemma {:induction false} CorpusRowsAreKeyed(t: Task, arms: seq<Arm>, world: LiveWorld)
    requires AllRun(t.id, arms, world) && forall i, j | 0 <= i < j < |arms| :: arms[i] != arms[j]
    ensures WellKeyed(t, Only(LiveRows(t.id, arms, world), false))
    ensures forall row | row in Only(LiveRows(t.id, arms, world), false) :: exists arm | arm in arms :: row.arm == Label(arm)
  {
    hide ArmRow, Label, TaskKey;
    if arms != [] {
      hide WellKeyed;
      var front, last := arms[..|arms| - 1], Last(arms);
      CorpusRowsAreKeyed(t, front, world);
      assert arms == front + [last];
      var before, row := LiveRows(t.id, front, world), ArmRow(t.id, last, world).value;
      assert (before + [row])[..|before|] == before;
      ArmRowIsKeyed(t.id, last, world);
      forall other | other in Only(before, false) ensures other.arm != row.arm {
        var arm :| arm in front && other.arm == Label(arm);
        LabelsDiffer(arm, last);
      }
      OneMoreKeyed(t, Only(before, false), row);
    }
  }

  /** The rows of the tasks' files, loaded in the order of `tasks`. */
  function TaskRows(tasks: seq<Task>, rowsOf: Task -> seq<TaskMetric>): seq<TaskMetric> {
    if tasks == [] then [] else TaskRows(tasks[..|tasks| - 1], rowsOf) + rowsOf(Last(tasks))
  }

  lemma {:induction false} ArmRowsConcat(a: seq<TaskMetric>, b: seq<TaskMetric>, arm: string)
    ensures ArmRows(a + b, arm) == ArmRows(a, arm) + ArmRows(b, arm)
  {
    if b == [] {
      assert a + b == a;
    } else {
      assert (a + b)[..|a + b| - 1] == a + b[..|b| - 1];
      ArmRowsConcat(a, b[..|b| - 1], arm);
    }
  }

  /** One arm's rows over the tasks. */
  function TaskArmRows(tasks: seq<Task>, rowsOf: Task -> seq<TaskMetric>, arm: string): seq<TaskMetric> {
    if tasks == [] then []
    else TaskArmRows(tasks[..|tasks| - 1], rowsOf, arm) + ArmRows(rowsOf(Last(tasks)), arm)
  }

  lemma {:induction false} ArmRowsOfTasks(tasks: seq<Task>, rowsOf: Task -> seq<TaskMetric>, arm: string)
    ensures ArmRows(TaskRows(tasks, rowsOf), arm) == TaskArmRows(tasks, rowsOf, arm)
  {
    if tasks != [] {
      ArmRowsOfTasks(tasks[..|tasks| - 1], rowsOf, arm);
      ArmRowsConcat(TaskRows(tasks[..|tasks| - 1], rowsOf), rowsOf(Last(tasks)), arm);
    }
  }

  lemma {:induction false} TaskArmRowsConcat(a: seq<Task>, b: seq<Task>, rowsOf: Task -> seq<TaskMetric>, arm: string)
    ensures TaskArmRows(a + b, rowsOf, arm) == TaskArmRows(a, rowsOf, arm) + TaskArmRows(b, rowsOf, arm)
  {
    if b == [] {
      assert a + b == a;
    } else {
      assert (a + b)[..|a + b| - 1] == a + b[..|b| - 1];
      TaskArmRowsConcat(a, b[..|b| - 1], rowsOf, arm);
    }
  }

  lemma {:induction false} TaskArmRowsPermute(a: seq<Task>, b: seq<Task>, rowsOf: Task -> seq<TaskMetric>, arm: string)
    requires multiset(a) == multiset(b)
    ensures multiset(TaskArmRows(a, rowsOf, arm)) == multiset(TaskArmRows(b, rowsOf, arm))
    decreases |a|
  {
    if a == [] {
      assert |multiset(b)| == 0;
    } else {
      var x, front := Last(a), a[..|a| - 1];
      assert a == front + [x];
      var left, right := Without(x, multiset(front), b);
      TaskArmRowsPermute(front, left + right, rowsOf, arm);
      TaskArmRowsConcat(front, [x], rowsOf, arm);
      TaskArmRowsConcat(left, right, rowsOf, arm);
      TaskArmRowsConcat(left + [x], right, rowsOf, arm);
      TaskArmRowsConcat(left, [x], rowsOf, arm);
    }
  }

  /** Of one task's rows at most one belongs to an arm. */
  lemma {:induction false} OneRowPerArm(t: Task, rows: seq<TaskMetric>, arm: string)
    requires WellKeyed(t, rows)
    ensures |ArmRows(rows, arm)| <= 1
    ensures forall row | row in ArmRows(rows, arm) :: row.taskKey == TaskKey(t.id, arm)
    ensures (forall i | 0 <= i < |rows| :: rows[i].arm != arm) ==> ArmRows(rows, arm) == []
  {
    if rows != [] {
      OneRowPerArm(t, rows[..|rows| - 1], arm);
    }
  }

  lemma {:induction false} ArmKeysDistinct(tasks: seq<Task>, rowsOf: Task -> seq<TaskMetric>, arm: string)
    requires DistinctIds(tasks) && forall t | t in tasks :: WellKeyed(t, rowsOf(t))
    ensures DistinctKeys(TaskArmRows(tasks, rowsOf, arm))
    ensures forall row | row in TaskArmRows(tasks, rowsOf, arm) ::
              exists i | 0 <= i < |tasks| :: row.taskKey == TaskKey(tasks[i].id, arm)
  {
    if tasks != [] {
      var front, t := tasks[..|tasks| - 1], Last(tasks);
      ArmKeysDistinct(front, rowsOf, arm);
      OneRowPerArm(t, rowsOf(t), arm);
      var before, now := TaskArmRows(front, rowsOf, arm), ArmRows(rowsOf(t), arm);
      forall i, j | 0 <= i < |before| && 0 <= j < |now| ensures before[i].taskKey != now[j].taskKey {
        assert before[i] in before && now[j] in now;
        var k :| 0 <= k < |front| && before[i].taskKey == TaskKey(front[k].id, arm);
        assert front[k] == tasks[k];
        if before[i].taskKey == now[j].taskKey {
          SameArmKeys(front[k].id, t.id, arm);
          assert false;
        }
      }
      forall row | row in before + now
        ensures exists i | 0 <= i < |tasks| :: row.taskKey == TaskKey(tasks[i].id, arm)
      {
        if row in before {
          var i :| 0 <= i < |front| && row.taskKey == TaskKey(front[i].id, arm);
          assert front[i] == tasks[i];
        } else {
          assert row.taskKey == TaskKey(tasks[|tasks| - 1].id, arm);
        }
      }
    }
  }

  lemma SameArmKeys(a: string, b: string, arm: string)
    requires TaskKey(a, arm) == TaskKey(b, arm)
    ensures a == b
  {
    var x, y := TaskKey(a, arm), TaskKey(b, arm);
    assert |a| == |b|;
    assert a == x[..|a|] == y[..|b|] == b;
  }

  /** Task keys of safe ids name their task and arm: no two tasks or arms collide. */
  lemma TaskKeysAreUnique(a: string, b: string, armA: string, armB: string)
    requires IsSafeTaskId(a) && IsSafeTaskId(b)
    requires TaskKey(a, armA) == TaskKey(b, armB)
    ensures a == b && armA == armB
  {
    var x, y := TaskKey(a, armA), TaskKey(b, armB);
    assert x[|a|] == ':' == y[|b|];
    assert forall i | 0 <= i < |a| :: x[i] == a[i] && x[i] != ':';
    assert forall i | 0 <= i < |b| :: y[i] == b[i] && y[i] != ':';
    assert |a| == |b|;
    assert a == x[..|a|] && b == y[..|b|];
    assert armA == x[|a| + 1..] && armB == y[|b| + 1..];
  }

  /** Pacing a campaign in batches of any size and loading the task directories in
      any order gives each arm the figures of one whole-corpus run. */
  lemma BatchingIndependence(tasks: seq<Task>, size: nat, order: seq<Task>,
                             rowsOf: Task -> seq<TaskMetric>, arm: string)
    requires size > 0 && tasks != [] && DistinctIds(tasks)
    requires forall t | t in tasks :: WellKeyed(t, rowsOf(t))
    requires multiset(order) == multiset(Batches(tasks, size, NumBatches(|tasks|, size)))
    ensures SameFigures(ArmFigures(ArmRows(TaskRows(order, rowsOf), arm)),
                        ArmFigures(ArmRows(TaskRows(tasks, rowsOf), arm)))
  {
    BatchesCoverCorpus(tasks, size);
    DirectoryOrderIsFree(tasks, order, rowsOf, arm);
  }

  lemma DirectoryOrderIsFree(tasks: seq<Task>, order: seq<Task>, rowsOf: Task -> seq<TaskMetric>, arm: string)
    requires DistinctIds(tasks) && multiset(order) == multiset(tasks)
    requires forall t | t in tasks :: WellKeyed(t, rowsOf(t))
    ensures SameFigures(ArmFigures(ArmRows(TaskRows(order, rowsOf), arm)),
                        ArmFigures(ArmRows(TaskRows(tasks, rowsOf), arm)))
  {
    ArmRowsOfTasks(order, rowsOf, arm);
    ArmRowsOfTasks(tasks, rowsOf, arm);
    TaskArmRowsPermute(order, tasks, rowsOf, arm);
    forall t | t in order ensures WellKeyed(t, rowsOf(t)) {
      assert t in multiset(tasks);
    }
    IdsStayDistinct(tasks, order);
    ArmKeysDistinct(order, rowsOf, arm);
    ArmKeysDistinct(tasks, rowsOf, arm);
    FiguresPermute(TaskArmRows(order, rowsOf, arm), TaskArmRows(tasks, rowsOf, arm));
  }

  // ---- a whole campaign ----

  /** The corpus rows a live run of the task leaves, if all its arms run. */
  ghost function CorpusRows(t: Task, arms: seq<Arm>, worldOf: Task -> LiveWorld): seq<TaskMetric> {
    if AllRun(t.id, arms, worldOf(t)) then Only(LiveRows(t.id, arms, worldOf(t)), false) else []
  }

  ghost function RowsOf(arms: seq<Arm>, worldOf: Task -> LiveWorld): Task -> seq<TaskMetric> {
    t => CorpusRows(t, arms, worldOf)
  }

  ghost predicate TaskRuns(t: Task, arms: seq<Arm>, worldOf: Task -> LiveWorld) {
    AllRun(t.id, arms, worldOf(t))
  }

  /** The task's directory holds its live metrics file. */
  ghost predicate Stored(dirs: map<string, MetricsFile>, t: Task, arms: seq<Arm>, worldOf: Task -> LiveWorld) {
    TaskRuns(t, arms, worldOf) && t.id in dirs && dirs[t.id] == MetricsFile(Live, CorpusRows(t, arms, worldOf))
  }

  lemma IdNamesTask(tasks: seq<Task>, a: Task, b: Task)
    requires DistinctIds(tasks) && a in tasks && b in tasks && a.id == b.id
    ensures a == b
  {
  }

  /** Run one batch into the output tree. */
  method RunBatch(tasks: seq<Task>, batch: seq<Task>, arms: seq<Arm>, worldOf: Task -> LiveWorld,
                  dirs: map<string, MetricsFile>, ghost done: seq<Task>)
    returns (r: Option<map<string, MetricsFile>>)
    requires DistinctIds(tasks) && (forall t | t in batch :: t in tasks) && forall t | t in done :: t in tasks
    requires forall t | t in done :: Stored(dirs, t, arms, worldOf)
    ensures r.None? ==> exists t | t in tasks :: !TaskRuns(t, arms, worldOf)
    ensures r.Some? ==> forall t | t in done + batch :: Stored(r.value, t, arms, worldOf)
  {
    hide AllRun, LiveRows, Only;
    var now := dirs;
    for k := 0 to |batch|
      invariant forall t | t in done + batch[..k] :: Stored(now, t, arms, worldOf)
    {
      var t := batch[k];
      assert t in tasks;
      var run := ExecuteApprovedLive(t.id, arms, worldOf(t));
      if run.Err? {
        assert !TaskRuns(t, arms, worldOf);
        return None;
      }
      forall other | other in done + batch[..k] && other.id == t.id ensures other == t {
        IdNamesTask(tasks, other, t);
      }
      ghost var before := now;
      now := now[t.id := MetricsFile(Live, run.value.1)];
      assert Stored(now, t, arms, worldOf);
      assert batch[..k + 1] == batch[..k] + [t];
      forall other | other in done + batch[..k] ensures Stored(now, other, arms, worldOf) {
        assert Stored(before, other, arms, worldOf);
      }
    }
    assert batch[..|batch|] == batch;
    return Some(now);
  }

  /** Run a corpus batch after batch into one output tree, then load the task directories
      in some order and aggregate. Neither the batch size nor the order shows: the result
      is that of the corpus's own rows. */
  method RunCampaign(tasks: seq<Task>, size: nat, arms: seq<Arm>, worldOf: Task -> LiveWorld, order: seq<Task>)
    returns (r: Option<map<string, ArmAgg>>)
    requires size > 0 && tasks != [] && DistinctIds(tasks) && multiset(order) == multiset(tasks)
    requires forall i, j | 0 <= i < j < |arms| :: arms[i] != arms[j]
    ensures var rows := TaskRows(tasks, RowsOf(arms, worldOf));
            && (r.Some? <==> (forall t | t in tasks :: TaskRuns(t, arms, worldOf)) && rows != [])
            && (r.Some? ==> r.value.Keys == Arms(rows))
            && (r.Some? ==> forall arm | arm in r.value :: SameFigures(r.value[arm], ArmFigures(ArmRows(rows, arm))))
  {
    hide TaskRuns, Stored, SameFigures, ArmFigures, SelectBatch, NumBatches, CorpusRows;
    BatchesCoverCorpus(tasks, size);
    var count := NumBatches(|tasks|, size);
    var dirs: map<string, MetricsFile> := map[];
    for index := 0 to count
      invariant forall t | t in Batches(tasks, size, index) :: t in tasks && Stored(dirs, t, arms, worldOf)
    {
      BatchesArePrefix(tasks, size, index);
      BatchesArePrefix(tasks, size, index + 1);
      var batch := SelectBatch(tasks, size, index).value;
      assert Batches(tasks, size, index + 1) == Batches(tasks, size, index) + batch;
      assert forall t | t in batch :: t in Batches(tasks, size, index + 1);
      var now := RunBatch(tasks, batch, arms, worldOf, dirs, Batches(tasks, size, index));
      if now.None? {
        return None;
      }
      dirs := now.value;
    }
    SameMembers(order, tasks);
    AllStored(dirs, tasks, arms, worldOf);
    var files := FilesInOrder(dirs, order, arms, worldOf);
    var rows := LoadMetricsDir(files);
    OrderedRows(tasks, order, arms, worldOf);
    if rows.None? {
      return None;
    }
    var byArm := Aggregate(rows.value);
    return Some(byArm);
  }

  lemma AllStored(dirs: map<string, MetricsFile>, tasks: seq<Task>, arms: seq<Arm>, worldOf: Task -> LiveWorld)
    requires forall t | t in tasks :: Stored(dirs, t, arms, worldOf)
    ensures forall t | t in tasks :: TaskRuns(t, arms, worldOf)
  {
    hide TaskRuns, CorpusRows;
  }

  lemma SameMembers(a: seq<Task>, b: seq<Task>)
    requires multiset(a) == multiset(b)
    ensures forall t :: t in a <==> t in b
  {
    forall t ensures t in a <==> t in b {
      assert t in a <==> t in multiset(a);
    }
  }

  method FilesInOrder(dirs: map<string, MetricsFile>, order: seq<Task>, arms: seq<Arm>, worldOf: Task -> LiveWorld)
    returns (files: seq<MetricsFile>)
    requires forall t | t in order :: Stored(dirs, t, arms, worldOf)
    ensures forall f | f in files :: f.evidence == Live
    ensures AllRows(files) == TaskRows(order, RowsOf(arms, worldOf))
  {
    hide TaskRuns, CorpusRows;
    files := [];
    for i := 0 to |order|
      invariant forall f | f in files :: f.evidence == Live
      invariant AllRows(files) == TaskRows(order[..i], RowsOf(arms, worldOf))
    {
      assert order[i] in order && order[..i + 1][..i] == order[..i];
      assert (files + [dirs[order[i].id]])[..|files|] == files;
      files := files + [dirs[order[i].id]];
    }
    assert order[..|order|] == order;
  }

  lemma {:induction false} TaskRowsMembers(tasks: seq<Task>, rowsOf: Task -> seq<TaskMetric>, row: TaskMetric)
    ensures row in TaskRows(tasks, rowsOf) <==> exists t | t in tasks :: row in rowsOf(t)
  {
    if tasks != [] {
      assert tasks == tasks[..|tasks| - 1] + [Last(tasks)];
      TaskRowsMembers(tasks[..|tasks| - 1], rowsOf, row);
    }
  }

  /** The rows of the directories in any order, against those of the corpus. */
  lemma OrderedRows(tasks: seq<Task>, order: seq<Task>, arms: seq<Arm>, worldOf: Task -> LiveWorld)
    requires DistinctIds(tasks) && multiset(order) == multiset(tasks)
    requires forall i, j | 0 <= i < j < |arms| :: arms[i] != arms[j]
    requires forall t | t in tasks :: TaskRuns(t, arms, worldOf)
    ensures var a, b := TaskRows(order, RowsOf(arms, worldOf)), TaskRows(tasks, RowsOf(arms, worldOf));
            && (a == [] <==> b == []) && Arms(a) == Arms(b)
            && forall arm :: SameFigures(ArmFigures(ArmRows(a, arm)), ArmFigures(ArmRows(b, arm)))
  {
    hide SameFigures, ArmFigures, AllRun, LiveRows, Only, WellKeyed, ArmRows, DistinctIds;
    var rowsOf := RowsOf(arms, worldOf);
    var a, b := TaskRows(order, rowsOf), TaskRows(tasks, rowsOf);
    SameMembers(order, tasks);
    forall row ensures row in a <==> row in b {
      TaskRowsMembers(order, rowsOf, row);
      TaskRowsMembers(tasks, rowsOf, row);
    }
    SameArms(a, b);
    forall t | t in tasks ensures WellKeyed(t, rowsOf(t)) {
      assert TaskRuns(t, arms, worldOf);
      CorpusRowsAreKeyed(t, arms, worldOf(t));
    }
    forall arm ensures SameFigures(ArmFigures(ArmRows(a, arm)), ArmFigures(ArmRows(b, arm))) {
      DirectoryOrderIsFree(tasks, order, rowsOf, arm);
    }
  }

  lemma SameArms(a: seq<TaskMetric>, b: seq<TaskMetric>)
    requires forall row :: row in a <==> row in b
    ensures (a == [] <==> b == []) && Arms(a) == Arms(b)
  {
    assert a != [] ==> a[0] in b;
    assert b != [] ==> b[0] in a;
    forall arm ensures arm in Arms(a) <==> arm in Arms(b) {
      ArmMember(a, arm);
      ArmMember(b, arm);
    }
  }

  lemma ArmMember(rows: seq<TaskMetric>, arm: string)
    ensures arm in Arms(rows) <==> exists row | row in rows :: row.arm == arm
  {
    if arm in Arms(rows) {
      var i :| 0 <= i < |rows| && rows[i].arm == arm;
      assert rows[i] in rows;
    }
  }

  lemma IdsStayDistinct(tasks: seq<Task>, order: seq<Task>)
    requires multiset(tasks) == multiset(order) && DistinctIds(tasks)
    ensures DistinctIds(order)
  {
    forall i, j | 0 <= i < j < |order| ensures order[i].id != order[j].id {
      var x, y := order[i], order[j];
      assert x in multiset(tasks) && y in multiset(tasks);
      var a :| 0 <= a < |tasks| && tasks[a] == x;
      var b :| 0 <= b < |tasks| && tasks[b] == y;
      if a == b {
        TwiceThere(order, i, j);
        OnceThere(tasks, a);
      }
    }
  }

  lemma TwiceThere<T>(xs: seq<T>, i: nat, j: nat)
    requires i < j < |xs| && xs[i] == xs[j]
    ensures multiset(xs)[xs[i]] >= 2
  {
    assert xs == xs[..j] + [xs[j]] + xs[j + 1..];
    assert xs[i] == xs[..j][i] && xs[i] in xs[..j];
  }

  lemma OnceThere(tasks: seq<Task>, a: nat)
    requires a < |tasks| && DistinctIds(tasks)
    ensures multiset(tasks)[tasks[a]] == 1
  {
    assert tasks == tasks[..a] + [tasks[a]] + tasks[a + 1..];
    assert tasks[a] !in tasks[..a];
    assert tasks[a] !in tasks[a + 1..];
  }
}
