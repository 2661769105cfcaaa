/** One task through the headless driver: how a finished or aborted loop becomes a
    measured result, an excluded one, or no data point at all. */
module CollabTask {
  import opened Std
  import opened Tokens
  import opened Dispatch
  import opened CollabDriver
  import WorkerPrompt
  import WorkerText

  datatype RunDisposition = TerminalRun | ExcludedRetryable

  datatype CollabRunResult = CollabRunResult(
    claudeUsage: Usage, codexUsage: Usage, reachedPhase: Phase, reviewRounds: u32,
    fixCommits: u32, prUrlSynthetic: string, disposition: RunDisposition)

  datatype InvalidRun =
    | LoopInvalid(why: Reason) | NotASessionLimit(site: FailureSite) | AttributionFailed
    | NeverPolled | TurnsExhausted | NoCodexTokens | NoClaudeTokens | ClaudeUndercounted

  /** The failure text that is searched for a session-limit signature. */
  function MessageOf(cause: Cause): string {
    match cause
    case SpawnError(message) => message
    case ErrorEnvelope(stdout) => WorkerText.TAIL + stdout
  }

  /** A Claude turn that failed, or answered with an error, in the words of a session
      limit. */
  ghost predicate ReportsLimit(e: Event) {
    match e
    case Claude(_, _, _, Err(message)) => WorkerText.BearsSignature(message)
    case Claude(_, _, _, Ok(r)) => r.isError && WorkerText.BearsSignature(r.stdout)
    case _ => false
  }

  /** The run died of an external session limit at a Claude site. */
  ghost predicate SessionLimited(log: seq<Event>) {
    log != [] && ReportsLimit(Last(log))
  }

  /** The run ended at a poll that shows a terminal phase. */
  ghost predicate ReachedEnd(log: seq<Event>) {
    && Unended(log) && DispatchPoll(log).Some? && RoundLength(log) == 0
    && IsTerminal(DispatchPoll(log).value.phase)
    && DispatchPoll(log).value.pilot == SUPPORTED_PILOT
    && TrailingRun(PolledKeys(log)) <= STUCK_LIMIT
  }

  /** Both agents were engaged and every Claude turn was measured. */
  ghost predicate FullyMeasured(log: seq<Event>, codex: Usage) {
    codex.Total() != 0 && ClampedSum(ClaudeUsages(log)).Total() != 0 && !AnyUnparseable(log)
  }

  /** Exactly the runs that yield a row: attribution worked, and the run either was
      cut by a session limit, or ended terminally and, if completed, fully measured. */
  ghost predicate YieldsRow(log: seq<Event>, attribution: Result<Usage, string>) {
    && attribution.Ok?
    && (SessionLimited(log)
        || (ReachedEnd(log)
            && (DispatchPoll(log).value.phase == CodingComplete ==> FullyMeasured(log, attribution.value))))
  }

  /** What a returned row says about its run. */
  ghost predicate RowIsSound(log: seq<Event>, attribution: Result<Usage, string>, row: CollabRunResult) {
    && attribution == Ok(row.codexUsage)
    && row.claudeUsage == ClampedSum(ClaudeUsages(log))
    && row.fixCommits == Clamp32(Sum(ReworkCommits(log), Commits))
    && (row.disposition == TerminalRun <==> IsTerminal(row.reachedPhase))
    && (row.disposition == TerminalRun ==> ReachedEnd(log))
    && (row.disposition == ExcludedRetryable ==> SessionLimited(log))
    && (if DispatchPoll(log).Some?
        then row.reachedPhase == DispatchPoll(log).value.phase
             && row.reviewRounds == DispatchPoll(log).value.globalReviewRound
        else row.reachedPhase == OtherPhase("WorkerAborted") && row.reviewRounds == 0)
    && (row.reachedPhase == CodingComplete ==> FullyMeasured(log, row.codexUsage))
  }

  /** Why a run yields no row. */
  ghost predicate FailsFor(log: seq<Event>, outcome: DriveOutcome, attribution: Result<Usage, string>, error: InvalidRun) {
    var completed := ReachedEnd(log) && DispatchPoll(log).value.phase == CodingComplete && attribution.Ok?;
    match error
    case LoopInvalid(why) => outcome == Invalid(why)
    case NotASessionLimit(site) => outcome.WorkerFailed? && outcome.site == site && !SessionLimited(log)
    case AttributionFailed => attribution.Err? && (SessionLimited(log) || ReachedEnd(log))
    case NeverPolled => outcome == LoopEnded && DispatchPoll(log) == None
    case TurnsExhausted => outcome == LoopEnded && !ReachedEnd(log) && |PolledKeys(log)| == MAX_TURNS
    case NoCodexTokens => completed && attribution.value.Total() == 0
    case NoClaudeTokens =>
      completed && attribution.value.Total() != 0 && ClampedSum(ClaudeUsages(log)).Total() == 0
    case ClaudeUndercounted =>
      && completed && attribution.value.Total() != 0 && ClampedSum(ClaudeUsages(log)).Total() != 0
      && AnyUnparseable(log)
  }

  lemma FailedRoundIsNotTerminal(log: seq<Event>)
    requires Lawful(log) && log != [] && WorkerFailureOf(Last(log)).Some?
    ensures DispatchPoll(log).Some? ==> !IsTerminal(DispatchPoll(log).value.phase)
    ensures !Unended(log)
  {
    assert Permitted(log[..|log| - 1], Last(log));
    if DispatchPoll(log).Some? {
      ActionAgentIsOwner(DispatchPoll(log).value);
    }
  }

  /** How a run stops that may yield a row: at a terminal poll, or cut by a worker. */
  lemma StopsForRow(ctx: Context, log: seq<Event>)
    requires Lawful(log)
    ensures ReachedEnd(log) ==> Stop(ctx, log) == Some(LoopEnded)
    ensures SessionLimited(log) ==> Stop(ctx, log).Some? && Stop(ctx, log).value.WorkerFailed?
  {
    hide Unended, TrailingRun, PolledKeys, Refused, FreshPrompt, WorkerText.IsSessionLimitError;
    if ReachedEnd(log) {
      ActionAgentIsOwner(DispatchPoll(log).value);
      EndedAtPoll(log);
    }
  }

  lemma NoRowForInvalid(ctx: Context, log: seq<Event>, why: Reason, attribution: Result<Usage, string>)
    requires Lawful(log) && Stop(ctx, log) == Some(Invalid(why))
    ensures !YieldsRow(log, attribution)
  {
    hide Lawful, Stop, ReachedEnd, SessionLimited, FullyMeasured;
    StopsForRow(ctx, log);
  }

  lemma EndedAtPoll(log: seq<Event>)
    requires ReachedEnd(log) && Lawful(log)
    ensures |log| > 1 && Last(log) == Poll(LoopPoll, DispatchPoll(log).value)
  {
    assert log != [];
    assert Permitted(log[..|log| - 1], Last(log));
  }

  lemma NotCut(ctx: Context, log: seq<Event>)
    requires Stop(ctx, log) == Some(LoopEnded)
    ensures !SessionLimited(log)
  {
    hide RoundStop, DispatchPoll, WorkerText.IsSessionLimitError;
  }

  lemma EndedRound(ctx: Context, log: seq<Event>)
    requires Stop(ctx, log) == Some(LoopEnded)
    ensures log != [] && AnswerStop(Last(log)) == None && DispatchPoll(log).Some?
    ensures IsTerminal(DispatchPoll(log).value.phase) || |PolledKeys(log)| == MAX_TURNS
    ensures TrailingRun(PolledKeys(log)) <= STUCK_LIMIT
  {
    hide Refused, DispatchPoll, PolledKeys, TrailingRun, RoundLength, Script, ComposedRef;
    ActionAgentIsOwner(DispatchPoll(log).value);
  }

  /** A loop that ended by itself did so at a terminal poll, or used up its turns. */
  lemma EndedLoop(ctx: Context, log: seq<Event>)
    requires Lawful(log) && Stop(ctx, log) == Some(LoopEnded)
    ensures DispatchPoll(log).Some?
    ensures ReachedEnd(log) <==> IsTerminal(DispatchPoll(log).value.phase)
    ensures !ReachedEnd(log) ==> |PolledKeys(log)| == MAX_TURNS
  {
    hide Stop, PolledKeys, TrailingRun, FreshPrompt;
    EndedRound(ctx, log);
    ActionAgentIsOwner(DispatchPoll(log).value);
    assert Permitted(log[..|log| - 1], Last(log));
  }

  /** One task: its run, and the result or the error that becomes of it. `log` and
      `outcome` are the run's calls and the way it stopped. */
  method RunCollabTask(ctx: Context, world: World)
    returns (r: Result<CollabRunResult, InvalidRun>, log: seq<Event>, outcome: DriveOutcome)
    ensures Run(ctx, world, log, outcome)
    ensures r.Ok? <==> YieldsRow(log, world.attribute)
    ensures r.Ok? ==> RowIsSound(log, world.attribute, r.value) && r.value.prUrlSynthetic == SyntheticPr(ctx)
    ensures r.Err? ==> FailsFor(log, outcome, world.attribute, r.error) && r.error != NeverPolled
  {
    hide Lawful, InContext, AnsweredBy, Permitted, Stop, YieldsRow, RowIsSound, Accounted, PolledKeys, RoundLength, DispatchPoll, Unended, ClaudeUsages, ReworkCommits, AnyUnparseable;
    var acc := new RunAccum(ctx, world);
    var stopped := DriveCollabLoop(ctx, world, acc);
    log, outcome := acc.log, stopped;
    match stopped {
      case Invalid(why) =>
        NoRowForInvalid(ctx, log, why, world.attribute);
        r := Err(LoopInvalid(why));
      case WorkerFailed(site, cause) =>
        r := AbortedRun(ctx, world, acc, site, cause);
      case LoopEnded =>
        EndedRound(ctx, log);
        r := FinishedRun(ctx, world, acc);
    }
  }

  /** The row of a run that a session limit cut. */
  function CutRow(ctx: Context, log: seq<Event>, claude: Usage, codex: Usage, fixCommits: u32): CollabRunResult {
    var last := DispatchPoll(log);
    CollabRunResult(claude, codex,
                    if last.Some? then last.value.phase else OtherPhase("WorkerAborted"),
                    if last.Some? then last.value.globalReviewRound else 0,
                    fixCommits, SyntheticPr(ctx), ExcludedRetryable)
  }

  lemma CutRowIsSound(ctx: Context, log: seq<Event>, attribution: Result<Usage, string>,
                      claude: Usage, unparseable: bool, fixCommits: u32)
    requires SessionLimited(log) && Accounted(log, claude, unparseable, fixCommits) && attribution.Ok?
    requires DispatchPoll(log).Some? ==> !IsTerminal(DispatchPoll(log).value.phase)
    ensures RowIsSound(log, attribution, CutRow(ctx, log, claude, attribution.value, fixCommits))
  {
    hide DispatchPoll, ClaudeUsages, ReworkCommits, AnyUnparseable, FullyMeasured, ReachedEnd, SessionLimited;
    hide ClampedSum, Sum, Clamp32, SyntheticPr;
  }

  /** A run that a worker failure ended yields a row exactly for a session limit. */
  lemma CutRowExactly(log: seq<Event>, attribution: Result<Usage, string>)
    requires log != [] && WorkerFailureOf(Last(log)).Some?
    ensures YieldsRow(log, attribution) <==> attribution.Ok? && SessionLimited(log)
  {
    hide SessionLimited, FullyMeasured;
  }

  /** The driver's test of a failure is about the worker's own words. */
  lemma CutByLimit(log: seq<Event>, site: FailureSite, cause: Cause)
    requires log != [] && WorkerFailureOf(Last(log)) == Some((site, cause))
    ensures SessionLimited(log) <==> site != CodexTurnSite && WorkerText.IsSessionLimitError(MessageOf(cause))
  {
    hide WorkerText.TAIL, WorkerText.IsSessionLimitError, WorkerText.BearsSignature;
    WorkerText.SessionLimitExactly(MessageOf(cause));
    if cause.ErrorEnvelope? {
      WorkerText.TailBearsNothing(cause.stdout);
    }
  }

  /** A worker cut by a session limit, whatever the case of its words, leaves a row
      exactly if the Codex tokens can be attributed, and that row is excluded and
      retryable. */
  lemma LimitIsExcluded(log: seq<Event>, attribution: Result<Usage, string>)
    requires log != [] && ReportsLimit(Last(log))
    ensures YieldsRow(log, attribution) <==> attribution.Ok?
    ensures forall row | RowIsSound(log, attribution, row) :: row.disposition == ExcludedRetryable
  {
    hide FullyMeasured, WorkerText.BearsSignature;
  }

  /** It happens with the tool's own capital letter, already in the bootstrap turn. */
  lemma CapitalizedLimitExample(ctx: Context, codex: Usage) returns (world: World, log: seq<Event>, outcome: DriveOutcome)
    ensures var message := "Claude usage limit reached. Resets at 9pm.";
            && Run(ctx, world, log, outcome) && outcome == WorkerFailed(BootstrapClaude, ErrorEnvelope(message))
            && YieldsRow(log, Ok(codex))
            && forall row | RowIsSound(log, Ok(codex), row) :: row.disposition == ExcludedRetryable
  {
    var message := "Claude usage limit reached. Resets at 9pm.";
    WorkerText.CapitalizedExample();
    var answer := Ok(WorkerResult(NO_USAGE, message, Sentinels(None, None, None), false, true));
    world := World(n => answer, n => Ok(0), n => Err(""), n => Ok(None), Ok(codex));
    var boot := Claude(Bootstrap, Sonnet, WorkerPrompt.Raw(ctx.bootstrapPrompt), answer);
    log, outcome := [boot], WorkerFailed(BootstrapClaude, ErrorEnvelope(message));
    hide WorkerText.BearsSignature, RowIsSound, YieldsRow, Lawful, InContext, AnsweredBy, Due, Stop;
    assert Underway(ctx, world, []) by { EmptyIsUnderway(ctx, world); }
    Bootstrapped(ctx, world, boot);
    RunGrows(ctx, world, [], boot);
    assert [] + [boot] == [boot];
    LimitIsExcluded(log, Ok(codex));
  }

  lemma EmptyIsUnderway(ctx: Context, world: World)
    ensures Underway(ctx, world, [])
  {
  }

  /** A worker failure: excluded and retryable if it is an external session limit. */
  method AbortedRun(ctx: Context, world: World, acc: RunAccum, site: FailureSite, cause: Cause)
    returns (r: Result<CollabRunResult, InvalidRun>)
    requires acc.Valid(world) && Stop(acc.ctx, acc.log) == Some(WorkerFailed(site, cause))
    requires acc.lastState == DispatchPoll(acc.log)
    ensures r.Ok? <==> YieldsRow(acc.log, world.attribute)
    ensures r.Ok? ==> RowIsSound(acc.log, world.attribute, r.value) && r.value.prUrlSynthetic == SyntheticPr(ctx)
    ensures r.Err? ==> FailsFor(acc.log, WorkerFailed(site, cause), world.attribute, r.error)
  {
    CutByWorker(acc.ctx, acc.log, site, cause);
    CutByLimit(acc.log, site, cause);
    hide SessionLimited, WorkerFailureOf, MessageOf;
    hide ReachedEnd, FullyMeasured, ClaudeUsages, ReworkCommits, AnyUnparseable, PolledKeys;
    hide Stop, Lawful, InContext, AnsweredBy, Permitted, DispatchPoll, WorkerText.IsSessionLimitError, Accounted, YieldsRow, RowIsSound;
    FailedRoundIsNotTerminal(acc.log);
    CutRowExactly(acc.log, world.attribute);
    var limited := site != CodexTurnSite && WorkerText.IsSessionLimitError(MessageOf(cause));
    if !limited {
      return Err(NotASessionLimit(site));
    }
    if world.attribute.Err? {
      return Err(AttributionFailed);
    }
    var phase := if acc.lastState.Some? then acc.lastState.value.phase else OtherPhase("WorkerAborted");
    var rounds := if acc.lastState.Some? then acc.lastState.value.globalReviewRound else 0;
    CutRowIsSound(ctx, acc.log, world.attribute, acc.claudeUsage, acc.anyUsageUnparseable, acc.fixCommits);
    return Ok(CollabRunResult(acc.claudeUsage, world.attribute.value, phase, rounds, acc.fixCommits,
                              SyntheticPr(ctx), ExcludedRetryable));
  }

  /** The figures of a run that ended at a terminal poll decide about its row. */
  lemma EndRowExactly(log: seq<Event>, attribution: Result<Usage, string>,
                      claude: Usage, unparseable: bool, fixCommits: u32)
    requires ReachedEnd(log) && !SessionLimited(log) && Accounted(log, claude, unparseable, fixCommits)
    ensures var done := DispatchPoll(log).value.phase == CodingComplete;
            && (YieldsRow(log, attribution)
                <==> attribution.Ok?
                     && (done ==> attribution.value.Total() != 0 && claude.Total() != 0 && !unparseable))
            && (attribution.Err? ==> FailsFor(log, LoopEnded, attribution, AttributionFailed))
            && (done && attribution.Ok? ==>
                  && (attribution.value.Total() == 0 ==> FailsFor(log, LoopEnded, attribution, NoCodexTokens))
                  && (attribution.value.Total() != 0 && claude.Total() == 0 ==>
                        FailsFor(log, LoopEnded, attribution, NoClaudeTokens))
                  && (attribution.value.Total() != 0 && claude.Total() != 0 && unparseable ==>
                        FailsFor(log, LoopEnded, attribution, ClaudeUndercounted)))
  {
    hide ReachedEnd, SessionLimited, DispatchPoll, AnyUnparseable, ClaudeUsages, ReworkCommits, ClampedSum, Sum, Clamp32;
  }

  lemma EndRowIsSound(ctx: Context, log: seq<Event>, attribution: Result<Usage, string>,
                      claude: Usage, unparseable: bool, fixCommits: u32)
    requires ReachedEnd(log) && !SessionLimited(log) && Accounted(log, claude, unparseable, fixCommits)
    requires YieldsRow(log, attribution)
    ensures var last := DispatchPoll(log).value;
            RowIsSound(log, attribution,
                       CollabRunResult(claude, attribution.value, last.phase, last.globalReviewRound, fixCommits,
                                       SyntheticPr(ctx), TerminalRun))
  {
    hide SessionLimited, DispatchPoll, AnyUnparseable, ClaudeUsages, ReworkCommits, ClampedSum, Sum, Clamp32;
    hide Unended, RoundLength, PolledKeys, TrailingRun, SyntheticPr;
  }

  /** The loop ended by itself: a terminal phase, or its turns used up. */
  method FinishedRun(ctx: Context, world: World, acc: RunAccum)
    returns (r: Result<CollabRunResult, InvalidRun>)
    requires acc.Valid(world) && Stop(acc.ctx, acc.log) == Some(LoopEnded) && acc.lastState == DispatchPoll(acc.log)
    ensures r.Ok? <==> YieldsRow(acc.log, world.attribute)
    ensures r.Ok? ==> RowIsSound(acc.log, world.attribute, r.value) && r.value.prUrlSynthetic == SyntheticPr(ctx)
    ensures r.Err? ==> FailsFor(acc.log, LoopEnded, world.attribute, r.error)
  {
    hide Lawful, InContext, AnsweredBy, Stop, Accounted, DispatchPoll, SessionLimited, RowIsSound, IsTerminal, FullyMeasured;
    NotCut(acc.ctx, acc.log);
    if acc.lastState.None? {
      return Err(NeverPolled);
    }
    var phase := acc.lastState.value.phase;
    EndedLoop(acc.ctx, acc.log);
    if !IsTerminal(phase) {
      return Err(TurnsExhausted);
    }
    hide YieldsRow, FailsFor, ReachedEnd;
    EndRowExactly(acc.log, world.attribute, acc.claudeUsage, acc.anyUsageUnparseable, acc.fixCommits);
    if world.attribute.Err? {
      return Err(AttributionFailed);
    }
    var codex := world.attribute.value;
    if phase == CodingComplete && codex.Total() == 0 {
      return Err(NoCodexTokens);
    }
    if phase == CodingComplete && acc.claudeUsage.Total() == 0 {
      return Err(NoClaudeTokens);
    }
    if phase == CodingComplete && acc.anyUsageUnparseable {
      return Err(ClaudeUndercounted);
    }
    EndRowIsSound(ctx, acc.log, world.attribute, acc.claudeUsage, acc.anyUsageUnparseable, acc.fixCommits);
    return Ok(CollabRunResult(acc.claudeUsage, codex, phase, acc.lastState.value.globalReviewRound,
                              acc.fixCommits, SyntheticPr(ctx), TerminalRun));
  }
}
