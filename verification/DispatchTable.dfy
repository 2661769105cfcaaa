/** The driver's dispatch as one table: for every polled row, by name, the calls that
    answer it. The table stands on its own; the laws say that every run follows it. */
module DispatchTable {
  import opened Std
  import opened Tokens
  import opened Dispatch
  import opened WorkerPrompt
  import R = PromptRender
  import opened CollabDriver
  import opened DriverLaws

  /** A call as the table names it. `text` is what a prompt is rendered from, `None` if
      the template file is missing. */
  datatype Step =
    | Ask(tier: ModelTier, text: Option<string>, fields: Fields)
    | AskCodex
    | List(after: int)
    | ReadAgain

  function File(ctx: Context, name: string): Option<string> {
    if name in ctx.templates then Some(ctx.templates[name]) else None
  }

  /** A recoverable failure is in flight and was handed to this row's owner. */
  predicate HandedOver(s: SessionState) {
    && s.recovery.pendingFailure != None
    && s.recovery.phase == Some(s.phase) && s.recovery.owner == Some(s.currentOwner)
  }

  /** The newest drawer of the listing made right before the last call. */
  function ListedBefore(log: seq<Event>): int {
    if |log| < 2 then -0x8000_0000_0000_0000
    else match log[|log| - 2]
      case Drawers(_, Ok(Some(newest))) => newest.1
      case _ => -0x8000_0000_0000_0000
  }

  /** The artifact of a compose turn `back` calls ago: the drawer listed behind it, else
      the reference it printed. */
  function Artifact(log: seq<Event>, back: nat): Option<string> {
    if |log| < back || back < 2 then None
    else match (log[|log| - back], log[|log| - back + 1])
      case (Claude(_, _, _, Ok(r)), Drawers(_, Ok(Some(newest)))) => Some(newest.0)
      case (Claude(_, _, _, Ok(r)), Drawers(_, Ok(None))) => r.printed.artifactRef
      case _ => None
  }

  /** The session id the bootstrap turn printed. */
  function Printed(log: seq<Event>): Option<string> {
    if log != [] && log[0].Claude? && log[0].result.Ok? then log[0].result.value.printed.sessionId else None
  }

  /** The owner in the row just read. */
  function OwnerRead(log: seq<Event>): Option<string> {
    if log == [] || !Last(log).Poll? then None
    else match Last(log).state.currentOwner
      case ClaudeAgent => Some("claude")
      case CodexAgent => Some("codex")
      case OtherAgent(name) => Some(name)
  }

  /** The calls that answer row `s`, as they look from where `log` stands. */
  function Table(ctx: Context, log: seq<Event>, s: SessionState): seq<Step> {
    var id, branch, claude := Printed(log), Some(ctx.branch), Some("claude");
    var send := Fields(id, branch, Some("send"), None, None, None, claude);
    match s.currentOwner
    case OtherAgent(_) => []
    case CodexAgent =>
      (match s.phase
       case PlanParallelDrafts => [AskCodex]
       case PlanCodexReviewPending => [AskCodex]
       case CodeReviewFixGlobalPending => [AskCodex]
       case CodeReviewLocalPending => if HandedOver(s) then [AskCodex] else []
       case _ => [])
    case ClaudeAgent =>
      (match s.phase
       case PlanParallelDrafts => [Ask(Opus, File(ctx, "collab-turn-plan-draft.md"), send)]
       case PlanSynthesisPending => [Ask(Opus, File(ctx, "collab-turn-plan-synthesis.md"), send)]
       case PlanClaudeFinalizePending =>
         [List(-0x8000_0000_0000_0000),
          Ask(Opus, File(ctx, "collab-turn-plan-finalize.md"),
              Fields(id, branch, Some("compose"), Some("final"), None, None, claude)),
          List(ListedBefore(log)),
          ReadAgain,
          Ask(Sonnet, File(ctx, "collab-turn-submit.md"),
              Fields(id, branch, Some("submit"), Some("final"), Artifact(log, 3), None, OwnerRead(log)))]
       case PlanLocked =>
         [Ask(Sonnet, File(ctx, "collab-turn-task-list.md"), Fields(id, branch, None, None, None, None, claude))]
       case CodeImplementPending => [Ask(Sonnet, File(ctx, "collab-turn-code-implement.md"), send)]
       case CodeReviewLocalPending => [Ask(Opus, File(ctx, "collab-turn-review-local.md"), send)]
       case CodeReviewFinalPending =>
         [Ask(Opus, File(ctx, "collab-turn-final-review.md"),
              Fields(id, branch, Some("compose"), None, None, None, claude)),
          Ask(Sonnet, Some(ctx.syntheticFinalSubmit),
              Fields(id, None, None, None, None, Some("https://abeval.invalid/" + ctx.taskId), claude))]
       case CodeReviewFixGlobalPending =>
         if HandedOver(s) then
           [Ask(Opus, Some(ctx.recoveryFixGlobal), Fields(id, branch, None, None, None, None, None))]
         else []
       case _ => [])
  }

  /** The event is this step's call. */
  ghost predicate Answers(step: Step, e: Event) {
    match step
    case AskCodex => e.Codex?
    case List(after) => e.Drawers? && e.after == after
    case ReadAgain => e.PollFailed? || (e.Poll? && e.read == BeforeSubmit)
    case Ask(tier, text, fields) =>
      && e.Claude? && e.tier == tier && e.prompt.Template?
      && Some(e.prompt.rendered.body) == text && e.prompt.rendered.fields == fields
  }

  /** The prompt cannot be made: no template, or a placeholder is left over. */
  ghost predicate Unusable(step: Step) {
    step.Ask?
    && (step.text == None
        || !R.NoneLive(R.ReplaceEach(step.text.value, R.LongestFirst(Substitutions(step.fields)))))
  }

  predicate IsLoopPoll(e: Event) {
    e.Poll? && e.read == LoopPoll
  }

  /** `j` is the last loop poll before the call at `i`. */
  ghost predicate PollBehind(log: seq<Event>, j: nat, i: nat) {
    j < i <= |log| && IsLoopPoll(log[j]) && forall k | j < k < i :: !IsLoopPoll(log[k])
  }

  // The table is what the driver's action and script come to.

  /** Nothing is read again before the script says so. */
  lemma {:induction false} NoReadYet(log: seq<Event>, s: SessionState, n: nat)
    requires Lawful(log) && DispatchPoll(log) == Some(s) && RoundLength(log) == n <= |Script(ActionOf(s))|
    requires forall m | 0 <= m < n :: Script(ActionOf(s))[m] != Reread
    ensures LastRead(log) == Some(s)
  {
    hide Script, ActionOf, FreshPrompt, Unended, PolledKeys;
    if n > 0 {
      NoReadYet(log[..|log| - 1], s, n - 1);
    }
  }

  /** Right before the submit the row was read again. */
  lemma ReadBefore(log: seq<Event>, s: SessionState, n: nat)
    requires Lawful(log) && DispatchPoll(log) == Some(s) && RoundLength(log) == n
    requires 0 < n < |Script(ActionOf(s))| && Script(ActionOf(s))[n - 1] == Reread && AnswerStop(Last(log)) == None
    ensures Last(log).Poll? && LastRead(log) == Some(Last(log).state)
  {
    hide Script, ActionOf, FreshPrompt, Unended, PolledKeys;
    assert Permitted(log[..|log| - 1], Last(log));
  }

  lemma PrintedIsBound(log: seq<Event>)
    ensures Printed(log) == BoundSession(log)
  {
  }

  lemma OwnerIsNamed(log: seq<Event>)
    requires log != [] && Last(log).Poll?
    ensures OwnerRead(log) == Some(AgentName(Last(log).state.currentOwner))
  {
  }

  lemma ArtifactIsComposed(log: seq<Event>)
    requires log != []
    ensures Artifact(log, 3) == ComposedRef(log[..|log| - 1]) && Artifact(log, 2) == ComposedRef(log)
  {
  }

  lemma TurnPositions(action: WorkerAction, n: nat)
    requires n < |Script(action)| && Script(action)[n].Turn?
    ensures Script(action)[n].site != Bootstrap && (Script(action)[n].site == Submit <==> n == 4)
    ensures if n == 4 then Script(action)[3] == Reread else forall m | 0 <= m < n :: Script(action)[m] != Reread
  {
  }

  /** The values of a turn are those of the table. */
  lemma FieldsDue(log: seq<Event>, s: SessionState, n: nat)
    requires Lawful(log) && DispatchPoll(log) == Some(s) && RoundLength(log) == n && AnswerStop(Last(log)) == None
    requires n < |Script(ActionOf(s))| && Script(ActionOf(s))[n].Turn?
    ensures Printed(log) == BoundSession(log)
    ensures if n == 4 then
              && LastRead(log).Some? && OwnerRead(log) == Some(AgentName(LastRead(log).value.currentOwner))
              && log != [] && Artifact(log, 3) == ComposedRef(log[..|log| - 1])
            else LastRead(log) == Some(s)
  {
    assert log != [];
    hide Lawful, AnswerStop, DispatchPoll, RoundLength, LastRead, ActionOf, Script, Printed, BoundSession, Artifact;
    hide OwnerRead, ComposedRef, AgentName;
    TurnPositions(ActionOf(s), n);
    PrintedIsBound(log);
    if n == 4 {
      ReadBefore(log, s, n);
      OwnerIsNamed(log);
      ArtifactIsComposed(log);
    } else {
      NoReadYet(log, s, n);
    }
  }

  /** A listing starts behind the drawers listed before the compose turn. */
  lemma WatermarkDue(log: seq<Event>, s: SessionState, n: nat)
    requires Lawful(log) && DispatchPoll(log) == Some(s) && RoundLength(log) == n
    requires n < |Script(ActionOf(s))| && Script(ActionOf(s))[n] == ListDrawers
    ensures n in {0, 2}
    ensures Watermark(log) == if n == 2 then ListedBefore(log) else -0x8000_0000_0000_0000
  {
    hide ActionOf, FreshPrompt, Unended, PolledKeys;
    if n == 2 {
      assert Permitted(log[..|log| - 1], Last(log));
    }
  }

  ghost predicate SameStep(ctx: Context, log: seq<Event>, s: SessionState, call: Call, step: Step) {
    match call
    case Turn(site, tier) => step == Ask(tier, BodyFor(ctx, site, ActionOf(s)), FieldsFor(ctx, log, site))
    case RunCodex => step == AskCodex
    case ListDrawers => step == List(Watermark(log))
    case Reread => step == ReadAgain
  }

  lemma StepDue(ctx: Context, log: seq<Event>, s: SessionState, n: nat)
    requires Lawful(log) && DispatchPoll(log) == Some(s) && RoundLength(log) == n && AnswerStop(Last(log)) == None
    requires !IsTerminal(s.phase)
    ensures |Table(ctx, log, s)| == |Script(ActionOf(s))|
    ensures n < |Script(ActionOf(s))| ==> SameStep(ctx, log, s, Script(ActionOf(s))[n], Table(ctx, log, s)[n])
  {
    hide Lawful, AnswerStop, DispatchPoll, RoundLength, LastRead;
    if n < |Script(ActionOf(s))| && Script(ActionOf(s))[n].Turn? {
      FieldsDue(log, s, n);
      hide Printed, Artifact, OwnerRead, ComposedRef, BoundSession, ListedBefore;
    } else if n < |Script(ActionOf(s))| && Script(ActionOf(s))[n] == ListDrawers {
      WatermarkDue(log, s, n);
      hide ListedBefore, Watermark;
    }
  }

  // The laws.

  /** Every call behind a poll (at `j`) is the table's next one; and the row is polled
      again when, and only when, the table has no more. */
  lemma RowsAreServed(ctx: Context, log: seq<Event>, j: nat, i: nat)
    requires Lawful(log) && InContext(ctx, log) && PollBehind(log, j, i) && i < |log|
    ensures var s, n := log[j].state, i - 1 - j;
            var table := Table(ctx, log[..i], s);
            && s.pilot == ClaudeAgent && s.phase !in {CodingComplete, CodingFailed} && table != []
            && n <= |table|
            && if n < |table| then Answers(table[n], log[i]) else log[i].PollFailed? || IsLoopPoll(log[i])
  {
    hide Lawful, InContext, DispatchPoll, RoundLength, Table, ActionOf, Script, Stop, Fits;
    var prefix, e, s, n := log[..i], log[i], log[j].state, i - 1 - j;
    LawfulAt(log, i);
    InContextAt(ctx, log, i);
    PolledAt(prefix, j);
    GoesOn(ctx, prefix);
    CallNeedsWorker(prefix, e, s);
    RoundFits(prefix, s);
    StepDue(ctx, prefix, s, n);
    CallAnswers(ctx, prefix, e, s, n);
  }

  lemma GoesOn(ctx: Context, log: seq<Event>)
    requires log != [] && Stop(ctx, log) == None
    ensures AnswerStop(Last(log)) == None
  {
    hide AnswerStop, RoundStop;
  }

  lemma RoundFits(log: seq<Event>, s: SessionState)
    requires Lawful(log) && DispatchPoll(log) == Some(s) && AnswerStop(Last(log)) == None
    ensures RoundLength(log) <= |Script(ActionOf(s))|
  {
    hide Script, ActionOf, FreshPrompt, Unended, PolledKeys, LastRead;
    if RoundLength(log) > 0 {
      assert Permitted(log[..|log| - 1], Last(log));
    }
  }

  lemma CallNeedsWorker(prefix: seq<Event>, e: Event, s: SessionState)
    requires Permitted(prefix, e) && DispatchPoll(prefix) == Some(s)
    ensures s.pilot == ClaudeAgent && !IsTerminal(s.phase) && Script(ActionOf(s)) != []
  {
    hide RoundLength, LastRead, PolledKeys, Unended, FreshPrompt;
  }

  lemma CallAnswers(ctx: Context, prefix: seq<Event>, e: Event, s: SessionState, n: nat)
    requires Permitted(prefix, e) && DispatchPoll(prefix) == Some(s) && RoundLength(prefix) == n
    requires e.Claude? ==> Fits(ctx, prefix, e.site, e.prompt)
    ensures n < |Script(ActionOf(s))| ==>
              forall step | SameStep(ctx, prefix, s, Script(ActionOf(s))[n], step) :: Answers(step, e)
    ensures n >= |Script(ActionOf(s))| ==> e.PollFailed? || IsLoopPoll(e)
  {
    hide RoundLength, LastRead, PolledKeys, Unended, ActionOf, BodyFor, Watermark, ComposedRef, BoundSession;
    if n < |Script(ActionOf(s))| && Script(ActionOf(s))[n].Turn? {
      TurnPositions(ActionOf(s), n);
    }
  }

  // When the table's calls are not made.

  function PolledRows(log: seq<Event>): seq<SessionState> {
    if log == [] then []
    else
      var front := PolledRows(log[..|log| - 1]);
      if IsLoopPoll(Last(log)) then front + [Last(log).state] else front
  }

  predicate Alike(a: SessionState, b: SessionState) {
    && a.phase == b.phase && a.currentOwner == b.currentOwner
    && a.reviewRound == b.reviewRound && a.globalReviewRound == b.globalReviewRound
  }

  /** The last three polled rows are alike. */
  ghost predicate ThreeAlike(log: seq<Event>) {
    var rows := PolledRows(log);
    |rows| >= 3 && Alike(rows[|rows| - 3], rows[|rows| - 1]) && Alike(rows[|rows| - 2], rows[|rows| - 1])
  }

  lemma {:induction false} RowsHaveKeys(log: seq<Event>)
    ensures |PolledRows(log)| == |PolledKeys(log)|
    ensures forall i | 0 <= i < |PolledRows(log)| :: PolledKeys(log)[i] == KeyOf(PolledRows(log)[i])
  {
    if log != [] {
      RowsHaveKeys(log[..|log| - 1]);
    }
  }

  /** The stall counter stands at three exactly when the last three rows are alike. */
  lemma StallIsThreeAlike(log: seq<Event>)
    ensures TrailingRun(PolledKeys(log)) > STUCK_LIMIT <==> ThreeAlike(log)
  {
    var keys, rows := PolledKeys(log), PolledRows(log);
    RowsHaveKeys(log);
    hide PolledKeys, PolledRows, TrailingRun;
    RunIsShort(keys);
    if |keys| >= 3 {
      TrailingRunMeans(keys, 3);
      assert SameKey(keys, |keys| - 3, 3) <==> keys[|keys| - 2] == keys[|keys| - 3] && keys[|keys| - 1] == keys[|keys| - 3];
    }
  }

  /** How a run stands after `n` calls for row `s`, read off the table. */
  ghost function TableStop(ctx: Context, log: seq<Event>, s: SessionState, n: nat): Option<DriveOutcome> {
    var table := Table(ctx, log, s);
    var composes := |table| == 5;
    if ThreeAlike(log) then Some(Invalid(Stalled))
    else if s.phase in {CodingComplete, CodingFailed} then Some(LoopEnded)
    else if table == [] then Some(Invalid(UnexpectedPair))
    else if n >= |table| then (if |PolledRows(log)| == 60 then Some(LoopEnded) else None)
    else if composes && n == 3 && Artifact(log, 2) == None then Some(Invalid(NoArtifactRef))
    else if composes && n <= 1 then (if n == 0 && Unusable(table[1]) then Some(Invalid(BadTemplate)) else None)
    else if Unusable(table[n]) then Some(Invalid(BadTemplate))
    else None
  }

  /** A compose prompt is rendered before the listing in front of its turn. */
  lemma ComposeDue(ctx: Context, log: seq<Event>, s: SessionState)
    requires LastRead(log) == Some(s) && ActionOf(s).ClaudeCompose? && Printed(log) == BoundSession(log)
    ensures |Table(ctx, log, s)| == 5
    ensures SameStep(ctx, log, s, Script(ActionOf(s))[1], Table(ctx, log, s)[1])
  {
    hide LastRead, Printed, BoundSession, Artifact, OwnerRead, ListedBefore;
  }

  lemma OnlyComposeIsLong(action: WorkerAction)
    ensures |Script(action)| == 5 <==> action.ClaudeCompose?
    ensures forall n | 0 <= n < |Script(action)| :: Script(action)[n] == Reread <==> action.ClaudeCompose? && n == 3
    ensures Script(action) == [] <==> action in {Terminal, Anomaly}
  {
  }

  lemma StandsAsTable(ctx: Context, log: seq<Event>, s: SessionState, n: nat)
    requires var script, table := Script(ActionOf(s)), Table(ctx, log, s);
             && |table| == |script| && n <= |script|
             && (n < |script| ==> SameStep(ctx, log, s, script[n], table[n]))
             && (ActionOf(s).ClaudeCompose? && n == 0 ==> SameStep(ctx, log, s, script[1], table[1]))
    requires |PolledRows(log)| == |PolledKeys(log)| && Artifact(log, 2) == ComposedRef(log)
    requires TrailingRun(PolledKeys(log)) > STUCK_LIMIT <==> ThreeAlike(log)
    requires !IsTerminal(s.phase) && ActionOf(s) != Terminal
    ensures RoundStop(ctx, log, s, n) == TableStop(ctx, log, s, n)
  {
    OnlyComposeIsLong(ActionOf(s));
    hide Table, ActionOf, PolledRows, PolledKeys, ThreeAlike, TrailingRun, Artifact, ComposedRef, FieldsFor, BodyFor;
  }

  lemma TerminalAsTable(ctx: Context, log: seq<Event>, s: SessionState, n: nat)
    requires IsTerminal(s.phase) && ActionOf(s) == Terminal
    requires TrailingRun(PolledKeys(log)) > STUCK_LIMIT <==> ThreeAlike(log)
    ensures RoundStop(ctx, log, s, n) == TableStop(ctx, log, s, n)
  {
    hide Table, ActionOf, PolledRows, PolledKeys, ThreeAlike, TrailingRun, Preparing, Refused, Unusable;
  }

  /** Whenever the last call's own answer does not end the run, the table tells whether
      and how it stops. */
  lemma RowsStop(ctx: Context, log: seq<Event>, j: nat)
    requires Lawful(log) && PollBehind(log, j, |log|) && AnswerStop(Last(log)) == None
    ensures Stop(ctx, log) == TableStop(ctx, log, log[j].state, |log| - 1 - j)
  {
    var s, n := log[j].state, |log| - 1 - j;
    hide Lawful, DispatchPoll, RoundLength, PolledKeys, PolledRows, TrailingRun, ThreeAlike, Table, ActionOf, AnswerStop;
    hide Script, LastRead, SameStep, Printed, BoundSession, Artifact, ComposedRef, RoundStop, TableStop;
    PolledAt(log, j);
    StallIsThreeAlike(log);
    RowsHaveKeys(log);
    ActionAgentIsOwner(s);
    if !IsTerminal(s.phase) {
      RoundFits(log, s);
      StepDue(ctx, log, s, n);
      ArtifactIsComposed(log);
      if ActionOf(s).ClaudeCompose? && n == 0 {
        NoReadYet(log, s, 0);
        PrintedIsBound(log);
        ComposeDue(ctx, log, s);
      }
      StandsAsTable(ctx, log, s, n);
    } else {
      TerminalAsTable(ctx, log, s, n);
    }
  }
}
