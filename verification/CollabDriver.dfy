/** The headless collab driver: a bounded dispatcher loop over a session row that
    may change arbitrarily between polls and workers that may fail in any way. */
module CollabDriver {
  import opened Std
  import opened Tokens
  import opened Dispatch
  import opened WorkerPrompt
  import R = PromptRender

  const MAX_TURNS: nat := 60
  const STUCK_LIMIT: nat := 2
  const MIN_ROWID: int := -0x8000_0000_0000_0000

  // ---- the seams ----

  /** The sentinel lines of a worker's printed text, already read out of it. */
  datatype Sentinels = Sentinels(sessionId: Option<string>, artifactRef: Option<string>, blocker: Option<string>)

  datatype WorkerResult = WorkerResult(
    usage: Usage, stdout: string, printed: Sentinels, usageUnparseable: bool, isError: bool)

  /** Answers of the outside world. The driver's n-th call overall gets the answer
      with index n, so nothing relates one answer to another. */
  datatype World = World(
    claude: nat -> Result<WorkerResult, string>,
    codex: nat -> Result<u32, string>,
    read: nat -> Result<SessionState, string>,
    drawer: nat -> Result<Option<(string, int)>, string>,
    attribute: Result<Usage, string>)

  datatype Context = Context(
    taskId: string, branch: string, bootstrapPrompt: string, templates: map<string, string>,
    syntheticFinalSubmit: string, recoveryFixGlobal: string)

  datatype TurnSite = Bootstrap | Send | Compose | Submit | Bridge | RecoveryFix | FinalCompose | FinalSubmit

  datatype ReadSite = LoopPoll | BeforeSubmit

  /** One call through a seam, with its answer. */
  datatype Event =
    | Poll(read: ReadSite, state: SessionState)
    | PollFailed
    | Drawers(after: int, newest: Result<Option<(string, int)>, string>)
    | Claude(site: TurnSite, tier: ModelTier, prompt: Prompt, result: Result<WorkerResult, string>)
    | Codex(commits: Result<u32, string>)

  datatype FailureSite = BootstrapClaude | ClaudeTurn | CodexTurnSite

  /** What a failed worker said: the spawn error, or the text of its error envelope. */
  datatype Cause = SpawnError(message: string) | ErrorEnvelope(stdout: string)

  datatype Reason =
    | UnreadableState | UnsupportedPilot | Stalled | UnexpectedPair | BadTemplate
    | NoSessionId | NoDrawers | NoArtifactRef | WorkerBlocked

  datatype DriveOutcome =
    | LoopEnded
    | WorkerFailed(site: FailureSite, cause: Cause)
    | Invalid(why: Reason)

  type StallKey = (Phase, Agent, u32, u32)

  function KeyOf(s: SessionState): StallKey {
    (s.phase, s.currentOwner, s.reviewRound, s.globalReviewRound)
  }

  // ---- reading a log of calls ----

  /** The row the loop last dispatched on (or is about to). */
  function DispatchPoll(log: seq<Event>): Option<SessionState> {
    if log == [] then None
    else match Last(log)
      case Poll(LoopPoll, s) => Some(s)
      case _ => DispatchPoll(log[..|log| - 1])
  }

  /** The most recent successful read of the row, at either site. */
  function LastRead(log: seq<Event>): Option<SessionState> {
    if log == [] then None
    else if Last(log).Poll? then Some(Last(log).state)
    else LastRead(log[..|log| - 1])
  }

  /** How many calls were made since the loop last polled. */
  function RoundLength(log: seq<Event>): nat {
    if log == [] || (Last(log).Poll? && Last(log).read == LoopPoll) then 0
    else 1 + RoundLength(log[..|log| - 1])
  }

  /** The stall keys of all loop polls, in order. */
  function PolledKeys(log: seq<Event>): seq<StallKey> {
    if log == [] then []
    else
      var front := PolledKeys(log[..|log| - 1]);
      if Last(log).Poll? && Last(log).read == LoopPoll then front + [KeyOf(Last(log).state)] else front
  }

  /** How many polls at the end of the list share the last one's key. */
  function TrailingRun(keys: seq<StallKey>): nat {
    if |keys| < 2 then |keys|
    else if keys[|keys| - 2] == Last(keys) then 1 + TrailingRun(keys[..|keys| - 1])
    else 1
  }

  /** The usage of every Claude turn that returned a result, errors included. */
  function ClaudeUsages(log: seq<Event>): seq<Usage> {
    if log == [] then []
    else
      var front := ClaudeUsages(log[..|log| - 1]);
      if Last(log).Claude? && Last(log).result.Ok? then front + [Last(log).result.value.usage] else front
  }

  /** Whether any of those turns had an unparseable transcript. */
  predicate AnyUnparseable(log: seq<Event>) {
    log != [] &&
    (AnyUnparseable(log[..|log| - 1])
     || (Last(log).Claude? && Last(log).result.Ok? && Last(log).result.value.usageUnparseable))
  }

  /** Commits of successful Codex turns dispatched from the global review fix phase. */
  function ReworkCommits(log: seq<Event>): seq<u32> {
    if log == [] then []
    else
      var prefix := log[..|log| - 1];
      var front := ReworkCommits(prefix);
      var poll := DispatchPoll(prefix);
      if Last(log).Codex? && Last(log).commits.Ok? && poll.Some? && poll.value.phase == CodeReviewFixGlobalPending
      then front + [Last(log).commits.value] else front
  }

  function Commits(n: u32): nat { n }

  function ClaudeTurns(log: seq<Event>): nat {
    if log == [] then 0
    else ClaudeTurns(log[..|log| - 1]) + if Last(log).Claude? then 1 else 0
  }

  function SiteOf(site: TurnSite): FailureSite {
    if site == Bootstrap then BootstrapClaude else ClaudeTurn
  }

  /** The worker failure an event amounts to, if any. */
  function WorkerFailureOf(e: Event): Option<(FailureSite, Cause)> {
    match e
    case Claude(site, _, _, Err(message)) => Some((SiteOf(site), SpawnError(message)))
    case Claude(site, _, _, Ok(r)) =>
      if r.isError then Some((SiteOf(site), ErrorEnvelope(r.stdout))) else None
    case Codex(Err(message)) => Some((CodexTurnSite, SpawnError(message)))
    case _ => None
  }

  /** Events after which a run makes no further call. */
  predicate Ends(e: Event) {
    || WorkerFailureOf(e).Some?
    || e.PollFailed?
    || (e.Drawers? && e.newest.Err?)
    || (e.Claude? && e.site in {Submit, Bridge} && e.result.value.printed.blocker.Some?)
  }

  // ---- the discipline every run keeps ----

  datatype Call = Turn(site: TurnSite, tier: ModelTier) | RunCodex | ListDrawers | Reread

  /** The calls a dispatched action makes, in order. */
  function Script(a: WorkerAction): seq<Call> {
    match a
    case ClaudeSend(_, tier) => [Turn(Send, tier)]
    case ClaudeCompose(_, tier) =>
      [ListDrawers, Turn(Compose, tier), ListDrawers, Reread, Turn(Submit, Sonnet)]
    case TaskListBridge => [Turn(Bridge, Sonnet)]
    case ClaudeRecoveryFixGlobal => [Turn(RecoveryFix, Opus)]
    case CodexTurn => [RunCodex]
    case FinalReviewSynthetic => [Turn(FinalCompose, Opus), Turn(FinalSubmit, Sonnet)]
    case Terminal => []
    case Anomaly => []
  }

  predicate Makes(call: Call, e: Event) {
    match call
    case Turn(site, tier) => e.Claude? && e.site == site && e.tier == tier
    case RunCodex => e.Codex?
    case ListDrawers => e.Drawers?
    case Reread => e.PollFailed? || (e.Poll? && e.read == BeforeSubmit)
  }

  /** The session id the bootstrap turn printed. */
  function BoundSession(log: seq<Event>): Option<string> {
    if log == [] then None
    else match log[0]
      case Claude(_, _, _, Ok(r)) => r.printed.sessionId
      case _ => None
  }

  /** What kind of turn a prompt says it is. */
  function ModeOf(site: TurnSite): Option<string> {
    match site
    case Send => Some("send")
    case Compose => Some("compose")
    case FinalCompose => Some("compose")
    case Submit => Some("submit")
    case _ => None
  }

  /** The matrix composes one topic only. */
  function TopicOf(site: TurnSite): Option<string> {
    if site in {Compose, Submit} then Some("final") else None
  }

  /** A turn gets a completely rendered template for the bound session that names
      the owner in the freshest read as its sender (the recovery turn's prompt has no
      sender), and that read's pilot is the supported one. A submit names its
      artifact. */
  ghost predicate FreshPrompt(prefix: seq<Event>, site: TurnSite, prompt: Prompt) {
    && prompt.Template?
    && LastRead(prefix).Some?
    && var current, fields := LastRead(prefix).value, prompt.rendered.fields;
       && current.pilot == SUPPORTED_PILOT
       && fields.sessionId.Some? && fields.sessionId == BoundSession(prefix)
       && fields.sender == (if site == RecoveryFix then None else Some(AgentName(current.currentOwner)))
       && fields.mode == ModeOf(site) && fields.topic == TopicOf(site)
       && (if site == Submit then ArtifactResolved(prefix, fields.artifactRef) else fields.artifactRef == None)
  }

  function TemplateBody(ctx: Context, name: string): Option<string> {
    if name in ctx.templates then Some(ctx.templates[name]) else None
  }

  function SyntheticPr(ctx: Context): string {
    "https://abeval.invalid/" + ctx.taskId
  }

  /** The text a turn's prompt is rendered from: a worker template, or one of the
      driver's own. */
  function BodyFor(ctx: Context, site: TurnSite, action: WorkerAction): Option<string> {
    match site
    case Bootstrap => None
    case Send => if action.ClaudeSend? then TemplateBody(ctx, action.template) else None
    case Compose => if action.ClaudeCompose? then TemplateBody(ctx, action.template) else None
    case Submit => TemplateBody(ctx, "collab-turn-submit.md")
    case Bridge => TemplateBody(ctx, "collab-turn-task-list.md")
    case RecoveryFix => Some(ctx.recoveryFixGlobal)
    case FinalCompose => TemplateBody(ctx, "collab-turn-final-review.md")
    case FinalSubmit => Some(ctx.syntheticFinalSubmit)
  }

  /** What a prompt has from the run's context: its template, the branch, and for the
      final submit the synthetic PR address instead. */
  ghost predicate Fits(ctx: Context, prefix: seq<Event>, site: TurnSite, prompt: Prompt) {
    if site == Bootstrap then prompt == Raw(ctx.bootstrapPrompt)
    else
      && prompt.Template? && DispatchPoll(prefix).Some?
      && var fields := prompt.rendered.fields;
         && Some(prompt.rendered.body) == BodyFor(ctx, site, ActionOf(DispatchPoll(prefix).value))
         && (if site == FinalSubmit then fields.branch == None && fields.prUrl == Some(SyntheticPr(ctx))
             else fields.branch == Some(ctx.branch) && fields.prUrl == None)
  }

  /** The artifact a compose turn produced: the drawer it persisted, else the
      reference it printed. */
  function ResolveComposeRef(newest: Option<(string, int)>, printed: Sentinels): Option<string> {
    if newest.Some? then Some(newest.value.0) else printed.artifactRef
  }

  /** The artifact found by a compose turn and the listing right behind it. */
  function ComposedRef(log: seq<Event>): Option<string> {
    if |log| < 2 then None
    else match (log[|log| - 2], Last(log))
      case (Claude(_, _, _, Ok(r)), Drawers(_, Ok(newest))) => ResolveComposeRef(newest, r.printed)
      case _ => None
  }

  /** A submit names the artifact of the compose turn three calls earlier. */
  ghost predicate ArtifactResolved(prefix: seq<Event>, artifactRef: Option<string>) {
    prefix != [] && artifactRef.Some? && artifactRef == ComposedRef(prefix[..|prefix| - 1])
  }

  /** Where a drawer listing starts: behind a compose turn, past the newest drawer
      listed before that turn; otherwise at the very beginning. */
  function Watermark(prefix: seq<Event>): int {
    if |prefix| >= 2 && Last(prefix).Claude? then
      match prefix[|prefix| - 2]
      case Drawers(_, Ok(Some(newest))) => newest.1
      case _ => MIN_ROWID
    else MIN_ROWID
  }

  predicate Unended(log: seq<Event>) {
    log != [] ==> Unended(log[..|log| - 1]) && !Ends(Last(log))
  }

  /** The row of poll `s` may be acted on: a pilot the driver supports, a key not
      yet repeated too often, and a pair with a worker. */
  ghost predicate Actionable(log: seq<Event>, s: SessionState) {
    && s.pilot == SUPPORTED_PILOT
    && TrailingRun(PolledKeys(log)) <= STUCK_LIMIT
    && ActionOf(s) !in {Terminal, Anomaly}
  }

  ghost predicate Permitted(prefix: seq<Event>, e: Event) {
    && Unended(prefix)
    && match DispatchPoll(prefix)
       case None =>
         if prefix == [] then e.Claude? && e.site == Bootstrap && e.tier == Sonnet
         else |prefix| == 1 && (e.PollFailed? || (e.Poll? && e.read == LoopPoll))
       case Some(s) =>
         && Actionable(prefix, s)
         && var script, n := Script(ActionOf(s)), RoundLength(prefix);
            if n < |script| then
              && Makes(script[n], e)
              && (e.Claude? ==> FreshPrompt(prefix, e.site, e.prompt))
              && (e.Drawers? ==> e.after == Watermark(prefix))
            else e.PollFailed? || (e.Poll? && e.read == LoopPoll)
  }

  /** Every call was permitted by the calls before it. */
  ghost predicate Lawful(log: seq<Event>) {
    log != [] ==> Lawful(log[..|log| - 1]) && Permitted(log[..|log| - 1], Last(log))
  }

  // ---- when a run stops, and what makes a log a run ----

  /** What the call sites supply for the placeholders of a turn's prompt. */
  function FieldsFor(ctx: Context, prefix: seq<Event>, site: TurnSite): Fields {
    var current := LastRead(prefix);
    Fields(BoundSession(prefix),
           if site == FinalSubmit then None else Some(ctx.branch),
           ModeOf(site), TopicOf(site),
           if site == Submit && prefix != [] then ComposedRef(prefix[..|prefix| - 1]) else None,
           if site == FinalSubmit then Some(SyntheticPr(ctx)) else None,
           if site == RecoveryFix || current.None? then None else Some(AgentName(current.value.currentOwner)))
  }

  /** A turn has no template, or its rendered text keeps a placeholder. */
  ghost predicate Refused(ctx: Context, prefix: seq<Event>, action: WorkerAction, site: TurnSite) {
    var body := BodyFor(ctx, site, action);
    body.None?
    || !R.NoneLive(R.ReplaceEach(body.value, R.LongestFirst(Substitutions(FieldsFor(ctx, prefix, site)))))
  }

  /** The turn whose prompt is rendered right before an action's `n`-th call: that
      call's own, but a compose prompt is rendered before the listing it follows. */
  function Preparing(action: WorkerAction, n: nat): Option<TurnSite> {
    if action.ClaudeCompose? && n <= 1 then (if n == 0 then Some(Compose) else None)
    else if n < |Script(action)| && Script(action)[n].Turn? then Some(Script(action)[n].site)
    else None
  }

  /** How a call's own answer ends the run, if it does. */
  ghost function AnswerStop(e: Event): Option<DriveOutcome> {
    var failure := WorkerFailureOf(e);
    if failure.Some? then Some(WorkerFailed(failure.value.0, failure.value.1))
    else if e.PollFailed? then Some(Invalid(UnreadableState))
    else if e.Drawers? && e.newest.Err? then Some(Invalid(NoDrawers))
    else if e.Claude? && Ends(e) then Some(Invalid(WorkerBlocked))
    else if e.Poll? && e.state.pilot != SUPPORTED_PILOT then Some(Invalid(UnsupportedPilot))
    else None
  }

  /** Why nothing more is called after `n` calls of a round that answers `s`. */
  ghost function RoundStop(ctx: Context, log: seq<Event>, s: SessionState, n: nat): Option<DriveOutcome> {
    var action := ActionOf(s);
    if TrailingRun(PolledKeys(log)) > STUCK_LIMIT then Some(Invalid(Stalled))
    else if action == Terminal then Some(LoopEnded)
    else if action == Anomaly then Some(Invalid(UnexpectedPair))
    else if n >= |Script(action)| then (if |PolledKeys(log)| == MAX_TURNS then Some(LoopEnded) else None)
    else if Script(action)[n] == Reread && ComposedRef(log) == None then Some(Invalid(NoArtifactRef))
    else if Preparing(action, n).Some? && Refused(ctx, log, action, Preparing(action, n).value) then
      Some(Invalid(BadTemplate))
    else None
  }

  /** How a run that made exactly these calls stops here; `None` if it makes another. */
  ghost function Stop(ctx: Context, log: seq<Event>): Option<DriveOutcome> {
    if log == [] then None
    else if AnswerStop(Last(log)).Some? then AnswerStop(Last(log))
    else match DispatchPoll(log)
      case None => if BoundSession(log) == None then Some(Invalid(NoSessionId)) else None
      case Some(s) => RoundStop(ctx, log, s, RoundLength(log))
  }

  /** No call was made by a run that had to stop, and every prompt fits its context. */
  ghost predicate InContext(ctx: Context, log: seq<Event>) {
    log != [] ==>
      var prefix, e := log[..|log| - 1], Last(log);
      && InContext(ctx, prefix)
      && Stop(ctx, prefix) == None
      && (e.Claude? ==> Fits(ctx, prefix, e.site, e.prompt))
  }

  /** The outside world's answer to the `n`-th call is the one recorded in `e`. */
  ghost predicate Answers(world: World, n: nat, e: Event) {
    match e
    case Poll(_, s) => world.read(n) == Ok(s)
    case PollFailed => world.read(n).Err?
    case Drawers(_, newest) => world.drawer(n) == newest
    case Claude(_, _, _, result) => world.claude(n) == result
    case Codex(commits) => world.codex(n) == commits
  }

  ghost predicate AnsweredBy(world: World, log: seq<Event>) {
    log != [] ==> AnsweredBy(world, log[..|log| - 1]) && Answers(world, |log| - 1, Last(log))
  }

  /** Both worlds answer the first `n` calls alike, whatever is called. */
  ghost predicate Agree(world: World, other: World, n: nat) {
    forall i: nat | i < n :: world.claude(i) == other.claude(i) && world.codex(i) == other.codex(i)
                             && world.read(i) == other.read(i) && world.drawer(i) == other.drawer(i)
  }

  lemma {:induction false} SameAnswers(world: World, other: World, log: seq<Event>)
    requires AnsweredBy(world, log) && Agree(world, other, |log|)
    ensures AnsweredBy(other, log)
  {
    if log != [] {
      SameAnswers(world, other, log[..|log| - 1]);
    }
  }

  /** The calls so far are the driver's own, as this world answered them. */
  ghost predicate Underway(ctx: Context, world: World, log: seq<Event>) {
    Lawful(log) && InContext(ctx, log) && AnsweredBy(world, log)
  }

  /** `log` is a whole run of the driver in this world, and `outcome` how it stopped. */
  ghost predicate Run(ctx: Context, world: World, log: seq<Event>, outcome: DriveOutcome) {
    Underway(ctx, world, log) && Stop(ctx, log) == Some(outcome)
  }

  /** The call `e` is what the driver makes next. */
  ghost predicate Due(ctx: Context, world: World, log: seq<Event>, e: Event) {
    && Permitted(log, e) && Stop(ctx, log) == None && Answers(world, |log|, e)
    && (e.Claude? ==> Fits(ctx, log, e.site, e.prompt))
  }

  lemma RunGrows(ctx: Context, world: World, log: seq<Event>, e: Event)
    requires Underway(ctx, world, log) && Due(ctx, world, log, e)
    ensures Underway(ctx, world, log + [e])
  {
    hide Permitted, Fits, Stop, Answers;
    assert (log + [e])[..|log|] == log;
  }

  ghost predicate Accounted(log: seq<Event>, claude: Usage, unparseable: bool, fixCommits: u32) {
    && claude == ClampedSum(ClaudeUsages(log))
    && unparseable == AnyUnparseable(log)
    && fixCommits == Clamp32(Sum(ReworkCommits(log), Commits))
  }

  /** In a dispatched round for `s`, with `n` of its calls made and none of them final. */
  ghost predicate InRound(log: seq<Event>, s: SessionState, n: nat) {
    && |log| >= 2
    && Unended(log) && DispatchPoll(log) == Some(s) && RoundLength(log) == n
    && Actionable(log, s) && n <= |Script(ActionOf(s))|
    && LastRead(log).Some? && LastRead(log).value.pilot == SUPPORTED_PILOT
  }

  lemma LogGrows(log: seq<Event>, e: Event)
    ensures (log + [e])[..|log|] == log && Last(log + [e]) == e
    ensures Lawful(log) && Permitted(log, e) ==> Lawful(log + [e])
    ensures Unended(log + [e]) <==> Unended(log) && !Ends(e)
    ensures AnyUnparseable(log + [e])
            <==> AnyUnparseable(log) || (e.Claude? && e.result.Ok? && e.result.value.usageUnparseable)
  {
    assert (log + [e])[..|log|] == log;
  }

  /** How one more call changes what is read out of the log. */
  lemma ReadingsGrow(log: seq<Event>, e: Event)
    ensures var longer, polled := log + [e], e.Poll? && e.read == LoopPoll;
            && DispatchPoll(longer) == (if polled then Some(e.state) else DispatchPoll(log))
            && LastRead(longer) == (if e.Poll? then Some(e.state) else LastRead(log))
            && RoundLength(longer) == (if polled then 0 else 1 + RoundLength(log))
            && PolledKeys(longer) == PolledKeys(log) + (if polled then [KeyOf(e.state)] else [])
  {
    assert (log + [e])[..|log|] == log;
  }

  /** Folding one call's answer into the totals keeps them exact. */
  lemma AccountsGrow(log: seq<Event>, e: Event, claude: Usage, unparseable: bool, fixCommits: u32)
    requires Accounted(log, claude, unparseable, fixCommits)
    ensures var counted := e.Claude? && e.result.Ok?;
            var rework := e.Codex? && e.commits.Ok? && DispatchPoll(log).Some?
                          && DispatchPoll(log).value.phase == CodeReviewFixGlobalPending;
            Accounted(log + [e],
                      if counted then claude.Add(e.result.value.usage) else claude,
                      unparseable || (counted && e.result.value.usageUnparseable),
                      if rework then Clamp32(fixCommits + e.commits.value) else fixCommits)
  {
    LogGrows(log, e);
    if e.Claude? && e.result.Ok? {
      ClampedSumSnoc(ClaudeUsages(log), e.result.value.usage);
    }
    if e.Codex? && e.commits.Ok? {
      var ns := ReworkCommits(log);
      assert (ns + [e.commits.value])[..|ns|] == ns;
    }
  }

  /** The prompt a call site renders for its turn. */
  ghost predicate PromptFor(ctx: Context, log: seq<Event>, s: SessionState, site: TurnSite, prompt: Prompt) {
    && prompt.Template?
    && Some(prompt.rendered.body) == BodyFor(ctx, site, ActionOf(s))
    && prompt.rendered.fields == FieldsFor(ctx, log, site)
  }

  lemma PromptForFits(ctx: Context, log: seq<Event>, s: SessionState, n: nat, site: TurnSite, prompt: Prompt)
    requires InRound(log, s, n) && PromptFor(ctx, log, s, site, prompt) && site != Bootstrap
    requires BoundSession(log).Some?
    requires site == Submit ==> prompt.rendered.fields.artifactRef.Some?
    ensures FreshPrompt(log, site, prompt) && Fits(ctx, log, site, prompt)
    ensures !Refused(ctx, log, ActionOf(s), site)
  {
    hide Unended, PolledKeys, RoundLength, Script, ActionOf, ComposedRef, LastRead, DispatchPoll;
  }

  /** Nothing stops a round before its next call. */
  ghost predicate Proceeds(ctx: Context, log: seq<Event>, action: WorkerAction, n: nat)
    requires n < |Script(action)|
  {
    && (Script(action)[n] == Reread ==> ComposedRef(log).Some?)
    && (Preparing(action, n).Some? ==> !Refused(ctx, log, action, Preparing(action, n).value))
  }

  lemma LastIsHarmless(log: seq<Event>)
    requires Unended(log) && log != []
    requires LastRead(log).Some? && LastRead(log).value.pilot == SUPPORTED_PILOT
    ensures AnswerStop(Last(log)) == None
  {
  }

  /** The next call of a round's script is due. */
  lemma NextCallDue(ctx: Context, world: World, log: seq<Event>, s: SessionState, n: nat, e: Event)
    requires InRound(log, s, n) && n < |Script(ActionOf(s))| && Proceeds(ctx, log, ActionOf(s), n)
    requires Makes(Script(ActionOf(s))[n], e) && Answers(world, |log|, e)
    requires e.Claude? ==> FreshPrompt(log, e.site, e.prompt) && Fits(ctx, log, e.site, e.prompt)
    requires e.Drawers? ==> e.after == Watermark(log)
    ensures Due(ctx, world, log, e)
  {
    hide AnswerStop, FreshPrompt, Fits, Refused, ComposedRef, PolledKeys, LastRead, RoundLength, DispatchPoll, Answers;
    LastIsHarmless(log);
  }

  lemma RoundAdvances(log: seq<Event>, s: SessionState, n: nat, e: Event)
    requires InRound(log, s, n) && n < |Script(ActionOf(s))|
    requires Makes(Script(ActionOf(s))[n], e) && !Ends(e)
    requires e.Poll? ==> e.state.pilot == SUPPORTED_PILOT
    ensures InRound(log + [e], s, n + 1)
  {
    LogGrows(log, e);
    ReadingsGrow(log, e);
  }

  // ---- the driver ----

  /** What reading the row as the `n`-th call puts on the log. */
  function ReadAnswer(world: World, n: nat, site: ReadSite): Event {
    match world.read(n) case Ok(s) => Poll(site, s) case Err(_) => PollFailed
  }

  function WorkerResultError(site: TurnSite, r: WorkerResult): Option<DriveOutcome> {
    if r.isError then Some(WorkerFailed(SiteOf(site), ErrorEnvelope(r.stdout))) else None
  }

  /** Run totals, kept outside the loop so that an aborted run does not lose them.
      `log` records the calls made so far. */
  class RunAccum {
    const ctx: Context
    var claudeUsage: Usage
    var anyUsageUnparseable: bool
    var fixCommits: u32
    var lastState: Option<SessionState>
    var log: seq<Event>

    constructor (ctx: Context, ghost world: World)
      ensures Valid(world) && this.ctx == ctx && log == [] && lastState == None
    {
      this.ctx := ctx;
      claudeUsage, anyUsageUnparseable, fixCommits := NO_USAGE, false, 0;
      lastState, log := None, [];
    }

    /** The run is underway and its totals are exact. */
    ghost predicate Valid(world: World)
      reads this
    {
      && Underway(ctx, world, log)
      && Accounted(log, claudeUsage, anyUsageUnparseable, fixCommits)
    }

    /** Log one Claude turn and, if it returned a result, fold its usage and its
        flag into the totals together. */
    method AccumulateClaude(e: Event, ghost world: World)
      requires Valid(world) && e.Claude? && Due(ctx, world, log, e)
      modifies this`claudeUsage, this`anyUsageUnparseable, this`log
      ensures Valid(world) && log == old(log) + [e]
    {
      hide Underway, Lawful, Due, Accounted, Unended, AnyUnparseable, ClaudeUsages, ReworkCommits;
      LogGrows(log, e);
      AccountsGrow(log, e, claudeUsage, anyUsageUnparseable, fixCommits);
      RunGrows(ctx, world, log, e);
      log := log + [e];
      if e.result.Ok? {
        claudeUsage := claudeUsage.Add(e.result.value.usage);
        anyUsageUnparseable := anyUsageUnparseable || e.result.value.usageUnparseable;
      }
    }

    /** Spawn one Claude turn and fold its usage and its flag into the totals. */
    method SpawnClaude(world: World, site: TurnSite, tier: ModelTier, prompt: Prompt)
      returns (r: Result<WorkerResult, DriveOutcome>)
      requires Valid(world) && Due(ctx, world, log, Claude(site, tier, prompt, world.claude(|log|)))
      modifies this`claudeUsage, this`anyUsageUnparseable, this`log
      ensures Valid(world)
      ensures log == old(log) + [Claude(site, tier, prompt, world.claude(|old(log)|))]
      ensures var failure := WorkerFailureOf(Last(log));
              if failure.Some? then r == Err(WorkerFailed(failure.value.0, failure.value.1))
              else r.Ok? && world.claude(|old(log)|) == Ok(r.value)
    {
      hide Underway, Lawful, Due, Accounted, Unended, AnyUnparseable, ClaudeUsages, ReworkCommits;
      var e := Claude(site, tier, prompt, world.claude(|log|));
      AccumulateClaude(e, world);
      if e.result.Err? {
        return Err(WorkerFailed(SiteOf(site), SpawnError(e.result.error)));
      }
      var failure := WorkerResultError(site, e.result.value);
      return if failure.Some? then Err(failure.value) else Ok(e.result.value);
    }

    /** Spawn one Codex turn; only the global review fix phase counts its commits. */
    method SpawnCodex(world: World, fromPhase: Phase) returns (r: Result<u32, DriveOutcome>)
      requires Valid(world) && Due(ctx, world, log, Codex(world.codex(|log|)))
      requires DispatchPoll(log).Some? && DispatchPoll(log).value.phase == fromPhase
      modifies this`fixCommits, this`log
      ensures Valid(world)
      ensures log == old(log) + [Codex(world.codex(|old(log)|))]
      ensures var failure := WorkerFailureOf(Last(log));
              if failure.Some? then r == Err(WorkerFailed(failure.value.0, failure.value.1))
              else r == Ok(Last(log).commits.value)
    {
      hide Underway, Lawful, Due, Accounted, Unended, AnyUnparseable, ClaudeUsages, ReworkCommits;
      var e := Codex(world.codex(|log|));
      LogGrows(log, e);
      AccountsGrow(log, e, claudeUsage, anyUsageUnparseable, fixCommits);
      RunGrows(ctx, world, log, e);
      log := log + [e];
      if e.commits.Err? {
        return Err(WorkerFailed(CodexTurnSite, SpawnError(e.commits.error)));
      }
      if fromPhase == CodeReviewFixGlobalPending {
        fixCommits := Clamp32(fixCommits + e.commits.value);
      }
      return Ok(e.commits.value);
    }

    /** Read the session row. */
    method ReadState(world: World, site: ReadSite) returns (r: Result<SessionState, DriveOutcome>)
      requires Valid(world) && Due(ctx, world, log, ReadAnswer(world, |log|, site))
      modifies this`log
      ensures Valid(world)
      ensures log == old(log) + [ReadAnswer(world, |old(log)|, site)]
      ensures r == match world.read(|old(log)|) case Ok(s) => Ok(s) case Err(_) => Err(Invalid(UnreadableState))
    {
      hide Underway, Lawful, Due, Accounted, Unended, AnyUnparseable, ClaudeUsages, ReworkCommits;
      var answer := world.read(|log|);
      var e := ReadAnswer(world, |log|, site);
      LogGrows(log, e);
      AccountsGrow(log, e, claudeUsage, anyUsageUnparseable, fixCommits);
      RunGrows(ctx, world, log, e);
      log := log + [e];
      if answer.Err? {
        return Err(Invalid(UnreadableState));
      }
      return Ok(answer.value);
    }

    /** The newest staged drawer past rowid `after`. */
    method NewestDraftDrawer(world: World, after: int)
      returns (r: Result<Option<(string, int)>, DriveOutcome>)
      requires Valid(world) && Due(ctx, world, log, Drawers(after, world.drawer(|log|)))
      modifies this`log
      ensures Valid(world)
      ensures log == old(log) + [Drawers(after, world.drawer(|old(log)|))]
      ensures r.Ok? <==> !Ends(Last(log))
      ensures r == match world.drawer(|old(log)|) case Ok(d) => Ok(d) case Err(_) => Err(Invalid(NoDrawers))
    {
      hide Underway, Lawful, Due, Accounted, Unended, AnyUnparseable, ClaudeUsages, ReworkCommits;
      var answer := world.drawer(|log|);
      LogGrows(log, Drawers(after, answer));
      AccountsGrow(log, Drawers(after, answer), claudeUsage, anyUsageUnparseable, fixCommits);
      RunGrows(ctx, world, log, Drawers(after, answer));
      log := log + [Drawers(after, answer)];
      if answer.Err? {
        return Err(Invalid(NoDrawers));
      }
      return Ok(answer.value);
    }
  }

  /** A run stops at a worker failure exactly when its last call is that failure. */
  lemma CutByWorker(ctx: Context, log: seq<Event>, site: FailureSite, cause: Cause)
    ensures Stop(ctx, log) == Some(WorkerFailed(site, cause))
            <==> log != [] && WorkerFailureOf(Last(log)) == Some((site, cause))
  {
  }

  /** A turn's own prompt is rendered right before it, a compose turn's already before
      the listing. */
  lemma PreparesOwn(action: WorkerAction, n: nat, site: TurnSite, tier: ModelTier)
    requires n < |Script(action)| && Script(action)[n] == Turn(site, tier)
    ensures Preparing(action, n) == if site == Compose then None else Some(site)
  {
  }

  /** A prompt that cannot be rendered stops the round. */
  lemma BadTemplateStops(ctx: Context, log: seq<Event>, s: SessionState, n: nat, site: TurnSite)
    requires InRound(log, s, n) && n < |Script(ActionOf(s))| && Preparing(ActionOf(s), n) == Some(site)
    requires Refused(ctx, log, ActionOf(s), site)
    ensures Stop(ctx, log) == Some(Invalid(BadTemplate))
  {
    hide AnswerStop, Refused, ComposedRef, PolledKeys, LastRead, RoundLength, DispatchPoll;
    LastIsHarmless(log);
  }

  /** So does a compose turn without an artifact. */
  lemma NoArtifactStops(ctx: Context, log: seq<Event>, s: SessionState)
    requires InRound(log, s, 3) && ActionOf(s).ClaudeCompose? && ComposedRef(log) == None
    ensures Stop(ctx, log) == Some(Invalid(NoArtifactRef))
  {
    hide AnswerStop, Refused, ComposedRef, PolledKeys, LastRead, RoundLength, DispatchPoll;
    LastIsHarmless(log);
  }

  lemma RoundFacts(log: seq<Event>, s: SessionState, n: nat)
    requires InRound(log, s, n)
    ensures s.pilot == SUPPORTED_PILOT && ActionOf(s) !in {Terminal, Anomaly}
    ensures DispatchPoll(log) == Some(s) && |log| >= 2
  {
  }

  lemma RoundOpens(log: seq<Event>, s: SessionState)
    requires InRound(log, s, 0)
    ensures Watermark(log) == MIN_ROWID
  {
  }

  lemma BlockerStops(ctx: Context, log: seq<Event>)
    requires log != [] && Last(log).Claude? && WorkerFailureOf(Last(log)) == None && Ends(Last(log))
    ensures Stop(ctx, log) == Some(Invalid(WorkerBlocked))
  {
  }

  /** Spawn a rendered Claude turn as the `n`-th call of a round. */
  method SpawnInRound(world: World, acc: RunAccum, site: TurnSite, tier: ModelTier, prompt: Prompt,
                      ghost s: SessionState, ghost n: nat)
    returns (r: Result<WorkerResult, DriveOutcome>)
    requires acc.Valid(world) && InRound(acc.log, s, n)
    requires n < |Script(ActionOf(s))| && Script(ActionOf(s))[n] == Turn(site, tier)
    requires PromptFor(acc.ctx, acc.log, s, site, prompt) && site != Bootstrap && BoundSession(acc.log).Some?
    requires site == Submit ==> prompt.rendered.fields.artifactRef.Some?
    modifies acc`claudeUsage, acc`anyUsageUnparseable, acc`log
    ensures acc.Valid(world)
    ensures PolledKeys(acc.log) == old(PolledKeys(acc.log)) && LastRead(acc.log) == old(LastRead(acc.log))
    ensures old(acc.log) <= acc.log
    ensures DispatchPoll(acc.log) == Some(s)
    ensures acc.log == old(acc.log) + [Last(acc.log)] && Last(acc.log).Claude? && Last(acc.log).site == site
    ensures |acc.log| > 2
    ensures r.Ok? ==> Last(acc.log).result == Ok(r.value) && WorkerFailureOf(Last(acc.log)) == None
    ensures r.Ok? && !Ends(Last(acc.log)) ==> InRound(acc.log, s, n + 1)
    ensures r.Err? ==> Stop(acc.ctx, acc.log) == Some(r.error) && !r.error.LoopEnded?
  {
    hide Stop, Underway, Accounted, Unended, DispatchPoll, LastRead, RoundLength, PolledKeys, Script, ActionOf, Preparing;
    hide PromptFor, FreshPrompt, Fits, Refused;
    ghost var before := acc.log;
    ghost var e := Claude(site, tier, prompt, world.claude(|acc.log|));
    PreparesOwn(ActionOf(s), n, site, tier);
    PromptForFits(acc.ctx, acc.log, s, n, site, prompt);
    NextCallDue(acc.ctx, world, acc.log, s, n, e);
    ReadingsGrow(acc.log, e);
    r := acc.SpawnClaude(world, site, tier, prompt);
    if !Ends(e) {
      RoundAdvances(before, s, n, e);
    }
    if r.Err? {
      CutByWorker(acc.ctx, acc.log, r.error.site, r.error.cause);
    }
  }

  /** Render and spawn one Claude turn as the `n`-th call of a round. */
  method RunTurn(world: World, acc: RunAccum, site: TurnSite, tier: ModelTier,
                 body: Option<string>, fields: Fields, ghost s: SessionState, ghost n: nat)
    returns (r: Result<WorkerResult, DriveOutcome>)
    requires acc.Valid(world) && InRound(acc.log, s, n)
    requires n < |Script(ActionOf(s))| && Script(ActionOf(s))[n] == Turn(site, tier)
    requires site !in {Bootstrap, Compose} && BoundSession(acc.log).Some?
    requires body == BodyFor(acc.ctx, site, ActionOf(s)) && fields == FieldsFor(acc.ctx, acc.log, site)
    requires site == Submit ==> fields.artifactRef.Some?
    modifies acc`claudeUsage, acc`anyUsageUnparseable, acc`log
    ensures acc.Valid(world)
    ensures PolledKeys(acc.log) == old(PolledKeys(acc.log)) && LastRead(acc.log) == old(LastRead(acc.log))
    ensures old(acc.log) <= acc.log
    ensures DispatchPoll(acc.log) == Some(s)
    ensures r.Ok? ==> acc.log == old(acc.log) + [Last(acc.log)] && Last(acc.log).Claude?
                      && Last(acc.log).site == site && Last(acc.log).result == Ok(r.value) && |acc.log| > 2
                      && WorkerFailureOf(Last(acc.log)) == None
    ensures r.Ok? && !Ends(Last(acc.log)) ==> InRound(acc.log, s, n + 1)
    ensures r.Err? ==> Stop(acc.ctx, acc.log) == Some(r.error) && !r.error.LoopEnded?
  {
    hide Stop, Underway, Accounted, Unended, DispatchPoll, LastRead, RoundLength, PolledKeys, InRound, BoundSession;
    hide Script, ActionOf, Preparing, BodyFor, FieldsFor;
    RoundFacts(acc.log, s, n);
    PreparesOwn(ActionOf(s), n, site, tier);
    var prompt := Render(body, fields);
    if prompt.None? {
      BadTemplateStops(acc.ctx, acc.log, s, n, site);
      return Err(Invalid(BadTemplate));
    }
    r := SpawnInRound(world, acc, site, tier, Template(prompt.value), s, n);
  }

  /** List the staged drawers as the `n`-th call of a round. */
  method ListDrawersInRound(world: World, acc: RunAccum, after: int, ghost s: SessionState, ghost n: nat)
    returns (r: Result<Option<(string, int)>, DriveOutcome>)
    requires acc.Valid(world) && InRound(acc.log, s, n)
    requires n < |Script(ActionOf(s))| && Script(ActionOf(s))[n] == ListDrawers
    requires after == Watermark(acc.log) && Proceeds(acc.ctx, acc.log, ActionOf(s), n)
    modifies acc`log
    ensures acc.Valid(world)
    ensures PolledKeys(acc.log) == old(PolledKeys(acc.log)) && LastRead(acc.log) == old(LastRead(acc.log))
    ensures old(acc.log) <= acc.log
    ensures DispatchPoll(acc.log) == Some(s)
    ensures r.Ok? ==> InRound(acc.log, s, n + 1) && |acc.log| > 2
                      && acc.log == old(acc.log) + [Drawers(after, Ok(r.value))]
    ensures r.Err? ==> Stop(acc.ctx, acc.log) == Some(r.error) && !r.error.LoopEnded?
  {
    ghost var before, e := acc.log, Drawers(after, world.drawer(|acc.log|));
    NextCallDue(acc.ctx, world, acc.log, s, n, e);
    ReadingsGrow(acc.log, e);
    r := acc.NewestDraftDrawer(world, after);
    if r.Ok? {
      RoundAdvances(before, s, n, e);
    }
  }

  /** Read the row again before a submit; the pilot guard holds there as well. */
  method RereadInRound(world: World, acc: RunAccum, ghost s: SessionState, ghost n: nat)
    returns (r: Result<SessionState, DriveOutcome>)
    requires acc.Valid(world) && InRound(acc.log, s, n)
    requires n < |Script(ActionOf(s))| && Script(ActionOf(s))[n] == Reread
    requires ComposedRef(acc.log).Some?
    modifies acc`log
    ensures acc.Valid(world)
    ensures PolledKeys(acc.log) == old(PolledKeys(acc.log))
    ensures old(acc.log) <= acc.log
    ensures DispatchPoll(acc.log) == Some(s)
    ensures acc.log == old(acc.log) + [ReadAnswer(world, |old(acc.log)|, BeforeSubmit)]
    ensures r.Ok? ==> world.read(|old(acc.log)|) == Ok(r.value)
    ensures r.Ok? ==> InRound(acc.log, s, n + 1) && LastRead(acc.log) == Some(r.value)
                      && r.value.pilot == SUPPORTED_PILOT
    ensures r.Err? ==> Stop(acc.ctx, acc.log) == Some(r.error) && !r.error.LoopEnded?
  {
    ghost var before, e := acc.log, ReadAnswer(world, |acc.log|, BeforeSubmit);
    NextCallDue(acc.ctx, world, before, s, n, e);
    ReadingsGrow(before, e);
    r := acc.ReadState(world, BeforeSubmit);
    if r.Ok? {
      if r.value.pilot != SUPPORTED_PILOT {
        return Err(Invalid(UnsupportedPilot));
      }
      RoundAdvances(before, s, n, e);
    }
  }

  // what the call sites supply for the placeholders

  function SessionFields(sessionId: string, ctx: Context): Fields {
    NO_FIELDS.(sessionId := Some(sessionId), branch := Some(ctx.branch))
  }

  function TurnFields(sessionId: string, ctx: Context, site: TurnSite, sender: Agent): Fields {
    SessionFields(sessionId, ctx).(mode := ModeOf(site), topic := TopicOf(site), sender := Some(AgentName(sender)))
  }

  function FinalSubmitFields(sessionId: string, ctx: Context, sender: Agent): Fields {
    NO_FIELDS.(sessionId := Some(sessionId), prUrl := Some(SyntheticPr(ctx)), sender := Some(AgentName(sender)))
  }

  /** A compose turn's values are those of the polled row, before and after the listing. */
  lemma ComposeFields(ctx: Context, log: seq<Event>, longer: seq<Event>, sessionId: string, s: SessionState)
    requires log != [] && log <= longer && LastRead(longer) == Some(s) && BoundSession(log) == Some(sessionId)
    ensures BoundSession(longer) == Some(sessionId)
    ensures FieldsFor(ctx, longer, Compose) == TurnFields(sessionId, ctx, Compose, s.currentOwner)
  {
  }

  /** Note the newest staged drawer and run the compose turn: two calls. */
  method StageAndCompose(ctx: Context, world: World, acc: RunAccum, sessionId: string, s: SessionState)
    returns (r: Result<(int, WorkerResult), DriveOutcome>)
    requires acc.ctx == ctx
    requires acc.Valid(world) && InRound(acc.log, s, 0) && ActionOf(s).ClaudeCompose? && LastRead(acc.log) == Some(s)
    requires BoundSession(acc.log) == Some(sessionId)
    modifies acc`claudeUsage, acc`anyUsageUnparseable, acc`log
    ensures acc.Valid(world)
    ensures PolledKeys(acc.log) == old(PolledKeys(acc.log)) && DispatchPoll(acc.log) == Some(s)
    ensures old(acc.log) <= acc.log
    ensures LastRead(acc.log) == old(LastRead(acc.log))
    ensures r.Ok? ==> InRound(acc.log, s, 2) && Last(acc.log).Claude? && Last(acc.log).result == Ok(r.value.1)
                      && r.value.0 == Watermark(acc.log)
    ensures r.Err? ==> Stop(acc.ctx, acc.log) == Some(r.error) && !r.error.LoopEnded?
  {
    hide Stop, Underway, Accounted, Unended, DispatchPoll, LastRead, RoundLength, PolledKeys, InRound, ActionOf;
    hide FieldsFor, TurnFields, BoundSession, SyntheticPr;
    RoundFacts(acc.log, s, 0);
    ghost var before := acc.log;
    ComposeFields(ctx, before, before, sessionId, s);
    var action := ActionOf(s);
    var fields := TurnFields(sessionId, ctx, Compose, s.currentOwner);
    var prompt := Render(TemplateBody(ctx, action.template), fields);
    if prompt.None? {
      BadTemplateStops(ctx, acc.log, s, 0, Compose);
      return Err(Invalid(BadTemplate));
    }
    RoundOpens(acc.log, s);
    var staged := ListDrawersInRound(world, acc, MIN_ROWID, s, 0);
    if staged.Err? { return Err(staged.error); }
    ComposeFields(ctx, before, acc.log, sessionId, s);
    var composed := SpawnInRound(world, acc, Compose, action.model, Template(prompt.value), s, 1);
    if composed.Err? { return Err(composed.error); }
    return Ok((if staged.value.Some? then staged.value.value.1 else MIN_ROWID, composed.value));
  }

  /** Compose an artifact and find it: the first three calls of a compose round. */
  method ComposeArtifact(ctx: Context, world: World, acc: RunAccum, sessionId: string, s: SessionState)
    returns (r: Result<string, DriveOutcome>)
    requires acc.ctx == ctx
    requires acc.Valid(world) && InRound(acc.log, s, 0) && ActionOf(s).ClaudeCompose? && LastRead(acc.log) == Some(s)
    requires BoundSession(acc.log) == Some(sessionId)
    modifies acc`claudeUsage, acc`anyUsageUnparseable, acc`log
    ensures acc.Valid(world)
    ensures PolledKeys(acc.log) == old(PolledKeys(acc.log)) && DispatchPoll(acc.log) == Some(s)
    ensures old(acc.log) <= acc.log
    ensures r.Ok? ==> InRound(acc.log, s, 3) && |acc.log| >= 2
                      && acc.log[|acc.log| - 2].Claude? && acc.log[|acc.log| - 2].result.Ok?
                      && Last(acc.log).Drawers? && Last(acc.log).newest.Ok?
                      && Some(r.value) == ResolveComposeRef(Last(acc.log).newest.value,
                                                            acc.log[|acc.log| - 2].result.value.printed)
    ensures r.Err? ==> Stop(acc.ctx, acc.log) == Some(r.error) && !r.error.LoopEnded?
  {
    hide Stop, Underway, Accounted, Unended, DispatchPoll, LastRead, RoundLength, PolledKeys, InRound, ActionOf;
    RoundFacts(acc.log, s, 0);
    var composed := StageAndCompose(ctx, world, acc, sessionId, s);
    if composed.Err? { return Err(composed.error); }
    RoundFacts(acc.log, s, 2);
    var persisted := ListDrawersInRound(world, acc, composed.value.0, s, 2);
    if persisted.Err? { return Err(persisted.error); }
    var artifact := ResolveComposeRef(persisted.value, composed.value.1.printed);
    if artifact.None? {
      NoArtifactStops(ctx, acc.log, s);
      return Err(Invalid(NoArtifactRef));
    }
    return Ok(artifact.value);
  }

  /** Compose an artifact, find it, and submit it as the owner of a fresh read. */
  method ComposeAndSubmit(ctx: Context, world: World, acc: RunAccum, sessionId: string, s: SessionState)
    returns (r: Option<DriveOutcome>)
    requires acc.ctx == ctx
    requires acc.Valid(world) && InRound(acc.log, s, 0) && ActionOf(s).ClaudeCompose? && LastRead(acc.log) == Some(s)
    requires BoundSession(acc.log) == Some(sessionId)
    modifies acc`claudeUsage, acc`anyUsageUnparseable, acc`log
    ensures acc.Valid(world)
    ensures PolledKeys(acc.log) == old(PolledKeys(acc.log)) && DispatchPoll(acc.log) == Some(s)
    ensures old(acc.log) <= acc.log
    ensures r.None? ==> InRound(acc.log, s, |Script(ActionOf(s))|)
    ensures r.Some? ==> Stop(acc.ctx, acc.log) == Some(r.value) && !r.value.LoopEnded?
  {
    hide Stop, Underway, Accounted, Unended, DispatchPoll, LastRead, RoundLength, PolledKeys, InRound, ActionOf;
    RoundFacts(acc.log, s, 0);
    var artifact := ComposeArtifact(ctx, world, acc, sessionId, s);
    if artifact.Err? { return Some(artifact.error); }
    RoundFacts(acc.log, s, 3);
    var current := RereadInRound(world, acc, s, 3);
    if current.Err? { return Some(current.error); }
    var fields := TurnFields(sessionId, ctx, Submit, current.value.currentOwner).(artifactRef := Some(artifact.value));
    var submitted := RunTurn(world, acc, Submit, Sonnet, TemplateBody(ctx, "collab-turn-submit.md"), fields, s, 4);
    if submitted.Err? { return Some(submitted.error); }
    if submitted.value.printed.blocker.Some? {
      BlockerStops(acc.ctx, acc.log);
      return Some(Invalid(WorkerBlocked));
    }
    return None;
  }

  /** Compose the final review, then send it with the synthetic PR address. */
  method FinalReview(ctx: Context, world: World, acc: RunAccum, sessionId: string, s: SessionState)
    returns (r: Option<DriveOutcome>)
    requires acc.ctx == ctx
    requires acc.Valid(world) && InRound(acc.log, s, 0) && ActionOf(s) == FinalReviewSynthetic && LastRead(acc.log) == Some(s)
    requires BoundSession(acc.log) == Some(sessionId)
    modifies acc`claudeUsage, acc`anyUsageUnparseable, acc`log
    ensures acc.Valid(world)
    ensures PolledKeys(acc.log) == old(PolledKeys(acc.log)) && DispatchPoll(acc.log) == Some(s)
    ensures old(acc.log) <= acc.log
    ensures r.None? ==> InRound(acc.log, s, |Script(ActionOf(s))|)
    ensures r.Some? ==> Stop(acc.ctx, acc.log) == Some(r.value) && !r.value.LoopEnded?
  {
    hide Stop, Underway, Accounted, Unended, DispatchPoll, LastRead, RoundLength, PolledKeys, InRound, ActionOf;
    RoundFacts(acc.log, s, 0);
    var fields := TurnFields(sessionId, ctx, FinalCompose, s.currentOwner);
    var composed := RunTurn(world, acc, FinalCompose, Opus, TemplateBody(ctx, "collab-turn-final-review.md"), fields, s, 0);
    if composed.Err? { return Some(composed.error); }
    fields := FinalSubmitFields(sessionId, ctx, s.currentOwner);
    var submitted := RunTurn(world, acc, FinalSubmit, Sonnet, Some(ctx.syntheticFinalSubmit), fields, s, 1);
    return if submitted.Err? then Some(submitted.error) else None;
  }

  method BridgeTaskList(ctx: Context, world: World, acc: RunAccum, sessionId: string, s: SessionState)
    returns (r: Option<DriveOutcome>)
    requires acc.ctx == ctx
    requires acc.Valid(world) && InRound(acc.log, s, 0) && ActionOf(s) == TaskListBridge && LastRead(acc.log) == Some(s)
    requires BoundSession(acc.log) == Some(sessionId)
    modifies acc`claudeUsage, acc`anyUsageUnparseable, acc`log
    ensures acc.Valid(world)
    ensures PolledKeys(acc.log) == old(PolledKeys(acc.log)) && DispatchPoll(acc.log) == Some(s)
    ensures old(acc.log) <= acc.log
    ensures r.None? ==> InRound(acc.log, s, |Script(ActionOf(s))|)
    ensures r.Some? ==> Stop(acc.ctx, acc.log) == Some(r.value) && !r.value.LoopEnded?
  {
    hide Stop, Underway, Accounted, Unended, DispatchPoll, LastRead, RoundLength, PolledKeys, InRound, ActionOf;
    RoundFacts(acc.log, s, 0);
    var fields := SessionFields(sessionId, ctx).(sender := Some(AgentName(s.currentOwner)));
    var sent := RunTurn(world, acc, Bridge, Sonnet, TemplateBody(ctx, "collab-turn-task-list.md"), fields, s, 0);
    if sent.Err? { return Some(sent.error); }
    if sent.value.printed.blocker.Some? {
      BlockerStops(acc.ctx, acc.log);
      return Some(Invalid(WorkerBlocked));
    }
    return None;
  }

  method RunCodexTurn(world: World, acc: RunAccum, s: SessionState) returns (r: Option<DriveOutcome>)
    requires acc.Valid(world) && InRound(acc.log, s, 0) && ActionOf(s) == CodexTurn
    modifies acc`fixCommits, acc`log
    ensures acc.Valid(world)
    ensures PolledKeys(acc.log) == old(PolledKeys(acc.log)) && DispatchPoll(acc.log) == Some(s)
    ensures old(acc.log) <= acc.log
    ensures r.None? ==> InRound(acc.log, s, |Script(ActionOf(s))|)
    ensures r.Some? ==> Stop(acc.ctx, acc.log) == Some(r.value) && !r.value.LoopEnded?
  {
    ghost var before, e := acc.log, Codex(world.codex(|acc.log|));
    NextCallDue(acc.ctx, world, before, s, 0, e);
    ReadingsGrow(before, e);
    var turn := acc.SpawnCodex(world, s.phase);
    if turn.Err? { return Some(turn.error); }
    RoundAdvances(before, s, 0, e);
    return None;
  }

  /** Dispatch one action on the row just polled. */
  method DispatchAction(ctx: Context, world: World, acc: RunAccum, sessionId: string,
                        s: SessionState, action: WorkerAction)
    returns (r: Option<DriveOutcome>)
    requires acc.ctx == ctx
    requires acc.Valid(world) && InRound(acc.log, s, 0) && action == ActionOf(s) && LastRead(acc.log) == Some(s)
    requires BoundSession(acc.log) == Some(sessionId)
    modifies acc`claudeUsage, acc`anyUsageUnparseable, acc`fixCommits, acc`log
    ensures acc.Valid(world)
    ensures PolledKeys(acc.log) == old(PolledKeys(acc.log)) && DispatchPoll(acc.log) == Some(s)
    ensures old(acc.log) <= acc.log
    ensures r.None? ==> InRound(acc.log, s, |Script(action)|)
    ensures r.Some? ==> Stop(acc.ctx, acc.log) == Some(r.value) && !r.value.LoopEnded?
  {
    hide Stop, Underway, Accounted, Unended, DispatchPoll, LastRead, RoundLength, PolledKeys, InRound, ActionOf;
    RoundFacts(acc.log, s, 0);
    match action {
      case ClaudeSend(template, model) =>
        var fields := TurnFields(sessionId, ctx, Send, s.currentOwner);
        var sent := RunTurn(world, acc, Send, model, TemplateBody(ctx, template), fields, s, 0);
        return if sent.Err? then Some(sent.error) else None;
      case ClaudeCompose(_, _) =>
        r := ComposeAndSubmit(ctx, world, acc, sessionId, s);
      case TaskListBridge =>
        r := BridgeTaskList(ctx, world, acc, sessionId, s);
      case ClaudeRecoveryFixGlobal =>
        var fixedGlobal := RunTurn(world, acc, RecoveryFix, Opus, Some(ctx.recoveryFixGlobal),
                                   SessionFields(sessionId, ctx), s, 0);
        return if fixedGlobal.Err? then Some(fixedGlobal.error) else None;
      case CodexTurn =>
        r := RunCodexTurn(world, acc, s);
      case FinalReviewSynthetic =>
        r := FinalReview(ctx, world, acc, sessionId, s);
      case Terminal => assert false;
      case Anomaly => assert false;
    }
  }

  /** The two calls before the loop: a bootstrap turn, then the bind-time poll. */
  lemma Bootstrapped(ctx: Context, world: World, e: Event)
    requires e.Claude? && e.site == Bootstrap && e.tier == Sonnet
    ensures e.prompt == Raw(ctx.bootstrapPrompt) && Answers(world, 0, e) ==> Due(ctx, world, [], e)
    ensures PolledKeys([e]) == [] && DispatchPoll([e]) == None && Last([e]) == e
    ensures WorkerFailureOf(e).Some? ==> Stop(ctx, [e]) == AnswerStop(e)
    ensures WorkerFailureOf(e).None? ==>
              if BoundSession([e]) == None then Stop(ctx, [e]) == Some(Invalid(NoSessionId))
              else Due(ctx, world, [e], ReadAnswer(world, 1, LoopPoll))
  {
    assert [e][..0] == [];
    assert DispatchPoll([e]) == DispatchPoll([]);
    assert PolledKeys([e]) == PolledKeys([]);
    assert Unended([]) && (Unended([e]) <==> !Ends(e));
  }

  lemma Bound(ctx: Context, e: Event, s: SessionState)
    requires e.Claude? && e.site == Bootstrap && !Ends(e)
    ensures var log := [e] + [Poll(LoopPoll, s)];
            && Unended(log) && DispatchPoll(log) == LastRead(log) == Some(s)
            && RoundLength(log) == 0 && PolledKeys(log) == [KeyOf(s)] && BoundSession(log) == BoundSession([e])
            && (s.pilot != SUPPORTED_PILOT ==> Stop(ctx, log) == Some(Invalid(UnsupportedPilot)))
  {
    var log := [e] + [Poll(LoopPoll, s)];
    assert Unended([]) && PolledKeys([]) == [];
    assert log[0] == e;
    hide Stop, Unended, DispatchPoll, LastRead, RoundLength, PolledKeys, Ends;
    assert [] + [e] == [e];
    LogGrows([], e);
    ReadingsGrow([], e);
    LogGrows([e], Poll(LoopPoll, s));
    ReadingsGrow([e], Poll(LoopPoll, s));
    RejectedPollStops(ctx, log, s);
  }

  lemma UnreadableStops(ctx: Context, log: seq<Event>)
    ensures Stop(ctx, log + [PollFailed]) == Some(Invalid(UnreadableState))
    ensures PolledKeys(log + [PollFailed]) == PolledKeys(log)
  {
    ReadingsGrow(log, PollFailed);
  }

  /** Bootstrap the session: one Claude turn, a session id, and the bind-time read. */
  method BindSession(ctx: Context, world: World, acc: RunAccum)
    returns (r: Result<(string, SessionState), DriveOutcome>)
    requires acc.ctx == ctx
    requires acc.Valid(world) && acc.log == []
    modifies acc`claudeUsage, acc`anyUsageUnparseable, acc`log
    ensures acc.Valid(world)
    ensures |PolledKeys(acc.log)| <= 1
    ensures r.Ok? ==> && |acc.log| == 2 && Unended(acc.log) && BoundSession(acc.log) == Some(r.value.0)
                      && DispatchPoll(acc.log) == LastRead(acc.log) == Some(r.value.1)
                      && RoundLength(acc.log) == 0 && PolledKeys(acc.log) == [KeyOf(r.value.1)]
                      && r.value.1.pilot == SUPPORTED_PILOT
    ensures r.Err? ==> Stop(acc.ctx, acc.log) == Some(r.error) && !r.error.LoopEnded?
    ensures r.Err? && r.error.WorkerFailed? ==> DispatchPoll(acc.log) == None
  {
    hide Underway, Lawful, Due, Stop, Accounted, Unended, DispatchPoll, LastRead, RoundLength, PolledKeys;
    ghost var e := Claude(Bootstrap, Sonnet, Raw(ctx.bootstrapPrompt), world.claude(0));
    Bootstrapped(ctx, world, e);
    var boot := acc.SpawnClaude(world, Bootstrap, Sonnet, Raw(ctx.bootstrapPrompt));
    assert acc.log == [e];
    if boot.Err? { return Err(boot.error); }
    var sessionId := boot.value.printed.sessionId;
    if sessionId.None? { return Err(Invalid(NoSessionId)); }
    var bound := acc.ReadState(world, LoopPoll);
    if bound.Err? {
      UnreadableStops(ctx, [e]);
      return Err(bound.error);
    }
    Bound(ctx, e, bound.value);
    if bound.value.pilot != SUPPORTED_PILOT { return Err(Invalid(UnsupportedPilot)); }
    return Ok((sessionId.value, bound.value));
  }

  lemma RejectedPollStops(ctx: Context, log: seq<Event>, s: SessionState)
    requires log != [] && Last(log) == Poll(LoopPoll, s)
    ensures s.pilot != SUPPORTED_PILOT ==> Stop(ctx, log) == Some(Invalid(UnsupportedPilot))
    ensures s.pilot == SUPPORTED_PILOT && TrailingRun(PolledKeys(log)) > STUCK_LIMIT
            ==> Stop(ctx, log) == Some(Invalid(Stalled))
  {
  }

  lemma ExhaustionStops(ctx: Context, log: seq<Event>, s: SessionState)
    requires InRound(log, s, |Script(ActionOf(s))|)
    ensures Stop(ctx, log) == if |PolledKeys(log)| == MAX_TURNS then Some(LoopEnded) else None
  {
    hide AnswerStop, ComposedRef, PolledKeys, LastRead, RoundLength, DispatchPoll;
    LastIsHarmless(log);
  }

  /** The dispatcher loop: the bound row first, then one fresh poll a turn. */
  method DriveCollabLoop(ctx: Context, world: World, acc: RunAccum) returns (outcome: DriveOutcome)
    requires acc.ctx == ctx
    requires acc.Valid(world) && acc.log == [] && acc.lastState == None
    modifies acc
    ensures acc.Valid(world) && Run(ctx, world, acc.log, outcome)
    ensures !outcome.Invalid? ==> acc.lastState == DispatchPoll(acc.log)
  {
    hide Stop, Underway, Accounted, Unended, DispatchPoll, LastRead, RoundLength, PolledKeys, InRound, ActionOf;
    var bind := BindSession(ctx, world, acc);
    if bind.Err? { return bind.error; }
    var sessionId := bind.value.0;
    var bound: Option<SessionState> := Some(bind.value.1);
    var stallKey: Option<StallKey> := None;
    var stallCount := 0;
    for turn := 0 to MAX_TURNS
      invariant acc.Valid(world) && Unended(acc.log) && |acc.log| >= 2 && BoundSession(acc.log) == Some(sessionId)
      invariant bound.Some? <==> turn == 0
      invariant turn == 0 ==> && DispatchPoll(acc.log) == LastRead(acc.log) == bound && RoundLength(acc.log) == 0
                              && PolledKeys(acc.log) == [KeyOf(bound.value)] && stallKey == None
                              && bound.value.pilot == SUPPORTED_PILOT
      invariant turn > 0 ==> && acc.lastState.Some? && acc.lastState == DispatchPoll(acc.log)
                             && InRound(acc.log, acc.lastState.value, |Script(ActionOf(acc.lastState.value))|)
                             && |PolledKeys(acc.log)| == turn && stallKey == Some(Last(PolledKeys(acc.log)))
                             && stallCount + 1 == TrailingRun(PolledKeys(acc.log)) <= STUCK_LIMIT
    {
      ghost var keys := PolledKeys(acc.log);
      var state: SessionState;
      if bound.Some? {
        state, bound := bound.value, None;
      } else {
        var polled := PollAgain(world, acc, acc.lastState.value);
        if polled.Err? { return polled.error; }
        state := polled.value;
        RunExtends(keys, KeyOf(state));
        RejectedPollStops(ctx, acc.log, state);
      }
      if state.pilot != SUPPORTED_PILOT { return Invalid(UnsupportedPilot); }
      if stallKey == Some(KeyOf(state)) {
        stallCount := stallCount + 1;
        if stallCount >= STUCK_LIMIT { return Invalid(Stalled); }
      } else {
        stallCount, stallKey := 0, Some(KeyOf(state));
      }
      assert stallCount + 1 == TrailingRun(PolledKeys(acc.log));
      acc.lastState := Some(state);
      var stopped := TakeTurn(ctx, world, acc, sessionId, state);
      if stopped.Some? { return stopped.value; }
    }
    ExhaustionStops(ctx, acc.log, acc.lastState.value);
    return LoopEnded;
  }

  lemma RunExtends(keys: seq<StallKey>, key: StallKey)
    requires keys != []
    ensures TrailingRun(keys + [key]) == if key == Last(keys) then TrailingRun(keys) + 1 else 1
  {
    assert (keys + [key])[..|keys|] == keys;
  }

  /** Poll the row once a round is complete. */
  method PollAgain(world: World, acc: RunAccum, ghost s: SessionState) returns (r: Result<SessionState, DriveOutcome>)
    requires acc.Valid(world) && InRound(acc.log, s, |Script(ActionOf(s))|) && |PolledKeys(acc.log)| < MAX_TURNS
    modifies acc`log
    ensures acc.Valid(world) && |acc.log| > 2 && old(acc.log) <= acc.log
    ensures acc.log == old(acc.log) + [ReadAnswer(world, |old(acc.log)|, LoopPoll)]
    ensures r.Ok? ==> && Unended(acc.log) && Last(acc.log) == Poll(LoopPoll, r.value)
                      && DispatchPoll(acc.log) == LastRead(acc.log) == Some(r.value) && RoundLength(acc.log) == 0
                      && PolledKeys(acc.log) == old(PolledKeys(acc.log)) + [KeyOf(r.value)]
    ensures r.Err? ==> r.error.Invalid? && Stop(acc.ctx, acc.log) == Some(r.error)
  {
    hide Stop, Underway, Accounted, DispatchPoll, LastRead, RoundLength, PolledKeys;
    ghost var before, e := acc.log, ReadAnswer(world, |acc.log|, LoopPoll);
    ExhaustionStops(acc.ctx, before, s);
    ReadingsGrow(before, e);
    LogGrows(before, e);
    UnreadableStops(acc.ctx, before);
    r := acc.ReadState(world, LoopPoll);
  }

  /** Act on a polled row that passed the pilot and stall guards. */
  method TakeTurn(ctx: Context, world: World, acc: RunAccum, sessionId: string, s: SessionState)
    returns (r: Option<DriveOutcome>)
    requires acc.ctx == ctx
    requires acc.Valid(world) && Unended(acc.log) && |acc.log| >= 2
    requires DispatchPoll(acc.log) == LastRead(acc.log) == Some(s) && RoundLength(acc.log) == 0
    requires s.pilot == SUPPORTED_PILOT && TrailingRun(PolledKeys(acc.log)) <= STUCK_LIMIT
    requires BoundSession(acc.log) == Some(sessionId)
    modifies acc`claudeUsage, acc`anyUsageUnparseable, acc`fixCommits, acc`log
    ensures acc.Valid(world)
    ensures PolledKeys(acc.log) == old(PolledKeys(acc.log)) && DispatchPoll(acc.log) == Some(s)
    ensures old(acc.log) <= acc.log
    ensures r.None? ==> InRound(acc.log, s, |Script(ActionOf(s))|)
    ensures r.Some? ==> Stop(acc.ctx, acc.log) == Some(r.value)
  {
    var action := ActionOf(s);
    ActionAgentIsOwner(s);
    LastIsHarmless(acc.log);
    if action == Terminal { return Some(LoopEnded); }
    if action == Anomaly { return Some(Invalid(UnexpectedPair)); }
    r := DispatchAction(ctx, world, acc, sessionId, s, action);
  }
}
