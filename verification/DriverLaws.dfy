/** What the discipline of `CollabDriver` means for every run: dispatch safety,
    bounded work, an exact stall guard. Each law is about an arbitrary lawful log. */
module DriverLaws {
  import opened Std
  import opened Tokens
  import opened Dispatch
  import opened WorkerPrompt
  import R = PromptRender
  import opened CollabDriver

  lemma {:induction false} LawfulAt(log: seq<Event>, i: nat)
    requires Lawful(log) && i < |log|
    ensures Lawful(log[..i]) && Permitted(log[..i], log[i])
  {
    if i < |log| - 1 {
      LawfulAt(log[..|log| - 1], i);
      assert log[..|log| - 1][..i] == log[..i];
    }
  }

  /** `j` is the position of the last loop poll. */
  lemma {:induction false} DispatchPollAt(log: seq<Event>) returns (j: nat)
    requires DispatchPoll(log).Some?
    ensures j < |log| && log[j] == Poll(LoopPoll, DispatchPoll(log).value)
    ensures forall k | j < k < |log| :: !(log[k].Poll? && log[k].read == LoopPoll)
    ensures RoundLength(log) == |log| - 1 - j
  {
    if Last(log).Poll? && Last(log).read == LoopPoll {
      j := |log| - 1;
    } else {
      j := DispatchPollAt(log[..|log| - 1]);
    }
  }

  /** `j` is the position of the most recent read, at either site. */
  lemma {:induction false} LastReadAt(log: seq<Event>) returns (j: nat)
    requires LastRead(log).Some?
    ensures j < |log| && log[j].Poll? && log[j].state == LastRead(log).value
    ensures forall k | j < k < |log| :: !log[k].Poll?
  {
    if Last(log).Poll? {
      j := |log| - 1;
    } else {
      j := LastReadAt(log[..|log| - 1]);
    }
  }

  ghost predicate InLoopTurn(e: Event) {
    e.Codex? || (e.Claude? && e.site != Bootstrap)
  }

  lemma ScriptAgent(action: WorkerAction, n: nat, e: Event)
    requires n < |Script(action)| && Makes(Script(action)[n], e)
    ensures e.Codex? ==> action == CodexTurn
    ensures e.Claude? ==> action != CodexTurn
  {
  }

  lemma TurnIsScripted(prefix: seq<Event>, e: Event)
    requires Permitted(prefix, e) && InLoopTurn(e)
    ensures DispatchPoll(prefix).Some?
    ensures var s, n := DispatchPoll(prefix).value, RoundLength(prefix);
            && s.pilot == SUPPORTED_PILOT && ActionOf(s) !in {Terminal, Anomaly}
            && n < |Script(ActionOf(s))| && Makes(Script(ActionOf(s))[n], e)
            && s.currentOwner == (if e.Codex? then CodexAgent else ClaudeAgent)
    ensures e.Claude? ==> FreshPrompt(prefix, e.site, e.prompt)
  {
    hide RoundLength, DispatchPoll, FreshPrompt, Makes, Unended, Script, ActionFor;
    if DispatchPoll(prefix).Some? {
      ScriptAgent(ActionOf(DispatchPoll(prefix).value), RoundLength(prefix), e);
      ActionAgentIsOwner(DispatchPoll(prefix).value);
    }
  }

  /** Every in-loop turn answers a loop poll (the one at `j`) with the supported
      pilot, is run by that poll's owner, is the next call of that poll's action,
      and is never spawned for an unexpected or finished pair. */
  lemma DispatchIsSafe(log: seq<Event>, i: nat) returns (j: nat)
    requires Lawful(log) && i < |log| && InLoopTurn(log[i])
    ensures j < i && log[j].Poll? && log[j].read == LoopPoll
    ensures forall k | j < k < i :: !(log[k].Poll? && log[k].read == LoopPoll)
    ensures var s, n := log[j].state, i - 1 - j;
            && s.pilot == SUPPORTED_PILOT && ActionOf(s) !in {Terminal, Anomaly}
            && s.currentOwner == (if log[i].Codex? then CodexAgent else ClaudeAgent)
            && n < |Script(ActionOf(s))| && Makes(Script(ActionOf(s))[n], log[i])
  {
    hide Lawful, Permitted, DispatchPoll, RoundLength, Script, ActionOf;
    LawfulAt(log, i);
    TurnIsScripted(log[..i], log[i]);
    j := DispatchPollAt(log[..i]);
    assert log[..i][j] == log[j];
    assert forall k | j < k < i :: log[k] == log[..i][k];
  }

  /** Every rendered prompt is complete and for the session the bootstrap turn
      printed, and its `$SENDER` is the owner in the most
      recent read before the turn (at `j`), whose pilot is the supported one. */
  lemma SenderIsFresh(log: seq<Event>, i: nat) returns (j: nat)
    requires Lawful(log) && i < |log| && log[i].Claude? && log[i].site != Bootstrap
    ensures j < i && log[j].Poll? && forall k | j < k < i :: !log[k].Poll?
    ensures log[j].state.pilot == SUPPORTED_PILOT
    ensures log[i].prompt.Template? && R.NoneLive(log[i].prompt.rendered.text)
    ensures log[i].prompt.rendered.fields.sender
            == if log[i].site == RecoveryFix then None else Some(AgentName(log[j].state.currentOwner))
    ensures log[i].prompt.rendered.fields.sessionId == BoundSession(log) != None
  {
    hide Lawful, Permitted, DispatchPoll, RoundLength, LastRead, Script, ActionOf;
    LawfulAt(log, i);
    TurnIsScripted(log[..i], log[i]);
    j := LastReadAt(log[..i]);
    assert log[..i][j] == log[j];
    assert forall k | j < k < i :: log[k] == log[..i][k];
  }

  lemma ScriptSites(action: WorkerAction, n: nat, e: Event)
    requires n < |Script(action)| && Makes(Script(action)[n], e) && e.Claude?
    ensures if e.site == Submit then n == 4 else n <= 1
    ensures n == 1 ==> Script(action)[0] != Reread
  {
  }

  /** When a Claude turn sends as `claude`: exactly if it is no submit, or the row read
      just before the submit is owned by `claude`. (The recovery prompt has no sender.) */
  lemma SenderIsClaudeExactly(log: seq<Event>, i: nat)
    requires Lawful(log) && i < |log| && log[i].Claude? && log[i].site !in {Bootstrap, RecoveryFix}
    ensures i >= 1 && (log[i].site == Submit ==> log[i - 1].Poll?)
    ensures log[i].prompt.Template?
    ensures log[i].prompt.rendered.fields.sender == Some("claude")
            <==> log[i].site != Submit || AgentName(log[i - 1].state.currentOwner) == "claude"
  {
    hide Lawful, Permitted, DispatchPoll, RoundLength, LastRead, Script, ActionOf, Makes, AgentName;
    var latest := SenderIsFresh(log, i);
    if log[i].site == Submit {
      SubmitFollowsCompose(log, i);
      assert latest == i - 1;
    } else {
      var j := DispatchIsSafe(log, i);
      OnlyReadOfRound(log, i, j);
      assert latest == j;
      NamesClaude();
    }
  }

  lemma NamesClaude()
    ensures AgentName(ClaudeAgent) == "claude"
  {
  }

  /** Before any turn but a submit, the dispatching poll is still the last read. */
  lemma OnlyReadOfRound(log: seq<Event>, i: nat, j: nat)
    requires Lawful(log) && i < |log| && log[i].Claude? && log[i].site !in {Bootstrap, Submit}
    requires j < i && log[j].Poll? && log[j].read == LoopPoll
    requires i - 1 - j < |Script(ActionOf(log[j].state))| && Makes(Script(ActionOf(log[j].state))[i - 1 - j], log[i])
    requires forall k | j < k < i :: !(log[k].Poll? && log[k].read == LoopPoll)
    ensures forall k | j < k < i :: !log[k].Poll?
  {
    hide Lawful, DispatchPoll, RoundLength, Script, ActionOf;
    var s, n := log[j].state, i - 1 - j;
    ScriptSites(ActionOf(s), n, log[i]);
    if n == 1 {
      PolledAt(log[..i], j);
      EarlierCall(log, i, s, 1, 1);
    }
  }

  lemma {:induction false} PolledAt(log: seq<Event>, j: nat)
    requires j < |log| && log[j].Poll? && log[j].read == LoopPoll
    requires forall k | j < k < |log| :: !(log[k].Poll? && log[k].read == LoopPoll)
    ensures DispatchPoll(log) == Some(log[j].state) && RoundLength(log) == |log| - 1 - j
  {
    if j < |log| - 1 {
      PolledAt(log[..|log| - 1], j);
    }
  }

  // A submit that sends as `codex`.

  /** One more call of a round, with everything the log keeps. */
  lemma NextInRound(ctx: Context, world: World, log: seq<Event>, s: SessionState, n: nat, e: Event)
    requires Underway(ctx, world, log) && InRound(log, s, n)
    requires n < |Script(ActionOf(s))| && Proceeds(ctx, log, ActionOf(s), n)
    requires Makes(Script(ActionOf(s))[n], e) && Answers(world, |log|, e)
    requires !Ends(e) && (e.Poll? ==> e.state.pilot == SUPPORTED_PILOT)
    requires e.Claude? ==> FreshPrompt(log, e.site, e.prompt) && Fits(ctx, log, e.site, e.prompt)
    requires e.Drawers? ==> e.after == Watermark(log)
    ensures Underway(ctx, world, log + [e]) && InRound(log + [e], s, n + 1)
    ensures LastRead(log + [e]) == (if e.Poll? then Some(e.state) else LastRead(log))
    ensures BoundSession(log + [e]) == BoundSession(log) && DispatchPoll(log + [e]) == Some(s)
  {
    hide Lawful, InContext, AnsweredBy, Makes, FreshPrompt, Fits, Proceeds, Script, ActionOf, LastRead, Ends, Due;
    NextCallDue(ctx, world, log, s, n, e);
    RoundAdvances(log, s, n, e);
    ReadingsGrow(log, e);
    RunGrows(ctx, world, log, e);
  }

  /** The prompt of a turn from an empty template. */
  lemma EmptyPrompt(f: Fields) returns (p: Prompt)
    ensures p.Template? && p.rendered.body == "" && p.rendered.fields == f
  {
    EmptyIsRendered(f);
    p := Template(Parts("", f, ""));
  }

  lemma Opening(ctx: Context, world: World, boot: Event, s: SessionState)
    requires boot.Claude? && boot.site == Bootstrap && boot.tier == Sonnet && boot.prompt == Raw(ctx.bootstrapPrompt)
    requires !Ends(boot) && BoundSession([boot]).Some? && Answers(world, 0, boot) && world.read(1) == Ok(s)
    requires s.pilot == SUPPORTED_PILOT && ActionOf(s) !in {Terminal, Anomaly}
    ensures var log := [boot] + [Poll(LoopPoll, s)];
            && Underway(ctx, world, log) && InRound(log, s, 0) && LastRead(log) == Some(s)
            && DispatchPoll(log) == Some(s) && BoundSession(log) == BoundSession([boot])
  {
    hide ActionOf, Due;
    Bootstrapped(ctx, world, boot);
    Bound(ctx, boot, s);
    assert [] + [boot] == [boot];
    RunGrows(ctx, world, [], boot);
    RunGrows(ctx, world, [boot], Poll(LoopPoll, s));
  }

  /** It happens: Codex becomes the owner while a Claude compose turn runs, and the
      Claude worker that submits is told to send as `codex`. */
  lemma CodexSubmitExample() returns (ctx: Context, world: World, log: seq<Event>)
    ensures Underway(ctx, world, log) && |log| == 7
    ensures log[1].Poll? && log[1].read == LoopPoll && log[1].state.currentOwner == ClaudeAgent
    ensures log[1].state.phase == PlanClaudeFinalizePending
    ensures log[5].Poll? && log[5].read == BeforeSubmit && log[5].state.currentOwner == CodexAgent
    ensures log[6].Claude? && log[6].site == Submit && log[6].prompt.Template?
    ensures log[6].prompt.rendered.fields.sender == Some("codex")
  {
    ctx := Context("t", "b", "", map["collab-turn-plan-finalize.md" := "", "collab-turn-submit.md" := ""], "", "");
    var s := SessionState(PlanClaudeFinalizePending, ClaudeAgent, ClaudeAgent, 0, 0, NO_RECOVERY);
    var worker := WorkerResult(NO_USAGE, "", Sentinels(Some("s"), Some("a"), None), false, false);
    world := World(n => Ok(worker), n => Ok(0), n => Ok(if n == 1 then s else s.(currentOwner := CodexAgent)),
                   n => Ok(None), Ok(NO_USAGE));
    var boot := Claude(Bootstrap, Sonnet, Raw(""), Ok(worker));
    assert ActionOf(s) == ClaudeCompose("collab-turn-plan-finalize.md", Opus);
    Opening(ctx, world, boot, s);
    log := [boot] + [Poll(LoopPoll, s)];
    log := ComposedExample(ctx, world, log, s, worker);
    log := SubmittedExample(ctx, world, log, s, worker);
  }

  /** A prompt for a turn whose template is empty. */
  lemma EmptyPromptFor(ctx: Context, log: seq<Event>, s: SessionState, n: nat, site: TurnSite) returns (p: Prompt)
    requires InRound(log, s, n) && BodyFor(ctx, site, ActionOf(s)) == Some("") && BoundSession(log).Some?
    requires site == Submit ==> FieldsFor(ctx, log, site).artifactRef.Some?
    ensures FreshPrompt(log, site, p) && Fits(ctx, log, site, p) && PromptFor(ctx, log, s, site, p)
    ensures !Refused(ctx, log, ActionOf(s), site)
  {
    hide InRound, FreshPrompt, Fits, Refused;
    p := EmptyPrompt(FieldsFor(ctx, log, site));
    PromptForFits(ctx, log, s, n, site, p);
  }

  /** The compose half of the example round. */
  lemma ComposedExample(ctx: Context, world: World, before: seq<Event>, s: SessionState, worker: WorkerResult)
    returns (log: seq<Event>)
    requires Underway(ctx, world, before) && InRound(before, s, 0) && |before| == 2
    requires LastRead(before) == DispatchPoll(before) == Some(s) && BoundSession(before) == Some("s")
    requires ActionOf(s) == ClaudeCompose("collab-turn-plan-finalize.md", Opus)
    requires "collab-turn-plan-finalize.md" in ctx.templates && ctx.templates["collab-turn-plan-finalize.md"] == "" && !worker.isError
    requires world.claude(3) == Ok(worker) && world.drawer(2) == world.drawer(4) == Ok(None)
    ensures Underway(ctx, world, log) && InRound(log, s, 3) && BoundSession(log) == Some("s")
    ensures LastRead(log) == DispatchPoll(log) == Some(s)
    ensures |log| == 5 && log[..2] == before && log[4] == Drawers(MIN_ROWID, Ok(None))
    ensures log[3].Claude? && log[3].result == Ok(worker)
  {
    hide Underway, LastRead, DispatchPoll, RoundLength, InRound, ActionOf, FreshPrompt, Fits, Refused, PromptFor;
    RoundOpens(before, s);
    var listing := Drawers(MIN_ROWID, Ok(None));
    var _ := EmptyPromptFor(ctx, before, s, 0, Compose);
    NextInRound(ctx, world, before, s, 0, listing);
    log := before + [listing];
    var prompt := EmptyPromptFor(ctx, log, s, 1, Compose);
    var turn := Claude(Compose, Opus, prompt, Ok(worker));
    NextInRound(ctx, world, log, s, 1, turn);
    log := log + [turn];
    NextInRound(ctx, world, log, s, 2, listing);
    log := log + [listing];
  }

  /** Its submit half, after the owner has changed. */
  lemma SubmittedExample(ctx: Context, world: World, before: seq<Event>, s: SessionState, worker: WorkerResult)
    returns (log: seq<Event>)
    requires Underway(ctx, world, before) && InRound(before, s, 3) && BoundSession(before) == Some("s")
    requires |before| == 5 && before[3].Claude? && before[3].result == Ok(worker) && before[4] == Drawers(MIN_ROWID, Ok(None))
    requires DispatchPoll(before) == Some(s)
    requires ActionOf(s) == ClaudeCompose("collab-turn-plan-finalize.md", Opus) && s.pilot == ClaudeAgent
    requires "collab-turn-submit.md" in ctx.templates && ctx.templates["collab-turn-submit.md"] == ""
    requires !worker.isError && worker.printed.artifactRef == Some("a") && worker.printed.blocker == None
    requires world.read(5) == Ok(s.(currentOwner := CodexAgent)) && world.claude(6) == Ok(worker)
    ensures Underway(ctx, world, log) && |log| == 7 && log[..5] == before
    ensures log[5] == Poll(BeforeSubmit, s.(currentOwner := CodexAgent))
    ensures log[6].Claude? && log[6].site == Submit && log[6].prompt.Template?
    ensures log[6].prompt.rendered.fields.sender == Some("codex")
  {
    hide Underway, LastRead, DispatchPoll, RoundLength, InRound, ActionOf, FreshPrompt, Fits, Refused;
    var reread := Poll(BeforeSubmit, s.(currentOwner := CodexAgent));
    NextInRound(ctx, world, before, s, 3, reread);
    log := before + [reread];
    assert log[..5] == before;
    var prompt := EmptyPromptFor(ctx, log, s, 4, Submit);
    var turn := Claude(Submit, Sonnet, prompt, Ok(worker));
    NextInRound(ctx, world, log, s, 4, turn);
    log := log + [turn];
  }

  /** Every prompt is rendered from the template its turn calls for, on the run's
      branch (the final submit has the synthetic PR address instead). */
  lemma {:induction false} PromptFits(ctx: Context, log: seq<Event>, i: nat)
    requires InContext(ctx, log) && i < |log| && log[i].Claude?
    ensures Fits(ctx, log[..i], log[i].site, log[i].prompt)
  {
    hide Fits, Stop;
    if i < |log| - 1 {
      PromptFits(ctx, log[..|log| - 1], i);
      assert log[..|log| - 1][..i] == log[..i];
    }
  }

  lemma ListsPastWatermark(log: seq<Event>, at: nat)
    requires Lawful(log) && at < |log| && log[at].Drawers?
    ensures log[at].after == Watermark(log[..at])
  {
    hide Lawful, DispatchPoll, RoundLength, ActionOf, Script, FreshPrompt, Unended;
    LawfulAt(log, at);
  }

  /** A submit follows its own compose turn, a listing of the drawers past the newest
      one listed before that turn, and a fresh read; it carries the artifact that
      compose turn produced. */
  lemma {:induction false} SubmitFollowsCompose(log: seq<Event>, i: nat)
    requires Lawful(log) && i < |log| && log[i].Claude? && log[i].site == Submit
    ensures i >= 5
    ensures log[i - 3].Claude? && log[i - 3].site == Compose && log[i - 3].result.Ok?
    ensures log[i - 2].Drawers? && log[i - 2].newest.Ok? && log[i - 4].Drawers? && log[i - 4].newest.Ok?
    ensures log[i - 2].after == if log[i - 4].newest.value.Some? then log[i - 4].newest.value.value.1 else MIN_ROWID
    ensures log[i - 1].Poll? && log[i - 1].read == BeforeSubmit
    ensures log[i].prompt.Template? && log[i].prompt.rendered.fields.artifactRef.Some?
    ensures log[i].prompt.rendered.fields.artifactRef
            == if log[i - 2].newest.value.Some? then Some(log[i - 2].newest.value.value.0)
               else log[i - 3].result.value.printed.artifactRef
  {
    hide Lawful, Permitted, DispatchPoll, RoundLength, LastRead, ActionOf;
    LawfulAt(log, i);
    var prefix := log[..i];
    TurnIsScripted(prefix, log[i]);
    var s, n := DispatchPoll(prefix).value, RoundLength(prefix);
    var script := Script(ActionOf(s));
    assert Makes(script[n], log[i]);
    assert n == 4 && ActionOf(s).ClaudeCompose?;
    EarlierCall(log, i, s, 4, 1);
    EarlierCall(log, i, s, 4, 2);
    EarlierCall(log, i, s, 4, 3);
    EarlierCall(log, i, s, 4, 4);
    ListsPastWatermark(log, i - 2);
    assert prefix[i - 3] == log[i - 3] && prefix[i - 2] == log[i - 2];
  }

  lemma CallIsScripted(prefix: seq<Event>, e: Event, s: SessionState, n: nat)
    requires Permitted(prefix, e) && DispatchPoll(prefix) == Some(s) && RoundLength(prefix) == n
    requires n < |Script(ActionOf(s))|
    ensures Makes(Script(ActionOf(s))[n], e) && Unended(prefix)
  {
  }

  /** Inside a round, the call `back` places earlier is the script's call as well. */
  lemma {:induction false} EarlierCall(log: seq<Event>, i: nat, s: SessionState, n: nat, back: nat)
    requires Lawful(log) && i < |log| && DispatchPoll(log[..i]) == Some(s) && RoundLength(log[..i]) == n
    requires 1 <= back <= n < |Script(ActionOf(s))|
    ensures n < i && i - back >= 1
    ensures Makes(Script(ActionOf(s))[n - back], log[i - back]) && !Ends(log[i - back])
  {
    hide Lawful, Permitted, DispatchPoll, RoundLength, LastRead, ActionOf, Script, Makes, Unended, Ends;
    var prefix := log[..i];
    var j := DispatchPollAt(prefix);
    var at := i - back;
    assert log[..at] == prefix[..at];
    RoundStart(prefix, s, n, back);
    LawfulAt(log, i);
    CallIsScripted(prefix, log[i], s, n);
    LawfulAt(log, at);
    CallIsScripted(log[..at], log[at], s, n - back);
    UnendedAt(prefix, at);
    assert prefix[at] == log[at];
  }

  lemma {:induction false} UnendedAt(log: seq<Event>, i: nat)
    requires Unended(log) && i < |log|
    ensures !Ends(log[i])
  {
    if i < |log| - 1 {
      UnendedAt(log[..|log| - 1], i);
    }
  }

  lemma {:induction false} RoundStart(log: seq<Event>, s: SessionState, n: nat, back: nat)
    requires DispatchPoll(log) == Some(s) && RoundLength(log) == n && back <= n
    ensures n < |log| && |log| - back >= 1
    ensures DispatchPoll(log[..|log| - back]) == Some(s) && RoundLength(log[..|log| - back]) == n - back
  {
    var j := DispatchPollAt(log);
    if back == 0 {
      assert log[..|log|] == log;
    } else {
      var front := log[..|log| - 1];
      RoundStart(front, s, n - 1, back - 1);
      assert front[..|front| - (back - 1)] == log[..|log| - back];
    }
  }

  /** Claude turns among the first `n` calls of an action. */
  function TurnsAmong(a: WorkerAction, n: nat): nat {
    match a
    case ClaudeSend(_, _) => if n >= 1 then 1 else 0
    case ClaudeCompose(_, _) => if n >= 5 then 2 else if n >= 2 then 1 else 0
    case TaskListBridge => if n >= 1 then 1 else 0
    case ClaudeRecoveryFixGlobal => if n >= 1 then 1 else 0
    case FinalReviewSynthetic => if n >= 2 then 2 else if n >= 1 then 1 else 0
    case _ => 0
  }

  lemma TurnAddsOne(prefix: seq<Event>, e: Event, s: SessionState)
    requires Permitted(prefix, e) && DispatchPoll(prefix) == Some(s)
    ensures !(e.Poll? && e.read == LoopPoll) ==>
              TurnsAmong(ActionOf(s), RoundLength(prefix)) + (if e.Claude? then 1 else 0)
              <= TurnsAmong(ActionOf(s), RoundLength(prefix) + 1)
  {
    hide LastRead, PolledKeys, Unended, ActionOf;
  }

  lemma {:induction false} TurnsCounted(log: seq<Event>)
    requires Lawful(log)
    ensures DispatchPoll(log).None? ==> PolledKeys(log) == [] && ClaudeTurns(log) <= 1
    ensures DispatchPoll(log).Some? ==>
              PolledKeys(log) != [] &&
              ClaudeTurns(log) <= 1 + 2 * (|PolledKeys(log)| - 1)
                                  + TurnsAmong(ActionOf(DispatchPoll(log).value), RoundLength(log))
  {
    hide Permitted, ActionOf;
    if log != [] {
      var prefix := log[..|log| - 1];
      TurnsCounted(prefix);
      if DispatchPoll(prefix).Some? {
        TurnAddsOne(prefix, Last(log), DispatchPoll(prefix).value);
      } else {
        FirstCalls(prefix, Last(log));
      }
    }
  }

  lemma FirstCalls(prefix: seq<Event>, e: Event)
    requires Permitted(prefix, e) && DispatchPoll(prefix).None?
    ensures prefix == [] || !e.Claude?
  {
  }

  /** The loop polls at most `MAX_TURNS` times: a round behind the last of them ends
      the run. */
  lemma {:induction false} PollsAreBounded(ctx: Context, log: seq<Event>)
    requires Lawful(log) && InContext(ctx, log)
    ensures |PolledKeys(log)| <= MAX_TURNS == 60
  {
    hide Fits, FreshPrompt, Refused;
    if log != [] {
      var prefix := log[..|log| - 1];
      PollsAreBounded(ctx, prefix);
      TurnsCounted(prefix);
      if DispatchPoll(prefix).Some? && Last(log).Poll? && Last(log).read == LoopPoll {
        PollFollowsRound(ctx, prefix, Last(log), DispatchPoll(prefix).value);
      }
    }
  }

  lemma PollFollowsRound(ctx: Context, prefix: seq<Event>, e: Event, s: SessionState)
    requires Permitted(prefix, e) && DispatchPoll(prefix) == Some(s) && Stop(ctx, prefix) == None
    requires e.Poll? && e.read == LoopPoll
    ensures |PolledKeys(prefix)| != MAX_TURNS
  {
    hide PolledKeys, LastRead, RoundLength, Unended, Refused, ComposedRef, FreshPrompt;
  }

  /** At most one Claude turn before the loop and two a poll, so at most
      `1 + 2 * MAX_TURNS` spawns a run. */
  lemma SpawnsAreBounded(ctx: Context, log: seq<Event>)
    requires Lawful(log) && InContext(ctx, log)
    ensures ClaudeTurns(log) <= 1 + 2 * |PolledKeys(log)| <= 1 + 2 * MAX_TURNS
  {
    TurnsCounted(log);
    PollsAreBounded(ctx, log);
  }

  /** `length` consecutive polls from `j` on share one key. */
  ghost predicate SameKey(keys: seq<StallKey>, j: nat, length: nat)
    requires j + length <= |keys|
  {
    forall m | j <= m < j + length :: keys[m] == keys[j]
  }

  /** The trailing run counts exactly the last polls that share a key. */
  lemma {:induction false} TrailingRunMeans(keys: seq<StallKey>, r: nat)
    requires 1 <= r <= |keys|
    ensures TrailingRun(keys) >= r <==> SameKey(keys, |keys| - r, r)
  {
    if r == 1 {
    } else {
      var front := keys[..|keys| - 1];
      TrailingRunMeans(front, r - 1);
      assert front[|keys| - r] == keys[|keys| - r];
      assert Last(front) == keys[|keys| - 2];
      if SameKey(keys, |keys| - r, r) {
        assert SameKey(front, |front| - (r - 1), r - 1);
      }
      if SameKey(front, |front| - (r - 1), r - 1) && keys[|keys| - 2] == Last(keys) {
        assert front[|keys| - 2] == front[|keys| - r];
        assert forall m | |keys| - r <= m < |keys| - 1 :: keys[m] == front[m];
      }
    }
  }

  /** The stall guard: `STUCK_LIMIT + 1` consecutive polls with one key can only be
      the last polls of the run, and nothing is dispatched on the last of them. So
      no key is dispatched on more than `STUCK_LIMIT` times in a row. */
  lemma {:induction false} StallGuardIsExact(log: seq<Event>, j: nat)
    requires Lawful(log) && j + STUCK_LIMIT < |PolledKeys(log)|
    requires SameKey(PolledKeys(log), j, STUCK_LIMIT + 1)
    ensures j + STUCK_LIMIT + 1 == |PolledKeys(log)| && RoundLength(log) == 0
  {
    var prefix, keys := log[..|log| - 1], PolledKeys(log);
    TurnsCounted(prefix);
    if Last(log).Poll? && Last(log).read == LoopPoll {
      var before := PolledKeys(prefix);
      if j + STUCK_LIMIT < |before| {
        assert forall m | 0 <= m < |before| :: keys[m] == before[m];
        assert SameKey(before, j, STUCK_LIMIT + 1);
        StallGuardIsExact(prefix, j);
        TrailingRunMeans(before, STUCK_LIMIT + 1);
        assert false;
      }
    } else {
      StallGuardIsExact(prefix, j);
      TrailingRunMeans(keys, STUCK_LIMIT + 1);
      assert false;
    }
  }

  /** A reported stall is real: the run ended right after `STUCK_LIMIT + 1`
      consecutive polls with one key. */
  lemma StallIsReal(ctx: Context, log: seq<Event>)
    requires Lawful(log) && Stop(ctx, log) == Some(Invalid(Stalled))
    ensures |PolledKeys(log)| > STUCK_LIMIT && RoundLength(log) == 0
    ensures SameKey(PolledKeys(log), |PolledKeys(log)| - (STUCK_LIMIT + 1), STUCK_LIMIT + 1)
  {
    hide Lawful, Stop, RoundLength;
    StalledAtPoll(ctx, log);
    var keys := PolledKeys(log);
    RunIsShort(keys);
    TrailingRunMeans(keys, STUCK_LIMIT + 1);
  }

  lemma StalledAtPoll(ctx: Context, log: seq<Event>)
    requires Lawful(log) && Stop(ctx, log) == Some(Invalid(Stalled))
    ensures TrailingRun(PolledKeys(log)) > STUCK_LIMIT && RoundLength(log) == 0
  {
    hide Lawful, Unended, FreshPrompt, Refused, TrailingRun, LastRead, ComposedRef, Script;
    LawfulAt(log, |log| - 1);
  }

  lemma RunIsShort(keys: seq<StallKey>)
    ensures TrailingRun(keys) <= |keys|
  {
  }

  // A run is a function of its context and its world.

  lemma {:induction false} InContextAt(ctx: Context, log: seq<Event>, i: nat)
    requires InContext(ctx, log) && i < |log|
    ensures InContext(ctx, log[..i]) && Stop(ctx, log[..i]) == None
    ensures log[i].Claude? ==> Fits(ctx, log[..i], log[i].site, log[i].prompt)
  {
    hide Fits, Stop;
    if i < |log| - 1 {
      InContextAt(ctx, log[..|log| - 1], i);
      assert log[..|log| - 1][..i] == log[..i];
    }
  }

  lemma {:induction false} AnsweredAt(world: World, log: seq<Event>, i: nat)
    requires AnsweredBy(world, log) && i < |log|
    ensures Answers(world, i, log[i])
  {
    hide Answers;
    if i < |log| - 1 {
      AnsweredAt(world, log[..|log| - 1], i);
    }
  }

  /** Of two prompts that fit, both are the same. */
  lemma PromptIsDetermined(ctx: Context, prefix: seq<Event>, site: TurnSite, a: Prompt, b: Prompt)
    requires FreshPrompt(prefix, site, a) && Fits(ctx, prefix, site, a)
    requires FreshPrompt(prefix, site, b) && Fits(ctx, prefix, site, b)
    ensures a == b
  {
    hide LastRead, DispatchPoll, ActionOf, BodyFor, ComposedRef, BoundSession, R.ReplaceEach, R.NoneLive, R.LongestFirst;
    if site == Bootstrap {
    } else {
      assert a.rendered.fields == b.rendered.fields;
      assert IsRendered(a.rendered) && IsRendered(b.rendered);
    }
  }

  /** The calls so far leave one next call, and the world one answer to it. */
  lemma NextCallIsDetermined(ctx: Context, world: World, prefix: seq<Event>, a: Event, b: Event)
    requires Due(ctx, world, prefix, a) && Due(ctx, world, prefix, b)
    ensures a == b
  {
    hide Stop, FreshPrompt, Unended, PolledKeys, LastRead, Watermark;
    if DispatchPoll(prefix).Some? && a.Claude? && b.Claude? && a.site == b.site
       && FreshPrompt(prefix, a.site, a.prompt) && FreshPrompt(prefix, b.site, b.prompt) {
      PromptIsDetermined(ctx, prefix, a.site, a.prompt, b.prompt);
    }
  }

  lemma DueAt(ctx: Context, world: World, log: seq<Event>, i: nat)
    requires Underway(ctx, world, log) && i < |log|
    ensures Due(ctx, world, log[..i], log[i])
  {
    hide Lawful, InContext, AnsweredBy, Permitted, Stop, Fits, Answers;
    LawfulAt(log, i);
    InContextAt(ctx, log, i);
    AnsweredAt(world, log, i);
  }

  /** Two logs of one world agree as far as both go. */
  lemma {:induction false} LogsAgree(ctx: Context, world: World, a: seq<Event>, b: seq<Event>, n: nat)
    requires Underway(ctx, world, a) && Underway(ctx, world, b) && n <= |a| && n <= |b|
    ensures a[..n] == b[..n]
  {
    hide Underway, Due;
    if n > 0 {
      LogsAgree(ctx, world, a, b, n - 1);
      DueAt(ctx, world, a, n - 1);
      DueAt(ctx, world, b, n - 1);
      NextCallIsDetermined(ctx, world, a[..n - 1], a[n - 1], b[n - 1]);
      assert a[..n] == a[..n - 1] + [a[n - 1]] && b[..n] == b[..n - 1] + [b[n - 1]];
    }
  }

  lemma NoCallBehindStop(ctx: Context, world: World, a: seq<Event>, o: DriveOutcome, b: seq<Event>)
    requires Run(ctx, world, a, o) && Underway(ctx, world, b)
    ensures |b| <= |a|
  {
    hide Lawful, InContext, AnsweredBy, Stop;
    assert a[..|a|] == a;
    if |a| < |b| {
      LogsAgree(ctx, world, a, b, |a|);
      InContextAt(ctx, b, |a|);
    }
  }

  /** In one context and one world there is one run: whatever calls the driver makes,
      with whatever prompts, and however it stops, all of it is fixed by the answers;
      and only the answers to the calls it makes can matter. */
  lemma RunIsDetermined(ctx: Context, world: World, a: seq<Event>, o: DriveOutcome,
                        other: World, b: seq<Event>, p: DriveOutcome)
    requires Run(ctx, world, a, o) && Run(ctx, other, b, p) && Agree(world, other, |a|)
    ensures a == b && o == p
  {
    hide Lawful, InContext, AnsweredBy, Stop, Agree;
    SameAnswers(world, other, a);
    NoCallBehindStop(ctx, other, a, o, b);
    NoCallBehindStop(ctx, other, b, p, a);
    LogsAgree(ctx, other, a, b, |a|);
    assert a[..|a|] == a && b[..|b|] == b;
  }
}
