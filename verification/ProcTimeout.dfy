/** Bounded process execution as a concurrent protocol: the main thread, the waiter,
    two pipe readers and the worker's process group, interleaved in every order.

    Assumptions of the model: pipe write ends are held only by group members, and
    SIGKILL to the group ends every member. */
module ProcTimeout {
  import opened Std

  /** What a pipe buffer holds at most. */
  const CAPACITY: nat := 65536

  type Byte = n: nat | n < 256

  /** A member of the worker's process group and the write ends it holds. */
  datatype Member = Member(alive: bool, holdsOut: bool, holdsErr: bool)

  datatype Stream = Stdout | Stderr

  datatype Reader = Reading | AtEof | ReadError | ReaderPanicked

  /** A pipe with its reader: everything written so far, what is still in the
      buffer, and what the reader has taken out of it. */
  datatype Pipe = Pipe(written: seq<Byte>, buffered: seq<Byte>, captured: seq<Byte>, reader: Reader)

  /** The waiter first waits (which reaps the child), then sends what it got. */
  datatype Waiter = Waiting | Holding(result: WaitResult) | Reported | WaiterPanicked

  datatype WaitResult = Exited(code: int) | WaitError

  datatype KillReason = Timeout | WaiterLost

  /** Why the main thread is joining its helpers. */
  datatype Joining = AfterStatus(code: int) | AfterKill(why: KillReason)

  datatype Outcome =
    | Output(code: int, stdout: seq<Byte>, stderr: seq<Byte>)
    | TimedOutError | DisconnectedError | WaitFailed | StdoutFailed | StderrFailed

  datatype Main =
    | Receiving | DeadlinePassed | Terminating(why: KillReason) | Killing(why: KillReason)
    | JoinWaiter(j: Joining) | JoinOut(j: Joining) | JoinErr(j: Joining)
    | Returned(outcome: Outcome)

  /** `group[0]` is the child; `exitCode` is set once it is dead, `reaped` once the
      waiter has collected it and its process id may be recycled. */
  datatype State = State(
    main: Main, group: seq<Member>, exitCode: Option<int>, reaped: bool, waiter: Waiter, message: Option<WaitResult>,
    out: Pipe, err: Pipe, received: bool, groupKills: nat)
  {
    function PipeOf(which: Stream): Pipe {
      if which == Stdout then out else err
    }

    function WithPipe(which: Stream, p: Pipe): State {
      if which == Stdout then this.(out := p) else this.(err := p)
    }
  }

  const EMPTY_PIPE := Pipe([], [], [], Reading)

  const SPAWNED := State(Receiving, [Member(true, true, true)], None, false, Waiting, None,
                         EMPTY_PIPE, EMPTY_PIPE, false, 0)

  predicate Holds(m: Member, which: Stream) {
    m.alive && if which == Stdout then m.holdsOut else m.holdsErr
  }

  ghost predicate Open(s: State, which: Stream) {
    exists i | 0 <= i < |s.group| :: Holds(s.group[i], which)
  }

  ghost predicate AllDead(s: State) {
    forall i | 0 <= i < |s.group| :: !s.group[i].alive
  }

  // ---- the steps ----

  datatype Step =
    // the process group
    | Writes(i: nat, which: Stream, data: seq<Byte>) | Closes(i: nat, which: Stream)
    | Forks(i: nat) | Exits(i: nat, code: int)
    // the waiter
    | Reaps | WaitErrs | SendsReport | WaitPanics
    // the readers
    | Reads(which: Stream, n: nat) | SeesEof(which: Stream) | ReadErrs(which: Stream) | ReadPanics(which: Stream)
    // the main thread
    | Receives | TimesOut | SeesDisconnect | TriesReceive
    | SendsTerm(survivors: set<nat>, code: int) | SendsKill(code: int)
    | JoinsWaiter | JoinsOut | JoinsErr

  predicate WaiterDone(s: State) {
    s.waiter.Reported? || s.waiter.WaiterPanicked?
  }

  ghost predicate Enabled(s: State, step: Step) {
    match step
    case Writes(i, which, data) =>
      i < |s.group| && Holds(s.group[i], which) && data != []
      && |s.PipeOf(which).buffered| + |data| <= CAPACITY
    case Closes(i, which) => i < |s.group| && Holds(s.group[i], which)
    case Forks(i) => i < |s.group| && s.group[i].alive
    case Exits(i, _) => i < |s.group| && s.group[i].alive
    case Reaps => s.waiter.Waiting? && s.exitCode.Some?
    case WaitErrs => s.waiter.Waiting?
    case SendsReport => s.waiter.Holding?
    case WaitPanics => s.waiter.Waiting? || s.waiter.Holding?
    case Reads(which, n) => s.PipeOf(which).reader.Reading? && 1 <= n <= |s.PipeOf(which).buffered|
    case SeesEof(which) => s.PipeOf(which).reader.Reading? && s.PipeOf(which).buffered == [] && !Open(s, which)
    case ReadErrs(which) => s.PipeOf(which).reader.Reading?
    case ReadPanics(which) => s.PipeOf(which).reader.Reading?
    case Receives => s.main.Receiving? && s.message.Some?
    case TimesOut => s.main.Receiving?
    case SeesDisconnect => s.main.Receiving? && s.message.None? && s.waiter.WaiterPanicked?
    case TriesReceive => s.main.DeadlinePassed?
    case SendsTerm(_, _) => s.main.Terminating?
    case SendsKill(_) => s.main.Killing?
    case JoinsWaiter => s.main.JoinWaiter? && WaiterDone(s)
    case JoinsOut => s.main.JoinOut? && !s.out.reader.Reading?
    case JoinsErr => s.main.JoinErr? && !s.err.reader.Reading?
  }

  /** Keep the members in `survivors` as they are; the others are dead. */
  function Signalled(group: seq<Member>, survivors: set<nat>): (r: seq<Member>)
    ensures |r| == |group|
    ensures forall i | 0 <= i < |r| :: r[i] == if i in survivors then group[i] else group[i].(alive := false)
  {
    seq(|group|, i requires 0 <= i < |group| =>
      if i in survivors then group[i] else group[i].(alive := false))
  }

  function AfterSignal(s: State, survivors: set<nat>, code: int): State {
    s.(group := Signalled(s.group, survivors),
       exitCode := if s.exitCode.None? && 0 !in survivors then Some(code) else s.exitCode)
  }

  /** A natural exit status: package it, or give up on a failed wait. */
  function Package(s: State): State
    requires s.message.Some?
  {
    s.(message := None, received := true,
       main := match s.message.value
               case Exited(code) => JoinWaiter(AfterStatus(code))
               case WaitError => Returned(WaitFailed))
  }

  function KilledOutcome(why: KillReason): Outcome {
    if why == Timeout then TimedOutError else DisconnectedError
  }

  function Take(s: State, step: Step): State
    requires Enabled(s, step)
  {
    match step
    case Writes(_, which, data) =>
      var p := s.PipeOf(which);
      s.WithPipe(which, p.(written := p.written + data, buffered := p.buffered + data))
    case Closes(i, which) =>
      s.(group := s.group[i := if which == Stdout then s.group[i].(holdsOut := false)
                               else s.group[i].(holdsErr := false)])
    case Forks(i) => s.(group := s.group + [s.group[i]])
    case Exits(i, code) =>
      s.(group := s.group[i := s.group[i].(alive := false)],
         exitCode := if i == 0 then Some(code) else s.exitCode)
    case Reaps => s.(waiter := Holding(Exited(s.exitCode.value)), reaped := true)
    case WaitErrs => s.(waiter := Holding(WaitError))
    case SendsReport => s.(waiter := Reported, message := Some(s.waiter.result))
    case WaitPanics => s.(waiter := WaiterPanicked)
    case Reads(which, n) =>
      var p := s.PipeOf(which);
      s.WithPipe(which, p.(captured := p.captured + p.buffered[..n], buffered := p.buffered[n..]))
    case SeesEof(which) => s.WithPipe(which, s.PipeOf(which).(reader := AtEof))
    case ReadErrs(which) => s.WithPipe(which, s.PipeOf(which).(reader := ReadError))
    case ReadPanics(which) => s.WithPipe(which, s.PipeOf(which).(reader := ReaderPanicked))
    case Receives => Package(s)
    case TimesOut => s.(main := DeadlinePassed)
    case SeesDisconnect => s.(main := Terminating(WaiterLost))
    case TriesReceive => if s.message.Some? then Package(s) else s.(main := Terminating(Timeout))
    case SendsTerm(survivors, code) =>
      AfterSignal(s, survivors, code).(main := Killing(s.main.why), groupKills := s.groupKills + 1)
    case SendsKill(code) => AfterSignal(s, {}, code).(main := JoinWaiter(AfterKill(s.main.why)))
    case JoinsWaiter => s.(main := JoinOut(s.main.j))
    case JoinsOut =>
      s.(main := if s.main.j.AfterStatus? && !s.out.reader.AtEof? then Returned(StdoutFailed) else JoinErr(s.main.j))
    case JoinsErr =>
      s.(main := match s.main.j
                 case AfterKill(why) => Returned(KilledOutcome(why))
                 case AfterStatus(code) =>
                   if s.err.reader.AtEof? then Returned(Output(code, s.out.captured, s.err.captured))
                   else Returned(StderrFailed))
  }

  // ---- what every step keeps ----

  ghost predicate PipeSound(s: State, which: Stream) {
    var p := s.PipeOf(which);
    && p.written == p.captured + p.buffered
    && |p.buffered| <= CAPACITY
    && (p.reader.AtEof? ==> p.buffered == [] && !Open(s, which))
  }

  ghost predicate GroupSound(s: State) {
    && |s.group| >= 1
    && (s.exitCode.Some? <==> !s.group[0].alive)
  }

  ghost predicate ChannelSound(s: State) {
    && (s.message.Some? ==> s.waiter.Reported? && !s.received)
    && (s.waiter.Reported? ==> s.message.Some? || s.received)
    && (s.received ==> s.waiter.Reported?)
    && (s.message.Some? && s.message.value.Exited? ==> s.reaped && s.exitCode == Some(s.message.value.code))
    && (s.waiter.Holding? && s.waiter.result.Exited? ==> s.reaped && s.exitCode == Some(s.waiter.result.code))
    && (s.waiter.Waiting? ==> !s.reaped)
    && (s.reaped ==> s.exitCode.Some?)
  }

  ghost predicate StatusKnown(s: State, j: Joining) {
    match j
    case AfterStatus(code) => s.received && s.groupKills == 0 && s.reaped && s.exitCode == Some(code)
    case AfterKill(_) => !s.received && s.groupKills == 1 && AllDead(s)
  }

  ghost predicate MainSound(s: State) {
    match s.main
    case Receiving => !s.received && s.groupKills == 0
    case DeadlinePassed => !s.received && s.groupKills == 0
    case Terminating(_) => !s.received && s.groupKills == 0
    case Killing(_) => !s.received && s.groupKills == 1
    case JoinWaiter(j) => StatusKnown(s, j)
    case JoinOut(j) => StatusKnown(s, j) && WaiterDone(s)
    case JoinErr(j) =>
      StatusKnown(s, j) && WaiterDone(s) && !s.out.reader.Reading? && (j.AfterStatus? ==> s.out.reader.AtEof?)
    case Returned(Output(code, stdout, stderr)) =>
      StatusKnown(s, AfterStatus(code)) && s.out.reader.AtEof? && s.err.reader.AtEof?
      && stdout == s.out.captured && stderr == s.err.captured
    case Returned(TimedOutError) => StatusKnown(s, AfterKill(Timeout))
    case Returned(DisconnectedError) => StatusKnown(s, AfterKill(WaiterLost))
    case Returned(_) => s.received && s.groupKills == 0
  }

  ghost predicate Sound(s: State) {
    GroupSound(s) && PipeSound(s, Stdout) && PipeSound(s, Stderr) && ChannelSound(s) && MainSound(s)
  }

  /** A change of the group that opens no write end and revives nobody. */
  ghost predicate Shrinks(s: State, t: State) {
    && (forall which :: Open(t, which) ==> Open(s, which))
    && (AllDead(s) ==> AllDead(t))
  }

  lemma GroupStepShrinks(s: State, step: Step)
    requires Enabled(s, step) && (step.Closes? || step.Forks? || step.Exits? || step.SendsTerm? || step.SendsKill?)
    ensures Shrinks(s, Take(s, step))
  {
    var t := Take(s, step);
    forall which | Open(t, which) ensures Open(s, which) {
      var i :| 0 <= i < |t.group| && Holds(t.group[i], which);
      if step.Forks? && i == |s.group| {
        assert Holds(s.group[step.i], which);
      } else {
        assert Holds(s.group[i], which);
      }
    }
  }

  /** A write lengthens one pipe; its writer is alive and holds the pipe. */
  lemma WriteKeepsPipes(s: State, step: Step)
    requires PipeSound(s, Stdout) && PipeSound(s, Stderr) && Enabled(s, step) && step.Writes?
    ensures PipeSound(Take(s, step), Stdout) && PipeSound(Take(s, step), Stderr)
    ensures Open(s, step.which) && !AllDead(s)
    ensures var t := Take(s, step);
            && t == s.(out := t.out, err := t.err)
            && t.out == s.out.(written := t.out.written, buffered := t.out.buffered)
            && t.err == s.err.(written := t.err.written, buffered := t.err.buffered)
            && (step.which == Stdout ==> t.err == s.err) && (step.which == Stderr ==> t.out == s.out)
  {
    assert Open(s, step.which) && !AllDead(s);
    hide Open, AllDead;
    var p, t := s.PipeOf(step.which), Take(s, step);
    SameGroup(s, t);
    assert p.captured + (p.buffered + step.data) == (p.captured + p.buffered) + step.data;
  }

  lemma WritesKeepSound(s: State, step: Step)
    requires Sound(s) && Enabled(s, step) && step.Writes?
    ensures Sound(Take(s, step))
  {
    WriteKeepsPipes(s, step);
    PipesAtEof(s);
    hide Open, AllDead, PipeSound, Take, Enabled;
    SameGroup(s, Take(s, step));
  }

  lemma PipesAtEof(s: State)
    requires PipeSound(s, Stdout) && PipeSound(s, Stderr)
    ensures s.out.reader.AtEof? ==> !Open(s, Stdout)
    ensures s.err.reader.AtEof? ==> !Open(s, Stderr)
  {
  }

  /** Closing, forking and exiting change the group, and the child's status if it is the
      child that exits. */
  lemma GroupChange(s: State, step: Step)
    requires GroupSound(s) && Enabled(s, step) && (step.Closes? || step.Forks? || step.Exits?)
    ensures var t := Take(s, step);
            t == s.(group := t.group, exitCode := t.exitCode) && GroupSound(t) && (s.exitCode.Some? ==> t.exitCode == s.exitCode)
  {
  }

  lemma GroupStepsKeepSound(s: State, step: Step)
    requires Sound(s) && Enabled(s, step) && (step.Closes? || step.Forks? || step.Exits?)
    ensures Sound(Take(s, step))
  {
    var t := Take(s, step);
    GroupStepShrinks(s, step);
    GroupChange(s, step);
    PipesStaySound(s, t);
    hide Open, AllDead, PipeSound, GroupSound, Take, Enabled;
  }

  lemma SameGroup(s: State, t: State)
    requires s.group == t.group
    ensures forall which :: Open(s, which) <==> Open(t, which)
    ensures AllDead(s) <==> AllDead(t)
  {
  }

  predicate OfWaiter(step: Step) {
    step.Reaps? || step.WaitErrs? || step.SendsReport? || step.WaitPanics?
  }

  lemma WaiterStepsKeepSound(s: State, step: Step)
    requires Sound(s) && Enabled(s, step)
    requires OfWaiter(step)
    ensures Sound(Take(s, step))
  {
    hide Open, AllDead;
    SameGroup(s, Take(s, step));
  }

  predicate OfReader(step: Step) {
    step.Reads? || step.SeesEof? || step.ReadErrs? || step.ReadPanics?
  }

  /** A reader step touches its own pipe only, and keeps the ledger of that pipe. */
  lemma ReaderKeepsPipes(s: State, step: Step)
    requires PipeSound(s, Stdout) && PipeSound(s, Stderr) && Enabled(s, step) && OfReader(step)
    ensures PipeSound(Take(s, step), Stdout) && PipeSound(Take(s, step), Stderr)
    ensures var t := Take(s, step);
            && s.PipeOf(step.which).reader.Reading?
            && (step.which == Stdout ==> t == s.(out := t.out))
            && (step.which == Stderr ==> t == s.(err := t.err))
  {
    hide Open;
    SameGroup(s, Take(s, step));
    if step.Reads? {
      var p := s.PipeOf(step.which);
      assert p.captured + p.buffered[..step.n] + p.buffered[step.n..] == p.captured + p.buffered;
    }
  }

  lemma ReaderStepsKeepSound(s: State, step: Step)
    requires Sound(s) && Enabled(s, step) && OfReader(step)
    ensures Sound(Take(s, step))
  {
    hide Open, AllDead, PipeSound, Take, Enabled;
    var t := Take(s, step);
    ReaderKeepsPipes(s, step);
    SameGroup(s, t);
  }

  predicate OfSignal(step: Step) {
    step.SendsTerm? || step.SendsKill?
  }

  lemma SignalsKeepSound(s: State, step: Step)
    requires Sound(s) && Enabled(s, step) && OfSignal(step)
    ensures Sound(Take(s, step))
  {
    hide PipeSound, Open;
    GroupStepShrinks(s, step);
    PipesStaySound(s, Take(s, step));
  }

  lemma MainStepsKeepSound(s: State, step: Step)
    requires Sound(s) && Enabled(s, step)
    requires step.Receives? || step.TimesOut? || step.SeesDisconnect? || step.TriesReceive?
             || step.JoinsWaiter? || step.JoinsOut? || step.JoinsErr?
    ensures Sound(Take(s, step))
  {
    hide PipeSound, Open, AllDead;
    SameGroup(s, Take(s, step));
    PipesStaySound(s, Take(s, step));
  }

  lemma PipesStaySound(s: State, t: State)
    requires PipeSound(s, Stdout) && PipeSound(s, Stderr)
    requires t.out == s.out && t.err == s.err && forall which :: Open(t, which) ==> Open(s, which)
    ensures PipeSound(t, Stdout) && PipeSound(t, Stderr)
  {
    hide Open;
  }

  /** A run is any sequence of enabled steps from the freshly spawned worker. */
  ghost predicate IsRun(states: seq<State>, steps: seq<Step>) {
    && |states| == |steps| + 1 && states[0] == SPAWNED
    && forall k | 0 <= k < |steps| :: Enabled(states[k], steps[k]) && states[k + 1] == Take(states[k], steps[k])
  }

  lemma StepsKeepSound(s: State, step: Step)
    requires Sound(s) && Enabled(s, step)
    ensures Sound(Take(s, step))
  {
    if step.Writes? {
      WritesKeepSound(s, step);
    } else if step.Closes? || step.Forks? || step.Exits? {
      GroupStepsKeepSound(s, step);
    } else if OfWaiter(step) {
      WaiterStepsKeepSound(s, step);
    } else if OfReader(step) {
      ReaderStepsKeepSound(s, step);
    } else if OfSignal(step) {
      SignalsKeepSound(s, step);
    } else {
      MainStepsKeepSound(s, step);
    }
  }

  lemma {:induction false} RunsStaySound(states: seq<State>, steps: seq<Step>, k: nat)
    requires IsRun(states, steps) && k < |states|
    ensures Sound(states[k])
  {
    if k > 0 {
      RunsStaySound(states, steps, k - 1);
      StepsKeepSound(states[k - 1], steps[k - 1]);
    }
  }

  // ---- what a caller may rely on, over all interleavings ----

  /** A returned output is the child's real status and everything ever written to
      both pipes; the group was not signalled. */
  lemma OutputIsComplete(states: seq<State>, steps: seq<Step>, k: nat)
    requires IsRun(states, steps) && k < |states|
    requires states[k].main.Returned? && states[k].main.outcome.Output?
    ensures var s, o := states[k], states[k].main.outcome;
            && s.received && s.groupKills == 0 && s.exitCode == Some(o.code)
            && o.stdout == s.out.written && o.stderr == s.err.written
  {
    RunsStaySound(states, steps, k);
  }

  /** The group is killed at most once, never after a status was received, and a
      timeout or disconnect error is returned only after the kill, with nobody left. */
  lemma KilledAtMostOnce(states: seq<State>, steps: seq<Step>, k: nat)
    requires IsRun(states, steps) && k < |states|
    ensures states[k].groupKills <= 1
    ensures states[k].received ==> states[k].groupKills == 0
    ensures states[k].received && k < |steps| ==> !steps[k].SendsTerm? && !steps[k].SendsKill?
    ensures states[k].main == Returned(TimedOutError) || states[k].main == Returned(DisconnectedError)
            ==> states[k].groupKills == 1 && AllDead(states[k])
  {
    RunsStaySound(states, steps, k);
  }

  // ---- the guard before the kill ----

  /** Whether the child has been reaped is the history of the waiter, from any earlier
      state on. */
  lemma {:induction false} ReapedSince(states: seq<State>, steps: seq<Step>, g: nat, k: nat)
    requires IsRun(states, steps) && g <= k < |states|
    ensures states[k].reaped <==> states[g].reaped || exists r | g <= r < k :: steps[r].Reaps?
  {
    hide Take, Enabled;
    if g < k {
      ReapedSince(states, steps, g, k - 1);
      ReapsOnly(states[k - 1], steps[k - 1]);
      assert steps[k - 1].Reaps? ==> exists r | g <= r < k :: steps[r].Reaps?;
    }
  }

  lemma ReapsOnly(s: State, step: Step)
    requires Enabled(s, step)
    ensures Take(s, step).reaped <==> s.reaped || step.Reaps?
    ensures Take(s, step).waiter.Reported? <==> s.waiter.Reported? || step.SendsReport?
  {
  }

  lemma {:induction false} ReportedSince(states: seq<State>, steps: seq<Step>, q: nat, k: nat)
    requires IsRun(states, steps) && q < k < |states| && steps[q].SendsReport?
    ensures states[k].waiter.Reported?
  {
    hide Take, Enabled;
    ReapsOnly(states[k - 1], steps[k - 1]);
    if q < k - 1 {
      ReportedSince(states, steps, q, k - 1);
    }
  }

  /** The look into the channel that let the kill go ahead after a deadline. */
  lemma {:induction false} GuardBefore(states: seq<State>, steps: seq<Step>, k: nat) returns (g: nat)
    requires IsRun(states, steps) && k < |states|
    requires states[k].main == Terminating(Timeout) || states[k].main == Killing(Timeout)
    ensures g < k && steps[g].TriesReceive? && states[g].message.None?
    ensures forall j | g < j < k :: !steps[j].TriesReceive?
  {
    if steps[k - 1].TriesReceive? {
      g := k - 1;
    } else {
      BeforeSignal(states[k - 1], steps[k - 1]);
      g := GuardBefore(states, steps, k - 1);
    }
  }

  lemma BeforeSignal(s: State, step: Step)
    requires Enabled(s, step) && !step.TriesReceive?
    requires Take(s, step).main == Terminating(Timeout) || Take(s, step).main == Killing(Timeout)
    ensures s.main == Terminating(Timeout) || s.main == Killing(Timeout)
  {
  }

  /** When a signal after the deadline can hit a recycled process id: the child was
      reaped either before the guard looked, its report not sent by then, or since. The
      guard (at `g`) excludes exactly the children whose report was in the channel. */
  lemma SignalRaceExactly(states: seq<State>, steps: seq<Step>, k: nat) returns (g: nat)
    requires IsRun(states, steps) && k < |steps| && (steps[k].SendsTerm? || steps[k].SendsKill?)
    requires states[k].main.why == Timeout
    ensures g < k && steps[g].TriesReceive? && forall j | g < j < k :: !steps[j].TriesReceive?
    ensures forall q | 0 <= q < g :: !steps[q].SendsReport?
    ensures states[k].reaped <==> exists r | 0 <= r < k :: steps[r].Reaps?
    ensures states[k].reaped <==> || (exists r | 0 <= r < g :: steps[r].Reaps?)
                                  || (exists r | g < r < k :: steps[r].Reaps?)
  {
    assert states[k].main.Terminating? || states[k].main.Killing?;
    hide Take, Enabled, Sound;
    g := GuardBefore(states, steps, k);
    NothingSentBefore(states, steps, g);
    ReapedSince(states, steps, 0, k);
    assert forall r | 0 <= r < k && steps[r].Reaps? :: r != g;
  }

  lemma NothingSentBefore(states: seq<State>, steps: seq<Step>, g: nat)
    requires IsRun(states, steps) && g < |steps| && steps[g].TriesReceive? && states[g].message.None?
    ensures forall q | 0 <= q < g :: !steps[q].SendsReport?
  {
    RunsStaySound(states, steps, g);
    forall q | 0 <= q < g && steps[q].SendsReport? ensures false {
      ReportedSince(states, steps, q, g);
    }
  }

  /** A disconnect is signalled without a guard; it meets a reaped child exactly when
      the waiter panicked after reaping it. */
  lemma DisconnectRaceExactly(states: seq<State>, steps: seq<Step>, k: nat)
    requires IsRun(states, steps) && k < |steps| && (steps[k].SendsTerm? || steps[k].SendsKill?)
    requires states[k].main.why == WaiterLost
    ensures states[k].reaped <==> exists r | 0 <= r < k :: steps[r].Reaps?
    ensures forall q | 0 <= q < k :: !steps[q].SendsReport?
  {
    assert states[k].main.Terminating? || states[k].main.Killing?;
    hide Take, Enabled;
    ReapedSince(states, steps, 0, k);
    PanickedFirst(states, steps, k);
    forall q | 0 <= q < k && steps[q].SendsReport? ensures false {
      ReportedSince(states, steps, q, k);
    }
  }

  lemma {:induction false} PanickedFirst(states: seq<State>, steps: seq<Step>, k: nat)
    requires IsRun(states, steps) && k < |states|
    requires states[k].main == Terminating(WaiterLost) || states[k].main == Killing(WaiterLost)
    ensures states[k].waiter.WaiterPanicked?
  {
    LostOnly(states[k - 1], steps[k - 1]);
    if !steps[k - 1].SeesDisconnect? {
      PanickedFirst(states, steps, k - 1);
    }
  }

  lemma LostOnly(s: State, step: Step)
    requires Enabled(s, step)
    requires Take(s, step).main == Terminating(WaiterLost) || Take(s, step).main == Killing(WaiterLost)
    ensures step.SeesDisconnect? || s.main == Terminating(WaiterLost) || s.main == Killing(WaiterLost)
    ensures step.SeesDisconnect? || s.waiter.WaiterPanicked? ==> Take(s, step).waiter.WaiterPanicked?
  {
  }

  lemma FiveSteps(s: State, a: Step, s1: State, b: Step, s2: State, c: Step, s3: State, d: Step, s4: State, e: Step, s5: State)
    returns (states: seq<State>, steps: seq<Step>)
    requires s == SPAWNED
    requires Enabled(s, a) && s1 == Take(s, a) && Enabled(s1, b) && s2 == Take(s1, b) && Enabled(s2, c) && s3 == Take(s2, c)
    requires Enabled(s3, d) && s4 == Take(s3, d) && Enabled(s4, e) && s5 == Take(s4, e)
    ensures steps == [a, b, c, d, e] && states == [s, s1, s2, s3, s4, s5] && IsRun(states, steps)
  {
    hide Take, Enabled;
    steps := [a, b, c, d, e];
    states := [s, s1, s2, s3, s4, s5];
  }

  lemma GuardPassed() returns (s1: State, s2: State)
    ensures Enabled(SPAWNED, TimesOut) && s1 == Take(SPAWNED, TimesOut)
    ensures Enabled(s1, TriesReceive) && s2 == Take(s1, TriesReceive)
    ensures s2 == SPAWNED.(main := Terminating(Timeout))
  {
    s1 := Take(SPAWNED, TimesOut);
    s2 := Take(s1, TriesReceive);
  }

  /** It happens after the guard: deadline, guard, then the child exits and is reaped
      just before the signal. */
  lemma ReapedAfterGuardExample() returns (states: seq<State>, steps: seq<Step>)
    ensures IsRun(states, steps) && steps == [TimesOut, TriesReceive, Exits(0, 0), Reaps, SendsTerm({}, 0)]
    ensures states[4].reaped
  {
    var s1, s2 := GuardPassed();
    var s3 := Take(s2, Exits(0, 0));
    var s4 := Take(s3, Reaps);
    hide Signalled;
    var s5 := Take(s4, SendsTerm({}, 0));
    hide Take, Enabled;
    states, steps := FiveSteps(SPAWNED, TimesOut, s1, TriesReceive, s2, Exits(0, 0), s3, Reaps, s4, SendsTerm({}, 0), s5);
  }

  /** And before it: the child is reaped before the deadline, but its report is still
      on the way when the guard looks. */
  lemma ReapedBeforeGuardExample() returns (states: seq<State>, steps: seq<Step>)
    ensures IsRun(states, steps) && steps == [Exits(0, 0), Reaps, TimesOut, TriesReceive, SendsTerm({}, 0)]
    ensures states[2].reaped && states[4].reaped
  {
    hide Signalled;
    var s1 := Take(SPAWNED, Exits(0, 0));
    var s2 := Take(s1, Reaps);
    var s3 := Take(s2, TimesOut);
    var s4 := Take(s3, TriesReceive);
    assert s4.main == Terminating(Timeout) && s2.reaped && s4.reaped;
    var s5 := Take(s4, SendsTerm({}, 0));
    hide Take, Enabled;
    states, steps := FiveSteps(SPAWNED, Exits(0, 0), s1, Reaps, s2, TimesOut, s3, TriesReceive, s4, SendsTerm({}, 0), s5);
  }

  // ---- how far the timeout reaches ----

  /** Fault-free steps of the harness itself: main, waiter and readers. */
  predicate OfHarness(step: Step) {
    || step.Reaps? || step.SendsReport? || step.Reads? || step.SeesEof?
    || step.Receives? || step.TimesOut? || step.SeesDisconnect? || step.TriesReceive?
    || step.SendsTerm? || step.SendsKill? || step.JoinsWaiter? || step.JoinsOut? || step.JoinsErr?
  }

  /** Steps of the process group. */
  predicate OfGroup(step: Step) {
    step.Writes? || step.Closes? || step.Forks? || step.Exits?
  }

  /** The child's status is in, but the reader being joined has drained its pipe and
      some other member of the group still holds the write end. */
  ghost predicate AwaitsGroup(s: State) {
    || (s.main.JoinOut? && s.main.j.AfterStatus? && s.out.reader.Reading? && s.out.buffered == [] && Open(s, Stdout))
    || (s.main.JoinErr? && s.main.j.AfterStatus? && s.err.reader.Reading? && s.err.buffered == [] && Open(s, Stderr))
  }

  lemma HarnessStep(s: State) returns (step: Step)
    requires Sound(s) && !s.main.Returned? && !AwaitsGroup(s)
    ensures OfHarness(step) && Enabled(s, step)
    ensures s.main.Receiving? ==> step == TimesOut
    ensures s.main.DeadlinePassed? ==> step == TriesReceive
  {
    match s.main
    case Receiving => step := TimesOut;
    case DeadlinePassed => step := TriesReceive;
    case Terminating(_) => step := SendsTerm({}, 0);
    case Killing(_) => step := SendsKill(0);
    case JoinWaiter(j) =>
      step := if s.waiter.Waiting? then Reaps else if s.waiter.Holding? then SendsReport else JoinsWaiter;
    case JoinOut(_) =>
      step := if !s.out.reader.Reading? then JoinsOut
              else if s.out.buffered != [] then Reads(Stdout, 1) else SeesEof(Stdout);
    case JoinErr(_) =>
      step := if !s.err.reader.Reading? then JoinsErr
              else if s.err.buffered != [] then Reads(Stderr, 1) else SeesEof(Stderr);
  }

  /** No reachable state is stuck before the call has returned: some fault-free step of
      the harness is enabled, or a member of the group that keeps a pipe can act. */
  lemma NeverStuck(states: seq<State>, steps: seq<Step>, k: nat) returns (step: Step)
    requires IsRun(states, steps) && k < |states| && !states[k].main.Returned?
    ensures Enabled(states[k], step) && (OfHarness(step) || (AwaitsGroup(states[k]) && OfGroup(step)))
  {
    var s := states[k];
    RunsStaySound(states, steps, k);
    if AwaitsGroup(s) {
      var which := if s.main.JoinOut? then Stdout else Stderr;
      var i :| 0 <= i < |s.group| && Holds(s.group[i], which);
      step := Closes(i, which);
    } else {
      step := HarnessStep(s);
    }
  }

  function PipeWork(p: Pipe): nat {
    |p.buffered| + if p.reader.Reading? then 1 else 0
  }

  function WaiterWork(w: Waiter): nat {
    match w case Waiting => 2 case Holding(_) => 1 case _ => 0
  }

  function MainWork(m: Main): nat {
    match m
    case Receiving => 7 case DeadlinePassed => 6 case Terminating(_) => 5 case Killing(_) => 4
    case JoinWaiter(_) => 3 case JoinOut(_) => 2 case JoinErr(_) => 1 case Returned(_) => 0
  }

  /** Work left for the harness before the call returns. */
  function WorkLeft(s: State): nat {
    PipeWork(s.out) + PipeWork(s.err) + WaiterWork(s.waiter) + MainWork(s.main)
  }

  /** Every step outside the group, faults included, uses up work. */
  lemma StepsUseWork(s: State, step: Step)
    requires Enabled(s, step) && !OfGroup(step)
    ensures WorkLeft(Take(s, step)) < WorkLeft(s)
  {
    hide Open, Holds, Signalled;
    if OfReader(step) {
      hide MainWork, WaiterWork;
      assert PipeWork(Take(s, step).PipeOf(step.which)) < PipeWork(s.PipeOf(step.which));
    } else if OfWaiter(step) {
      hide MainWork, PipeWork;
    } else {
      hide PipeWork, WaiterWork;
    }
  }

  ghost predicate Quiet(s: State) {
    !Open(s, Stdout) && !Open(s, Stderr)
  }

  /** Once nobody holds a pipe, nobody ever does, and the group can no longer add work. */
  lemma QuietStays(s: State, step: Step)
    requires Quiet(s) && Enabled(s, step)
    ensures Quiet(Take(s, step))
    ensures OfGroup(step) ==> WorkLeft(Take(s, step)) == WorkLeft(s)
  {
    if step.Closes? || step.Forks? || step.Exits? || step.SendsTerm? || step.SendsKill? {
      GroupStepShrinks(s, step);
    } else {
      assert !step.Writes?;
      hide Open;
      SameGroup(s, Take(s, step));
    }
  }

  /** How many of the steps from `k` up to `m` are not the group's. */
  function HarnessSteps(steps: seq<Step>, k: nat, m: nat): nat
    requires k <= m <= |steps|
    decreases m
  {
    if k == m then 0 else HarnessSteps(steps, k, m - 1) + if OfGroup(steps[m - 1]) then 0 else 1
  }

  /** Once nobody holds a pipe, a call returns within the work left, however its steps
      interleave with the group's: no run has more steps of the harness than that. */
  lemma {:induction false} QuietCallsEnd(states: seq<State>, steps: seq<Step>, k: nat, m: nat)
    requires IsRun(states, steps) && k <= m < |states| && Quiet(states[k])
    ensures HarnessSteps(steps, k, m) + WorkLeft(states[m]) <= WorkLeft(states[k])
    ensures Quiet(states[m])
    ensures !states[m].main.Returned? ==> exists step :: OfHarness(step) && Enabled(states[m], step)
    decreases m
  {
    hide Enabled, Take, WorkLeft, Quiet, OfGroup;
    if k < m {
      QuietCallsEnd(states, steps, k, m - 1);
      QuietStays(states[m - 1], steps[m - 1]);
      if !OfGroup(steps[m - 1]) {
        StepsUseWork(states[m - 1], steps[m - 1]);
      }
    }
    if !states[m].main.Returned? {
      RunsStaySound(states, steps, m);
      QuietIsNotWaiting(states[m]);
      var step := HarnessStep(states[m]);
    }
  }

  lemma QuietIsNotWaiting(s: State)
    requires Quiet(s)
    ensures !AwaitsGroup(s)
  {
  }

  /** And no output is returned before that. */
  lemma OutputNeedsQuiet(states: seq<State>, steps: seq<Step>, k: nat)
    requires IsRun(states, steps) && k < |states|
    requires states[k].main.Returned? && states[k].main.outcome.Output?
    ensures Quiet(states[k])
  {
    RunsStaySound(states, steps, k);
  }

  /** The natural exit status has been taken, or is what main takes next: the kill is
      no longer possible. */
  predicate StatusIsIn(s: State) {
    match s.main
    case Receiving => s.message.Some? && s.message.value.Exited?
    case DeadlinePassed => s.message.Some? && s.message.value.Exited?
    case JoinWaiter(j) => j.AfterStatus?
    case JoinOut(j) => j.AfterStatus?
    case JoinErr(j) => j.AfterStatus?
    case _ => false
  }

  predicate Failed(p: Pipe) {
    p.reader.ReadError? || p.reader.ReaderPanicked?
  }

  /** Nothing holds up the two joins: the first reader failed, which ends the call at
      once; or nobody keeps stdout, and the second failed or nobody keeps stderr either. */
  ghost predicate Unobstructed(s: State) {
    Failed(s.out) || (!Open(s, Stdout) && (Failed(s.err) || !Open(s, Stderr)))
  }

  /** `t` is where `s` gets by fault-free steps of the harness alone. */
  ghost predicate ReachesAlone(s: State, steps: seq<Step>, t: State)
    decreases |steps|
  {
    if steps == [] then s == t
    else OfHarness(steps[0]) && Enabled(s, steps[0]) && ReachesAlone(Take(s, steps[0]), steps[1..], t)
  }

  ghost predicate ReturnsAlone(s: State) {
    exists steps, t :: ReachesAlone(s, steps, t) && t.main.Returned?
  }

  /** The exact reach of the deadline: in every reachable state the call can return
      without the group's help if and only if its status is not in yet (the kill is
      still to come, or the wait failed) or nothing holds up the joins. */
  lemma TimeoutReachesExactly(states: seq<State>, steps: seq<Step>, k: nat)
    requires IsRun(states, steps) && k < |states|
    ensures ReturnsAlone(states[k]) <==> !StatusIsIn(states[k]) || Unobstructed(states[k])
  {
    var s := states[k];
    RunsStaySound(states, steps, k);
    if !StatusIsIn(s) || Unobstructed(s) {
      var more, t := ReturnAlone(s);
    } else if ReturnsAlone(s) {
      var more, t :| ReachesAlone(s, more, t) && t.main.Returned?;
      KeptWaitingForever(s, more, t);
    }
  }

  lemma {:induction false} ReturnAlone(s: State) returns (steps: seq<Step>, t: State)
    requires Sound(s) && (!StatusIsIn(s) || Unobstructed(s))
    ensures ReachesAlone(s, steps, t) && t.main.Returned?
    decreases WorkLeft(s)
  {
    hide Sound, Unobstructed, StatusIsIn, WorkLeft, Enabled, Take, OfHarness, AwaitsGroup;
    if s.main.Returned? {
      steps, t := [], s;
    } else {
      FreeIsNotWaiting(s);
      var step := HarnessStep(s);
      HarnessIsNotGroup(step);
      FreeStays(s, step);
      StepsUseWork(s, step);
      StepsKeepSound(s, step);
      var more, u := ReturnAlone(Take(s, step));
      steps, t := [step] + more, u;
      assert steps[1..] == more;
    }
  }

  lemma HarnessIsNotGroup(step: Step)
    requires OfHarness(step)
    ensures !OfGroup(step)
  {
  }

  lemma FreeIsNotWaiting(s: State)
    requires Sound(s) && (!StatusIsIn(s) || Unobstructed(s))
    ensures !AwaitsGroup(s)
  {
    hide GroupSound, ChannelSound, AllDead;
  }

  /** A harness that still may kill does so, rather than take a status. */
  lemma FreeStays(s: State, step: Step)
    requires Sound(s) && Enabled(s, step) && OfHarness(step) && (!StatusIsIn(s) || Unobstructed(s))
    requires s.main.Receiving? ==> step == TimesOut
    requires s.main.DeadlinePassed? ==> step == TriesReceive
    ensures !StatusIsIn(Take(s, step)) || Unobstructed(Take(s, step))
  {
    hide Sound, Unobstructed, StatusIsIn, Enabled, Take;
    if Unobstructed(s) {
      UnobstructedStays(s, step);
    } else {
      StatusStaysOut(s, step);
    }
  }

  lemma StatusStaysOut(s: State, step: Step)
    requires !StatusIsIn(s) && Enabled(s, step) && OfHarness(step)
    requires s.main.Receiving? ==> step == TimesOut
    requires s.main.DeadlinePassed? ==> step == TriesReceive
    ensures !StatusIsIn(Take(s, step))
  {
    hide Open, Signalled, Holds;
  }

  lemma UnobstructedStays(s: State, step: Step)
    requires Unobstructed(s) && Enabled(s, step) && OfHarness(step)
    ensures Unobstructed(Take(s, step))
  {
    if step.SendsTerm? || step.SendsKill? {
      GroupStepShrinks(s, step);
    } else {
      SameGroup(s, Take(s, step));
    }
    hide Open, AllDead;
  }

  /** A status is in, and a join is held up by someone who keeps a pipe. */
  ghost predicate KeptWaiting(s: State) {
    Sound(s) && StatusIsIn(s) && !Unobstructed(s)
  }

  lemma KeptWaitingStays(s: State, step: Step)
    requires KeptWaiting(s) && Enabled(s, step) && OfHarness(step)
    ensures KeptWaiting(Take(s, step))
  {
    StepsKeepSound(s, step);
    assert Take(s, step).group == s.group;
    SameGroup(s, Take(s, step));
    hide Open, AllDead;
  }

  lemma {:induction false} KeptWaitingForever(s: State, steps: seq<Step>, t: State)
    requires KeptWaiting(s) && ReachesAlone(s, steps, t)
    ensures !t.main.Returned?
    decreases |steps|
  {
    if steps != [] {
      hide Take, Enabled;
      KeptWaitingStays(s, steps[0]);
      KeptWaitingForever(Take(s, steps[0]), steps[1..], t);
    }
  }

  /** Such a wait is reachable well before the deadline: the child leaves a descendant
      holding its stdout and exits. */
  lemma OutlivedChildExample() returns (states: seq<State>, steps: seq<Step>)
    ensures IsRun(states, steps) && steps == [Forks(0), Exits(0, 0), Reaps, SendsReport, Receives]
    ensures KeptWaiting(Last(states)) && !ReturnsAlone(Last(states))
    ensures WritesFreely(Last(states))
  {
    var s1 := Take(SPAWNED, Forks(0));
    var s2 := Take(s1, Exits(0, 0));
    var s3 := Take(s2, Reaps);
    var s4 := Take(s3, SendsReport);
    var s5 := Take(s4, Receives);
    assert WritesFreely(s5) && StatusIsIn(s5);
    StillOpen(s5);
    hide Take, Enabled;
    states, steps := FiveSteps(SPAWNED, Forks(0), s1, Exits(0, 0), s2, Reaps, s3, SendsReport, s4, Receives, s5);
    hide ReturnsAlone, WritesFreely, StatusIsIn, Unobstructed;
    RunsStaySound(states, steps, 5);
    TimeoutReachesExactly(states, steps, 5);
  }

  /** The only descendant holds stdout, and its reader keeps up with it. */
  ghost predicate WritesFreely(s: State) {
    && s.main.JoinWaiter? && s.out.buffered == [] && s.out.reader.Reading?
    && |s.group| == 2 && Holds(s.group[1], Stdout)
  }

  lemma OneMore(states: seq<State>, steps: seq<Step>, step: Step)
    requires IsRun(states, steps) && Enabled(Last(states), step)
    ensures IsRun(states + [Take(Last(states), step)], steps + [step])
    ensures HarnessSteps(steps + [step], 0, |steps| + 1)
            == HarnessSteps(steps, 0, |steps|) + if OfGroup(step) then 0 else 1
  {
    hide Enabled, Take, OfGroup;
    SamePrefix(steps, step, |steps|);
    var more, longer := states + [Take(Last(states), step)], steps + [step];
    forall k | 0 <= k < |longer| ensures Enabled(more[k], longer[k]) && more[k + 1] == Take(more[k], longer[k]) {
      assert more[k] == states[k];
      if k < |steps| {
        assert longer[k] == steps[k] && more[k + 1] == states[k + 1];
      } else {
        assert longer[k] == step;
      }
    }
  }

  lemma {:induction false} SamePrefix(steps: seq<Step>, step: Step, m: nat)
    requires m <= |steps|
    ensures HarnessSteps(steps + [step], 0, m) == HarnessSteps(steps, 0, m)
  {
    if m > 0 {
      SamePrefix(steps, step, m - 1);
    }
  }

  /** Output does not help: while a descendant keeps writing, the call can go on through
      any number of the harness's steps without returning, and no deadline is left. */
  lemma {:induction false} ChattyDescendantExample(n: nat) returns (states: seq<State>, steps: seq<Step>)
    ensures IsRun(states, steps) && TimesOut !in steps
    ensures HarnessSteps(steps, 0, |steps|) >= n && KeptWaiting(Last(states))
    ensures WritesFreely(Last(states))
  {
    if n == 0 {
      states, steps := OutlivedChildExample();
    } else {
      states, steps := ChattyDescendantExample(n - 1);
      var s := Last(states);
      var written := Take(s, Writes(1, Stdout, [0]));
      var read := Take(written, Reads(Stdout, 1));
      assert WritesFreely(read) && StatusIsIn(read);
      StillOpen(read);
      OneMore(states, steps, Writes(1, Stdout, [0]));
      states, steps := states + [written], steps + [Writes(1, Stdout, [0])];
      OneMore(states, steps, Reads(Stdout, 1));
      states, steps := states + [read], steps + [Reads(Stdout, 1)];
      hide Take, Enabled, WritesFreely, StatusIsIn, Unobstructed, Sound, HarnessSteps;
      RunsStaySound(states, steps, |steps|);
    }
  }

  lemma StillOpen(s: State)
    requires WritesFreely(s)
    ensures !Unobstructed(s)
  {
  }

  /** After the kill every step of anyone uses up work, so every run ends. */
  lemma KillPathShrinks(s: State, step: Step)
    requires Sound(s) && !s.received && Enabled(s, step)
    requires s.main.JoinWaiter? || s.main.JoinOut? || s.main.JoinErr?
    ensures WorkLeft(Take(s, step)) < WorkLeft(s)
    ensures var t := Take(s, step);
            !t.received && (t.main.JoinWaiter? || t.main.JoinOut? || t.main.JoinErr? || t.main.Returned?)
  {
    hide WorkLeft;
    StepsUseWork(s, step);
  }

  /** A killed run returns within `WorkLeft` further steps, whatever they are. */
  lemma {:induction false} KillPathEnds(states: seq<State>, steps: seq<Step>, k: nat, m: nat)
    requires IsRun(states, steps) && k <= m < |states|
    requires !states[k].received
    requires states[k].main.JoinWaiter? || states[k].main.JoinOut? || states[k].main.JoinErr?
    requires m - k > WorkLeft(states[k])
    ensures exists e | k <= e <= m :: states[e].main.Returned?
  {
    hide WorkLeft, Take, Enabled, Sound;
    var e := k;
    while e < m && !states[e].main.Returned?
      invariant k <= e <= m && !states[e].received
      invariant states[e].main.JoinWaiter? || states[e].main.JoinOut? || states[e].main.JoinErr? || states[e].main.Returned?
      invariant states[e].main.Returned? || WorkLeft(states[e]) + (e - k) <= WorkLeft(states[k])
    {
      RunsStaySound(states, steps, e);
      KillPathShrinks(states[e], steps[e]);
      e := e + 1;
    }
  }

  // ---- what an error tells the caller ----

  /** Why a state is on the kill path. */
  function KillCause(m: Main): Option<KillReason> {
    match m
    case DeadlinePassed => Some(Timeout)
    case Terminating(why) => Some(why)
    case Killing(why) => Some(why)
    case JoinWaiter(AfterKill(why)) => Some(why)
    case JoinOut(AfterKill(why)) => Some(why)
    case JoinErr(AfterKill(why)) => Some(why)
    case Returned(TimedOutError) => Some(Timeout)
    case Returned(DisconnectedError) => Some(WaiterLost)
    case _ => None
  }

  /** The history that brought a state about: whether the deadline passed, the channel was
      found broken, and the wait failed. */
  ghost predicate Explained(s: State, late: bool, lost: bool, failed: bool) {
    && (KillCause(s.main) == Some(Timeout) ==> late)
    && (KillCause(s.main) == Some(WaiterLost) ==> lost)
    && (s.waiter == Holding(WaitError) || s.message == Some(WaitError) || s.main == Returned(WaitFailed) ==> failed)
    && (s.main == Returned(StdoutFailed) ==> Failed(s.out))
    && (s.main == Returned(StderrFailed) ==> Failed(s.err) && s.out.reader.AtEof?)
  }

  lemma ReaderOnly(s: State, step: Step)
    requires Enabled(s, step) && OfReader(step)
    ensures var t := Take(s, step);
            && t.main == s.main && t.waiter == s.waiter && t.message == s.message
            && (!s.out.reader.Reading? ==> t.out.reader == s.out.reader)
            && (!s.err.reader.Reading? ==> t.err.reader == s.err.reader)
  {
    hide Open;
  }

  lemma ReaderExplains(s: State, step: Step, late: bool, lost: bool, failed: bool)
    requires Explained(s, late, lost, failed) && Enabled(s, step) && OfReader(step)
    ensures Explained(Take(s, step), late, lost, failed)
  {
    hide Enabled, Take, KillCause;
    ReaderOnly(s, step);
  }

  lemma WaiterExplains(s: State, step: Step, late: bool, lost: bool, failed: bool)
    requires Explained(s, late, lost, failed) && Enabled(s, step) && OfWaiter(step)
    ensures Explained(Take(s, step), late, lost, failed || step == WaitErrs)
  {
    hide Open, KillCause;
  }

  lemma GroupExplains(s: State, step: Step, late: bool, lost: bool, failed: bool)
    requires Explained(s, late, lost, failed) && Enabled(s, step) && OfGroup(step)
    ensures Explained(Take(s, step), late, lost, failed)
  {
    hide Holds, KillCause;
  }

  lemma MainExplains(s: State, step: Step, late: bool, lost: bool, failed: bool)
    requires Explained(s, late, lost, failed) && Enabled(s, step)
    requires !OfReader(step) && !OfWaiter(step) && !OfGroup(step)
    requires s.main.JoinErr? && s.main.j.AfterStatus? ==> s.out.reader.AtEof?
    ensures Explained(Take(s, step), late || step == TimesOut, lost || step == SeesDisconnect, failed)
  {
    hide Open, Holds, Signalled;
  }

  lemma ErrIsLast(s: State)
    requires Sound(s) && s.main.JoinErr? && s.main.j.AfterStatus?
    ensures s.out.reader.AtEof?
  {
  }

  lemma ExplainsOn(s: State, step: Step, late: bool, lost: bool, failed: bool)
    requires Explained(s, late, lost, failed) && Sound(s) && Enabled(s, step)
    ensures Explained(Take(s, step), late || step == TimesOut, lost || step == SeesDisconnect, failed || step == WaitErrs)
  {
    hide Explained, Enabled, Take, Sound;
    if s.main.JoinErr? && s.main.j.AfterStatus? {
      ErrIsLast(s);
    }
    if OfReader(step) {
      ReaderExplains(s, step, late, lost, failed);
    } else if OfWaiter(step) {
      WaiterExplains(s, step, late, lost, failed);
    } else if OfGroup(step) {
      GroupExplains(s, step, late, lost, failed);
    } else {
      MainExplains(s, step, late, lost, failed);
    }
  }

  lemma {:induction false} RunsAreExplained(states: seq<State>, steps: seq<Step>, k: nat)
    requires IsRun(states, steps) && k < |states|
    ensures Explained(states[k], TimesOut in steps[..k], SeesDisconnect in steps[..k], WaitErrs in steps[..k])
  {
    hide Take, Enabled, Sound, Explained;
    if k > 0 {
      RunsAreExplained(states, steps, k - 1);
      RunsStaySound(states, steps, k - 1);
      ExplainsOn(states[k - 1], steps[k - 1],
                 TimesOut in steps[..k - 1], SeesDisconnect in steps[..k - 1], WaitErrs in steps[..k - 1]);
      assert steps[..k] == steps[..k - 1] + [steps[k - 1]];
    } else {
      NothingToExplain();
    }
  }

  lemma NothingToExplain()
    ensures Explained(SPAWNED, false, false, false)
  {
  }

  /** Every error names what happened: the deadline passed, the waiter was found lost, the
      wait failed, or the named pipe could not be read to its end. */
  lemma ErrorsAreTrue(states: seq<State>, steps: seq<Step>, k: nat)
    requires IsRun(states, steps) && k < |states|
    ensures states[k].main == Returned(TimedOutError) ==> TimesOut in steps[..k]
    ensures states[k].main == Returned(DisconnectedError) ==> SeesDisconnect in steps[..k]
    ensures states[k].main == Returned(WaitFailed) ==> WaitErrs in steps[..k]
    ensures states[k].main == Returned(StdoutFailed) ==> Failed(states[k].out)
    ensures states[k].main == Returned(StderrFailed) ==> Failed(states[k].err) && states[k].out.reader.AtEof?
  {
    RunsAreExplained(states, steps, k);
  }
}
