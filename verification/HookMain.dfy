/** The hook: collect, resolve, execute; and what its exit status 0 certifies. */
module HookMain {
  import opened Std
  import opened PyText
  import opened HookManifest
  import opened HookCollect
  import opened HookExecute

  /** Manual use without any stdin: best effort on the upstream range. `None` is an
      abort before any gate runs. */
  function ManualUpstreamChanges(git: Git): Option<Changes> {
    match git(RevParseUpstream)
    case CannotRun => None
    case Ran(_, stdout) =>
      var upstream := Strip(stdout);
      if upstream == "" then Some(ChangeSet([], None))
      else match git(Diff(upstream, "HEAD"))
        case CannotRun => None
        case Ran(code, output) => if code != 0 then None else Some(ChangeSet(SplitNul(output), None))
  }

  /** Without an announcement: what the upstream branch lacks, nothing if there is none. */
  ghost predicate Unpushed(git: Git, paths: seq<string>) {
    && git(RevParseUpstream).Ran?
    && var upstream := Strip(git(RevParseUpstream).stdout);
       if upstream == "" then paths == [] else Lists(git, Diff(upstream, "HEAD"), paths)
  }

  lemma UpstreamExactly(git: Git, paths: seq<string>)
    ensures ManualUpstreamChanges(git) == Some(ChangeSet(paths, None)) <==> Unpushed(git, paths)
    ensures ManualUpstreamChanges(git).Some? ==> ManualUpstreamChanges(git).value.unknown == None
  {
    hide Strip, SplitNul, Framed;
    if git(RevParseUpstream).Ran? {
      var range := git(Diff(Strip(git(RevParseUpstream).stdout), "HEAD"));
      if range.Ran? {
        ListingIsRead(range.stdout, paths);
      }
    }
  }

  ghost predicate IsBlank(s: string) {
    forall i | 0 <= i < |s| :: IsSpace(s[i])
  }

  /** Passed a run: started, and exited with 0. */
  ghost predicate Passed(g: Gate, ran: seq<Gate>, run: Gate -> GateRun) {
    g in ran && run(g) == Exit(0)
  }

  /** The pre-push certificate: every pre-push gate that covers a pushed path passed,
      and if anything about the push could not be determined, all of them did. */
  ghost predicate PushCertified(git: Git, lines: seq<string>, ran: seq<Gate>, run: Gate -> GateRun) {
    forall g | g in GATES && PrePush in g.phases ::
      (!AllKnown(git, lines)
       || exists p | Pushed(git, lines, p) :: ClassifyPath(p) == Unknown || ClassifyPath(p) in g.surfaces)
      ==> Passed(g, ran, run)
  }

  /** The pre-commit certificate, over the staged paths. */
  ghost predicate CommitCertified(git: Git, ran: seq<Gate>, run: Gate -> GateRun) {
    forall g | g in GATES && PreCommit in g.phases ::
      ((forall paths :: !Lists(git, DiffCached, paths))
       || exists paths | Lists(git, DiffCached, paths) ::
            exists p | p in paths :: ClassifyPath(p) == Unknown || ClassifyPath(p) in g.surfaces)
      ==> Passed(g, ran, run)
  }

  ghost predicate Covers(g: Gate, p: string) {
    ClassifyPath(p) == Unknown || ClassifyPath(p) in g.surfaces
  }

  /** The hook has to run this gate: something it was told or asked Git about could not
      be determined, or some changed path needs the gate. */
  ghost predicate Needed(g: Gate, phase: HookPhase, git: Git, stdin: string) {
    phase in g.phases &&
    match phase
    case PreCommit =>
      (forall paths :: !Lists(git, DiffCached, paths))
      || (exists paths | Lists(git, DiffCached, paths) :: exists p | p in paths :: Covers(g, p))
    case PrePush =>
      if stdin == "" then
        exists paths | Unpushed(git, paths) :: exists p | p in paths :: Covers(g, p)
      else
        !AllKnown(git, SplitLines(stdin)) || exists p | Pushed(git, SplitLines(stdin), p) :: Covers(g, p)
    case _ => false
  }

  /** The needed gates, in manifest order. */
  ghost function NeededAmong(gates: seq<Gate>, phase: HookPhase, git: Git, stdin: string): seq<Gate> {
    if gates == [] then []
    else
      var front := NeededAmong(gates[..|gates| - 1], phase, git, stdin);
      if Needed(Last(gates), phase, git, stdin) then front + [Last(gates)] else front
  }

  /** Nothing can be run: no such phase, or Git has no answer for manual use. */
  ghost predicate Aborts(phase: HookPhase, git: Git, stdin: string) {
    phase !in BOTH || (phase == PrePush && stdin == "" && forall paths :: !Unpushed(git, paths))
  }

  lemma {:induction false} SelectsNeeded(gates: seq<Gate>, phase: HookPhase, git: Git, stdin: string, changes: Changes)
    requires forall g | g in gates :: Selects(g, phase, changes) <==> Needed(g, phase, git, stdin)
    ensures SelectFrom(gates, phase, changes) == NeededAmong(gates, phase, git, stdin)
  {
    hide Selects, Needed;
    if gates != [] {
      SelectsNeeded(gates[..|gates| - 1], phase, git, stdin, changes);
    }
  }

  lemma {:induction false} NeededAmongMembers(gates: seq<Gate>, phase: HookPhase, git: Git, stdin: string)
    ensures forall g :: g in NeededAmong(gates, phase, git, stdin) <==> g in gates && Needed(g, phase, git, stdin)
  {
    hide Needed;
    if gates != [] {
      NeededAmongMembers(gates[..|gates| - 1], phase, git, stdin);
      assert gates == gates[..|gates| - 1] + [Last(gates)];
    }
  }

  /** The change set the hook works on is complete: paths and reasons are what the
      phase's input and Git say. */
  ghost predicate Describes(changes: Changes, phase: HookPhase, git: Git, stdin: string) {
    forall g | g in GATES ::
      Needed(g, phase, git, stdin)
      <==> phase in g.phases && (changes.unknown.Some? || exists p | p in changes.paths :: Covers(g, p))
  }

  lemma ResolvesNeeded(phase: HookPhase, git: Git, stdin: string, changes: Changes)
    requires phase in BOTH && Describes(changes, phase, git, stdin)
    ensures ResolveGates(phase, changes) == Some(NeededAmong(GATES, phase, git, stdin))
  {
    assert forall g | g in GATES :: !g.always;
    hide GATES, Needed, Selects, ClassifyPath;
    SelectFromMembers(GATES, phase, changes);
    forall g | g in GATES ensures Selects(g, phase, changes) <==> Needed(g, phase, git, stdin) {
      SelectedExactly(phase, changes, g);
    }
    SelectsNeeded(GATES, phase, git, stdin, changes);
  }

  /** Run the hook. The result is 0 exactly when every needed gate passes, and then
      those are the gates that ran; otherwise the last gate started is the first that
      failed. Exit status 0 of a real push or commit is a certificate. */
  method RunHook(phase: HookPhase, stdin: string, git: Git, run: Gate -> GateRun)
    returns (r: HookResult, ran: seq<Gate>)
    ensures Aborts(phase, git, stdin) ==> r == Raised && ran == []
    ensures !Aborts(phase, git, stdin) ==>
              var needed := NeededAmong(GATES, phase, git, stdin);
              && ran <= needed
              && (r == Returned(0) <==> AllPass(needed, run))
              && (r == Returned(0) ==> ran == needed)
              && (r != Returned(0) ==>
                    && ran != [] && AllPass(ran[..|ran| - 1], run)
                    && run(Last(ran)) != Exit(0) && r == StoppedBy(run(Last(ran))))
    ensures r == Returned(0) && phase == PreCommit ==> CommitCertified(git, ran, run)
    ensures r == Returned(0) && phase == PrePush && stdin != "" ==> PushCertified(git, SplitLines(stdin), ran, run)
  {
    hide GATES, ClassifyPath, CollectedAs, AllKnown, AllCollected, PathsBefore, Unpushed, ManualUpstreamChanges, SplitLines, Strip;
    hide Needed, NeededAmong, Describes, PushCertified, CommitCertified;
    if phase !in BOTH {
      return Raised, [];
    }
    var changes: Changes;
    if phase == PreCommit {
      changes := CollectPreCommitChanges(git);
      StagedAreDescribed(git, stdin);
    } else {
      var lines := SplitLines(stdin);
      changes := CollectPrePushChanges(git, lines);
      if stdin != "" {
        PushedAreDescribed(git, stdin, changes);
      } else {
        NothingAnnounced(git, changes);
      }
      if changes.unknown.None? && Strip(stdin) == "" {
        if stdin != "" {
          StripBlank(stdin);
          BlankStdinFails(git, stdin);
        }
        var manual := ManualUpstreamChanges(git);
        if manual.None? {
          NoUpstream(git);
          return Raised, [];
        }
        SomeUpstream(git);
        changes := manual.value;
        ManualAreDescribed(git, changes);
      }
    }
    ResolvesNeeded(phase, git, stdin, changes);
    r, ran := ExecuteGates(phase, changes, run);
    NeededAmongMembers(GATES, phase, git, stdin);
    if r == Returned(0) {
      Certified(phase, git, stdin, ran, run);
    }
  }

  lemma StagedAreDescribed(git: Git, stdin: string)
    ensures Describes(CollectPreCommitChanges(git), PreCommit, git, stdin)
  {
    hide GATES, Covers, DiffPaths, Lists;
    forall paths ensures DiffPaths(git, DiffCached) == Ok(paths) <==> Lists(git, DiffCached, paths) {
      DiffExactly(git, DiffCached, paths);
    }
  }

  lemma ManualAreDescribed(git: Git, changes: Changes)
    requires ManualUpstreamChanges(git) == Some(changes)
    ensures Describes(changes, PrePush, git, "")
  {
    hide GATES, Covers, ManualUpstreamChanges, Unpushed;
    forall paths ensures ManualUpstreamChanges(git) == Some(ChangeSet(paths, None)) <==> Unpushed(git, paths) {
      UpstreamExactly(git, paths);
    }
    UpstreamExactly(git, changes.paths);
  }

  lemma NoUpstream(git: Git)
    requires ManualUpstreamChanges(git).None?
    ensures forall paths :: !Unpushed(git, paths)
  {
    hide ManualUpstreamChanges, Unpushed;
    forall paths ensures !Unpushed(git, paths) {
      UpstreamExactly(git, paths);
    }
  }

  lemma SomeUpstream(git: Git)
    requires ManualUpstreamChanges(git).Some?
    ensures exists paths :: Unpushed(git, paths)
  {
    hide ManualUpstreamChanges, Unpushed;
    UpstreamExactly(git, ManualUpstreamChanges(git).value.paths);
  }

  lemma PushedAreDescribed(git: Git, stdin: string, changes: Changes)
    requires stdin != "" && CollectedAs(git, SplitLines(stdin), changes)
    ensures Describes(changes, PrePush, git, stdin)
    ensures changes.unknown.None? ==> AllKnown(git, SplitLines(stdin))
  {
    hide GATES, Covers, Changed, SplitLines, AllKnown, Pushed, CollectedAs;
    var lines := SplitLines(stdin);
    if changes.unknown.None? {
      LinePathsAreCollected(git, lines, changes);
    } else {
      StoppedIsUnknown(git, lines, changes);
    }
  }

  lemma NothingAnnounced(git: Git, changes: Changes)
    requires CollectedAs(git, SplitLines(""), changes)
    ensures changes.unknown.None? && Strip("") == ""
  {
  }

  lemma StoppedIsUnknown(git: Git, lines: seq<string>, changes: Changes)
    requires CollectedAs(git, lines, changes) && changes.unknown.Some?
    ensures !AllKnown(git, lines)
  {
    hide Known, EachChanged;
  }

  lemma Certified(phase: HookPhase, git: Git, stdin: string, ran: seq<Gate>, run: Gate -> GateRun)
    requires AllPass(ran, run)
    requires forall g :: g in ran <==> g in GATES && Needed(g, phase, git, stdin)
    ensures phase == PreCommit ==> CommitCertified(git, ran, run)
    ensures phase == PrePush && stdin != "" ==> PushCertified(git, SplitLines(stdin), ran, run)
  {
    hide GATES, ClassifyPath, AllKnown, Pushed, SplitLines, Lists;
  }

  lemma {:induction false} StripBlank(s: string)
    requires Strip(s) == ""
    ensures IsBlank(s)
  {
    LstripBlank(s);
    RstripBlank(Lstrip(s));
  }

  lemma {:induction false} RstripBlank(s: string)
    requires Rstrip(s) == ""
    ensures IsBlank(s)
  {
    if s != "" && IsSpace(s[|s| - 1]) {
      RstripBlank(s[..|s| - 1]);
      assert forall i | 0 <= i < |s| - 1 :: s[i] == s[..|s| - 1][i];
    }
  }

  lemma {:induction false} LstripBlank(s: string)
    ensures IsBlank(Lstrip(s)) ==> IsBlank(s)
  {
    if s != "" && IsSpace(s[0]) {
      LstripBlank(s[1..]);
      assert forall i | 1 <= i < |s| :: s[i] == s[1..][i - 1];
    }
  }
}
