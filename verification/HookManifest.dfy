/** The hook's data layer: path surfaces, classification and the gate manifest. */
module HookManifest {
  import opened Std
  import opened PyText

  datatype HookPhase = PreCommit | PrePush | OtherPhase(name: string)

  datatype Surface =
    | RustWorkspace | CollabProtocol | HookSelfTest | Skills | Workflows | Docs | InertConfig
    | Unknown // not declared: the fail-closed fallback

  const COLLAB_EXACT_PATHS := {
    ".claude-plugin/commands/collab.md", ".codex-plugin/commands/collab.md",
    ".codex-plugin/prompts/collab-plan-draft.md", ".codex-plugin/prompts/collab-plan-review.md",
    ".codex-plugin/prompts/collab-global-review.md", ".codex-plugin/prompts/collab-recovery.md",
    ".codex-plugin/prompts/collab-batch-impl.md", "docs/COLLAB.md",
    "scripts/check_collab_turn_templates.py", "scripts/install-ironmem.sh"
  }

  const HOOK_EXACT_PATHS := {
    ".githooks/pre-commit", ".githooks/pre-push", "scripts/install-git-hooks.sh",
    "scripts/run_git_hook.py", "scripts/test_run_git_hook.py", "scripts/git_hook/__init__.py",
    "scripts/git_hook/collect.py", "scripts/git_hook/execute.py", "scripts/git_hook/manifest.py",
    "scripts/git_hook/runtime.py"
  }

  const SKILLS_EXACT_PATHS := {
    "scripts/sync_skills.py", "scripts/check_skills_sync.py", "scripts/test_sync_skills.py"
  }

  const INERT_EXTENSIONS := [".json", ".jsonc", ".jsonl", ".yaml", ".yml", ".sh", ".csv"]

  // ---- the surfaces ----

  /** The final component of a POSIX path, as pathlib normalizes it. */
  function PosixName(path: string): string {
    LastName(SplitOn(path, '/'))
  }

  function LastName(segments: seq<string>): string {
    if segments == [] then ""
    else if Last(segments) != "" && Last(segments) != "." then Last(segments)
    else LastName(segments[..|segments| - 1])
  }

  predicate IsRustShaped(path: string) {
    EndsWith(path, ".rs") || PosixName(path) in {"Cargo.toml", "Cargo.lock", "build.rs"} || ".cargo/" <= path
  }

  predicate IsRustPath(path: string) {
    Head(path, '/') != "benchmarks" && IsRustShaped(path)
  }

  predicate IsCollabProtocolPath(path: string) {
    || path in COLLAB_EXACT_PATHS
    || ".claude-plugin/prompts/collab-turn-" <= path
    || "tests/collab_turn_templates/" <= path
  }

  predicate IsHookPath(path: string) {
    path in HOOK_EXACT_PATHS
  }

  /** The shape of a harness plugin root: a whole segment `.…-plugin`. */
  predicate IsPluginSegment(segment: string) {
    "." <= segment && EndsWith(segment, "-plugin")
  }

  predicate IsSkillsPath(path: string) {
    var segments := SplitOn(path, '/');
    || path in SKILLS_EXACT_PATHS
    || segments[0] == "skills"
    || (|segments| >= 2 && IsPluginSegment(segments[0]) && segments[1] == "skills")
  }

  predicate IsWorkflowPath(path: string) {
    var segments := SplitOn(path, '/');
    |segments| >= 3 && IsPluginSegment(segments[0]) && segments[1] == "workflows" && EndsWith(path, ".js")
  }

  predicate IsPluginPath(path: string) {
    IsPluginSegment(Head(path, '/'))
  }

  predicate IsDocsPath(path: string) {
    !IsPluginPath(path) && (EndsWith(path, ".md") || Head(path, '/') == "docs")
  }

  predicate IsInertConfigPath(path: string) {
    && !IsPluginPath(path)
    && ((exists i | 0 <= i < |INERT_EXTENSIONS| :: EndsWith(path, INERT_EXTENSIONS[i]))
        || Head(path, '/') == "site" || Head(path, '/') == "benchmarks")
  }

  predicate IsControl(c: char) {
    c != '\n' && c != '\r' && ((c as int) < 0x20 || (c as int) == 0x7F)
  }

  predicate IsUnsafe(path: string) {
    || path == "" || "/" <= path || "-" <= path
    || (exists i | 0 <= i < |path| :: IsControl(path[i]))
    || ".." in SplitOn(path, '/')
  }

  /** The first declared surface that claims the path; never sanitizes it. */
  function ClassifyPath(path: string): Surface {
    if IsUnsafe(path) then Unknown
    else if IsRustPath(path) then RustWorkspace
    else if IsCollabProtocolPath(path) then CollabProtocol
    else if IsHookPath(path) then HookSelfTest
    else if IsSkillsPath(path) then Skills
    else if IsWorkflowPath(path) then Workflows
    else if IsDocsPath(path) then Docs
    else if IsInertConfigPath(path) then InertConfig
    else Unknown
  }

  // ---- gates ----

  datatype GateName =
    | HookSelfTestGate | HookInstallCheck | CollabTemplateLint | SkillsSyncCheck
    | RustFmtCheck | RustClippy | RustTest | UltrareviewSelfTest

  datatype Gate = Gate(name: GateName, phases: set<HookPhase>, surfaces: set<Surface>, always: bool)

  const BOTH := {PreCommit, PrePush}

  /** Declaration order is execution order. */
  const GATES: seq<Gate> := [
    Gate(HookSelfTestGate, BOTH, {HookSelfTest}, false),
    Gate(HookInstallCheck, {PreCommit}, {HookSelfTest}, false),
    Gate(CollabTemplateLint, BOTH, {CollabProtocol}, false),
    Gate(SkillsSyncCheck, BOTH, {Skills}, false),
    Gate(RustFmtCheck, {PreCommit}, {RustWorkspace}, false),
    Gate(RustClippy, {PreCommit}, {RustWorkspace}, false),
    Gate(RustTest, {PrePush}, {RustWorkspace}, false),
    Gate(UltrareviewSelfTest, BOTH, {Workflows}, false)
  ]

  /** `unknown` carries the reason why the change set could not be determined. */
  datatype ChangeSet<Reason> = ChangeSet(paths: seq<string>, unknown: Option<Reason>)

  /** Keep the first occurrence of every element. */
  function Dedup(xs: seq<string>): seq<string> {
    if xs == [] then []
    else
      var front := Dedup(xs[..|xs| - 1]);
      if Last(xs) in front then front else front + [Last(xs)]
  }

  function Surfaces(paths: seq<string>): set<Surface> {
    set i | 0 <= i < |paths| :: ClassifyPath(paths[i])
  }

  predicate Selects<Reason>(gate: Gate, phase: HookPhase, changes: ChangeSet<Reason>) {
    var touched := Surfaces(Dedup(changes.paths));
    && phase in gate.phases
    && (gate.always || changes.unknown.Some? || Unknown in touched || touched * gate.surfaces != {})
  }

  function SelectFrom<Reason>(gates: seq<Gate>, phase: HookPhase, changes: ChangeSet<Reason>): seq<Gate> {
    if gates == [] then []
    else
      var front := SelectFrom(gates[..|gates| - 1], phase, changes);
      if Selects(Last(gates), phase, changes) then front + [Last(gates)] else front
  }

  /** The gates a phase must run; `None` is the error for an undeclared phase. */
  function ResolveGates<Reason>(phase: HookPhase, changes: ChangeSet<Reason>): Option<seq<Gate>> {
    if phase !in BOTH then None else Some(SelectFrom(GATES, phase, changes))
  }

  // ---- laws of the resolver ----

  lemma {:induction false} DedupKeepsElements(xs: seq<string>)
    ensures forall x :: x in Dedup(xs) <==> x in xs
  {
    if xs != [] {
      DedupKeepsElements(xs[..|xs| - 1]);
      assert xs == xs[..|xs| - 1] + [Last(xs)];
    }
  }

  /** What stays is first seen: more paths are only added behind, and none is there twice. */
  lemma {:induction false} DedupIsFirstSeen(xs: seq<string>, ys: seq<string>)
    ensures Dedup(xs) <= Dedup(xs + ys)
    ensures forall i, j | 0 <= i < j < |Dedup(xs + ys)| :: Dedup(xs + ys)[i] != Dedup(xs + ys)[j]
    decreases |xs| + |ys|
  {
    if ys != [] {
      var front := ys[..|ys| - 1];
      assert (xs + ys)[..|xs + ys| - 1] == xs + front;
      DedupIsFirstSeen(xs, front);
    } else {
      assert xs + ys == xs;
      if xs != [] {
        assert xs[..|xs| - 1] + [] == xs[..|xs| - 1];
        DedupIsFirstSeen(xs[..|xs| - 1], []);
      }
    }
  }

  lemma TouchedSurfaces(paths: seq<string>)
    ensures forall s :: s in Surfaces(Dedup(paths)) <==> exists p | p in paths :: ClassifyPath(p) == s
  {
    hide ClassifyPath;
    DedupKeepsElements(paths);
    forall p | p in paths ensures ClassifyPath(p) in Surfaces(Dedup(paths)) {
      var i :| 0 <= i < |Dedup(paths)| && Dedup(paths)[i] == p;
    }
  }

  lemma {:induction false} SelectFromMembers<Reason>(gates: seq<Gate>, phase: HookPhase, changes: ChangeSet<Reason>)
    ensures forall g :: g in SelectFrom(gates, phase, changes) <==> g in gates && Selects(g, phase, changes)
  {
    hide Selects;
    if gates != [] {
      SelectFromMembers(gates[..|gates| - 1], phase, changes);
      assert gates == gates[..|gates| - 1] + [Last(gates)];
    }
  }

  /** A gate runs for a phase exactly when something forces every gate, or some
      changed path is of a surface it covers. */
  lemma SelectedExactly<Reason>(phase: HookPhase, changes: ChangeSet<Reason>, g: Gate)
    requires phase in BOTH && g in GATES
    ensures g in ResolveGates(phase, changes).value
            <==> && phase in g.phases
                 && (g.always || changes.unknown.Some?
                     || exists p | p in changes.paths :: ClassifyPath(p) == Unknown || ClassifyPath(p) in g.surfaces)
  {
    hide ClassifyPath;
    SelectFromMembers(GATES, phase, changes);
    TouchedSurfaces(changes.paths);
    var touched := Surfaces(Dedup(changes.paths));
    forall p | p in changes.paths && ClassifyPath(p) in g.surfaces ensures touched * g.surfaces != {} {
      assert ClassifyPath(p) in touched * g.surfaces;
    }
    if touched * g.surfaces != {} {
      var s :| s in touched * g.surfaces;
      assert s in touched;
    }
  }

  function KnownChange<Reason>(paths: seq<string>): ChangeSet<Reason> {
    ChangeSet(paths, None)
  }

  /** The gates of `gates` that are in either list, in their order. */
  function InEither(gates: seq<Gate>, a: seq<Gate>, b: seq<Gate>): seq<Gate> {
    if gates == [] then []
    else
      var front := InEither(gates[..|gates| - 1], a, b);
      if Last(gates) in a || Last(gates) in b then front + [Last(gates)] else front
  }

  lemma {:induction false} SelectionIsUnion<Reason>(gates: seq<Gate>, phase: HookPhase, p: seq<string>, q: seq<string>)
    requires phase in BOTH && forall g | g in gates :: g in GATES
    ensures SelectFrom<Reason>(gates, phase, KnownChange(p + q))
            == InEither(gates, SelectFrom<Reason>(GATES, phase, KnownChange(p)),
                        SelectFrom<Reason>(GATES, phase, KnownChange(q)))
  {
    hide ClassifyPath, Selects;
    if gates != [] {
      var front, g := gates[..|gates| - 1], Last(gates);
      assert gates == front + [g];
      SelectionIsUnion<Reason>(front, phase, p, q);
      SelectedExactly<Reason>(phase, KnownChange(p + q), g);
      SelectedExactly<Reason>(phase, KnownChange(p), g);
      SelectedExactly<Reason>(phase, KnownChange(q), g);
      SelectFromMembers<Reason>(GATES, phase, KnownChange(p + q));
    }
  }

  /** Resolution is a homomorphism on known change sets: a concatenation selects the
      union of what its parts select, in manifest order. */
  lemma ResolutionIsHomomorphic<Reason>(phase: HookPhase, p: seq<string>, q: seq<string>)
    requires phase in BOTH
    ensures ResolveGates<Reason>(phase, KnownChange(p + q))
            == Some(InEither(GATES, ResolveGates<Reason>(phase, KnownChange(p)).value,
                             ResolveGates<Reason>(phase, KnownChange(q)).value))
  {
    SelectionIsUnion<Reason>(GATES, phase, p, q);
  }

  /** Order and duplicates of the paths do not matter. */
  lemma ResolutionIgnoresOrder<Reason>(phase: HookPhase, a: ChangeSet<Reason>, b: ChangeSet<Reason>)
    requires a.unknown.Some? <==> b.unknown.Some?
    requires forall x :: x in a.paths <==> x in b.paths
    ensures ResolveGates(phase, a) == ResolveGates(phase, b)
  {
    hide ClassifyPath;
    TouchedSurfaces(a.paths);
    TouchedSurfaces(b.paths);
    assert Surfaces(Dedup(a.paths)) == Surfaces(Dedup(b.paths));
    SameSelection(GATES, phase, a, b);
  }

  lemma {:induction false} SameSelection<Reason>(gates: seq<Gate>, phase: HookPhase, a: ChangeSet<Reason>, b: ChangeSet<Reason>)
    requires a.unknown.Some? <==> b.unknown.Some?
    requires Surfaces(Dedup(a.paths)) == Surfaces(Dedup(b.paths))
    ensures SelectFrom(gates, phase, a) == SelectFrom(gates, phase, b)
  {
    hide ClassifyPath, Surfaces;
    if gates != [] {
      SameSelection(gates[..|gates| - 1], phase, a, b);
    }
  }

  /** In each phase some gate covers every surface that is not inert. */
  lemma EverySurfaceIsGated(phase: HookPhase, s: Surface) returns (g: Gate)
    requires phase in BOTH && s !in {Docs, InertConfig}
    ensures g in GATES && phase in g.phases && (s == Unknown || s in g.surfaces)
  {
    var i := match s
      case HookSelfTest => 0
      case CollabProtocol => 2
      case Skills => 3
      case RustWorkspace => if phase == PreCommit then 4 else 6
      case Workflows => 7
      case _ => 0;
    g := GATES[i];
  }

  /** Neither phase runs a gate exactly when the change set is known and every path is
      documentation or inert configuration. */
  lemma NothingToRunExactly<Reason>(phase: HookPhase, changes: ChangeSet<Reason>)
    requires phase in BOTH
    ensures ResolveGates(phase, changes) == Some([])
            <==> changes.unknown.None? && forall p | p in changes.paths :: ClassifyPath(p) in {Docs, InertConfig}
  {
    hide ClassifyPath, Selects;
    if changes.unknown.Some? {
      SelectedExactly(phase, changes, GATES[0]);
    }
    forall p | p in changes.paths && ClassifyPath(p) !in {Docs, InertConfig}
      ensures ResolveGates(phase, changes) != Some([])
    {
      var g := EverySurfaceIsGated(phase, ClassifyPath(p));
      SelectedExactly(phase, changes, g);
    }
    if ResolveGates(phase, changes) != Some([]) {
      var g := ResolveGates(phase, changes).value[0];
      SelectFromMembers(GATES, phase, changes);
      assert g in GATES;
      SelectedExactly(phase, changes, g);
      NoGateIsInert(g);
    }
  }

  lemma CollabPathsStartElsewhere(path: string)
    requires path in COLLAB_EXACT_PATHS
    ensures path != "" && path[0] in {'.', 'd', 's'}
  {
    assert ".codex-plugin/prompts/collab"[0] == '.';
  }

  lemma HookPathsStartElsewhere(path: string)
    requires path in HOOK_EXACT_PATHS
    ensures path != "" && path[0] in {'.', 's'}
  {
  }

  lemma SkillPathsStartElsewhere(path: string)
    requires path in SKILLS_EXACT_PATHS
    ensures path != "" && path[0] == 's'
  {
  }

  lemma PrefixesStartElsewhere(path: string)
    requires ".claude-plugin/prompts/collab-turn-" <= path || "tests/collab_turn_templates/" <= path
    ensures path[0] == '.' || path[0] == 't'
  {
  }

  lemma CollabStartsElsewhere(path: string)
    requires IsCollabProtocolPath(path)
    ensures path != "" && path[0] in {'.', 'd', 's', 't'}
  {
    hide COLLAB_EXACT_PATHS;
    if path in COLLAB_EXACT_PATHS {
      CollabPathsStartElsewhere(path);
    } else {
      PrefixesStartElsewhere(path);
    }
  }

  /** No gate can observe a change under `benchmarks/`: whatever else such a path looks
      like, Rust source included, it is inert. */
  lemma BenchmarksAreInert(path: string)
    requires !IsUnsafe(path) && Head(path, '/') == "benchmarks"
    ensures ClassifyPath(path) in {Docs, InertConfig}
  {
    hide IsUnsafe, EndsWith, IsRustShaped, IsCollabProtocolPath, HOOK_EXACT_PATHS, SKILLS_EXACT_PATHS, INERT_EXTENSIONS;
    assert path[0] == Head(path, '/')[0] == 'b';
    HeadIsFirst(path, '/');
    hide SplitOn, Head;
    assert "benchmarks"[0] == 'b' && "skills"[0] == 's' && "."[0] == '.';
    if IsCollabProtocolPath(path) {
      CollabStartsElsewhere(path);
    }
    if path in HOOK_EXACT_PATHS {
      HookPathsStartElsewhere(path);
    }
    if path in SKILLS_EXACT_PATHS {
      SkillPathsStartElsewhere(path);
    }
  }

  lemma NoGateIsInert(g: Gate)
    requires g in GATES
    ensures !g.always && Docs !in g.surfaces && InertConfig !in g.surfaces
  {
  }

  /** No path of a plugin root is ever inert, so it always selects some gate. */
  lemma PluginRootsAreGated<Reason>(phase: HookPhase, changes: ChangeSet<Reason>, p: string)
    requires phase in BOTH && p in changes.paths && IsPluginPath(p)
    ensures ClassifyPath(p) !in {Docs, InertConfig}
    ensures ResolveGates(phase, changes) != Some([])
  {
    hide IsUnsafe, IsRustPath, IsCollabProtocolPath, IsHookPath, IsSkillsPath, IsWorkflowPath, IsPluginPath;
    assert ClassifyPath(p) !in {Docs, InertConfig};
    NothingToRunExactly(phase, changes);
  }

  // What a path of a plugin root can be instead.

  lemma DottedHookPaths(path: string)
    requires path in HOOK_EXACT_PATHS && path[0] == '.'
    ensures |path| > 10 && path[..9] == ".githooks" && path[9] == '/'
  {
    assert path == ".githooks/pre-commit" || path == ".githooks/pre-push";
  }

  lemma HookPathsAreNoPlugin(path: string)
    requires path in HOOK_EXACT_PATHS
    ensures !IsPluginPath(path)
  {
    hide HOOK_EXACT_PATHS;
    HookPathsStartElsewhere(path);
    if path[0] == '.' {
      DottedHookPaths(path);
      IndexAt(path, 9, '/');
      assert Head(path, '/') == ".githooks" && ".githooks"[8] == 's' && "-plugin"[6] == 'n';
      assert |"-plugin"| == 7 && ".githooks"[2..][6] == 's';
    }
  }

  lemma PluginFirst(path: string)
    requires IsPluginPath(path)
    ensures path != "" && path[0] == '.' && !IsHookPath(path) && path !in SKILLS_EXACT_PATHS
    ensures Head(path, '/') != "benchmarks" && Head(path, '/') != "skills"
  {
    hide EndsWith, HOOK_EXACT_PATHS, SKILLS_EXACT_PATHS;
    assert path[0] == Head(path, '/')[0] == '.';
    assert "benchmarks"[0] == 'b' && "skills"[0] == 's';
    hide Head;
    if path in HOOK_EXACT_PATHS {
      HookPathsAreNoPlugin(path);
    }
    if path in SKILLS_EXACT_PATHS {
      SkillPathsStartElsewhere(path);
    }
  }

  /** Which surfaces may claim a path of a plugin root. */
  lemma PluginKinds(path: string)
    requires IsPluginPath(path)
    ensures var segments := SplitOn(path, '/');
            && (IsRustPath(path) <==> IsRustShaped(path)) && !IsHookPath(path)
            && (IsSkillsPath(path) <==> |segments| >= 2 && segments[1] == "skills")
            && (IsWorkflowPath(path) <==> |segments| >= 3 && segments[1] == "workflows" && EndsWith(path, ".js"))
            && !IsDocsPath(path) && !IsInertConfigPath(path)
  {
    PluginFirst(path);
    HeadIsFirst(path, '/');
    hide SplitOn, Head, EndsWith, IsRustShaped, IsHookPath, SKILLS_EXACT_PATHS, IsPluginSegment, INERT_EXTENSIONS;
  }

  /** What a safe path of a plugin root is classified as, completely. It escalates
      exactly when it is not Rust-shaped, not a collab path, not below `skills`, and no
      script below `workflows`. */
  lemma PluginPathsExactly(path: string)
    requires !IsUnsafe(path) && IsPluginPath(path)
    ensures var rust, collab := IsRustShaped(path), IsCollabProtocolPath(path);
            var segments := SplitOn(path, '/');
            var skill := |segments| >= 2 && segments[1] == "skills";
            var script := |segments| >= 3 && segments[1] == "workflows" && EndsWith(path, ".js");
            && (ClassifyPath(path) == RustWorkspace <==> rust)
            && (ClassifyPath(path) == CollabProtocol <==> !rust && collab)
            && (ClassifyPath(path) == Skills <==> !rust && !collab && skill)
            && (ClassifyPath(path) == Workflows <==> !rust && !collab && script)
            && (ClassifyPath(path) == Unknown <==> !rust && !collab && !skill && !script)
  {
    PluginKinds(path);
    assert "workflows"[0] == 'w' && "skills"[0] == 's';
    hide IsUnsafe, IsRustShaped, IsRustPath, IsCollabProtocolPath, IsHookPath, IsSkillsPath, IsWorkflowPath, EndsWith;
    hide IsDocsPath, IsInertConfigPath, IsPluginPath, SplitOn;
  }

  /** An ordinary segment. */
  predicate IsSegment(s: string) {
    s != "" && s != "." && s != ".." && '/' !in s && forall i | 0 <= i < |s| :: !IsControl(s[i])
  }

  lemma SplitAtSlash(a: string, b: string)
    requires '/' !in a
    ensures SplitOn(a + "/" + b, '/') == [a] + SplitOn(b, '/') && Head(a + "/" + b, '/') == a
  {
    var s := a + "/" + b;
    assert s[|a|] == '/' && s[..|a|] == a && s[|a| + 1..] == b;
    IndexAt(s, |a|, '/');
  }

  lemma OneSegment(a: string)
    requires '/' !in a
    ensures SplitOn(a, '/') == [a]
  {
    assert a[..|a|] == a;
    IndexAt(a, |a|, '/');
  }

  lemma NoControls(a: string, b: string)
    requires (forall i | 0 <= i < |a| :: !IsControl(a[i])) && forall i | 0 <= i < |b| :: !IsControl(b[i])
    ensures forall i | 0 <= i < |a + "/" + b| :: !IsControl((a + "/" + b)[i])
  {
    var s := a + "/" + b;
    forall i | 0 <= i < |s| ensures !IsControl(s[i]) {
      assert s[i] == if i < |a| then a[i] else if i == |a| then '/' else b[i - |a| - 1];
    }
  }

  lemma ThreeSegments(a: string, b: string, c: string)
    requires IsSegment(a) && IsSegment(b) && IsSegment(c) && a[0] == '.'
    ensures var path := a + "/" + (b + "/" + c);
            !IsUnsafe(path) && SplitOn(path, '/') == [a, b, c] && Head(path, '/') == a && PosixName(path) == c
  {
    hide SplitOn, IsControl, Head;
    SplitAtSlash(a, b + "/" + c);
    SplitAtSlash(b, c);
    OneSegment(c);
    assert [a] + ([b] + [c]) == [a, b, c];
    NoControls(b, c);
    NoControls(a, b + "/" + c);
    var path := a + "/" + (b + "/" + c);
    assert path[0] == '.' && "/"[0] == '/' && "-"[0] == '-';
  }

  lemma PluginPath(root: string, b: string, c: string) returns (path: string)
    requires IsSegment(root) && IsPluginSegment(root) && root[0] == '.' && IsSegment(b) && IsSegment(c)
    ensures path == root + "/" + (b + "/" + c) && !IsUnsafe(path) && IsPluginPath(path)
    ensures SplitOn(path, '/') == [root, b, c] && PosixName(path) == c
  {
    hide IsSegment, IsPluginSegment, IsUnsafe, PosixName, SplitOn, Head;
    path := root + "/" + (b + "/" + c);
    ThreeSegments(root, b, c);
  }

  lemma EndsAsLast(root: string, b: string, c: string, ext: string)
    requires |ext| <= |c|
    ensures EndsWith(root + "/" + (b + "/" + c), ext) <==> EndsWith(c, ext)
  {
    var path := root + "/" + (b + "/" + c);
    assert path[|path| - |ext|..] == c[|c| - |ext|..];
  }

  lemma CollabPathsUnderDot(path: string)
    requires IsCollabProtocolPath(path) && path[0] == '.'
    ensures |path| > 1 && path[1] == 'c'
  {
    assert ".codex-plugin/prompts/collab"[0] == '.' && ".codex-plugin/prompts/collab"[1] == 'c';
  }

  lemma OrdinaryRoot()
    ensures IsSegment(".x-plugin") && IsPluginSegment(".x-plugin") && |".x-plugin"| == 9
    ensures ".x-plugin"[0] == '.' && ".x-plugin"[1] == 'x'
  {
    assert ".x-plugin"[2..] == "-plugin";
  }

  /** Below `.x-plugin` nothing is a collab path or in `.cargo`. */
  lemma OrdinaryPath(b: string, c: string) returns (path: string)
    requires IsSegment(b) && IsSegment(c) && c[0] == 'a' && |c| > 3
    ensures !IsUnsafe(path) && IsPluginPath(path) && SplitOn(path, '/') == [".x-plugin", b, c]
    ensures !IsCollabProtocolPath(path) && (IsRustShaped(path) <==> EndsWith(c, ".rs"))
    ensures EndsWith(path, ".js") <==> EndsWith(c, ".js")
  {
    hide IsUnsafe, SplitOn, IsSegment, IsPluginSegment, IsPluginPath, EndsWith, COLLAB_EXACT_PATHS;
    OrdinaryRoot();
    path := PluginPath(".x-plugin", b, c);
    EndsAsLast(".x-plugin", b, c, ".rs");
    EndsAsLast(".x-plugin", b, c, ".js");
    assert path[0] == '.' && path[1] == 'x';
    if IsCollabProtocolPath(path) {
      CollabPathsUnderDot(path);
    }
    assert ".cargo/"[1] == 'c' && "Cargo.toml"[0] == 'C' && "Cargo.lock"[0] == 'C' && "build.rs"[0] == 'b';
  }

  /** Three of the surfaces that may claim a path of a plugin root do claim these. */
  lemma ClaimedPluginPaths() returns (rust: string, skill: string, script: string)
    ensures IsPluginPath(rust) && ClassifyPath(rust) == RustWorkspace
    ensures IsPluginPath(skill) && ClassifyPath(skill) == Skills
    ensures IsPluginPath(script) && ClassifyPath(script) == Workflows
  {
    Extensions();
    hide IsUnsafe, ClassifyPath, EndsWith, IsPluginPath, IsRustShaped, IsCollabProtocolPath;
    rust := OrdinaryPath("src", "a.rs");
    PluginPathsExactly(rust);
    skill := OrdinaryPath("skills", "a.md");
    PluginPathsExactly(skill);
    script := OrdinaryPath("workflows", "a.js");
    assert "workflows"[0] == 'w' && "skills"[0] == 's';
    PluginPathsExactly(script);
  }

  lemma Extensions()
    ensures EndsWith("a.rs", ".rs") && EndsWith("a.js", ".js") && !EndsWith("a.md", ".rs") && !EndsWith("a.js", ".rs")
  {
    assert "a.rs"[1..] == ".rs" && "a.js"[1..] == ".js" && "a.md"[1..][1] == 'm' && "a.js"[1..][1] == 'j';
  }

  lemma CollabSegments()
    ensures IsSegment(".claude-plugin") && IsPluginSegment(".claude-plugin")
    ensures IsSegment("prompts") && IsSegment("collab-turn-a.md")
  {
    assert ".claude-plugin"[7..] == "-plugin";
  }

  /** And so does the fourth. */
  lemma ClaimedCollabPath() returns (collab: string)
    ensures IsPluginPath(collab) && ClassifyPath(collab) == CollabProtocol
  {
    CollabSegments();
    hide IsSegment, IsPluginSegment, COLLAB_EXACT_PATHS;
    collab := PluginPath(".claude-plugin", "prompts", "collab-turn-a.md");
    CollabPrefix(collab);
    EndsAsLast(".claude-plugin", "prompts", "collab-turn-a.md", ".rs");
    CollabExampleIsNoRust(collab);
    hide ClassifyPath, IsRustShaped, IsUnsafe, IsPluginPath, EndsWith;
    PluginPathsExactly(collab);
  }

  lemma CollabPrefix(path: string)
    requires path == ".claude-plugin" + "/" + ("prompts" + "/" + "collab-turn-a.md")
    ensures ".claude-plugin/prompts/collab-turn-" <= path
  {
    assert ".claude-plugin/" == ".claude-plugin" + "/";
    assert ".claude-plugin/prompts/" == ".claude-plugin/" + ("prompts" + "/");
    assert "collab-turn-a.md" == "collab-turn-" + "a.md";
    assert ".claude-plugin/prompts/collab-turn-" == ".claude-plugin/prompts/" + "collab-turn-";
    assert path == ".claude-plugin/prompts/collab-turn-" + "a.md";
  }

  lemma CollabExampleIsNoRust(path: string)
    requires ".claude-plugin/prompts/collab-turn-" <= path && PosixName(path) == "collab-turn-a.md"
    requires EndsWith(path, ".rs") <==> EndsWith("collab-turn-a.md", ".rs")
    ensures !IsRustShaped(path)
  {
    assert "collab-turn-a.md"[0] == 'c' && "Cargo.toml"[0] == 'C' && "Cargo.lock"[0] == 'C' && "build.rs"[0] == 'b';
    assert "collab-turn-a.md"[13..][1] == 'm';
    assert ".claude-plugin/prompts/collab-turn-"[2] == 'l' && ".cargo/"[2] == 'a';
  }
}
