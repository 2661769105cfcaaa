/** The hook's tables by name: which gate runs for what, and what an ordinary path is. */
module HookTable {
  import opened Std
  import opened PyText
  import opened HookManifest

  // Gates.

  /** The kind of path a gate is there for. */
  function Watches(name: GateName): Surface {
    match name
    case HookSelfTestGate => HookSelfTest
    case HookInstallCheck => HookSelfTest
    case CollabTemplateLint => CollabProtocol
    case SkillsSyncCheck => Skills
    case RustFmtCheck => RustWorkspace
    case RustClippy => RustWorkspace
    case RustTest => RustWorkspace
    case UltrareviewSelfTest => Workflows
  }

  /** Formatting, lints and the installer check guard commits, the tests guard pushes, and
      everything else guards both. */
  predicate RunsIn(name: GateName, phase: HookPhase) {
    match phase
    case PreCommit => name != RustTest
    case PrePush => name !in {HookInstallCheck, RustFmtCheck, RustClippy}
    case _ => false
  }

  ghost predicate Chosen<Reason>(name: GateName, phase: HookPhase, changes: ChangeSet<Reason>)
    requires phase in BOTH
  {
    exists g | g in ResolveGates(phase, changes).value :: g.name == name
  }

  lemma OneGateEach()
    ensures |GATES| == 8
    ensures GATES[0].name == HookSelfTestGate && GATES[1].name == HookInstallCheck && GATES[2].name == CollabTemplateLint
    ensures GATES[3].name == SkillsSyncCheck && GATES[4].name == RustFmtCheck && GATES[5].name == RustClippy
    ensures GATES[6].name == RustTest && GATES[7].name == UltrareviewSelfTest
  {
  }

  lemma GateIsAsNamed(g: Gate)
    requires g in GATES
    ensures !g.always && g.surfaces == {Watches(g.name)}
    ensures forall phase | phase in BOTH :: phase in g.phases <==> RunsIn(g.name, phase)
  {
  }

  lemma GateNamed(name: GateName) returns (g: Gate)
    ensures g in GATES && g.name == name
  {
    OneGateEach();
    var i := match name
      case HookSelfTestGate => 0 case HookInstallCheck => 1 case CollabTemplateLint => 2 case SkillsSyncCheck => 3
      case RustFmtCheck => 4 case RustClippy => 5 case RustTest => 6 case UltrareviewSelfTest => 7;
    g := GATES[i];
  }

  /** Which gates run, name by name: those of the phase that watch a changed path, and all
      of the phase if the change set is unknown or some path cannot be classified. */
  lemma GatesByName<Reason>(phase: HookPhase, changes: ChangeSet<Reason>, name: GateName)
    requires phase in BOTH
    ensures Chosen(name, phase, changes)
            <==> RunsIn(name, phase)
                 && (changes.unknown.Some?
                     || exists p | p in changes.paths :: ClassifyPath(p) == Unknown || ClassifyPath(p) == Watches(name))
  {
    hide ClassifyPath, GATES, Watches, RunsIn;
    SelectFromMembers(GATES, phase, changes);
    hide Selects;
    forall g | g in GATES && g.name == name
      ensures g in ResolveGates(phase, changes).value
              <==> RunsIn(name, phase)
                   && (changes.unknown.Some?
                       || exists p | p in changes.paths :: ClassifyPath(p) == Unknown || ClassifyPath(p) == Watches(name))
    {
      SelectedExactly(phase, changes, g);
      GateIsAsNamed(g);
    }
    var g := GateNamed(name);
  }

  // Paths.

  /** A segment that names nothing. */
  predicate IsSkipped(s: string) {
    s == "" || s == "."
  }

  ghost predicate IsNameAt(segments: seq<string>, k: int, name: string) {
    0 <= k < |segments| && segments[k] == name && forall j | k < j < |segments| :: IsSkipped(segments[j])
  }

  /** The last segment that is not empty or a dot, and nothing if there is none. */
  ghost predicate IsNameOf(segments: seq<string>, name: string) {
    || (name == "" && forall s | s in segments :: IsSkipped(s))
    || (!IsSkipped(name) && exists k :: IsNameAt(segments, k, name))
  }

  lemma NameExactly(path: string)
    ensures IsNameOf(SplitOn(path, '/'), PosixName(path))
  {
    LastNameExactly(SplitOn(path, '/'));
  }

  lemma {:induction false} LastNameExactly(segments: seq<string>)
    ensures IsNameOf(segments, LastName(segments))
  {
    if segments != [] {
      var front, last, name := segments[..|segments| - 1], Last(segments), LastName(segments);
      assert segments == front + [last];
      if IsSkipped(last) {
        LastNameExactly(front);
        if k :| IsNameAt(front, k, name) {
          assert IsNameAt(segments, k, name);
        }
      } else {
        assert IsNameAt(segments, |segments| - 1, name);
      }
    }
  }

  /** A path Git may report and the hook will read as it stands. */
  predicate IsPlainPath(path: string) {
    && path != "" && path[0] != '/' && path[0] != '-' && ".." !in SplitOn(path, '/')
    && forall i | 0 <= i < |path| ::
         path[i] == '\n' || path[i] == '\r' || (0x20 <= (path[i] as int) && (path[i] as int) != 0x7F)
  }

  predicate IsRust(path: string) {
    EndsWith(path, ".rs") || PosixName(path) in {"Cargo.toml", "Cargo.lock", "build.rs"} || ".cargo/" <= path
  }

  /** The collab protocol's files outside the plugin roots. */
  predicate IsCollab(path: string) {
    || path in {"docs/COLLAB.md", "scripts/check_collab_turn_templates.py", "scripts/install-ironmem.sh"}
    || "tests/collab_turn_templates/" <= path
  }

  predicate IsHook(path: string) {
    path in {".githooks/pre-commit", ".githooks/pre-push", "scripts/install-git-hooks.sh",
             "scripts/run_git_hook.py", "scripts/test_run_git_hook.py", "scripts/git_hook/__init__.py",
             "scripts/git_hook/collect.py", "scripts/git_hook/execute.py", "scripts/git_hook/manifest.py",
             "scripts/git_hook/runtime.py"}
  }

  predicate IsSkill(path: string) {
    || path in {"scripts/sync_skills.py", "scripts/check_skills_sync.py", "scripts/test_sync_skills.py"}
    || Head(path, '/') == "skills"
  }

  predicate IsText(path: string) {
    EndsWith(path, ".md") || Head(path, '/') == "docs"
  }

  predicate IsInert(path: string) {
    || EndsWith(path, ".json") || EndsWith(path, ".jsonc") || EndsWith(path, ".jsonl") || EndsWith(path, ".yaml")
    || EndsWith(path, ".yml") || EndsWith(path, ".sh") || EndsWith(path, ".csv")
    || Head(path, '/') == "site" || Head(path, '/') == "benchmarks"
  }

  lemma PlainIsSafe(path: string)
    ensures IsPlainPath(path) <==> !IsUnsafe(path)
  {
    hide SplitOn;
    assert path != "" ==> ("/" <= path <==> path[0] == '/') && ("-" <= path <==> path[0] == '-');
  }

  lemma RootOf(root: string, rest: string)
    requires '/' !in root
    ensures Head(root + "/" + rest, '/') == root
  {
    SplitAtSlash(root, rest);
  }

  lemma Roots()
    ensures IsPluginSegment(".claude-plugin") && IsPluginSegment(".codex-plugin")
    ensures '/' !in ".claude-plugin" && '/' !in ".codex-plugin"
  {
    assert ".claude-plugin"[7..] == "-plugin" && ".codex-plugin"[6..] == "-plugin";
  }

  lemma UnderRoot(path: string, root: string)
    requires root + "/" <= path && IsPluginSegment(root) && '/' !in root
    ensures IsPluginPath(path)
  {
    hide IsPluginSegment;
    assert path == root + "/" + path[|root| + 1..];
    RootOf(root, path[|root| + 1..]);
  }

  lemma ClaudePrefixes()
    ensures ".claude-plugin/" <= ".claude-plugin/commands/collab.md"
    ensures ".claude-plugin/" <= ".claude-plugin/prompts/collab-turn-"
  {
  }

  lemma CodexPrefixes()
    ensures ".codex-plugin/" <= ".codex-plugin/commands/collab.md"
    ensures ".codex-plugin/" <= ".codex-plugin/prompts/collab-plan-draft.md"
    ensures ".codex-plugin/" <= ".codex-plugin/prompts/collab-plan-review.md"
  {
  }

  lemma MoreCodexPrefixes()
    ensures ".codex-plugin/" <= ".codex-plugin/prompts/collab-global-review.md"
    ensures ".codex-plugin/" <= ".codex-plugin/prompts/collab-recovery.md"
    ensures ".codex-plugin/" <= ".codex-plugin/prompts/collab-batch-impl.md"
  {
  }

  lemma PluginPrefixes(path: string)
    requires IsCollabProtocolPath(path) && !IsCollab(path)
    ensures ".claude-plugin/" <= path || ".codex-plugin/" <= path
  {
    ClaudePrefixes();
    CodexPrefixes();
    MoreCodexPrefixes();
    if ".claude-plugin/prompts/collab-turn-" <= path {
      PrefixOfPrefix(".claude-plugin/", ".claude-plugin/prompts/collab-turn-", path);
    }
  }

  lemma PrefixOfPrefix(a: string, b: string, c: string)
    requires a <= b <= c
    ensures a <= c
  {
  }

  lemma CollabIsProtocol(path: string)
    requires IsCollab(path)
    ensures IsCollabProtocolPath(path)
  {
  }

  /** Outside the plugin roots the collab files are those. */
  lemma CollabOutside(path: string)
    requires !IsPluginPath(path)
    ensures IsCollabProtocolPath(path) <==> IsCollab(path)
  {
    hide IsCollabProtocolPath, IsCollab, IsPluginPath, IsPluginSegment;
    if IsCollab(path) {
      CollabIsProtocol(path);
    }
    if IsCollabProtocolPath(path) && !IsCollab(path) {
      PluginPrefixes(path);
      Roots();
      assert ".claude-plugin/" == ".claude-plugin" + "/" && ".codex-plugin/" == ".codex-plugin" + "/";
      if ".claude-plugin/" <= path {
        UnderRoot(path, ".claude-plugin");
      } else {
        UnderRoot(path, ".codex-plugin");
      }
    }
  }

  // The kinds do not overlap, so their order does not matter.

  lemma CollabLengths(path: string)
    requires IsCollab(path)
    ensures path[0] == 't' || |path| in {14, 26, 38}
    ensures |path| > 1 && path[1] in {'o', 'c', 'e'}
  {
  }

  lemma HookLengths(path: string)
    requires IsHook(path)
    ensures |path| in {18, 20, 23, 27, 28} && path[0] in {'.', 's'} && path[1] in {'g', 'c'}
    ensures |path| == 27 ==> path[8] == 'g'
    ensures |path| == 28 ==> path[8] in {'i', 't', 'g'}
  {
  }

  lemma SkillFileLengths(path: string)
    requires path in {"scripts/sync_skills.py", "scripts/check_skills_sync.py", "scripts/test_sync_skills.py"}
    ensures |path| in {22, 27, 28} && path[0] == 's' && path[1] == 'c'
    ensures (|path| == 27 ==> path[8] == 't') && (|path| == 28 ==> path[8] == 'c')
  {
  }

  lemma SkillDirectory(path: string)
    requires Head(path, '/') == "skills"
    ensures |path| > 1 && path[0] == 's' && path[1] == 'k'
  {
    assert path[0] == Head(path, '/')[0] && path[1] == Head(path, '/')[1];
  }

  lemma SkillLengths(path: string)
    requires IsSkill(path)
    ensures |path| > 1 && path[0] == 's'
    ensures path[1] == 'k' || (path[1] == 'c' && (|path| == 22 || (|path| == 27 && path[8] == 't') || (|path| == 28 && path[8] == 'c')))
  {
    hide Head;
    if Head(path, '/') == "skills" {
      SkillDirectory(path);
    } else {
      SkillFileLengths(path);
    }
  }

  lemma KindsAreApart(path: string)
    ensures !(IsCollab(path) && IsHook(path)) && !(IsCollab(path) && IsSkill(path)) && !(IsHook(path) && IsSkill(path))
  {
    hide IsCollab, IsHook, IsSkill;
    if IsCollab(path) {
      CollabLengths(path);
    }
    if IsHook(path) {
      HookLengths(path);
    }
    if IsSkill(path) {
      SkillLengths(path);
    }
  }

  lemma InertByName(path: string)
    requires !IsPluginPath(path)
    ensures IsInertConfigPath(path) <==> IsInert(path)
  {
    var e := INERT_EXTENSIONS;
    hide EndsWith, Head;
    assert (exists i | 0 <= i < |e| :: EndsWith(path, e[i]))
      <==> EndsWith(path, e[0]) || EndsWith(path, e[1]) || EndsWith(path, e[2]) || EndsWith(path, e[3])
           || EndsWith(path, e[4]) || EndsWith(path, e[5]) || EndsWith(path, e[6]);
  }

  lemma SkillsByName(path: string)
    requires !IsPluginPath(path)
    ensures IsSkillsPath(path) <==> IsSkill(path)
    ensures !IsWorkflowPath(path)
  {
    HeadIsFirst(path, '/');
    hide SplitOn, Head, IsPluginSegment, EndsWith;
  }

  lemma SameKinds(path: string)
    ensures IsRustShaped(path) <==> IsRust(path)
    ensures IsHookPath(path) <==> IsHook(path)
    ensures !IsPluginPath(path) ==> (IsDocsPath(path) <==> IsText(path))
  {
    hide PosixName, EndsWith, Head, IsPluginPath;
  }

  /** What an ordinary path is, outside the plugin roots: Rust first, except below
      `benchmarks/`; then the named files; then text; then inert configuration; anything
      else, and any path that is not plain, escalates. */
  lemma OrdinaryPathsExactly(path: string)
    requires !IsPluginPath(path)
    ensures var plain, rust := IsPlainPath(path), IsRust(path) && Head(path, '/') != "benchmarks";
            var named := IsCollab(path) || IsHook(path) || IsSkill(path);
            && (ClassifyPath(path) == RustWorkspace <==> plain && rust)
            && (ClassifyPath(path) == CollabProtocol <==> plain && !rust && IsCollab(path))
            && (ClassifyPath(path) == HookSelfTest <==> plain && !rust && IsHook(path))
            && (ClassifyPath(path) == Skills <==> plain && !rust && IsSkill(path))
            && (ClassifyPath(path) == Docs <==> plain && !rust && !named && IsText(path))
            && (ClassifyPath(path) == InertConfig <==> plain && !rust && !named && !IsText(path) && IsInert(path))
            && ClassifyPath(path) != Workflows
  {
    hide IsUnsafe, IsPlainPath, IsRustShaped, IsRust, IsCollabProtocolPath, IsCollab, IsHookPath, IsHook, IsSkillsPath, IsSkill;
    hide IsWorkflowPath, IsDocsPath, IsText, IsInertConfigPath, IsInert, Head, IsPluginPath;
    PlainIsSafe(path);
    CollabOutside(path);
    SkillsByName(path);
    InertByName(path);
    KindsAreApart(path);
    SameKinds(path);
  }

  /** The protocol's files below a plugin root. */
  predicate IsPluginCollab(path: string) {
    || path in {".claude-plugin/commands/collab.md", ".codex-plugin/commands/collab.md",
                ".codex-plugin/prompts/collab-plan-draft.md", ".codex-plugin/prompts/collab-plan-review.md",
                ".codex-plugin/prompts/collab-global-review.md", ".codex-plugin/prompts/collab-recovery.md",
                ".codex-plugin/prompts/collab-batch-impl.md"}
    || ".claude-plugin/prompts/collab-turn-" <= path
  }

  lemma CollabInside(path: string)
    requires IsPluginPath(path)
    ensures IsCollabProtocolPath(path) <==> IsPluginCollab(path)
  {
    assert path != "" && path[0] == Head(path, '/')[0] == '.';
    if IsCollab(path) {
      CollabStarts(path);
    }
    hide Head, IsPluginPath, IsPluginSegment;
    assert IsCollabProtocolPath(path) <==> IsCollab(path) || IsPluginCollab(path);
  }

  lemma CollabStarts(path: string)
    requires IsCollab(path)
    ensures path[0] in {'d', 's', 't'}
  {
  }

  /** And below a plugin root: Rust, the protocol's files, skills, workflow scripts; the
      rest escalates. */
  lemma PluginPathsByName(path: string)
    requires IsPluginPath(path)
    ensures var plain, rust, segments := IsPlainPath(path), IsRust(path), SplitOn(path, '/');
            var skill := |segments| >= 2 && segments[1] == "skills";
            var script := |segments| >= 3 && segments[1] == "workflows" && EndsWith(path, ".js");
            && (ClassifyPath(path) == RustWorkspace <==> plain && rust)
            && (ClassifyPath(path) == CollabProtocol <==> plain && !rust && IsPluginCollab(path))
            && (ClassifyPath(path) == Skills <==> plain && !rust && !IsPluginCollab(path) && skill)
            && (ClassifyPath(path) == Workflows <==> plain && !rust && !IsPluginCollab(path) && script)
            && ClassifyPath(path) !in {HookSelfTest, Docs, InertConfig}
  {
    hide IsRustShaped, IsRust, IsCollabProtocolPath, IsPluginCollab, IsPlainPath, EndsWith, SplitOn;
    hide IsRustPath, IsHookPath, IsSkillsPath, IsWorkflowPath, IsDocsPath, IsInertConfigPath, IsUnsafe, IsPluginPath;
    PlainIsSafe(path);
    CollabInside(path);
    SameKinds(path);
    if IsPlainPath(path) {
      PluginPathsExactly(path);
    }
  }

  lemma SplitsInTwo(path: string, a: string, b: string)
    requires path == a + "/" + b && '/' !in a && '/' !in b
    ensures SplitOn(path, '/') == [a, b] && Head(path, '/') == a
  {
    hide SplitOn, Head;
    SplitAtSlash(a, b);
    OneSegment(b);
  }

  lemma DocumentSplits()
    ensures SplitOn("docs/COLLAB.md", '/') == ["docs", "COLLAB.md"] && Head("docs/COLLAB.md", '/') == "docs"
  {
    hide SplitOn, Head;
    var path, a, b := "docs/COLLAB.md", "docs", "COLLAB.md";
    assert path[..4] == a && path[4] == '/' && path[5..] == b;
    assert path == path[..4] + "/" + path[5..];
    SplitsInTwo(path, a, b);
  }

  lemma DocumentIsPlain(path: string)
    requires path == "docs/COLLAB.md" && SplitOn(path, '/') == ["docs", "COLLAB.md"]
    ensures IsPlainPath(path)
  {
    hide SplitOn;
    assert "COLLAB.md"[0] == 'C';
  }

  lemma DocumentIsNoRust(path: string)
    requires path == "docs/COLLAB.md" && SplitOn(path, '/') == ["docs", "COLLAB.md"]
    ensures !IsRust(path)
  {
    assert PosixName(path) == "COLLAB.md" by { hide SplitOn; assert "COLLAB.md"[0] == 'C'; }
    hide SplitOn, PosixName;
    assert path[13] == 'd' && path[0] == 'd';
    assert "COLLAB.md"[1] == 'O' && "Cargo.toml"[1] == 'a' && "Cargo.lock"[1] == 'a' && "build.rs"[1] == 'u';
  }

  /** For example, the protocol's document is no mere text. */
  lemma DocumentExample()
    ensures ClassifyPath("docs/COLLAB.md") == CollabProtocol
  {
    hide IsPlainPath, IsRust, SplitOn, ClassifyPath, Head;
    DocumentSplits();
    DocumentIsPlain("docs/COLLAB.md");
    DocumentIsNoRust("docs/COLLAB.md");
    assert "docs"[0] == 'd' && "."[0] == '.';
    OrdinaryPathsExactly("docs/COLLAB.md");
  }
}
