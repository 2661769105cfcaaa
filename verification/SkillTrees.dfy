/** The generated trees: what is planned for them, writing them, and reporting how
    they differ. The generator owns only the `iron-` paths under each root. */
module SkillTrees {
  import opened Std
  import opened PyText
  import opened SyncSkills

  // Planning.

  /** An authored file, by its path under the source directory. */
  datatype SourceFile = SourceFile(path: string, text: string)

  /** The files under one target root, by relative path. A root that does not exist has
      none. */
  type Tree = map<string, string>

  predicate Owned(path: string) {
    OWNED_PREFIX <= path
  }

  /** The first line at or after `n` that closes the frontmatter. */
  function FenceFrom(lines: seq<string>, n: nat): (k: nat)
    requires n <= |lines|
    ensures n <= k <= |lines| && (k < |lines| ==> lines[k] == FENCE)
    ensures forall j | n <= j < k :: lines[j] != FENCE
    decreases |lines| - n
  {
    if n == |lines| || lines[n] == FENCE then n else FenceFrom(lines, n + 1)
  }

  /** The header goes first, or after frontmatter that stays first. */
  function InjectHeader(text: string): Result<string, SkillError> {
    if Contains(text, GENERATED_HEADER) then Ok(text)
    else
      var lines := SplitOn(text, '\n');
      if lines[0] != FENCE then Ok(GENERATED_HEADER + "\n" + text)
      else
        var k := FenceFrom(lines, 1);
        if k == |lines| then Err(UnclosedFrontmatter)
        else Ok(Join(lines[..k + 1] + [GENERATED_HEADER] + lines[k + 1..]))
  }

  lemma ContainsInside(before: string, part: string, after: string)
    ensures Contains(before + part + after, part)
  {
    assert part <= (before + part + after)[|before|..];
  }

  lemma {:induction false} JoinContains(lines: seq<string>, i: nat)
    requires i < |lines|
    ensures exists before, after :: Join(lines) == before + lines[i] + after
  {
    if |lines| == 1 {
      assert Join(lines) == "" + lines[i] + "";
    } else if i == |lines| - 1 {
      assert Join(lines) == (Join(lines[..i]) + "\n") + lines[i] + "";
    } else {
      var front := lines[..|lines| - 1];
      JoinContains(front, i);
      var before, after :| Join(front) == before + front[i] + after;
      assert Join(lines) == before + lines[i] + (after + "\n" + Last(lines));
    }
  }

  /** Every generated text carries the header, so a second pass leaves it alone. */
  lemma HeaderIsOnce(text: string)
    requires InjectHeader(text).Ok?
    ensures Contains(InjectHeader(text).value, GENERATED_HEADER)
    ensures InjectHeader(InjectHeader(text).value) == InjectHeader(text)
  {
    hide Join, SplitOn, Contains;
    if !Contains(text, GENERATED_HEADER) {
      var lines := SplitOn(text, '\n');
      if lines[0] != FENCE {
        ContainsInside("", GENERATED_HEADER, "\n" + text);
        assert "" + GENERATED_HEADER + ("\n" + text) == GENERATED_HEADER + "\n" + text;
      } else {
        var k := FenceFrom(lines, 1);
        var all := lines[..k + 1] + [GENERATED_HEADER] + lines[k + 1..];
        JoinContains(all, k + 1);
        var before, after :| Join(all) == before + all[k + 1] + after;
        ContainsInside(before, GENERATED_HEADER, after);
      }
    }
  }

  /** Adding the header inserts one line and changes nothing else; whatever stands
      before it is frontmatter, still the first bytes of the text. */
  lemma HeaderIsInserted(text: string) returns (before: string, after: string)
    requires !Contains(text, GENERATED_HEADER) && InjectHeader(text).Ok?
    ensures text == before + after
    ensures InjectHeader(text).value == before + GENERATED_HEADER + "\n" + after
            || (after == "" && InjectHeader(text).value == before + "\n" + GENERATED_HEADER)
    ensures before != "" <==> SplitOn(text, '\n')[0] == FENCE
    ensures before != "" ==> exists k | 0 < k < |SplitOn(text, '\n')| ::
              SplitOn(text, '\n')[k] == FENCE && Join(SplitOn(text, '\n')[..k + 1]) <= before
  {
    hide Join, SplitOn, Contains;
    var lines := SplitOn(text, '\n');
    JoinUndoesSplit(text);
    if lines[0] != FENCE {
      before, after := "", text;
      assert "" + GENERATED_HEADER + "\n" + text == GENERATED_HEADER + "\n" + text;
    } else {
      var k := FenceFrom(lines, 1);
      var head, tail := lines[..k + 1], lines[k + 1..];
      assert lines == head + tail;
      JoinConcat(head, [GENERATED_HEADER]);
      JoinSingle(GENERATED_HEADER);
      assert head + [GENERATED_HEADER] + tail == (head + [GENERATED_HEADER]) + tail;
      if tail == [] {
        assert head == lines && head + [GENERATED_HEADER] + tail == head + [GENERATED_HEADER];
        before, after := text, "";
        FenceIsNotEmpty(head);
      } else {
        JoinConcat(head, tail);
        JoinConcat(head + [GENERATED_HEADER], tail);
        before, after := Join(head) + "\n", Join(tail);
      }
    }
  }

  lemma JoinSingle(line: string)
    ensures Join([line]) == line
  {
  }

  lemma FenceIsNotEmpty(lines: seq<string>)
    requires |lines| > 1
    ensures Join(lines) != ""
  {
  }

  /** What is generated for one harness from one text. */
  function Rendition(text: string, harness: string, vocab: Vocab): Result<string, SkillError> {
    match Render(text, harness, vocab)
    case Err(e) => Err(e)
    case Ok(body) => InjectHeader(if EndsWith(body, "\n") then body else body + "\n")
  }

  // What a generated file says, without the functions above.

  /** The text with the header where it belongs: nowhere if it has one, in front, or
      behind the line that closes its frontmatter. */
  ghost predicate Headed(text: string, out: string) {
    var header := "<!-- GENERATED from skills/ — do not edit -->";
    var lines := SplitOn(text, '\n');
    if Contains(text, header) then out == text
    else if lines[0] != "---" then out == header + "\n" + text
    else exists k | 0 < k < |lines| ::
           && lines[k] == "---" && (forall j | 0 < j < k :: lines[j] != "---")
           && out == Join(lines[..k + 1] + [header] + lines[k + 1..])
  }

  ghost predicate Closed(text: string, out: string) {
    out == if text != "" && Last(text) == '\n' then text else text + "\n"
  }

  /** `out` is generated from the text for this harness. */
  ghost predicate Generated(text: string, harness: string, vocab: Vocab, out: string) {
    exists body, closed | Says(text, harness, vocab, body) && Closed(body, closed) :: Headed(closed, out)
  }

  lemma HeadedExactly(text: string, out: string)
    ensures InjectHeader(text) == Ok(out) <==> Headed(text, out)
  {
    hide Join, SplitOn, Contains;
    var lines := SplitOn(text, '\n');
    if !Contains(text, GENERATED_HEADER) && lines[0] == FENCE {
      var k := FenceFrom(lines, 1);
    }
  }

  lemma GeneratedExactly(text: string, harness: string, vocab: Vocab, out: string)
    ensures Rendition(text, harness, vocab) == Ok(out) <==> Generated(text, harness, vocab, out)
  {
    hide Render, InjectHeader, Says, Headed;
    forall body ensures Render(text, harness, vocab) == Ok(body) <==> Says(text, harness, vocab, body) {
      SaysExactly(text, harness, vocab, body);
    }
    forall closed ensures InjectHeader(closed) == Ok(out) <==> Headed(closed, out) {
      HeadedExactly(closed, out);
    }
    forall body, closed ensures Closed(body, closed) <==> closed == if EndsWith(body, "\n") then body else body + "\n" {
      EndsWithNewline(body);
    }
  }

  lemma EndsWithNewline(s: string)
    ensures EndsWith(s, "\n") <==> s != "" && Last(s) == '\n'
  {
  }

  /** There is something to generate: the text has a place for the header. */
  ghost predicate FrontmatterCloses(text: string) {
    var lines := SplitOn(text, '\n');
    || Contains(text, "<!-- GENERATED from skills/ — do not edit -->") || lines[0] != "---"
    || exists k | 0 < k < |lines| :: lines[k] == "---"
  }

  lemma HeadedSometimes(text: string)
    ensures (exists out :: Headed(text, out)) <==> FrontmatterCloses(text)
  {
    hide Join, SplitOn, Contains;
    var lines := SplitOn(text, '\n');
    if FrontmatterCloses(text) {
      hide Headed;
      assert InjectHeader(text).Ok?;
      HeadedExactly(text, InjectHeader(text).value);
    }
  }

  /** A file that can be generated for every harness, and lies where the generator may
      write. */
  ghost predicate Possible(file: SourceFile, vocab: Vocab) {
    "iron-" <= file.path && forall h | h in vocab :: exists out :: Generated(file.text, h, vocab, out)
  }

  /** The same, by what may be wrong: the path, the blocks and tokens, the frontmatter. */
  ghost predicate Acceptable(file: SourceFile, vocab: Vocab) {
    && "iron-" <= file.path && Renderable(file.text, vocab)
    && forall h, body, closed | h in vocab && Says(file.text, h, vocab, body) && Closed(body, closed) ::
         FrontmatterCloses(closed)
  }

  lemma SaysOnce(text: string, harness: string, vocab: Vocab, a: string, b: string)
    requires Says(text, harness, vocab, a) && Says(text, harness, vocab, b)
    ensures a == b
  {
    hide Says, Render;
    SaysExactly(text, harness, vocab, a);
    SaysExactly(text, harness, vocab, b);
  }

  lemma GeneratedWhen(text: string, h: string, vocab: Vocab)
    ensures (exists out :: Generated(text, h, vocab, out))
            <==> exists body, closed | Says(text, h, vocab, body) && Closed(body, closed) :: FrontmatterCloses(closed)
  {
    hide Says, Headed, FrontmatterCloses;
    forall closed ensures (exists out :: Headed(closed, out)) <==> FrontmatterCloses(closed) {
      HeadedSometimes(closed);
    }
    if body, closed :| Says(text, h, vocab, body) && Closed(body, closed) && FrontmatterCloses(closed) {
      var out :| Headed(closed, out);
      assert Generated(text, h, vocab, out);
    }
  }

  /** A text some harness sees can be generated for it exactly if no frontmatter in it
      stays open. */
  lemma AcceptableFor(text: string, h: string, vocab: Vocab)
    ensures (exists out :: Generated(text, h, vocab, out))
            <==> && Render(text, h, vocab).Ok?
                 && forall body, closed | Says(text, h, vocab, body) && Closed(body, closed) :: FrontmatterCloses(closed)
  {
    hide Says, Generated, FrontmatterCloses, Render;
    GeneratedWhen(text, h, vocab);
    RenderedSays(text, h, vocab);
    forall a, b | Says(text, h, vocab, a) && Says(text, h, vocab, b) ensures a == b {
      SaysOnce(text, h, vocab, a, b);
    }
    if body :| Says(text, h, vocab, body) {
      var closed := if body != "" && Last(body) == '\n' then body else body + "\n";
      assert Closed(body, closed);
    }
  }

  lemma AcceptableExactly(file: SourceFile, vocab: Vocab)
    requires vocab != map[] && Symmetric(vocab)
    ensures Possible(file, vocab) <==> Acceptable(file, vocab)
  {
    hide Says, Generated, FrontmatterCloses, Render, Renderable, Closed;
    RenderIsComplete(file.text, vocab);
    forall h | h in vocab
      ensures (exists out :: Generated(file.text, h, vocab, out))
              <==> && Render(file.text, h, vocab).Ok?
                   && forall body, closed | Says(file.text, h, vocab, body) && Closed(body, closed) :: FrontmatterCloses(closed)
    {
      AcceptableFor(file.text, h, vocab);
    }
  }

  lemma RenderedSays(text: string, h: string, vocab: Vocab)
    ensures Render(text, h, vocab).Ok? <==> exists body :: Says(text, h, vocab, body)
  {
    hide Says, Render;
    forall body ensures Render(text, h, vocab) == Ok(body) <==> Says(text, h, vocab, body) {
      SaysExactly(text, h, vocab, body);
    }
    if Render(text, h, vocab).Ok? {
      assert Says(text, h, vocab, Render(text, h, vocab).value);
    }
  }

  /** No later source file has the same path. */
  ghost predicate IsLast(files: seq<SourceFile>, i: int) {
    0 <= i < |files| && forall j | i < j < |files| :: files[j].path != files[i].path
  }

  /** One generated file for every source path; of several files with one path the last
      counts. */
  ghost predicate HoldsTexts(tree: Tree, files: seq<SourceFile>, h: string, vocab: Vocab) {
    && (forall p :: p in tree <==> exists i | 0 <= i < |files| :: files[i].path == p)
    && forall i | IsLast(files, i) ::
         files[i].path in tree && Generated(files[i].text, h, vocab, tree[files[i].path])
  }

  ghost predicate PlannedTexts(rendered: map<string, Tree>, files: seq<SourceFile>, vocab: Vocab) {
    rendered.Keys == vocab.Keys && forall h | h in vocab :: HoldsTexts(rendered[h], files, h, vocab)
  }

  ghost predicate Plannable(files: seq<SourceFile>, vocab: Vocab) {
    forall f | f in files :: PlannableFile(f, vocab)
  }

  ghost function Output(files: seq<SourceFile>, harness: string, vocab: Vocab): Tree {
    if files == [] then map[]
    else
      var before, body := Output(files[..|files| - 1], harness, vocab), Rendition(Last(files).text, harness, vocab);
      if body.Ok? then before[Last(files).path := body.value] else before
  }

  ghost predicate Plans(rendered: map<string, Tree>, files: seq<SourceFile>, vocab: Vocab) {
    && rendered.Keys == vocab.Keys
    && forall h | h in rendered :: rendered[h] == Output(files, h, vocab)
  }

  lemma HarnessesDiffer()
    ensures forall j | 0 <= j < |HARNESSES| :: HARNESSES[j] !in HARNESSES[..j]
  {
    assert HARNESSES[0][1] == 'l' && HARNESSES[1][1] == 'o' && HARNESSES[2][1] == 'u';
  }

  ghost predicate PlannableFile(file: SourceFile, vocab: Vocab) {
    Owned(file.path) && forall h | h in HARNESSES :: Rendition(file.text, h, vocab).Ok?
  }

  lemma PlannableUpTo(files: seq<SourceFile>, i: nat, vocab: Vocab)
    requires i < |files|
    ensures Plannable(files[..i + 1], vocab) <==> Plannable(files[..i], vocab) && PlannableFile(files[i], vocab)
    ensures Plannable(files, vocab) ==> PlannableFile(files[i], vocab)
  {
    hide Rendition, Owned;
    assert files[..i + 1] == files[..i] + [files[i]];
  }

  lemma OutputUpTo(files: seq<SourceFile>, i: nat, harness: string, vocab: Vocab)
    requires i < |files| && Rendition(files[i].text, harness, vocab).Ok?
    ensures Output(files[..i + 1], harness, vocab)
            == Output(files[..i], harness, vocab)[files[i].path := Rendition(files[i].text, harness, vocab).value]
  {
    hide Rendition;
    assert files[..i + 1][..i] == files[..i];
  }

  /** Add one file's renditions, one harness after the other. */
  method RenderFile(file: SourceFile, harnesses: seq<string>, vocab: Vocab, rendered: map<string, Tree>)
    returns (r: Result<map<string, Tree>, SkillError>)
    requires forall h | h in harnesses :: h in rendered
    requires forall j | 0 <= j < |harnesses| :: harnesses[j] !in harnesses[..j]
    ensures r.Ok? <==> forall h | h in harnesses :: Rendition(file.text, h, vocab).Ok?
    ensures r.Ok? ==>
              && r.value.Keys == rendered.Keys
              && (forall h | h in harnesses ::
                    r.value[h] == rendered[h][file.path := Rendition(file.text, h, vocab).value])
              && forall h | h in rendered && h !in harnesses :: r.value[h] == rendered[h]
  {
    hide Rendition;
    var now := rendered;
    for j := 0 to |harnesses|
      invariant now.Keys == rendered.Keys
      invariant forall h | h in harnesses[..j] :: Rendition(file.text, h, vocab).Ok?
      invariant forall h | h in harnesses[..j] :: now[h] == rendered[h][file.path := Rendition(file.text, h, vocab).value]
      invariant forall h | h in rendered && h !in harnesses[..j] :: now[h] == rendered[h]
    {
      var harness := harnesses[j];
      var body := Rendition(file.text, harness, vocab);
      if body.Err? {
        return Err(body.error);
      }
      assert harnesses[..j + 1] == harnesses[..j] + [harness];
      now := now[harness := now[harness][file.path := body.value]];
    }
    assert harnesses[..|harnesses|] == harnesses;
    return Ok(now);
  }

  lemma PlannableIsPossible(file: SourceFile, vocab: Vocab)
    requires forall h :: h in vocab <==> h in HARNESSES
    ensures PlannableFile(file, vocab) <==> Possible(file, vocab)
  {
    hide Rendition, Generated, HARNESSES;
    forall h ensures Rendition(file.text, h, vocab).Ok? <==> exists out :: Generated(file.text, h, vocab, out) {
      RenditionGenerated(file.text, h, vocab);
    }
  }

  lemma PlannableExactly(files: seq<SourceFile>, vocab: Vocab)
    requires vocab.Keys == set h | h in HARNESSES
    ensures Plannable(files, vocab) <==> forall f | f in files :: Possible(f, vocab)
  {
    hide PlannableFile, Possible, HARNESSES;
    assert forall h :: h in vocab <==> h in vocab.Keys;
    forall f | f in files ensures PlannableFile(f, vocab) <==> Possible(f, vocab) {
      PlannableIsPossible(f, vocab);
    }
  }

  lemma RenditionGenerated(text: string, h: string, vocab: Vocab)
    ensures Rendition(text, h, vocab).Ok? <==> exists out :: Generated(text, h, vocab, out)
    ensures Rendition(text, h, vocab).Ok? ==> Generated(text, h, vocab, Rendition(text, h, vocab).value)
  {
    hide Rendition, Generated;
    forall out ensures Rendition(text, h, vocab) == Ok(out) <==> Generated(text, h, vocab, out) {
      GeneratedExactly(text, h, vocab, out);
    }
    if Rendition(text, h, vocab).Ok? {
      assert Generated(text, h, vocab, Rendition(text, h, vocab).value);
    }
  }

  lemma OneMoreText(tree: Tree, files: seq<SourceFile>, file: SourceFile, body: string, h: string, vocab: Vocab)
    requires HoldsTexts(tree, files, h, vocab) && Generated(file.text, h, vocab, body)
    ensures HoldsTexts(tree[file.path := body], files + [file], h, vocab)
  {
    hide Generated;
    var more, all := tree[file.path := body], files + [file];
    assert all[|files|] == file;
    forall i | IsLast(all, i) ensures all[i].path in more && Generated(all[i].text, h, vocab, more[all[i].path]) {
      if i < |files| {
        assert all[|files|].path != all[i].path && all[i] == files[i];
        forall j | i < j < |files| ensures files[j].path != files[i].path {
          assert all[j] == files[j];
        }
        assert IsLast(files, i);
      }
    }
    hide IsLast;
    forall p ensures p in more <==> exists i | 0 <= i < |all| :: all[i].path == p {
      if i :| 0 <= i < |files| && files[i].path == p {
        assert all[i].path == p;
      }
    }
  }

  lemma {:induction false} OutputTexts(files: seq<SourceFile>, h: string, vocab: Vocab)
    requires forall f | f in files :: Rendition(f.text, h, vocab).Ok?
    ensures HoldsTexts(Output(files, h, vocab), files, h, vocab)
  {
    hide Rendition, Generated;
    if files != [] {
      hide HoldsTexts;
      var front, file := files[..|files| - 1], Last(files);
      assert files == front + [file];
      OutputTexts(front, h, vocab);
      RenditionGenerated(file.text, h, vocab);
      OneMoreText(Output(front, h, vocab), front, file, Rendition(file.text, h, vocab).value, h, vocab);
    }
  }

  lemma PlansTexts(rendered: map<string, Tree>, files: seq<SourceFile>, vocab: Vocab)
    requires Plans(rendered, files, vocab) && Plannable(files, vocab) && vocab.Keys == set h | h in HARNESSES
    ensures PlannedTexts(rendered, files, vocab)
  {
    hide Rendition, Output, HoldsTexts, HARNESSES;
    forall h | h in vocab ensures HoldsTexts(rendered[h], files, h, vocab) {
      assert forall f | f in files :: PlannableFile(f, vocab);
      OutputTexts(files, h, vocab);
    }
  }

  /** Render every authored file for every harness; nothing is written. */
  method Plan(files: seq<SourceFile>, vocab: Vocab) returns (r: Result<map<string, Tree>, SkillError>)
    requires vocab.Keys == set h | h in HARNESSES
    ensures r.Ok? <==> Plannable(files, vocab)
    ensures r.Ok? ==> Plans(r.value, files, vocab)
    ensures r.Ok? <==> forall f | f in files :: Possible(f, vocab)
    ensures r.Ok? ==> PlannedTexts(r.value, files, vocab)
  {
    hide Rendition, Owned, HARNESSES, Possible, PlannedTexts;
    PlannableExactly(files, vocab);
    var rendered: map<string, Tree> := map h | h in vocab :: map[];
    for i := 0 to |files|
      invariant Plannable(files[..i], vocab)
      invariant Plans(rendered, files[..i], vocab)
    {
      PlannableUpTo(files, i, vocab);
      hide Output, Plannable;
      if !Owned(files[i].path) {
        return Err(NotOwned(files[i].path));
      }
      HarnessesDiffer();
      var more := RenderFile(files[i], HARNESSES, vocab, rendered);
      if more.Err? {
        return more;
      }
      forall h | h in vocab ensures more.value[h] == Output(files[..i + 1], h, vocab) {
        OutputUpTo(files, i, h, vocab);
      }
      rendered := more.value;
    }
    assert files[..|files|] == files;
    PlansTexts(rendered, files, vocab);
    return Ok(rendered);
  }

  /** Nothing is planned outside the owned prefix. */
  lemma {:induction false} OutputIsOwned(files: seq<SourceFile>, harness: string, vocab: Vocab)
    requires Plannable(files, vocab)
    ensures forall p | p in Output(files, harness, vocab) :: Owned(p)
  {
    hide Rendition, Owned;
    if files != [] {
      assert PlannableFile(Last(files), vocab);
      OutputIsOwned(files[..|files| - 1], harness, vocab);
    }
  }

  // Writing and comparing.

  datatype Change = Wrote(harness: string, path: string) | Removed(harness: string, path: string)

  datatype Drift =
    | Missing(harness: string, path: string)
    | Stale(harness: string, path: string)
    | Orphaned(harness: string, path: string)

  predicate Orphan(tree: Tree, files: Tree, path: string) {
    path in tree && Owned(path) && path !in files
  }

  predicate Outdated(tree: Tree, files: Tree, path: string) {
    path in files && (path !in tree || tree[path] != files[path])
  }

  ghost predicate IsChange(roots: map<string, Tree>, rendered: map<string, Tree>, c: Change) {
    && c.harness in rendered && c.harness in roots
    && match c
       case Wrote(h, p) => Outdated(roots[h], rendered[h], p)
       case Removed(h, p) => Orphan(roots[h], rendered[h], p)
  }

  ghost predicate IsDrift(roots: map<string, Tree>, rendered: map<string, Tree>, d: Drift) {
    && d.harness in rendered && d.harness in roots
    && match d
       case Missing(h, p) => p in rendered[h] && p !in roots[h]
       case Stale(h, p) => p in rendered[h] && p in roots[h] && roots[h][p] != rendered[h][p]
       case Orphaned(h, p) => Orphan(roots[h], rendered[h], p)
  }

  /** One root after writing: what was planned, and what the generator does not own. */
  ghost function Synced(tree: Tree, files: Tree): Tree {
    (map p | p in tree && !Owned(p) :: tree[p]) + files
  }

  ghost function Pruned(tree: Tree, files: Tree): Tree {
    map p | p in tree && (p in files || !Owned(p)) :: tree[p]
  }

  ghost function AllSynced(roots: map<string, Tree>, rendered: map<string, Tree>): map<string, Tree> {
    map h | h in roots :: if h in rendered then Synced(roots[h], rendered[h]) else roots[h]
  }

  class Targets {
    var roots: map<string, Tree>

    constructor (roots: map<string, Tree>)
      ensures this.roots == roots
    {
      this.roots := roots;
    }

    /** Write what differs under one root. */
    method WriteFiles(harness: string, files: Tree) returns (changed: seq<Change>)
      requires harness in roots
      modifies this
      ensures roots == old(roots)[harness := old(roots)[harness] + files]
      ensures forall c :: c in changed <==> c.Wrote? && c.harness == harness && Outdated(old(roots)[harness], files, c.path)
    {
      changed := [];
      var tree := roots[harness];
      ghost var before := tree;
      var todo := files.Keys;
      while todo != {}
        invariant todo <= files.Keys && tree.Keys == before.Keys + files.Keys - (todo - before.Keys)
        invariant forall p | p in tree :: tree[p] == if p in files && p !in todo then files[p] else before[p]
        invariant forall c :: c in changed <==> c.Wrote? && c.harness == harness && c.path !in todo && Outdated(before, files, c.path)
      {
        var path :| path in todo;
        todo := todo - {path};
        if path !in tree || tree[path] != files[path] {
          tree := tree[path := files[path]];
          changed := changed + [Wrote(harness, path)];
        }
      }
      assert tree == before + files;
      roots := roots[harness := tree];
    }

    /** Remove the generated files under one root that are no longer planned. */
    method Prune(harness: string, files: Tree) returns (changed: seq<Change>)
      requires harness in roots
      modifies this
      ensures roots == old(roots)[harness := Pruned(old(roots)[harness], files)]
      ensures forall c :: c in changed <==> c.Removed? && c.harness == harness && Orphan(old(roots)[harness], files, c.path)
    {
      hide Owned;
      changed := [];
      var tree := roots[harness];
      ghost var before := tree;
      var todo := tree.Keys;
      while todo != {}
        invariant todo <= before.Keys && tree.Keys <= before.Keys
        invariant forall p | p in before :: p in tree <==> p in todo || p in files || !Owned(p)
        invariant forall p | p in tree :: tree[p] == before[p]
        invariant forall c :: c in changed <==> c.Removed? && c.harness == harness && c.path !in todo && Orphan(before, files, c.path)
      {
        var path :| path in todo;
        todo := todo - {path};
        if Owned(path) && path !in files {
          tree := tree - {path};
          changed := changed + [Removed(harness, path)];
        }
      }
      assert tree == Pruned(before, files);
      roots := roots[harness := tree];
    }

    method WriteRoot(harness: string, files: Tree) returns (changed: seq<Change>)
      requires harness in roots
      modifies this
      ensures roots == old(roots)[harness := Synced(old(roots)[harness], files)]
      ensures forall c :: c in changed <==> c.harness == harness && IsChange(old(roots), map[harness := files], c)
    {
      hide Owned;
      var wrote := WriteFiles(harness, files);
      var removed := Prune(harness, files);
      assert Pruned(old(roots)[harness] + files, files) == Synced(old(roots)[harness], files);
      changed := wrote + removed;
    }

    method Write(rendered: map<string, Tree>) returns (changed: seq<Change>)
      requires rendered.Keys <= roots.Keys
      modifies this
      ensures roots == AllSynced(old(roots), rendered)
      ensures forall c :: c in changed <==> IsChange(old(roots), rendered, c)
    {
      hide Owned, Orphan, Outdated, Synced;
      changed := [];
      var todo := rendered.Keys;
      while todo != {}
        invariant todo <= rendered.Keys && roots.Keys == old(roots).Keys
        invariant forall h | h in roots ::
                    roots[h] == if h in rendered && h !in todo then Synced(old(roots)[h], rendered[h]) else old(roots)[h]
        invariant forall c :: c in changed <==> c.harness !in todo && IsChange(old(roots), rendered, c)
      {
        var harness :| harness in todo;
        todo := todo - {harness};
        ghost var now := roots;
        var own := WriteRoot(harness, rendered[harness]);
        assert forall c: Change | c.harness == harness ::
            IsChange(now, map[harness := rendered[harness]], c) <==> IsChange(old(roots), rendered, c);
        changed := changed + own;
      }
    }

    method Diff(rendered: map<string, Tree>) returns (drifted: seq<Drift>)
      requires rendered.Keys <= roots.Keys
      ensures forall d :: d in drifted <==> IsDrift(roots, rendered, d)
    {
      hide Owned;
      drifted := [];
      var todo := rendered.Keys;
      while todo != {}
        invariant todo <= rendered.Keys
        invariant forall d :: d in drifted <==> d.harness !in todo && IsDrift(roots, rendered, d)
      {
        var harness :| harness in todo;
        todo := todo - {harness};
        var own := DiffRoot(harness, roots[harness], rendered[harness]);
        drifted := drifted + own;
      }
    }

    static method DiffRoot(harness: string, tree: Tree, files: Tree) returns (drifted: seq<Drift>)
      ensures forall d :: d in drifted <==> d.harness == harness && IsDrift(map[harness := tree], map[harness := files], d)
    {
      hide Owned;
      drifted := [];
      var todo := files.Keys;
      while todo != {}
        invariant todo <= files.Keys
        invariant forall d :: d in drifted
                    <==> d.harness == harness && !d.Orphaned? && d.path !in todo
                         && IsDrift(map[harness := tree], map[harness := files], d)
      {
        var path :| path in todo;
        todo := todo - {path};
        if path !in tree {
          drifted := drifted + [Missing(harness, path)];
        } else if tree[path] != files[path] {
          drifted := drifted + [Stale(harness, path)];
        }
      }
      todo := tree.Keys;
      while todo != {}
        invariant todo <= tree.Keys
        invariant forall d :: d in drifted
                    <==> d.harness == harness && (d.Orphaned? ==> d.path !in todo)
                         && IsDrift(map[harness := tree], map[harness := files], d)
      {
        var path :| path in todo;
        todo := todo - {path};
        if Owned(path) && path !in files {
          drifted := drifted + [Orphaned(harness, path)];
        }
      }
    }
  }

  // The two commands agree.

  ghost predicate NoDrift(roots: map<string, Tree>, rendered: map<string, Tree>) {
    forall d :: !IsDrift(roots, rendered, d)
  }

  ghost predicate NoChange(roots: map<string, Tree>, rendered: map<string, Tree>) {
    forall c :: !IsChange(roots, rendered, c)
  }

  /** Checking reports a problem exactly when writing would change something. */
  lemma WriteChangesWhatDiffReports(roots: map<string, Tree>, rendered: map<string, Tree>)
    ensures NoDrift(roots, rendered) <==> NoChange(roots, rendered)
    ensures NoChange(roots, rendered) && rendered.Keys <= roots.Keys ==> AllSynced(roots, rendered) == roots
  {
    hide Owned;
    forall c | IsChange(roots, rendered, c) ensures exists d :: IsDrift(roots, rendered, d) {
      var d := match c
        case Wrote(h, p) => if p in roots[h] then Stale(h, p) else Missing(h, p)
        case Removed(h, p) => Orphaned(h, p);
      assert IsDrift(roots, rendered, d);
    }
    forall d | IsDrift(roots, rendered, d) ensures exists c :: IsChange(roots, rendered, c) {
      var c := if d.Orphaned? then Removed(d.harness, d.path) else Wrote(d.harness, d.path);
      assert IsChange(roots, rendered, c);
    }
    if NoChange(roots, rendered) && rendered.Keys <= roots.Keys {
      forall h | h in rendered ensures Synced(roots[h], rendered[h]) == roots[h] {
        forall p ensures !Outdated(roots[h], rendered[h], p) && !Orphan(roots[h], rendered[h], p) {
          assert !IsChange(roots, rendered, Wrote(h, p)) && !IsChange(roots, rendered, Removed(h, p));
        }
        SyncedFixed(roots[h], rendered[h]);
      }
    }
  }

  lemma SyncedFixed(tree: Tree, files: Tree)
    requires forall p :: !Outdated(tree, files, p) && !Orphan(tree, files, p)
    ensures Synced(tree, files) == tree
  {
    hide Owned;
    forall p ensures p in Synced(tree, files) <==> p in tree {
      assert !Outdated(tree, files, p) && !Orphan(tree, files, p);
    }
    forall p | p in tree ensures Synced(tree, files)[p] == tree[p] {
      assert !Outdated(tree, files, p);
    }
  }

  /** After writing, checking finds nothing and writing again changes nothing. */
  lemma WritingSettles(roots: map<string, Tree>, rendered: map<string, Tree>)
    requires rendered.Keys <= roots.Keys
    ensures NoDrift(AllSynced(roots, rendered), rendered)
    ensures AllSynced(AllSynced(roots, rendered), rendered) == AllSynced(roots, rendered)
  {
    hide Owned;
    WriteChangesWhatDiffReports(AllSynced(roots, rendered), rendered);
  }

  /** A file outside the owned prefix is never written, changed or removed. */
  lemma UnownedSurvives(files: seq<SourceFile>, vocab: Vocab, harness: string, tree: Tree, path: string)
    requires Plannable(files, vocab) && !Owned(path)
    ensures path in Synced(tree, Output(files, harness, vocab)) <==> path in tree
    ensures path in tree ==> Synced(tree, Output(files, harness, vocab))[path] == tree[path]
  {
    hide Owned;
    OutputIsOwned(files, harness, vocab);
  }

  /** The command. Exit code 2: the sources cannot be rendered, nothing is touched.
      With `check`, nothing is touched and 0 means in sync. Without, the trees are in
      sync afterwards. */
  method Sync(raw: map<string, Option<Table>>, files: seq<SourceFile>, targets: Targets, check: bool)
    returns (code: int, ghost rendered: map<string, Tree>)
    requires forall h | h in HARNESSES :: h in targets.roots
    modifies targets
    ensures code == 2 <==> !(Loads(raw) && Plannable(files, Loaded(raw)))
    ensures code == 2 || check ==> targets.roots == old(targets.roots)
    ensures code != 2 && check ==> (code == 0 <==> NoDrift(targets.roots, rendered)) && (code == 0 || code == 1)
    ensures code != 2 && !check ==> code == 0 && NoDrift(targets.roots, rendered)
    ensures code != 2 ==> Plans(rendered, files, Loaded(raw))
    ensures code != 2 && !check ==> targets.roots == AllSynced(old(targets.roots), rendered)
    ensures code != 2 <==> Loads(raw) && forall f | f in files :: Acceptable(f, Loaded(raw))
    ensures code != 2 ==> rendered.Keys == {"claude", "codex", "muse"} && PlannedTexts(rendered, files, Loaded(raw))
  {
    hide Possible, Acceptable, PlannedTexts, Plannable, Plans, IsDrift, AllSynced, Loads, HARNESSES;
    rendered := map[];
    var vocab := LoadVocab(raw);
    if vocab.Err? {
      return 2, rendered;
    }
    AcceptableFiles(files, vocab.value);
    var plan := Plan(files, vocab.value);
    if plan.Err? {
      return 2, rendered;
    }
    rendered := plan.value;
    PlansKeys(rendered, files, vocab.value);
    if check {
      var drifted := targets.Diff(plan.value);
      if drifted != [] {
        assert IsDrift(targets.roots, rendered, drifted[0]);
        return 1, rendered;
      }
      return 0, rendered;
    }
    WritingSettles(targets.roots, plan.value);
    var changed := targets.Write(plan.value);
    return 0, rendered;
  }

  lemma AcceptableFiles(files: seq<SourceFile>, vocab: Vocab)
    requires vocab.Keys == (set h | h in HARNESSES) && Symmetric(vocab)
    ensures vocab.Keys == {"claude", "codex", "muse"}
    ensures (forall f | f in files :: Possible(f, vocab)) <==> forall f | f in files :: Acceptable(f, vocab)
  {
    hide Possible, Acceptable;
    assert HARNESSES[0] in vocab;
    assert forall h :: h in HARNESSES <==> h == HARNESSES[0] || h == HARNESSES[1] || h == HARNESSES[2];
    forall f | f in files ensures Possible(f, vocab) <==> Acceptable(f, vocab) {
      AcceptableExactly(f, vocab);
    }
  }

  lemma PlansKeys(rendered: map<string, Tree>, files: seq<SourceFile>, vocab: Vocab)
    requires Plans(rendered, files, vocab)
    ensures rendered.Keys == vocab.Keys
  {
  }
}
