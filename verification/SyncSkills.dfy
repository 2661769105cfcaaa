/** The skill generator: render every authored skill for every harness, then either
    write the trees or report how the committed ones differ. */
module SyncSkills {
  import opened Std
  import opened PyText
  import opened SkillBlocks
  import opened SkillTokens

  const HARNESSES: seq<string> := ["claude", "codex", "muse"]
  const OWNED_PREFIX := "iron-"
  const GENERATED_HEADER := "<!-- GENERATED from skills/ — do not edit -->"
  const FENCE := "---"

  type Table = map<string, string>
  type Vocab = map<string, Table>

  datatype SkillError =
    | MissingTable(harness: string)
    | NotATable(harness: string)
    | TablesDisagree(harness: string)
    | NoSuchHarness(harness: string)
    | BadBlock(error: BlockError)
    | UnknownToken(token: string)
    | UnclosedFrontmatter
    | NotOwned(path: string)

  // Vocabulary.

  /** Every harness has the same tokens. */
  ghost predicate Symmetric(vocab: Vocab) {
    forall h, k | h in vocab && k in vocab :: vocab[h].Keys == vocab[k].Keys
  }

  /** Every harness has a table (`None` is a top-level value that is not one), and the
      tables have the same tokens. Other entries are ignored. */
  ghost predicate Loads(raw: map<string, Option<Table>>) {
    && (forall h | h in HARNESSES :: h in raw && raw[h].Some?)
    && (forall h, k | h in HARNESSES && k in HARNESSES :: raw[h].value.Keys == raw[k].value.Keys)
  }

  ghost function Loaded(raw: map<string, Option<Table>>): Vocab
    requires Loads(raw)
  {
    map h | h in HARNESSES :: raw[h].value
  }

  method LoadVocab(raw: map<string, Option<Table>>) returns (r: Result<Vocab, SkillError>)
    ensures r.Ok? <==> Loads(raw)
    ensures r.Ok? ==> r.value == Loaded(raw) && Symmetric(r.value)
  {
    for i := 0 to |HARNESSES|
      invariant forall j | 0 <= j < i :: HARNESSES[j] in raw
    {
      if HARNESSES[i] !in raw {
        return Err(MissingTable(HARNESSES[i]));
      }
    }
    var vocab: Vocab := map[];
    for i := 0 to |HARNESSES|
      invariant vocab.Keys == set j | 0 <= j < i :: HARNESSES[j]
      invariant forall j | 0 <= j < i :: raw[HARNESSES[j]] == Some(vocab[HARNESSES[j]])
    {
      if raw[HARNESSES[i]].None? {
        return Err(NotATable(HARNESSES[i]));
      }
      vocab := vocab[HARNESSES[i] := raw[HARNESSES[i]].value];
    }
    var reference := vocab[HARNESSES[0]].Keys;
    for i := 0 to |HARNESSES|
      invariant forall j | 0 <= j < i :: vocab[HARNESSES[j]].Keys == reference
    {
      if vocab[HARNESSES[i]].Keys != reference {
        return Err(TablesDisagree(HARNESSES[i]));
      }
    }
    return Ok(vocab);
  }

  // Rendering one text.

  /** `"\n".join`. */
  function Join(lines: seq<string>): string {
    if lines == [] then ""
    else if |lines| == 1 then lines[0]
    else Join(lines[..|lines| - 1]) + "\n" + Last(lines)
  }

  /** The text as authored has these lines; they say all of it. */
  lemma {:induction false} JoinUndoesSplit(text: string)
    ensures Join(SplitOn(text, '\n')) == text
    decreases |text|
  {
    var n := IndexOf(text, '\n');
    if n < |text| {
      var first, rest := text[..n], SplitOn(text[n + 1..], '\n');
      assert SplitOn(text, '\n') == [first] + rest;
      assert Join([first]) == first;
      hide SplitOn, Join;
      JoinUndoesSplit(text[n + 1..]);
      JoinConcat([first], rest);
      CutAt(text, n);
    }
  }

  lemma CutAt(text: string, n: nat)
    requires n < |text| && text[n] == '\n'
    ensures text == text[..n] + "\n" + text[n + 1..]
  {
  }

  lemma {:induction false} JoinConcat(xs: seq<string>, ys: seq<string>)
    requires xs != [] && ys != []
    ensures Join(xs + ys) == Join(xs) + "\n" + Join(ys)
  {
    if |ys| == 1 {
      assert (xs + ys)[..|xs|] == xs;
    } else {
      var front := ys[..|ys| - 1];
      JoinConcat(xs, front);
      assert (xs + ys)[..|xs + ys| - 1] == xs + front;
    }
  }

  function Render(text: string, harness: string, vocab: Vocab): Result<string, SkillError> {
    if harness !in vocab then Err(NoSuchHarness(harness))
    else match Visible(SplitOn(text, '\n'), harness, vocab.Keys)
      case Err(e) => Err(BadBlock(e))
      case Ok(lines) =>
        match Substitute(Join(lines), vocab[harness])
        case Err(token) => Err(UnknownToken(token))
        case Ok(out) => Ok(out)
  }

  /** What `harness` sees of the text, in its own words. */
  ghost predicate Says(text: string, harness: string, vocab: Vocab, body: string) {
    harness in vocab &&
    exists doc | WellFormed(doc, vocab.Keys) && DocLines(doc) == SplitOn(text, '\n') ::
      Substitute(Join(Seen(doc, harness)), vocab[harness]) == Ok(body)
  }

  lemma SaysExactly(text: string, harness: string, vocab: Vocab, body: string)
    ensures Render(text, harness, vocab) == Ok(body) <==> Says(text, harness, vocab, body)
  {
    hide WellFormed, DocLines, Seen, SplitOn, Join, Substitute, Visible;
    VisibleIsGrammatical(SplitOn(text, '\n'), harness, vocab.Keys);
  }

  lemma {:induction false} DeclaredLines(lines: seq<string>, tokens: set<string>)
    ensures Declared(Join(lines), tokens) <==> forall line | line in lines :: Declared(line, tokens)
  {
    hide Declared;
    if lines == [] {
      assert Declared("", tokens) by { NothingOccurs(tokens); }
    } else if |lines| == 1 {
      assert lines == [lines[0]];
    } else {
      var front := lines[..|lines| - 1];
      assert lines == front + [Last(lines)];
      DeclaredLines(front, tokens);
      DeclaredByLine(Join(front), Last(lines), tokens);
    }
  }

  lemma NothingOccurs(tokens: set<string>)
    ensures Declared("", tokens)
  {
  }

  /** The block structure is right, and every token on every line but the markers,
      whatever block it is in, is declared. */
  ghost predicate Renderable(text: string, vocab: Vocab) {
    var lines := SplitOn(text, '\n');
    && (exists doc :: WellFormed(doc, vocab.Keys) && DocLines(doc) == lines)
    && (forall h, line | h in vocab && line in lines && !IsMarker(line) :: Declared(line, vocab[h].Keys))
  }

  lemma RenderedWhenDeclared(text: string, harness: string, vocab: Vocab, doc: seq<Segment>)
    requires harness in vocab && WellFormed(doc, vocab.Keys) && DocLines(doc) == SplitOn(text, '\n')
    ensures Render(text, harness, vocab).Ok?
            <==> forall line | line in Seen(doc, harness) :: Declared(line, vocab[harness].Keys)
  {
    hide Declared, Substitute, Visible, WellFormed, DocLines, Seen, SplitOn;
    VisibleIsGrammatical(SplitOn(text, '\n'), harness, vocab.Keys);
    DeclaredLines(Seen(doc, harness), vocab[harness].Keys);
    SubstitutesExactly(Join(Seen(doc, harness)), vocab[harness]);
  }

  /** Completeness: a text renders for all harnesses exactly when it is renderable.
      Nothing is left unchecked because some harness does not show it. */
  lemma RenderIsComplete(text: string, vocab: Vocab)
    requires vocab != map[] && Symmetric(vocab)
    ensures (forall h | h in vocab :: Render(text, h, vocab).Ok?) <==> Renderable(text, vocab)
  {
    hide Declared, Substitute, WellFormed, DocLines, Seen, SplitOn, Visible, IsMarker, Content;
    var lines := SplitOn(text, '\n');
    var someone := Anyone(vocab.Keys);
    VisibleIsGrammatical(lines, someone, vocab.Keys);
    if doc :| WellFormed(doc, vocab.Keys) && DocLines(doc) == lines {
      forall h | h in vocab
        ensures Render(text, h, vocab).Ok? <==> forall line | line in Seen(doc, h) :: Declared(line, vocab[h].Keys)
      {
        RenderedWhenDeclared(text, h, vocab, doc);
      }
      forall line
        ensures (line in lines && !IsMarker(line)) <==> exists h | h in vocab :: line in Seen(doc, h)
      {
        ContentIsUnmarked(doc, vocab.Keys, line);
        ContentIsSeen(doc, vocab.Keys, line);
      }
      if forall h | h in vocab :: Render(text, h, vocab).Ok? {
        forall h, line | h in vocab && line in lines && !IsMarker(line) ensures Declared(line, vocab[h].Keys) {
          var owner :| owner in vocab && line in Seen(doc, owner);
          assert Render(text, owner, vocab).Ok?;
          assert vocab[owner].Keys == vocab[h].Keys;
        }
      }
      assert (forall h | h in vocab :: Render(text, h, vocab).Ok?) ==> Renderable(text, vocab);
      assert Renderable(text, vocab) ==> forall h | h in vocab :: Render(text, h, vocab).Ok? by {
        if Renderable(text, vocab) {
          forall h, line | h in vocab && line in Seen(doc, h) ensures Declared(line, vocab[h].Keys) {
            assert line in lines && !IsMarker(line);
          }
        }
      }
    } else {
      assert Render(text, someone, vocab).Err?;
    }
  }
}
