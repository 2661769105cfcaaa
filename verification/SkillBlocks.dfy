/** Harness blocks in authored skills: the line scanner that keeps one harness's
    lines, against the grammar of flat blocks it accepts. */
module SkillBlocks {
  import opened Std
  import opened PyText

  const OPENING := "<!--"
  const CLOSING := "-->"
  const HARNESS := "harness:"
  const SLASH_HARNESS := "/harness"

  predicate IsNameChar(c: char) {
    'a' <= c <= 'z' || '0' <= c <= '9' || c == '_' || c == '-'
  }

  predicate IsName(s: string) {
    s != "" && forall i | 0 <= i < |s| :: IsNameChar(s[i])
  }

  /** What a line that is one HTML comment, and nothing else, says inside. */
  function Comment(line: string): Option<string> {
    var body := Rstrip(line);
    if !EndsWith(body, CLOSING) then None
    else
      var inside := Rstrip(body[..|body| - |CLOSING|]);
      if OPENING <= inside then Some(Lstrip(inside[|OPENING|..])) else None
  }

  /** The harness an opening marker names. */
  function Opens(line: string): Option<string> {
    match Comment(line)
    case None => None
    case Some(inside) =>
      if HARNESS <= inside && IsName(inside[|HARNESS|..]) then Some(inside[|HARNESS|..]) else None
  }

  predicate Closes(line: string) {
    Comment(line) == Some(SLASH_HARNESS)
  }

  predicate IsMarker(line: string) {
    Opens(line).Some? || Closes(line)
  }

  /** The pattern of a comment line: spaces only where the pattern has them. */
  ghost predicate Spells(line: string, before: string, inside: string, after: string, trailing: string) {
    && AllSpace(before) && AllSpace(after) && AllSpace(trailing)
    && line == "<!--" + before + inside + after + "-->" + trailing
  }

  lemma {:induction false} RstripRemainder(s: string)
    ensures AllSpace(s[|Rstrip(s)|..])
  {
    if s != "" && IsSpace(s[|s| - 1]) {
      var front := s[..|s| - 1];
      RstripRemainder(front);
      assert s[|Rstrip(s)|..] == front[|Rstrip(s)|..] + [s[|s| - 1]];
    }
  }

  lemma {:induction false} LstripRemainder(s: string) returns (spaces: string)
    ensures AllSpace(spaces) && s == spaces + Lstrip(s)
  {
    if s != "" && IsSpace(s[0]) {
      var rest := LstripRemainder(s[1..]);
      spaces := [s[0]] + rest;
    } else {
      spaces := "";
    }
  }

  /** Stripping finds the comment text exactly: a line has it if and only if it
      matches the pattern, and it is then the only text that does. */
  lemma CommentSpelled(line: string, before: string, inside: string, after: string, trailing: string)
    requires Spells(line, before, inside, after, trailing)
    requires inside != "" && !IsSpace(inside[0]) && !IsSpace(Last(inside))
    ensures Comment(line) == Some(inside)
  {
    var body := OPENING + before + inside + after + CLOSING;
    assert Last(body) == '>';
    RstripSpaces(body, trailing);
    assert line == body + trailing;
    var core := OPENING + before + inside;
    assert body[|body| - |CLOSING|..] == CLOSING;
    assert body[..|body| - |CLOSING|] == core + after;
    assert Last(core) == Last(inside);
    RstripSpaces(core, after);
    assert OPENING <= core && core[|OPENING|..] == before + inside;
    LstripSpaces(before, inside);
  }

  lemma SpellingOf(line: string) returns (before: string, after: string, trailing: string)
    requires Comment(line).Some?
    ensures Spells(line, before, Comment(line).value, after, trailing)
  {
    hide Rstrip, Lstrip, AllSpace;
    var body := Rstrip(line);
    trailing := line[|body|..];
    RstripRemainder(line);
    var rest := body[..|body| - |CLOSING|];
    var inside := Rstrip(rest);
    after := rest[|inside|..];
    RstripRemainder(rest);
    before := LstripRemainder(inside[|OPENING|..]);
    assert rest == inside + after;
    assert inside == OPENING + inside[|OPENING|..];
    assert body == rest + body[|body| - |CLOSING|..];
    assert line == body + trailing;
  }

  lemma NameIsSpelled(name: string)
    ensures IsName(name)
            <==> name != "" && forall i | 0 <= i < |name| ::
                   'a' <= name[i] <= 'z' || '0' <= name[i] <= '9' || name[i] == '_' || name[i] == '-'
  {
  }

  /** An opening marker is exactly a line of the documented shape, for one name. */
  lemma OpensExactly(line: string, name: string)
    ensures Opens(line) == Some(name)
            <==> && name != ""
                 && (forall i | 0 <= i < |name| ::
                       'a' <= name[i] <= 'z' || '0' <= name[i] <= '9' || name[i] == '_' || name[i] == '-')
                 && exists b, a, t :: Spells(line, b, "harness:" + name, a, t)
  {
    NameIsSpelled(name);
    hide Spells, Comment;
    if Opens(line) == Some(name) {
      var b, a, t := SpellingOf(line);
      assert Comment(line).value == "harness:" + name;
    }
    if IsName(name) && exists b, a, t :: Spells(line, b, "harness:" + name, a, t) {
      var b, a, t :| Spells(line, b, "harness:" + name, a, t);
      assert Last("harness:" + name) == Last(name) && IsNameChar(Last(name));
      CommentSpelled(line, b, "harness:" + name, a, t);
    }
  }

  lemma ClosesExactly(line: string)
    ensures Closes(line) <==> exists b, a, t :: Spells(line, b, "/harness", a, t)
  {
    if Closes(line) {
      var b, a, t := SpellingOf(line);
    }
    if exists b, a, t :: Spells(line, b, SLASH_HARNESS, a, t) {
      var b, a, t :| Spells(line, b, SLASH_HARNESS, a, t);
      CommentSpelled(line, b, SLASH_HARNESS, a, t);
    }
  }

  lemma NoMarkerIsBoth(line: string)
    ensures !(Opens(line).Some? && Closes(line))
  {
    assert HARNESS[0] == 'h' && SLASH_HARNESS[0] == '/';
  }

  // The grammar: a document is plain lines and blocks that do not nest.

  datatype Segment =
    | Plain(line: string)
    | Block(opening: string, body: seq<string>, closing: string)

  ghost predicate NoMarkers(lines: seq<string>) {
    forall line | line in lines :: !IsMarker(line)
  }

  ghost predicate WellFormedSegment(segment: Segment, names: set<string>) {
    match segment
    case Plain(line) => !IsMarker(line)
    case Block(opening, body, closing) =>
      Opens(opening).Some? && Opens(opening).value in names && NoMarkers(body) && Closes(closing)
  }

  ghost predicate WellFormed(doc: seq<Segment>, names: set<string>) {
    forall segment | segment in doc :: WellFormedSegment(segment, names)
  }

  ghost function SegmentLines(segment: Segment): seq<string> {
    match segment
    case Plain(line) => [line]
    case Block(opening, body, closing) => [opening] + body + [closing]
  }

  ghost function DocLines(doc: seq<Segment>): seq<string> {
    if doc == [] then [] else DocLines(doc[..|doc| - 1]) + SegmentLines(Last(doc))
  }

  /** The lines of one segment that `harness` gets. */
  ghost function SegmentSeen(segment: Segment, harness: string): seq<string> {
    match segment
    case Plain(line) => [line]
    case Block(opening, body, _) => if Opens(opening) == Some(harness) then body else []
  }

  ghost function Seen(doc: seq<Segment>, harness: string): seq<string> {
    if doc == [] then [] else Seen(doc[..|doc| - 1], harness) + SegmentSeen(Last(doc), harness)
  }

  // The scanner.

  datatype BlockError =
    | Nested(line: nat)
    | UnknownHarness(line: nat)
    | Stray(line: nat)
    | Unclosed(line: nat)

  /** The block being read: which harness, opened at which line. */
  datatype OpenBlock = OpenBlock(name: string, line: nat)

  datatype Scanner = Scanner(open: Option<OpenBlock>, out: seq<string>)

  function Read(s: Scanner, line: string, number: nat, harness: string, names: set<string>)
    : Result<Scanner, BlockError>
  {
    match Opens(line)
    case Some(name) =>
      if s.open.Some? then Err(Nested(number))
      else if name !in names then Err(UnknownHarness(number))
      else Ok(s.(open := Some(OpenBlock(name, number))))
    case None =>
      if Closes(line) then
        if s.open.None? then Err(Stray(number)) else Ok(s.(open := None))
      else if s.open.None? || s.open.value.name == harness then Ok(s.(out := s.out + [line]))
      else Ok(s)
  }

  function Scan(lines: seq<string>, harness: string, names: set<string>): Result<Scanner, BlockError> {
    if lines == [] then Ok(Scanner(None, []))
    else
      var before := Scan(lines[..|lines| - 1], harness, names);
      if before.Err? then before else Read(before.value, Last(lines), |lines|, harness, names)
  }

  function Visible(lines: seq<string>, harness: string, names: set<string>): Result<seq<string>, BlockError> {
    match Scan(lines, harness, names)
    case Err(e) => Err(e)
    case Ok(s) => if s.open.Some? then Err(Unclosed(s.open.value.line)) else Ok(s.out)
  }

  lemma {:induction false} ScanStopsAtError(lines: seq<string>, more: seq<string>, harness: string, names: set<string>)
    requires Scan(lines, harness, names).Err?
    ensures Scan(lines + more, harness, names) == Scan(lines, harness, names)
  {
    if more == [] {
      assert lines + more == lines;
    } else {
      assert (lines + more)[..|lines + more| - 1] == lines + more[..|more| - 1];
      ScanStopsAtError(lines, more[..|more| - 1], harness, names);
    }
  }

  lemma ScanSnoc(lines: seq<string>, line: string, harness: string, names: set<string>)
    requires Scan(lines, harness, names).Ok?
    ensures Scan(lines + [line], harness, names)
            == Read(Scan(lines, harness, names).value, line, |lines| + 1, harness, names)
  {
    assert (lines + [line])[..|lines|] == lines;
  }

  /** Keep one harness's lines; every malformed block is an error, reported at the
      line that makes it one (for an unclosed block, the line that opened it). */
  method StripHarnessBlocks(lines: seq<string>, harness: string, names: set<string>)
    returns (r: Result<seq<string>, BlockError>)
    ensures r == Visible(lines, harness, names)
  {
    hide Opens, Closes;
    var out: seq<string> := [];
    var openHarness: Option<string> := None;
    var openLine := 0;
    for n := 0 to |lines|
      invariant Scan(lines[..n], harness, names)
                == Ok(Scanner(if openHarness.None? then None else Some(OpenBlock(openHarness.value, openLine)), out))
    {
      var line, lineno := lines[n], n + 1;
      assert lines[..n + 1] == lines[..n] + [line];
      ScanSnoc(lines[..n], line, harness, names);
      assert lines == lines[..n + 1] + lines[n + 1..];
      var marker := Opens(line);
      if marker.Some? {
        if openHarness.Some? {
          ScanStopsAtError(lines[..n + 1], lines[n + 1..], harness, names);
          return Err(Nested(lineno));
        }
        if marker.value !in names {
          ScanStopsAtError(lines[..n + 1], lines[n + 1..], harness, names);
          return Err(UnknownHarness(lineno));
        }
        openHarness, openLine := marker, lineno;
        continue;
      }
      if Closes(line) {
        if openHarness.None? {
          ScanStopsAtError(lines[..n + 1], lines[n + 1..], harness, names);
          return Err(Stray(lineno));
        }
        openHarness := None;
        continue;
      }
      if openHarness.None? || openHarness.value == harness {
        out := out + [line];
      }
    }
    assert lines[..|lines|] == lines;
    if openHarness.Some? {
      return Err(Unclosed(openLine));
    }
    return Ok(out);
  }

  // The scanner accepts exactly the grammar.

  lemma {:induction false} ScanBody(lines: seq<string>, body: seq<string>, harness: string, names: set<string>)
    requires Scan(lines, harness, names).Ok? && NoMarkers(body)
    ensures var s := Scan(lines, harness, names).value;
            Scan(lines + body, harness, names)
            == Ok(s.(out := s.out + if s.open.None? || s.open.value.name == harness then body else []))
  {
    hide Opens, Closes;
    if body == [] {
      assert lines + body == lines;
      var out := Scan(lines, harness, names).value.out;
      assert out + [] == out;
    } else {
      var front := body[..|body| - 1];
      assert body == front + [Last(body)];
      ScanBody(lines, front, harness, names);
      ScanSnoc(lines + front, Last(body), harness, names);
      assert lines + front + [Last(body)] == lines + body;
      assert !IsMarker(Last(body));
      var out := Scan(lines, harness, names).value.out;
      assert (out + front) + [Last(body)] == out + body;
      hide Scan;
    }
  }

  lemma SegmentIsRead(lines: seq<string>, segment: Segment, harness: string, names: set<string>)
    requires Scan(lines, harness, names).Ok? && Scan(lines, harness, names).value.open.None?
    requires WellFormedSegment(segment, names)
    ensures Scan(lines + SegmentLines(segment), harness, names)
            == Ok(Scanner(None, Scan(lines, harness, names).value.out + SegmentSeen(segment, harness)))
  {
    hide Opens, Closes, Scan;
    var out := Scan(lines, harness, names).value.out;
    match segment {
      case Plain(line) =>
        ScanSnoc(lines, line, harness, names);
      case Block(opening, body, closing) =>
        ScanSnoc(lines, opening, harness, names);
        ScanBody(lines + [opening], body, harness, names);
        NoMarkerIsBoth(closing);
        ScanSnoc(lines + [opening] + body, closing, harness, names);
        assert lines + [opening] + body + [closing] == lines + SegmentLines(segment);
        assert out + [] == out;
    }
  }

  /** A well-formed document is read as its structure says. */
  lemma {:induction false} DocumentIsRead(doc: seq<Segment>, harness: string, names: set<string>)
    requires WellFormed(doc, names)
    ensures Scan(DocLines(doc), harness, names) == Ok(Scanner(None, Seen(doc, harness)))
  {
    hide WellFormedSegment, SegmentLines, SegmentSeen;
    if doc != [] {
      hide Scan;
      var front := doc[..|doc| - 1];
      DocumentIsRead(front, harness, names);
      SegmentIsRead(DocLines(front), Last(doc), harness, names);
    }
  }

  lemma DocSnoc(doc: seq<Segment>, segment: Segment, names: set<string>)
    requires WellFormed(doc, names) && WellFormedSegment(segment, names)
    ensures WellFormed(doc + [segment], names)
    ensures DocLines(doc + [segment]) == DocLines(doc) + SegmentLines(segment)
  {
    hide WellFormedSegment, SegmentLines;
    assert (doc + [segment])[..|doc|] == doc;
  }

  /** The lines of the block that is open, from its opening marker on. */
  ghost predicate Begun(open: Option<OpenBlock>, begun: seq<string>, names: set<string>) {
    match open
    case None => begun == []
    case Some(b) => begun != [] && Opens(begun[0]) == Some(b.name) && b.name in names && NoMarkers(begun[1..])
  }

  /** Whatever the scanner has read is a document, then at most one block begun. */
  lemma {:induction false} Parse(lines: seq<string>, harness: string, names: set<string>)
    returns (doc: seq<Segment>, begun: seq<string>)
    requires Scan(lines, harness, names).Ok?
    ensures WellFormed(doc, names) && lines == DocLines(doc) + begun
    ensures Begun(Scan(lines, harness, names).value.open, begun, names)
  {
    hide Opens, Closes;
    if lines == [] {
      doc, begun := [], [];
    } else {
      var front, line := lines[..|lines| - 1], Last(lines);
      doc, begun := Parse(front, harness, names);
      assert lines == front + [line];
      doc, begun := ParseLine(doc, begun, Scan(front, harness, names).value, line, |lines|, harness, names);
    }
  }

  lemma ParseLine(front: seq<Segment>, begun: seq<string>, s: Scanner, line: string, number: nat, harness: string, names: set<string>)
    returns (doc: seq<Segment>, now: seq<string>)
    requires WellFormed(front, names) && Begun(s.open, begun, names)
    requires Read(s, line, number, harness, names).Ok?
    ensures WellFormed(doc, names) && DocLines(front) + begun + [line] == DocLines(doc) + now
    ensures Begun(Read(s, line, number, harness, names).value.open, now, names)
  {
    hide Opens, Closes, WellFormed, DocLines;
    if Opens(line).Some? {
      doc, now := front, [line];
    } else if Closes(line) {
      var block := Block(begun[0], begun[1..], line);
      DocSnoc(front, block, names);
      assert SegmentLines(block) == begun + [line];
      doc, now := front + [block], [];
    } else if begun == [] {
      DocSnoc(front, Plain(line), names);
      doc, now := front + [Plain(line)], [];
    } else {
      assert (begun + [line])[1..] == begun[1..] + [line];
      doc, now := front, begun + [line];
    }
  }

  /** Stripping succeeds exactly on the texts of the grammar, and then gives each
      harness the lines outside blocks and those of its own blocks, in order. */
  lemma VisibleIsGrammatical(lines: seq<string>, harness: string, names: set<string>)
    ensures Visible(lines, harness, names).Ok? <==> exists doc :: WellFormed(doc, names) && DocLines(doc) == lines
    ensures forall doc | WellFormed(doc, names) && DocLines(doc) == lines ::
              Visible(lines, harness, names) == Ok(Seen(doc, harness))
  {
    hide Opens, Closes;
    if Visible(lines, harness, names).Ok? {
      var doc, begun := Parse(lines, harness, names);
      assert DocLines(doc) == lines;
    }
    forall doc | WellFormed(doc, names) && DocLines(doc) == lines
      ensures Visible(lines, harness, names) == Ok(Seen(doc, harness))
    {
      DocumentIsRead(doc, harness, names);
    }
  }

  /** Errors are reported at the first line that no text could continue: nothing that
      begins with the lines up to it is well-formed, while the lines before it are, at
      most after closing a block. */
  lemma ErrorsAreEarliest(lines: seq<string>, n: nat, harness: string, names: set<string>, closing: string)
    requires n < |lines| && Closes(closing)
    requires Scan(lines[..n], harness, names).Ok? && Scan(lines[..n + 1], harness, names).Err?
    ensures forall text | lines[..n + 1] <= text :: Visible(text, harness, names).Err?
    ensures Visible(lines, harness, names).Err? && Visible(lines, harness, names).error.line == n + 1
    ensures Visible(lines[..n], harness, names).Ok? || Visible(lines[..n] + [closing], harness, names).Ok?
  {
    hide Opens, Closes;
    forall text | lines[..n + 1] <= text ensures Visible(text, harness, names) == Visible(lines[..n + 1], harness, names) {
      ScanStopsAtError(lines[..n + 1], text[n + 1..], harness, names);
      assert text == lines[..n + 1] + text[n + 1..];
    }
    assert lines[..n + 1] <= lines;
    assert lines[..n + 1] == lines[..n] + [lines[n]];
    ScanSnoc(lines[..n], lines[n], harness, names);
    ScanSnoc(lines[..n], closing, harness, names);
    NoMarkerIsBoth(closing);
  }

  // Which lines reach whom.

  /** Every line that is not a marker. */
  ghost function Content(doc: seq<Segment>): seq<string> {
    if doc == [] then []
    else Content(doc[..|doc| - 1]) + match Last(doc) case Plain(line) => [line] case Block(_, body, _) => body
  }

  /** The content is exactly the lines that are not markers. */
  lemma {:induction false} ContentIsUnmarked(doc: seq<Segment>, names: set<string>, line: string)
    requires WellFormed(doc, names)
    ensures line in Content(doc) <==> line in DocLines(doc) && !IsMarker(line)
  {
    hide Opens, Closes;
    if doc != [] {
      ContentIsUnmarked(doc[..|doc| - 1], names, line);
      assert WellFormedSegment(Last(doc), names);
    }
  }

  /** Nothing is lost: a line of content is seen by some harness, and only such lines
      are. */
  lemma {:induction false} ContentIsSeen(doc: seq<Segment>, names: set<string>, line: string)
    requires WellFormed(doc, names) && names != {}
    ensures line in Content(doc) <==> exists harness | harness in names :: line in Seen(doc, harness)
  {
    hide Opens, Closes;
    if doc != [] {
      var front, last := doc[..|doc| - 1], Last(doc);
      ContentIsSeen(front, names, line);
      assert WellFormedSegment(last, names);
      if line in Content(front) {
        var harness :| harness in names && line in Seen(front, harness);
        assert line in Seen(doc, harness);
      } else if line in Content(doc) {
        var harness := if last.Plain? then Anyone(names) else Opens(last.opening).value;
        assert line in Seen(doc, harness);
      }
    }
  }

  ghost function Anyone(names: set<string>): (name: string)
    requires names != {}
    ensures name in names
  {
    var name :| name in names; name
  }

  ghost function LineCount(doc: seq<Segment>, plain: bool): nat {
    if doc == [] then 0
    else LineCount(doc[..|doc| - 1], plain)
         + match Last(doc)
           case Plain(_) => if plain then 1 else 0
           case Block(_, body, _) => if plain then 0 else |body|
  }

  ghost function SeenCount(doc: seq<Segment>, harnesses: seq<string>): nat {
    if harnesses == [] then 0
    else SeenCount(doc, harnesses[..|harnesses| - 1]) + |Seen(doc, Last(harnesses))|
  }

  lemma {:induction false} SeenGrowth(doc: seq<Segment>, harnesses: seq<string>, names: set<string>)
    requires doc != [] && WellFormed(doc, names) && Distinct(harnesses)
    ensures SeenCount(doc, harnesses)
            == SeenCount(doc[..|doc| - 1], harnesses)
               + match Last(doc)
                 case Plain(_) => |harnesses|
                 case Block(opening, body, _) =>
                   if Opens(opening).Some? && Opens(opening).value in harnesses then |body| else 0
  {
    hide Opens, Closes;
    if harnesses != [] {
      var front, last := harnesses[..|harnesses| - 1], Last(harnesses);
      SeenGrowth(doc, front, names);
      assert harnesses == front + [last];
      assert forall i | 0 <= i < |front| :: front[i] == harnesses[i];
    }
  }

  ghost predicate Distinct(xs: seq<string>) {
    forall i, j | 0 <= i < j < |xs| :: xs[i] != xs[j]
  }

  /** Conservation: over all the harnesses, a line outside blocks is delivered once to
      each, and a line inside a block once in all. */
  lemma {:induction false} LinesAreConserved(doc: seq<Segment>, harnesses: seq<string>, names: set<string>)
    requires Distinct(harnesses) && WellFormed(doc, names)
    requires forall name | name in names :: name in harnesses
    ensures SeenCount(doc, harnesses) == |harnesses| * LineCount(doc, true) + LineCount(doc, false)
  {
    hide Opens, Closes, Distinct;
    if doc == [] {
      NothingSeen(harnesses);
    } else {
      var front, last := doc[..|doc| - 1], Last(doc);
      LinesAreConserved(front, harnesses, names);
      SeenGrowth(doc, harnesses, names);
      assert WellFormedSegment(last, names);
      hide SeenCount, WellFormed;
      if last.Plain? {
        Distribute(|harnesses|, LineCount(front, true));
      }
    }
  }

  lemma Distribute(n: nat, k: nat)
    ensures n * (k + 1) == n * k + n
  {
  }

  lemma {:induction false} NothingSeen(harnesses: seq<string>)
    ensures SeenCount([], harnesses) == 0
  {
    if harnesses != [] {
      NothingSeen(harnesses[..|harnesses| - 1]);
    }
  }
}
