/** Token usage of one Claude transcript: last write wins per message id. */
module StreamUsage {
  import opened Std
  import opened Tokens

  /** One transcript line after JSON decoding. An absent or undecodable usage block
      is `NO_USAGE`; a message without an id has `id == None`. */
  datatype Line =
    | Blank
    | Malformed
    | Assistant(id: Option<string>, usage: Usage)
    | ResultLine(isError: bool, text: Option<string>, ownUsage: Usage)
    | OtherEvent

  datatype CliResult = CliResult(isError: bool, text: string, usage: Usage)

  datatype ParseError = BadJson | EmptyTranscript | NoResultEvent

  predicate Counts(line: Line) {
    line.Assistant? && line.id.Some?
  }

  function Ids(lines: seq<Line>): set<string> {
    set i | 0 <= i < |lines| && Counts(lines[i]) :: lines[i].id.value
  }

  /** The usages of the assistant messages that are the last with their id, given
      the ids that still occur later on. */
  function FinalUsages(lines: seq<Line>, later: set<string>): seq<Usage> {
    if lines == [] then []
    else
      var rest := FinalUsages(lines[1..], later);
      if Counts(lines[0]) && lines[0].id.value !in Ids(lines[1..]) + later then [lines[0].usage] + rest else rest
  }

  /** What a transcript costs. */
  function TranscriptUsage(lines: seq<Line>): Usage {
    ClampedSum(FinalUsages(lines, {}))
  }

  /** The last result event, whose flag and text are the run's. */
  function LastResult(lines: seq<Line>): (r: Option<Line>)
    ensures r.Some? ==> r.value.ResultLine? && r.value in lines
  {
    if lines == [] then None
    else if Last(lines).ResultLine? then Some(Last(lines))
    else LastResult(lines[..|lines| - 1])
  }

  ghost predicate HasContent(lines: seq<Line>) {
    exists i | 0 <= i < |lines| :: lines[i] != Blank
  }

  // ---- the map the parser fills ----

  function LastById(lines: seq<Line>): map<string, Usage> {
    if lines == [] then map[]
    else
      var front, line := LastById(lines[..|lines| - 1]), Last(lines);
      if Counts(line) then front[line.id.value := line.usage] else front
  }

  lemma IdsConcat(a: seq<Line>, b: seq<Line>)
    ensures Ids(a + b) == Ids(a) + Ids(b)
  {
    assert forall i | 0 <= i < |b| :: (a + b)[|a| + i] == b[i];
    forall id | id in Ids(b) ensures id in Ids(a + b) {
      var i :| 0 <= i < |b| && Counts(b[i]) && b[i].id.value == id;
      assert (a + b)[|a| + i] == b[i];
    }
    forall id | id in Ids(a) ensures id in Ids(a + b) {
      var i :| 0 <= i < |a| && Counts(a[i]) && a[i].id.value == id;
      assert (a + b)[i] == a[i];
    }
  }

  lemma {:induction false} FinalUsagesConcat(a: seq<Line>, b: seq<Line>, later: set<string>)
    ensures FinalUsages(a + b, later) == FinalUsages(a, Ids(b) + later) + FinalUsages(b, later)
  {
    if a == [] {
      assert a + b == b;
    } else {
      assert (a + b)[1..] == a[1..] + b;
      FinalUsagesConcat(a[1..], b, later);
      IdsConcat(a[1..], b);
    }
  }

  lemma FinalUsagesSnoc(front: seq<Line>, line: Line, later: set<string>)
    ensures FinalUsages(front + [line], later)
            == FinalUsages(front, later + if Counts(line) then {line.id.value} else {})
               + if Counts(line) && line.id.value !in later then [line.usage] else []
  {
    FinalUsagesConcat(front, [line], later);
    SingleFinal(line, later);
    assert Ids([line]) + later == later + if Counts(line) then {line.id.value} else {};
  }

  /** The usages still standing before a message with id `id`: those of other ids,
      and the one the map holds for `id`. */
  lemma {:induction false} FinalUsagesDrop(lines: seq<Line>, id: string, later: set<string>)
    requires id !in later
    ensures multiset(FinalUsages(lines, later))
            == multiset(FinalUsages(lines, later + {id}))
               + (if id in LastById(lines) then multiset{LastById(lines)[id]} else multiset{})
  {
    if lines != [] {
      hide FinalUsages;
      var front, line := lines[..|lines| - 1], Last(lines);
      assert lines == front + [line];
      FinalUsagesSnoc(front, line, later);
      FinalUsagesSnoc(front, line, later + {id});
      var also := if Counts(line) then {line.id.value} else {};
      if Counts(line) && line.id.value == id {
        assert later + {id} + also == later + also;
      } else {
        FinalUsagesDrop(front, id, later + also);
        assert later + {id} + also == later + also + {id};
      }
    }
  }

  lemma SingleFinal(line: Line, later: set<string>)
    ensures Ids([line]) == if Counts(line) then {line.id.value} else {}
    ensures FinalUsages([line], later)
            == if Counts(line) && line.id.value !in later then [line.usage] else []
  {
    assert [line][0] == line;
    assert [line][1..] == [];
    if Counts(line) {
      assert line.id.value in Ids([line]);
    }
  }

  lemma {:induction false} LastByIdKeys(lines: seq<Line>)
    ensures LastById(lines).Keys == Ids(lines)
  {
    if lines != [] {
      var front, line := lines[..|lines| - 1], Last(lines);
      assert lines == front + [line];
      LastByIdKeys(front);
      IdsConcat(front, [line]);
      SingleFinal(line, {});
    }
  }

  lemma {:induction false} AllIdsLater(lines: seq<Line>, later: set<string>)
    requires Ids(lines) <= later
    ensures FinalUsages(lines, later) == []
  {
    if lines != [] {
      assert lines == [lines[0]] + lines[1..];
      IdsConcat([lines[0]], lines[1..]);
      SingleFinal(lines[0], later);
      AllIdsLater(lines[1..], later);
    }
  }

  /** What a transcript says: the flag and text of its last result event, and its
      usage; or why it says nothing. */
  ghost function Reading(lines: seq<Line>): Result<CliResult, ParseError> {
    if Malformed in lines then Err(BadJson)
    else if !HasContent(lines) then Err(EmptyTranscript)
    else match LastResult(lines)
      case None => Err(NoResultEvent)
      case Some(last) =>
        Ok(CliResult(last.isError, if last.text.Some? then last.text.value else "", TranscriptUsage(lines)))
  }

  /** Parse a decoded transcript: collect the last usage of every message id and sum
      them, in whatever order the map yields them. */
  method ParseStreamJson(lines: seq<Line>) returns (r: Result<CliResult, ParseError>)
    ensures r == Reading(lines)
  {
    var usageById: map<string, Usage> := map[];
    var resultText: Option<string>, isError, sawResult, sawAny := None, false, false, false;
    for i := 0 to |lines|
      invariant usageById == LastById(lines[..i])
      invariant Malformed !in lines[..i]
      invariant sawAny <==> HasContent(lines[..i])
      invariant sawResult <==> LastResult(lines[..i]).Some?
      invariant sawResult ==> isError == LastResult(lines[..i]).value.isError
                              && resultText == LastResult(lines[..i]).value.text
    {
      assert lines[..i + 1][..i] == lines[..i];
      assert lines[..i + 1] == lines[..i] + [lines[i]];
      assert forall k | 0 <= k < i :: lines[..i + 1][k] == lines[..i][k];
      assert lines[..i + 1][i] == lines[i];
      var line := lines[i];
      if line.Blank? { continue; }
      sawAny := true;
      if line.Malformed? { return Err(BadJson); }
      if line.Assistant? {
        if line.id.None? { continue; }
        usageById := usageById[line.id.value := line.usage];
      } else if line.ResultLine? {
        sawResult, isError, resultText := true, line.isError, line.text;
      }
    }
    assert lines[..|lines|] == lines;
    if !sawAny { return Err(EmptyTranscript); }
    if !sawResult { return Err(NoResultEvent); }
    var usage := SumValues(usageById, lines);
    return Ok(CliResult(isError, if resultText.Some? then resultText.value else "", usage));
  }

  /** Add up the map's values; every order gives the same clamped sum. */
  method SumValues(usageById: map<string, Usage>, ghost lines: seq<Line>) returns (usage: Usage)
    requires usageById == LastById(lines)
    ensures usage == TranscriptUsage(lines)
  {
    usage := NO_USAGE;
    var pending := usageById.Keys;
    ghost var summed: seq<Usage>, done := [], {};
    LastByIdKeys(lines);
    while pending != {}
      invariant pending == usageById.Keys - done && done <= usageById.Keys
      invariant usage == ClampedSum(summed)
      invariant multiset(summed) + multiset(FinalUsages(lines, done)) == multiset(FinalUsages(lines, {}))
      decreases |pending|
    {
      var id :| id in pending;
      FinalUsagesDrop(lines, id, done);
      ClampedSumSnoc(summed, usageById[id]);
      usage := usage.Add(usageById[id]);
      summed := summed + [usageById[id]];
      done, pending := done + {id}, pending - {id};
    }
    AllIdsLater(lines, done);
    assert multiset(summed) == multiset(FinalUsages(lines, {}));
    ClampedSumPermutes(summed, FinalUsages(lines, {}));
  }

  // ---- what the accounting ignores ----

  /** An earlier duplicate of a message id costs nothing. */
  lemma EarlierDuplicatesAreFree(before: seq<Line>, duplicate: Line, after: seq<Line>)
    requires Counts(duplicate) && duplicate.id.value in Ids(after)
    ensures TranscriptUsage(before + [duplicate] + after) == TranscriptUsage(before + after)
  {
    assert before + [duplicate] + after == before + ([duplicate] + after);
    FinalUsagesConcat(before, [duplicate] + after, {});
    FinalUsagesConcat(before, after, {});
    FinalUsagesConcat([duplicate], after, {});
    SingleFinal(duplicate, Ids(after) + {});
    IdsConcat([duplicate], after);
    assert Ids([duplicate] + after) == Ids(after);
  }

  /** Neighbouring messages with different ids may be exchanged. */
  lemma DistinctIdsCommute(before: seq<Line>, x: Line, y: Line, after: seq<Line>)
    requires Counts(x) && Counts(y) ==> x.id != y.id
    ensures TranscriptUsage(before + [x, y] + after) == TranscriptUsage(before + [y, x] + after)
  {
    hide FinalUsages;
    PairFinal(before, x, y, after);
    PairFinal(before, y, x, after);
    assert Ids([x]) + Ids([y]) + Ids(after) == Ids([y]) + Ids([x]) + Ids(after);
    ClampedSumPermutes(FinalUsages(before + [x, y] + after, {}), FinalUsages(before + [y, x] + after, {}));
  }

  lemma LaterIds(x: Line, y: Line, after: seq<Line>)
    ensures Ids([y] + after) + {} == Ids([y]) + Ids(after)
    ensures Ids([x] + ([y] + after)) + {} == Ids([x]) + Ids([y]) + Ids(after)
    ensures Ids(after) + {} == Ids(after)
  {
    hide Ids;
    IdsConcat([x], [y] + after);
    IdsConcat([y], after);
  }

  lemma PairSplit(before: seq<Line>, x: Line, y: Line, after: seq<Line>)
    ensures var later := Ids(after);
            FinalUsages(before + [x, y] + after, {})
            == FinalUsages(before, Ids([x]) + Ids([y]) + later)
               + (FinalUsages([x], Ids([y]) + later) + (FinalUsages([y], later) + FinalUsages(after, {})))
  {
    hide FinalUsages, Ids;
    assert before + [x, y] + after == before + ([x] + ([y] + after));
    LaterIds(x, y, after);
    FinalUsagesConcat(before, [x] + ([y] + after), {});
    FinalUsagesConcat([x], [y] + after, {});
    FinalUsagesConcat([y], after, {});
  }

  /** A message is not superseded by one with another id. */
  lemma OtherIdLater(x: Line, y: Line, later: set<string>)
    requires Counts(x) && Counts(y) ==> x.id != y.id
    ensures FinalUsages([x], Ids([y]) + later) == FinalUsages([x], later)
  {
    hide FinalUsages, Ids;
    SingleFinal(x, Ids([y]) + later);
    SingleFinal(x, later);
    SingleFinal(y, later);
  }

  /** The usages of two neighbours with different ids do not depend on their order. */
  lemma PairFinal(before: seq<Line>, x: Line, y: Line, after: seq<Line>)
    requires Counts(x) && Counts(y) ==> x.id != y.id
    ensures var later := Ids(after);
            multiset(FinalUsages(before + [x, y] + after, {}))
            == multiset(FinalUsages(before, Ids([x]) + Ids([y]) + later))
               + multiset(FinalUsages([x], later)) + multiset(FinalUsages([y], later))
               + multiset(FinalUsages(after, {}))
  {
    hide FinalUsages, Ids;
    PairSplit(before, x, y, after);
    OtherIdLater(x, y, Ids(after));
  }

  /** Lines that are not counted messages, the result event with its own usage
      among them, cost nothing wherever they stand. */
  lemma OtherLinesAreFree(before: seq<Line>, line: Line, after: seq<Line>)
    requires !Counts(line)
    ensures TranscriptUsage(before + [line] + after) == TranscriptUsage(before + after)
  {
    assert before + [line] + after == before + ([line] + after);
    FinalUsagesConcat(before, [line] + after, {});
    FinalUsagesConcat(before, after, {});
    FinalUsagesConcat([line], after, {});
    SingleFinal(line, Ids(after) + {});
    IdsConcat([line], after);
    assert Ids([line] + after) + {} == Ids(after) + {};
  }

  // ---- a worker turn ----

  datatype WorkerText = WorkerText(text: string, usage: Usage, usageUnparseable: bool, isError: bool)

  /** An unparseable transcript counts as zero and is flagged. */
  function TextAndUsage(raw: string, parsed: Result<CliResult, ParseError>): WorkerText {
    match parsed
    case Ok(r) => WorkerText(r.text, r.usage, false, r.isError)
    case Err(_) => WorkerText(raw, NO_USAGE, true, false)
  }
}
