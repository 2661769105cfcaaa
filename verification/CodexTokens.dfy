/** Codex tokens: reading one rollout log and attributing rollouts to a run. */
module CodexTokens {
  import opened Std
  import opened Tokens

  /** The cumulative totals of a token_count event; `input` includes `cached`. */
  datatype Totals = Totals(input: u32, cached: u32, output: u32)

  /** One rollout line after decoding; lines that do not conform are `Other`. */
  datatype Line =
    | SessionMeta(cwd: Option<string>, timestamp: Option<int>)
    | TokenCount(totals: Totals)
    | BadTokenCount
    | Other

  datatype Session = Session(cwd: string, startedAt: int, usage: Usage)

  datatype RolloutError = UnreadableTotals | NoCwd | NoTimestamp | CachedExceedsInput

  datatype TimeWindow = TimeWindow(start: int, end: int)
  {
    predicate Contains(t: int) {
      start <= t <= end
    }
  }

  /** The last session_meta line. */
  function FinalMeta(lines: seq<Line>): (r: Option<Line>)
    ensures r.Some? ==> r.value.SessionMeta? && r.value in lines
  {
    if lines == [] then None
    else if Last(lines).SessionMeta? then Some(Last(lines))
    else FinalMeta(lines[..|lines| - 1])
  }

  /** The last cumulative totals. */
  function FinalTotals(lines: seq<Line>): Option<Totals> {
    if lines == [] then None
    else if Last(lines).TokenCount? then Some(Last(lines).totals)
    else FinalTotals(lines[..|lines| - 1])
  }

  /** Codex counts cached input as input; here it is counted once, as a cache read. */
  function UsageOf(t: Totals): (u: Usage)
    requires t.cached <= t.input
    ensures u.Total() == t.input + t.output
    ensures u.cacheRead == t.cached && u.cacheCreation == 0 && u.output == t.output
  {
    Usage(t.input - t.cached, 0, t.cached, t.output)
  }

  /** What a rollout says, in the order in which its defects are found. */
  function Rollout(lines: seq<Line>): Result<Option<Session>, RolloutError> {
    var meta, totals := FinalMeta(lines), FinalTotals(lines);
    if BadTokenCount in lines then Err(UnreadableTotals)
    else if meta.None? || meta.value.cwd.None? then Err(NoCwd)
    else if meta.value.timestamp.None? then Err(NoTimestamp)
    else if totals.None? then Ok(None)
    else if totals.value.cached > totals.value.input then Err(CachedExceedsInput)
    else Ok(Some(Session(meta.value.cwd.value, meta.value.timestamp.value, UsageOf(totals.value))))
  }

  method ParseRollout(lines: seq<Line>) returns (r: Result<Option<Session>, RolloutError>)
    ensures r == Rollout(lines)
    ensures r.Ok? && r.value.Some? ==>
              && FinalTotals(lines).Some?
              && r.value.value.usage.Total() == FinalTotals(lines).value.input + FinalTotals(lines).value.output
              && r.value.value.usage.cacheCreation == 0
  {
    var cwd: Option<string>, startedAt: Option<int>, lastUsage: Option<Totals> := None, None, None;
    for i := 0 to |lines|
      invariant BadTokenCount !in lines[..i]
      invariant lastUsage == FinalTotals(lines[..i])
      invariant var meta := FinalMeta(lines[..i]);
                if meta.None? then cwd.None? && startedAt.None?
                else cwd == meta.value.cwd && startedAt == meta.value.timestamp
    {
      assert lines[..i + 1][..i] == lines[..i];
      match lines[i] {
        case SessionMeta(c, t) => cwd, startedAt := c, t;
        case TokenCount(t) => lastUsage := Some(t);
        case BadTokenCount => return Err(UnreadableTotals);
        case Other =>
      }
    }
    assert lines[..|lines|] == lines;
    if cwd.None? { return Err(NoCwd); }
    if startedAt.None? { return Err(NoTimestamp); }
    if lastUsage.None? { return Ok(None); }
    var t := lastUsage.value;
    if t.cached > t.input { return Err(CachedExceedsInput); }
    return Ok(Some(Session(cwd.value, startedAt.value, Usage(t.input - t.cached, 0, t.cached, t.output))));
  }

  /** The directory test of the attribution, resolved by the file system. */
  type InWorktree = string -> bool

  /** The usages of the sessions that belong to the run, in file order: those started in
      the window, its ends included, by a process in the worktree. */
  function Matching(files: seq<seq<Line>>, window: TimeWindow, inWorktree: InWorktree): seq<Usage> {
    if files == [] then []
    else
      var front, session := Matching(files[..|files| - 1], window, inWorktree), Rollout(Last(files));
      if session.Ok? && session.value.Some?
         && window.start <= session.value.value.startedAt <= window.end && inWorktree(session.value.value.cwd)
      then front + [session.value.value.usage] else front
  }

  ghost predicate AllReadable(files: seq<seq<Line>>) {
    forall f | f in files :: Rollout(f).Ok?
  }

  /** One unreadable rollout fails the attribution; otherwise it is the clamped sum
      over the matching sessions. */
  method AttributeCodexTokens(files: seq<seq<Line>>, window: TimeWindow, inWorktree: InWorktree)
    returns (r: Result<Usage, RolloutError>)
    ensures r.Ok? <==> AllReadable(files)
    ensures r.Ok? ==> r.value == ClampedSum(Matching(files, window, inWorktree))
    ensures r.Ok? ==> r.value.cacheCreation == 0
  {
    hide Rollout, ClampedSum;
    assert ClampedSum([]) == NO_USAGE by { NothingSums(); }
    var total := NO_USAGE;
    for i := 0 to |files|
      invariant AllReadable(files[..i])
      invariant total == ClampedSum(Matching(files[..i], window, inWorktree)) && total.cacheCreation == 0
    {
      assert files[..i + 1] == files[..i] + [files[i]];
      assert files[..i + 1][..i] == files[..i];
      var parsed := ParseRollout(files[i]);
      if parsed.Err? {
        assert files[i] in files;
        return Err(parsed.error);
      }
      if parsed.value.Some? {
        var session := parsed.value.value;
        if window.Contains(session.startedAt) && inWorktree(session.cwd) {
          ClampedSumSnoc(Matching(files[..i], window, inWorktree), session.usage);
          total := total.Add(session.usage);
        }
      }
    }
    assert files[..|files|] == files;
    return Ok(total);
  }

  lemma NothingSums()
    ensures ClampedSum([]) == NO_USAGE
  {
  }

  lemma {:induction false} MatchingConcat(a: seq<seq<Line>>, b: seq<seq<Line>>, window: TimeWindow, inWorktree: InWorktree)
    ensures Matching(a + b, window, inWorktree) == Matching(a, window, inWorktree) + Matching(b, window, inWorktree)
  {
    if b == [] {
      assert a + b == a;
    } else {
      assert (a + b)[..|a + b| - 1] == a + b[..|b| - 1];
      MatchingConcat(a, b[..|b| - 1], window, inWorktree);
    }
  }

  lemma {:induction false} MatchingPermutes(a: seq<seq<Line>>, b: seq<seq<Line>>, window: TimeWindow, inWorktree: InWorktree)
    requires multiset(a) == multiset(b)
    ensures multiset(Matching(a, window, inWorktree)) == multiset(Matching(b, window, inWorktree))
    decreases |a|
  {
    hide Rollout;
    if a == [] {
      assert |multiset(b)| == 0;
    } else {
      var x, front := Last(a), a[..|a| - 1];
      assert a == front + [x];
      var left, right := Without(x, multiset(front), b);
      MatchingPermutes(front, left + right, window, inWorktree);
      MatchingConcat(front, [x], window, inWorktree);
      MatchingConcat(left, right, window, inWorktree);
      MatchingConcat(left + [x], right, window, inWorktree);
      MatchingConcat(left, [x], window, inWorktree);
    }
  }

  /** The order of the rollout files does not matter. */
  lemma AttributionIsOrderFree(a: seq<seq<Line>>, b: seq<seq<Line>>, window: TimeWindow, inWorktree: InWorktree)
    requires multiset(a) == multiset(b)
    ensures AllReadable(a) <==> AllReadable(b)
    ensures ClampedSum(Matching(a, window, inWorktree)) == ClampedSum(Matching(b, window, inWorktree))
  {
    assert forall f :: f in a <==> f in multiset(a);
    assert forall f :: f in b <==> f in multiset(b);
    MatchingPermutes(a, b, window, inWorktree);
    ClampedSumPermutes(Matching(a, window, inWorktree), Matching(b, window, inWorktree));
  }
}
