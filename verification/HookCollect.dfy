/** The hook's collection layer: from Git's answers to a change set, fail-closed. */
module HookCollect {
  import opened Std
  import opened PyText
  import opened HookManifest

  /** The Git commands the layer runs. One hook run sees one repository, so the
      answer is a function of the command. */
  datatype GitCommand =
    | SymbolicRefHead
    | MergeBase(local: string, candidate: string)
    | Diff(base: string, local: string)
    | DiffTreeRoot(local: string)
    | DiffCached
    | RevParseUpstream

  /** The call itself may fail (missing binary, timeout, undecodable output). */
  datatype GitAnswer = CannotRun | Ran(code: int, stdout: string)

  type Git = GitCommand -> GitAnswer

  datatype Reason = MalformedLine(number: nat) | NonHexSha(number: nat) | GitFailed

  type Changes = ChangeSet<Reason>

  predicate IsHexDigit(c: char) {
    '0' <= c <= '9' || 'a' <= c <= 'f' || 'A' <= c <= 'F'
  }

  predicate IsHexSha(value: string) {
    |value| in {40, 64} && forall i | 0 <= i < |value| :: IsHexDigit(value[i])
  }

  predicate IsZeroSha(value: string) {
    |value| in {40, 64} && forall i | 0 <= i < |value| :: value[i] == '0'
  }

  /** NUL-terminated fields; only the framing field at the end is dropped. */
  function SplitNul(output: string): seq<string> {
    if output == "" then []
    else
      var parts := SplitOn(output, '\0');
      if Last(parts) == "" then parts[..|parts| - 1] else parts
  }

  function JoinNul(paths: seq<string>): string {
    if paths == [] then "" else paths[0] + "\0" + JoinNul(paths[1..])
  }

  /** Any list of NUL-free paths survives the framing byte for byte. */
  lemma {:induction false} NulFramingRoundTrips(paths: seq<string>)
    requires forall p | p in paths :: '\0' !in p
    ensures SplitNul(JoinNul(paths)) == paths
  {
    if paths != [] {
      SplitsBack(paths, "");
      assert JoinNul(paths) + "" == JoinNul(paths) != "";
      assert (paths + [""])[..|paths|] == paths;
    }
  }

  lemma SplitAtNul(first: string, rest: string)
    requires '\0' !in first
    ensures SplitOn(first + "\0" + rest, '\0') == [first] + SplitOn(rest, '\0')
  {
    var s := first + "\0" + rest;
    FirstNul(first, rest);
    assert s[..|first|] == first && s[|first| + 1..] == rest;
  }

  lemma NoNulSplits(tail: string)
    requires '\0' !in tail
    ensures SplitOn(tail, '\0') == [tail]
  {
    assert tail[..|tail|] == tail;
    IndexAt(tail, |tail|, '\0');
  }

  lemma JoinedBefore(paths: seq<string>, tail: string)
    requires paths != []
    ensures JoinNul(paths) + tail == paths[0] + "\0" + (JoinNul(paths[1..]) + tail)
  {
  }

  lemma NothingJoined(tail: string)
    ensures JoinNul([]) + tail == tail && [] + [tail] == [tail]
  {
  }

  lemma FirstAgain(paths: seq<string>, tail: string)
    requires paths != []
    ensures [paths[0]] + (paths[1..] + [tail]) == paths + [tail]
    ensures forall p | p in paths[1..] :: p in paths
  {
  }

  lemma {:induction false} SplitsBack(paths: seq<string>, tail: string)
    requires '\0' !in tail && forall p | p in paths :: '\0' !in p
    ensures SplitOn(JoinNul(paths) + tail, '\0') == paths + [tail]
  {
    hide SplitOn, JoinNul;
    if paths == [] {
      NothingJoined(tail);
      NoNulSplits(tail);
    } else {
      FirstAgain(paths, tail);
      JoinedBefore(paths, tail);
      SplitAtNul(paths[0], JoinNul(paths[1..]) + tail);
      SplitsBack(paths[1..], tail);
    }
  }

  lemma OneMorePart(first: string, output: string, rest: seq<string>)
    requires rest != [] && output == JoinNul(rest[..|rest| - 1]) + Last(rest)
    ensures var parts := [first] + rest; first + "\0" + output == JoinNul(parts[..|parts| - 1]) + Last(parts)
  {
    var parts := [first] + rest;
    var front := parts[..|parts| - 1];
    assert front[0] == first && front[1..] == rest[..|rest| - 1];
    assert first + "\0" + output == (first + "\0" + JoinNul(front[1..])) + Last(rest);
  }

  lemma SplitStep(output: string)
    ensures var n := IndexOf(output, '\0');
            SplitOn(output, '\0') == if n == |output| then [output] else [output[..n]] + SplitOn(output[n + 1..], '\0')
  {
    hide IndexOf;
    assert output[..|output|] == output;
  }

  lemma CutAtNul(output: string, n: nat)
    requires n < |output| && output[n] == '\0'
    ensures output == output[..n] + "\0" + output[n + 1..]
  {
  }

  lemma {:induction false} PartsOf(output: string)
    ensures var parts := SplitOn(output, '\0');
            && (forall p | p in parts :: '\0' !in p)
            && output == JoinNul(parts[..|parts| - 1]) + Last(parts)
    decreases |output|
  {
    hide SplitOn;
    SplitStep(output);
    var n := IndexOf(output, '\0');
    if n == |output| {
      assert JoinNul([output][..0]) == "";
    } else {
      hide JoinNul;
      var rest := SplitOn(output[n + 1..], '\0');
      PartsOf(output[n + 1..]);
      OneMorePart(output[..n], output[n + 1..], rest);
      CutAtNul(output, n);
    }
  }

  /** `output` lists these paths: each is closed by a NUL, except that the last may do
      without. */
  ghost predicate Framed(output: string, paths: seq<string>) {
    && (forall p | p in paths :: '\0' !in p)
    && (output == JoinNul(paths)
        || (paths != [] && Last(paths) != "" && output == JoinNul(paths[..|paths| - 1]) + Last(paths)))
  }

  /** Reading a listing finds the paths it lists, and no others. */
  lemma ListingIsRead(output: string, paths: seq<string>)
    ensures SplitNul(output) == paths <==> Framed(output, paths)
  {
    hide SplitOn;
    PartsOf(output);
    if Framed(output, paths) {
      if output == JoinNul(paths) {
        NulFramingRoundTrips(paths);
      } else {
        var front := paths[..|paths| - 1];
        SplitsBack(front, Last(paths));
        assert paths == front + [Last(paths)];
      }
    }
  }

  lemma FirstNul(p: string, rest: string)
    requires '\0' !in p
    ensures IndexOf(p + "\0" + rest, '\0') == |p|
  {
    assert (p + "\0" + rest)[..|p|] == p;
    IndexAt(p + "\0" + rest, |p|, '\0');
  }

  /** A diff that did not run or exited non-zero is a collection failure. */
  function DiffPaths(git: Git, command: GitCommand): Result<seq<string>, Reason> {
    match git(command)
    case CannotRun => Err(GitFailed)
    case Ran(code, stdout) => if code != 0 then Err(GitFailed) else Ok(SplitNul(stdout))
  }

  /** The first candidate with a merge base; a candidate that does not exist is passed over. */
  function FindBase(git: Git, local: string, candidates: seq<string>): Result<Option<string>, Reason> {
    if candidates == [] then Ok(None)
    else match git(MergeBase(local, candidates[0]))
      case CannotRun => Err(GitFailed)
      case Ran(code, stdout) =>
        if code == 0 && Strip(stdout) != "" then Ok(Some(Strip(stdout)))
        else FindBase(git, local, candidates[1..])
  }

  function DefaultBase(git: Git, local: string): Result<Option<string>, Reason> {
    var named := ["origin/main", "origin/master", "main", "master"];
    match git(SymbolicRefHead)
    case CannotRun => Err(GitFailed)
    case Ran(code, stdout) =>
      FindBase(git, local, (if code == 0 && Strip(stdout) != "" then [Strip(stdout)] else []) + named)
  }

  /** The paths one pushed ref changes. */
  function UpdatePaths(git: Git, local: string, remote: string): Result<seq<string>, Reason> {
    if !IsZeroSha(remote) then DiffPaths(git, Diff(remote, local))
    else match DefaultBase(git, local)
      case Err(e) => Err(e)
      case Ok(Some(base)) => DiffPaths(git, Diff(base, local))
      case Ok(None) => DiffPaths(git, DiffTreeRoot(local))
  }

  /** What one stdin line contributes. A deleted ref contributes nothing. */
  function LinePaths(git: Git, line: string, number: nat): Result<seq<string>, Reason> {
    var fields := Fields(line);
    if |fields| != 4 then Err(MalformedLine(number))
    else if !(IsHexSha(fields[1]) && IsHexSha(fields[3])) then Err(NonHexSha(number))
    else if IsZeroSha(fields[1]) then Ok([])
    else UpdatePaths(git, fields[1], fields[3])
  }

  // What a pushed ref changes, said without the functions above.

  /** A Git object id. */
  predicate IsId(v: string) {
    && (|v| == 40 || |v| == 64)
    && forall i | 0 <= i < |v| :: '0' <= v[i] <= '9' || 'a' <= v[i] <= 'f' || 'A' <= v[i] <= 'F'
  }

  /** The id that stands for no object. */
  predicate IsNull(v: string) {
    (|v| == 40 || |v| == 64) && forall i | 0 <= i < |v| :: v[i] == '0'
  }

  /** The command ran, succeeded, and listed these paths. */
  ghost predicate Lists(git: Git, command: GitCommand, paths: seq<string>) {
    git(command).Ran? && git(command).code == 0 && Framed(git(command).stdout, paths)
  }

  ghost predicate HasBase(git: Git, local: string, candidate: string, base: string) {
    && git(MergeBase(local, candidate)).Ran? && git(MergeBase(local, candidate)).code == 0
    && base == Strip(git(MergeBase(local, candidate)).stdout) && base != ""
  }

  ghost predicate HasNoBase(git: Git, local: string, candidate: string) {
    && git(MergeBase(local, candidate)).Ran?
    && (git(MergeBase(local, candidate)).code != 0 || Strip(git(MergeBase(local, candidate)).stdout) == "")
  }

  ghost predicate FirstBase(git: Git, local: string, candidates: seq<string>, base: string) {
    exists k | 0 <= k < |candidates| ::
      HasBase(git, local, candidates[k], base) && forall j | 0 <= j < k :: HasNoBase(git, local, candidates[j])
  }

  ghost predicate NoneHasBase(git: Git, local: string, candidates: seq<string>) {
    forall c | c in candidates :: HasNoBase(git, local, c)
  }

  /** The branches a new one may start from: the remote's head, if it names one, and the
      usual names. */
  ghost predicate AreCandidates(git: Git, candidates: seq<string>) {
    && git(SymbolicRefHead).Ran?
    && var head := if git(SymbolicRefHead).code == 0 then Strip(git(SymbolicRefHead).stdout) else "";
       candidates == (if head == "" then [] else [head]) + ["origin/main", "origin/master", "main", "master"]
  }

  /** A new ref changes what it adds to the first branch it shares history with; without
      one, everything in its tree. */
  ghost predicate NewRefChanges(git: Git, local: string, paths: seq<string>) {
    exists candidates | AreCandidates(git, candidates) ::
      || (exists base | FirstBase(git, local, candidates, base) :: Lists(git, Diff(base, local), paths))
      || (NoneHasBase(git, local, candidates) && Lists(git, DiffTreeRoot(local), paths))
  }

  /** The line announces a ref (local name and id, remote name and id) that changes these
      paths: none if it is deleted, what it adds to a known remote id, or what is new. */
  ghost predicate Changed(git: Git, line: string, paths: seq<string>) {
    var fields := Fields(line);
    && |fields| == 4 && IsId(fields[1]) && IsId(fields[3])
    && if IsNull(fields[1]) then paths == []
       else if !IsNull(fields[3]) then Lists(git, Diff(fields[3], fields[1]), paths)
       else NewRefChanges(git, fields[1], paths)
  }

  ghost predicate Known(git: Git, line: string) {
    exists paths :: Changed(git, line, paths)
  }

  /** What every announced ref changes is known. */
  ghost predicate AllKnown(git: Git, lines: seq<string>) {
    forall line | line in lines :: Known(git, line)
  }

  /** A path some pushed ref changes, as far as Git reports it. */
  ghost predicate Pushed(git: Git, lines: seq<string>, p: string) {
    exists line, paths | line in lines && Changed(git, line, paths) :: p in paths
  }

  /** Why the line's paths are not known, if they are not. */
  function Problem(line: string, number: nat): Reason {
    var fields := Fields(line);
    if |fields| != 4 then MalformedLine(number)
    else if !IsId(fields[1]) || !IsId(fields[3]) then NonHexSha(number)
    else GitFailed
  }

  lemma DiffExactly(git: Git, command: GitCommand, paths: seq<string>)
    ensures DiffPaths(git, command) == Ok(paths) <==> Lists(git, command, paths)
    ensures DiffPaths(git, command).Err? ==> DiffPaths(git, command).error == GitFailed
  {
    hide SplitNul, Framed;
    if git(command).Ran? {
      ListingIsRead(git(command).stdout, paths);
    }
  }

  lemma {:induction false} BaseExactly(git: Git, local: string, candidates: seq<string>)
    ensures var found := FindBase(git, local, candidates);
            && (found.Err? ==> found.error == GitFailed)
            && (found == Ok(None) <==> NoneHasBase(git, local, candidates))
            && forall base :: found == Ok(Some(base)) <==> FirstBase(git, local, candidates, base)
  {
    hide Strip;
    if candidates != [] {
      var first, rest := candidates[0], candidates[1..];
      BaseExactly(git, local, rest);
      assert NoneHasBase(git, local, candidates) <==> HasNoBase(git, local, first) && NoneHasBase(git, local, rest) by {
        assert candidates == [first] + rest;
      }
      forall base ensures FirstBase(git, local, candidates, base)
                          <==> HasBase(git, local, first, base)
                               || (HasNoBase(git, local, first) && FirstBase(git, local, rest, base))
      {
        FirstBaseStep(git, local, candidates, base);
      }
    }
  }

  lemma FirstBaseStep(git: Git, local: string, candidates: seq<string>, base: string)
    requires candidates != []
    ensures FirstBase(git, local, candidates, base)
            <==> HasBase(git, local, candidates[0], base)
                 || (HasNoBase(git, local, candidates[0]) && FirstBase(git, local, candidates[1..], base))
  {
    hide HasBase, HasNoBase;
    var rest := candidates[1..];
    if k :| 0 <= k < |candidates| && HasBase(git, local, candidates[k], base)
            && forall j | 0 <= j < k :: HasNoBase(git, local, candidates[j]) {
      if k > 0 {
        assert rest[k - 1] == candidates[k] && forall j | 0 <= j < k - 1 :: rest[j] == candidates[j + 1];
      }
    }
    if HasNoBase(git, local, candidates[0]) && FirstBase(git, local, rest, base) {
      var k :| 0 <= k < |rest| && HasBase(git, local, rest[k], base)
               && forall j | 0 <= j < k :: HasNoBase(git, local, rest[j]);
      assert candidates[k + 1] == rest[k];
      assert forall j | 1 <= j < k + 1 :: candidates[j] == rest[j - 1];
    }
  }

  lemma DefaultBaseExactly(git: Git, local: string, candidates: seq<string>)
    ensures git(SymbolicRefHead).CannotRun? ==> DefaultBase(git, local) == Err(GitFailed)
    ensures AreCandidates(git, candidates) ==> DefaultBase(git, local) == FindBase(git, local, candidates)
  {
    hide FindBase, Strip;
  }

  lemma SomeCandidates(git: Git) returns (candidates: seq<string>)
    requires git(SymbolicRefHead).Ran?
    ensures AreCandidates(git, candidates)
  {
    var head := if git(SymbolicRefHead).code == 0 then Strip(git(SymbolicRefHead).stdout) else "";
    candidates := (if head == "" then [] else [head]) + ["origin/main", "origin/master", "main", "master"];
  }

  lemma NewRefExactly(git: Git, local: string, remote: string, paths: seq<string>)
    requires IsZeroSha(remote)
    ensures UpdatePaths(git, local, remote) == Ok(paths) <==> NewRefChanges(git, local, paths)
    ensures UpdatePaths(git, local, remote).Err? ==> UpdatePaths(git, local, remote).error == GitFailed
  {
    hide AreCandidates, FirstBase, NoneHasBase, DefaultBase, DiffPaths, Lists, FindBase, IsZeroSha;
    DefaultBaseExactly(git, local, []);
    if git(SymbolicRefHead).Ran? {
      var candidates := SomeCandidates(git);
      forall other | AreCandidates(git, other) ensures DefaultBase(git, local) == FindBase(git, local, other) {
        DefaultBaseExactly(git, local, other);
      }
      SameCandidates(git, candidates);
      BaseExactly(git, local, candidates);
      DiffExactly(git, DiffTreeRoot(local), paths);
      forall base ensures DiffPaths(git, Diff(base, local)) == Ok(paths) <==> Lists(git, Diff(base, local), paths)
                  ensures DiffPaths(git, Diff(base, local)).Err? ==> DiffPaths(git, Diff(base, local)).error == GitFailed
      {
        DiffExactly(git, Diff(base, local), paths);
      }
    } else {
      NeedsHead(git);
    }
  }

  lemma SameCandidates(git: Git, candidates: seq<string>)
    requires AreCandidates(git, candidates)
    ensures forall other | AreCandidates(git, other) :: other == candidates
  {
  }

  lemma NeedsHead(git: Git)
    requires git(SymbolicRefHead).CannotRun?
    ensures forall candidates :: !AreCandidates(git, candidates)
  {
  }

  lemma IdsAreIds(v: string)
    ensures IsHexSha(v) <==> IsId(v)
    ensures IsZeroSha(v) <==> IsNull(v)
  {
  }

  /** What a line contributes, exactly. */
  lemma LineExactly(git: Git, line: string, number: nat, paths: seq<string>)
    ensures LinePaths(git, line, number) == Ok(paths) <==> Changed(git, line, paths)
    ensures LinePaths(git, line, number).Err? ==> LinePaths(git, line, number).error == Problem(line, number)
  {
    hide Fields, IsHexSha, IsZeroSha, IsId, IsNull, NewRefChanges, Lists, DiffPaths;
    var fields := Fields(line);
    if |fields| == 4 {
      IdsAreIds(fields[1]);
      IdsAreIds(fields[3]);
      DiffExactly(git, Diff(fields[3], fields[1]), paths);
      if IsZeroSha(fields[3]) {
        NewRefExactly(git, fields[1], fields[3], paths);
      }
    }
  }

  /** The paths of the lines before the first failing one. */
  function PathsBefore(git: Git, lines: seq<string>): seq<string> {
    if lines == [] then []
    else
      var number := |lines|;
      var front := PathsBefore(git, lines[..number - 1]);
      var own := LinePaths(git, Last(lines), number);
      if own.Ok? then front + own.value else front
  }

  ghost predicate AllCollected(git: Git, lines: seq<string>) {
    forall i | 0 <= i < |lines| :: LinePaths(git, lines[i], i + 1).Ok?
  }

  lemma {:induction false} DedupConcat(xs: seq<string>, ys: seq<string>, y: string)
    ensures Dedup(xs + (ys + [y])) == if y in Dedup(xs + ys) then Dedup(xs + ys) else Dedup(xs + ys) + [y]
  {
    assert (xs + (ys + [y]))[..|xs + ys|] == xs + ys;
  }

  /** `pieces` are the paths the lines change, line by line. */
  ghost predicate EachChanged(git: Git, lines: seq<string>, pieces: seq<seq<string>>) {
    |pieces| == |lines| && forall i | 0 <= i < |lines| :: Changed(git, lines[i], pieces[i])
  }

  function Flat(pieces: seq<seq<string>>): seq<string> {
    if pieces == [] then [] else Flat(pieces[..|pieces| - 1]) + Last(pieces)
  }

  lemma {:induction false} PiecesAreCollected(git: Git, lines: seq<string>, pieces: seq<seq<string>>)
    requires EachChanged(git, lines, pieces)
    ensures AllCollected(git, lines) && Flat(pieces) == PathsBefore(git, lines)
  {
    hide LinePaths, Changed;
    if lines != [] {
      var n := |lines| - 1;
      PiecesAreCollected(git, lines[..n], pieces[..n]);
      LineExactly(git, lines[n], n + 1, pieces[n]);
      assert forall i | 0 <= i < n :: lines[..n][i] == lines[i];
    }
  }

  lemma {:induction false} CollectedPieces(git: Git, lines: seq<string>) returns (pieces: seq<seq<string>>)
    requires AllCollected(git, lines)
    ensures EachChanged(git, lines, pieces)
  {
    hide LinePaths, Changed;
    pieces := [];
    if lines != [] {
      var n := |lines| - 1;
      assert forall i | 0 <= i < n :: lines[..n][i] == lines[i];
      var front := CollectedPieces(git, lines[..n]);
      pieces := front + [LinePaths(git, lines[n], n + 1).value];
      LineExactly(git, lines[n], n + 1, pieces[n]);
    }
  }

  /** What the collection is, for either outcome. */
  ghost predicate CollectedAs(git: Git, lines: seq<string>, changes: Changes) {
    if changes.unknown.None? then
      exists pieces | EachChanged(git, lines, pieces) :: changes.paths == Dedup(Flat(pieces))
    else
      exists n, pieces | 0 <= n < |lines| && EachChanged(git, lines[..n], pieces) ::
        && !Known(git, lines[n])
        && changes == ChangeSet(Dedup(Flat(pieces)), Some(Problem(lines[n], n + 1)))
  }

  lemma AllAreCollected(git: Git, lines: seq<string>)
    requires AllCollected(git, lines)
    ensures CollectedAs(git, lines, ChangeSet(Dedup(PathsBefore(git, lines)), None))
  {
    hide LinePaths, Changed, Dedup, Flat, PathsBefore, EachChanged;
    var pieces := CollectedPieces(git, lines);
    PiecesAreCollected(git, lines, pieces);
  }

  lemma StoppedCollection(git: Git, lines: seq<string>, n: nat)
    requires n < |lines| && AllCollected(git, lines[..n]) && LinePaths(git, lines[n], n + 1).Err?
    ensures CollectedAs(git, lines, ChangeSet(Dedup(PathsBefore(git, lines[..n])), Some(LinePaths(git, lines[n], n + 1).error)))
  {
    hide LinePaths, Changed, Dedup, Flat, PathsBefore, EachChanged, Problem;
    var pieces := CollectedPieces(git, lines[..n]);
    PiecesAreCollected(git, lines[..n], pieces);
    LineExactly(git, lines[n], n + 1, []);
    forall paths ensures !Changed(git, lines[n], paths) {
      LineExactly(git, lines[n], n + 1, paths);
    }
  }

  /** Fill the ordered set of first-seen paths; stop at the first problem with the
      paths collected so far and its reason. */
  method CollectPrePushChanges(git: Git, lines: seq<string>) returns (changes: Changes)
    ensures AllCollected(git, lines) ==> changes == ChangeSet(Dedup(PathsBefore(git, lines)), None)
    ensures !AllCollected(git, lines) ==>
              exists n | 0 <= n < |lines| ::
                && AllCollected(git, lines[..n]) && LinePaths(git, lines[n], n + 1).Err?
                && changes == ChangeSet(Dedup(PathsBefore(git, lines[..n])), Some(LinePaths(git, lines[n], n + 1).error))
    ensures CollectedAs(git, lines, changes)
  {
    hide LinePaths, CollectedAs;
    var seen: seq<string> := [];
    for n := 0 to |lines|
      invariant AllCollected(git, lines[..n])
      invariant seen == Dedup(PathsBefore(git, lines[..n]))
    {
      var own := LinePaths(git, lines[n], n + 1);
      if own.Err? {
        StoppedCollection(git, lines, n);
        return ChangeSet(seen, Some(own.error));
      }
      ghost var before := PathsBefore(git, lines[..n]);
      assert before + own.value[..0] == before;
      for k := 0 to |own.value|
        invariant seen == Dedup(before + own.value[..k])
      {
        assert own.value[..k + 1] == own.value[..k] + [own.value[k]];
        DedupConcat(before, own.value[..k], own.value[k]);
        if own.value[k] !in seen {
          seen := seen + [own.value[k]];
        }
      }
      assert own.value[..|own.value|] == own.value;
      assert lines[..n + 1][..n] == lines[..n];
    }
    assert lines[..|lines|] == lines;
    AllAreCollected(git, lines);
    return ChangeSet(seen, None);
  }

  lemma ChangedOnce(git: Git, line: string, a: seq<string>, b: seq<string>)
    requires Changed(git, line, a) && Changed(git, line, b)
    ensures a == b
  {
    hide LinePaths, Changed;
    LineExactly(git, line, 1, a);
    LineExactly(git, line, 1, b);
  }

  lemma {:induction false} FlatMembers(pieces: seq<seq<string>>, p: string)
    ensures p in Flat(pieces) <==> exists i | 0 <= i < |pieces| :: p in pieces[i]
  {
    if pieces != [] {
      FlatMembers(pieces[..|pieces| - 1], p);
    }
  }

  /** A complete collection holds the paths every line changes, and nothing else. */
  lemma LinePathsAreCollected(git: Git, lines: seq<string>, changes: Changes)
    requires CollectedAs(git, lines, changes) && changes.unknown.None?
    ensures AllKnown(git, lines) && forall p :: p in changes.paths <==> Pushed(git, lines, p)
  {
    hide Changed, Dedup, Flat;
    var pieces :| EachChanged(git, lines, pieces) && changes.paths == Dedup(Flat(pieces));
    DedupKeepsElements(Flat(pieces));
    forall line | line in lines ensures Known(git, line) {
      var i :| 0 <= i < |lines| && lines[i] == line;
      assert Changed(git, lines[i], pieces[i]);
    }
    forall p ensures p in changes.paths <==> Pushed(git, lines, p) {
      FlatMembers(pieces, p);
      if Pushed(git, lines, p) {
        var line, paths :| line in lines && Changed(git, line, paths) && p in paths;
        var i :| 0 <= i < |lines| && lines[i] == line;
        ChangedOnce(git, line, paths, pieces[i]);
      }
      if i :| 0 <= i < |pieces| && p in pieces[i] {
        assert lines[i] in lines && Changed(git, lines[i], pieces[i]);
      }
    }
  }

  /** Staged paths. */
  function CollectPreCommitChanges(git: Git): Changes {
    match DiffPaths(git, DiffCached)
    case Ok(paths) => ChangeSet(paths, None)
    case Err(e) => ChangeSet([], Some(e))
  }

  /** Whitespace-only stdin is not the absence of stdin: its first line is malformed. */
  lemma BlankStdinFails(git: Git, stdin: string)
    requires stdin != "" && forall i | 0 <= i < |stdin| :: IsSpace(stdin[i])
    ensures !AllKnown(git, SplitLines(stdin))
  {
    var lines, n := SplitLines(stdin), LineEnd(stdin);
    assert lines != [] && lines[0] == stdin[..n];
    BlankHasNoFields(lines[0]);
    assert lines[0] in lines && !Known(git, lines[0]);
  }
}
