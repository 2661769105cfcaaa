/** The task corpus: its validity and its split into batches. */
module Corpus {
  import opened Std

  const CORPUS_MIN: nat := 8
  const CORPUS_MAX: nat := 12
  const SOURCE_PREFIXES: seq<string> := ["issue:", "pr:", "backlog:"]

  datatype Task = Task(id: string, source: string, acceptance: seq<string>, gates: seq<string>)

  datatype CorpusError = BadSize | UnsafeId | DuplicateId | NoAcceptance | NoGates | SyntheticSource

  predicate IsSafeChar(c: char) {
    'a' <= c <= 'z' || 'A' <= c <= 'Z' || '0' <= c <= '9' || c == '-' || c == '_'
  }

  /** Usable as a file name; in particular without any ':'. An all-blank id is unsafe too. */
  predicate IsSafeTaskId(id: string) {
    id != "" && forall i | 0 <= i < |id| :: IsSafeChar(id[i])
  }

  predicate HasRealSource(t: Task) {
    exists i | 0 <= i < |SOURCE_PREFIXES| :: SOURCE_PREFIXES[i] <= t.source
  }

  predicate IsSound(t: Task) {
    IsSafeTaskId(t.id) && t.acceptance != [] && t.gates != [] && HasRealSource(t)
  }

  ghost predicate DistinctIds(tasks: seq<Task>) {
    forall i, j | 0 <= i < j < |tasks| :: tasks[i].id != tasks[j].id
  }

  /** A task a corpus may have: an id of letters, digits, dashes and underscores, something
      to accept, some gate, and a source that is an issue, a pull request or a backlog item. */
  ghost predicate Allowed(t: Task) {
    && t.id != ""
    && (forall i | 0 <= i < |t.id| ::
          || 'a' <= t.id[i] <= 'z' || 'A' <= t.id[i] <= 'Z' || '0' <= t.id[i] <= '9'
          || t.id[i] == '-' || t.id[i] == '_')
    && t.acceptance != [] && t.gates != []
    && ("issue:" <= t.source || "pr:" <= t.source || "backlog:" <= t.source)
  }

  lemma AllowedIsSound(t: Task)
    ensures Allowed(t) <==> IsSound(t)
  {
    var prefixes := SOURCE_PREFIXES;
    assert HasRealSource(t) <==> prefixes[0] <= t.source || prefixes[1] <= t.source || prefixes[2] <= t.source;
  }

  /** Accepts exactly the corpora of eight to twelve allowed tasks with distinct ids. */
  method ValidateCorpus(tasks: seq<Task>) returns (breach: Option<CorpusError>)
    ensures breach.None? <==> 8 <= |tasks| <= 12 && (forall t | t in tasks :: Allowed(t)) && DistinctIds(tasks)
  {
    forall t ensures Allowed(t) <==> IsSound(t) {
      AllowedIsSound(t);
    }
    hide IsSafeTaskId, HasRealSource, Allowed;
    if |tasks| < CORPUS_MIN || |tasks| > CORPUS_MAX { return Some(BadSize); }
    var seen: set<string> := {};
    for i := 0 to |tasks|
      invariant forall j | 0 <= j < i :: IsSound(tasks[j]) && tasks[j].id in seen
      invariant forall id | id in seen :: exists j | 0 <= j < i :: tasks[j].id == id
      invariant forall j, k | 0 <= j < k < i :: tasks[j].id != tasks[k].id
    {
      var t := tasks[i];
      assert t in tasks;
      if !IsSafeTaskId(t.id) { return Some(UnsafeId); }
      if t.id in seen { return Some(DuplicateId); }
      seen := seen + {t.id};
      if t.acceptance == [] { return Some(NoAcceptance); }
      if t.gates == [] { return Some(NoGates); }
      if !HasRealSource(t) { return Some(SyntheticSource); }
    }
    return None;
  }

  // ---- batches ----

  datatype BatchError = ZeroBatchSize | EmptyCorpus | NoSuchBatch

  function NumBatches(count: nat, size: nat): nat
    requires size > 0
  {
    (count + size - 1) / size
  }

  function SelectBatch(tasks: seq<Task>, size: nat, index: nat): Result<seq<Task>, BatchError> {
    if size == 0 then Err(ZeroBatchSize)
    else if tasks == [] then Err(EmptyCorpus)
    else if index >= NumBatches(|tasks|, size) then Err(NoSuchBatch)
    else
      BatchBounds(|tasks|, size, index);
      var start := index * size;
      var end := if start + size <= |tasks| then start + size else |tasks|;
      Ok(tasks[start..end])
  }

  /** A valid batch starts inside the corpus, and the last one reaches its end. */
  lemma BatchBounds(count: nat, size: nat, index: nat)
    requires size > 0 && count > 0
    ensures index < NumBatches(count, size) <==> index * size < count
    ensures NumBatches(count, size) >= 1
  {
    var n := NumBatches(count, size);
    assert n * size <= count + size - 1 < (n + 1) * size by {
      DivisionBounds(count + size - 1, size);
    }
    if index < n {
      MulMonotone(index + 1, n, size);
    } else {
      MulMonotone(n, index, size);
    }
  }

  lemma DivisionBounds(a: nat, d: nat)
    requires d > 0
    ensures (a / d) * d <= a < (a / d + 1) * d
  {
    assert a == (a / d) * d + a % d;
  }

  lemma MulMonotone(a: nat, b: nat, d: nat)
    requires a <= b
    ensures a * d <= b * d
  {
  }

  /** The first `n` batches, one after another. */
  ghost function Batches(tasks: seq<Task>, size: nat, n: nat): seq<Task>
    requires size > 0 && tasks != [] && n <= NumBatches(|tasks|, size)
  {
    if n == 0 then [] else Batches(tasks, size, n - 1) + SelectBatch(tasks, size, n - 1).value
  }

  lemma {:induction false} BatchesArePrefix(tasks: seq<Task>, size: nat, n: nat)
    requires size > 0 && tasks != [] && n <= NumBatches(|tasks|, size)
    ensures Batches(tasks, size, n) == tasks[..if n * size <= |tasks| then n * size else |tasks|]
  {
    if n > 0 {
      BatchesArePrefix(tasks, size, n - 1);
      BatchBounds(|tasks|, size, n - 1);
      var start := (n - 1) * size;
      assert n * size == start + size;
      var end := if start + size <= |tasks| then start + size else |tasks|;
      assert SelectBatch(tasks, size, n - 1) == Ok(tasks[start..end]);
      assert tasks[..start] + tasks[start..end] == tasks[..end];
    }
  }

  /** For every size, the batches are non-empty, at most that long, and put together
      they are the corpus in its order. */
  lemma BatchesCoverCorpus(tasks: seq<Task>, size: nat)
    requires size > 0 && tasks != []
    ensures Batches(tasks, size, NumBatches(|tasks|, size)) == tasks
    ensures forall index: nat :: SelectBatch(tasks, size, index).Ok? <==> index < NumBatches(|tasks|, size)
    ensures forall index: nat | index < NumBatches(|tasks|, size) ::
              1 <= |SelectBatch(tasks, size, index).value| <= size
  {
    var n := NumBatches(|tasks|, size);
    hide NumBatches, SelectBatch;
    BatchesArePrefix(tasks, size, n);
    BatchBounds(|tasks|, size, n);
    assert tasks[..|tasks|] == tasks;
    forall index: nat
      ensures SelectBatch(tasks, size, index).Ok? <==> index < n
      ensures index < n ==> 1 <= |SelectBatch(tasks, size, index).value| <= size
    {
      BatchSize(tasks, size, index);
    }
  }

  lemma BatchSize(tasks: seq<Task>, size: nat, index: nat)
    requires size > 0 && tasks != []
    ensures SelectBatch(tasks, size, index).Ok? <==> index < NumBatches(|tasks|, size)
    ensures index < NumBatches(|tasks|, size) ==> 1 <= |SelectBatch(tasks, size, index).value| <= size
  {
    BatchBounds(|tasks|, size, index);
  }
}
