/** Worker prompts: longest-key-first substitution and the leftover guard. */
module PromptRender {
  import opened Std

  type Pair = (string, string)
  type Subst = seq<Pair>

  predicate IsUpper(c: char) { 'A' <= c <= 'Z' }

  predicate IsNameChar(c: char) {
    IsUpper(c) || '0' <= c <= '9' || c == '_'
  }

  /** A `$NAME` placeholder: the only shape the driver passes as a key. */
  predicate IsKey(k: string) {
    |k| >= 2 && k[0] == '$' && forall i | 1 <= i < |k| :: IsNameChar(k[i])
  }

  /** Distinct `$NAME` keys, as every call site has them, and values without a `$`,
      which is an assumption: session ids and artifact references are worker text. */
  ghost predicate WellFormed(kvs: Subst) {
    && (forall i | 0 <= i < |kvs| :: IsKey(kvs[i].0) && '$' !in kvs[i].1)
    && (forall i, j | 0 <= i < j < |kvs| :: kvs[i].0 != kvs[j].0)
  }

  // ---- the library operations the driver is built on ----

  /** Rust's `str::replace`: non-overlapping matches, leftmost first; the empty
      pattern matches between all characters. */
  function ReplaceAll(s: string, k: string, v: string): string
    decreases |s|
  {
    if k == "" then
      if s == "" then v else v + [s[0]] + ReplaceAll(s[1..], k, v)
    else if s == "" then ""
    else if k <= s then v + ReplaceAll(s[|k|..], k, v)
    else [s[0]] + ReplaceAll(s[1..], k, v)
  }

  /** Insert before the first pair whose key is no longer: keeps the sort stable. */
  function InsertByLength(kv: Pair, sorted: Subst): Subst {
    if sorted == [] || |sorted[0].0| <= |kv.0| then [kv] + sorted
    else [sorted[0]] + InsertByLength(kv, sorted[1..])
  }

  /** Stable sort, longest key first. */
  function LongestFirst(kvs: Subst): Subst {
    if kvs == [] then [] else InsertByLength(kvs[0], LongestFirst(kvs[1..]))
  }

  ghost predicate Descending(kvs: Subst) {
    forall i, j | 0 <= i < j < |kvs| :: |kvs[j].0| <= |kvs[i].0|
  }

  lemma {:induction false} InsertByLengthKeeps(kv: Pair, sorted: Subst)
    ensures multiset(InsertByLength(kv, sorted)) == multiset(sorted) + multiset{kv}
    ensures forall p :: p in InsertByLength(kv, sorted) <==> p == kv || p in sorted
  {
    if sorted != [] && |sorted[0].0| > |kv.0| {
      assert sorted == [sorted[0]] + sorted[1..];
      InsertByLengthKeeps(kv, sorted[1..]);
    }
  }

  lemma {:induction false} InsertByLengthSorts(kv: Pair, sorted: Subst)
    requires Descending(sorted)
    ensures Descending(InsertByLength(kv, sorted))
  {
    if sorted != [] && |sorted[0].0| > |kv.0| {
      var rest := sorted[1..];
      assert sorted == [sorted[0]] + rest;
      InsertByLengthSorts(kv, rest);
      InsertByLengthKeeps(kv, rest);
      var tail := InsertByLength(kv, rest);
      forall j | 0 <= j < |tail| ensures |tail[j].0| <= |sorted[0].0| {
        assert tail[j] in tail;
      }
    }
  }

  lemma {:induction false} LongestFirstSorts(kvs: Subst)
    ensures Descending(LongestFirst(kvs))
    ensures multiset(LongestFirst(kvs)) == multiset(kvs)
  {
    if kvs != [] {
      assert kvs == [kvs[0]] + kvs[1..];
      LongestFirstSorts(kvs[1..]);
      InsertByLengthSorts(kvs[0], LongestFirst(kvs[1..]));
      InsertByLengthKeeps(kvs[0], LongestFirst(kvs[1..]));
    }
  }

  /** The pairs with a key of this length, in order. */
  function OfLength(kvs: Subst, n: nat): Subst {
    if kvs == [] then []
    else (if |kvs[0].0| == n then [kvs[0]] else []) + OfLength(kvs[1..], n)
  }

  lemma {:induction false} InsertedInFront(kv: Pair, sorted: Subst, n: nat)
    ensures OfLength(InsertByLength(kv, sorted), n) == (if |kv.0| == n then [kv] else []) + OfLength(sorted, n)
  {
    if sorted == [] || |sorted[0].0| <= |kv.0| {
      OneMoreOfLength(kv, sorted, n);
    } else {
      var rest := sorted[1..];
      InsertedInFront(kv, rest, n);
      assert InsertByLength(kv, sorted) == [sorted[0]] + InsertByLength(kv, rest) && sorted == [sorted[0]] + rest;
      hide OfLength, InsertByLength;
      OneMoreOfLength(sorted[0], InsertByLength(kv, rest), n);
      OneMoreOfLength(sorted[0], rest, n);
    }
  }

  lemma OneMoreOfLength(kv: Pair, kvs: Subst, n: nat)
    ensures OfLength([kv] + kvs, n) == (if |kv.0| == n then [kv] else []) + OfLength(kvs, n)
  {
    assert ([kv] + kvs)[1..] == kvs;
  }

  /** The sort is stable: keys of one length stay as listed. */
  lemma {:induction false} LongestFirstIsStable(kvs: Subst, n: nat)
    ensures OfLength(LongestFirst(kvs), n) == OfLength(kvs, n)
  {
    if kvs != [] {
      LongestFirstIsStable(kvs[1..], n);
      InsertedInFront(kvs[0], LongestFirst(kvs[1..]), n);
    }
  }

  lemma {:induction false} InsertByLengthKeepsKeys(kv: Pair, sorted: Subst)
    requires WellFormed(sorted) && IsKey(kv.0) && '$' !in kv.1
    requires forall p | p in sorted :: p.0 != kv.0
    ensures WellFormed(InsertByLength(kv, sorted))
    ensures forall p :: p in InsertByLength(kv, sorted) <==> p == kv || p in sorted
  {
    if sorted != [] && |kv.0| < |sorted[0].0| {
      var head, rest := sorted[0], sorted[1..];
      assert forall i | 0 <= i < |rest| :: rest[i] == sorted[i + 1];
      InsertByLengthKeepsKeys(kv, rest);
      var tail := InsertByLength(kv, rest);
      forall j | 0 <= j < |tail|
        ensures tail[j].0 != head.0
      {
        assert tail[j] in tail;
      }
    }
  }

  lemma {:induction false} LongestFirstKeepsKeys(kvs: Subst)
    requires WellFormed(kvs)
    ensures WellFormed(LongestFirst(kvs))
    ensures forall p :: p in LongestFirst(kvs) <==> p in kvs
  {
    if kvs != [] {
      var head, rest := kvs[0], kvs[1..];
      assert kvs == [head] + rest;
      assert forall i | 0 <= i < |rest| :: rest[i] == kvs[i + 1];
      LongestFirstKeepsKeys(rest);
      var tail := LongestFirst(rest);
      forall j | 0 <= j < |tail|
        ensures tail[j].0 != head.0
      {
        assert tail[j] in rest;
      }
      InsertByLengthKeepsKeys(head, tail);
    }
  }

  // ---- what the loop of replacements computes, and what it should mean ----

  function ReplaceEach(s: string, kvs: Subst): string
    decreases |kvs|
  {
    if kvs == [] then s else ReplaceEach(ReplaceAll(s, kvs[0].0, kvs[0].1), kvs[1..])
  }

  /** The first pair, in list order, whose key starts `s`. */
  function FirstMatch(s: string, kvs: Subst): Option<Pair> {
    if kvs == [] then None
    else if kvs[0].0 <= s then Some(kvs[0])
    else FirstMatch(s, kvs[1..])
  }

  /** `i` is the index of the first pair whose key starts `s`, or the length. */
  lemma {:induction false} FirstMatchIndex(s: string, kvs: Subst) returns (i: nat)
    ensures i <= |kvs| && forall j | 0 <= j < i :: !(kvs[j].0 <= s)
    ensures i < |kvs| ==> kvs[i].0 <= s
    ensures FirstMatch(s, kvs) == if i < |kvs| then Some(kvs[i]) else None
  {
    if kvs == [] || kvs[0].0 <= s {
      i := 0;
    } else {
      var rest := kvs[1..];
      i := FirstMatchIndex(s, rest);
      assert forall j | 0 <= j < |rest| :: rest[j] == kvs[j + 1];
      i := i + 1;
    }
  }

  /** Sorted longest first, the first match is the longest matching key. */
  lemma LongestKeyWins(s: string, kvs: Subst)
    requires WellFormed(kvs)
    ensures var m := FirstMatch(s, LongestFirst(kvs));
            if m.None? then forall kv | kv in kvs :: !(kv.0 <= s)
            else m.value in kvs && m.value.0 <= s
                 && forall kv | kv in kvs && kv.0 <= s && kv != m.value :: |kv.0| < |m.value.0|
  {
    hide LongestFirst, IsKey;
    var sorted := LongestFirst(kvs);
    LongestFirstDescends(kvs);
    LongestFirstKeepsKeys(kvs);
    var i := FirstMatchIndex(s, sorted);
    hide FirstMatch;
    forall kv | kv in kvs && kv.0 <= s
      ensures i < |sorted| && (kv != sorted[i] ==> |kv.0| < |sorted[i].0|)
    {
      assert kv in sorted;
      var j :| 0 <= j < |sorted| && sorted[j] == kv;
      assert i <= j;
      assert i < j ==> sorted[i].0 != sorted[j].0;
      SameLengthPrefixes(sorted[i].0, kv.0, s);
    }
  }

  lemma LongestFirstDescends(kvs: Subst)
    ensures Descending(LongestFirst(kvs))
  {
    LongestFirstSorts(kvs);
  }

  lemma SameLengthPrefixes(a: string, b: string, s: string)
    ensures a <= s && b <= s && |a| == |b| ==> a == b
  {
  }

  /** One left-to-right pass: at each position substitute the first matching
      pair, otherwise copy the character. */
  function OnePass(s: string, kvs: Subst): string
    decreases |s|
  {
    if s == "" then ""
    else match FirstMatch(s, kvs)
      case Some(kv) =>
        if kv.0 == "" || |s| < |kv.0| then [s[0]] + OnePass(s[1..], kvs) else kv.1 + OnePass(s[|kv.0|..], kvs)
      case None => [s[0]] + OnePass(s[1..], kvs)
  }

  // ---- when the two agree ----

  /** An earlier `value`, standing right after a proper prefix of the `later` key,
      can complete that key (or leave it completable by the text behind it). */
  ghost predicate Joinable(later: string, value: string) {
    exists m | 1 <= m < |later| :: later[m..] <= value || value <= later[m..]
  }

  ghost predicate NoJoins(kvs: Subst) {
    forall i, j | 0 <= i < j < |kvs| :: !Joinable(kvs[j].0, kvs[i].1)
  }

  /** `r` runs over name characters straight into a `$`. */
  predicate RunsIntoDollar(r: string) {
    r != "" && (r[0] == '$' || (IsNameChar(r[0]) && RunsIntoDollar(r[1..])))
  }

  /** No `$`-run of the body directly abuts another `$`. */
  predicate RunsApart(s: string) {
    s != "" ==> RunsApart(s[1..]) && (s[0] == '$' ==> !RunsIntoDollar(s[1..]))
  }

  lemma CopiesOne(s: string, k: string, v: string)
    requires IsKey(k) && s != "" && s[0] != '$'
    ensures ReplaceAll(s, k, v) == [s[0]] + ReplaceAll(s[1..], k, v)
  {
    assert k[0] != s[0];
  }

  lemma FirstAndRest(s: string, n: nat, r: string)
    requires 1 <= n <= |s|
    ensures s[1..][n - 1..] == s[n..] && [s[0]] + (s[1..][..n - 1] + r) == s[..n] + r
  {
    assert [s[0]] + s[1..][..n - 1] == s[..n];
  }

  lemma {:induction false} CopiesUpTo(s: string, k: string, v: string, n: nat)
    requires IsKey(k) && n <= |s| && forall i | 0 <= i < n :: s[i] != '$'
    ensures ReplaceAll(s, k, v) == s[..n] + ReplaceAll(s[n..], k, v)
  {
    hide ReplaceAll, IsKey;
    if n == 0 {
      assert s[0..] == s;
    } else {
      CopiesOne(s, k, v);
      CopiesUpTo(s[1..], k, v, n - 1);
      FirstAndRest(s, n, ReplaceAll(s[n..], k, v));
    }
  }

  lemma {:induction false} ReachesDollar(r: string, n: nat)
    requires n < |r| && r[n] == '$' && forall i | 0 <= i < n :: IsNameChar(r[i])
    ensures RunsIntoDollar(r)
  {
    if n > 0 {
      ReachesDollar(r[1..], n - 1);
    }
  }

  /** The position of the first `$`, or the length. */
  function NextDollar(s: string): (n: nat)
    ensures n <= |s| && (forall i | 0 <= i < n :: s[i] != '$') && (n < |s| ==> s[n] == '$')
  {
    if s == "" || s[0] == '$' then 0 else 1 + NextDollar(s[1..])
  }

  /** At a `$` that is not itself replaced, the text up to the next `$` is copied. */
  lemma CopiesChunk(s: string, k: string, v: string, n: nat)
    requires IsKey(k) && s != "" && s[0] == '$' && !(k <= s)
    requires 1 <= n <= |s| && forall i | 1 <= i < n :: s[i] != '$'
    ensures ReplaceAll(s, k, v) == s[..n] + ReplaceAll(s[n..], k, v)
  {
    assert ReplaceAll(s, k, v) == [s[0]] + ReplaceAll(s[1..], k, v);
    hide ReplaceAll, IsKey;
    CopiesUpTo(s[1..], k, v, n - 1);
    FirstAndRest(s, n, ReplaceAll(s[n..], k, v));
  }

  lemma MatchKept(s: string, k: string, v: string, p: string)
    requires IsKey(k) && IsKey(p)
    requires s != "" && s[0] == '$' && !(k <= s) && p <= s
    ensures p <= ReplaceAll(s, k, v)
    ensures ReplaceAll(s, k, v)[|p|..] == ReplaceAll(s[|p|..], k, v)
  {
    forall i | 1 <= i < |p| ensures s[i] != '$' { assert s[i] == p[i]; }
    CopiesChunk(s, k, v, |p|);
    assert s[..|p|] == p;
  }

  lemma {:induction false} MatchNotMade(s: string, k: string, v: string, p: string)
    requires IsKey(k) && IsKey(p)
    requires s != "" && s[0] == '$' && !(k <= s) && p <= ReplaceAll(s, k, v)
    requires !Joinable(p, v) || RunsApart(s)
    ensures p <= s
  {
    var n := 1 + NextDollar(s[1..]);
    assert forall i | 1 <= i < n :: s[i] == s[1..][i - 1];
    CopiesChunk(s, k, v, n);
    var behind := ReplaceAll(s[n..], k, v);
    if n < |p| {
      SplitPrefix(p, s[..n], behind);
      assert s[n] == s[1..][n - 1] == '$' == s[n..][0];
      assert p[n..][0] == p[n] == behind[0];
      assert k <= s[n..];
      var tail := ReplaceAll(s[n..][|k|..], k, v);
      assert behind == v + tail;
      PrefixOfConcat(p[n..], v, tail);
      assert Joinable(p, v);
      forall i | 0 <= i < n - 1 ensures IsNameChar(s[1..][i]) {
        assert s[1..][i] == s[..n][i + 1] == p[i + 1];
      }
      ReachesDollar(s[1..], n - 1);
      assert false;
    } else {
      assert p == (s[..n] + behind)[..|p|] == s[..|p|];
    }
  }

  lemma SplitPrefix(p: string, a: string, b: string)
    requires p <= a + b && |a| <= |p|
    ensures p[..|a|] == a && p[|a|..] <= b
  {
    assert p == (a + b)[..|p|];
    assert p[|a|..] == b[..|p| - |a|];
  }

  lemma PrefixOfConcat(p: string, a: string, b: string)
    requires p <= a + b
    ensures p <= a || a <= p
  {
    assert p == (a + b)[..|p|];
    if |p| <= |a| {
      assert p == a[..|p|];
    } else {
      assert a == p[..|a|];
    }
  }

  /** So replacing `k` elsewhere neither breaks nor creates an occurrence there. */
  lemma {:induction false} MatchSurvives(s: string, k: string, v: string, p: string)
    requires IsKey(k) && IsKey(p)
    requires s != "" && s[0] == '$' && !(k <= s)
    requires !Joinable(p, v) || RunsApart(s)
    ensures p <= s <==> p <= ReplaceAll(s, k, v)
    ensures p <= s ==> ReplaceAll(s, k, v)[|p|..] == ReplaceAll(s[|p|..], k, v)
  {
    if p <= s {
      MatchKept(s, k, v, p);
    } else if p <= ReplaceAll(s, k, v) {
      MatchNotMade(s, k, v, p);
    }
  }

  lemma {:induction false} FirstMatchSurvives(s: string, k: string, v: string, kvs: Subst)
    requires IsKey(k) && '$' !in v && WellFormed(kvs)
    requires s != "" && s[0] == '$' && !(k <= s)
    requires (forall p | p in kvs :: !Joinable(p.0, v)) || RunsApart(s)
    ensures FirstMatch(ReplaceAll(s, k, v), kvs) == FirstMatch(s, kvs)
  {
    if kvs != [] {
      MatchSurvives(s, k, v, kvs[0].0);
      assert forall i | 0 <= i < |kvs[1..]| :: kvs[1..][i] == kvs[i + 1];
      FirstMatchSurvives(s, k, v, kvs[1..]);
    }
  }

  lemma {:induction false} PlainTextPasses(v: string, r: string, kvs: Subst)
    requires '$' !in v && WellFormed(kvs)
    ensures OnePass(v + r, kvs) == v + OnePass(r, kvs)
  {
    if v == "" {
      assert v + r == r;
    } else {
      var _ := FirstMatchIndex(v + r, kvs);
      assert (v + r)[1..] == v[1..] + r;
      PlainTextPasses(v[1..], r, kvs);
    }
  }

  lemma {:induction false} SuffixRunsApart(s: string, n: nat)
    requires RunsApart(s) && n <= |s|
    ensures RunsApart(s[n..])
  {
    if n > 0 {
      SuffixRunsApart(s[1..], n - 1);
      assert s[1..][n - 1..] == s[n..];
    }
  }

  /** Replacing the first key and then passing over the rest is one pass over all. */
  lemma {:induction false} ReplaceThenPass(s: string, kv: Pair, kvs: Subst)
    requires WellFormed([kv] + kvs)
    requires (forall p | p in kvs :: !Joinable(p.0, kv.1)) || RunsApart(s)
    ensures OnePass(ReplaceAll(s, kv.0, kv.1), kvs) == OnePass(s, [kv] + kvs)
    decreases |s|
  {
    var all, k, v := [kv] + kvs, kv.0, kv.1;
    assert all[0] == kv && all[1..] == kvs;
    assert forall i | 0 <= i < |kvs| :: kvs[i] == all[i + 1];
    if s == "" {
    } else if k <= s {
      if RunsApart(s) { SuffixRunsApart(s, |k|); }
      ReplaceThenPass(s[|k|..], kv, kvs);
      PlainTextPasses(v, ReplaceAll(s[|k|..], k, v), kvs);
    } else if s[0] != '$' {
      var _ := FirstMatchIndex(s, all);
      ReplaceThenPass(s[1..], kv, kvs);
      PlainTextPasses([s[0]], ReplaceAll(s[1..], k, v), kvs);
    } else {
      var t := ReplaceAll(s, k, v);
      FirstMatchSurvives(s, k, v, kvs);
      var i := FirstMatchIndex(s, kvs);
      assert FirstMatch(s, all) == FirstMatch(s, kvs);
      if i < |kvs| {
        MatchSurvives(s, k, v, kvs[i].0);
        if RunsApart(s) { SuffixRunsApart(s, |kvs[i].0|); }
        ReplaceThenPass(s[|kvs[i].0|..], kv, kvs);
      } else {
        ReplaceThenPass(s[1..], kv, kvs);
        assert t[1..] == ReplaceAll(s[1..], k, v);
      }
    }
  }

  lemma {:induction false} NoDollarAhead(r: string, k: string, v: string)
    requires IsKey(k) && !RunsIntoDollar(r)
    ensures !RunsIntoDollar(ReplaceAll(r, k, v))
  {
    if r != "" && IsNameChar(r[0]) {
      NoDollarAhead(r[1..], k, v);
    }
  }

  lemma {:induction false} PrependPlain(v: string, r: string)
    requires '$' !in v && RunsApart(r)
    ensures RunsApart(v + r)
  {
    if v == "" {
      assert v + r == r;
    } else {
      assert (v + r)[1..] == v[1..] + r;
      PrependPlain(v[1..], r);
    }
  }

  lemma {:induction false} ReplaceKeepsApart(s: string, k: string, v: string)
    requires IsKey(k) && '$' !in v && RunsApart(s)
    ensures RunsApart(ReplaceAll(s, k, v))
    decreases |s|
  {
    if s == "" {
    } else if k <= s {
      SuffixRunsApart(s, |k|);
      ReplaceKeepsApart(s[|k|..], k, v);
      PrependPlain(v, ReplaceAll(s[|k|..], k, v));
    } else {
      ReplaceKeepsApart(s[1..], k, v);
      if s[0] == '$' { NoDollarAhead(s[1..], k, v); }
      assert ReplaceAll(s, k, v)[1..] == ReplaceAll(s[1..], k, v);
    }
  }

  lemma {:induction false} NothingToPass(s: string)
    ensures OnePass(s, []) == s
  {
    if s != "" {
      NothingToPass(s[1..]);
    }
  }

  /** Replacing the keys one after another is one left-to-right pass whenever no
      earlier value can complete a later key, or the body keeps its `$`-runs apart. */
  lemma {:induction false} ReplaceEachIsOnePass(s: string, kvs: Subst)
    requires WellFormed(kvs)
    requires NoJoins(kvs) || RunsApart(s)
    ensures ReplaceEach(s, kvs) == OnePass(s, kvs)
    decreases |kvs|
  {
    if kvs == [] {
      NothingToPass(s);
    } else {
      var kv, rest := kvs[0], kvs[1..];
      assert kvs == [kv] + rest;
      assert forall i | 0 <= i < |rest| :: rest[i] == kvs[i + 1];
      if RunsApart(s) { ReplaceKeepsApart(s, kv.0, kv.1); }
      ReplaceEachIsOnePass(ReplaceAll(s, kv.0, kv.1), rest);
      ReplaceThenPass(s, kv, rest);
    }
  }

  /** Values that are non-empty and do not start with a name character never join. */
  lemma InertValuesNeverJoin(kvs: Subst)
    requires WellFormed(kvs)
    requires forall i | 0 <= i < |kvs| :: kvs[i].1 != "" && !IsNameChar(kvs[i].1[0])
    ensures NoJoins(kvs)
  {
    forall i, j | 0 <= i < j < |kvs|
      ensures !Joinable(kvs[j].0, kvs[i].1)
    {
      var k, v := kvs[j].0, kvs[i].1;
      forall m | 1 <= m < |k| ensures !(k[m..] <= v) && !(v <= k[m..]) {
        assert k[m..][0] == k[m];
      }
    }
  }

  /** The condition is exact: for two keys the results agree on every body if and
      only if the first value cannot join the second key. */
  lemma TwoKeysExactly(first: Pair, second: Pair)
    requires WellFormed([first, second]) && |second.0| <= |first.0|
    ensures (forall body :: ReplaceEach(body, [first, second]) == OnePass(body, [first, second]))
            <==> !Joinable(second.0, first.1)
  {
    if Joinable(second.0, first.1) {
      var body := JoiningBody(first, second);
      assert ReplaceEach(body, [first, second]) != OnePass(body, [first, second]);
    } else {
      forall body ensures ReplaceEach(body, [first, second]) == OnePass(body, [first, second]) {
        ReplaceEachIsOnePass(body, [first, second]);
      }
    }
  }

  /** A body on which two joinable keys come out differently: the sequential
      result has swallowed the second key, the single pass keeps its `$`. */
  lemma {:induction false} JoiningBody(first: Pair, second: Pair) returns (body: string)
    requires WellFormed([first, second]) && |second.0| <= |first.0|
    requires Joinable(second.0, first.1)
    ensures ReplaceEach(body, [first, second]) != OnePass(body, [first, second])
  {
    hide ReplaceEach, OnePass, ReplaceAll, FirstMatch, Joinable;
    TwoWellFormed(first, second);
    var k, v, p := first.0, first.1, second.0;
    var m := JoinPoint(p, v);
    var r := if v <= p[m..] then p[m..][|v|..] else "";
    assert '$' !in v + r by {
      forall i | 0 <= i < |r| ensures r[i] != '$' { assert r[i] == p[m + |v| + i]; }
    }
    body := p[..m] + (k + r);
    assert body[0] == '$' && body[m] == '$';
    assert !(k <= body);
    assert !(p <= body);
    PassKeepsDollar(body, first, second);
    ReplacesAt(p[..m], k, v, r, body);
    KeyCompleted(p, m, v + r, second.1);
    ReplaceEachOfTwo(body, first, second);
  }

  lemma ReplaceEachOfTwo(s: string, first: Pair, second: Pair)
    ensures ReplaceEach(s, [first, second])
            == ReplaceAll(ReplaceAll(s, first.0, first.1), second.0, second.1)
  {
    var t := ReplaceAll(s, first.0, first.1);
    assert [first, second][1..] == [second];
    assert ReplaceEach(s, [first, second]) == ReplaceEach(t, [second]);
    assert [second][1..] == [];
    assert ReplaceEach(t, [second]) == ReplaceEach(ReplaceAll(t, second.0, second.1), []);
  }

  /** Once the text behind a key's first `m` characters supplies the rest, the
      key is replaced and no `$` is left. */
  lemma KeyCompleted(p: string, m: nat, behind: string, v: string)
    requires IsKey(p) && m < |p| && p[m..] <= behind
    requires '$' !in behind && '$' !in v
    ensures '$' !in ReplaceAll(p[..m] + behind, p, v)
  {
    var rest := behind[|p| - m..];
    assert behind == p[m..] + rest;
    assert p[..m] + (p[m..] + rest) == (p[..m] + p[m..]) + rest;
    assert p[..m] + p[m..] == p;
    assert p[..m] + behind == p + rest;
    ReplacesAt("", p, v, rest, p + rest);
    assert "" + (v + rest) == v + rest;
  }

  lemma TwoWellFormed(first: Pair, second: Pair)
    requires WellFormed([first, second])
    ensures IsKey(first.0) && IsKey(second.0) && '$' !in first.1 && '$' !in second.1
  {
    var kvs := [first, second];
    assert kvs[0] == first && kvs[1] == second;
  }

  lemma JoinPoint(later: string, value: string) returns (m: nat)
    requires Joinable(later, value)
    ensures 1 <= m < |later| && (later[m..] <= value || value <= later[m..])
  {
    m :| 1 <= m < |later| && (later[m..] <= value || value <= later[m..]);
  }

  lemma PassKeepsDollar(body: string, first: Pair, second: Pair)
    requires body != "" && body[0] == '$' && !(first.0 <= body) && !(second.0 <= body)
    ensures OnePass(body, [first, second]) != "" && OnePass(body, [first, second])[0] == '$'
  {
    var i := FirstMatchIndex(body, [first, second]);
    assert [first, second][0] == first && [first, second][1] == second;
  }

  /** A body holding exactly one occurrence of `k`, behind a part of another key. */
  lemma {:induction false} ReplacesAt(a: string, k: string, v: string, r: string, body: string)
    requires IsKey(k) && '$' !in r && body == a + (k + r) && !(a != "" && k <= body)
    requires a != "" ==> a[0] == '$' && forall i | 1 <= i < |a| :: a[i] != '$'
    ensures ReplaceAll(body, k, v) == a + (v + r)
  {
    assert body[|a|..] == k + r;
    if a != "" {
      CopiesChunk(body, k, v, |a|);
      assert body[..|a|] == a;
    } else {
      assert body == k + r;
    }
    assert (k + r)[|k|..] == r;
    CopiesUpTo(r, k, v, |r|);
    assert r[|r|..] == "" && r[..|r|] == r;
    assert ReplaceAll(r, k, v) == r + "";
  }

  // ---- any number of keys ----

  /** Neither key starts the other. */
  predicate Unrelated(a: string, b: string) {
    !(a <= b) && !(b <= a)
  }

  /** No key is a prefix of another. */
  ghost predicate PrefixFree(kvs: Subst) {
    forall i, j | 0 <= i < j < |kvs| :: Unrelated(kvs[i].0, kvs[j].0)
  }

  /** Text that is one run, then perhaps another, keeps every key that starts neither. */
  lemma KeptWhole(a: string, b: string, k: string, v: string)
    requires IsKey(k) && a != "" && a[0] == '$' && forall i | 1 <= i < |a| :: a[i] != '$'
    requires b != "" ==> b[0] == '$' && forall i | 1 <= i < |b| :: b[i] != '$'
    requires !(k <= a + b) && !(k <= b)
    ensures ReplaceAll(a + b, k, v) == a + b
  {
    var s := a + b;
    assert s[..|a|] == a && s[|a|..] == b;
    CopiesChunk(s, k, v, |a|);
    if b != "" {
      CopiesChunk(b, k, v, |b|);
      assert b[..|b|] == b && b[|b|..] == "";
    }
  }

  lemma {:induction false} SkipsKeys(s: string, kvs: Subst, n: nat)
    requires n <= |kvs| && forall l | 0 <= l < n :: ReplaceAll(s, kvs[l].0, kvs[l].1) == s
    ensures ReplaceEach(s, kvs) == ReplaceEach(s, kvs[n..])
  {
    hide ReplaceAll;
    if n == 0 {
      assert kvs[0..] == kvs;
    } else {
      assert forall l | 0 <= l < n - 1 :: kvs[1..][l] == kvs[l + 1];
      SkipsKeys(s, kvs[1..], n - 1);
      assert kvs[1..][n - 1..] == kvs[n..];
    }
  }

  lemma {:induction false} NoDollarLeft(s: string, kvs: Subst)
    requires WellFormed(kvs) && '$' !in s
    ensures ReplaceEach(s, kvs) == s
  {
    forall l | 0 <= l < |kvs| ensures ReplaceAll(s, kvs[l].0, kvs[l].1) == s {
      CopiesUpTo(s, kvs[l].0, kvs[l].1, |s|);
      assert s[|s|..] == "" && s[..|s|] == s;
    }
    SkipsKeys(s, kvs, |kvs|);
  }

  /** A key that starts text with a `$` at `m` lies before it. */
  lemma EndsBeforeDollar(q: string, p: string, m: nat, behind: string)
    requires IsKey(q) && 1 <= m < |p| && behind != "" && behind[0] == '$'
    ensures q <= p[..m] + behind ==> |q| <= m && q <= p
  {
    assert (p[..m] + behind)[m] == '$';
    assert |q| > m ==> q[m] != '$';
  }

  /** So a body that begins with a proper part of key `j` and then has a `$` starts with
      no key at all. */
  lemma NothingStarts(kvs: Subst, l: nat, j: nat, m: nat, behind: string)
    requires WellFormed(kvs) && PrefixFree(kvs) && l < |kvs| && j < |kvs|
    requires 1 <= m < |kvs[j].0| && behind != "" && behind[0] == '$'
    ensures !(kvs[l].0 <= kvs[j].0[..m] + behind)
  {
    EndsBeforeDollar(kvs[l].0, kvs[j].0, m, behind);
    if l != j {
      UnrelatedKeys(kvs, l, j);
    }
  }

  lemma UnrelatedKeys(kvs: Subst, a: nat, b: nat)
    requires PrefixFree(kvs) && a < |kvs| && b < |kvs| && a != b
    ensures Unrelated(kvs[a].0, kvs[b].0)
  {
  }

  lemma TwoPrefixes(x: string, y: string, text: string)
    ensures x <= text && y <= text ==> x <= y || y <= x
  {
  }

  /** Text that starts with one key starts with no other. */
  lemma OneKeyStarts(kvs: Subst, a: nat, b: nat, text: string)
    requires PrefixFree(kvs) && a < |kvs| && b < |kvs| && a != b && kvs[a].0 <= text
    ensures !(kvs[b].0 <= text)
  {
    UnrelatedKeys(kvs, a, b);
    TwoPrefixes(kvs[a].0, kvs[b].0, text);
  }

  /** For any value that can join any later key, a body on which the loop and the single
      pass differ: the loop leaves no `$`, the pass keeps the first. */
  lemma JoiningBodyFor(kvs: Subst, i: nat, j: nat) returns (body: string)
    requires WellFormed(kvs) && PrefixFree(kvs) && i < j < |kvs|
    requires Joinable(kvs[j].0, kvs[i].1)
    ensures ReplaceEach(body, kvs) != OnePass(body, kvs)
  {
    hide ReplaceEach, ReplaceAll, Joinable, PrefixFree, OnePass;
    var k, v, p := kvs[i].0, kvs[i].1, kvs[j].0;
    var m := JoinPoint(p, v);
    var a, r := p[..m], if v <= p[m..] then p[m..][|v|..] else "";
    assert '$' !in r by {
      forall t | 0 <= t < |r| ensures r[t] != '$' { assert r[t] == p[m + |v| + t]; }
    }
    body := a + (k + r);
    PassKeepsStart(kvs, j, m, k + r);

    var joined := a + (v + r);
    BodyReaches(kvs, i, a, r, j, m);
    assert p <= joined by {
      assert p == a + p[m..];
      assert p[m..] <= v + r;
    }
    JoinedReaches(kvs, i, j, joined);
  }

  /** The single pass copies the first `$` of such a body. */
  lemma PassKeepsStart(kvs: Subst, j: nat, m: nat, behind: string)
    requires WellFormed(kvs) && PrefixFree(kvs) && j < |kvs|
    requires 1 <= m < |kvs[j].0| && behind != "" && behind[0] == '$'
    ensures '$' in OnePass(kvs[j].0[..m] + behind, kvs)
  {
    var body := kvs[j].0[..m] + behind;
    var f := FirstMatchIndex(body, kvs);
    if f < |kvs| {
      NothingStarts(kvs, f, j, m, behind);
      assert false;
    }
    assert body[0] == '$' && OnePass(body, kvs)[0] == '$';
  }

  /** The keys before `i` leave the body alone, and `i` joins its two halves. */
  lemma BodyReaches(kvs: Subst, i: nat, a: string, r: string, j: nat, m: nat)
    requires WellFormed(kvs) && PrefixFree(kvs) && i < j < |kvs| && 1 <= m < |kvs[j].0|
    requires a == kvs[j].0[..m] && '$' !in r
    ensures ReplaceEach(a + (kvs[i].0 + r), kvs) == ReplaceEach(a + (kvs[i].1 + r), kvs[i + 1..])
  {
    hide ReplaceAll, PrefixFree;
    var k, v := kvs[i].0, kvs[i].1;
    var tail := k + r;
    var body := a + tail;
    forall l | 0 <= l < i ensures ReplaceAll(body, kvs[l].0, kvs[l].1) == body {
      NothingStarts(kvs, l, j, m, tail);
      OneKeyStarts(kvs, i, l, tail);
      KeptWhole(a, tail, kvs[l].0, kvs[l].1);
    }
    SkipsKeys(body, kvs, i);
    NothingStarts(kvs, i, j, m, tail);
    ReplacesAt(a, k, v, r, body);
    assert kvs[i..][0] == kvs[i] && kvs[i..][1..] == kvs[i + 1..];
  }

  lemma TailAt(kvs: Subst, i: nat, j: nat)
    requires i < j < |kvs|
    ensures kvs[i + 1..][j - i - 1..] == [kvs[j]] + kvs[j + 1..]
  {
  }

  lemma JoinedKept(kvs: Subst, i: nat, j: nat, l: nat, joined: string)
    requires WellFormed(kvs) && PrefixFree(kvs) && l < j < |kvs|
    requires kvs[j].0 <= joined && forall t | 1 <= t < |joined| :: joined[t] != '$'
    ensures ReplaceAll(joined, kvs[l].0, kvs[l].1) == joined
  {
    hide ReplaceAll, PrefixFree;
    OneKeyStarts(kvs, j, l, joined);
    KeptWhole(joined, "", kvs[l].0, kvs[l].1);
    assert joined + "" == joined;
  }

  /** The keys before `j` leave the joined text alone, and `j` takes its last `$`. */
  lemma JoinedReaches(kvs: Subst, i: nat, j: nat, joined: string)
    requires WellFormed(kvs) && PrefixFree(kvs) && i < j < |kvs|
    requires kvs[j].0 <= joined && forall t | 1 <= t < |joined| :: joined[t] != '$'
    ensures '$' !in ReplaceEach(joined, kvs[i + 1..])
  {
    hide ReplaceAll, PrefixFree, ReplaceEach;
    var later := kvs[i + 1..];
    forall l | 0 <= l < j - i - 1 ensures ReplaceAll(joined, later[l].0, later[l].1) == joined {
      JoinedKept(kvs, i, j, i + 1 + l, joined);
    }
    SuffixWellFormed(kvs, j + 1);
    var kv, rest := kvs[j], kvs[j + 1..];
    hide WellFormed;
    SkipsKeys(joined, later, j - i - 1);
    TailAt(kvs, i, j);
    assert IsKey(kv.0) && '$' !in kv.1 by { KeyAt(kvs, j); }
    LastDollarGoes(joined, kv, rest);
  }

  lemma KeyAt(kvs: Subst, j: nat)
    requires WellFormed(kvs) && j < |kvs|
    ensures IsKey(kvs[j].0) && '$' !in kvs[j].1
  {
  }

  lemma LastDollarGoes(joined: string, kv: Pair, later: Subst)
    requires IsKey(kv.0) && '$' !in kv.1 && WellFormed(later)
    requires kv.0 <= joined && forall t | 1 <= t < |joined| :: joined[t] != '$'
    ensures '$' !in ReplaceEach(joined, [kv] + later)
  {
    hide ReplaceAll;
    var rest := joined[|kv.0|..];
    assert joined == kv.0 + rest && joined == "" + (kv.0 + rest);
    ReplacesAt("", kv.0, kv.1, rest, joined);
    var done := kv.1 + rest;
    assert "" + done == done;
    assert ([kv] + later)[1..] == later;
    NoDollarLeft(done, later);
  }

  lemma SuffixWellFormed(kvs: Subst, n: nat)
    requires WellFormed(kvs) && n <= |kvs|
    ensures WellFormed(kvs[n..])
  {
    var rest := kvs[n..];
    assert forall l | 0 <= l < |rest| :: rest[l] == kvs[n + l];
  }

  /** The condition is exact for any number of keys none of which starts another: the
      loop is one pass on every body if and only if no earlier value can join a later
      key. */
  lemma JoinsExactly(kvs: Subst)
    requires WellFormed(kvs) && PrefixFree(kvs)
    ensures (forall body :: ReplaceEach(body, kvs) == OnePass(body, kvs)) <==> NoJoins(kvs)
  {
    hide WellFormed, PrefixFree, Joinable, ReplaceEach, OnePass;
    if NoJoins(kvs) {
      forall body ensures ReplaceEach(body, kvs) == OnePass(body, kvs) {
        ReplaceEachIsOnePass(body, kvs);
      }
    } else {
      var i, j :| 0 <= i < j < |kvs| && Joinable(kvs[j].0, kvs[i].1);
      var body := JoiningBodyFor(kvs, i, j);
      assert ReplaceEach(body, kvs) != OnePass(body, kvs);
    }
  }

  lemma LongestFirstKeepsApart(kvs: Subst)
    requires WellFormed(kvs) && PrefixFree(kvs)
    ensures WellFormed(LongestFirst(kvs)) && PrefixFree(LongestFirst(kvs))
  {
    LongestFirstKeepsKeys(kvs);
    var sorted := LongestFirst(kvs);
    forall i, j | 0 <= i < j < |sorted| ensures Unrelated(sorted[i].0, sorted[j].0) {
      assert sorted[i] in kvs && sorted[j] in kvs;
      var a :| 0 <= a < |kvs| && kvs[a] == sorted[i];
      var b :| 0 <= b < |kvs| && kvs[b] == sorted[j];
      UnrelatedKeys(kvs, a, b);
    }
  }

  // ---- the leftover guard ----

  /** The end of the run of name characters starting at `j`. */
  function NameEnd(s: string, j: nat): (e: nat)
    requires j <= |s|
    ensures j <= e <= |s| && (forall t | j <= t < e :: IsNameChar(s[t]))
    ensures e < |s| ==> !IsNameChar(s[e])
    decreases |s| - j
  {
    if j < |s| && IsNameChar(s[j]) then NameEnd(s, j + 1) else j
  }

  /** An unsubstituted placeholder at `i`: `$`, an upper-case letter, and a maximal
      name run that is not contract notation (`$NAME=`). */
  predicate LiveAt(s: string, i: nat) {
    && i + 1 < |s| && s[i] == '$' && IsUpper(s[i + 1])
    && (var e := NameEnd(s, i + 2); e == |s| || s[e] != '=')
  }

  ghost predicate NoneLive(s: string) {
    forall i | 0 <= i < |s| :: !LiveAt(s, i)
  }

  ghost predicate IsLeftmostLive(s: string, name: string) {
    exists i | 0 <= i < |s| :: LiveAt(s, i) && (forall j | 0 <= j < i :: !LiveAt(s, j))
                               && name == s[i..NameEnd(s, i + 2)]
  }

  /** What counts as left over: a dollar sign, a capital letter, then capital letters,
      digits and underscores as far as they go, and no equals sign behind them. */
  lemma LiveExactly(s: string, i: nat)
    ensures LiveAt(s, i)
            <==> && i + 1 < |s| && s[i] == '$' && 'A' <= s[i + 1] <= 'Z'
                 && exists e | i + 2 <= e <= |s| ::
                      && (forall t | i + 2 <= t < e :: 'A' <= s[t] <= 'Z' || '0' <= s[t] <= '9' || s[t] == '_')
                      && (e == |s| || !('A' <= s[e] <= 'Z' || '0' <= s[e] <= '9' || s[e] == '_' || s[e] == '='))
  {
    if i + 1 < |s| {
      var end := NameEnd(s, i + 2);
      forall e | i + 2 <= e <= |s|
                 && (forall t | i + 2 <= t < e :: IsNameChar(s[t])) && (e == |s| || !IsNameChar(s[e]))
        ensures e == end
      {
      }
    }
  }

  method FirstLeftoverPlaceholder(body: string) returns (r: Option<string>)
    ensures r.None? <==> NoneLive(body)
    ensures r.Some? ==> IsLeftmostLive(body, r.value)
  {
    var i := 0;
    while i < |body|
      invariant 0 <= i <= |body|
      invariant forall j | 0 <= j < i :: !LiveAt(body, j)
    {
      if body[i] != '$' {
        i := i + 1;
        continue;
      }
      var start := i + 1;
      if start >= |body| || !IsUpper(body[start]) {
        i := i + 1;
        continue;
      }
      var end := start + 1;
      while end < |body| && (IsUpper(body[end]) || '0' <= body[end] <= '9' || body[end] == '_')
        invariant start + 1 <= end <= |body|
        invariant forall t | start + 1 <= t < end :: IsNameChar(body[t])
        invariant NameEnd(body, start + 1) == NameEnd(body, end)
      {
        end := end + 1;
      }
      if end < |body| && body[end] == '=' {
        assert forall j | i < j < end :: body[j] != '$';
        i := end;
        continue;
      }
      assert LiveAt(body, i);
      return Some(body[i..end]);
    }
    return None;
  }

  /** Substitute, longest key first, and reject a result that still carries a
      placeholder; the error names the leftmost one. */
  method RenderPromptBody(body: string, subst: Subst) returns (r: Result<string, string>)
    ensures var text := ReplaceEach(body, LongestFirst(subst));
            if NoneLive(text) then r == Ok(text) else r.Err? && IsLeftmostLive(text, r.error)
  {
    var out := body;
    var keys := LongestFirst(subst);
    var i := 0;
    while i < |keys|
      invariant 0 <= i <= |keys|
      invariant ReplaceEach(out, keys[i..]) == ReplaceEach(body, keys)
    {
      assert keys[i..][0] == keys[i] && keys[i..][1..] == keys[i + 1..];
      out := ReplaceAll(out, keys[i].0, keys[i].1);
      i := i + 1;
    }
    assert keys[i..] == [];
    var leftover := FirstLeftoverPlaceholder(out);
    if leftover.Some? {
      return Err(leftover.value);
    }
    return Ok(out);
  }

  /** What a caller gets from a successful render: one pass that substitutes the
      longest supplied key at every `$`, with no live placeholder left. The order
      in which the call site lists its pairs does not matter. */
  lemma RenderIsOrderFree(body: string, subst: Subst, reordered: Subst)
    requires WellFormed(subst) && WellFormed(reordered)
    requires forall p :: p in subst <==> p in reordered
    requires RunsApart(body) || (NoJoins(LongestFirst(subst)) && NoJoins(LongestFirst(reordered)))
    ensures ReplaceEach(body, LongestFirst(subst)) == OnePass(body, LongestFirst(subst))
    ensures ReplaceEach(body, LongestFirst(reordered)) == ReplaceEach(body, LongestFirst(subst))
  {
    LongestFirstKeepsKeys(subst);
    LongestFirstKeepsKeys(reordered);
    ReplaceEachIsOnePass(body, LongestFirst(subst));
    ReplaceEachIsOnePass(body, LongestFirst(reordered));
    SamePass(body, subst, reordered);
  }

  lemma {:induction false} SamePass(s: string, subst: Subst, reordered: Subst)
    requires WellFormed(subst) && WellFormed(reordered)
    requires forall p :: p in subst <==> p in reordered
    ensures OnePass(s, LongestFirst(subst)) == OnePass(s, LongestFirst(reordered))
    decreases |s|
  {
    if s != "" {
      LongestKeyWins(s, subst);
      LongestKeyWins(s, reordered);
      var m, n := FirstMatch(s, LongestFirst(subst)), FirstMatch(s, LongestFirst(reordered));
      assert m == n;
      if m.Some? && m.value.0 != "" {
        SamePass(s[|m.value.0|..], subst, reordered);
      } else {
        SamePass(s[1..], subst, reordered);
      }
    }
  }

  /** The condition can fail: here the value of `$CD` completes `$AX`. */
  lemma JoiningExample()
    ensures var kvs := [("$CD", "X"), ("$AX", "z")];
            && ReplaceEach("$A$CD", kvs) == "z"
            && OnePass("$A$CD", kvs) == "$AX"
  {
    var first, second := ("$CD", "X"), ("$AX", "z");
    var kvs := [first, second];
    ReplaceEachOfTwo("$A$CD", first, second);
    assert "$A$CD"[1..] == "A$CD" && "A$CD"[1..] == "$CD" && "$CD"[3..] == "";
    assert ReplaceAll("$CD", "$CD", "X") == "X" + "";
    assert ReplaceAll("A$CD", "$CD", "X") == "AX";
    assert ReplaceAll("$A$CD", "$CD", "X") == "$AX";
    assert "$AX"[3..] == "";
    assert ReplaceAll("$AX", "$AX", "z") == "z" + "";
    assert kvs[1..] == [second] && [second][1..] == [];
    assert FirstMatch("$CD", kvs) == Some(first);
    assert OnePass("$CD", kvs) == "X" + "";
    assert !("$AX" <= "$A$CD") by { assert "$A$CD"[2] == '$'; }
    assert FirstMatch("$A$CD", kvs) == FirstMatch("$A$CD", [second]) == FirstMatch("$A$CD", []) == None;
    assert FirstMatch("A$CD", kvs) == FirstMatch("A$CD", [second]) == FirstMatch("A$CD", []) == None;
    assert OnePass("A$CD", kvs) == "A" + "X";
    assert OnePass("$A$CD", kvs) == "$" + "AX";
  }
}
