/** The prompts the driver hands to Claude workers: a template and the values the
    call site supplies for its placeholders. */
module WorkerPrompt {
  import opened Std
  import R = PromptRender

  /** The placeholders the driver knows; each call site supplies some of them. */
  datatype Fields = Fields(
    sessionId: Option<string>, branch: Option<string>, mode: Option<string>, topic: Option<string>,
    artifactRef: Option<string>, prUrl: Option<string>, sender: Option<string>)

  const NO_FIELDS := Fields(None, None, None, None, None, None, None)

  const KEYS: seq<string> :=
    ["$SESSION_ID", "$BRANCH", "$MODE", "$TOPIC", "$ARTIFACT_REF", "$PR_URL", "$SENDER"]

  /** The keys with a value, in order. */
  function Supplied(keys: seq<string>, values: seq<Option<string>>): R.Subst
    requires |keys| == |values|
  {
    if keys == [] then []
    else
      var n := |keys| - 1;
      Supplied(keys[..n], values[..n]) + if values[n].Some? then [(keys[n], values[n].value)] else []
  }

  function Substitutions(f: Fields): R.Subst {
    Supplied(KEYS, [f.sessionId, f.branch, f.mode, f.topic, f.artifactRef, f.prUrl, f.sender])
  }

  function Pair(key: string, value: Option<string>): R.Subst {
    if value.Some? then [(key, value.value)] else []
  }

  /** What is substituted for what, in which order. */
  lemma SubstitutedByName(f: Fields)
    ensures Substitutions(f)
            == Pair("$SESSION_ID", f.sessionId) + Pair("$BRANCH", f.branch) + Pair("$MODE", f.mode)
               + Pair("$TOPIC", f.topic) + Pair("$ARTIFACT_REF", f.artifactRef) + Pair("$PR_URL", f.prUrl)
               + Pair("$SENDER", f.sender)
  {
    var values := [f.sessionId, f.branch, f.mode, f.topic, f.artifactRef, f.prUrl, f.sender];
    assert |KEYS| == 7;
    hide Pair, Supplied;
    SevenPairs(KEYS, values);
  }

  ghost function UpTo(keys: seq<string>, values: seq<Option<string>>, n: nat): R.Subst
    requires |keys| == |values| && n <= |keys|
  {
    Supplied(keys[..n], values[..n])
  }

  lemma OneMorePair(keys: seq<string>, values: seq<Option<string>>, n: nat)
    requires |keys| == |values| && n < |keys|
    ensures UpTo(keys, values, n + 1) == UpTo(keys, values, n) + Pair(keys[n], values[n])
  {
    assert keys[..n + 1][..n] == keys[..n] && values[..n + 1][..n] == values[..n];
  }

  lemma UpToEnds(keys: seq<string>, values: seq<Option<string>>)
    requires |keys| == |values|
    ensures UpTo(keys, values, 0) == [] && UpTo(keys, values, |keys|) == Supplied(keys, values)
  {
    assert keys[..|keys|] == keys && values[..|keys|] == values;
  }

  lemma FourPairs(keys: seq<string>, values: seq<Option<string>>)
    requires |keys| == |values| == 7
    ensures UpTo(keys, values, 4)
            == Pair(keys[0], values[0]) + Pair(keys[1], values[1]) + Pair(keys[2], values[2]) + Pair(keys[3], values[3])
  {
    hide UpTo, Pair;
    UpToEnds(keys, values);
    OneMorePair(keys, values, 0);
    OneMorePair(keys, values, 1);
    OneMorePair(keys, values, 2);
    OneMorePair(keys, values, 3);
    assert [] + Pair(keys[0], values[0]) == Pair(keys[0], values[0]);
  }

  lemma SevenPairs(keys: seq<string>, values: seq<Option<string>>)
    requires |keys| == |values| == 7
    ensures Supplied(keys, values)
            == Pair(keys[0], values[0]) + Pair(keys[1], values[1]) + Pair(keys[2], values[2]) + Pair(keys[3], values[3])
               + Pair(keys[4], values[4]) + Pair(keys[5], values[5]) + Pair(keys[6], values[6])
  {
    hide UpTo, Pair;
    FourPairs(keys, values);
    OneMorePair(keys, values, 4);
    OneMorePair(keys, values, 5);
    OneMorePair(keys, values, 6);
    UpToEnds(keys, values);
  }

  // The driver's keys, and when its prompts are one pass over their template.

  lemma KeysAreUnrelated()
    ensures forall i | 0 <= i < |KEYS| :: R.IsKey(KEYS[i])
    ensures forall i, j | 0 <= i < j < |KEYS| :: R.Unrelated(KEYS[i], KEYS[j])
  {
    assert KEYS[0][1] == 'S' && KEYS[1][1] == 'B' && KEYS[2][1] == 'M' && KEYS[3][1] == 'T';
    assert KEYS[4][1] == 'A' && KEYS[5][1] == 'P' && KEYS[6][1] == 'S';
    assert KEYS[0][3] == 'S' && KEYS[6][3] == 'N';
  }

  /** Every supplied key is one of the keys, and none is the last key twice. */
  lemma {:induction false} SuppliedKeys(keys: seq<string>, values: seq<Option<string>>)
    requires |keys| == |values|
    requires forall i | 0 <= i < |keys| :: R.IsKey(keys[i])
    requires forall i, j | 0 <= i < j < |keys| :: R.Unrelated(keys[i], keys[j])
    ensures var kvs := Supplied(keys, values);
            && (forall kv | kv in kvs :: exists i | 0 <= i < |keys| :: keys[i] == kv.0)
            && (forall i | 0 <= i < |kvs| :: R.IsKey(kvs[i].0))
            && R.PrefixFree(kvs)
  {
    hide R.IsKey, R.Unrelated;
    if keys != [] {
      var n := |keys| - 1;
      SuppliedKeys(keys[..n], values[..n]);
      var before, kvs := Supplied(keys[..n], values[..n]), Supplied(keys, values);
      forall kv | kv in before ensures exists i | 0 <= i < |keys| :: keys[i] == kv.0 {
        var i :| 0 <= i < n && keys[..n][i] == kv.0;
        assert keys[i] == kv.0;
      }
      forall i, j | 0 <= i < j < |kvs| ensures R.Unrelated(kvs[i].0, kvs[j].0) {
        assert kvs[i] == before[i] && before[i] in before;
        if j == |before| {
          var k :| 0 <= k < n && keys[..n][k] == kvs[i].0;
          assert R.Unrelated(keys[k], keys[n]);
        }
      }
    }
  }

  lemma {:induction false} NothingSupplied(keys: seq<string>, values: seq<Option<string>>)
    requires |keys| == |values| && forall i | 0 <= i < |values| :: values[i].None?
    ensures Supplied(keys, values) == []
  {
    if keys != [] {
      NothingSupplied(keys[..|keys| - 1], values[..|keys| - 1]);
    }
  }

  /** No value carries a `$`. Session id and artifact reference are worker text, so this
      is an assumption about the workers. */
  ghost predicate PlainValues(f: Fields) {
    forall kv | kv in Substitutions(f) :: '$' !in kv.1
  }

  /** Whatever a call site supplies, its keys are distinct and unrelated. */
  lemma DriverKeysAreApart(f: Fields)
    ensures R.PrefixFree(Substitutions(f))
    ensures PlainValues(f) <==> R.WellFormed(Substitutions(f))
  {
    KeysAreUnrelated();
    assert |KEYS| == 7;
    hide KEYS, R.IsKey, R.Unrelated, Supplied;
    SuppliedKeys(KEYS, [f.sessionId, f.branch, f.mode, f.topic, f.artifactRef, f.prUrl, f.sender]);
    PlainIsWellFormed(Substitutions(f));
  }

  lemma PlainIsWellFormed(kvs: R.Subst)
    requires R.PrefixFree(kvs) && forall i | 0 <= i < |kvs| :: R.IsKey(kvs[i].0)
    ensures R.WellFormed(kvs) <==> forall kv | kv in kvs :: '$' !in kv.1
  {
    hide R.IsKey;
    forall i, j | 0 <= i < j < |kvs| ensures kvs[i].0 != kvs[j].0 {
      assert R.Unrelated(kvs[i].0, kvs[j].0);
    }
  }

  /** Every prompt of the driver: with plain values, rendering is one left-to-right pass
      over every template if and only if no value can join a key applied after its own. */
  lemma PromptsAreOnePassExactly(f: Fields)
    requires PlainValues(f)
    ensures var kvs := R.LongestFirst(Substitutions(f));
            (forall body :: R.ReplaceEach(body, kvs) == R.OnePass(body, kvs)) <==> R.NoJoins(kvs)
  {
    DriverKeysAreApart(f);
    R.LongestFirstKeepsApart(Substitutions(f));
    R.JoinsExactly(R.LongestFirst(Substitutions(f)));
  }

  /** Neither a capital letter nor an underscore: no key has such a character inside. */
  predicate NoKeyLetter(c: char) {
    !R.IsUpper(c) && c != '_'
  }

  lemma KeysAreLetters(i: nat, m: nat)
    requires i < |KEYS| && 1 <= m < |KEYS[i]|
    ensures !NoKeyLetter(KEYS[i][m])
  {
  }

  /** Values that are not empty and start with neither keep every prompt one pass. */
  lemma OrdinaryPromptsAreOnePass(f: Fields, body: string)
    requires PlainValues(f)
    requires forall kv | kv in Substitutions(f) :: kv.1 != "" && NoKeyLetter(kv.1[0])
    ensures var kvs := R.LongestFirst(Substitutions(f)); R.ReplaceEach(body, kvs) == R.OnePass(body, kvs)
  {
    hide KEYS, Supplied, R.ReplaceEach, R.OnePass, NoKeyLetter;
    var kvs := R.LongestFirst(Substitutions(f));
    DriverKeysAreApart(f);
    R.LongestFirstKeepsKeys(Substitutions(f));
    forall i, j | 0 <= i < j < |kvs| ensures !R.Joinable(kvs[j].0, kvs[i].1) {
      assert kvs[i] in Substitutions(f) && kvs[j] in Substitutions(f);
      var k := SuppliedKey(f, kvs[j]);
      NeverJoins(k, kvs[i].1);
    }
    R.ReplaceEachIsOnePass(body, kvs);
  }

  lemma SuppliedKey(f: Fields, kv: R.Pair) returns (k: nat)
    requires kv in Substitutions(f)
    ensures k < |KEYS| && KEYS[k] == kv.0
  {
    KeysAreUnrelated();
    assert |KEYS| == 7;
    hide KEYS, R.IsKey, R.Unrelated, Supplied;
    SuppliedKeys(KEYS, [f.sessionId, f.branch, f.mode, f.topic, f.artifactRef, f.prUrl, f.sender]);
    k :| 0 <= k < |KEYS| && KEYS[k] == kv.0;
  }

  lemma NeverJoins(k: nat, value: string)
    requires k < |KEYS| && value != "" && NoKeyLetter(value[0])
    ensures !R.Joinable(KEYS[k], value)
  {
    hide KEYS, NoKeyLetter;
    forall m | 1 <= m < |KEYS[k]| ensures !(KEYS[k][m..] <= value) && !(value <= KEYS[k][m..]) {
      KeysAreLetters(k, m);
      assert KEYS[k][m..][0] == KEYS[k][m];
    }
  }

  datatype Parts = Parts(body: string, fields: Fields, text: string)

  ghost predicate IsRendered(p: Parts) {
    p.text == R.ReplaceEach(p.body, R.LongestFirst(Substitutions(p.fields))) && R.NoneLive(p.text)
  }

  /** A completely rendered template: no placeholder is left in its text. */
  type Rendered = p: Parts | IsRendered(p) ghost witness Parts("", NO_FIELDS, EmptyRenders())

  /** An empty template renders to the empty prompt, whatever is supplied. */
  lemma EmptyIsRendered(f: Fields)
    ensures IsRendered(Parts("", f, ""))
  {
    var kvs := R.LongestFirst(Substitutions(f));
    R.LongestFirstSorts(Substitutions(f));
    forall l | 0 <= l < |kvs| ensures R.ReplaceAll("", kvs[l].0, kvs[l].1) == "" {
      assert kvs[l] in multiset(kvs);
      assert kvs[l] in Substitutions(f);
      var k := SuppliedKey(f, kvs[l]);
      KeysAreUnrelated();
    }
    R.SkipsKeys("", kvs, |kvs|);
  }

  ghost function EmptyRenders(): (text: string)
    ensures IsRendered(Parts("", NO_FIELDS, text))
  {
    NothingSupplied(KEYS, [None, None, None, None, None, None, None]);
    ""
  }

  /** What reaches a Claude worker: the bootstrap prompt as it is, or a rendered template. */
  datatype Prompt = Raw(text: string) | Template(rendered: Rendered)

  /** Read a worker template and render it; a missing template or a leftover
      placeholder refuses the prompt. */
  method Render(body: Option<string>, fields: Fields) returns (r: Option<Rendered>)
    ensures r.Some? ==> Some(r.value.body) == body && r.value.fields == fields
    ensures r.None? <==> body.None?
                         || !R.NoneLive(R.ReplaceEach(body.value, R.LongestFirst(Substitutions(fields))))
  {
    if body.None? {
      return None;
    }
    var text := R.RenderPromptBody(body.value, Substitutions(fields));
    return if text.Ok? then Some(Parts(body.value, fields, text.value)) else None;
  }
}
