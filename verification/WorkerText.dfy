/** The failure signatures the driver reads out of worker text. */
module WorkerText {
  import opened Std

  function Lower(c: char): char {
    if 'A' <= c <= 'Z' then ((c as int) + 32) as char else c
  }

  function ToLower(s: string): string {
    if s == "" then "" else [Lower(s[0])] + ToLower(s[1..])
  }

  const SESSION_LIMIT_SIGNATURES: seq<string> := [
    "claude usage limit reached",
    "usage limit reached. resets at",
    "you've hit your session limit",
    "\"type\":\"rate_limit_error\"",
    "\"type\": \"rate_limit_error\""
  ]

  predicate IsSessionLimitError(message: string) {
    exists i | 0 <= i < |SESSION_LIMIT_SIGNATURES| ::
      Contains(ToLower(message), SESSION_LIMIT_SIGNATURES[i])
  }

  // What the test accepts.

  /** The same character, or the two cases of one ASCII letter. */
  predicate SameLetter(a: char, b: char) {
    || a == b
    || ('A' <= a <= 'Z' && (b as int) == (a as int) + 32)
    || ('A' <= b <= 'Z' && (a as int) == (b as int) + 32)
  }

  /** `part` is spelled at position `i`, in any case. */
  ghost predicate SpelledAt(text: string, i: int, part: string) {
    0 <= i <= |text| - |part| && forall k | 0 <= k < |part| :: SameLetter(text[i + k], part[k])
  }

  ghost predicate Spelled(text: string, part: string) {
    exists i :: SpelledAt(text, i, part)
  }

  /** One of the five signatures stands somewhere in the text, in any case. */
  ghost predicate BearsSignature(text: string) {
    || Spelled(text, "claude usage limit reached")
    || Spelled(text, "usage limit reached. resets at")
    || Spelled(text, "you've hit your session limit")
    || Spelled(text, "\"type\":\"rate_limit_error\"")
    || Spelled(text, "\"type\": \"rate_limit_error\"")
  }

  predicate NoCapital(s: string) {
    forall k | 0 <= k < |s| :: !('A' <= s[k] <= 'Z')
  }

  lemma {:induction false} ToLowerAt(s: string)
    ensures |ToLower(s)| == |s| && forall k | 0 <= k < |s| :: ToLower(s)[k] == Lower(s[k])
  {
    if s != "" {
      ToLowerAt(s[1..]);
    }
  }

  lemma {:induction false} ContainedIsSpelled(text: string, part: string)
    requires NoCapital(part)
    ensures Contains(ToLower(text), part) <==> Spelled(text, part)
  {
    var lower := ToLower(text);
    ToLowerAt(text);
    hide ToLower;
    forall i | 0 <= i <= |lower| ensures part <= lower[i..] <==> SpelledAt(text, i, part) {
      if SpelledAt(text, i, part) {
        assert forall k | 0 <= k < |part| :: lower[i..][k] == Lower(text[i + k]) == part[k];
        assert part == lower[i..][..|part|];
      }
      if part <= lower[i..] {
        assert forall k | 0 <= k < |part| :: part[k] == lower[i..][k] == lower[i + k];
        assert SpelledAt(text, i, part);
      }
    }
  }

  lemma PhrasesAreLower()
    ensures NoCapital("claude usage limit reached") && NoCapital("usage limit reached. resets at")
    ensures NoCapital("you've hit your session limit")
  {
  }

  lemma TypesAreLower()
    ensures NoCapital("\"type\":\"rate_limit_error\"") && NoCapital("\"type\": \"rate_limit_error\"")
  {
  }

  /** A message is a session limit exactly if it bears one of the signatures, written
      in any mixture of cases. */
  lemma SessionLimitExactly(message: string)
    ensures IsSessionLimitError(message) <==> BearsSignature(message)
  {
    PhrasesAreLower();
    TypesAreLower();
    hide NoCapital, Contains, ToLower, Spelled;
    var s, lower := SESSION_LIMIT_SIGNATURES, ToLower(message);
    ContainedIsSpelled(message, s[0]);
    ContainedIsSpelled(message, s[1]);
    ContainedIsSpelled(message, s[2]);
    ContainedIsSpelled(message, s[3]);
    ContainedIsSpelled(message, s[4]);
    assert IsSessionLimitError(message)
      <==> Contains(lower, s[0]) || Contains(lower, s[1]) || Contains(lower, s[2])
           || Contains(lower, s[3]) || Contains(lower, s[4]);
  }

  /** The case of a message's letters does not matter. */
  lemma CaseDoesNotMatter(a: string, b: string)
    requires |a| == |b| && forall k | 0 <= k < |a| :: SameLetter(a[k], b[k])
    ensures IsSessionLimitError(a) <==> IsSessionLimitError(b)
  {
    ToLowerAt(a);
    ToLowerAt(b);
    assert ToLower(a) == ToLower(b);
  }

  // The words in front of a worker's text neither bear a signature nor begin one.

  const FIRST_WORDS := "claude worker terminal result "
  const LAST_WORDS := "had is_error=true — stdout tail: "

  const TAIL := FIRST_WORDS + LAST_WORDS

  /** Neither of the two letters, an apostrophe or a quotation mark. */
  predicate Harmless(s: string) {
    forall i | 0 <= i < |s| :: s[i] !in {'g', 'G', '\'', '"'}
  }

  lemma FirstWords()
    ensures Harmless(FIRST_WORDS)
  {
  }

  lemma LastWords()
    ensures Harmless(LAST_WORDS)
    ensures |LAST_WORDS| > 2 && LAST_WORDS[|LAST_WORDS| - 1] == ' ' && LAST_WORDS[|LAST_WORDS| - 2] == ':'
  {
  }

  lemma TailCharacters()
    ensures Harmless(TAIL)
    ensures |TAIL| > 2 && TAIL[|TAIL| - 1] == ' ' && TAIL[|TAIL| - 2] == ':'
  {
    FirstWords();
    LastWords();
    hide FIRST_WORDS, LAST_WORDS;
  }

  /** What a phrase that starts inside the first text and ends behind it says at the seam. */
  lemma AtSeam(front: string, text: string, i: nat, part: string)
    requires SpelledAt(front + text, i, part) && i < |front| <= i + |part|
    ensures var m := |front| - i;
            && SameLetter(front[|front| - 1], part[m - 1])
            && (m >= 2 ==> SameLetter(front[|front| - 2], part[m - 2]))
  {
    var all, m := front + text, |front| - i;
    assert all[i + (m - 1)] == front[|front| - 1];
    if m >= 2 {
      assert all[i + (m - 2)] == front[|front| - 2];
    }
  }

  /** A phrase with a character that the words in front lack, and none of whose
      beginnings before that character they end in. */
  lemma SpelledBehind(text: string, part: string, mark: nat)
    requires mark < |part| && forall i | 0 <= i < |TAIL| :: !SameLetter(TAIL[i], part[mark])
    requires forall m | 0 <= m < mark && SameLetter(' ', part[m]) :: m >= 1 && !SameLetter(':', part[m - 1])
    ensures Spelled(TAIL + text, part) <==> Spelled(text, part)
  {
    TailCharacters();
    hide TAIL, Harmless;
    var all, n := TAIL + text, |TAIL|;
    forall i | SpelledAt(all, i, part) ensures i >= n && SpelledAt(text, i - n, part) {
      assert SameLetter(all[i + mark], part[mark]);
      if i < n {
        AtSeam(TAIL, text, i, part);
      }
    }
    forall i | SpelledAt(text, i, part) ensures SpelledAt(all, i + n, part) {
    }
  }

  lemma ClaudeBehind(text: string)
    ensures Spelled(TAIL + text, "claude usage limit reached") <==> Spelled(text, "claude usage limit reached")
  {
    TailCharacters();
    hide TAIL, Spelled;
    SpelledBehind(text, "claude usage limit reached", 10);
  }

  lemma UsageBehind(text: string)
    ensures Spelled(TAIL + text, "usage limit reached. resets at") <==> Spelled(text, "usage limit reached. resets at")
  {
    TailCharacters();
    hide TAIL, Spelled;
    SpelledBehind(text, "usage limit reached. resets at", 3);
  }

  lemma SessionBehind(text: string)
    ensures Spelled(TAIL + text, "you've hit your session limit") <==> Spelled(text, "you've hit your session limit")
  {
    TailCharacters();
    hide TAIL, Spelled;
    SpelledBehind(text, "you've hit your session limit", 3);
  }

  lemma TypesBehind(text: string)
    ensures Spelled(TAIL + text, "\"type\":\"rate_limit_error\"") <==> Spelled(text, "\"type\":\"rate_limit_error\"")
    ensures Spelled(TAIL + text, "\"type\": \"rate_limit_error\"") <==> Spelled(text, "\"type\": \"rate_limit_error\"")
  {
    TailCharacters();
    hide TAIL, Spelled;
    SpelledBehind(text, "\"type\":\"rate_limit_error\"", 0);
    SpelledBehind(text, "\"type\": \"rate_limit_error\"", 0);
  }

  /** So a signature in an error report is one in the worker's own text. */
  lemma TailBearsNothing(text: string)
    ensures BearsSignature(TAIL + text) <==> BearsSignature(text)
  {
    hide TAIL, Spelled;
    ClaudeBehind(text);
    UsageBehind(text);
    SessionBehind(text);
    TypesBehind(text);
  }

  lemma SpelledInFront(start: string, part: string, rest: string)
    requires |start| == |part| && forall k | 0 <= k < |part| :: SameLetter(start[k], part[k])
    ensures Spelled(start + rest, part)
  {
    assert SpelledAt(start + rest, 0, part);
  }

  lemma LettersAgree()
    ensures var a, b := "Claude usage limit reached", "claude usage limit reached";
            |a| == |b| && forall k | 0 <= k < |b| :: SameLetter(a[k], b[k])
  {
  }

  /** A capital letter, as the command line tool writes it, is no obstacle. */
  lemma CapitalizedExample()
    ensures BearsSignature("Claude usage limit reached. Resets at 9pm.")
  {
    assert "Claude usage limit reached. Resets at 9pm." == "Claude usage limit reached" + ". Resets at 9pm.";
    hide Spelled;
    LettersAgree();
    SpelledInFront("Claude usage limit reached", "claude usage limit reached", ". Resets at 9pm.");
  }
}
