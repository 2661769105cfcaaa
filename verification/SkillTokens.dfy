/** Token substitution in skill texts: a left-to-right scan for `{{TOKEN}}`. */
module SkillTokens {
  import opened Std

  predicate IsTokenChar(c: char) {
    'A' <= c <= 'Z' || '0' <= c <= '9' || c == '_'
  }

  predicate IsToken(t: string) {
    t != "" && forall i | 0 <= i < |t| :: 'A' <= t[i] <= 'Z' || '0' <= t[i] <= '9' || t[i] == '_'
  }

  /** `{{t}}` stands at position `i`. */
  predicate OccursAt(s: string, i: int, t: string) {
    && IsToken(t) && 0 <= i && i + |t| + 4 <= |s|
    && s[i] == '{' && s[i + 1] == '{'
    && s[i + 2..i + 2 + |t|] == t
    && s[i + 2 + |t|] == '}' && s[i + 3 + |t|] == '}'
  }

  /** Every token anywhere in the text is one of `tokens`. */
  ghost predicate Declared(s: string, tokens: set<string>) {
    forall i, t | OccursAt(s, i, t) :: t in tokens
  }

  function RunLength(s: string): (n: nat)
    ensures n <= |s| && (forall i | 0 <= i < n :: IsTokenChar(s[i]))
    ensures n < |s| ==> !IsTokenChar(s[n])
  {
    if s == "" || !IsTokenChar(s[0]) then 0 else 1 + RunLength(s[1..])
  }

  /** The token the text begins with. */
  function TokenAtStart(s: string): (r: Option<string>)
    ensures r.Some? ==> OccursAt(s, 0, r.value)
  {
    if |s| < 2 || s[0] != '{' || s[1] != '{' then None
    else
      var n := RunLength(s[2..]);
      if n == 0 || |s| < n + 4 || s[n + 2] != '}' || s[n + 3] != '}' then None
      else Some(s[2..n + 2])
  }

  lemma InsideIsToken(s: string, i: int, t: string)
    requires OccursAt(s, i, t)
    ensures forall k | i + 2 <= k < i + 2 + |t| :: IsTokenChar(s[k])
  {
    forall k | i + 2 <= k < i + 2 + |t| ensures IsTokenChar(s[k]) {
      assert s[i + 2..i + 2 + |t|][k - i - 2] == s[k];
    }
  }

  lemma TokenAtStartIsOnly(s: string, t: string)
    requires OccursAt(s, 0, t)
    ensures TokenAtStart(s) == Some(t)
  {
    var n := RunLength(s[2..]);
    InsideIsToken(s, 0, t);
    assert s[2..][|t|] == s[|t| + 2];
    assert n < |s| - 2 ==> s[2..][n] == s[n + 2];
  }

  /** `sub`: replace every token by its value; the error is the first unknown one. */
  function Substitute(s: string, table: map<string, string>): Result<string, string>
    decreases |s|
  {
    if s == "" then Ok("")
    else match TokenAtStart(s)
      case Some(t) =>
        if t !in table then Err(t)
        else Prepend(table[t], Substitute(s[|t| + 4..], table))
      case None => Prepend([s[0]], Substitute(s[1..], table))
  }

  function Prepend(text: string, r: Result<string, string>): Result<string, string> {
    match r
    case Ok(rest) => Ok(text + rest)
    case Err(e) => Err(e)
  }

  /** Occurrences never overlap, so one that is not first comes after the first. */
  lemma OccurrencesAreApart(s: string, t: string, i: int, u: string)
    requires OccursAt(s, 0, t) && OccursAt(s, i, u) && i > 0
    ensures i >= |t| + 4
  {
    InsideIsToken(s, 0, t);
  }

  lemma OccursAfter(s: string, n: nat, i: int, t: string)
    requires n <= |s| && i >= n
    ensures OccursAt(s, i, t) <==> OccursAt(s[n..], i - n, t)
  {
    if i + |t| + 4 <= |s| {
      assert s[n..][i - n + 2..i - n + 2 + |t|] == s[i + 2..i + 2 + |t|];
    }
  }

  lemma DeclaredAfterToken(s: string, t: string, tokens: set<string>)
    requires OccursAt(s, 0, t)
    ensures Declared(s, tokens) <==> t in tokens && Declared(s[|t| + 4..], tokens)
  {
    var n := |t| + 4;
    forall i, u | OccursAt(s, i, u) ensures i == 0 ==> u == t ensures i > 0 ==> i >= n && OccursAt(s[n..], i - n, u) {
      if i == 0 {
        TokenAtStartIsOnly(s, t);
        TokenAtStartIsOnly(s, u);
      } else {
        OccurrencesAreApart(s, t, i, u);
        OccursAfter(s, n, i, u);
      }
    }
    forall i, u | OccursAt(s[n..], i, u) ensures OccursAt(s, i + n, u) {
      OccursAfter(s, n, i + n, u);
    }
  }

  lemma DeclaredAfterChar(s: string, tokens: set<string>)
    requires s != "" && TokenAtStart(s).None?
    ensures Declared(s, tokens) <==> Declared(s[1..], tokens)
  {
    forall i, u | OccursAt(s, i, u) ensures i > 0 && OccursAt(s[1..], i - 1, u) {
      if i == 0 {
        TokenAtStartIsOnly(s, u);
      }
      OccursAfter(s, 1, i, u);
    }
    forall i, u | OccursAt(s[1..], i, u) ensures OccursAt(s, i + 1, u) {
      OccursAfter(s, 1, i + 1, u);
    }
  }

  /** The scan misses no token: it succeeds exactly when every token anywhere in the
      text is declared. */
  lemma {:induction false} SubstitutesExactly(s: string, table: map<string, string>)
    ensures Substitute(s, table).Ok? <==> Declared(s, table.Keys)
    ensures Substitute(s, table).Err? ==>
              Substitute(s, table).error !in table && exists i :: OccursAt(s, i, Substitute(s, table).error)
    decreases |s|
  {
    if s != "" {
      match TokenAtStart(s) {
        case Some(t) =>
          DeclaredAfterToken(s, t, table.Keys);
          if t in table {
            var n := |t| + 4;
            SubstitutesExactly(s[n..], table);
            FoundLater(s, n, Substitute(s[n..], table));
          }
        case None =>
          DeclaredAfterChar(s, table.Keys);
          SubstitutesExactly(s[1..], table);
          FoundLater(s, 1, Substitute(s[1..], table));
      }
    }
  }

  lemma FoundLater(s: string, n: nat, r: Result<string, string>)
    requires n <= |s| && (r.Err? ==> exists i :: OccursAt(s[n..], i, r.error))
    ensures r.Err? ==> exists i :: OccursAt(s, i, r.error)
  {
    if r.Err? {
      var i :| OccursAt(s[n..], i, r.error);
      OccursAfter(s, n, i + n, r.error);
    }
  }

  /** Text without a token comes back as it is. */
  lemma {:induction false} NoTokenNoChange(s: string, table: map<string, string>)
    requires Declared(s, {})
    ensures Substitute(s, table) == Ok(s)
  {
    if s != "" {
      assert TokenAtStart(s).None?;
      DeclaredAfterChar(s, {});
      NoTokenNoChange(s[1..], table);
      assert [s[0]] + s[1..] == s;
    }
  }

  lemma OccursBefore(s: string, n: nat, i: int, t: string)
    requires n <= |s| && i + |t| + 4 <= n
    ensures OccursAt(s, i, t) <==> OccursAt(s[..n], i, t)
  {
    if 0 <= i {
      assert s[..n][i + 2..i + 2 + |t|] == s[i + 2..i + 2 + |t|];
    }
  }

  /** What the scan consumes first, and puts in its place. */
  function Width(s: string): (n: nat)
    requires s != ""
    ensures 0 < n <= |s|
  {
    match TokenAtStart(s)
    case Some(t) => |t| + 4
    case None => 1
  }

  function Piece(s: string, table: map<string, string>): string
    requires s != "" && (TokenAtStart(s).Some? ==> TokenAtStart(s).value in table)
  {
    match TokenAtStart(s)
    case Some(t) => table[t]
    case None => [s[0]]
  }

  /** Text cut before a later token begins with what it began with. */
  lemma SameStart(s: string, i: nat, t: string)
    requires i > 0 && OccursAt(s, i, t)
    ensures TokenAtStart(s[..i]) == TokenAtStart(s) && Width(s) <= i
  {
    if TokenAtStart(s).Some? {
      var u := TokenAtStart(s).value;
      OccurrencesAreApart(s, u, i, t);
      OccursBefore(s, i, 0, u);
      TokenAtStartIsOnly(s[..i], u);
    } else if TokenAtStart(s[..i]).Some? {
      var u := TokenAtStart(s[..i]).value;
      OccursBefore(s, i, 0, u);
      TokenAtStartIsOnly(s, u);
    }
  }

  lemma ScanOnce(s: string, table: map<string, string>)
    requires s != "" && Declared(s, table.Keys)
    ensures TokenAtStart(s).Some? ==> TokenAtStart(s).value in table
    ensures Declared(s[Width(s)..], table.Keys)
    ensures Substitute(s, table) == Prepend(Piece(s, table), Substitute(s[Width(s)..], table))
  {
    if TokenAtStart(s).Some? {
      DeclaredAfterToken(s, TokenAtStart(s).value, table.Keys);
    } else {
      DeclaredAfterChar(s, table.Keys);
    }
  }

  lemma DeclaredPrefix(s: string, i: nat, tokens: set<string>)
    requires i <= |s| && Declared(s, tokens)
    ensures Declared(s[..i], tokens)
  {
    forall k, t | OccursAt(s[..i], k, t) ensures t in tokens {
      OccursBefore(s, i, k, t);
    }
  }

  lemma DeclaredSuffix(s: string, n: nat, tokens: set<string>)
    requires n <= |s| && Declared(s, tokens)
    ensures Declared(s[n..], tokens)
  {
    forall k, t | OccursAt(s[n..], k, t) ensures t in tokens {
      OccursAfter(s, n, k + n, t);
    }
  }

  /** Text in front of a token is scanned by itself. */
  lemma {:induction false} SplitsBefore(a: string, rest: string, t: string, table: map<string, string>)
    requires OccursAt(rest, 0, t) && Declared(a + rest, table.Keys)
    ensures Substitute(a, table).Ok? && Substitute(rest, table).Ok?
    ensures Substitute(a + rest, table) == Ok(Substitute(a, table).value + Substitute(rest, table).value)
    decreases |a|
  {
    hide OccursAt, Declared, TokenAtStart, Substitute, Width, Piece, Prepend;
    if a == "" {
      assert a + rest == rest;
      SubstitutesExactly(rest, table);
      NothingToSubstitute(rest, table);
    } else {
      var s := a + rest;
      PartsOf(a, rest, t, table.Keys);
      ScanOnce(s, table);
      ScanOnce(a, table);
      SamePiece(a, rest, table);
      var n := Width(a);
      assert s[n..] == a[n..] + rest;
      SplitsBefore(a[n..], rest, t, table);
      Glue(Piece(a, table), Substitute(a[n..], table).value, Substitute(rest, table).value);
    }
  }

  lemma PartsOf(a: string, rest: string, t: string, tokens: set<string>)
    requires a != "" && OccursAt(rest, 0, t) && Declared(a + rest, tokens)
    ensures TokenAtStart(a) == TokenAtStart(a + rest) && Width(a + rest) <= |a| && Declared(a, tokens)
  {
    hide Declared, TokenAtStart, Width;
    var s := a + rest;
    assert s[..|a|] == a && s[|a|..] == rest;
    OccursAfter(s, |a|, |a|, t);
    SameStart(s, |a|, t);
    DeclaredPrefix(s, |a|, tokens);
  }

  lemma SamePiece(a: string, rest: string, table: map<string, string>)
    requires a != "" && TokenAtStart(a) == TokenAtStart(a + rest)
    requires TokenAtStart(a).Some? ==> TokenAtStart(a).value in table
    ensures Piece(a, table) == Piece(a + rest, table) && Width(a) == Width(a + rest)
  {
    hide TokenAtStart;
  }

  lemma NothingToSubstitute(rest: string, table: map<string, string>)
    requires Substitute(rest, table).Ok?
    ensures Substitute("", table) == Ok("") && "" + Substitute(rest, table).value == Substitute(rest, table).value
  {
  }

  lemma Glue(first: string, before: string, after: string)
    ensures Prepend(first, Ok(before)) == Ok(first + before)
    ensures Prepend(first, Ok(before + after)) == Ok((first + before) + after)
  {
    assert first + (before + after) == (first + before) + after;
  }

  lemma FirstToken(s: string, t: string, table: map<string, string>)
    requires OccursAt(s, 0, t) && Declared(s, table.Keys)
    ensures Substitute(s[|t| + 4..], table).Ok?
    ensures Substitute(s, table) == Ok(table[t] + Substitute(s[|t| + 4..], table).value)
  {
    hide Declared, OccursAt;
    TokenAtStartIsOnly(s, t);
    ScanOnce(s, table);
    SubstitutesExactly(s[|t| + 4..], table);
  }

  /** Each token is replaced where it stands, by its own value, once: the text splits
      at any of its tokens, and values are never scanned again. */
  lemma SplitsAtToken(s: string, i: nat, t: string, table: map<string, string>)
    requires OccursAt(s, i, t) && Declared(s, table.Keys)
    ensures Substitute(s[..i], table).Ok? && Substitute(s[i + |t| + 4..], table).Ok?
    ensures Substitute(s, table)
            == Ok(Substitute(s[..i], table).value + table[t] + Substitute(s[i + |t| + 4..], table).value)
  {
    assert t in table;
    var before, rest := s[..i], s[i..];
    assert s == before + rest && rest[|t| + 4..] == s[i + |t| + 4..];
    OccursAfter(s, i, i, t);
    hide Declared, OccursAt, Substitute;
    SplitsBefore(before, rest, t, table);
    DeclaredSuffix(s, i, table.Keys);
    FirstToken(rest, t, table);
    Reassociate(Substitute(before, table).value, table[t], Substitute(s[i + |t| + 4..], table).value);
  }

  lemma Reassociate(a: string, b: string, c: string)
    ensures a + (b + c) == a + b + c
  {
  }

  /** No token crosses a line. */
  lemma DeclaredByLine(a: string, b: string, tokens: set<string>)
    ensures Declared(a + "\n" + b, tokens) <==> Declared(a, tokens) && Declared(b, tokens)
  {
    var s, n := a + "\n" + b, |a|;
    assert s[..n] == a && s[n + 1..] == b;
    forall i, t | OccursAt(s, i, t) ensures OccursAt(a, i, t) || OccursAt(b, i - n - 1, t) {
      if i + |t| + 4 <= n {
        OccursBefore(s, n, i, t);
      } else if i > n {
        OccursAfter(s, n + 1, i, t);
      } else {
        NotInside(s, i, t, n);
      }
    }
    forall i, t | OccursAt(a, i, t) ensures OccursAt(s, i, t) {
      OccursBefore(s, n, i, t);
    }
    forall i, t | OccursAt(b, i, t) ensures OccursAt(s, i + n + 1, t) {
      OccursAfter(s, n + 1, i + n + 1, t);
    }
  }

  lemma NotInside(s: string, i: int, t: string, n: int)
    requires OccursAt(s, i, t) && i <= n < i + |t| + 4
    ensures s[n] != '\n'
  {
    InsideIsToken(s, i, t);
  }
}
