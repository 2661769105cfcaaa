/** The Python string operations the hook and the skill generator rely on. */
module PyText {
  import opened Std

  /** `str.isspace` for one character; also what `\s` matches. */
  predicate IsSpace(c: char) {
    var n := c as int;
    || 9 <= n <= 13 || 0x1C <= n <= 0x20 || n == 0x85 || n == 0xA0 || n == 0x1680
    || 0x2000 <= n <= 0x200A || n == 0x2028 || n == 0x2029 || n == 0x202F
    || n == 0x205F || n == 0x3000
  }

  /** A line boundary of `str.splitlines`. */
  predicate IsLineBreak(c: char) {
    var n := c as int;
    10 <= n <= 13 || 0x1C <= n <= 0x1E || n == 0x85 || n == 0x2028 || n == 0x2029
  }

  function Lstrip(s: string): (r: string)
    ensures |r| <= |s|
    ensures r != "" ==> !IsSpace(r[0])
  {
    if s != "" && IsSpace(s[0]) then Lstrip(s[1..]) else s
  }

  function Rstrip(s: string): (r: string)
    ensures r <= s
    ensures r != "" ==> !IsSpace(r[|r| - 1])
  {
    if s != "" && IsSpace(s[|s| - 1]) then Rstrip(s[..|s| - 1]) else s
  }

  function Strip(s: string): string {
    Rstrip(Lstrip(s))
  }

  predicate AllSpace(s: string) {
    forall i | 0 <= i < |s| :: IsSpace(s[i])
  }

  lemma {:induction false} RstripSpaces(s: string, spaces: string)
    requires AllSpace(spaces) && (s == "" || !IsSpace(Last(s)))
    ensures Rstrip(s + spaces) == s
  {
    if spaces == "" {
      assert s + spaces == s;
    } else {
      var t := s + spaces;
      assert t[..|t| - 1] == s + spaces[..|spaces| - 1];
      RstripSpaces(s, spaces[..|spaces| - 1]);
    }
  }

  lemma {:induction false} LstripSpaces(spaces: string, s: string)
    requires AllSpace(spaces) && (s == "" || !IsSpace(s[0]))
    ensures Lstrip(spaces + s) == s
  {
    if spaces == "" {
      assert spaces + s == s;
    } else {
      assert (spaces + s)[1..] == spaces[1..] + s;
      LstripSpaces(spaces[1..], s);
    }
  }

  /** Stripping takes the spaces at both ends, and only them. */
  lemma StripExactly(before: string, core: string, after: string)
    requires AllSpace(before) && AllSpace(after)
    requires core == "" || (!IsSpace(core[0]) && !IsSpace(Last(core)))
    ensures Strip(before + core + after) == core
  {
    if core == "" {
      var all := before + core + after;
      assert AllSpace(all);
      LstripSpaces(all, "");
      assert all + "" == all;
    } else {
      assert before + core + after == before + (core + after);
      LstripSpaces(before, core + after);
      RstripSpaces(core, after);
    }
  }

  /** The spaces and line breaks among the ASCII characters. */
  lemma AsciiSpaces(c: char)
    requires (c as int) < 128
    ensures IsSpace(c) <==> (c as int) in {9, 10, 11, 12, 13, 28, 29, 30, 31, 32}
    ensures IsLineBreak(c) <==> (c as int) in {10, 11, 12, 13, 28, 29, 30}
  {
  }

  predicate EndsWith(s: string, suffix: string) {
    |suffix| <= |s| && s[|s| - |suffix|..] == suffix
  }

  /** `s.split(c)` for a one-character separator: never empty. */
  function SplitOn(s: string, c: char): (r: seq<string>)
    ensures r != []
    decreases |s|
  {
    var n := IndexOf(s, c);
    if n == |s| then [s] else [s[..n]] + SplitOn(s[n + 1..], c)
  }

  function IndexOf(s: string, c: char): (n: nat)
    ensures n <= |s| && c !in s[..n] && (n < |s| ==> s[n] == c)
  {
    if s == "" || s[0] == c then 0 else 1 + IndexOf(s[1..], c)
  }

  lemma {:induction false} IndexAt(s: string, n: nat, c: char)
    requires n <= |s| && c !in s[..n] && (n < |s| ==> s[n] == c)
    ensures IndexOf(s, c) == n
  {
    if n > 0 {
      assert s[..n][0] == s[0];
      assert s[1..][..n - 1] == s[..n][1..];
      IndexAt(s[1..], n - 1, c);
    }
  }

  /** `s.split(c, 1)[0]`. */
  function Head(s: string, c: char): string {
    s[..IndexOf(s, c)]
  }

  lemma HeadIsFirst(s: string, c: char)
    ensures SplitOn(s, c)[0] == Head(s, c)
  {
  }

  function WordEnd(s: string): (n: nat)
    ensures n <= |s| && forall i | 0 <= i < n :: !IsSpace(s[i])
    ensures n < |s| ==> IsSpace(s[n])
  {
    if s == "" || IsSpace(s[0]) then 0 else 1 + WordEnd(s[1..])
  }

  /** `s.split()`: the maximal runs of non-space characters. */
  function Fields(s: string): seq<string>
    decreases |s|
  {
    var t := Lstrip(s);
    if t == "" then [] else [t[..WordEnd(t)]] + Fields(t[WordEnd(t)..])
  }

  function LineEnd(s: string): (n: nat)
    ensures n <= |s| && (n < |s| ==> IsLineBreak(s[n]))
  {
    if s == "" || IsLineBreak(s[0]) then 0 else 1 + LineEnd(s[1..])
  }

  /** `s.splitlines()`. */
  function SplitLines(s: string): seq<string>
    decreases |s|
  {
    if s == "" then []
    else
      var n := LineEnd(s);
      if n == |s| then [s]
      else
        var width := if s[n] == '\r' && n + 1 < |s| && s[n + 1] == '\n' then 2 else 1;
        [s[..n]] + SplitLines(s[n + width..])
  }

  lemma {:induction false} BlankHasNoFields(s: string)
    requires forall i | 0 <= i < |s| :: IsSpace(s[i])
    ensures Lstrip(s) == "" && Fields(s) == []
  {
    if s != "" {
      BlankHasNoFields(s[1..]);
    }
  }

  // Ordinary text: printable ASCII.

  /** A word of printable characters. */
  predicate IsWord(s: string) {
    s != "" && forall i | 0 <= i < |s| :: '!' <= s[i] <= '~'
  }

  lemma {:induction false} WordEndAt(s: string, n: nat)
    requires n <= |s| && (forall i | 0 <= i < n :: !IsSpace(s[i])) && (n < |s| ==> IsSpace(s[n]))
    ensures WordEnd(s) == n
  {
    if n > 0 {
      WordEndAt(s[1..], n - 1);
    }
  }

  lemma FirstField(word: string, rest: string)
    requires IsWord(word)
    ensures Fields(word + " " + rest) == [word] + Fields(" " + rest) && Fields(word) == [word]
  {
    var s := word + " " + rest;
    assert s[|word|] == ' ' && s[..|word|] == word && s[|word|..] == " " + rest;
    WordEndAt(s, |word|);
    WordEndAt(word, |word|);
    assert Lstrip(s) == s && Lstrip(word) == word && word[..|word|] == word && word[|word|..] == "";
  }

  lemma BlankInFront(rest: string)
    ensures Fields(" " + rest) == Fields(rest)
  {
    assert (" " + rest)[1..] == rest;
    assert Lstrip(" " + rest) == Lstrip(rest);
  }

  /** Four words with blanks between them are four fields. */
  lemma FourFields(a: string, b: string, c: string, d: string)
    requires IsWord(a) && IsWord(b) && IsWord(c) && IsWord(d)
    ensures Fields(a + " " + b + " " + c + " " + d) == [a, b, c, d]
  {
    hide Fields, IsWord;
    var cd := c + " " + d;
    var bcd := b + " " + cd;
    FirstField(d, "");
    FirstField(c, d);
    BlankInFront(d);
    FirstField(b, cd);
    BlankInFront(cd);
    FirstField(a, bcd);
    BlankInFront(bcd);
    assert a + " " + b + " " + c + " " + d == a + " " + bcd;
  }

  /** A line of printable characters and blanks ends at its newline. */
  lemma {:induction false} FirstLine(line: string, rest: string)
    requires forall i | 0 <= i < |line| :: ' ' <= line[i] <= '~'
    ensures SplitLines(line + "\n" + rest) == [line] + SplitLines(rest)
  {
    var s := line + "\n" + rest;
    LineEndAt(s, |line|);
    assert s[|line|] == '\n' && s[..|line|] == line && s[|line| + 1..] == rest;
  }

  /** The two characters of a DOS line end are one line end. */
  lemma FirstDosLine(line: string, rest: string)
    requires forall i | 0 <= i < |line| :: ' ' <= line[i] <= '~'
    ensures SplitLines(line + "\r\n" + rest) == [line] + SplitLines(rest)
  {
    var s := line + "\r\n" + rest;
    LineEndAt(s, |line|);
    assert s[|line|] == '\r' && s[|line| + 1] == '\n' && s[..|line|] == line && s[|line| + 2..] == rest;
  }

  lemma {:induction false} LineEndAt(s: string, n: nat)
    requires n < |s| && IsLineBreak(s[n]) && forall i | 0 <= i < n :: ' ' <= s[i] <= '~'
    ensures LineEnd(s) == n
  {
    if n > 0 {
      LineEndAt(s[1..], n - 1);
    }
  }
}
