/** The string operations of Rust's `str` that the mail code relies on, for text in
    which one `char` stands for one byte and case and white space are ASCII. */
module Ascii {
  predicate IsSpace(c: char) { c == ' ' || '\t' <= c <= '\r' }

  predicate IsLess(c: char) { c == '<' }

  predicate IsGreater(c: char) { c == '>' }

  predicate IsDot(c: char) { c == '.' }

  predicate IsQuote(c: char) { c == '"' }

  predicate IsEol(c: char) { c == '\r' || c == '\n' }

  predicate IsAlphanumeric(c: char) {
    '0' <= c <= '9' || 'a' <= c <= 'z' || 'A' <= c <= 'Z'
  }

  function Lower(c: char): (r: char)
    ensures !('A' <= r <= 'Z')
    ensures r == c || ('A' <= c <= 'Z' && 'a' <= r <= 'z')
  {
    if 'A' <= c <= 'Z' then c - 'A' + 'a' else c
  }

  function ToLower(s: string): (r: string)
    ensures |r| == |s| && forall i :: 0 <= i < |s| ==> r[i] == Lower(s[i])
  {
    seq(|s|, i requires 0 <= i < |s| => Lower(s[i]))
  }

  lemma ToLowerIdempotent(s: string)
    ensures ToLower(ToLower(s)) == ToLower(s)
  {
  }

  /** The word, which has no capitals, with each letter in either case. */
  predicate Spells(s: string, word: string) {
    && |s| == |word|
    && forall i :: 0 <= i < |s| ==>
         && !('A' <= word[i] <= 'Z')
         && (s[i] == word[i] || ('A' <= s[i] <= 'Z' && s[i] as int + 32 == word[i] as int))
  }

  lemma SpellsIsLower(s: string, word: string)
    ensures Spells(s, word) <==> ToLower(s) == word
  {
    assert ToLower(s) == word <==> |s| == |word| && forall i :: 0 <= i < |s| ==> Lower(s[i]) == word[i];
  }

  predicate EqIgnoreCase(a: string, b: string) { ToLower(a) == ToLower(b) }

  /** `trim_start_matches`. */
  function TrimStart(p: char -> bool, s: string): (r: string)
    ensures |r| <= |s| && r == s[|s| - |r|..]
    ensures forall i :: 0 <= i < |s| - |r| ==> p(s[i])
    ensures r != [] ==> !p(r[0])
  {
    if s == [] || !p(s[0]) then s else
    var r := TrimStart(p, s[1..]);
    assert s[1..][|s| - 1 - |r|..] == s[|s| - |r|..];
    assert forall i :: 0 < i < |s| - |r| ==> s[i] == s[1..][i - 1];
    r
  }

  /** `trim_end_matches`. */
  function TrimEnd(p: char -> bool, s: string): (r: string)
    ensures |r| <= |s| && r == s[..|r|]
    ensures forall i :: |r| <= i < |s| ==> p(s[i])
    ensures r != [] ==> !p(r[|r| - 1])
  {
    if s == [] || !p(s[|s| - 1]) then s else TrimEnd(p, s[..|s| - 1])
  }

  lemma {:induction false} TrimStartIs(p: char -> bool, a: string, b: string)
    requires (forall i :: 0 <= i < |a| ==> p(a[i])) && (b != "" ==> !p(b[0]))
    ensures TrimStart(p, a + b) == b
  {
    if a == "" {
      assert a + b == b;
    } else {
      assert (a + b)[1..] == a[1..] + b;
      TrimStartIs(p, a[1..], b);
    }
  }

  lemma {:induction false} TrimEndIs(p: char -> bool, a: string, b: string)
    requires (forall i :: 0 <= i < |b| ==> p(b[i])) && (a != "" ==> !p(a[|a| - 1]))
    ensures TrimEnd(p, a + b) == a
  {
    if b == "" {
      assert a + b == a;
    } else {
      assert (a + b)[..|a + b| - 1] == a + b[..|b| - 1];
      TrimEndIs(p, a, b[..|b| - 1]);
    }
  }

  /** How many leading spaces `Trim` removes. */
  function Indent(s: string): (n: nat)
    ensures n <= |s|
  {
    |s| - |TrimStart(IsSpace, s)|
  }

  function Trim(s: string): (r: string)
    ensures Trimmed(r)
    ensures Indent(s) + |r| <= |s| && r == s[Indent(s)..Indent(s) + |r|]
    ensures forall i :: 0 <= i < Indent(s) || Indent(s) + |r| <= i < |s| ==> IsSpace(s[i])
    ensures Trimmed(s) ==> r == s
  {
    TrimEnd(IsSpace, TrimStart(IsSpace, s))
  }

  /** Trimming is determined by what it leaves: trimmed text with only spaces around it. */
  lemma TrimIs(s: string, i: nat, j: nat)
    requires i <= j <= |s| && Trimmed(s[i..j])
    requires forall k :: 0 <= k < i || j <= k < |s| ==> IsSpace(s[k])
    ensures Trim(s) == s[i..j]
  {
    hide IsSpace, TrimStart, TrimEnd, Trim, Indent;
    var r, d := Trim(s), Indent(s);
    assert forall k :: 0 <= k < |r| ==> r[k] == s[d + k];
    assert forall k :: 0 <= k < j - i ==> s[i..j][k] == s[i + k];
    if i < j {
      assert !IsSpace(s[i]) && !IsSpace(s[j - 1]);
    }
  }

  predicate Trimmed(s: string) {
    s == [] || (!IsSpace(s[0]) && !IsSpace(s[|s| - 1]))
  }

  /** Index of the first occurrence of `c`, or `|s|`. */
  function Find(s: string, c: char): (i: nat)
    ensures i <= |s| && (i < |s| ==> s[i] == c)
    ensures c !in s[..i]
  {
    if s == [] || s[0] == c then 0 else
    var i := Find(s[1..], c) + 1;
    assert s[..i] == [s[0]] + s[1..][..i - 1];
    i
  }

  /** Index of the last occurrence of `c`, or `|s|`. */
  function FindLast(s: string, c: char): (i: nat)
    ensures i <= |s| && (i < |s| ==> s[i] == c && c !in s[i + 1..])
    ensures i == |s| ==> c !in s
  {
    if s == [] then 0 else
    var n := |s| - 1;
    if s[n] == c then n else
    var i := FindLast(s[..n], c);
    assert s == s[..n] + [s[n]];
    if i == n then n + 1 else
    assert s[i + 1..] == s[..n][i + 1..] + [s[n]];
    i
  }

  lemma {:induction false} FindIs(s: string, c: char, i: nat)
    requires i < |s| && s[i] == c && c !in s[..i]
    ensures Find(s, c) == i
  {
    if i > 0 {
      assert s[..i][0] == s[0];
      assert s[..i][1..] == s[1..][..i - 1];
      FindIs(s[1..], c, i - 1);
    }
  }

  lemma {:induction false} FindLastIs(s: string, c: char, i: nat)
    requires i < |s| && s[i] == c && c !in s[i + 1..]
    ensures FindLast(s, c) == i
  {
    var n := |s| - 1;
    if i < n {
      assert s[i + 1..][n - i - 1] == s[n];
      assert s[..n][i + 1..] == s[i + 1..][..n - i - 1];
      FindLastIs(s[..n], c, i);
    }
  }
}
