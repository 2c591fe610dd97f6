/** Splitting a raw message (src/smtp/rewrite.rs:24-40) and its line-by-line reading. */
module Messages {
  import opened Basics
  import opened HeaderFields

  const BLANK: string := "\r\n\r\n"

  predicate OccursAt(s: string, needle: string, i: nat) {
    i + |needle| <= |s| && s[i..i + |needle|] == needle
  }

  /** The first window equal to `needle`. */
  function FindSubsequence(s: string, needle: string): (r: Option<nat>)
    requires needle != ""
    ensures r.Some? ==> OccursAt(s, needle, r.value)
    ensures forall i :: OccursAt(s, needle, i) ==> r.Some? && r.value <= i
  {
    if |s| < |needle| then None
    else if OccursAt(s, needle, 0) then Some(0)
    else
      assert forall i :: i > 0 ==> (OccursAt(s, needle, i) <==> OccursAt(s[1..], needle, i - 1)) by {
        forall i | i > 0 ensures OccursAt(s, needle, i) <==> OccursAt(s[1..], needle, i - 1) {
          if i + |needle| <= |s| {
            assert s[1..][i - 1..i - 1 + |needle|] == s[i..i + |needle|];
          }
        }
      }
      match FindSubsequence(s[1..], needle)
      case None => None
      case Some(k) => Some(k + 1)
  }

  /** Header block and body around the first empty line after the first line. */
  function SplitHeadersBody(raw: string): (string, string) {
    match FindSubsequence(raw, BLANK)
    case Some(i) => (raw[..i + 2], raw[i + 4..])
    case None =>
      match FindSubsequence(raw, "\n\n")
      case Some(i) => (raw[..i + 1], raw[i + 2..])
      case None => (raw, "")
  }

  /** The pair of line ends stands in the text nowhere before `n`. */
  predicate NotBefore(s: string, pair: string, n: nat)
    requires n <= |s|
  {
    forall i :: 0 <= i < n ==> !(pair <= s[i..])
  }

  /** The first pair of CRLFs divides header block and body; without one the first pair of bare
      line feeds does; without either there is no body. */
  lemma SplitExactly(head: string, body: string)
    ensures var raw := head + "\r\n\r\n" + body;
            NotBefore(raw, "\r\n\r\n", |head|) ==> SplitHeadersBody(raw) == (head + "\r\n", body)
    ensures var raw := head + "\n\n" + body;
            NotBefore(raw, "\r\n\r\n", |raw|) && NotBefore(raw, "\n\n", |head|) ==>
              SplitHeadersBody(raw) == (head + "\n", body)
    ensures NotBefore(head, "\r\n\r\n", |head|) && NotBefore(head, "\n\n", |head|) ==>
              SplitHeadersBody(head) == (head, "")
  {
    hide FindSubsequence;
    FoundThere(head, "\r\n\r\n", body);
    FoundThere(head, "\n\n", body);
    NotFound(head + "\n\n" + body, "\r\n\r\n");
    NotFound(head, "\r\n\r\n");
    NotFound(head, "\n\n");
    var crlf, lf := head + "\r\n\r\n" + body, head + "\n\n" + body;
    assert crlf[..|head| + 2] == head + "\r\n" && crlf[|head| + 4..] == body;
    assert lf[..|head| + 1] == head + "\n" && lf[|head| + 2..] == body;
  }

  lemma FoundThere(head: string, pair: string, body: string)
    requires pair != ""
    ensures var s := head + pair + body;
            NotBefore(s, pair, |head|) ==> FindSubsequence(s, pair) == Some(|head|)
  {
    hide FindSubsequence;
    var s := head + pair + body;
    assert s[|head|..|head| + |pair|] == pair;
    assert OccursAt(s, pair, |head|);
    forall i | 0 <= i < |s| {
      OccursExactly(s, pair, i);
    }
  }

  lemma OccursExactly(s: string, pair: string, i: nat)
    requires i <= |s|
    ensures OccursAt(s, pair, i) <==> pair <= s[i..]
  {
    if pair <= s[i..] {
      assert s[i..][..|pair|] == s[i..i + |pair|];
    }
    if OccursAt(s, pair, i) {
      assert s[i..][..|pair|] == s[i..i + |pair|];
    }
  }

  lemma NotFound(s: string, pair: string)
    requires pair != ""
    ensures NotBefore(s, pair, |s|) ==> FindSubsequence(s, pair) == None
  {
    hide FindSubsequence;
    forall i | 0 <= i < |s| {
      OccursExactly(s, pair, i);
    }
  }

  // ---- CRLF-terminated messages, line by line ----

  predicate EndsCrlf(l: string) { |l| >= 2 && l[|l| - 2] == '\r' && l[|l| - 1] == '\n' }

  predicate CrlfLines(ls: seq<string>) {
    forall i :: 0 <= i < |ls| ==> IsLine(ls[i]) && EndsCrlf(ls[i])
  }

  /** What the DATA reader produces: every line, the last included, ends in CRLF. */
  predicate Normal(raw: string) { CrlfLines(Lines(raw)) }

  lemma CrlfLinesAreLines(ls: seq<string>)
    requires CrlfLines(ls)
    ensures LineList(ls) && AllEnded(ls)
  {
  }

  lemma LinesOfCrlf(ls: seq<string>)
    requires CrlfLines(ls)
    ensures Lines(Join(ls)) == ls && Normal(Join(ls))
  {
    LinesOfJoin(ls);
  }

  predicate StartsBlank(raw: string) { CRLF <= raw }

  /** Index of the first empty line that is not the first line, or `|ls|`. */
  function BlankAt(ls: seq<string>): (k: nat)
    ensures k <= |ls| && (ls != [] ==> k > 0)
    ensures k < |ls| ==> ls[k] == CRLF
    ensures forall i :: 0 < i < k ==> ls[i] != CRLF
  {
    if |ls| <= 1 then |ls|
    else if ls[1] == CRLF then 1
    else 1 + BlankAt(ls[1..])
  }

  lemma BlankAtIs(ls: seq<string>, k: nat)
    requires 0 < k < |ls| && ls[k] == CRLF
    requires forall i :: 0 < i < k ==> ls[i] != CRLF
    ensures BlankAt(ls) == k
  {
  }

  lemma BlankOccurs(s: string, i: nat)
    ensures OccursAt(s, BLANK, i)
            <==> i + 4 <= |s| && s[i] == '\r' && s[i + 1] == '\n' && s[i + 2] == '\r' && s[i + 3] == '\n'
  {
    if i + 4 <= |s| {
      assert s[i..i + 4] == [s[i], s[i + 1], s[i + 2], s[i + 3]];
    }
  }

  /** Where an empty line can begin in text whose first line is `l`. */
  lemma OccursAfterLine(l: string, rest: string, i: nat)
    requires IsLine(l) && EndsCrlf(l)
    ensures OccursAt(l + rest, BLANK, i)
            <==> (i == |l| - 2 && CRLF <= rest) || (i >= |l| && OccursAt(rest, BLANK, i - |l|))
  {
    hide OccursAt;
    BlankOccurs(l + rest, i);
    if i >= |l| {
      BlankOccurs(rest, i - |l|);
    }
  }

  lemma NormalFirstLine(ls: seq<string>)
    requires CrlfLines(ls) && ls != []
    ensures StartsBlank(Join(ls)) <==> ls[0] == CRLF
    ensures IsContinuation(Join(ls)) <==> IsContinuation(ls[0])
  {
    assert Join(ls)[0] == ls[0][0] && Join(ls)[1] == ls[0][1];
  }

  lemma FindAfterLine(l: string, rest: string)
    requires IsLine(l) && EndsCrlf(l)
    ensures FindSubsequence(l + rest, BLANK)
            == if CRLF <= rest then Some(|l| - 2)
               else match FindSubsequence(rest, BLANK) case None => None case Some(k) => Some(|l| + k)
  {
    hide OccursAt;
    var s, r := l + rest, FindSubsequence(rest, BLANK);
    forall i: nat {
      OccursAfterLine(l, rest, i);
    }
    if CRLF <= rest {
      assert OccursAt(s, BLANK, |l| - 2);
    } else if r.Some? {
      assert OccursAt(s, BLANK, |l| + r.value);
    }
  }

  lemma {:induction false} FindBlankLine(ls: seq<string>)
    requires CrlfLines(ls)
    ensures var k := BlankAt(ls);
            && (k < |ls| ==> |Join(ls[..k])| >= 2 && FindSubsequence(Join(ls), BLANK) == Some(|Join(ls[..k])| - 2))
            && (k == |ls| ==> FindSubsequence(Join(ls), BLANK) == None)
  {
    hide Join, FindSubsequence, OccursAt, IsLine, EndsCrlf, CrlfLines, BlankAt, IsContinuation;
    BlankAtStep(ls);
    if ls != [] {
      JoinPrefix(ls, BlankAt(ls));
      FindAfterLine(ls[0], Join(ls[1..]));
      if |ls| > 1 {
        NormalFirstLine(ls[1..]);
        FindBlankLine(ls[1..]);
      }
    }
  }

  lemma BlankAtStep(ls: seq<string>)
    requires CrlfLines(ls)
    ensures ls != [] ==> IsLine(ls[0]) && EndsCrlf(ls[0]) && CrlfLines(ls[1..])
    ensures BlankAt(ls) == if |ls| <= 1 then |ls| else if ls[1] == CRLF then 1 else 1 + BlankAt(ls[1..])
    ensures Join([]) == "" && FindSubsequence("", BLANK) == None
  {
  }

  lemma JoinPrefix(ls: seq<string>, k: nat)
    requires 0 < k <= |ls|
    ensures Join(ls) == ls[0] + Join(ls[1..])
    ensures Join(ls[..k]) == ls[0] + Join(ls[1..][..k - 1])
  {
    assert ls[..k][1..] == ls[1..][..k - 1];
  }

  lemma {:induction false} LineFeedAfterCr(ls: seq<string>, i: nat)
    requires CrlfLines(ls)
    requires i < |Join(ls)| && Join(ls)[i] == '\n'
    ensures i > 0 && Join(ls)[i - 1] == '\r'
  {
    if i >= |ls[0]| {
      LineFeedAfterCr(ls[1..], i - |ls[0]|);
    }
  }

  lemma NoBareBlankLine(ls: seq<string>)
    requires CrlfLines(ls)
    ensures FindSubsequence(Join(ls), "\n\n") == None
  {
    var s := Join(ls);
    match FindSubsequence(s, "\n\n")
    case None =>
    case Some(i) =>
      assert s[i] == s[i..i + 2][0] && s[i + 1] == s[i..i + 2][1];
      LineFeedAfterCr(ls, i + 1);
  }

  function HeaderLines(raw: string): seq<string> { Lines(raw)[..BlankAt(Lines(raw))] }

  function BodyLines(raw: string): seq<string> {
    var k := BlankAt(Lines(raw));
    if k < |Lines(raw)| then Lines(raw)[k + 1..] else []
  }

  lemma SplitAt(headers: string, body: string)
    requires |headers| >= 2 && FindSubsequence(headers + (CRLF + body), BLANK) == Some(|headers| - 2)
    ensures SplitHeadersBody(headers + (CRLF + body)) == (headers, body)
  {
    var raw := headers + (CRLF + body);
    assert raw[..|headers|] == headers && raw[|headers| + 2..] == body;
  }

  /** The byte-level split is the line-level one; the bare-LF branch is never taken. */
  lemma SplitByLines(raw: string)
    requires Normal(raw)
    ensures SplitHeadersBody(raw) == (Join(HeaderLines(raw)), Join(BodyLines(raw)))
    ensures FindSubsequence(raw, BLANK) == None ==> FindSubsequence(raw, "\n\n") == None
  {
    hide Join, Lines, FindSubsequence, OccursAt, Normal, CrlfLines, BlankAt, SplitHeadersBody;
    var ls := Lines(raw);
    var k := BlankAt(ls);
    NormalLines(raw);
    FindBlankLine(ls);
    NoBareBlankLine(ls);
    if k < |ls| {
      JoinMiddle(ls, k);
      SplitAt(Join(ls[..k]), Join(ls[k + 1..]));
    } else {
      assert ls[..k] == ls;
    }
  }

  lemma NormalLines(raw: string)
    ensures Normal(raw) ==> CrlfLines(Lines(raw))
    ensures FindSubsequence(raw, BLANK) == None && FindSubsequence(raw, "\n\n") == None
            ==> SplitHeadersBody(raw) == (raw, Join([]))
  {
  }

  lemma JoinMiddle(ls: seq<string>, k: nat)
    requires k < |ls|
    ensures Join(ls) == Join(ls[..k]) + (ls[k] + Join(ls[k + 1..]))
  {
    assert ls == ls[..k] + ls[k..];
    JoinConcat(ls[..k], ls[k..]);
    assert ls[k..][1..] == ls[k + 1..];
  }
}
