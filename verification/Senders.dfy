/** Who wrote the message: src/smtp/router.rs:242-264. */
module Senders {
  import opened Ascii
  import opened Basics
  import opened EmailAddress
  import Rewrite

  /** The envelope sender, or else the address in the `From` header. */
  function EnvelopeSender(mailFrom: string, fromHeader: Option<string>): Option<Address> {
    match Parse(mailFrom)
    case Some(a) => Some(a)
    case None => Parse(Candidate(if fromHeader.Some? then fromHeader.value else ""))
  }

  function Candidate(header: string): string {
    var start, end := Find(header, '<'), Find(header, '>');
    if start < |header| && end < |header| && end > start then header[start + 1..end] else header
  }

  /** Whoever gives an address at the envelope is the sender, whatever the header says. */
  lemma EnvelopeSenderWins(a: Address, fromHeader: Option<string>)
    requires Canonical(a)
    ensures EnvelopeSender(a.Print(), fromHeader) == Some(a)
  {
    hide Parse, Canonical, Candidate;
    ParsePrint(a);
  }

  /** With the null sender it is the address in the header, on its own or in brackets. */
  lemma HeaderSenderIsRead(a: Address)
    requires Canonical(a)
    ensures EnvelopeSender("", Some(a.Print())) == Some(a) && EnvelopeSender("", Some("<" + a.Print() + ">")) == Some(a)
    ensures EnvelopeSender("", None) == None
  {
    hide Parse, Canonical;
    NullSenderFails();
    ParsePrint(a);
    PrintHasNoBracket(a);
    var h, n := "<" + a.Print() + ">", |a.Print()|;
    assert h[1..n + 1] == a.Print() && h[..n + 1] == "<" + a.Print();
    FindIs(h, '<', 0);
    FindIs(h, '>', n + 1);
  }

  /** The new `From` of a forward: in quotes the escaped name, if there is one, and the sender,
      and behind them the reverse alias. */
  lemma ForwardedFrom(p: Rewrite.ForwardRewrite, a: Address)
    requires Canonical(a) && p.senderEmail == a.Print()
    ensures Rewrite.QuotedAddress(Rewrite.SenderDisplay(p), p.reverseAlias)
            == "\"" + (NamePart(p.senderName) + a.Print()) + "\" <" + p.reverseAlias + ">"
  {
    hide Trim, Canonical, Rewrite.Escaped, Rewrite.QuotedAddress, Rewrite.HoldsSpecial, Rewrite.SenderDisplay, NamePart;
    Rewrite.QuotedExactly(Rewrite.SenderDisplay(p), p.reverseAlias);
    DisplayEndsInAddress(p, a);
    EscapedSender(p, a);
  }

  lemma DisplayEndsInAddress(p: Rewrite.ForwardRewrite, a: Address)
    requires p.senderEmail == a.Print()
    ensures Rewrite.HoldsSpecial(Rewrite.SenderDisplay(p))
  {
    hide Trim, Rewrite.HoldsSpecial;
    EndsInAddress("", a);
    assert "" + a.Print() == a.Print();
    if p.senderName.Some? {
      EndsInAddress(Trim(p.senderName.value) + " - ", a);
    }
  }

  lemma EndsInAddress(front: string, a: Address)
    ensures Rewrite.HoldsSpecial(front + a.Print())
  {
    var d := front + a.Print();
    assert d[|front| + |a.localPart|] == '@';
    assert Rewrite.CallsForQuotes(d[|front| + |a.localPart|]);
  }

  lemma EscapedSender(p: Rewrite.ForwardRewrite, a: Address)
    requires Canonical(a) && p.senderEmail == a.Print()
    ensures Rewrite.Escaped(Rewrite.SenderDisplay(p)) == NamePart(p.senderName) + a.Print()
  {
    hide Trim, Canonical, Rewrite.Escaped;
    PrintNeedsNoEscape(a);
    Rewrite.NothingToEscape(a.Print());
    Rewrite.NothingToEscape(" - ");
    if p.senderName.Some? && Trim(p.senderName.value) != "" {
      var name := Trim(p.senderName.value);
      Rewrite.EscapedConcat(name + " - ", a.Print());
      Rewrite.EscapedConcat(name, " - ");
    } else {
      assert "" + a.Print() == a.Print();
    }
  }

  function NamePart(name: Option<string>): string {
    if name.Some? && Trim(name.value) != "" then Rewrite.Escaped(Trim(name.value)) + " - " else ""
  }

  lemma PrintNeedsNoEscape(a: Address)
    requires Canonical(a)
    ensures '\\' !in a.Print() && '"' !in a.Print()
  {
  }

  function TrimQuotes(s: string): string { TrimEnd(IsQuote, TrimStart(IsQuote, s)) }

  function DisplayName(header: string): Option<string> {
    var c := Find(header, '<');
    if c == |header| then None else
    var name := Unquote(header[..c]);
    if name == "" then None else Some(name)
  }

  function Unquote(s: string): string { Trim(TrimQuotes(Trim(s))) }

  // ---- Reading back what QuotedAddress writes ----

  predicate Special(c: char) { c == '\\' || c == '"' }

  lemma {:induction false} ReplaceEnds(s: string, c: char, with: string)
    requires s != "" && with != ""
    ensures var r := Rewrite.Replace(s, c, with);
            && r != "" && r[0] == (if s[0] == c then with[0] else s[0])
            && r[|r| - 1] == (if s[|s| - 1] == c then with[|with| - 1] else s[|s| - 1])
            && (s[|s| - 1] == c && |with| > 1 ==> |r| > 1 && r[|r| - 2] == with[|with| - 2])
  {
    if |s| > 1 {
      ReplaceEnds(s[1..], c, with);
    }
  }

  lemma EscapeEnds(d: string)
    requires d != ""
    ensures var e := Rewrite.Escape(d);
            && e != "" && e[0] == (if Special(d[0]) then '\\' else d[0]) && e[|e| - 1] == d[|d| - 1]
            && (d[|d| - 1] == '"' ==> |e| > 1 && e[|e| - 2] == '\\')
  {
    ReplaceEnds(d, '\\', "\\\\");
    ReplaceEnds(Rewrite.Replace(d, '\\', "\\\\"), '"', "\\\"");
  }

  /** Escaping changes exactly the names with a special character, by making them longer,
      and it invents neither `<` nor `>`. */
  lemma EscapeChanges(d: string)
    ensures var e := Rewrite.Escape(d);
            && (e == d <==> !(exists i :: 0 <= i < |d| && Special(d[i])))
            && ('<' !in d ==> '<' !in e) && ('>' !in d ==> '>' !in e)
  {
    var m := Rewrite.Replace(d, '\\', "\\\\");
    if '\\' in d { assert |m| > |d|; } else { assert m == d; }
  }

  predicate NeedsQuoting(d: string) {
    exists i :: 0 <= i < |d| && d[i] in Rewrite.NEEDS_QUOTING
  }

  /** What stands before the space and the `<` that open the address. */
  function Phrase(d: string): string {
    if NeedsQuoting(d) then "\"" + Rewrite.Escape(d) + "\"" else Rewrite.Escape(d)
  }

  function Lead(d: string): string { Phrase(d) + " " }

  lemma QuotedIsLead(d: string, address: string)
    ensures Rewrite.QuotedAddress(d, address) == Lead(d) + "<" + address + ">"
    ensures '<' !in d ==> Find(Rewrite.QuotedAddress(d, address), '<') == |Lead(d)|
  {
    hide Rewrite.Escape;
    var h := Rewrite.QuotedAddress(d, address);
    EscapeChanges(d);
    assert h == Lead(d) + "<" + address + ">";
    if '<' !in d {
      assert h[..|Lead(d)|] == Lead(d);
      FindIs(h, '<', |Lead(d)|);
    }
  }

  lemma QuotesAround(s: string)
    requires s != "" && s[0] != '"'
    ensures s[|s| - 1] != '"' ==> TrimQuotes("\"" + s + "\"") == s && TrimQuotes(s) == s
    ensures s[|s| - 1] == '"' && |s| > 1 && s[|s| - 2] != '"' ==> TrimQuotes("\"" + s + "\"") == s[..|s| - 1]
  {
    var t := "\"" + s + "\"";
    assert t[1..] == s + "\"";
    assert TrimStart(IsQuote, t) == s + "\"" && TrimStart(IsQuote, s) == s;
    assert (s + "\"")[..|s|] == s;
  }

  lemma TrimLead(d: string)
    requires d != "" && Trimmed(d)
    ensures Trim(Lead(d)) == Phrase(d)
  {
    hide Rewrite.Escape, Trim, Indent, NeedsQuoting;
    var p := Phrase(d);
    EscapeEnds(d);
    assert Trimmed(p);
    assert Lead(d)[0..|p|] == p;
    TrimIs(Lead(d), 0, |p|);
  }

  /** For a trimmed name, all that is lost is one closing quote. */
  lemma UnquoteLead(d: string)
    requires d != "" && Trimmed(d)
    ensures var e := Rewrite.Escape(d);
            Unquote(Lead(d)) == if d[|d| - 1] == '"' then e[..|e| - 1] else e
  {
    hide TrimQuotes, Rewrite.Escape, Trim, Lead;
    var e := Rewrite.Escape(d);
    TrimLead(d);
    EscapeEnds(d);
    QuotesAround(e);
    var r := if d[|d| - 1] == '"' then e[..|e| - 1] else e;
    assert d[|d| - 1] == '"' ==> d[|d| - 1] in Rewrite.NEEDS_QUOTING;
    assert TrimQuotes(Phrase(d)) == r;
    assert Trimmed(r);
  }

  /** The display name is recovered from a quoted address exactly when it is non-empty,
      trimmed and free of `<`, quotes and backslashes. */
  lemma DisplayNameRecovered(d: string, address: string)
    ensures DisplayName(Rewrite.QuotedAddress(d, address)) == Some(d)
            <==> d != "" && Trimmed(d) && '<' !in d && '"' !in d && '\\' !in d
  {
    hide Rewrite.Escape, Unquote, Lead;
    var h := Rewrite.QuotedAddress(d, address);
    QuotedIsLead(d, address);
    UnquoteIsPart(h[..Find(h, '<')]);
    if d != "" && Trimmed(d) && '<' !in d {
      assert h[..|Lead(d)|] == Lead(d);
      UnquoteLead(d);
      EscapeEnds(d);
      EscapeChanges(d);
    }
  }

  lemma UnquoteIsPart(s: string)
    ensures Trimmed(Unquote(s)) && forall c :: c in Unquote(s) ==> c in s
  {
    hide Trim, Indent, TrimQuotes, TrimStart, TrimEnd;
    TrimIsPart(s);
    QuotesArePart(Trim(s));
    TrimIsPart(TrimQuotes(Trim(s)));
  }

  lemma TrimIsPart(s: string)
    ensures forall c :: c in Trim(s) ==> c in s
  {
    hide Trim, Indent;
  }

  lemma QuotesArePart(s: string)
    ensures forall c :: c in TrimQuotes(s) ==> c in s
  {
    hide TrimStart, TrimEnd;
  }

  lemma NullSenderFails()
    ensures Parse("") == None
  {
    assert Bare("") == "";
  }

  /** The name itself quotes the address in angle brackets. */
  predicate NamesItself(d: string, a: Address) {
    var e := Rewrite.Escape(d);
    var start, end := Find(e, '<'), Find(e, '>');
    start < end < |e| && Parse(e[start + 1..end]) == Some(a)
  }

  /** A bounce from the null sender is attributed to the address its `From` header quotes,
      exactly when the name in front holds no angle brackets, or quotes that same address in
      the first ones. */
  lemma SenderRecovered(d: string, a: Address)
    requires Canonical(a)
    ensures EnvelopeSender("", Some(Rewrite.QuotedAddress(d, a.Print()))) == Some(a)
            <==> ('<' !in d && '>' !in d) || NamesItself(d, a)
  {
    hide Rewrite.Escape, Parse, Canonical, Rewrite.QuotedAddress, Lead, Phrase;
    var e := Rewrite.Escape(d);
    NullSenderFails();
    EscapeKeeps(d, '<');
    EscapeKeeps(d, '>');
    if '<' !in d && '>' !in d {
      NoBrackets(d, a);
    } else {
      QuotedName(d, a.Print());
      var start, end := Find(e, '<'), Find(e, '>');
      if start < end < |e| {
        BracketsInName(d, a);
      } else {
        BrokenBrackets(d, a);
      }
    }
  }

  /** Whoever sent it, a bounce whose name is itself in angle brackets is attributed to what
      they hold. */
  lemma BracketedName(inner: string, a: Address)
    requires Canonical(a) && '<' !in inner && '>' !in inner && '"' !in inner && '\\' !in inner
    ensures EnvelopeSender("", Some(Rewrite.QuotedAddress("<" + inner + ">", a.Print()))) == Parse(inner)
  {
    hide Parse, Canonical, Rewrite.QuotedAddress, Rewrite.Escape, Candidate;
    var d := "<" + inner + ">";
    NullSenderFails();
    EscapeChanges(d);
    QuotedName(d, a.Print());
    assert d[..1 + |inner|] == "<" + inner && d[1..1 + |inner|] == inner;
    FindIs(d, '<', 0);
    FindIs(d, '>', 1 + |inner|);
    BracketsInName(d, a);
  }

  /** For example, `"<b@b.bb>" <...>` is taken to be from b@b.bb. */
  lemma BracketedNameExample(a: Address)
    requires Canonical(a)
    ensures EnvelopeSender("", Some(Rewrite.QuotedAddress("<b@b.bb>", a.Print()))) == Some(Address("b", "b.bb"))
  {
    hide EnvelopeSender, Parse, Canonical, Rewrite.QuotedAddress;
    ExampleParts();
    ParseOfParts("b", "b.bb");
    assert "b" + "@" + "b.bb" == "b@b.bb" && "<" + "b@b.bb" + ">" == "<b@b.bb>";
    BracketedName("b@b.bb", a);
  }

  lemma ExampleParts()
    ensures ValidLocal("b") && ToLower("b.bb") == "b.bb" && ValidDomain("b.bb")
  {
    var s := "b.bb";
    assert s[1] == '.' && s[0] == 'b' && s[2] == 'b' && s[3] == 'b';
    assert !DoubleDot(s, 0) && !DoubleDot(s, 1) && !DoubleDot(s, 2);
  }

  lemma {:induction false} ReplaceKeeps(s: string, c: char, with: string, x: char)
    requires x != c && x !in with
    ensures x in Rewrite.Replace(s, c, with) <==> x in s
  {
    if s != "" {
      ReplaceKeeps(s[1..], c, with, x);
    }
  }

  lemma EscapeKeeps(d: string, x: char)
    requires x != '\\' && x != '"'
    ensures x in Rewrite.Escape(d) <==> x in d
  {
    hide Rewrite.Replace;
    ReplaceKeeps(d, '\\', "\\\\", x);
    ReplaceKeeps(Rewrite.Replace(d, '\\', "\\\\"), '"', "\\\"", x);
  }

  /** A name with a bracket is quoted. */
  lemma QuotedName(d: string, address: string)
    requires '<' in d || '>' in d
    ensures Rewrite.QuotedAddress(d, address) == "\"" + Rewrite.Escape(d) + "\" <" + address + ">"
  {
    hide Rewrite.Escape;
    if i :| 0 <= i < |d| && (d[i] == '<' || d[i] == '>') {
      assert d[i] in Rewrite.NEEDS_QUOTING;
    }
  }

  lemma NoBrackets(d: string, a: Address)
    requires Canonical(a) && '<' !in d && '>' !in d
    ensures Candidate(Rewrite.QuotedAddress(d, a.Print())) == a.Print() && Parse(a.Print()) == Some(a)
    ensures !NamesItself(d, a)
  {
    hide Rewrite.Escape, Bare, Parse, Checked, Canonical, Rewrite.QuotedAddress, Lead;
    var h, k := Rewrite.QuotedAddress(d, a.Print()), |Lead(d)|;
    QuotedIsLead(d, a.Print());
    EscapeKeeps(d, '<');
    EscapeKeeps(d, '>');
    ParsePrint(a);
    LeadHasNoBracket(d);
    PrintHasNoBracket(a);
    var end := k + 1 + |a.Print()|;
    assert h[k + 1..end] == a.Print();
    assert h[..end] == Lead(d) + "<" + a.Print();
    FindIs(h, '>', end);
  }

  /** Both brackets stand in the name, in order: what they hold is taken for the address. */
  lemma BracketsInName(d: string, a: Address)
    requires var e := Rewrite.Escape(d); Find(e, '<') < Find(e, '>') < |e|
    requires Rewrite.QuotedAddress(d, a.Print()) == "\"" + Rewrite.Escape(d) + "\" <" + a.Print() + ">"
    ensures var e := Rewrite.Escape(d);
            Candidate(Rewrite.QuotedAddress(d, a.Print())) == e[Find(e, '<') + 1..Find(e, '>')]
  {
    hide Rewrite.Escape, Rewrite.QuotedAddress, Find;
    var e, h := Rewrite.Escape(d), Rewrite.QuotedAddress(d, a.Print());
    var start, end := Find(e, '<'), Find(e, '>');
    QuotedShape(h, e, a.Print());
    InsideQuotes(h, e, '<', start);
    InsideQuotes(h, e, '>', end);
    InnerSlice(h, e, start + 1, end);
  }

  lemma QuotedShape(h: string, e: string, address: string)
    requires h == "\"" + e + "\" <" + address + ">"
    ensures |h| == |e| + |address| + 5 && h[0] == '"' && h[1..|e| + 1] == e && h[|e| + 1] == '"'
    ensures h[..|e| + 3] == "\"" + e + "\" " && h[|e| + 3] == '<'
    ensures h[..|h| - 1] == "\"" + e + "\" <" + address && h[|h| - 1] == '>'
  {
  }

  lemma InnerSlice(h: string, e: string, i: nat, j: nat)
    requires i <= j <= |e| && |h| > |e| && h[1..|e| + 1] == e
    ensures h[i + 1..j + 1] == e[i..j]
  {
    var inner := h[1..|e| + 1];
    assert forall k :: 0 <= k < |e| ==> inner[k] == h[k + 1];
    assert forall k :: 0 <= k < j - i ==> h[i + 1..j + 1][k] == h[i + 1 + k] && e[i..j][k] == e[i + k];
  }

  lemma InsideQuotes(h: string, e: string, c: char, i: nat)
    requires |h| > |e| + 1 && h[0] == '"' && h[1..|e| + 1] == e && c != '"' && i < |e| && Find(e, c) == i
    ensures Find(h, c) == i + 1
  {
    hide Find;
    InnerSlice(h, e, 0, i);
    InnerSlice(h, e, i, i + 1);
    assert e[i] == e[i..i + 1][0] && h[i + 1] == h[i + 1..i + 2][0];
    assert h[..i + 1] == [h[0]] + h[1..i + 1];
    FindIs(h, c, i + 1);
  }

  /** Otherwise a quote is left in front of the last `@`, and no address comes out. */
  lemma BrokenBrackets(d: string, a: Address)
    requires Canonical(a)
    requires var e := Rewrite.Escape(d);
             ('<' in e || '>' in e) && !(Find(e, '<') < Find(e, '>') < |e|)
    requires Rewrite.QuotedAddress(d, a.Print()) == "\"" + Rewrite.Escape(d) + "\" <" + a.Print() + ">"
    ensures Parse(Candidate(Rewrite.QuotedAddress(d, a.Print()))) == None && !NamesItself(d, a)
  {
    hide Rewrite.Escape, Rewrite.QuotedAddress, Parse, Canonical, Find, Candidate;
    var e, h := Rewrite.Escape(d), Rewrite.QuotedAddress(d, a.Print());
    QuotedShape(h, e, a.Print());
    if Find(e, '>') < |e| {
      ClosedFirst(h, e, a);
    } else {
      NeverClosed(h, e, a);
    }
  }

  lemma ClosedFirst(h: string, e: string, a: Address)
    requires Canonical(a) && h == "\"" + e + "\" <" + a.Print() + ">"
    requires Find(e, '>') < |e| && Find(e, '<') >= Find(e, '>')
    ensures Parse(Candidate(h)) == None
  {
    hide Parse, Canonical, Find;
    QuotedShape(h, e, a.Print());
    InsideQuotes(h, e, '>', Find(e, '>'));
    assert Find(e, '<') != Find(e, '>');
    OpensLater(h, e, a.Print());
    assert Candidate(h) == h;
    var before := "\"" + e + "\" <";
    assert before[|e| + 1] == '"';
    QuoteSpoilsAddress(before, a, ">", |e| + 1);
  }

  lemma OpensLater(h: string, e: string, address: string)
    requires h == "\"" + e + "\" <" + address + ">" && Find(e, '<') > Find(e, '>')
    ensures Find(h, '<') > Find(e, '>') + 1
  {
    hide Find;
    var start := Find(e, '<');
    QuotedShape(h, e, address);
    if start < |e| {
      InsideQuotes(h, e, '<', start);
    } else {
      assert '<' !in e by { assert e[..start] == e; }
      var before := "\"" + e + "\" ";
      assert '<' !in before;
      FindIs(h, '<', |e| + 3);
    }
  }

  lemma NeverClosed(h: string, e: string, a: Address)
    requires Canonical(a) && h == "\"" + e + "\" <" + a.Print() + ">"
    requires Find(e, '>') == |e| && '<' in e
    ensures Parse(Candidate(h)) == None
  {
    hide Parse, Canonical, Find;
    var start, last := Find(e, '<'), |h| - 1;
    QuotedShape(h, e, a.Print());
    PrintHasNoBracket(a);
    assert '>' !in e by { assert e[..|e|] == e; }
    assert start < |e| by { assert e[..|e|] == e; }
    InsideQuotes(h, e, '<', start);
    FindIs(h, '>', last);
    var x := e[start + 1..] + "\" <";
    BehindBracket(h, e, a.Print(), start);
    QuoteSpoilsAddress(x, a, "", |e| - start - 1);
  }

  lemma BehindBracket(h: string, e: string, address: string, start: nat)
    requires h == "\"" + e + "\" <" + address + ">" && start < |e|
    ensures h[start + 2..|h| - 1] == e[start + 1..] + "\" <" + address + ""
  {
    assert h == "\"" + e[..start + 1] + (e[start + 1..] + "\" <" + address) + ">";
  }

  lemma QuoteSpoilsAddress(before: string, a: Address, after: string, k: nat)
    requires Canonical(a) && k < |before| && before[k] == '"' && '@' !in after
    ensures Parse(before + a.Print() + after) == None
  {
    hide Parse, Canonical;
    DomainHasNoAt(a);
    var s := before + a.Print() + after;
    var l := before + a.localPart;
    assert s == l + "@" + (a.domain + after);
    LastPart(l, a.domain + after);
    assert s[k] == before[k];
    QuoteSpoils(s, k);
  }

  /** Text with a quote in front of its last `@` is no address. */
  lemma QuoteSpoils(s: string, k: nat)
    requires k < FindLast(s, '@') < |s| && s[k] == '"'
    ensures Parse(s) == None
  {
    hide Bare, ValidDomain, FindLast;
    var at := FindLast(s, '@');
    var lo, hi := BareIsSlice(s);
    assert lo <= k;
    assert at < hi;
    var b := Bare(s);
    assert b[k - lo] == '"' && b[at - lo] == '@';
    var last := FindLast(b, '@');
    assert last < |b| && last >= at - lo;
    assert b[..last][k - lo] == '"';
  }

  lemma BareIsSlice(s: string) returns (lo: nat, hi: nat)
    ensures lo <= hi <= |s| && Bare(s) == s[lo..hi]
    ensures forall i :: 0 <= i < lo ==> IsSpace(s[i]) || s[i] == '<'
    ensures forall i :: hi <= i < |s| ==> IsSpace(s[i]) || s[i] == '>'
  {
    hide Trim, Indent, TrimStart, TrimEnd, IsSpace;
    var t := Trim(s);
    var u := TrimStart(IsLess, t);
    var v := TrimEnd(IsGreater, u);
    var n, m := Indent(s), |t| - |u|;
    lo, hi := n + m, n + m + |v|;
    PartOfPart(s, t, u, n, m);
    PartOfPart(s, u, v, lo, 0);
    forall i | 0 <= i < lo ensures IsSpace(s[i]) || s[i] == '<' {
      StartIsTrimmed(s, t, n, m, i);
    }
    forall i | hi <= i < |s| ensures IsSpace(s[i]) || s[i] == '>' {
      EndIsTrimmed(s, t, u, n, lo, |v|, i);
    }
  }

  lemma PartOfPart(s: string, t: string, u: string, n: nat, m: nat)
    requires n + |t| <= |s| && t == s[n..n + |t|] && m + |u| <= |t| && u == t[m..m + |u|]
    ensures u == s[n + m..n + m + |u|]
  {
    assert forall k :: 0 <= k < |t| ==> t[k] == s[n + k];
    assert forall k :: 0 <= k < |u| ==> u[k] == t[m + k];
  }

  lemma StartIsTrimmed(s: string, t: string, n: nat, m: nat, i: nat)
    requires n + |t| <= |s| && t == s[n..n + |t|] && m <= |t| && i < n + m
    requires i < n ==> IsSpace(s[i])
    requires forall k :: 0 <= k < m ==> IsLess(t[k])
    ensures IsSpace(s[i]) || s[i] == '<'
  {
    hide IsSpace;
    assert i >= n ==> s[i] == t[i - n];
  }

  lemma EndIsTrimmed(s: string, t: string, u: string, n: nat, lo: nat, kept: nat, i: nat)
    requires n + |t| <= |s| && t == s[n..n + |t|] && lo + |u| == n + |t| && u == s[lo..lo + |u|]
    requires lo + kept <= i < |s| && (i >= n + |t| ==> IsSpace(s[i]))
    requires forall k :: kept <= k < |u| ==> IsGreater(u[k])
    ensures IsSpace(s[i]) || s[i] == '>'
  {
    hide IsSpace;
    assert i < n + |t| ==> s[i] == u[i - lo];
  }

  lemma LeadHasNoBracket(d: string)
    requires '>' !in d
    ensures '>' !in Lead(d)
  {
    EscapeChanges(d);
  }

  lemma PrintHasNoBracket(a: Address)
    requires Canonical(a)
    ensures '>' !in a.Print()
  {
  }
}
