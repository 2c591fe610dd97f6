/** The forward and reply rewriters: src/smtp/rewrite.rs:9-22 and 91-173. */
module Rewrite {
  import opened Ascii
  import opened Basics
  import opened HeaderFields
  import opened Messages
  import opened HeaderRewrite

  const STRIPPED_HEADERS: seq<string> := [
    "from", "sender", "reply-to", "return-path", "dkim-signature", "domainkey-signature",
    "arc-authentication-results", "arc-message-signature", "arc-seal", "authentication-results",
    "received-spf", "x-weiterleitung-alias"
  ]

  const REPLY_STRIPPED: seq<string> := STRIPPED_HEADERS + ["to", "cc", "bcc", "x-weiterleitung-sender"]

  // ---- Display names ----

  const NEEDS_QUOTING: set<char> := {'<', '>', '(', ')', ',', ':', ';', '@', '"', '.'}

  function Replace(s: string, c: char, with: string): (r: string)
    ensures |with| >= 1 ==> |r| >= |s|
    ensures |with| >= 2 && c in s ==> |r| > |s|
    ensures c !in s ==> r == s
    ensures forall x :: x in r ==> x in s || x in with
  {
    if s == "" then "" else (if s[0] == c then with else [s[0]]) + Replace(s[1..], c, with)
  }

  function Escape(display: string): string {
    Replace(Replace(display, '\\', "\\\\"), '"', "\\\"")
  }

  /** `Display Name <address>`, the name quoted when it holds a special character. */
  function QuotedAddress(display: string, address: string): string {
    var escaped := Escape(display);
    if exists i :: 0 <= i < |display| && display[i] in NEEDS_QUOTING
    then "\"" + escaped + "\" <" + address + ">"
    else escaped + " <" + address + ">"
  }

  /** A backslash in front of every backslash and every quote. */
  function Escaped(s: string): string {
    if s == "" then ""
    else (if s[0] == '\\' || s[0] == '"' then ['\\', s[0]] else [s[0]]) + Escaped(s[1..])
  }

  lemma {:induction false} ReplaceConcat(a: string, b: string, c: char, with: string)
    ensures Replace(a + b, c, with) == Replace(a, c, with) + Replace(b, c, with)
  {
    if a == "" {
      assert a + b == b;
    } else {
      assert (a + b)[1..] == a[1..] + b;
      ReplaceConcat(a[1..], b, c, with);
    }
  }

  /** Replacing twice is escaping once: no escape is escaped again. */
  lemma {:induction false} EscapeInOnePass(s: string)
    ensures Escape(s) == Escaped(s)
  {
    if s != "" {
      EscapeInOnePass(s[1..]);
      var first, rest := if s[0] == '\\' then "\\\\" else [s[0]], Replace(s[1..], '\\', "\\\\");
      assert Replace(s, '\\', "\\\\") == first + rest;
      ReplaceConcat(first, rest, '"', "\\\"");
      EscapeOne(s[0]);
    }
  }

  lemma EscapeOne(c: char)
    ensures Replace(if c == '\\' then "\\\\" else [c], '"', "\\\"")
            == if c == '\\' || c == '"' then ['\\', c] else [c]
  {
    var two := "\\\\";
    assert two[1..][1..] == "" && two == ['\\', '\\'] && [c][1..] == "";
  }

  lemma {:induction false} EscapedConcat(a: string, b: string)
    ensures Escaped(a + b) == Escaped(a) + Escaped(b)
  {
    if a == "" {
      assert a + b == b;
    } else {
      assert (a + b)[1..] == a[1..] + b;
      EscapedConcat(a[1..], b);
    }
  }

  lemma {:induction false} NothingToEscape(s: string)
    requires '\\' !in s && '"' !in s
    ensures Escaped(s) == s
  {
    if s != "" {
      assert s == [s[0]] + s[1..];
      NothingToEscape(s[1..]);
    }
  }

  /** The specials of section 3.2.3 of RFC 5322 that call for quotes. */
  predicate CallsForQuotes(c: char) {
    c == '<' || c == '>' || c == '(' || c == ')' || c == ',' || c == ':' || c == ';' || c == '@' || c == '"' || c == '.'
  }

  predicate HoldsSpecial(display: string) { exists i :: 0 <= i < |display| && CallsForQuotes(display[i]) }

  lemma TheTen(c: char)
    ensures CallsForQuotes(c) <==> c in NEEDS_QUOTING
  {
  }

  /** A display name is quoted exactly if one of ten characters occurs in it, so an unquoted one
      holds none of them; either way backslashes and quotes are escaped. */
  lemma QuotedExactly(display: string, address: string)
    ensures QuotedAddress(display, address)
            == if HoldsSpecial(display) then "\"" + Escaped(display) + "\" <" + address + ">"
               else Escaped(display) + " <" + address + ">"
  {
    hide Escape, Escaped, CallsForQuotes, NEEDS_QUOTING;
    EscapeInOnePass(display);
    forall i | 0 <= i < |display| ensures CallsForQuotes(display[i]) <==> display[i] in NEEDS_QUOTING {
      TheTen(display[i]);
    }
  }

  // ---- Inserted header fields ----

  datatype Header = Header(name: string, value: string)

  function Render(h: Header): string { h.name + ": " + h.value + CRLF }

  function RenderAll(hs: seq<Header>): (ls: seq<string>)
    ensures |ls| == |hs| && forall i :: 0 <= i < |hs| ==> ls[i] == Render(hs[i])
  {
    if hs == [] then [] else RenderAll(hs[..|hs| - 1]) + [Render(hs[|hs| - 1])]
  }

  predicate CleanHeader(h: Header) {
    && h.name != "" && Trimmed(h.name) && ':' !in h.name
    && '\n' !in h.name && '\n' !in h.value
  }

  predicate CleanHeaders(hs: seq<Header>) {
    hs != [] && forall i :: 0 <= i < |hs| ==> CleanHeader(hs[i])
  }

  lemma RenderedLine(h: Header)
    requires CleanHeader(h)
    ensures var l := Render(h);
            && IsLine(l) && EndsCrlf(l) && l != CRLF && !IsContinuation(l)
            && Find(l, ':') == |h.name| && NameOf(l) == ToLower(h.name)
            && l[..|h.name|] == h.name && l[|h.name| + 1..] == " " + h.value + CRLF
  {
    var l, n := Render(h), |h.name|;
    assert l[..n] == h.name && l[n] == ':' && l[0] == h.name[0];
    FindIs(l, ':', n);
    assert l[n + 1..] == " " + h.value + CRLF;
    forall i | 0 <= i < |l| - 1 ensures l[i] != '\n' {
      if i < n { assert l[i] == h.name[i]; }
      else if n + 2 <= i < n + 2 + |h.value| { assert l[i] == h.value[i - n - 2]; }
    }
  }

  lemma RenderedShape(h: Header)
    requires CleanHeader(h)
    ensures var l := Render(h); IsLine(l) && EndsCrlf(l) && l != CRLF && !IsContinuation(l)
  {
    RenderedLine(h);
  }

  lemma RenderedIsInserted(hs: seq<Header>)
    requires CleanHeaders(hs)
    ensures Inserted(RenderAll(hs))
  {
    hide IsLine, EndsCrlf, IsContinuation, Render, CleanHeader, RenderAll;
    forall i | 0 <= i < |hs| {
      RenderedShape(hs[i]);
    }
  }

  /** The value of the first header with the given name. */
  function FirstOf(hs: seq<Header>, name: string): Option<string> {
    if hs == [] then None else
    var earlier := FirstOf(hs[..|hs| - 1], name);
    var h := hs[|hs| - 1];
    if earlier.Some? then earlier
    else if EqIgnoreCase(h.name, name) then Some(Trim(h.value))
    else None
  }

  lemma {:induction false} LookupRendered(hs: seq<Header>, name: string)
    requires forall i :: 0 <= i < |hs| ==> CleanHeader(hs[i])
    ensures Lookup(Group(RenderAll(hs)), name) == FirstOf(hs, name)
  {
    if hs != [] {
      var n := |hs| - 1;
      var l := Render(hs[n]);
      LookupRendered(hs[..n], name);
      RenderedLine(hs[n]);
      assert RenderAll(hs)[..n] == RenderAll(hs[..n]);
      LookupOneLine(RenderAll(hs[..n]), l, name);
      TrimPadding(hs[n].value);
    }
  }

  lemma LookupOneLine(ls: seq<string>, l: string, name: string)
    requires !IsContinuation(l)
    ensures Lookup(Group(ls + [l]), name)
            == if Lookup(Group(ls), name).Some? then Lookup(Group(ls), name) else ValueOnLine(l, name)
  {
    hide Lookup, Matches, Unfold, ValueOnLine;
    assert (ls + [l])[..|ls|] == ls;
    LookupLast(Group(ls), [l], name);
    OneLineField(l, name);
  }

  lemma OneLineField(l: string, name: string)
    requires !IsContinuation(l)
    ensures ValueOnLine(l, name) == if Matches([l], name) then Some(Unfold([l])) else None
  {
    hide Find, Trim, EqIgnoreCase;
  }

  lemma TrimPadding(s: string)
    ensures Trim(" " + s + CRLF) == Trim(s)
  {
    hide Trim, Indent;
    var t, i := " " + s + CRLF, Indent(s) + 1;
    assert t[i..i + |Trim(s)|] == Trim(s);
    TrimIs(t, i, i + |Trim(s)|);
  }

  // ---- The two rewriters ----

  datatype ForwardRewrite = ForwardRewrite(
    alias: string, reverseAlias: string, senderName: Option<string>, senderEmail: string)

  datatype ReplyRewrite = ReplyRewrite(alias: string, contactEmail: string)

  function SenderDisplay(p: ForwardRewrite): string {
    if p.senderName.Some? && Trim(p.senderName.value) != ""
    then Trim(p.senderName.value) + " - " + p.senderEmail
    else p.senderEmail
  }

  function ForwardHeaders(p: ForwardRewrite): seq<Header> {
    [Header("From", QuotedAddress(SenderDisplay(p), p.reverseAlias)),
     Header("Reply-To", p.reverseAlias),
     Header("X-Weiterleitung-Alias", p.alias),
     Header("X-Weiterleitung-Sender", p.senderEmail)]
  }

  function ReplyHeaders(p: ReplyRewrite): seq<Header> {
    [Header("From", p.alias), Header("To", p.contactEmail), Header("X-Weiterleitung-Alias", p.alias)]
  }

  function ForwardMessage(raw: string, p: ForwardRewrite): string {
    Rewritten(raw, RenderAll(ForwardHeaders(p)), STRIPPED_HEADERS)
  }

  function ReplyMessage(raw: string, p: ReplyRewrite): string {
    Rewritten(raw, RenderAll(ReplyHeaders(p)), REPLY_STRIPPED)
  }

  lemma JoinRendered(hs: seq<Header>)
    requires hs != []
    ensures Join(RenderAll(hs)) == Join(RenderAll(hs[..|hs| - 1])) + Render(hs[|hs| - 1])
  {
    JoinLast(RenderAll(hs[..|hs| - 1]), Render(hs[|hs| - 1]));
  }

  lemma NoneRendered()
    ensures Join(RenderAll([])) == ""
  {
  }

  /** Writes the given headers one after the other. */
  method WriteHeaders(hs: seq<Header>) returns (out: string)
    ensures out == Join(RenderAll(hs))
  {
    hide Join, RenderAll;
    out := "";
    NoneRendered();
    for i := 0 to |hs|
      invariant out == Join(RenderAll(hs[..i]))
    {
      JoinRendered(hs[..i + 1]);
      assert hs[..i + 1][..i] == hs[..i] && hs[..i + 1][i] == hs[i];
      out := out + hs[i].name + ": " + hs[i].value + CRLF;
    }
    assert hs[..|hs|] == hs;
  }

  /** src/smtp/rewrite.rs:105-131. */
  method RewriteForForward(raw: string, p: ForwardRewrite) returns (out: string)
    ensures out == ForwardMessage(raw, p)
  {
    var (headers, body) := SplitHeadersBody(raw);
    var kept := StripHeaders(headers, STRIPPED_HEADERS);
    out := WriteHeaders(ForwardHeaders(p));
    out := out + kept;
    out := out + CRLF;
    out := out + body;
  }

  /** src/smtp/rewrite.rs:142-160. */
  method RewriteForReply(raw: string, p: ReplyRewrite) returns (out: string)
    ensures out == ReplyMessage(raw, p)
  {
    var (headers, body) := SplitHeadersBody(raw);
    var kept := StripHeaders(headers, REPLY_STRIPPED);
    out := WriteHeaders(ReplyHeaders(p));
    out := out + kept;
    out := out + CRLF;
    out := out + body;
  }

  // ---- The same, byte by byte ----

  lemma ThreeHeaders(hs: seq<Header>)
    requires |hs| == 3
    ensures Join(RenderAll(hs)) == Render(hs[0]) + Render(hs[1]) + Render(hs[2])
  {
    hide Join, RenderAll, Render;
    NoneRendered();
    var h1, h2 := hs[..1], hs[..2];
    assert h1[..0] == [] && h2[..1] == h1 && hs[..2] == h2;
    JoinRendered(h1);
    JoinRendered(h2);
    JoinRendered(hs);
  }

  lemma FourHeaders(hs: seq<Header>)
    requires |hs| == 4
    ensures Join(RenderAll(hs)) == Render(hs[0]) + Render(hs[1]) + Render(hs[2]) + Render(hs[3])
  {
    hide Join, RenderAll, Render;
    ThreeHeaders(hs[..3]);
    JoinRendered(hs);
  }

  /** What a forward consists of. */
  lemma ForwardInBytes(raw: string, p: ForwardRewrite)
    ensures ForwardMessage(raw, p) ==
              "From: " + QuotedAddress(SenderDisplay(p), p.reverseAlias) + "\r\n" +
              ("Reply-To: " + p.reverseAlias + "\r\n") +
              ("X-Weiterleitung-Alias: " + p.alias + "\r\n") +
              ("X-Weiterleitung-Sender: " + p.senderEmail + "\r\n") +
              Strip(SplitHeadersBody(raw).0,
                    ["from", "sender", "reply-to", "return-path", "dkim-signature", "domainkey-signature",
                     "arc-authentication-results", "arc-message-signature", "arc-seal", "authentication-results",
                     "received-spf", "x-weiterleitung-alias"]) +
              "\r\n" + SplitHeadersBody(raw).1
  {
    hide QuotedAddress, SenderDisplay, Strip, SplitHeadersBody, Join, RenderAll;
    FourHeaders(ForwardHeaders(p));
  }

  lemma RepliesStrip()
    ensures REPLY_STRIPPED ==
              ["from", "sender", "reply-to", "return-path", "dkim-signature", "domainkey-signature",
               "arc-authentication-results", "arc-message-signature", "arc-seal", "authentication-results",
               "received-spf", "x-weiterleitung-alias", "to", "cc", "bcc", "x-weiterleitung-sender"]
  {
  }

  /** What a reply consists of. */
  lemma ReplyInBytes(raw: string, p: ReplyRewrite)
    ensures ReplyMessage(raw, p) ==
              "From: " + p.alias + "\r\n" + ("To: " + p.contactEmail + "\r\n") +
              ("X-Weiterleitung-Alias: " + p.alias + "\r\n") +
              Strip(SplitHeadersBody(raw).0,
                    ["from", "sender", "reply-to", "return-path", "dkim-signature", "domainkey-signature",
                     "arc-authentication-results", "arc-message-signature", "arc-seal", "authentication-results",
                     "received-spf", "x-weiterleitung-alias", "to", "cc", "bcc", "x-weiterleitung-sender"]) +
              "\r\n" + SplitHeadersBody(raw).1
  {
    hide Strip, SplitHeadersBody, Join, RenderAll, REPLY_STRIPPED;
    ThreeHeaders(ReplyHeaders(p));
    RepliesStrip();
  }

  // ---- What they promise ----

  const INSERTED_NAMES: set<string> := {"From", "To", "Reply-To", "X-Weiterleitung-Alias", "X-Weiterleitung-Sender"}

  predicate CleanForward(p: ForwardRewrite) {
    && '\n' !in p.alias && '\n' !in p.reverseAlias && '\n' !in p.senderEmail
    && (p.senderName.Some? ==> '\n' !in p.senderName.value)
  }

  predicate CleanReply(p: ReplyRewrite) { '\n' !in p.alias && '\n' !in p.contactEmail }

  lemma HeaderNames()
    ensures ToLower("From") == "from" && ToLower("To") == "to" && ToLower("Reply-To") == "reply-to"
    ensures ToLower("X-Weiterleitung-Alias") == "x-weiterleitung-alias"
    ensures ToLower("X-Weiterleitung-Sender") == "x-weiterleitung-sender"
  {
    hide ToLower;
    ShortNames();
    MarkNames();
  }

  lemma ShortNames()
    ensures ToLower("From") == "from" && ToLower("To") == "to" && ToLower("Reply-To") == "reply-to"
  {
  }

  lemma MarkNames()
    ensures ToLower("X-Weiterleitung-Alias") == "x-weiterleitung-alias"
    ensures ToLower("X-Weiterleitung-Sender") == "x-weiterleitung-sender"
  {
  }

  lemma DisplayIsClean(p: ForwardRewrite)
    requires CleanForward(p)
    ensures '\n' !in SenderDisplay(p) && '\n' !in QuotedAddress(SenderDisplay(p), p.reverseAlias)
  {
    hide Trim;
    assert p.senderName.Some? ==> '\n' !in Trim(p.senderName.value);
    var d := SenderDisplay(p);
    assert '\n' !in Replace(d, '\\', "\\\\");
  }

  lemma FixedNames()
    ensures forall n :: n in INSERTED_NAMES
                        ==> n != "" && Trimmed(n) && ':' !in n && '\n' !in n
  {
  }

  lemma ForwardIsClean(p: ForwardRewrite)
    requires CleanForward(p)
    ensures CleanHeaders(ForwardHeaders(p))
  {
    hide SenderDisplay, QuotedAddress, Trimmed;
    DisplayIsClean(p);
    FixedNames();
  }

  lemma ReplyIsClean(p: ReplyRewrite)
    requires CleanReply(p)
    ensures CleanHeaders(ReplyHeaders(p))
  {
    hide Trimmed;
    FixedNames();
  }

  lemma NameIsStripped(n: string)
    requires n in INSERTED_NAMES
    ensures ToLower(n) in REPLY_STRIPPED
  {
    hide ToLower;
    HeaderNames();
    StrippedNames();
  }

  /** The header fields either rewriter inserts are stripped again by a reply rewrite. */
  lemma InsertedAreStripped(hs: seq<Header>)
    requires CleanHeaders(hs)
    requires forall i :: 0 <= i < |hs| ==> hs[i].name in INSERTED_NAMES
    ensures Inserted(RenderAll(hs)) && Removes(RenderAll(hs), REPLY_STRIPPED)
  {
    hide Render, RenderAll, CleanHeader, NameOf, ToLower, Inserted, REPLY_STRIPPED, IsLine, EndsCrlf, IsContinuation,
         Find, Trim;
    RenderedIsInserted(hs);
    forall i | 0 <= i < |hs| ensures NameOf(RenderAll(hs)[i]) in REPLY_STRIPPED {
      RenderedLine(hs[i]);
      NameIsStripped(hs[i].name);
    }
  }

  lemma StrippedNames()
    ensures "from" in REPLY_STRIPPED && "to" in REPLY_STRIPPED && "reply-to" in REPLY_STRIPPED
    ensures "x-weiterleitung-alias" in REPLY_STRIPPED && "x-weiterleitung-sender" in REPLY_STRIPPED
    ensures "" !in REPLY_STRIPPED && forall n :: n in STRIPPED_HEADERS ==> n in REPLY_STRIPPED
  {
    hide REPLY_STRIPPED, STRIPPED_HEADERS;
    StrippedByReply();
    NoEmptyName();
    RepliesStripMore();
  }

  lemma StrippedByReply()
    ensures "from" in REPLY_STRIPPED && "to" in REPLY_STRIPPED && "reply-to" in REPLY_STRIPPED
    ensures "x-weiterleitung-alias" in REPLY_STRIPPED && "x-weiterleitung-sender" in REPLY_STRIPPED
  {
    assert REPLY_STRIPPED[0] == "from" && REPLY_STRIPPED[2] == "reply-to"
        && REPLY_STRIPPED[11] == "x-weiterleitung-alias";
    assert REPLY_STRIPPED[12] == "to" && REPLY_STRIPPED[15] == "x-weiterleitung-sender";
  }

  lemma NoEmptyName()
    ensures "" !in REPLY_STRIPPED
  {
  }

  lemma RepliesStripMore()
    ensures forall n :: n in STRIPPED_HEADERS ==> n in REPLY_STRIPPED
  {
    hide STRIPPED_HEADERS;
  }

  /** A reply written on top of a forwarded message is byte for byte the reply written on
      the original, exactly when `Absorbs` holds of the original. */
  lemma ReplyAbsorbsForward(raw: string, p: ForwardRewrite, q: ReplyRewrite)
    requires Normal(raw) && CleanForward(p)
    ensures ReplyMessage(ForwardMessage(raw, p), q) == ReplyMessage(raw, q)
            <==> Absorbs(raw, STRIPPED_HEADERS, REPLY_STRIPPED)
  {
    hide Absorbs, Rewritten, Inserted, Removes, RenderAll, CleanHeaders, CleanForward, REPLY_STRIPPED, STRIPPED_HEADERS,
         Normal;
    ForwardIsClean(p);
    InsertedAreStripped(ForwardHeaders(p));
    StrippedNames();
    RewriteAbsorbs(raw, RenderAll(ForwardHeaders(p)), STRIPPED_HEADERS, RenderAll(ReplyHeaders(q)), REPLY_STRIPPED);
  }

  /** A second reply rewrite erases the first exactly when no orphan line starts the message. */
  lemma ReplyAbsorbsReply(raw: string, p: ReplyRewrite, q: ReplyRewrite)
    requires Normal(raw) && CleanReply(p)
    ensures ReplyMessage(ReplyMessage(raw, p), q) == ReplyMessage(raw, q) <==> !IsContinuation(raw)
  {
    hide Rewritten, Inserted, Removes, RenderAll, CleanHeaders, CleanReply, REPLY_STRIPPED, STRIPPED_HEADERS, Normal;
    ReplyIsClean(p);
    InsertedAreStripped(ReplyHeaders(p));
    StrippedNames();
    RewriteAbsorbs(raw, RenderAll(ReplyHeaders(p)), REPLY_STRIPPED, RenderAll(ReplyHeaders(q)), REPLY_STRIPPED);
  }

  /** The body survives either rewrite exactly when the message does not start blank. */
  lemma BodySurvives(raw: string, p: ForwardRewrite, q: ReplyRewrite)
    requires Normal(raw) && CleanForward(p) && CleanReply(q)
    ensures SplitHeadersBody(ForwardMessage(raw, p)).1 == SplitHeadersBody(raw).1 <==> !StartsBlank(raw)
    ensures SplitHeadersBody(ReplyMessage(raw, q)).1 == SplitHeadersBody(raw).1 <==> !StartsBlank(raw)
  {
    hide Rewritten, Inserted, Removes, RenderAll, CleanHeaders, CleanForward, CleanReply, SplitHeadersBody, StartsBlank;
    ForwardIsClean(p);
    ReplyIsClean(q);
    RenderedIsInserted(ForwardHeaders(p));
    RenderedIsInserted(ReplyHeaders(q));
    StrippedNames();
    BodyPreserved(raw, RenderAll(ForwardHeaders(p)), STRIPPED_HEADERS);
    BodyPreserved(raw, RenderAll(ReplyHeaders(q)), REPLY_STRIPPED);
  }

  /** A first line that continues nothing: here the forward leaves a trace in the reply. */
  lemma OrphanExample(p: ForwardRewrite, q: ReplyRewrite)
    requires CleanForward(p)
    ensures var raw := " x" + CRLF;
            Normal(raw) && ReplyMessage(ForwardMessage(raw, p), q) != ReplyMessage(raw, q)
  {
    hide ForwardMessage, ReplyMessage, CleanForward, Join;
    var line := " x" + CRLF;
    assert IsLine(line) && EndsCrlf(line) && line[0] == ' ';
    OneLineIsNormal(line);
    ReplyAbsorbsForward(line, p, q);
  }

  /** A message whose first line is empty: what was its body becomes its header block. */
  lemma BlankStartExample(p: ForwardRewrite, q: ReplyRewrite)
    requires CleanForward(p) && CleanReply(q)
    ensures var raw := CRLF;
            && Normal(raw)
            && SplitHeadersBody(ForwardMessage(raw, p)).1 != SplitHeadersBody(raw).1
            && SplitHeadersBody(ReplyMessage(raw, q)).1 != SplitHeadersBody(raw).1
  {
    hide ForwardMessage, ReplyMessage, CleanForward, CleanReply, Join, SplitHeadersBody;
    var line := CRLF;
    assert IsLine(line) && EndsCrlf(line) && StartsBlank(line);
    OneLineIsNormal(line);
    BodySurvives(line, p, q);
  }

  // ---- How many sender marks a forward carries ----

  function CountNamed(fs: seq<Field>, name: string): nat {
    if fs == [] then 0 else CountNamed(fs[..|fs| - 1], name) + if Named(fs[|fs| - 1], [name]) then 1 else 0
  }

  lemma CountLast(fs: seq<Field>, f: Field, name: string)
    ensures CountNamed(fs + [f], name) == CountNamed(fs, name) + if Named(f, [name]) then 1 else 0
  {
    assert (fs + [f])[..|fs|] == fs;
  }

  lemma {:induction false} CountConcat(a: seq<Field>, b: seq<Field>, name: string)
    ensures CountNamed(a + b, name) == CountNamed(a, name) + CountNamed(b, name)
  {
    if b == [] {
      assert a + b == a;
    } else {
      var n := |b| - 1;
      assert (a + b)[..|a + b| - 1] == a + b[..n];
      CountConcat(a, b[..n], name);
    }
  }

  lemma {:induction false} CountKeep(fs: seq<Field>, names: seq<string>, name: string)
    ensures CountNamed(Keep(fs, names), name) == if name in names then 0 else CountNamed(fs, name)
  {
    if fs != [] {
      var n := |fs| - 1;
      CountKeep(fs[..n], names, name);
      CountLast(Keep(fs[..n], names), fs[n], name);
    }
  }

  lemma {:induction false} CountRendered(hs: seq<Header>, name: string)
    requires forall i :: 0 <= i < |hs| ==> CleanHeader(hs[i])
    ensures CountNamed(Group(RenderAll(hs)), name)
            == if hs == [] then 0
               else CountNamed(Group(RenderAll(hs[..|hs| - 1])), name)
                    + if ToLower(hs[|hs| - 1].name) == name then 1 else 0
  {
    hide Named;
    if hs != [] {
      var n := |hs| - 1;
      var ls, l := RenderAll(hs[..n]), Render(hs[n]);
      RenderedLine(hs[n]);
      assert RenderAll(hs) == ls + [l] && (ls + [l])[..n] == ls;
      CountLast(Group(ls), [l], name);
      NamedLine(l, name);
    }
  }

  lemma NamedLine(l: string, name: string)
    requires l != "" && !IsContinuation(l)
    ensures Named([l], [name]) <==> NameOf(l) == name
  {
    hide NameOf;
  }

  /** A forward carries one `X-Weiterleitung-Sender` more than the message it was made from,
      and a reply none. */
  lemma SenderMarksAddUp(raw: string, p: ForwardRewrite, q: ReplyRewrite)
    requires Normal(raw) && CleanForward(p) && CleanReply(q) && !StartsBlank(raw) && !IsContinuation(raw)
    ensures CountNamed(Fields(SplitHeadersBody(ForwardMessage(raw, p)).0), SENDER_MARK)
            == 1 + CountNamed(Fields(SplitHeadersBody(raw).0), SENDER_MARK)
    ensures CountNamed(Fields(SplitHeadersBody(ReplyMessage(raw, q)).0), SENDER_MARK) == 0
  {
    hide Rewritten, SplitHeadersBody, Normal, StartsBlank, IsContinuation, CountNamed, RenderAll, Group, Fields, Keep,
         QuotedAddress;
    ForwardIsClean(p);
    ReplyIsClean(q);
    HeadersAfterRewrite(raw, ForwardHeaders(p), STRIPPED_HEADERS, "");
    HeadersAfterRewrite(raw, ReplyHeaders(q), REPLY_STRIPPED, "");
    var fs := Fields(SplitHeadersBody(raw).0);
    CountKeep(fs, STRIPPED_HEADERS, SENDER_MARK);
    CountKeep(fs, REPLY_STRIPPED, SENDER_MARK);
    CountConcat(Group(RenderAll(ForwardHeaders(p))), Keep(fs, STRIPPED_HEADERS), SENDER_MARK);
    CountConcat(Group(RenderAll(ReplyHeaders(q))), Keep(fs, REPLY_STRIPPED), SENDER_MARK);
    MarksInserted(p, q);
  }

  const SENDER_MARK := "x-weiterleitung-sender"

  lemma MarksInserted(p: ForwardRewrite, q: ReplyRewrite)
    requires CleanHeaders(ForwardHeaders(p)) && CleanHeaders(ReplyHeaders(q))
    ensures CountNamed(Group(RenderAll(ForwardHeaders(p))), SENDER_MARK) == 1
    ensures CountNamed(Group(RenderAll(ReplyHeaders(q))), SENDER_MARK) == 0
  {
    hide QuotedAddress, CountNamed, Group, CleanHeader, ToLower;
    var hs, rs := ForwardHeaders(p), ReplyHeaders(q);
    HeaderNames();
    CountRendered([], SENDER_MARK);
    CountRendered(hs[..1], SENDER_MARK);
    CountRendered(hs[..2], SENDER_MARK);
    CountRendered(hs[..3], SENDER_MARK);
    CountRendered(hs, SENDER_MARK);
    CountRendered(rs[..1], SENDER_MARK);
    CountRendered(rs[..2], SENDER_MARK);
    CountRendered(rs, SENDER_MARK);
    assert hs[..1][..0] == [] && hs[..2][..1] == hs[..1] && hs[..3][..2] == hs[..2];
    assert rs[..1][..0] == [] && rs[..2][..1] == rs[..1];
  }

  /** A message that already names a sender: its forward names two. */
  lemma TwoSendersExample(p: ForwardRewrite)
    requires CleanForward(p)
    ensures var raw := "X-Weiterleitung-Sender: e@e.ee" + CRLF;
            Normal(raw) && CountNamed(Fields(SplitHeadersBody(ForwardMessage(raw, p)).0), SENDER_MARK) == 2
  {
    hide ForwardMessage, CleanForward, SplitHeadersBody, Fields, ToLower, StartsBlank, Normal, CleanHeader, NameOf,
         IsContinuation, IsLine, EndsCrlf;
    var mark := Header("X-Weiterleitung-Sender", "e@e.ee");
    var raw := "X-Weiterleitung-Sender: e@e.ee" + CRLF;
    assert raw == Render(mark);
    MarkIsClean(mark);
    HeaderNames();
    OneField(raw);
    NamedLine(raw, SENDER_MARK);
    SenderMarksAddUp(raw, p, ReplyRewrite("", ""));
    CountOne([raw], SENDER_MARK);
  }

  lemma MarkIsClean(mark: Header)
    requires mark == Header("X-Weiterleitung-Sender", "e@e.ee")
    ensures var l := Render(mark);
            IsLine(l) && EndsCrlf(l) && l != CRLF && !IsContinuation(l) && NameOf(l) == ToLower(mark.name)
  {
    hide ToLower, NameOf, Trimmed;
    TrimmedMark();
    RenderedLine(mark);
  }

  lemma TrimmedMark()
    ensures Trimmed("X-Weiterleitung-Sender")
  {
  }

  lemma CountOne(f: Field, name: string)
    ensures CountNamed([f], name) == if Named(f, [name]) then 1 else 0
  {
  }

  /** A message of one header line. */
  lemma OneField(line: string)
    requires IsLine(line) && EndsCrlf(line) && line != CRLF && !IsContinuation(line)
    ensures Normal(line) && !StartsBlank(line) && Fields(SplitHeadersBody(line).0) == [[line]]
  {
    hide Normal, SplitHeadersBody;
    OneLineIsNormal(line);
    FirstOfLines(line, "");
    assert line + "" == line && (|line| > 2 ==> line[1] != '\n');
    HeaderFieldsOfSplit(line);
    assert HeaderLines(line) == [line];
    GroupNext([line], 0);
    assert [line][..1] == [line];
  }

  lemma OneLineIsNormal(line: string)
    requires IsLine(line) && EndsCrlf(line)
    ensures Normal(line)
  {
    hide IsLine, EndsCrlf, Normal;
    LinesOfCrlf([line]);
    assert Join([line]) == line;
  }

  /** The header block of a rewritten message: inserted fields, then every kept field. */
  lemma HeadersAfterRewrite(raw: string, hs: seq<Header>, names: seq<string>, name: string)
    requires Normal(raw) && CleanHeaders(hs) && !StartsBlank(raw) && !IsContinuation(raw)
    ensures var headers := SplitHeadersBody(Rewritten(raw, RenderAll(hs), names)).0;
            && Fields(headers) == Group(RenderAll(hs)) + Keep(Fields(SplitHeadersBody(raw).0), names)
            && HeaderValue(headers, name)
               == if FirstOf(hs, name).Some? then FirstOf(hs, name)
                  else if ToLower(name) in names then None
                  else HeaderValue(SplitHeadersBody(raw).0, name)
  {
    hide Rewritten, Inserted, RenderAll, Normal, StartsBlank, IsContinuation, Fields, Group, Keep, Lookup, FirstOf,
         SplitHeadersBody, HeaderFieldsOf, CleanHeader;
    var lines := RenderAll(hs);
    RenderedIsInserted(hs);
    RewrittenLines(raw, lines, names);
    FieldsAfterRewrite(raw, lines, names);
    HeaderFieldsOfSplit(raw);
    HeaderFieldsOfSplit(Rewritten(raw, lines, names));
    LookupRendered(hs, name);
    LookupConcat(Group(lines), Keep(HeaderFieldsOf(raw), names), name);
    LookupKeep(HeaderFieldsOf(raw), names, name);
  }

  /** The fields that no relayed message keeps, besides those that a rewrite writes anew. */
  predicate NeverRelayed(name: string) {
    || name == "sender" || name == "return-path" || name == "dkim-signature" || name == "domainkey-signature"
    || name == "arc-authentication-results" || name == "arc-message-signature" || name == "arc-seal"
    || name == "authentication-results" || name == "received-spf"
  }

  lemma ForwardsStripExactly(name: string)
    ensures name in STRIPPED_HEADERS <==>
            NeverRelayed(name) || name == "from" || name == "reply-to" || name == "x-weiterleitung-alias"
  {
  }

  lemma RepliesStripExactly(name: string)
    ensures name in REPLY_STRIPPED <==>
            || NeverRelayed(name) || name == "from" || name == "reply-to" || name == "x-weiterleitung-alias"
            || name == "to" || name == "cc" || name == "bcc" || name == "x-weiterleitung-sender"
  {
    hide STRIPPED_HEADERS, NeverRelayed;
    ForwardsStripExactly(name);
  }

  /** What the mailbox reads in a forwarded message. */
  lemma ForwardedHeaders(raw: string, p: ForwardRewrite, name: string)
    requires Normal(raw) && CleanForward(p) && !StartsBlank(raw) && !IsContinuation(raw)
    ensures HeaderValue(SplitHeadersBody(ForwardMessage(raw, p)).0, name)
            == match ToLower(name)
               case "from" => Some(Trim(QuotedAddress(SenderDisplay(p), p.reverseAlias)))
               case "reply-to" => Some(Trim(p.reverseAlias))
               case "x-weiterleitung-alias" => Some(Trim(p.alias))
               case "x-weiterleitung-sender" => Some(Trim(p.senderEmail))
               case other => if NeverRelayed(other) then None else HeaderValue(SplitHeadersBody(raw).0, name)
  {
    hide Rewritten, SplitHeadersBody, Trim, QuotedAddress, ToLower, HeaderValue, Normal, StartsBlank, IsContinuation,
         NeverRelayed, STRIPPED_HEADERS;
    ForwardsStripExactly(ToLower(name));
    ForwardIsClean(p);
    HeadersAfterRewrite(raw, ForwardHeaders(p), STRIPPED_HEADERS, name);
    HeaderNames();
    var hs := ForwardHeaders(p);
    FirstOfThree(hs[0], hs[1], hs[2], name);
    assert hs == [hs[0], hs[1], hs[2]] + [hs[3]];
    FirstOfLast([hs[0], hs[1], hs[2]], hs[3], name);
  }

  /** What the contact reads in a reply: the alias, its own address, and none of the
      mailbox's sender or recipient fields. */
  lemma RepliedHeaders(raw: string, q: ReplyRewrite, name: string)
    requires Normal(raw) && CleanReply(q) && !StartsBlank(raw) && !IsContinuation(raw)
    ensures HeaderValue(SplitHeadersBody(ReplyMessage(raw, q)).0, name)
            == match ToLower(name)
               case "from" => Some(Trim(q.alias))
               case "to" => Some(Trim(q.contactEmail))
               case "x-weiterleitung-alias" => Some(Trim(q.alias))
               case "reply-to" => None
               case "cc" => None
               case "bcc" => None
               case "x-weiterleitung-sender" => None
               case other => if NeverRelayed(other) then None else HeaderValue(SplitHeadersBody(raw).0, name)
  {
    hide Rewritten, SplitHeadersBody, Trim, ToLower, HeaderValue, Normal, StartsBlank, IsContinuation, NeverRelayed,
         REPLY_STRIPPED;
    RepliesStripExactly(ToLower(name));
    ReplyIsClean(q);
    HeadersAfterRewrite(raw, ReplyHeaders(q), REPLY_STRIPPED, name);
    HeaderNames();
    var hs := ReplyHeaders(q);
    FirstOfThree(hs[0], hs[1], hs[2], name);
  }

  lemma FirstOfLast(hs: seq<Header>, h: Header, name: string)
    ensures FirstOf([], name) == None
    ensures FirstOf(hs + [h], name)
            == if FirstOf(hs, name).Some? then FirstOf(hs, name)
               else if EqIgnoreCase(h.name, name) then Some(Trim(h.value))
               else None
  {
    assert (hs + [h])[..|hs|] == hs;
  }

  lemma FirstOfThree(a: Header, b: Header, c: Header, name: string)
    ensures FirstOf([a, b, c], name)
            == if EqIgnoreCase(a.name, name) then Some(Trim(a.value))
               else if EqIgnoreCase(b.name, name) then Some(Trim(b.value))
               else if EqIgnoreCase(c.name, name) then Some(Trim(c.value))
               else None
  {
    hide FirstOf, EqIgnoreCase, Trim;
    FirstOfLast([], a, name);
    FirstOfLast([a], b, name);
    FirstOfLast([a, b], c, name);
    assert [] + [a] == [a] && [a] + [b] == [a, b] && [a, b] + [c] == [a, b, c];
  }
}
