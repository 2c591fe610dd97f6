/** src/domain/email_address.rs: parser, printer and lookup key of addresses. */
module EmailAddress {
  import opened Ascii
  import opened Basics

  datatype Address = Address(localPart: string, domain: string) {
    function Print(): string { localPart + "@" + domain }

    function Normalised(): string { ToLower(localPart) + "@" + domain }
  }

  const FORBIDDEN: set<char> := {'<', '>', ',', ';', '"', '\\'}

  predicate ValidLocal(s: string) {
    0 < |s| <= 64 && forall i :: 0 <= i < |s| ==> !IsSpace(s[i]) && s[i] !in FORBIDDEN
  }

  predicate DoubleDot(s: string, i: nat)
    requires i + 1 < |s|
  {
    s[i] == '.' && s[i + 1] == '.'
  }

  predicate ValidDomain(s: string) {
    && 0 < |s| <= 255
    && '.' in s && s[0] != '.'
    && (forall i :: 0 <= i < |s| - 1 ==> !DoubleDot(s, i))
    && (forall i :: 0 <= i < |s| ==> IsAlphanumeric(s[i]) || s[i] == '.' || s[i] == '-')
  }

  /** White space and angle brackets around the address are ignored. */
  function Bare(text: string): string {
    TrimEnd(IsGreater, TrimStart(IsLess, Trim(text)))
  }

  function Parse(text: string): (r: Option<Address>)
    ensures r.Some? ==> Canonical(r.value)
  {
    var s := Bare(text);
    var at := FindLast(s, '@');
    if at == |s| then None else Checked(s[..at], s[at + 1..])
  }

  function Checked(localPart: string, rawDomain: string): (r: Option<Address>)
    ensures r.Some? ==> Canonical(r.value)
  {
    var domain := ToLower(TrimEnd(IsDot, rawDomain));
    ToLowerIdempotent(TrimEnd(IsDot, rawDomain));
    if ValidLocal(localPart) && ValidDomain(domain) then Some(Address(localPart, domain)) else None
  }

  /** The addresses that parsing can produce. */
  predicate Canonical(a: Address) {
    && ValidLocal(a.localPart)
    && ValidDomain(a.domain)
    && ToLower(a.domain) == a.domain
    && a.domain[|a.domain| - 1] != '.'
  }

  /** Text that is already `local@domain` with valid parts: nothing is trimmed and the
      split falls on the last `@`, whatever the local part holds. */
  lemma ParseOfParts(localPart: string, domain: string)
    requires ValidLocal(localPart)
    requires domain != [] && domain[|domain| - 1] != '.'
    requires forall i :: 0 <= i < |domain| ==> IsAlphanumeric(domain[i]) || domain[i] == '.' || domain[i] == '-'
    ensures Parse(localPart + "@" + domain)
            == if ValidDomain(ToLower(domain)) then Some(Address(localPart, ToLower(domain))) else None
  {
    var text, at := localPart + "@" + domain, |localPart|;
    BareOfParts(localPart, domain);
    assert text[..at] == localPart && text[at + 1..] == domain;
    assert TrimEnd(IsDot, domain) == domain;
    hide Bare, ValidDomain, ValidLocal, TrimEnd, IsAlphanumeric;
    FindLastIs(text, '@', at);
  }

  lemma BareOfParts(localPart: string, domain: string)
    requires ValidLocal(localPart)
    requires domain != [] && !IsSpace(domain[|domain| - 1]) && domain[|domain| - 1] != '>'
    ensures Bare(localPart + "@" + domain) == localPart + "@" + domain
  {
    var text := localPart + "@" + domain;
    assert text[0] == localPart[0] && text[|text| - 1] == domain[|domain| - 1];
    hide ValidDomain, Trim;
    assert Trim(text) == text;
  }

  /** Every canonical address, so every address ever parsed, survives printing. */
  lemma ParsePrint(a: Address)
    requires Canonical(a)
    ensures Parse(a.Print()) == Some(a)
  {
    ParseOfParts(a.localPart, a.domain);
  }

  /** The lookup key parses, and is its own lookup key. */
  lemma ParseNormalised(a: Address)
    requires Canonical(a)
    ensures Parse(a.Normalised()) == Some(Address(ToLower(a.localPart), a.domain))
    ensures Parse(a.Normalised()).value.Normalised() == a.Normalised()
  {
    LoweredStaysValid(a.localPart);
    ParseOfParts(ToLower(a.localPart), a.domain);
    ToLowerIdempotent(a.localPart);
  }

  // ---- Which texts are addresses, in characters ----

  predicate IsWhite(c: char) { c == ' ' || c == '\t' || c == '\n' || c == '\U{B}' || c == '\U{C}' || c == '\r' }

  predicate AcceptedLocal(l: string) {
    && 1 <= |l| <= 64
    && forall i :: 0 <= i < |l| ==> !IsWhite(l[i]) && l[i] !in {'<', '>', ',', ';', '"', '\\'}
  }

  predicate AcceptedDomain(d: string) {
    && 1 <= |d| <= 255 && '.' in d && d[0] != '.'
    && (forall i :: 0 < i < |d| ==> !(d[i - 1] == '.' && d[i] == '.'))
    && forall i :: 0 <= i < |d| ==>
         'a' <= d[i] <= 'z' || 'A' <= d[i] <= 'Z' || '0' <= d[i] <= '9' || d[i] == '.' || d[i] == '-'
  }

  predicate AllWhite(s: string) { forall i :: 0 <= i < |s| ==> IsWhite(s[i]) }

  predicate AllAre(s: string, c: char) { forall i :: 0 <= i < |s| ==> s[i] == c }

  /** Neither part begins or ends with what is undone around it. */
  predicate NoneAtEnds(l: string, d: string) {
    && (l != "" ==> !IsWhite(l[0]) && l[0] != '<')
    && (d != "" ==> !IsWhite(d[|d| - 1]) && d[|d| - 1] != '>' && d[|d| - 1] != '.')
  }

  /** Exactly these texts are addresses: a local part of 1 to 64 characters, none of them white
      space or one of six others, and a domain of letters, digits, hyphens and single inner
      dots. White space and angle brackets around the address and dots behind it are undone,
      and so is upper case in the domain. */
  lemma ParseExactly(before: string, less: string, l: string, d: string, dots: string, greater: string, after: string)
    requires AllWhite(before) && AllWhite(after)
    requires AllAre(less, '<') && AllAre(dots, '.') && AllAre(greater, '>') && '@' !in d && NoneAtEnds(l, d)
    ensures var r := Parse(before + less + l + "@" + d + dots + greater + after);
            && (r.Some? <==> AcceptedLocal(l) && AcceptedDomain(d))
            && (r.Some? ==> r.value.localPart == l && Spells(d, r.value.domain))
  {
    hide Bare, ValidLocal, ValidDomain, AcceptedLocal, AcceptedDomain, Spells, AllWhite, NoneAtEnds, IsWhite, TrimEnd,
         AllAre;
    var tail := d + dots;
    var inner := l + "@" + tail;
    BareExactly(before, less, inner, greater, after, l, d, dots);
    Regrouped(before, less, l, d, dots, greater, after);
    DotsBehind(d, dots, l);
    LastPart(l, tail);
    LocalExactly(l);
    DomainExactly(d);
  }

  lemma Regrouped(before: string, less: string, l: string, d: string, dots: string, greater: string, after: string)
    ensures before + less + l + "@" + d + dots + greater + after
            == before + (less + (l + "@" + (d + dots)) + greater) + after
  {
  }

  lemma DotsBehind(d: string, dots: string, l: string)
    requires '@' !in d && AllAre(dots, '.') && NoneAtEnds(l, d)
    ensures '@' !in d + dots && TrimEnd(IsDot, d + dots) == d
  {
    TrimEndIs(IsDot, d, dots);
  }

  lemma BareExactly(before: string, less: string, inner: string, greater: string, after: string, l: string, d: string,
                    dots: string)
    requires AllWhite(before) && AllWhite(after) && NoneAtEnds(l, d)
    requires AllAre(less, '<') && AllAre(dots, '.') && AllAre(greater, '>') && inner == l + "@" + (d + dots)
    ensures Bare(before + (less + inner + greater) + after) == inner
  {
    hide Trim, AllWhite, NoneAtEnds, AllAre, IsWhite, TrimStart, TrimEnd;
    Inner(inner, l, d, dots);
    Whole(less, inner, greater);
    TrimAround(before, less + inner + greater, after);
    BracketsAround(less, inner, greater);
  }

  lemma Inner(inner: string, l: string, d: string, dots: string)
    requires NoneAtEnds(l, d) && AllAre(dots, '.') && inner == l + "@" + (d + dots)
    ensures inner != "" && !IsWhite(inner[0]) && inner[0] != '<'
    ensures !IsWhite(inner[|inner| - 1]) && inner[|inner| - 1] != '>'
  {
    assert inner[0] == if l != "" then l[0] else '@';
    assert inner[|inner| - 1] == if dots != "" then dots[|dots| - 1] else if d != "" then d[|d| - 1] else '@';
  }

  lemma Whole(less: string, inner: string, greater: string)
    requires AllAre(less, '<') && AllAre(greater, '>') && inner != ""
    requires !IsWhite(inner[0]) && !IsWhite(inner[|inner| - 1])
    ensures Trimmed(less + inner + greater)
  {
    var w := less + inner + greater;
    assert w[0] == if less != "" then less[0] else inner[0];
    assert w[|w| - 1] == if greater != "" then greater[|greater| - 1] else inner[|inner| - 1];
  }

  lemma TrimAround(before: string, whole: string, after: string)
    requires AllWhite(before) && AllWhite(after) && Trimmed(whole)
    ensures Trim(before + whole + after) == whole
  {
    hide Trim, Indent, Trimmed;
    var s, n := before + whole + after, |before| + |whole|;
    assert s[|before|..n] == whole;
    forall k | 0 <= k < |before| || n <= k < |s| ensures IsSpace(s[k]) {
      assert s[k] == if k < |before| then before[k] else after[k - n];
    }
    TrimIs(s, |before|, n);
  }

  lemma BracketsAround(less: string, inner: string, greater: string)
    requires AllAre(less, '<') && AllAre(greater, '>') && inner != ""
    requires inner[0] != '<' && inner[|inner| - 1] != '>'
    ensures TrimEnd(IsGreater, TrimStart(IsLess, less + inner + greater)) == inner
  {
    assert less + inner + greater == less + (inner + greater) && (inner + greater)[0] == inner[0];
    TrimStartIs(IsLess, less, inner + greater);
    TrimEndIs(IsGreater, inner, greater);
  }

  lemma LocalExactly(l: string)
    ensures ValidLocal(l) <==> AcceptedLocal(l)
  {
  }

  lemma DomainExactly(d: string)
    ensures ValidDomain(ToLower(d)) <==> AcceptedDomain(d)
    ensures Spells(d, ToLower(d))
  {
    var r := ToLower(d);
    SpellsIsLower(d, r);
    assert forall i :: 0 <= i < |d| ==> (r[i] == '.' <==> d[i] == '.');
    DotsExactly(d, r);
  }

  lemma DotsExactly(d: string, r: string)
    requires |r| == |d| && forall i :: 0 <= i < |d| ==> (r[i] == '.' <==> d[i] == '.')
    ensures '.' in r <==> '.' in d
    ensures (forall i :: 0 <= i < |r| - 1 ==> !DoubleDot(r, i)) <==>
            (forall i :: 0 < i < |d| ==> !(d[i - 1] == '.' && d[i] == '.'))
  {
    if forall i :: 0 <= i < |r| - 1 ==> !DoubleDot(r, i) {
      forall i | 0 < i < |d| ensures !(d[i - 1] == '.' && d[i] == '.') {
        assert !DoubleDot(r, i - 1);
      }
    } else {
      var i :| 0 <= i < |r| - 1 && DoubleDot(r, i);
      assert d[i + 1 - 1] == '.' && d[i + 1] == '.';
    }
    if i :| 0 <= i < |d| && d[i] == '.' {
      assert r[i] == '.';
    }
    if i :| 0 <= i < |r| && r[i] == '.' {
      assert d[i] == '.';
    }
  }

  lemma NoAtNoAddress(text: string)
    requires '@' !in text
    ensures Parse(text) == None
  {
    hide Trim, Indent;
    assert forall i :: 0 <= i < |Trim(text)| ==> Trim(text)[i] == text[Indent(text) + i];
  }

  /** The address that a stored key stands for, if looking that key up finds it. */
  predicate IsKey(s: string) {
    Parse(s).Some? && Parse(s).value.Normalised() == s
  }

  /** The token alphabet of src/alias/generator.rs:11-17. */
  predicate IsToken(s: string) {
    |s| == 12 && forall i :: 0 <= i < |s| ==> '0' <= s[i] <= '9' || 'a' <= s[i] <= 'z'
  }

  /** `{prefix}.{token}@{domain}` (src/contact/mod.rs:49-52). */
  function ReverseAlias(prefix: string, token: string, domain: string): string {
    prefix + "." + token + "@" + domain
  }

  /** Lower-case text that can be part of a local part. */
  predicate Plain(s: string) { forall i :: 0 <= i < |s| ==> PlainChar(s[i]) }

  predicate PlainChar(c: char) { Lower(c) == c && !IsSpace(c) && c !in FORBIDDEN }

  predicate GoodDomain(s: string) {
    ValidDomain(s) && ToLower(s) == s && s[|s| - 1] != '.'
  }

  /** What the parser takes for the domain: everything behind the last `@`. */
  function DomainPart(domain: string): (r: string)
    ensures '@' !in r
  {
    var at := FindLast(domain, '@');
    if at == |domain| then domain else domain[at + 1..]
  }

  /** What it adds to the local part instead. */
  function LocalRest(domain: string): (r: string)
    ensures ReverseAlias("", "", domain) == "." + r + "@" + DomainPart(domain)
  {
    var at := FindLast(domain, '@');
    if at == |domain| then "" else
    assert domain == domain[..at] + "@" + domain[at + 1..];
    "@" + domain[..at]
  }

  /** What the configured prefix and default domain must look like for reverse aliases to be
      found again. */
  predicate WellConfigured(prefix: string, domain: string) {
    && |prefix| + |LocalRest(domain)| <= 51
    && Plain(prefix) && Plain(LocalRest(domain)) && GoodDomain(DomainPart(domain))
  }

  /** For a domain without `@` these are plain conditions on both. */
  lemma WellConfiguredDomain(prefix: string, domain: string)
    requires '@' !in domain
    ensures WellConfigured(prefix, domain) <==> |prefix| <= 51 && Plain(prefix) && GoodDomain(domain)
    ensures DomainPart(domain) == domain
  {
    assert FindLast(domain, '@') == |domain|;
  }

  lemma LastPart(before: string, after: string)
    requires '@' !in after
    ensures var s := before + "@" + after;
            FindLast(s, '@') == |before| && s[..|before|] == before && s[|before| + 1..] == after
  {
    var s := before + "@" + after;
    assert s[|before| + 1..] == after;
    FindLastIs(s, '@', |before|);
  }

  lemma ReverseAliasParts(prefix: string, token: string, domain: string)
    ensures ReverseAlias(prefix, token, domain) == prefix + "." + token + LocalRest(domain) + "@" + DomainPart(domain)
  {
    var at := FindLast(domain, '@');
    if at < |domain| {
      assert domain == domain[..at] + "@" + domain[at + 1..];
    }
  }

  /** Whatever token is drawn, a generated reverse alias is found again exactly when the
      configured prefix and domain are in the form the parser normalises to. */
  lemma ReverseAliasIsKey(prefix: string, token: string, domain: string)
    requires IsToken(token)
    ensures var s := ReverseAlias(prefix, token, domain);
            && (IsKey(s) <==> WellConfigured(prefix, domain))
            && (IsKey(s) ==> Parse(s).value.domain == DomainPart(domain))
  {
    hide Parse, ValidDomain, ReverseAlias, DomainPart, LocalRest;
    var localPart, tail := prefix + "." + token + LocalRest(domain), DomainPart(domain);
    var s := ReverseAlias(prefix, token, domain);
    ReverseAliasParts(prefix, token, domain);
    LowerParts(prefix, token, LocalRest(domain));
    if WellConfigured(prefix, domain) {
      DomainShape(tail);
      ParseOfParts(localPart, tail);
    }
    if IsKey(s) {
      KeyOfParts(localPart, tail, Parse(s).value);
    }
  }

  /** A local part around a token is valid and lower case exactly if the rest of it is. */
  lemma LowerParts(prefix: string, token: string, rest: string)
    requires IsToken(token)
    ensures var l := prefix + "." + token + rest;
            ValidLocal(l) && ToLower(l) == l <==> |prefix| + |rest| <= 51 && Plain(prefix) && Plain(rest)
  {
    hide Plain;
    TokenIsPlain(token);
    PlainConcat(prefix, ".");
    PlainConcat(prefix + ".", token);
    PlainConcat(prefix + "." + token, rest);
    PlainIsValid(prefix + "." + token + rest);
  }

  lemma TokenIsPlain(token: string)
    requires IsToken(token)
    ensures Plain(token) && Plain(".")
  {
  }

  lemma PlainIsValid(s: string)
    ensures ValidLocal(s) && ToLower(s) == s <==> 0 < |s| <= 64 && Plain(s)
  {
    assert ToLower(s) == s <==> forall i :: 0 <= i < |s| ==> Lower(s[i]) == s[i];
  }

  lemma PlainConcat(a: string, b: string)
    ensures Plain(a + b) <==> Plain(a) && Plain(b)
  {
    hide PlainChar;
    var s := a + b;
    assert forall i :: 0 <= i < |a| ==> s[i] == a[i];
    assert forall i :: 0 <= i < |b| ==> s[|a| + i] == b[i];
  }

  lemma DomainShape(domain: string)
    requires GoodDomain(domain)
    ensures domain != [] && domain[|domain| - 1] != '.'
    ensures forall i :: 0 <= i < |domain| ==> IsAlphanumeric(domain[i]) || domain[i] == '.' || domain[i] == '-'
  {
  }

  lemma DomainHasNoAt(a: Address)
    requires Canonical(a)
    ensures '@' !in a.domain && GoodDomain(a.domain)
  {
  }

  lemma KeyOfParts(localPart: string, domain: string, a: Address)
    requires Canonical(a) && a.Normalised() == localPart + "@" + domain && '@' !in domain
    ensures a.domain == domain && GoodDomain(domain) && ValidLocal(localPart) && ToLower(localPart) == localPart
  {
    DomainHasNoAt(a);
    LastPart(localPart, domain);
    LastPart(ToLower(a.localPart), a.domain);
    LoweredStaysValid(a.localPart);
    ToLowerIdempotent(a.localPart);
  }

  lemma LoweredStaysValid(s: string)
    requires ValidLocal(s)
    ensures ValidLocal(ToLower(s))
  {
    forall i | 0 <= i < |s| ensures !IsSpace(Lower(s[i])) && Lower(s[i]) !in FORBIDDEN {
    }
  }
}
