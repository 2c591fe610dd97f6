/** Lines and (folded) header fields of a raw message: src/smtp/rewrite.rs:42-89. */
module HeaderFields {
  import opened Ascii
  import opened Basics

  const CRLF: string := "\r\n"

  function Join(ls: seq<string>): string {
    if ls == [] then "" else ls[0] + Join(ls[1..])
  }

  lemma {:induction false} JoinConcat(a: seq<string>, b: seq<string>)
    ensures Join(a + b) == Join(a) + Join(b)
  {
    if a == [] {
      assert a + b == b;
    } else {
      assert (a + b)[1..] == a[1..] + b;
      JoinConcat(a[1..], b);
    }
  }

  predicate IsLine(l: string) { l != "" && forall i :: 0 <= i < |l| - 1 ==> l[i] != '\n' }

  predicate Ended(l: string) { l != "" && l[|l| - 1] == '\n' }

  predicate AllEnded(ls: seq<string>) { forall i :: 0 <= i < |ls| ==> Ended(ls[i]) }

  /** What splitting at line feeds can produce: only the last line may lack one. */
  predicate LineList(ls: seq<string>) {
    forall i :: 0 <= i < |ls| ==> IsLine(ls[i]) && (i < |ls| - 1 ==> Ended(ls[i]))
  }

  /** `split_inclusive('\n')`. */
  function Lines(s: string): (ls: seq<string>)
    ensures LineList(ls) && Join(ls) == s
    decreases |s|
  {
    if s == "" then [] else
    var i := Find(s, '\n');
    if i == |s| then
      assert s[..|s|] == s;
      [s]
    else
      var rest := Lines(s[i + 1..]);
      assert ([s[..i + 1]] + rest)[1..] == rest;
      [s[..i + 1]] + rest
  }

  /** Lines are recovered from their concatenation, so `Lines` and `Join` are inverse. */
  lemma {:induction false} LinesOfJoin(ls: seq<string>)
    requires LineList(ls)
    ensures Lines(Join(ls)) == ls
  {
    if ls != [] {
      LinesOfJoin(ls[1..]);
      FirstOfLines(ls[0], Join(ls[1..]));
    }
  }

  lemma FirstOfLines(l: string, rest: string)
    requires IsLine(l) && (Ended(l) || rest == "")
    ensures Lines(l + rest) == [l] + Lines(rest)
  {
    if Ended(l) {
      FindIs(l + rest, '\n', |l| - 1);
      assert (l + rest)[..|l|] == l && (l + rest)[|l|..] == rest;
    } else {
      assert l + rest == l;
    }
  }

  lemma LineListConcat(a: seq<string>, b: seq<string>)
    requires LineList(a) && AllEnded(a) && LineList(b)
    ensures LineList(a + b)
    ensures AllEnded(b) ==> AllEnded(a + b)
  {
    hide IsLine, Ended;
    var ls := a + b;
    forall i | 0 <= i < |ls| ensures IsLine(ls[i]) && (i < |ls| - 1 || AllEnded(b) ==> Ended(ls[i])) {
      if i < |a| { assert ls[i] == a[i]; } else { assert ls[i] == b[i - |a|]; }
    }
  }

  lemma LinesConcat(a: string, b: string)
    requires AllEnded(Lines(a))
    ensures Lines(a + b) == Lines(a) + Lines(b)
  {
    hide *;
    JoinConcat(Lines(a), Lines(b));
    LineListConcat(Lines(a), Lines(b));
    LinesOfJoin(Lines(a) + Lines(b));
  }

  /** A prefix of a list of lines has only ended lines unless it is the whole list. */
  lemma LineListPrefix(a: seq<string>, b: seq<string>)
    requires LineList(a + b)
    ensures LineList(a) && LineList(b)
    ensures b != [] || AllEnded(a + b) ==> AllEnded(a)
    ensures AllEnded(a + b) ==> AllEnded(b)
  {
    hide IsLine, Ended;
    var ls := a + b;
    assert forall i :: 0 <= i < |a| ==> a[i] == ls[i];
    assert forall i :: 0 <= i < |b| ==> b[i] == ls[|a| + i];
  }

  // ---- Fields: a line and the continuation lines folded onto it ----

  type Field = seq<string>

  predicate IsContinuation(l: string) { l != "" && (l[0] == ' ' || l[0] == '\t') }

  /** A continuation line belongs to the field before it, any other line opens a field. */
  function Append(fs: seq<Field>, line: string): seq<Field> {
    if IsContinuation(line) && fs != []
    then fs[..|fs| - 1] + [fs[|fs| - 1] + [line]]
    else fs + [[line]]
  }

  /** The fields of a list of lines; leading continuation lines are an orphan field. */
  function Group(ls: seq<string>): seq<Field> {
    if ls == [] then [] else Append(Group(ls[..|ls| - 1]), ls[|ls| - 1])
  }

  lemma GroupNext(ls: seq<string>, i: nat)
    requires i < |ls|
    ensures Group(ls[..i + 1]) == Append(Group(ls[..i]), ls[i])
  {
    assert ls[..i + 1][..i] == ls[..i];
  }

  function Flatten(fs: seq<Field>): seq<string> {
    if fs == [] then [] else Flatten(fs[..|fs| - 1]) + fs[|fs| - 1]
  }

  /** What grouping can produce: only the first field may be an orphan. */
  ghost predicate Grouped(fs: seq<Field>) {
    forall i :: 0 <= i < |fs| ==>
      && fs[i] != []
      && (i > 0 ==> !IsContinuation(fs[i][0]))
      && (forall j :: 0 < j < |fs[i]| ==> IsContinuation(fs[i][j]))
  }

  lemma AppendLine(fs: seq<Field>, line: string)
    requires Grouped(fs)
    ensures Grouped(Append(fs, line))
    ensures Flatten(Append(fs, line)) == Flatten(fs) + [line]
  {
    var fs' := Append(fs, line);
    if IsContinuation(line) && fs != [] {
      assert fs'[..|fs'| - 1] == fs[..|fs| - 1];
    } else {
      assert fs'[..|fs'| - 1] == fs;
    }
  }

  lemma {:induction false} FlattenGroup(ls: seq<string>)
    ensures Grouped(Group(ls)) && Flatten(Group(ls)) == ls
  {
    assert Flatten([]) == [] && Grouped([]);
    if ls != [] {
      hide Append, Flatten, Grouped, IsContinuation;
      var n := |ls| - 1;
      FlattenGroup(ls[..n]);
      AppendLine(Group(ls[..n]), ls[n]);
      assert ls == ls[..n] + [ls[n]];
    }
  }

  /** The field list without its last line. */
  function Shorten(fs: seq<Field>): seq<Field>
    requires fs != [] && fs[|fs| - 1] != []
  {
    var front, f := fs[..|fs| - 1], fs[|fs| - 1];
    if |f| == 1 then front else front + [f[..|f| - 1]]
  }

  lemma ShortenAppend(fs: seq<Field>)
    requires Grouped(fs) && fs != []
    ensures var f := fs[|fs| - 1];
            && Grouped(Shorten(fs))
            && fs == Append(Shorten(fs), f[|f| - 1])
            && Flatten(fs) == Flatten(Shorten(fs)) + [f[|f| - 1]]
  {
    var front, f := fs[..|fs| - 1], fs[|fs| - 1];
    assert f == f[..|f| - 1] + [f[|f| - 1]];
    AppendLine(Shorten(fs), f[|f| - 1]);
  }

  /** Fields are recovered from their lines, so `Group` and `Flatten` are inverse. */
  lemma {:induction false} GroupFlatten(fs: seq<Field>)
    requires Grouped(fs)
    ensures Group(Flatten(fs)) == fs
    decreases |Flatten(fs)|
  {
    if fs != [] {
      var ls := Flatten(fs);
      ShortenAppend(fs);
      assert ls[..|ls| - 1] == Flatten(Shorten(fs));
      GroupFlatten(Shorten(fs));
    }
  }

  lemma {:induction false} FlattenConcat(a: seq<Field>, b: seq<Field>)
    ensures Flatten(a + b) == Flatten(a) + Flatten(b)
  {
    if b == [] {
      assert a + b == a;
    } else {
      assert (a + b)[..|a + b| - 1] == a + b[..|b| - 1];
      FlattenConcat(a, b[..|b| - 1]);
    }
  }

  /** Text that does not begin with a continuation line adds whole fields. */
  lemma GroupConcat(a: seq<string>, b: seq<string>)
    requires b != [] ==> !IsContinuation(b[0])
    ensures Group(a + b) == Group(a) + Group(b)
  {
    FlattenGroup(a);
    FlattenGroup(b);
    FlattenConcat(Group(a), Group(b));
    if b != [] {
      FirstLine(Group(b));
    }
    GroupFlatten(Group(a) + Group(b));
  }

  lemma {:induction false} FirstLine(fs: seq<Field>)
    requires Grouped(fs) && fs != []
    ensures Flatten(fs) != [] && Flatten(fs)[0] == fs[0][0]
  {
    if |fs| > 1 {
      FirstLine(fs[..|fs| - 1]);
    }
  }

  /** The fields of a header block. */
  function Fields(headers: string): seq<Field> { Group(Lines(headers)) }

  function Text(fs: seq<Field>): string { Join(Flatten(fs)) }

  lemma TextOfFields(headers: string)
    ensures Text(Fields(headers)) == headers && Grouped(Fields(headers)) && Flatten(Fields(headers)) == Lines(headers)
  {
    FlattenGroup(Lines(headers));
  }

  lemma FieldsOfText(fs: seq<Field>)
    requires Grouped(fs) && LineList(Flatten(fs))
    ensures Lines(Text(fs)) == Flatten(fs) && Fields(Text(fs)) == fs
  {
    LinesOfJoin(Flatten(fs));
    GroupFlatten(fs);
  }

  /** Lower-cased text before the colon; lines without one have the empty name. */
  function NameOf(line: string): string {
    var c := Find(line, ':');
    if c == |line| then "" else ToLower(Trim(line[..c]))
  }

  predicate Named(f: Field, names: seq<string>) {
    f != [] && !IsContinuation(f[0]) && NameOf(f[0]) in names
  }

  /** The fields that are not named; orphan continuation lines have no name. */
  function Keep(fs: seq<Field>, names: seq<string>): seq<Field> {
    if fs == [] then [] else
    var kept := Keep(fs[..|fs| - 1], names);
    if Named(fs[|fs| - 1], names) then kept else kept + [fs[|fs| - 1]]
  }

  /** Specification of `strip_headers`: group, drop the named fields, flatten. */
  function Strip(headers: string, names: seq<string>): string {
    Text(Keep(Fields(headers), names))
  }

  lemma NothingStripped(headers: string, names: seq<string>)
    ensures Grouped([]) && Text(Keep([], names)) == "" && !LastNamed([], names)
    ensures var lines := Lines(headers);
            && Group(lines[..0]) == [] && lines[..|lines|] == lines
            && Strip(headers, names) == Text(Keep(Group(lines), names))
  {
    hide Lines;
  }

  /** src/smtp/rewrite.rs:44-64: one pass over the lines with a single flag. */
  method StripHeaders(headers: string, names: seq<string>) returns (kept: string)
    ensures kept == Strip(headers, names)
  {
    var lines := Lines(headers);
    kept := "";
    var dropping := false;
    ghost var fs: seq<Field> := [];
    hide *;
    NothingStripped(headers, names);
    for i := 0 to |lines|
      invariant fs == Group(lines[..i]) && Grouped(fs)
      invariant kept == Text(Keep(fs, names))
      invariant dropping == LastNamed(fs, names)
    {
      var line := lines[i];
      KeepAppend(fs, line, names);
      AppendLine(fs, line);
      GroupNext(lines, i);
      fs := Append(fs, line);
      if !IsContinuation(line) {
        dropping := NameOf(line) in names;
      }
      if !dropping {
        kept := kept + line;
      }
    }
  }

  predicate LastNamed(fs: seq<Field>, names: seq<string>) {
    fs != [] && Named(fs[|fs| - 1], names)
  }

  /** One more line shares the fate of the field it ends up in. */
  lemma KeepAppend(fs: seq<Field>, line: string, names: seq<string>)
    requires Grouped(fs)
    ensures LastNamed(Append(fs, line), names)
            <==> if IsContinuation(line) then LastNamed(fs, names) else NameOf(line) in names
    ensures Text(Keep(Append(fs, line), names))
            == Text(Keep(fs, names)) + if LastNamed(Append(fs, line), names) then "" else line
  {
    hide Join, Flatten, Keep, NameOf, IsContinuation;
    if IsContinuation(line) && fs != [] {
      var n := |fs| - 1;
      KeepLast(fs[..n], fs[n], names);
      KeepLast(fs[..n], fs[n] + [line], names);
      assert fs == fs[..n] + [fs[n]];
      JoinLast(Flatten(Keep(fs[..n], names)) + fs[n], line);
      assert Flatten(Keep(fs[..n], names)) + fs[n] + [line] == Flatten(Keep(fs[..n], names)) + (fs[n] + [line]);
    } else {
      KeepLast(fs, [line], names);
      JoinLast(Flatten(Keep(fs, names)), line);
    }
  }

  lemma KeepLast(fs: seq<Field>, f: Field, names: seq<string>)
    ensures var kept := Flatten(Keep(fs, names));
            Flatten(Keep(fs + [f], names)) == if Named(f, names) then kept else kept + f
  {
    assert (fs + [f])[..|fs|] == fs;
    var kept := Keep(fs, names);
    assert (kept + [f])[..|kept|] == kept;
  }

  lemma JoinLast(ls: seq<string>, line: string)
    ensures Join(ls + [line]) == Join(ls) + line
  {
    JoinConcat(ls, [line]);
    assert Join([line]) == line;
  }

  lemma {:induction false} KeepConcat(a: seq<Field>, b: seq<Field>, names: seq<string>)
    ensures Keep(a + b, names) == Keep(a, names) + Keep(b, names)
  {
    if b == [] {
      assert a + b == a;
    } else {
      assert (a + b)[..|a + b| - 1] == a + b[..|b| - 1];
      KeepConcat(a, b[..|b| - 1], names);
    }
  }

  lemma {:induction false} KeepStaysGrouped(fs: seq<Field>, names: seq<string>)
    requires Grouped(fs)
    ensures Grouped(Keep(fs, names)) && (Keep(fs, names) != [] ==> fs != [])
  {
    hide IsContinuation, Named;
    if fs != [] {
      KeepStaysGrouped(fs[..|fs| - 1], names);
    }
  }

  lemma {:induction false} KeepIsGrouped(fs: seq<Field>, names: seq<string>)
    requires Grouped(fs) && LineList(Flatten(fs))
    ensures Grouped(Keep(fs, names)) && LineList(Flatten(Keep(fs, names)))
    ensures AllEnded(Flatten(fs)) ==> AllEnded(Flatten(Keep(fs, names)))
  {
    KeepStaysGrouped(fs, names);
    if fs != [] {
      KeepKeepsLines(fs, names);
    }
  }

  lemma {:induction false} KeepKeepsLines(fs: seq<Field>, names: seq<string>)
    requires LineList(Flatten(fs)) && forall i :: 0 <= i < |fs| ==> fs[i] != []
    ensures LineList(Flatten(Keep(fs, names)))
    ensures AllEnded(Flatten(fs)) ==> AllEnded(Flatten(Keep(fs, names)))
  {
    hide LineList, AllEnded, Named, Keep;
    if fs == [] {
      assert Keep(fs, names) == [] by { NothingKept(names); }
    } else {
      var front, f := fs[..|fs| - 1], fs[|fs| - 1];
      LineListPrefix(Flatten(front), f);
      KeepKeepsLines(front, names);
      assert fs == front + [f];
      KeepLast(front, f, names);
      if !Named(f, names) {
        LineListConcat(Flatten(Keep(front, names)), f);
      }
    }
  }

  lemma NothingKept(names: seq<string>)
    ensures Keep([], names) == []
  {
  }

  /** The fields left after stripping are the kept fields, each intact and in order. */
  lemma FieldsOfStrip(headers: string, names: seq<string>)
    ensures Fields(Strip(headers, names)) == Keep(Fields(headers), names)
    ensures Lines(Strip(headers, names)) == Flatten(Keep(Fields(headers), names))
    ensures AllEnded(Lines(headers)) ==> AllEnded(Lines(Strip(headers, names)))
  {
    TextOfFields(headers);
    KeepIsGrouped(Fields(headers), names);
    FieldsOfText(Keep(Fields(headers), names));
  }

  lemma {:induction false} KeepKeep(fs: seq<Field>, a: seq<string>, b: seq<string>)
    ensures Keep(Keep(fs, a), b) == Keep(fs, a + b)
  {
    if fs != [] {
      var front, f := fs[..|fs| - 1], fs[|fs| - 1];
      KeepKeep(front, a, b);
      var kept := Keep(front, a);
      assert (kept + [f])[..|kept|] == kept;
    }
  }

  lemma {:induction false} KeepSameNames(fs: seq<Field>, a: seq<string>, b: seq<string>)
    requires forall n :: n in a <==> n in b
    ensures Keep(fs, a) == Keep(fs, b)
  {
    if fs != [] {
      KeepSameNames(fs[..|fs| - 1], a, b);
    }
  }

  /** Stripping twice strips the union; so it is idempotent and order does not matter. */
  lemma StripComposes(headers: string, a: seq<string>, b: seq<string>)
    ensures Strip(Strip(headers, a), b) == Strip(headers, a + b)
    ensures Strip(Strip(headers, a), a) == Strip(headers, a)
    ensures Strip(Strip(headers, a), b) == Strip(Strip(headers, b), a)
  {
    var fs := Fields(headers);
    FieldsOfStrip(headers, a);
    FieldsOfStrip(headers, b);
    KeepKeep(fs, a, b);
    KeepKeep(fs, a, a);
    KeepKeep(fs, b, a);
    KeepSameNames(fs, a + a, a);
    KeepSameNames(fs, a + b, b + a);
  }

  // ---- Lookup ----

  predicate Matches(f: Field, name: string) {
    && f != [] && !IsContinuation(f[0])
    && var c := Find(f[0], ':');
       c < |f[0]| && EqIgnoreCase(Trim(f[0][..c]), name)
  }

  /** The value of a field with its folding undone. */
  function Unfold(f: Field): string
    requires f != [] && Find(f[0], ':') < |f[0]|
  {
    if |f| == 1 then Trim(f[0][Find(f[0], ':') + 1..])
    else Unfold(f[..|f| - 1]) + " " + Trim(f[|f| - 1])
  }

  /** The unfolded value of the first matching field. */
  function Lookup(fs: seq<Field>, name: string): Option<string> {
    if fs == [] then None else
    var earlier := Lookup(fs[..|fs| - 1], name);
    if earlier.Some? then earlier
    else if Matches(fs[|fs| - 1], name) then Some(Unfold(fs[|fs| - 1]))
    else None
  }

  function HeaderValue(headers: string, name: string): Option<string> {
    Lookup(Fields(headers), name)
  }

  lemma {:induction false} LookupConcat(a: seq<Field>, b: seq<Field>, name: string)
    ensures Lookup(a + b, name) == if Lookup(a, name).Some? then Lookup(a, name) else Lookup(b, name)
  {
    if b == [] {
      assert a + b == a;
    } else {
      assert (a + b)[..|a + b| - 1] == a + b[..|b| - 1];
      LookupConcat(a, b[..|b| - 1], name);
    }
  }

  /** The trimmed text after the colon if this line names the field. */
  function ValueOnLine(line: string, name: string): Option<string> {
    var c := Find(line, ':');
    if c < |line| && EqIgnoreCase(Trim(line[..c]), name) then Some(Trim(line[c + 1..])) else None
  }

  /** The last field is the first match, so its value may still grow. */
  predicate LastMatches(fs: seq<Field>, name: string) {
    fs != [] && Matches(fs[|fs| - 1], name) && Lookup(fs[..|fs| - 1], name) == None
  }

  /** One more line extends the value found so far, or may be where it starts. */
  lemma LookupAppend(fs: seq<Field>, line: string, name: string)
    requires Grouped(fs)
    requires Lookup(fs, name).Some? ==> LastMatches(fs, name) && IsContinuation(line)
    ensures var fs' := Append(fs, line);
            && (Lookup(fs', name).Some? ==> LastMatches(fs', name))
            && Lookup(fs', name)
               == if Lookup(fs, name).Some? then Some(Lookup(fs, name).value + " " + Trim(line))
                  else if IsContinuation(line) then None
                  else ValueOnLine(line, name)
  {
    hide Lookup, Find, Trim, EqIgnoreCase, IsContinuation;
    if IsContinuation(line) && fs != [] {
      var n := |fs| - 1;
      LookupLast(fs[..n], fs[n], name);
      LookupLast(fs[..n], fs[n] + [line], name);
      assert fs == fs[..n] + [fs[n]];
      assert (fs[n] + [line])[..|fs[n]|] == fs[n];
    } else {
      LookupLast(fs, [line], name);
    }
  }

  lemma LookupLast(fs: seq<Field>, f: Field, name: string)
    ensures Lookup(fs + [f], name)
            == if Lookup(fs, name).Some? then Lookup(fs, name)
               else if Matches(f, name) then Some(Unfold(f)) else None
    ensures LastMatches(fs + [f], name) <==> Matches(f, name) && Lookup(fs, name) == None
  {
    assert (fs + [f])[..|fs|] == fs;
  }

  /** A new field cannot change a value already found. */
  lemma LookupStops(lines: seq<string>, i: nat, name: string)
    requires i < |lines| && !IsContinuation(lines[i]) && Lookup(Group(lines[..i]), name).Some?
    ensures Lookup(Group(lines), name) == Lookup(Group(lines[..i]), name)
  {
    hide *;
    assert lines == lines[..i] + lines[i..];
    GroupConcat(lines[..i], lines[i..]);
    LookupConcat(Group(lines[..i]), Group(lines[i..]), name);
  }

  lemma NothingLookedUp(headers: string, name: string)
    ensures Grouped([]) && Lookup([], name) == None
    ensures var lines := Lines(headers);
            && Group(lines[..0]) == [] && lines[..|lines|] == lines
            && HeaderValue(headers, name) == Lookup(Group(lines), name)
  {
    hide Lines;
  }

  /** src/smtp/rewrite.rs:67-89. */
  method FindHeaderValue(headers: string, name: string) returns (value: Option<string>)
    ensures value == HeaderValue(headers, name)
  {
    var lines := Lines(headers);
    value := None;
    ghost var fs: seq<Field> := [];
    hide *;
    NothingLookedUp(headers, name);
    for i := 0 to |lines|
      invariant fs == Group(lines[..i]) && Grouped(fs)
      invariant value == Lookup(fs, name)
      invariant value.Some? ==> LastMatches(fs, name)
    {
      var line := lines[i];
      if !IsContinuation(line) && value.Some? {
        LookupStops(lines, i, name);
        return;
      }
      LookupAppend(fs, line, name);
      AppendLine(fs, line);
      GroupNext(lines, i);
      fs := Append(fs, line);
      if IsContinuation(line) {
        if value.Some? {
          value := Some(value.value + " " + Trim(line));
        }
      } else {
        value := ValueOnLine(line, name);
      }
    }
  }

  lemma {:induction false} LookupKeep(fs: seq<Field>, names: seq<string>, name: string)
    ensures Lookup(Keep(fs, names), name) == if ToLower(name) in names then None else Lookup(fs, name)
  {
    if fs != [] {
      var front, f := fs[..|fs| - 1], fs[|fs| - 1];
      LookupKeep(front, names, name);
      var kept := Keep(front, names);
      assert (kept + [f])[..|kept|] == kept;
    }
  }

  /** Stripped names are gone, and every other name still has exactly its old value. */
  lemma LookupAfterStrip(headers: string, names: seq<string>, name: string)
    ensures HeaderValue(Strip(headers, names), name)
            == if ToLower(name) in names then None else HeaderValue(headers, name)
  {
    FieldsOfStrip(headers, names);
    LookupKeep(Fields(headers), names, name);
  }

  /** An unfolded value never holds a line feed. */
  lemma ValueHasNoLineFeed(headers: string, name: string)
    ensures HeaderValue(headers, name).Some? ==> '\n' !in HeaderValue(headers, name).value
  {
    TextOfFields(headers);
    LookupHasNoLineFeed(Fields(headers), name);
  }

  lemma {:induction false} LookupHasNoLineFeed(fs: seq<Field>, name: string)
    requires LineList(Flatten(fs))
    ensures Lookup(fs, name).Some? ==> '\n' !in Lookup(fs, name).value
  {
    if fs != [] {
      var front, f := fs[..|fs| - 1], fs[|fs| - 1];
      LineListPrefix(Flatten(front), f);
      LookupHasNoLineFeed(front, name);
      if Matches(f, name) {
        UnfoldHasNoLineFeed(f);
      }
    }
  }

  lemma {:induction false} UnfoldHasNoLineFeed(f: Field)
    requires f != [] && Find(f[0], ':') < |f[0]|
    requires forall i :: 0 <= i < |f| ==> IsLine(f[i])
    ensures '\n' !in Unfold(f)
  {
    if |f| == 1 {
      TrimTail(f[0], Find(f[0], ':') + 1);
    } else {
      UnfoldHasNoLineFeed(f[..|f| - 1]);
      TrimTail(f[|f| - 1], 0);
      assert f[|f| - 1][0..] == f[|f| - 1];
    }
  }

  /** A line's only line feed is its last character, which trimming removes. */
  lemma TrimTail(line: string, k: nat)
    requires IsLine(line) && k <= |line|
    ensures '\n' !in Trim(line[k..])
  {
    var s := line[k..];
    TrimLine(s);
  }

  lemma TrimLine(s: string)
    requires forall x :: 0 <= x < |s| - 1 ==> s[x] != '\n'
    ensures '\n' !in Trim(s)
  {
    hide Trim, Indent;
    var r := Trim(s);
    assert forall x :: 0 <= x < |r| ==> r[x] == s[Indent(s) + x];
  }

  // ---- Folding, in characters ----

  /** A line that starts with a space or a tab. */
  predicate StartsFolded(l: string) { l != "" && (l[0] == ' ' || l[0] == '\t') }

  lemma GroupLast(ls: seq<string>, line: string)
    ensures Group(ls + [line]) == Append(Group(ls), line)
  {
    hide Append;
    assert (ls + [line])[..|ls|] == ls;
  }

  lemma OpensField(fs: seq<Field>, line: string)
    requires !StartsFolded(line)
    ensures Append(fs, line) == fs + [[line]]
  {
  }

  lemma JoinsField(fs: seq<Field>, f: Field, line: string)
    requires StartsFolded(line)
    ensures Append(fs + [f], line) == fs + [f + [line]]
  {
    assert (fs + [f])[..|fs|] == fs;
  }

  lemma {:induction false} FoldsOntoField(ls: seq<string>, first: string, folds: seq<string>)
    requires !StartsFolded(first) && forall i :: 0 <= i < |folds| ==> StartsFolded(folds[i])
    ensures Group(ls + [first] + folds) == Group(ls) + [[first] + folds]
  {
    hide Group, Append, StartsFolded;
    if folds == [] {
      assert ls + [first] + folds == ls + [first] && [first] + folds == [first];
      GroupLast(ls, first);
      OpensField(Group(ls), first);
    } else {
      var n := |folds| - 1;
      FoldsOntoField(ls, first, folds[..n]);
      assert ls + [first] + folds == (ls + [first] + folds[..n]) + [folds[n]];
      assert [first] + folds == ([first] + folds[..n]) + [folds[n]];
      GroupLast(ls + [first] + folds[..n], folds[n]);
      JoinsField(Group(ls), [first] + folds[..n], folds[n]);
    }
  }

  /** The trimmed lines, each behind one space. */
  function Unfolded(folds: seq<string>): string {
    if folds == [] then "" else Unfolded(folds[..|folds| - 1]) + " " + Trim(folds[|folds| - 1])
  }

  lemma UnfoldLast(f: Field, line: string)
    requires f != [] && Find(f[0], ':') < |f[0]|
    ensures Unfold(f + [line]) == Unfold(f) + " " + Trim(line)
  {
    hide Trim, Find;
    assert (f + [line])[..|f|] == f;
  }

  lemma UnfoldedLast(folds: seq<string>, line: string)
    ensures Unfolded(folds + [line]) == Unfolded(folds) + " " + Trim(line)
  {
    hide Trim;
    assert (folds + [line])[..|folds|] == folds;
  }

  lemma AllBehind(a: string, b: string, c: string)
    ensures a + b + " " + c == a + (b + " " + c)
  {
  }

  lemma {:induction false} UnfoldFolds(first: string, folds: seq<string>)
    requires Find(first, ':') < |first|
    ensures Unfold([first] + folds) == Trim(first[Find(first, ':') + 1..]) + Unfolded(folds)
  {
    hide Trim, Find;
    var value := Trim(first[Find(first, ':') + 1..]);
    if folds == [] {
      assert [first] + folds == [first];
      NothingBehind(value);
    } else {
      hide Unfold, Unfolded;
      var n := |folds| - 1;
      UnfoldFolds(first, folds[..n]);
      assert [first] + folds == ([first] + folds[..n]) + [folds[n]] && folds == folds[..n] + [folds[n]];
      UnfoldLast([first] + folds[..n], folds[n]);
      UnfoldedLast(folds[..n], folds[n]);
      AllBehind(value, Unfolded(folds[..n]), Trim(folds[n]));
    }
  }

  lemma NothingBehind(s: string)
    ensures s + "" == s
  {
  }

  /** A field on its own lines, between others: a name, a colon, a value, and any number of
      lines that start with a space or a tab; the line behind them starts with neither. */
  predicate FoldedField(before: seq<string>, name: string, value: string, folds: seq<string>, after: seq<string>) {
    && ':' !in name && !StartsFolded(name + ":") && LineList(before + [name + ":" + value] + folds + after)
    && (forall i :: 0 <= i < |folds| ==> StartsFolded(folds[i]))
    && (after != [] ==> !StartsFolded(after[0]))
  }

  lemma FieldBetween(before: seq<string>, name: string, value: string, folds: seq<string>, after: seq<string>)
    requires FoldedField(before, name, value, folds, after)
    ensures Fields(Join(before + [name + ":" + value] + folds + after))
            == Fields(Join(before)) + [[name + ":" + value] + folds] + Fields(Join(after))
    ensures FoldedField([], name, value, folds, after)
  {
    hide LineList, Group, Join, Lines;
    var first := name + ":" + value;
    assert first[0] == (name + ":")[0];
    var rest := [] + [first] + folds + after;
    assert before + [first] + folds + after == before + rest && rest == ([first] + folds) + after;
    LineListPrefix(before, rest);
    LineListPrefix([first] + folds, after);
    LinesOfJoin(before + [first] + folds + after);
    LinesOfJoin(before);
    LinesOfJoin(after);
    GroupConcat(before + [first] + folds, after);
    FoldsOntoField(before, first, folds);
  }

  lemma NameInFront(name: string, value: string, word: string)
    requires ':' !in name && !StartsFolded(name + ":")
    ensures var first := name + ":" + value;
            && first != "" && !IsContinuation(first) && Find(first, ':') == |name| < |first|
            && first[..|name|] == name && first[|name| + 1..] == value
            && (Spells(Trim(name), word) ==> NameOf(first) == word && EqIgnoreCase(Trim(name), word))
  {
    hide Trim, ToLower, Spells;
    var first := name + ":" + value;
    assert first[..|name|] == name && first[0] == (name + ":")[0];
    FindIs(first, ':', |name|);
    SpellsIsLower(Trim(name), word);
    ToLowerIdempotent(Trim(name));
  }

  /** Filtering removes the whole field, whatever the case of its name, with all lines folded
      onto it by spaces or by tabs, and no other line. */
  lemma FoldedFieldIsRemoved(before: seq<string>, name: string, value: string, folds: seq<string>,
                             after: seq<string>, word: string)
    requires FoldedField(before, name, value, folds, after) && Spells(Trim(name), word)
    ensures Strip(Join(before + [name + ":" + value] + folds + after), [word])
            == Strip(Join(before), [word]) + Strip(Join(after), [word])
  {
    hide Fields, Trim, Flatten, NameOf, IsContinuation, Spells, Join, Keep;
    var f := [name + ":" + value] + folds;
    FieldBetween(before, name, value, folds, after);
    NameInFront(name, value, word);
    var a, b := Fields(Join(before)), Fields(Join(after));
    KeepConcat(a + [f], b, [word]);
    KeepOneMore(a, f, [word]);
    assert f[0] == name + ":" + value;
    TextConcat(Keep(a, [word]), Keep(b, [word]));
  }

  /** Any other field stays, with all lines folded onto it. */
  lemma OtherFieldStays(before: seq<string>, name: string, value: string, folds: seq<string>,
                        after: seq<string>, words: seq<string>)
    requires FoldedField(before, name, value, folds, after)
    requires forall w :: w in words ==> !Spells(Trim(name), w)
    ensures Strip(Join(before + [name + ":" + value] + folds + after), words)
            == Strip(Join(before), words) + (name + ":" + value + Join(folds)) + Strip(Join(after), words)
  {
    hide Fields, Trim, Flatten, NameOf, IsContinuation, Spells, Join, Keep, ToLower;
    var f := [name + ":" + value] + folds;
    FieldBetween(before, name, value, folds, after);
    NotNamed(name, value, words, folds);
    var a, b := Fields(Join(before)), Fields(Join(after));
    KeepConcat(a + [f], b, words);
    KeepOneMore(a, f, words);
    TextConcat(Keep(a, words) + [f], Keep(b, words));
    TextConcat(Keep(a, words), [f]);
    TextOfOne(name + ":" + value, folds);
  }

  lemma KeepOneMore(fs: seq<Field>, f: Field, names: seq<string>)
    ensures Keep(fs + [f], names) == if Named(f, names) then Keep(fs, names) else Keep(fs, names) + [f]
  {
    assert (fs + [f])[..|fs|] == fs;
  }

  lemma NotNamed(name: string, value: string, words: seq<string>, folds: seq<string>)
    requires ':' !in name && !StartsFolded(name + ":") && forall w :: w in words ==> !Spells(Trim(name), w)
    ensures !Named([name + ":" + value] + folds, words)
  {
    hide Trim, ToLower, Spells;
    var first := name + ":" + value;
    NameInFront(name, value, "");
    SpellsIsLower(Trim(name), NameOf(first));
    ToLowerIdempotent(Trim(name));
  }

  lemma TextOfOne(first: string, folds: seq<string>)
    ensures Text([[first] + folds]) == first + Join(folds)
  {
    var f := [first] + folds;
    var none: seq<Field> := [];
    assert [f][..0] == none && Flatten([f]) == f && f[1..] == folds;
  }

  /** A lookup reads the first field of that name: its value, and behind it each folded line,
      trimmed, after one space. */
  lemma FoldedFieldIsRead(before: seq<string>, name: string, value: string, folds: seq<string>,
                          after: seq<string>, word: string)
    requires FoldedField(before, name, value, folds, after) && Spells(Trim(name), word)
    ensures HeaderValue(Join(before + [name + ":" + value] + folds + after), word)
            == if HeaderValue(Join(before), word).Some? then HeaderValue(Join(before), word)
               else Some(Trim(value) + Unfolded(folds))
  {
    hide Fields, Trim, IsContinuation, Spells, Join, Lookup, EqIgnoreCase, Unfold, Unfolded, Find;
    var f := [name + ":" + value] + folds;
    FieldBetween(before, name, value, folds, after);
    NameInFront(name, value, word);
    var a, b := Fields(Join(before)), Fields(Join(after));
    LookupConcat(a + [f], b, word);
    LookupConcat(a, [f], word);
    LookupOne(f, word);
    UnfoldFolds(name + ":" + value, folds);
  }

  /** Folded lines that no field stands in front of, and lines without a colon, have no name: they
      are never removed and never read. */
  lemma NamelessLinesStay(orphans: seq<string>, line: string, folds: seq<string>, words: seq<string>, word: string)
    requires (forall i :: 0 <= i < |orphans + folds| ==> StartsFolded((orphans + folds)[i])) && !StartsFolded(line)
    requires ':' !in line && LineList(orphans + [line] + folds) && "" !in words
    ensures var text := Join(orphans + [line] + folds);
            Strip(text, words) == text && HeaderValue(text, word) == None
  {
    hide LineList, Join, Lines, Group, StartsFolded, Keep, Lookup;
    var f := [line] + folds;
    assert forall i :: 0 <= i < |orphans| ==> (orphans + folds)[i] == orphans[i];
    assert forall i :: 0 <= i < |folds| ==> (orphans + folds)[|orphans| + i] == folds[i];
    LinesOfJoin(orphans + [line] + folds);
    FoldsOntoField(orphans, line, folds);
    FlattenGroup(orphans + [line] + folds);
    OrphanField(orphans, words, word);
    NamelessField(line, folds, words, word);
    KeepOneMore(Group(orphans), f, words);
    LookupConcat(Group(orphans), [f], word);
    LookupOne(f, word);
  }

  lemma {:induction false} OrphansAreOne(orphans: seq<string>)
    requires forall i :: 0 <= i < |orphans| ==> StartsFolded(orphans[i])
    ensures Group(orphans) == if orphans == [] then [] else [orphans]
  {
    hide StartsFolded, Append;
    if orphans != [] {
      var n := |orphans| - 1;
      OrphansAreOne(orphans[..n]);
      assert orphans == orphans[..n] + [orphans[n]];
      var none: seq<Field> := [];
      if n == 0 {
        FirstField(orphans[0]);
      } else {
        JoinsField([], orphans[..n], orphans[n]);
        assert none + [orphans[..n]] == [orphans[..n]] && none + [orphans] == [orphans];
      }
    }
  }

  lemma FirstField(line: string)
    ensures Append([], line) == [[line]]
  {
  }

  lemma OrphanField(orphans: seq<string>, words: seq<string>, word: string)
    requires forall i :: 0 <= i < |orphans| ==> StartsFolded(orphans[i])
    ensures Keep(Group(orphans), words) == Group(orphans) && Lookup(Group(orphans), word) == None
  {
    hide Group, Keep, Lookup;
    OrphansAreOne(orphans);
    NothingThere(words, word);
    if orphans != [] {
      KeepOneMore([], orphans, words);
      LookupOne(orphans, word);
      var none: seq<Field> := [];
      assert none + [orphans] == [orphans];
    }
  }

  lemma NothingThere(words: seq<string>, word: string)
    ensures Keep([], words) == [] && Lookup([], word) == None
  {
  }

  lemma NamelessField(line: string, folds: seq<string>, words: seq<string>, word: string)
    requires ':' !in line && "" !in words
    ensures !Named([line] + folds, words) && !Matches([line] + folds, word)
  {
    assert ([line] + folds)[0] == line && Find(line, ':') == |line|;
  }

  lemma NoFields()
    ensures Fields(Join([])) == []
  {
  }

  lemma TextConcat(a: seq<Field>, b: seq<Field>)
    ensures Text(a + b) == Text(a) + Text(b)
  {
    FlattenConcat(a, b);
    JoinConcat(Flatten(a), Flatten(b));
  }

  lemma LookupOne(f: Field, name: string)
    ensures Lookup([f], name) == if Matches(f, name) then Some(Unfold(f)) else None
  {
    var none: seq<Field> := [];
    assert [f][..0] == none;
  }
}
