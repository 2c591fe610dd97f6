/** What both rewriters of src/smtp/rewrite.rs:105-160 do: drop the named fields, put
    new lines on top, keep the body. */
module HeaderRewrite {
  import opened Ascii
  import opened HeaderFields
  import opened Messages

  /** `lines` in front of the header block without the named fields, then the body. */
  function Rewritten(raw: string, lines: seq<string>, names: seq<string>): string {
    var (headers, body) := SplitHeadersBody(raw);
    Join(lines) + Strip(headers, names) + CRLF + body
  }

  /** Complete header lines that can stand at the top of a message. */
  predicate Inserted(lines: seq<string>) {
    && lines != [] && CrlfLines(lines)
    && forall i :: 0 <= i < |lines| ==> lines[i] != CRLF && !IsContinuation(lines[i])
  }

  function HeaderFieldsOf(raw: string): seq<Field> { Group(HeaderLines(raw)) }

  function KeptFields(raw: string, names: seq<string>): seq<Field> { Keep(HeaderFieldsOf(raw), names) }

  lemma {:induction false} KeepIsSubset(fs: seq<Field>, names: seq<string>, l: string)
    ensures l in Flatten(Keep(fs, names)) ==> l in Flatten(fs)
  {
    if fs != [] {
      var front, f := fs[..|fs| - 1], fs[|fs| - 1];
      KeepIsSubset(front, names, l);
      assert fs == front + [f];
      KeepLast(front, f, names);
    }
  }

  lemma HeaderAndBodyLines(raw: string)
    requires Normal(raw)
    ensures CrlfLines(HeaderLines(raw)) && CrlfLines(BodyLines(raw))
    ensures Grouped(HeaderFieldsOf(raw)) && Flatten(HeaderFieldsOf(raw)) == HeaderLines(raw)
  {
    hide Lines, Join, Group, Flatten, Grouped, IsLine, EndsCrlf, BlankAt;
    FlattenGroup(HeaderLines(raw));
  }

  lemma KeptLines(raw: string, names: seq<string>)
    requires Normal(raw)
    ensures Grouped(KeptFields(raw, names)) && CrlfLines(Flatten(KeptFields(raw, names)))
    ensures forall l :: l in Flatten(KeptFields(raw, names)) ==> l in HeaderLines(raw)
  {
    hide Keep, Flatten, Grouped, IsLine, EndsCrlf, HeaderLines, Normal, Group, LineList;
    var hs, fs := HeaderLines(raw), HeaderFieldsOf(raw);
    HeaderAndBodyLines(raw);
    CrlfLinesAreLines(hs);
    KeepIsGrouped(fs, names);
    var kept := Flatten(Keep(fs, names));
    forall l ensures l in kept ==> l in hs {
      KeepIsSubset(fs, names, l);
    }
    assert forall i :: 0 <= i < |kept| ==> kept[i] in kept;
  }

  lemma RewrittenText(raw: string, lines: seq<string>, names: seq<string>)
    requires Normal(raw)
    ensures Rewritten(raw, lines, names)
            == Join(lines) + Text(KeptFields(raw, names)) + CRLF + Join(BodyLines(raw))
  {
    hide Join, Keep, Flatten, Group, HeaderLines, BodyLines, SplitHeadersBody, Normal, CrlfLines;
    HeaderAndBodyLines(raw);
    SplitByLines(raw);
    LinesOfCrlf(HeaderLines(raw));
  }

  /** The rewritten message, line by line. */
  lemma RewrittenLines(raw: string, lines: seq<string>, names: seq<string>)
    requires Normal(raw) && Inserted(lines)
    ensures Lines(Rewritten(raw, lines, names))
            == lines + Flatten(KeptFields(raw, names)) + [CRLF] + BodyLines(raw)
    ensures Normal(Rewritten(raw, lines, names))
  {
    hide Join, Flatten, Group, HeaderLines, BodyLines, Rewritten, KeptFields, Normal, IsLine, EndsCrlf;
    var kept := Flatten(KeptFields(raw, names));
    HeaderAndBodyLines(raw);
    KeptLines(raw, names);
    RewrittenText(raw, lines, names);
    BlankLineIsCrlf();
    var all := lines + kept + [CRLF] + BodyLines(raw);
    assert CrlfLines(all);
    JoinConcat(lines, kept);
    JoinConcat(lines + kept, [CRLF]);
    JoinConcat(lines + kept + [CRLF], BodyLines(raw));
    LinesOfCrlf(all);
  }

  lemma BlankLineIsCrlf()
    ensures IsLine(CRLF) && EndsCrlf(CRLF) && Join([CRLF]) == CRLF
  {
  }

  /** Below a message that starts with a field, the split falls where it did before. */
  lemma RewrittenSplit(raw: string, lines: seq<string>, names: seq<string>)
    requires Normal(raw) && Inserted(lines) && !StartsBlank(raw)
    ensures HeaderLines(Rewritten(raw, lines, names)) == lines + Flatten(KeptFields(raw, names))
    ensures BodyLines(Rewritten(raw, lines, names)) == BodyLines(raw)
  {
    hide Join, Flatten, Group, Rewritten, KeptFields, IsLine, EndsCrlf, Normal, Lines;
    var kept, hs := Flatten(KeptFields(raw, names)), HeaderLines(raw);
    NoBlankHeaderLine(raw);
    KeptLines(raw, names);
    RewrittenLines(raw, lines, names);
    var head := lines + kept;
    assert forall i :: 0 <= i < |kept| ==> kept[i] in kept;
    assert forall i :: 0 < i < |head| ==> head[i] != CRLF;
    SplitOfLines(Rewritten(raw, lines, names), head, BodyLines(raw));
  }

  lemma NoBlankHeaderLine(raw: string)
    requires Normal(raw) && !StartsBlank(raw)
    ensures CRLF !in HeaderLines(raw)
  {
    if Lines(raw) != [] {
      NormalFirstLine(Lines(raw));
    }
  }

  lemma SplitOfLines(raw: string, head: seq<string>, body: seq<string>)
    requires Lines(raw) == head + [CRLF] + body && head != []
    requires forall i :: 0 < i < |head| ==> head[i] != CRLF
    ensures HeaderLines(raw) == head && BodyLines(raw) == body
  {
    BlankAtIs(Lines(raw), |head|);
  }

  lemma {:induction false} KeepHead(fs: seq<Field>, names: seq<string>)
    requires fs != [] && !Named(fs[0], names)
    ensures Keep(fs, names) == [fs[0]] + Keep(fs[1..], names)
  {
    assert fs == [fs[0]] + fs[1..];
    KeepConcat([fs[0]], fs[1..], names);
    assert [fs[0]][..0] == [];
  }

  lemma FirstHeaderField(raw: string)
    requires Normal(raw) && raw != ""
    ensures var fs := HeaderFieldsOf(raw);
            && fs != [] && fs[0] != []
            && (StartsBlank(raw) <==> fs[0][0] == CRLF)
            && (IsContinuation(raw) <==> IsContinuation(fs[0][0]))
  {
    var fs := HeaderFieldsOf(raw);
    HeaderAndBodyLines(raw);
    FirstLine(fs);
    NormalFirstLine(Lines(raw));
  }

  /** A blank or orphan first line belongs to no named field, so rewriting keeps it. */
  lemma FirstKept(raw: string, names: seq<string>)
    requires Normal(raw) && (StartsBlank(raw) || IsContinuation(raw)) && "" !in names
    ensures var fs := HeaderFieldsOf(raw);
            && fs != [] && fs[0] != []
            && KeptFields(raw, names) == [fs[0]] + Keep(fs[1..], names)
            && Flatten(KeptFields(raw, names)) == fs[0] + Flatten(Keep(fs[1..], names))
  {
    hide Keep, HeaderFieldsOf;
    var fs := HeaderFieldsOf(raw);
    FirstHeaderField(raw);
    BlankLineHasNoName();
    KeepHead(fs, names);
    FlattenConcat([fs[0]], Keep(fs[1..], names));
    assert Flatten([fs[0]]) == fs[0];
  }

  lemma BlankLineHasNoName()
    ensures NameOf(CRLF) == ""
  {
    assert Find(CRLF, ':') == 2;
  }

  /** A first line that is blank becomes the split point, so the whole message after it
      ends up in the body. */
  lemma RewrittenSplitBlank(raw: string, lines: seq<string>, names: seq<string>)
    requires Normal(raw) && Inserted(lines) && StartsBlank(raw) && "" !in names
    ensures var kept := Flatten(KeptFields(raw, names));
            && kept != [] && kept[0] == CRLF
            && HeaderLines(Rewritten(raw, lines, names)) == lines
            && BodyLines(Rewritten(raw, lines, names)) == kept[1..] + [CRLF] + BodyLines(raw)
  {
    hide Join, Flatten, Keep, Group, Rewritten, IsLine, EndsCrlf, Normal, Lines, HeaderLines, BodyLines, KeptFields;
    var kept := Flatten(KeptFields(raw, names));
    FirstHeaderField(raw);
    FirstKept(raw, names);
    RewrittenLines(raw, lines, names);
    assert kept == [CRLF] + kept[1..];
    assert lines + kept + [CRLF] + BodyLines(raw) == lines + [CRLF] + (kept[1..] + [CRLF] + BodyLines(raw));
    SplitOfLines(Rewritten(raw, lines, names), lines, kept[1..] + [CRLF] + BodyLines(raw));
  }

  /** Rewriting preserves the body exactly when the message does not start with an empty line. */
  lemma BodyPreserved(raw: string, lines: seq<string>, names: seq<string>)
    requires Normal(raw) && Inserted(lines) && "" !in names
    ensures SplitHeadersBody(Rewritten(raw, lines, names)).1 == SplitHeadersBody(raw).1 <==> !StartsBlank(raw)
  {
    hide Flatten, Group, Rewritten, IsLine, EndsCrlf, Normal, Lines, HeaderLines, BodyLines, KeptFields,
         SplitHeadersBody;
    SplitByLines(raw);
    RewrittenLines(raw, lines, names);
    SplitByLines(Rewritten(raw, lines, names));
    if StartsBlank(raw) {
      RewrittenSplitBlank(raw, lines, names);
      var rest := Flatten(KeptFields(raw, names))[1..];
      BlankLineIsCrlf();
      JoinConcat(rest + [CRLF], BodyLines(raw));
      JoinConcat(rest, [CRLF]);
    } else {
      RewrittenSplit(raw, lines, names);
    }
  }

  /** Below a field line, the new header block is the inserted fields followed by every
      kept field, intact and in order. */
  lemma FieldsAfterRewrite(raw: string, lines: seq<string>, names: seq<string>)
    requires Normal(raw) && Inserted(lines) && !StartsBlank(raw) && !IsContinuation(raw)
    ensures HeaderFieldsOf(Rewritten(raw, lines, names)) == Group(lines) + KeptFields(raw, names)
  {
    hide Join, Keep, Flatten, Group, Rewritten, IsLine, EndsCrlf, Normal, HeaderLines, BodyLines, KeptFields;
    var kept := KeptFields(raw, names);
    RewrittenSplit(raw, lines, names);
    KeptLines(raw, names);
    FirstKeptIsField(raw, names);
    GroupConcat(lines, Flatten(kept));
    GroupFlatten(kept);
  }

  lemma FirstKeptIsField(raw: string, names: seq<string>)
    requires Normal(raw) && !IsContinuation(raw)
    ensures var ls := Flatten(KeptFields(raw, names)); ls != [] ==> !IsContinuation(ls[0])
  {
    if raw != "" {
      FirstHeaderField(raw);
      HeaderAndBodyLines(raw);
      KeepHeads(HeaderFieldsOf(raw), names);
    } else {
      assert HeaderLines(raw) == [];
    }
  }

  lemma {:induction false} KeepHeads(fs: seq<Field>, names: seq<string>)
    requires Grouped(fs) && (fs != [] ==> !IsContinuation(fs[0][0]))
    ensures var ls := Flatten(Keep(fs, names)); ls != [] ==> !IsContinuation(ls[0])
  {
    hide Flatten, IsContinuation, Named;
    if fs != [] {
      var front, f := fs[..|fs| - 1], fs[|fs| - 1];
      KeepHeads(front, names);
      assert fs == front + [f];
      KeepLast(front, f, names);
    } else {
      FlattenNone();
    }
  }

  lemma FlattenNone()
    ensures Flatten([]) == []
  {
  }
  // ---- One rewrite on top of another ----

  lemma KeepTextLast(fs: seq<Field>, f: Field, names: seq<string>)
    ensures Text(Keep(fs + [f], names)) == Text(Keep(fs, names)) + if Named(f, names) then "" else Join(f)
  {
    KeepLast(fs, f, names);
    JoinConcat(Flatten(Keep(fs, names)), f);
  }

  /** Stripping more names leaves less text, unless no field has one of the extra names. */
  lemma {:induction false} KeepLength(fs: seq<Field>, a: seq<string>, b: seq<string>)
    requires forall i :: 0 <= i < |fs| ==> fs[i] != [] && fs[i][0] != ""
    requires forall n :: n in a ==> n in b
    ensures |Text(Keep(fs, b))| <= |Text(Keep(fs, a))|
    ensures |Text(Keep(fs, b))| == |Text(Keep(fs, a))|
            <==> forall i :: 0 <= i < |fs| && Named(fs[i], b) ==> Named(fs[i], a)
    ensures (forall i :: 0 <= i < |fs| && Named(fs[i], b) ==> Named(fs[i], a)) ==> Keep(fs, a) == Keep(fs, b)
  {
    if fs != [] {
      var front, f := fs[..|fs| - 1], fs[|fs| - 1];
      KeepLength(front, a, b);
      assert fs == front + [f];
      KeepTextLast(front, f, a);
      KeepTextLast(front, f, b);
      assert |Join(f)| > 0;
      assert forall i :: 0 <= i < |front| ==> front[i] == fs[i];
      assert Named(f, a) ==> Named(f, b);
    }
  }

  /** The inserted fields of the first rewrite are all removed by the second. */
  predicate Removes(lines: seq<string>, names: seq<string>) {
    forall i :: 0 <= i < |lines| ==> NameOf(lines[i]) in names
  }

  lemma {:induction false} AllRemoved(lines: seq<string>, names: seq<string>)
    requires Removes(lines, names)
    requires forall i :: 0 <= i < |lines| ==> !IsContinuation(lines[i])
    ensures Keep(Group(lines), names) == [] && |Group(lines)| == |lines|
    ensures lines != [] ==> Group(lines)[|lines| - 1] == [lines[|lines| - 1]]
  {
    if lines != [] {
      var n := |lines| - 1;
      AllRemoved(lines[..n], names);
      KeepConcat(Group(lines[..n]), [[lines[n]]], names);
      assert [[lines[n]]][..0] == [];
    }
  }

  /** When a second rewrite leaves no trace of the first: the message must not begin with a
      continuation line, and if it begins with an empty line, its first header block must
      have no field that only the second rewrite strips. */
  predicate Absorbs(raw: string, first: seq<string>, second: seq<string>) {
    && !IsContinuation(raw)
    && (StartsBlank(raw) ==>
          var fs := Fields(SplitHeadersBody(raw).0);
          forall i :: 0 <= i < |fs| && Named(fs[i], second) ==> Named(fs[i], first))
  }

  /** What a rewrite appends to its own lines. */
  function Rest(raw: string, names: seq<string>): string {
    Text(KeptFields(raw, names)) + CRLF + Join(BodyLines(raw))
  }

  lemma RewrittenIsRest(raw: string, lines: seq<string>, names: seq<string>)
    requires Normal(raw)
    ensures Rewritten(raw, lines, names) == Join(lines) + Rest(raw, names)
  {
    hide Join, Text, Keep, KeptFields, BodyLines, Rewritten, Normal;
    RewrittenText(raw, lines, names);
  }

  /** The second rewrite erases the first, byte for byte, exactly under `Absorbs`. */
  lemma RewriteAbsorbs(raw: string, lines: seq<string>, first: seq<string>, lines': seq<string>, second: seq<string>)
    requires Normal(raw) && Inserted(lines) && Removes(lines, second)
    requires "" !in second && forall n :: n in first ==> n in second
    ensures Rewritten(Rewritten(raw, lines, first), lines', second) == Rewritten(raw, lines', second)
            <==> Absorbs(raw, first, second)
  {
    hide Join, Text, Keep, Flatten, Group, Rewritten, Rest, Normal, CrlfLines, Fields, SplitHeadersBody, Named;
    var raw' := Rewritten(raw, lines, first);
    RewrittenLines(raw, lines, first);
    RewrittenIsRest(raw, lines', second);
    RewrittenIsRest(raw', lines', second);
    SameTail(Join(lines'), Rest(raw', second), Rest(raw, second));
    if IsContinuation(raw) {
      OrphanIsLost(raw, lines, first, second);
    } else if StartsBlank(raw) {
      BlankStart(raw, lines, first, second);
    } else {
      FieldStart(raw, lines, first, second);
    }
  }

  lemma SameTail(head: string, a: string, b: string)
    ensures head + a == head + b <==> a == b
  {
    assert (head + a)[|head|..] == a && (head + b)[|head|..] == b;
  }

  lemma FieldStart(raw: string, lines: seq<string>, first: seq<string>, second: seq<string>)
    requires Normal(raw) && Inserted(lines) && Removes(lines, second)
    requires forall n :: n in first ==> n in second
    requires !StartsBlank(raw) && !IsContinuation(raw)
    ensures Rest(Rewritten(raw, lines, first), second) == Rest(raw, second)
  {
    hide Join, Flatten, Group, Keep, Rewritten, Normal, HeaderLines, BodyLines, Named;
    var fs := HeaderFieldsOf(raw);
    RewrittenSplit(raw, lines, first);
    FieldsAfterRewrite(raw, lines, first);
    KeepConcat(Group(lines), Keep(fs, first), second);
    AllRemoved(lines, second);
    KeepKeep(fs, first, second);
    KeepSameNames(fs, first + second, second);
    assert [] + Keep(fs, second) == Keep(fs, second);
  }

  lemma BlankStart(raw: string, lines: seq<string>, first: seq<string>, second: seq<string>)
    requires Normal(raw) && Inserted(lines) && Removes(lines, second) && StartsBlank(raw)
    requires "" !in second && forall n :: n in first ==> n in second
    ensures Rest(Rewritten(raw, lines, first), second) == Rest(raw, second)
            <==> var fs := Fields(SplitHeadersBody(raw).0);
                 forall i :: 0 <= i < |fs| && Named(fs[i], second) ==> Named(fs[i], first)
  {
    hide Join, Flatten, Group, Keep, Rewritten, Normal, HeaderLines, BodyLines, SplitHeadersBody, Named, IsLine,
         EndsCrlf;
    hide Fields, Text;
    var fs := HeaderFieldsOf(raw);
    BlankRest(raw, lines, first, second);
    HeaderFieldsOfSplit(raw);
    KeptTextLength(raw, first, second);
  }

  lemma BlankRest(raw: string, lines: seq<string>, first: seq<string>, second: seq<string>)
    requires Normal(raw) && Inserted(lines) && Removes(lines, second) && StartsBlank(raw) && "" !in first
    ensures Rest(Rewritten(raw, lines, first), second) == Rest(raw, first)
  {
    hide Join, Flatten, Group, Keep, Rewritten, Normal, HeaderLines, BodyLines, Named, IsLine, EndsCrlf, CrlfLines;
    var kept := Flatten(KeptFields(raw, first));
    RewrittenSplitBlank(raw, lines, first);
    AllRemoved(lines, second);
    BlankLineIsCrlf();
    assert kept == [CRLF] + kept[1..];
    JoinConcat([CRLF], kept[1..]);
    JoinConcat(kept[1..] + [CRLF], BodyLines(raw));
    JoinConcat(kept[1..], [CRLF]);
    EmptyText();
  }

  lemma EmptyText()
    ensures Text([]) == ""
  {
  }

  /** Equal length already means that both rewrites keep the same fields. */
  lemma KeptTextLength(raw: string, first: seq<string>, second: seq<string>)
    requires Normal(raw) && forall n :: n in first ==> n in second
    ensures var fs := HeaderFieldsOf(raw);
            Rest(raw, first) == Rest(raw, second)
            <==> forall i :: 0 <= i < |fs| && Named(fs[i], second) ==> Named(fs[i], first)
  {
    hide Join, Text, Keep, Named, Normal, BodyLines, HeaderFieldsOf;
    var fs := HeaderFieldsOf(raw);
    NonemptyFields(raw);
    KeepLength(fs, first, second);
  }

  lemma HeaderFieldsOfSplit(raw: string)
    requires Normal(raw)
    ensures Fields(SplitHeadersBody(raw).0) == HeaderFieldsOf(raw)
  {
    hide Join, Group, SplitHeadersBody, HeaderLines, Normal, CrlfLines;
    HeaderAndBodyLines(raw);
    SplitByLines(raw);
    LinesOfCrlf(HeaderLines(raw));
  }

  lemma NonemptyFields(raw: string)
    requires Normal(raw)
    ensures var fs := HeaderFieldsOf(raw); forall i :: 0 <= i < |fs| ==> fs[i] != [] && fs[i][0] != ""
  {
    hide Group, Flatten, HeaderLines, Normal, EndsCrlf;
    HeaderAndBodyLines(raw);
    var fs := HeaderFieldsOf(raw);
    forall i | 0 <= i < |fs| ensures fs[i] != [] && fs[i][0] != "" {
      FieldInFlatten(fs, i);
      assert fs[i][0] in HeaderLines(raw);
    }
  }

  lemma {:induction false} FieldInFlatten(fs: seq<Field>, i: nat)
    requires i < |fs| && fs[i] != []
    ensures fs[i][0] in Flatten(fs)
  {
    if i < |fs| - 1 {
      FieldInFlatten(fs[..|fs| - 1], i);
    }
  }

  /** Orphan continuation lines get folded onto the last inserted field and vanish with it. */
  lemma OrphanIsLost(raw: string, lines: seq<string>, first: seq<string>, second: seq<string>)
    requires Normal(raw) && Inserted(lines) && Removes(lines, second) && IsContinuation(raw)
    requires "" !in second && forall n :: n in first ==> n in second
    ensures |Rest(Rewritten(raw, lines, first), second)| < |Rest(raw, second)|
  {
    hide Join, Flatten, Keep, Rewritten, Normal, HeaderFieldsOf, KeptFields, BodyLines, IsContinuation, Inserted,
         Removes;
    var fs := HeaderFieldsOf(raw);
    ContinuationIsNotBlank(raw);
    RewrittenSplit(raw, lines, first);
    OrphanDropped(raw, lines, first, second);
    FirstKept(raw, second);
    JoinConcat(fs[0], Flatten(Keep(fs[1..], second)));
    NonemptyFields(raw);
    JoinNonempty(fs[0]);
  }

  lemma OrphanDropped(raw: string, lines: seq<string>, first: seq<string>, second: seq<string>)
    requires Normal(raw) && Inserted(lines) && Removes(lines, second) && IsContinuation(raw)
    requires "" !in first && forall n :: n in first ==> n in second
    ensures HeaderFieldsOf(raw) != []
    ensures KeptFields(Rewritten(raw, lines, first), second) == Keep(HeaderFieldsOf(raw)[1..], second)
  {
    hide Flatten, Group, Keep, Rewritten, Normal, HeaderFieldsOf, Named, Lines, CrlfLines;
    var fs, m := HeaderFieldsOf(raw), |lines| - 1;
    GroupOrphan(raw, lines, first);
    LastRemoved(lines, fs[0], second);
    KeepConcat(Group(lines)[..m] + [[lines[m]] + fs[0]], Keep(fs[1..], first), second);
    KeepKeep(fs[1..], first, second);
    KeepSameNames(fs[1..], first + second, second);
  }

  lemma JoinNonempty(ls: seq<string>)
    requires ls != [] && ls[0] != ""
    ensures |Join(ls)| > 0
  {
  }

  lemma LastRemoved(lines: seq<string>, orphan: Field, names: seq<string>)
    requires lines != [] && Removes(lines, names)
    requires forall i :: 0 <= i < |lines| ==> !IsContinuation(lines[i])
    ensures |Group(lines)| == |lines|
    ensures Keep(Group(lines)[..|lines| - 1] + [[lines[|lines| - 1]] + orphan], names) == []
  {
    var m := |lines| - 1;
    AllRemoved(lines, names);
    AllRemoved(lines[..m], names);
    var f := [lines[m]] + orphan;
    assert Group(lines) == Group(lines[..m]) + [[lines[m]]];
    assert Group(lines)[..m] == Group(lines[..m]);
    KeepConcat(Group(lines[..m]), [f], names);
    assert [f][..0] == [];
  }

  lemma GroupOrphan(raw: string, lines: seq<string>, names: seq<string>)
    requires Normal(raw) && Inserted(lines) && IsContinuation(raw) && "" !in names
    ensures var fs, m := HeaderFieldsOf(raw), |lines| - 1;
            && fs != [] && |Group(lines)| == |lines|
            && HeaderFieldsOf(Rewritten(raw, lines, names))
               == Group(lines)[..m] + [[lines[m]] + fs[0]] + Keep(fs[1..], names)
  {
    hide Join, Flatten, Group, Keep, Rewritten, Normal, HeaderLines, BodyLines, Named, IsLine, EndsCrlf, Lines;
    hide IsContinuation, Grouped;
    var fs, m := HeaderFieldsOf(raw), |lines| - 1;
    ContinuationIsNotBlank(raw);
    FirstKept(raw, names);
    FirstHeaderField(raw);
    var rest := Keep(fs[1..], names);
    KeptLines(raw, names);
    RewrittenSplit(raw, lines, names);
    SingleLines(lines);
    var front := Group(lines)[..m];
    assert Group(lines) == front + [[lines[m]]];
    FlattenGroup(lines);
    GlueOrphan(front, lines[m], fs[0], rest);
    GroupFlatten(front + [[lines[m]] + fs[0]] + rest);
  }

  lemma ContinuationIsNotBlank(raw: string)
    requires IsContinuation(raw)
    ensures !StartsBlank(raw) && raw != ""
  {
  }

  lemma SingleLines(lines: seq<string>)
    requires Inserted(lines)
    ensures |Group(lines)| == |lines| && Group(lines)[|lines| - 1] == [lines[|lines| - 1]]
  {
    var names := seq(|lines|, i requires 0 <= i < |lines| => NameOf(lines[i]));
    assert forall i :: 0 <= i < |lines| ==> names[i] == NameOf(lines[i]);
    AllRemoved(lines, names);
  }

  lemma GlueOrphan(front: seq<Field>, last: string, orphan: Field, rest: seq<Field>)
    requires Grouped(front + [[last]]) && Grouped([orphan] + rest) && orphan != [] && IsContinuation(orphan[0])
    ensures Grouped(front + [[last] + orphan] + rest)
    ensures Flatten(front + [[last] + orphan] + rest) == Flatten(front + [[last]]) + Flatten([orphan] + rest)
  {
    GluedIsGrouped(front, last, orphan, rest);
    hide Grouped, IsContinuation, Flatten;
    var f := [last] + orphan;
    FlattenConcat(front + [f], rest);
    FlattenConcat(front, [f]);
    FlattenConcat(front, [[last]]);
    FlattenConcat([orphan], rest);
    FlattenOne(f);
    FlattenOne([last]);
    FlattenOne(orphan);
    Regroup(Flatten(front), [last], orphan, Flatten(rest));
  }

  lemma Regroup(a: seq<string>, b: seq<string>, c: seq<string>, d: seq<string>)
    ensures a + (b + c) + d == a + b + (c + d)
  {
  }

  lemma FlattenOne(f: Field)
    ensures Flatten([f]) == f
  {
  }

  lemma GluedIsGrouped(front: seq<Field>, last: string, orphan: Field, rest: seq<Field>)
    requires Grouped(front + [[last]]) && Grouped([orphan] + rest) && orphan != [] && IsContinuation(orphan[0])
    ensures Grouped(front + [[last] + orphan] + rest)
  {
    hide IsContinuation;
    var a, b, n := front + [[last]], [orphan] + rest, |front|;
    var f := [last] + orphan;
    var fs := front + [f] + rest;
    assert a[n] == [last] && b[0] == orphan;
    forall i | 0 <= i < |fs|
      ensures fs[i] != [] && (i > 0 ==> !IsContinuation(fs[i][0]))
      ensures forall j :: 0 < j < |fs[i]| ==> IsContinuation(fs[i][j])
    {
      if i < n {
        assert fs[i] == a[i];
      } else if i == n {
        assert forall j :: 0 < j < |f| ==> f[j] == orphan[j - 1];
      } else {
        assert fs[i] == b[i - n];
      }
    }
  }
}
