/** The DATA payload reader: src/smtp/session.rs:185-232, section 4.5.2 of RFC 5321. */
module DataReader {
  import opened Ascii
  import opened HeaderFields
  import opened Messages

  datatype ReadOutcome = Message(data: string) | TooLarge | Closed

  function StripEol(line: string): string {
    var l := if line != "" && line[|line| - 1] == '\n' then line[..|line| - 1] else line;
    if l != "" && l[|l| - 1] == '\r' then l[..|l| - 1] else l
  }

  /** One leading dot was put there by the client. */
  function Unstuff(content: string): string {
    if content != "" && content[0] == '.' then content[1..] else content
  }

  /** A line counts without its line end, which is CRLF or a bare line feed; a CR in front of that
      belongs to the line. */
  lemma LineEndsExactly(c: string)
    ensures StripEol(c + "\r\n") == c
    ensures StripEol(c + "\r\r\n") == c + "\r"
    ensures (c != "" ==> c[|c| - 1] != '\r') ==> StripEol(c + "\n") == c
  {
    hide StripEol;
    EndedByCrlf(c);
    EndedByCrlf(c + "\r");
    assert c + "\r\r\n" == (c + "\r") + "\r\n";
    EndedByLf(c);
  }

  lemma EndedByCrlf(c: string)
    ensures StripEol(c + "\r\n") == c
  {
    assert (c + "\r\n")[..|c| + 1] == c + "\r" && (c + "\r")[..|c|] == c;
  }

  lemma EndedByLf(c: string)
    ensures (c != "" ==> c[|c| - 1] != '\r') ==> StripEol(c + "\n") == c
  {
    assert (c + "\n")[..|c|] == c;
  }

  /** Only a dot on its own ends the data. */
  lemma TerminatorExactly(line: string)
    ensures StripEol(line) == "." <==> IsDotLine(line)
  {
    if StripEol(line) == "." {
      var l := if line != "" && line[|line| - 1] == '\n' then line[..|line| - 1] else line;
      assert l == "." || l == ".\r";
    }
  }

  /** One leading dot is undone, and nothing else. */
  lemma UnstuffExactly(c: string)
    ensures Unstuff("." + c) == c && (c == "" || c[0] != '.' ==> Unstuff(c) == c)
  {
    assert ("." + c)[1..] == c;
  }

  /** Index of the line holding just a dot, or `|ls|`. */
  function TerminatorAt(ls: seq<string>): (t: nat)
    ensures t <= |ls| && (t < |ls| ==> StripEol(ls[t]) == ".")
    ensures forall i :: 0 <= i < t ==> StripEol(ls[i]) != "."
  {
    if ls == [] || StripEol(ls[0]) == "." then 0 else 1 + TerminatorAt(ls[1..])
  }

  function Contents(ls: seq<string>): (cs: seq<string>)
    ensures |cs| == |ls| && forall i :: 0 <= i < |ls| ==> cs[i] == Unstuff(StripEol(ls[i]))
  {
    if ls == [] then [] else Contents(ls[..|ls| - 1]) + [Unstuff(StripEol(ls[|ls| - 1]))]
  }

  /** Size of the lines once each is followed by CRLF. */
  function Size(cs: seq<string>): nat {
    if cs == [] then 0 else Size(cs[..|cs| - 1]) + |cs[|cs| - 1]| + 2
  }

  function WithCrlf(cs: seq<string>): (ls: seq<string>)
    ensures |ls| == |cs| && forall i :: 0 <= i < |cs| ==> ls[i] == cs[i] + CRLF
  {
    if cs == [] then [] else WithCrlf(cs[..|cs| - 1]) + [cs[|cs| - 1] + CRLF]
  }

  function Assemble(cs: seq<string>): string { Join(WithCrlf(cs)) }

  /** What the reader does with a stream: the lines before the terminator are the message
      unless they are too large, and nothing behind the terminator is touched. */
  function ReadSpec(stream: string, max: nat): ReadOutcome {
    var ls := Lines(stream);
    var t := TerminatorAt(ls);
    if t == |ls| then Closed
    else if Size(Contents(ls[..t])) > max then TooLarge
    else Message(Assemble(Contents(ls[..t])))
  }

  predicate IsDotLine(line: string) { line == ".\r\n" || line == ".\n" || line == "." || line == ".\r" }

  predicate HasDotLine(ls: seq<string>) { exists i :: 0 <= i < |ls| && IsDotLine(ls[i]) }

  /** Data that no such line ends is never a message, and data that one ends is a message or too
      large. */
  lemma OnlyADotEndsData(stream: string, max: nat)
    ensures ReadSpec(stream, max).Closed? <==> !HasDotLine(Lines(stream))
  {
    hide Lines, Size, Assemble;
    DotIsFound(Lines(stream));
  }

  lemma DotIsFound(ls: seq<string>)
    ensures HasDotLine(ls) <==> TerminatorAt(ls) < |ls|
  {
    hide StripEol, IsDotLine;
    var t := TerminatorAt(ls);
    forall i | 0 <= i < |ls| ensures StripEol(ls[i]) == "." <==> IsDotLine(ls[i]) {
      TerminatorExactly(ls[i]);
    }
    assert t < |ls| ==> IsDotLine(ls[t]);
  }

  function Consumed(stream: string): string {
    var ls := Lines(stream);
    var t := TerminatorAt(ls);
    Join(if t < |ls| then ls[..t + 1] else ls)
  }

  class BufReader {
    const input: string
    var pos: nat

    constructor (input: string)
      ensures this.input == input && pos == 0
    {
      this.input := input;
      pos := 0;
    }

    ghost predicate Valid()
      reads this
    {
      pos <= |input|
    }

    ghost function Remaining(): string
      reads this
      requires Valid()
    {
      input[pos..]
    }

    /** `read_until(b'\n')`, and `read_line`: empty only at the end of the input. */
    method ReadLine() returns (line: string)
      requires Valid()
      modifies this
      ensures Valid()
      ensures old(Remaining()) == line + Remaining()
      ensures if line == "" then Lines(old(Remaining())) == [] && Remaining() == ""
              else Lines(old(Remaining())) == [line] + Lines(Remaining())
    {
      var rest := input[pos..];
      var i := Find(rest, '\n');
      var end := if i < |rest| then pos + i + 1 else |input|;
      line := input[pos..end];
      pos := end;
      assert rest == line + input[end..];
      if i < |rest| {
        assert rest[i + 1..] == input[end..] && rest[..i + 1] == line;
      } else {
        assert input[end..] == "" && rest == line;
      }
    }
  }

  lemma AssembleLast(cs: seq<string>, c: string)
    ensures Size(cs + [c]) == Size(cs) + |c| + 2
    ensures Assemble(cs + [c]) == Assemble(cs) + c + CRLF
  {
    assert (cs + [c])[..|cs|] == cs;
    JoinLast(WithCrlf(cs), c + CRLF);
  }

  lemma {:induction false} AssembledSize(cs: seq<string>)
    ensures |Assemble(cs)| == Size(cs)
  {
    if cs != [] {
      var n := |cs| - 1;
      AssembledSize(cs[..n]);
      assert cs == cs[..n] + [cs[n]];
      AssembleLast(cs[..n], cs[n]);
    }
  }

  /** After `n` lines without a terminator: has the message outgrown the limit, and if not,
      what is it so far? */
  ghost predicate Progress(ls: seq<string>, n: nat, max: nat, tooLarge: bool, data: string) {
    && n <= |ls|
    && (forall i :: 0 <= i < n ==> StripEol(ls[i]) != ".")
    && (tooLarge <==> Size(Contents(ls[..n])) > max)
    && (!tooLarge ==> data == Assemble(Contents(ls[..n])))
  }

  /** Reads up to and including the terminator line, unstuffing and measuring on the way. */
  method ReadData(reader: BufReader, max: nat) returns (outcome: ReadOutcome)
    requires reader.Valid()
    modifies reader
    ensures reader.Valid()
    ensures outcome == ReadSpec(old(reader.Remaining()), max)
    ensures old(reader.Remaining()) == Consumed(old(reader.Remaining())) + reader.Remaining()
  {
    hide Join, Lines, StripEol, Unstuff, ReadSpec, Consumed, Progress;
    var data := "";
    var tooLarge := false;
    ghost var stream := reader.Remaining();
    ghost var ls := Lines(stream);
    ghost var n := 0;
    Starting(ls, max);
    while true
      invariant reader.Valid() && n <= |ls|
      invariant stream == Join(ls[..n]) + reader.Remaining()
      invariant Lines(reader.Remaining()) == ls[n..]
      invariant Progress(ls, n, max, tooLarge, data)
      decreases |ls| - n
    {
      var line := reader.ReadLine();
      if line == "" {
        Ending(stream, n, max, tooLarge, data);
        return Closed;
      }
      assert |ls[n..]| > 0;
      JoinNext(ls, n);
      assert stream == Join(ls[..n + 1]) + reader.Remaining();
      var content := StripEol(line);
      if content == "." {
        Terminated(stream, n, max, tooLarge, data);
        break;
      }
      ProgressNext(ls, n, max, tooLarge, data);
      if !tooLarge {
        content := Unstuff(content);
        if |data| + |content| + 2 > max {
          tooLarge := true;
        } else {
          data := data + content;
          data := data + CRLF;
        }
      }
      n := n + 1;
    }
    outcome := if tooLarge then TooLarge else Message(data);
  }

  lemma Starting(ls: seq<string>, max: nat)
    ensures Join(ls[..0]) == "" && ls[0..] == ls && Progress(ls, 0, max, false, "")
  {
  }

  lemma JoinNext(ls: seq<string>, n: nat)
    requires n < |ls|
    ensures Join(ls[..n + 1]) == Join(ls[..n]) + ls[n] && ls[n..][0] == ls[n] && ls[n..][1..] == ls[n + 1..]
  {
    assert ls[..n + 1] == ls[..n] + [ls[n]];
    JoinLast(ls[..n], ls[n]);
  }

  lemma ProgressNext(ls: seq<string>, n: nat, max: nat, tooLarge: bool, data: string)
    requires n < |ls| && StripEol(ls[n]) != "." && Progress(ls, n, max, tooLarge, data)
    ensures var c := Unstuff(StripEol(ls[n]));
            if tooLarge || |data| + |c| + 2 > max
            then Progress(ls, n + 1, max, true, data)
            else Progress(ls, n + 1, max, false, data + c + CRLF)
  {
    hide Size, Contents, Assemble, StripEol, Unstuff;
    NextLine(ls, n);
    AssembledSize(Contents(ls[..n]));
  }

  lemma NextLine(ls: seq<string>, n: nat)
    requires n < |ls|
    ensures var cs, c := Contents(ls[..n]), Unstuff(StripEol(ls[n]));
            && Contents(ls[..n + 1]) == cs + [c]
            && Size(Contents(ls[..n + 1])) == Size(cs) + |c| + 2
            && Assemble(Contents(ls[..n + 1])) == Assemble(cs) + c + CRLF
  {
    assert ls[..n + 1][..n] == ls[..n];
    AssembleLast(Contents(ls[..n]), Unstuff(StripEol(ls[n])));
  }

  lemma Ending(stream: string, n: nat, max: nat, tooLarge: bool, data: string)
    requires n == |Lines(stream)| && Progress(Lines(stream), n, max, tooLarge, data)
    ensures ReadSpec(stream, max) == Closed && Consumed(stream) == stream
  {
    hide Join, Lines, Contents, Size, Assemble, StripEol;
  }

  lemma Terminated(stream: string, t: nat, max: nat, tooLarge: bool, data: string)
    requires t < |Lines(stream)| && StripEol(Lines(stream)[t]) == "."
    requires Progress(Lines(stream), t, max, tooLarge, data)
    ensures ReadSpec(stream, max) == if tooLarge then TooLarge else Message(data)
    ensures Consumed(stream) == Join(Lines(stream)[..t + 1])
  {
    hide Join, Lines, Contents, Size, Assemble, StripEol;
    assert TerminatorAt(Lines(stream)) == t;
  }

  // ---- What the reader promises ----

  lemma StripEolOfLine(l: string)
    requires IsLine(l)
    ensures '\n' !in StripEol(l) && '\n' !in Unstuff(StripEol(l))
  {
  }

  lemma StripEolOfCrlf(c: string)
    ensures StripEol(c + CRLF) == c
  {
    assert (c + CRLF)[..|c| + 1] == c + "\r" && (c + "\r")[..|c|] == c;
  }

  /** An accepted message fits the limit and is CRLF-terminated line by line. */
  lemma AcceptedIsNormal(stream: string, max: nat)
    requires ReadSpec(stream, max).Message?
    ensures Normal(ReadSpec(stream, max).data) && |ReadSpec(stream, max).data| <= max
  {
    var ls := Lines(stream);
    var t := TerminatorAt(ls);
    var cs := Contents(ls[..t]);
    AssembledSize(cs);
    forall i | 0 <= i < t ensures '\n' !in cs[i] {
      StripEolOfLine(ls[i]);
    }
    AssembledIsNormal(cs);
  }

  lemma AssembledIsNormal(cs: seq<string>)
    requires forall i :: 0 <= i < |cs| ==> '\n' !in cs[i]
    ensures CrlfLines(WithCrlf(cs)) && Lines(Assemble(cs)) == WithCrlf(cs) && Normal(Assemble(cs))
  {
    hide Join, Lines, IsLine, EndsCrlf;
    forall i | 0 <= i < |cs| {
      CrlfIsLine(cs[i]);
    }
    LinesOfCrlf(WithCrlf(cs));
  }

  lemma CrlfIsLine(c: string)
    requires '\n' !in c
    ensures IsLine(c + CRLF) && EndsCrlf(c + CRLF)
  {
  }

  /** What a conforming client does to a line that begins with a dot. */
  function Stuff(c: string): string { if c != "" && c[0] == '.' then "." + c else c }

  function StuffAll(cs: seq<string>): (r: seq<string>)
    ensures |r| == |cs| && forall i :: 0 <= i < |cs| ==> r[i] == Stuff(cs[i])
  {
    if cs == [] then [] else StuffAll(cs[..|cs| - 1]) + [Stuff(cs[|cs| - 1])]
  }

  /** The bytes a conforming client sends for a message. */
  function Wire(cs: seq<string>): string { Assemble(StuffAll(cs)) + "." + CRLF }

  /** Any lines sent by a conforming client arrive unchanged, or are refused for their size
      alone, and the reader stops exactly behind the terminator. */
  lemma DataRoundTrip(cs: seq<string>, rest: string, max: nat)
    requires forall i :: 0 <= i < |cs| ==> '\n' !in cs[i]
    ensures ReadSpec(Wire(cs) + rest, max) == if Size(cs) <= max then Message(Assemble(cs)) else TooLarge
    ensures Consumed(Wire(cs) + rest) == Wire(cs)
  {
    hide Join, Lines, Size, Assemble, StripEol, Stuff, ReadSpec, Consumed, Progress, Wire;
    var stream := Wire(cs) + rest;
    WireLines(cs, rest);
    var ls := Lines(stream);
    forall i | 0 <= i < |cs| ensures StripEol(ls[i]) == Stuff(cs[i]) {
      StripEolOfCrlf(Stuff(cs[i]));
    }
    StuffedContents(ls, cs, max);
    StripEolOfCrlf(".");
    Terminated(stream, |cs|, max, Size(cs) > max, Assemble(cs));
  }

  lemma StuffedContents(ls: seq<string>, cs: seq<string>, max: nat)
    requires |ls| >= |cs| && forall i :: 0 <= i < |cs| ==> StripEol(ls[i]) == Stuff(cs[i])
    ensures Progress(ls, |cs|, max, Size(cs) > max, Assemble(cs))
  {
    hide Size, Assemble, StripEol, Stuff, Unstuff;
    forall i | 0 <= i < |cs| ensures StripEol(ls[i]) != "." && Unstuff(StripEol(ls[i])) == cs[i] {
      StuffingIsUndone(cs[i]);
    }
    assert Contents(ls[..|cs|]) == cs;
  }

  lemma StuffingIsUndone(c: string)
    ensures Unstuff(Stuff(c)) == c && Stuff(c) != "."
    ensures '\n' !in c ==> '\n' !in Stuff(c)
  {
  }

  lemma WireLines(cs: seq<string>, rest: string)
    requires forall i :: 0 <= i < |cs| ==> '\n' !in cs[i]
    ensures var ls := Lines(Wire(cs) + rest);
            && |ls| > |cs| && ls[|cs|] == "." + CRLF && Join(ls[..|cs| + 1]) == Wire(cs)
            && forall i :: 0 <= i < |cs| ==> ls[i] == Stuff(cs[i]) + CRLF
  {
    hide Join, Lines, IsLine, EndsCrlf, Stuff;
    var ls := WithCrlf(StuffAll(cs)) + ["." + CRLF];
    forall i | 0 <= i < |cs| ensures '\n' !in StuffAll(cs)[i] {
      StuffingIsUndone(cs[i]);
    }
    AssembledIsNormal(StuffAll(cs));
    JoinLast(WithCrlf(StuffAll(cs)), "." + CRLF);
    assert Join(ls) == Wire(cs);
    CrlfIsLine(".");
    LinesOfCrlf(ls);
    CrlfLinesAreLines(ls);
    LinesConcat(Wire(cs), rest);
    assert (ls + Lines(rest))[..|cs| + 1] == ls;
  }
}
