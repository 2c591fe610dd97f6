/** What every command line means, in characters: verbs in any case, with or without an
    argument, line ends of any kind, and what the argument of MAIL and RCPT must look like
    (src/smtp/session.rs:69-73, 75-181 and 234-254). And what RSET means for the lines behind
    it. */
module Commands {
  import opened Ascii
  import opened Basics
  import opened Client
  import opened DataReader
  import opened EmailAddress
  import opened HeaderFields
  import opened Session

  // ---- Verbs ----

  /** A verb, an argument behind one space if there is one, and the end of the line. */
  function CommandLine(verb: string, argument: Option<string>, end: string): string {
    Said(verb, argument) + end
  }

  function Said(verb: string, argument: Option<string>): string {
    if argument.Some? then verb + " " + argument.value else verb
  }

  predicate IsCommandLine(verb: string, argument: Option<string>, end: string) {
    && ' ' !in verb && (forall i :: 0 <= i < |end| ==> end[i] == '\r' || end[i] == '\n')
    && var said := Said(verb, argument);
       said != "" ==> said[|said| - 1] != '\r' && said[|said| - 1] != '\n'
  }

  lemma VerbIsRead(verb: string, argument: Option<string>, end: string)
    requires IsCommandLine(verb, argument, end)
    ensures var command := TrimEnd(IsEol, CommandLine(verb, argument, end));
            var space := Find(command, ' ');
            && command[..space] == verb
            && (argument.None? ==> space == |command|)
            && (argument.Some? ==> space < |command| && command[space + 1..] == argument.value)
  {
    hide TrimEnd, Find;
    var said := Said(verb, argument);
    TrimEndIs(IsEol, said, end);
    if argument.Some? {
      VerbAndRest(verb, argument.value);
    } else {
      assert verb[..|verb|] == verb;
      NoSpaceFound(verb);
    }
  }

  lemma NoSpaceFound(verb: string)
    requires ' ' !in verb
    ensures Find(verb, ' ') == |verb|
  {
  }

  predicate IsKnown(verb: string) {
    || Spells(verb, "ehlo") || Spells(verb, "helo") || Spells(verb, "mail") || Spells(verb, "rcpt")
    || Spells(verb, "data") || Spells(verb, "rset") || Spells(verb, "noop") || Spells(verb, "vrfy")
    || Spells(verb, "expn") || Spells(verb, "starttls") || Spells(verb, "quit")
  }

  /** Every command line is read by its verb, in any case. */
  lemma EveryLineIsRead(verb: string, argument: Option<string>, end: string)
    requires IsCommandLine(verb, argument, end)
    ensures var c := ParseCommand(CommandLine(verb, argument, end));
            var rest := if argument.Some? then Trim(argument.value) else "";
            && (Spells(verb, "ehlo") ==> c == Ehlo) && (Spells(verb, "helo") ==> c == Helo)
            && (Spells(verb, "mail") ==> c == Mail(rest)) && (Spells(verb, "rcpt") ==> c == Rcpt(rest))
            && (Spells(verb, "data") ==> c == Data) && (Spells(verb, "rset") ==> c == Rset)
            && (Spells(verb, "noop") ==> c == Noop) && (Spells(verb, "quit") ==> c == Quit)
            && (Spells(verb, "vrfy") ==> c == Verify) && (Spells(verb, "expn") ==> c == Verify)
            && (Spells(verb, "starttls") ==> c == StartTls)
            && (verb == "" ==> c == Empty)
            && (verb != "" && !IsKnown(verb) ==> c == Unknown)
  {
    hide Trim, TrimEnd, Find, Spells, ToLower, CommandLine;
    VerbIsRead(verb, argument, end);
    SpellsIsLower(verb, "ehlo");
    SpellsIsLower(verb, "helo");
    SpellsIsLower(verb, "mail");
    SpellsIsLower(verb, "rcpt");
    SpellsIsLower(verb, "data");
    SpellsIsLower(verb, "rset");
    SpellsIsLower(verb, "noop");
    SpellsIsLower(verb, "quit");
    SpellsIsLower(verb, "vrfy");
    SpellsIsLower(verb, "expn");
    SpellsIsLower(verb, "starttls");
  }

  // ---- Answers ----

  /** What each command is answered, and what it does; refusals change nothing. */
  lemma EveryAnswer(s: State, e: Event)
    ensures var code, s' := FinalCode(s, e), Next(s, e);
            match e.command
            case Ehlo => code == 250 && s' == State(true, false, Session.Envelope("", [], ""))
            case Helo => code == 250 && s' == State(true, false, Session.Envelope("", [], ""))
            case Mail(_) =>
              && (code == 250 <==> s.greeted && MailAddress(e.command).Some?)
              && (code == 250 ==>
                    s' == State(true, true, Session.Envelope(MailAddress(e.command).value, [], "")))
              && (code != 250 ==> s' == s && code == if !s.greeted then 503 else 501)
            case Rcpt(_) =>
              && (code == 250 <==>
                    s.haveSender && |s.envelope.rcptTo| < 50 && RcptAddress(e.command).Some? && e.accepted)
              && (code == 250 ==>
                    s' == s.(envelope := s.envelope.(rcptTo :=
                                           s.envelope.rcptTo + [RcptAddress(e.command).value])))
              && (code != 250 ==>
                    s' == s && code == if !s.haveSender then 503 else if |s.envelope.rcptTo| >= 50 then 452
                                       else if RcptAddress(e.command).None? then 501 else 550)
            case Data =>
              if s.envelope.rcptTo == [] then code == 503 && s' == s && Handed(s, e) == None else
              && s' == State(s.greeted, false, Session.Envelope("", [], ""))
              && (match e.read
                  case Message(data) =>
                    code == (if e.queued then 250 else 451)
                    && Handed(s, e) == Some(Session.Envelope(s.envelope.mailFrom, s.envelope.rcptTo, data))
                  case TooLarge => code == 552 && Handed(s, e) == None
                  case Closed => code == 421 && Handed(s, e) == None)
            case Rset => code == 250 && s' == State(s.greeted, false, Session.Envelope("", [], ""))
            case Noop => code == 250 && s' == s
            case Verify => code == 252 && s' == s
            case StartTls => code == 454 && s' == s
            case Quit => code == 221 && s' == s
            case Empty => code == 500 && s' == s
            case Unknown => code == 502 && s' == s
  {
    hide MailAddress, RcptAddress;
    AddressesOf(e.command);
  }

  lemma AddressesOf(c: Command)
    ensures (MailAddress(c).Some? ==> c.Mail?) && (RcptAddress(c).Some? ==> c.Rcpt?)
    ensures (RcptAddress(c) == None <==> RcptAddress(c).None?) && (MailAddress(c) == None <==> MailAddress(c).None?)
  {
    hide ParseAddressArgument;
  }

  // ---- RSET, by the bytes ----

  /** A complete line in front of the rest of the input, with any line end. */
  lemma LineIsNext(input: string, log: seq<Event>, n: nat, max: nat, line: string, rest: string)
    requires Replays(input, log, max) && n < |log|
    requires IsLine(line) && HeaderFields.Ended(line) && Leftover(input, log[..n]) == line + rest
    ensures log[n].command == ParseCommand(line) && Run(log[..n + 1]) == Next(Run(log[..n]), log[n])
  {
    hide ParseCommand, Lines, Join, OpensData, AsksRouter, ReadSpec, DropData, Next, IsLine, HeaderFields.Ended;
    assert Follows(input, log[..n], log[n], max);
    FirstOfLines(line, rest);
    LineIsSomething(line);
    LineRead(line + rest, line, rest);
    assert log[..n + 1][..n] == log[..n];
  }

  lemma LineIsSomething(line: string)
    requires IsLine(line)
    ensures line != ""
  {
  }

  /** Once a line with RSET was read, in any case and whatever stands behind it, nothing is
      handed over, and DATA is answered with 503, until a MAIL and behind it a RCPT are
      accepted. The same goes for EHLO and HELO. */
  lemma ResetCancels(input: string, log: seq<Event>, n: nat, m: nat, max: nat, verb: string,
                     argument: Option<string>, end: string, rest: string)
    requires Replays(input, log, max) && n < m < |log|
    requires IsCommandLine(verb, argument, end)
    requires Spells(verb, "rset") || Spells(verb, "ehlo") || Spells(verb, "helo")
    requires var line := CommandLine(verb, argument, end);
             IsLine(line) && HeaderFields.Ended(line) && Leftover(input, log[..n]) == line + rest
    requires forall i, j :: n < i < j < m ==> !(TakesSender(log, i) && TakesRecipient(log, j))
    ensures Handed(Run(log[..m]), log[m]) == None
    ensures log[m].command.Data? ==> FinalCode(Run(log[..m]), log[m]) == 503 && Run(log[..m + 1]) == Run(log[..m])
  {
    hide Replays, ParseCommand, CommandLine, IsCommandLine, Spells, Leftover, IsLine, HeaderFields.Ended, Run, Next,
         FinalCode, Handed, TakesSender, TakesRecipient;
    EveryLineIsRead(verb, argument, end);
    LineIsNext(input, log, n, max, CommandLine(verb, argument, end), rest);
    EveryAnswer(Run(log[..n]), log[n]);
    NothingOpen(log, n, m);
    EveryAnswer(Run(log[..m]), log[m]);
    OnlyDataHandsOver(Run(log[..m]), log[m]);
    assert log[..m + 1][..m] == log[..m];
    RunNext(log, m);
  }

  lemma RunNext(log: seq<Event>, m: nat)
    requires m < |log|
    ensures Run(log[..m + 1]) == Next(Run(log[..m]), log[m])
  {
    hide Next;
    assert log[..m + 1][..m] == log[..m];
  }

  lemma OnlyDataHandsOver(s: State, e: Event)
    ensures Handed(s, e).Some? ==> e.command.Data?
  {
  }

  /** The command was answered with 250 and named the sender, or a recipient. */
  predicate TakesSender(log: seq<Event>, i: int) {
    0 <= i < |log| && log[i].command.Mail? && FinalCode(Run(log[..i]), log[i]) == 250
  }

  predicate TakesRecipient(log: seq<Event>, j: int) {
    0 <= j < |log| && log[j].command.Rcpt? && FinalCode(Run(log[..j]), log[j]) == 250
  }

  /** Recipients need a sender taken behind the reset, and themselves to be taken behind that. */
  lemma {:induction false} NothingOpen(log: seq<Event>, n: nat, m: nat)
    requires n < m <= |log| && !Run(log[..n + 1]).haveSender && Run(log[..n + 1]).envelope.rcptTo == []
    requires forall i, j :: n < i < j < m ==> !(TakesSender(log, i) && TakesRecipient(log, j))
    ensures Run(log[..m]).envelope.rcptTo == []
    ensures Run(log[..m]).haveSender ==> exists i :: n < i < m && TakesSender(log, i)
    decreases m
  {
    hide Run, Next, FinalCode, Handed, MailAddress, RcptAddress;
    if m > n + 1 {
      NothingOpen(log, n, m - 1);
      RunNext(log, m - 1);
      var s, e := Run(log[..m - 1]), log[m - 1];
      EveryAnswer(s, e);
      if s.haveSender {
        var i :| n < i < m - 1 && TakesSender(log, i);
        assert !(TakesSender(log, i) && TakesRecipient(log, m - 1));
      }
      if e.command.Mail? && FinalCode(s, e) == 250 {
        assert TakesSender(log, m - 1);
      }
    }
  }

  // ---- The arguments of MAIL and RCPT ----

  lemma TrimColon(before: string, value: string)
    ensures var b, v := TrimStart(IsSpace, before), TrimEnd(IsSpace, value);
            Trim(before + ":" + value) == b + ":" + v && Trim(b) == Trim(before) && Trim(v) == Trim(value)
  {
    hide TrimStart, TrimEnd, IsSpace, Indent, Trim;
    var b, v := TrimStart(IsSpace, before), TrimEnd(IsSpace, value);
    ColonIsNoSpace();
    TrimUnfolds(before + ":" + value);
    TrimUnfolds(before);
    TrimUnfolds(b);
    Parenthesised(before, ":", value);
    Parenthesised(b, ":", value);
    TrimFront(before, ":" + value);
    TrimBack(b + ":", value);
    StartIsTrimmed(b);
    TrimTwice(value);
  }

  lemma TrimUnfolds(s: string)
    ensures Trim(s) == TrimEnd(IsSpace, TrimStart(IsSpace, s))
  {
    hide TrimStart, TrimEnd, IsSpace, Indent;
  }

  lemma Parenthesised(a: string, b: string, c: string)
    ensures a + b + c == a + (b + c)
  {
  }

  lemma TrimFront(before: string, more: string)
    requires more != "" && !IsSpace(more[0])
    ensures TrimStart(IsSpace, before + more) == TrimStart(IsSpace, before) + more
  {
    hide TrimStart, IsSpace;
    var b := TrimStart(IsSpace, before);
    var lead := before[..|before| - |b|];
    assert before == lead + b && before + more == lead + (b + more);
    assert (b + more)[0] == if b != "" then b[0] else more[0];
    TrimStartIs(IsSpace, lead, b + more);
  }

  lemma TrimBack(front: string, value: string)
    requires front != "" && !IsSpace(front[|front| - 1])
    ensures TrimEnd(IsSpace, front + value) == front + TrimEnd(IsSpace, value)
  {
    hide TrimEnd, IsSpace;
    var v := TrimEnd(IsSpace, value);
    var tail := value[|v|..];
    assert value == v + tail && front + value == (front + v) + tail;
    assert (front + v)[|front + v| - 1] == if v != "" then v[|v| - 1] else front[|front| - 1];
    TrimEndIs(IsSpace, front + v, tail);
  }

  lemma StartIsTrimmed(b: string)
    requires b != "" ==> !IsSpace(b[0])
    ensures TrimStart(IsSpace, b) == b
  {
    hide IsSpace;
    TrimStartIs(IsSpace, "", b);
    assert "" + b == b;
  }

  lemma ColonIsNoSpace()
    ensures !IsSpace(':')
  {
  }

  lemma TrimTwice(value: string)
    ensures Trim(TrimEnd(IsSpace, value)) == Trim(value)
  {
    hide TrimStart, TrimEnd, IsSpace, Trim, Indent;
    var v, r, d := TrimEnd(IsSpace, value), Trim(value), Indent(value);
    if v == "" {
      OnlySpaces(value);
      OnlySpaces(v);
    } else {
      assert !IsSpace(value[|v| - 1]);
      assert r != "" by { SomethingStays(value, |v| - 1); }
      assert !IsSpace(r[|r| - 1]) && r[|r| - 1] == value[d + |r| - 1];
      assert d + |r| <= |v|;
      assert v[d..d + |r|] == r;
      TrimIs(v, d, d + |r|);
    }
  }

  lemma OnlySpaces(s: string)
    requires forall k :: 0 <= k < |s| ==> IsSpace(s[k])
    ensures Trim(s) == ""
  {
    hide Trim, Indent, IsSpace;
    assert s[0..0] == "";
    TrimIs(s, 0, 0);
  }

  lemma SomethingStays(s: string, i: nat)
    requires i < |s| && !IsSpace(s[i])
    ensures Trim(s) != ""
  {
    hide IsSpace, Indent;
  }

  /** The argument is a keyword in any case, a colon and a path, with white space around each,
      in at most 4096 characters. */
  lemma ArgumentExactly(before: string, value: string, keyword: string, word: string)
    requires ':' !in before && Spells(keyword, word)
    ensures ParseAddressArgument(before + ":" + value, keyword)
            == if |before| + 1 + |value| <= 4096 && Spells(Trim(before), word) then ParsePath(Trim(value)) else None
  {
    hide Trim, ParsePath, TrimStart, TrimEnd, Spells, ToLower, Find, Indent, IsSpace;
    var b, v := TrimStart(IsSpace, before), TrimEnd(IsSpace, value);
    TrimColon(before, value);
    NoColonInFront(before);
    ColonFound(b, v);
    SpellsIsLower(keyword, word);
    SpellsIsLower(Trim(before), word);
  }

  lemma NoColonInFront(before: string)
    requires ':' !in before
    ensures ':' !in TrimStart(IsSpace, before)
  {
    hide TrimStart, IsSpace;
  }

  lemma ColonFound(b: string, v: string)
    requires ':' !in b
    ensures var rest := b + ":" + v;
            Find(rest, ':') == |b| < |rest| && rest[..|b|] == b && rest[|b| + 1..] == v
  {
    var rest := b + ":" + v;
    assert rest[..|b|] == b && rest[|b| + 1..] == v;
    FindIs(rest, ':', |b|);
  }

  lemma NoColonNoAddress(argument: string, keyword: string)
    requires ':' !in argument
    ensures ParseAddressArgument(argument, keyword) == None
  {
    hide Trim, Indent, ParsePath;
    assert forall i :: 0 <= i < |Trim(argument)| ==> Trim(argument)[i] == argument[Indent(argument) + i];
  }

  predicate NoWhite(s: string) { forall i :: 0 <= i < |s| ==> !IsWhite(s[i]) }

  /** A path is what stands between angle brackets, whatever follows, or else the first word; a
      `>` without a `<` in front is refused. */
  lemma PathExactly(address: string, params: string)
    requires '>' !in address
    ensures ParsePath("<" + address + ">" + params) == Some(Trim(address))
    ensures address != "" && address[0] != '<' ==> ParsePath(address + ">" + params) == None
    ensures '>' !in params && NoWhite(address) && (params != "" ==> IsWhite(params[0])) ==>
              ParsePath(address + params) == Some(address)
  {
    hide *;
    BracketedPath(address, params);
    UnopenedPath(address, params);
    if '>' !in params && NoWhite(address) && (params != "" ==> IsWhite(params[0])) {
      BarePath(address, params);
    }
  }

  lemma BracketedPath(address: string, params: string)
    requires '>' !in address
    ensures ParsePath("<" + address + ">" + params) == Some(Trim(address))
  {
    hide Trim, Find, FirstWord;
    InBrackets(address, params);
  }

  lemma UnopenedPath(address: string, params: string)
    requires '>' !in address
    ensures address != "" && address[0] != '<' ==> ParsePath(address + ">" + params) == None
  {
    hide Trim, Find, FirstWord;
    BracketFound(address, params);
  }

  lemma BarePath(address: string, params: string)
    requires '>' !in address && '>' !in params && NoWhite(address) && (params != "" ==> IsWhite(params[0]))
    ensures ParsePath(address + params) == Some(address)
  {
    hide Trim, Find, FirstWord, IsWhite, NoWhite;
    NoBracketFound(address + params);
    FirstWordIs(address, params);
  }

  lemma InBrackets(address: string, params: string)
    requires '>' !in address
    ensures var path := "<" + address + ">" + params;
            Find(path, '>') == |address| + 1 < |path| && path[0] == '<' && path[1..|address| + 1] == address
  {
    var path, n := "<" + address + ">" + params, |address| + 1;
    assert path[..n] == "<" + address && path[1..n] == address;
    FindIs(path, '>', n);
  }

  lemma BracketFound(address: string, params: string)
    requires '>' !in address
    ensures var path := address + ">" + params;
            Find(path, '>') == |address| < |path| && (address != "" ==> path[0] == address[0])
  {
    var path := address + ">" + params;
    assert path[..|address|] == address;
    FindIs(path, '>', |address|);
  }

  lemma NoBracketFound(path: string)
    requires '>' !in path
    ensures Find(path, '>') == |path|
  {
  }

  lemma WhiteIsSpace(c: char)
    ensures IsWhite(c) <==> IsSpace(c)
  {
  }

  lemma FirstWordIs(word: string, rest: string)
    requires NoWhite(word) && (rest != "" ==> IsWhite(rest[0]))
    ensures FirstWord(word + rest) == word && Trim(word) == word
  {
    hide Trim, Indent, IsWhite, IsSpace, FirstWord;
    forall i | 0 <= i < |word| ensures !IsSpace(word[i]) {
      WhiteIsSpace(word[i]);
    }
    if rest != "" {
      WhiteIsSpace(rest[0]);
    }
    WordBeforeSpace(word, rest);
    assert Trimmed(word);
  }

  lemma {:induction false} WordBeforeSpace(word: string, rest: string)
    requires (forall i :: 0 <= i < |word| ==> !IsSpace(word[i])) && (rest != "" ==> IsSpace(rest[0]))
    ensures FirstWord(word + rest) == word
  {
    hide IsSpace;
    if word == "" {
      assert word + rest == rest;
    } else {
      assert (word + rest)[1..] == word[1..] + rest && word == [word[0]] + word[1..];
      WordBeforeSpace(word[1..], rest);
    }
  }
}
