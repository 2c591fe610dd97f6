/** What the server makes of a client that keeps to the protocol (sections 3.3, 4.1.1 and
    4.5.2 of RFC 5321): the transaction it means, and no byte of input out of step. */
module Client {
  import opened Ascii
  import opened Basics
  import opened DataReader
  import opened HeaderFields
  import opened Session

  const DATA_COMMAND := "DATA" + CRLF

  function EhloCommand(host: string): string { "EHLO " + host + CRLF }

  function MailCommand(from: string): string { "MAIL " + "FROM:<" + from + ">" + CRLF }

  function RcptCommand(to: string): string { "RCPT " + "TO:<" + to + ">" + CRLF }

  /** An address a client can put between angle brackets; the null sender is one. */
  predicate Sendable(address: string) {
    |address| + 7 <= MAX_LINE_LENGTH && Trimmed(address) && '>' !in address && '\n' !in address
  }

  // ---- Paths ----

  /** What is cut off behind a visible character by trimming is only white space. */
  lemma TrimBehind(s: string, n: nat)
    requires 0 < n <= |s| && !IsSpace(s[0]) && !IsSpace(s[n - 1])
    ensures n <= |Trim(s)| <= |s| && Trim(s) == s[..|Trim(s)|]
  {
    assert Indent(s) == 0;
  }

  /** The address in a path is found again, whatever parameters follow it. */
  lemma PathIsParsed(keyword: string, address: string, params: string)
    requires keyword != "" && Trimmed(keyword) && ':' !in keyword && Trimmed(address) && '>' !in address
    requires |keyword| + |address| + |params| + 3 <= MAX_LINE_LENGTH
    ensures ParseAddressArgument(keyword + ":<" + address + ">" + params, keyword) == Some(address)
  {
    hide Trim, Indent, ParsePath;
    var head := keyword + ":<" + address + ">";
    var argument := head + params;
    assert argument[..|head|] == head;
    TrimBehind(argument, |head|);
    var rest := Trim(argument);
    assert rest[..|head|] == head && head[..|keyword|] == keyword;
    assert rest[..|keyword|] == keyword;
    FindIs(rest, ':', |keyword|);
    var path := rest[|keyword| + 1..];
    assert path[..|address| + 2] == head[|keyword| + 1..] == "<" + address + ">";
    PathIsRead(path, address);
  }

  lemma PathIsRead(path: string, address: string)
    requires |path| >= |address| + 2 && path[..|address| + 2] == "<" + address + ">"
    requires Trimmed(address) && '>' !in address
    ensures ParsePath(Trim(path)) == Some(address)
  {
    hide Trim, Indent;
    var n := |address| + 2;
    assert path[0] == path[..n][0] && path[n - 1] == path[..n][n - 1];
    TrimBehind(path, n);
    var value := Trim(path);
    assert value[..n] == "<" + address + ">";
    assert value[..n - 1] == value[..n][..n - 1] == "<" + address;
    assert value[1..n - 1] == value[..n - 1][1..] == address;
    FindIs(value, '>', n - 1);
  }

  // ---- Command lines ----

  lemma StripCrlf(s: string)
    requires s != "" && !IsEol(s[|s| - 1])
    ensures TrimEnd(IsEol, s + CRLF) == s
  {
    assert (s + CRLF)[..|s| + 1] == s + "\r" && (s + "\r")[..|s|] == s;
  }

  lemma VerbAndRest(verb: string, rest: string)
    requires ' ' !in verb
    ensures var s := verb + " " + rest;
            Find(s, ' ') == |verb| && s[..|verb|] == verb && s[|verb| + 1..] == rest
  {
    var s := verb + " " + rest;
    assert s[..|verb|] == verb;
    FindIs(s, ' ', |verb|);
  }

  lemma Verbs()
    ensures ToLower("EHLO") == "ehlo" && ToLower("MAIL") == "mail" && ToLower("RCPT") == "rcpt"
            && ToLower("DATA") == "data"
  {
  }

  lemma DataIsParsed()
    ensures ParseCommand(DATA_COMMAND) == Data
  {
    hide Trim, ToLower, TrimEnd;
    var verb := "DATA";
    StripCrlf(verb);
    Verbs();
    assert ' ' !in verb && Find(verb, ' ') == |verb| && verb[..|verb|] == verb;
  }

  lemma EhloIsParsed(host: string)
    requires host != "" && !IsEol(host[|host| - 1])
    ensures ParseCommand(EhloCommand(host)) == Ehlo
  {
    hide Trim, ToLower, TrimEnd, Find;
    var verb := "EHLO";
    assert EhloCommand(host) == (verb + " " + host) + CRLF;
    StripCrlf(verb + " " + host);
    VerbAndRest(verb, host);
    Verbs();
  }

  predicate Argument(rest: string) { rest != "" && Trimmed(rest) && !IsEol(rest[|rest| - 1]) }

  lemma MailLine(rest: string)
    requires Argument(rest)
    ensures ParseCommand("MAIL " + rest + CRLF) == Mail(rest)
  {
    hide ToLower, TrimEnd, Find, Indent;
    var verb := "MAIL";
    assert "MAIL " + rest == verb + " " + rest;
    StripCrlf(verb + " " + rest);
    VerbAndRest(verb, rest);
    Verbs();
  }

  lemma RcptLine(rest: string)
    requires Argument(rest)
    ensures ParseCommand("RCPT " + rest + CRLF) == Rcpt(rest)
  {
    hide ToLower, TrimEnd, Find, Indent;
    var verb := "RCPT";
    assert "RCPT " + rest == verb + " " + rest;
    StripCrlf(verb + " " + rest);
    VerbAndRest(verb, rest);
    Verbs();
  }

  lemma MailIsParsed(from: string)
    requires Sendable(from)
    ensures MailAddress(ParseCommand(MailCommand(from))) == Some(from)
    ensures ParseCommand(MailCommand(from)).Mail?
  {
    hide ParseCommand, ParseAddressArgument;
    var rest := "FROM:<" + from + ">";
    assert MailCommand(from) == "MAIL " + rest + CRLF;
    assert rest == "FROM" + ":<" + from + ">" + "";
    MailLine(rest);
    PathIsParsed("FROM", from, "");
  }

  lemma RcptIsParsed(to: string)
    requires Sendable(to)
    ensures RcptAddress(ParseCommand(RcptCommand(to))) == Some(to)
    ensures ParseCommand(RcptCommand(to)).Rcpt?
  {
    hide ParseCommand, ParseAddressArgument;
    var rest := "TO:<" + to + ">";
    assert RcptCommand(to) == "RCPT " + rest + CRLF;
    assert rest == "TO" + ":<" + to + ">" + "";
    RcptLine(rest);
    PathIsParsed("TO", to, "");
  }

  // ---- One line at a time ----

  /** A complete line at the front of the input is the next command. */
  lemma NextCommand(input: string, log: seq<Event>, n: nat, max: nat, line: string, rest: string)
    requires Replays(input, log, max) && n < |log|
    requires '\n' !in line && Leftover(input, log[..n]) == line + CRLF + rest
    ensures log[n].command == ParseCommand(line + CRLF)
    ensures Run(log[..n + 1]) == Next(Run(log[..n]), log[n])
    ensures !OpensData(Run(log[..n]), log[n].command) ==> Leftover(input, log[..n + 1]) == rest
  {
    hide ParseCommand, Lines, Join, OpensData, AsksRouter, ReadSpec, DropData, Next;
    assert Follows(input, log[..n], log[n], max);
    assert IsLine(line + CRLF);
    FirstOfLines(line + CRLF, rest);
    LineRead(line + CRLF + rest, line + CRLF, rest);
    assert log[..n + 1][..n] == log[..n];
  }

  /** A client that has a recipient accepted and sends DATA, its lines dot-stuffed, and the
      final dot gets 552 exactly when the lines are too large; otherwise they are handed over
      unchanged. Either way the next command is read from right behind the dot. */
  lemma DataStaysInStep(input: string, log: seq<Event>, n: nat, max: nat, cs: seq<string>, rest: string)
    requires Replays(input, log, max) && n < |log| && Run(log[..n]).envelope.rcptTo != []
    requires Leftover(input, log[..n]) == DATA_COMMAND + Wire(cs) + rest
    requires forall i :: 0 <= i < |cs| ==> '\n' !in cs[i]
    ensures OpensData(Run(log[..n]), log[n].command)
    ensures FinalCode(Run(log[..n]), log[n]) == 552 <==> Size(cs) > max
    ensures Size(cs) <= max ==>
              && FinalCode(Run(log[..n]), log[n]) in {250, 451}
              && Handed(Run(log[..n]), log[n]) == Some(Run(log[..n]).envelope.(data := Assemble(cs)))
    ensures Leftover(input, log[..n + 1]) == rest
  {
    hide ReadSpec, Wire, Run, ParseCommand, FirstLineOf, DropLine, Assemble, Size, AsksRouter, DropData, Contents,
         MailAddress, RcptAddress;
    assert Follows(input, log[..n], log[n], max);
    assert DATA_COMMAND + Wire(cs) + rest == DATA_COMMAND + (Wire(cs) + rest);
    DataLine(Wire(cs) + rest);
    DataIsParsed();
    DataRoundTrip(cs, rest, max);
    DataRead(Wire(cs) + rest, rest);
    assert log[..n + 1][..n] == log[..n];
  }

  lemma DataLine(rest: string)
    ensures FirstLineOf(DATA_COMMAND + rest) == DATA_COMMAND && DropLine(DATA_COMMAND + rest) == rest
  {
    hide Lines, Join;
    assert IsLine(DATA_COMMAND);
    FirstOfLines(DATA_COMMAND, rest);
    LineRead(DATA_COMMAND + rest, DATA_COMMAND, rest);
  }

  // ---- A whole transaction ----

  function RcptCommands(rcpts: seq<string>): string {
    if rcpts == [] then "" else RcptCommand(rcpts[0]) + RcptCommands(rcpts[1..])
  }

  /** EHLO, MAIL, every RCPT, and what the client sends after them. */
  function Opening(host: string, from: string, rcpts: seq<string>, more: string): string {
    EhloCommand(host) + (MailCommand(from) + (RcptCommands(rcpts) + more))
  }

  predicate Conforming(host: string, from: string, rcpts: seq<string>) {
    && host != "" && '\n' !in host && !IsEol(host[|host| - 1]) && Sendable(from)
    && forall k :: 0 <= k < |rcpts| ==> Sendable(rcpts[k])
  }

  /** Of the first `k` recipients, those the server accepted, up to the limit. */
  function AcceptedOf(rcpts: seq<string>, log: seq<Event>, k: nat): seq<string>
    requires k <= |rcpts| && k + 2 <= |log|
  {
    if k == 0 then [] else
    var earlier := AcceptedOf(rcpts, log, k - 1);
    if log[k + 1].accepted && |earlier| < MAX_RECIPIENTS then earlier + [rcpts[k - 1]] else earlier
  }

  lemma Greeting(input: string, log: seq<Event>, max: nat, host: string, rest: string)
    requires Replays(input, log, max) && |log| > 0 && input == EhloCommand(host) + rest
    requires host != "" && '\n' !in host && !IsEol(host[|host| - 1])
    ensures log[0].command.Ehlo? && Run(log[..1]) == State(true, false, NO_ENVELOPE)
            && Leftover(input, log[..1]) == rest
  {
    hide ParseCommand, Lines, Join, Replays, AsksRouter;
    assert log[..0] == [];
    assert input == ("EHLO " + host) + CRLF + rest && EhloCommand(host) == ("EHLO " + host) + CRLF;
    EhloIsParsed(host);
    NextCommand(input, log, 0, max, "EHLO " + host, rest);
  }

  lemma MailAfterGreeting(input: string, log: seq<Event>, max: nat, from: string, rest: string)
    requires Replays(input, log, max) && |log| > 1 && Sendable(from)
    requires Run(log[..1]) == State(true, false, NO_ENVELOPE) && Leftover(input, log[..1]) == MailCommand(from) + rest
    ensures log[1].command.Mail? && Run(log[..2]) == State(true, true, Session.Envelope(from, [], ""))
    ensures Leftover(input, log[..2]) == rest
  {
    hide ParseCommand, Lines, Join, Replays, AsksRouter, Run, Leftover, ParseAddressArgument, Trimmed;
    var line := "MAIL " + "FROM:<" + from + ">";
    assert MailCommand(from) == line + CRLF && MailCommand(from) + rest == line + CRLF + rest;
    MailIsParsed(from);
    NextCommand(input, log, 1, max, line, rest);
  }

  lemma RcptInTransaction(input: string, log: seq<Event>, n: nat, max: nat, env: Envelope, to: string, rest: string)
    requires Replays(input, log, max) && n < |log| && Sendable(to)
    requires Run(log[..n]) == State(true, true, env) && Leftover(input, log[..n]) == RcptCommand(to) + rest
    ensures log[n].command.Rcpt? && Leftover(input, log[..n + 1]) == rest
    ensures Run(log[..n + 1])
            == State(true, true, if log[n].accepted && |env.rcptTo| < MAX_RECIPIENTS
                                 then env.(rcptTo := env.rcptTo + [to]) else env)
  {
    hide ParseCommand, Lines, Join, Replays, Run, Leftover, ParseAddressArgument, Trimmed;
    var line := "RCPT " + "TO:<" + to + ">";
    assert RcptCommand(to) == line + CRLF && RcptCommand(to) + rest == line + CRLF + rest;
    RcptIsParsed(to);
    NextCommand(input, log, n, max, line, rest);
  }

  /** After the first `k` recipients the state is the transaction the client meant. */
  lemma {:induction false} AfterRecipients(input: string, log: seq<Event>, max: nat, host: string, from: string,
                                           rcpts: seq<string>, more: string, k: nat)
    requires Replays(input, log, max) && Conforming(host, from, rcpts) && input == Opening(host, from, rcpts, more)
    requires k <= |rcpts| && k + 2 <= |log|
    ensures Run(log[..k + 2]) == State(true, true, Session.Envelope(from, AcceptedOf(rcpts, log, k), ""))
    ensures Leftover(input, log[..k + 2]) == RcptCommands(rcpts[k..]) + more
    ensures log[k + 1].command.Mail? || log[k + 1].command.Rcpt?
  {
    hide Replays, Run, Leftover, Trimmed, MailCommand, EhloCommand, RcptCommand;
    if k == 0 {
      Greeting(input, log, max, host, MailCommand(from) + (RcptCommands(rcpts) + more));
      MailAfterGreeting(input, log, max, from, RcptCommands(rcpts) + more);
      assert rcpts[0..] == rcpts;
    } else {
      AfterRecipients(input, log, max, host, from, rcpts, more, k - 1);
      var rest := RcptCommands(rcpts[k..]) + more;
      assert rcpts[k - 1..][1..] == rcpts[k..];
      assert RcptCommands(rcpts[k - 1..]) + more == RcptCommand(rcpts[k - 1]) + rest;
      RcptInTransaction(input, log, k + 1, max, Session.Envelope(from, AcceptedOf(rcpts, log, k - 1), ""),
          rcpts[k - 1], rest);
    }
  }

  /** The session cannot end before the client has said all this. */
  lemma NotOverYet(input: string, log: seq<Event>, max: nat, host: string, from: string, rcpts: seq<string>,
                   more: string)
    requires Replays(input, log, max) && Conforming(host, from, rcpts) && input == Opening(host, from, rcpts, more)
    requires more != "" && Over(input, log)
    ensures |log| >= |rcpts| + 3
  {
    hide Replays, Run, Trimmed;
    assert log[..|log|] == log;
    if |log| == 1 {
      Greeting(input, log, max, host, MailCommand(from) + (RcptCommands(rcpts) + more));
    } else if 2 <= |log| <= |rcpts| + 2 {
      AfterRecipients(input, log, max, host, from, rcpts, more, |log| - 2);
    }
  }

  /** A conforming client's transaction, from EHLO to the final dot: whatever the server
      answered to each recipient, the message handed over is exactly the sender, the
      accepted recipients in order and the lines the client meant; it is refused with 552
      exactly when it is too large; and what follows the dot is read next. */
  lemma ConformingTransaction(input: string, log: seq<Event>, max: nat, host: string, from: string,
                              rcpts: seq<string>, cs: seq<string>, rest: string)
    requires Replays(input, log, max) && Over(input, log) && Conforming(host, from, rcpts)
    requires input == Opening(host, from, rcpts, DATA_COMMAND + Wire(cs) + rest)
    requires forall i :: 0 <= i < |cs| ==> '\n' !in cs[i]
    ensures |log| >= |rcpts| + 3
    ensures var n := |rcpts| + 2;
            var accepted := AcceptedOf(rcpts, log, |rcpts|);
            && Run(log[..n]).envelope.rcptTo == accepted
            && (accepted != [] ==>
                  && OpensData(Run(log[..n]), log[n].command)
                  && (FinalCode(Run(log[..n]), log[n]) == 552 <==> Size(cs) > max)
                  && (Size(cs) <= max ==>
                        Handed(Run(log[..n]), log[n]) == Some(Session.Envelope(from, accepted, Assemble(cs))))
                  && Leftover(input, log[..n + 1]) == rest)
  {
    hide Replays, Run, Trimmed, Opening, Conforming, Wire, OpensData, FinalCode, Handed, Assemble, Size, Over, Leftover,
         RcptCommands;
    var more, n := DATA_COMMAND + Wire(cs) + rest, |rcpts| + 2;
    NotOverYet(input, log, max, host, from, rcpts, more);
    AfterRecipients(input, log, max, host, from, rcpts, more, |rcpts|);
    NoMoreRecipients(rcpts);
    assert "" + more == more;
    if AcceptedOf(rcpts, log, |rcpts|) != [] {
      DataStaysInStep(input, log, n, max, cs, rest);
    }
  }

  lemma NoMoreRecipients(rcpts: seq<string>)
    ensures RcptCommands(rcpts[|rcpts|..]) == ""
  {
  }
}
