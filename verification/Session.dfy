/** The SMTP command state machine and its reading of the command history:
    src/smtp/session.rs:36-183 and 234-254. */
module Session {
  import opened Ascii
  import opened Basics
  import opened HeaderFields
  import Messages
  import opened DataReader

  const MAX_RECIPIENTS: nat := 50
  const MAX_LINE_LENGTH: nat := 4096

  datatype Command =
    | Ehlo | Helo | Mail(rest: string) | Rcpt(rest: string) | Data
    | Rset | Noop | Verify | StartTls | Quit | Empty | Unknown

  function ParseCommand(line: string): Command {
    var command := TrimEnd(IsEol, line);
    var space := Find(command, ' ');
    var verb := ToLower(command[..space]);
    var rest := if space < |command| then Trim(command[space + 1..]) else "";
    match verb
    case "ehlo" => Ehlo
    case "helo" => Helo
    case "mail" => Mail(rest)
    case "rcpt" => Rcpt(rest)
    case "data" => Data
    case "rset" => Rset
    case "noop" => Noop
    case "vrfy" => Verify
    case "expn" => Verify
    case "starttls" => StartTls
    case "quit" => Quit
    case "" => Empty
    case other => Unknown
  }

  /** Up to the first white space. */
  function FirstWord(s: string): string {
    if s == "" || IsSpace(s[0]) then "" else [s[0]] + FirstWord(s[1..])
  }

  /** `FROM:<addr>` or `TO:<addr>` with any parameters behind; the null sender is "". */
  function ParseAddressArgument(argument: string, keyword: string): Option<string> {
    if |argument| > MAX_LINE_LENGTH then None else
    var rest := Trim(argument);
    var colon := Find(rest, ':');
    if colon == |rest| || !EqIgnoreCase(Trim(rest[..colon]), keyword) then None
    else ParsePath(Trim(rest[colon + 1..]))
  }

  function ParsePath(value: string): Option<string> {
    var end := Find(value, '>');
    if end == |value| then Some(Trim(FirstWord(value)))
    else if value[0] != '<' then None
    else Some(Trim(value[1..end]))
  }

  // ---- One command ----

  datatype Envelope = Envelope(mailFrom: string, rcptTo: seq<string>, data: string)

  const NO_ENVELOPE := Envelope("", [], "")

  datatype State = State(greeted: bool, haveSender: bool, envelope: Envelope)

  const INITIAL := State(false, false, NO_ENVELOPE)

  datatype Reply = Reply(code: int, final: bool)

  /** A command with what the environment answered: the verdict on a recipient, what came
      after DATA, and whether the message could be queued. */
  datatype Event = Event(command: Command, accepted: bool, read: ReadOutcome, queued: bool)

  function MailAddress(c: Command): Option<string> {
    if c.Mail? then ParseAddressArgument(c.rest, "FROM") else None
  }

  function RcptAddress(c: Command): Option<string> {
    if c.Rcpt? then ParseAddressArgument(c.rest, "TO") else None
  }

  predicate OpensData(s: State, c: Command) { c.Data? && s.envelope.rcptTo != [] }

  predicate AsksRouter(s: State, c: Command) {
    s.haveSender && |s.envelope.rcptTo| < MAX_RECIPIENTS && RcptAddress(c).Some?
  }

  function Next(s: State, e: Event): State {
    match e.command
    case Ehlo => State(true, false, NO_ENVELOPE)
    case Helo => State(true, false, NO_ENVELOPE)
    case Mail(_) =>
      if !s.greeted || MailAddress(e.command) == None then s
      else s.(haveSender := true, envelope := Envelope(MailAddress(e.command).value, [], ""))
    case Rcpt(_) =>
      if !AsksRouter(s, e.command) || !e.accepted then s
      else s.(envelope := s.envelope.(rcptTo := s.envelope.rcptTo + [RcptAddress(e.command).value]))
    case Data => if OpensData(s, e.command) then s.(haveSender := false, envelope := NO_ENVELOPE) else s
    case Rset => s.(haveSender := false, envelope := NO_ENVELOPE)
    case _ => s
  }

  /** The reply that ends the answer to a command. */
  function FinalCode(s: State, e: Event): int {
    match e.command
    case Ehlo => 250
    case Helo => 250
    case Mail(_) =>
      if !s.greeted then 503 else if MailAddress(e.command) == None then 501 else 250
    case Rcpt(_) =>
      if !s.haveSender then 503
      else if |s.envelope.rcptTo| >= MAX_RECIPIENTS then 452
      else if RcptAddress(e.command) == None then 501
      else if e.accepted then 250 else 550
    case Data =>
      if !OpensData(s, e.command) then 503 else
      (match e.read
       case Message(_) => if e.queued then 250 else 451
       case TooLarge => 552
       case Closed => 421)
    case Rset => 250
    case Noop => 250
    case Verify => 252
    case StartTls => 454
    case Quit => 221
    case Empty => 500
    case Unknown => 502
  }

  /** The continuation lines of EHLO, or the go-ahead for the data. */
  function Preliminary(s: State, e: Event): seq<Reply> {
    if e.command.Ehlo? then [Reply(250, false), Reply(250, false), Reply(250, false)]
    else if OpensData(s, e.command) then [Reply(354, true)]
    else []
  }

  function Replies(s: State, e: Event): seq<Reply> {
    Preliminary(s, e) + [Reply(FinalCode(s, e), true)]
  }

  /** The envelope given to the mail handler, if any. */
  function Handed(s: State, e: Event): Option<Envelope> {
    if OpensData(s, e.command) && e.read.Message? then Some(s.envelope.(data := e.read.data)) else None
  }

  function Run(log: seq<Event>): State {
    if log == [] then INITIAL else Next(Run(log[..|log| - 1]), log[|log| - 1])
  }

  function AllReplies(log: seq<Event>): seq<Reply> {
    if log == [] then [Reply(220, true)]
    else AllReplies(log[..|log| - 1]) + Replies(Run(log[..|log| - 1]), log[|log| - 1])
  }

  // ---- The declarative reading of a command history ----

  predicate Greets(e: Event) { e.command.Ehlo? || e.command.Helo? }

  predicate Resets(e: Event) { Greets(e) || e.command.Rset? }

  ghost predicate Greeted(log: seq<Event>) { exists i :: 0 <= i < |log| && Greets(log[i]) }

  /** A well-formed MAIL after some greeting. */
  ghost predicate GoodMail(log: seq<Event>, i: nat) {
    i < |log| && MailAddress(log[i].command).Some? && Greeted(log[..i])
  }

  /** A well-formed RCPT that the handler accepted. */
  predicate GoodRcpt(e: Event) { RcptAddress(e.command).Some? && e.accepted }

  /** The transaction begun by the MAIL at `i` has ended: a greeting or RSET came, or a
      DATA after some accepted recipient. */
  ghost predicate Ended(log: seq<Event>, i: nat) {
    exists k :: i < k < |log| && EndsAt(log, i, k)
  }

  ghost predicate EndsAt(log: seq<Event>, i: nat, k: nat)
    requires i < k < |log|
  {
    Resets(log[k]) || (log[k].command.Data? && exists j :: i < j < k && GoodRcpt(log[j]))
  }

  /** The MAIL at `i` is the last good one, and its transaction has not ended. */
  ghost predicate OpenFrom(log: seq<Event>, i: nat) {
    GoodMail(log, i) && (forall k :: i < k < |log| ==> !GoodMail(log, k)) && !Ended(log, i)
  }

  /** The first fifty recipients accepted after position `i`, in order. */
  function RcptsAfter(log: seq<Event>, i: nat): seq<string> {
    if |log| <= i + 1 then [] else
    var e := log[|log| - 1];
    var earlier := RcptsAfter(log[..|log| - 1], i);
    if GoodRcpt(e) && |earlier| < MAX_RECIPIENTS then earlier + [RcptAddress(e.command).value] else earlier
  }

  /** The event that put recipient `k` there. */
  ghost predicate AddedBy(log: seq<Event>, i: nat, k: nat, j: nat)
    requires k < |RcptsAfter(log, i)|
  {
    && i < j < |log| && GoodRcpt(log[j])
    && RcptAddress(log[j].command) == Some(RcptsAfter(log, i)[k])
    && |RcptsAfter(log[..j], i)| == k
  }

  lemma {:induction false} SomeRcpt(log: seq<Event>, i: nat)
    ensures RcptsAfter(log, i) != [] <==> exists j :: i < j < |log| && GoodRcpt(log[j])
    ensures |RcptsAfter(log, i)| <= MAX_RECIPIENTS
  {
    hide RcptAddress;
    if |log| > i + 1 {
      var n := |log| - 1;
      SomeRcpt(log[..n], i);
      assert forall j :: 0 <= j < n ==> log[..n][j] == log[j];
    }
  }

  lemma {:induction false} EveryRcptWasAdded(log: seq<Event>, i: nat, k: nat) returns (j: nat)
    requires k < |RcptsAfter(log, i)|
    ensures AddedBy(log, i, k, j)
  {
    hide RcptAddress;
    var n := |log| - 1;
    var earlier := RcptsAfter(log[..n], i);
    if k < |earlier| {
      j := EveryRcptWasAdded(log[..n], i, k);
      assert log[..n][j] == log[j] && log[..n][..j] == log[..j];
    } else {
      j := n;
    }
  }

  lemma GoodMailSnoc(log: seq<Event>, e: Event, k: nat)
    requires k < |log|
    ensures GoodMail(log + [e], k) <==> GoodMail(log, k)
  {
    assert (log + [e])[..k] == log[..k];
  }

  lemma EndedSnoc(log: seq<Event>, e: Event, i: nat)
    requires i < |log|
    ensures Ended(log + [e], i)
            <==> Ended(log, i) || Resets(e) || (e.command.Data? && RcptsAfter(log, i) != [])
  {
    hide RcptsAfter, Resets, GoodRcpt;
    var log', n := log + [e], |log|;
    SomeRcpt(log, i);
    assert forall j :: 0 <= j < n ==> log'[j] == log[j];
    assert EndsAt(log', i, n) <==> Resets(e) || (e.command.Data? && RcptsAfter(log, i) != []);
    forall k | i < k < n ensures EndsAt(log', i, k) <==> EndsAt(log, i, k) {
    }
  }

  lemma OpenFromSnoc(log: seq<Event>, e: Event, i: nat)
    requires i < |log|
    ensures OpenFrom(log + [e], i)
            <==> OpenFrom(log, i) && !GoodMail(log + [e], |log|) && !Resets(e)
                 && !(e.command.Data? && RcptsAfter(log, i) != [])
  {
    hide RcptsAfter, Resets, GoodMail, Ended;
    forall k: nat | k < |log| {
      GoodMailSnoc(log, e, k);
    }
    EndedSnoc(log, e, i);
  }

  /** The state is exactly what the history says: greeted once anyone greeted, and an open
      transaction exactly when some MAIL is open, with its address and its recipients. */
  ghost predicate Reads(s: State, log: seq<Event>) {
    && (s.greeted <==> Greeted(log))
    && (s.haveSender <==> exists i: nat :: OpenFrom(log, i))
    && (!s.haveSender ==> s.envelope == NO_ENVELOPE)
    && (forall i: nat :: OpenFrom(log, i) ==>
          s.envelope == Envelope(MailAddress(log[i].command).value, RcptsAfter(log, i), ""))
  }

  lemma {:induction false} SessionRefinesHistory(log: seq<Event>)
    ensures Reads(Run(log), log)
  {
    hide Reads, Next;
    EmptyHistory();
    if log != [] {
      var n := |log| - 1;
      SessionRefinesHistory(log[..n]);
      assert log == log[..n] + [log[n]];
      HistoryStep(Run(log[..n]), log[..n], log[n]);
    }
  }

  lemma EmptyHistory()
    ensures Reads(INITIAL, [])
  {
  }

  lemma GreetedSnoc(log: seq<Event>, e: Event)
    ensures Greeted(log + [e]) <==> Greeted(log) || Greets(e)
  {
    var log' := log + [e];
    assert log'[|log|] == e && forall i :: 0 <= i < |log| ==> log'[i] == log[i];
  }

  lemma RcptsSnoc(log: seq<Event>, e: Event, i: nat)
    requires i < |log|
    ensures var earlier := RcptsAfter(log, i);
            RcptsAfter(log + [e], i)
            == if GoodRcpt(e) && |earlier| < MAX_RECIPIENTS then earlier + [RcptAddress(e.command).value] else earlier
  {
    assert (log + [e])[..|log|] == log;
  }

  /** Which MAIL is open after one more command. */
  lemma OpenAfter(log: seq<Event>, e: Event)
    ensures GoodMail(log + [e], |log|) <==> MailAddress(e.command).Some? && Greeted(log)
    ensures GoodMail(log + [e], |log|) ==> forall i: nat :: OpenFrom(log + [e], i) <==> i == |log|
    ensures !GoodMail(log + [e], |log|) ==> forall i: nat ::
              OpenFrom(log + [e], i) <==>
              i < |log| && OpenFrom(log, i) && !Resets(e) && !(e.command.Data? && RcptsAfter(log, i) != [])
  {
    hide RcptsAfter, Resets, MailAddress, Greeted;
    var log', n := log + [e], |log|;
    assert log'[..n] == log && log'[n] == e;
    forall i: nat | i < n {
      OpenFromSnoc(log, e, i);
    }
  }

  lemma HistoryStep(s: State, log: seq<Event>, e: Event)
    requires Reads(s, log)
    ensures Reads(Next(s, e), log + [e])
  {
    hide OpenFrom, RcptsAfter, Greeted, RcptAddress, MailAddress;
    var log', n := log + [e], |log|;
    GreetedSnoc(log, e);
    OpenAfter(log, e);
    NoRcptsYet(log');
    forall i: nat | i < n
      ensures log'[i] == log[i]
      ensures var earlier := RcptsAfter(log, i);
              RcptsAfter(log', i)
              == if GoodRcpt(e) && |earlier| < MAX_RECIPIENTS then earlier + [RcptAddress(e.command).value] else earlier
    {
      RcptsSnoc(log, e, i);
    }
    OpenIsGoodMail(log);
    OpenIsGoodMail(log');
    CommandAddresses(e.command);
    assert GoodMail(log', n) ==> OpenFrom(log', n);
    if s.haveSender {
      var i: nat :| OpenFrom(log, i);
      assert !GoodMail(log', n) ==> (OpenFrom(log', i) <==> Next(s, e).haveSender);
    }
  }

  lemma NoRcptsYet(log: seq<Event>)
    ensures log != [] ==> RcptsAfter(log, |log| - 1) == []
  {
  }

  lemma OpenIsGoodMail(log: seq<Event>)
    ensures forall i: nat :: OpenFrom(log, i) ==> i < |log| && MailAddress(log[i].command).Some?
  {
  }

  lemma CommandAddresses(c: Command)
    ensures MailAddress(c).Some? ==> c.Mail?
    ensures RcptAddress(c).Some? ==> c.Rcpt?
  {
  }

  // ---- What the handler and the client can rely on ----

  lemma {:induction false} OpenPrefix(log: seq<Event>, i: nat, n: nat)
    requires OpenFrom(log, i) && i < n <= |log|
    ensures OpenFrom(log[..n], i)
    decreases |log|
  {
    hide GoodMail, Ended, RcptsAfter, Resets, OpenFrom;
    if n == |log| {
      assert log[..n] == log;
    } else {
      var m := |log| - 1;
      assert log == log[..m] + [log[m]];
      OpenFromSnoc(log[..m], log[m], i);
      OpenPrefix(log[..m], i, n);
      assert log[..m][..n] == log[..n];
    }
  }

  /** Recipient `r` of the sender `from` was put to the handler and accepted at event `j`. */
  ghost predicate AcceptedAt(log: seq<Event>, j: nat, from: string, r: string) {
    && j < |log| && log[j].accepted && RcptAddress(log[j].command) == Some(r)
    && AsksRouter(Run(log[..j]), log[j].command)
    && Run(log[..j]).envelope.mailFrom == from
  }

  ghost predicate Accepted(log: seq<Event>, from: string, r: string) {
    exists j: nat :: AcceptedAt(log, j, from, r)
  }

  /** Every envelope handed over belongs to the one open transaction: its sender, 1 to 50
      recipients each accepted under that same sender, and the data just read. */
  lemma HandedFromTransaction(log: seq<Event>, e: Event)
    requires Handed(Run(log), e).Some?
    ensures var env := Handed(Run(log), e).value;
            && Run(log).haveSender && Run(log).greeted
            && 1 <= |env.rcptTo| <= MAX_RECIPIENTS
            && e.read == Message(env.data)
            && (exists i: nat :: OpenFrom(log, i) && MailAddress(log[i].command) == Some(env.mailFrom)
                                 && env.rcptTo == RcptsAfter(log, i))
            && (forall k :: 0 <= k < |env.rcptTo| ==> Accepted(log, env.mailFrom, env.rcptTo[k]))
  {
    hide MailAddress, RcptAddress, OpenFrom, RcptsAfter, Next;
    var env := Handed(Run(log), e).value;
    SessionRefinesHistory(log);
    var i: nat :| OpenFrom(log, i);
    OpenIsGoodMail(log);
    SomeRcpt(log, i);
    OpenIsGreeted(log, i);
    assert env.rcptTo == RcptsAfter(log, i) && MailAddress(log[i].command) == Some(env.mailFrom);
    forall k | 0 <= k < |env.rcptTo| ensures Accepted(log, env.mailFrom, env.rcptTo[k]) {
      var j := EveryRcptWasAdded(log, i, k);
      OpenPrefix(log, i, j);
      SessionRefinesHistory(log[..j]);
      assert log[..j][i] == log[i];
      assert AcceptedAt(log, j, env.mailFrom, env.rcptTo[k]);
    }
  }

  /** In every run, whatever the input, each envelope handed over is that of the open
      transaction: a greeting and a sender came before, 1 to 50 recipients were accepted under
      that sender, and the data just read fits the limit. */
  lemma HandedIsWellFormed(input: string, log: seq<Event>, n: nat, max: nat)
    requires Replays(input, log, max) && n < |log| && Handed(Run(log[..n]), log[n]).Some?
    ensures var env := Handed(Run(log[..n]), log[n]).value;
            && Run(log[..n]).haveSender && Run(log[..n]).greeted
            && 1 <= |env.rcptTo| <= MAX_RECIPIENTS
            && (forall k :: 0 <= k < |env.rcptTo| ==> Accepted(log[..n], env.mailFrom, env.rcptTo[k]))
            && log[n].read == Message(env.data) && |env.data| <= max
  {
    hide Run, Accepted, MailAddress, RcptAddress, OpenFrom, RcptsAfter, Leftover, DropLine, Messages.Normal;
    HandedFromTransaction(log[..n], log[n]);
    assert Follows(input, log[..n], log[n], max);
    AcceptedIsNormal(DropLine(Leftover(input, log[..n])), max);
  }

  lemma OpenIsGreeted(log: seq<Event>, i: nat)
    requires OpenFrom(log, i)
    ensures Greeted(log)
  {
    hide RcptsAfter, Ended, MailAddress;
    assert Greeted(log[..i]);
    var j :| 0 <= j < |log[..i]| && Greets(log[..i][j]);
    assert Greets(log[j]);
  }

  /** In every run, a sender implies a greeting, recipients imply a sender, and there are
      never more than fifty of them nor any data between commands. */
  lemma {:induction false} StateIsWellFormed(log: seq<Event>)
    ensures var s := Run(log);
            && (s.haveSender ==> s.greeted)
            && (s.envelope.rcptTo != [] ==> s.haveSender)
            && (!s.haveSender ==> s.envelope == NO_ENVELOPE)
            && |s.envelope.rcptTo| <= MAX_RECIPIENTS && s.envelope.data == ""
  {
    hide OpenFrom, RcptsAfter, MailAddress, Next, Greeted;
    SessionRefinesHistory(log);
    if Run(log).haveSender {
      var i: nat :| OpenFrom(log, i);
      OpenIsGreeted(log, i);
      OpenIsGoodMail(log);
      SomeRcpt(log, i);
    }
  }

  /** A command that is answered with an error, other than a failed DATA, or that only asks
      for an answer. */
  predicate Idle(s: State, e: Event) {
    !OpensData(s, e.command) && (FinalCode(s, e) >= 400 || e.command.Noop? || e.command.Verify?)
  }

  lemma IdleChangesNothing(s: State, e: Event)
    requires Idle(s, e)
    ensures Next(s, e) == s
  {
  }

  lemma RunLast(log: seq<Event>, e: Event)
    ensures Run(log + [e]) == Next(Run(log), e)
  {
    hide Next;
    assert (log + [e])[..|log|] == log;
  }

  lemma {:induction false} SameStateSameFuture(a: seq<Event>, b: seq<Event>, later: seq<Event>)
    requires Run(a) == Run(b)
    ensures Run(a + later) == Run(b + later)
  {
    hide Next, Run;
    if later == [] {
      assert a + later == a && b + later == b;
    } else {
      var front, e := later[..|later| - 1], later[|later| - 1];
      SameStateSameFuture(a, b, front);
      RunLast(a + front, e);
      RunLast(b + front, e);
      assert a + later == (a + front) + [e] && b + later == (b + front) + [e];
    }
  }

  /** Malformed, out-of-order and refused commands could as well not have been sent: any
      number of them at any place leave the rest of the run exactly as it is without them. */
  lemma {:induction false} IdleCommandsLeaveNoTrace(log: seq<Event>, idle: seq<Event>, later: seq<Event>)
    requires forall k :: 0 <= k < |idle| ==> Idle(Run(log + idle[..k]), idle[k])
    ensures Run(log + idle + later) == Run(log + later)
  {
    hide Next, Idle, Run;
    IdleCommandsStay(log, idle);
    SameStateSameFuture(log + idle, log, later);
  }

  lemma {:induction false} IdleCommandsStay(log: seq<Event>, idle: seq<Event>)
    requires forall k :: 0 <= k < |idle| ==> Idle(Run(log + idle[..k]), idle[k])
    ensures Run(log + idle) == Run(log)
  {
    hide Next, Idle, Run;
    if idle == [] {
      assert log + idle == log;
    } else {
      var n := |idle| - 1;
      forall k | 0 <= k < n ensures Idle(Run(log + idle[..n][..k]), idle[..n][k]) {
        assert idle[..n][..k] == idle[..k];
      }
      IdleCommandsStay(log, idle[..n]);
      IdleChangesNothing(Run(log + idle[..n]), idle[n]);
      RunLast(log + idle[..n], idle[n]);
      assert log + idle == (log + idle[..n]) + [idle[n]];
    }
  }

  function CountFinal(rs: seq<Reply>): nat {
    if rs == [] then 0
    else CountFinal(rs[..|rs| - 1]) + if rs[|rs| - 1].final && rs[|rs| - 1].code != 354 then 1 else 0
  }

  function CountGoAhead(rs: seq<Reply>): nat {
    if rs == [] then 0 else CountGoAhead(rs[..|rs| - 1]) + if rs[|rs| - 1].code == 354 then 1 else 0
  }

  function CountOpened(log: seq<Event>): nat {
    if log == [] then 0
    else CountOpened(log[..|log| - 1]) +
         if OpensData(Run(log[..|log| - 1]), log[|log| - 1].command) then 1 else 0
  }

  lemma {:induction false} CountConcat(a: seq<Reply>, b: seq<Reply>)
    ensures CountFinal(a + b) == CountFinal(a) + CountFinal(b)
    ensures CountGoAhead(a + b) == CountGoAhead(a) + CountGoAhead(b)
  {
    if b == [] {
      assert a + b == a;
    } else {
      assert (a + b)[..|a + b| - 1] == a + b[..|b| - 1];
      CountConcat(a, b[..|b| - 1]);
    }
  }

  lemma CountOne(r: Reply)
    ensures CountFinal([r]) == (if r.final && r.code != 354 then 1 else 0)
    ensures CountGoAhead([r]) == (if r.code == 354 then 1 else 0)
  {
    assert [r][..0] == [];
  }

  lemma RepliesToOne(s: State, e: Event)
    ensures CountFinal(Replies(s, e)) == 1
    ensures CountGoAhead(Replies(s, e)) == if OpensData(s, e.command) then 1 else 0
  {
    hide CountFinal, CountGoAhead, MailAddress, RcptAddress;
    CountConcat(Preliminary(s, e), [Reply(FinalCode(s, e), true)]);
    CountOne(Reply(FinalCode(s, e), true));
    CountOne(Reply(354, true));
    CountNone();
    if e.command.Ehlo? {
      CountContinuations(Reply(250, false));
    }
  }

  lemma CountContinuations(r: Reply)
    requires !r.final && r.code != 354
    ensures CountFinal([r, r, r]) == 0 && CountGoAhead([r, r, r]) == 0
  {
    assert [r, r, r][..2] == [r, r] && [r, r][..1] == [r];
    CountOne(r);
  }

  lemma CountNone()
    ensures CountFinal([]) == 0 && CountGoAhead([]) == 0
  {
  }

  /** After the greeting, every command gets exactly one final reply, and every DATA that
      is opened gets one 354 before it. */
  lemma {:induction false} OneFinalReplyEach(log: seq<Event>)
    ensures CountFinal(AllReplies(log)) == |log| + 1
    ensures CountGoAhead(AllReplies(log)) == CountOpened(log)
  {
    if log == [] {
      assert [Reply(220, true)][..0] == [];
    } else {
      var n := |log| - 1;
      OneFinalReplyEach(log[..n]);
      RepliesToOne(Run(log[..n]), log[n]);
      CountConcat(AllReplies(log[..n]), Replies(Run(log[..n]), log[n]));
    }
  }

  // ---- The log of a connection is what its input says ----

  function FirstLineOf(stream: string): string {
    if stream == "" then "" else Lines(stream)[0]
  }

  function DropLine(stream: string): string {
    if stream == "" then "" else Join(Lines(stream)[1..])
  }

  function DropData(stream: string): string {
    var ls := Lines(stream);
    var t := TerminatorAt(ls);
    if t < |ls| then Join(ls[t + 1..]) else ""
  }

  /** The input not yet read after the logged commands. */
  function Leftover(input: string, log: seq<Event>): string {
    if log == [] then input else
    var front, e := log[..|log| - 1], log[|log| - 1];
    var rest := DropLine(Leftover(input, front));
    if OpensData(Run(front), e.command) then DropData(rest) else rest
  }

  ghost predicate Follows(input: string, log: seq<Event>, e: Event, max: nat) {
    var before := Leftover(input, log);
    && before != "" && (log != [] ==> !log[|log| - 1].command.Quit?)
    && e.command == ParseCommand(FirstLineOf(before))
    && (OpensData(Run(log), e.command) ==> e.read == ReadSpec(DropLine(before), max))
    && (!AsksRouter(Run(log), e.command) ==> !e.accepted)
  }

  /** Each logged command is the next line of the input, and each opened DATA read what
      came behind that line. */
  ghost predicate Replays(input: string, log: seq<Event>, max: nat) {
    forall n :: 0 <= n < |log| ==> Follows(input, log[..n], log[n], max)
  }

  lemma ReplaysSnoc(input: string, log: seq<Event>, e: Event, max: nat)
    requires Replays(input, log, max) && Follows(input, log, e, max)
    ensures Replays(input, log + [e], max)
  {
    hide Follows;
    var log' := log + [e];
    forall n | 0 <= n < |log'| ensures Follows(input, log'[..n], log'[n], max) {
      if n < |log| {
        assert log'[..n] == log[..n];
      } else {
        assert log'[..n] == log;
      }
    }
  }

  lemma LineRead(stream: string, line: string, rest: string)
    requires line != "" && stream == line + rest && Lines(stream) == [line] + Lines(rest)
    ensures FirstLineOf(stream) == line && DropLine(stream) == rest
  {
    assert Lines(stream)[1..] == Lines(rest);
  }

  lemma DataRead(stream: string, rest: string)
    requires stream == Consumed(stream) + rest
    ensures rest == DropData(stream)
  {
    hide Lines, Join;
    var ls := Lines(stream);
    var t := TerminatorAt(ls);
    assert Join(ls) == stream;
    if t < |ls| {
      JoinConcat(ls[..t + 1], ls[t + 1..]);
      assert ls == ls[..t + 1] + ls[t + 1..];
      assert stream == Consumed(stream) + Join(ls[t + 1..]);
      assert rest == stream[|Consumed(stream)|..] == Join(ls[t + 1..]);
    }
  }

  /** The conversation is over: the client is gone, or said QUIT. */
  predicate Over(input: string, log: seq<Event>) {
    Leftover(input, log) == "" || (log != [] && log[|log| - 1].command.Quit?)
  }
}
