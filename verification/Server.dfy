/** One connection from greeting to hang-up: the command loop of src/smtp/session.rs:40-183
    over the reader of DataReader and the handler of Router. */
module Server {
  import opened Basics
  import opened DataReader
  import opened Forecast
  import opened HeaderFields
  import opened Router
  import opened Routing
  import opened Session
  import opened Store

  /** What the handler did about one command between two moments of the history: the
      statements it ran, how many tokens were drawn before and after, the verdict on a
      recipient with the moments it was looked up, or the messages that an envelope put into
      the outbox. */
  datatype Served = Served(
    from: nat, to: nat, drawn: nat, drew: nat, done: seq<Statement>, rejected: Option<Reason>, seen: nat, later: nat,
    failure: Option<Failure>, queued: seq<Queued>, services: seq<Service>)

  /** A recipient was accepted or refused as the tables said; an envelope was handled, and
      acknowledged exactly if that succeeded; nothing was run for anything else. */
  ghost predicate Answered(h: History, cfg: Config, s: State, e: Event, v: Served) {
    && v.from <= v.to <= |h.log| < |h.past|
    && Mines(h.log[..v.to]) == Mines(h.log[..v.from]) + v.done
    && if AsksRouter(s, e.command) then
         && (e.accepted <==> v.rejected.None?) && v.queued == []
         && v.from <= v.seen <= v.later <= v.to
         && Verdict(h, v.seen, v.later, v.rejected, v.done, cfg, s.envelope.mailFrom, RcptAddress(e.command).value)
       else
         match Handed(s, e)
         case Some(env) =>
           && (e.queued <==> v.failure.None?)
           && Handled(h, v.from, v.to, v.failure, v.done, v.queued, v.services, cfg, env)
         case None => v.done == [] && v.queued == [] && v.from == v.to
  }

  ghost predicate AnsweredAll(h: History, cfg: Config, log: seq<Event>, vs: seq<Served>) {
    && |vs| == |log|
    && forall n :: 0 <= n < |log| ==> Answered(h, cfg, Run(log[..n]), log[n], vs[n])
  }

  /** What is promised when storage works and nobody interferes: no lookup fails, tokens are
      drawn for envelopes only, and whether an envelope fails is foretold by the tables and
      the next tokens at the moment it is handed over. */
  ghost predicate Forced(h: History, cfg: Config, dice: nat -> string, s: State, e: Event, v: Served)
    requires cfg.domains != []
  {
    && v.rejected != Some(LookupFailed)
    && match Handed(s, e)
       case None => v.drew == v.drawn
       case Some(env) =>
         v.from < |h.past| && Foretold(Stage(h.past[v.from].tables, v.drawn), cfg, dice, env, v.failure, v.drew)
  }

  ghost predicate AllForced(h: History, cfg: Config, dice: nat -> string, log: seq<Event>, vs: seq<Served>)
    requires cfg.domains != []
  {
    && |vs| == |log|
    && forall n :: 0 <= n < |vs| ==> Forced(h, cfg, dice, Run(log[..n]), log[n], vs[n])
  }

  lemma ForcedLater(h: History, h': History, cfg: Config, dice: nat -> string, s: State, e: Event, v: Served)
    requires cfg.domains != [] && Forced(h, cfg, dice, s, e, v) && Extends(h, h')
    ensures Forced(h', cfg, dice, s, e, v)
  {
    hide Foretold, Handed;
  }

  lemma OneMoreForced(h: History, h': History, cfg: Config, dice: nat -> string, log: seq<Event>, vs: seq<Served>,
                      e: Event, v: Served)
    requires cfg.domains != [] && AllForced(h, cfg, dice, log, vs) && Extends(h, h')
    requires Forced(h', cfg, dice, Run(log), e, v)
    ensures AllForced(h', cfg, dice, log + [e], vs + [v])
  {
    hide Forced, Extends;
    var log', vs' := log + [e], vs + [v];
    forall n | 0 <= n < |log'| ensures Forced(h', cfg, dice, Run(log'[..n]), log'[n], vs'[n]) {
      assert log'[..n] == if n < |log| then log[..n] else log;
      if n < |log| {
        ForcedLater(h, h', cfg, dice, Run(log[..n]), log[n], vs[n]);
      }
    }
  }

  /** The commands were answered one after the other, with nothing of ours in between and no
      token drawn. */
  predicate Chained(vs: seq<Served>, from: nat, to: nat, drawn: nat, drew: nat) {
    if vs == [] then from == to && drawn == drew else
    var v := vs[|vs| - 1];
    v.to == to && v.drew == drew && Chained(vs[..|vs| - 1], from, v.from, drawn, v.drawn)
  }

  function DoneAll(vs: seq<Served>): seq<Statement> {
    if vs == [] then [] else DoneAll(vs[..|vs| - 1]) + vs[|vs| - 1].done
  }

  lemma AnsweredLater(h: History, h': History, cfg: Config, s: State, e: Event, v: Served)
    requires Answered(h, cfg, s, e, v) && Extends(h, h') && |h'.log| < |h'.past|
    ensures Answered(h', cfg, s, e, v)
  {
    hide Handled, RouteSeen, OnlyBlocked, RcptAddress, Mines;
    assert h'.log[..v.to] == h.log[..v.to] && h'.log[..v.from] == h.log[..v.from];
    if !AsksRouter(s, e.command) && Handed(s, e).Some? {
      HandledLater(h, h', v.from, v.to, v.failure, v.done, v.queued, v.services, cfg, Handed(s, e).value);
    }
  }

  lemma OneMoreServed(h: History, h': History, cfg: Config, log: seq<Event>, vs: seq<Served>, from: nat,
                      drawn: nat, e: Event, v: Served)
    requires AnsweredAll(h, cfg, log, vs) && Extends(h, h') && |h'.log| < |h'.past|
    requires Answered(h', cfg, Run(log), e, v) && Chained(vs, from, v.from, drawn, v.drawn)
    ensures AnsweredAll(h', cfg, log + [e], vs + [v]) && Chained(vs + [v], from, v.to, drawn, v.drew)
    ensures DoneAll(vs + [v]) == DoneAll(vs) + v.done
  {
    hide Answered, Extends;
    var log', vs' := log + [e], vs + [v];
    assert vs'[..|vs|] == vs;
    forall n | 0 <= n < |log'| ensures Answered(h', cfg, Run(log'[..n]), log'[n], vs'[n]) {
      assert log'[..n] == if n < |log| then log[..n] else log;
      if n < |log| {
        AnsweredLater(h, h', cfg, Run(log[..n]), log[n], vs[n]);
      }
    }
  }

  lemma RanSince(h: History, h': History, done: seq<Statement>)
    requires Extends(h, h') && Mines(h'.log) == Mines(h.log) + done
    ensures |h.log| <= |h'.log| && Mines(h'.log[..|h'.log|]) == Mines(h'.log[..|h.log|]) + done
  {
    hide Mines;
    assert h'.log[..|h'.log|] == h'.log && h'.log[..|h.log|] == h.log;
  }

  lemma OneMoreEvent(input: string, log: seq<Event>, e: Event, max: nat)
    requires Replays(input, log, max) && Follows(input, log, e, max)
    ensures Replays(input, log + [e], max)
    ensures Run(log + [e]) == Next(Run(log), e)
    ensures AllReplies(log + [e]) == AllReplies(log) + Replies(Run(log), e)
    ensures var rest := DropLine(Leftover(input, log));
            Leftover(input, log + [e]) == if OpensData(Run(log), e.command) then DropData(rest) else rest
  {
    hide Follows, Next, Replies;
    ReplaysSnoc(input, log, e, max);
    assert (log + [e])[..|log|] == log;
  }

  lemma DataAnswered(h: History, cfg: Config, s: State, e: Event, v: Served, code: int)
    requires s.envelope.rcptTo != [] && e.command.Data?
    requires v.from <= v.to <= |h.log| < |h.past| && Mines(h.log[..v.to]) == Mines(h.log[..v.from]) + v.done
    requires match e.read
             case Message(data) =>
               && code == (if e.queued then 250 else 451) && (e.queued <==> v.failure.None?)
               && Handled(h, v.from, v.to, v.failure, v.done, v.queued, v.services, cfg, s.envelope.(data := data))
             case TooLarge => code == 552 && v.queued == [] && v.done == [] && v.from == v.to
             case Closed => code == 421 && v.queued == [] && v.done == [] && v.from == v.to
    ensures Answered(h, cfg, s, e, v)
    ensures Next(s, e) == State(s.greeted, false, NO_ENVELOPE)
    ensures Replies(s, e) == [Reply(354, true), Reply(code, true)]
  {
    hide Handled, Mines;
  }

  lemma DataForced(h: History, cfg: Config, dice: nat -> string, s: State, e: Event, v: Served)
    requires cfg.domains != [] && e.command.Data? && v.rejected != Some(LookupFailed)
    requires e.read.Message? ==>
               v.from < |h.past|
               && Foretold(Stage(h.past[v.from].tables, v.drawn), cfg, dice, s.envelope.(data := e.read.data),
                           v.failure, v.drew)
    requires !e.read.Message? ==> v.drew == v.drawn
    ensures s.envelope.rcptTo != [] ==> Forced(h, cfg, dice, s, e, v)
  {
    hide Foretold;
  }

  lemma RcptAnswered(h: History, cfg: Config, s: State, e: Event, v: Served)
    requires AsksRouter(s, e.command) && v.from <= v.seen <= v.later <= v.to <= |h.log| < |h.past|
    requires Mines(h.log[..v.to]) == Mines(h.log[..v.from]) + v.done
    requires (e.accepted <==> v.rejected.None?) && v.queued == []
    requires Verdict(h, v.seen, v.later, v.rejected, v.done, cfg, s.envelope.mailFrom, RcptAddress(e.command).value)
    ensures Answered(h, cfg, s, e, v)
  {
    hide Verdict, Mines, RcptAddress;
  }

  lemma NothingDone(h: History, cfg: Config, dice: nat -> string, s: State, e: Event, v: Served)
    requires cfg.domains != [] && v.rejected != Some(LookupFailed) && v.drew == v.drawn
    requires !AsksRouter(s, e.command) && Handed(s, e).None? && |h.log| < |h.past|
    requires v.from == v.to == |h.log| && v.done == [] && v.queued == []
    ensures Answered(h, cfg, s, e, v) && Forced(h, cfg, dice, s, e, v)
  {
    hide Mines, RcptAddress;
  }

  function NotServed(now: nat, rolls: nat): Served { Served(now, now, rolls, rolls, [], None, now, now, None, [], []) }

  /** The variables of the command loop, and the reply lines written so far. */
  class Conversation {
    var greeted: bool
    var haveSender: bool
    var envelope: Envelope
    var replies: seq<Reply>

    constructor ()
      ensures Now() == INITIAL && replies == [Reply(220, true)]
    {
      greeted, haveSender, envelope := false, false, NO_ENVELOPE;
      replies := [Reply(220, true)];
    }

    ghost function Now(): State
      reads this
    {
      State(greeted, haveSender, envelope)
    }

    method Write(code: int, final: bool)
      modifies this`replies
      ensures replies == old(replies) + [Reply(code, final)]
    {
      replies := replies + [Reply(code, final)];
    }

    /** The four lines that answer EHLO (src/smtp/session.rs:80-87). */
    method WriteExtensions()
      modifies this`replies
      ensures replies == old(replies) + [Reply(250, false), Reply(250, false), Reply(250, false), Reply(250, true)]
    {
      Write(250, false);
      Write(250, false);
      Write(250, false);
      Write(250, true);
    }

    /** src/smtp/session.rs:95-113. */
    method AnswerMail(rest: string, ghost e: Event)
      requires e.command == Mail(rest)
      modifies this`haveSender, this`envelope, this`replies
      ensures Now() == Next(old(Now()), e) && replies == old(replies) + Replies(old(Now()), e)
    {
      hide ParseAddressArgument;
      if !greeted {
        Write(503, true);
      } else {
        match ParseAddressArgument(rest, "FROM") {
          case Some(address) =>
            haveSender, envelope := true, Session.Envelope(address, [], "");
            Write(250, true);
          case None => Write(501, true);
        }
      }
    }

    /** RCPT with a sender and room for one more (src/smtp/session.rs:123-139). */
    method AnswerRcpt(router: AliasRouter, rest: string) returns (ghost e: Event, ghost v: Served)
      requires router.db.Valid() && router.db.cfg.domains != [] && haveSender && |envelope.rcptTo| < MAX_RECIPIENTS
      modifies this`envelope, this`replies, router.db
      ensures router.db.Valid() && Extends(old(router.db.history), router.db.history)
      ensures old(router.db.played) <= router.db.played
      ensures old(router.db.Calm()) ==>
                Forced(router.db.history, router.db.cfg, router.db.dice, old(Now()), e, v)
      ensures router.db.Ran() == old(router.db.Ran()) + v.done
      ensures v.from == old(router.db.Time()) && v.to == router.db.Time()
      ensures v.drawn == old(router.db.rolls) && v.drew == router.db.rolls
      ensures e.command == Rcpt(rest) && (!AsksRouter(old(Now()), e.command) ==> !e.accepted)
      ensures Now() == Next(old(Now()), e) && replies == old(replies) + Replies(old(Now()), e)
      ensures Answered(router.db.history, router.db.cfg, old(Now()), e, v)
    {
      hide Told, Mines, Thems, ParseAddressArgument, RouteSeen, Verdict, Answered, Foretold;
      e := Event(Rcpt(rest), false, Closed, false);
      v := NotServed(router.db.Time(), router.db.rolls);
      ghost var s := Now();
      match ParseAddressArgument(rest, "TO") {
        case None =>
          NothingDone(router.db.history, router.db.cfg, router.db.dice, s, e, v);
          NoMore(router.db.Ran());
          Write(501, true);
        case Some(address) =>
          var rejected;
          ghost var done, seen, later;
          rejected, done, seen, later := router.VerifyRecipient(envelope.mailFrom, address);
          e := e.(accepted := rejected.None?);
          v := v.(to := router.db.Time(), done := done, rejected := rejected, seen := seen, later := later);
          RanSince(old(router.db.history), router.db.history, done);
          RcptAnswered(router.db.history, router.db.cfg, s, e, v);
          if rejected.None? {
            envelope := envelope.(rcptTo := envelope.rcptTo + [address]);
            Write(250, true);
          } else {
            Write(550, true);
          }
      }
    }

    /** An envelope handed over, and the reply it gets. */
    method HandOver(router: AliasRouter) returns (code: int, ghost v: Served)
      requires router.db.Valid() && router.db.cfg.domains != []
      modifies router.db
      ensures router.db.Valid() && Extends(old(router.db.history), router.db.history)
      ensures old(router.db.played) <= router.db.played
      ensures v.from == old(router.db.Time()) && v.to == router.db.Time() && v.rejected == None
      ensures v.drawn == old(router.db.rolls) && v.drew == router.db.rolls
      ensures router.db.Ran() == old(router.db.Ran()) + v.done
      ensures v.from <= v.to <= |router.db.history.log| < |router.db.history.past|
      ensures old(router.db.Calm()) ==>
                Foretold(Stage(router.db.history.past[v.from].tables, v.drawn), router.db.cfg, router.db.dice, envelope,
                         v.failure, v.drew)
      ensures code == if v.failure.None? then 250 else 451
      ensures Handled(router.db.history, v.from, v.to, v.failure, v.done, v.queued, v.services, router.db.cfg, envelope)
    {
      hide Told, Mines, Thems, Handled, Foretold, StageAfter;
      var failure;
      ghost var done, queued, services;
      v := NotServed(router.db.Time(), router.db.rolls);
      failure, done, queued, services := router.Handle(envelope);
      v := v.(to := router.db.Time(), drew := router.db.rolls, done := done, failure := failure, queued := queued,
          services := services);
      code := if failure.None? then 250 else 451;
    }

    /** DATA with at least one recipient (src/smtp/session.rs:146-163). */
    method AnswerData(reader: BufReader, router: AliasRouter, maxMessageSize: nat)
      returns (ghost e: Event, ghost v: Served)
      requires reader.Valid() && router.db.Valid() && router.db.cfg.domains != [] && envelope.rcptTo != []
      modifies this`haveSender, this`envelope, this`replies, reader, router.db
      ensures reader.Valid() && reader.Remaining() == DropData(old(reader.Remaining()))
      ensures router.db.Valid() && Extends(old(router.db.history), router.db.history)
      ensures old(router.db.played) <= router.db.played
      ensures old(router.db.Calm()) ==>
                Forced(router.db.history, router.db.cfg, router.db.dice, old(Now()), e, v)
      ensures router.db.Ran() == old(router.db.Ran()) + v.done
      ensures v.from == old(router.db.Time()) && v.to == router.db.Time()
      ensures v.drawn == old(router.db.rolls) && v.drew == router.db.rolls
      ensures e.command == Data && !e.accepted && e.read == ReadSpec(old(reader.Remaining()), maxMessageSize)
      ensures Now() == Next(old(Now()), e) && replies == old(replies) + Replies(old(Now()), e)
      ensures Answered(router.db.history, router.db.cfg, old(Now()), e, v)
    {
      hide Told, Mines, Thems, ReadSpec, Consumed, DropData, Handled, Next, Replies, Answered, Foretold, Forced,
           Extends;
      ghost var before := Now();
      ghost var stream := reader.Remaining();
      Write(354, true);
      var read := ReadData(reader, maxMessageSize);
      DataRead(stream, reader.Remaining());
      e := Event(Data, false, read, false);
      v := NotServed(router.db.Time(), router.db.rolls);
      NoMore(router.db.Ran());
      ReflexiveHistory(router.db.history);
      var code;
      match read {
        case Message(data) =>
          envelope := envelope.(data := data);
          code, v := HandOver(router);
          e := e.(queued := v.failure.None?);
        case TooLarge => code := 552;
        case Closed => code := 421;
      }
      RanSince(old(router.db.history), router.db.history, v.done);
      haveSender := false;
      envelope := NO_ENVELOPE;
      Write(code, true);
      DataAnswered(router.db.history, router.db.cfg, before, e, v, code);
      if old(router.db.Calm()) {
        DataForced(router.db.history, router.db.cfg, router.db.dice, before, e, v);
      }
    }

    /** One turn of the command loop (src/smtp/session.rs:75-181). */
    method Answer(reader: BufReader, router: AliasRouter, command: Command, maxMessageSize: nat)
      returns (ghost e: Event, ghost v: Served)
      requires reader.Valid() && router.db.Valid() && router.db.cfg.domains != []
      modifies this, reader, router.db
      ensures reader.Valid() && e.command == command
      ensures router.db.Valid() && Extends(old(router.db.history), router.db.history)
      ensures old(router.db.played) <= router.db.played
      ensures old(router.db.Calm()) ==>
                Forced(router.db.history, router.db.cfg, router.db.dice, old(Now()), e, v)
      ensures router.db.Ran() == old(router.db.Ran()) + v.done
      ensures v.from == old(router.db.Time()) && v.to == router.db.Time()
      ensures v.drawn == old(router.db.rolls) && v.drew == router.db.rolls
      ensures reader.Remaining() ==
                if OpensData(old(Now()), command) then DropData(old(reader.Remaining())) else old(reader.Remaining())
      ensures OpensData(old(Now()), command) ==> e.read == ReadSpec(old(reader.Remaining()), maxMessageSize)
      ensures !AsksRouter(old(Now()), command) ==> !e.accepted
      ensures Now() == Next(old(Now()), e) && replies == old(replies) + Replies(old(Now()), e)
      ensures Answered(router.db.history, router.db.cfg, old(Now()), e, v)
    {
      hide Told, Extends, Mines, Thems, ParseAddressArgument, ReadSpec, DropData, Answered, Forced;
      ghost var s := Now();
      ReflexiveHistory(router.db.history);
      e := Event(command, false, Closed, false);
      v := NotServed(router.db.Time(), router.db.rolls);
      NoMore(router.db.Ran());
      if !OpensData(s, command) && !AsksRouter(s, command) {
        NothingDone(router.db.history, router.db.cfg, router.db.dice, s, e, v);
      }
      match command {
        case Ehlo =>
          greeted, haveSender, envelope := true, false, NO_ENVELOPE;
          WriteExtensions();
        case Helo =>
          greeted, haveSender, envelope := true, false, NO_ENVELOPE;
          Write(250, true);
        case Mail(rest) =>
          AnswerMail(rest, e);
        case Rcpt(rest) =>
          if !haveSender {
            Write(503, true);
          } else if |envelope.rcptTo| >= MAX_RECIPIENTS {
            Write(452, true);
          } else {
            e, v := AnswerRcpt(router, rest);
          }
        case Data =>
          if envelope.rcptTo == [] {
            Write(503, true);
          } else {
            e, v := AnswerData(reader, router, maxMessageSize);
          }
        case Rset =>
          haveSender, envelope := false, NO_ENVELOPE;
          Write(250, true);
        case Noop => Write(250, true);
        case Verify => Write(252, true);
        case StartTls => Write(454, true);
        case Quit => Write(221, true);
        case Empty => Write(500, true);
        case Unknown => Write(502, true);
      }
    }
  }

  method HandleSession(reader: BufReader, router: AliasRouter, maxMessageSize: nat)
    returns (replies: seq<Reply>, ghost log: seq<Event>, ghost served: seq<Served>)
    requires reader.Valid() && router.db.Valid() && router.db.cfg.domains != []
    modifies reader, router.db
    ensures reader.Valid() && Over(old(reader.Remaining()), log)
    ensures Replays(old(reader.Remaining()), log, maxMessageSize)
    ensures reader.Remaining() == Leftover(old(reader.Remaining()), log)
    ensures replies == AllReplies(log)
    ensures router.db.Valid() && Extends(old(router.db.history), router.db.history)
    ensures AnsweredAll(router.db.history, router.db.cfg, log, served)
    ensures old(router.db.Calm()) ==> AllForced(router.db.history, router.db.cfg, router.db.dice, log, served)
    ensures Chained(served, old(router.db.Time()), router.db.Time(), old(router.db.rolls), router.db.rolls)
    ensures router.db.Ran() == old(router.db.Ran()) + DoneAll(served)
    ensures Gained(router.db.history, old(router.db.Time()), router.db.Time(), Inserts(DoneAll(served)))
  {
    hide Told, Extends, Mines, Thems, Gained, Inserts, Next, Replies, Answered, AnsweredAll, Forced, AllForced, Lines,
         Join, DropData, ParseCommand, AsksRouter, OpensData, Leftover, Replays, Run, AllReplies, DoneAll, Chained,
         FirstLineOf, DropLine, ReadSpec, Follows;
    ghost var input := reader.Remaining();
    ghost var before, drawn := router.db.history, router.db.rolls;
    var conversation := new Conversation();
    log, served := [], [];
    NothingYet(router.db.history, router.db.cfg, router.db.dice, input, maxMessageSize, router.db.Time(), drawn);
    NoMore(router.db.Ran());
    while true
      invariant reader.Valid() && router.db.Valid() && fresh(conversation)
      invariant Replays(input, log, maxMessageSize) && reader.Remaining() == Leftover(input, log)
      invariant conversation.Now() == Run(log) && conversation.replies == AllReplies(log)
      invariant Extends(before, router.db.history) && AnsweredAll(router.db.history, router.db.cfg, log, served)
      invariant Chained(served, |before.log|, router.db.Time(), drawn, router.db.rolls)
      invariant old(router.db.played) <= router.db.played
      invariant old(router.db.Calm()) ==> AllForced(router.db.history, router.db.cfg, router.db.dice, log, served)
      invariant router.db.Ran() == old(router.db.Ran()) + DoneAll(served)
      invariant log != [] ==> !log[|log| - 1].command.Quit?
      decreases |reader.Remaining()|
    {
      ghost var stream, h := reader.Remaining(), router.db.history;
      var line := reader.ReadLine();
      if line == "" {
        break;
      }
      LineRead(stream, line, reader.Remaining());
      var command := ParseCommand(line);
      ghost var e, v;
      e, v := conversation.Answer(reader, router, command, maxMessageSize);
      ExtendsOn(before, h, router.db.history);
      OneMoreServed(h, router.db.history, router.db.cfg, log, served, |before.log|, drawn, e, v);
      if old(router.db.Calm()) {
        OneMoreForced(h, router.db.history, router.db.cfg, router.db.dice, log, served, e, v);
      }
      ItFollows(input, log, e, maxMessageSize, line, stream[|line|..]);
      OneMoreEvent(input, log, e, maxMessageSize);
      Regroup(old(router.db.Ran()), DoneAll(served), v.done);
      LessData(stream, line);
      log, served := log + [e], served + [v];
      if command.Quit? {
        break;
      }
    }
    router.db.GainedNow(before, DoneAll(served));
    replies := conversation.replies;
  }

  lemma ItFollows(input: string, log: seq<Event>, e: Event, max: nat, line: string, rest: string)
    requires line != "" && Leftover(input, log) == line + rest && e.command == ParseCommand(line)
    requires FirstLineOf(Leftover(input, log)) == line && DropLine(Leftover(input, log)) == rest
    requires log != [] ==> !log[|log| - 1].command.Quit?
    requires OpensData(Run(log), e.command) ==> e.read == ReadSpec(rest, max)
    requires !AsksRouter(Run(log), e.command) ==> !e.accepted
    ensures Follows(input, log, e, max)
  {
    hide ParseCommand, Leftover, FirstLineOf, DropLine, ReadSpec, Run, OpensData, AsksRouter;
  }

  lemma NothingYet(h: History, cfg: Config, dice: nat -> string, input: string, max: nat, now: nat, rolls: nat)
    requires cfg.domains != []
    ensures Replays(input, [], max) && Leftover(input, []) == input && Run([]) == INITIAL
    ensures AllReplies([]) == [Reply(220, true)]
    ensures AllForced(h, cfg, dice, [], []) && AnsweredAll(h, cfg, [], [])
    ensures Chained([], now, now, rolls, rolls) && DoneAll([]) == [] && Extends(h, h)
  {
  }

  /** Every command makes the input shorter. */
  lemma LessData(stream: string, line: string)
    requires line != "" && line <= stream
    ensures |DropData(stream[|line|..])| < |stream|
  {
    hide Lines, Join;
    var rest := stream[|line|..];
    var ls := Lines(rest);
    var t := TerminatorAt(ls);
    if t < |ls| {
      JoinConcat(ls[..t + 1], ls[t + 1..]);
      assert ls == ls[..t + 1] + ls[t + 1..];
    }
  }
}
