/** From the bytes a client sends to the rows in the outbox, and back: what a run of
    `Server.HandleSession` guarantees to the people who write to an alias. */
module EndToEnd {
  import opened Ascii
  import opened Basics
  import opened Commands
  import opened DataReader
  import opened EmailAddress
  import opened Forecast
  import opened HeaderFields
  import opened Messages
  import opened Router
  import opened Routing
  import opened Server
  import opened Session
  import opened Store
  import HeaderRewrite
  import Rewrite
  import Senders
  import T = Tables

  /** The lines sent between the command after `log` and the dot that ends them, as read. */
  function SentLines(input: string, log: seq<Event>): seq<string> {
    var ls := Lines(DropLine(Leftover(input, log)));
    Contents(ls[..TerminatorAt(ls)])
  }

  /** The `n`-th command was a DATA whose payload was read and answered with the given code. */
  predicate DataAnsweredWith(log: seq<Event>, n: nat, code: int) {
    && n < |log| && Handed(Run(log[..n]), log[n]).Some?
    && FinalCode(Run(log[..n]), log[n]) == code
  }

  /** A row as enqueue writes it. */
  predicate JustQueued(q: Queued) {
    q.row.status.Pending? && q.row.attempts == 0 && q.row.rawPath == q.id
  }

  /** The messages are those for the first recipients of the envelope that the `n`-th command
      handed over, in order: each recipient was looked up while the command was answered, and
      its row carries the rewrite, for the route the tables gave, of the lines the client
      sent. Nothing else of ours went into the outbox meanwhile. */
  ghost predicate QueuesFor(cfg: Config, h: History, input: string, log: seq<Event>, n: nat, v: Served, max: nat)
    requires Told(cfg, h) && n < |log| && Handed(Run(log[..n]), log[n]).Some? && v.from <= v.to <= |h.log|
  {
    var env := Handed(Run(log[..n]), log[n]).value;
    && env.data == Assemble(SentLines(input, log[..n])) && |env.data| <= max && Normal(env.data)
    && OpenEnvelope(log[..n], env)
    && |v.queued| == |v.services| <= |env.rcptTo| <= MAX_RECIPIENTS
    && (forall k :: 0 <= k < |v.queued| ==>
          Serves(h, v.from, v.to, v.queued[k], v.services[k], cfg, env, env.rcptTo[k]) && JustQueued(v.queued[k]))
    && Gained(h, v.from, v.to, v.queued)
  }

  /** The envelope is that of the open MAIL and the recipients accepted since. */
  ghost predicate OpenEnvelope(log: seq<Event>, env: Session.Envelope) {
    exists i: nat :: OpenFrom(log, i) && MailAddress(log[i].command) == Some(env.mailFrom)
        && env.rcptTo == RcptsAfter(log, i)
  }

  lemma HandedQueues(cfg: Config, h: History, input: string, log: seq<Event>, served: seq<Served>, n: nat, max: nat)
    requires Told(cfg, h) && Replays(input, log, max) && AnsweredAll(h, cfg, log, served)
    requires n < |log| && Handed(Run(log[..n]), log[n]).Some?
    ensures |served| == |log|
    ensures served[n].from <= served[n].to <= |h.log| && QueuesFor(cfg, h, input, log, n, served[n], max)
    ensures Handled(h, served[n].from, served[n].to, served[n].failure, served[n].done, served[n].queued,
                    served[n].services, cfg, Handed(Run(log[..n]), log[n]).value)
    ensures log[n].queued <==> served[n].failure.None?
  {
    hide Told, Serves, OpenFrom, RcptsAfter, MailAddress, RcptAddress, Normal, Assemble, Contents, TerminatorAt, Lines,
         Accepted, Leftover, DropLine, Gained, Inserts, Mines, ScriptAll, AllHarmless, Justified, Verdict, Run,
         ReadSpec, Follows, Replays, JustQueued, SentLines;
    var before, e, v := log[..n], log[n], served[n];
    assert Answered(h, cfg, Run(before), e, v);
    HandedFromTransaction(before, e);
    DataIsNotRcpt(Run(before), e);
    DataOfTheStream(input, log, n, max);
    var env := Handed(Run(before), e).value;
    GainedSince(cfg, h, v.from, v.to, v.done);
    forall k | 0 <= k < |v.queued| ensures JustQueued(v.queued[k]) {
      ServedIsQueued(h, v.from, v.to, v.queued[k], v.services[k], cfg, env, env.rcptTo[k]);
    }
  }

  lemma DataIsNotRcpt(s: State, e: Event)
    requires Handed(s, e).Some?
    ensures !AsksRouter(s, e.command) && e.read == Message(Handed(s, e).value.data)
  {
  }

  lemma DataOfTheStream(input: string, log: seq<Event>, n: nat, max: nat)
    requires Replays(input, log, max) && n < |log| && Handed(Run(log[..n]), log[n]).Some?
    ensures var data := Handed(Run(log[..n]), log[n]).value.data;
            data == Assemble(SentLines(input, log[..n])) && |data| <= max && Normal(data)
  {
    hide Lines, Normal, Assemble, Contents, Size, Leftover, DropLine, Run, TerminatorAt;
    assert Follows(input, log[..n], log[n], max);
    MessageRead(DropLine(Leftover(input, log[..n])), max);
  }

  lemma MessageRead(stream: string, max: nat)
    requires ReadSpec(stream, max).Message?
    ensures var data := ReadSpec(stream, max).data;
            && data == Assemble(Contents(Lines(stream)[..TerminatorAt(Lines(stream))]))
            && |data| <= max && Normal(data)
  {
    hide Lines, Normal, Assemble, Contents, Size;
    AcceptedIsNormal(stream, max);
  }

  lemma ServedIsQueued(h: History, from: nat, to: nat, q: Queued, s: Service, cfg: Config, env: Session.Envelope,
                       recipient: string)
    requires Serves(h, from, to, q, s, cfg, env, recipient)
    ensures JustQueued(q)
  {
    hide RouteSeen, Sender, Subject, Rewrite.ForwardMessage, Rewrite.ReplyMessage, T.IsContactOf, IsContactFor,
         T.IsAliasAt, MadeFor;
  }

  /** A 250 to the final dot means: while it was answered, the outbox gained exactly one
      pending row of ours for every accepted recipient, in order, with the rewrite of the
      lines sent; and all that was run for them is a new contact where one was missing, the
      file, the row, and the counter of the alias once. */
  lemma AcceptedMeansQueued(cfg: Config, h: History, input: string, log: seq<Event>, served: seq<Served>, n: nat,
                            max: nat)
    requires Told(cfg, h) && Replays(input, log, max) && AnsweredAll(h, cfg, log, served)
            && DataAnsweredWith(log, n, 250)
    ensures served[n].from <= served[n].to <= |h.log| && QueuesFor(cfg, h, input, log, n, served[n], max)
    ensures 1 <= |served[n].queued| == |Handed(Run(log[..n]), log[n]).value.rcptTo|
    ensures served[n].done == ScriptAll(served[n].queued, served[n].services)
    ensures Mines(h.log[..served[n].to]) == Mines(h.log[..served[n].from]) + served[n].done
  {
    hide Told, QueuesFor, Handled, ScriptAll, Mines, Run, AnsweredAll, Replays, MailAddress, RcptAddress;
    HandedQueues(cfg, h, input, log, served, n, max);
    RanInBetween(h, cfg, log, served, n);
    SuccessServes(h, cfg, served[n], Handed(Run(log[..n]), log[n]).value);
  }

  lemma SuccessServes(h: History, cfg: Config, v: Served, env: Session.Envelope)
    requires Handled(h, v.from, v.to, v.failure, v.done, v.queued, v.services, cfg, env) && v.failure.None?
    ensures |v.queued| == |v.services| == |env.rcptTo| && v.done == ScriptAll(v.queued, v.services)
  {
    hide Serves, Inserts, ScriptAll;
  }

  /** A 451 means: the outbox gained exactly the rows for the recipients before the one that
      failed, and that one's own only if storage failed behind its row. */
  lemma RefusedMeansPrefix(cfg: Config, h: History, input: string, log: seq<Event>, served: seq<Served>, n: nat,
                           max: nat)
    requires Told(cfg, h) && Replays(input, log, max) && AnsweredAll(h, cfg, log, served)
            && DataAnsweredWith(log, n, 451)
    ensures served[n].from <= served[n].to <= |h.log| && QueuesFor(cfg, h, input, log, n, served[n], max)
    ensures served[n].failure.Some?
    ensures var f := served[n].failure.value;
            && f.at < |Handed(Run(log[..n]), log[n]).value.rcptTo| && f.at <= |served[n].queued| <= f.at + 1
            && (|served[n].queued| > f.at ==> f.cause.StorageFailed?)
  {
    hide Told, QueuesFor, Handled, Mines, Run, AnsweredAll, Replays, MailAddress, RcptAddress, Sender;
    HandedQueues(cfg, h, input, log, served, n, max);
    FailureStops(h, cfg, served[n], Handed(Run(log[..n]), log[n]).value);
  }

  lemma FailureStops(h: History, cfg: Config, v: Served, env: Session.Envelope)
    requires Handled(h, v.from, v.to, v.failure, v.done, v.queued, v.services, cfg, env) && v.failure.Some?
    ensures var f := v.failure.value;
            && f.at < |env.rcptTo| && f.at <= |v.queued| <= f.at + 1
            && (|v.queued| > f.at ==> f.cause.StorageFailed?)
  {
    hide Serves, Inserts, ScriptAll, AllHarmless, Justified, Sender;
  }

  /** When storage works and nobody interferes, the answer to a payload that was read follows
      from the tables and the next tokens at that moment: it is 250 unless, with the recipients
      before it served, the tables refuse a recipient, or it stands for a mailbox and the
      message names no sender, or the alias does not know the sender and the very token drawn
      for the new contact is taken. */
  lemma OnlyRefusedForAReason(cfg: Config, h: History, log: seq<Event>, served: seq<Served>, n: nat,
                              dice: nat -> string)
    requires cfg.domains != [] && AnsweredAll(h, cfg, log, served) && AllForced(h, cfg, dice, log, served)
    requires n < |log| && Handed(Run(log[..n]), log[n]).Some?
    ensures served[n].from < |h.past|
    ensures var env, v := Handed(Run(log[..n]), log[n]).value, served[n];
            var g := Stage(h.past[v.from].tables, v.drawn);
            && FinalCode(Run(log[..n]), log[n])
               == (if NoneFails(g, cfg, dice, env, |env.rcptTo|) then 250 else 451)
            && Foretold(g, cfg, dice, env, v.failure, v.drew)
            && (FinalCode(Run(log[..n]), log[n]) == 451 ==>
                  && v.failure.Some? && v.failure.value.at < |env.rcptTo|
                  && FailsFor(StageAfter(g, cfg, dice, env, v.failure.value.at), cfg, dice, env,
                              env.rcptTo[v.failure.value.at], v.failure.value.cause))
  {
    hide Answered, Forced, Run, FinalCode, Handed, Foretold, FailsFor, NoneFails, StageAfter;
    AnswerOfEnvelope(h, cfg, dice, Run(log[..n]), log[n], served[n]);
    FinalCodeOfData(Run(log[..n]), log[n]);
    var env, v := Handed(Run(log[..n]), log[n]).value, served[n];
    ForetoldReason(Stage(h.past[v.from].tables, v.drawn), cfg, dice, env, v.failure, v.drew);
  }

  lemma FinalCodeOfData(s: State, e: Event)
    requires Handed(s, e).Some?
    ensures FinalCode(s, e) == if e.queued then 250 else 451
  {
    hide ReadSpec, MailAddress, RcptAddress;
  }

  lemma AnswerOfEnvelope(h: History, cfg: Config, dice: nat -> string, s: State, e: Event, v: Served)
    requires cfg.domains != [] && Answered(h, cfg, s, e, v) && Forced(h, cfg, dice, s, e, v) && Handed(s, e).Some?
    ensures v.from < |h.past| && (e.queued <==> v.failure.None?)
    ensures Foretold(Stage(h.past[v.from].tables, v.drawn), cfg, dice, Handed(s, e).value, v.failure, v.drew)
  {
    hide Handled, Foretold, Verdict, Mines, RcptAddress;
    DataIsNotRcpt(s, e);
  }

  /** Replies to contacts, and mail from senders that the aliases know, are never refused when
      storage works and nobody interferes, whatever tokens were drawn before. */
  lemma KnownMailIsAccepted(cfg: Config, h: History, log: seq<Event>, served: seq<Served>, n: nat,
                            dice: nat -> string)
    requires Told(cfg, h) && cfg.domains != []
    requires AnsweredAll(h, cfg, log, served) && AllForced(h, cfg, dice, log, served)
    requires n < |log| && Handed(Run(log[..n]), log[n]).Some? && served[n].from < |h.past|
    requires AllKnown(h.past[served[n].from].tables, cfg, Handed(Run(log[..n]), log[n]).value)
    ensures FinalCode(Run(log[..n]), log[n]) == 250 && served[n].drew == served[n].drawn
  {
    hide Told, Answered, Forced, Run, FinalCode, Handed, Foretold, AllKnown, T.Consistent, NoneFails, FailsFor,
         StageAfter;
    var env, v := Handed(Run(log[..n]), log[n]).value, served[n];
    OnlyRefusedForAReason(cfg, h, log, served, n, dice);
    Between(cfg, h, v.from, v.from);
    KnownMailNeverFails(Stage(h.past[v.from].tables, v.drawn), cfg, dice, env, v.failure, v.drew);
    ForetoldReason(Stage(h.past[v.from].tables, v.drawn), cfg, dice, env, v.failure, v.drew);
  }

  lemma RanInBetween(h: History, cfg: Config, log: seq<Event>, served: seq<Served>, n: nat)
    requires AnsweredAll(h, cfg, log, served) && n < |log|
    ensures served[n].from <= served[n].to <= |h.log| < |h.past|
    ensures Mines(h.log[..served[n].to]) == Mines(h.log[..served[n].from]) + served[n].done
  {
    hide Handled, Verdict, Mines, Run, AsksRouter, Handed;
    assert Answered(h, cfg, Run(log[..n]), log[n], served[n]);
  }

  // ---- Whole connections ----

  function QueuedAll(vs: seq<Served>): seq<Queued> {
    if vs == [] then [] else QueuedAll(vs[..|vs| - 1]) + vs[|vs| - 1].queued
  }

  lemma AnswerInserts(h: History, cfg: Config, s: State, e: Event, v: Served)
    requires Answered(h, cfg, s, e, v)
    ensures Inserts(v.done) == v.queued
    ensures v.queued != [] ==> Handed(s, e).Some?
  {
    hide RouteSeen, Mines, Inserts, ServesAll, ScriptAll, AllHarmless, Justified, Sender, RcptAddress, OnlyBlocked;
    if AsksRouter(s, e.command) {
      var recipient := RcptAddress(e.command).value;
      var r := if v.rejected.Some? then Refused(v.rejected.value) else Refused(LookupFailed);
      NoInserts([]);
      if v.rejected.Some? {
        BlockedIsHarmless(v.done, r, h.past[v.later].tables, recipient);
      }
    } else {
      NoInserts([]);
    }
  }

  lemma {:induction false} SessionInserts(h: History, cfg: Config, log: seq<Event>, vs: seq<Served>)
    requires AnsweredAll(h, cfg, log, vs)
    ensures Inserts(DoneAll(vs)) == QueuedAll(vs)
  {
    hide Answered, Inserts, Run;
    if vs == [] {
      NoInserts([]);
    } else {
      var n := |vs| - 1;
      forall k | 0 <= k < n ensures Answered(h, cfg, Run(log[..n][..k]), log[..n][k], vs[..n][k]) {
        assert log[..n][..k] == log[..k];
      }
      SessionInserts(h, cfg, log[..n], vs[..n]);
      AnswerInserts(h, cfg, Run(log[..n]), log[n], vs[n]);
      InsertsConcat(DoneAll(vs[..n]), vs[n].done);
    }
  }

  /** From the first to the last byte of a connection the outbox gains exactly the messages
      listed with its commands, each under its own identifier, kept with envelope and bytes,
      besides those that somebody else inserted. */
  lemma ConnectionQueuesExactly(cfg: Config, h: History, log: seq<Event>, served: seq<Served>, from: nat, to: nat)
    requires Told(cfg, h) && AnsweredAll(h, cfg, log, served)
    requires from <= to <= |h.log| && Mines(h.log[..to]) == Mines(h.log[..from]) + DoneAll(served)
    ensures Gained(h, from, to, QueuedAll(served))
    ensures Alone(h, from, to) ==> h.past[to].outbox.Keys == h.past[from].outbox.Keys + Ids(QueuedAll(served))
  {
    hide Told, Gained, Inserts, Mines, AnsweredAll, DoneAll, QueuedAll;
    SessionInserts(h, cfg, log, served);
    GainedSince(cfg, h, from, to, DoneAll(served));
    Bounded(cfg, h);
    GainedAlone(h, from, to, QueuedAll(served));
  }

  /** A command puts messages into the outbox only if it hands an envelope over, only for
      recipients accepted under that sender, and never more than one for each. */
  lemma OnlyAcceptedMailIsQueued(cfg: Config, h: History, log: seq<Event>, served: seq<Served>, n: nat)
    requires Told(cfg, h) && AnsweredAll(h, cfg, log, served) && n < |log|
    ensures served[n].from <= served[n].to <= |h.log| && Gained(h, served[n].from, served[n].to, served[n].queued)
    ensures served[n].queued != [] ==> Handed(Run(log[..n]), log[n]).Some?
    ensures Handed(Run(log[..n]), log[n]).Some? ==>
              var env := Handed(Run(log[..n]), log[n]).value;
              && |served[n].queued| <= |env.rcptTo|
              && forall k :: 0 <= k < |env.rcptTo| ==> Accepted(log[..n], env.mailFrom, env.rcptTo[k])
  {
    hide Told, Gained, Inserts, Mines, Verdict, ServesAll, OpenFrom, RcptsAfter, MailAddress, RcptAddress, Accepted,
         Run, ScriptAll, AllHarmless, Justified;
    var v := served[n];
    assert Answered(h, cfg, Run(log[..n]), log[n], v);
    AnswerInserts(h, cfg, Run(log[..n]), log[n], v);
    GainedSince(cfg, h, v.from, v.to, v.done);
    if Handed(Run(log[..n]), log[n]).Some? {
      HandedFromTransaction(log[..n], log[n]);
      DataIsNotRcpt(Run(log[..n]), log[n]);
      ServesAtMost(h, cfg, v, Handed(Run(log[..n]), log[n]).value);
    }
  }

  /** After a line with RSET (or EHLO or HELO), in any case, no command puts anything into the
      outbox until a MAIL and behind it a RCPT are answered with 250. */
  lemma ResetQueuesNothing(cfg: Config, h: History, input: string, log: seq<Event>, served: seq<Served>, n: nat, m: nat,
                           max: nat, verb: string, argument: Option<string>, end: string, rest: string)
    requires Told(cfg, h) && Replays(input, log, max) && AnsweredAll(h, cfg, log, served) && n < m < |log|
    requires IsCommandLine(verb, argument, end)
    requires Spells(verb, "rset") || Spells(verb, "ehlo") || Spells(verb, "helo")
    requires var line := CommandLine(verb, argument, end);
             IsLine(line) && HeaderFields.Ended(line) && Leftover(input, log[..n]) == line + rest
    requires forall i, j :: n < i < j < m ==> !(TakesSender(log, i) && TakesRecipient(log, j))
    ensures served[m].queued == [] && served[m].from <= served[m].to <= |h.log|
    ensures Gained(h, served[m].from, served[m].to, [])
  {
    hide Told, Gained, Replays, AnsweredAll, IsCommandLine, CommandLine, Spells, IsLine, HeaderFields.Ended, Leftover,
         TakesSender, TakesRecipient, Run, Handed, FinalCode, Accepted;
    ResetCancels(input, log, n, m, max, verb, argument, end, rest);
    OnlyAcceptedMailIsQueued(cfg, h, log, served, m);
  }

  lemma ServesAtMost(h: History, cfg: Config, v: Served, env: Session.Envelope)
    requires Handled(h, v.from, v.to, v.failure, v.done, v.queued, v.services, cfg, env)
    ensures |v.queued| <= |env.rcptTo|
  {
    hide Serves, Inserts, ScriptAll, AllHarmless, Justified, Sender;
  }

  // ---- What the mailbox receives ----

  lemma KeyHasNoLineFeed(key: string)
    requires IsKey(key)
    ensures '\n' !in key
  {
    hide Parse;
    var a := Parse(key).value;
    PrintHasNoLineFeed(a);
  }

  lemma PrintHasNoLineFeed(a: Address)
    requires Canonical(a)
    ensures '\n' !in a.Print() && '\n' !in a.Normalised()
  {
    LoweredStaysValid(a.localPart);
  }

  lemma NameHasNoLineFeed(env: Session.Envelope)
    ensures SenderName(env).Some? ==> '\n' !in SenderName(env).value
  {
    hide HeaderValue, SplitHeadersBody, Senders.Unquote, Find;
    ValueHasNoLineFeed(SplitHeadersBody(env.data).0, "from");
    if FromHeader(env).Some? {
      var h := FromHeader(env).value;
      var c := Find(h, '<');
      if c < |h| {
        Senders.UnquoteIsPart(h[..c]);
      }
    }
  }

  /** A configuration whose reverse aliases are one line each. */
  predicate OneLine(cfg: Config) {
    cfg.domains != [] && '\n' !in cfg.prefix && '\n' !in cfg.domains[0]
  }

  lemma GeneratedHasNoLineFeed(cfg: Config, reverseAlias: string)
    requires IsGenerated(reverseAlias, cfg) && OneLine(cfg)
    ensures '\n' !in reverseAlias
  {
    var token := reverseAlias[|cfg.prefix| + 1..|cfg.prefix| + 13];
    assert '\n' !in token;
    assert reverseAlias == cfg.prefix + "." + token + "@" + cfg.domains[0];
  }

  /** The sender that a queued forward shows was generated for its contact. */
  lemma ForwardFrom(cfg: Config, h: History, from: nat, to: nat, q: Queued, s: Service, env: Session.Envelope,
                    recipient: string)
    requires Told(cfg, h) && Serves(h, from, to, q, s, cfg, env, recipient) && s.route.ToMailbox?
    ensures var t := h.past[s.stored].tables;
            && T.Consistent(t) && IsForward(q, t, env, s.route.aliasId, s.route.alias)
            && T.Joined(t, q.row.contactId.value) && IsGenerated(q.row.envelopeFrom, cfg)
  {
    hide Told, T.Consistent, RouteSeen, Sender, Subject, SenderName, Rewrite.ForwardMessage, RowsOk, FilesOk,
         IsGenerated, MadeFor;
    PastIsGood(cfg, h, s.stored);
  }

  /** Nothing that a forward inserts can break out of its header line, whatever the sender
      wrote, if the configured prefix and domain are one line each. */
  lemma ForwardParamsAreClean(cfg: Config, t: T.Tables, env: Session.Envelope, aliasId: Id, alias: string,
                              reverseAlias: string)
    requires T.Consistent(t) && T.IsAliasAt(t, alias, aliasId) && Sender(env).Some?
    requires IsGenerated(reverseAlias, cfg) && OneLine(cfg)
    ensures Rewrite.CleanForward(ForwardParams(env, alias, reverseAlias))
  {
    hide Sender, Canonical, SenderName, IsKey, IsGenerated, OneLine;
    KeyHasNoLineFeed(alias);
    SenderIsCanonical(env);
    PrintHasNoLineFeed(Sender(env).value);
    NameHasNoLineFeed(env);
    GeneratedHasNoLineFeed(cfg, reverseAlias);
  }

  lemma Bounded(cfg: Config, h: History)
    requires Told(cfg, h)
    ensures |h.past| == |h.log| + 1
  {
  }

  lemma ForwardIsClean(cfg: Config, h: History, from: nat, to: nat, q: Queued, s: Service, env: Session.Envelope,
                       recipient: string)
    requires Told(cfg, h) && Serves(h, from, to, q, s, cfg, env, recipient) && s.route.ToMailbox? && OneLine(cfg)
    ensures Sender(env).Some? && Rewrite.CleanForward(ForwardParams(env, s.route.alias, q.row.envelopeFrom))
    ensures q.raw == Rewrite.ForwardMessage(env.data, ForwardParams(env, s.route.alias, q.row.envelopeFrom))
  {
    hide Told, T.Consistent, Sender, Subject, SenderName, Rewrite.ForwardMessage, Rewrite.CleanForward, Serves, OneLine,
         IsGenerated, T.IsAliasAt, T.IsContactOf;
    ForwardFrom(cfg, h, from, to, q, s, env, recipient);
    StoredBounds(h, from, to, q, s, cfg, env, recipient);
    Bounded(cfg, h);
    ForwardParamsAreClean(cfg, h.past[s.stored].tables, env, s.route.aliasId, s.route.alias, q.row.envelopeFrom);
  }

  /** The queued forward, byte by byte: in quotes the escaped name, if there is one, and the
      sender, then the reverse alias; where replies go, the alias and the sender again; and of
      the message all fields but twelve and the body. */
  lemma ForwardInFull(cfg: Config, h: History, from: nat, to: nat, q: Queued, s: Service, env: Session.Envelope,
                      recipient: string)
    requires Told(cfg, h) && Serves(h, from, to, q, s, cfg, env, recipient) && s.route.ToMailbox?
    ensures Sender(env).Some?
    ensures var sender, reverseAlias := Sender(env).value.Print(), q.row.envelopeFrom;
            q.raw ==
              "From: " + ("\"" + (Senders.NamePart(SenderName(env)) + sender) + "\" <" + reverseAlias + ">") + "\r\n" +
              ("Reply-To: " + reverseAlias + "\r\n") + ("X-Weiterleitung-Alias: " + s.route.alias + "\r\n") +
              ("X-Weiterleitung-Sender: " + sender + "\r\n") +
              Strip(SplitHeadersBody(env.data).0,
                    ["from", "sender", "reply-to", "return-path", "dkim-signature", "domainkey-signature",
                     "arc-authentication-results", "arc-message-signature", "arc-seal", "authentication-results",
                     "received-spf", "x-weiterleitung-alias"]) +
              "\r\n" + SplitHeadersBody(env.data).1
  {
    hide Told, T.Consistent, Sender, SenderName, Subject, Rewrite.ForwardMessage, Serves, IsGenerated, T.IsAliasAt,
         T.IsContactOf, Canonical, Senders.NamePart, Rewrite.QuotedAddress, Rewrite.SenderDisplay, SplitHeadersBody,
         Strip;
    ForwardFrom(cfg, h, from, to, q, s, env, recipient);
    StoredBounds(h, from, to, q, s, cfg, env, recipient);
    SenderIsCanonical(env);
    var p := ForwardParams(env, s.route.alias, q.row.envelopeFrom);
    Rewrite.ForwardInBytes(env.data, p);
    Senders.ForwardedFrom(p, Sender(env).value);
  }

  /** Whoever names an address at the envelope is the sender of the forward, whatever the header
      block holds: the contact stands under the lookup key of that address, and the forward is
      from the contact's reverse alias and names that address. */
  lemma EnvelopeSenderIsForwarded(cfg: Config, h: History, from: nat, to: nat, q: Queued, s: Service,
                                  env: Session.Envelope, recipient: string, sender: Address)
    requires Told(cfg, h) && Serves(h, from, to, q, s, cfg, env, recipient) && s.route.ToMailbox?
    requires Parse(env.mailFrom) == Some(sender)
    ensures Sender(env) == Some(sender) && q.row.contactId.Some? && s.stored < |h.past|
    ensures var t := h.past[s.stored].tables;
            && q.row.contactId.value in t.contacts
            && t.contacts[q.row.contactId.value].email == sender.Normalised()
            && t.contacts[q.row.contactId.value].reverseAlias == q.row.envelopeFrom
            && t.contacts[q.row.contactId.value].aliasId == s.route.aliasId
    ensures var name, reverseAlias := Senders.NamePart(SenderName(env)), q.row.envelopeFrom;
            "From: " + ("\"" + (name + sender.Print()) + "\" <" + reverseAlias + ">") + "\r\n" +
              ("Reply-To: " + reverseAlias + "\r\n") + ("X-Weiterleitung-Alias: " + s.route.alias + "\r\n") +
              ("X-Weiterleitung-Sender: " + sender.Print() + "\r\n") <= q.raw
  {
    hide Told, T.Consistent, SenderName, Subject, Rewrite.ForwardMessage, Serves, IsGenerated, T.IsAliasAt, Canonical,
         Senders.NamePart, SplitHeadersBody, Strip, Parse, HeaderValue, FromHeader;
    ForwardFrom(cfg, h, from, to, q, s, env, recipient);
    StoredBounds(h, from, to, q, s, cfg, env, recipient);
    Bounded(cfg, h);
    ForwardInFull(cfg, h, from, to, q, s, env, recipient);
  }

  /** Nothing is ever queued for a recipient under a domain that is not configured here. */
  lemma NeverARelay(h: History, from: nat, to: nat, q: Queued, s: Service, cfg: Config, env: Session.Envelope,
                    recipient: string)
    requires Serves(h, from, to, q, s, cfg, env, recipient)
    ensures Parse(recipient).Some? && IsServed(cfg, Parse(recipient).value.domain)
  {
    hide Parse, IsServed, RouteKey, OwnsDomain, Queues, MadeFor;
    if Parse(recipient).Some? && !IsServed(cfg, Parse(recipient).value.domain) {
      ForeignDomainIsRefused(h.past[s.seen].tables, h.past[s.later].tables, cfg, env.mailFrom, recipient);
    }
  }

  /** The mailbox gets the sender's body byte for byte, a `From` and `Reply-To` that lead to
      the reverse alias, no authentication results, and every other field as it was. */
  lemma MailboxReads(cfg: Config, h: History, from: nat, to: nat, q: Queued, s: Service, env: Session.Envelope,
                     recipient: string, name: string)
    requires Told(cfg, h) && Serves(h, from, to, q, s, cfg, env, recipient) && s.route.ToMailbox? && OneLine(cfg)
    requires Normal(env.data) && !StartsBlank(env.data) && !IsContinuation(env.data)
    ensures SplitHeadersBody(q.raw).1 == SplitHeadersBody(env.data).1
    ensures Sender(env).Some?
    ensures HeaderValue(SplitHeadersBody(q.raw).0, name)
            == match ToLower(name)
               case "from" => Some(Trim(Rewrite.QuotedAddress(
                   Rewrite.SenderDisplay(ForwardParams(env, s.route.alias, q.row.envelopeFrom)), q.row.envelopeFrom)))
               case "reply-to" => Some(Trim(q.row.envelopeFrom))
               case "x-weiterleitung-alias" => Some(Trim(s.route.alias))
               case "x-weiterleitung-sender" => Some(Trim(Sender(env).value.Print()))
               case other =>
                 if Rewrite.NeverRelayed(other) then None else HeaderValue(SplitHeadersBody(env.data).0, name)
  {
    hide Told, Serves, Sender, SenderName, SplitHeadersBody, HeaderValue, Normal, StartsBlank, IsContinuation, Trim,
         ToLower, OneLine, Rewrite.ForwardMessage, Rewrite.QuotedAddress, Rewrite.SenderDisplay, Rewrite.CleanForward;
    ForwardIsClean(cfg, h, from, to, q, s, env, recipient);
    var p := ForwardParams(env, s.route.alias, q.row.envelopeFrom);
    Rewrite.BodySurvives(env.data, p, Rewrite.ReplyRewrite("", ""));
    Rewrite.ForwardedHeaders(env.data, p, name);
  }

  // ---- What the contact receives ----

  /** The reply that a row holds, from a stored alias to a stored contact. */
  lemma ReplyFrom(cfg: Config, h: History, from: nat, to: nat, q: Queued, s: Service, env: Session.Envelope,
                  recipient: string)
    requires Told(cfg, h) && Serves(h, from, to, q, s, cfg, env, recipient) && s.route.ToContact?
    ensures IsKey(s.route.alias) && IsKey(s.route.contactEmail)
    ensures q.row.envelopeFrom == s.route.alias && q.row.envelopeTo == s.route.contactEmail
    ensures q.raw == Rewrite.ReplyMessage(env.data, Rewrite.ReplyRewrite(s.route.alias, s.route.contactEmail))
  {
    hide Told, RouteSeen, Sender, Subject, Rewrite.ReplyMessage, RowsOk, FilesOk, MadeFor, IsKey, AllGenerated,
         T.UniqueAliases, T.UniquePairs, T.UniqueReverse, T.UsedIds, T.ForeignKeys;
    PastIsGood(cfg, h, s.stored);
  }

  /** The queued reply, byte by byte. */
  lemma ReplyInFull(cfg: Config, h: History, from: nat, to: nat, q: Queued, s: Service, env: Session.Envelope,
                    recipient: string)
    requires Told(cfg, h) && Serves(h, from, to, q, s, cfg, env, recipient) && s.route.ToContact?
    ensures q.raw ==
              "From: " + s.route.alias + "\r\n" + ("To: " + s.route.contactEmail + "\r\n") +
              ("X-Weiterleitung-Alias: " + s.route.alias + "\r\n") +
              Strip(SplitHeadersBody(env.data).0,
                    ["from", "sender", "reply-to", "return-path", "dkim-signature", "domainkey-signature",
                     "arc-authentication-results", "arc-message-signature", "arc-seal", "authentication-results",
                     "received-spf", "x-weiterleitung-alias", "to", "cc", "bcc", "x-weiterleitung-sender"]) +
              "\r\n" + SplitHeadersBody(env.data).1
  {
    hide Told, Serves, Rewrite.ReplyMessage, SplitHeadersBody, Strip, IsKey;
    ReplyFrom(cfg, h, from, to, q, s, env, recipient);
    Rewrite.ReplyInBytes(env.data, Rewrite.ReplyRewrite(s.route.alias, s.route.contactEmail));
  }

  lemma KeyIsTrimmed(key: string)
    requires IsKey(key)
    ensures Trim(key) == key
  {
    hide Parse, Trim;
    CanonicalIsTrimmed(Parse(key).value);
  }

  lemma CanonicalIsTrimmed(a: Address)
    requires Canonical(a)
    ensures Trim(a.Normalised()) == a.Normalised()
  {
    hide Trim, ToLower, ValidDomain, Indent;
    LoweredStaysValid(a.localPart);
    LastOfDomain(a.domain);
    var s := a.Normalised();
    assert s[0] == ToLower(a.localPart)[0] && s[|s| - 1] == a.domain[|a.domain| - 1];
    TrimIs(s, 0, |s|);
  }

  lemma LastOfDomain(domain: string)
    requires ValidDomain(domain)
    ensures domain != [] && !IsSpace(domain[|domain| - 1])
  {
  }

  /** The contact reads the alias as the sender and itself as the recipient, none of the fields
      that name the mailbox, every other field as it was, and the body byte for byte; nothing
      that is inserted can break a line. */
  lemma ContactReads(cfg: Config, h: History, from: nat, to: nat, q: Queued, s: Service, env: Session.Envelope,
                     recipient: string, name: string)
    requires Told(cfg, h) && Serves(h, from, to, q, s, cfg, env, recipient) && s.route.ToContact?
    requires Normal(env.data) && !StartsBlank(env.data) && !IsContinuation(env.data)
    ensures Rewrite.CleanReply(Rewrite.ReplyRewrite(s.route.alias, s.route.contactEmail))
    ensures q.row.envelopeFrom == s.route.alias && q.row.envelopeTo == s.route.contactEmail
    ensures SplitHeadersBody(q.raw).1 == SplitHeadersBody(env.data).1
    ensures HeaderValue(SplitHeadersBody(q.raw).0, name)
            == match ToLower(name)
               case "from" => Some(s.route.alias)
               case "to" => Some(s.route.contactEmail)
               case "x-weiterleitung-alias" => Some(s.route.alias)
               case "reply-to" => None
               case "cc" => None
               case "bcc" => None
               case "x-weiterleitung-sender" => None
               case other =>
                 if Rewrite.NeverRelayed(other) then None else HeaderValue(SplitHeadersBody(env.data).0, name)
  {
    hide Told, Serves, SplitHeadersBody, HeaderValue, Normal, StartsBlank, IsContinuation, Trim, ToLower, IsKey,
         Rewrite.ReplyMessage, Rewrite.ForwardMessage;
    var p := Rewrite.ReplyRewrite(s.route.alias, s.route.contactEmail);
    ReplyFrom(cfg, h, from, to, q, s, env, recipient);
    KeyHasNoLineFeed(p.alias);
    KeyHasNoLineFeed(p.contactEmail);
    KeyIsTrimmed(p.alias);
    KeyIsTrimmed(p.contactEmail);
    Rewrite.BodySurvives(env.data, Rewrite.ForwardRewrite("", "", None, ""), p);
    Rewrite.RepliedHeaders(env.data, p, name);
  }

  // ---- The way home ----

  /** After a forward from a contact is queued, in every later moment of any history in which
      the alias still exists: mail to the sender that the forward showed is routed to a reply
      as the alias to the contact's address if and only if the configuration allows it, the
      mail comes from the mailbox that got the forward, and the alias is enabled. With such a
      configuration everybody else is refused. */
  lemma ForwardThenReplyComesHome(cfg: Config, h: History, from: nat, to: nat, q: Queued, s: Service,
                                  env: Session.Envelope, recipient: string, j: nat, writer: string)
    requires Told(cfg, h) && Serves(h, from, to, q, s, cfg, env, recipient) && s.route.ToMailbox?
    requires s.stored <= j < |h.past| && s.route.aliasId in h.past[j].tables.aliases
    ensures Sender(env).Some? && q.row.contactId.Some?
    ensures var t := h.past[j].tables;
            var home := Routed(ToContact(q.row.contactId.value, s.route.alias, Sender(env).value.Normalised()));
            && (RouteOf(t, cfg, writer, q.row.envelopeFrom) == home
                <==> (RepliesComeHome(cfg) && EqIgnoreCase(q.row.envelopeTo, Trim(writer))
                      && t.aliases[s.route.aliasId].enabled))
            && (RepliesComeHome(cfg) ==>
                  (RouteOf(t, cfg, writer, q.row.envelopeFrom)
                   == if !EqIgnoreCase(q.row.envelopeTo, Trim(writer)) then Refused(NotTheMailbox)
                      else if !t.aliases[s.route.aliasId].enabled then Refused(AliasDisabled)
                      else home))
  {
    hide Told, Serves, T.Consistent, T.Remembers, RepliesComeHome, IsGenerated, EqIgnoreCase, Trim, RouteOf, Sender,
         Subject, SenderName, Rewrite.ForwardMessage;
    ForwardFrom(cfg, h, from, to, q, s, env, recipient);
    StoredBounds(h, from, to, q, s, cfg, env, recipient);
    Between(cfg, h, s.stored, j);
    var t, t', i := h.past[s.stored].tables, h.past[j].tables, q.row.contactId.value;
    ContactStays(t, t', i);
    HomeInEveryLaterState(t, t', cfg, i, writer);
    if RepliesComeHome(cfg) {
      ReverseAliasLeadsNowhereElse(t', cfg, i, writer);
    }
  }

  lemma StoredBounds(h: History, from: nat, to: nat, q: Queued, s: Service, cfg: Config, env: Session.Envelope,
                     recipient: string)
    requires Serves(h, from, to, q, s, cfg, env, recipient)
    ensures from <= s.stored < to <= |h.log|
  {
  }

  lemma ContactStays(t: T.Tables, t': T.Tables, i: Id)
    requires T.Consistent(t) && T.Consistent(t') && T.Remembers(t, t') && T.Joined(t, i)
            && t.contacts[i].aliasId in t'.aliases
    ensures T.Joined(t', i) && t'.contacts[i] == t.contacts[i]
    ensures var a := t.contacts[i].aliasId;
            && t'.aliases[a].address == t.aliases[a].address && t'.aliases[a].mailboxId == t.aliases[a].mailboxId
            && t'.mailboxes[t'.aliases[a].mailboxId] == t.mailboxes[t.aliases[a].mailboxId]
  {
    hide T.UniqueAliases, T.UniquePairs, T.UniqueReverse, T.StoredKeys;
  }

  /** What such a reply carries does not depend on the forward it was written on: the same
      bytes result as if it had been written on the original message, exactly when the
      original begins with a field (or an empty line above nothing that replies strip). */
  lemma ReplyForgetsTheForward(cfg: Config, h: History, from: nat, to: nat, q: Queued, s: Service,
                               env: Session.Envelope, recipient: string, p: Rewrite.ReplyRewrite)
    requires Told(cfg, h) && Serves(h, from, to, q, s, cfg, env, recipient) && s.route.ToMailbox? && OneLine(cfg)
    requires Normal(env.data)
    ensures Rewrite.ReplyMessage(q.raw, p) == Rewrite.ReplyMessage(env.data, p)
            <==> HeaderRewrite.Absorbs(env.data, Rewrite.STRIPPED_HEADERS, Rewrite.REPLY_STRIPPED)
  {
    hide Told, Serves, Sender, SenderName, Normal, OneLine, HeaderRewrite.Absorbs, Rewrite.ForwardMessage,
         Rewrite.ReplyMessage, Rewrite.CleanForward;
    ForwardIsClean(cfg, h, from, to, q, s, env, recipient);
    Rewrite.ReplyAbsorbsForward(env.data, ForwardParams(env, s.route.alias, q.row.envelopeFrom), p);
  }
}
