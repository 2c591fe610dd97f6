/** What becomes of an envelope when storage works and nobody interferes. It then depends on
    nothing but the tables and the tokens that the generator yields next. */
module Forecast {
  import opened Ascii
  import opened Basics
  import opened Database
  import opened EmailAddress
  import opened HeaderFields
  import opened Messages
  import opened Routing
  import opened Senders
  import Session
  import T = Tables

  type Envelope = Session.Envelope

  function FromHeader(env: Envelope): Option<string> { HeaderValue(SplitHeadersBody(env.data).0, "from") }

  function Subject(env: Envelope): Option<string> { HeaderValue(SplitHeadersBody(env.data).0, "subject") }

  function Sender(env: Envelope): Option<Address> { EnvelopeSender(env.mailFrom, FromHeader(env)) }

  function SenderName(env: Envelope): Option<string> {
    if FromHeader(env).Some? then DisplayName(FromHeader(env).value) else None
  }

  datatype Cause = NotRoutable(reason: Reason) | AliasGone | NoSender | StorageFailed

  datatype Failure = Failure(at: nat, cause: Cause)

  /** The tables, and how many tokens were drawn so far. */
  datatype Stage = Stage(tables: T.Tables, rolls: nat)

  /** The alias has no contact for the sender yet. */
  ghost predicate IsNew(t: T.Tables, aliasId: Id, env: Envelope) {
    Sender(env).Some? && T.ContactOf(t, aliasId, Sender(env).value.Normalised()) == None
  }

  /** The reverse alias that the token numbered `n` makes. */
  function NextAlias(cfg: Config, dice: nat -> string, n: nat): string
    requires cfg.domains != []
  {
    ReverseAlias(cfg.prefix, TokenOf(dice, n), cfg.domains[0])
  }

  /** The next contact is the sender's, and the very token drawn for it is taken. */
  ghost predicate Unlucky(g: Stage, cfg: Config, dice: nat -> string, aliasId: Id, env: Envelope)
    requires cfg.domains != []
  {
    IsNew(g.tables, aliasId, env) && T.Clashes(g.tables, NextAlias(cfg, dice, g.rolls))
  }

  ghost function MailboxCause(g: Stage, cfg: Config, dice: nat -> string, aliasId: Id, env: Envelope): Option<Cause>
    requires cfg.domains != []
  {
    if Sender(env).None? then Some(NoSender)
    else if Unlucky(g, cfg, dice, aliasId, env) then Some(StorageFailed)
    else None
  }

  ghost function RouteCause(g: Stage, cfg: Config, dice: nat -> string, env: Envelope, route: Route): Option<Cause>
    requires cfg.domains != []
  {
    if route.ToMailbox? then MailboxCause(g, cfg, dice, route.aliasId, env) else None
  }

  /** Why a recipient fails, if it does. */
  ghost function CauseAt(g: Stage, cfg: Config, dice: nat -> string, env: Envelope, recipient: string): Option<Cause>
    requires cfg.domains != []
  {
    match RouteOf(g.tables, cfg, env.mailFrom, recipient)
    case Refused(reason) => Some(NotRoutable(reason))
    case Routed(route) => RouteCause(g, cfg, dice, env, route)
  }

  ghost function WithContact(g: Stage, cfg: Config, dice: nat -> string, aliasId: Id, env: Envelope): Stage
    requires cfg.domains != []
  {
    if IsNew(g.tables, aliasId, env) then
      var c := T.AddContact(aliasId, Sender(env).value, SenderName(env), NextAlias(cfg, dice, g.rolls));
      Stage(T.Apply(g.tables, c), g.rolls + 1)
    else g
  }

  function Counted(g: Stage, aliasId: Id, counter: T.AliasCounter): Stage {
    g.(tables := T.RecordActivity(g.tables, aliasId, counter))
  }

  ghost function RouteServed(g: Stage, cfg: Config, dice: nat -> string, env: Envelope, route: Route): Stage
    requires cfg.domains != []
  {
    match route
    case ToMailbox(aliasId, _) => Counted(WithContact(g, cfg, dice, aliasId, env), aliasId, T.Forwarded)
    case ToContact(_, alias, _) =>
      match T.AliasAt(g.tables, alias)
      case Some(a) => Counted(g, a, T.Replied)
      case None => g
  }

  /** What serving a recipient makes of the tables. */
  ghost function ServedOne(g: Stage, cfg: Config, dice: nat -> string, env: Envelope, recipient: string): Stage
    requires cfg.domains != []
  {
    match RouteOf(g.tables, cfg, env.mailFrom, recipient)
    case Refused(_) => g
    case Routed(route) => RouteServed(g, cfg, dice, env, route)
  }

  /** One attempt went as foretold: it failed for the given cause, having drawn at most the
      token that was taken, or led to the given stage. */
  ghost predicate AsForetold(g: Stage, g': Stage, served: Stage, cause: Option<Cause>, failure: Option<Cause>) {
    && failure == cause
    && match failure
       case None => g' == served
       case Some(c) => g'.rolls == g.rolls + if c.StorageFailed? then 1 else 0
  }

  /** The stage once the first `k` recipients are served. */
  ghost function StageAfter(g: Stage, cfg: Config, dice: nat -> string, env: Envelope, k: nat): Stage
    requires cfg.domains != [] && k <= |env.rcptTo|
  {
    if k == 0 then g else ServedOne(StageAfter(g, cfg, dice, env, k - 1), cfg, dice, env, env.rcptTo[k - 1])
  }

  ghost predicate NoneFails(g: Stage, cfg: Config, dice: nat -> string, env: Envelope, k: nat)
    requires cfg.domains != [] && k <= |env.rcptTo|
  {
    forall i :: 0 <= i < k ==> CauseAt(StageAfter(g, cfg, dice, env, i), cfg, dice, env, env.rcptTo[i]) == None
  }

  /** The failure is that of the first recipient that fails, with those before it served, and
      no more tokens were drawn than contacts were missing. */
  ghost predicate Foretold(g: Stage, cfg: Config, dice: nat -> string, env: Envelope, failure: Option<Failure>,
                           rolls: nat)
    requires cfg.domains != []
  {
    match failure
    case None =>
      && NoneFails(g, cfg, dice, env, |env.rcptTo|)
      && rolls == StageAfter(g, cfg, dice, env, |env.rcptTo|).rolls
    case Some(f) =>
      && f.at < |env.rcptTo| && NoneFails(g, cfg, dice, env, f.at)
      && CauseAt(StageAfter(g, cfg, dice, env, f.at), cfg, dice, env, env.rcptTo[f.at]) == Some(f.cause)
      && rolls == StageAfter(g, cfg, dice, env, f.at).rolls + if f.cause.StorageFailed? then 1 else 0
  }

  lemma NoneFailsYet(g: Stage, cfg: Config, dice: nat -> string, env: Envelope)
    requires cfg.domains != []
    ensures NoneFails(g, cfg, dice, env, 0) && StageAfter(g, cfg, dice, env, 0) == g
  {
  }

  lemma OneMoreForetold(g: Stage, cfg: Config, dice: nat -> string, env: Envelope, k: nat, g': Stage,
                        failure: Option<Cause>)
    requires cfg.domains != [] && k < |env.rcptTo| && NoneFails(g, cfg, dice, env, k)
    requires var at := StageAfter(g, cfg, dice, env, k);
             AsForetold(at, g', ServedOne(at, cfg, dice, env, env.rcptTo[k]),
                        CauseAt(at, cfg, dice, env, env.rcptTo[k]), failure)
    ensures failure.None? ==> NoneFails(g, cfg, dice, env, k + 1) && g' == StageAfter(g, cfg, dice, env, k + 1)
    ensures failure.Some? ==> Foretold(g, cfg, dice, env, Some(Failure(k, failure.value)), g'.rolls)
  {
    hide CauseAt, ServedOne;
  }

  /** What a cause means for the recipient that fails. */
  ghost predicate FailsFor(g: Stage, cfg: Config, dice: nat -> string, env: Envelope, recipient: string, cause: Cause)
    requires cfg.domains != []
  {
    var r := RouteOf(g.tables, cfg, env.mailFrom, recipient);
    match cause
    case NotRoutable(reason) => r == Refused(reason) && !reason.LookupFailed?
    case NoSender => r.Routed? && r.route.ToMailbox? && Sender(env).None?
    case StorageFailed => r.Routed? && r.route.ToMailbox? && Unlucky(g, cfg, dice, r.route.aliasId, env)
    case AliasGone => false
  }

  lemma CauseMeans(g: Stage, cfg: Config, dice: nat -> string, env: Envelope, recipient: string, cause: Cause)
    requires cfg.domains != [] && CauseAt(g, cfg, dice, env, recipient) == Some(cause)
    ensures FailsFor(g, cfg, dice, env, recipient, cause)
  {
    hide RouteOf, RouteSeen, Sender, Unlucky;
    TablesGiveReasons(g.tables, g.tables, cfg, env.mailFrom, recipient);
  }

  lemma ForetoldReason(g: Stage, cfg: Config, dice: nat -> string, env: Envelope, failure: Option<Failure>, rolls: nat)
    requires cfg.domains != [] && Foretold(g, cfg, dice, env, failure, rolls)
    ensures failure.None? <==> NoneFails(g, cfg, dice, env, |env.rcptTo|)
    ensures failure.Some? ==>
              failure.value.at < |env.rcptTo|
              && FailsFor(StageAfter(g, cfg, dice, env, failure.value.at), cfg, dice, env,
                          env.rcptTo[failure.value.at], failure.value.cause)
  {
    hide CauseAt, FailsFor, StageAfter;
    if failure.Some? {
      var f := failure.value;
      CauseMeans(StageAfter(g, cfg, dice, env, f.at), cfg, dice, env, env.rcptTo[f.at], f.cause);
    }
  }

  lemma TablesGiveReasons(t: T.Tables, later: T.Tables, cfg: Config, from: string, recipient: string)
    ensures RouteSeen(t, later, cfg, from, recipient) != Refused(LookupFailed)
    ensures later == t ==> RouteOf(t, cfg, from, recipient) != Refused(LookupFailed)
  {
    hide Parse, OwnsDomain, EqIgnoreCase, Trim, T.ContactBehind, T.AliasAt;
  }

  /** The recipient is routed, and needs no new contact. */
  ghost predicate Known(t: T.Tables, cfg: Config, env: Envelope, recipient: string) {
    var r := RouteOf(t, cfg, env.mailFrom, recipient);
    r.Routed? && (r.route.ToMailbox? ==> Sender(env).Some? && !IsNew(t, r.route.aliasId, env))
  }

  lemma CountingKeepsKnown(t: T.Tables, cfg: Config, env: Envelope, recipient: string, id: Id, counter: T.AliasCounter)
    requires T.Consistent(t) && Known(t, cfg, env, recipient)
    ensures Known(T.RecordActivity(t, id, counter), cfg, env, recipient)
  {
    hide RouteOf, Sender, T.ContactOf, T.Consistent;
    CountingChangesNoRoute(t, cfg, id, counter, env.mailFrom, recipient);
    if Sender(env).Some? {
      var r := RouteOf(t, cfg, env.mailFrom, recipient);
      CountingKeepsContacts(t, id, counter, if r.route.ToMailbox? then r.route.aliasId else 0,
                            Sender(env).value.Normalised());
    }
  }

  lemma CountingKeepsContacts(t: T.Tables, id: Id, counter: T.AliasCounter, aliasId: Id, email: string)
    ensures T.ContactOf(T.RecordActivity(t, id, counter), aliasId, email) == None <==>
            T.ContactOf(t, aliasId, email) == None
  {
    var t' := T.RecordActivity(t, id, counter);
    forall i ensures T.IsContactOf(t', aliasId, email, i) <==> T.IsContactOf(t, aliasId, email, i) {
    }
  }

  /** Serving such a recipient draws no token and only counts. */
  lemma KnownIsServed(g: Stage, cfg: Config, dice: nat -> string, env: Envelope, recipient: string)
    requires cfg.domains != [] && Known(g.tables, cfg, env, recipient)
    ensures CauseAt(g, cfg, dice, env, recipient) == None
    ensures var g' := ServedOne(g, cfg, dice, env, recipient);
            g' == g || exists id, counter :: g' == Counted(g, id, counter)
  {
    hide RouteOf, Sender, T.ContactOf, T.RecordActivity, T.AliasAt;
    match RouteOf(g.tables, cfg, env.mailFrom, recipient).route
    case ToMailbox(aliasId, _) =>
      assert ServedOne(g, cfg, dice, env, recipient) == Counted(g, aliasId, T.Forwarded);
    case ToContact(_, alias, _) =>
      var a := T.AliasAt(g.tables, alias);
      assert a.Some? ==> ServedOne(g, cfg, dice, env, recipient) == Counted(g, a.value, T.Replied);
  }

  ghost predicate AllKnown(t: T.Tables, cfg: Config, env: Envelope) {
    forall k :: 0 <= k < |env.rcptTo| ==> Known(t, cfg, env, env.rcptTo[k])
  }

  lemma CountingKeepsAllKnown(t: T.Tables, cfg: Config, env: Envelope, id: Id, counter: T.AliasCounter)
    requires T.Consistent(t) && AllKnown(t, cfg, env)
    ensures var t' := T.RecordActivity(t, id, counter); T.Consistent(t') && AllKnown(t', cfg, env)
  {
    hide Known, T.Consistent, T.RecordActivity;
    T.UpdatesKeepConsistent(t, id, true, counter);
    forall k | 0 <= k < |env.rcptTo| {
      CountingKeepsKnown(t, cfg, env, env.rcptTo[k], id, counter);
    }
  }

  lemma {:induction false} KnownStaysKnown(g: Stage, cfg: Config, dice: nat -> string, env: Envelope, k: nat)
    requires cfg.domains != [] && T.Consistent(g.tables) && AllKnown(g.tables, cfg, env) && k <= |env.rcptTo|
    ensures var g' := StageAfter(g, cfg, dice, env, k);
            g'.rolls == g.rolls && T.Consistent(g'.tables) && AllKnown(g'.tables, cfg, env)
    ensures NoneFails(g, cfg, dice, env, k)
  {
    hide Known, T.Consistent, T.RecordActivity, CauseAt, ServedOne, AllKnown;
    if k > 0 {
      KnownStaysKnown(g, cfg, dice, env, k - 1);
      var g' := StageAfter(g, cfg, dice, env, k - 1);
      KnownHere(g'.tables, cfg, env, k - 1);
      KnownIsServed(g', cfg, dice, env, env.rcptTo[k - 1]);
      if StageAfter(g, cfg, dice, env, k) != g' {
        var id, counter :| StageAfter(g, cfg, dice, env, k) == Counted(g', id, counter);
        CountingKeepsAllKnown(g'.tables, cfg, env, id, counter);
      }
    }
  }

  lemma KnownHere(t: T.Tables, cfg: Config, env: Envelope, k: nat)
    requires AllKnown(t, cfg, env) && k < |env.rcptTo|
    ensures Known(t, cfg, env, env.rcptTo[k])
  {
  }

  /** Replies, and mail from senders that the alias knows, never fail, whatever tokens were
      drawn before or would be drawn next. */
  lemma KnownMailNeverFails(g: Stage, cfg: Config, dice: nat -> string, env: Envelope, failure: Option<Failure>,
                            rolls: nat)
    requires cfg.domains != [] && T.Consistent(g.tables) && AllKnown(g.tables, cfg, env)
    requires Foretold(g, cfg, dice, env, failure, rolls)
    ensures failure == None && rolls == g.rolls
  {
    hide Known, T.Consistent, CauseAt, StageAfter, AllKnown;
    KnownStaysKnown(g, cfg, dice, env, |env.rcptTo|);
  }
}
