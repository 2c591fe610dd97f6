/** The alias router: src/smtp/router.rs, with get_or_create_contact of src/contact/mod.rs.
    Between any two statements anybody else may change the database. */
module Router {
  import opened Ascii
  import opened Basics
  import opened Database
  import opened EmailAddress
  import opened Forecast
  import opened HeaderFields
  import opened Messages
  import opened Outbox
  import opened Routing
  import opened Senders
  import opened Store
  import Rewrite
  import T = Tables

  function ForwardParams(env: Envelope, alias: string, reverseAlias: string): Rewrite.ForwardRewrite
    requires Sender(env).Some?
  {
    Rewrite.ForwardRewrite(alias, reverseAlias, SenderName(env), Sender(env).value.Print())
  }

  /** How one recipient was served: its route, the contact inserted on the way if any, and
      the moments when the reverse aliases were read, when the aliases were read, and when
      the row went in. */
  datatype Service = Service(route: Route, made: Option<T.Change>, seen: nat, later: nat, stored: nat)

  /** The queued message is the forward of `env` through the alias: from the contact's
      reverse alias to the mailbox of the alias. */
  ghost predicate IsForward(q: Queued, t: T.Tables, env: Envelope, aliasId: Id, alias: string) {
    && T.IsAliasAt(t, alias, aliasId)
    && Sender(env).Some? && q.row.contactId.Some?
    && var i := q.row.contactId.value;
    && T.IsContactOf(t, aliasId, Sender(env).value.Normalised(), i)
    && var c := t.contacts[i];
    && q.row == NewRow(Forward, c.reverseAlias, t.mailboxes[t.aliases[aliasId].mailboxId].email, q.id,
                       Some(aliasId), Some(i), Subject(env), q.row.nextAttempt)
    && q.raw == Rewrite.ForwardMessage(env.data, ForwardParams(env, alias, c.reverseAlias))
  }

  /** The queued message is the reply of `env` to the contact: from the alias to the
      contact's real address. */
  ghost predicate IsReply(q: Queued, t: T.Tables, env: Envelope, contactId: Id, alias: string, contactEmail: string) {
    && IsContactFor(t, contactId, alias, contactEmail)
    && q.row == NewRow(Direction.Reply, alias, contactEmail, q.id, Some(t.contacts[contactId].aliasId),
                       Some(contactId), Subject(env), q.row.nextAttempt)
    && q.raw == Rewrite.ReplyMessage(env.data, Rewrite.ReplyRewrite(alias, contactEmail))
  }

  ghost predicate IsContactFor(t: T.Tables, contactId: Id, alias: string, contactEmail: string) {
    T.Joined(t, contactId) && t.contacts[contactId].email == contactEmail
    && t.aliases[t.contacts[contactId].aliasId].address == alias
  }

  ghost predicate Queues(q: Queued, t: T.Tables, env: Envelope, route: Route) {
    match route
    case ToMailbox(aliasId, alias) => IsForward(q, t, env, aliasId, alias)
    case ToContact(contactId, alias, contactEmail) => IsReply(q, t, env, contactId, alias, contactEmail)
  }

  /** The INSERT into contacts that a forward may run. */
  predicate MadeFor(c: T.Change, cfg: Config, route: Route, env: Envelope) {
    && route.ToMailbox? && c.AddContact? && c.aliasId == route.aliasId
    && Sender(env) == Some(c.sender) && c.name == SenderName(env) && IsGenerated(c.reverseAlias, cfg)
  }

  /** Between two moments of the history, the recipient was looked up and routed, and then
      the right message was inserted. */
  ghost predicate Serves(h: History, from: nat, to: nat, q: Queued, s: Service, cfg: Config, env: Envelope,
                         recipient: string) {
    && from <= s.seen <= s.later <= s.stored < to <= |h.log| < |h.past|
    && RouteSeen(h.past[s.seen].tables, h.past[s.later].tables, cfg, env.mailFrom, recipient) == Routed(s.route)
    && h.log[s.stored] == Mine(Insert(q.id, q.row, q.raw))
    && Queues(q, h.past[s.stored].tables, env, s.route)
    && (s.made.Some? ==> MadeFor(s.made.value, cfg, s.route, env))
  }

  /** All that is run for one recipient: the contact if it is new, the file, the row, and the
      counter of the alias, once. */
  function Script(q: Queued, route: Route, made: Option<T.Change>): seq<Statement> {
    var aliasId := if q.row.aliasId.Some? then q.row.aliasId.value else 0;
    ContactDone(made) +
    [Spool(q.raw), Insert(q.id, q.row, q.raw),
     Alter(T.Count(aliasId, if route.ToMailbox? then T.Forwarded else T.Replied))]
  }

  function ScriptAll(qs: seq<Queued>, ss: seq<Service>): seq<Statement>
    requires |qs| == |ss|
  {
    if qs == [] then [] else
    var n := |qs| - 1;
    ScriptAll(qs[..n], ss[..n]) + Script(qs[n], ss[n].route, ss[n].made)
  }

  /** What may be left of a recipient that failed: no counter but that of a disabled alias. */
  predicate Harmless(st: Statement) {
    st.Spool? || st.Insert?
    || (st.Alter? && (st.change.AddContact? || (st.change.Count? && st.change.counter.Blocked?)))
  }

  predicate AllHarmless(sts: seq<Statement>) { forall i :: 0 <= i < |sts| ==> Harmless(sts[i]) }

  /** The blocked counter, if anything, and only of the disabled alias at that address. */
  ghost predicate OnlyBlocked(done: seq<Statement>, r: Routing, t: T.Tables, recipient: string) {
    done == [] ||
    (&& r == Refused(AliasDisabled) && Parse(recipient).Some?
     && var a := T.AliasAt(t, Parse(recipient).value.Normalised());
     && a.Some? && done == [Alter(T.Count(a.value, T.Blocked))])
  }

  /** The refusal is for mail to a disabled alias, not through one of its reverse aliases. */
  ghost predicate HitsDisabledAlias(r: Routing, t: T.Tables, recipient: string) {
    r == Refused(AliasDisabled) && Parse(recipient).Some?
    && T.ContactBehind(t, Parse(recipient).value.Normalised()) == None
  }

  ghost predicate RefusedAs(h: History, from: nat, to: nat, seen: nat, later: nat, reason: Reason,
                            cfg: Config, env: Envelope, recipient: string) {
    && from <= seen <= later <= to <= |h.log| < |h.past|
    && RouteSeen(h.past[seen].tables, h.past[later].tables, cfg, env.mailFrom, recipient) == Refused(reason)
  }

  /** A refusal is what the tables said in the meantime, or a failed lookup. */
  ghost predicate Justified(h: History, from: nat, to: nat, reason: Reason, cfg: Config, env: Envelope,
                            recipient: string) {
    reason.LookupFailed?
    || exists seen: nat, later: nat :: RefusedAs(h, from, to, seen, later, reason, cfg, env, recipient)
  }

  /** One message per recipient, in order, for the recipients up to some point. */
  ghost predicate ServesAll(h: History, from: nat, to: nat, qs: seq<Queued>, ss: seq<Service>, cfg: Config,
                            env: Envelope) {
    && |qs| == |ss| <= |env.rcptTo|
    && forall k :: 0 <= k < |qs| ==> Serves(h, from, to, qs[k], ss[k], cfg, env, env.rcptTo[k])
  }

  /** The result of handling an envelope: every recipient served by its whole script, or a
      failure at one of them with all earlier ones served. */
  ghost predicate Handled(h: History, from: nat, to: nat, failure: Option<Failure>, done: seq<Statement>,
                          qs: seq<Queued>, ss: seq<Service>, cfg: Config, env: Envelope) {
    && ServesAll(h, from, to, qs, ss, cfg, env) && Inserts(done) == qs
    && match failure
       case None => |qs| == |env.rcptTo| && done == ScriptAll(qs, ss)
       case Some(f) =>
         && f.at < |env.rcptTo| && f.at <= |qs| <= f.at + 1
         && ScriptAll(qs[..f.at], ss[..f.at]) <= done
         && AllHarmless(done[|ScriptAll(qs[..f.at], ss[..f.at])|..])
         && (|qs| > f.at ==> f.cause.StorageFailed?)
         && (f.cause.NoSender? ==> Sender(env).None?)
         && (f.cause.NotRoutable? ==> Justified(h, from, to, f.cause.reason, cfg, env, env.rcptTo[f.at]))
  }

  ghost function StageOf(db: Database): Stage
    reads db
  {
    Stage(db.tables, db.rolls)
  }

  lemma ServesLater(h: History, h': History, from: nat, from': nat, to: nat, to': nat, q: Queued, s: Service,
                    cfg: Config, env: Envelope, recipient: string)
    requires Serves(h, from', to, q, s, cfg, env, recipient) && Extends(h, h')
    requires from <= from' && to <= to' <= |h'.log| < |h'.past|
    ensures Serves(h', from, to', q, s, cfg, env, recipient)
  {
    hide RouteSeen, Queues, MadeFor;
  }

  lemma ServesAllLater(h: History, h': History, from: nat, to: nat, to': nat, qs: seq<Queued>, ss: seq<Service>,
                       cfg: Config, env: Envelope)
    requires ServesAll(h, from, to, qs, ss, cfg, env) && Extends(h, h') && to <= to' <= |h'.log| < |h'.past|
    ensures ServesAll(h', from, to', qs, ss, cfg, env)
  {
    hide Serves, Extends;
    forall k | 0 <= k < |qs| {
      ServesLater(h, h', from, from, to, to', qs[k], ss[k], cfg, env, env.rcptTo[k]);
    }
  }

  lemma JustifiedLater(h: History, h': History, from: nat, from': nat, to: nat, to': nat, reason: Reason,
                       cfg: Config, env: Envelope, recipient: string)
    requires Justified(h, from', to, reason, cfg, env, recipient) && Extends(h, h')
    requires from <= from' && to <= to' <= |h'.log| < |h'.past|
    ensures Justified(h', from, to', reason, cfg, env, recipient)
  {
    hide RouteSeen;
    if !reason.LookupFailed? {
      var seen: nat, later: nat :| RefusedAs(h, from', to, seen, later, reason, cfg, env, recipient);
      assert RefusedAs(h', from, to', seen, later, reason, cfg, env, recipient);
    }
  }

  /** The handled stretch of a history does not change as the history goes on. */
  lemma HandledLater(h: History, h': History, from: nat, to: nat, failure: Option<Failure>, done: seq<Statement>,
                     qs: seq<Queued>, ss: seq<Service>, cfg: Config, env: Envelope)
    requires Handled(h, from, to, failure, done, qs, ss, cfg, env) && Extends(h, h') && to <= |h.log|
            && |h'.log| < |h'.past|
    ensures Handled(h', from, to, failure, done, qs, ss, cfg, env)
  {
    hide ServesAll, Justified, ScriptAll, Inserts, AllHarmless, Sender;
    ServesAllLater(h, h', from, to, to, qs, ss, cfg, env);
    if failure.Some? && failure.value.cause.NotRoutable? {
      var f := failure.value;
      JustifiedLater(h, h', from, from, to, to, f.cause.reason, cfg, env, env.rcptTo[f.at]);
    }
  }

  /** The row that a route was read from. */
  ghost predicate Leads(t: T.Tables, later: T.Tables, route: Route) {
    match route
    case ToMailbox(aliasId, alias) => T.IsAliasAt(later, alias, aliasId)
    case ToContact(contactId, alias, contactEmail) => IsContactFor(t, contactId, alias, contactEmail)
  }

  lemma RouteLeads(t: T.Tables, later: T.Tables, cfg: Config, from: string, recipient: string, route: Route)
    requires RouteSeen(t, later, cfg, from, recipient) == Routed(route)
    ensures Leads(t, later, route)
  {
    hide RouteSeen, T.IsAliasAt, IsContactFor;
    match route
    case ToMailbox(aliasId, alias) => RoutedMailbox(t, later, cfg, from, recipient, aliasId, alias);
    case ToContact(contactId, alias, contactEmail) =>
      RoutedContact(t, later, cfg, from, recipient, contactId, alias, contactEmail);
  }

  lemma AliasOfMoment(cfg: Config, h: History, i: nat, aliasId: Id, alias: string)
    requires Told(cfg, h) && i < |h.past| && T.IsAliasAt(h.past[i].tables, alias, aliasId)
    ensures Parse(alias).Some?
  {
    hide Told, T.Consistent, T.IsAliasAt, Parse;
    Between(cfg, h, i, i);
    AliasParses(h.past[i].tables, aliasId, alias);
  }

  lemma ContactOfMoment(cfg: Config, h: History, i: nat, contactId: Id, alias: string, contactEmail: string)
    requires Told(cfg, h) && i < |h.past| && IsContactFor(h.past[i].tables, contactId, alias, contactEmail)
    ensures Parse(alias).Some?
  {
    hide Told, T.IsAliasAt, IsContactFor, Parse;
    ContactAlias(h.past[i].tables, contactId, alias, contactEmail);
    AliasOfMoment(cfg, h, i, h.past[i].tables.contacts[contactId].aliasId, alias);
  }

  /** What a route says about the tables it was read from. */
  lemma RoutedMailbox(t: T.Tables, later: T.Tables, cfg: Config, from: string, recipient: string, aliasId: Id,
                      alias: string)
    requires RouteSeen(t, later, cfg, from, recipient) == Routed(ToMailbox(aliasId, alias))
    ensures T.IsAliasAt(later, alias, aliasId)
  {
    hide Parse, OwnsDomain, EqIgnoreCase, Trim;
  }

  lemma RoutedContact(t: T.Tables, later: T.Tables, cfg: Config, from: string, recipient: string,
                      contactId: Id, alias: string, contactEmail: string)
    requires RouteSeen(t, later, cfg, from, recipient) == Routed(ToContact(contactId, alias, contactEmail))
    ensures IsContactFor(t, contactId, alias, contactEmail)
  {
    hide Parse, OwnsDomain, EqIgnoreCase, Trim;
  }

  /** What the tables were at one moment, and what later tables still know of them. */
  lemma Between(cfg: Config, h: History, i: nat, j: nat)
    requires Told(cfg, h) && i <= j < |h.past|
    ensures T.Consistent(h.past[i].tables) && T.Consistent(h.past[j].tables)
    ensures T.Remembers(h.past[i].tables, h.past[j].tables)
  {
    hide T.Consistent, T.Remembers, Led, AllGenerated, RowsOk, FilesOk;
    PastIsGood(cfg, h, i);
    PastIsGood(cfg, h, j);
    PastIsKept(cfg, h, i, j);
  }

  // ---- get_or_create_contact (src/contact/mod.rs:34-77) ----

  /** Returns the one contact of the pair. Only if there was none at first a token is drawn and
      an INSERT is run, for this address under the reverse alias which that token makes, and if
      the pair was still free at that moment its row is the one returned. With working storage
      and nobody interfering it fails exactly if that reverse alias is taken. */
  method GetOrCreateContact(db: Database, aliasId: Id, email: Address, name: Option<string>)
    returns (r: Result<FoundContact>, ghost made: Option<T.Change>, ghost at: nat)
    requires db.Valid() && Canonical(email) && db.cfg.domains != []
    modifies db
    ensures db.Valid() && Extends(old(db.history), db.history) && old(db.played) <= db.played
    ensures db.Ran() == old(db.Ran()) + ContactDone(made)
    ensures old(db.Calm()) && aliasId in old(db.tables).aliases ==>
              var t, reverseAlias := old(db.tables), NextAlias(db.cfg, db.dice, old(db.rolls));
              var missing := T.ContactOf(t, aliasId, email.Normalised()) == None;
              && db.rolls == old(db.rolls) + (if missing then 1 else 0)
              && (r.Err? <==> missing && T.Clashes(t, reverseAlias))
              && (r.Ok? ==>
                    db.tables == if missing then T.Apply(t, T.AddContact(aliasId, email, name, reverseAlias)) else t)
    ensures old(db.rolls) <= db.rolls <= old(db.rolls) + 1 && (r.Ok? && made.None? ==> db.rolls == old(db.rolls))
    ensures made.Some? ==>
              && made == Some(T.AddContact(aliasId, email, name, NextAlias(db.cfg, db.dice, old(db.rolls))))
              && IsGenerated(made.value.reverseAlias, db.cfg) && db.rolls == old(db.rolls) + 1
              && old(db.Time()) <= at < db.Time() && db.history.log[at] == Mine(Alter(made.value))
              && T.ContactOf(old(db.tables), aliasId, email.Normalised()) == None
    ensures r.Ok? ==>
              T.IsContactOf(db.tables, aliasId, email.Normalised(), r.value.id)
              && r.value.contact == db.tables.contacts[r.value.id]
    ensures r.Ok? ==> forall i :: T.IsContactOf(old(db.tables), aliasId, email.Normalised(), i) ==> i == r.value.id
    ensures r.Ok? && made.Some? && !T.Taken(db.history.past[at].tables, aliasId, email.Normalised()) ==>
              r.value.contact == T.Contact(aliasId, email.Normalised(), name, made.value.reverseAlias)
    ensures r.Ok? && made.None? ==> T.IsContactOf(old(db.tables), aliasId, email.Normalised(), r.value.id)
  {
    hide T.Consistent, T.Remembers, T.Apply, T.Taken, Told, Mines, Thems, Canonical, IsKey, IsGenerated, T.IsContactOf,
         T.ContactOf, T.Clashes, NextAlias;
    made, at := None, 0;
    var key := email.Normalised();
    NoMore(db.Ran());
    var found := db.FindContact(aliasId, key);
    if found.Err? {
      return Err, made, at;
    }
    if found.value.Some? {
      Between(db.cfg, db.history, db.Time(), db.Time());
      SameContact(db.tables, db.tables, aliasId, key, found.value.value.id);
      return Ok(found.value.value), made, at;
    }
    NoContact(db.tables, aliasId, key);
    r, made, at := CreateContact(db, aliasId, email, name);
  }

  lemma NoContact(t: T.Tables, aliasId: Id, key: string)
    requires T.ContactOf(t, aliasId, key) == None
    ensures forall i :: !T.IsContactOf(t, aliasId, key, i)
  {
  }

  /** The token, the INSERT, and the second SELECT. */
  method CreateContact(db: Database, aliasId: Id, email: Address, name: Option<string>)
    returns (r: Result<FoundContact>, ghost made: Option<T.Change>, ghost at: nat)
    requires db.Valid() && Canonical(email) && db.cfg.domains != []
    requires T.ContactOf(db.tables, aliasId, email.Normalised()) == None
    modifies db
    ensures db.Valid() && Extends(old(db.history), db.history) && old(db.played) <= db.played
    ensures db.Ran() == old(db.Ran()) + ContactDone(made) && db.rolls == old(db.rolls) + 1
    ensures old(db.Calm()) && aliasId in old(db.tables).aliases ==>
              var t, reverseAlias := old(db.tables), NextAlias(db.cfg, db.dice, old(db.rolls));
              && (r.Err? <==> T.Clashes(t, reverseAlias))
              && (r.Ok? ==> db.tables == T.Apply(t, T.AddContact(aliasId, email, name, reverseAlias)))
    ensures made.Some? ==>
              && made == Some(T.AddContact(aliasId, email, name, NextAlias(db.cfg, db.dice, old(db.rolls))))
              && IsGenerated(made.value.reverseAlias, db.cfg)
              && old(db.Time()) <= at < db.Time() && db.history.log[at] == Mine(Alter(made.value))
    ensures r.Ok? ==>
              && made.Some? && T.IsContactOf(db.tables, aliasId, email.Normalised(), r.value.id)
              && r.value.contact == db.tables.contacts[r.value.id]
              && (!T.Taken(db.history.past[at].tables, aliasId, email.Normalised()) ==>
                    r.value.contact == T.Contact(aliasId, email.Normalised(), name, made.value.reverseAlias))
  {
    hide T.Consistent, T.Remembers, T.InsertContact, T.Taken, Told, Mines, Thems, Canonical, IsKey, IsGenerated,
         T.IsContactOf, T.ContactOf, T.Clashes, T.Apply, IsToken, TokenOf, ExecuteAll, ReverseAlias, Keeps, Extends;
    made, at := None, 0;
    ghost var h0 := db.history;
    var key := email.Normalised();
    NoMore(db.Ran());
    var token := db.RandomToken();
    var reverseAlias := ReverseAlias(db.cfg.prefix, token, db.cfg.domains[0]);
    TokenInside(db.cfg, token);
    db.Meanwhile();
    ghost var h1, before := db.history, db.tables;
    ghost var row := T.Contact(aliasId, key, name, reverseAlias);
    ghost var change := T.AddContact(aliasId, email, name, reverseAlias);
    var inserted := db.InsertContact(aliasId, email, name, reverseAlias);
    if !inserted {
      InsertFails(before, row);
      return Err, made, at;
    }
    made, at := Some(change), |h1.log|;
    ghost var h2, after := db.history, db.tables;
    InsertedIsThere(before, row, after);
    InsertedIsApplied(before, change, after);
    db.Meanwhile();
    ExtendsOn(h0, h1, h2);
    ExtendsOn(h0, h2, db.history);
    var found := db.FindContact(aliasId, key);
    InHistory(h0, h1, h2, db.history);
    if found.Err? || found.value.None? {
      return Err, made, at;
    }
    Between(db.cfg, db.history, |h2.log|, db.Time());
    InsertedIsFound(before, row, after, db.tables, found.value.value.id);
    return Ok(found.value.value), made, at;
  }

  lemma InHistory(h0: History, h1: History, h2: History, h3: History)
    requires Extends(h0, h1) && Extends(h1, h2) && Extends(h2, h3)
    requires |h0.past| == |h0.log| + 1 && |h1.past| == |h1.log| + 1 && |h2.past| == |h2.log| + 1
    requires |h1.log| < |h2.log|
    ensures |h0.log| <= |h1.log| < |h2.log| <= |h3.log| && |h2.past| <= |h3.past|
    ensures h3.log[|h1.log|] == h2.log[|h1.log|]
    ensures h3.past[|h0.log|] == Last(h0) && h3.past[|h1.log|] == Last(h1) && h3.past[|h2.log|] == Last(h2)
  {
  }

  lemma InsertFails(t: T.Tables, row: T.Contact)
    ensures T.InsertContact(t, row) == None && row.aliasId in t.aliases ==> T.Clashes(t, row.reverseAlias)
  {
  }

  lemma InsertedIsApplied(t: T.Tables, c: T.Change, t': T.Tables)
    requires c.AddContact?
    requires T.InsertContact(t, T.Contact(c.aliasId, c.sender.Normalised(), c.name, c.reverseAlias)) == Some(t')
    ensures T.Apply(t, c) == t'
    ensures T.ContactOf(t, c.aliasId, c.sender.Normalised()) == None ==> !T.Clashes(t, c.reverseAlias)
  {
    if T.Taken(t, c.aliasId, c.sender.Normalised()) {
      var i :| i in t.contacts && t.contacts[i].aliasId == c.aliasId && t.contacts[i].email == c.sender.Normalised();
      assert T.IsContactOf(t, c.aliasId, c.sender.Normalised(), i);
    }
  }

  lemma InsertedIsThere(t: T.Tables, row: T.Contact, t': T.Tables)
    requires T.InsertContact(t, row) == Some(t')
    ensures T.ContactOf(t', row.aliasId, row.email) != None
  {
    if T.Taken(t, row.aliasId, row.email) {
      var i :| i in t.contacts && t.contacts[i].aliasId == row.aliasId && t.contacts[i].email == row.email;
      assert T.IsContactOf(t', row.aliasId, row.email, i);
    } else {
      assert t'.contacts[t.nextId] == row;
      assert T.IsContactOf(t', row.aliasId, row.email, t.nextId);
    }
  }

  /** A pair has one contact, then and later. */
  lemma SameContact(t: T.Tables, t': T.Tables, aliasId: Id, key: string, j: Id)
    requires T.Consistent(t') && T.Remembers(t, t') && T.IsContactOf(t', aliasId, key, j)
    ensures forall i :: T.IsContactOf(t, aliasId, key, i) ==> i == j
  {
    hide IsKey, T.UniqueAliases, T.UniqueReverse, T.StoredKeys, T.UsedIds;
    assert aliasId in t'.aliases;
    forall i | T.IsContactOf(t, aliasId, key, i) ensures i == j {
      assert T.SamePair(t'.contacts[i], t'.contacts[j]);
    }
  }

  lemma InsertedIsFound(before: T.Tables, row: T.Contact, after: T.Tables, t: T.Tables, j: Id)
    requires T.InsertContact(before, row) == Some(after) && T.Remembers(after, t) && T.Consistent(t)
    requires T.IsContactOf(t, row.aliasId, row.email, j)
    ensures !T.Taken(before, row.aliasId, row.email) ==> t.contacts[j] == row
  {
    hide IsKey, T.UniqueAliases, T.UniqueReverse, T.StoredKeys, T.UsedIds;
    if !T.Taken(before, row.aliasId, row.email) {
      assert after.contacts[before.nextId] == row;
      SameContact(after, t, row.aliasId, row.email, j);
      assert T.IsContactOf(after, row.aliasId, row.email, before.nextId);
    }
  }

  // ---- What stays true from the lookups to the row ----

  lemma AliasParses(t: T.Tables, aliasId: Id, alias: string)
    requires T.Consistent(t) && T.IsAliasAt(t, alias, aliasId)
    ensures Parse(alias).Some? && Parse(alias).value.Normalised() == alias
  {
    hide Parse;
  }

  lemma AliasIsFound(t: T.Tables, alias: string, aliasId: Id)
    ensures T.IsAliasAt(t, alias, aliasId) ==> T.AliasAt(t, alias) != None && aliasId in t.aliases
  {
  }

  lemma ContactIsLinked(cfg: Config, s: Store, aliasId: Id, key: string, i: Id)
    requires Good(cfg, s) && T.IsContactOf(s.tables, aliasId, key, i)
    ensures Linked(Some(aliasId), Some(i), s.tables)
  {
    hide IsKey, AllGenerated, RowsOk, FilesOk;
  }

  lemma ReplyIsLinked(t: T.Tables, contactId: Id, alias: string, contactEmail: string, aliasId: Option<Id>)
    requires T.AliasAt(t, alias) == aliasId
    ensures IsContactFor(t, contactId, alias, contactEmail) ==> Linked(aliasId, Some(contactId), t)
  {
  }

  lemma FoundAt(t: T.Tables, key: string, i: Id)
    requires T.AliasAt(t, key) == Some(i)
    ensures T.IsAliasAt(t, key, i)
  {
  }

  lemma SenderIsCanonical(env: Envelope)
    requires Sender(env).Some?
    ensures Canonical(Sender(env).value)
  {
    hide Canonical;
  }

  /** The alias found by address is the one routed to, if that one is still there later. */
  lemma SameAlias(first: T.Tables, found: T.Tables, t: T.Tables, aliasId: Id, alias: string, foundId: Id)
    requires T.Consistent(found) && T.Consistent(first) && T.Consistent(t)
    requires T.Remembers(first, found) && T.Remembers(found, t)
    requires T.IsAliasAt(first, alias, aliasId) && T.IsAliasAt(found, alias, foundId) && aliasId in t.aliases
    ensures foundId == aliasId && T.IsAliasAt(t, alias, aliasId)
    ensures t.mailboxes[t.aliases[aliasId].mailboxId].email == found.mailboxes[found.aliases[aliasId].mailboxId].email
  {
    hide IsKey, T.UniquePairs, T.UniqueReverse, T.StoredKeys;
    assert aliasId < first.nextId <= found.nextId;
  }

  lemma SameContactRow(t: T.Tables, t': T.Tables, i: Id)
    requires T.Consistent(t) && T.Consistent(t') && T.Remembers(t, t') && i in t.contacts && i in t'.contacts
    ensures t'.contacts[i] == t.contacts[i] && T.Joined(t', i)
  {
    hide IsKey, T.UniqueAliases, T.UniquePairs, T.UniqueReverse, T.StoredKeys;
  }

  lemma AliasIsGone(t: T.Tables, found: T.Tables, t': T.Tables, aliasId: Id, alias: string)
    requires T.Consistent(t) && T.Consistent(found) && T.Remembers(t, found) && T.Remembers(found, t')
    requires T.IsAliasAt(t, alias, aliasId) && T.AliasAt(found, alias) == None
    ensures aliasId !in t'.aliases
  {
    hide IsKey;
    assert aliasId in t'.aliases ==> T.IsAliasAt(found, alias, aliasId);
  }

  lemma ForwardIsQueued(q: Queued, known: T.Tables, t: T.Tables, env: Envelope, aliasId: Id, alias: string, i: Id,
                        mailbox: string)
    requires T.Consistent(known) && T.Consistent(t) && T.Remembers(known, t)
    requires T.IsAliasAt(t, alias, aliasId) && i in t.contacts
    requires t.mailboxes[t.aliases[aliasId].mailboxId].email == mailbox
    requires Sender(env).Some? && T.IsContactOf(known, aliasId, Sender(env).value.Normalised(), i)
    requires q.row == NewRow(Forward, known.contacts[i].reverseAlias, mailbox, q.id, Some(aliasId), Some(i),
            Subject(env), q.row.nextAttempt)
    requires q.raw == Rewrite.ForwardMessage(env.data, ForwardParams(env, alias, known.contacts[i].reverseAlias))
    ensures IsForward(q, t, env, aliasId, alias)
  {
    hide T.Consistent, T.Remembers, Rewrite.ForwardMessage, Sender, Subject, SenderName;
    SameContactRow(known, t, i);
  }

  lemma ContactAlias(t: T.Tables, contactId: Id, alias: string, contactEmail: string)
    requires IsContactFor(t, contactId, alias, contactEmail)
    ensures contactId in t.contacts && T.IsAliasAt(t, alias, t.contacts[contactId].aliasId)
  {
  }

  /** As long as the contact is there, so is its alias, under the same address. */
  lemma ReplyIsQueued(q: Queued, seen: T.Tables, found: T.Tables, t: T.Tables, env: Envelope,
                      contactId: Id, alias: string, contactEmail: string, aliasId: Option<Id>)
    requires T.Consistent(seen) && T.Consistent(found) && T.Consistent(t)
    requires T.Remembers(seen, found) && T.Remembers(found, t) && T.Remembers(seen, t)
    requires IsContactFor(seen, contactId, alias, contactEmail) && T.AliasAt(found, alias) == aliasId
    requires q.row == NewRow(Direction.Reply, alias, contactEmail, q.id, aliasId, Some(contactId), Subject(env),
            q.row.nextAttempt)
    requires q.raw == Rewrite.ReplyMessage(env.data, Rewrite.ReplyRewrite(alias, contactEmail))
            && contactId in t.contacts
    ensures aliasId.Some? && IsReply(q, t, env, contactId, alias, contactEmail)
  {
    hide T.Consistent, T.Remembers, Rewrite.ReplyMessage, Subject, T.AliasAt, T.IsAliasAt;
    SameContactRow(seen, t, contactId);
    var a := seen.contacts[contactId].aliasId;
    ContactAlias(seen, contactId, alias, contactEmail);
    if aliasId.Some? {
      FoundAt(found, alias, aliasId.value);
      SameAlias(seen, found, t, a, alias, aliasId.value);
      AtIsAddress(t, alias, a);
    } else {
      AliasIsGone(seen, found, t, a, alias);
    }
  }

  lemma AtIsAddress(t: T.Tables, alias: string, a: Id)
    requires T.IsAliasAt(t, alias, a)
    ensures a in t.aliases && t.aliases[a].address == alias
  {
  }

  /** The sender's contact was found or made as foretold. */
  ghost predicate ContactForetold(g: Stage, g': Stage, cfg: Config, dice: nat -> string, aliasId: Id, env: Envelope,
                                  ok: bool)
    requires cfg.domains != []
  {
    && (ok <==> !Unlucky(g, cfg, dice, aliasId, env))
    && if ok then g' == WithContact(g, cfg, dice, aliasId, env) else g'.rolls == g.rolls + 1
  }

  class AliasRouter {
    const db: Database

    constructor (db: Database)
      ensures this.db == db
    {
      this.db := db;
    }

    /** src/smtp/router.rs:45-93. Unless a lookup fails, the verdict is what the tables said
        at the moments they were read during the call; nothing is run but the blocked counter
        of a disabled alias. */
    method Route(mailFrom: string, recipient: string)
      returns (r: Routing, ghost done: seq<Statement>, ghost seen: nat, ghost later: nat)
      requires db.Valid()
      modifies db
      ensures db.Valid() && Extends(old(db.history), db.history) && db.Ran() == old(db.Ran()) + done
      ensures old(db.played) <= db.played && db.rolls == old(db.rolls)
      ensures old(db.Calm()) ==> seen == later == old(db.Time()) && (r.Routed? ==> db.history == old(db.history))
      ensures old(db.Time()) <= seen <= later <= db.Time()
      ensures var h := db.history;
              && (r == RouteSeen(h.past[seen].tables, h.past[later].tables, db.cfg, mailFrom, recipient)
                  || r == Refused(LookupFailed))
              && OnlyBlocked(done, r, h.past[later].tables, recipient)
              && (db.reliable ==>
                    (r == RouteSeen(h.past[seen].tables, h.past[later].tables, db.cfg, mailFrom, recipient)
                     && (done != [] <==> HitsDisabledAlias(r, h.past[seen].tables, recipient))))
    {
      hide Told, Mines, Thems, Parse, OwnsDomain, EqIgnoreCase, Trim, T.ContactBehind, T.AliasAt, T.IsAliasAt,
           ExecuteAll, Keeps, T.RecordActivity;
      done, seen, later := [], db.Time(), db.Time();
      NoMore(db.Ran());
      var parsed := Parse(recipient);
      if parsed.None? {
        return Refused(InvalidAddress), done, seen, later;
      }
      var address := parsed.value;
      if !OwnsDomain(db.cfg, address.domain) {
        return Refused(RelayDenied), done, seen, later;
      }
      var contact := db.FindContactByReverseAlias(address);
      if contact.Err? {
        return Refused(LookupFailed), done, seen, later;
      }
      if contact.value.Some? {
        var c := contact.value.value;
        if !EqIgnoreCase(c.mailboxEmail, Trim(mailFrom)) {
          return Refused(NotTheMailbox), done, seen, later;
        }
        if !c.alias.enabled {
          return Refused(AliasDisabled), done, seen, later;
        }
        return Routed(ToContact(c.id, c.alias.address, c.contact.email)), done, seen, later;
      }
      db.Meanwhile();
      later := db.Time();
      var alias := db.FindAliasByAddress(address);
      if alias.Err? {
        return Refused(LookupFailed), done, seen, later;
      }
      if alias.value.None? {
        return Refused(NoSuchAlias), done, seen, later;
      }
      var a := alias.value.value;
      if !a.alias.enabled {
        db.Meanwhile();
        var counted := db.RecordAliasActivity(a.id, T.Blocked);
        done := if counted then [Alter(T.Count(a.id, T.Blocked))] else [];
        return Refused(AliasDisabled), done, seen, later;
      }
      return Routed(ToMailbox(a.id, a.alias.address)), done, seen, later;
    }

    /** src/smtp/router.rs:197-202. */
    method VerifyRecipient(mailFrom: string, recipient: string)
      returns (rejected: Option<Reason>, ghost done: seq<Statement>, ghost seen: nat, ghost later: nat)
      requires db.Valid()
      modifies db
      ensures db.Valid() && Extends(old(db.history), db.history) && db.Ran() == old(db.Ran()) + done
      ensures old(db.played) <= db.played && db.rolls == old(db.rolls)
      ensures db.reliable ==> rejected != Some(LookupFailed)
      ensures old(db.Time()) <= seen <= later <= db.Time()
      ensures Verdict(db.history, seen, later, rejected, done, db.cfg, mailFrom, recipient)
    {
      hide Told, Mines, Thems, RouteSeen, T.AliasAt, HitsDisabledAlias;
      var r;
      r, done, seen, later := Route(mailFrom, recipient);
      TablesGiveReasons(db.history.past[seen].tables, db.history.past[later].tables, db.cfg, mailFrom, recipient);
      rejected := if r.Routed? then None else Some(r.reason);
    }

    /** src/smtp/router.rs:95-150. A failure before the row leaves nothing queued; one after
        it leaves the message queued. */
    method ForwardToMailbox(aliasId: Id, alias: string, env: Envelope, ghost later: nat)
      returns (failure: Option<Cause>, ghost done: seq<Statement>, ghost q: Option<Queued>,
               ghost made: Option<T.Change>, ghost stored: nat)
      requires db.Valid() && db.cfg.domains != []
      requires later <= db.Time() && T.IsAliasAt(db.history.past[later].tables, alias, aliasId)
      modifies db
      ensures old(db.played) <= db.played
      ensures old(db.Calm()) && T.IsAliasAt(old(db.tables), alias, aliasId) ==>
                var g := old(StageOf(db));
                AsForetold(g, StageOf(db), RouteServed(g, db.cfg, db.dice, env, ToMailbox(aliasId, alias)),
                           MailboxCause(g, db.cfg, db.dice, aliasId, env), failure)
      ensures db.Valid() && Extends(old(db.history), db.history) && db.Ran() == old(db.Ran()) + done
      ensures Inserts(done) == if q.Some? then [q.value] else []
      ensures made.Some? ==> MadeFor(made.value, db.cfg, ToMailbox(aliasId, alias), env)
      ensures q.Some? ==>
                && old(db.Time()) <= stored < db.Time()
                && db.history.log[stored] == Mine(Insert(q.value.id, q.value.row, q.value.raw))
                && IsForward(q.value, db.history.past[stored].tables, env, aliasId, alias)
      ensures failure.None? ==> q.Some? && done == Script(q.value, ToMailbox(aliasId, alias), made)
      ensures failure.Some? ==>
                && !failure.value.NotRoutable? && AllHarmless(done)
                && (q.Some? ==> failure.value.StorageFailed?)
                && (failure.value.AliasGone? ==> aliasId !in db.tables.aliases)
                && (failure.value.NoSender? ==> Sender(env).None?)
    {
      hide Told, Parse, Extends, Mines, Thems, IsForward, Inserts, Script, MadeFor, SoFar, AllHarmless, ExecuteAll,
           Keeps, T.RecordActivity, Sender, T.IsAliasAt, T.IsContactOf;
      var cause;
      cause, done, q, made, stored := QueueForward(aliasId, alias, env, later);
      HarmlessSoFar(made, done, q);
      if cause.Some? {
        return cause, done, q, made, stored;
      }
      ghost var h := db.history;
      var counted, more := Count(aliasId, T.Forwarded);
      ExtendsOn(old(db.history), h, db.history);
      SameAt(h, db.history, stored);
      NoMore(db.Ran());
      if !counted {
        NoMore(done);
        return Some(StorageFailed), done, q, made, stored;
      }
      CountPart(done, aliasId, T.Forwarded);
      Regroup(old(db.Ran()), done, more);
      ForwardScript(q.value, h.past[stored].tables, env, made, done, aliasId, alias);
      done := done + more;
      return None, done, q, made, stored;
    }

    /** `record_alias_activity`, some time later. */
    method Count(aliasId: Id, counter: T.AliasCounter) returns (ok: bool, ghost done: seq<Statement>)
      requires db.Valid()
      modifies db
      ensures old(db.played) <= db.played && db.rolls == old(db.rolls)
      ensures db.reliable ==> ok
      ensures old(db.Calm()) ==> StageOf(db) == Counted(old(StageOf(db)), aliasId, counter)
      ensures db.Valid() && Extends(old(db.history), db.history) && db.Ran() == old(db.Ran()) + done
      ensures done == if ok then [Alter(T.Count(aliasId, counter))] else []
    {
      hide Told, Mines, Thems, ExecuteAll, Keeps, T.RecordActivity;
      db.Meanwhile();
      ok := db.RecordAliasActivity(aliasId, counter);
      done := if ok then [Alter(T.Count(aliasId, counter))] else [];
    }

    /** Everything up to the row. */
    method QueueForward(aliasId: Id, alias: string, env: Envelope, ghost later: nat)
      returns (failure: Option<Cause>, ghost done: seq<Statement>, ghost q: Option<Queued>,
               ghost made: Option<T.Change>, ghost stored: nat)
      requires db.Valid() && db.cfg.domains != []
      requires later <= db.Time() && T.IsAliasAt(db.history.past[later].tables, alias, aliasId)
      modifies db
      ensures old(db.played) <= db.played
      ensures old(db.Calm()) && T.IsAliasAt(old(db.tables), alias, aliasId) ==>
                var g := old(StageOf(db));
                AsForetold(g, StageOf(db), WithContact(g, db.cfg, db.dice, aliasId, env),
                           MailboxCause(g, db.cfg, db.dice, aliasId, env), failure)
      ensures db.Valid() && Extends(old(db.history), db.history) && db.Ran() == old(db.Ran()) + done
      ensures Inserts(done) == if q.Some? then [q.value] else []
      ensures made.Some? ==> MadeFor(made.value, db.cfg, ToMailbox(aliasId, alias), env)
      ensures q.Some? ==>
                && old(db.Time()) <= stored < db.Time()
                && db.history.log[stored] == Mine(Insert(q.value.id, q.value.row, q.value.raw))
                && IsForward(q.value, db.history.past[stored].tables, env, aliasId, alias)
      ensures SoFar(made, done, q) && (failure.None? <==> q.Some?)
      ensures failure.Some? ==>
                && !failure.value.NotRoutable?
                && (failure.value.AliasGone? ==> aliasId !in db.tables.aliases)
                && (failure.value.NoSender? ==> Sender(env).None?)
    {
      hide Told, Mines, Thems, T.Consistent, T.Remembers, Parse, IsKey, T.AliasAt, T.IsAliasAt, HeaderValue,
           SplitHeadersBody, EnvelopeSender, DisplayName, IsForward, Inserts, MadeFor;
      done, q, made, stored := [], None, None, 0;
      NoInserts([]);
      NoMore(db.Ran());
      ghost var start := db.Time();
      Between(db.cfg, db.history, later, start);
      AliasParses(db.history.past[later].tables, aliasId, alias);
      var address := Parse(alias);
      if address.None? {
        return Some(StorageFailed), done, q, made, stored;
      }
      var target := db.FindAliasByAddress(address.value);
      if target.Err? {
        return Some(StorageFailed), done, q, made, stored;
      }
      AliasIsFound(db.tables, alias, aliasId);
      if target.value.None? {
        Between(db.cfg, db.history, start, start);
        AliasIsGone(db.history.past[later].tables, db.tables, db.tables, aliasId, alias);
        return Some(AliasGone), done, q, made, stored;
      }
      var (headers, _) := SplitHeadersBody(env.data);
      var fromHeader := HeaderValue(headers, "from");
      var sender := EnvelopeSender(env.mailFrom, fromHeader);
      if sender.None? {
        return Some(NoSender), done, q, made, stored;
      }
      var name := if fromHeader.Some? then DisplayName(fromHeader.value) else None;
      var subject := HeaderValue(headers, "subject");
      var ok;
      ok, done, q, made, stored := QueueForwardTo(aliasId, alias, env, target.value.value, sender.value, name,
          subject, later);
      return if ok then None else Some(StorageFailed), done, q, made, stored;
    }

    /** The contact that the forward is from. */
    method SenderContact(aliasId: Id, alias: string, env: Envelope, sender: Address, name: Option<string>)
      returns (r: Result<FoundContact>, ghost made: Option<T.Change>)
      requires db.Valid() && db.cfg.domains != [] && Sender(env) == Some(sender) && name == SenderName(env)
      modifies db
      ensures old(db.played) <= db.played
      ensures old(db.Calm()) && aliasId in old(db.tables).aliases ==>
                ContactForetold(old(StageOf(db)), StageOf(db), db.cfg, db.dice, aliasId, env, r.Ok?)
      ensures db.Valid() && Extends(old(db.history), db.history) && db.Ran() == old(db.Ran()) + ContactDone(made)
      ensures made.Some? ==> made.value.AddContact? && MadeFor(made.value, db.cfg, ToMailbox(aliasId, alias), env)
      ensures r.Ok? ==>
                T.IsContactOf(db.tables, aliasId, sender.Normalised(), r.value.id)
                && r.value.contact == db.tables.contacts[r.value.id]
    {
      hide Told, Extends, Mines, Thems, Canonical, IsGenerated, T.IsContactOf, T.ContactOf, T.Taken, ExecuteAll, Keeps,
           Sender, SenderName;
      ghost var h0 := db.history;
      SenderIsCanonical(env);
      db.Meanwhile();
      ghost var h1 := db.history;
      var contact, inserted, _ := GetOrCreateContact(db, aliasId, sender, name);
      ExtendsOn(h0, h1, db.history);
      return contact, inserted;
    }

    /** The contact, the message and the row, once alias, mailbox and sender are known. */
    method QueueForwardTo(aliasId: Id, alias: string, env: Envelope, target: FoundAlias, sender: Address,
                        name: Option<string>, subject: Option<string>, ghost later: nat)
      returns (ok: bool, ghost done: seq<Statement>, ghost q: Option<Queued>,
               ghost made: Option<T.Change>, ghost stored: nat)
      requires db.Valid() && db.cfg.domains != []
      requires later <= db.Time() && T.IsAliasAt(db.history.past[later].tables, alias, aliasId)
      requires T.IsAliasAt(db.tables, alias, target.id)
      requires target.mailboxEmail == db.tables.mailboxes[db.tables.aliases[target.id].mailboxId].email
      requires Sender(env) == Some(sender) && name == SenderName(env) && subject == Subject(env)
      modifies db
      ensures old(db.played) <= db.played
      ensures old(db.Calm()) && aliasId in old(db.tables).aliases ==>
                ContactForetold(old(StageOf(db)), StageOf(db), db.cfg, db.dice, aliasId, env, ok)
      ensures db.Valid() && Extends(old(db.history), db.history) && db.Ran() == old(db.Ran()) + done
      ensures Inserts(done) == if q.Some? then [q.value] else []
      ensures made.Some? ==> MadeFor(made.value, db.cfg, ToMailbox(aliasId, alias), env)
      ensures q.Some? ==>
                && old(db.Time()) <= stored < db.Time()
                && db.history.log[stored] == Mine(Insert(q.value.id, q.value.row, q.value.raw))
                && IsForward(q.value, db.history.past[stored].tables, env, aliasId, alias)
      ensures ok <==> q.Some?
      ensures SoFar(made, done, q)
    {
      hide Told, Linked, Mines, Thems, T.IsAliasAt, T.IsContactOf, IsForward, MadeFor, Inserts, ContactForetold,
           Rewrite.ForwardMessage, LinksTo, Gained, Extends, Sender, SenderName, Subject, ContactDone, SoFar, Good;
      q, stored := None, 0;
      ghost var h0 := db.history;
      var contact;
      contact, made := SenderContact(aliasId, alias, env, sender, name);
      ghost var h2 := db.history;
      done := ContactDone(made);
      ContactPart(made);
      SoFarNothing(made, []);
      NoMore(done);
      if contact.Err? {
        return false, done, q, made, stored;
      }
      var c := contact.value;
      db.Present();
      ContactIsLinked(db.cfg, db.Now(), aliasId, sender.Normalised(), c.id);
      var raw := Rewrite.RewriteForForward(
        env.data, Rewrite.ForwardRewrite(alias, c.contact.reverseAlias, name, sender.Print()));
      var queued, more := db.Enqueue(
        Forward, c.contact.reverseAlias, target.mailboxEmail, raw, Some(aliasId), Some(c.id), subject);
      ghost var h3 := db.history;
      ExtendsOn(h0, h2, h3);
      Regroup(old(db.Ran()), done, more);
      InsertsConcat(done, more);
      if queued.Err? {
        SoFarNothing(made, more);
        done := done + more;
        return false, done, q, made, stored;
      }
      stored := db.Time() - 1;
      q := Some(Queued(queued.value, more[1].row, raw));
      assert [] + [q.value] == [q.value];
      SoFarQueued(made, more, q.value);
      done := done + more;
      Kept3(h0, h2, h3, later);
      ForwardFromHistory(db.cfg, h3, later, |h0.log|, |h2.log|, stored, q.value, env, aliasId, alias, target.id, c.id);
      return true, done, q, made, stored;
    }

    /** src/smtp/router.rs:152-193. */
    method ReplyToContact(contactId: Id, alias: string, contactEmail: string, env: Envelope, ghost seen: nat)
      returns (failure: Option<Cause>, ghost done: seq<Statement>, ghost q: Option<Queued>, ghost stored: nat)
      requires db.Valid() && db.cfg.domains != []
      requires seen <= db.Time() && IsContactFor(db.history.past[seen].tables, contactId, alias, contactEmail)
      modifies db
      ensures old(db.played) <= db.played
      ensures old(db.Calm()) && IsContactFor(old(db.tables), contactId, alias, contactEmail) ==>
                var g, route := old(StageOf(db)), ToContact(contactId, alias, contactEmail);
                failure.None? && StageOf(db) == RouteServed(g, db.cfg, db.dice, env, route)
      ensures db.Valid() && Extends(old(db.history), db.history) && db.Ran() == old(db.Ran()) + done
      ensures Inserts(done) == if q.Some? then [q.value] else []
      ensures q.Some? ==>
                && old(db.Time()) <= stored < db.Time()
                && db.history.log[stored] == Mine(Insert(q.value.id, q.value.row, q.value.raw))
                && IsReply(q.value, db.history.past[stored].tables, env, contactId, alias, contactEmail)
      ensures failure.None? ==> q.Some? && done == Script(q.value, ToContact(contactId, alias, contactEmail), None)
      ensures failure.Some? ==> failure.value.StorageFailed? && AllHarmless(done)
    {
      hide Told, Parse, Extends, Mines, Thems, IsReply, Inserts, Script, SoFar, AllHarmless, ExecuteAll, Keeps,
           IsContactFor;
      var ok, aliasId;
      ok, aliasId, done, q, stored := QueueReply(contactId, alias, contactEmail, env, seen);
      HarmlessSoFar(None, done, q);
      if !ok {
        return Some(StorageFailed), done, q, stored;
      }
      if aliasId.None? {
        return None, done, q, stored;
      }
      ghost var h := db.history;
      var counted, more := Count(aliasId.value, T.Replied);
      ExtendsOn(old(db.history), h, db.history);
      SameAt(h, db.history, stored);
      NoMore(db.Ran());
      if !counted {
        NoMore(done);
        return Some(StorageFailed), done, q, stored;
      }
      CountPart(done, aliasId.value, T.Replied);
      Regroup(old(db.Ran()), done, more);
      ReplyScript(q.value, done, contactId, alias, contactEmail);
      done := done + more;
      return None, done, q, stored;
    }

    /** Everything up to the row; the alias is always found if the row goes in. */
    method QueueReply(contactId: Id, alias: string, contactEmail: string, env: Envelope, ghost seen: nat)
      returns (ok: bool, aliasId: Option<Id>, ghost done: seq<Statement>, ghost q: Option<Queued>, ghost stored: nat)
      requires db.Valid() && db.cfg.domains != []
      requires seen <= db.Time() && IsContactFor(db.history.past[seen].tables, contactId, alias, contactEmail)
      modifies db
      ensures old(db.played) <= db.played
      ensures old(db.Calm()) && IsContactFor(old(db.tables), contactId, alias, contactEmail) ==>
                ok && StageOf(db) == old(StageOf(db)) && aliasId == T.AliasAt(old(db.tables), alias)
      ensures db.Valid() && Extends(old(db.history), db.history) && db.Ran() == old(db.Ran()) + done
      ensures Inserts(done) == if q.Some? then [q.value] else []
      ensures q.Some? ==>
                && old(db.Time()) <= stored < db.Time()
                && db.history.log[stored] == Mine(Insert(q.value.id, q.value.row, q.value.raw))
                && IsReply(q.value, db.history.past[stored].tables, env, contactId, alias, contactEmail)
                && aliasId.Some? && q.value.row.aliasId == aliasId
      ensures SoFar(None, done, q) && (ok <==> q.Some?)
    {
      hide Told, Linked, Extends, Mines, Thems, T.Consistent, T.Remembers, Parse, IsKey, T.AliasAt, T.IsAliasAt,
           HeaderValue, SplitHeadersBody, IsReply, Inserts, Rewrite.ReplyMessage, ExecuteAll, Keeps, LinksTo, Gained,
           IsContactFor, SoFar;
      ok, aliasId, done, q, stored := false, None, [], None, 0;
      NoInserts([]);
      OnlySpooled([]);
      NoMore(db.Ran());
      ghost var h0 := db.history;
      ReflexiveHistory(h0);
      var (headers, _) := SplitHeadersBody(env.data);
      var raw := Rewrite.RewriteForReply(env.data, Rewrite.ReplyRewrite(alias, contactEmail));
      Between(db.cfg, h0, seen, seen);
      ContactAlias(h0.past[seen].tables, contactId, alias, contactEmail);
      AliasParses(h0.past[seen].tables, h0.past[seen].tables.contacts[contactId].aliasId, alias);
      var address := Parse(alias);
      if address.None? {
        return;
      }
      var target := db.FindAliasByAddress(address.value);
      if target.Err? {
        return;
      }
      aliasId := if target.value.Some? then Some(target.value.value.id) else None;
      ReplyIsLinked(db.tables, contactId, alias, contactEmail, aliasId);
      db.Meanwhile();
      ghost var h1 := db.history;
      var queued, more := db.Enqueue(
        Direction.Reply, alias, contactEmail, raw, aliasId, Some(contactId), HeaderValue(headers, "subject"));
      done := more;
      ExtendsOn(h0, h1, db.history);
      if queued.Err? {
        OnlySpooled(more);
        return;
      }
      ok, stored := true, db.Time() - 1;
      q := Some(Queued(queued.value, more[1].row, raw));
      OnlyQueued(more, q.value);
      Longer(h0, h1);
      Kept3(h0, h0, db.history, seen);
      ReplyFromHistory(db.cfg, db.history, seen, |h0.log|, stored, q.value, env, contactId, alias, contactEmail,
          aliasId);
    }

    /** One turn of the loop in `handle`. */
    method ServeRecipient(env: Envelope, recipient: string)
      returns (failure: Option<Cause>, ghost done: seq<Statement>, ghost q: Option<Queued>, ghost s: Service)
      requires db.Valid() && db.cfg.domains != []
      modifies db
      ensures old(db.played) <= db.played
      ensures old(db.Calm()) ==>
                var g := old(StageOf(db));
                AsForetold(g, StageOf(db), ServedOne(g, db.cfg, db.dice, env, recipient),
                           CauseAt(g, db.cfg, db.dice, env, recipient), failure)
      ensures db.Valid() && Extends(old(db.history), db.history) && db.Ran() == old(db.Ran()) + done
      ensures Inserts(done) == if q.Some? then [q.value] else []
      ensures q.Some? ==> Serves(db.history, old(db.Time()), db.Time(), q.value, s, db.cfg, env, recipient)
      ensures failure.None? ==> q.Some? && done == Script(q.value, s.route, s.made)
      ensures failure.Some? ==>
                && AllHarmless(done)
                && (q.Some? ==> failure.value.StorageFailed?)
                && (failure.value.NoSender? ==> Sender(env).None?)
                && (failure.value.NotRoutable? ==>
                      Justified(db.history, old(db.Time()), db.Time(), failure.value.reason, db.cfg, env, recipient))
    {
      hide Told, Mines, Thems, RouteSeen, Sender, Queues, Inserts, Script, MadeFor, AllHarmless, OnlyBlocked,
           HitsDisabledAlias, Leads;
      q := None;
      var r;
      ghost var seen, later;
      r, done, seen, later := Route(env.mailFrom, recipient);
      s := Service(ToMailbox(0, recipient), None, seen, later, 0);
      ghost var h := db.history;
      TablesGiveReasons(h.past[seen].tables, h.past[later].tables, db.cfg, env.mailFrom, recipient);
      if r.Refused? {
        BlockedIsHarmless(done, r, h.past[later].tables, recipient);
        assert r.reason.LookupFailed?
               || RefusedAs(h, old(db.Time()), db.Time(), seen, later, r.reason, db.cfg, env, recipient);
        return Some(NotRoutable(r.reason)), done, q, s;
      }
      RoutedIsNotBlocked(done, r, h.past[later].tables, recipient);
      RouteLeads(h.past[seen].tables, h.past[later].tables, db.cfg, env.mailFrom, recipient, r.route);
      ghost var made, stored;
      NoMore(db.Ran());
      failure, done, q, made, stored := Dispatch(r.route, env, seen, later);
      s := Service(r.route, made, seen, later, stored);
    }

    /** What is done for a route. */
    method Dispatch(route: Route, env: Envelope, ghost seen: nat, ghost later: nat)
      returns (failure: Option<Cause>, ghost done: seq<Statement>, ghost q: Option<Queued>,
               ghost made: Option<T.Change>, ghost stored: nat)
      requires db.Valid() && db.cfg.domains != [] && seen <= db.Time() && later <= db.Time()
      requires Leads(db.history.past[seen].tables, db.history.past[later].tables, route)
      modifies db
      ensures old(db.played) <= db.played
      ensures old(db.Calm()) && Leads(old(db.tables), old(db.tables), route) ==>
                var g := old(StageOf(db));
                AsForetold(g, StageOf(db), RouteServed(g, db.cfg, db.dice, env, route),
                           RouteCause(g, db.cfg, db.dice, env, route), failure)
      ensures db.Valid() && Extends(old(db.history), db.history) && db.Ran() == old(db.Ran()) + done
      ensures Inserts(done) == if q.Some? then [q.value] else []
      ensures q.Some? ==>
                && old(db.Time()) <= stored < db.Time()
                && db.history.log[stored] == Mine(Insert(q.value.id, q.value.row, q.value.raw))
                && Queues(q.value, db.history.past[stored].tables, env, route)
      ensures made.Some? ==> MadeFor(made.value, db.cfg, route, env)
      ensures failure.None? ==> q.Some? && done == Script(q.value, route, made)
      ensures failure.Some? ==>
                && !failure.value.NotRoutable? && AllHarmless(done)
                && (q.Some? ==> failure.value.StorageFailed?)
                && (failure.value.NoSender? ==> Sender(env).None?)
    {
      hide Told, Extends, Mines, Thems, Sender, IsForward, IsReply, Inserts, Script, MadeFor, AllHarmless, Parse,
           ExecuteAll, Keeps, T.IsAliasAt, IsContactFor;
      ghost var h := db.history;
      made := None;
      db.Meanwhile();
      ghost var h1 := db.history;
      ReflexiveHistory(h);
      Kept3(h, h, h1, seen);
      Kept3(h, h, h1, later);
      NoMore(db.Ran());
      match route {
        case ToMailbox(aliasId, alias) =>
          AliasOfMoment(db.cfg, h, later, aliasId, alias);
          failure, done, q, made, stored := ForwardToMailbox(aliasId, alias, env, later);
        case ToContact(contactId, alias, contactEmail) =>
          ContactOfMoment(db.cfg, h, seen, contactId, alias, contactEmail);
          failure, done, q, stored := ReplyToContact(contactId, alias, contactEmail, env, seen);
      }
      ExtendsOn(h, h1, db.history);
      Longer(h, h1);
    }

    /** src/smtp/router.rs:204-239. */
    method Handle(env: Envelope)
      returns (failure: Option<Failure>, ghost done: seq<Statement>, ghost qs: seq<Queued>, ghost ss: seq<Service>)
      requires db.Valid() && db.cfg.domains != []
      modifies db
      ensures old(db.played) <= db.played
      ensures old(db.Calm()) ==> Foretold(old(StageOf(db)), db.cfg, db.dice, env, failure, db.rolls)
      ensures old(db.Calm()) && failure.None? ==>
                StageOf(db) == StageAfter(old(StageOf(db)), db.cfg, db.dice, env, |env.rcptTo|)
      ensures db.Valid() && Extends(old(db.history), db.history) && db.Ran() == old(db.Ran()) + done
      ensures Handled(db.history, old(db.Time()), db.Time(), failure, done, qs, ss, db.cfg, env)
    {
      hide Told, Extends, Mines, Thems, Serves, ServesAll, Inserts, Script, ScriptAll, AllHarmless, Justified, Sender,
           AsForetold, CauseAt, ServedOne, NoneFails, StageAfter;
      done, qs, ss := [], [], [];
      ghost var h0, g := db.history, StageOf(db);
      ReflexiveHistory(h0);
      NoneServed(h0, |h0.log|, db.cfg, env);
      NoneFailsYet(g, db.cfg, db.dice, env);
      NoMore(db.Ran());
      for k := 0 to |env.rcptTo|
        invariant old(db.played) <= db.played
        invariant db.Valid() && Extends(h0, db.history) && db.Ran() == old(db.Ran()) + done
        invariant old(db.Calm()) ==>
                    && NoneFails(g, db.cfg, db.dice, env, k)
                    && StageOf(db) == StageAfter(g, db.cfg, db.dice, env, k)
        invariant |qs| == |ss| == k && ServesAll(db.history, |h0.log|, db.Time(), qs, ss, db.cfg, env)
        invariant Inserts(done) == qs && done == ScriptAll(qs, ss)
      {
        ghost var h := db.history;
        var cause;
        ghost var more, q, s;
        cause, more, q, s := ServeRecipient(env, env.rcptTo[k]);
        ExtendsOn(h0, h, db.history);
        Regroup(old(db.Ran()), done, more);
        InsertsConcat(done, more);
        Longer(h, db.history);
        Longer(h0, h);
        ServesAllLater(h, db.history, |h0.log|, |h.log|, db.Time(), qs, ss, db.cfg, env);
        if old(db.Calm()) {
          OneMoreForetold(g, db.cfg, db.dice, env, k, StageOf(db), cause);
        }
        if cause.Some? {
          FailedAt(h0, h, db.history, k, cause.value, done, more, qs, ss, q, s, db.cfg, env);
          failure := Some(Failure(k, cause.value));
          done := done + more;
          if q.Some? {
            qs, ss := qs + [q.value], ss + [s];
          } else {
            NoMore(qs);
          }
          return;
        }
        OneMoreServed(db.history, |h0.log|, |h.log|, db.Time(), qs, ss, q.value, s, db.cfg, env);
        done := done + more;
        qs, ss := qs + [q.value], ss + [s];
      }
      failure := None;
    }
  }

  lemma Kept3(h0: History, h2: History, h3: History, later: nat)
    requires Extends(h0, h2) && Extends(h2, h3) && later <= |h0.log| < |h0.past| && |h2.log| < |h2.past|
    ensures later <= |h0.log| <= |h2.log| <= |h3.log| && |h2.log| < |h3.past|
    ensures h3.past[later] == h0.past[later] && h3.past[|h0.log|] == h0.past[|h0.log|]
    ensures h3.past[|h2.log|] == h2.past[|h2.log|]
  {
  }

  function ContactDone(made: Option<T.Change>): seq<Statement> {
    if made.Some? then [Alter(made.value)] else []
  }

  /** What a forward has run by the time its row is in, or the attempt was given up. */
  predicate SoFar(made: Option<T.Change>, done: seq<Statement>, q: Option<Queued>) {
    && (made.Some? ==> made.value.AddContact?)
    && match q
       case Some(q) => done == ContactDone(made) + [Spool(q.raw), Insert(q.id, q.row, q.raw)]
       case None =>
         ContactDone(made) <= done
         && forall i :: |ContactDone(made)| <= i < |done| ==> done[i].Spool?
  }

  lemma SoFarNothing(made: Option<T.Change>, more: seq<Statement>)
    requires made.Some? ==> made.value.AddContact?
    requires forall i :: 0 <= i < |more| ==> more[i].Spool?
    ensures SoFar(made, ContactDone(made) + more, None)
  {
  }

  lemma SoFarQueued(made: Option<T.Change>, more: seq<Statement>, q: Queued)
    requires (made.Some? ==> made.value.AddContact?) && more == [Spool(q.raw), Insert(q.id, q.row, q.raw)]
    ensures SoFar(made, ContactDone(made) + more, Some(q))
  {
  }

  lemma OnlySpooled(done: seq<Statement>)
    requires forall i :: 0 <= i < |done| ==> done[i].Spool?
    ensures SoFar(None, done, None)
  {
  }

  lemma OnlyQueued(done: seq<Statement>, q: Queued)
    requires done == [Spool(q.raw), Insert(q.id, q.row, q.raw)]
    ensures SoFar(None, done, Some(q))
  {
  }

  lemma HarmlessSoFar(made: Option<T.Change>, done: seq<Statement>, q: Option<Queued>)
    requires SoFar(made, done, q)
    ensures AllHarmless(done)
  {
  }

  lemma ForwardScript(q: Queued, t: T.Tables, env: Envelope, made: Option<T.Change>, done: seq<Statement>,
                      aliasId: Id, alias: string)
    requires IsForward(q, t, env, aliasId, alias) && SoFar(made, done, Some(q))
    ensures Script(q, ToMailbox(aliasId, alias), made) == done + [Alter(T.Count(aliasId, T.Forwarded))]
  {
    hide Sender, Subject, Rewrite.ForwardMessage;
  }

  /** Moments of one history: routed, alias found again, contact known, row inserted. */
  lemma ForwardFromHistory(cfg: Config, h: History, later: nat, found: nat, known: nat, stored: nat, q: Queued,
                           env: Envelope, aliasId: Id, alias: string, foundId: Id, i: Id)
    requires Told(cfg, h) && later <= found <= known <= stored < |h.past|
    requires T.IsAliasAt(h.past[later].tables, alias, aliasId) && T.IsAliasAt(h.past[found].tables, alias, foundId)
    requires Sender(env).Some? && T.IsContactOf(h.past[known].tables, aliasId, Sender(env).value.Normalised(), i)
    requires LinksTo(q.row, h.past[stored].tables)
    requires var t, c := h.past[found].tables, h.past[known].tables.contacts[i];
             && q.row == NewRow(Forward, c.reverseAlias, t.mailboxes[t.aliases[foundId].mailboxId].email, q.id,
                                Some(aliasId), Some(i), Subject(env), q.row.nextAttempt)
             && q.raw == Rewrite.ForwardMessage(env.data, ForwardParams(env, alias, c.reverseAlias))
    ensures IsForward(q, h.past[stored].tables, env, aliasId, alias)
  {
    hide Told, T.Consistent, T.Remembers, Rewrite.ForwardMessage, Sender, Subject, SenderName, T.IsContactOf;
    Between(cfg, h, later, found);
    Between(cfg, h, found, stored);
    Between(cfg, h, known, stored);
    LinkedRow(q.row, h.past[stored].tables, aliasId, i);
    SameAlias(h.past[later].tables, h.past[found].tables, h.past[stored].tables, aliasId, alias, foundId);
    ForwardIsQueued(q, h.past[known].tables, h.past[stored].tables, env, aliasId, alias, i, q.row.envelopeTo);
  }

  /** What a RCPT is told, and what asking cost: nothing but the blocked counter. */
  ghost predicate Verdict(h: History, seen: nat, later: nat, rejected: Option<Reason>, done: seq<Statement>,
                          cfg: Config, mailFrom: string, recipient: string)
    requires seen < |h.past| && later < |h.past|
  {
    var r := RouteSeen(h.past[seen].tables, h.past[later].tables, cfg, mailFrom, recipient);
    && (rejected.None? ==> r.Routed?)
    && (rejected.Some? ==> r == Refused(rejected.value) || rejected.value.LookupFailed?)
    && (rejected.None? ==> done == [])
    && (rejected.Some? ==> OnlyBlocked(done, Refused(rejected.value), h.past[later].tables, recipient))
  }

  lemma ContactPart(made: Option<T.Change>)
    ensures Inserts(ContactDone(made)) == []
  {
    NoInserts(ContactDone(made));
  }

  lemma CountPart(done: seq<Statement>, aliasId: Id, counter: T.AliasCounter)
    ensures Inserts(done + [Alter(T.Count(aliasId, counter))]) == Inserts(done)
  {
    InsertsLast(done, Alter(T.Count(aliasId, counter)));
  }

  lemma LinkedRow(r: Row, t: T.Tables, aliasId: Id, contactId: Id)
    requires LinksTo(r, t) && r.aliasId == Some(aliasId) && r.contactId == Some(contactId)
    ensures aliasId in t.aliases && contactId in t.contacts
  {
  }

  lemma ReplyScript(q: Queued, done: seq<Statement>, contactId: Id, alias: string, contactEmail: string)
    requires SoFar(None, done, Some(q)) && q.row.aliasId.Some?
    ensures Script(q, ToContact(contactId, alias, contactEmail), None)
            == done + [Alter(T.Count(q.row.aliasId.value, T.Replied))]
  {
  }

  lemma BlockedIsHarmless(done: seq<Statement>, r: Routing, t: T.Tables, recipient: string)
    requires OnlyBlocked(done, r, t, recipient)
    ensures AllHarmless(done) && Inserts(done) == []
  {
    hide Parse;
    NoInserts(done);
  }

  lemma RoutedIsNotBlocked(done: seq<Statement>, r: Routing, t: T.Tables, recipient: string)
    requires OnlyBlocked(done, r, t, recipient) && r.Routed?
    ensures done == []
  {
    hide Parse;
  }

  /** Moments of one history: contact looked up, alias found again, row inserted. */
  lemma ReplyFromHistory(cfg: Config, h: History, seen: nat, found: nat, stored: nat, q: Queued, env: Envelope,
                         contactId: Id, alias: string, contactEmail: string, aliasId: Option<Id>)
    requires Told(cfg, h) && seen <= found <= stored < |h.past|
    requires IsContactFor(h.past[seen].tables, contactId, alias, contactEmail)
    requires T.AliasAt(h.past[found].tables, alias) == aliasId && LinksTo(q.row, h.past[stored].tables)
    requires q.row == NewRow(Direction.Reply, alias, contactEmail, q.id, aliasId, Some(contactId), Subject(env),
            q.row.nextAttempt)
    requires q.raw == Rewrite.ReplyMessage(env.data, Rewrite.ReplyRewrite(alias, contactEmail))
    ensures aliasId.Some? && IsReply(q, h.past[stored].tables, env, contactId, alias, contactEmail)
  {
    hide Told, T.Consistent, T.Remembers, Rewrite.ReplyMessage, Subject, T.AliasAt, IsContactFor;
    Between(cfg, h, seen, found);
    Between(cfg, h, found, stored);
    Between(cfg, h, seen, stored);
    ReplyIsQueued(q, h.past[seen].tables, h.past[found].tables, h.past[stored].tables, env, contactId, alias,
        contactEmail, aliasId);
  }

  lemma NoneServed(h: History, from: nat, cfg: Config, env: Envelope)
    ensures ServesAll(h, from, from, [], [], cfg, env) && Inserts([]) == [] && ScriptAll([], []) == []
  {
  }

  lemma OneMoreServed(h: History, from: nat, at: nat, to: nat, qs: seq<Queued>, ss: seq<Service>, q: Queued, s: Service,
                      cfg: Config, env: Envelope)
    requires ServesAll(h, from, to, qs, ss, cfg, env) && |qs| < |env.rcptTo| && from <= at
    requires Serves(h, at, to, q, s, cfg, env, env.rcptTo[|qs|])
    ensures ServesAll(h, from, to, qs + [q], ss + [s], cfg, env)
    ensures ScriptAll(qs + [q], ss + [s]) == ScriptAll(qs, ss) + Script(q, s.route, s.made)
  {
    hide RouteSeen, Queues, MadeFor, Script;
    assert (qs + [q])[..|qs|] == qs && (ss + [s])[..|ss|] == ss;
  }

  lemma FailedAt(h0: History, h: History, h': History, k: nat, cause: Cause, done: seq<Statement>, more: seq<Statement>,
                 qs: seq<Queued>, ss: seq<Service>, q: Option<Queued>, s: Service, cfg: Config, env: Envelope)
    requires |qs| == |ss| == k < |env.rcptTo| && done == ScriptAll(qs, ss) && Inserts(done + more) == qs + Inserts(more)
    requires |h0.log| <= |h.log| <= |h'.log| < |h'.past| && ServesAll(h', |h0.log|, |h'.log|, qs, ss, cfg, env)
    requires Inserts(more) == if q.Some? then [q.value] else []
    requires q.Some? ==> Serves(h', |h.log|, |h'.log|, q.value, s, cfg, env, env.rcptTo[k]) && cause.StorageFailed?
    requires AllHarmless(more) && (cause.NoSender? ==> Sender(env).None?)
    requires cause.NotRoutable? ==> Justified(h', |h.log|, |h'.log|, cause.reason, cfg, env, env.rcptTo[k])
    ensures var qs', ss' := if q.Some? then qs + [q.value] else qs, if q.Some? then ss + [s] else ss;
            Handled(h', |h0.log|, |h'.log|, Some(Failure(k, cause)), done + more, qs', ss', cfg, env)
  {
    hide Serves, ServesAll, Justified, Inserts, ScriptAll, Sender, AllHarmless;
    var qs', ss' := if q.Some? then qs + [q.value] else qs, if q.Some? then ss + [s] else ss;
    NoMore(qs);
    assert qs'[..k] == qs && ss'[..k] == ss && (done + more)[|done|..] == more;
    if q.Some? {
      OneMoreServed(h', |h0.log|, |h.log|, |h'.log|, qs, ss, q.value, s, cfg, env);
    }
    if cause.NotRoutable? {
      ReflexiveHistory(h');
      JustifiedLater(h', h', |h0.log|, |h.log|, |h'.log|, |h'.log|, cause.reason, cfg, env, env.rcptTo[k]);
    }
  }
}
