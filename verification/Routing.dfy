/** Which way a recipient is routed, and the way back: src/smtp/router.rs:45-93 and
    src/configuration.rs:61-74. */
module Routing {
  import opened Ascii
  import opened Basics
  import opened EmailAddress
  import opened Tables

  /** The configured domains (the first is used for reverse aliases) and prefix. */
  datatype Config = Config(domains: seq<string>, prefix: string)

  predicate OwnsDomain(cfg: Config, domain: string) {
    exists i :: 0 <= i < |cfg.domains| && EqIgnoreCase(cfg.domains[i], TrimEnd(IsDot, domain))
  }

  /** The domain, which parsing has put in lower case, is a configured one in any case. */
  predicate IsServed(cfg: Config, domain: string) {
    exists i :: 0 <= i < |cfg.domains| && Spells(cfg.domains[i], domain)
  }

  lemma OwnedExactly(cfg: Config, domain: string)
    requires GoodDomain(domain)
    ensures OwnsDomain(cfg, domain) <==> IsServed(cfg, domain)
  {
    hide ValidDomain, ToLower, Spells;
    TrimEndIs(IsDot, domain, "");
    assert domain + "" == domain;
    forall i | 0 <= i < |cfg.domains|
      ensures EqIgnoreCase(cfg.domains[i], domain) <==> Spells(cfg.domains[i], domain)
    {
      SpellsIsLower(cfg.domains[i], domain);
    }
  }

  datatype Route =
    | ToMailbox(aliasId: Id, alias: string)
    | ToContact(contactId: Id, alias: string, contactEmail: string)

  /** Why a recipient is refused; the last is a storage failure. */
  datatype Reason = InvalidAddress | RelayDenied | NotTheMailbox | AliasDisabled | NoSuchAlias | LookupFailed

  datatype Routing = Routed(route: Route) | Refused(reason: Reason)

  ghost function RouteOf(t: Tables, cfg: Config, mailFrom: string, recipient: string): Routing {
    RouteSeen(t, t, cfg, mailFrom, recipient)
  }

  /** Reverse aliases are looked up before aliases, in a statement of its own: by the time
      the aliases are read the tables may have moved on to `later`. */
  ghost function RouteSeen(t: Tables, later: Tables, cfg: Config, mailFrom: string, recipient: string): Routing {
    match Parse(recipient)
    case None => Refused(InvalidAddress)
    case Some(r) =>
      if !OwnsDomain(cfg, r.domain) then Refused(RelayDenied) else RouteKey(t, later, mailFrom, r.Normalised())
  }

  ghost function RouteKey(t: Tables, later: Tables, mailFrom: string, key: string): Routing {
    match ContactBehind(t, key)
    case Some(i) => ThroughContact(t, mailFrom, i)
    case None => ToAlias(later, key)
  }

  ghost function ToAlias(t: Tables, key: string): Routing {
    match AliasAt(t, key)
    case None => Refused(NoSuchAlias)
    case Some(i) =>
      if !t.aliases[i].enabled then Refused(AliasDisabled) else Routed(ToMailbox(i, t.aliases[i].address))
  }

  /** Only the mailbox behind the alias may write through a reverse alias. */
  ghost function ThroughContact(t: Tables, mailFrom: string, i: Id): Routing
    requires Joined(t, i)
  {
    var c := t.contacts[i];
    var a := t.aliases[c.aliasId];
    if !EqIgnoreCase(t.mailboxes[a.mailboxId].email, Trim(mailFrom)) then Refused(NotTheMailbox)
    else if !a.enabled then Refused(AliasDisabled)
    else Routed(ToContact(i, a.address, c.email))
  }

  lemma ContactBehindIs(t: Tables, key: string, i: Id)
    requires UniqueReverse(t) && IsBehind(t, key, i)
    ensures ContactBehind(t, key) == Some(i)
  {
  }

  /** Mail to a reverse alias, however its address is written, reaches the contact if it
      comes from the mailbox and the alias is enabled, and is refused otherwise. */
  lemma RouteThroughReverseAlias(t: Tables, cfg: Config, i: Id, from: string, recipient: string)
    requires Consistent(t) && i in t.contacts
    requires Parse(recipient).Some? && Parse(recipient).value.Normalised() == t.contacts[i].reverseAlias
    requires IsServed(cfg, Parse(recipient).value.domain)
    ensures RouteOf(t, cfg, from, recipient) == ThroughContact(t, from, i)
  {
    hide Parse, OwnsDomain, IsKey, IsServed, GoodDomain;
    DomainHasNoAt(Parse(recipient).value);
    OwnedExactly(cfg, Parse(recipient).value.domain);
    ContactBehindIs(t, t.contacts[i].reverseAlias, i);
  }

  /** A reply addressed to the stored reverse alias comes home exactly when the reverse alias
      is its own lookup key under an owned domain, the sender is the mailbox (in any case),
      and the alias is enabled. */
  lemma ReplyComesHome(t: Tables, cfg: Config, i: Id, from: string)
    requires Consistent(t) && i in t.contacts
    ensures var c := t.contacts[i];
            var a := t.aliases[c.aliasId];
            RouteOf(t, cfg, from, c.reverseAlias) == Routed(ToContact(i, a.address, c.email))
            <==> IsKey(c.reverseAlias) && IsServed(cfg, Parse(c.reverseAlias).value.domain)
                 && EqIgnoreCase(t.mailboxes[a.mailboxId].email, Trim(from)) && a.enabled
  {
    hide Parse, OwnsDomain, EqIgnoreCase, Trim, Consistent, RouteKey, ForeignKeys, IsServed, GoodDomain;
    var ra := t.contacts[i].reverseAlias;
    ConsistentRefers(t, i);
    if Parse(ra).Some? {
      DomainHasNoAt(Parse(ra).value);
      OwnedExactly(cfg, Parse(ra).value.domain);
      OwnRoute(t, from, Parse(ra).value.Normalised(), i);
    }
  }

  /** A key routes to contact `i` only if it is that contact's reverse alias. */
  lemma OwnRoute(t: Tables, from: string, key: string, i: Id)
    requires UniqueReverse(t) && Joined(t, i)
    ensures key == t.contacts[i].reverseAlias ==> RouteKey(t, t, from, key) == ThroughContact(t, from, i)
    ensures key != t.contacts[i].reverseAlias ==>
              !(RouteKey(t, t, from, key).Routed? && RouteKey(t, t, from, key).route.ToContact?
                && RouteKey(t, t, from, key).route.contactId == i)
  {
    hide EqIgnoreCase, Trim;
    if key == t.contacts[i].reverseAlias {
      ContactBehindIs(t, key, i);
    }
  }

  lemma DefaultDomainIsOwned(cfg: Config)
    requires cfg.domains != [] && GoodDomain(cfg.domains[0])
    ensures IsServed(cfg, cfg.domains[0])
  {
    hide ValidDomain, Spells;
    SpellsIsLower(cfg.domains[0], cfg.domains[0]);
  }

  /** `{prefix}.{token}@{default domain}` for some token (src/contact/mod.rs:49-52). */
  predicate IsGenerated(reverseAlias: string, cfg: Config) {
    && cfg.domains != []
    && |reverseAlias| == |cfg.prefix| + 14 + |cfg.domains[0]|
    && var token := reverseAlias[|cfg.prefix| + 1..|cfg.prefix| + 13];
    && IsToken(token) && reverseAlias == ReverseAlias(cfg.prefix, token, cfg.domains[0])
  }

  lemma TokenInside(cfg: Config, token: string)
    requires cfg.domains != [] && IsToken(token)
    ensures IsGenerated(ReverseAlias(cfg.prefix, token, cfg.domains[0]), cfg)
  {
    var s := ReverseAlias(cfg.prefix, token, cfg.domains[0]);
    assert s[|cfg.prefix| + 1..|cfg.prefix| + 13] == token;
  }

  /** When replies can come home: prefix and default domain in normal form, and the domain
      that reverse aliases are under is served here. */
  predicate RepliesComeHome(cfg: Config) {
    && cfg.domains != [] && WellConfigured(cfg.prefix, cfg.domains[0])
    && IsServed(cfg, DomainPart(cfg.domains[0]))
  }

  /** Whatever token was drawn, the generated reverse alias leads back exactly when the
      configuration allows it. For a default domain without `@` that takes a short lower-case
      prefix and a valid lower-case domain. */
  lemma GeneratedAliasComesHome(t: Tables, cfg: Config, i: Id, from: string)
    requires Consistent(t) && i in t.contacts && IsGenerated(t.contacts[i].reverseAlias, cfg)
    ensures var c := t.contacts[i];
            var a := t.aliases[c.aliasId];
            RouteOf(t, cfg, from, c.reverseAlias) == Routed(ToContact(i, a.address, c.email))
            <==> RepliesComeHome(cfg) && EqIgnoreCase(t.mailboxes[a.mailboxId].email, Trim(from)) && a.enabled
    ensures '@' !in cfg.domains[0] ==>
              (RepliesComeHome(cfg) <==> |cfg.prefix| <= 51 && Plain(cfg.prefix) && GoodDomain(cfg.domains[0]))
  {
    hide Parse, OwnsDomain, EqIgnoreCase, Trim, WellConfigured, DomainPart, RouteOf, IsToken, Consistent, ReverseAlias,
         Plain, GoodDomain;
    ConsistentRefers(t, i);
    var ra := t.contacts[i].reverseAlias;
    ReplyComesHome(t, cfg, i, from);
    ReverseAliasIsKey(cfg.prefix, ra[|cfg.prefix| + 1..|cfg.prefix| + 13], cfg.domains[0]);
    if '@' !in cfg.domains[0] {
      WellConfiguredDomain(cfg.prefix, cfg.domains[0]);
      if GoodDomain(cfg.domains[0]) {
        DefaultDomainIsOwned(cfg);
      }
    }
  }

  lemma ConsistentRefers(t: Tables, i: Id)
    requires Consistent(t) && i in t.contacts
    ensures ForeignKeys(t) && UniqueReverse(t)
    ensures t.contacts[i].aliasId in t.aliases && t.aliases[t.contacts[i].aliasId].mailboxId in t.mailboxes
  {
  }

  /** Once a contact exists, in every later state in which its alias still exists mail to its
      reverse alias is routed to it exactly when the configuration allows it, the sender is
      the mailbox and the alias is enabled. */
  lemma HomeInEveryLaterState(t: Tables, t': Tables, cfg: Config, i: Id, from: string)
    requires Consistent(t) && Consistent(t') && Remembers(t, t')
    requires i in t.contacts && IsGenerated(t.contacts[i].reverseAlias, cfg) && t.contacts[i].aliasId in t'.aliases
    ensures var c := t.contacts[i];
            var a := t.aliases[c.aliasId];
            RouteOf(t', cfg, from, c.reverseAlias) == Routed(ToContact(i, a.address, c.email))
            <==> RepliesComeHome(cfg) && EqIgnoreCase(t.mailboxes[a.mailboxId].email, Trim(from))
                 && t'.aliases[c.aliasId].enabled
  {
    hide EqIgnoreCase, Trim, RouteOf, UniqueAliases, UniquePairs, UniqueReverse, StoredKeys, IsGenerated,
         RepliesComeHome;
    GeneratedAliasComesHome(t', cfg, i, from);
  }

  /** And it is never routed to anywhere else. */
  lemma ReverseAliasLeadsNowhereElse(t: Tables, cfg: Config, i: Id, from: string)
    requires Consistent(t) && i in t.contacts && IsGenerated(t.contacts[i].reverseAlias, cfg) && RepliesComeHome(cfg)
    ensures var c := t.contacts[i];
            var a := t.aliases[c.aliasId];
            RouteOf(t, cfg, from, c.reverseAlias)
            == if !EqIgnoreCase(t.mailboxes[a.mailboxId].email, Trim(from)) then Refused(NotTheMailbox)
               else if !a.enabled then Refused(AliasDisabled)
               else Routed(ToContact(i, a.address, c.email))
  {
    hide Parse, OwnsDomain, EqIgnoreCase, Trim, WellConfigured, DomainPart, RouteOf, IsToken, Consistent, ReverseAlias;
    ConsistentRefers(t, i);
    var ra := t.contacts[i].reverseAlias;
    ReverseAliasIsKey(cfg.prefix, ra[|cfg.prefix| + 1..|cfg.prefix| + 13], cfg.domains[0]);
    RouteThroughReverseAlias(t, cfg, i, from, ra);
  }

  // ---- Every contact's reverse alias was generated ----

  ghost predicate AllGenerated(t: Tables, cfg: Config) {
    forall i :: i in t.contacts ==> IsGenerated(t.contacts[i].reverseAlias, cfg)
  }

  /** The changes that the source makes: its one INSERT into contacts generates the address. */
  predicate Legal(c: Change, cfg: Config) {
    ValidChange(c) && (c.AddContact? ==> IsGenerated(c.reverseAlias, cfg))
  }

  lemma GeneratedStays(t: Tables, c: Change, cfg: Config)
    requires AllGenerated(t, cfg) && Legal(c, cfg)
    ensures AllGenerated(Apply(t, c), cfg)
  {
    hide IsGenerated, Canonical;
  }

  /** Without such a configuration nobody's mail is ever routed to a contact, whatever it is
      addressed to. */
  lemma NoReplyIsRouted(t: Tables, cfg: Config, from: string, recipient: string)
    requires Consistent(t) && AllGenerated(t, cfg) && !RepliesComeHome(cfg)
    ensures var r := RouteOf(t, cfg, from, recipient); !(r.Routed? && r.route.ToContact?)
  {
    hide Parse, OwnsDomain, EqIgnoreCase, Trim, WellConfigured, DomainPart, IsToken, Consistent, ReverseAlias, ToAlias,
         IsServed, GoodDomain, IsKey;
    var r := RouteOf(t, cfg, from, recipient);
    if r.Routed? && r.route.ToContact? {
      var a := Parse(recipient).value;
      var key := a.Normalised();
      if ContactBehind(t, key).None? {
        ToAliasIsNoContact(t, key);
      } else {
        var i := ContactBehind(t, key).value;
        assert IsBehind(t, key, i);
        KeyOfParsed(a);
        DomainHasNoAt(a);
        OwnedExactly(cfg, a.domain);
        ReverseAliasIsKey(cfg.prefix, key[|cfg.prefix| + 1..|cfg.prefix| + 13], cfg.domains[0]);
      }
    }
  }

  lemma KeyOfParsed(a: Address)
    requires Canonical(a)
    ensures IsKey(a.Normalised()) && Parse(a.Normalised()).value.domain == a.domain
  {
    hide Parse, Canonical;
    ParseNormalised(a);
  }

  lemma ToAliasIsNoContact(t: Tables, key: string)
    ensures var r := ToAlias(t, key); !(r.Routed? && r.route.ToContact?)
  {
    hide AliasAt;
  }

  /** The prefix is configured in upper case: no reply is ever routed. */
  lemma UpperCasePrefixExample(t: Tables, from: string, recipient: string)
    requires Consistent(t) && AllGenerated(t, Config(["example.com"], "CT"))
    ensures var r := RouteOf(t, Config(["example.com"], "CT"), from, recipient); !(r.Routed? && r.route.ToContact?)
  {
    hide RouteOf, Consistent, IsGenerated;
    var cfg := Config(["example.com"], "CT");
    assert cfg.prefix[0] == 'C' && !PlainChar('C');
    NoReplyIsRouted(t, cfg, from, recipient);
  }

  // ---- What the administration's statements mean for routing ----

  lemma NotBehind(t: Tables, key: string)
    requires forall i :: i in t.contacts ==> t.contacts[i].reverseAlias != key
    ensures ContactBehind(t, key) == None
  {
  }

  /** Mail for a domain that is not configured, in any case, is never taken, whatever the tables
      hold. */
  lemma ForeignDomainIsRefused(t: Tables, later: Tables, cfg: Config, from: string, recipient: string)
    requires Parse(recipient).Some? && !IsServed(cfg, Parse(recipient).value.domain)
    ensures RouteSeen(t, later, cfg, from, recipient) == Refused(RelayDenied)
  {
    hide Parse, OwnsDomain, IsServed, GoodDomain;
    DomainHasNoAt(Parse(recipient).value);
    OwnedExactly(cfg, Parse(recipient).value.domain);
  }

  /** Mail for a configured domain that is not to a reverse alias is decided by the alias alone,
      however its address is written and whoever writes. */
  lemma AliasDecides(t: Tables, cfg: Config, from: string, recipient: string)
    requires Consistent(t) && Parse(recipient).Some? && IsServed(cfg, Parse(recipient).value.domain)
    requires forall i :: i in t.contacts ==> t.contacts[i].reverseAlias != Parse(recipient).value.Normalised()
    ensures var key, r := Parse(recipient).value.Normalised(), RouteOf(t, cfg, from, recipient);
            && (forall i :: i in t.aliases && t.aliases[i].address == key ==>
                  r == if t.aliases[i].enabled then Routed(ToMailbox(i, key)) else Refused(AliasDisabled))
            && ((forall i :: i in t.aliases ==> t.aliases[i].address != key) ==> r == Refused(NoSuchAlias))
  {
    hide Parse, OwnsDomain, IsServed, GoodDomain, Consistent;
    var a := Parse(recipient).value;
    DomainHasNoAt(a);
    OwnedExactly(cfg, a.domain);
    NotBehind(t, a.Normalised());
    ConsistentParts(t);
    Unambiguous(t, a.Normalised());
    forall i | i in t.aliases && t.aliases[i].address == a.Normalised()
      ensures AliasAt(t, a.Normalised()) == Some(i)
    {
      assert IsAliasAt(t, a.Normalised(), i);
    }
  }

  /** A new alias under any configured domain is routed to its mailbox right away, whoever
      writes, unless its address is already some contact's reverse alias. */
  lemma NewAliasIsRouted(t: Tables, cfg: Config, address: Address, mailboxId: Id, from: string)
    requires Consistent(t) && Canonical(address) && IsServed(cfg, address.domain)
    requires InsertAlias(t, address, mailboxId).Some?
    requires forall i :: i in t.contacts ==> t.contacts[i].reverseAlias != address.Normalised()
    ensures var t' := InsertAlias(t, address, mailboxId).value;
            Consistent(t')
            && RouteOf(t', cfg, from, address.Print()) == Routed(ToMailbox(t.nextId, address.Normalised()))
  {
    hide Parse, Canonical, IsServed, IsKey, Consistent, RouteOf;
    var t' := InsertAlias(t, address, mailboxId).value;
    KeysOfChange(AddAlias(address, mailboxId));
    ParsePrint(address);
    InsertsKeepConsistent(t, address, mailboxId);
    assert t'.aliases[t.nextId].address == address.Normalised() && t'.aliases[t.nextId].enabled;
    AliasDecides(t', cfg, from, address.Print());
  }

  lemma ConsistentParts(t: Tables)
    requires Consistent(t)
    ensures ForeignKeys(t) && UniqueAliases(t) && UniqueReverse(t)
  {
  }

  ghost predicate Through(t: Tables, r: Routing, id: Id) {
    match r
    case Routed(ToMailbox(a, _)) => a == id
    case Routed(ToContact(i, _, _)) => i in t.contacts && t.contacts[i].aliasId == id
    case Refused(_) => false
  }

  /** Disabling or deleting an alias closes exactly it: mail to it and through its reverse
      aliases is routed no more, and all other mail goes where it went before. */
  lemma ClosingAnAlias(t: Tables, cfg: Config, id: Id, from: string, recipient: string)
    requires Consistent(t)
    ensures Consistent(SetAliasEnabled(t, id, false)) && Consistent(DeleteAlias(t, id))
    ensures var before, disabled := RouteOf(t, cfg, from, recipient), RouteOf(SetAliasEnabled(t, id, false), cfg,
            from, recipient);
            !Through(t, disabled, id) && (before.Routed? && !Through(t, before, id) ==> disabled == before)
    ensures var before, deleted := RouteOf(t, cfg, from, recipient), RouteOf(DeleteAlias(t, id), cfg, from, recipient);
            !Through(t, deleted, id) && (before.Routed? && !Through(t, before, id) ==> deleted == before)
  {
    hide Parse, OwnsDomain, IsKey, Consistent, RouteKey, Through, SetAliasEnabled, DeleteAlias;
    UpdatesKeepConsistent(t, id, false, Blocked);
    DeletesKeepConsistent(t, id);
    ConsistentParts(t);
    ConsistentParts(SetAliasEnabled(t, id, false));
    ConsistentParts(DeleteAlias(t, id));
    if Parse(recipient).Some? {
      DisablingClosesKey(t, id, from, Parse(recipient).value.Normalised());
      DeletingClosesKey(t, id, from, Parse(recipient).value.Normalised());
    }
    NotThrough(t, id, RouteOf(t, cfg, from, recipient));
    NotThrough(t, id, RouteOf(SetAliasEnabled(t, id, false), cfg, from, recipient));
    NotThrough(t, id, RouteOf(DeleteAlias(t, id), cfg, from, recipient));
  }

  lemma NotThrough(t: Tables, id: Id, r: Routing)
    ensures r.Refused? ==> !Through(t, r, id)
  {
  }

  lemma DisablingClosesKey(t: Tables, id: Id, from: string, key: string)
    requires Consistent(t) && Consistent(SetAliasEnabled(t, id, false))
    ensures var before, r := RouteKey(t, t, from, key), RouteKey(SetAliasEnabled(t, id, false), SetAliasEnabled(t, id,
            false), from, key);
            !Through(t, r, id) && (before.Routed? && !Through(t, before, id) ==> r == before)
  {
    hide EqIgnoreCase, Trim, IsKey, UniquePairs, StoredKeys, UsedIds;
    var t' := SetAliasEnabled(t, id, false);
    assert forall i :: IsBehind(t', key, i) <==> IsBehind(t, key, i);
    assert forall i :: IsAliasAt(t', key, i) <==> IsAliasAt(t, key, i);
    Unambiguous(t, key);
    Unambiguous(t', key);
  }

  lemma DeletingClosesKey(t: Tables, id: Id, from: string, key: string)
    requires Consistent(t) && Consistent(DeleteAlias(t, id))
    ensures var before, r := RouteKey(t, t, from, key), RouteKey(DeleteAlias(t, id), DeleteAlias(t, id), from, key);
            !Through(t, r, id) && (before.Routed? && !Through(t, before, id) ==> r == before)
  {
    hide EqIgnoreCase, Trim, IsKey, Consistent, ContactBehind, AliasAt, ToAlias, ThroughContact;
    var t' := DeleteAlias(t, id);
    ConsistentParts(t);
    ConsistentParts(t');
    ContactAfterDelete(t, id, from, key);
    AliasAfterDelete(t, id, key);
  }

  lemma ContactAfterDelete(t: Tables, id: Id, from: string, key: string)
    requires Consistent(t) && Consistent(DeleteAlias(t, id))
    ensures ContactBehind(DeleteAlias(t, id), key)
            == match ContactBehind(t, key)
               case Some(i) => if t.contacts[i].aliasId == id then None else Some(i)
               case None => None
    ensures match ContactBehind(t, key)
            case Some(i) =>
              && (t.contacts[i].aliasId == id ==>
                    (ThroughContact(t, from, i).Routed? ==> Through(t, ThroughContact(t, from, i), id)))
              && (t.contacts[i].aliasId != id ==>
                    (ThroughContact(DeleteAlias(t, id), from, i) == ThroughContact(t, from, i)
                     && !Through(t, ThroughContact(t, from, i), id)))
            case None => true
  {
    hide EqIgnoreCase, Trim, IsKey, UniqueAliases, UniquePairs, StoredKeys, UsedIds;
    var t' := DeleteAlias(t, id);
    assert forall i: Id :: IsBehind(t', key, i) <==> IsBehind(t, key, i) && t.contacts[i].aliasId != id;
    Unambiguous(t', key);
  }

  lemma AliasAfterDelete(t: Tables, id: Id, key: string)
    requires Consistent(t) && Consistent(DeleteAlias(t, id))
    ensures var before, r := ToAlias(t, key), ToAlias(DeleteAlias(t, id), key);
            !Through(t, r, id) && (!Through(t, before, id) && before.Routed? ==> r == before)
  {
    hide IsKey, UniquePairs, UniqueReverse, StoredKeys, UsedIds;
    var t' := DeleteAlias(t, id);
    assert forall i: Id :: IsAliasAt(t', key, i) <==> IsAliasAt(t, key, i) && i != id;
    Unambiguous(t', key);
  }

  /** A lookup finds the one row there is. */
  lemma Unambiguous(t: Tables, key: string)
    requires UniqueAliases(t) && UniqueReverse(t)
    ensures forall i: Id :: IsBehind(t, key, i) ==> ContactBehind(t, key) == Some(i)
    ensures forall a: Id :: IsAliasAt(t, key, a) ==> AliasAt(t, key) == Some(a)
  {
  }

  /** Counters never influence a route. */
  lemma CountingChangesNoRoute(t: Tables, cfg: Config, id: Id, counter: AliasCounter, from: string, recipient: string)
    requires Consistent(t)
    ensures var t' := RecordActivity(t, id, counter);
            Consistent(t') && RouteOf(t', cfg, from, recipient) == RouteOf(t, cfg, from, recipient)
  {
    hide Parse, OwnsDomain, IsKey, EqIgnoreCase, Trim, Consistent, ContactBehind, AliasAt, RecordActivity;
    UpdatesKeepConsistent(t, id, true, counter);
    ConsistentParts(t);
    CountedTables(t, id, counter);
    if Parse(recipient).Some? {
      CountedRoute(t, id, counter, from, Parse(recipient).value.Normalised());
    }
  }

  lemma CountedTables(t: Tables, id: Id, counter: AliasCounter)
    ensures var t' := RecordActivity(t, id, counter);
            && t'.mailboxes == t.mailboxes && t'.contacts == t.contacts && t'.aliases.Keys == t.aliases.Keys
            && forall a :: a in t.aliases ==>
                 t'.aliases[a].address == t.aliases[a].address && t'.aliases[a].enabled == t.aliases[a].enabled
                 && t'.aliases[a].mailboxId == t.aliases[a].mailboxId
  {
  }

  lemma CountedRoute(t: Tables, id: Id, counter: AliasCounter, from: string, key: string)
    requires Consistent(t) && Consistent(RecordActivity(t, id, counter))
    ensures var t' := RecordActivity(t, id, counter); RouteKey(t', t', from, key) == RouteKey(t, t, from, key)
  {
    hide EqIgnoreCase, Trim, RecordActivity, IsKey, UniquePairs, StoredKeys, UsedIds;
    var t' := RecordActivity(t, id, counter);
    CountedTables(t, id, counter);
    assert forall i :: IsBehind(t', key, i) <==> IsBehind(t, key, i);
    assert forall i :: IsAliasAt(t', key, i) <==> IsAliasAt(t, key, i);
    Unambiguous(t, key);
    Unambiguous(t', key);
  }
}
