/** The mailboxes, aliases and contacts tables as values: their SQL constraints
    (migrations/20260923000001_initial_schema.sql:11-44) and the statements of
    src/mailbox/mod.rs, src/alias/mod.rs and src/contact/mod.rs that change them. */
module Tables {
  import opened Basics
  import opened EmailAddress

  datatype Mailbox = Mailbox(email: string)

  datatype Alias = Alias(
    address: string, mailboxId: Id, enabled: bool, forwards: nat, replies: nat, blocked: nat)

  datatype Contact = Contact(aliasId: Id, email: string, name: Option<string>, reverseAlias: string)

  /** Identifiers are drawn from a counter: a fresh UUID never repeats one used before. */
  datatype Tables = Tables(
    mailboxes: map<Id, Mailbox>, aliases: map<Id, Alias>, contacts: map<Id, Contact>, nextId: Id)

  ghost predicate ForeignKeys(t: Tables) {
    && (forall i :: i in t.aliases ==> t.aliases[i].mailboxId in t.mailboxes)
    && (forall i :: i in t.contacts ==> t.contacts[i].aliasId in t.aliases)
  }

  ghost predicate UniqueAliases(t: Tables) {
    forall i, j :: i in t.aliases && j in t.aliases && t.aliases[i].address == t.aliases[j].address ==> i == j
  }

  predicate SamePair(c: Contact, d: Contact) { c.aliasId == d.aliasId && c.email == d.email }

  ghost predicate UniquePairs(t: Tables) {
    forall i, j :: i in t.contacts && j in t.contacts && SamePair(t.contacts[i], t.contacts[j]) ==> i == j
  }

  ghost predicate UniqueReverse(t: Tables) {
    forall i, j ::
      i in t.contacts && j in t.contacts && t.contacts[i].reverseAlias == t.contacts[j].reverseAlias ==> i == j
  }

  ghost predicate UsedIds(t: Tables) {
    && (forall i :: i in t.mailboxes ==> i < t.nextId)
    && (forall i :: i in t.aliases ==> i < t.nextId)
    && (forall i :: i in t.contacts ==> i < t.nextId)
  }

  /** Addresses are stored as lookup keys. */
  ghost predicate StoredKeys(t: Tables) {
    && (forall i :: i in t.mailboxes ==> IsKey(t.mailboxes[i].email))
    && (forall i :: i in t.aliases ==> IsKey(t.aliases[i].address))
    && (forall i :: i in t.contacts ==> IsKey(t.contacts[i].email))
  }

  ghost predicate Consistent(t: Tables) {
    ForeignKeys(t) && UniqueAliases(t) && UniquePairs(t) && UniqueReverse(t) && UsedIds(t) && StoredKeys(t)
  }

  // ---- Lookups (WHERE on a unique column, JOINed with what the row refers to) ----

  ghost predicate IsAliasAt(t: Tables, key: string, i: Id) {
    i in t.aliases && t.aliases[i].address == key && t.aliases[i].mailboxId in t.mailboxes
  }

  ghost function AliasAt(t: Tables, key: string): Option<Id> {
    if exists i :: IsAliasAt(t, key, i) then var i :| IsAliasAt(t, key, i); Some(i) else None
  }

  ghost predicate IsContactOf(t: Tables, aliasId: Id, email: string, i: Id) {
    i in t.contacts && t.contacts[i].aliasId == aliasId && t.contacts[i].email == email
  }

  ghost function ContactOf(t: Tables, aliasId: Id, email: string): Option<Id> {
    if exists i :: IsContactOf(t, aliasId, email, i) then var i :| IsContactOf(t, aliasId, email, i); Some(i) else None
  }

  /** The contact with its alias and mailbox. */
  predicate Joined(t: Tables, i: Id) {
    i in t.contacts && t.contacts[i].aliasId in t.aliases && t.aliases[t.contacts[i].aliasId].mailboxId in t.mailboxes
  }

  ghost predicate IsBehind(t: Tables, key: string, i: Id) {
    Joined(t, i) && t.contacts[i].reverseAlias == key
  }

  ghost function ContactBehind(t: Tables, key: string): Option<Id> {
    if exists i :: IsBehind(t, key, i) then var i :| IsBehind(t, key, i); Some(i) else None
  }

  // ---- Statements; `None` is a statement that fails ----

  function InsertMailbox(t: Tables, email: Address): Option<Tables> {
    var row := Mailbox(email.Normalised());
    if exists i :: i in t.mailboxes && t.mailboxes[i].email == row.email then None
    else Some(t.(mailboxes := t.mailboxes[t.nextId := row], nextId := t.nextId + 1))
  }

  function DeleteMailbox(t: Tables, id: Id): Tables {
    var aliases := map i | i in t.aliases && t.aliases[i].mailboxId != id :: t.aliases[i];
    t.(mailboxes := t.mailboxes - {id},
       aliases := aliases,
       contacts := map i | i in t.contacts && t.contacts[i].aliasId in aliases :: t.contacts[i])
  }

  function InsertAlias(t: Tables, address: Address, mailboxId: Id): Option<Tables> {
    var row := Alias(address.Normalised(), mailboxId, true, 0, 0, 0);
    if mailboxId !in t.mailboxes || exists i :: i in t.aliases && t.aliases[i].address == row.address then None
    else Some(t.(aliases := t.aliases[t.nextId := row], nextId := t.nextId + 1))
  }

  function SetAliasEnabled(t: Tables, id: Id, enabled: bool): Tables {
    if id in t.aliases then t.(aliases := t.aliases[id := t.aliases[id].(enabled := enabled)]) else t
  }

  function DeleteAlias(t: Tables, id: Id): Tables {
    t.(aliases := t.aliases - {id},
       contacts := map i | i in t.contacts && t.contacts[i].aliasId != id :: t.contacts[i])
  }

  datatype AliasCounter = Forwarded | Replied | Blocked

  function RecordActivity(t: Tables, id: Id, counter: AliasCounter): Tables {
    if id !in t.aliases then t else
    var a := t.aliases[id];
    t.(aliases := t.aliases[id :=
      match counter
      case Forwarded => a.(forwards := a.forwards + 1)
      case Replied => a.(replies := a.replies + 1)
      case Blocked => a.(blocked := a.blocked + 1)])
  }

  predicate Taken(t: Tables, aliasId: Id, email: string) {
    exists i :: i in t.contacts && t.contacts[i].aliasId == aliasId && t.contacts[i].email == email
  }

  predicate Clashes(t: Tables, reverseAlias: string) {
    exists i :: i in t.contacts && t.contacts[i].reverseAlias == reverseAlias
  }

  /** INSERT ... ON CONFLICT (alias_id, email) DO NOTHING (src/contact/mod.rs:56-71). */
  function InsertContact(t: Tables, row: Contact): Option<Tables> {
    if row.aliasId !in t.aliases then None
    else if Taken(t, row.aliasId, row.email) then Some(t)
    else if Clashes(t, row.reverseAlias) then None
    else Some(t.(contacts := t.contacts[t.nextId := row], nextId := t.nextId + 1))
  }

  // ---- Every way the tables change ----

  datatype Change =
    | AddMailbox(email: Address) | RemoveMailbox(id: Id)
    | AddAlias(address: Address, mailboxId: Id) | Toggle(id: Id, enabled: bool) | RemoveAlias(id: Id)
    | Count(id: Id, counter: AliasCounter)
    | AddContact(aliasId: Id, sender: Address, name: Option<string>, reverseAlias: string)

  function OrElse(r: Option<Tables>, t: Tables): Tables { if r.Some? then r.value else t }

  predicate ValidChange(c: Change) {
    match c
    case AddMailbox(a) => Canonical(a)
    case AddAlias(a, _) => Canonical(a)
    case AddContact(_, a, _, _) => Canonical(a)
    case _ => true
  }

  function Apply(t: Tables, c: Change): Tables {
    match c
    case AddMailbox(email) => OrElse(InsertMailbox(t, email), t)
    case RemoveMailbox(id) => DeleteMailbox(t, id)
    case AddAlias(address, mailboxId) => OrElse(InsertAlias(t, address, mailboxId), t)
    case Toggle(id, enabled) => SetAliasEnabled(t, id, enabled)
    case RemoveAlias(id) => DeleteAlias(t, id)
    case Count(id, counter) => RecordActivity(t, id, counter)
    case AddContact(aliasId, sender, name, reverseAlias) =>
      OrElse(InsertContact(t, Contact(aliasId, sender.Normalised(), name, reverseAlias)), t)
  }

  // ---- What each statement does, row by row ----

  /** One counter goes up by one, and nothing else changes. */
  lemma CountersExactly(t: Tables, id: Id, counter: AliasCounter)
    ensures var t' := RecordActivity(t, id, counter);
            && t'.mailboxes == t.mailboxes && t'.contacts == t.contacts && t'.nextId == t.nextId
            && t'.aliases.Keys == t.aliases.Keys
            && (forall i :: i in t.aliases && i != id ==> t'.aliases[i] == t.aliases[i])
            && (id in t.aliases ==>
                  var a, a' := t.aliases[id], t'.aliases[id];
                  && a'.address == a.address && a'.mailboxId == a.mailboxId && a'.enabled == a.enabled
                  && a'.forwards == a.forwards + (if counter.Forwarded? then 1 else 0)
                  && a'.replies == a.replies + (if counter.Replied? then 1 else 0)
                  && a'.blocked == a.blocked + (if counter.Blocked? then 1 else 0))
  {
  }

  /** One alias is enabled or disabled, and nothing else changes. */
  lemma ToggleExactly(t: Tables, id: Id, enabled: bool)
    ensures var t' := SetAliasEnabled(t, id, enabled);
            && t'.mailboxes == t.mailboxes && t'.contacts == t.contacts && t'.nextId == t.nextId
            && t'.aliases.Keys == t.aliases.Keys
            && (forall i :: i in t.aliases && i != id ==> t'.aliases[i] == t.aliases[i])
            && (id in t.aliases ==>
                  t'.aliases[id].enabled == enabled && t'.aliases[id] == t.aliases[id].(enabled := enabled))
  {
  }

  /** Deleting a mailbox takes its aliases and their contacts along, deleting an alias its
      contacts; every other row stays as it was, and identifiers are not used again. */
  lemma DeletesExactly(t: Tables, id: Id)
    requires ForeignKeys(t)
    ensures var t' := DeleteMailbox(t, id);
            && t'.nextId == t.nextId
            && (forall i :: i in t'.mailboxes <==> i in t.mailboxes && i != id)
            && (forall i :: i in t'.aliases <==> i in t.aliases && t.aliases[i].mailboxId != id)
            && (forall i :: i in t'.contacts <==> i in t.contacts && t.aliases[t.contacts[i].aliasId].mailboxId != id)
            && (forall i :: i in t'.mailboxes ==> t'.mailboxes[i] == t.mailboxes[i])
            && (forall i :: i in t'.aliases ==> t'.aliases[i] == t.aliases[i])
            && (forall i :: i in t'.contacts ==> t'.contacts[i] == t.contacts[i])
    ensures var t' := DeleteAlias(t, id);
            && t'.nextId == t.nextId && t'.mailboxes == t.mailboxes
            && (forall i :: i in t'.aliases <==> i in t.aliases && i != id)
            && (forall i :: i in t'.contacts <==> i in t.contacts && t.contacts[i].aliasId != id)
            && (forall i :: i in t'.aliases ==> t'.aliases[i] == t.aliases[i])
            && (forall i :: i in t'.contacts ==> t'.contacts[i] == t.contacts[i])
  {
  }

  /** A contact goes in exactly if its alias is there, the alias has none for that address, and
      no contact has that reverse alias; if the alias has one already the statement succeeds
      and changes nothing. */
  lemma ContactInsertExactly(t: Tables, row: Contact)
    ensures var taken := exists i :: i in t.contacts && SamePair(t.contacts[i], row);
            var clashes := exists i :: i in t.contacts && t.contacts[i].reverseAlias == row.reverseAlias;
            InsertContact(t, row) ==
              if row.aliasId !in t.aliases || (!taken && clashes) then None
              else if taken then Some(t)
              else Some(t.(contacts := t.contacts[t.nextId := row], nextId := t.nextId + 1))
  {
    if i :| i in t.contacts && SamePair(t.contacts[i], row) {
      assert Taken(t, row.aliasId, row.email);
    }
  }

  /** An alias goes in exactly if its mailbox is there and the address is free: enabled, under
      its lookup key, with nothing counted. A mailbox goes in if its address is free. */
  lemma InsertsExactly(t: Tables, address: Address, mailboxId: Id)
    ensures var key := address.Normalised();
            var row := Alias(key, mailboxId, true, 0, 0, 0);
            InsertAlias(t, address, mailboxId) ==
              if mailboxId in t.mailboxes && forall i :: i in t.aliases ==> t.aliases[i].address != key
              then Some(t.(aliases := t.aliases[t.nextId := row], nextId := t.nextId + 1)) else None
    ensures var key := address.Normalised();
            InsertMailbox(t, address) ==
              if forall i :: i in t.mailboxes ==> t.mailboxes[i].email != key
              then Some(t.(mailboxes := t.mailboxes[t.nextId := Mailbox(key)], nextId := t.nextId + 1)) else None
  {
  }

  lemma KeysOfChange(c: Change)
    requires ValidChange(c)
    ensures c.AddMailbox? ==> IsKey(c.email.Normalised())
    ensures c.AddAlias? ==> IsKey(c.address.Normalised())
    ensures c.AddContact? ==> IsKey(c.sender.Normalised())
  {
    hide Parse, Canonical;
    match c
    case AddMailbox(a) => ParseNormalised(a);
    case AddAlias(a, _) => ParseNormalised(a);
    case AddContact(_, a, _, _) => ParseNormalised(a);
    case _ =>
  }

  lemma InsertsKeepConsistent(t: Tables, email: Address, mailboxId: Id)
    requires Consistent(t) && IsKey(email.Normalised())
    ensures InsertMailbox(t, email).Some? ==> Consistent(InsertMailbox(t, email).value)
    ensures InsertAlias(t, email, mailboxId).Some? ==> Consistent(InsertAlias(t, email, mailboxId).value)
  {
    hide IsKey;
  }

  lemma InsertContactKeepsConsistent(t: Tables, row: Contact)
    requires Consistent(t) && IsKey(row.email)
    ensures InsertContact(t, row).Some? ==> Consistent(InsertContact(t, row).value)
  {
    hide IsKey;
  }

  lemma DeletesKeepConsistent(t: Tables, id: Id)
    requires Consistent(t)
    ensures Consistent(DeleteMailbox(t, id)) && Consistent(DeleteAlias(t, id))
  {
    hide IsKey;
  }

  lemma UpdatesKeepConsistent(t: Tables, id: Id, enabled: bool, counter: AliasCounter)
    requires Consistent(t)
    ensures Consistent(SetAliasEnabled(t, id, enabled)) && Consistent(RecordActivity(t, id, counter))
  {
    hide IsKey;
  }

  /** Every statement keeps every constraint. */
  lemma ApplyKeepsConsistent(t: Tables, c: Change)
    requires Consistent(t) && ValidChange(c)
    ensures Consistent(Apply(t, c))
  {
    hide Consistent, IsKey, Canonical, InsertMailbox, InsertAlias, InsertContact, DeleteMailbox, DeleteAlias,
         SetAliasEnabled, RecordActivity;
    KeysOfChange(c);
    match c
    case AddMailbox(email) => InsertsKeepConsistent(t, email, 0);
    case RemoveMailbox(id) => DeletesKeepConsistent(t, id);
    case AddAlias(address, mailboxId) => InsertsKeepConsistent(t, address, mailboxId);
    case Toggle(id, enabled) => UpdatesKeepConsistent(t, id, enabled, Blocked);
    case RemoveAlias(id) => DeletesKeepConsistent(t, id);
    case Count(id, counter) => UpdatesKeepConsistent(t, id, true, counter);
    case AddContact(aliasId, sender, name, reverseAlias) =>
      InsertContactKeepsConsistent(t, Contact(aliasId, sender.Normalised(), name, reverseAlias));
  }

  /** What later states may not take back: a contact and its alias stay as they were, up to
      the enabled flag and the counters, for as long as the alias exists. */
  ghost predicate Remembers(t: Tables, t': Tables) {
    && t.nextId <= t'.nextId
    && (forall i :: i in t'.aliases && i < t.nextId ==>
          i in t.aliases && t'.aliases[i].address == t.aliases[i].address
          && t'.aliases[i].mailboxId == t.aliases[i].mailboxId)
    && (forall i :: i in t'.mailboxes && i < t.nextId ==> i in t.mailboxes && t'.mailboxes[i] == t.mailboxes[i])
    && (forall i :: i in t'.contacts && i < t.nextId ==> i in t.contacts && t'.contacts[i] == t.contacts[i])
    && (forall i :: i in t.contacts && t.contacts[i].aliasId in t'.aliases ==>
          i in t'.contacts && t'.contacts[i] == t.contacts[i])
  }

  lemma ApplyRemembers(t: Tables, c: Change)
    requires Consistent(t)
    ensures Remembers(t, Apply(t, c))
  {
    hide IsKey, Canonical, UniqueAliases, UniquePairs, UniqueReverse;
  }

  lemma RemembersTransitive(t: Tables, t': Tables, t'': Tables)
    requires Consistent(t) && Remembers(t, t') && Remembers(t', t'')
    ensures Remembers(t, t'')
  {
    hide IsKey, UniqueAliases, UniquePairs, UniqueReverse;
    forall i | i in t.contacts && t.contacts[i].aliasId in t''.aliases
      ensures i in t''.contacts && t''.contacts[i] == t.contacts[i]
    {
      assert t.contacts[i].aliasId < t.nextId <= t'.nextId;
    }
  }

  function ApplyAll(t: Tables, cs: seq<Change>): Tables {
    if cs == [] then t else Apply(ApplyAll(t, cs[..|cs| - 1]), cs[|cs| - 1])
  }

  lemma {:induction false} AnyHistory(t: Tables, cs: seq<Change>)
    requires Consistent(t) && forall i :: 0 <= i < |cs| ==> ValidChange(cs[i])
    ensures Consistent(ApplyAll(t, cs)) && Remembers(t, ApplyAll(t, cs))
  {
    hide Consistent, Remembers, Apply, ValidChange;
    RemembersSelf(t);
    if cs != [] {
      var n := |cs| - 1;
      AnyHistory(t, cs[..n]);
      ApplyKeepsConsistent(ApplyAll(t, cs[..n]), cs[n]);
      ApplyRemembers(ApplyAll(t, cs[..n]), cs[n]);
      RemembersTransitive(t, ApplyAll(t, cs[..n]), ApplyAll(t, cs));
    }
  }

  lemma RemembersSelf(t: Tables)
    ensures Remembers(t, t)
  {
  }
}
