/** Any number of connections running get_or_create_contact at once, one SQL statement at a
    time: src/contact/mod.rs:34-105. */
module ContactRace {
  import opened Basics
  import opened EmailAddress
  import T = Tables

  /** Where a call stands between its three statements. */
  datatype Progress = Finding | Inserting | Rereading | Returned(id: Id, contact: T.Contact) | Failed

  datatype Call = Call(aliasId: Id, sender: Address, name: Option<string>, progress: Progress) {
    function Email(): string { sender.Normalised() }
  }

  datatype World = World(tables: T.Tables, calls: seq<Call>)

  datatype Step =
    | Start(aliasId: Id, sender: Address, name: Option<string>)
    | Find(k: nat)
    | Insert(k: nat, reverseAlias: string, clashFirst: bool)
    | Reread(k: nat)
    | Break(k: nat)
    | Other(change: T.Change)

  ghost predicate Enabled(w: World, s: Step) {
    match s
    case Start(_, sender, _) => Canonical(sender)
    case Find(k) => k < |w.calls| && w.calls[k].progress.Finding?
    case Insert(k, _, _) => k < |w.calls| && w.calls[k].progress.Inserting?
    case Reread(k) => k < |w.calls| && w.calls[k].progress.Rereading?
    case Break(k) => k < |w.calls| && !w.calls[k].progress.Returned?
    case Other(c) => T.ValidChange(c)
  }

  /** What a SELECT for the call's pair makes of it. */
  ghost function Looked(t: T.Tables, c: Call, otherwise: Progress): Call {
    match T.ContactOf(t, c.aliasId, c.Email())
    case Some(i) => c.(progress := Returned(i, t.contacts[i]))
    case None => c.(progress := otherwise)
  }

  /** The INSERT; when the row would also clash on the reverse alias, either constraint may
      be noticed first. */
  function Inserted(t: T.Tables, c: Call, reverseAlias: string, clashFirst: bool): Option<T.Tables> {
    if clashFirst && T.Clashes(t, reverseAlias) then None
    else T.InsertContact(t, T.Contact(c.aliasId, c.Email(), c.name, reverseAlias))
  }

  ghost function Take(w: World, s: Step): World
    requires Enabled(w, s)
  {
    match s
    case Start(aliasId, sender, name) => w.(calls := w.calls + [Call(aliasId, sender, name, Finding)])
    case Find(k) => w.(calls := w.calls[k := Looked(w.tables, w.calls[k], Inserting)])
    case Insert(k, reverseAlias, clashFirst) =>
      var r := Inserted(w.tables, w.calls[k], reverseAlias, clashFirst);
      if r == None then w.(calls := w.calls[k := w.calls[k].(progress := Failed)])
      else World(r.value, w.calls[k := w.calls[k].(progress := Rereading)])
    case Reread(k) => w.(calls := w.calls[k := Looked(w.tables, w.calls[k], Failed)])
    case Break(k) => w.(calls := w.calls[k := w.calls[k].(progress := Failed)])
    case Other(c) => w.(tables := T.Apply(w.tables, c))
  }

  predicate Deletes(s: Step) { s.Other? && (s.change.RemoveMailbox? || s.change.RemoveAlias?) }

  ghost predicate Run(ws: seq<World>, ss: seq<Step>) {
    && |ws| == |ss| + 1
    && forall i :: 0 <= i < |ss| ==> Enabled(ws[i], ss[i]) && ws[i + 1] == Take(ws[i], ss[i])
  }

  /** A run from a consistent database with no call under way and no deletion. */
  ghost predicate QuietRun(ws: seq<World>, ss: seq<Step>) {
    && Run(ws, ss) && T.Consistent(ws[0].tables) && ws[0].calls == []
    && forall i :: 0 <= i < |ss| ==> !Deletes(ss[i])
  }

  ghost predicate CallSettled(t: T.Tables, c: Call) {
    && Canonical(c.sender)
    && (c.progress.Rereading? ==> T.Taken(t, c.aliasId, c.Email()))
    && (c.progress.Returned? ==>
          T.IsContactOf(t, c.aliasId, c.Email(), c.progress.id) && t.contacts[c.progress.id] == c.progress.contact)
  }

  ghost predicate Settled(w: World) {
    T.Consistent(w.tables) && forall k :: 0 <= k < |w.calls| ==> CallSettled(w.tables, w.calls[k])
  }

  ghost predicate Grows(t: T.Tables, t': T.Tables) {
    forall i :: i in t.contacts ==> i in t'.contacts && t'.contacts[i] == t.contacts[i]
  }

  lemma ChangeGrows(t: T.Tables, c: T.Change)
    requires T.Consistent(t) && !c.RemoveMailbox? && !c.RemoveAlias?
    ensures Grows(t, T.Apply(t, c))
  {
    hide IsKey;
  }

  lemma GrowthSettles(t: T.Tables, t': T.Tables, c: Call)
    requires CallSettled(t, c) && Grows(t, t')
    ensures CallSettled(t', c)
  {
    hide Canonical;
  }

  lemma InsertedSettles(t: T.Tables, c: Call, reverseAlias: string, clashFirst: bool)
    requires T.Consistent(t) && CallSettled(t, c)
    ensures var r := Inserted(t, c, reverseAlias, clashFirst);
            r.Some? ==> T.Consistent(r.value) && Grows(t, r.value) && T.Taken(r.value, c.aliasId, c.Email())
  {
    hide IsKey, Canonical, T.Consistent, T.InsertContact, T.Taken;
    InsertKeeps(t, c, reverseAlias, clashFirst);
    InsertGrows(t, T.Contact(c.aliasId, c.Email(), c.name, reverseAlias));
  }

  lemma InsertGrows(t: T.Tables, row: T.Contact)
    requires T.Consistent(t)
    ensures var r := T.InsertContact(t, row);
            r.Some? ==> Grows(t, r.value) && T.Taken(r.value, row.aliasId, row.email)
  {
    hide IsKey;
    var r := T.InsertContact(t, row);
    assert T.UsedIds(t);
    if r.Some? && !T.Taken(t, row.aliasId, row.email) {
      assert r.value.contacts[t.nextId] == row;
    }
  }

  lemma KeyOfCanonical(a: Address)
    requires Canonical(a)
    ensures IsKey(a.Normalised())
  {
    hide Parse, Canonical;
    ParseNormalised(a);
  }

  lemma LookedSettles(t: T.Tables, c: Call, otherwise: Progress)
    requires CallSettled(t, c) && (otherwise.Inserting? || otherwise.Failed?)
    ensures CallSettled(t, Looked(t, c, otherwise))
    ensures c.progress.Rereading? ==> Looked(t, c, otherwise).progress.Returned?
  {
    hide Canonical;
    if T.Taken(t, c.aliasId, c.Email()) {
      var i :| i in t.contacts && t.contacts[i].aliasId == c.aliasId && t.contacts[i].email == c.Email();
      assert T.IsContactOf(t, c.aliasId, c.Email(), i);
    }
  }

  lemma StepSettles(w: World, s: Step)
    requires Settled(w) && Enabled(w, s) && !Deletes(s)
    ensures Settled(Take(w, s)) && Grows(w.tables, Take(w, s).tables)
    ensures |w.calls| <= |Take(w, s).calls|
    ensures forall k :: 0 <= k < |w.calls| && w.calls[k].progress.Returned? ==> Take(w, s).calls[k] == w.calls[k]
    ensures s.Reread? ==> Take(w, s).calls[s.k].progress.Returned?
  {
    hide Canonical, IsKey, T.Consistent, CallSettled, Inserted, Looked, T.Apply, T.ValidChange;
    match s
    case Start(_, _, _) => StartSettles(w.tables, w.calls, Take(w, s).calls);
    case Find(k) => LookedSettles(w.tables, w.calls[k], Inserting);
    case Insert(k, reverseAlias, clashFirst) =>
      InsertedSettles(w.tables, w.calls[k], reverseAlias, clashFirst);
      InsertSettles(w, k, reverseAlias, clashFirst);
    case Reread(k) => LookedSettles(w.tables, w.calls[k], Failed);
    case Break(k) => BreakSettles(w.tables, w.calls[k]);
    case Other(c) =>
      T.ApplyKeepsConsistent(w.tables, c);
      ChangeGrows(w.tables, c);
      forall k | 0 <= k < |w.calls| {
        GrowthSettles(w.tables, T.Apply(w.tables, c), w.calls[k]);
      }
  }

  lemma StartSettles(t: T.Tables, calls: seq<Call>, calls': seq<Call>)
    requires |calls'| == |calls| + 1 && calls' == calls + [calls'[|calls|]]
    requires Canonical(calls'[|calls|].sender) && calls'[|calls|].progress.Finding?
    ensures CallSettled(t, calls'[|calls|])
  {
  }

  lemma BreakSettles(t: T.Tables, c: Call)
    requires CallSettled(t, c)
    ensures CallSettled(t, c.(progress := Failed))
  {
  }

  lemma InsertSettles(w: World, k: nat, reverseAlias: string, clashFirst: bool)
    requires Settled(w) && Enabled(w, Insert(k, reverseAlias, clashFirst))
    ensures Settled(Take(w, Insert(k, reverseAlias, clashFirst)))
  {
    hide Canonical, IsKey, T.Consistent, Inserted;
    InsertedSettles(w.tables, w.calls[k], reverseAlias, clashFirst);
    var r := Inserted(w.tables, w.calls[k], reverseAlias, clashFirst);
    if r.Some? {
      forall i | 0 <= i < |w.calls| {
        GrowthSettles(w.tables, r.value, w.calls[i]);
      }
    }
  }

  lemma {:induction false} RunSettles(ws: seq<World>, ss: seq<Step>, n: nat)
    requires QuietRun(ws, ss) && n < |ws|
    ensures Settled(ws[n])
  {
    hide Settled, Take, Enabled, T.Consistent;
    if n == 0 {
      NoCallsSettled(ws[0]);
    } else {
      RunSettles(ws, ss, n - 1);
      StepSettles(ws[n - 1], ss[n - 1]);
    }
  }

  lemma NoCallsSettled(w: World)
    requires T.Consistent(w.tables) && w.calls == []
    ensures Settled(w)
  {
  }

  /** A returned call keeps what it returned, and no contact row is ever lost or changed. */
  lemma {:induction false} NothingIsTakenBack(ws: seq<World>, ss: seq<Step>, i: nat, j: nat)
    requires QuietRun(ws, ss) && i <= j < |ws|
    ensures |ws[i].calls| <= |ws[j].calls| && Grows(ws[i].tables, ws[j].tables)
    ensures forall k :: 0 <= k < |ws[i].calls| && ws[i].calls[k].progress.Returned? ==> ws[j].calls[k] == ws[i].calls[k]
  {
    hide Settled, Take, Enabled, T.Consistent;
    if i < j {
      NothingIsTakenBack(ws, ss, i, j - 1);
      RunSettles(ws, ss, j - 1);
      StepSettles(ws[j - 1], ss[j - 1]);
    }
  }

  /** However the statements interleave, any two calls that return for the same alias and
      address, at whatever moments, return the same contact with the same reverse alias. */
  lemma SameContactForAll(ws: seq<World>, ss: seq<Step>, i: nat, j: nat, p: nat, q: nat)
    requires QuietRun(ws, ss) && i < |ws| && j < |ws|
    requires p < |ws[i].calls| && ws[i].calls[p].progress.Returned?
    requires q < |ws[j].calls| && ws[j].calls[q].progress.Returned?
    requires ws[i].calls[p].aliasId == ws[j].calls[q].aliasId && ws[i].calls[p].Email() == ws[j].calls[q].Email()
    ensures ws[i].calls[p].progress == ws[j].calls[q].progress
  {
    hide Take, Enabled, Canonical, IsKey;
    var n := |ws| - 1;
    NothingIsTakenBack(ws, ss, i, n);
    NothingIsTakenBack(ws, ss, j, n);
    RunSettles(ws, ss, n);
    assert CallSettled(ws[n].tables, ws[n].calls[p]) && CallSettled(ws[n].tables, ws[n].calls[q]);
    var a, b := ws[n].calls[p].progress.id, ws[n].calls[q].progress.id;
    assert T.SamePair(ws[n].tables.contacts[a], ws[n].tables.contacts[b]);
  }

  /** In any state of any run, deletions included, no two contacts share a reverse alias or
      a pair of alias and address, and no contact outlives its alias. */
  lemma {:induction false} ConstraintsAlwaysHold(ws: seq<World>, ss: seq<Step>, n: nat)
    requires Run(ws, ss) && n < |ws| && T.Consistent(ws[0].tables) && ws[0].calls == []
    ensures T.Consistent(ws[n].tables) && forall k :: 0 <= k < |ws[n].calls| ==> Canonical(ws[n].calls[k].sender)
  {
    hide Canonical, IsKey, T.Consistent, Inserted, T.Apply, T.ContactOf;
    if n > 0 {
      ConstraintsAlwaysHold(ws, ss, n - 1);
      var w, s := ws[n - 1], ss[n - 1];
      if s.Other? {
        T.ApplyKeepsConsistent(w.tables, s.change);
      } else if s.Insert? {
        InsertKeeps(w.tables, w.calls[s.k], s.reverseAlias, s.clashFirst);
      }
    }
  }

  lemma InsertKeeps(t: T.Tables, c: Call, reverseAlias: string, clashFirst: bool)
    requires T.Consistent(t) && Canonical(c.sender)
    ensures Inserted(t, c, reverseAlias, clashFirst).Some? ==>
            T.Consistent(Inserted(t, c, reverseAlias, clashFirst).value)
  {
    hide IsKey, Canonical, T.Consistent, T.InsertContact;
    KeyOfCanonical(c.sender);
    T.InsertContactKeepsConsistent(t, T.Contact(c.aliasId, c.Email(), c.name, reverseAlias));
  }

  /** Without deletions the last branch, a contact that vanished between INSERT and SELECT,
      is never taken. */
  lemma RereadSucceeds(ws: seq<World>, ss: seq<Step>, n: nat)
    requires QuietRun(ws, ss) && n < |ss| && ss[n].Reread?
    ensures ws[n + 1].calls[ss[n].k].progress.Returned?
  {
    hide Settled, Take, Enabled, T.Consistent;
    RunSettles(ws, ss, n);
    StepSettles(ws[n], ss[n]);
  }
}
