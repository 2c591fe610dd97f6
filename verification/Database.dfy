/** What the connections, the worker and the administration share: the tables, the outbox
    and the spool directory, with the statements of src/delivery/queue.rs,
    src/contact/mod.rs and src/alias/mod.rs as methods. Any statement may fail, and then
    changes nothing. */
module Database {
  import opened Basics
  import opened EmailAddress
  import opened Outbox
  import opened Routing
  import opened Store
  import T = Tables

  /** A row as the worker gets it from a claim. */
  datatype Claimed = Claimed(id: Id, row: Row)

  datatype FoundAlias = FoundAlias(id: Id, alias: T.Alias, mailboxEmail: string)

  datatype FoundContact = FoundContact(id: Id, contact: T.Contact)

  datatype FoundReverse = FoundReverse(id: Id, contact: T.Contact, alias: T.Alias, mailboxEmail: string)

  function IdsOf(cs: seq<Claimed>): (ids: seq<Id>)
    ensures |ids| == |cs| && forall i :: 0 <= i < |cs| ==> ids[i] == cs[i].id
  {
    seq(|cs|, i requires 0 <= i < |cs| => cs[i].id)
  }

  lemma MarkNone(o: Outbox)
    ensures MarkAllSending(o, []) == o
  {
  }

  lemma MarkOneMore(o: Outbox, ids: seq<Id>, i: nat)
    requires i < |ids|
    ensures MarkAllSending(o, ids[..i + 1]) == MarkSending(MarkAllSending(o, ids[..i]), ids[i])
  {
    assert ids[..i + 1][..i] == ids[..i];
  }

  // ---- SELECT ... WHERE due ORDER BY next_attempt_at ASC LIMIT ----

  /** `ids` are the earliest rows of the due ones, in order, and `rest` are the others. */
  ghost predicate SelectedSoFar(o: Outbox, now: int, ids: seq<Id>, rest: set<Id>) {
    && Distinct(ids)
    && (forall id :: id in rest ==> id in o && IsDue(o[id], now) && id !in ids)
    && (forall i :: 0 <= i < |ids| ==> ids[i] in o && IsDue(o[ids[i]], now))
    && (forall i, j :: 0 <= i < j < |ids| ==> o[ids[i]].nextAttempt <= o[ids[j]].nextAttempt)
    && (forall id :: id in o && IsDue(o[id], now) && id !in ids ==>
          id in rest && forall i :: 0 <= i < |ids| ==> o[ids[i]].nextAttempt <= o[id].nextAttempt)
  }

  lemma SelectOneMore(o: Outbox, now: int, ids: seq<Id>, rest: set<Id>, id: Id)
    requires SelectedSoFar(o, now, ids, rest) && id in rest
    requires forall other :: other in rest ==> other in o && o[id].nextAttempt <= o[other].nextAttempt
    ensures SelectedSoFar(o, now, ids + [id], rest - {id})
  {
    hide IsDue;
  }

  method Earliest(o: Outbox, ids: set<Id>) returns (first: Id)
    requires ids != {} && forall id :: id in ids ==> id in o
    ensures first in ids && forall id :: id in ids ==> o[first].nextAttempt <= o[id].nextAttempt
  {
    first :| first in ids;
    var rest := ids - {first};
    while rest != {}
      invariant first in ids && rest <= ids
      invariant forall id :: id in ids - rest ==> o[first].nextAttempt <= o[id].nextAttempt
    {
      var id :| id in rest;
      if o[id].nextAttempt < o[first].nextAttempt {
        first := id;
      }
      rest := rest - {id};
    }
  }

  method SelectDue(o: Outbox, now: int, limit: nat) returns (claimed: seq<Claimed>)
    ensures IsSelection(o, now, limit, IdsOf(claimed))
    ensures forall i :: 0 <= i < |claimed| ==> claimed[i].row == o[claimed[i].id]
  {
    hide IsDue, SelectedSoFar;
    claimed := [];
    var rest := set id | id in o && IsDue(o[id], now);
    StartSelecting(o, now, rest);
    while |claimed| < limit && rest != {}
      invariant |claimed| <= limit && SelectedSoFar(o, now, IdsOf(claimed), rest)
      invariant forall id :: id in rest ==> id in o
      invariant forall i :: 0 <= i < |claimed| ==> claimed[i].id in o && claimed[i].row == o[claimed[i].id]
      decreases |rest|
    {
      var id := Earliest(o, rest);
      SelectOneMore(o, now, IdsOf(claimed), rest, id);
      assert IdsOf(claimed + [Claimed(id, o[id])]) == IdsOf(claimed) + [id];
      claimed := claimed + [Claimed(id, o[id])];
      rest := rest - {id};
    }
    DoneSelecting(o, now, limit, IdsOf(claimed), rest);
  }

  lemma StartSelecting(o: Outbox, now: int, rest: set<Id>)
    requires rest == set id | id in o && IsDue(o[id], now)
    ensures SelectedSoFar(o, now, [], rest)
  {
  }

  lemma DoneSelecting(o: Outbox, now: int, limit: nat, ids: seq<Id>, rest: set<Id>)
    requires SelectedSoFar(o, now, ids, rest) && |ids| <= limit && (|ids| == limit || rest == {})
    ensures IsSelection(o, now, limit, ids)
  {
  }

  lemma AllOfOne(cfg: Config, s: Store, sts: seq<Statement>, n: nat, m: nat)
    requires n <= m < |sts|
    ensures ExecuteAll(cfg, s, sts[n..n]) == s
    ensures ExecuteAll(cfg, s, sts[n..m + 1]) == Execute(cfg, ExecuteAll(cfg, s, sts[n..m]), sts[m])
    ensures sts[..m + 1] == sts[..m] + [sts[m]]
  {
    hide Execute;
    assert sts[n..m + 1][..m - n] == sts[n..m];
  }

  class Database {
    const cfg: Config

    /** The statements that everybody else will run, in order; nothing is known of them. */
    const tape: seq<Statement>

    /** Whether storage works: no statement fails but for a constraint. */
    const reliable: bool

    /** What the random generator will yield. */
    const dice: nat -> string

    var rolls: nat
    var played: nat
    var tables: T.Tables
    var outbox: Outbox
    var spool: map<Id, string>
    var nextFile: Id
    var now: int

    /** Every statement ever run here, and every state between them. */
    ghost var history: History

    ghost function Now(): Store
      reads this
    {
      Store(tables, outbox, spool, nextFile, now)
    }

    ghost function Time(): nat
      reads this
    {
      |history.log|
    }

    /** The statements run through the methods of this object, in order. */
    ghost function Ran(): seq<Statement>
      reads this
    {
      Mines(history.log)
    }

    /** The history explains the state, and what others ran is the tape as far as it was
        played, so no change can be put down to them that they did not make. */
    ghost predicate Valid()
      reads this
    {
      && Told(cfg, history) && |history.past| == |history.log| + 1 && Last(history) == Now()
      && played <= |tape| && Thems(history.log) == tape[..played]
    }

    /** Storage works and everybody else is done. */
    ghost predicate Calm()
      reads this
    {
      reliable && played == |tape|
    }

    constructor (cfg: Config, tape: seq<Statement>, reliable: bool, dice: nat -> string)
      ensures this.cfg == cfg && this.tape == tape && this.reliable == reliable && this.dice == dice
      ensures Valid() && Time() == 0
      ensures Now() == Store(T.Tables(map[], map[], map[], 0), map[], map[], 0, now)
    {
      this.cfg, this.tape, this.reliable, this.dice, rolls, played := cfg, tape, reliable, dice, 0, 0;
      tables, outbox, spool, nextFile := T.Tables(map[], map[], map[], 0), map[], map[], 0;
      var time: int := *;
      now := time;
      history := History([Store(T.Tables(map[], map[], map[], 0), map[], map[], 0, time)], []);
    }

    method Fails() returns (failed: bool)
      ensures reliable ==> !failed
    {
      failed := *;
      failed := failed && !reliable;
    }

    /** src/alias/generator.rs:11-17: the next token. */
    method RandomToken() returns (token: string)
      requires Valid()
      modifies this`rolls
      ensures Valid() && rolls == old(rolls) + 1
      ensures IsToken(token) && token == TokenOf(dice, old(rolls))
    {
      hide Told, Mines, Thems, TokenOf;
      token := TokenOf(dice, rolls);
      rolls := rolls + 1;
      SomeToken(dice, old(rolls));
    }

    ghost method Note(step: Step)
      requires Told(cfg, history) && |history.past| == |history.log| + 1 && played <= |tape|
      requires Now() == Execute(cfg, Last(history), step.st)
      requires match step
               case Mine(st) =>
                 && Thems(history.log) == tape[..played]
                 && (st.Insert? ==> Insertable(Last(history), st.id, st.row, st.raw))
               case Theirs(st) => played > 0 && Thems(history.log) == tape[..played - 1] && st == tape[played - 1]
      modifies this`history
      ensures Valid() && history == Then(old(history), step, Now()) && Extends(old(history), history)
      ensures Ran() == old(Ran()) + if step.Mine? then [step.st] else []
    {
      hide Execute, Insertable, Told, Mines, Thems;
      OneMoreStep(cfg, history, step, Now());
      if step.Theirs? {
        assert tape[..played] == tape[..played - 1] + [step.st];
      } else {
        assert Thems(history.log) + [] == Thems(history.log);
      }
      history := Then(history, step, Now());
    }

    /** What the history says about now. */
    lemma Present()
      requires Valid()
      ensures Good(cfg, Now())
    {
      hide Good;
      PastIsGood(cfg, history, Time());
    }

    /** And what it says about any earlier moment. */
    lemma KeptSince(before: History)
      requires Valid() && Extends(before, history) && before.past != []
      ensures Keeps(Last(before), Now())
    {
      hide Keeps, Led;
      PastIsKept(cfg, history, |before.past| - 1, Time());
    }

    // ---- Queries ----

    /** src/alias/mod.rs:76-112. */
    method FindAliasByAddress(address: Address) returns (r: Result<Option<FoundAlias>>)
      requires Valid()
      ensures reliable ==> r.Ok?
      ensures r.Ok? && r.value.None? ==> T.AliasAt(tables, address.Normalised()) == None
      ensures r.Ok? && r.value.Some? ==>
                var f := r.value.value;
                && T.AliasAt(tables, address.Normalised()) == Some(f.id)
                && T.IsAliasAt(tables, address.Normalised(), f.id) && f.alias == tables.aliases[f.id]
                && f.mailboxEmail == tables.mailboxes[f.alias.mailboxId].email
    {
      hide Told, T.ForeignKeys, T.UniquePairs, T.UniqueReverse, T.UsedIds, T.StoredKeys, AllGenerated, RowsOk, FilesOk;
      var failed := Fails();
      if failed {
        return Err;
      }
      Present();
      var key := address.Normalised();
      var rows := tables.aliases;
      if i :| i in rows && rows[i].address == key && rows[i].mailboxId in tables.mailboxes {
        assert T.IsAliasAt(tables, key, i);
        var a := tables.aliases[i];
        return Ok(Some(FoundAlias(i, a, tables.mailboxes[a.mailboxId].email)));
      }
      return Ok(None);
    }

    /** src/contact/mod.rs:79-105. */
    method FindContact(aliasId: Id, email: string) returns (r: Result<Option<FoundContact>>)
      requires Valid()
      ensures reliable ==> r.Ok?
      ensures r.Ok? && r.value.None? ==> T.ContactOf(tables, aliasId, email) == None
      ensures r.Ok? && r.value.Some? ==>
                var f := r.value.value;
                && T.ContactOf(tables, aliasId, email) == Some(f.id)
                && T.IsContactOf(tables, aliasId, email, f.id) && f.contact == tables.contacts[f.id]
    {
      hide Told, T.ForeignKeys, T.UniqueAliases, T.UniqueReverse, T.UsedIds, T.StoredKeys, AllGenerated, RowsOk,
           FilesOk;
      var failed := Fails();
      if failed {
        return Err;
      }
      Present();
      if i :| i in tables.contacts && tables.contacts[i].aliasId == aliasId && tables.contacts[i].email == email {
        assert T.IsContactOf(tables, aliasId, email, i);
        var c := tables.contacts[i];
        forall j: Id | T.IsContactOf(tables, aliasId, email, j) ensures i == j {
          assert T.SamePair(c, tables.contacts[j]);
        }
        return Ok(Some(FoundContact(i, c)));
      }
      return Ok(None);
    }

    /** src/contact/mod.rs:107-142. */
    method FindContactByReverseAlias(address: Address) returns (r: Result<Option<FoundReverse>>)
      requires Valid()
      ensures reliable ==> r.Ok?
      ensures r.Ok? && r.value.None? ==> T.ContactBehind(tables, address.Normalised()) == None
      ensures r.Ok? && r.value.Some? ==>
                var f := r.value.value;
                && T.ContactBehind(tables, address.Normalised()) == Some(f.id)
                && T.Joined(tables, f.id) && f.contact == tables.contacts[f.id]
                && f.alias == tables.aliases[f.contact.aliasId]
                && f.mailboxEmail == tables.mailboxes[f.alias.mailboxId].email
    {
      hide Told, T.ForeignKeys, T.UniqueAliases, T.UniquePairs, T.UsedIds, T.StoredKeys, AllGenerated, RowsOk, FilesOk;
      var failed := Fails();
      if failed {
        return Err;
      }
      Present();
      var key := address.Normalised();
      if i :| i in tables.contacts && T.Joined(tables, i) && tables.contacts[i].reverseAlias == key {
        assert T.IsBehind(tables, key, i);
        var c := tables.contacts[i];
        var a := tables.aliases[c.aliasId];
        return Ok(Some(FoundReverse(i, c, a, tables.mailboxes[a.mailboxId].email)));
      }
      return Ok(None);
    }

    // ---- Statements on the tables ----

    /** Any one statement that changes the tables, with its cascade into the outbox. */
    method Change(c: T.Change) returns (ok: bool)
      requires Valid() && Legal(c, cfg)
      modifies this
      ensures Valid() && Extends(old(history), history) && played == old(played) && rolls == old(rolls)
      ensures ok ==>
                && history == Then(old(history), Mine(Alter(c)), Now()) && Ran() == old(Ran()) + [Alter(c)]
                && tables == T.Apply(old(tables), c) && Now() == Execute(cfg, old(Now()), Alter(c))
      ensures !ok ==> Now() == old(Now()) && history == old(history)
      ensures reliable ==> ok
    {
      hide Told, T.Apply, Legal, Unlinked, Mines, Thems;
      var failed := Fails();
      ok := !failed;
      if ok {
        var t := T.Apply(tables, c);
        outbox := Unlinked(outbox, tables, t);
        tables := t;
        Note(Mine(Alter(c)));
      }
    }

    /** src/alias/mod.rs:151-174: both leave an unknown alias alone. */
    method SetAliasEnabled(id: Id, enabled: bool) returns (ok: bool)
      requires Valid()
      modifies this
      ensures Valid() && Extends(old(history), history)
      ensures played == old(played) && rolls == old(rolls) && (reliable ==> ok)
      ensures Ran() == old(Ran()) + if ok then [Alter(T.Toggle(id, enabled))] else []
      ensures tables == if ok then T.SetAliasEnabled(old(tables), id, enabled) else old(tables)
      ensures outbox == old(outbox)
    {
      hide Told, Mines, Thems;
      ok := Change(T.Toggle(id, enabled));
      NothingUnlinked(old(outbox), old(tables), tables);
      assert old(Ran()) + [] == old(Ran());
    }

    method DeleteAlias(id: Id) returns (ok: bool)
      requires Valid()
      modifies this
      ensures Valid() && Extends(old(history), history)
      ensures played == old(played) && rolls == old(rolls) && (reliable ==> ok)
      ensures Ran() == old(Ran()) + if ok then [Alter(T.RemoveAlias(id))] else []
      ensures tables == if ok then T.DeleteAlias(old(tables), id) else old(tables)
      ensures ok ==> outbox == Unlinked(old(outbox), old(tables), tables)
      ensures !ok ==> outbox == old(outbox)
    {
      hide Told, Unlinked, Mines, Thems;
      ok := Change(T.RemoveAlias(id));
      assert old(Ran()) + [] == old(Ran());
    }

    /** src/alias/mod.rs:184-221. */
    method RecordAliasActivity(id: Id, counter: T.AliasCounter) returns (ok: bool)
      requires Valid()
      modifies this
      ensures Valid() && Extends(old(history), history)
      ensures played == old(played) && rolls == old(rolls) && (reliable ==> ok)
      ensures Ran() == old(Ran()) + if ok then [Alter(T.Count(id, counter))] else []
      ensures tables == if ok then T.RecordActivity(old(tables), id, counter) else old(tables)
      ensures outbox == old(outbox)
    {
      hide Told, Mines, Thems;
      ok := Change(T.Count(id, counter));
      NothingUnlinked(old(outbox), old(tables), tables);
      assert old(Ran()) + [] == old(Ran());
    }

    /** The INSERT of src/contact/mod.rs:56-71; a clash on the reverse alias fails it. */
    method InsertContact(aliasId: Id, sender: Address, name: Option<string>, reverseAlias: string) returns (ok: bool)
      requires Valid() && Canonical(sender) && IsGenerated(reverseAlias, cfg)
      modifies this
      ensures Valid() && Extends(old(history), history) && played == old(played) && rolls == old(rolls)
      ensures reliable && !ok ==>
                T.InsertContact(tables, T.Contact(aliasId, sender.Normalised(), name, reverseAlias)) == None
      ensures ok ==>
                var c := T.AddContact(aliasId, sender, name, reverseAlias);
                && history == Then(old(history), Mine(Alter(c)), Now()) && Ran() == old(Ran()) + [Alter(c)]
                && T.InsertContact(old(tables), T.Contact(aliasId, sender.Normalised(), name, reverseAlias))
                    == Some(tables)
      ensures !ok ==> Now() == old(Now()) && history == old(history)
    {
      hide Told, T.InsertContact, Unlinked, Mines, Thems, Canonical, IsGenerated;
      ok := T.InsertContact(tables, T.Contact(aliasId, sender.Normalised(), name, reverseAlias)).Some?;
      if ok {
        ok := Change(T.AddContact(aliasId, sender, name, reverseAlias));
      }
    }

    // ---- Statements on the outbox ----

    /** The file of src/delivery/queue.rs:44-52; a failed write leaves some of it behind. */
    method WriteFile(raw: string) returns (r: Result<Id>, ghost done: seq<Statement>)
      requires Valid()
      modifies this
      ensures Valid() && Extends(old(history), history) && Ran() == old(Ran()) + done
      ensures outbox == old(outbox) && tables == old(tables)
      ensures played == old(played) && rolls == old(rolls) && (reliable ==> r.Ok?)
      ensures r.Ok? ==>
                && done == [Spool(raw)] && r.value !in outbox && r.value !in old(spool)
                && r.value in spool && spool[r.value] == raw
      ensures r.Err? ==> done == [] || (|done| == 1 && done[0].Spool?)
    {
      hide Told, Mines, Thems;
      done := [];
      var failed := Fails();
      if failed {
        assert old(Ran()) + [] == old(Ran());
        return Err, done;
      }
      Present();
      var id := nextFile;
      var bytes := raw;
      failed := Fails();
      if failed {
        bytes := *;
      }
      nextFile := id + 1;
      spool := spool[id := bytes];
      Note(Mine(Spool(bytes)));
      done := [Spool(bytes)];
      return if failed then Err else Ok(id), done;
    }

    /** The INSERT of src/delivery/queue.rs:58-79. */
    method InsertRow(id: Id, row: Row, raw: string) returns (ok: bool)
      requires Valid() && id in spool && spool[id] == raw
      requires row.rawPath == id && row.status.Pending? && row.attempts == 0
      modifies this
      ensures Valid() && Extends(old(history), history) && played == old(played) && rolls == old(rolls)
      ensures reliable && id !in old(outbox) && LinksTo(row, old(tables)) ==> ok
      ensures ok ==>
                && history == Then(old(history), Mine(Insert(id, row, raw)), Now())
                && Ran() == old(Ran()) + [Insert(id, row, raw)]
                && LinksTo(row, tables) && id !in old(outbox)
                && Now() == old(Now()).(outbox := old(outbox)[id := row])
      ensures !ok ==> Now() == old(Now()) && history == old(history)
    {
      hide Told, Mines, Thems, LinksTo;
      var failed := Fails();
      ok := !failed && id !in outbox && LinksTo(row, tables);
      if ok {
        outbox := outbox[id := row];
        Note(Mine(Insert(id, row, raw)));
      }
    }

    /** src/delivery/queue.rs:38-82: the file is complete before the row appears. Whatever
        others do in between, on success the outbox gains exactly this one row of ours, and
        on failure none. */
    method Enqueue(direction: Direction, from: string, to: string, raw: string,
                   aliasId: Option<Id>, contactId: Option<Id>, subject: Option<string>)
      returns (r: Result<Id>, ghost done: seq<Statement>)
      requires Valid()
      modifies this
      ensures Valid() && Extends(old(history), history) && Ran() == old(Ran()) + done
      ensures old(played) <= played && rolls == old(rolls)
      ensures old(Calm()) && Linked(aliasId, contactId, old(tables)) ==> r.Ok?
      ensures old(Calm()) ==> tables == old(tables)
      ensures Gained(history, old(Time()), Time(), Inserts(done))
      ensures r.Ok? ==>
                var row := NewRow(direction, from, to, r.value, aliasId, contactId, subject, now);
                && done == [Spool(raw), Insert(r.value, row, raw)] && Inserts(done) == [Queued(r.value, row, raw)]
                && old(Time()) < Time() && history.log[Time() - 1] == Mine(Insert(r.value, row, raw))
                && history.past[Time() - 1].tables == tables && LinksTo(row, tables)
                && r.value in outbox && outbox[r.value] == row && r.value in spool && spool[r.value] == raw
      ensures r.Err? ==> Inserts(done) == [] && (done == [] || (|done| == 1 && done[0].Spool?))
    {
      hide Told, Extends, Mines, Thems, Gained, Inserts, Linked, ExecuteAll, Execute, Keeps;
      var written;
      written, done := WriteFile(raw);
      ghost var h1 := history;
      NoInserts(done);
      if written.Err? {
        GainedNow(old(history), done);
        return Err, done;
      }
      var id := written.value;
      ghost var written' := Now();
      Meanwhile();
      FileStays(written', Now(), id);
      ghost var h2 := history;
      ExtendsOn(old(history), h1, h2);
      var row := NewRow(direction, from, to, id, aliasId, contactId, subject, now);
      var inserted := InsertRow(id, row, raw);
      ExtendsOn(old(history), h2, history);
      if !inserted {
        GainedNow(old(history), done);
        return Err, done;
      }
      Regroup(old(Ran()), done, [Insert(id, row, raw)]);
      done := done + [Insert(id, row, raw)];
      GainedNow(old(history), done);
      Longer(old(history), h2);
      OneInsert(raw, id, row);
      return Ok(id), done;
    }

    lemma GainedNow(before: History, done: seq<Statement>)
      requires Valid() && Extends(before, history) && Ran() == Mines(before.log) + done
      ensures Gained(history, |before.log|, Time(), Inserts(done))
    {
      hide Gained, Inserts, Mines, Thems, Led;
      assert history.log[..Time()] == history.log && history.log[..|before.log|] == before.log;
      GainedSince(cfg, history, |before.log|, Time(), done);
    }

    /** src/delivery/queue.rs:86-135: a transaction, so a failure anywhere claims nothing. */
    method ClaimDue(limit: nat) returns (r: Result<seq<Claimed>>)
      requires Valid()
      modifies this
      ensures Valid() && Extends(old(history), history) && played == old(played) && rolls == old(rolls)
      ensures r.Err? ==> Now() == old(Now()) && history == old(history)
      ensures reliable ==> r.Ok?
      ensures r.Ok? ==>
                && history == Then(old(history), Mine(Claim(IdsOf(r.value))), Now())
                && IsSelection(old(outbox), now, limit, IdsOf(r.value))
                && (forall i :: 0 <= i < |r.value| ==> r.value[i].row == old(outbox)[r.value[i].id])
                && Now() == old(Now()).(outbox := MarkAllSending(old(outbox), IdsOf(r.value)))
    {
      hide Told, IsSelection, MarkAllSending, IsDue, Mines, Thems;
      var failed := Fails();
      if failed {
        return Err;
      }
      var claimed := SelectDue(outbox, now, limit);
      ghost var ids := IdsOf(claimed);
      var o := outbox;
      MarkNone(o);
      for i := 0 to |claimed|
        invariant Valid() && Now() == old(Now()) && history == old(history)
        invariant played == old(played) && rolls == old(rolls)
        invariant o == MarkAllSending(outbox, ids[..i])
      {
        failed := Fails();
        if failed {
          return Err;
        }
        o := MarkSending(o, claimed[i].id);
        MarkOneMore(outbox, ids, i);
      }
      assert ids[..|claimed|] == ids;
      failed := Fails();
      if failed {
        return Err;
      }
      outbox := o;
      Note(Mine(Claim(ids)));
      return Ok(claimed);
    }

    /** src/delivery/queue.rs:142-157. */
    method RequeueInterrupted() returns (ok: bool)
      requires Valid()
      modifies this
      ensures Valid() && Extends(old(history), history)
      ensures played == old(played) && rolls == old(rolls) && (reliable ==> ok)
      ensures Now() == old(Now()).(outbox := if ok then Requeue(old(outbox), now) else old(outbox))
      ensures history == if ok then Then(old(history), Mine(RequeueAll), Now()) else old(history)
    {
      hide Told, Requeue, Mines, Thems;
      var failed := Fails();
      ok := !failed;
      if ok {
        outbox := Requeue(outbox, now);
        Note(Mine(RequeueAll));
      }
    }

    /** src/delivery/queue.rs:160-174. */
    method MarkMessageDelivered(id: Id) returns (ok: bool)
      requires Valid()
      modifies this
      ensures Valid() && Extends(old(history), history)
      ensures played == old(played) && rolls == old(rolls) && (reliable ==> ok)
      ensures Now() == old(Now()).(outbox := if ok then MarkDelivered(old(outbox), id) else old(outbox))
      ensures history == if ok then Then(old(history), Mine(SetDelivered(id)), Now()) else old(history)
    {
      hide Told, Mines, Thems;
      var failed := Fails();
      ok := !failed;
      if ok {
        if id in outbox {
          outbox := outbox[id := outbox[id].(status := Delivered)];
        }
        Note(Mine(SetDelivered(id)));
      }
    }

    /** src/delivery/queue.rs:179-218. */
    method MarkMessageFailed(id: Id, attempts: int, maxAttempts: int) returns (ok: bool)
      requires Valid()
      modifies this
      ensures Valid() && Extends(old(history), history)
      ensures played == old(played) && rolls == old(rolls) && (reliable ==> ok)
      ensures Now() == old(Now()).(outbox :=
                if ok then MarkAttemptFailed(old(outbox), id, attempts, maxAttempts, now) else old(outbox))
      ensures history ==
                if ok then Then(old(history), Mine(SetFailed(id, attempts, maxAttempts)), Now()) else old(history)
    {
      hide Told, Backoff, Mines, Thems;
      var failed := Fails();
      ok := !failed;
      if ok {
        if id in outbox {
          var row := outbox[id];
          var n := attempts + 1;
          if n >= maxAttempts {
            row := row.(status := Failed, attempts := n);
          } else {
            row := row.(status := Pending, attempts := n, nextAttempt := now + Backoff(n) * MINUTE);
          }
          outbox := outbox[id := row];
        }
        Note(Mine(SetFailed(id, attempts, maxAttempts)));
      }
    }

    // ---- Everybody else ----

    /** What other connections, the worker, the administration and the clock do between two
        statements: any number of the statements on the tape. */
    method Meanwhile()
      requires Valid()
      modifies this
      ensures Valid() && Extends(old(history), history) && Ran() == old(Ran())
      ensures old(played) <= played <= |tape| && rolls == old(rolls)
      ensures OnlyTheirs(history, old(Time()), Time())
      ensures Now() == ExecuteAll(cfg, old(Now()), tape[old(played)..played])
      ensures Keeps(old(Now()), Now())
      ensures old(played) == |tape| ==> Now() == old(Now()) && history == old(history)
    {
      hide Told, Mines, Thems, Execute, ExecuteAll, Keeps;
      var steps: int := *;
      NothingPlayed(cfg, Now(), tape, played);
      while steps > 0 && played < |tape|
        invariant Valid() && Extends(old(history), history) && Ran() == old(Ran())
        invariant old(played) <= played <= |tape| && rolls == old(rolls)
        invariant OnlyTheirs(history, old(Time()), Time())
        invariant Now() == ExecuteAll(cfg, old(Now()), tape[old(played)..played])
        invariant old(played) == |tape| ==> history == old(history)
      {
        AllOfOne(cfg, old(Now()), tape, old(played), played);
        ghost var st := tape[played];
        var s := Execute(cfg, Store(tables, outbox, spool, nextFile, now), tape[played]);
        tables, outbox, spool, nextFile, now := s.tables, s.outbox, s.spool, s.nextFile, s.now;
        played := played + 1;
        Note(Theirs(st));
        assert old(Ran()) + [] == old(Ran());
        steps := steps - 1;
      }
      PastIsKept(cfg, history, old(Time()), Time());
      if old(played) == |tape| {
        NothingPlayed(cfg, old(Now()), tape, played);
      }
    }
  }

  /** Whatever the generator yields is a token. */
  function TokenOf(dice: nat -> string, n: nat): string {
    if IsToken(dice(n)) then dice(n) else "000000000000"
  }

  /** Every text of twelve digits and small letters that the generator yields is used as it is. */
  lemma TokensExactly(dice: nat -> string, n: nat)
    requires |dice(n)| == 12
    requires forall i :: 0 <= i < 12 ==> '0' <= dice(n)[i] <= '9' || 'a' <= dice(n)[i] <= 'z'
    ensures TokenOf(dice, n) == dice(n)
  {
  }

  lemma SomeToken(dice: nat -> string, n: nat)
    ensures IsToken(TokenOf(dice, n))
  {
  }

  lemma NothingPlayed(cfg: Config, s: Store, sts: seq<Statement>, n: nat)
    requires n <= |sts|
    ensures ExecuteAll(cfg, s, sts[n..n]) == s
  {
  }

  lemma NothingUnlinked(o: Outbox, t: T.Tables, t': T.Tables)
    requires t.aliases.Keys <= t'.aliases.Keys && t.contacts.Keys <= t'.contacts.Keys
    ensures Unlinked(o, t, t') == o
  {
  }

  lemma FileStays(s: Store, s': Store, id: Id)
    requires Keeps(s, s') && id in s.spool
    ensures id in s'.spool && s'.spool[id] == s.spool[id]
  {
  }

  lemma OneInsert(raw: string, id: Id, row: Row)
    ensures Inserts([Spool(raw), Insert(id, row, raw)]) == [Queued(id, row, raw)]
  {
    NoInserts([Spool(raw)]);
    InsertsLast([Spool(raw)], Insert(id, row, raw));
  }
}
