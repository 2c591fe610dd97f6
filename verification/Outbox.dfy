/** The outbox table as a value: rows, SQL statements, retry schedule and the work still
    owed, from src/delivery/queue.rs. */
module Outbox {
  import opened Basics

  datatype Status = Pending | Sending | Delivered | Failed

  datatype Direction = Forward | Reply

  datatype Row = Row(
    direction: Direction, envelopeFrom: string, envelopeTo: string, rawPath: Id,
    aliasId: Option<Id>, contactId: Option<Id>, subject: Option<string>,
    status: Status, attempts: int, nextAttempt: int)

  type Outbox = map<Id, Row>

  /** How many messages the worker claims at a time (src/delivery/worker.rs:9). */
  const BATCH_SIZE: nat := 10

  // ---- Retry schedule (src/delivery/queue.rs:220-227) ----

  const MINUTE: int := 60

  function Pow2(n: nat): (p: nat)
    ensures p >= 1
  {
    if n == 0 then 1 else 2 * Pow2(n - 1)
  }

  function Clamp(n: int, low: int, high: int): int {
    if n < low then low else if n > high then high else n
  }

  /** A left shift clamped to 16 bits, in minutes, capped at six hours. */
  function Backoff(attempts: int): (minutes: int)
    ensures 1 <= minutes <= 360
  {
    var shifted := Pow2(Clamp(attempts, 0, 16));
    if shifted < 360 then shifted else 360
  }

  lemma {:induction false} Pow2Monotone(m: nat, n: nat)
    requires m <= n
    ensures Pow2(m) <= Pow2(n)
  {
    if m < n {
      Pow2Monotone(m, n - 1);
    }
  }

  lemma Pow2Values()
    ensures Pow2(8) == 256 && Pow2(9) == 512 && Pow2(16) == 65536
  {
    assert Pow2(4) == 16;
    assert Pow2(8) == 256;
    assert Pow2(12) == 4096;
    assert Pow2(16) == 65536;
  }

  /** The clamp is never felt: the delay doubles with every attempt up to six hours, and the
      shifted value stays far below the 64-bit limit. */
  lemma BackoffClosedForm(n: nat)
    ensures Backoff(n) == if Pow2(n) < 360 then Pow2(n) else 360
    ensures Pow2(Clamp(n, 0, 16)) <= 65536
    ensures Backoff(n) == if n <= 8 then Pow2(n) else 360
  {
    Pow2Values();
    if n > 16 {
      Pow2Monotone(16, n);
    } else {
      Pow2Monotone(n, 16);
    }
    if n <= 8 {
      Pow2Monotone(n, 8);
    } else {
      Pow2Monotone(9, n);
    }
  }

  /** Delays scheduled by the failures before the one numbered `n`. */
  function TotalBackoff(n: nat): int {
    if n <= 1 then 0 else TotalBackoff(n - 1) + Backoff(n - 1)
  }

  /** A message that gives up with `n` attempts waited this many minutes in all. */
  lemma {:induction false} TotalBackoffClosedForm(n: nat)
    requires n >= 1
    ensures TotalBackoff(n) == if n <= 9 then Pow2(n) - 2 else 510 + 360 * (n - 9)
  {
    if n > 1 {
      TotalBackoffClosedForm(n - 1);
      BackoffClosedForm(n - 1);
      Pow2Values();
    }
  }

  // ---- Statements ----

  function NewRow(direction: Direction, from: string, to: string, id: Id, aliasId: Option<Id>,
                  contactId: Option<Id>, subject: Option<string>, now: int): Row {
    Row(direction, from, to, id, aliasId, contactId, subject, Pending, 0, now)
  }

  function MarkSending(o: Outbox, id: Id): Outbox {
    if id in o then o[id := o[id].(status := Sending)] else o
  }

  function MarkDelivered(o: Outbox, id: Id): Outbox {
    if id in o then o[id := o[id].(status := Delivered)] else o
  }

  /** The row after a failed attempt: given up, or pending again after the backoff. */
  function AfterFailure(r: Row, attempts: int, maxAttempts: int, now: int): Row {
    var n := attempts + 1;
    if n >= maxAttempts then r.(status := Failed, attempts := n)
    else r.(status := Pending, attempts := n, nextAttempt := now + Backoff(n) * MINUTE)
  }

  function MarkAttemptFailed(o: Outbox, id: Id, attempts: int, maxAttempts: int, now: int): Outbox {
    if id in o then o[id := AfterFailure(o[id], attempts, maxAttempts, now)] else o
  }

  /** The row after failed attempts at the given times, as long as they are its turn. */
  function FailAll(r: Row, times: seq<int>, maxAttempts: int): Row {
    if times == [] then r else
    var n := |times| - 1;
    var before := FailAll(r, times[..n], maxAttempts);
    AfterFailure(before, before.attempts, maxAttempts, times[n])
  }

  /** The delays those failures scheduled, in all. */
  function Delays(r: Row, times: seq<int>, maxAttempts: int): int {
    if times == [] then 0 else
    var n := |times| - 1;
    var after := FailAll(r, times, maxAttempts);
    Delays(r, times[..n], maxAttempts) + if after.status.Pending? then after.nextAttempt - times[n] else 0
  }

  /** A message that only ever fails is given up at its last attempt and not before, and by
      then it was held back for exactly the total backoff. */
  lemma {:induction false} FailsAtTheLastAttempt(r: Row, times: seq<int>, maxAttempts: int)
    requires r.status.Pending? && r.attempts == 0 && |times| <= maxAttempts
    ensures FailAll(r, times, maxAttempts).attempts == |times|
    ensures maxAttempts >= 1 && |times| < maxAttempts ==> FailAll(r, times, maxAttempts).status.Pending?
    ensures maxAttempts >= 1 && |times| == maxAttempts ==> FailAll(r, times, maxAttempts).status.Failed?
    ensures Delays(r, times, maxAttempts)
            == 60 * TotalBackoff(if |times| < maxAttempts then |times| + 1 else |times|)
  {
    hide Backoff;
    if times != [] {
      FailsAtTheLastAttempt(r, times[..|times| - 1], maxAttempts);
    }
  }

  function RequeueRow(r: Row, now: int): Row {
    if r.status.Sending? then r.(status := Pending, nextAttempt := now) else r
  }

  function Requeue(o: Outbox, now: int): Outbox {
    map id | id in o :: RequeueRow(o[id], now)
  }

  /** Interrupted messages are due at once, with the attempts they had; no other row changes. */
  lemma RequeueExactly(o: Outbox, now: int)
    ensures Requeue(o, now).Keys == o.Keys
    ensures forall id :: id in o ==>
              var r, r' := o[id], Requeue(o, now)[id];
              if r.status == Sending then r'.status == Pending && r'.nextAttempt == now
                                          && r' == r.(status := r'.status, nextAttempt := r'.nextAttempt)
              else r' == r
  {
  }

  function Unless(ref: Option<Id>, gone: set<Id>): Option<Id> {
    if ref.Some? && ref.value in gone then None else ref
  }

  /** ON DELETE SET NULL for the aliases and contacts just deleted. */
  function Unlink(o: Outbox, aliases: set<Id>, contacts: set<Id>): Outbox {
    map id | id in o ::
      o[id].(aliasId := Unless(o[id].aliasId, aliases), contactId := Unless(o[id].contactId, contacts))
  }

  /** Links to what was deleted go, all others stay, and so does everything else. */
  lemma UnlinkExactly(o: Outbox, aliases: set<Id>, contacts: set<Id>)
    ensures var o' := Unlink(o, aliases, contacts);
            && o'.Keys == o.Keys
            && forall id :: id in o ==>
                 && o'[id] == o[id].(aliasId := o'[id].aliasId, contactId := o'[id].contactId)
                 && (forall a :: o'[id].aliasId == Some(a) <==> o[id].aliasId == Some(a) && a !in aliases)
                 && (forall c :: o'[id].contactId == Some(c) <==> o[id].contactId == Some(c) && c !in contacts)
  {
  }

  function MarkAllSending(o: Outbox, ids: seq<Id>): Outbox {
    if ids == [] then o else MarkSending(MarkAllSending(o, ids[..|ids| - 1]), ids[|ids| - 1])
  }

  lemma {:induction false} MarkedSending(o: Outbox, ids: seq<Id>)
    ensures MarkAllSending(o, ids).Keys == o.Keys
    ensures forall id :: id in o ==>
              MarkAllSending(o, ids)[id] == if id in ids then o[id].(status := Sending) else o[id]
  {
    if ids != [] {
      MarkedSending(o, ids[..|ids| - 1]);
    }
  }

  // ---- Claiming: WHERE pending AND due ORDER BY next_attempt_at LIMIT ----

  predicate IsDue(r: Row, now: int) { r.status.Pending? && r.nextAttempt <= now }

  ghost predicate Distinct(ids: seq<Id>) {
    forall i, j :: 0 <= i < j < |ids| ==> ids[i] != ids[j]
  }

  /** The due rows with the earliest retry times, in order, as many as the limit allows. */
  ghost predicate IsSelection(o: Outbox, now: int, limit: nat, ids: seq<Id>) {
    && |ids| <= limit && Distinct(ids)
    && (forall i :: 0 <= i < |ids| ==> ids[i] in o && IsDue(o[ids[i]], now))
    && (forall i, j :: 0 <= i < j < |ids| ==> o[ids[i]].nextAttempt <= o[ids[j]].nextAttempt)
    && (forall id :: id in o && IsDue(o[id], now) && id !in ids ==>
          |ids| == limit && forall i :: 0 <= i < |ids| ==> o[ids[i]].nextAttempt <= o[id].nextAttempt)
  }

  /** A selection is of pending rows whose time has come, none twice, and if it is short of the
      limit it is of all of them. */
  lemma SelectionExactly(o: Outbox, now: int, limit: nat, ids: seq<Id>)
    requires IsSelection(o, now, limit, ids)
    ensures forall i :: 0 <= i < |ids| ==> ids[i] in o && o[ids[i]].status == Pending && o[ids[i]].nextAttempt <= now
    ensures |ids| < limit ==>
              forall id :: id in o && o[id].status == Pending && o[id].nextAttempt <= now ==> id in ids
  {
  }

  /** A new message is due from the moment it is queued. */
  lemma NewMailIsDue(direction: Direction, from: string, to: string, id: Id, aliasId: Option<Id>,
                     contactId: Option<Id>, subject: Option<string>, now: int)
    ensures var r := NewRow(direction, from, to, id, aliasId, contactId, subject, now);
            && r.status == Pending && r.attempts == 0 && r.nextAttempt == now && IsDue(r, now)
            && r.direction == direction && r.envelopeFrom == from && r.envelopeTo == to && r.rawPath == id
            && r.aliasId == aliasId && r.contactId == contactId && r.subject == subject
  {
  }

  // ---- The work still owed ----

  function Cap(maxAttempts: int): int { if maxAttempts < 1 then 1 else maxAttempts }

  predicate Finished(r: Row) { r.status.Delivered? || r.status.Failed? }

  /** The envelope and spool path of a queued message never change, and its links only go
      when the alias or contact goes. */
  predicate SameEnvelope(r: Row, r': Row) {
    && r' == r.(status := r'.status, attempts := r'.attempts, nextAttempt := r'.nextAttempt,
                aliasId := r'.aliasId, contactId := r'.contactId)
    && (r'.aliasId == r.aliasId || r'.aliasId == None)
    && (r'.contactId == r.contactId || r'.contactId == None)
  }

  /** And once it is delivered or failed, neither does its outcome. */
  predicate SameMessage(r: Row, r': Row) {
    && SameEnvelope(r, r')
    && (Finished(r) ==> r'.status == r.status && r'.attempts == r.attempts && r'.nextAttempt == r.nextAttempt)
  }

  /** Attempts a row may still need; zero once it is delivered or failed. */
  function Owed(r: Row, maxAttempts: int): nat {
    if Finished(r) || r.attempts >= Cap(maxAttempts) then 0 else Cap(maxAttempts) - r.attempts
  }

  ghost function TotalOwed(o: Outbox, maxAttempts: int): nat
    decreases |o|
  {
    if o == map[] then 0 else
    var id :| id in o;
    Owed(o[id], maxAttempts) + TotalOwed(o - {id}, maxAttempts)
  }

  /** The sum does not depend on the order of summation. */
  lemma {:induction false} OwedSplit(o: Outbox, id: Id, maxAttempts: int)
    requires id in o
    ensures TotalOwed(o, maxAttempts) == Owed(o[id], maxAttempts) + TotalOwed(o - {id}, maxAttempts)
    decreases |o|
  {
    var pick :| pick in o && TotalOwed(o, maxAttempts)
        == Owed(o[pick], maxAttempts) + TotalOwed(o - {pick}, maxAttempts);
    if pick != id {
      OwedSplit(o - {pick}, id, maxAttempts);
      OwedSplit(o - {id}, pick, maxAttempts);
      assert o - {pick} - {id} == o - {id} - {pick};
    }
  }

  lemma OwedUpdate(o: Outbox, id: Id, r: Row, maxAttempts: int)
    requires id in o
    ensures TotalOwed(o[id := r], maxAttempts)
            == TotalOwed(o, maxAttempts) - Owed(o[id], maxAttempts) + Owed(r, maxAttempts)
  {
    OwedSplit(o, id, maxAttempts);
    OwedSplit(o[id := r], id, maxAttempts);
    assert o[id := r] - {id} == o - {id};
  }

  lemma OwedInsert(o: Outbox, id: Id, r: Row, maxAttempts: int)
    requires id !in o
    ensures TotalOwed(o[id := r], maxAttempts) == TotalOwed(o, maxAttempts) + Owed(r, maxAttempts)
  {
    OwedSplit(o[id := r], id, maxAttempts);
    assert o[id := r] - {id} == o;
  }

  /** Only attempts and the finished statuses matter to the work owed. */
  lemma {:induction false} OwedSame(o: Outbox, o': Outbox, maxAttempts: int)
    requires o.Keys == o'.Keys
    requires forall id :: id in o ==> Owed(o[id], maxAttempts) == Owed(o'[id], maxAttempts)
    ensures TotalOwed(o, maxAttempts) == TotalOwed(o', maxAttempts)
    decreases |o|
  {
    if o != map[] {
      var id :| id in o;
      OwedSplit(o, id, maxAttempts);
      OwedSplit(o', id, maxAttempts);
      OwedSame(o - {id}, o' - {id}, maxAttempts);
    } else {
      assert o' == map[];
    }
  }

  /** An unfinished row owes something. */
  lemma OwedPositive(o: Outbox, id: Id, maxAttempts: int)
    requires id in o && Owed(o[id], maxAttempts) > 0
    ensures TotalOwed(o, maxAttempts) > 0
  {
    OwedSplit(o, id, maxAttempts);
  }

  lemma ClaimOwesTheSame(o: Outbox, ids: seq<Id>, maxAttempts: int)
    requires forall i :: 0 <= i < |ids| ==> ids[i] in o && o[ids[i]].status.Pending?
    ensures TotalOwed(MarkAllSending(o, ids), maxAttempts) == TotalOwed(o, maxAttempts)
  {
    hide TotalOwed, MarkAllSending;
    MarkedSending(o, ids);
    OwedSame(o, MarkAllSending(o, ids), maxAttempts);
  }

  lemma RequeueOwesTheSame(o: Outbox, now: int, maxAttempts: int)
    ensures TotalOwed(Requeue(o, now), maxAttempts) == TotalOwed(o, maxAttempts)
  {
    hide TotalOwed;
    OwedSame(o, Requeue(o, now), maxAttempts);
  }

  lemma UnlinkOwesTheSame(o: Outbox, aliases: set<Id>, contacts: set<Id>, maxAttempts: int)
    ensures TotalOwed(Unlink(o, aliases, contacts), maxAttempts) == TotalOwed(o, maxAttempts)
  {
    hide TotalOwed;
    OwedSame(o, Unlink(o, aliases, contacts), maxAttempts);
  }

  /** However an attempt ends, recording it takes at least one from the work owed. */
  lemma AttemptTakesWork(r: Row, attempts: int, maxAttempts: int, now: int)
    requires r.status.Sending? && 0 <= r.attempts < Cap(maxAttempts)
    ensures Owed(r.(status := Delivered), maxAttempts) + 1 <= Owed(r, maxAttempts)
    ensures attempts == r.attempts || attempts == maxAttempts ==>
              Owed(AfterFailure(r, attempts, maxAttempts, now), maxAttempts) + 1 <= Owed(r, maxAttempts)
  {
    hide Backoff;
  }
}
