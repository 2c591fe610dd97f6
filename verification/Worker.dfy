/** The delivery worker: src/delivery/worker.rs. While it works, everybody else may queue
    mail, change the tables and let time pass; only other workers are excluded. */
module Worker {
  import opened Basics
  import opened Database
  import opened Outbox
  import opened Routing
  import opened Store

  /** One message handed to the relay, and whether it was taken. */
  datatype Transmission = Transmission(sender: string, recipient: string, raw: string, ok: bool)

  /** The outside world; it may refuse anything. */
  class Relay {
    var sent: seq<Transmission>

    method Send(sender: string, recipient: string, raw: string) returns (ok: bool)
      modifies this
      ensures sent == old(sent) + [Transmission(sender, recipient, raw, ok)]
    {
      ok := *;
      sent := sent + [Transmission(sender, recipient, raw, ok)];
    }
  }

  datatype Attempt = Unreadable | Tried(ok: bool)

  /** The statement that writes an attempt back. */
  function WriteBack(c: Claimed, a: Attempt, maxAttempts: int): Statement {
    match a
    case Unreadable => SetFailed(c.id, maxAttempts, maxAttempts)
    case Tried(ok) => if ok then SetDelivered(c.id) else SetFailed(c.id, c.row.attempts, maxAttempts)
  }

  /** What that statement does to the outbox. */
  function Settle(o: Outbox, c: Claimed, a: Attempt, maxAttempts: int, now: int): Outbox {
    match a
    case Unreadable => MarkAttemptFailed(o, c.id, maxAttempts, maxAttempts, now)
    case Tried(ok) =>
      if ok then MarkDelivered(o, c.id) else MarkAttemptFailed(o, c.id, c.row.attempts, maxAttempts, now)
  }

  // ---- Everybody else ----

  /** Nobody else runs the worker's statements. */
  predicate OneWorker(tape: seq<Statement>) {
    forall i :: 0 <= i < |tape| ==> tape[i].Alter? || tape[i].Spool? || tape[i].Insert? || tape[i].Tick?
  }

  /** The attempts granted to the messages that the first `n` statements insert. */
  function Granted(tape: seq<Statement>, n: nat, maxAttempts: int): nat
    requires n <= |tape|
  {
    if n == 0 then 0 else Granted(tape, n - 1, maxAttempts) + if tape[n - 1].Insert? then Cap(maxAttempts) else 0
  }

  /** What others may do to the outbox: new messages, and links of old ones. */
  ghost predicate Undisturbed(o: Outbox, o': Outbox) {
    && (forall id :: id in o ==>
          id in o' && o'[id] == o[id].(aliasId := o'[id].aliasId, contactId := o'[id].contactId))
    && (forall id :: id in o' && id !in o ==> o'[id].status.Pending? && o'[id].attempts == 0)
  }

  ghost predicate Moved(o: Outbox, o': Outbox, granted: int, maxAttempts: int) {
    && Undisturbed(o, o') && TotalOwed(o', maxAttempts) <= TotalOwed(o, maxAttempts) + granted
    && granted >= 0 && (granted == 0 ==> o'.Keys == o.Keys)
  }

  lemma OneMove(cfg: Config, s: Store, st: Statement, maxAttempts: int)
    requires st.Alter? || st.Spool? || st.Insert? || st.Tick?
    ensures Moved(s.outbox, Execute(cfg, s, st).outbox, if st.Insert? then Cap(maxAttempts) else 0, maxAttempts)
  {
    hide TotalOwed, Legal, LinksTo;
    match st
    case Alter(c) => UnlinkOwesTheSame(s.outbox, s.tables.aliases.Keys - Execute(cfg, s, st).tables.aliases.Keys,
                                       s.tables.contacts.Keys - Execute(cfg, s, st).tables.contacts.Keys, maxAttempts);
    case Insert(id, row, raw) =>
      if Insertable(s, id, row, raw) {
        OwedInsert(s.outbox, id, row, maxAttempts);
      }
    case _ =>
  }

  lemma MovedTwice(o: Outbox, o': Outbox, o'': Outbox, m: int, n: int, maxAttempts: int)
    requires Moved(o, o', m, maxAttempts) && Moved(o', o'', n, maxAttempts)
    ensures Moved(o, o'', m + n, maxAttempts)
  {
    hide TotalOwed;
  }

  lemma NotMoved(o: Outbox, maxAttempts: int)
    ensures Moved(o, o, 0, maxAttempts)
  {
    hide TotalOwed;
  }

  lemma {:induction false} OthersMove(cfg: Config, s: Store, tape: seq<Statement>, a: nat, b: nat, maxAttempts: int)
    requires OneWorker(tape) && a <= b <= |tape|
    ensures Moved(s.outbox, ExecuteAll(cfg, s, tape[a..b]).outbox,
                  Granted(tape, b, maxAttempts) - Granted(tape, a, maxAttempts), maxAttempts)
  {
    hide Moved, Execute, ExecuteAll;
    if a == b {
      NothingPlayed(cfg, s, tape, a);
      NotMoved(s.outbox, maxAttempts);
    } else {
      OthersMove(cfg, s, tape, a, b - 1, maxAttempts);
      AllOfOne(cfg, s, tape, a, b - 1);
      OneMove(cfg, ExecuteAll(cfg, s, tape[a..b - 1]), tape[b - 1], maxAttempts);
      MovedTwice(s.outbox, ExecuteAll(cfg, s, tape[a..b - 1]).outbox, ExecuteAll(cfg, s, tape[a..b]).outbox,
                 Granted(tape, b - 1, maxAttempts) - Granted(tape, a, maxAttempts),
                 if tape[b - 1].Insert? then Cap(maxAttempts) else 0, maxAttempts);
    }
  }

  // ---- What became of a claimed message ----

  /** The relay took the message or not, right after the moment `sent`; at the moment `wrote`,
      when the clock said `time`, that was recorded, or the write was lost. */
  datatype Outcome = Outcome(ok: bool, recorded: bool, sent: nat, wrote: nat, time: int)

  function EndOf(x: Outcome): nat { if x.recorded then x.wrote + 1 else x.wrote }

  /** The row as the outcome leaves it. */
  function RowAfter(c: Claimed, x: Outcome, maxAttempts: int): Row {
    if !x.recorded then c.row.(status := Sending)
    else if x.ok then c.row.(status := Delivered)
    else AfterFailure(c.row, c.row.attempts, maxAttempts, x.time)
  }

  predicate UpToLinks(r: Row, r': Row) { r' == r.(aliasId := r'.aliasId, contactId := r'.contactId) }

  predicate Stands(o: Outbox, id: Id, r: Row) { id in o && UpToLinks(r, o[id]) }

  /** The messages dealt with so far stand in the outbox as their outcomes left them. */
  ghost predicate Settled(o: Outbox, cs: seq<Claimed>, xs: seq<Outcome>, maxAttempts: int) {
    && |xs| <= |cs|
    && forall j :: 0 <= j < |xs| ==> Stands(o, cs[j].id, RowAfter(cs[j], xs[j], maxAttempts))
  }

  /** One message between two moments of the history: while the relay had it only others ran
      statements, and then its outcome was the one statement run. */
  ghost predicate Delivers(h: History, c: Claimed, x: Outcome, start: nat, maxAttempts: int) {
    && x.sent == start <= x.wrote && EndOf(x) <= |h.log| < |h.past|
    && OnlyTheirs(h, x.sent, x.wrote) && x.time == h.past[x.wrote].now
    && (x.recorded ==> h.log[x.wrote] == Mine(WriteBack(c, Tried(x.ok), maxAttempts)))
  }

  function StartOf(start: nat, xs: seq<Outcome>, j: nat): nat
    requires j <= |xs|
  {
    if j == 0 then start else EndOf(xs[j - 1])
  }

  ghost predicate DeliversAll(h: History, cs: seq<Claimed>, xs: seq<Outcome>, start: nat, maxAttempts: int) {
    && |xs| <= |cs|
    && forall j :: 0 <= j < |xs| ==> Delivers(h, cs[j], xs[j], StartOf(start, xs, j), maxAttempts)
  }

  lemma DeliversNext(h: History, h': History, cs: seq<Claimed>, xs: seq<Outcome>, start: nat, x: Outcome,
                     maxAttempts: int)
    requires DeliversAll(h, cs, xs, start, maxAttempts) && Extends(h, h') && |h'.log| < |h'.past| && |xs| < |cs|
    requires Delivers(h', cs[|xs|], x, StartOf(start, xs, |xs|), maxAttempts)
    ensures DeliversAll(h', cs, xs + [x], start, maxAttempts)
  {
    hide Extends, Delivers;
    DeliversAllLater(h, h', cs, xs, start, maxAttempts);
    var xs' := xs + [x];
    forall j | 0 <= j < |xs'| ensures Delivers(h', cs[j], xs'[j], StartOf(start, xs', j), maxAttempts) {
      assert StartOf(start, xs', j) == StartOf(start, xs, j);
    }
  }

  lemma DeliversAllLater(h: History, h': History, cs: seq<Claimed>, xs: seq<Outcome>, start: nat, maxAttempts: int)
    requires DeliversAll(h, cs, xs, start, maxAttempts) && Extends(h, h') && |h'.log| < |h'.past|
    ensures DeliversAll(h', cs, xs, start, maxAttempts)
  {
    hide Extends, Delivers;
    forall j | 0 <= j < |xs| ensures Delivers(h', cs[j], xs[j], StartOf(start, xs, j), maxAttempts) {
      DeliversLater(h, h', cs[j], xs[j], StartOf(start, xs, j), maxAttempts);
    }
  }

  lemma DeliversLater(h: History, h': History, c: Claimed, x: Outcome, start: nat, maxAttempts: int)
    requires Delivers(h, c, x, start, maxAttempts) && Extends(h, h') && |h'.log| < |h'.past|
    ensures Delivers(h', c, x, start, maxAttempts)
  {
    hide WriteBack, OnlyTheirs;
    OnlyTheirsStill(h, h', x.sent, x.wrote);
  }

  function Lost(xs: seq<Outcome>): nat {
    if xs == [] then 0 else Lost(xs[..|xs| - 1]) + if xs[|xs| - 1].recorded then 0 else 1
  }

  lemma LostNext(xs: seq<Outcome>, x: Outcome)
    ensures Lost(xs + [x]) == Lost(xs) + if x.recorded then 0 else 1
  {
    assert (xs + [x])[..|xs|] == xs;
  }

  lemma SettledMoves(o: Outbox, o': Outbox, cs: seq<Claimed>, xs: seq<Outcome>, granted: int, maxAttempts: int)
    requires Settled(o, cs, xs, maxAttempts) && Moved(o, o', granted, maxAttempts)
    ensures Settled(o', cs, xs, maxAttempts)
  {
    hide TotalOwed, RowAfter;
    forall j | 0 <= j < |xs| ensures Stands(o', cs[j].id, RowAfter(cs[j], xs[j], maxAttempts)) {
      assert Stands(o, cs[j].id, RowAfter(cs[j], xs[j], maxAttempts));
    }
  }

  lemma SettledNext(o: Outbox, before: Outbox, cs: seq<Claimed>, xs: seq<Outcome>, x: Outcome, lost: nat,
                    maxAttempts: int)
    requires Settled(o, cs, xs, maxAttempts) && Holding(o, before, cs, |xs|, lost, maxAttempts) && |xs| < |cs|
    ensures var o' := if x.recorded then Settle(o, cs[|xs|], Tried(x.ok), maxAttempts, x.time) else o;
            Settled(o', cs, xs + [x], maxAttempts)
  {
    hide Backoff, Healthy, SendingOnly;
    var n, xs' := |xs|, xs + [x];
    var o' := if x.recorded then Settle(o, cs[n], Tried(x.ok), maxAttempts, x.time) else o;
    HeldRow(o, cs, n);
    forall j | 0 <= j < |xs'| ensures Stands(o', cs[j].id, RowAfter(cs[j], xs'[j], maxAttempts)) {
      if j < n {
        assert IdsOf(cs)[j] != IdsOf(cs)[n];
        assert Stands(o, cs[j].id, RowAfter(cs[j], xs[j], maxAttempts));
      }
    }
  }

  // ---- What the worker keeps ----

  /** Every unfinished message has attempts left. */
  ghost predicate Healthy(o: Outbox, maxAttempts: int) {
    forall id :: id in o && !Finished(o[id]) ==> 0 <= o[id].attempts < Cap(maxAttempts)
  }

  /** The row still stands as it was claimed. */
  predicate Holds(o: Outbox, c: Claimed) { Stands(o, c.id, c.row.(status := Sending)) }

  ghost predicate HoldsFrom(o: Outbox, cs: seq<Claimed>, i: nat) {
    && Distinct(IdsOf(cs))
    && forall j :: i <= j < |cs| ==> Holds(o, cs[j])
  }

  /** Nothing is being sent but what was already, and what `cs` from `i` on still holds. */
  ghost predicate SendingOnly(o: Outbox, before: Outbox, cs: seq<Claimed>, i: nat) {
    forall id :: id in o && o[id].status.Sending? ==>
      (id in before && before[id].status.Sending?) || exists j :: i <= j < |cs| && cs[j].id == id
  }

  /** All that the loop over a batch knows of the outbox. */
  ghost predicate Holding(o: Outbox, before: Outbox, cs: seq<Claimed>, i: nat, lost: nat, maxAttempts: int) {
    Healthy(o, maxAttempts) && HoldsFrom(o, cs, i) && (lost == 0 ==> SendingOnly(o, before, cs, i))
  }

  lemma OthersLetHold(o: Outbox, o': Outbox, before: Outbox, cs: seq<Claimed>, i: nat, lost: nat, granted: int,
                      maxAttempts: int)
    requires Moved(o, o', granted, maxAttempts) && Holding(o, before, cs, i, lost, maxAttempts)
    ensures Holding(o', before, cs, i, lost, maxAttempts)
  {
    hide TotalOwed;
  }

  predicate Readable(cs: seq<Claimed>, spool: map<Id, string>) {
    forall i :: 0 <= i < |cs| ==> cs[i].row.rawPath in spool
  }

  /** The row and file of each claimed message, handed over with the given outcomes. */
  function Transmitted(cs: seq<Claimed>, xs: seq<Outcome>, spool: map<Id, string>): seq<Transmission>
    requires |xs| <= |cs| && Readable(cs, spool)
  {
    if xs == [] then [] else
    var n := |xs| - 1;
    var r := cs[n].row;
    Transmitted(cs, xs[..n], spool) + [Transmission(r.envelopeFrom, r.envelopeTo, spool[r.rawPath], xs[n].ok)]
  }

  lemma FileStaysReadable(cs: seq<Claimed>, i: nat, s: Store, s': Store)
    requires Readable(cs, s.spool) && Keeps(s, s') && i < |cs|
    ensures cs[i].row.rawPath in s'.spool && cs[i].row.rawPath in s.spool
    ensures s'.spool[cs[i].row.rawPath] == s.spool[cs[i].row.rawPath]
  {
    hide T.Remembers;
  }

  lemma TransmittedNext(cs: seq<Claimed>, xs: seq<Outcome>, x: Outcome, spool: map<Id, string>)
    requires |xs| < |cs| && Readable(cs, spool)
    ensures var r := cs[|xs|].row;
            Transmitted(cs, xs + [x], spool) == Transmitted(cs, xs, spool) +
              [Transmission(r.envelopeFrom, r.envelopeTo, spool[r.rawPath], x.ok)]
  {
    assert (xs + [x])[..|xs|] == xs;
  }

  lemma SettledRow(o: Outbox, c: Claimed, a: Attempt, maxAttempts: int, now: int)
    requires Healthy(o, maxAttempts) && Holds(o, c)
    ensures var o' := Settle(o, c, a, maxAttempts, now);
            && c.id in o' && o' == o[c.id := o'[c.id]] && !o'[c.id].status.Sending?
            && (!Finished(o'[c.id]) ==> 0 <= o'[c.id].attempts < Cap(maxAttempts))
            && Owed(o'[c.id], maxAttempts) + 1 <= Owed(o[c.id], maxAttempts)
  {
    hide Backoff;
    AttemptTakesWork(o[c.id], if a.Tried? then c.row.attempts else maxAttempts, maxAttempts, now);
  }

  lemma SettleOne(o: Outbox, cs: seq<Claimed>, i: nat, a: Attempt, before: Outbox, lost: nat, maxAttempts: int,
                  now: int)
    requires Holding(o, before, cs, i, lost, maxAttempts) && i < |cs|
    ensures var o' := Settle(o, cs[i], a, maxAttempts, now);
            && Holding(o', before, cs, i + 1, lost, maxAttempts)
            && TotalOwed(o', maxAttempts) + 1 <= TotalOwed(o, maxAttempts)
  {
    hide TotalOwed, Owed, HoldsFrom, SendingOnly, Backoff;
    var c := cs[i];
    HeldRow(o, cs, i);
    SettledRow(o, c, a, maxAttempts, now);
    var o' := Settle(o, c, a, maxAttempts, now);
    OwedUpdate(o, c.id, o'[c.id], maxAttempts);
    OthersHeld(o, o', cs, i, before);
  }

  lemma HeldRow(o: Outbox, cs: seq<Claimed>, i: nat)
    requires HoldsFrom(o, cs, i) && i < |cs|
    ensures Holds(o, cs[i])
  {
  }

  lemma OthersHeld(o: Outbox, o': Outbox, cs: seq<Claimed>, i: nat, before: Outbox)
    requires HoldsFrom(o, cs, i) && i < |cs| && cs[i].id in o' && o' == o[cs[i].id := o'[cs[i].id]]
    requires !o'[cs[i].id].status.Sending?
    ensures HoldsFrom(o', cs, i + 1)
    ensures SendingOnly(o, before, cs, i) ==> SendingOnly(o', before, cs, i + 1)
  {
    forall j | i < j < |cs| ensures Holds(o', cs[j]) {
      assert IdsOf(cs)[j] != IdsOf(cs)[i];
    }
    if SendingOnly(o, before, cs, i) {
      forall id | id in o' && o'[id].status.Sending?
        ensures (id in before && before[id].status.Sending?) || exists j :: i + 1 <= j < |cs| && cs[j].id == id
      {
        assert id != cs[i].id && o[id].status.Sending?;
      }
    }
  }

  lemma LoseOne(o: Outbox, before: Outbox, cs: seq<Claimed>, i: nat, lost: nat, maxAttempts: int)
    requires Holding(o, before, cs, i, lost, maxAttempts)
    ensures Holding(o, before, cs, i + 1, lost + 1, maxAttempts)
  {
  }

  lemma StartHolding(o: Outbox, cs: seq<Claimed>, now: int, limit: nat, maxAttempts: int)
    requires Healthy(o, maxAttempts) && IsSelection(o, now, limit, IdsOf(cs))
    requires forall i :: 0 <= i < |cs| ==> cs[i].row == o[cs[i].id]
    ensures var o' := MarkAllSending(o, IdsOf(cs));
            Holding(o', o, cs, 0, 0, maxAttempts) && TotalOwed(o', maxAttempts) == TotalOwed(o, maxAttempts)
  {
    hide MarkAllSending, TotalOwed;
    ClaimOwesTheSame(o, IdsOf(cs), maxAttempts);
    MarkedSending(o, IdsOf(cs));
    forall i | 0 <= i < |cs| ensures IdsOf(cs)[i] == cs[i].id && cs[i].id in IdsOf(cs) {
    }
  }

  lemma ClaimsAreReadable(cfg: Config, s: Store, now: int, limit: nat, cs: seq<Claimed>)
    requires Good(cfg, s) && IsSelection(s.outbox, now, limit, IdsOf(cs))
    requires forall i :: 0 <= i < |cs| ==> cs[i].row == s.outbox[cs[i].id]
    ensures IsBatch(s, cs) && Readable(cs, s.spool)
    ensures |cs| <= limit && (cs == [] ==> MarkAllSending(s.outbox, IdsOf(cs)) == s.outbox)
  {
    forall i | 0 <= i < |cs| ensures cs[i].row.rawPath in s.spool {
      assert IdsOf(cs)[i] == cs[i].id;
    }
  }

  /** src/delivery/worker.rs:68-112: read the file, hand it over, write back the outcome.
      `mid` is the outbox that the outcome is written to. */
  method Deliver(db: Database, relay: Relay, c: Claimed, maxAttempts: int)
    returns (recorded: bool, attempt: Attempt, ghost mid: Outbox, ghost wrote: nat)
    requires db.Valid() && OneWorker(db.tape)
    modifies db, relay
    ensures db.reliable ==> recorded
    ensures db.Valid() && Extends(old(db.history), db.history) && old(db.played) <= db.played
    ensures Moved(old(db.outbox), mid,
                  Granted(db.tape, db.played, maxAttempts) - Granted(db.tape, old(db.played), maxAttempts), maxAttempts)
    ensures db.outbox == if recorded then Settle(mid, c, attempt, maxAttempts, db.now) else mid
    ensures old(db.Time()) <= wrote && OnlyTheirs(db.history, old(db.Time()), wrote)
    ensures db.Time() == wrote + (if recorded then 1 else 0) && db.history.past[wrote].now == db.now
    ensures recorded ==> db.history.log[wrote] == Mine(WriteBack(c, attempt, maxAttempts))
    ensures attempt.Tried? <==> c.row.rawPath in old(db.spool)
    ensures relay.sent == old(relay.sent) +
              if attempt.Unreadable? then []
              else [Transmission(c.row.envelopeFrom, c.row.envelopeTo, old(db.spool)[c.row.rawPath], attempt.ok)]
  {
    hide Told, Mines, Thems, Moved, Execute, ExecuteAll, Keeps, MarkAttemptFailed, MarkDelivered;
    wrote := db.Time();
    if c.row.rawPath !in db.spool {
      attempt, mid := Unreadable, db.outbox;
      NotMoved(mid, maxAttempts);
      recorded := db.MarkMessageFailed(c.id, maxAttempts, maxAttempts);
      return;
    }
    var ok := relay.Send(c.row.envelopeFrom, c.row.envelopeTo, db.spool[c.row.rawPath]);
    attempt := Tried(ok);
    db.Meanwhile();
    OthersMove(db.cfg, old(db.Now()), db.tape, old(db.played), db.played, maxAttempts);
    mid, wrote := db.outbox, db.Time();
    if ok {
      recorded := db.MarkMessageDelivered(c.id);
    } else {
      recorded := db.MarkMessageFailed(c.id, c.row.attempts, maxAttempts);
    }
  }

  /** One turn of the endless loop, between two moments of the history. */
  datatype Round = Round(from: nat, to: nat, failed: bool, claimed: seq<Claimed>, outcomes: seq<Outcome>)

  /** Either claiming failed, or a selection of the due messages was claimed in one statement,
      each was handed over and written back in turn, and now stands as its outcome left it; we
      ran nothing else, and went to sleep only if nothing was claimed. */
  ghost predicate IsRound(h: History, r: Round, maxAttempts: int) {
    && r.from <= r.to <= |h.log| < |h.past| && |r.claimed| == |r.outcomes|
    && if r.failed then r.claimed == [] && OnlyTheirs(h, r.from, r.to) else
       && r.from < r.to && h.log[r.from] == Mine(Claim(IdsOf(r.claimed)))
       && IsSelection(h.past[r.from].outbox, h.past[r.from].now, 10, IdsOf(r.claimed))
       && IsBatch(h.past[r.from], r.claimed)
       && DeliversAll(h, r.claimed, r.outcomes, r.from + 1, maxAttempts)
       && Settled(h.past[r.to].outbox, r.claimed, r.outcomes, maxAttempts)
       && var end := StartOf(r.from + 1, r.outcomes, |r.outcomes|);
       && (r.claimed != [] ==> r.to == end) && OnlyTheirs(h, end, r.to)
  }

  /** Rows of the outbox whose files are there. */
  ghost predicate IsBatch(s: Store, cs: seq<Claimed>) {
    && Readable(cs, s.spool)
    && forall i :: 0 <= i < |cs| ==> cs[i].id in s.outbox && cs[i].row == s.outbox[cs[i].id]
  }

  ghost function HandedOver(h: History, r: Round, maxAttempts: int): seq<Transmission>
    requires IsRound(h, r, maxAttempts)
  {
    if r.failed then [] else Transmitted(r.claimed, r.outcomes, h.past[r.from].spool)
  }

  /** src/delivery/worker.rs:39-61. */
  method DrainOutbox(db: Database, relay: Relay, maxAttempts: int) returns (r: Result<nat>, ghost round: Round)
    requires db.Valid() && OneWorker(db.tape) && Healthy(db.outbox, maxAttempts)
    modifies db, relay
    ensures db.reliable ==> !round.failed && Lost(round.outcomes) == 0
    ensures db.Valid() && Extends(old(db.history), db.history) && old(db.played) <= db.played
    ensures IsRound(db.history, round, maxAttempts) && round.from == old(db.Time()) && round.to == db.Time()
    ensures r == if round.failed then Err else Ok(|round.claimed|)
    ensures relay.sent == old(relay.sent) + HandedOver(db.history, round, maxAttempts)
    ensures Healthy(db.outbox, maxAttempts)
    ensures round.claimed == [] ==> db.outbox == old(db.outbox)
    ensures TotalOwed(db.outbox, maxAttempts) + |round.claimed|
            <= TotalOwed(old(db.outbox), maxAttempts) + Lost(round.outcomes)
               + Granted(db.tape, db.played, maxAttempts) - Granted(db.tape, old(db.played), maxAttempts)
    ensures Lost(round.outcomes) == 0 ==> SendingOnly(db.outbox, old(db.outbox), [], 0)
  {
    hide Told, Extends, Mines, Thems, IsSelection, MarkAllSending, TotalOwed, Settle, Healthy, Holding, SendingOnly,
         Moved, Transmitted, Readable, Granted, Good, Keeps, Execute, ExecuteAll, Settled, DeliversAll, Lost, WriteBack,
         IsBatch;
    ghost var h0, t := db.history, db.Time();
    round := Round(t, t, true, [], []);
    db.Present();
    NothingClaimed(db.outbox);
    NoMore(relay.sent);
    var messages := db.ClaimDue(BATCH_SIZE);
    if messages.Err? {
      return Err, round;
    }
    var cs := messages.value;
    ghost var xs: seq<Outcome> := [];
    ClaimsAreReadable(db.cfg, old(db.Now()), db.now, BATCH_SIZE, cs);
    StartHolding(old(db.outbox), cs, db.now, BATCH_SIZE, maxAttempts);
    NoneTransmitted(db.history, cs, old(db.spool), db.outbox, t + 1, maxAttempts);
    db.KeptSince(h0);
    for i := 0 to |cs|
      invariant db.Valid() && Extends(h0, db.history) && old(db.played) <= db.played
      invariant t < db.Time() && db.history.log[t] == Mine(Claim(IdsOf(cs)))
      invariant Keeps(old(db.Now()), db.Now())
      invariant |xs| == i && Holding(db.outbox, old(db.outbox), cs, i, Lost(xs), maxAttempts)
      invariant db.reliable ==> Lost(xs) == 0
      invariant TotalOwed(db.outbox, maxAttempts) + i <= TotalOwed(old(db.outbox), maxAttempts) + Lost(xs)
                  + Granted(db.tape, db.played, maxAttempts) - Granted(db.tape, old(db.played), maxAttempts)
      invariant cs == [] ==> db.outbox == old(db.outbox)
      invariant DeliversAll(db.history, cs, xs, t + 1, maxAttempts) && StartOf(t + 1, xs, i) == db.Time()
      invariant Settled(db.outbox, cs, xs, maxAttempts)
      invariant relay.sent == old(relay.sent) + Transmitted(cs, xs, old(db.spool))
    {
      ghost var h, o, p := db.history, db.outbox, db.played;
      FileStaysReadable(cs, i, old(db.Now()), db.Now());
      var recorded, attempt, mid, wrote := Deliver(db, relay, cs[i], maxAttempts);
      ghost var x := Outcome(attempt.ok, recorded, |h.log|, wrote, db.now);
      ExtendsOn(h0, h, db.history);
      db.KeptSince(h0);
      SameAt(h, db.history, t);
      ghost var granted := Granted(db.tape, db.played, maxAttempts) - Granted(db.tape, p, maxAttempts);
      MovedOwes(o, mid, granted, maxAttempts);
      OthersLetHold(o, mid, old(db.outbox), cs, i, Lost(xs), granted, maxAttempts);
      SettledMoves(o, mid, cs, xs, granted, maxAttempts);
      SettledNext(mid, old(db.outbox), cs, xs, x, Lost(xs), maxAttempts);
      if recorded {
        SettleOne(mid, cs, i, attempt, old(db.outbox), Lost(xs), maxAttempts, db.now);
      } else {
        LoseOne(mid, old(db.outbox), cs, i, Lost(xs), maxAttempts);
      }
      DeliversNext(h, db.history, cs, xs, t + 1, x, maxAttempts);
      TransmittedNext(cs, xs, x, old(db.spool));
      LostNext(xs, x);
      xs := xs + [x];
    }
    round := Round(t, db.Time(), false, cs, xs);
    MomentStays(h0, db.history);
    AllSettled(db.outbox, old(db.outbox), cs, Lost(xs), maxAttempts);
    return Ok(|cs|), round;
  }

  lemma MovedOwes(o: Outbox, o': Outbox, granted: int, maxAttempts: int)
    requires Moved(o, o', granted, maxAttempts)
    ensures TotalOwed(o', maxAttempts) <= TotalOwed(o, maxAttempts) + granted
  {
    hide TotalOwed;
  }

  lemma NoneTransmitted(h: History, cs: seq<Claimed>, spool: map<Id, string>, o: Outbox, start: nat, maxAttempts: int)
    requires Readable(cs, spool)
    ensures Transmitted(cs, [], spool) == [] && DeliversAll(h, cs, [], start, maxAttempts) && Lost([]) == 0
    ensures Settled(o, cs, [], maxAttempts)
  {
  }

  lemma NothingClaimed(o: Outbox)
    ensures SendingOnly(o, o, [], 0) && Lost([]) == 0
  {
  }

  lemma AllSettled(o: Outbox, before: Outbox, cs: seq<Claimed>, lost: nat, maxAttempts: int)
    requires Holding(o, before, cs, |cs|, lost, maxAttempts)
    ensures Healthy(o, maxAttempts) && (lost == 0 ==> SendingOnly(o, before, [], 0))
  {
  }

  // ---- Many passes ----

  ghost predicate NoneSending(o: Outbox) {
    forall id :: id in o ==> !o[id].status.Sending?
  }

  ghost predicate AllFinished(o: Outbox) {
    forall id :: id in o ==> Finished(o[id])
  }

  /** Every retry time has come. */
  ghost predicate AllRipe(o: Outbox, now: int) {
    forall id :: id in o ==> o[id].nextAttempt <= now
  }

  lemma RequeueFrees(o: Outbox, now: int, maxAttempts: int)
    requires Healthy(o, maxAttempts)
    ensures NoneSending(Requeue(o, now)) && Healthy(Requeue(o, now), maxAttempts)
    ensures TotalOwed(Requeue(o, now), maxAttempts) == TotalOwed(o, maxAttempts)
  {
    hide TotalOwed;
    RequeueOwesTheSame(o, now, maxAttempts);
  }

  lemma StillNoneSending(o: Outbox, before: Outbox)
    requires NoneSending(before) && SendingOnly(o, before, [], 0)
    ensures NoneSending(o)
  {
  }

  lemma OthersLetBe(o: Outbox, o': Outbox, granted: int, maxAttempts: int)
    requires Moved(o, o', granted, maxAttempts)
    ensures Healthy(o, maxAttempts) ==> Healthy(o', maxAttempts)
    ensures NoneSending(o) ==> NoneSending(o')
    ensures granted == 0 && AllFinished(o) ==> AllFinished(o')
  {
    hide TotalOwed;
  }

  /** A finished outbox has nothing to claim; with nothing being sent and every retry time
      come, only a finished one has. */
  lemma WhatAPassClaims(o: Outbox, now: int, cs: seq<Claimed>)
    requires IsSelection(o, now, BATCH_SIZE, IdsOf(cs))
    ensures AllFinished(o) ==> cs == []
    ensures NoneSending(o) && AllRipe(o, now) && cs == [] ==> AllFinished(o)
  {
    if cs != [] {
      assert IsDue(o[IdsOf(cs)[0]], now);
    }
  }

  lemma {:induction false} GrantedGrows(tape: seq<Statement>, a: nat, b: nat, maxAttempts: int)
    requires a <= b <= |tape|
    ensures Granted(tape, a, maxAttempts) <= Granted(tape, b, maxAttempts)
  {
    if a < b {
      GrantedGrows(tape, a, b - 1, maxAttempts);
    }
  }

  /** While the worker sleeps, or anything else takes its time. */
  method Sleep(db: Database, maxAttempts: int)
    requires db.Valid() && OneWorker(db.tape)
    modifies db
    ensures db.Valid() && Extends(old(db.history), db.history) && old(db.played) <= db.played
    ensures OnlyTheirs(db.history, old(db.Time()), db.Time())
    ensures var granted := Granted(db.tape, db.played, maxAttempts) - Granted(db.tape, old(db.played), maxAttempts);
            && Moved(old(db.outbox), db.outbox, granted, maxAttempts) && granted >= 0
            && TotalOwed(db.outbox, maxAttempts) <= TotalOwed(old(db.outbox), maxAttempts) + granted
  {
    hide Told, Extends, Mines, Thems, TotalOwed, Granted, Moved, ExecuteAll, Keeps;
    db.Meanwhile();
    OthersMove(db.cfg, old(db.Now()), db.tape, old(db.played), db.played, maxAttempts);
    ghost var granted := Granted(db.tape, db.played, maxAttempts) - Granted(db.tape, old(db.played), maxAttempts);
    MovedOwes(old(db.outbox), db.outbox, granted, maxAttempts);
    GrantedGrows(db.tape, old(db.played), db.played, maxAttempts);
  }

  /** One turn of the endless loop: a pass, and a sleep unless something was claimed. */
  method Pass(db: Database, relay: Relay, maxAttempts: int) returns (ghost round: Round)
    requires db.Valid() && OneWorker(db.tape) && Healthy(db.outbox, maxAttempts)
    modifies db, relay
    ensures db.reliable ==> !round.failed && Lost(round.outcomes) == 0
    ensures db.Valid() && Extends(old(db.history), db.history) && old(db.played) <= db.played
    ensures IsRound(db.history, round, maxAttempts) && round.from == old(db.Time()) && round.to == db.Time()
    ensures relay.sent == old(relay.sent) + HandedOver(db.history, round, maxAttempts)
    ensures Healthy(db.outbox, maxAttempts)
    ensures var granted := Granted(db.tape, db.played, maxAttempts) - Granted(db.tape, old(db.played), maxAttempts);
            && TotalOwed(db.outbox, maxAttempts) + |round.claimed|
               <= TotalOwed(old(db.outbox), maxAttempts) + Lost(round.outcomes) + granted
            && (Lost(round.outcomes) == 0 && NoneSending(old(db.outbox)) ==> NoneSending(db.outbox))
            && (granted == 0 && AllFinished(old(db.outbox)) ==> AllFinished(db.outbox))
            && (granted == 0 && NoneSending(old(db.outbox)) && AllRipe(old(db.outbox), old(db.now)) ==>
                  round.failed || round.claimed != [] || AllFinished(db.outbox))
  {
    hide Told, Extends, Mines, Thems, TotalOwed, Healthy, SendingOnly, NoneSending, AllFinished, AllRipe, IsSelection,
         Granted, Moved, IsRound, HandedOver, Lost;
    ghost var h0, o := db.history, db.outbox;
    var r;
    r, round := DrainOutbox(db, relay, maxAttempts);
    if Lost(round.outcomes) == 0 && NoneSending(o) {
      StillNoneSending(db.outbox, o);
    }
    WhatARoundClaims(h0, db.history, round, maxAttempts);
    if r.Err? || r.value == 0 {
      ghost var h, o', p' := db.history, db.outbox, db.played;
      Sleep(db, maxAttempts);
      ExtendsOn(h0, h, db.history);
      SleepAfter(h, db.history, round, maxAttempts);
      round := round.(to := db.Time());
      ghost var granted := Granted(db.tape, db.played, maxAttempts) - Granted(db.tape, p', maxAttempts);
      OthersLetBe(o', db.outbox, granted, maxAttempts);
      GrantedGrows(db.tape, old(db.played), p', maxAttempts);
    }
  }

  lemma WhatARoundClaims(h: History, h': History, r: Round, maxAttempts: int)
    requires IsRound(h', r, maxAttempts) && Extends(h, h') && |h.past| == |h.log| + 1 && r.from == |h.log|
    ensures AllFinished(Last(h).outbox) ==> r.claimed == []
    ensures !r.failed && r.claimed == [] && NoneSending(Last(h).outbox) && AllRipe(Last(h).outbox, Last(h).now) ==>
              AllFinished(Last(h).outbox)
  {
    hide IsSelection, AllFinished, NoneSending, AllRipe, DeliversAll, Settled, IsBatch;
    MomentStays(h, h');
    if !r.failed {
      WhatAPassClaims(Last(h).outbox, Last(h).now, r.claimed);
    }
  }

  lemma SleepAfter(h: History, h': History, r: Round, maxAttempts: int)
    requires IsRound(h, r, maxAttempts) && Extends(h, h') && (r.failed || |r.claimed| == 0) && r.to == |h.log|
    requires OnlyTheirs(h', |h.log|, |h'.log|) && |h'.log| < |h'.past|
    ensures var r' := r.(to := |h'.log|);
            IsRound(h', r', maxAttempts) && HandedOver(h', r', maxAttempts) == HandedOver(h, r, maxAttempts)
  {
    hide IsSelection;
  }

  // ---- Any number of passes ----

  /** Turn after turn, without anything of ours in between. */
  ghost predicate AreRounds(h: History, rs: seq<Round>, from: nat, to: nat, maxAttempts: int) {
    if rs == [] then from == to else
    var r := rs[|rs| - 1];
    IsRound(h, r, maxAttempts) && r.to == to && AreRounds(h, rs[..|rs| - 1], from, r.from, maxAttempts)
  }

  ghost function AllHandedOver(h: History, rs: seq<Round>, from: nat, to: nat, maxAttempts: int): seq<Transmission>
    requires AreRounds(h, rs, from, to, maxAttempts)
  {
    if rs == [] then [] else
    var r := rs[|rs| - 1];
    AllHandedOver(h, rs[..|rs| - 1], from, r.from, maxAttempts) + HandedOver(h, r, maxAttempts)
  }

  /** How many messages were claimed, in all. */
  function Claims(rs: seq<Round>): nat {
    if rs == [] then 0 else Claims(rs[..|rs| - 1]) + |rs[|rs| - 1].claimed|
  }

  function Errors(rs: seq<Round>): nat {
    if rs == [] then 0 else Errors(rs[..|rs| - 1]) + if rs[|rs| - 1].failed then 1 else 0
  }

  function AllLost(rs: seq<Round>): nat {
    if rs == [] then 0 else AllLost(rs[..|rs| - 1]) + Lost(rs[|rs| - 1].outcomes)
  }

  /** How many turns began with every retry time come. */
  ghost function Ripe(h: History, rs: seq<Round>, from: nat, to: nat, maxAttempts: int): nat
    requires AreRounds(h, rs, from, to, maxAttempts)
  {
    if rs == [] then 0 else
    var r := rs[|rs| - 1];
    Ripe(h, rs[..|rs| - 1], from, r.from, maxAttempts) +
    if AllRipe(h.past[r.from].outbox, h.past[r.from].now) then 1 else 0
  }

  lemma NoRounds(h: History, from: nat, maxAttempts: int)
    ensures AreRounds(h, [], from, from, maxAttempts) && AllHandedOver(h, [], from, from, maxAttempts) == []
    ensures Claims([]) == 0 && Errors([]) == 0 && AllLost([]) == 0 && Ripe(h, [], from, from, maxAttempts) == 0
  {
  }

  lemma RoundLater(h: History, h': History, r: Round, maxAttempts: int)
    requires IsRound(h, r, maxAttempts) && Extends(h, h') && |h'.log| < |h'.past|
    ensures IsRound(h', r, maxAttempts) && HandedOver(h', r, maxAttempts) == HandedOver(h, r, maxAttempts)
    ensures r.from <= |h.log| && r.from < |h.past| && h'.past[r.from] == h.past[r.from]
  {
    hide IsSelection, Settled, IsBatch, DeliversAll, OnlyTheirs, Transmitted;
    if r.failed {
      OnlyTheirsStill(h, h', r.from, r.to);
    } else {
      DeliversAllLater(h, h', r.claimed, r.outcomes, r.from + 1, maxAttempts);
      OnlyTheirsStill(h, h', StartOf(r.from + 1, r.outcomes, |r.outcomes|), r.to);
    }
  }

  lemma {:induction false} RoundsLater(h: History, h': History, rs: seq<Round>, from: nat, to: nat, maxAttempts: int)
    requires AreRounds(h, rs, from, to, maxAttempts) && Extends(h, h') && |h'.log| < |h'.past|
    ensures AreRounds(h', rs, from, to, maxAttempts)
    ensures AllHandedOver(h', rs, from, to, maxAttempts) == AllHandedOver(h, rs, from, to, maxAttempts)
    ensures Ripe(h', rs, from, to, maxAttempts) == Ripe(h, rs, from, to, maxAttempts)
  {
    hide IsRound, HandedOver, AllRipe, Extends;
    if rs != [] {
      var r := rs[|rs| - 1];
      RoundLater(h, h', r, maxAttempts);
      RoundsLater(h, h', rs[..|rs| - 1], from, r.from, maxAttempts);
    }
  }

  lemma OneMoreRound(h: History, h': History, rs: seq<Round>, from: nat, r: Round, maxAttempts: int)
    requires AreRounds(h, rs, from, r.from, maxAttempts) && Extends(h, h') && |h'.log| < |h'.past|
    requires IsRound(h', r, maxAttempts)
    ensures AreRounds(h', rs + [r], from, r.to, maxAttempts)
    ensures AllHandedOver(h', rs + [r], from, r.to, maxAttempts)
            == AllHandedOver(h, rs, from, r.from, maxAttempts) + HandedOver(h', r, maxAttempts)
    ensures Ripe(h', rs + [r], from, r.to, maxAttempts)
            == Ripe(h, rs, from, r.from, maxAttempts)
               + if AllRipe(h'.past[r.from].outbox, h'.past[r.from].now) then 1 else 0
    ensures Claims(rs + [r]) == Claims(rs) + |r.claimed|
    ensures Errors(rs + [r]) == Errors(rs) + if r.failed then 1 else 0
    ensures AllLost(rs + [r]) == AllLost(rs) + Lost(r.outcomes)
  {
    hide IsRound, HandedOver, AllRipe, Extends, Lost;
    assert (rs + [r])[..|rs|] == rs;
    RoundsLater(h, h', rs, from, r.from, maxAttempts);
    RoundStarts(h', r, maxAttempts);
  }

  lemma RoundStarts(h: History, r: Round, maxAttempts: int)
    requires IsRound(h, r, maxAttempts)
    ensures r.from < |h.past|
  {
  }

  /** The worker from its start, when it requeues what was interrupted, until it stops. */
  datatype Life = Life(start: nat, to: nat, rounds: seq<Round>)

  ghost predicate IsLife(h: History, l: Life, maxAttempts: int) {
    && l.start < |h.log| && h.log[l.start] == Mine(RequeueAll)
    && AreRounds(h, l.rounds, l.start + 1, l.to, maxAttempts) && l.to <= |h.log|
  }

  /** src/delivery/worker.rs:12-35, watched for any number of turns of its endless loop. What
      is claimed is paid for by the attempts owed at the start, new mail and lost status
      writes. And without losses and new mail, once there were more turns that began with
      every retry time come than attempts owed at the start and failed claims, every message
      is delivered or failed. */
  method RunDeliveryWorker(db: Database, relay: Relay, maxAttempts: int, turns: nat)
    returns (started: bool, ghost life: Life)
    requires db.Valid() && OneWorker(db.tape) && Healthy(db.outbox, maxAttempts)
    modifies db, relay
    ensures db.reliable ==> started && AllLost(life.rounds) == 0 && Errors(life.rounds) == 0
    ensures db.Valid() && Extends(old(db.history), db.history) && old(db.played) <= db.played
    ensures !started ==>
              && db.history == old(db.history) && db.Now() == old(db.Now()) && relay.sent == old(relay.sent)
              && life.rounds == []
    ensures started ==>
              && life.start == old(db.Time()) && life.to == db.Time() && |life.rounds| == turns
              && IsLife(db.history, life, maxAttempts)
              && relay.sent == old(relay.sent)
                   + AllHandedOver(db.history, life.rounds, life.start + 1, life.to, maxAttempts)
    ensures Healthy(db.outbox, maxAttempts)
    ensures started ==>
              var owed := TotalOwed(old(db.outbox), maxAttempts);
              var granted := Granted(db.tape, db.played, maxAttempts)
                             - Granted(db.tape, old(db.played), maxAttempts);
              && Claims(life.rounds) + TotalOwed(db.outbox, maxAttempts) <= owed + AllLost(life.rounds) + granted
              && (AllLost(life.rounds) == 0 ==> NoneSending(db.outbox))
              && (AllLost(life.rounds) == 0 && granted == 0
                  && Ripe(db.history, life.rounds, life.start + 1, life.to, maxAttempts)
                     > owed + Errors(life.rounds) ==>
                    AllFinished(db.outbox))
  {
    hide Told, Extends, Mines, Thems, TotalOwed, Healthy, NoneSending, AllFinished, AllRipe, Requeue, Granted, IsRound,
         HandedOver, AreRounds, AllHandedOver, Ripe, Claims, Errors, AllLost, Lost;
    ghost var rounds: seq<Round> := [];
    ghost var h0, t := db.history, db.Time() + 1;
    life := Life(db.Time(), db.Time(), []);
    ReflexiveHistory(h0);
    started := db.RequeueInterrupted();
    NoRounds(db.history, t, maxAttempts);
    if !started {
      return;
    }
    NoMore(relay.sent);
    RequeueFrees(old(db.outbox), db.now, maxAttempts);
    for turn := 0 to turns
      invariant db.Valid() && Extends(h0, db.history) && old(db.played) <= db.played
      invariant Healthy(db.outbox, maxAttempts) && |rounds| == turn
      invariant db.reliable ==> AllLost(rounds) == 0 && Errors(rounds) == 0
      invariant |h0.log| < db.Time() && db.history.log[|h0.log|] == Mine(RequeueAll)
      invariant AreRounds(db.history, rounds, t, db.Time(), maxAttempts)
      invariant relay.sent == old(relay.sent) + AllHandedOver(db.history, rounds, t, db.Time(), maxAttempts)
      invariant Claims(rounds) + TotalOwed(db.outbox, maxAttempts)
                <= TotalOwed(old(db.outbox), maxAttempts) + AllLost(rounds)
                   + Granted(db.tape, db.played, maxAttempts) - Granted(db.tape, old(db.played), maxAttempts)
      invariant Granted(db.tape, old(db.played), maxAttempts) <= Granted(db.tape, db.played, maxAttempts)
      invariant AllLost(rounds) == 0 ==> NoneSending(db.outbox)
      invariant AllLost(rounds) == 0 ==>
                  Granted(db.tape, db.played, maxAttempts) > Granted(db.tape, old(db.played), maxAttempts)
                  || AllFinished(db.outbox)
                  || Ripe(db.history, rounds, t, db.Time(), maxAttempts) <= Claims(rounds) + Errors(rounds)
    {
      ghost var h, p := db.history, db.played;
      ghost var round := Pass(db, relay, maxAttempts);
      ExtendsOn(h0, h, db.history);
      MomentStays(h, db.history);
      SameAt(h, db.history, |h0.log|);
      GrantedGrows(db.tape, p, db.played, maxAttempts);
      OneMoreRound(h, db.history, rounds, t, round, maxAttempts);
      rounds := rounds + [round];
    }
    life := Life(|h0.log|, db.Time(), rounds);
  }

  /** No work owed means every message is delivered or failed, and the other way round. */
  lemma NothingOwedMeansFinished(o: Outbox, maxAttempts: int)
    requires Healthy(o, maxAttempts)
    ensures TotalOwed(o, maxAttempts) == 0 <==> AllFinished(o)
  {
    hide TotalOwed;
    if id :| id in o && !Finished(o[id]) {
      OwedPositive(o, id, maxAttempts);
    } else {
      FinishedOwesNothing(o, maxAttempts);
    }
  }

  lemma {:induction false} FinishedOwesNothing(o: Outbox, maxAttempts: int)
    requires AllFinished(o)
    ensures TotalOwed(o, maxAttempts) == 0
    decreases |o|
  {
    if o != map[] {
      var id :| id in o;
      OwedSplit(o, id, maxAttempts);
      FinishedOwesNothing(o - {id}, maxAttempts);
    }
  }
}
