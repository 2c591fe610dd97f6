/** The database and the spool directory as one value, the statements that the source runs on
    them, and what a history of such statements can never take back. */
module Store {
  import opened Basics
  import opened Outbox
  import opened Routing
  import T = Tables

  datatype Store = Store(tables: T.Tables, outbox: Outbox, spool: map<Id, string>, nextFile: Id, now: int)

  datatype Statement =
    | Alter(change: T.Change)
    | Spool(raw: string)
    | Insert(id: Id, row: Row, raw: string)
    | Claim(ids: seq<Id>)
    | RequeueAll
    | SetDelivered(id: Id)
    | SetFailed(id: Id, attempts: int, maxAttempts: int)
    | Tick(time: int)

  /** The foreign keys of the outbox. */
  predicate Linked(aliasId: Option<Id>, contactId: Option<Id>, t: T.Tables) {
    && (aliasId.Some? ==> aliasId.value in t.aliases)
    && (contactId.Some? ==> contactId.value in t.contacts)
  }

  predicate LinksTo(r: Row, t: T.Tables) { Linked(r.aliasId, r.contactId, t) }

  /** A new row, under a fresh identifier, for a file that already holds its bytes. */
  predicate Insertable(s: Store, id: Id, row: Row, raw: string) {
    && id !in s.outbox && id in s.spool && s.spool[id] == raw
    && row.rawPath == id && row.status.Pending? && row.attempts == 0 && LinksTo(row, s.tables)
  }

  /** ON DELETE SET NULL. */
  function Unlinked(o: Outbox, t: T.Tables, t': T.Tables): Outbox {
    Unlink(o, t.aliases.Keys - t'.aliases.Keys, t.contacts.Keys - t'.contacts.Keys)
  }

  /** A statement that the constraints forbid changes nothing. */
  function Execute(cfg: Config, s: Store, st: Statement): Store {
    match st
    case Alter(c) =>
      if !Legal(c, cfg) then s else
      var t := T.Apply(s.tables, c);
      s.(tables := t, outbox := Unlinked(s.outbox, s.tables, t))
    case Spool(raw) => s.(spool := s.spool[s.nextFile := raw], nextFile := s.nextFile + 1)
    case Insert(id, row, raw) => if Insertable(s, id, row, raw) then s.(outbox := s.outbox[id := row]) else s
    case Claim(ids) => s.(outbox := MarkAllSending(s.outbox, ids))
    case RequeueAll => s.(outbox := Requeue(s.outbox, s.now))
    case SetDelivered(id) => s.(outbox := MarkDelivered(s.outbox, id))
    case SetFailed(id, attempts, maxAttempts) =>
      s.(outbox := MarkAttemptFailed(s.outbox, id, attempts, maxAttempts, s.now))
    case Tick(time) => if time >= s.now then s.(now := time) else s
  }

  function ExecuteAll(cfg: Config, s: Store, sts: seq<Statement>): Store {
    if sts == [] then s else Execute(cfg, ExecuteAll(cfg, s, sts[..|sts| - 1]), sts[|sts| - 1])
  }

  // ---- What always holds ----

  ghost predicate RowsOk(s: Store) {
    forall id :: id in s.outbox ==> id in s.spool && s.outbox[id].rawPath == id && LinksTo(s.outbox[id], s.tables)
  }

  ghost predicate FilesOk(s: Store) {
    forall id :: id in s.spool ==> id < s.nextFile
  }

  ghost predicate Good(cfg: Config, s: Store) {
    T.Consistent(s.tables) && AllGenerated(s.tables, cfg) && RowsOk(s) && FilesOk(s)
  }

  /** Nothing is taken back: tables remember, rows stay under their envelope, files stay. */
  ghost predicate Keeps(s: Store, s': Store) {
    && T.Remembers(s.tables, s'.tables) && s.nextFile <= s'.nextFile
    && (forall id :: id in s.outbox ==> id in s'.outbox && SameEnvelope(s.outbox[id], s'.outbox[id]))
    && (forall id :: id in s.spool ==> id in s'.spool && s'.spool[id] == s.spool[id])
  }

  /** Which rows a statement may add. */
  function Added(s: Store, st: Statement): set<Id> {
    if st.Insert? && Insertable(s, st.id, st.row, st.raw) then {st.id} else {}
  }

  lemma AlterIsGood(cfg: Config, s: Store, c: T.Change)
    requires Good(cfg, s) && Legal(c, cfg)
    ensures Good(cfg, Execute(cfg, s, Alter(c))) && Keeps(s, Execute(cfg, s, Alter(c)))
    ensures Execute(cfg, s, Alter(c)).outbox.Keys == s.outbox.Keys
  {
    hide T.Consistent, T.Remembers, T.Apply, AllGenerated, Legal, LinksTo;
    T.ApplyKeepsConsistent(s.tables, c) by { assert T.ValidChange(c) by { LegalIsValid(c, cfg); } }
    T.ApplyRemembers(s.tables, c);
    GeneratedStays(s.tables, c, cfg);
    forall id | id in s.outbox {
      UnlinkedRow(s.outbox, s.tables, T.Apply(s.tables, c), id);
    }
  }

  lemma LegalIsValid(c: T.Change, cfg: Config)
    requires Legal(c, cfg)
    ensures T.ValidChange(c)
  {
  }

  lemma UnlinkedRow(o: Outbox, t: T.Tables, t': T.Tables, id: Id)
    requires id in o && LinksTo(o[id], t)
    ensures var o' := Unlinked(o, t, t');
            id in o' && LinksTo(o'[id], t') && SameEnvelope(o[id], o'[id]) && o'[id].rawPath == o[id].rawPath
  {
  }

  /** A statement that only writes statuses. */
  ghost predicate Restatused(o: Outbox, o': Outbox) {
    && o'.Keys == o.Keys
    && forall id :: id in o ==>
         o'[id] == o[id].(status := o'[id].status, attempts := o'[id].attempts, nextAttempt := o'[id].nextAttempt)
  }

  lemma StatusStatements(cfg: Config, s: Store, st: Statement)
    requires st.Claim? || st.RequeueAll? || st.SetDelivered? || st.SetFailed?
    ensures var s' := Execute(cfg, s, st); Restatused(s.outbox, s'.outbox) && s' == s.(outbox := s'.outbox)
  {
    hide MarkAllSending, Backoff;
    if st.Claim? {
      MarkedSending(s.outbox, st.ids);
    }
  }

  lemma RestatusedIsGood(cfg: Config, s: Store, o: Outbox)
    requires Good(cfg, s) && Restatused(s.outbox, o)
    ensures Good(cfg, s.(outbox := o)) && Keeps(s, s.(outbox := o))
  {
    hide T.Consistent, AllGenerated;
    T.RemembersSelf(s.tables);
    forall id | id in o ensures LinksTo(o[id], s.tables) {
      assert LinksTo(s.outbox[id], s.tables);
    }
  }

  lemma SpoolAndTickAreGood(cfg: Config, s: Store, st: Statement)
    requires Good(cfg, s) && (st.Spool? || st.Tick?)
    ensures Good(cfg, Execute(cfg, s, st)) && Keeps(s, Execute(cfg, s, st))
    ensures Execute(cfg, s, st).outbox == s.outbox
  {
    hide T.Consistent, T.Remembers, AllGenerated, LinksTo;
    T.RemembersSelf(s.tables);
  }

  lemma InsertIsGood(cfg: Config, s: Store, st: Statement)
    requires Good(cfg, s) && st.Insert?
    ensures Good(cfg, Execute(cfg, s, st)) && Keeps(s, Execute(cfg, s, st))
    ensures Execute(cfg, s, st).outbox.Keys == s.outbox.Keys + Added(s, st)
  {
    hide T.Consistent, T.Remembers, AllGenerated, LinksTo;
    T.RemembersSelf(s.tables);
  }

  lemma Unchanged(cfg: Config, s: Store)
    ensures Keeps(s, s)
  {
    T.RemembersSelf(s.tables);
  }

  /** Every statement keeps every invariant, takes nothing back, and adds no row but the one
      it inserts. */
  lemma ExecuteIsGood(cfg: Config, s: Store, st: Statement)
    requires Good(cfg, s)
    ensures Good(cfg, Execute(cfg, s, st)) && Keeps(s, Execute(cfg, s, st))
    ensures Execute(cfg, s, st).outbox.Keys == s.outbox.Keys + Added(s, st)
  {
    hide Good, Keeps, Legal, Insertable, Unlinked, MarkAllSending, Requeue, MarkDelivered, MarkAttemptFailed;
    match st
    case Alter(c) =>
      if Legal(c, cfg) {
        AlterIsGood(cfg, s, c);
      } else {
        Unchanged(cfg, s);
      }
    case Insert(_, _, _) => InsertIsGood(cfg, s, st);
    case Spool(_) => SpoolAndTickAreGood(cfg, s, st);
    case Tick(_) => SpoolAndTickAreGood(cfg, s, st);
    case _ =>
      StatusStatements(cfg, s, st);
      RestatusedIsGood(cfg, s, Execute(cfg, s, st).outbox);
  }

  lemma KeepsTransitive(cfg: Config, s: Store, s': Store, s'': Store)
    requires Good(cfg, s) && Keeps(s, s') && Keeps(s', s'')
    ensures Keeps(s, s'')
  {
    hide T.Consistent, T.Remembers, AllGenerated, RowsOk, FilesOk;
    T.RemembersTransitive(s.tables, s'.tables, s''.tables);
  }

  // ---- Histories ----

  /** Who ran a statement: the program part under consideration, or anybody else. */
  datatype Step = Mine(st: Statement) | Theirs(st: Statement)

  /** What was, statement by statement: `log[i]` led from `past[i]` to `past[i + 1]`. */
  datatype History = History(past: seq<Store>, log: seq<Step>)

  function Mines(log: seq<Step>): seq<Statement> {
    if log == [] then [] else
    var front := Mines(log[..|log| - 1]);
    if log[|log| - 1].Mine? then front + [log[|log| - 1].st] else front
  }

  function Thems(log: seq<Step>): seq<Statement> {
    if log == [] then [] else
    var front := Thems(log[..|log| - 1]);
    if log[|log| - 1].Theirs? then front + [log[|log| - 1].st] else front
  }

  /** The rows that a list of statements inserts, with the bytes spooled for them. */
  datatype Queued = Queued(id: Id, row: Row, raw: string)

  function Inserts(sts: seq<Statement>): seq<Queued> {
    if sts == [] then [] else
    var front, st := Inserts(sts[..|sts| - 1]), sts[|sts| - 1];
    if st.Insert? then front + [Queued(st.id, st.row, st.raw)] else front
  }

  ghost predicate Led(cfg: Config, h: History, i: nat)
    requires i < |h.log| < |h.past|
  {
    && h.past[i + 1] == Execute(cfg, h.past[i], h.log[i].st)
    && (h.log[i].Mine? && h.log[i].st.Insert? ==>
          Insertable(h.past[i], h.log[i].st.id, h.log[i].st.row, h.log[i].st.raw))
  }

  ghost predicate Told(cfg: Config, h: History) {
    && |h.past| == |h.log| + 1 && Good(cfg, h.past[0])
    && forall i :: 0 <= i < |h.log| ==> Led(cfg, h, i)
  }

  predicate Extends(h: History, h': History) { h.past <= h'.past && h.log <= h'.log }

  function Last(h: History): Store
    requires h.past != []
  {
    h.past[|h.past| - 1]
  }

  function Then(h: History, step: Step, s: Store): History {
    History(h.past + [s], h.log + [step])
  }

  lemma OneMoreStep(cfg: Config, h: History, step: Step, s: Store)
    requires Told(cfg, h) && s == Execute(cfg, Last(h), step.st)
    requires step.Mine? && step.st.Insert? ==> Insertable(Last(h), step.st.id, step.st.row, step.st.raw)
    ensures Told(cfg, Then(h, step, s)) && Extends(h, Then(h, step, s)) && Last(Then(h, step, s)) == s
    ensures Mines(h.log + [step]) == Mines(h.log) + if step.Mine? then [step.st] else []
    ensures Thems(h.log + [step]) == Thems(h.log) + if step.Theirs? then [step.st] else []
  {
    hide Execute, Insertable, Good;
    var h' := Then(h, step, s);
    assert h'.log[..|h.log|] == h.log;
    forall i | 0 <= i < |h'.log| ensures Led(cfg, h', i) {
      if i < |h.log| {
        assert Led(cfg, h, i);
      }
    }
  }

  lemma {:induction false} PastIsGood(cfg: Config, h: History, i: nat)
    requires Told(cfg, h) && i < |h.past|
    ensures Good(cfg, h.past[i])
  {
    hide Good, Execute, Insertable;
    if i > 0 {
      PastIsGood(cfg, h, i - 1);
      assert Led(cfg, h, i - 1);
      ExecuteIsGood(cfg, h.past[i - 1], h.log[i - 1].st);
    }
  }

  /** Whatever anybody does, nothing is ever taken back. */
  lemma {:induction false} PastIsKept(cfg: Config, h: History, i: nat, j: nat)
    requires Told(cfg, h) && i <= j < |h.past|
    ensures Keeps(h.past[i], h.past[j])
  {
    hide Good, Keeps, Execute, Insertable;
    if i == j {
      Unchanged(cfg, h.past[i]);
    } else {
      PastIsKept(cfg, h, i, j - 1);
      PastIsGood(cfg, h, i);
      PastIsGood(cfg, h, j - 1);
      assert Led(cfg, h, j - 1);
      ExecuteIsGood(cfg, h.past[j - 1], h.log[j - 1].st);
      KeepsTransitive(cfg, h.past[i], h.past[j - 1], h.past[j]);
    }
  }

  /** Nothing was run by the program part under consideration between two moments. */
  predicate OnlyTheirs(h: History, i: nat, j: nat) {
    i <= j <= |h.log| && forall m :: i <= m < j ==> h.log[m].Theirs?
  }

  lemma ReflexiveHistory(h: History)
    ensures Extends(h, h)
  {
  }

  lemma ExtendsOn(h: History, h': History, h'': History)
    requires Extends(h, h') && Extends(h', h'')
    ensures Extends(h, h'')
  {
  }

  lemma Longer(h: History, h': History)
    requires Extends(h, h')
    ensures |h.log| <= |h'.log| && |h.past| <= |h'.past|
  {
  }

  lemma SameAt(h: History, h': History, i: nat)
    requires Extends(h, h') && i < |h.log| < |h.past|
    ensures |h.log| <= |h'.log| && |h.past| <= |h'.past| && h'.log[i] == h.log[i] && h'.past[i] == h.past[i]
  {
  }

  lemma OnlyTheirsStill(h: History, h': History, i: nat, j: nat)
    requires OnlyTheirs(h, i, j) && Extends(h, h')
    ensures OnlyTheirs(h', i, j)
  {
  }

  lemma MomentStays(h: History, h': History)
    requires Extends(h, h') && |h.past| == |h.log| + 1
    ensures |h.log| < |h'.past| && h'.past[|h.log|] == Last(h)
  {
  }

  // ---- Which rows came from where ----

  /** Somebody else inserted the row between two moments. */
  ghost predicate InsertedByOthers(h: History, i: nat, j: nat, id: Id)
    requires |h.past| == |h.log| + 1
  {
    exists m: nat :: InsertedAt(h, i, m, j, id)
  }

  ghost predicate InsertedAt(h: History, i: nat, m: nat, j: nat, id: Id)
    requires |h.past| == |h.log| + 1
  {
    i <= m < j <= |h.log| && h.log[m].Theirs? && id in Added(h.past[m], h.log[m].st)
  }

  function Ids(qs: seq<Queued>): set<Id> { set q | q in qs :: q.id }

  /** The message is in the outbox under its envelope, and its file holds its bytes. */
  ghost predicate Kept(q: Queued, s: Store) {
    q.id in s.outbox && SameEnvelope(q.row, s.outbox[q.id]) && q.id in s.spool && s.spool[q.id] == q.raw
  }

  ghost predicate DistinctIds(qs: seq<Queued>) {
    forall j, k :: 0 <= j < k < |qs| ==> qs[j].id != qs[k].id
  }

  /** Between two moments the outbox gained exactly the given rows and those that somebody
      else inserted. */
  ghost predicate Gained(h: History, i: nat, j: nat, qs: seq<Queued>)
    requires |h.past| == |h.log| + 1 && i <= j <= |h.log|
  {
    && DistinctIds(qs)
    && (forall k :: 0 <= k < |qs| ==> qs[k].id !in h.past[i].outbox && Kept(qs[k], h.past[j]))
    && (forall k :: 0 <= k < |qs| ==> !InsertedByOthers(h, i, j, qs[k].id))
    && (forall id :: id in h.past[j].outbox <==>
          id in h.past[i].outbox || id in Ids(qs) || InsertedByOthers(h, i, j, id))
  }

  /** The statements one ran between two moments. */
  function MinesBetween(log: seq<Step>, i: nat, j: nat): seq<Statement>
    requires i <= j <= |log|
  {
    if i == j then [] else
    var front := MinesBetween(log, i, j - 1);
    if log[j - 1].Mine? then front + [log[j - 1].st] else front
  }

  lemma {:induction false} MinesInBetween(log: seq<Step>, i: nat, j: nat)
    requires i <= j <= |log|
    ensures Mines(log[..j]) == Mines(log[..i]) + MinesBetween(log, i, j)
  {
    if i < j {
      MinesInBetween(log, i, j - 1);
      assert log[..j][..j - 1] == log[..j - 1];
    }
  }

  lemma InsertsLast(sts: seq<Statement>, st: Statement)
    ensures Inserts(sts + [st]) == if st.Insert? then Inserts(sts) + [Queued(st.id, st.row, st.raw)] else Inserts(sts)
  {
    assert (sts + [st])[..|sts|] == sts;
  }

  lemma NoInserts(sts: seq<Statement>)
    requires |sts| <= 1 && forall i :: 0 <= i < |sts| ==> !sts[i].Insert?
    ensures Inserts(sts) == []
  {
    if sts != [] {
      InsertsLast([], sts[0]);
      assert sts == [] + [sts[0]];
    }
  }

  lemma {:induction false} InsertsConcat(a: seq<Statement>, b: seq<Statement>)
    ensures Inserts(a + b) == Inserts(a) + Inserts(b)
  {
    if b == [] {
      assert a + b == a;
    } else {
      var n := |b| - 1;
      assert (a + b)[..|a + b| - 1] == a + b[..n];
      InsertsConcat(a, b[..n]);
    }
  }

  lemma StepAttributes(h: History, i: nat, j: nat, id: Id)
    requires |h.past| == |h.log| + 1 && i < j <= |h.log|
    ensures InsertedByOthers(h, i, j, id)
            <==> InsertedByOthers(h, i, j - 1, id)
                 || (h.log[j - 1].Theirs? && id in Added(h.past[j - 1], h.log[j - 1].st))
  {
    hide Added;
    if InsertedByOthers(h, i, j, id) {
      var m: nat :| InsertedAt(h, i, m, j, id);
      assert m < j - 1 ==> InsertedAt(h, i, m, j - 1, id);
    }
    if InsertedByOthers(h, i, j - 1, id) {
      var m: nat :| InsertedAt(h, i, m, j - 1, id);
      assert InsertedAt(h, i, m, j, id);
    }
    assert h.log[j - 1].Theirs? && id in Added(h.past[j - 1], h.log[j - 1].st) ==> InsertedAt(h, i, j - 1, j, id);
  }

  lemma KeptLater(cfg: Config, q: Queued, s: Store, s': Store)
    requires Kept(q, s) && Keeps(s, s')
    ensures Kept(q, s')
  {
    hide T.Remembers;
  }

  /** Nobody else inserted a row between two moments. */
  predicate Alone(h: History, i: nat, j: nat)
    requires i <= j <= |h.log|
  {
    forall m :: i <= m < j ==> !(h.log[m].Theirs? && h.log[m].st.Insert?)
  }

  /** Between any two moments of any history the outbox gains exactly the rows inserted by the
      program part under consideration, once each, and those inserted by somebody else. */
  lemma {:induction false} EveryRowIsAccountedFor(cfg: Config, h: History, i: nat, j: nat)
    requires Told(cfg, h) && i <= j <= |h.log|
    ensures Gained(h, i, j, Inserts(MinesBetween(h.log, i, j)))
    ensures Alone(h, i, j) ==>
              h.past[j].outbox.Keys == h.past[i].outbox.Keys + Ids(Inserts(MinesBetween(h.log, i, j)))
  {
    hide Good, Keeps, Execute, Insertable, Gained, Inserts;
    if i == j {
      NothingGained(h, i);
    } else {
      EveryRowIsAccountedFor(cfg, h, i, j - 1);
      assert Led(cfg, h, j - 1);
      PastIsGood(cfg, h, j - 1);
      PastIsKept(cfg, h, i, j - 1);
      ExecuteIsGood(cfg, h.past[j - 1], h.log[j - 1].st);
      InsertsLast(MinesBetween(h.log, i, j - 1), h.log[j - 1].st);
      var qs := Inserts(MinesBetween(h.log, i, j - 1));
      if h.log[j - 1].Mine? && h.log[j - 1].st.Insert? {
        GainedMine(cfg, h, i, j, qs);
      } else {
        GainedOther(cfg, h, i, j, qs);
      }
    }
    GainedAlone(h, i, j, Inserts(MinesBetween(h.log, i, j)));
  }

  lemma GainedAlone(h: History, i: nat, j: nat, qs: seq<Queued>)
    requires |h.past| == |h.log| + 1 && i <= j <= |h.log| && Gained(h, i, j, qs)
    ensures Alone(h, i, j) ==> h.past[j].outbox.Keys == h.past[i].outbox.Keys + Ids(qs)
  {
  }

  lemma NothingGained(h: History, i: nat)
    requires |h.past| == |h.log| + 1 && i <= |h.log|
    ensures Gained(h, i, i, Inserts([]))
  {
  }

  lemma GainedMine(cfg: Config, h: History, i: nat, j: nat, qs: seq<Queued>)
    requires |h.past| == |h.log| + 1 && i < j <= |h.log| && Gained(h, i, j - 1, qs)
    requires h.log[j - 1].Mine? && h.log[j - 1].st.Insert? && Led(cfg, h, j - 1)
    requires Keeps(h.past[i], h.past[j - 1]) && Keeps(h.past[j - 1], h.past[j])
    requires h.past[j].outbox.Keys == h.past[j - 1].outbox.Keys + Added(h.past[j - 1], h.log[j - 1].st)
    ensures Gained(h, i, j, qs + [Queued(h.log[j - 1].st.id, h.log[j - 1].st.row, h.log[j - 1].st.raw)])
  {
    hide T.Remembers, InsertedByOthers, Insertable, Execute, SameEnvelope;
    var st := h.log[j - 1].st;
    var q := Queued(st.id, st.row, st.raw);
    forall id {
      StepAttributes(h, i, j, id);
    }
    NewIsKept(cfg, h, j);
    forall k | 0 <= k < |qs| ensures Kept(qs[k], h.past[j]) {
      KeptLater(cfg, qs[k], h.past[j - 1], h.past[j]);
    }
    assert Ids(qs + [q]) == Ids(qs) + {q.id} by { IdsLast(qs, q); }
    forall k | 0 <= k < |qs| ensures qs[k].id != q.id {
      assert Kept(qs[k], h.past[j - 1]);
    }
  }

  lemma NewIsKept(cfg: Config, h: History, j: nat)
    requires |h.past| == |h.log| + 1 && 0 < j <= |h.log|
    requires h.log[j - 1].Mine? && h.log[j - 1].st.Insert? && Led(cfg, h, j - 1)
    ensures var st := h.log[j - 1].st;
            && Kept(Queued(st.id, st.row, st.raw), h.past[j])
            && Added(h.past[j - 1], st) == {st.id} && st.id !in h.past[j - 1].outbox
  {
  }

  lemma IdsLast(qs: seq<Queued>, q: Queued)
    ensures Ids(qs + [q]) == Ids(qs) + {q.id}
  {
    forall x ensures x in Ids(qs + [q]) <==> x in Ids(qs) + {q.id} {
      if x in Ids(qs) {
        var p :| p in qs && p.id == x;
        assert p in qs + [q];
      }
      assert q in qs + [q];
    }
  }

  lemma GainedOther(cfg: Config, h: History, i: nat, j: nat, qs: seq<Queued>)
    requires |h.past| == |h.log| + 1 && i < j <= |h.log| && Gained(h, i, j - 1, qs)
    requires !(h.log[j - 1].Mine? && h.log[j - 1].st.Insert?)
    requires Keeps(h.past[j - 1], h.past[j])
    requires h.past[j].outbox.Keys == h.past[j - 1].outbox.Keys + Added(h.past[j - 1], h.log[j - 1].st)
    ensures Gained(h, i, j, qs)
  {
    hide T.Remembers, InsertedByOthers, Insertable;
    forall id {
      StepAttributes(h, i, j, id);
    }
    forall k | 0 <= k < |qs| ensures Kept(qs[k], h.past[j]) && qs[k].id !in Added(h.past[j - 1], h.log[j - 1].st) {
      assert Kept(qs[k], h.past[j - 1]);
      KeptLater(cfg, qs[k], h.past[j - 1], h.past[j]);
      AddedIsNew(h.past[j - 1], h.log[j - 1].st);
    }
  }

  lemma AddedIsNew(s: Store, st: Statement)
    ensures forall id :: id in Added(s, st) ==> id !in s.outbox
  {
  }

  lemma SameTail(front: seq<Statement>, a: seq<Statement>, b: seq<Statement>)
    requires front + a == front + b
    ensures a == b
  {
    assert a == (front + a)[|front|..] && b == (front + b)[|front|..];
  }

  /** The same in terms of everything one ever ran. */
  lemma GainedSince(cfg: Config, h: History, i: nat, j: nat, sts: seq<Statement>)
    requires Told(cfg, h) && i <= j <= |h.log| && Mines(h.log[..j]) == Mines(h.log[..i]) + sts
    ensures Gained(h, i, j, Inserts(sts))
  {
    hide Told, Gained, Inserts;
    MinesInBetween(h.log, i, j);
    SameTail(Mines(h.log[..i]), sts, MinesBetween(h.log, i, j));
    EveryRowIsAccountedFor(cfg, h, i, j);
  }
}
