/** What the methods of Worker do to a history, while others queue mail and change the tables,
    is a run of DeliveryRuns with the same outbox and the same messages handed over. So what
    holds of every run holds of the worker. */
module WorkerRuns {
  import opened Basics
  import opened Database
  import opened Outbox
  import opened Routing
  import opened Store
  import opened Worker
  import D = DeliveryRuns
  import T = Tables

  /** What the outside sees of a run: messages handed over, with the attempts recorded by then,
      and restarts, with the outbox they found. */
  datatype Event =
    | Handed(id: Id, raw: string, ok: bool, attempts: int, time: int)
    | Restarted(found: Outbox)

  // ---- Runs ----

  datatype Trace = Trace(ws: seq<D.World>, ss: seq<D.Step>)

  ghost predicate IsRun(r: Trace, maxAttempts: int) {
    D.Run(r.ws, r.ss, maxAttempts) && forall i :: 0 <= i < |r.ss| ==> !r.ss[i].DeleteFile?
  }

  ghost predicate IsTrace(r: Trace, maxAttempts: int) { |r.ws| == |r.ss| + 1 && IsRun(r, maxAttempts) }

  function Final(r: Trace): D.World
    requires r.ws != []
  {
    r.ws[|r.ws| - 1]
  }

  function EventsAt(w: D.World, s: D.Step): seq<Event> {
    match s
    case Send(ok) =>
      if w.worker.Up? && w.worker.held != [] && w.worker.phase.Loaded? then
        [Handed(w.worker.held[0].id, w.worker.phase.raw, ok, w.worker.held[0].attempts, w.now)]
      else []
    case Restart => [Restarted(w.outbox)]
    case _ => []
  }

  function Events(r: Trace): seq<Event>
    requires |r.ws| == |r.ss| + 1
    decreases |r.ss|
  {
    if r.ss == [] then [] else
    var n := |r.ss| - 1;
    Events(Trace(r.ws[..n + 1], r.ss[..n])) + EventsAt(r.ws[n], r.ss[n])
  }

  lemma OneStep(r: Trace, s: D.Step, maxAttempts: int) returns (r': Trace)
    requires IsTrace(r, maxAttempts) && D.Enabled(Final(r), s) && !s.DeleteFile?
    ensures IsTrace(r', maxAttempts) && Final(r') == D.Take(Final(r), s, maxAttempts)
    ensures Events(r') == Events(r) + EventsAt(Final(r), s)
  {
    hide D.Enabled, D.Take, D.Initial, EventsAt;
    r' := Trace(r.ws + [D.Take(Final(r), s, maxAttempts)], r.ss + [s]);
    assert r'.ws[..|r.ss| + 1] == r.ws && r'.ss[..|r.ss|] == r.ss;
  }

  lemma FinalIsOk(r: Trace, maxAttempts: int)
    requires IsTrace(r, maxAttempts)
    ensures D.Invariant(Final(r), maxAttempts)
  {
    hide D.Invariant;
    D.RunKeepsInvariant(r.ws, r.ss, maxAttempts, |r.ws| - 1);
  }

  // ---- The store as a world ----

  /** The same outbox, files and time; files without a row are enqueues under way. */
  ghost predicate Mirrors(s: Store, w: D.World) {
    && w.outbox == s.outbox && w.spool == s.spool && w.nextId == s.nextFile && w.now == s.now
    && forall id :: id in s.spool && id !in s.outbox ==>
         id in w.writing && w.writing[id] == D.Writing(s.spool[id], true)
  }

  ghost predicate Mirrored(h: History, i: nat, r: Trace, maxAttempts: int) {
    i < |h.past| && IsTrace(r, maxAttempts) && Mirrors(h.past[i], Final(r))
  }

  /** Not a statement of the worker. */
  predicate IsQuiet(st: Statement) { st.Alter? || st.Spool? || st.Insert? || st.Tick? }

  /** Queued messages keep their account. */
  ghost predicate KeepsAccounts(w: D.World, w': D.World) {
    w'.worker == w.worker && forall id :: id in w.hist ==> id in w'.hist
  }

  lemma SpoolMirrors(cfg: Config, s: Store, w: D.World, raw: string, maxAttempts: int)
    requires Mirrors(s, w) && FilesOk(s)
    ensures var w1 := D.Take(w, D.BeginWrite(raw, ""), maxAttempts);
            && D.Enabled(w, D.BeginWrite(raw, "")) && D.Enabled(w1, D.FinishWrite(w.nextId))
            && var w2 := D.Take(w1, D.FinishWrite(w.nextId), maxAttempts);
               Mirrors(Execute(cfg, s, Spool(raw)), w2) && KeepsAccounts(w, w2)
  {
    hide D.Recorded, MarkAllSending, Requeue, Unlink, IsSelection;
  }

  lemma AlterMirrors(cfg: Config, s: Store, w: D.World, c: T.Change, maxAttempts: int)
    requires Mirrors(s, w) && Legal(c, cfg)
    ensures var t, t' := s.tables, T.Apply(s.tables, c);
            var step := D.DeleteLinks(t.aliases.Keys - t'.aliases.Keys, t.contacts.Keys - t'.contacts.Keys);
            && D.Enabled(w, step)
            && var w' := D.Take(w, step, maxAttempts);
               Mirrors(Execute(cfg, s, Alter(c)), w') && KeepsAccounts(w, w')
  {
    hide D.Recorded, MarkAllSending, Requeue, IsSelection, Legal, T.Apply;
  }

  function RowStep(id: Id, row: Row): D.Step {
    D.InsertRow(id, row.direction, row.envelopeFrom, row.envelopeTo, row.aliasId, row.contactId, row.subject,
                row.nextAttempt)
  }

  lemma InsertMirrors(cfg: Config, s: Store, w: D.World, id: Id, row: Row, raw: string, maxAttempts: int)
    requires Mirrors(s, w) && Insertable(s, id, row, raw)
    ensures D.Enabled(w, RowStep(id, row))
    ensures var w' := D.Take(w, RowStep(id, row), maxAttempts);
            Mirrors(Execute(cfg, s, Insert(id, row, raw)), w') && KeepsAccounts(w, w')
  {
    hide D.Recorded, MarkAllSending, Requeue, Unlink, IsSelection, LinksTo;
  }

  lemma TickMirrors(s: Store, w: D.World, time: int, maxAttempts: int)
    requires Mirrors(s, w) && time >= w.now
    ensures D.Enabled(w, D.Tick(time))
    ensures var w' := D.Take(w, D.Tick(time), maxAttempts); Mirrors(s.(now := time), w') && KeepsAccounts(w, w')
  {
    hide D.Recorded, MarkAllSending, Requeue, Unlink, IsSelection;
  }

  lemma QuietTaken(cfg: Config, s: Store, st: Statement, r: Trace, maxAttempts: int) returns (r': Trace)
    requires IsTrace(r, maxAttempts) && Mirrors(s, Final(r)) && Good(cfg, s) && IsQuiet(st)
    ensures IsTrace(r', maxAttempts) && Mirrors(Execute(cfg, s, st), Final(r'))
    ensures Events(r') == Events(r) && KeepsAccounts(Final(r), Final(r'))
  {
    hide D.Enabled, D.Take, IsRun, Mirrors, KeepsAccounts, Events, Legal, Insertable, Unlinked, T.Apply, T.Consistent,
         AllGenerated, RowsOk, FilesOk;
    var w := Final(r);
    NoMore(Events(r));
    SameAccounts(w);
    r' := r;
    match st
    case Alter(c) =>
      if Legal(c, cfg) {
        var t, t' := s.tables, T.Apply(s.tables, c);
        AlterMirrors(cfg, s, w, c, maxAttempts);
        r' := OneStep(r, D.DeleteLinks(t.aliases.Keys - t'.aliases.Keys, t.contacts.Keys - t'.contacts.Keys),
            maxAttempts);
      }
    case Spool(raw) =>
      SpoolMirrors(cfg, s, w, raw, maxAttempts);
      r' := OneStep(r, D.BeginWrite(raw, ""), maxAttempts);
      NoMore(Events(r'));
      r' := OneStep(r', D.FinishWrite(w.nextId), maxAttempts);
    case Insert(id, row, raw) =>
      if Insertable(s, id, row, raw) {
        InsertMirrors(cfg, s, w, id, row, raw, maxAttempts);
        r' := OneStep(r, RowStep(id, row), maxAttempts);
      }
    case Tick(time) =>
      SameTime(s, w);
      if time >= s.now {
        TickMirrors(s, w, time, maxAttempts);
        r' := OneStep(r, D.Tick(time), maxAttempts);
      }
  }

  lemma SameTime(s: Store, w: D.World)
    requires Mirrors(s, w)
    ensures w.now == s.now
  {
  }

  lemma SameAccounts(w: D.World)
    ensures KeepsAccounts(w, w)
  {
  }

  lemma AccountsTwice(w: D.World, w': D.World, w'': D.World)
    requires KeepsAccounts(w, w') && KeepsAccounts(w', w'')
    ensures KeepsAccounts(w, w'')
  {
  }

  ghost predicate QuietBetween(h: History, i: nat, j: nat) {
    i <= j <= |h.log| && forall m :: i <= m < j ==> IsQuiet(h.log[m].st)
  }

  /** What anybody but the worker runs is a stretch of a run that the worker does not notice. */
  lemma {:induction false} QuietSteps(cfg: Config, h: History, i: nat, j: nat, r: Trace, maxAttempts: int)
    returns (r': Trace)
    requires Told(cfg, h) && QuietBetween(h, i, j) && Mirrored(h, i, r, maxAttempts)
    ensures Mirrored(h, j, r', maxAttempts) && Events(r') == Events(r) && KeepsAccounts(Final(r), Final(r'))
    decreases j - i
  {
    hide Good, Execute, IsRun, Mirrors, KeepsAccounts, Events, IsQuiet, Insertable;
    r' := r;
    SameAccounts(Final(r));
    if i < j {
      var r1 := QuietSteps(cfg, h, i, j - 1, r, maxAttempts);
      assert Led(cfg, h, j - 1);
      PastIsGood(cfg, h, j - 1);
      r' := QuietTaken(cfg, h.past[j - 1], h.log[j - 1].st, r1, maxAttempts);
      AccountsTwice(Final(r), Final(r1), Final(r'));
    }
  }

  // ---- The worker's statements ----

  lemma RequeueMirrors(cfg: Config, s: Store, w: D.World, maxAttempts: int)
    requires Mirrors(s, w) && w.worker.Down? && D.Invariant(w, maxAttempts)
    ensures D.Enabled(w, D.Restart)
    ensures var w' := D.Take(w, D.Restart, maxAttempts);
            Mirrors(Execute(cfg, s, RequeueAll), w') && w'.worker == D.Up([], D.Fresh)
  {
    hide D.Recorded, MarkAllSending, IsSelection, D.MessageOk, D.WorkerOk, D.WritingOk, RequeueRow;
  }

  lemma RequeueStep(cfg: Config, h: History, i: nat, r: Trace, maxAttempts: int) returns (r': Trace)
    requires Told(cfg, h) && i < |h.log| && h.log[i].st == RequeueAll
    requires Mirrored(h, i, r, maxAttempts) && Final(r).worker.Down?
    ensures Mirrored(h, i + 1, r', maxAttempts) && Final(r').worker == D.Up([], D.Fresh)
    ensures Events(r') == Events(r) + [Restarted(h.past[i].outbox)]
  {
    hide Good, Execute, D.Enabled, D.Take, IsRun, Events, D.Invariant;
    assert Led(cfg, h, i);
    FinalIsOk(r, maxAttempts);
    RequeueMirrors(cfg, h.past[i], Final(r), maxAttempts);
    r' := OneStep(r, D.Restart, maxAttempts);
  }

  function HeldOf(cs: seq<Claimed>): (held: seq<D.Held>)
    ensures |held| == |cs| && forall j :: 0 <= j < |cs| ==> held[j] == D.Held(cs[j].id, cs[j].row.attempts)
  {
    seq(|cs|, j requires 0 <= j < |cs| => D.Held(cs[j].id, cs[j].row.attempts))
  }

  lemma ClaimMirrors(cfg: Config, s: Store, w: D.World, cs: seq<Claimed>, maxAttempts: int)
    requires Mirrors(s, w) && w.worker.Up? && w.worker.held == []
    requires IsSelection(s.outbox, s.now, BATCH_SIZE, IdsOf(cs)) && IsBatch(s, cs)
    ensures D.Enabled(w, D.Claim(IdsOf(cs)))
    ensures var w' := D.Take(w, D.Claim(IdsOf(cs)), maxAttempts);
            Mirrors(Execute(cfg, s, Claim(IdsOf(cs))), w') && w'.worker == D.Up(HeldOf(cs), D.Fresh)
  {
    hide D.Recorded, MarkAllSending, Requeue;
    MarkedSending(s.outbox, IdsOf(cs));
    var w' := D.Take(w, D.Claim(IdsOf(cs)), maxAttempts);
    assert w'.worker.held == HeldOf(cs);
  }

  lemma ClaimStep(cfg: Config, h: History, i: nat, cs: seq<Claimed>, r: Trace, maxAttempts: int) returns (r': Trace)
    requires Told(cfg, h) && i < |h.log| && h.log[i].st == Claim(IdsOf(cs))
    requires IsSelection(h.past[i].outbox, h.past[i].now, BATCH_SIZE, IdsOf(cs)) && IsBatch(h.past[i], cs)
    requires Mirrored(h, i, r, maxAttempts) && Final(r).worker.Up? && Final(r).worker.held == []
    ensures Mirrored(h, i + 1, r', maxAttempts) && Final(r').worker == D.Up(HeldOf(cs), D.Fresh)
    ensures Events(r') == Events(r)
  {
    hide Good, Execute, D.Enabled, D.Take, IsRun, Events, IsSelection, IsBatch, Mirrors;
    assert Led(cfg, h, i);
    ClaimMirrors(cfg, h.past[i], Final(r), cs, maxAttempts);
    r' := OneStep(r, D.Claim(IdsOf(cs)), maxAttempts);
    NoMore(Events(r));
  }

  /** The row still belongs to the claim, and its file is there. */
  predicate InHand(s: Store, c: Claimed) {
    c.id in s.outbox && s.outbox[c.id].rawPath == c.row.rawPath && c.row.rawPath in s.spool
  }

  lemma ReadMirrors(s: Store, w: D.World, c: Claimed, ok: bool, maxAttempts: int)
    requires Mirrors(s, w) && D.Invariant(w, maxAttempts) && InHand(s, c)
    requires w.worker.Up? && w.worker.held != [] && w.worker.held[0] == D.Held(c.id, c.row.attempts)
    requires w.worker.phase.Fresh?
    ensures D.Enabled(w, D.ReadFile)
    ensures var read := D.Take(w, D.ReadFile, maxAttempts);
            && D.Enabled(read, D.Send(ok)) && read.worker == D.Up(w.worker.held, D.Loaded(s.spool[c.row.rawPath]))
            && read.now == s.now
            && var sent := D.Take(read, D.Send(ok), maxAttempts);
               Mirrors(s, sent) && sent.worker == D.Up(w.worker.held, D.Sent(ok))
  {
    hide D.Recorded, MarkAllSending, Requeue, Unlink, IsSelection, D.MessageOk, D.WorkerOk, D.WritingOk;
  }

  lemma ReadAndSend(h: History, i: nat, c: Claimed, ok: bool, r: Trace, maxAttempts: int) returns (r': Trace)
    requires Mirrored(h, i, r, maxAttempts) && InHand(h.past[i], c)
    requires Final(r).worker.Up? && Final(r).worker.held != [] && Final(r).worker.phase.Fresh?
    requires Final(r).worker.held[0] == D.Held(c.id, c.row.attempts)
    ensures Mirrored(h, i, r', maxAttempts) && Final(r').worker == D.Up(Final(r).worker.held, D.Sent(ok))
    ensures var s := h.past[i];
            Events(r') == Events(r) + [Handed(c.id, s.spool[c.row.rawPath], ok, c.row.attempts, s.now)]
  {
    hide D.Enabled, D.Take, IsRun, Events, Mirrors, D.Invariant;
    FinalIsOk(r, maxAttempts);
    ReadMirrors(h.past[i], Final(r), c, ok, maxAttempts);
    var r1 := OneStep(r, D.ReadFile, maxAttempts);
    NoMore(Events(r));
    r' := OneStep(r1, D.Send(ok), maxAttempts);
  }

  lemma RecordMirrors(cfg: Config, s: Store, w: D.World, c: Claimed, ok: bool, recorded: bool, maxAttempts: int)
    requires Mirrors(s, w) && D.Invariant(w, maxAttempts)
    requires w.worker.Up? && w.worker.held != [] && w.worker.held[0] == D.Held(c.id, c.row.attempts)
    requires w.worker.phase == D.Sent(ok)
    ensures D.Enabled(w, D.Record(!recorded))
    ensures var s' := if recorded then Execute(cfg, s, WriteBack(c, Tried(ok), maxAttempts)) else s;
            var w' := D.Take(w, D.Record(!recorded), maxAttempts);
            Mirrors(s', w') && w'.worker == D.Up(w.worker.held[1..], D.Fresh)
  {
    hide MarkAllSending, Requeue, Unlink, IsSelection, D.MessageOk, D.WritingOk, Backoff, AfterFailure;
    assert D.HeldOk(w, w.worker.held[0]);
  }

  /** One message: read and sent, others in between, and recorded or lost. */
  lemma DeliverSteps(cfg: Config, h: History, c: Claimed, x: Outcome, start: nat, r: Trace, maxAttempts: int)
    returns (r': Trace)
    requires Told(cfg, h) && Delivers(h, c, x, start, maxAttempts) && QuietBetween(h, x.sent, x.wrote)
    requires Mirrored(h, start, r, maxAttempts) && InHand(h.past[start], c)
    requires Final(r).worker.Up? && Final(r).worker.held != [] && Final(r).worker.phase.Fresh?
    requires Final(r).worker.held[0] == D.Held(c.id, c.row.attempts)
    ensures Mirrored(h, EndOf(x), r', maxAttempts)
    ensures Final(r').worker == D.Up(Final(r).worker.held[1..], D.Fresh)
    ensures var s := h.past[x.sent];
            Events(r') == Events(r) + [Handed(c.id, s.spool[c.row.rawPath], x.ok, c.row.attempts, s.now)]
  {
    hide Good, Execute, D.Enabled, D.Take, IsRun, Events, Mirrors, D.Invariant, InHand, WriteBack, QuietBetween,
         OnlyTheirs;
    var r1 := ReadAndSend(h, start, c, x.ok, r, maxAttempts);
    var r2 := QuietSteps(cfg, h, x.sent, x.wrote, r1, maxAttempts);
    FinalIsOk(r2, maxAttempts);
    RecordMirrors(cfg, h.past[x.wrote], Final(r2), c, x.ok, x.recorded, maxAttempts);
    if x.recorded {
      assert Led(cfg, h, x.wrote);
    }
    r' := OneStep(r2, D.Record(!x.recorded), maxAttempts);
    NoMore(Events(r2));
  }

  /** What the outside saw of a batch. */
  function BatchEvents(h: History, cs: seq<Claimed>, xs: seq<Outcome>, spool: map<Id, string>): seq<Event>
    requires |xs| <= |cs| && Readable(cs, spool) && forall j :: 0 <= j < |xs| ==> xs[j].sent < |h.past|
  {
    if xs == [] then [] else
    var n := |xs| - 1;
    var c := cs[n];
    BatchEvents(h, cs, xs[..n], spool) +
    [Handed(c.id, spool[c.row.rawPath], xs[n].ok, c.row.attempts, h.past[xs[n].sent].now)]
  }

  lemma SentInHistory(h: History, cs: seq<Claimed>, xs: seq<Outcome>, start: nat, maxAttempts: int)
    requires DeliversAll(h, cs, xs, start, maxAttempts)
    ensures forall j :: 0 <= j < |xs| ==> xs[j].sent < |h.past|
  {
    forall j | 0 <= j < |xs| ensures xs[j].sent < |h.past| {
      assert Delivers(h, cs[j], xs[j], StartOf(start, xs, j), maxAttempts);
    }
  }

  lemma StaysInHand(s: Store, s': Store, cs: seq<Claimed>, j: nat)
    requires Keeps(s, s') && IsBatch(s, cs) && j < |cs|
    ensures InHand(s', cs[j]) && cs[j].row.rawPath in s.spool
    ensures s'.spool[cs[j].row.rawPath] == s.spool[cs[j].row.rawPath]
  {
    hide T.Remembers;
  }

  /** Nobody but the worker is a worker. */
  ghost predicate OthersQuiet(h: History) {
    forall m :: 0 <= m < |h.log| && h.log[m].Theirs? ==> IsQuiet(h.log[m].st)
  }

  lemma TheirsAreQuiet(h: History, i: nat, j: nat)
    requires OthersQuiet(h) && OnlyTheirs(h, i, j)
    ensures QuietBetween(h, i, j)
  {
  }

  /** A claimed batch, up to its first `n` messages. */
  lemma {:induction false} BatchSteps(cfg: Config, h: History, from: nat, cs: seq<Claimed>, xs: seq<Outcome>,
                                      start: nat, n: nat, r: Trace, maxAttempts: int)
    returns (r': Trace)
    requires Told(cfg, h) && OthersQuiet(h) && from < start && from < |h.past| && IsBatch(h.past[from], cs)
    requires DeliversAll(h, cs, xs, start, maxAttempts) && n <= |xs|
    requires Mirrored(h, start, r, maxAttempts) && Final(r).worker == D.Up(HeldOf(cs), D.Fresh)
    ensures forall j :: 0 <= j < |xs| ==> xs[j].sent < |h.past|
    ensures StartOf(start, xs, n) >= start && Mirrored(h, StartOf(start, xs, n), r', maxAttempts)
    ensures Final(r').worker == D.Up(HeldOf(cs)[n..], D.Fresh)
    ensures Events(r') == Events(r) + BatchEvents(h, cs, xs[..n], h.past[from].spool)
  {
    hide IsRun, Events, Mirrors, Delivers, InHand, QuietBetween, OthersQuiet, Keeps, Led;
    SentInHistory(h, cs, xs, start, maxAttempts);
    if n == 0 {
      r' := r;
      NoMore(Events(r));
    } else {
      var r1 := BatchSteps(cfg, h, from, cs, xs, start, n - 1, r, maxAttempts);
      var at, c, x := StartOf(start, xs, n - 1), cs[n - 1], xs[n - 1];
      assert Delivers(h, c, x, at, maxAttempts);
      DeliversInOrder(h, c, x, at, maxAttempts);
      TheirsAreQuiet(h, x.sent, x.wrote);
      PastIsKept(cfg, h, from, at);
      StaysInHand(h.past[from], h.past[at], cs, n - 1);
      r' := DeliverSteps(cfg, h, c, x, at, r1, maxAttempts);
      assert xs[..n][..n - 1] == xs[..n - 1];
      Regroup(Events(r), BatchEvents(h, cs, xs[..n - 1], h.past[from].spool),
              [Handed(c.id, h.past[from].spool[c.row.rawPath], x.ok, c.row.attempts, h.past[at].now)]);
    }
  }

  lemma DeliversInOrder(h: History, c: Claimed, x: Outcome, start: nat, maxAttempts: int)
    requires Delivers(h, c, x, start, maxAttempts)
    ensures x.sent == start <= EndOf(x) && OnlyTheirs(h, x.sent, x.wrote)
  {
  }

  // ---- Whole turns ----

  function RoundEvents(h: History, r: Round, maxAttempts: int): seq<Event>
    requires IsRound(h, r, maxAttempts)
  {
    if r.failed then [] else
    BatchOfRound(h, r, maxAttempts);
    BatchEvents(h, r.claimed, r.outcomes, h.past[r.from].spool)
  }

  lemma BatchOfRound(h: History, r: Round, maxAttempts: int)
    requires IsRound(h, r, maxAttempts) && !r.failed
    ensures Readable(r.claimed, h.past[r.from].spool)
    ensures forall j :: 0 <= j < |r.outcomes| ==> r.outcomes[j].sent < |h.past|
  {
    hide IsSelection, DeliversAll, Settled;
    SentInHistory(h, r.claimed, r.outcomes, r.from + 1, maxAttempts);
  }

  lemma RoundSteps(cfg: Config, h: History, round: Round, r: Trace, maxAttempts: int) returns (r': Trace)
    requires Told(cfg, h) && OthersQuiet(h) && IsRound(h, round, maxAttempts)
    requires Mirrored(h, round.from, r, maxAttempts) && Final(r).worker == D.Up([], D.Fresh)
    ensures Mirrored(h, round.to, r', maxAttempts) && Final(r').worker == D.Up([], D.Fresh)
    ensures Events(r') == Events(r) + RoundEvents(h, round, maxAttempts)
  {
    hide IsRun, Events, Mirrors, QuietBetween, OthersQuiet, Told, IsSelection, IsBatch, DeliversAll, Settled,
         OnlyTheirs;
    if round.failed {
      TheirsAreQuiet(h, round.from, round.to);
      r' := QuietSteps(cfg, h, round.from, round.to, r, maxAttempts);
      NoMore(Events(r));
    } else {
      var cs, xs, n := round.claimed, round.outcomes, |round.outcomes|;
      BatchOfRound(h, round, maxAttempts);
      var r1 := ClaimStep(cfg, h, round.from, cs, r, maxAttempts);
      var r2 := BatchSteps(cfg, h, round.from, cs, xs, round.from + 1, n, r1, maxAttempts);
      assert xs[..n] == xs && HeldOf(cs)[n..] == [];
      TheirsAreQuiet(h, StartOf(round.from + 1, xs, n), round.to);
      r' := QuietSteps(cfg, h, StartOf(round.from + 1, xs, n), round.to, r2, maxAttempts);
    }
  }

  function RoundsEvents(h: History, rs: seq<Round>, from: nat, to: nat, maxAttempts: int): seq<Event>
    requires AreRounds(h, rs, from, to, maxAttempts)
  {
    if rs == [] then [] else
    var r := rs[|rs| - 1];
    RoundsEvents(h, rs[..|rs| - 1], from, r.from, maxAttempts) + RoundEvents(h, r, maxAttempts)
  }

  lemma {:induction false} RoundsSteps(cfg: Config, h: History, rs: seq<Round>, from: nat, to: nat, r: Trace,
                                       maxAttempts: int)
    returns (r': Trace)
    requires Told(cfg, h) && OthersQuiet(h) && AreRounds(h, rs, from, to, maxAttempts)
    requires Mirrored(h, from, r, maxAttempts) && Final(r).worker == D.Up([], D.Fresh)
    ensures Mirrored(h, to, r', maxAttempts) && Final(r').worker == D.Up([], D.Fresh)
    ensures Events(r') == Events(r) + RoundsEvents(h, rs, from, to, maxAttempts)
  {
    hide IsRun, Events, Mirrors, OthersQuiet, Told, IsRound, RoundEvents;
    if rs == [] {
      r' := r;
      NoMore(Events(r));
    } else {
      var last := rs[|rs| - 1];
      var r1 := RoundsSteps(cfg, h, rs[..|rs| - 1], from, last.from, r, maxAttempts);
      r' := RoundSteps(cfg, h, last, r1, maxAttempts);
      Regroup(Events(r), RoundsEvents(h, rs[..|rs| - 1], from, last.from, maxAttempts),
              RoundEvents(h, last, maxAttempts));
    }
  }

  /** Life after life, with nothing of the worker's in between, up to some moment. */
  ghost predicate AreLives(h: History, ls: seq<Life>, to: nat, maxAttempts: int) {
    if ls == [] then QuietBetween(h, 0, to) else
    var l := ls[|ls| - 1];
    && IsLife(h, l, maxAttempts) && QuietBetween(h, l.to, to)
    && AreLives(h, ls[..|ls| - 1], l.start, maxAttempts)
  }

  function LifeEvents(h: History, l: Life, maxAttempts: int): seq<Event>
    requires l.start < |h.past| && AreRounds(h, l.rounds, l.start + 1, l.to, maxAttempts)
  {
    [Restarted(h.past[l.start].outbox)] + RoundsEvents(h, l.rounds, l.start + 1, l.to, maxAttempts)
  }

  function LivesEvents(h: History, ls: seq<Life>, to: nat, maxAttempts: int): seq<Event>
    requires AreLives(h, ls, to, maxAttempts) && |h.log| < |h.past|
  {
    hide AreRounds, RoundsEvents, QuietBetween;
    if ls == [] then [] else
    var l := ls[|ls| - 1];
    LivesEvents(h, ls[..|ls| - 1], l.start, maxAttempts) + LifeEvents(h, l, maxAttempts)
  }

  lemma StopMirrors(s: Store, w: D.World, maxAttempts: int)
    requires Mirrors(s, w)
    ensures D.Enabled(w, D.Crash({}))
    ensures var w' := D.Take(w, D.Crash({}), maxAttempts); Mirrors(s, w') && w'.worker.Down?
  {
    hide D.Recorded, MarkAllSending, Requeue, Unlink, IsSelection;
  }

  lemma LifeSteps(cfg: Config, h: History, l: Life, r: Trace, maxAttempts: int) returns (r': Trace)
    requires Told(cfg, h) && OthersQuiet(h) && IsLife(h, l, maxAttempts)
    requires Mirrored(h, l.start, r, maxAttempts) && Final(r).worker.Down?
    ensures Mirrored(h, l.to, r', maxAttempts) && Final(r').worker.Down?
    ensures |h.log| < |h.past| && Events(r') == Events(r) + LifeEvents(h, l, maxAttempts)
  {
    hide IsRun, Events, Mirrors, OthersQuiet, AreRounds, RoundsEvents, D.Take, D.Enabled, Good, Led;
    var r1 := RequeueStep(cfg, h, l.start, r, maxAttempts);
    var r2 := RoundsSteps(cfg, h, l.rounds, l.start + 1, l.to, r1, maxAttempts);
    StopMirrors(h.past[l.to], Final(r2), maxAttempts);
    r' := OneStep(r2, D.Crash({}), maxAttempts);
    NoMore(Events(r2));
    Regroup(Events(r), [Restarted(h.past[l.start].outbox)],
            RoundsEvents(h, l.rounds, l.start + 1, l.to, maxAttempts));
  }

  /** Any number of lives of the worker, with everybody else at work in between and at the same
      time, is a run with the same outbox and the same messages handed over at the same times. */
  lemma {:induction false} WorkerRefinesRuns(cfg: Config, h: History, ls: seq<Life>, to: nat, maxAttempts: int)
    returns (r: Trace)
    requires Told(cfg, h) && h.past[0].outbox == map[] && h.past[0].spool == map[]
    requires OthersQuiet(h) && AreLives(h, ls, to, maxAttempts)
    ensures Mirrored(h, to, r, maxAttempts) && Final(r).worker.Down?
    ensures |h.log| < |h.past| && Events(r) == LivesEvents(h, ls, to, maxAttempts)
  {
    hide IsRun, Events, Mirrors, OthersQuiet, IsLife, LifeEvents, Good, Led, QuietBetween;
    if ls == [] {
      var r0 := StartTrace(h.past[0], maxAttempts);
      r := QuietSteps(cfg, h, 0, to, r0, maxAttempts);
    } else {
      var l := ls[|ls| - 1];
      var r1 := WorkerRefinesRuns(cfg, h, ls[..|ls| - 1], l.start, maxAttempts);
      var r2 := LifeSteps(cfg, h, l, r1, maxAttempts);
      r := QuietSteps(cfg, h, l.to, to, r2, maxAttempts);
    }
  }

  lemma StartTrace(s: Store, maxAttempts: int) returns (r: Trace)
    requires s.outbox == map[] && s.spool == map[]
    ensures IsTrace(r, maxAttempts) && Mirrors(s, Final(r)) && Events(r) == [] && Final(r).worker.Down?
  {
    var w := D.World(map[], map[], map[], s.nextFile, D.Down, s.now, map[], 0, 0);
    r := Trace([w], []);
  }

  // ---- Events and accounts ----

  /** How often a message was handed over, taken, and requeued. */
  datatype Tally = Tally(sends: nat, successes: nat, requeues: nat)

  function Add(t: Tally, e: Event, id: Id): Tally {
    match e
    case Handed(i, _, ok, _, _) =>
      if i == id then t.(sends := t.sends + 1, successes := t.successes + if ok then 1 else 0) else t
    case Restarted(o) =>
      if id in o && o[id].status.Sending? then t.(requeues := t.requeues + 1) else t
  }

  function TallyOf(es: seq<Event>, id: Id): Tally {
    if es == [] then Tally(0, 0, 0) else Add(TallyOf(es[..|es| - 1], id), es[|es| - 1], id)
  }

  ghost predicate Counted(w: D.World, id: Id, t: Tally) {
    if id in w.hist then
      w.hist[id].sends == t.sends && w.hist[id].successes == t.successes && w.hist[id].requeues == t.requeues
    else t == Tally(0, 0, 0)
  }

  lemma TallyNext(es: seq<Event>, more: seq<Event>, id: Id)
    requires |more| <= 1
    ensures TallyOf(es + more, id) == if more == [] then TallyOf(es, id) else Add(TallyOf(es, id), more[0], id)
  {
    if more == [] {
      NoMore(es);
    } else {
      assert (es + more)[..|es|] == es;
    }
  }

  lemma StepIsCounted(w: D.World, s: D.Step, id: Id, t: Tally, maxAttempts: int)
    requires D.Invariant(w, maxAttempts) && D.Enabled(w, s) && Counted(w, id, t)
    ensures var es := EventsAt(w, s);
            Counted(D.Take(w, s, maxAttempts), id, if es == [] then t else Add(t, es[0], id))
  {
    hide D.MessageOk, D.Recorded, MarkAllSending, Requeue, Unlink, IsSelection;
  }

  function Prefix(r: Trace, n: nat): Trace
    requires n <= |r.ss| && |r.ws| == |r.ss| + 1
  {
    Trace(r.ws[..n + 1], r.ss[..n])
  }

  lemma PrefixIsTrace(r: Trace, n: nat, maxAttempts: int)
    requires IsTrace(r, maxAttempts) && n <= |r.ss|
    ensures IsTrace(Prefix(r, n), maxAttempts) && Final(Prefix(r, n)) == r.ws[n]
  {
    hide D.Enabled, D.Take, D.Initial;
  }

  lemma StepOfRun(r: Trace, n: nat, maxAttempts: int)
    requires IsTrace(r, maxAttempts) && n < |r.ss|
    ensures D.Enabled(r.ws[n], r.ss[n]) && r.ws[n + 1] == D.Take(r.ws[n], r.ss[n], maxAttempts)
  {
    hide D.Enabled, D.Take, D.Initial;
  }

  /** The accounts of a run are the tallies of its events. */
  lemma {:induction false} RunIsCounted(r: Trace, id: Id, maxAttempts: int)
    requires IsTrace(r, maxAttempts)
    ensures Counted(Final(r), id, TallyOf(Events(r), id))
    decreases |r.ss|
  {
    hide D.Enabled, D.Take, D.Invariant, Counted, EventsAt, Add, IsRun;
    if r.ss == [] {
      NothingCounted(r, id, maxAttempts);
    } else {
      var n := |r.ss| - 1;
      PrefixIsTrace(r, n, maxAttempts);
      RunIsCounted(Prefix(r, n), id, maxAttempts);
      FinalIsOk(Prefix(r, n), maxAttempts);
      StepOfRun(r, n, maxAttempts);
      AtMostOne(r.ws[n], r.ss[n]);
      TallyNext(Events(Prefix(r, n)), EventsAt(r.ws[n], r.ss[n]), id);
      StepIsCounted(r.ws[n], r.ss[n], id, TallyOf(Events(Prefix(r, n)), id), maxAttempts);
    }
  }

  lemma NothingCounted(r: Trace, id: Id, maxAttempts: int)
    requires IsTrace(r, maxAttempts) && r.ss == []
    ensures Counted(Final(r), id, Tally(0, 0, 0))
  {
  }

  lemma AtMostOne(w: D.World, s: D.Step)
    ensures |EventsAt(w, s)| <= 1
  {
  }

  /** Over any lives of the worker, a message is handed over at most `max_attempts` times (once
      if that is less than one) plus once per requeue, and taken at most once plus once per
      requeue; it is delivered only if it was taken, and failed only if it was handed over as
      often as allowed. */
  lemma WorkerIsBounded(cfg: Config, h: History, ls: seq<Life>, to: nat, maxAttempts: int, id: Id)
    requires Told(cfg, h) && h.past[0].outbox == map[] && h.past[0].spool == map[]
    requires OthersQuiet(h) && AreLives(h, ls, to, maxAttempts) && to < |h.past| && id in h.past[to].outbox
    ensures |h.log| < |h.past|
    ensures var t, row := TallyOf(LivesEvents(h, ls, to, maxAttempts), id), h.past[to].outbox[id];
            && t.sends <= Cap(maxAttempts) + t.requeues && t.successes <= 1 + t.requeues
            && (row.status.Delivered? ==> t.successes >= 1)
            && (row.status.Failed? ==> t.sends >= Cap(maxAttempts))
  {
    hide OthersQuiet, AreLives, LivesEvents, Events, D.Run, D.MessageOk, D.WorkerOk, D.WritingOk;
    var r := WorkerRefinesRuns(cfg, h, ls, to, maxAttempts);
    RunIsCounted(r, id, maxAttempts);
    FinalIsOk(r, maxAttempts);
    D.BoundedDelivery(r.ws, r.ss, maxAttempts, |r.ss|, id);
    D.NeverGivenUpEarly(r.ws, r.ss, maxAttempts, |r.ss|);
  }

  // ---- Where in a run an event happened ----

  lemma {:induction false} EventIndex(r: Trace, k: nat) returns (n: nat)
    requires |r.ws| == |r.ss| + 1 && k < |Events(r)|
    ensures n < |r.ss| && EventsAt(r.ws[n], r.ss[n]) == [Events(r)[k]] && Events(Prefix(r, n)) == Events(r)[..k]
    decreases |r.ss|
  {
    hide EventsAt;
    n := |r.ss| - 1;
    var front := Prefix(r, n);
    AtMostOne(r.ws[n], r.ss[n]);
    if k < |Events(front)| {
      n := EventIndex(front, k);
      assert Prefix(front, n) == Prefix(r, n);
    } else {
      assert Events(r)[..k] == Events(front);
    }
  }

  lemma {:induction false} EventsGrow(r: Trace, m: nat, n: nat)
    requires |r.ws| == |r.ss| + 1 && m <= n <= |r.ss|
    ensures |Events(Prefix(r, m))| <= |Events(Prefix(r, n))|
  {
    hide EventsAt;
    if m < n {
      EventsGrow(r, m, n - 1);
      assert Prefix(Prefix(r, n), n - 1) == Prefix(r, n - 1);
    }
  }

  lemma IndicesGrow(r: Trace, i: nat, m: nat, j: nat, n: nat)
    requires |r.ws| == |r.ss| + 1 && m < |r.ss| && n < |r.ss| && i < j
    requires |Events(Prefix(r, m))| == i && |Events(Prefix(r, n))| == j
    ensures m < n
  {
    hide Events;
    if n <= m {
      EventsGrow(r, n, m);
    }
  }

  /** Between two times that the worker hands over the same message, unless it was requeued in
      between, at least the backoff of its recorded attempts passes. */
  lemma WorkerSpacesSends(cfg: Config, h: History, ls: seq<Life>, to: nat, maxAttempts: int, i: nat, j: nat)
    requires Told(cfg, h) && h.past[0].outbox == map[] && h.past[0].spool == map[] && |h.log| < |h.past|
    requires OthersQuiet(h) && AreLives(h, ls, to, maxAttempts)
    requires var es := LivesEvents(h, ls, to, maxAttempts);
             && i < j < |es| && es[i].Handed? && es[j].Handed? && es[i].id == es[j].id
             && TallyOf(es[..i], es[i].id).requeues == TallyOf(es[..j], es[i].id).requeues
    ensures var es := LivesEvents(h, ls, to, maxAttempts);
            es[j].time >= es[i].time + Backoff(es[j].attempts) * MINUTE
  {
    hide OthersQuiet, AreLives, LivesEvents, Events, IsRun, Backoff, Mirrors, TallyOf, Good, Led;
    var r := WorkerRefinesRuns(cfg, h, ls, to, maxAttempts);
    var m := EventIndex(r, i);
    var n := EventIndex(r, j);
    IndicesGrow(r, i, m, j, n);
    SpacedInRun(r, m, n, maxAttempts);
  }

  lemma SpacedInRun(r: Trace, m: nat, n: nat, maxAttempts: int)
    requires IsTrace(r, maxAttempts) && m < n < |r.ss|
    requires |EventsAt(r.ws[m], r.ss[m])| == 1 && |EventsAt(r.ws[n], r.ss[n])| == 1
    requires var d, e := EventsAt(r.ws[m], r.ss[m])[0], EventsAt(r.ws[n], r.ss[n])[0];
             && d.Handed? && e.Handed? && d.id == e.id
             && TallyOf(Events(Prefix(r, m)), d.id).requeues == TallyOf(Events(Prefix(r, n)), d.id).requeues
    ensures var d, e := EventsAt(r.ws[m], r.ss[m])[0], EventsAt(r.ws[n], r.ss[n])[0];
            e.time >= d.time + Backoff(e.attempts) * MINUTE
  {
    hide D.Run, D.Enabled, D.Take, Events, TallyOf, Backoff;
    var id := r.ws[m].worker.held[0].id;
    PrefixIsTrace(r, m, maxAttempts);
    PrefixIsTrace(r, n, maxAttempts);
    RunIsCounted(Prefix(r, m), id, maxAttempts);
    RunIsCounted(Prefix(r, n), id, maxAttempts);
    D.SendsAreSpaced(r.ws, r.ss, maxAttempts, m, n);
    D.StatusesHold(r.ws, r.ss, maxAttempts, n);
  }

  // ---- Events are what the relay got ----

  /** The relay got the file and the envelope of that message. */
  ghost predicate Matches(e: Event, t: Transmission, s: Store) {
    && e.Handed? && e.id in s.outbox && e.id in s.spool
    && t == Transmission(s.outbox[e.id].envelopeFrom, s.outbox[e.id].envelopeTo, s.spool[e.id], e.ok)
    && e.raw == t.raw
  }

  lemma MatchesLater(e: Event, t: Transmission, s: Store, s': Store)
    requires Matches(e, t, s) && Keeps(s, s')
    ensures Matches(e, t, s')
  {
    hide T.Remembers;
  }

  lemma {:induction false} BatchMatches(cfg: Config, h: History, s: Store, cs: seq<Claimed>, xs: seq<Outcome>)
    requires Good(cfg, s) && IsBatch(s, cs) && |xs| <= |cs| && forall j :: 0 <= j < |xs| ==> xs[j].sent < |h.past|
    ensures var es, ts := BatchEvents(h, cs, xs, s.spool), Transmitted(cs, xs, s.spool);
            |es| == |ts| && forall k :: 0 <= k < |es| ==> Matches(es[k], ts[k], s)
  {
    hide T.Consistent, AllGenerated, FilesOk, LinksTo;
    if xs != [] {
      BatchMatches(cfg, h, s, cs, xs[..|xs| - 1]);
    }
  }

  /** What the relay got during any turns of the worker are their events, each with the
      envelope and the spooled bytes of a message that is still in the outbox. */
  lemma {:induction false} EventsAreTransmissions(cfg: Config, h: History, rs: seq<Round>, from: nat, to: nat,
                                                  maxAttempts: int, k: nat)
    requires Told(cfg, h) && AreRounds(h, rs, from, to, maxAttempts) && to < |h.past|
    ensures |RoundsEvents(h, rs, from, to, maxAttempts)| == |AllHandedOver(h, rs, from, to, maxAttempts)|
    ensures k < |RoundsEvents(h, rs, from, to, maxAttempts)| ==>
              Matches(RoundsEvents(h, rs, from, to, maxAttempts)[k], AllHandedOver(h, rs, from, to, maxAttempts)[k],
                      h.past[to])
  {
    hide IsRound, RoundEvents, HandedOver, Matches, Good, Led, Keeps;
    if rs != [] {
      var r := rs[|rs| - 1];
      var es, ts := RoundsEvents(h, rs[..|rs| - 1], from, r.from, maxAttempts),
          AllHandedOver(h, rs[..|rs| - 1], from, r.from, maxAttempts);
      RoundMatches(cfg, h, r, maxAttempts);
      EventsAreTransmissions(cfg, h, rs[..|rs| - 1], from, r.from, maxAttempts, k);
      PastIsKept(cfg, h, r.from, r.to);
      if k < |es| {
        MatchesLater(es[k], ts[k], h.past[r.from], h.past[r.to]);
      }
    }
  }

  lemma RoundMatches(cfg: Config, h: History, r: Round, maxAttempts: int)
    requires Told(cfg, h) && IsRound(h, r, maxAttempts)
    ensures r.from <= r.to < |h.past|
    ensures var es, ts := RoundEvents(h, r, maxAttempts), HandedOver(h, r, maxAttempts);
            |es| == |ts| && forall k :: 0 <= k < |es| ==> Matches(es[k], ts[k], h.past[r.to])
  {
    hide IsSelection, DeliversAll, Settled, OnlyTheirs, Matches, Good, Led, Keeps, IsBatch;
    PastIsKept(cfg, h, r.from, r.to);
    if !r.failed {
      BatchOfRound(h, r, maxAttempts);
      PastIsGood(cfg, h, r.from);
      BatchMatches(cfg, h, h.past[r.from], r.claimed, r.outcomes);
      var es, ts := RoundEvents(h, r, maxAttempts), HandedOver(h, r, maxAttempts);
      forall k | 0 <= k < |es| ensures Matches(es[k], ts[k], h.past[r.to]) {
        MatchesLater(es[k], ts[k], h.past[r.from], h.past[r.to]);
      }
    }
  }

  // ---- Histories of a database with one worker ----

  /** Whatever the others ran comes from the tape. */
  lemma {:induction false} TapeIsQuiet(h: History, log: seq<Step>, tape: seq<Statement>)
    requires OneWorker(tape) && Thems(log) <= tape && h.log == log
    ensures OthersQuiet(h)
    decreases |log|
  {
    if log != [] {
      var front := log[..|log| - 1];
      TapeIsQuiet(h.(log := front), front, tape);
      assert log[|log| - 1].Theirs? ==> log[|log| - 1].st == tape[|Thems(front)|];
      forall m | 0 <= m < |log| && log[m].Theirs? ensures IsQuiet(log[m].st) {
        assert m < |front| ==> front[m] == log[m];
      }
    }
  }
}
