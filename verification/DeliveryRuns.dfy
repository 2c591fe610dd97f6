/** Every run of the spool, the outbox and the delivery worker, with crashes, restarts and
    lost writes between any two steps: src/delivery/queue.rs:37-218 and
    src/delivery/worker.rs:11-112. */
module DeliveryRuns {
  import opened Basics
  import opened Outbox

  /** A claimed message as the worker holds it, with the attempts read at the claim. */
  datatype Held = Held(id: Id, attempts: int)

  /** What happened so far to the message at the head of the batch. */
  datatype Phase = Fresh | Loaded(raw: string) | Missing | Sent(ok: bool)

  datatype Worker = Down | Up(held: seq<Held>, phase: Phase)

  /** An enqueue under way in some connection: its file is complete once `written`. */
  datatype Writing = Writing(raw: string, written: bool)

  /** What a message went through, kept only to state the properties. */
  datatype History = History(
    raw: string, sends: nat, successes: nat, requeues: nat, lastSend: Option<int>, spaced: bool)

  datatype World = World(
    outbox: Outbox, spool: map<Id, string>, writing: map<Id, Writing>, nextId: Id,
    worker: Worker, now: int, hist: map<Id, History>, inserts: nat, records: nat)

  /** A crash takes the worker down, and with it those connections whose enqueue it cuts. */
  datatype Step =
    | BeginWrite(raw: string, partial: string)
    | FinishWrite(id: Id)
    | InsertRow(id: Id, direction: Direction, sender: string, recipient: string, aliasId: Option<Id>,
                contactId: Option<Id>, subject: Option<string>, due: int)
    | AbandonWrite(id: Id)
    | Claim(ids: seq<Id>)
    | ReadFile
    | Send(ok: bool)
    | Record(lost: bool)
    | Crash(cut: set<Id>)
    | Restart
    | Tick(time: int)
    | DeleteFile(id: Id)
    | DeleteLinks(aliases: set<Id>, contacts: set<Id>)

  predicate Initial(w: World) {
    && w.outbox == map[] && w.hist == map[] && w.writing == map[] && w.worker.Down?
    && w.inserts == 0 && w.records == 0 && forall id :: id in w.spool ==> id < w.nextId
  }

  ghost predicate Enabled(w: World, s: Step) {
    match s
    case BeginWrite(_, _) => true
    case FinishWrite(id) => id in w.writing
    case InsertRow(id, _, _, _, _, _, _, _) => id in w.writing && w.writing[id].written
    case AbandonWrite(id) => id in w.writing
    case Claim(ids) => w.worker.Up? && w.worker.held == [] && IsSelection(w.outbox, w.now, BATCH_SIZE, ids)
    case ReadFile => w.worker.Up? && w.worker.held != [] && w.worker.phase.Fresh?
                     && w.worker.held[0].id in w.outbox
    case Send(_) => w.worker.Up? && w.worker.held != [] && w.worker.phase.Loaded? && w.worker.held[0].id in w.hist
    case Record(_) => w.worker.Up? && w.worker.held != [] && (w.worker.phase.Sent? || w.worker.phase.Missing?)
                      && w.worker.held[0].id in w.outbox && w.worker.held[0].id in w.hist
    case Crash(_) => true
    case Restart => w.worker.Down? && w.hist.Keys == w.outbox.Keys
    case Tick(time) => time >= w.now
    case DeleteFile(_) => true
    case DeleteLinks(_, _) => true
  }

  function HoldAll(o: Outbox, ids: seq<Id>): seq<Held>
    requires forall i :: 0 <= i < |ids| ==> ids[i] in o
  {
    seq(|ids|, i requires 0 <= i < |ids| => Held(ids[i], o[ids[i]].attempts))
  }

  /** The status write for the head of the batch (src/delivery/worker.rs:74-108). */
  function Recorded(w: World, maxAttempts: int): Outbox
    requires w.worker.Up? && w.worker.held != []
  {
    var h := w.worker.held[0];
    match w.worker.phase
    case Sent(ok) =>
      if ok then MarkDelivered(w.outbox, h.id)
      else MarkAttemptFailed(w.outbox, h.id, h.attempts, maxAttempts, w.now)
    case _ => MarkAttemptFailed(w.outbox, h.id, maxAttempts, maxAttempts, w.now)
  }

  ghost function Take(w: World, s: Step, maxAttempts: int): World
    requires Enabled(w, s)
  {
    match s
    case BeginWrite(raw, partial) =>
      w.(spool := w.spool[w.nextId := partial], writing := w.writing[w.nextId := Writing(raw, false)],
         nextId := w.nextId + 1)
    case FinishWrite(id) =>
      w.(spool := w.spool[id := w.writing[id].raw], writing := w.writing[id := w.writing[id].(written := true)])
    case InsertRow(id, direction, sender, recipient, aliasId, contactId, subject, due) =>
      w.(outbox := w.outbox[id := NewRow(direction, sender, recipient, id, aliasId, contactId, subject, due)],
         hist := w.hist[id := History(w.writing[id].raw, 0, 0, 0, None, true)],
         writing := w.writing - {id}, inserts := w.inserts + 1)
    case AbandonWrite(id) => w.(writing := w.writing - {id})
    case Claim(ids) =>
      w.(outbox := MarkAllSending(w.outbox, ids), worker := Up(HoldAll(w.outbox, ids), Fresh))
    case ReadFile =>
      var path := w.outbox[w.worker.held[0].id].rawPath;
      w.(worker := w.worker.(phase := if path in w.spool then Loaded(w.spool[path]) else Missing))
    case Send(ok) =>
      var id := w.worker.held[0].id;
      var h := w.hist[id];
      w.(worker := w.worker.(phase := Sent(ok)),
         hist := w.hist[id := h.(sends := h.sends + 1, successes := h.successes + (if ok then 1 else 0),
                                 lastSend := Some(w.now))])
    case Record(lost) =>
      var rest := Up(w.worker.held[1..], Fresh);
      if lost then w.(worker := rest) else
      var id := w.worker.held[0].id;
      w.(outbox := Recorded(w, maxAttempts), worker := rest, records := w.records + 1,
         hist := w.hist[id := w.hist[id].(spaced := true)])
    case Crash(cut) => w.(worker := Down, writing := w.writing - cut)
    case Restart =>
      w.(outbox := Requeue(w.outbox, w.now), worker := Up([], Fresh),
         hist := map id | id in w.hist ::
           if w.outbox[id].status.Sending?
           then w.hist[id].(requeues := w.hist[id].requeues + 1, spaced := false) else w.hist[id])
    case Tick(time) => w.(now := time)
    case DeleteFile(id) => w.(spool := w.spool - {id})
    case DeleteLinks(aliases, contacts) => w.(outbox := Unlink(w.outbox, aliases, contacts))
  }

  ghost predicate Run(ws: seq<World>, ss: seq<Step>, maxAttempts: int) {
    && |ws| == |ss| + 1 && Initial(ws[0])
    && forall i :: 0 <= i < |ss| ==> Enabled(ws[i], ss[i]) && ws[i + 1] == Take(ws[i], ss[i], maxAttempts)
  }

  // ---- One message ----

  /** Where a message stands with the worker. */
  datatype Stage = Idle | Waiting | JustSent(ok: bool)

  predicate IsHeld(w: World, id: Id) {
    w.worker.Up? && exists i :: 0 <= i < |w.worker.held| && w.worker.held[i].id == id
  }

  predicate IsHead(w: World, id: Id) {
    w.worker.Up? && w.worker.held != [] && w.worker.held[0].id == id
  }

  function StageOf(w: World, id: Id): Stage {
    if IsHead(w, id) && w.worker.phase.Sent? then JustSent(w.worker.phase.ok)
    else if IsHeld(w, id) then Waiting
    else Idle
  }

  function Bit(b: bool): nat { if b then 1 else 0 }

  /** Sends and successes are paid for by recorded attempts, requeues, or an outcome that is
      still to be recorded or was lost; and every recorded attempt was made. */
  predicate Accounted(r: Row, h: History, stage: Stage, maxAttempts: int) {
    match r.status
    case Pending => 0 <= r.attempts < Cap(maxAttempts) && stage.Idle? && r.attempts <= h.sends
                    && h.sends <= r.attempts + h.requeues && h.successes <= h.requeues
    case Sending => 0 <= r.attempts < Cap(maxAttempts) && r.attempts <= h.sends
                    && (match stage
                        case Waiting => h.sends <= r.attempts + h.requeues && h.successes <= h.requeues
                        case JustSent(ok) => r.attempts + 1 <= h.sends <= r.attempts + h.requeues + 1
                                             && Bit(ok) <= h.successes <= h.requeues + Bit(ok)
                        case Idle => h.sends <= r.attempts + h.requeues + 1 && h.successes <= h.requeues + 1)
    case Delivered => stage.Idle? && h.sends <= Cap(maxAttempts) + h.requeues
                      && 1 <= h.successes <= 1 + h.requeues
    case Failed => stage.Idle? && h.sends <= Cap(maxAttempts) + h.requeues && h.successes <= h.requeues
                   && (h.sends >= Cap(maxAttempts) || r.attempts == maxAttempts + 1)
  }

  /** A failed attempt keeps the message back for its backoff, counted from the send. */
  predicate Spaced(r: Row, h: History, stage: Stage, now: int) {
    h.lastSend.Some? ==>
      && h.lastSend.value <= now
      && (h.spaced && r.status.Pending? ==> r.nextAttempt >= h.lastSend.value + Backoff(r.attempts) * MINUTE)
      && (h.spaced && r.status.Sending? && stage.Waiting? ==>
            now >= h.lastSend.value + Backoff(r.attempts) * MINUTE)
  }

  ghost predicate MessageOk(w: World, id: Id, maxAttempts: int)
    requires id in w.outbox && id in w.hist
  {
    && w.outbox[id].rawPath == id && id !in w.writing
    && (id in w.spool ==> w.spool[id] == w.hist[id].raw)
    && Accounted(w.outbox[id], w.hist[id], StageOf(w, id), maxAttempts)
    && Spaced(w.outbox[id], w.hist[id], StageOf(w, id), w.now)
  }

  ghost predicate HeldOk(w: World, h: Held) {
    h.id in w.outbox && w.outbox[h.id].status.Sending? && h.attempts == w.outbox[h.id].attempts
  }

  ghost predicate WorkerOk(w: World) {
    w.worker.Up? ==>
      && (forall i :: 0 <= i < |w.worker.held| ==> HeldOk(w, w.worker.held[i]))
      && (forall i, j :: 0 <= i < j < |w.worker.held| ==> w.worker.held[i].id != w.worker.held[j].id)
      && (w.worker.phase.Loaded? ==>
            (w.worker.held != [] && w.worker.held[0].id in w.hist
             && w.worker.phase.raw == w.hist[w.worker.held[0].id].raw))
  }

  ghost predicate WritingOk(w: World) {
    && (forall id :: id in w.writing ==>
          (id < w.nextId && id !in w.outbox
           && (w.writing[id].written && id in w.spool ==> w.spool[id] == w.writing[id].raw)))
    && (forall id :: id in w.spool ==> id < w.nextId)
    && (forall id :: id in w.outbox ==> id < w.nextId)
  }

  ghost predicate Invariant(w: World, maxAttempts: int) {
    && w.outbox.Keys == w.hist.Keys && WorkerOk(w) && WritingOk(w)
    && forall id :: id in w.outbox ==> MessageOk(w, id, maxAttempts)
  }

  lemma InitialOk(w: World, maxAttempts: int)
    requires Initial(w)
    ensures Invariant(w, maxAttempts)
  {
  }

  predicate WriteStep(s: Step) {
    s.BeginWrite? || s.FinishWrite? || s.AbandonWrite? || s.DeleteFile? || s.Tick?
  }

  lemma WriteSteps(w: World, s: Step, maxAttempts: int)
    requires Invariant(w, maxAttempts) && Enabled(w, s) && WriteStep(s)
    ensures Invariant(Take(w, s, maxAttempts), maxAttempts)
  {
    hide Take, MessageOk, WorkerOk, WritingOk, Enabled, WriteStep;
    WritesOnlyWrite(w, s, maxAttempts);
    SameWorker(w, Take(w, s, maxAttempts));
    WriteWriting(w, s, maxAttempts);
    forall id | id in w.outbox {
      WriteMessage(w, s, id, maxAttempts);
    }
  }

  lemma WritesOnlyWrite(w: World, s: Step, maxAttempts: int)
    requires Enabled(w, s) && WriteStep(s)
    ensures var w' := Take(w, s, maxAttempts); w'.outbox == w.outbox && w'.hist == w.hist && w'.worker == w.worker
  {
    hide Recorded, MarkAllSending, Requeue, Unlink, IsSelection;
  }

  lemma SameWorker(w: World, w': World)
    requires WorkerOk(w) && w'.outbox == w.outbox && w'.hist == w.hist && w'.worker == w.worker
    ensures WorkerOk(w')
  {
    if w.worker.Up? {
      forall i | 0 <= i < |w.worker.held| ensures HeldOk(w', w.worker.held[i]) {
        assert HeldOk(w, w.worker.held[i]);
      }
    }
  }

  lemma WriteWriting(w: World, s: Step, maxAttempts: int)
    requires WritingOk(w) && Enabled(w, s) && WriteStep(s)
    ensures WritingOk(Take(w, s, maxAttempts))
  {
    hide Recorded, MarkAllSending, Requeue, Unlink, IsSelection;
  }

  lemma WriteMessage(w: World, s: Step, id: Id, maxAttempts: int)
    requires id in w.outbox && id in w.hist && MessageOk(w, id, maxAttempts) && WritingOk(w) && Enabled(w, s)
    requires WriteStep(s)
    ensures MessageOk(Take(w, s, maxAttempts), id, maxAttempts)
  {
    hide Accounted, Backoff, Recorded, MarkAllSending, Requeue, IsSelection;
    assert StageOf(Take(w, s, maxAttempts), id) == StageOf(w, id);
  }

  lemma InsertStep(w: World, s: Step, maxAttempts: int)
    requires Invariant(w, maxAttempts) && Enabled(w, s) && s.InsertRow?
    ensures Invariant(Take(w, s, maxAttempts), maxAttempts)
  {
    hide Accounted, Spaced;
    var w' := Take(w, s, maxAttempts);
    NewMessage(w, s, maxAttempts);
    forall id | id in w'.outbox ensures MessageOk(w', id, maxAttempts) {
      if id != s.id {
        assert MessageOk(w, id, maxAttempts);
        assert StageOf(w', id) == StageOf(w, id);
      }
    }
    assert WorkerOk(w') by {
      if w.worker.Up? {
        forall i | 0 <= i < |w.worker.held| ensures HeldOk(w', w.worker.held[i]) {
          assert HeldOk(w, w.worker.held[i]);
        }
      }
    }
  }

  lemma NewMessage(w: World, s: Step, maxAttempts: int)
    requires WorkerOk(w) && WritingOk(w) && Enabled(w, s) && s.InsertRow?
    ensures MessageOk(Take(w, s, maxAttempts), s.id, maxAttempts)
  {
    hide Backoff, IsSelection, Recorded, MarkAllSending;
    if w.worker.Up? {
      forall i | 0 <= i < |w.worker.held| ensures w.worker.held[i].id != s.id {
        assert HeldOk(w, w.worker.held[i]);
      }
    }
    assert StageOf(Take(w, s, maxAttempts), s.id) == Idle;
  }

  lemma ClaimStep(w: World, s: Step, maxAttempts: int)
    requires Invariant(w, maxAttempts) && Enabled(w, s) && s.Claim?
    ensures Invariant(Take(w, s, maxAttempts), maxAttempts)
  {
    hide MessageOk, MarkAllSending;
    var w' := Take(w, s, maxAttempts);
    MarkedSending(w.outbox, s.ids);
    forall id | id in w'.outbox {
      ClaimMessage(w, s, id, maxAttempts);
    }
  }

  lemma ClaimMessage(w: World, s: Step, id: Id, maxAttempts: int)
    requires id in w.outbox && id in w.hist && MessageOk(w, id, maxAttempts)
    requires Enabled(w, s) && s.Claim?
    ensures id in Take(w, s, maxAttempts).outbox && MessageOk(Take(w, s, maxAttempts), id, maxAttempts)
  {
    hide Backoff, MarkAllSending;
    var w' := Take(w, s, maxAttempts);
    MarkedSending(w.outbox, s.ids);
    assert StageOf(w, id) == Idle;
    if id in s.ids {
      var i :| 0 <= i < |s.ids| && s.ids[i] == id;
      assert w'.worker.held[i].id == id;
      assert StageOf(w', id) == Waiting;
    } else {
      assert StageOf(w', id) == Idle;
    }
  }

  lemma ReadStep(w: World, s: Step, maxAttempts: int)
    requires Invariant(w, maxAttempts) && Enabled(w, s) && s.ReadFile?
    ensures Invariant(Take(w, s, maxAttempts), maxAttempts)
  {
    hide Accounted, Spaced;
    var w' := Take(w, s, maxAttempts);
    forall id | id in w'.outbox ensures MessageOk(w', id, maxAttempts) {
      assert MessageOk(w, id, maxAttempts);
      assert StageOf(w', id) == StageOf(w, id);
    }
  }

  lemma SendStep(w: World, s: Step, maxAttempts: int)
    requires Invariant(w, maxAttempts) && Enabled(w, s) && s.Send?
    ensures Invariant(Take(w, s, maxAttempts), maxAttempts)
  {
    hide MessageOk;
    var w' := Take(w, s, maxAttempts);
    forall i | 0 <= i < |w.worker.held| ensures HeldOk(w', w.worker.held[i]) {
      assert HeldOk(w, w.worker.held[i]);
    }
    assert HeldOk(w, w.worker.held[0]);
    forall id | id in w'.outbox ensures MessageOk(w', id, maxAttempts) {
      SendMessage(w, s, id, maxAttempts);
    }
  }

  lemma SendMessage(w: World, s: Step, id: Id, maxAttempts: int)
    requires id in w.outbox && id in w.hist && MessageOk(w, id, maxAttempts)
    requires Enabled(w, s) && s.Send? && HeldOk(w, w.worker.held[0])
    ensures MessageOk(Take(w, s, maxAttempts), id, maxAttempts)
  {
    hide Backoff;
    var w' := Take(w, s, maxAttempts);
    if IsHead(w, id) {
      assert StageOf(w, id) == Waiting by { assert w.worker.held[0].id == id; }
      assert StageOf(w', id) == JustSent(s.ok);
    } else {
      assert StageOf(w', id) == StageOf(w, id);
    }
  }

  lemma RecordStep(w: World, s: Step, maxAttempts: int)
    requires Invariant(w, maxAttempts) && Enabled(w, s) && s.Record?
    ensures Invariant(Take(w, s, maxAttempts), maxAttempts)
  {
    hide MessageOk, AfterFailure, Accounted, Spaced;
    var w' := Take(w, s, maxAttempts);
    RecordWorker(w, s, maxAttempts);
    forall id | id in w'.outbox ensures MessageOk(w', id, maxAttempts) {
      if IsHead(w, id) {
        RecordHead(w, s, maxAttempts);
      } else {
        RecordOther(w, s, id, maxAttempts);
      }
    }
  }

  lemma RecordWorker(w: World, s: Step, maxAttempts: int)
    requires WorkerOk(w) && WritingOk(w) && w.outbox.Keys == w.hist.Keys && Enabled(w, s) && s.Record?
    ensures var w' := Take(w, s, maxAttempts);
            WorkerOk(w') && WritingOk(w') && w'.outbox.Keys == w'.hist.Keys == w.outbox.Keys
  {
    hide AfterFailure, MarkAllSending, Requeue, IsSelection, Backoff;
    var w' := Take(w, s, maxAttempts);
    var head := w.worker.held[0].id;
    assert HeldOk(w, w.worker.held[0]);
    assert forall id :: id in w.outbox && id != head ==> w'.outbox[id] == w.outbox[id];
    forall i | 0 <= i < |w'.worker.held| ensures HeldOk(w', w'.worker.held[i]) {
      assert w'.worker.held[i] == w.worker.held[i + 1] && HeldOk(w, w.worker.held[i + 1]);
      assert w.worker.held[i + 1].id != head;
    }
  }

  lemma RecordHead(w: World, s: Step, maxAttempts: int)
    requires WorkerOk(w) && Enabled(w, s) && s.Record?
    requires MessageOk(w, w.worker.held[0].id, maxAttempts)
    ensures var id := w.worker.held[0].id;
            id in Take(w, s, maxAttempts).outbox && MessageOk(Take(w, s, maxAttempts), id, maxAttempts)
  {
    hide Backoff;
    var id, w' := w.worker.held[0].id, Take(w, s, maxAttempts);
    assert HeldOk(w, w.worker.held[0]);
    assert !IsHeld(w', id) by {
      assert forall i :: 0 <= i < |w'.worker.held| ==> w'.worker.held[i] == w.worker.held[i + 1];
    }
  }

  lemma RecordOther(w: World, s: Step, id: Id, maxAttempts: int)
    requires id in w.outbox && id in w.hist && MessageOk(w, id, maxAttempts)
    requires Enabled(w, s) && s.Record? && !IsHead(w, id)
    ensures id in Take(w, s, maxAttempts).outbox && MessageOk(Take(w, s, maxAttempts), id, maxAttempts)
  {
    hide Accounted, Spaced, AfterFailure;
    var w' := Take(w, s, maxAttempts);
    assert StageOf(w', id) == StageOf(w, id) by {
      assert forall i :: 0 <= i < |w'.worker.held| ==> w'.worker.held[i] == w.worker.held[i + 1];
      assert forall i :: 0 < i < |w.worker.held| ==> w.worker.held[i] == w'.worker.held[i - 1];
    }
  }

  lemma CrashStep(w: World, s: Step, maxAttempts: int)
    requires Invariant(w, maxAttempts) && Enabled(w, s) && (s.Crash? || s.Restart?)
    ensures Invariant(Take(w, s, maxAttempts), maxAttempts)
  {
    hide MessageOk, RequeueRow;
    var w' := Take(w, s, maxAttempts);
    forall id | id in w'.outbox ensures MessageOk(w', id, maxAttempts) {
      if s.Crash? {
        CrashMessage(w, s, id, maxAttempts);
      } else {
        RestartMessage(w, id, maxAttempts);
      }
    }
  }

  lemma CrashMessage(w: World, s: Step, id: Id, maxAttempts: int)
    requires id in w.outbox && id in w.hist && MessageOk(w, id, maxAttempts) && s.Crash?
    ensures MessageOk(Take(w, s, maxAttempts), id, maxAttempts)
  {
    hide Backoff;
    assert StageOf(Take(w, s, maxAttempts), id) == Idle;
  }

  lemma RestartMessage(w: World, id: Id, maxAttempts: int)
    requires id in w.outbox && id in w.hist && MessageOk(w, id, maxAttempts) && Enabled(w, Restart)
    ensures MessageOk(Take(w, Restart, maxAttempts), id, maxAttempts)
  {
    hide Backoff;
    assert StageOf(w, id) == Idle && StageOf(Take(w, Restart, maxAttempts), id) == Idle;
  }

  lemma UnlinkStep(w: World, s: Step, maxAttempts: int)
    requires Invariant(w, maxAttempts) && s.DeleteLinks?
    ensures Invariant(Take(w, s, maxAttempts), maxAttempts)
  {
    hide MessageOk, Recorded, MarkAllSending, Requeue, IsSelection;
    forall id | id in w.outbox {
      UnlinkMessage(w, s, id, maxAttempts);
    }
    if w.worker.Up? {
      forall i | 0 <= i < |w.worker.held| ensures HeldOk(Take(w, s, maxAttempts), w.worker.held[i]) {
        assert HeldOk(w, w.worker.held[i]);
      }
    }
  }

  lemma UnlinkMessage(w: World, s: Step, id: Id, maxAttempts: int)
    requires id in w.outbox && id in w.hist && MessageOk(w, id, maxAttempts) && s.DeleteLinks?
    ensures MessageOk(Take(w, s, maxAttempts), id, maxAttempts)
  {
    hide Backoff, Recorded, MarkAllSending, Requeue, IsSelection;
    assert StageOf(Take(w, s, maxAttempts), id) == StageOf(w, id);
  }

  lemma StepKeepsInvariant(w: World, s: Step, maxAttempts: int)
    requires Invariant(w, maxAttempts) && Enabled(w, s)
    ensures Invariant(Take(w, s, maxAttempts), maxAttempts)
  {
    hide Invariant, Take, Enabled;
    match s
    case InsertRow(_, _, _, _, _, _, _, _) => InsertStep(w, s, maxAttempts);
    case Claim(_) => ClaimStep(w, s, maxAttempts);
    case ReadFile => ReadStep(w, s, maxAttempts);
    case Send(_) => SendStep(w, s, maxAttempts);
    case Record(_) => RecordStep(w, s, maxAttempts);
    case Crash(_) => CrashStep(w, s, maxAttempts);
    case Restart => CrashStep(w, s, maxAttempts);
    case DeleteLinks(_, _) => UnlinkStep(w, s, maxAttempts);
    case _ => WriteSteps(w, s, maxAttempts);
  }

  lemma {:induction false} RunKeepsInvariant(ws: seq<World>, ss: seq<Step>, maxAttempts: int, n: nat)
    requires Run(ws, ss, maxAttempts) && n < |ws|
    ensures Invariant(ws[n], maxAttempts)
  {
    hide Invariant, Take, Enabled, Initial;
    if n == 0 {
      InitialOk(ws[0], maxAttempts);
    } else {
      RunKeepsInvariant(ws, ss, maxAttempts, n - 1);
      StepKeepsInvariant(ws[n - 1], ss[n - 1], maxAttempts);
    }
  }

  // ---- The promises ----

  /** At-least-once delivery, both ways: over any run, a message is sent at most
      `max_attempts` times (once if that is less than one) plus once per requeue, and
      successfully at most once plus once per requeue; it counts as delivered only after a
      successful send, and as failed only after all its attempts or once its file was
      missing. */
  lemma BoundedDelivery(ws: seq<World>, ss: seq<Step>, maxAttempts: int, n: nat, id: Id)
    requires Run(ws, ss, maxAttempts) && n < |ws| && id in ws[n].hist
    ensures id in ws[n].outbox
    ensures ws[n].hist[id].sends <= Cap(maxAttempts) + ws[n].hist[id].requeues
    ensures ws[n].hist[id].successes <= 1 + ws[n].hist[id].requeues
    ensures ws[n].outbox[id].status.Delivered? ==> ws[n].hist[id].successes >= 1
    ensures ws[n].outbox[id].status.Failed? ==>
              ws[n].hist[id].sends >= Cap(maxAttempts) || ws[n].outbox[id].attempts == maxAttempts + 1
  {
    RunKeepsInvariant(ws, ss, maxAttempts, n);
    assert MessageOk(ws[n], id, maxAttempts);
  }

  /** In every reachable state an unfinished message has attempts left, and whatever the
      worker holds is marked as being sent. */
  lemma StatusesHold(ws: seq<World>, ss: seq<Step>, maxAttempts: int, n: nat)
    requires Run(ws, ss, maxAttempts) && n < |ws|
    ensures forall id :: id in ws[n].outbox && !Finished(ws[n].outbox[id]) ==>
              0 <= ws[n].outbox[id].attempts < Cap(maxAttempts) && Owed(ws[n].outbox[id], maxAttempts) > 0
    ensures ws[n].worker.Up? ==> forall i :: 0 <= i < |ws[n].worker.held| ==>
              var h := ws[n].worker.held[i];
              h.id in ws[n].outbox && ws[n].outbox[h.id].status.Sending? && ws[n].outbox[h.id].attempts == h.attempts
  {
    hide Spaced;
    RunKeepsInvariant(ws, ss, maxAttempts, n);
    var w := ws[n];
    forall id | id in w.outbox && !Finished(w.outbox[id]) ensures 0 <= w.outbox[id].attempts < Cap(maxAttempts) {
      assert MessageOk(w, id, maxAttempts);
    }
    if w.worker.Up? {
      forall i | 0 <= i < |w.worker.held| ensures HeldOk(w, w.worker.held[i]) {
      }
    }
  }

  /** No row is lost, and nothing is changed in one that may not be. */
  ghost predicate RowsPersist(w: World, w': World) {
    forall id :: id in w.outbox ==>
      id in w'.outbox && SameMessage(w.outbox[id], w'.outbox[id])
      && id in w.hist && id in w'.hist && w'.hist[id].raw == w.hist[id].raw
  }

  lemma StepPersists(w: World, s: Step, maxAttempts: int)
    requires Invariant(w, maxAttempts) && Enabled(w, s)
    ensures RowsPersist(w, Take(w, s, maxAttempts))
  {
    hide MessageOk, Backoff, MarkAllSending, IsDue, Recorded, Requeue, SameMessage;
    match s
    case InsertRow(id, _, _, _, _, _, _, _) =>
      assert id !in w.outbox;
      PersistsItself(w, maxAttempts);
    case Claim(_) => ClaimPersists(w, s, maxAttempts);
    case Record(_) => RecordPersists(w, s, maxAttempts);
    case Restart => RestartPersists(w, maxAttempts);
    case DeleteLinks(_, _) => UnlinkPersists(w, s, maxAttempts);
    case _ => PersistsItself(w, maxAttempts);
  }

  lemma UnlinkPersists(w: World, s: Step, maxAttempts: int)
    requires w.outbox.Keys == w.hist.Keys && s.DeleteLinks?
    ensures RowsPersist(w, Take(w, s, maxAttempts))
  {
    hide Recorded, MarkAllSending, Requeue, IsSelection;
  }

  lemma RecordPersists(w: World, s: Step, maxAttempts: int)
    requires w.outbox.Keys == w.hist.Keys && WorkerOk(w) && Enabled(w, s) && s.Record?
    ensures RowsPersist(w, Take(w, s, maxAttempts))
  {
    hide Recorded, SameMessage, WorkerOk;
    RecordedRows(w, maxAttempts);
  }

  lemma RecordedRows(w: World, maxAttempts: int)
    requires WorkerOk(w) && w.worker.Up? && w.worker.held != []
    ensures Recorded(w, maxAttempts).Keys == w.outbox.Keys
    ensures forall id :: id in w.outbox ==>
              SameMessage(w.outbox[id], w.outbox[id]) && SameMessage(w.outbox[id], Recorded(w, maxAttempts)[id])
  {
    hide Backoff;
    assert HeldOk(w, w.worker.held[0]);
  }

  lemma RestartPersists(w: World, maxAttempts: int)
    requires w.outbox.Keys == w.hist.Keys && Enabled(w, Restart)
    ensures RowsPersist(w, Take(w, Restart, maxAttempts))
  {
    hide Backoff, MarkAllSending, IsSelection, Recorded;
  }

  lemma ClaimPersists(w: World, s: Step, maxAttempts: int)
    requires w.outbox.Keys == w.hist.Keys && Enabled(w, s) && s.Claim?
    ensures RowsPersist(w, Take(w, s, maxAttempts))
  {
    hide MarkAllSending, Recorded, Requeue;
    MarkedSending(w.outbox, s.ids);
  }

  /** Over any stretch of any run no row is lost or rerouted, and delivered and failed are
      final. */
  lemma {:induction false} NothingIsLost(ws: seq<World>, ss: seq<Step>, maxAttempts: int, i: nat, j: nat)
    requires Run(ws, ss, maxAttempts) && i <= j < |ws|
    ensures RowsPersist(ws[i], ws[j])
  {
    hide Invariant, Take, Enabled, RowsPersist;
    if i == j {
      RunKeepsInvariant(ws, ss, maxAttempts, i);
      PersistsItself(ws[i], maxAttempts);
    } else {
      NothingIsLost(ws, ss, maxAttempts, i, j - 1);
      RunKeepsInvariant(ws, ss, maxAttempts, j - 1);
      StepPersists(ws[j - 1], ss[j - 1], maxAttempts);
      PersistsTwice(ws[i], ws[j - 1], ws[j]);
    }
  }

  lemma PersistsItself(w: World, maxAttempts: int)
    requires Invariant(w, maxAttempts)
    ensures RowsPersist(w, w)
  {
  }

  lemma PersistsTwice(w: World, w': World, w'': World)
    requires RowsPersist(w, w') && RowsPersist(w', w'')
    ensures RowsPersist(w, w'')
  {
  }

  /** Whatever is handed to the relay is, byte for byte, what was queued. */
  lemma SentAsQueued(ws: seq<World>, ss: seq<Step>, maxAttempts: int, n: nat)
    requires Run(ws, ss, maxAttempts) && n < |ss| && ss[n].Send?
    ensures ws[n].worker.phase == Loaded(ws[n].hist[ws[n].worker.held[0].id].raw)
  {
    hide MessageOk;
    RunKeepsInvariant(ws, ss, maxAttempts, n);
  }

  /** Every queued message has its complete spool file. */
  ghost predicate Spooled(w: World) {
    && (forall id :: id in w.outbox ==> id in w.spool && id in w.hist && w.spool[id] == w.hist[id].raw)
    && (forall id :: id in w.writing && w.writing[id].written ==> id in w.spool)
    && !(w.worker.Up? && w.worker.phase.Missing?)
  }

  lemma StepKeepsSpooled(w: World, s: Step, maxAttempts: int)
    requires Invariant(w, maxAttempts) && Spooled(w) && Enabled(w, s) && !s.DeleteFile?
    ensures Spooled(Take(w, s, maxAttempts))
  {
    hide MessageOk, WorkerOk, WritingOk, Take, Enabled;
    StepKeepsInvariant(w, s, maxAttempts);
    FilesStay(w, s, maxAttempts);
    NeverMissing(w, s, maxAttempts);
    forall id | id in Take(w, s, maxAttempts).outbox {
      RightFile(Take(w, s, maxAttempts), id, maxAttempts);
    }
  }

  lemma NeverMissing(w: World, s: Step, maxAttempts: int)
    requires Invariant(w, maxAttempts) && Spooled(w) && Enabled(w, s)
    ensures var w' := Take(w, s, maxAttempts); !(w'.worker.Up? && w'.worker.phase.Missing?)
  {
    hide MessageOk, Recorded, Requeue, Unlink, MarkAllSending, IsSelection, WorkerOk, WritingOk;
    if s.ReadFile? {
      RightFile(w, w.worker.held[0].id, maxAttempts);
    }
  }

  lemma RightFile(w: World, id: Id, maxAttempts: int)
    requires id in w.outbox && id in w.hist && MessageOk(w, id, maxAttempts)
    ensures w.outbox[id].rawPath == id && (id in w.spool ==> w.spool[id] == w.hist[id].raw)
  {
  }

  lemma FilesStay(w: World, s: Step, maxAttempts: int)
    requires Spooled(w) && Enabled(w, s) && !s.DeleteFile?
    ensures var w' := Take(w, s, maxAttempts);
            && (forall id :: id in w'.outbox ==> id in w'.spool)
            && (forall id :: id in w'.writing && w'.writing[id].written ==> id in w'.spool)
  {
    hide Recorded, Requeue, Unlink, MarkAllSending, IsSelection;
    StepKeys(w, s, maxAttempts);
  }

  lemma StepKeys(w: World, s: Step, maxAttempts: int)
    requires Enabled(w, s)
    ensures Take(w, s, maxAttempts).outbox.Keys == if s.InsertRow? then w.outbox.Keys + {s.id} else w.outbox.Keys
  {
    hide MarkAllSending, IsSelection, Backoff;
    if s.Claim? {
      MarkedSending(w.outbox, s.ids);
    }
  }

  /** Crash-safe spooling: whatever happens between the steps of an enqueue, as long as
      nobody deletes spool files, every queued row's file is there with the queued bytes and
      the worker never finds one missing. */
  lemma {:induction false} SpoolIsCrashSafe(ws: seq<World>, ss: seq<Step>, maxAttempts: int, n: nat)
    requires Run(ws, ss, maxAttempts) && n < |ws|
    requires forall i :: 0 <= i < |ss| ==> !ss[i].DeleteFile?
    ensures Spooled(ws[n])
  {
    hide Invariant, Take, Enabled;
    if n > 0 {
      SpoolIsCrashSafe(ws, ss, maxAttempts, n - 1);
      RunKeepsInvariant(ws, ss, maxAttempts, n - 1);
      StepKeepsSpooled(ws[n - 1], ss[n - 1], maxAttempts);
    }
  }

  /** Every message given up was sent as often as it may be. */
  ghost predicate TriedEnough(w: World, maxAttempts: int) {
    forall id :: id in w.outbox && w.outbox[id].status.Failed? ==>
      id in w.hist && w.hist[id].sends >= Cap(maxAttempts)
  }

  /** Without deleted spool files no message is ever given up before its last attempt. */
  lemma {:induction false} NeverGivenUpEarly(ws: seq<World>, ss: seq<Step>, maxAttempts: int, n: nat)
    requires Run(ws, ss, maxAttempts) && n < |ws|
    requires forall i :: 0 <= i < |ss| ==> !ss[i].DeleteFile?
    ensures TriedEnough(ws[n], maxAttempts)
  {
    hide Invariant, Take, Enabled, Spooled, TriedEnough;
    if n == 0 {
      NoneTried(ws[0], maxAttempts);
    } else {
      NeverGivenUpEarly(ws, ss, maxAttempts, n - 1);
      RunKeepsInvariant(ws, ss, maxAttempts, n - 1);
      SpoolIsCrashSafe(ws, ss, maxAttempts, n - 1);
      StepTriesEnough(ws[n - 1], ss[n - 1], maxAttempts);
    }
  }

  lemma NoneTried(w: World, maxAttempts: int)
    requires Initial(w)
    ensures TriedEnough(w, maxAttempts)
  {
  }

  lemma StepTriesEnough(w: World, s: Step, maxAttempts: int)
    requires Invariant(w, maxAttempts) && Spooled(w) && Enabled(w, s) && TriedEnough(w, maxAttempts)
    ensures TriedEnough(Take(w, s, maxAttempts), maxAttempts)
  {
    hide MessageOk, WorkerOk, WritingOk, Take, Enabled, Cap;
    forall id | id in Take(w, s, maxAttempts).outbox && Take(w, s, maxAttempts).outbox[id].status.Failed?
      ensures id in Take(w, s, maxAttempts).hist && Take(w, s, maxAttempts).hist[id].sends >= Cap(maxAttempts)
    {
      if s.Record? && !s.lost && RecordsFor(w, s, id) {
        RecordTriesEnough(w, s, id, maxAttempts);
      } else {
        StatusFromBefore(w, s, id, maxAttempts);
      }
    }
  }

  predicate RecordsFor(w: World, s: Step, id: Id) { s.Record? && !s.lost && IsHead(w, id) }

  lemma StatusFromBefore(w: World, s: Step, id: Id, maxAttempts: int)
    requires w.outbox.Keys == w.hist.Keys && Enabled(w, s) && !RecordsFor(w, s, id)
    requires id in Take(w, s, maxAttempts).outbox && Take(w, s, maxAttempts).outbox[id].status.Failed?
    ensures id in w.outbox && w.outbox[id].status.Failed? && id in Take(w, s, maxAttempts).hist
    ensures id in w.hist && Take(w, s, maxAttempts).hist[id].sends >= w.hist[id].sends
  {
    hide Backoff, MarkAllSending, IsSelection;
    if s.Claim? {
      MarkedSending(w.outbox, s.ids);
    }
  }

  lemma RecordTriesEnough(w: World, s: Step, id: Id, maxAttempts: int)
    requires Invariant(w, maxAttempts) && Spooled(w) && Enabled(w, s) && RecordsFor(w, s, id)
    requires id in Take(w, s, maxAttempts).outbox && Take(w, s, maxAttempts).outbox[id].status.Failed?
    ensures id in w.hist && w.hist[id].sends >= Cap(maxAttempts)
    ensures id in Take(w, s, maxAttempts).hist && Take(w, s, maxAttempts).hist[id].sends == w.hist[id].sends
  {
    hide Backoff, MarkAllSending, Requeue, IsSelection, Spaced;
    assert HeldOk(w, w.worker.held[0]) && MessageOk(w, id, maxAttempts);
  }

  /** What becomes of a message sent at `time`, as long as it is not requeued: the send is
      recorded, or its row is stuck as being sent and no worker holds it for sending. */
  predicate SinceSend(w: World, id: Id, time: int, requeues: nat) {
    && id in w.outbox && id in w.hist && w.hist[id].requeues >= requeues
    && (w.hist[id].requeues == requeues ==>
          (w.hist[id].lastSend.Some? && w.hist[id].lastSend.value >= time
           && (w.hist[id].spaced || (w.outbox[id].status.Sending? && !StageOf(w, id).Waiting?))))
  }

  lemma AfterSend(w: World, s: Step, maxAttempts: int)
    requires Invariant(w, maxAttempts) && Enabled(w, s) && s.Send?
    ensures var id := w.worker.held[0].id;
            id in w.hist && SinceSend(Take(w, s, maxAttempts), id, w.now, w.hist[id].requeues)
  {
    hide MessageOk, MarkAllSending, Recorded, Requeue, IsSelection;
    assert HeldOk(w, w.worker.held[0]);
  }

  lemma StepSinceSend(w: World, s: Step, maxAttempts: int, id: Id, time: int, requeues: nat)
    requires Invariant(w, maxAttempts) && Enabled(w, s) && SinceSend(w, id, time, requeues) && time <= w.now
    ensures SinceSend(Take(w, s, maxAttempts), id, time, requeues) && time <= Take(w, s, maxAttempts).now
  {
    hide Accounted, Spaced, MessageOk, Backoff;
    match s
    case Claim(_) => ClaimSinceSend(w, s, maxAttempts, id, time, requeues);
    case Record(_) => RecordSinceSend(w, s, maxAttempts, id, time, requeues);
    case InsertRow(_, _, _, _, _, _, _, _) => OtherSinceSend(w, s, maxAttempts, id, time, requeues);
    case _ => OtherSinceSend(w, s, maxAttempts, id, time, requeues);
  }

  lemma ClaimSinceSend(w: World, s: Step, maxAttempts: int, id: Id, time: int, requeues: nat)
    requires w.outbox.Keys == w.hist.Keys && Enabled(w, s) && s.Claim? && SinceSend(w, id, time, requeues)
    ensures SinceSend(Take(w, s, maxAttempts), id, time, requeues)
  {
    hide MarkAllSending, Recorded, Requeue, Backoff;
    MarkedSending(w.outbox, s.ids);
    if w.outbox[id].status.Sending? {
      assert id !in s.ids;
      assert StageOf(Take(w, s, maxAttempts), id) == Idle;
    }
  }

  lemma RecordSinceSend(w: World, s: Step, maxAttempts: int, id: Id, time: int, requeues: nat)
    requires Invariant(w, maxAttempts) && Enabled(w, s) && s.Record? && SinceSend(w, id, time, requeues)
    ensures SinceSend(Take(w, s, maxAttempts), id, time, requeues)
  {
    hide MessageOk, MarkAllSending, Requeue, IsSelection, Backoff;
    var w' := Take(w, s, maxAttempts);
    if IsHead(w, id) {
      assert !IsHeld(w', id) by {
        assert forall i :: 0 <= i < |w'.worker.held| ==> w'.worker.held[i] == w.worker.held[i + 1];
      }
    } else {
      assert StageOf(w', id) == StageOf(w, id) by {
        assert forall i :: 0 <= i < |w'.worker.held| ==> w'.worker.held[i] == w.worker.held[i + 1];
        assert forall i :: 0 < i < |w.worker.held| ==> w.worker.held[i] == w'.worker.held[i - 1];
      }
    }
  }

  lemma OtherSinceSend(w: World, s: Step, maxAttempts: int, id: Id, time: int, requeues: nat)
    requires Invariant(w, maxAttempts) && Enabled(w, s) && !s.Claim? && !s.Record? && SinceSend(w, id, time, requeues)
    requires time <= w.now
    ensures SinceSend(Take(w, s, maxAttempts), id, time, requeues)
  {
    hide MarkAllSending, Recorded, IsSelection, Backoff, Accounted, Spaced, WorkerOk;
    assert MessageOk(w, id, maxAttempts);
  }

  lemma {:induction false} RunSinceSend(ws: seq<World>, ss: seq<Step>, maxAttempts: int, i: nat, j: nat)
    requires Run(ws, ss, maxAttempts) && i < j < |ws| && ss[i].Send?
    ensures var id := ws[i].worker.held[0].id;
            id in ws[i].hist && SinceSend(ws[j], id, ws[i].now, ws[i].hist[id].requeues) && ws[i].now <= ws[j].now
  {
    hide Invariant, Take, SinceSend, Initial;
    RunKeepsInvariant(ws, ss, maxAttempts, j - 1);
    if i == j - 1 {
      AfterSend(ws[i], ss[i], maxAttempts);
      SendTakesNoTime(ws[i], ss[i], maxAttempts);
    } else {
      RunSinceSend(ws, ss, maxAttempts, i, j - 1);
      var id := ws[i].worker.held[0].id;
      StepSinceSend(ws[j - 1], ss[j - 1], maxAttempts, id, ws[i].now, ws[i].hist[id].requeues);
    }
  }

  lemma SendTakesNoTime(w: World, s: Step, maxAttempts: int)
    requires Enabled(w, s) && s.Send?
    ensures Take(w, s, maxAttempts).now == w.now
  {
  }

  /** Two sends of a message that was not requeued in between are at least the backoff of its
      recorded attempts apart. */
  lemma SendsAreSpaced(ws: seq<World>, ss: seq<Step>, maxAttempts: int, i: nat, j: nat)
    requires Run(ws, ss, maxAttempts) && i < j < |ss| && ss[i].Send? && ss[j].Send?
    requires ws[i].worker.held[0].id == ws[j].worker.held[0].id
    ensures var id := ws[j].worker.held[0].id;
            && id in ws[i].hist && id in ws[j].hist && id in ws[j].outbox
            && (ws[i].hist[id].requeues == ws[j].hist[id].requeues ==>
                  ws[j].now >= ws[i].now + Backoff(ws[j].outbox[id].attempts) * MINUTE)
  {
    hide Backoff, Accounted;
    var w := ws[j];
    RunKeepsInvariant(ws, ss, maxAttempts, j);
    RunSinceSend(ws, ss, maxAttempts, i, j);
    assert HeldOk(w, w.worker.held[0]);
    var id := w.worker.held[0].id;
    assert MessageOk(w, id, maxAttempts);
    assert StageOf(w, id) == Waiting;
  }

  /** Work is conserved: attempts recorded and attempts still owed never exceed what the
      queued messages were granted, so no run records more outcomes than that. */
  lemma {:induction false} WorkIsBounded(ws: seq<World>, ss: seq<Step>, maxAttempts: int, n: nat)
    requires Run(ws, ss, maxAttempts) && n < |ws|
    ensures ws[n].records + TotalOwed(ws[n].outbox, maxAttempts) <= Cap(maxAttempts) * ws[n].inserts
  {
    hide Invariant, Take, Enabled, TotalOwed, Cap;
    if n == 0 {
      NothingOwed(ws[0], maxAttempts);
    } else {
      WorkIsBounded(ws, ss, maxAttempts, n - 1);
      RunKeepsInvariant(ws, ss, maxAttempts, n - 1);
      StepConservesWork(ws[n - 1], ss[n - 1], maxAttempts);
      OneMore(Cap(maxAttempts), ws[n - 1].inserts);
    }
  }

  lemma NothingOwed(w: World, maxAttempts: int)
    requires Initial(w)
    ensures w.records == 0 && TotalOwed(w.outbox, maxAttempts) == 0 && w.inserts == 0
  {
  }

  lemma OneMore(c: int, n: nat)
    ensures c * (n + 1) == c * n + c
  {
  }

  lemma StepConservesWork(w: World, s: Step, maxAttempts: int)
    requires Invariant(w, maxAttempts) && Enabled(w, s)
    ensures var w' := Take(w, s, maxAttempts);
            && w'.inserts == w.inserts + Bit(s.InsertRow?)
            && w'.records + TotalOwed(w'.outbox, maxAttempts)
               <= w.records + TotalOwed(w.outbox, maxAttempts) + if s.InsertRow? then Cap(maxAttempts) else 0
  {
    hide TotalOwed, Invariant, Take, Enabled, Cap;
    match s
    case InsertRow(_, _, _, _, _, _, _, _) => InsertGrantsWork(w, s, maxAttempts);
    case Claim(_) => ClaimAndRestartWork(w, s, maxAttempts);
    case Restart => ClaimAndRestartWork(w, s, maxAttempts);
    case DeleteLinks(_, _) => ClaimAndRestartWork(w, s, maxAttempts);
    case Record(_) => RecordTakesWork(w, s, maxAttempts);
    case _ => OtherWork(w, s, maxAttempts);
  }

  lemma OtherWork(w: World, s: Step, maxAttempts: int)
    requires Enabled(w, s) && !s.InsertRow? && !s.Claim? && !s.Restart? && !s.DeleteLinks? && !s.Record?
    ensures var w' := Take(w, s, maxAttempts);
            w'.inserts == w.inserts && w'.records == w.records && w'.outbox == w.outbox
  {
    hide IsSelection, MarkAllSending, Recorded, Requeue;
  }

  lemma ClaimAndRestartWork(w: World, s: Step, maxAttempts: int)
    requires Enabled(w, s) && (s.Claim? || s.Restart? || s.DeleteLinks?)
    ensures var w' := Take(w, s, maxAttempts);
            w'.inserts == w.inserts && w'.records == w.records
            && TotalOwed(w'.outbox, maxAttempts) == TotalOwed(w.outbox, maxAttempts)
  {
    hide TotalOwed, MarkAllSending, Recorded, Requeue, Unlink;
    if s.Claim? {
      ClaimOwesTheSame(w.outbox, s.ids, maxAttempts);
    } else if s.DeleteLinks? {
      UnlinkOwesTheSame(w.outbox, s.aliases, s.contacts, maxAttempts);
    } else {
      RequeueOwesTheSame(w.outbox, w.now, maxAttempts);
    }
  }

  lemma InsertGrantsWork(w: World, s: Step, maxAttempts: int)
    requires Invariant(w, maxAttempts) && Enabled(w, s) && s.InsertRow?
    ensures var w' := Take(w, s, maxAttempts);
            w'.inserts == w.inserts + 1 && w'.records == w.records
            && TotalOwed(w'.outbox, maxAttempts) == TotalOwed(w.outbox, maxAttempts) + Cap(maxAttempts)
  {
    hide TotalOwed, MarkAllSending, Recorded, IsSelection;
    OwedInsert(w.outbox, s.id, Take(w, s, maxAttempts).outbox[s.id], maxAttempts);
  }

  lemma RecordTakesWork(w: World, s: Step, maxAttempts: int)
    requires Invariant(w, maxAttempts) && Enabled(w, s) && s.Record?
    ensures var w' := Take(w, s, maxAttempts);
            w'.inserts == w.inserts && w'.records == w.records + Bit(!s.lost)
            && TotalOwed(w'.outbox, maxAttempts) + Bit(!s.lost) <= TotalOwed(w.outbox, maxAttempts)
  {
    hide TotalOwed, Recorded, Spaced, Owed, StageOf;
    assert HeldOk(w, w.worker.held[0]) && MessageOk(w, w.worker.held[0].id, maxAttempts);
    if !s.lost {
      RecordedTakesWork(w, maxAttempts);
    }
  }

  lemma RecordedTakesWork(w: World, maxAttempts: int)
    requires w.worker.Up? && w.worker.held != [] && HeldOk(w, w.worker.held[0])
    requires 0 <= w.outbox[w.worker.held[0].id].attempts < Cap(maxAttempts)
    ensures TotalOwed(Recorded(w, maxAttempts), maxAttempts) + 1 <= TotalOwed(w.outbox, maxAttempts)
  {
    hide TotalOwed, AfterFailure, Owed;
    var h := w.worker.held[0];
    var attempts := if w.worker.phase.Sent? then h.attempts else maxAttempts;
    AttemptTakesWork(w.outbox[h.id], attempts, maxAttempts, w.now);
    OwedUpdate(w.outbox, h.id, Recorded(w, maxAttempts)[h.id], maxAttempts);
  }
}
