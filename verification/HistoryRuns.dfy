/** Runs of the database queue on the sample table: when a reconciliation is safe (persistence_worker.py, mysql_adapter.py). */
module HistoryRuns {
  import opened Words
  import opened Futures
  import opened HistoryBatches
  import opened SampleTables
  import opened TableGuarantees
  import opened HistoryPersistence
  import Queue = PersistenceQueue

  /** What the numbers in the queue stand for, the sample period and the reconciliation's tolerance. */
  datatype Contents = Contents(batches: nat -> Batch, samples: nat -> Entry, period: int, tolerance: nat)

  /** Samples are well formed, batches spaced by the sample period, and the tolerance lies between half a second and that. */
  ghost predicate ProperContents(c: Contents) {
    && 500_000 <= c.tolerance < c.period
    && (forall n {:trigger c.samples(n)} :: Proper(c.samples(n)))
    && (forall n {:trigger c.batches(n)} :: Spaced(c.batches(n), c.period))
  }

  /** An event, and what the call it ends did to the table: samples stored, or whether it took effect. */
  datatype Action = Action(event: Queue.Event, stored: nat, done: bool)

  /** The queue, the table, and which upserts met a table aligned with their batch. */
  datatype World = World(queue: Queue.State, db: Database, aligned: set<nat>)

  /** What a call did when it ended. */
  function WriteOf(c: Contents, call: Queue.Call, stored: nat, done: bool): Option<Write> {
    match call
    case UpsertHistory(n) =>
      var batch := c.batches(n);
      Some(Upserted(EntriesOf(if stored <= |batch| then batch[..stored] else batch)))
    case ReconcileIntervals(n) => if done then Some(Swept(c.batches(n), c.tolerance)) else None
    case Publish(n) => if done then Some(Published(c.samples(n))) else None
  }

  predicate Ends(q: Queue.State, a: Action) {
    q.running.Some? && (a.event.Finished? || a.event.Cancelled?)
  }

  function WriteAt(c: Contents, w: World, a: Action): Option<Write> {
    if Ends(w.queue, a) then WriteOf(c, w.queue.running.value.content, a.stored, a.done) else None
  }

  function Step(c: Contents, w: World, a: Action): World {
    var write := WriteAt(c, w, a);
    World(Queue.Step(w.queue, a.event), if write.Some? then Apply(w.db, write.value) else w.db, Met(c, w, a))
  }

  /** An upsert that ends is noted down if its batch was aligned with the table it wrote to. */
  function Met(c: Contents, w: World, a: Action): set<nat> {
    if !Ends(w.queue, a) then w.aligned
    else
      match w.queue.running.value.content
      case UpsertHistory(n) =>
        if Aligned(w.db, c.batches(n), c.tolerance) then w.aligned + {w.queue.running.value.id}
        else w.aligned - {w.queue.running.value.id}
      case _ => w.aligned
  }

  /** An upsert ends as upserts can. */
  predicate Consistent(c: Contents, w: World, a: Action) {
    && Queue.Possible(a.event)
    && (Ends(w.queue, a) && w.queue.running.value.content.UpsertHistory? ==>
          Possible(if a.event.Finished? then a.event.outcome else Queue.WorkerStopped,
                   c.batches(w.queue.running.value.content.batch), a.stored))
  }

  function Run(c: Contents, w: World, actions: seq<Action>): World {
    if actions == [] then w else Step(c, Run(c, w, actions[..|actions| - 1]), actions[|actions| - 1])
  }

  predicate ConsistentRun(c: Contents, w: World, actions: seq<Action>) {
    actions == []
    || (ConsistentRun(c, w, actions[..|actions| - 1])
        && Consistent(c, Run(c, w, actions[..|actions| - 1]), actions[|actions| - 1]))
  }

  function Start(capacity: nat): World {
    World(Queue.Initial(capacity), Database(map[], 0), {})
  }

  // --- What a successful upsert leaves behind --------------------------------------------------------

  predicate Succeeded(q: Queue.State, r: Queue.Queued) {
    r.id in q.futures && q.futures[r.id] == Some(Queue.Returned(true))
  }

  /** The batch of an upsert has all its samples in the table, in rows dated near them if it met such rows only. */
  predicate Backs(c: Contents, w: World, id: nat, n: nat) {
    && KeysIn(c.batches(n), w.db.rows)
    && (id in w.aligned <==> Aligned(w.db, c.batches(n), c.tolerance))
  }

  /** So it is for every upsert that returned its success. */
  ghost predicate Backed(c: Contents, w: World) {
    forall r {:trigger Succeeded(w.queue, r)} ::
      r in w.queue.started && r.content.UpsertHistory? && Succeeded(w.queue, r) ==> Backs(c, w, r.id, r.content.batch)
  }

  ghost predicate Sound(c: Contents, w: World) {
    && Intact(w.db) && Backed(c, w) && Queue.Lined(w.queue)
    && forall id {:trigger Queue.Tracked(w.queue, id)} :: Queue.Tracked(w.queue, id)
  }

  ghost predicate KeepsDates(db: Database, later: Database) {
    forall key :: Keyed(key) in db.rows ==>
      Keyed(key) in later.rows && later.rows[Keyed(key)].observedAt == db.rows[Keyed(key)].observedAt
  }

  lemma WriteIsProper(c: Contents, w: World, a: Action)
    requires ProperContents(c) && WriteAt(c, w, a).Some?
    ensures ProperWrite(WriteAt(c, w, a).value)
  {
    var call := w.queue.running.value.content;
    if call.UpsertHistory? {
      var batch := c.batches(call.batch);
      var part := if a.stored <= |batch| then batch[..a.stored] else batch;
      forall e | e in EntriesOf(part)
        ensures Proper(e)
      {
        var i :| 0 <= i < |part| && EntriesOf(part)[i] == e;
        assert part[i] in batch;
      }
    }
  }

  /** Rows with a key stay through every step, under their date. */
  lemma StepKeepsRows(c: Contents, w: World, a: Action)
    requires ProperContents(c) && Intact(w.db)
    ensures Intact(Step(c, w, a).db)
    ensures KeepsDates(w.db, Step(c, w, a).db)
  {
    var write := WriteAt(c, w, a);
    if write.Some? {
      WriteIsProper(c, w, a);
      WriteEvolves(w.db, write.value);
    }
  }

  lemma WaitingHasNotSucceeded(q: Queue.State, r: Queue.Queued)
    requires q.queue != [] && r == q.queue[0] && Queue.Tracked(q, r.id)
    ensures !Succeeded(q, r)
  {
    assert Ids(q.queue)[0] == r.id;
  }

  /** A future that becomes a success is that of the call that just ended. */
  lemma NewSuccess(q: Queue.State, e: Queue.Event, r: Queue.Queued)
    requires Queue.Lined(q) && Queue.Tracked(q, r.id)
    requires r in Queue.Step(q, e).started && Succeeded(Queue.Step(q, e), r)
    ensures (r in q.started && Succeeded(q, r)) || (e == Queue.Finished(Queue.Returned(true)) && q.running == Some(r))
  {
    match e
    case Taken =>
      if q.queue != [] && r == q.queue[0] {
        WaitingHasNotSucceeded(q, r);
      }
    case Submitted(_) => StartedIsOld(q, r);
    case BatchSubmitted(_) => StartedIsOld(q, r);
    case StopEnded => ResolvedAll(q.futures, Ids(q.queue), Queue.NeverRun, r.id);
    case Finished(_) => SameRequest(q, r);
    case _ =>
  }

  lemma StartedIsOld(q: Queue.State, r: Queue.Queued)
    requires Queue.Lined(q) && r in q.started
    ensures r.id < q.next
  {
    Here(q.started, r);
    Queue.LinedApart(q, r.id);
  }

  lemma Here(requests: seq<Queue.Queued>, r: Queue.Queued)
    requires r in requests
    ensures Among(requests, r.id)
  {
    var i :| 0 <= i < |requests| && requests[i] == r;
    assert Ids(requests)[i] == r.id;
  }

  /** Two started requests with one number are the same. */
  lemma SameRequest(q: Queue.State, r: Queue.Queued)
    requires Queue.Lined(q) && r in q.started
    ensures Queue.Running(q, r.id) ==> q.running == Some(r)
  {
    var i :| 0 <= i < |q.started| && q.started[i] == r;
    var line := q.started + q.queue;
    assert line[i] == r && line[|q.started| - 1] == q.started[|q.started| - 1];
  }

  /** While a batch is in the table, it stays there, and aligned or not. */
  lemma AlignedStays(db: Database, later: Database, batch: Batch, tolerance: nat)
    requires KeysIn(batch, db.rows) && KeepsDates(db, later)
    ensures KeysIn(batch, later.rows) && (Aligned(later, batch, tolerance) <==> Aligned(db, batch, tolerance))
  {
    forall i | 0 <= i < |batch|
      ensures Keyed(batch[i].key.value) in db.rows
    {
      assert batch[i] in batch;
    }
  }

  /** Storing a batch puts it into the table, and makes it neither more nor less aligned. */
  lemma StoredIsAligned(db: Database, batch: Batch, period: int, tolerance: nat)
    requires Spaced(batch, period) && 500_000 <= tolerance
    ensures var after := Committed(db, batch, |batch|);
            KeysIn(batch, after.rows) && (Aligned(after, batch, tolerance) <==> Aligned(db, batch, tolerance))
  {
    var after := Committed(db, batch, |batch|);
    forall i | 0 <= i < |batch|
      ensures var id := Keyed(batch[i].key.value);
              && batch[i] in batch && id in after.rows
              && Near(after.rows[id].observedAt, batch[i].time, tolerance)
                 == (id in db.rows ==> Near(db.rows[id].observedAt, batch[i].time, tolerance))
    {
      CommittedRow(db, batch, |batch|, i);
      RoundedNear(batch[i].time, tolerance);
    }
  }

  lemma FinishedUpsertStores(c: Contents, w: World, a: Action)
    requires ProperContents(c) && Consistent(c, w, a) && a.event == Queue.Finished(Queue.Returned(true))
    requires w.queue.running.Some? && w.queue.running.value.content.UpsertHistory?
    ensures Backs(c, Step(c, w, a), w.queue.running.value.id, w.queue.running.value.content.batch)
  {
    var batch := c.batches(w.queue.running.value.content.batch);
    assert a.stored == |batch| && batch[..a.stored] == batch;
    StoredIsAligned(w.db, batch, c.period, c.tolerance);
  }

  /** A call that has succeeded is not the one running. */
  lemma SucceededIsDone(c: Contents, w: World, a: Action, r: Queue.Queued)
    requires Queue.Tracked(w.queue, r.id) && Succeeded(w.queue, r)
    ensures r.id in Met(c, w, a) <==> r.id in w.aligned
  {
  }

  lemma StepBacked(c: Contents, w: World, a: Action)
    requires ProperContents(c) && Sound(c, w) && Consistent(c, w, a)
    ensures Backed(c, Step(c, w, a))
  {
    var later := Step(c, w, a);
    StepKeepsRows(c, w, a);
    forall r | r in later.queue.started && r.content.UpsertHistory? && Succeeded(later.queue, r)
      ensures Backs(c, later, r.id, r.content.batch)
    {
      assert Queue.Tracked(w.queue, r.id);
      if r in w.queue.started && Succeeded(w.queue, r) {
        AlignedStays(w.db, later.db, c.batches(r.content.batch), c.tolerance);
        SucceededIsDone(c, w, a, r);
      } else {
        NewSuccess(w.queue, a.event, r);
        FinishedUpsertStores(c, w, a);
      }
    }
  }

  lemma StepSound(c: Contents, w: World, a: Action)
    requires ProperContents(c) && Sound(c, w) && Consistent(c, w, a)
    ensures Sound(c, Step(c, w, a))
  {
    StepBacked(c, w, a);
    StepKeepsRows(c, w, a);
    Queue.StepLined(w.queue, a.event);
    if a.event.BatchSubmitted? {
      Queue.EnqueueLined(w.queue, Queue.UpsertHistory(a.event.batch));
    }
    forall id
      ensures Queue.Tracked(Queue.Step(w.queue, a.event), id)
    {
      assert Queue.Tracked(w.queue, id);
      Queue.StepTracked(w.queue, a.event, id);
    }
  }

  lemma RunLast(c: Contents, w: World, actions: seq<Action>)
    requires ConsistentRun(c, w, actions) && actions != []
    ensures var front, last := actions[..|actions| - 1], actions[|actions| - 1];
            && ConsistentRun(c, w, front) && Consistent(c, Run(c, w, front), last)
            && Run(c, w, actions) == Step(c, Run(c, w, front), last)
  {
  }

  lemma StartSound(c: Contents, capacity: nat)
    ensures Sound(c, Start(capacity))
  {
    var q := Queue.Initial(capacity);
    assert q.started + q.queue == [];
    assert Queue.Lined(q);
  }

  lemma {:induction false} RunSound(c: Contents, capacity: nat, actions: seq<Action>)
    requires ProperContents(c) && ConsistentRun(c, Start(capacity), actions)
    ensures Sound(c, Run(c, Start(capacity), actions))
  {
    if actions == [] {
      StartSound(c, capacity);
    } else {
      var front, last := actions[..|actions| - 1], actions[|actions| - 1];
      RunLast(c, Start(capacity), actions);
      RunSound(c, capacity, front);
      var before := Run(c, Start(capacity), front);
      StepSound(c, before, last);
      assert Run(c, Start(capacity), actions) == Step(c, before, last);
    }
  }

  /**
   * Over any run of the queue on the table: when a reconciliation is about to act, no slot loses its last
   * row, whatever placeholders there are, exactly when every sample of its batch is in the table, in a row
   * dated near it. The call started before it was the upsert of its batch; if that one returned its
   * success, which is known by then, this comes down to whether the table the upsert met was aligned.
   */
  lemma ReconcileAfterSuccessIsSafe(c: Contents, capacity: nat, actions: seq<Action>)
    requires ProperContents(c) && ConsistentRun(c, Start(capacity), actions)
    requires var q := Run(c, Start(capacity), actions).queue; q.running.Some? && q.running.value.content.ReconcileIntervals?
    ensures var w := Run(c, Start(capacity), actions);
            var n, batch := |w.queue.started|, w.queue.running.value.content.batch;
            && n >= 2 && w.queue.started[n - 2].content == Queue.UpsertHistory(batch)
            && (SafeToReconcile(w.db, c.batches(batch), c.tolerance)
                <==> KeysIn(c.batches(batch), w.db.rows) && Aligned(w.db, c.batches(batch), c.tolerance))
            && (Succeeded(w.queue, w.queue.started[n - 2]) ==>
                  (SafeToReconcile(w.db, c.batches(batch), c.tolerance) <==> w.queue.started[n - 2].id in w.aligned))
  {
    var w := Run(c, Start(capacity), actions);
    RunSound(c, capacity, actions);
    var n, line := |w.queue.started|, w.queue.started + w.queue.queue;
    assert line[n - 1] == w.queue.started[n - 1] && line[n - 2] == w.queue.started[n - 2];
    var upsert := w.queue.started[n - 2];
    assert upsert in w.queue.started;
    SafeIffKeysAligned(w.db, c.batches(upsert.content.batch), c.period, c.tolerance);
  }

  /** No slot loses its last row, whatever placeholders there are beside the keyed rows. */
  ghost predicate SafeToReconcile(db: Database, batch: Batch, tolerance: nat) {
    NoSlotLost(db, batch, tolerance)
    && forall other :: Intact(other) && SameKeyed(db, other) ==> NoSlotLost(other, batch, tolerance)
  }

  lemma SafeIffKeysAligned(db: Database, batch: Batch, period: int, tolerance: nat)
    requires Spaced(batch, period) && 500_000 <= tolerance < period && Intact(db)
    ensures SafeToReconcile(db, batch, tolerance) <==> KeysIn(batch, db.rows) && Aligned(db, batch, tolerance)
  {
    assert EntriesOf(batch[..0]) == [];
    forall other: Database
      ensures Committed(other, batch, 0) == other
    {
    }
    SlotsKeptIffCovered(db, batch, 0, period, tolerance);
    CoveredIff(db, batch, 0, tolerance);
    assert KeysIn(batch, db.rows) <==> forall i :: 0 <= i < |batch| ==> Keyed(batch[i].key.value) in db.rows by {
      forall i | 0 <= i < |batch|
        ensures batch[i] in batch
      {
      }
    }
  }

  lemma RunMore(c: Contents, w: World, actions: seq<Action>, a: Action)
    requires ConsistentRun(c, w, actions) && Consistent(c, Run(c, w, actions), a)
    ensures Run(c, w, actions + [a]) == Step(c, Run(c, w, actions), a) && ConsistentRun(c, w, actions + [a])
  {
    assert (actions + [a])[..|actions|] == actions;
  }

  // --- Two runs that lose a slot ---------------------------------------------------------------------

  function On(event: Queue.Event): Action {
    Action(event, 0, false)
  }

  function Done(outcome: Queue.Outcome, stored: nat): Action {
    Action(Queue.Finished(outcome), stored, true)
  }

  /** After a run, the request at the front is taken and ends. */
  lemma ServedNext(c: Contents, start: World, actions: seq<Action>, outcome: Queue.Outcome, stored: nat)
    returns (longer: seq<Action>)
    requires ConsistentRun(c, start, actions)
    requires var q := Run(c, start, actions).queue; q.alive && q.running.None? && q.queue != []
    requires outcome.Returned? || outcome == Queue.AdapterRaised
    requires var call := Run(c, start, actions).queue.queue[0].content;
             call.UpsertHistory? ==> Possible(outcome, c.batches(call.batch), stored)
    ensures ConsistentRun(c, start, longer)
    ensures var w, t := Run(c, start, actions), Run(c, start, longer);
            var write := WriteOf(c, w.queue.queue[0].content, stored, true);
            && t.queue.queue == w.queue.queue[1..] && t.queue.alive && t.queue.running.None?
            && t.queue.futures == Resolve(w.queue.futures, w.queue.queue[0].id, outcome)
            && t.db == if write.Some? then Apply(w.db, write.value) else w.db
  {
    RunMore(c, start, actions, On(Queue.Taken));
    RunMore(c, start, actions + [On(Queue.Taken)], Done(outcome, stored));
    longer := actions + [On(Queue.Taken)] + [Done(outcome, stored)];
  }

  /** The request at the front is taken. */
  lemma TakenNext(c: Contents, start: World, actions: seq<Action>)
    requires ConsistentRun(c, start, actions)
    requires var q := Run(c, start, actions).queue; q.alive && q.running.None? && q.queue != []
    ensures ConsistentRun(c, start, actions + [On(Queue.Taken)])
    ensures var w, t := Run(c, start, actions), Run(c, start, actions + [On(Queue.Taken)]);
            t.db == w.db && t.queue.futures == w.queue.futures && t.queue.running == Some(w.queue.queue[0])
  {
    RunMore(c, start, actions, On(Queue.Taken));
  }

  /** A worker is started with one sample and a batch waiting. */
  lemma OneAndABatch(c: Contents) returns (actions: seq<Action>)
    ensures ConsistentRun(c, Start(3), actions)
    ensures var w := Run(c, Start(3), actions);
            && w.db == Database(map[], 0) && w.queue.alive && w.queue.running.None?
            && w.queue.queue == [Request(0, Queue.Publish(0)), Request(1, Queue.UpsertHistory(0)), Request(2, Queue.ReconcileIntervals(0))]
            && w.queue.futures == map[0 := None, 1 := None, 2 := None]
  {
    RunMore(c, Start(3), [], On(Queue.Submitted(0)));
    RunMore(c, Start(3), [] + [On(Queue.Submitted(0))], On(Queue.BatchSubmitted(0)));
    actions := [] + [On(Queue.Submitted(0))] + [On(Queue.BatchSubmitted(0))];
    RunMore(c, Start(3), actions, On(Queue.Begun));
    actions := actions + [On(Queue.Begun)];
  }

  /**
   * When the upsert raised, the placeholder published for the batch's first slot is deleted although
   * nothing was stored for it, whatever the batch.
   */
  lemma FailedUpsertLosesSlot(c: Contents) returns (actions: seq<Action>)
    requires ProperContents(c) && c.batches(0) != []
    requires c.samples(0) == Entry(None, Placeholder(ToSecond(c.batches(0)[0].time)))
    ensures ConsistentRun(c, Start(3), actions)
    ensures var w := Run(c, Start(3), actions);
            && w.queue.running == Some(Request(2, Queue.ReconcileIntervals(0)))
            && 1 in w.queue.futures && w.queue.futures[1] == Some(Queue.AdapterRaised)
            && !NoSlotLost(w.db, c.batches(0), c.tolerance)
  {
    var batch, second := c.batches(0), ToSecond(c.batches(0)[0].time);
    actions := OneAndABatch(c);
    actions := ServedNext(c, Start(3), actions, Queue.Returned(true), 0);
    assert EntriesOf(batch[..0]) == [];
    actions := ServedNext(c, Start(3), actions, Queue.AdapterRaised, 0);
    var w := Run(c, Start(3), actions);
    TakenNext(c, Start(3), actions);
    actions := actions + [On(Queue.Taken)];
    UnstoredSlotIsLost(batch, c.period, c.tolerance);
    assert w.db == Database(map[Numbered(0) := Placeholder(second)], 1);
  }

  lemma UnstoredSlotIsLost(batch: Batch, period: int, tolerance: nat)
    requires batch != [] && Spaced(batch, period) && period > 0 && 500_000 <= tolerance
    ensures !NoSlotLost(Database(map[Numbered(0) := Placeholder(ToSecond(batch[0].time))], 1), batch, tolerance)
  {
    var second := ToSecond(batch[0].time);
    var db := Database(map[Numbered(0) := Placeholder(second)], 1);
    RoundedNear(batch[0].time, tolerance);
    assert batch[0] in batch && Superseded(db.rows[Numbered(0)], batch, tolerance);
  }

  /** Of `all` calls put, the first `n` have returned their success and the others are open. */
  predicate Progress(futures: Futures<Queue.Outcome>, n: nat, all: nat) {
    forall id: nat :: id < all ==> id in futures && futures[id] == if id < n then Some(Queue.Returned(true)) else None
  }

  lemma Progresses(futures: Futures<Queue.Outcome>, n: nat, all: nat)
    requires Progress(futures, n, all) && n < all
    ensures Progress(Resolve(futures, n, Queue.Returned(true)), n + 1, all)
  {
  }

  /** A worker is started with two samples and a batch waiting. */
  lemma TwoAndABatch(c: Contents) returns (actions: seq<Action>)
    ensures ConsistentRun(c, Start(4), actions)
    ensures var w := Run(c, Start(4), actions);
            && w.db == Database(map[], 0) && w.queue.alive && w.queue.running.None?
            && w.queue.queue == [Request(0, Queue.Publish(0)), Request(1, Queue.Publish(1)),
                                 Request(2, Queue.UpsertHistory(0)), Request(3, Queue.ReconcileIntervals(0))]
            && Progress(w.queue.futures, 0, 4)
  {
    RunMore(c, Start(4), [], On(Queue.Submitted(0)));
    RunMore(c, Start(4), [] + [On(Queue.Submitted(0))], On(Queue.Submitted(1)));
    actions := [] + [On(Queue.Submitted(0))] + [On(Queue.Submitted(1))];
    RunMore(c, Start(4), actions, On(Queue.BatchSubmitted(0)));
    actions := actions + [On(Queue.BatchSubmitted(0))];
    RunMore(c, Start(4), actions, On(Queue.Begun));
    actions := actions + [On(Queue.Begun)];
  }

  lemma BothPublished(c: Contents) returns (actions: seq<Action>)
    requires c.samples(0) == Entry(None, Placeholder(9_000_000)) && c.samples(1) == Entry(Some((7, 5)), LateRow())
    ensures ConsistentRun(c, Start(4), actions)
    ensures var w := Run(c, Start(4), actions);
            && w.db == LateTable(2) && w.queue.alive && w.queue.running.None?
            && w.queue.queue == [Request(2, Queue.UpsertHistory(0)), Request(3, Queue.ReconcileIntervals(0))]
            && Progress(w.queue.futures, 2, 4)
  {
    actions := TwoAndABatch(c);
    Progresses(Run(c, Start(4), actions).queue.futures, 0, 4);
    actions := ServedNext(c, Start(4), actions, Queue.Returned(true), 0);
    assert Run(c, Start(4), actions).db == Database(map[Numbered(0) := Placeholder(9_000_000)], 1);
    Progresses(Run(c, Start(4), actions).queue.futures, 1, 4);
    actions := ServedNext(c, Start(4), actions, Queue.Returned(true), 0);
  }

  /** The upsert of a batch of one is taken and succeeds; its reconciliation is taken. */
  lemma BatchSucceeds(c: Contents, actions: seq<Action>, db: Database) returns (longer: seq<Action>)
    requires ConsistentRun(c, Start(4), actions) && |c.batches(0)| == 1
    requires var w := Run(c, Start(4), actions);
             && w.db == db && w.queue.alive && w.queue.running.None?
             && w.queue.queue == [Request(2, Queue.UpsertHistory(0)), Request(3, Queue.ReconcileIntervals(0))]
             && Progress(w.queue.futures, 2, 4)
    ensures ConsistentRun(c, Start(4), longer)
    ensures var t := Run(c, Start(4), longer);
            && t.queue.running == Some(Request(3, Queue.ReconcileIntervals(0)))
            && Progress(t.queue.futures, 3, 4)
            && t.db == Committed(db, c.batches(0), 1)
  {
    Progresses(Run(c, Start(4), actions).queue.futures, 2, 4);
    longer := ServedNext(c, Start(4), actions, Queue.Returned(true), 1);
    TakenNext(c, Start(4), longer);
    longer := longer + [On(Queue.Taken)];
  }

  lemma LateBatchLoses(batch: Batch)
    requires batch == [EarlySample()]
    ensures !NoSlotLost(Committed(LateTable(2), batch, 1), batch, 500_000)
  {
    MisalignedRowLosesSlot(2);
  }

  /**
   * When every call succeeds: the poll of second 9 failed and that of second 10 stored its LIVE row, which
   * is the sample a batch dates second 9. The placeholder of second 9 is deleted, and its slot is lost.
   */
  lemma MisalignedRunLosesSlot(c: Contents) returns (actions: seq<Action>)
    requires c.batches(0) == [EarlySample()] && c.tolerance == 500_000
    requires c.samples(0) == Entry(None, Placeholder(9_000_000)) && c.samples(1) == Entry(Some((7, 5)), LateRow())
    ensures ConsistentRun(c, Start(4), actions)
    ensures var w := Run(c, Start(4), actions);
            && w.queue.running == Some(Request(3, Queue.ReconcileIntervals(0)))
            && Progress(w.queue.futures, 3, 4)
            && !NoSlotLost(w.db, c.batches(0), c.tolerance)
  {
    actions := BothPublished(c);
    actions := BatchSucceeds(c, actions, LateTable(2));
    LateBatchLoses(c.batches(0));
  }
}
