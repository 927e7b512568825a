/** The bounded, ordered database queue (backend/pc_client/persistence_worker.py). */
module PersistenceQueue {
  import opened Words
  import opened Futures

  /** Adapter calls; `batch` names the history batch a call stores or reconciles. */
  datatype Call = UpsertHistory(batch: nat) | ReconcileIntervals(batch: nat) | Publish(sample: nat)

  type Queued = Request<Call>

  datatype Outcome = Returned(persisted: bool) | AdapterRaised | QueueFull | WorkerStopped | NeverRun | Abandoned

  /**
   * `known` says whether the object holds a worker task, finished or not, and `alive` whether a worker
   * is running; `started` is the history of calls handed to the adapter.
   */
  datatype State = State(
    capacity: nat,
    queue: seq<Queued>,
    running: Option<Queued>,
    known: bool,
    alive: bool,
    futures: Futures<Outcome>,
    next: nat,
    overflow: nat,
    started: seq<Queued>
  )

  /** Await-free stretches of the service and the worker. */
  datatype Event =
    | Submitted(sample: nat)
    | BatchSubmitted(batch: nat)
    | Begun
    | Taken
    | Finished(outcome: Outcome)
    | Cancelled
    | StopEnded
    | CallerCancelled(id: nat)

  /** `enqueue`: a full queue answers at once. */
  function Enqueue(s: State, call: Call): State {
    if |s.queue| < s.capacity then
      s.(queue := s.queue + [Request(s.next, call)], futures := s.futures[s.next := None], next := s.next + 1)
    else
      s.(futures := s.futures[s.next := Some(QueueFull)], next := s.next + 1, overflow := s.overflow + 1)
  }

  function Step(s: State, e: Event): State {
    match e
    case Submitted(sample) => Enqueue(s, Publish(sample))
    case BatchSubmitted(batch) => Enqueue(Enqueue(s, UpsertHistory(batch)), ReconcileIntervals(batch))
    case Begun => s.(known := true, alive := true)
    case Taken =>
      if s.alive && s.running.None? && s.queue != [] then
        s.(queue := s.queue[1..], running := Some(s.queue[0]), started := s.started + [s.queue[0]])
      else s
    case Finished(outcome) =>
      if s.running.Some? then s.(futures := Resolve(s.futures, s.running.value.id, outcome), running := None) else s
    case Cancelled =>
      if s.running.Some? then
        s.(futures := Resolve(s.futures, s.running.value.id, WorkerStopped), running := None, alive := false)
      else s.(alive := false)
    case StopEnded => s.(known := false, futures := ResolveAll(s.futures, Ids(s.queue), NeverRun), queue := [])
    case CallerCancelled(id) => s.(futures := Resolve(s.futures, id, Abandoned))
  }

  predicate Possible(e: Event) {
    e.Finished? ==> e.outcome.Returned? || e.outcome == AdapterRaised
  }

  function Run(s: State, events: seq<Event>): State {
    if events == [] then s else Step(Run(s, events[..|events| - 1]), events[|events| - 1])
  }

  function Initial(capacity: nat): State {
    State(capacity, [], None, false, false, map[], 0, 0, [])
  }

  // --- The worker ----------------------------------------------------------------------------

  class PersistenceWorker {
    const capacity: nat
    var queue: seq<Queued>
    var running: Option<Queued>
    var known: bool
    var alive: bool
    var futures: Futures<Outcome>
    var next: nat
    var overflow: nat
    ghost var started: seq<Queued>

    ghost function Model(): State
      reads this
    {
      State(capacity, queue, running, known, alive, futures, next, overflow, started)
    }

    constructor (capacity: nat)
      requires capacity > 0
      ensures Model() == Initial(capacity)
    {
      this.capacity := capacity;
      queue, running, known, alive, futures, next, overflow := [], None, false, false, map[], 0, 0;
      started := [];
    }

    /** The constructor's check of its argument. */
    static method Create(capacity: int) returns (worker: Option<PersistenceWorker>)
      ensures worker.Some? <==> capacity > 0
      ensures worker.Some? ==> fresh(worker.value) && worker.value.Model() == Initial(capacity)
    {
      if capacity <= 0 {
        return None;
      }
      var w := new PersistenceWorker(capacity);
      worker := Some(w);
    }

    method Put(call: Call)
      modifies this
      ensures Model() == Enqueue(old(Model()), call)
    {
      var request := Request(next, call);
      next := next + 1;
      if |queue| < capacity {
        queue := queue + [request];
        futures := futures[request.id := None];
      } else {
        overflow := overflow + 1;
        futures := futures[request.id := Some(QueueFull)];
      }
    }

    /** The two calls of a history batch, with nothing in between. */
    method PutBatch(batch: nat)
      modifies this
      ensures Model() == Step(old(Model()), BatchSubmitted(batch))
    {
      Put(UpsertHistory(batch));
      Put(ReconcileIntervals(batch));
    }

    method Start()
      modifies this
      ensures Model() == Step(old(Model()), Begun)
    {
      if !known || !alive {
        known, alive := true, true;
      }
    }

    method Take()
      requires alive && running.None? && queue != []
      modifies this
      ensures Model() == Step(old(Model()), Taken)
    {
      running := Some(queue[0]);
      started := started + [queue[0]];
      queue := queue[1..];
    }

    method Finish(outcome: Outcome)
      requires running.Some?
      modifies this
      ensures Model() == Step(old(Model()), Finished(outcome))
    {
      futures := Settle(futures, running.value.id, outcome);
      running := None;
    }

    /** Cancelling the worker, while it waits or while a call runs. */
    method Cancel()
      modifies this
      ensures Model() == Step(old(Model()), Cancelled)
    {
      if running.Some? {
        futures := Settle(futures, running.value.id, WorkerStopped);
        running := None;
      }
      alive := false;
    }

    /** `_fail_pending`. */
    method FailPending()
      modifies this
      ensures Model() == old(Model()).(futures := ResolveAll(old(futures), Ids(old(queue)), NeverRun), queue := [])
    {
      ghost var drained := 0;
      while queue != []
        invariant drained <= |old(queue)| && queue == old(queue)[drained..]
        invariant futures == ResolveAll(old(futures), Ids(old(queue))[..drained], NeverRun)
        invariant Model() == old(Model()).(queue := queue, futures := futures)
        decreases |queue|
      {
        assert Ids(old(queue))[..drained + 1][..drained] == Ids(old(queue))[..drained];
        futures := Settle(futures, queue[0].id, NeverRun);
        queue := queue[1..];
        drained := drained + 1;
      }
      assert Ids(old(queue))[..drained] == Ids(old(queue));
    }

    /** The end of `stop`, once the cancelled worker has been awaited. */
    method EndStop()
      modifies this
      ensures Model() == Step(old(Model()), StopEnded)
    {
      known := false;
      FailPending();
    }

    /** `stop`, when nothing happens while it waits: it does nothing without a task. */
    method Stop()
      modifies this
      ensures Model() == Stopped(old(Model()), [], [])
    {
      if !known {
        return;
      }
      Cancel();
      EndStop();
    }
  }

  /**
   * `stop`, with anything that happens while it flushes the queue and while it waits for the cancelled
   * worker. Without a task it returns at once; when another stop has taken the task away by the end of the
   * flush, cancelling it raises and nothing else is done.
   */
  function Stopped(s: State, flush: seq<Event>, meanwhile: seq<Event>): State {
    if !s.known then s
    else if !Run(s, flush).known then Run(s, flush)
    else Step(Run(Step(Run(s, flush), Cancelled), meanwhile), StopEnded)
  }

  // --- Order: what every run keeps --------------------------------------------------------

  /** Requests in the order they were put. */
  predicate InOrder(requests: seq<Queued>, bound: nat) {
    && (forall i :: 0 <= i < |requests| ==> requests[i].id < bound)
    && (forall i, j :: 0 <= i < j < |requests| ==> requests[i].id < requests[j].id)
  }

  /** A batch's reconciliation directly follows its upsert. */
  predicate Paired(requests: seq<Queued>) {
    forall j :: 0 <= j < |requests| && requests[j].content.ReconcileIntervals? ==>
      0 < j && requests[j - 1].content == UpsertHistory(requests[j].content.batch)
  }

  /** Calls start in the order they were accepted; what has started and what waits form one line. */
  predicate Lined(s: State) {
    && |s.queue| <= s.capacity
    && InOrder(s.started + s.queue, s.next) && Paired(s.started + s.queue)
    && (s.running.Some? ==> s.started != [] && s.running.value == s.started[|s.started| - 1])
  }

  lemma EnqueueLined(s: State, call: Call)
    requires Lined(s)
    requires call.ReconcileIntervals? && |s.queue| < s.capacity
         ==> s.queue != [] && s.queue[|s.queue| - 1].content == UpsertHistory(call.batch)
    ensures Lined(Enqueue(s, call))
  {
    if |s.queue| < s.capacity {
      assert s.started + (s.queue + [Request(s.next, call)]) == (s.started + s.queue) + [Request(s.next, call)];
      LineGrows(s.started + s.queue, Request(s.next, call), s.next);
    }
  }

  lemma LineGrows(line: seq<Queued>, x: Queued, next: nat)
    requires InOrder(line, next) && Paired(line) && x.id == next
    requires x.content.ReconcileIntervals? ==> line != [] && line[|line| - 1].content == UpsertHistory(x.content.batch)
    ensures InOrder(line + [x], next + 1) && Paired(line + [x])
  {
  }

  /** Between the two calls of a batch nothing else gets in, so either both are lined up or the second is refused. */
  lemma BatchLined(s: State, batch: nat)
    requires Lined(s)
    ensures Lined(Step(s, BatchSubmitted(batch)))
  {
    EnqueueLined(s, UpsertHistory(batch));
    EnqueueLined(Enqueue(s, UpsertHistory(batch)), ReconcileIntervals(batch));
  }

  lemma TakenLined(s: State)
    requires Lined(s)
    ensures Lined(Step(s, Taken))
  {
    if s.queue != [] {
      assert (s.started + [s.queue[0]]) + s.queue[1..] == s.started + s.queue;
    }
  }

  lemma StopEndedLined(s: State)
    requires Lined(s)
    ensures Lined(Step(s, StopEnded))
  {
    assert s.started + [] == (s.started + s.queue)[..|s.started|];
  }

  lemma StepLined(s: State, e: Event)
    requires Lined(s)
    ensures Lined(Step(s, e))
  {
    match e
    case Submitted(sample) => EnqueueLined(s, Publish(sample));
    case BatchSubmitted(batch) => BatchLined(s, batch);
    case Taken => TakenLined(s);
    case StopEnded => StopEndedLined(s);
    case _ =>
  }

  lemma {:induction false} RunLined(capacity: nat, events: seq<Event>)
    ensures Lined(Run(Initial(capacity), events))
  {
    if events != [] {
      RunLined(capacity, events[..|events| - 1]);
      StepLined(Run(Initial(capacity), events[..|events| - 1]), events[|events| - 1]);
    }
  }

  /**
   * Whatever overflows, fails, is cancelled or is drained: when a batch's reconciliation starts, the
   * call started just before it was the upsert of the same batch, and calls start in the order they
   * were put.
   */
  lemma ReconcileFollowsUpsert(capacity: nat, events: seq<Event>)
    ensures var started := Run(Initial(capacity), events).started;
            && Paired(started) && forall i, j :: 0 <= i < j < |started| ==> started[i].id < started[j].id
  {
    var s := Run(Initial(capacity), events);
    RunLined(capacity, events);
    assert s.started == (s.started + s.queue)[..|s.started|];
  }

  /** Started is not succeeded: after an upsert that raised, its reconciliation still runs. */
  lemma UpsertMayHaveFailed()
    ensures var s := Run(Initial(2), [BatchSubmitted(7), Begun, Taken, Finished(AdapterRaised), Taken]);
            && s.running == Some(Request(1, ReconcileIntervals(7)))
            && 0 in s.futures && s.futures[0] == Some(AdapterRaised)
  {
    var events := [BatchSubmitted(7), Begun, Taken, Finished(AdapterRaised), Taken];
    var s := Step(Initial(2), BatchSubmitted(7));
    assert s.queue == [Request(0, UpsertHistory(7)), Request(1, ReconcileIntervals(7))];
    RunMore(Initial(2), [], events[0]);
    assert events[..1] == [] + [events[0]] && events[..2] == events[..1] + [events[1]] && events[..3] == events[..2] + [events[2]];
    assert events[..4] == events[..3] + [events[3]] && events == events[..4] + [events[4]];
    RunMore(Initial(2), events[..1], events[1]);
    RunMore(Initial(2), events[..2], events[2]);
    RunMore(Initial(2), events[..3], events[3]);
    RunMore(Initial(2), events[..4], events[4]);
  }

  lemma RunMore(s: State, events: seq<Event>, e: Event)
    ensures Run(s, events + [e]) == Step(Run(s, events), e)
  {
    assert (events + [e])[..|events|] == events;
  }

  // --- Futures: exactly one outcome -----------------------------------------------------------

  predicate Running(s: State, id: nat) {
    s.running.Some? && s.running.value.id == id
  }

  /**
   * A future stays open only while its request waits or runs. A resolved one, unless its caller
   * gave up on it, is done with, and its outcome tells whether the adapter was ever called.
   */
  predicate Tracked(s: State, id: nat) {
    && (id in s.futures <==> id < s.next)
    && (id in s.futures ==>
          match s.futures[id]
          case None => Among(s.queue, id) || Running(s, id)
          case Some(outcome) =>
            outcome == Abandoned
            || (!Among(s.queue, id) && !Running(s, id) && (Among(s.started, id) <==> outcome != QueueFull && outcome != NeverRun)))
  }

  /** Nobody is in line twice. */
  lemma LinedApart(s: State, id: nat)
    requires Lined(s)
    ensures !(Among(s.started, id) && Among(s.queue, id))
    ensures Among(s.started, id) || Among(s.queue, id) ==> id < s.next
    ensures Running(s, id) ==> Among(s.started, id)
  {
    var line := s.started + s.queue;
    assert forall i :: 0 <= i < |s.started| ==> Ids(s.started)[i] == line[i].id;
    assert forall i :: 0 <= i < |s.queue| ==> Ids(s.queue)[i] == line[|s.started| + i].id;
    if Running(s, id) {
      assert Ids(s.started)[|s.started| - 1] == id;
    }
  }

  lemma EnqueueTracked(s: State, call: Call, id: nat)
    requires Lined(s) && Tracked(s, id)
    ensures Tracked(Enqueue(s, call), id)
  {
    LinedApart(s, id);
    AmongAppend(s.queue, Request(s.next, call), id);
  }

  lemma StepTracked(s: State, e: Event, id: nat)
    requires Lined(s) && Tracked(s, id) && Possible(e)
    requires e.BatchSubmitted? ==> Lined(Enqueue(s, UpsertHistory(e.batch)))
    ensures Tracked(Step(s, e), id)
  {
    LinedApart(s, id);
    match e
    case Submitted(sample) => EnqueueTracked(s, Publish(sample), id);
    case BatchSubmitted(batch) =>
      EnqueueTracked(s, UpsertHistory(batch), id);
      EnqueueTracked(Enqueue(s, UpsertHistory(batch)), ReconcileIntervals(batch), id);
    case Taken =>
      if s.alive && s.running.None? && s.queue != [] {
        AmongTail(s.queue, id);
        AmongAppend(s.started, s.queue[0], id);
      }
    case StopEnded => ResolvedAll(s.futures, Ids(s.queue), NeverRun, id);
    case _ =>
  }

  lemma {:induction false} RunTracked(capacity: nat, events: seq<Event>, id: nat)
    requires forall e :: e in events ==> Possible(e)
    ensures Tracked(Run(Initial(capacity), events), id)
  {
    if events != [] {
      var front, e := events[..|events| - 1], events[|events| - 1];
      RunTracked(capacity, front, id);
      RunLined(capacity, front);
      if e.BatchSubmitted? {
        EnqueueLined(Run(Initial(capacity), front), UpsertHistory(e.batch));
      }
      StepTracked(Run(Initial(capacity), front), e, id);
    }
  }

  /** The first outcome of a future is its last. */
  lemma {:induction false} OutcomesStand(s: State, events: seq<Event>, id: nat)
    requires id in s.futures && s.futures[id].Some? && id < s.next
    ensures var t := Run(s, events); id < t.next && id in t.futures && t.futures[id] == s.futures[id]
  {
    if events != [] {
      var front, e := events[..|events| - 1], events[|events| - 1];
      OutcomesStand(s, front, id);
      if e.StopEnded? {
        ResolvedAll(Run(s, front).futures, Ids(Run(s, front).queue), NeverRun, id);
      }
    }
  }

  // --- Who asked for what, and what came of it -------------------------------------------------

  /** The calls asked for, in order; a batch asks for two. */
  function Asked(events: seq<Event>): seq<Call> {
    if events == [] then []
    else
      var last := events[|events| - 1];
      Asked(events[..|events| - 1])
      + (match last
         case Submitted(sample) => [Publish(sample)]
         case BatchSubmitted(batch) => [UpsertHistory(batch), ReconcileIntervals(batch)]
         case _ => [])
  }

  predicate AsAsked(r: Queued, asked: seq<Call>) {
    r.id < |asked| && r.content == asked[r.id]
  }

  ghost predicate AllAsAsked(s: State, asked: seq<Call>) {
    && s.next == |asked|
    && (forall r :: r in s.queue ==> AsAsked(r, asked)) && (forall r :: r in s.started ==> AsAsked(r, asked))
    && (s.running.Some? ==> AsAsked(s.running.value, asked))
  }

  lemma AskedMore(s: State, call: Call, asked: seq<Call>)
    requires AllAsAsked(s, asked)
    ensures AllAsAsked(Enqueue(s, call), asked + [call])
  {
    forall r | AsAsked(r, asked)
      ensures AsAsked(r, asked + [call])
    {
    }
  }

  /** Requests are numbered as they come in, and the adapter is called with what each of them asked for. */
  lemma {:induction false} CallsKept(capacity: nat, events: seq<Event>)
    ensures AllAsAsked(Run(Initial(capacity), events), Asked(events))
  {
    if events != [] {
      var front, last := events[..|events| - 1], events[|events| - 1];
      var s, asked := Run(Initial(capacity), front), Asked(front);
      CallsKept(capacity, front);
      match last
      case Submitted(sample) => AskedMore(s, Publish(sample), asked);
      case BatchSubmitted(batch) =>
        AskedMore(s, UpsertHistory(batch), asked);
        AskedMore(Enqueue(s, UpsertHistory(batch)), ReconcileIntervals(batch), asked + [UpsertHistory(batch)]);
        assert asked + [UpsertHistory(batch)] + [ReconcileIntervals(batch)] == asked + [UpsertHistory(batch), ReconcileIntervals(batch)];
      case _ => assert asked + [] == asked;
    }
  }

  /** What at this moment gives an open future its outcome. */
  predicate Causes(s: State, e: Event, id: nat, outcome: Outcome) {
    match outcome
    case Returned(_) => e == Finished(outcome) && Running(s, id)
    case AdapterRaised => e == Finished(outcome) && Running(s, id)
    case WorkerStopped => e == Cancelled && Running(s, id)
    case NeverRun => e == StopEnded && Among(s.queue, id)
    case Abandoned => e == CallerCancelled(id)
    case QueueFull => false
  }

  /** Later requests leave it open. */
  lemma EnqueueLeaves(s: State, call: Call, id: nat)
    requires id in s.futures && id < s.next
    ensures var t := Enqueue(s, call); id in t.futures && t.futures[id] == s.futures[id] && id < t.next
  {
  }

  lemma StepCauses(s: State, e: Event, id: nat, outcome: Outcome)
    requires id in s.futures && s.futures[id].None? && id < s.next && Possible(e)
    ensures id in Step(s, e).futures && (Step(s, e).futures[id] == Some(outcome) <==> Causes(s, e, id, outcome))
  {
    match e
    case Submitted(sample) => EnqueueLeaves(s, Publish(sample), id);
    case BatchSubmitted(batch) =>
      EnqueueLeaves(s, UpsertHistory(batch), id);
      EnqueueLeaves(Enqueue(s, UpsertHistory(batch)), ReconcileIntervals(batch), id);
    case StopEnded => ResolvedAll(s.futures, Ids(s.queue), NeverRun, id);
    case _ =>
  }

  /** The queue was full when the request came: for a batch's second call, counting its first. */
  predicate Overfull(s: State, e: Event, id: nat) {
    || ((e.Submitted? || e.BatchSubmitted?) && id == s.next && |s.queue| >= s.capacity)
    || (e.BatchSubmitted? && id == s.next + 1 && |s.queue| + 1 >= s.capacity)
  }

  lemma StepRefuses(s: State, e: Event, id: nat)
    requires id !in s.futures && s.next <= id && Possible(e) && |s.queue| <= s.capacity
    ensures id in Step(s, e).futures && Step(s, e).futures[id].Some? ==> Step(s, e).futures[id] == Some(QueueFull)
    ensures id in Step(s, e).futures && Step(s, e).futures[id] == Some(QueueFull) <==> Overfull(s, e, id)
  {
    if e.StopEnded? {
      ResolvedAll(s.futures, Ids(s.queue), NeverRun, id);
    }
  }

  /** A caller gets the result of its own call; it is refused for want of room exactly if there was none; and so on. */
  lemma {:induction false} OutcomeExplained(capacity: nat, events: seq<Event>, id: nat) returns (k: nat)
    requires forall e :: e in events ==> Possible(e)
    requires var s := Run(Initial(capacity), events); id in s.futures && s.futures[id].Some?
    ensures k < |events|
    ensures var s, outcome := Run(Initial(capacity), events[..k]), Run(Initial(capacity), events).futures[id].value;
            if id in s.futures then s.futures[id].None? && Causes(s, events[k], id, outcome)
            else outcome == QueueFull && Overfull(s, events[k], id)
  {
    var front, e := events[..|events| - 1], events[|events| - 1];
    var before := Run(Initial(capacity), front);
    RunTracked(capacity, front, id);
    RunLined(capacity, front);
    if id in before.futures && before.futures[id].Some? {
      k := OutcomeExplained(capacity, front, id);
      assert front[..k] == events[..k];
      OutcomesStand(before, [e], id);
      assert [e][..0] == [];
    } else {
      k := |front|;
      if id in before.futures {
        StepCauses(before, e, id, Step(before, e).futures[id].value);
      } else {
        StepRefuses(before, e, id);
      }
    }
  }

  /** An idle worker takes up one request after another and is done with it by the given outcome. */
  function Rounds(outcomes: seq<Outcome>): seq<Event> {
    if outcomes == [] then [] else Rounds(outcomes[..|outcomes| - 1]) + [Taken] + [Finished(outcomes[|outcomes| - 1])]
  }

  lemma OneRound(s: State, outcome: Outcome)
    requires s.alive && s.running.None? && s.queue != []
    ensures Step(s, Taken).running == Some(s.queue[0])
    ensures var t := Step(Step(s, Taken), Finished(outcome));
            t.alive && t.running.None? && t.queue == s.queue[1..] && t.started == s.started + [s.queue[0]]
  {
  }

  lemma RoundRuns(s: State, outcomes: seq<Outcome>, outcome: Outcome)
    ensures Run(s, Rounds(outcomes + [outcome])) == Step(Step(Run(s, Rounds(outcomes)), Taken), Finished(outcome))
  {
    assert (outcomes + [outcome])[..|outcomes|] == outcomes;
    RunMore(s, Rounds(outcomes), Taken);
    RunMore(s, Rounds(outcomes) + [Taken], Finished(outcome));
  }

  /** The first `n` waiting requests have been served. */
  predicate Served(s: State, t: State, n: nat)
    requires n <= |s.queue|
  {
    t.alive && t.running.None? && t.queue == s.queue[n..] && t.started == s.started + s.queue[..n]
  }

  lemma OneMoreServed(s: State, t: State, n: nat, outcome: Outcome)
    requires n < |s.queue| && Served(s, t, n)
    ensures Served(s, Step(Step(t, Taken), Finished(outcome)), n + 1)
  {
    OneRound(t, outcome);
    assert t.queue[0] == s.queue[n] && t.queue[1..] == s.queue[n + 1..];
    assert s.queue[..n] + [s.queue[n]] == s.queue[..n + 1];
  }

  lemma {:induction false} RoundsServe(s: State, outcomes: seq<Outcome>)
    requires s.alive && s.running.None? && |outcomes| <= |s.queue|
    ensures Served(s, Run(s, Rounds(outcomes)), |outcomes|)
  {
    if outcomes != [] {
      var n := |outcomes| - 1;
      RoundsServe(s, outcomes[..n]);
      RoundRuns(s, outcomes[..n], outcomes[n]);
      assert outcomes[..n] + [outcomes[n]] == outcomes;
      OneMoreServed(s, Run(s, Rounds(outcomes[..n])), n, outcomes[n]);
    }
  }

  /** However the calls end, requests are served in the order in which they wait. */
  lemma ServedInTurn(s: State, outcomes: seq<Outcome>)
    requires s.alive && s.running.None? && |outcomes| <= |s.queue|
    ensures var t := Run(s, Rounds(outcomes));
            && t.alive && t.running.None? && t.queue == s.queue[|outcomes|..] && t.started == s.started + s.queue[..|outcomes|]
            && (|outcomes| < |s.queue| ==> Step(t, Taken).running == Some(s.queue[|outcomes|]))
  {
    RoundsServe(s, outcomes);
    if |outcomes| < |s.queue| {
      OneRound(Run(s, Rounds(outcomes)), Returned(true));
    }
  }

  lemma {:induction false} RunFrom(s: State, first: seq<Event>, more: seq<Event>)
    ensures Run(Run(s, first), more) == Run(s, first + more)
  {
    if more == [] {
      assert first + more == first;
    } else {
      assert (first + more)[..|first + more| - 1] == first + more[..|more| - 1];
      RunFrom(s, first, more[..|more| - 1]);
    }
  }

  /** Without a worker nothing runs, whatever else happens. */
  lemma {:induction false} StaysIdle(s: State, events: seq<Event>)
    requires !s.alive && s.running.None? && Begun !in events
    ensures !Run(s, events).alive && Run(s, events).running.None?
  {
    if events != [] {
      assert events[|events| - 1] in events;
      StaysIdle(s, events[..|events| - 1]);
    }
  }

  predicate IsOpen(s: State, id: nat) {
    id in s.futures && s.futures[id].None?
  }

  /** Something is still waiting for an outcome. */
  ghost predicate AnyOpen(s: State) {
    exists id :: IsOpen(s, id)
  }

  /** A stop gets to its end: there is a task on entry, and still one after the flush. */
  predicate StopsATask(s: State, flush: seq<Event>) {
    s.known && Run(s, flush).known
  }

  /** All events of a stop in a run, when it gets to its end. */
  function StopEvents(events: seq<Event>, flush: seq<Event>, meanwhile: seq<Event>): seq<Event> {
    events + flush + [Cancelled] + meanwhile + [StopEnded]
  }

  lemma StoppedIsRun(capacity: nat, events: seq<Event>, flush: seq<Event>, meanwhile: seq<Event>)
    requires StopsATask(Run(Initial(capacity), events), flush)
    ensures Stopped(Run(Initial(capacity), events), flush, meanwhile)
         == Run(Initial(capacity), StopEvents(events, flush, meanwhile))
  {
    var s := Initial(capacity);
    RunFrom(s, events, flush);
    RunMore(s, events + flush, Cancelled);
    RunFrom(s, events + flush + [Cancelled], meanwhile);
    RunMore(s, events + flush + [Cancelled] + meanwhile, StopEnded);
  }

  /**
   * What stopping leaves open: without a task on entry it changes nothing, and without one after the flush
   * it changes nothing from there on, so every future open by then stays open; otherwise only what a
   * worker started during the stop may be running.
   */
  lemma StopLeaves(capacity: nat, events: seq<Event>, flush: seq<Event>, meanwhile: seq<Event>, id: nat)
    requires forall e :: e in events + flush + meanwhile ==> Possible(e)
    ensures var s := Run(Initial(capacity), events);
            var t := Stopped(s, flush, meanwhile);
            && (!s.known ==> (IsOpen(t, id) <==> IsOpen(s, id)))
            && (s.known && !Run(s, flush).known ==> (IsOpen(t, id) <==> IsOpen(Run(s, flush), id)))
            && (StopsATask(s, flush) ==> t.queue == [] && (IsOpen(t, id) ==> Running(t, id)))
            && (StopsATask(s, flush) && Begun !in meanwhile ==> t.running.None? && !IsOpen(t, id))
  {
    var s := Run(Initial(capacity), events);
    if StopsATask(s, flush) {
      StopDrains(capacity, events, flush, meanwhile, id);
      if Begun !in meanwhile {
        StaysIdle(Step(Run(s, flush), Cancelled), meanwhile);
      }
    }
  }

  lemma StopDrains(capacity: nat, events: seq<Event>, flush: seq<Event>, meanwhile: seq<Event>, id: nat)
    requires StopsATask(Run(Initial(capacity), events), flush)
    requires forall e :: e in events + flush + meanwhile ==> Possible(e)
    ensures var t := Stopped(Run(Initial(capacity), events), flush, meanwhile);
            t.queue == [] && (IsOpen(t, id) ==> Running(t, id))
  {
    var all := StopEvents(events, flush, meanwhile);
    StoppedIsRun(capacity, events, flush, meanwhile);
    assert forall e :: e in all ==> e in events + flush + meanwhile || e == Cancelled || e == StopEnded;
    RunTracked(capacity, all, id);
  }

  /**
   * Stopping leaves nothing open exactly when there is a task to stop, on entry and still after the
   * flush, or nothing was open when it gave up: requests put before the first start, after an earlier
   * stop, or after another stop that overtook this one, are left waiting. When another worker is started
   * while the old one winds down, the request that one is running may stay open too.
   */
  lemma StopResolvesIff(capacity: nat, events: seq<Event>, flush: seq<Event>, meanwhile: seq<Event>)
    requires forall e :: e in events + flush + meanwhile ==> Possible(e)
    ensures var s := Run(Initial(capacity), events);
            var t := Stopped(s, flush, meanwhile);
            && (Begun !in meanwhile ==>
                  (!AnyOpen(t) <==> StopsATask(s, flush) || !AnyOpen(if s.known then Run(s, flush) else s)))
            && (StopsATask(s, flush) ==> (!AnyOpen(t) <==> t.running.None? || !IsOpen(t, t.running.value.id)))
  {
    var s := Run(Initial(capacity), events);
    var t := Stopped(s, flush, meanwhile);
    forall id: nat
      ensures StopsATask(s, flush) && IsOpen(t, id) ==> Running(t, id) && Begun in meanwhile
    {
      StopLeaves(capacity, events, flush, meanwhile, id);
    }
  }

  /**
   * Two stops at once: the second ends while the first flushes, and the request put after that stays open,
   * for the first one fails at cancelling a task that is gone.
   */
  lemma OvertakenStopFails(capacity: nat, meanwhile: seq<Event>)
    requires capacity > 0
    ensures var s := Run(Initial(capacity), [Begun]);
            var t := Stopped(s, [Cancelled, StopEnded, Submitted(0)], meanwhile);
            && s.known && !StopsATask(s, [Cancelled, StopEnded, Submitted(0)])
            && IsOpen(t, 0) && t.queue == [Request(0, Publish(0))] && !t.alive
  {
    RunMore(Initial(capacity), [], Begun);
    var s := Run(Initial(capacity), [] + [Begun]);
    RunMore(s, [], Cancelled);
    RunMore(s, [Cancelled], StopEnded);
    RunMore(s, [Cancelled, StopEnded], Submitted(0));
    assert [Cancelled] + [StopEnded] == [Cancelled, StopEnded];
    assert [Cancelled, StopEnded] + [Submitted(0)] == [Cancelled, StopEnded, Submitted(0)];
    assert ResolveAll(s.futures, Ids(s.queue), NeverRun) == map[];
  }

  /** One request before the first start: stopping does not resolve it. */
  lemma StoppedBeforeStart(capacity: nat, flush: seq<Event>, meanwhile: seq<Event>)
    requires capacity > 0
    ensures var s := Run(Initial(capacity), [Submitted(0)]);
            !s.known && IsOpen(Stopped(s, flush, meanwhile), 0)
  {
    RunMore(Initial(capacity), [], Submitted(0));
  }

  function Rejected(futures: Futures<Outcome>): set<nat> {
    set id | id in futures && futures[id] == Some(QueueFull)
  }

  ghost predicate Counted(s: State) {
    && (forall id: nat :: id < s.next <==> id in s.futures)
    && s.overflow == |Rejected(s.futures)|
  }

  lemma EnqueueCounted(s: State, call: Call)
    requires Counted(s)
    ensures Counted(Enqueue(s, call))
  {
    assert s.next !in s.futures;
    NewFuture(s.futures, s.next, if |s.queue| < s.capacity then None else Some(QueueFull));
  }

  lemma NewFuture(futures: Futures<Outcome>, id: nat, state: Option<Outcome>)
    requires id !in futures
    ensures Rejected(futures[id := state]) == if state == Some(QueueFull) then Rejected(futures) + {id} else Rejected(futures)
    ensures id !in Rejected(futures)
  {
  }

  lemma ResolvingRejectsNone(futures: Futures<Outcome>, ids: seq<nat>, outcome: Outcome)
    requires outcome != QueueFull
    ensures Rejected(ResolveAll(futures, ids, outcome)) == Rejected(futures)
    ensures ResolveAll(futures, ids, outcome).Keys == futures.Keys
  {
    forall id: nat
      ensures id in ResolveAll(futures, ids, outcome) <==> id in futures
      ensures id in futures ==> (ResolveAll(futures, ids, outcome)[id] == Some(QueueFull) <==> futures[id] == Some(QueueFull))
    {
      ResolvedAll(futures, ids, outcome, id);
    }
  }

  lemma ResolveRejectsNone(futures: Futures<Outcome>, id: nat, outcome: Outcome)
    requires outcome != QueueFull
    ensures Rejected(Resolve(futures, id, outcome)) == Rejected(futures)
    ensures Resolve(futures, id, outcome).Keys == futures.Keys
  {
  }

  /** The health counter is the number of requests refused for want of room. */
  lemma {:induction false} OverflowCounts(capacity: nat, events: seq<Event>)
    requires forall e :: e in events ==> Possible(e)
    ensures Counted(Run(Initial(capacity), events))
  {
    if events != [] {
      var s := Run(Initial(capacity), events[..|events| - 1]);
      OverflowCounts(capacity, events[..|events| - 1]);
      StepCounted(s, events[|events| - 1]);
    }
  }

  lemma StepCounted(s: State, e: Event)
    requires Counted(s) && Possible(e)
    ensures Counted(Step(s, e))
  {
    match e
    case Submitted(sample) => EnqueueCounted(s, Publish(sample));
    case BatchSubmitted(batch) =>
      EnqueueCounted(s, UpsertHistory(batch));
      EnqueueCounted(Enqueue(s, UpsertHistory(batch)), ReconcileIntervals(batch));
    case Begun =>
    case Taken =>
    case Finished(outcome) => if s.running.Some? { ResolveRejectsNone(s.futures, s.running.value.id, outcome); }
    case Cancelled => if s.running.Some? { ResolveRejectsNone(s.futures, s.running.value.id, WorkerStopped); }
    case StopEnded => ResolvingRejectsNone(s.futures, Ids(s.queue), NeverRun);
    case CallerCancelled(id) => ResolveRejectsNone(s.futures, id, Abandoned);
  }
}
