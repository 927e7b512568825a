/** Priority-ordered, one-at-a-time BLE requests (backend/pc_client/ble_scheduler.py). */
module RequestScheduler {
  import opened Words
  import opened Futures

  /** The smallest priority number goes first; current and history requests have 10 and 20. */
  const DISPLAY: nat := 0

  /** A request contains its priority; its number says when it was submitted. */
  type Scheduled = Request<nat>

  predicate Before(a: Scheduled, b: Scheduled) {
    a.content < b.content || (a.content == b.content && a.id < b.id)
  }

  datatype Outcome = Result(value: nat) | Raised | NotConnected | Failed | Cancelled

  /** The queue in the order the heap hands it out; `started` is the history of actions begun. */
  datatype State = State(
    queue: seq<Scheduled>,
    running: Option<Scheduled>,
    alive: bool,
    futures: Futures<Outcome>,
    next: nat,
    started: seq<Scheduled>
  )

  /** Await-free stretches; `ready` is what the connection check says at that moment. */
  datatype Event =
    | Submitted(priority: nat, ready: bool)
    | Begun
    | Taken(ready: bool)
    | Finished(outcome: Outcome)
    | TaskCancelled
    | Drained
    | CallerCancelled(id: nat)

  /** An action ends with a value or an exception; a CancelledError is `TaskCancelled`. */
  predicate Possible(e: Event) {
    e.Finished? ==> e.outcome.Result? || e.outcome.Raised?
  }

  function Insert(queue: seq<Scheduled>, x: Scheduled): seq<Scheduled> {
    if queue == [] || Before(queue[|queue| - 1], x) then queue + [x]
    else Insert(queue[..|queue| - 1], x) + [queue[|queue| - 1]]
  }

  predicate Abandoned(s: State, x: Scheduled) {
    x.id in s.futures && s.futures[x.id] == Some(Cancelled)
  }

  function Step(s: State, e: Event): State {
    match e
    case Submitted(priority, ready) =>
      if !ready then s
      else s.(queue := Insert(s.queue, Request(s.next, priority)), futures := s.futures[s.next := None], next := s.next + 1)
    case Begun => s.(alive := true)
    case Taken(ready) =>
      if !s.alive || s.running.Some? || s.queue == [] then s
      else if Abandoned(s, s.queue[0]) then s.(queue := s.queue[1..])
      else if !ready then s.(queue := s.queue[1..], futures := Resolve(s.futures, s.queue[0].id, NotConnected))
      else s.(queue := s.queue[1..], running := Some(s.queue[0]), started := s.started + [s.queue[0]])
    case Finished(outcome) =>
      if s.running.None? then s
      else s.(running := None, futures := Resolve(s.futures, s.running.value.id, outcome))
    case TaskCancelled =>
      if s.running.None? then s.(alive := false)
      else s.(running := None, alive := false, futures := Resolve(s.futures, s.running.value.id, Cancelled))
    case Drained => s.(queue := [], futures := ResolveAll(s.futures, Ids(s.queue), Failed))
    case CallerCancelled(id) => s.(futures := Resolve(s.futures, id, Cancelled))
  }

  function Run(s: State, events: seq<Event>): State {
    if events == [] then s else Step(Run(s, events[..|events| - 1]), events[|events| - 1])
  }

  const IDLE: State := State([], None, false, map[], 0, [])

  // --- The scheduler -------------------------------------------------------------------------

  class BleRequestScheduler {
    var queue: seq<Scheduled>
    var running: Option<Scheduled>
    var alive: bool
    var futures: Futures<Outcome>
    var next: nat
    ghost var started: seq<Scheduled>

    ghost function Model(): State
      reads this
    {
      State(queue, running, alive, futures, next, started)
    }

    constructor ()
      ensures Model() == IDLE
    {
      queue, running, alive, futures, next := [], None, false, map[], 0;
      started := [];
    }

    method Start()
      modifies this
      ensures Model() == Step(old(Model()), Begun)
    {
      if !alive {
        alive := true;
      }
    }

    /** `submit` up to its wait; `None` is the error for a missing connection. */
    method Submit(priority: nat, ready: bool) returns (id: Option<nat>)
      modifies this
      ensures Model() == Step(old(Model()), Submitted(priority, ready))
      ensures id == if ready then Some(old(next)) else None
    {
      if !ready {
        return None;
      }
      var request := Request(next, priority);
      next := next + 1;
      futures := futures[request.id := None];
      queue := Insert(queue, request);
      id := Some(request.id);
    }

    /** The worker from `get` to the start of the action. */
    method Take(ready: bool)
      requires alive && running.None? && queue != []
      modifies this
      ensures Model() == Step(old(Model()), Taken(ready))
    {
      var request := queue[0];
      queue := queue[1..];
      if request.id in futures && futures[request.id] == Some(Cancelled) {
        return;
      }
      if !ready {
        futures := Settle(futures, request.id, NotConnected);
        return;
      }
      running := Some(request);
      started := started + [request];
    }

    /** The action returned or raised. */
    method Finish(outcome: Outcome)
      requires running.Some?
      modifies this
      ensures Model() == Step(old(Model()), Finished(outcome))
    {
      futures := Settle(futures, running.value.id, outcome);
      running := None;
    }

    /** A CancelledError: the action's future is cancelled and the worker ends. */
    method Cancel()
      modifies this
      ensures Model() == Step(old(Model()), TaskCancelled)
    {
      if running.Some? {
        futures := Settle(futures, running.value.id, Cancelled);
        running := None;
      }
      alive := false;
    }

    method FailPending()
      modifies this
      ensures Model() == Step(old(Model()), Drained)
    {
      ghost var drained := 0;
      while queue != []
        invariant drained <= |old(queue)| && queue == old(queue)[drained..]
        invariant futures == ResolveAll(old(futures), Ids(old(queue))[..drained], Failed)
        invariant Model() == old(Model()).(queue := queue, futures := futures)
        decreases |queue|
      {
        assert Ids(old(queue))[..drained + 1][..drained] == Ids(old(queue))[..drained];
        futures := Settle(futures, queue[0].id, Failed);
        queue := queue[1..];
        drained := drained + 1;
      }
      assert Ids(old(queue))[..drained] == Ids(old(queue));
    }

    /** `stop`: end the worker, then fail whatever still waits. */
    method Stop()
      modifies this
      ensures Model() == Step(Step(old(Model()), TaskCancelled), Drained)
    {
      Cancel();
      FailPending();
    }
  }

  // --- The order of starts -----------------------------------------------------------------

  predicate Sorted(queue: seq<Scheduled>) {
    forall i, j :: 0 <= i < j < |queue| ==> Before(queue[i], queue[j])
  }

  ghost predicate Ordered(s: State) {
    && Sorted(s.queue)
    && (forall x :: x in s.queue ==> x.id < s.next)
    && (forall x, y :: x in s.queue && y in s.queue && x.id == y.id ==> x == y)
  }

  lemma {:induction false} InsertSorts(queue: seq<Scheduled>, x: Scheduled)
    requires Sorted(queue) && forall y :: y in queue ==> y.id != x.id
    ensures Sorted(Insert(queue, x)) && forall y :: y in Insert(queue, x) <==> y in queue || y == x
    ensures |Insert(queue, x)| == |queue| + 1
  {
    if queue != [] && !Before(queue[|queue| - 1], x) {
      var front, last := queue[..|queue| - 1], queue[|queue| - 1];
      assert queue == front + [last];
      InsertSorts(front, x);
      forall y | y in Insert(front, x)
        ensures Before(y, last)
      {
      }
    }
  }

  lemma StepOrdered(s: State, e: Event)
    requires Ordered(s)
    ensures Ordered(Step(s, e))
  {
    if e.Submitted? && e.ready {
      InsertSorts(s.queue, Request(s.next, e.priority));
    }
  }

  lemma {:induction false} RunOrdered(s: State, events: seq<Event>)
    requires Ordered(s)
    ensures Ordered(Run(s, events))
  {
    if events != [] {
      RunOrdered(s, events[..|events| - 1]);
      StepOrdered(Run(s, events[..|events| - 1]), events[|events| - 1]);
    }
  }

  /** An action starts only when none runs, and it is the first of all that wait. */
  lemma StartsTheFirst(events: seq<Event>, e: Event)
    requires Step(Run(IDLE, events), e).started != Run(IDLE, events).started
    ensures var s, t := Run(IDLE, events), Step(Run(IDLE, events), e);
            && s.running.None? && t.running.Some? && t.started == s.started + [t.running.value]
            && t.running.value in s.queue
            && (forall y :: y in s.queue && y != t.running.value ==>
                  t.running.value.content < y.content || (t.running.value.content == y.content && t.running.value.id < y.id))
            && forall y :: y in t.queue <==> y in s.queue && y != t.running.value
  {
    RunOrdered(IDLE, events);
    var s := Run(IDLE, events);
    assert s.queue == [s.queue[0]] + s.queue[1..];
  }

  // --- Waiting ----------------------------------------------------------------------------------

  /** How many of the queue come before `r`. */
  function Ahead(queue: seq<Scheduled>, r: Scheduled): nat {
    if queue == [] then 0 else Ahead(queue[..|queue| - 1], r) + if Before(queue[|queue| - 1], r) then 1 else 0
  }

  lemma {:induction false} AheadInsert(queue: seq<Scheduled>, x: Scheduled, r: Scheduled)
    ensures Ahead(Insert(queue, x), r) == Ahead(queue, r) + if Before(x, r) then 1 else 0
  {
    if queue != [] && !Before(queue[|queue| - 1], x) {
      AheadInsert(queue[..|queue| - 1], x, r);
    }
  }

  lemma {:induction false} AheadTail(queue: seq<Scheduled>, r: Scheduled)
    requires queue != []
    ensures Ahead(queue, r) == Ahead(queue[1..], r) + if Before(queue[0], r) then 1 else 0
  {
    if |queue| > 1 {
      assert queue[1..][..|queue| - 2] == queue[..|queue| - 1][1..];
      AheadTail(queue[..|queue| - 1], r);
    }
  }

  /** What may start while `r` waits: requests that come before it. */
  ghost predicate Overtakers(earlier: seq<Scheduled>, later: seq<Scheduled>, r: Scheduled) {
    && earlier <= later
    && forall i :: |earlier| <= i < |later| ==>
         later[i].content < r.content || (later[i].content == r.content && later[i].id < r.id)
  }

  lemma WaitStep(s: State, e: Event, r: Scheduled)
    requires Ordered(s) && r in s.queue && r in Step(s, e).queue
    ensures Overtakers(s.started, Step(s, e).started, r)
    ensures r.content == DISPLAY ==>
              |Step(s, e).started| - |s.started| + Ahead(Step(s, e).queue, r) <= Ahead(s.queue, r)
  {
    if e.Submitted? && e.ready {
      InsertSorts(s.queue, Request(s.next, e.priority));
      AheadInsert(s.queue, Request(s.next, e.priority), r);
    } else if e.Taken? && s.queue != [] {
      AheadTail(s.queue, r);
      assert s.queue == [s.queue[0]] + s.queue[1..];
    }
  }

  /** Requests never enter the queue twice, so one that waits at the end waited all along. */
  lemma WaitedBefore(s: State, e: Event, r: Scheduled)
    requires Ordered(s) && r.id < s.next && r in Step(s, e).queue
    ensures r in s.queue && r.id < Step(s, e).next
  {
    if e.Submitted? && e.ready {
      InsertSorts(s.queue, Request(s.next, e.priority));
    }
  }

  /**
   * While `r` waits, only requests with a smaller (priority, arrival) start. A display request is
   * overtaken by nothing submitted later: at most the display requests already ahead of it start
   * first, besides the action that was running.
   */
  lemma {:induction false} WaitIsBounded(s: State, events: seq<Event>, r: Scheduled)
    requires Ordered(s) && r in s.queue && r in Run(s, events).queue
    ensures Overtakers(s.started, Run(s, events).started, r)
    ensures r.content == DISPLAY ==>
              |Run(s, events).started| - |s.started| + Ahead(Run(s, events).queue, r) <= Ahead(s.queue, r)
  {
    if events != [] {
      var front, e := events[..|events| - 1], events[|events| - 1];
      RunOrdered(s, front);
      NextKept(s, front, r);
      WaitedBefore(Run(s, front), e, r);
      WaitIsBounded(s, front, r);
      WaitStep(Run(s, front), e, r);
    }
  }

  lemma {:induction false} NextKept(s: State, events: seq<Event>, r: Scheduled)
    requires Ordered(s) && r in s.queue
    ensures r.id < Run(s, events).next
  {
    if events != [] {
      NextKept(s, events[..|events| - 1], r);
    }
  }

  // --- Exactly one outcome --------------------------------------------------------------------

  predicate Running(s: State, id: nat) {
    s.running.Some? && s.running.value.id == id
  }

  /** Each number is issued once: what has started no longer waits. */
  predicate Apart(s: State, id: nat) {
    && (Among(s.queue, id) || Among(s.started, id) ==> id < s.next)
    && !(Among(s.queue, id) && Among(s.started, id))
    && (Running(s, id) ==> Among(s.started, id))
  }

  /**
   * A future is open only while its request waits or runs; once resolved other than by cancellation
   * it is out of the way, and it carries an action's result exactly when the action was started.
   */
  predicate Tracked(s: State, id: nat) {
    && (id in s.futures <==> id < s.next)
    && (id in s.futures ==>
          match s.futures[id]
          case None => Among(s.queue, id) || Running(s, id)
          case Some(outcome) =>
            outcome == Cancelled
            || (!Among(s.queue, id) && !Running(s, id)
                && (Among(s.started, id) <==> outcome.Result? || outcome == Raised)))
  }

  /** The first of the queue leaves it for good. */
  lemma FirstLeaves(s: State, id: nat)
    requires Ordered(s) && s.queue != []
    ensures Among(s.queue, s.queue[0].id)
    ensures Among(s.queue[1..], id) <==> Among(s.queue, id) && s.queue[0].id != id
  {
    var queue := s.queue;
    AmongTail(queue, queue[0].id);
    AmongTail(queue, id);
    if Among(queue[1..], id) {
      var i :| 0 <= i < |queue| - 1 && Ids(queue[1..])[i] == id;
      assert queue[i + 1] in queue && Before(queue[0], queue[i + 1]);
    }
  }

  lemma {:induction false} AmongInsert(queue: seq<Scheduled>, x: Scheduled, id: nat)
    ensures Among(Insert(queue, x), id) <==> Among(queue, id) || x.id == id
  {
    if queue == [] || Before(queue[|queue| - 1], x) {
      AmongAppend(queue, x, id);
    } else {
      var front, last := queue[..|queue| - 1], queue[|queue| - 1];
      assert queue == front + [last];
      AmongInsert(front, x, id);
      AmongAppend(front, last, id);
      AmongAppend(Insert(front, x), last, id);
    }
  }

  lemma StepTracked(s: State, e: Event, id: nat)
    requires Ordered(s) && Possible(e) && Apart(s, id) && Tracked(s, id)
    ensures Apart(Step(s, e), id) && Tracked(Step(s, e), id)
  {
    match e
    case Submitted(priority, ready) => AmongInsert(s.queue, Request(s.next, priority), id);
    case Taken(ready) =>
      if s.queue != [] {
        FirstLeaves(s, id);
        AmongAppend(s.started, s.queue[0], id);
      }
    case Drained => ResolvedAll(s.futures, Ids(s.queue), Failed, id);
    case _ =>
  }

  lemma {:induction false} RunTracked(events: seq<Event>, id: nat)
    requires forall e :: e in events ==> Possible(e)
    ensures Apart(Run(IDLE, events), id) && Tracked(Run(IDLE, events), id)
  {
    if events != [] {
      var front := events[..|events| - 1];
      RunTracked(front, id);
      RunOrdered(IDLE, front);
      StepTracked(Run(IDLE, front), events[|events| - 1], id);
    }
  }

  /** No future is resolved twice. */
  lemma {:induction false} OutcomesStand(s: State, events: seq<Event>, id: nat)
    requires id in s.futures && s.futures[id].Some? && id < s.next
    ensures var t := Run(s, events); id < t.next && id in t.futures && t.futures[id] == s.futures[id]
  {
    if events != [] {
      var front, e := events[..|events| - 1], events[|events| - 1];
      OutcomesStand(s, front, id);
      if e.Drained? {
        ResolvedAll(Run(s, front).futures, Ids(Run(s, front).queue), Failed, id);
      }
    }
  }

  // --- Who asked for what, and what came of it -------------------------------------------------

  /** The priorities asked for on a connection, in the order of asking. */
  function Asked(events: seq<Event>): seq<nat> {
    if events == [] then []
    else
      var last := events[|events| - 1];
      Asked(events[..|events| - 1]) + (if last.Submitted? && last.ready then [last.priority] else [])
  }

  /** The request stands where its caller put it. */
  predicate AsAsked(r: Scheduled, asked: seq<nat>) {
    r.id < |asked| && r.content == asked[r.id]
  }

  ghost predicate AllAsAsked(s: State, asked: seq<nat>) {
    && s.next == |asked|
    && (forall r :: r in s.queue ==> AsAsked(r, asked)) && (forall r :: r in s.started ==> AsAsked(r, asked))
    && (s.running.Some? ==> AsAsked(s.running.value, asked))
  }

  lemma AskedStep(s: State, e: Event, asked: seq<nat>, more: seq<nat>)
    requires Ordered(s) && AllAsAsked(s, asked) && more == asked + (if e.Submitted? && e.ready then [e.priority] else [])
    ensures AllAsAsked(Step(s, e), more)
  {
    forall r | AsAsked(r, asked)
      ensures AsAsked(r, more)
    {
    }
    if e.Submitted? && e.ready {
      InsertSorts(s.queue, Request(s.next, e.priority));
    }
  }

  /** Accepted requests are numbered as they come in, and each waits, and starts, with the priority it was given. */
  lemma {:induction false} PrioritiesKept(events: seq<Event>)
    ensures AllAsAsked(Run(IDLE, events), Asked(events))
  {
    if events != [] {
      var front := events[..|events| - 1];
      PrioritiesKept(front);
      RunOrdered(IDLE, front);
      AskedStep(Run(IDLE, front), events[|events| - 1], Asked(front), Asked(events));
    }
  }

  /** What at this moment gives an open future its outcome. */
  predicate Causes(s: State, e: Event, id: nat, outcome: Outcome) {
    match outcome
    case Result(_) => e == Finished(outcome) && Running(s, id)
    case Raised => e == Finished(outcome) && Running(s, id)
    case NotConnected => e == Taken(false) && s.alive && s.running.None? && s.queue != [] && s.queue[0].id == id
    case Failed => e == Drained && Among(s.queue, id)
    case Cancelled => (e == TaskCancelled && Running(s, id)) || e == CallerCancelled(id)
  }

  lemma StepCauses(s: State, e: Event, id: nat, outcome: Outcome)
    requires id in s.futures && s.futures[id].None? && id < s.next && Possible(e)
    ensures id in Step(s, e).futures && (Step(s, e).futures[id] == Some(outcome) <==> Causes(s, e, id, outcome))
  {
    if e.Drained? {
      ResolvedAll(s.futures, Ids(s.queue), Failed, id);
    }
  }

  /** A caller gets the result of its own action, and any other outcome for its own reason. */
  lemma {:induction false} OutcomeExplained(events: seq<Event>, id: nat) returns (k: nat)
    requires forall e :: e in events ==> Possible(e)
    requires id in Run(IDLE, events).futures && Run(IDLE, events).futures[id].Some?
    ensures k < |events| && id in Run(IDLE, events[..k]).futures && Run(IDLE, events[..k]).futures[id].None?
    ensures Causes(Run(IDLE, events[..k]), events[k], id, Run(IDLE, events).futures[id].value)
  {
    var front, e := events[..|events| - 1], events[|events| - 1];
    var before := Run(IDLE, front);
    RunTracked(front, id);
    RunTracked(events, id);
    if id in before.futures && before.futures[id].Some? {
      k := OutcomeExplained(front, id);
      assert front[..k] == events[..k];
      OutcomesStand(before, [e], id);
      assert [e][..0] == [];
    } else {
      k := |front|;
      OpenBefore(before, e, id);
      StepCauses(before, e, id, Step(before, e).futures[id].value);
    }
  }

  /** A future is open when it is made. */
  lemma OpenBefore(s: State, e: Event, id: nat)
    requires Tracked(s, id) && id in Step(s, e).futures && Step(s, e).futures[id].Some?
    ensures id in s.futures
  {
    if e.Drained? {
      ResolvedAll(s.futures, Ids(s.queue), Failed, id);
    }
  }

  function Takes(n: nat): seq<Event> {
    seq(n, _ => Taken(true))
  }

  /** On a connection an idle worker skips what callers have given up, and starts the first request that is left. */
  lemma {:induction false} ReachesTheFirst(s: State, n: nat)
    requires s.alive && s.running.None? && n < |s.queue|
    requires (forall i :: 0 <= i < n ==> Abandoned(s, s.queue[i])) && !Abandoned(s, s.queue[n])
    ensures var t := Run(s, Takes(n + 1)); t.running == Some(s.queue[n]) && t.started == s.started + [s.queue[n]] && t.queue == s.queue[n + 1..]
    decreases n
  {
    var t := Step(s, Taken(true));
    assert Takes(n + 1) == [Taken(true)] + Takes(n);
    RunFrom(s, [Taken(true)], Takes(n));
    assert [Taken(true)][..0] == [] && Run(s, [Taken(true)]) == t;
    if n > 0 {
      forall i | 0 <= i < n - 1
        ensures Abandoned(t, t.queue[i])
      {
        assert t.queue[i] == s.queue[i + 1];
      }
      ReachesTheFirst(t, n - 1);
    }
  }

  lemma {:induction false} RunFrom(s: State, first: seq<Event>, more: seq<Event>)
    ensures Run(Run(s, first), more) == Run(s, first + more)
  {
    if more == [] {
      assert first + more == first;
    } else {
      assert (first + more)[..|first + more| - 1] == first + more[..|more| - 1];
      RunFrom(s, first, more[..|more| - 1]);
    }
  }

  /** Without a worker nothing runs, whatever else happens. */
  lemma {:induction false} StaysIdle(s: State, events: seq<Event>)
    requires !s.alive && s.running.None? && Begun !in events
    ensures !Run(s, events).alive && Run(s, events).running.None?
  {
    if events != [] {
      assert events[|events| - 1] in events;
      StaysIdle(s, events[..|events| - 1]);
    }
  }

  /**
   * Stopping leaves no accepted request unresolved, whatever happened before, and whatever is submitted
   * or given up while the worker is winding down. Only a worker started meanwhile may still be busy.
   */
  lemma StoppingResolvesAll(events: seq<Event>, meanwhile: seq<Event>, id: nat)
    requires forall e :: e in events + meanwhile ==> Possible(e)
    requires id < Run(Step(Run(IDLE, events), TaskCancelled), meanwhile).next
    ensures var s := Step(Run(Step(Run(IDLE, events), TaskCancelled), meanwhile), Drained);
            && s.queue == [] && id in s.futures && (s.futures[id].None? ==> Running(s, id))
            && (Begun !in meanwhile ==> s.running.None? && s.futures[id].Some?)
  {
    var all := events + [TaskCancelled] + meanwhile;
    assert (events + [TaskCancelled])[..|events|] == events;
    RunFrom(IDLE, events + [TaskCancelled], meanwhile);
    if Begun !in meanwhile {
      StaysIdle(Step(Run(IDLE, events), TaskCancelled), meanwhile);
    }
    assert forall e :: e in all ==> e in events + meanwhile || e == TaskCancelled;
    RunTracked(all, id);
    RunOrdered(IDLE, all);
    StepTracked(Run(IDLE, all), Drained, id);
  }
}
