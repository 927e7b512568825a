/** Budgeted history retrieval (backend/pc_client/history_sync.py). */
module HistorySync {
  import opened Words
  import opened ProtocolClient
  import Device

  type Count = n: nat | 1 <= n witness 1

  /** Metadata always describes every sensor. */
  type DeviceMeta = m: HistoryMeta | |m.counts| == |m.oldest| == Device.SENSOR_COUNT
    witness HistoryMeta(0, 0, [0, 0], [0, 0])

  datatype ChunkRequest = ChunkRequest(sensor: nat, start: u32, count: nat)

  /** How one chunk call ends; `Raised` says whether the device reported NOT_AVAILABLE. */
  datatype FetchResult = Arrived(chunk: HistoryChunk) | TimedOut | Raised(notAvailable: bool)

  datatype Refresh = Renewed(meta: DeviceMeta) | RefreshRaised

  /**
   * Everything outside the loop, indexed by the number of interactions so far: clock readings,
   * answers to chunk requests, refreshed metadata and the client's current chunk size.
   */
  datatype World = World(
    clock: nat -> int,
    fetch: (nat, ChunkRequest) -> FetchResult,
    refresh: nat -> Refresh,
    chunkSize: nat -> Count,
    deadline: int,
    retries: nat
  )

  datatype Failing =
    | LostRecords(sensor: nat, lost: nat)
    | RefreshFailed(sensor: nat)
    | ChunkFailed(sensor: nat)
    | BudgetExceeded
    | Rebooted

  /** The loop's variables. */
  datatype Sync = Sync(
    pending: seq<nat>,
    remaining: map<nat, nat>,
    next: map<nat, u32>,
    records: map<(nat, u32), HistoryValue>,
    retrieved: seq<nat>,
    failures: seq<Failing>,
    expired: bool,
    k: nat
  )

  // --- Checking one chunk -----------------------------------------------------------

  predicate Numbered(records: seq<HistoryValue>, start: u32) {
    forall i :: 0 <= i < |records| ==> records[i].sequence == Wrap32(start + i)
  }

  predicate Acceptable(chunk: HistoryChunk, request: ChunkRequest) {
    && chunk.sensor == request.sensor && chunk.start == request.start
    && 0 < |chunk.records| <= request.count
    && Numbered(chunk.records, request.start)
  }

  /** `validate_chunk`: accepts exactly the non-empty contiguous answers to the request. */
  method ValidateChunk(chunk: HistoryChunk, request: ChunkRequest) returns (valid: bool)
    ensures valid <==> Acceptable(chunk, request)
  {
    if chunk.sensor != request.sensor || chunk.start != request.start {
      return false;
    }
    if |chunk.records| == 0 || |chunk.records| > request.count {
      return false;
    }
    var expected := request.start;
    for i := 0 to |chunk.records|
      invariant expected == Wrap32(request.start + i)
      invariant forall j :: 0 <= j < i ==> chunk.records[j].sequence == Wrap32(request.start + j)
    {
      if chunk.records[i].sequence != expected {
        return false;
      }
      WrapAdd(request.start + i, 1);
      expected := Wrap32(expected as int + 1);
    }
    valid := true;
  }

  // --- One sensor's turn ----------------------------------------------------------------

  datatype Attempt = Got(chunk: HistoryChunk) | OutOfTime | GaveUp(notAvailable: bool)

  /** One guarded call: an exhausted budget shows as a timeout. */
  function Call(w: World, k: nat, request: ChunkRequest): FetchResult {
    if w.clock(k) >= w.deadline then TimedOut else w.fetch(k, request)
  }

  /** The retry loop with `left` retries to go; also returns the interactions used. */
  function Attempts(w: World, request: ChunkRequest, k: nat, left: nat): (r: (Attempt, nat))
    ensures r.0.Got? ==> Acceptable(r.0.chunk, request)
    decreases left
  {
    match Call(w, k, request)
    case TimedOut => (OutOfTime, k + 1)
    case Arrived(chunk) =>
      if Acceptable(chunk, request) then (Got(chunk), k + 1)
      else if left == 0 then (GaveUp(false), k + 1) else Attempts(w, request, k + 1, left - 1)
    case Raised(notAvailable) =>
      if notAvailable || left == 0 then (GaveUp(notAvailable), k + 1) else Attempts(w, request, k + 1, left - 1)
  }

  function Store(records: map<(nat, u32), HistoryValue>, sensor: nat, values: seq<HistoryValue>)
    : map<(nat, u32), HistoryValue>
  {
    if values == [] then records
    else
      var front, last := values[..|values| - 1], values[|values| - 1];
      Store(records, sensor, front)[(sensor, last.sequence) := last]
  }

  function Requeue(rest: seq<nat>, sensor: nat, remaining: nat): seq<nat> {
    if remaining > 0 then rest + [sensor] else rest
  }

  predicate Sensor(meta: DeviceMeta, sensor: nat) {
    1 <= sensor <= Device.SENSOR_COUNT && meta.counts[sensor - 1] > 0
  }

  /** The queue holds distinct sensors that still have something to fetch. */
  ghost predicate Shaped(meta: DeviceMeta, s: Sync) {
    && |s.retrieved| == Device.SENSOR_COUNT
    && (forall sensor :: Sensor(meta, sensor) <==> sensor in s.remaining)
    && s.next.Keys == s.remaining.Keys
    && (forall i :: 0 <= i < |s.pending| ==> s.pending[i] in s.remaining && s.remaining[s.pending[i]] > 0)
    && (forall i, j :: 0 <= i < j < |s.pending| ==> s.pending[i] != s.pending[j])
  }

  /** Bookkeeping for an accepted chunk. */
  function Accept(meta: DeviceMeta, s: Sync, request: ChunkRequest, chunk: HistoryChunk, k: nat): Sync
    requires Shaped(meta, s) && s.pending != [] && request.sensor == s.pending[0]
    requires Acceptable(chunk, request) && request.count <= s.remaining[request.sensor]
  {
    var sensor, n := request.sensor, |chunk.records|;
    var left := s.remaining[sensor] - n;
    s.(records := Store(s.records, sensor, chunk.records),
       retrieved := s.retrieved[sensor - 1 := s.retrieved[sensor - 1] + n],
       remaining := s.remaining[sensor := left],
       next := s.next[sensor := Wrap32(request.start + n)],
       pending := Requeue(s.pending[1..], sensor, left),
       k := k)
  }

  /** Skip records the device has overwritten: the surviving suffix is still fetched. */
  function Salvage(meta: DeviceMeta, s: Sync, sensor: nat, oldest: u32, lost: nat, k: nat): Sync
    requires Shaped(meta, s) && s.pending != [] && sensor == s.pending[0]
    requires 0 < lost < s.remaining[sensor]
  {
    s.(remaining := s.remaining[sensor := s.remaining[sensor] - lost],
       next := s.next[sensor := oldest],
       failures := s.failures + [LostRecords(sensor, lost)],
       pending := s.pending[1..] + [sensor],
       k := k)
  }

  /** The failure path: perhaps refresh the metadata, then salvage or drop the sensor. */
  function GiveUp(meta: DeviceMeta, w: World, s: Sync, request: ChunkRequest, notAvailable: bool, k: nat): Sync
    requires Shaped(meta, s) && s.pending != [] && request.sensor == s.pending[0]
  {
    var sensor := request.sensor;
    var dropped := s.(pending := s.pending[1..], failures := s.failures + [ChunkFailed(sensor)], k := k);
    if !notAvailable then dropped
    else if w.clock(k) >= w.deadline then dropped.(k := k + 1)
    else if w.clock(k + 1) >= w.deadline || w.refresh(k + 1).RefreshRaised? then
      dropped.(failures := s.failures + [RefreshFailed(sensor), ChunkFailed(sensor)], k := k + 2)
    else
      var renewed := w.refresh(k + 1).meta;
      var lost := Wrap32(renewed.oldest[sensor - 1] - request.start);
      if renewed.bootId == meta.bootId && 0 < lost < s.remaining[sensor]
      then Salvage(meta, s, sensor, renewed.oldest[sensor - 1], lost, k + 2)
      else dropped.(k := k + 2)
  }

  function RequestFor(w: World, meta: DeviceMeta, s: Sync): ChunkRequest
    requires Shaped(meta, s) && s.pending != []
  {
    var sensor := s.pending[0];
    var size := w.chunkSize(s.k + 1);
    ChunkRequest(sensor, s.next[sensor], if size < s.remaining[sensor] then size else s.remaining[sensor])
  }

  /** The request asks for the front sensor's next records, and a chunk answers it. */
  predicate Fitting(meta: DeviceMeta, s: Sync, request: ChunkRequest, attempt: Attempt)
    requires Shaped(meta, s) && s.pending != []
  {
    && request.sensor == s.pending[0] && request.start == s.next[request.sensor]
    && request.count <= s.remaining[request.sensor]
    && (attempt.Got? ==> Acceptable(attempt.chunk, request))
  }

  /** The part of a pass after its chunk call. */
  function Conclude(meta: DeviceMeta, w: World, s: Sync, request: ChunkRequest, attempt: Attempt, k: nat): Sync
    requires Shaped(meta, s) && s.pending != [] && Fitting(meta, s, request, attempt)
  {
    match attempt
    case OutOfTime => s.(pending := s.pending[1..], expired := true, k := k)
    case Got(chunk) => Accept(meta, s, request, chunk, k)
    case GaveUp(notAvailable) => GiveUp(meta, w, s, request, notAvailable, k)
  }

  /** One pass of the transfer loop. */
  function Step(meta: DeviceMeta, w: World, s: Sync): (t: Sync)
    requires Shaped(meta, s) && s.pending != []
  {
    var request := RequestFor(w, meta, s);
    var (attempt, k) := Attempts(w, request, s.k + 2, w.retries);
    Conclude(meta, w, s, request, attempt, k)
  }

  predicate Running(w: World, s: Sync) {
    s.pending != [] && !s.expired && w.clock(s.k) < w.deadline
  }

  // --- Termination without a clock ---------------------------------------------------------

  /** Records still to be fetched by the queued sensors. */
  function Backlog(pending: seq<nat>, remaining: map<nat, nat>): nat
    requires forall i :: 0 <= i < |pending| ==> pending[i] in remaining
  {
    if pending == [] then 0 else remaining[pending[0]] + Backlog(pending[1..], remaining)
  }

  lemma {:induction false} BacklogAppend(pending: seq<nat>, sensor: nat, remaining: map<nat, nat>)
    requires forall i :: 0 <= i < |pending| ==> pending[i] in remaining
    requires sensor in remaining
    ensures Backlog(pending + [sensor], remaining) == Backlog(pending, remaining) + remaining[sensor]
  {
    if pending == [] {
      assert [sensor][1..] == [];
    } else {
      assert (pending + [sensor])[1..] == pending[1..] + [sensor];
      BacklogAppend(pending[1..], sensor, remaining);
    }
  }

  lemma {:induction false} BacklogFrame(pending: seq<nat>, sensor: nat, remaining: map<nat, nat>, n: nat)
    requires forall i :: 0 <= i < |pending| ==> pending[i] in remaining && pending[i] != sensor
    ensures Backlog(pending, remaining[sensor := n]) == Backlog(pending, remaining)
  {
    if pending != [] {
      BacklogFrame(pending[1..], sensor, remaining, n);
    }
  }

  /** What any turn does to the queue: the sensor leaves it, or stays with less to fetch. */
  ghost predicate Turn(s: Sync, t: Sync)
    requires s.pending != [] && s.pending[0] in s.remaining
  {
    var sensor, rest := s.pending[0], s.pending[1..];
    && |t.retrieved| == |s.retrieved|
    && t.next.Keys == s.next.Keys + {sensor}
    && sensor in t.remaining && t.remaining == s.remaining[sensor := t.remaining[sensor]]
    && (t.pending == rest || (t.pending == rest + [sensor] && 0 < t.remaining[sensor] < s.remaining[sensor]))
  }

  lemma TurnShrinks(meta: DeviceMeta, s: Sync, t: Sync)
    requires Shaped(meta, s) && s.pending != [] && Turn(s, t)
    ensures Shaped(meta, t)
    ensures Backlog(t.pending, t.remaining) < Backlog(s.pending, s.remaining)
  {
    var sensor, rest := s.pending[0], s.pending[1..];
    assert forall i :: 0 <= i < |rest| ==> rest[i] == s.pending[i + 1];
    BacklogFrame(rest, sensor, s.remaining, t.remaining[sensor]);
    if t.pending != rest {
      BacklogAppend(rest, sensor, t.remaining);
    }
  }

  /** Whatever the replies, one pass keeps the queue well formed and shrinks the backlog. */
  lemma StepProgress(meta: DeviceMeta, w: World, s: Sync)
    requires Shaped(meta, s) && s.pending != []
    ensures Shaped(meta, Step(meta, w, s)) && Turn(s, Step(meta, w, s))
    ensures Backlog(Step(meta, w, s).pending, Step(meta, w, s).remaining) < Backlog(s.pending, s.remaining)
  {
    StepTurns(meta, w, s);
    TurnShrinks(meta, s, Step(meta, w, s));
  }

  lemma StepTurns(meta: DeviceMeta, w: World, s: Sync)
    requires Shaped(meta, s) && s.pending != []
    ensures Turn(s, Step(meta, w, s))
  {
    var request := RequestFor(w, meta, s);
    var (attempt, k) := Attempts(w, request, s.k + 2, w.retries);
    assert Step(meta, w, s) == Conclude(meta, w, s, request, attempt, k);
    ConcludeTurns(meta, w, s, request, attempt, k);
  }

  lemma ConcludeTurns(meta: DeviceMeta, w: World, s: Sync, request: ChunkRequest, attempt: Attempt, k: nat)
    requires Shaped(meta, s) && s.pending != [] && Fitting(meta, s, request, attempt)
    ensures Turn(s, Conclude(meta, w, s, request, attempt, k))
  {
    assert s.next.Keys == s.next.Keys + {s.pending[0]};
    assert s.remaining == s.remaining[s.pending[0] := s.remaining[s.pending[0]]];
  }

  /** The whole transfer loop. */
  function RunLoop(meta: DeviceMeta, w: World, s: Sync): (t: Sync)
    requires Shaped(meta, s)
    ensures Shaped(meta, t) && !Running(w, t)
    decreases Backlog(s.pending, s.remaining)
  {
    if !Running(w, s) then s
    else
      StepProgress(meta, w, s);
      RunLoop(meta, w, Step(meta, w, s))
  }

  // --- Fairness: the queue is served round robin ------------------------------------------

  /** The front sensor is served and either leaves or goes to the back. */
  ghost predicate Moves(queue: seq<nat>, later: seq<nat>) {
    queue != [] && (later == queue[1..] || later == queue[1..] + [queue[0]])
  }

  predicate Distinct(queue: seq<nat>) {
    forall i, j :: 0 <= i < j < |queue| ==> queue[i] != queue[j]
  }

  ghost predicate Rotates(trail: seq<seq<nat>>) {
    trail != [] && Distinct(trail[0]) && forall k :: 0 <= k < |trail| - 1 ==> Moves(trail[k], trail[k + 1])
  }

  lemma MovesKeepDistinct(queue: seq<nat>, later: seq<nat>)
    requires Moves(queue, later) && Distinct(queue)
    ensures Distinct(later)
  {
    var rest := queue[1..];
    assert forall k :: 0 <= k < |rest| ==> rest[k] == queue[k + 1];
  }

  lemma {:induction false} DistinctAlong(trail: seq<seq<nat>>, n: nat)
    requires Rotates(trail) && n < |trail|
    ensures Distinct(trail[n])
  {
    if n > 0 {
      DistinctAlong(trail, n - 1);
      assert Moves(trail[n - 1], trail[n - 1 + 1]);
      MovesKeepDistinct(trail[n - 1], trail[n]);
    }
  }

  /** Who is waiting moves up one place per pass; the queue never gains a new sensor. */
  lemma {:induction false} QueueAhead(trail: seq<seq<nat>>, i: nat, n: nat)
    requires Rotates(trail) && i + n < |trail|
    ensures n <= |trail[i]| ==> trail[i][n..] <= trail[i + n]
    ensures forall x :: x in trail[i + n] ==> x in trail[i]
  {
    if n > 0 {
      QueueAhead(trail, i, n - 1);
      assert Moves(trail[i + n - 1], trail[i + n - 1 + 1]);
      if n <= |trail[i]| {
        assert trail[i][n - 1..][1..] == trail[i][n..];
        assert trail[i + n - 1][..|trail[i]| - n + 1] == trail[i][n - 1..];
      }
    }
  }

  /** The sensor waiting at place `n` is served exactly `n` passes later. */
  lemma ServedInOrder(trail: seq<seq<nat>>, i: nat, n: nat)
    requires Rotates(trail) && i + n < |trail| - 1 && n < |trail[i]|
    ensures trail[i + n] != [] && trail[i + n][0] == trail[i][n]
  {
    QueueAhead(trail, i, n);
    assert trail[i][n..][0] == trail[i][n];
  }

  /** Between two services of one sensor, every other sensor is served at most once. */
  lemma RoundRobin(trail: seq<seq<nat>>, i: nat, j: nat, a: nat, b: nat)
    requires Rotates(trail) && i < a < b < j < |trail| - 1
    requires forall m :: i <= m <= j ==> trail[m] != []
    requires trail[i][0] == trail[j][0] && forall m :: i < m < j ==> trail[m][0] != trail[i][0]
    ensures trail[a][0] != trail[b][0]
  {
    var x, rest := trail[i][0], trail[i][1..];
    DistinctAlong(trail, i);
    DistinctAlong(trail, i + 1);
    assert Moves(trail[i], trail[i + 1]);
    QueueAhead(trail, i + 1, j - i - 1);
    assert trail[i + 1 + (j - i - 1)] == trail[j] && x in trail[j];
    assert x in trail[i + 1];
    assert forall k :: 0 <= k < |rest| ==> rest[k] == trail[i][k + 1];
    assert trail[i + 1] == rest + [x];
    if i + 1 + |rest| < j {
      ServedInOrder(trail, i + 1, |rest|);
    }
    ServedInOrder(trail, i + 1, a - i - 1);
    ServedInOrder(trail, i + 1, b - i - 1);
  }

  /** The queue before each pass of the transfer loop, and at its end. */
  function Trail(meta: DeviceMeta, w: World, s: Sync): (trail: seq<seq<nat>>)
    requires Shaped(meta, s)
    ensures trail != [] && trail[0] == s.pending
    decreases Backlog(s.pending, s.remaining)
  {
    if !Running(w, s) then [s.pending]
    else
      StepProgress(meta, w, s);
      [s.pending] + Trail(meta, w, Step(meta, w, s))
  }

  /** Any run of the loop, whatever the replies, serves its queue round robin. */
  lemma {:induction false} TransferRotates(meta: DeviceMeta, w: World, s: Sync)
    requires Shaped(meta, s)
    ensures Rotates(Trail(meta, w, s))
    ensures forall k :: 0 <= k < |Trail(meta, w, s)| - 1 ==> Trail(meta, w, s)[k] != []
    decreases Backlog(s.pending, s.remaining)
  {
    if Running(w, s) {
      StepProgress(meta, w, s);
      var t := Step(meta, w, s);
      TransferRotates(meta, w, t);
      TrailGrows(s.pending, Trail(meta, w, t));
    }
  }

  lemma TrailGrows(queue: seq<nat>, trail: seq<seq<nat>>)
    requires Rotates(trail) && Distinct(queue) && Moves(queue, trail[0])
    requires forall k :: 0 <= k < |trail| - 1 ==> trail[k] != []
    ensures Rotates([queue] + trail)
    ensures forall k :: 0 <= k < |trail| ==> ([queue] + trail)[k] != []
  {
    var longer := [queue] + trail;
    forall k | 0 <= k < |longer| - 1
      ensures Moves(longer[k], longer[k + 1])
    {
      if k > 0 {
        assert Moves(trail[k - 1], trail[k - 1 + 1]);
      }
    }
  }

  /** The sensors with something to fetch, in order. */
  function Queue(meta: DeviceMeta): seq<nat> {
    (if meta.counts[0] > 0 then [1] else []) + (if meta.counts[1] > 0 then [2] else [])
  }

  function Start(meta: DeviceMeta, k: nat): (s: Sync)
    ensures Shaped(meta, s)
  {
    Sync(Queue(meta),
         map sensor | sensor in Queue(meta) :: meta.counts[sensor - 1] as nat,
         map sensor | sensor in Queue(meta) :: meta.oldest[sensor - 1],
         map[], [0, 0], [], false, k)
  }

  // --- The loop as code ------------------------------------------------------------------------

  method StoreAll(records: map<(nat, u32), HistoryValue>, sensor: nat, values: seq<HistoryValue>)
    returns (stored: map<(nat, u32), HistoryValue>)
    ensures stored == Store(records, sensor, values)
  {
    stored := records;
    for i := 0 to |values|
      invariant stored == Store(records, sensor, values[..i])
    {
      assert values[..i + 1][..i] == values[..i];
      stored := stored[(sensor, values[i].sequence) := values[i]];
    }
    assert values[..|values|] == values;
  }

  /** The retry loop of one turn. */
  method TryChunk(w: World, request: ChunkRequest, first: nat) returns (attempt: Attempt, k: nat)
    ensures (attempt, k) == Attempts(w, request, first, w.retries)
  {
    k := first;
    var left := w.retries;
    while true
      invariant Attempts(w, request, first, w.retries) == Attempts(w, request, k, left)
      decreases left
    {
      var outcome := Call(w, k, request);
      k := k + 1;
      match outcome {
        case TimedOut =>
          return OutOfTime, k;
        case Arrived(chunk) =>
          var valid := ValidateChunk(chunk, request);
          if valid {
            return Got(chunk), k;
          }
        case Raised(notAvailable) =>
          if notAvailable {
            return GaveUp(true), k;
          }
      }
      if left == 0 {
        return GaveUp(false), k;
      }
      left := left - 1;
    }
  }

  /** The transfer loop: round robin over the sensors, oldest records first. */
  method Transfer(meta: DeviceMeta, w: World, first: nat) returns (s: Sync)
    ensures s == RunLoop(meta, w, Start(meta, first))
  {
    s := Start(meta, first);
    while s.pending != [] && !s.expired && w.clock(s.k) < w.deadline
      invariant Shaped(meta, s)
      invariant RunLoop(meta, w, s) == RunLoop(meta, w, Start(meta, first))
      decreases Backlog(s.pending, s.remaining)
    {
      StepProgress(meta, w, s);
      s := OneTurn(meta, w, s);
    }
  }

  /** The body of the loop. */
  method OneTurn(meta: DeviceMeta, w: World, s: Sync) returns (t: Sync)
    requires Shaped(meta, s) && s.pending != []
    ensures t == Step(meta, w, s)
  {
    var sensor := s.pending[0];
    var size := w.chunkSize(s.k + 1);
    var count := if size < s.remaining[sensor] then size else s.remaining[sensor];
    var request := ChunkRequest(sensor, s.next[sensor], count);
    assert request == RequestFor(w, meta, s);
    var attempt, k := TryChunk(w, request, s.k + 2);
    assert Step(meta, w, s) == Conclude(meta, w, s, request, attempt, k);
    t := Finish(meta, w, s, request, attempt, k);
  }

  method Finish(meta: DeviceMeta, w: World, s: Sync, request: ChunkRequest, attempt: Attempt, k: nat) returns (t: Sync)
    requires Shaped(meta, s) && s.pending != [] && Fitting(meta, s, request, attempt)
    ensures t == Conclude(meta, w, s, request, attempt, k)
  {
    match attempt {
      case OutOfTime =>
        t := s.(pending := s.pending[1..], expired := true, k := k);
      case GaveUp(notAvailable) =>
        t := RecoverOrDrop(meta, w, s, request, notAvailable, k);
      case Got(chunk) =>
        t := AcceptChunk(meta, s, request, chunk, k);
    }
  }

  /** A turn that ends without a chunk, one assignment after another. */
  method RecoverOrDrop(meta: DeviceMeta, w: World, s: Sync, request: ChunkRequest, notAvailable: bool, first: nat)
    returns (t: Sync)
    requires Shaped(meta, s) && s.pending != [] && request.sensor == s.pending[0]
    ensures t == GiveUp(meta, w, s, request, notAvailable, first)
  {
    var sensor, k, failures := request.sensor, first, s.failures;
    if notAvailable {
      k := k + 1;
      if w.clock(first) < w.deadline {
        k := k + 1;
        if w.clock(first + 1) >= w.deadline || w.refresh(first + 1).RefreshRaised? {
          failures := failures + [RefreshFailed(sensor)];
        } else {
          var renewed := w.refresh(first + 1).meta;
          if renewed.bootId == meta.bootId {
            var oldest := renewed.oldest[sensor - 1];
            var lost := Wrap32(oldest - request.start);
            if 0 < lost < s.remaining[sensor] {
              failures := failures + [LostRecords(sensor, lost)];
              t := s.(remaining := s.remaining[sensor := s.remaining[sensor] - lost],
                      next := s.next[sensor := oldest], failures := failures,
                      pending := s.pending[1..] + [sensor], k := k);
              return;
            }
          }
        }
      }
    }
    failures := failures + [ChunkFailed(sensor)];
    t := s.(pending := s.pending[1..], failures := failures, k := k);
  }

  /** A turn that ends with a chunk, one assignment after another. */
  method AcceptChunk(meta: DeviceMeta, s: Sync, request: ChunkRequest, chunk: HistoryChunk, k: nat) returns (t: Sync)
    requires Shaped(meta, s) && s.pending != [] && request.sensor == s.pending[0]
    requires Acceptable(chunk, request) && request.count <= s.remaining[request.sensor]
    ensures t == Accept(meta, s, request, chunk, k)
  {
    var sensor, n := request.sensor, |chunk.records|;
    var records := StoreAll(s.records, sensor, chunk.records);
    var retrieved := s.retrieved[sensor - 1 := s.retrieved[sensor - 1] + n];
    var remaining := s.remaining[sensor := s.remaining[sensor] - n];
    var next := s.next[sensor := Wrap32(request.start + n)];
    var pending := s.pending[1..];
    if remaining[sensor] > 0 {
      pending := pending + [sensor];
    }
    t := s.(records := records, retrieved := retrieved, remaining := remaining, next := next, pending := pending, k := k);
  }
}
