/** The history recovery path end to end: firmware rings, wire and synchronizer together. */
module Recovery {
  import opened Words
  import opened HistoryBuffers
  import opened ApplicationAuth
  import opened Wire
  import opened ProtocolServer
  import opened ProtocolClient
  import opened RoundTrip
  import opened HistorySync
  import opened Retries
  import Accounts = HistoryAccounting
  import Runs = ProtocolRuns
  import Device

  /**
   * What may happen on the device between two chunk requests: sampling, readings and buttons,
   * and any request except metadata and the two authentication opcodes.
   */
  predicate Harmless(t: Runs.Stamped) {
    && Runs.Allowed(t)
    && !Runs.Boundary(t)
    && (t.input.Request? ==> OpcodeOf(t.input.bytes) !in {GET_HISTORY_META, AUTH_BEGIN, AUTH_PROVE})
  }

  type HarmlessInput = t: Runs.Stamped | Harmless(t) witness Runs.Stamped(0, Runs.DisconnectTaken)

  /** The surroundings of one transfer, indexed by interaction. */
  datatype Surroundings = Surroundings(
    between: nat -> seq<HarmlessInput>,
    ambient: nat -> Ambient,
    requestId: nat -> u16,
    mtu: nat -> nat,
    compact: nat -> bool,
    mishap: nat -> Option<Mishap>,
    clock: nat -> int,
    deadline: int,
    retries: nat
  )

  /** How a call may fail on its way: no answer in time, any other failure, or an answer that does not fit. */
  datatype Mishap = Unanswered | Broken | Garbled(chunk: HistoryChunk)

  function Suffered(mishap: Option<Mishap>, request: ChunkRequest, answer: FetchResult): FetchResult {
    match mishap
    case None => answer
    case Some(Unanswered) => TimedOut
    case Some(Broken) => Raised(false)
    case Some(Garbled(chunk)) => if Acceptable(chunk, request) then Raised(false) else Arrived(chunk)
  }

  ghost predicate Passes(mishap: nat -> Option<Mishap>, k: nat, retries: nat) {
    exists j :: k <= j <= k + retries && mishap(j).None?
  }

  /** Never more than `retries` calls in a row fail, and none of them uses up the time. */
  ghost predicate Bearable(mishap: nat -> Option<Mishap>, retries: nat) {
    && (forall k :: mishap(k) != Some(Unanswered))
    && (forall k :: Passes(mishap, k, retries))
  }

  lemma {:induction false} FirstPass(mishap: nat -> Option<Mishap>, k: nat, retries: nat) returns (n: nat)
    requires Passes(mishap, k, retries)
    ensures n <= retries && mishap(k + n).None? && forall i :: k <= i < k + n ==> mishap(i).Some?
    decreases retries
  {
    if mishap(k).None? {
      n := 0;
    } else {
      n := FirstPass(mishap, k + 1, retries - 1);
      n := n + 1;
    }
  }

  /** In such surroundings some call of every turn gets through, after failures that a repetition mends. */
  lemma CallPasses(w: World, request: ChunkRequest, k: nat, mishap: nat -> Option<Mishap>, answers: nat -> FetchResult) returns (n: nat)
    requires Bearable(mishap, w.retries) && forall i :: w.clock(i) < w.deadline
    requires forall i :: w.fetch(i, request) == Suffered(mishap(i), request, answers(i))
    ensures n <= w.retries && AllRetryable(w, request, k, n) && w.fetch(k + n, request) == answers(k + n)
  {
    assert Passes(mishap, k, w.retries);
    n := FirstPass(mishap, k, w.retries);
  }

  function After(c: Config, s: Server, inputs: seq<HarmlessInput>): (t: Server)
    requires WellFormed(s)
    ensures WellFormed(t)
    decreases |inputs|
  {
    if inputs == [] then s else After(c, Runs.Next(c, s, inputs[0]), inputs[1..])
  }

  /** The device when interaction `k` reaches it. */
  function DeviceAt(c: Config, s: Server, e: Surroundings, k: nat): (t: Server)
    requires WellFormed(s)
    ensures WellFormed(t)
  {
    if k == 0 then After(c, s, e.between(0)) else After(c, DeviceAt(c, s, e, k - 1), e.between(k))
  }

  /** `get_history_chunk` against the device: the count is capped, the answer decoded. */
  function Fetch(c: Config, s: Server, env: Ambient, id: u16, request: ChunkRequest, mtu: nat, compact: bool): FetchResult
    requires WellFormed(s)
  {
    if !KnownSensor(request.sensor) || request.count == 0 then Raised(false)
    else
      match FetchedChunk(c, s, env, id, request.sensor, request.start, Capped(request, mtu, compact), MAX_PACKET_SIZE, compact)
      case Success(chunk) => Arrived(chunk)
      case Failure(error) => Raised(error == ProtocolError(Some(NotAvailable)))
  }

  /** What a chunk call brings, at any time, if nothing befalls it. */
  function FetchAt(c: Config, s: Server, e: Surroundings, request: ChunkRequest): nat -> FetchResult
    requires WellFormed(s)
  {
    (k: nat) => Fetch(c, DeviceAt(c, s, e, k), e.ambient(k), e.requestId(k), request, e.mtu(k), e.compact(k))
  }

  /** The synchronizer's world when its client talks to this device. */
  function WorldOf(c: Config, s: Server, e: Surroundings): World
    requires WellFormed(s)
  {
    World(e.clock,
          (k: nat, request) => Suffered(e.mishap(k), request, FetchAt(c, s, e, request)(k)),
          (k: nat) => RefreshRaised,
          (k: nat) => RecordsPerChunk(e.mtu(k), e.compact(k)),
          e.deadline, e.retries)
  }

  // --- The frozen rings survive -------------------------------------------------------------

  /** The rings are frozen as given, and the session may read them. */
  ghost predicate Serving(s: Server, frozen: seq<seq<Record>>) {
    WellFormed(s) && s.auth.session.authenticated && s.device.frozenValid && s.device.frozen == frozen
  }

  lemma HarmlessStep(c: Config, s: Server, t: Runs.Stamped, frozen: seq<seq<Record>>)
    requires Serving(s, frozen) && Harmless(t)
    ensures Serving(Runs.Next(c, s, t), frozen)
  {
  }

  lemma {:induction false} HarmlessSteps(c: Config, s: Server, inputs: seq<HarmlessInput>, frozen: seq<seq<Record>>)
    requires Serving(s, frozen)
    ensures Serving(After(c, s, inputs), frozen)
    decreases |inputs|
  {
    if inputs != [] {
      HarmlessStep(c, s, inputs[0], frozen);
      HarmlessSteps(c, Runs.Next(c, s, inputs[0]), inputs[1..], frozen);
    }
  }

  /** Sampling goes on, the display is switched, yet every chunk request sees the frozen rings. */
  lemma {:induction false} StillServing(c: Config, s: Server, e: Surroundings, k: nat, frozen: seq<seq<Record>>)
    requires Serving(s, frozen)
    ensures Serving(DeviceAt(c, s, e, k), frozen)
  {
    if k == 0 {
      HarmlessSteps(c, s, e.between(0), frozen);
    } else {
      StillServing(c, s, e, k - 1, frozen);
      HarmlessSteps(c, DeviceAt(c, s, e, k - 1), e.between(k), frozen);
    }
  }

  // --- One fetch -----------------------------------------------------------------------------

  /** Reading on from record `i` of a contiguous window. */
  lemma SliceAhead(window: seq<Record>, limit: nat, i: nat)
    requires Device.Contiguous(window) && i < |window| <= 0xFFFF && 0 < limit
    ensures var records := Slice(window, window[i].sequence, limit);
            && 0 < |records| <= limit && i + |records| <= |window|
            && records == window[i..i + |records|]
            && Numbered(Meanings(records), window[i].sequence)
  {
    Device.DistinctSequences(window);
    FoundAt(window, window[i].sequence, i);
    var records := Slice(window, window[i].sequence, limit);
    forall j | 0 <= j < |records|
      ensures Meanings(records)[j].sequence == Wrap32(window[i].sequence + j)
    {
      SliceNumbered(window, window[i].sequence, limit, j);
    }
  }

  function Capped(request: ChunkRequest, mtu: nat, compact: bool): u8
    requires 0 < request.count
  {
    var size := RecordsPerChunk(mtu, compact);
    if request.count < size then request.count else size
  }

  /** The chunk that brings up to `limit` records of a window from the requested start on. */
  function ChunkOf(window: seq<Record>, request: ChunkRequest, limit: nat): FetchResult
    requires KnownSensor(request.sensor)
  {
    var records := Slice(window, request.start, limit);
    if records == [] then Raised(true) else Arrived(HistoryChunk(request.sensor, request.start, Meanings(records)))
  }

  /** What a fetch yields, in terms of the served window. */
  lemma FetchIs(c: Config, s: Server, env: Ambient, id: u16, request: ChunkRequest, mtu: nat, compact: bool)
    requires WellFormed(s) && s.auth.session.authenticated && KnownSensor(request.sensor) && 0 < request.count
    requires Device.Contiguous(Device.Served(s.device, request.sensor))
    ensures Fetch(c, s, env, id, request, mtu, compact)
         == ChunkOf(Device.Served(s.device, request.sensor), request, ChunkLimit(Capped(request, mtu, compact), MAX_PACKET_SIZE, compact))
  {
    ChunkFetched(c, s, env, id, request.sensor, request.start, Capped(request, mtu, compact), MAX_PACKET_SIZE, compact);
  }

  lemma CappedMaximal(request: ChunkRequest, mtu: nat, compact: bool, held: nat)
    requires 0 < request.count && 0 < held && 23 <= mtu
    ensures Maximal(Min(ChunkLimit(Capped(request, mtu, compact), MAX_PACKET_SIZE, compact), held), request.count, compact, mtu - 1, held)
  {
  }

  lemma ChunkOfBrings(ring: seq<Record>, request: ChunkRequest, limit: nat, compact: bool, capacity: int, i: nat)
    requires KnownSensor(request.sensor) && Device.Contiguous(ring) && i < |ring| <= 0xFFFF && ring[i].sequence == request.start && 0 < limit
    requires Maximal(Min(limit, |ring| - i), request.count, compact, capacity, |ring| - i)
    ensures var r := ChunkOf(ring, request, limit);
            r.Arrived? && Brings(r.chunk, ring, request.sensor, i, request.count, compact, capacity)
  {
    SliceBrings(ring, request.sensor, i, limit, request.count, compact, capacity);
  }

  /** A chunk call brings as many of the records asked for as one ATT read response holds. */
  lemma FetchIsMaximal(c: Config, s: Server, env: Ambient, id: u16, request: ChunkRequest, mtu: nat, compact: bool,
                       ring: seq<Record>, i: nat)
    requires WellFormed(s) && s.auth.session.authenticated && KnownSensor(request.sensor) && 0 < request.count && 23 <= mtu
    requires ring == RingRead(s.device, request.sensor) && Device.Contiguous(ring) && i < |ring| <= 0xFFFF && ring[i].sequence == request.start
    ensures var r := Fetch(c, s, env, id, request, mtu, compact);
            r.Arrived? && Brings(r.chunk, ring, request.sensor, i, request.count, compact, mtu - 1)
  {
    FetchIs(c, s, env, id, request, mtu, compact);
    CappedMaximal(request, mtu, compact, |ring| - i);
    ChunkOfBrings(ring, request, ChunkLimit(Capped(request, mtu, compact), MAX_PACKET_SIZE, compact), compact, mtu - 1, i);
  }

  // --- The transfer without disturbance -------------------------------------------------------

  /** What is stored for sensor `x` is the meaning of its frozen records. */
  ghost predicate Right(records: map<(nat, u32), HistoryValue>, x: nat, window: seq<Record>) {
    forall j :: 0 <= j < |window| && (x, window[j].sequence) in records ==> records[(x, window[j].sequence)] == Meaning(window[j])
  }

  lemma {:induction false} StoreRight(records: map<(nat, u32), HistoryValue>, x: nat, window: seq<Record>, i: nat, n: nat,
                                      y: nat, other: seq<Record>)
    requires i + n <= |window| <= 0xFFFF && Device.Contiguous(window)
    requires Right(records, y, other) && (x == y ==> other == window)
    ensures Right(Store(records, x, Meanings(window[i..i + n])), y, other)
  {
    if n > 0 {
      StoreRight(records, x, window, i, n - 1, y, other);
      Device.DistinctSequences(window);
      var values := Meanings(window[i..i + n]);
      assert values[..n - 1] == Meanings(window[i..i + n - 1]);
      assert values[n - 1] == Meaning(window[i + n - 1]);
    }
  }

  /** The metadata describes exactly these frozen rings. */
  ghost predicate Describes(meta: DeviceMeta, frozen: seq<seq<Record>>) {
    && |frozen| == Device.SENSOR_COUNT
    && forall i :: 0 <= i < Device.SENSOR_COUNT ==>
         |frozen[i]| <= 0xFFFF && meta.counts[i] == |frozen[i]| && meta.oldest[i] == Device.OldestOf(frozen[i])
         && Device.Contiguous(frozen[i])
  }

  /** The state of an undisturbed transfer. */
  ghost predicate Clean(meta: DeviceMeta, s: Sync, frozen: seq<seq<Record>>)
    requires |frozen| == Device.SENSOR_COUNT
  {
    && Shaped(meta, s)
    && s.failures == [] && !s.expired
    && (forall x :: x in s.remaining && s.remaining[x] > 0 ==> x in s.pending)
    && Right(s.records, 1, frozen[0]) && Right(s.records, 2, frozen[1])
  }

  lemma StartClean(meta: DeviceMeta, k: nat, frozen: seq<seq<Record>>)
    requires Describes(meta, frozen)
    ensures Clean(meta, Start(meta, k), frozen) && Accounts.Books(meta, Start(meta, k))
  {
    Accounts.StartBalanced(meta, k);
  }

  /** Where sensor `x` continues in its frozen ring. */
  lemma NextRecord(meta: DeviceMeta, s: Sync, frozen: seq<seq<Record>>, x: nat) returns (i: nat)
    requires Describes(meta, frozen) && Shaped(meta, s) && s.failures == []
    requires Sensor(meta, x) && s.remaining[x] > 0 && Accounts.Balanced(meta, s, x)
    ensures i == meta.counts[x - 1] - s.remaining[x] && i < |frozen[x - 1]|
    ensures s.next[x] == frozen[x - 1][i].sequence
  {
    i := meta.counts[x - 1] - s.remaining[x];
    var l := Accounts.LedgerOf(s, x);
    assert l.next == Wrap32(meta.oldest[x - 1] + meta.counts[x - 1] - l.due);
    NumberedFromOldest(frozen[x - 1], i);
  }

  lemma NumberedFromOldest(window: seq<Record>, i: nat)
    requires Device.Contiguous(window) && i < |window|
    ensures window[i].sequence == Wrap32(Device.OldestOf(window) + i)
  {
  }

  /** The request asks for what comes from record `i` of its sensor's ring on. */
  predicate Asks(request: ChunkRequest, frozen: seq<seq<Record>>, i: nat) {
    && KnownSensor(request.sensor) && 0 < request.count && request.sensor <= |frozen|
    && i < |frozen[request.sensor - 1]| && request.start == frozen[request.sensor - 1][i].sequence
  }

  ghost predicate Delivered(r: FetchResult, request: ChunkRequest, window: seq<Record>, i: nat) {
    && r.Arrived? && Acceptable(r.chunk, request) && i + |r.chunk.records| <= |window|
    && r.chunk.records == Meanings(window[i..i + |r.chunk.records|])
  }

  /** Some call that the retries allow brings the next records, after failures that a repetition mends. */
  ghost predicate DeliveredAt(w: World, request: ChunkRequest, k: nat, n: nat, window: seq<Record>, i: nat) {
    n <= w.retries && AllRetryable(w, request, k, n) && Delivered(w.fetch(k + n, request), request, window, i)
  }

  ghost predicate DeliveredSoon(w: World, request: ChunkRequest, k: nat, frozen: seq<seq<Record>>, i: nat)
    requires Asks(request, frozen, i)
  {
    var ring := frozen[request.sensor - 1];
    exists n: nat :: DeliveredAt(w, request, k, n, ring, i)
  }

  /** A world without timeouts that so answers every such request, at the first call or after up to `retries` failures. */
  ghost predicate Delivers(w: World, frozen: seq<seq<Record>>) {
    && (forall k :: w.clock(k) < w.deadline)
    && forall k: nat, request: ChunkRequest, i: nat ::
         Asks(request, frozen, i) ==> DeliveredSoon(w, request, k, frozen, i)
  }

  /** The next request asks for what follows the records already handled. */
  lemma NextAsked(meta: DeviceMeta, w: World, s: Sync, frozen: seq<seq<Record>>) returns (i: nat)
    requires Describes(meta, frozen) && s.pending != [] && Clean(meta, s, frozen) && Accounts.Books(meta, s)
    ensures Asks(RequestFor(w, meta, s), frozen, i)
  {
    assert Sensor(meta, s.pending[0]) && Accounts.Balanced(meta, s, s.pending[0]);
    i := NextRecord(meta, s, frozen, s.pending[0]);
  }

  lemma SoonAt(w: World, request: ChunkRequest, k: nat, frozen: seq<seq<Record>>, i: nat) returns (n: nat)
    requires Delivers(w, frozen) && Asks(request, frozen, i)
    ensures DeliveredAt(w, request, k, n, frozen[request.sensor - 1], i)
    ensures Good(w, request, k + n)
  {
    assert DeliveredSoon(w, request, k, frozen, i);
    var ring := frozen[request.sensor - 1];
    n :| DeliveredAt(w, request, k, n, ring, i);
  }

  /** In such a world a turn accepts the chunk that one of its calls brings. */
  lemma CleanTurn(meta: DeviceMeta, w: World, s: Sync, frozen: seq<seq<Record>>, request: ChunkRequest, i: nat) returns (chunk: HistoryChunk, k: nat)
    requires Shaped(meta, s) && s.pending != [] && Delivers(w, frozen)
    requires request == RequestFor(w, meta, s) && Asks(request, frozen, i)
    ensures Delivered(Arrived(chunk), request, frozen[request.sensor - 1], i)
    ensures Step(meta, w, s) == Accept(meta, s, request, chunk, k)
  {
    var n := SoonAt(w, request, s.k + 2, frozen, i);
    chunk, k := w.fetch(s.k + 2 + n, request).chunk, s.k + 3 + n;
    FrontAsks(meta, w, s);
    GoodTurn(meta, w, s, request, n, chunk);
  }

  lemma CleanStep(meta: DeviceMeta, w: World, s: Sync, frozen: seq<seq<Record>>)
    requires Describes(meta, frozen) && Delivers(w, frozen) && s.pending != []
    requires Clean(meta, s, frozen) && Accounts.Books(meta, s)
    requires Shaped(meta, Step(meta, w, s))
    ensures Clean(meta, Step(meta, w, s), frozen)
  {
    var request, chunk, i := CleanStepIs(meta, w, s, frozen);
    NextRight(s, request, chunk, Step(meta, w, s), frozen, i);
    AcceptClean(meta, s, request, chunk, Step(meta, w, s), frozen);
  }

  /** What accepting a chunk does to the parts of the state that matter here. */
  ghost predicate TakesChunk(s: Sync, request: ChunkRequest, chunk: HistoryChunk, t: Sync)
    requires s.pending != []
  {
    var x := s.pending[0];
    && t.failures == s.failures && t.expired == s.expired
    && t.records == Store(s.records, request.sensor, chunk.records)
    && x in t.remaining && t.remaining == s.remaining[x := t.remaining[x]]
    && t.pending == Requeue(s.pending[1..], x, t.remaining[x])
  }

  /** The step accepts the next records of the front sensor's ring. */
  lemma CleanStepIs(meta: DeviceMeta, w: World, s: Sync, frozen: seq<seq<Record>>)
    returns (request: ChunkRequest, chunk: HistoryChunk, i: nat)
    requires Describes(meta, frozen) && Delivers(w, frozen) && s.pending != []
    requires Clean(meta, s, frozen) && Accounts.Books(meta, s)
    ensures request.sensor == s.pending[0] && KnownSensor(request.sensor)
    ensures i + |chunk.records| <= |frozen[request.sensor - 1]|
    ensures chunk.records == Meanings(frozen[request.sensor - 1][i..i + |chunk.records|])
    ensures TakesChunk(s, request, chunk, Step(meta, w, s))
  {
    request := RequestFor(w, meta, s);
    i := NextAsked(meta, w, s, frozen);
    var k;
    chunk, k := CleanTurn(meta, w, s, frozen, request, i);
  }

  lemma NextRight(s: Sync, request: ChunkRequest, chunk: HistoryChunk, t: Sync, frozen: seq<seq<Record>>, i: nat)
    requires |frozen| == Device.SENSOR_COUNT && s.pending != [] && KnownSensor(request.sensor)
    requires i + |chunk.records| <= |frozen[request.sensor - 1]| <= 0xFFFF && Device.Contiguous(frozen[request.sensor - 1])
    requires chunk.records == Meanings(frozen[request.sensor - 1][i..i + |chunk.records|])
    requires Right(s.records, 1, frozen[0]) && Right(s.records, 2, frozen[1]) && TakesChunk(s, request, chunk, t)
    ensures Right(t.records, 1, frozen[0]) && Right(t.records, 2, frozen[1])
  {
    StoredRight(s.records, request.sensor, frozen, i, |chunk.records|);
  }

  /** Storing the next records of one ring leaves what is stored right for both. */
  lemma StoredRight(records: map<(nat, u32), HistoryValue>, x: nat, frozen: seq<seq<Record>>, i: nat, n: nat)
    requires |frozen| == Device.SENSOR_COUNT && 1 <= x <= Device.SENSOR_COUNT
    requires i + n <= |frozen[x - 1]| <= 0xFFFF && Device.Contiguous(frozen[x - 1])
    requires Right(records, 1, frozen[0]) && Right(records, 2, frozen[1])
    ensures Right(Store(records, x, Meanings(frozen[x - 1][i..i + n])), 1, frozen[0])
    ensures Right(Store(records, x, Meanings(frozen[x - 1][i..i + n])), 2, frozen[1])
  {
    StoreRight(records, x, frozen[x - 1], i, n, 1, frozen[0]);
    StoreRight(records, x, frozen[x - 1], i, n, 2, frozen[1]);
  }

  /** Every sensor with something left stays queued. */
  lemma AcceptClean(meta: DeviceMeta, s: Sync, request: ChunkRequest, chunk: HistoryChunk, t: Sync, frozen: seq<seq<Record>>)
    requires Describes(meta, frozen) && Clean(meta, s, frozen) && s.pending != [] && Shaped(meta, t)
    requires TakesChunk(s, request, chunk, t)
    requires Right(t.records, 1, frozen[0]) && Right(t.records, 2, frozen[1])
    ensures Clean(meta, t, frozen)
  {
    forall x | x in t.remaining && t.remaining[x] > 0
      ensures x in t.pending
    {
      if x != s.pending[0] {
        assert x in s.pending;
        assert x in s.pending[1..];
      }
    }
  }

  lemma {:induction false} CleanRun(meta: DeviceMeta, w: World, s: Sync, frozen: seq<seq<Record>>)
    requires Describes(meta, frozen) && Delivers(w, frozen) && Clean(meta, s, frozen) && Accounts.Books(meta, s)
    ensures var t := RunLoop(meta, w, s);
            Clean(meta, t, frozen) && Accounts.Books(meta, t) && t.pending == []
    decreases Backlog(s.pending, s.remaining)
  {
    if Running(w, s) {
      StepProgress(meta, w, s);
      Accounts.StepBooks(meta, w, s);
      CleanStep(meta, w, s, frozen);
      CleanRun(meta, w, Step(meta, w, s), frozen);
    }
  }

  predicate Holds(window: seq<Record>, q: u32) {
    exists j :: 0 <= j < |window| && window[j].sequence == q
  }

  /** For sensor `x`, the stored records are the decoded ring: all of it, right, and nothing else. */
  ghost predicate SensorRecovered(records: map<(nat, u32), HistoryValue>, x: nat, window: seq<Record>) {
    && (forall j :: 0 <= j < |window| ==>
          (x, window[j].sequence) in records && records[(x, window[j].sequence)] == Meaning(window[j]))
    && (forall key :: key in records && key.0 == x ==> Holds(window, key.1))
  }

  /** Everything has been fetched, and is right. */
  ghost predicate Recovered(t: Sync, frozen: seq<seq<Record>>) {
    && |frozen| == Device.SENSOR_COUNT
    && t.failures == [] && t.pending == [] && !t.expired
    && t.retrieved == [|frozen[0]|, |frozen[1]|]
    && SensorRecovered(t.records, 1, frozen[0]) && SensorRecovered(t.records, 2, frozen[1])
    && (forall key :: key in t.records ==> 1 <= key.0 <= Device.SENSOR_COUNT)
  }

  lemma CleanEnd(meta: DeviceMeta, t: Sync, frozen: seq<seq<Record>>)
    requires Describes(meta, frozen) && Clean(meta, t, frozen) && Accounts.Books(meta, t) && t.pending == []
    ensures Recovered(t, frozen)
  {
    SensorEnd(meta, t, frozen, 1);
    SensorEnd(meta, t, frozen, 2);
    assert forall key :: key in t.records ==> Sensor(meta, key.0);
  }

  lemma SensorEnd(meta: DeviceMeta, t: Sync, frozen: seq<seq<Record>>, x: nat)
    requires Describes(meta, frozen) && Clean(meta, t, frozen) && Accounts.Books(meta, t) && t.pending == []
    requires 1 <= x <= Device.SENSOR_COUNT
    ensures t.retrieved[x - 1] == |frozen[x - 1]|
    ensures SensorRecovered(t.records, x, frozen[x - 1])
  {
    if Sensor(meta, x) {
      assert Accounts.Balanced(meta, t, x);
      UsedSensorEnd(meta, t, frozen, x);
    } else {
      Accounts.UnusedSensor(meta, t, x);
    }
    StoredIsRing(t.records, x, frozen[x - 1], meta.oldest[x - 1]);
  }

  lemma UsedSensorEnd(meta: DeviceMeta, t: Sync, frozen: seq<seq<Record>>, x: nat)
    requires Describes(meta, frozen) && Clean(meta, t, frozen) && t.pending == []
    requires Sensor(meta, x) && Accounts.Balanced(meta, t, x)
    ensures t.retrieved[x - 1] == |frozen[x - 1]|
    ensures Accounts.StoredFor(t.records, x) == Accounts.Numbers(meta.oldest[x - 1], |frozen[x - 1]|)
  {
    assert x in t.remaining;
    var l := Accounts.LedgerOf(t, x);
    assert l.due == 0 && l.lost == 0;
  }

  lemma StoredIsRing(records: map<(nat, u32), HistoryValue>, x: nat, window: seq<Record>, oldest: u32)
    requires Device.Contiguous(window) && |window| <= 0xFFFF && oldest == Device.OldestOf(window)
    requires Accounts.StoredFor(records, x) == Accounts.Numbers(oldest, |window|) && Right(records, x, window)
    ensures SensorRecovered(records, x, window)
  {
    forall j | 0 <= j < |window|
      ensures (x, window[j].sequence) in records
    {
      Accounts.WrapDistanceFrom(oldest, j, window[j].sequence);
      Accounts.InNumbers(oldest, |window|, window[j].sequence);
    }
    forall key | key in records && key.0 == x
      ensures Holds(window, key.1)
    {
      assert key.1 in Accounts.StoredFor(records, x);
      Accounts.InNumbers(oldest, |window|, key.1);
      WrapReach(oldest, key.1);
      assert window[Wrap32(key.1 - oldest)].sequence == key.1;
    }
  }

  // --- End to end ----------------------------------------------------------------------------------

  /** The device answers a request for what comes next with an acceptable, non-empty chunk. */
  lemma ChunkDelivers(request: ChunkRequest, frozen: seq<seq<Record>>, i: nat, limit: nat)
    requires Asks(request, frozen, i) && 0 < limit <= request.count
    requires Device.Contiguous(frozen[request.sensor - 1]) && |frozen[request.sensor - 1]| <= 0xFFFF
    ensures Delivered(ChunkOf(frozen[request.sensor - 1], request, limit), request, frozen[request.sensor - 1], i)
  {
    SliceAhead(frozen[request.sensor - 1], limit, i);
  }

  /** What gets through from a device that serves the frozen rings. */
  lemma FetchDelivers(c: Config, s: Server, e: Surroundings, frozen: seq<seq<Record>>, meta: DeviceMeta, k: nat, request: ChunkRequest, i: nat)
    requires Serving(s, frozen) && Describes(meta, frozen) && Asks(request, frozen, i)
    ensures Delivered(FetchAt(c, s, e, request)(k), request, frozen[request.sensor - 1], i)
  {
    StillServing(c, s, e, k, frozen);
    FetchIs(c, DeviceAt(c, s, e, k), e.ambient(k), e.requestId(k), request, e.mtu(k), e.compact(k));
    ChunkDelivers(request, frozen, i, ChunkLimit(Capped(request, e.mtu(k), e.compact(k)), MAX_PACKET_SIZE, e.compact(k)));
  }

  /** A world whose answers, where they get through, all bring the next records. */
  lemma SoonThrough(w: World, request: ChunkRequest, k: nat, mishap: nat -> Option<Mishap>, answers: nat -> FetchResult,
                    frozen: seq<seq<Record>>, i: nat)
    requires Bearable(mishap, w.retries) && forall j :: w.clock(j) < w.deadline
    requires forall j :: w.fetch(j, request) == Suffered(mishap(j), request, answers(j))
    requires Asks(request, frozen, i) && AllDelivered(answers, request, frozen[request.sensor - 1], i)
    ensures DeliveredSoon(w, request, k, frozen, i)
  {
    var ring := frozen[request.sensor - 1];
    var n := CallPasses(w, request, k, mishap, answers);
    assert DeliveredAt(w, request, k, n, ring, i);
  }

  ghost predicate AllDelivered(answers: nat -> FetchResult, request: ChunkRequest, window: seq<Record>, i: nat) {
    forall j :: Delivered(answers(j), request, window, i)
  }

  lemma WorldDeliversOne(c: Config, s: Server, e: Surroundings, w: World, answers: nat -> FetchResult, frozen: seq<seq<Record>>,
                         meta: DeviceMeta, k: nat, request: ChunkRequest, i: nat)
    requires Serving(s, frozen) && Describes(meta, frozen) && Bearable(e.mishap, e.retries) && w == WorldOf(c, s, e)
    requires answers == FetchAt(c, s, e, request) && Asks(request, frozen, i) && forall k :: e.clock(k) < e.deadline
    ensures DeliveredSoon(w, request, k, frozen, i)
  {
    forall j: nat
      ensures Delivered(answers(j), request, frozen[request.sensor - 1], i)
    {
      FetchDelivers(c, s, e, frozen, meta, j, request, i);
    }
    WorldFetches(c, s, e, w, request, answers);
    SoonThrough(w, request, k, e.mishap, answers, frozen, i);
  }

  lemma WorldFetches(c: Config, s: Server, e: Surroundings, w: World, request: ChunkRequest, answers: nat -> FetchResult)
    requires WellFormed(s) && w == WorldOf(c, s, e) && answers == FetchAt(c, s, e, request)
    ensures w.clock == e.clock && w.deadline == e.deadline && w.retries == e.retries
    ensures forall j :: w.fetch(j, request) == Suffered(e.mishap(j), request, answers(j))
  {
  }

  lemma WorldDelivers(c: Config, s: Server, e: Surroundings, w: World, frozen: seq<seq<Record>>, meta: DeviceMeta)
    requires Serving(s, frozen) && Describes(meta, frozen) && Bearable(e.mishap, e.retries) && w == WorldOf(c, s, e)
    requires forall k :: e.clock(k) < e.deadline
    ensures Delivers(w, frozen)
  {
    forall k: nat, request: ChunkRequest, i: nat | Asks(request, frozen, i)
      ensures DeliveredSoon(w, request, k, frozen, i)
    {
      WorldDeliversOne(c, s, e, w, FetchAt(c, s, e, request), frozen, meta, k, request, i);
    }
  }

  /** The metadata the client decodes from the device's answer to GET_HISTORY_META. */
  function MetaFetched(c: Config, s: Server, env: Ambient, id: u16): Result<HistoryMeta, ClientError>
    requires WellFormed(s)
  {
    match ParseResponse(Exchange(c, s, env, BuildRequest(GET_HISTORY_META, id, []).value, MAX_PACKET_SIZE).1,
                        Some(GET_HISTORY_META), Some(id), false)
    case Failure(error) => Failure(error)
    case Success(r) => DecodeMeta(r)
  }

  function Frozen(c: Config, s: Server, env: Ambient, id: u16): (t: Server)
    requires WellFormed(s)
    ensures WellFormed(t)
  {
    Exchange(c, s, env, BuildRequest(GET_HISTORY_META, id, []).value, MAX_PACKET_SIZE).0
  }

  /** The client's view of the metadata for these rings. */
  function Description(d: Device.State): (meta: DeviceMeta)
    requires Device.Shaped(d)
    ensures meta.bootId == d.bootId
  {
    var m := Device.MetaOf(d);
    HistoryMeta(m.bootId, m.newest, m.counts, m.oldest)
  }

  lemma DescriptionDescribes(d: Device.State)
    requires Device.Shaped(d) && Device.Recorded(d)
    ensures Describes(Description(d), d.live)
  {
    Device.EndsAtContiguous(d.live[0], d.newest);
    Device.EndsAtContiguous(d.live[1], d.newest);
  }

  /** Asking for the metadata freezes the live rings and describes them. */
  lemma MetaFreezes(c: Config, s: Server, env: Ambient, id: u16)
    requires WellFormed(s) && s.auth.session.authenticated && Device.Recorded(s.device)
    ensures Serving(Frozen(c, s, env, id), s.device.live)
    ensures MetaFetched(c, s, env, id) == Success(Description(s.device))
  {
    ExchangeParses(c, s, env, GET_HISTORY_META, id, [], MAX_PACKET_SIZE);
    MetaRoundTrip(Device.MetaOf(s.device), id);
  }

  /** And the client learns boot, newest number, how many records each ring holds and its oldest number, 0 for an empty one. */
  lemma MetaTells(c: Config, s: Server, env: Ambient, id: u16, meta: HistoryMeta)
    requires WellFormed(s) && s.auth.session.authenticated && MetaFetched(c, s, env, id) == Success(meta)
    ensures meta.bootId == s.device.bootId && meta.newest == s.device.newest && |meta.counts| == |meta.oldest| == 2
    ensures forall i :: 0 <= i < 2 ==>
              && meta.counts[i] == |s.device.live[i]|
              && meta.oldest[i] == if s.device.live[i] == [] then 0 else s.device.live[i][0].sequence
  {
    ExchangeParses(c, s, env, GET_HISTORY_META, id, [], MAX_PACKET_SIZE);
    MetaRoundTrip(Device.MetaOf(s.device), id);
  }

  /** The transfer that follows a metadata request, on a device that goes on working. */
  function Retrieval(c: Config, s: Server, env: Ambient, id: u16, e: Surroundings, first: nat): Sync
    requires WellFormed(s)
  {
    RunLoop(Description(s.device), WorldOf(c, Frozen(c, s, env, id), e), Start(Description(s.device), first))
  }

  /**
   * End to end: from any reachable rings, with sampling, display commands and other requests
   * interleaved at will, an authenticated transfer that meets no timeout and never fails more than
   * `retries` calls in a row completes, and what it recovered is exactly the decoded content of both
   * rings as they were frozen.
   */
  lemma RecoveryIsExact(c: Config, s: Server, env: Ambient, id: u16, e: Surroundings, first: nat)
    requires WellFormed(s) && s.auth.session.authenticated && Device.Recorded(s.device)
    requires Bearable(e.mishap, e.retries) && forall k :: e.clock(k) < e.deadline
    ensures MetaFetched(c, s, env, id) == Success(Description(s.device))
    ensures Recovered(Retrieval(c, s, env, id, e, first), s.device.live)
    ensures Accounts.Complete(Description(s.device), s.device.bootId, Retrieval(c, s, env, id, e, first))
  {
    MetaFreezes(c, s, env, id);
    DescriptionDescribes(s.device);
    TransferRecovers(c, Frozen(c, s, env, id), e, Description(s.device), s.device.live, first);
  }

  lemma TransferRecovers(c: Config, s: Server, e: Surroundings, meta: DeviceMeta, frozen: seq<seq<Record>>, first: nat)
    requires Serving(s, frozen) && Describes(meta, frozen)
    requires Bearable(e.mishap, e.retries) && forall k :: e.clock(k) < e.deadline
    ensures var t := RunLoop(meta, WorldOf(c, s, e), Start(meta, first));
            Recovered(t, frozen) && Accounts.Complete(meta, meta.bootId, t)
  {
    WorldDelivers(c, s, e, WorldOf(c, s, e), frozen, meta);
    LoopRecovers(meta, WorldOf(c, s, e), frozen, first);
  }

  lemma LoopRecovers(meta: DeviceMeta, w: World, frozen: seq<seq<Record>>, first: nat)
    requires Describes(meta, frozen) && Delivers(w, frozen)
    ensures var t := RunLoop(meta, w, Start(meta, first));
            Recovered(t, frozen) && Accounts.Complete(meta, meta.bootId, t)
  {
    StartClean(meta, first, frozen);
    CleanRun(meta, w, Start(meta, first), frozen);
    CleanEnd(meta, RunLoop(meta, w, Start(meta, first)), frozen);
  }
}
