/** The transfer against a device that goes on working, whatever is asked of it meanwhile. */
module LiveDevices {
  import opened Words
  import opened Layouts
  import opened HistoryBuffers
  import opened ApplicationAuth
  import opened Wire
  import opened ProtocolServer
  import opened ProtocolClient
  import opened RoundTrip
  import opened HistorySync
  import opened Retries
  import opened Recovery
  import opened RingTapes
  import opened LiveRecovery
  import Device
  import DeviceRuns
  import Runs = ProtocolRuns

  type Running = s: Server | WellFormed(s) witness DeviceRuns.Booted(1, 0)

  /**
   * What goes on around a transfer: the device as each interaction finds it, everything that befalls its
   * sensors and rings, in order, how much of that came before each interaction, and what becomes of it.
   */
  datatype Course = Course(
    server: nat -> Running,
    events: seq<Device.Event>,
    before: nat -> nat,
    mishap: nat -> Option<Mishap>,
    metaLost: nat -> bool,
    ambient: nat -> Ambient,
    requestId: nat -> u16,
    mtu: nat -> nat,
    compact: nat -> bool,
    clock: nat -> int,
    deadline: int,
    retries: nat
  )

  function Reached(e: Course, k: nat): (n: nat)
    ensures n <= |e.events|
  {
    Min(e.before(k), |e.events|)
  }

  /** Time goes on, and so does the device, from the state `d` on; its sessions may come and go. */
  ghost predicate Follows(d: Device.State, e: Course)
    requires Device.Shaped(d)
  {
    && (forall event :: event in e.events ==> Device.Possible(event))
    && (forall j: nat, k: nat :: j <= k ==> Reached(e, j) <= Reached(e, k))
    && (forall k: nat :: e.server(k).device == Device.Steps(d, e.events[..Reached(e, k)]))
  }

  /** What a chunk call brings, at any time, if nothing befalls it. */
  function AnswerAt(c: Config, e: Course, request: ChunkRequest): nat -> FetchResult {
    (k: nat) => Fetch(c, e.server(k), e.ambient(k), e.requestId(k), request, e.mtu(k), e.compact(k))
  }

  function MetaAt(c: Config, e: Course, k: nat): Refresh {
    if e.metaLost(k) then RefreshRaised
    else
      match MetaFetched(c, e.server(k), e.ambient(k), e.requestId(k))
      case Failure(_) => RefreshRaised
      case Success(m) => if |m.counts| == |m.oldest| == Device.SENSOR_COUNT then Renewed(m) else RefreshRaised
  }

  /** The synchronizer's world. */
  function LiveWorld(c: Config, e: Course): World {
    World(e.clock,
          (k: nat, request) => Suffered(e.mishap(k), request, AnswerAt(c, e, request)(k)),
          (k: nat) => MetaAt(c, e, k),
          (k: nat) => RecordsPerChunk(e.mtu(k), e.compact(k)),
          e.deadline, e.retries)
  }

  // --- The rings during a transfer ------------------------------------------------------------------

  /** The metadata request has just been answered. */
  ghost predicate JustFrozen(d: Device.State) {
    Device.Shaped(d) && Device.Recorded(d) && d.frozenValid && d.frozen == d.live
  }

  /** So it has, or the firmware is an older one that never freezes its rings and serves the live ones. */
  ghost predicate JustDescribed(d: Device.State, e: Course) {
    JustFrozen(d) || (Device.Shaped(d) && Device.Recorded(d) && !d.frozenValid && Device.Frozen !in e.events)
  }

  /** How many records a sensor's live ring has held at the start or got before interaction `k`. */
  ghost function LengthAt(d: Device.State, e: Course, k: nat, i: nat): nat
    requires Device.Shaped(d) && Follows(d, e) && i < Device.SENSOR_COUNT
  {
    |Tape(d, e.events[..Reached(e, k)], i)|
  }

  /** No sequence number comes round during the transfer. */
  ghost predicate NumbersUnique(d: Device.State, e: Course)
    requires Device.Shaped(d) && Follows(d, e)
  {
    forall i :: 0 <= i < Device.SENSOR_COUNT ==> |Tape(d, e.events, i)| + TWO16 <= TWO32
  }

  lemma LengthGrows(d: Device.State, e: Course, m: nat, n: nat, i: nat)
    requires Device.Shaped(d) && i < Device.SENSOR_COUNT && m <= n <= |e.events|
    requires forall event :: event in e.events ==> Device.Possible(event)
    ensures Tape(d, e.events[..m], i) <= Tape(d, e.events[..n], i)
  {
    assert e.events[..n] == e.events[..m] + e.events[m..n];
    TapeGrows(d, e.events[..m], e.events[m..n], i);
  }

  /** How many of these the live ring has lost by interaction `k`. */
  ghost function GoneAt(d: Device.State, e: Course, k: nat, x: nat): nat
    requires Device.Shaped(d) && Follows(d, e)
  {
    if 1 <= x <= Device.SENSOR_COUNT then LengthAt(d, e, k, x - 1) - Min(LengthAt(d, e, k, x - 1), d.capacity) else 0
  }

  ghost function Gone(d: Device.State, e: Course): Overwriting
    requires Device.Shaped(d) && Follows(d, e)
  {
    (k: nat, x: nat) => GoneAt(d, e, k, x)
  }

  lemma GoneLater(d: Device.State, e: Course, j: nat, k: nat, x: nat)
    requires Device.Shaped(d) && Follows(d, e) && j <= k
    ensures GoneAt(d, e, j, x) <= GoneAt(d, e, k, x)
  {
    if 1 <= x <= Device.SENSOR_COUNT {
      LengthGrows(d, e, Reached(e, j), Reached(e, k), x - 1);
    }
  }

  lemma GoneGrows(d: Device.State, e: Course, gone: Overwriting)
    requires Device.Shaped(d) && Follows(d, e) && gone == Gone(d, e)
    ensures Grows(gone)
  {
    forall j: nat, k: nat, x: nat | j <= k
      ensures gone(j, x) <= gone(k, x)
    {
      GoneLater(d, e, j, k, x);
    }
  }

  lemma ServedIsWindow(d: Device.State, e: Course, events: seq<Device.Event>, i: nat) returns (servedAt: nat)
    requires JustDescribed(d, e) && events <= e.events && i < Device.SENSOR_COUNT && forall event :: event in events ==> Device.Possible(event)
    ensures |d.live[i]| <= servedAt <= |Tape(d, events, i)|
    ensures Device.Served(Device.Steps(d, events), i + 1) == Window(Tape(d, events, i), d.capacity, servedAt)
  {
    if d.frozenValid {
      servedAt := FrozenIsWindow(d, events, i);
    } else {
      servedAt := |Tape(d, events, i)|;
      assert Device.Frozen !in events;
      LiveIsTail(d, events, i);
    }
  }

  lemma SameWindow(tape: seq<Record>, part: seq<Record>, capacity: nat, length: nat)
    requires part <= tape && length <= |part|
    ensures Window(part, capacity, length) == Window(tape, capacity, length)
  {
  }

  /** The rings of a later moment, on a tape that starts with the ring of an earlier one. */
  ghost predicate OnTape(d: Device.State, later: Device.State, tape: seq<Record>, length: nat, servedAt: nat, i: nat)
    requires Device.Shaped(d) && Device.Shaped(later) && i < Device.SENSOR_COUNT
  {
    && NumberedFrom(tape, Base(d, i)) && |tape| + TWO16 <= TWO32
    && |d.live[i]| <= servedAt <= length <= |tape| && d.live[i] == tape[..|d.live[i]|]
    && later.live[i] == Window(tape, d.capacity, length)
    && Device.Served(later, i + 1) == Window(tape, d.capacity, servedAt)
    && later.bootId == d.bootId && Device.Recorded(later)
  }

  /** At each interaction the live ring is the end of the tape so far, and the ring served that or an earlier one. */
  lemma Moment(d: Device.State, e: Course, k: nat, i: nat) returns (tape: seq<Record>, servedAt: nat)
    requires JustDescribed(d, e) && Follows(d, e) && NumbersUnique(d, e) && i < Device.SENSOR_COUNT
    ensures OnTape(d, e.server(k).device, tape, LengthAt(d, e, k, i), servedAt, i)
  {
    var events := e.events[..Reached(e, k)];
    tape := Tape(d, e.events, i);
    TapeNumbered(d, e.events, i);
    Device.StepsRecorded(d, events);
    LiveIsTail(d, events, i);
    servedAt := ServedIsWindow(d, e, events, i);
    LengthGrows(d, e, Reached(e, k), |e.events|, i);
    assert e.events[..|e.events|] == e.events;
    SameWindow(tape, Tape(d, events, i), d.capacity, |Tape(d, events, i)|);
    SameWindow(tape, Tape(d, events, i), d.capacity, servedAt);
  }

  // --- The device is honest ---------------------------------------------------------------------------

  lemma WindowContiguous(tape: seq<Record>, base: int, capacity: nat, length: nat)
    requires NumberedFrom(tape, base) && length <= |tape|
    ensures Device.Contiguous(Window(tape, capacity, length))
  {
    var low, window := length - Min(length, capacity), Window(tape, capacity, length);
    forall j | 0 <= j < |window|
      ensures window[j].sequence == Wrap32(window[0].sequence + j)
    {
      assert window[j] == tape[low + j] && window[0] == tape[low];
      WrapAdd(base + low, j);
    }
  }

  /** Without a session, or on the way, a request fails for another reason than a missing record. */
  lemma NoSessionNoChunk(c: Config, s: Server, env: Ambient, id: u16, request: ChunkRequest, mtu: nat, compact: bool)
    requires WellFormed(s) && !s.auth.session.authenticated && KnownSensor(request.sensor) && 0 < request.count
    ensures Fetch(c, s, env, id, request, mtu, compact) == Raised(false)
  {
    var count := Capped(request, mtu, compact);
    var opcode, payload := ChunkOpcode(compact), Pack(HISTORY_CHUNK_REQUEST, ChunkRequestValues(request.sensor, request.start, count));
    ChunkRequestBytes(request.sensor, request.start, count);
    ExchangeParses(c, s, env, opcode, id, payload, MAX_PACKET_SIZE);
    assert Dispatch(c, s, env, payload, opcode, id, MAX_PACKET_SIZE).1.status == AuthenticationRequired;
  }

  lemma NoSessionNoMeta(c: Config, s: Server, env: Ambient, id: u16)
    requires WellFormed(s) && !s.auth.session.authenticated
    ensures MetaFetched(c, s, env, id).Failure?
  {
    ExchangeParses(c, s, env, GET_HISTORY_META, id, [], MAX_PACKET_SIZE);
    assert Dispatch(c, s, env, [], GET_HISTORY_META, id, MAX_PACKET_SIZE).1.status == AuthenticationRequired;
  }

  /** A request for place `i` of the tape, served from a window of the tape that ends no earlier than the ring. */
  lemma ChunkFromTape(tape: seq<Record>, base: int, capacity: nat, length: nat, ring: seq<Record>, request: ChunkRequest, i: nat, limit: nat)
    requires NumberedFrom(tape, base) && |tape| <= TWO32 && |ring| <= length <= |tape| && ring == tape[..|ring|]
    requires KnownSensor(request.sensor) && i + request.count <= |ring| && i < |ring| && request.start == ring[i].sequence
    requires 0 < limit <= request.count
    ensures var r := ChunkOf(Window(tape, capacity, length), request, limit);
            if length - Min(length, capacity) <= i then Delivered(r, request, ring, i) else r == Raised(true)
  {
    WindowSlice(tape, base, capacity, length, i, limit);
    if length - Min(length, capacity) <= i {
      assert Min(limit, length - i) == limit;
      PrefixPiece(tape, |ring|, i, limit);
      PieceNumbered(ring, base, i, limit);
    }
  }

  lemma PrefixPiece(tape: seq<Record>, m: nat, i: nat, n: nat)
    requires i + n <= m <= |tape|
    ensures tape[i..i + n] == tape[..m][i..i + n]
  {
  }

  lemma PieceNumbered(ring: seq<Record>, base: int, i: nat, n: nat)
    requires NumberedFrom(ring, base) && i + n <= |ring| && 0 < n
    ensures Numbered(Meanings(ring[i..i + n]), ring[i].sequence)
  {
    var piece := ring[i..i + n];
    forall j | 0 <= j < n
      ensures Meanings(piece)[j].sequence == Wrap32(ring[i].sequence + j)
    {
      WrapAdd(base + i, j);
      assert piece[j] == ring[i + j];
    }
  }

  /** An answer brings the records asked for; a refusal, on a session, means that they have been overwritten. */
  lemma ChunkHonest(c: Config, d: Device.State, e: Course, k: nat, request: ChunkRequest, i: nat, r: FetchResult)
    requires JustDescribed(d, e) && Follows(d, e) && NumbersUnique(d, e) && Seeks(request, d.live, i) && r == AnswerAt(c, e, request)(k)
    ensures r.Arrived? ==> Delivered(r, request, d.live[request.sensor - 1], i)
    ensures e.server(k).auth.session.authenticated && !r.Arrived? ==> r == Raised(true) && i < GoneAt(d, e, k, request.sensor)
  {
    if e.server(k).auth.session.authenticated {
      SessionChunk(c, d, e, k, request, i);
    } else {
      NoSessionNoChunk(c, e.server(k), e.ambient(k), e.requestId(k), request, e.mtu(k), e.compact(k));
    }
  }

  lemma SessionChunk(c: Config, d: Device.State, e: Course, k: nat, request: ChunkRequest, i: nat)
    requires JustDescribed(d, e) && Follows(d, e) && NumbersUnique(d, e) && Seeks(request, d.live, i) && e.server(k).auth.session.authenticated
    ensures var r := Fetch(c, e.server(k), e.ambient(k), e.requestId(k), request, e.mtu(k), e.compact(k));
            && (r.Arrived? ==> Delivered(r, request, d.live[request.sensor - 1], i))
            && (!r.Arrived? ==> r == Raised(true) && i < GoneAt(d, e, k, request.sensor))
  {
    var tape, servedAt := Moment(d, e, k, request.sensor - 1);
    ChunkServed(c, e.server(k), e.ambient(k), e.requestId(k), request, e.mtu(k), e.compact(k), tape,
                Base(d, request.sensor - 1), d.capacity, servedAt, d.live[request.sensor - 1], i);
  }

  /** A session is served from that window. */
  lemma ChunkServed(c: Config, t: Server, env: Ambient, id: u16, request: ChunkRequest, mtu: nat, compact: bool,
                    tape: seq<Record>, base: int, capacity: nat, servedAt: nat, ring: seq<Record>, i: nat)
    requires WellFormed(t) && t.auth.session.authenticated && KnownSensor(request.sensor)
    requires NumberedFrom(tape, base) && |tape| <= TWO32 && |ring| <= servedAt <= |tape| && ring == tape[..|ring|]
    requires Device.Served(t.device, request.sensor) == Window(tape, capacity, servedAt)
    requires 0 < request.count && i + request.count <= |ring| && request.start == ring[i].sequence
    ensures var r := Fetch(c, t, env, id, request, mtu, compact);
            if servedAt - Min(servedAt, capacity) <= i then Delivered(r, request, ring, i) else r == Raised(true)
  {
    WindowContiguous(tape, base, capacity, servedAt);
    FetchIs(c, t, env, id, request, mtu, compact);
    ChunkFromTape(tape, base, capacity, servedAt, ring, request, i, ChunkLimit(Capped(request, mtu, compact), MAX_PACKET_SIZE, compact));
  }

  /** New metadata tells how much of the rings described first has been overwritten. */
  lemma MetaHonest(c: Config, d: Device.State, e: Course, k: nat, x: nat)
    requires JustDescribed(d, e) && Follows(d, e) && NumbersUnique(d, e) && 1 <= x <= Device.SENSOR_COUNT && d.live[x - 1] != []
    ensures var r := MetaAt(c, e, k);
            && (r.Renewed? ==> Tells(Description(d), r.meta, x, GoneAt(d, e, k, x)))
            && (!e.metaLost(k) && e.server(k).auth.session.authenticated ==> r.Renewed?)
  {
    if !e.metaLost(k) {
      if e.server(k).auth.session.authenticated {
        SessionMeta(c, d, e, k, x);
      } else {
        NoSessionNoMeta(c, e.server(k), e.ambient(k), e.requestId(k));
      }
    }
  }

  lemma SessionMeta(c: Config, d: Device.State, e: Course, k: nat, x: nat)
    requires JustDescribed(d, e) && Follows(d, e) && NumbersUnique(d, e) && 1 <= x <= Device.SENSOR_COUNT && d.live[x - 1] != []
    requires e.server(k).auth.session.authenticated
    ensures var r := MetaFetched(c, e.server(k), e.ambient(k), e.requestId(k));
            && r.Success? && |r.value.counts| == |r.value.oldest| == Device.SENSOR_COUNT
            && Tells(Description(d), r.value, x, GoneAt(d, e, k, x))
  {
    LaterTold(d, e, k, x);
    MetaFreezes(c, e.server(k), e.ambient(k), e.requestId(k));
  }

  /** The metadata describes the live window. */
  lemma LaterTold(d: Device.State, e: Course, k: nat, x: nat)
    requires JustDescribed(d, e) && Follows(d, e) && NumbersUnique(d, e) && 1 <= x <= Device.SENSOR_COUNT && d.live[x - 1] != []
    ensures Device.Recorded(e.server(k).device)
    ensures Tells(Description(d), Description(e.server(k).device), x, GoneAt(d, e, k, x))
  {
    var tape, servedAt := Moment(d, e, k, x - 1);
    OldestTold(d, e.server(k).device, tape, LengthAt(d, e, k, x - 1), servedAt, x);
  }

  lemma OldestTold(d: Device.State, later: Device.State, tape: seq<Record>, length: nat, servedAt: nat, x: nat)
    requires Device.Shaped(d) && Device.Shaped(later) && 1 <= x <= Device.SENSOR_COUNT && d.live[x - 1] != []
    requires OnTape(d, later, tape, length, servedAt, x - 1)
    ensures Tells(Description(d), Description(later), x, length - Min(length, d.capacity))
  {
    OldestOnTape(tape, Base(d, x - 1), d.capacity, length, d.live[x - 1], later.live[x - 1]);
    Told(d, later, x, length - Min(length, d.capacity));
  }

  lemma OldestOnTape(tape: seq<Record>, base: int, capacity: nat, length: nat, ring: seq<Record>, later: seq<Record>)
    requires NumberedFrom(tape, base) && 0 < capacity && 0 < |ring| <= length <= |tape| && ring == tape[..|ring|]
    requires later == Window(tape, capacity, length)
    ensures Device.OldestOf(later) == Wrap32(Device.OldestOf(ring) + length - Min(length, capacity))
  {
    var low := length - Min(length, capacity);
    assert later[0] == tape[low] && ring[0] == tape[0];
    WrapAdd(base, low);
  }

  lemma Told(d: Device.State, later: Device.State, x: nat, gone: nat)
    requires Device.Shaped(d) && Device.Shaped(later) && 1 <= x <= Device.SENSOR_COUNT && later.bootId == d.bootId
    requires gone + TWO16 <= TWO32 && Device.OldestOf(later.live[x - 1]) == Wrap32(Device.OldestOf(d.live[x - 1]) + gone)
    ensures Tells(Description(d), Description(later), x, gone)
  {
  }

  lemma LiveFetches(c: Config, e: Course, w: World, request: ChunkRequest, answers: nat -> FetchResult)
    requires w == LiveWorld(c, e) && answers == AnswerAt(c, e, request)
    ensures w.clock == e.clock && w.deadline == e.deadline && w.retries == e.retries
    ensures forall j :: w.fetch(j, request) == Suffered(e.mishap(j), request, answers(j))
  {
  }

  lemma AcceptedIsAnswer(c: Config, e: Course, w: World, k: nat, request: ChunkRequest, answers: nat -> FetchResult)
    requires w == LiveWorld(c, e) && answers == AnswerAt(c, e, request)
    requires w.fetch(k, request).Arrived? && Acceptable(w.fetch(k, request).chunk, request)
    ensures w.fetch(k, request) == answers(k)
  {
    LiveFetches(c, e, w, request, answers);
  }

  lemma CallHonest(c: Config, d: Device.State, e: Course, w: World, k: nat, request: ChunkRequest, i: nat, answers: nat -> FetchResult)
    requires JustDescribed(d, e) && Follows(d, e) && NumbersUnique(d, e) && w == LiveWorld(c, e) && answers == AnswerAt(c, e, request)
    requires Seeks(request, d.live, i) && w.fetch(k, request).Arrived? && Acceptable(w.fetch(k, request).chunk, request)
    ensures Delivered(w.fetch(k, request), request, d.live[request.sensor - 1], i)
  {
    AcceptedIsAnswer(c, e, w, k, request, answers);
    ChunkHonest(c, d, e, k, request, i, answers(k));
  }

  /** So the device is honest towards the transfer. */
  lemma LiveIsHonest(c: Config, d: Device.State, e: Course, w: World, gone: Overwriting)
    requires JustDescribed(d, e) && Follows(d, e) && NumbersUnique(d, e) && w == LiveWorld(c, e) && gone == Gone(d, e)
    ensures Describes(Description(d), d.live) && Honest(Description(d), w, d.live, gone)
  {
    DescriptionDescribes(d);
    GoneGrows(d, e, gone);
    forall k: nat, request: ChunkRequest, i: nat
      | Seeks(request, d.live, i) && w.fetch(k, request).Arrived? && Acceptable(w.fetch(k, request).chunk, request)
      ensures Delivered(w.fetch(k, request), request, d.live[request.sensor - 1], i)
    {
      CallHonest(c, d, e, w, k, request, i, AnswerAt(c, e, request));
    }
    forall k: nat, x: nat | Sensor(Description(d), x) && w.refresh(k).Renewed?
      ensures Tells(Description(d), w.refresh(k).meta, x, gone(k, x))
    {
      MetaHonest(c, d, e, k, x);
    }
  }

  /**
   * On an open session, in time, with no more than `retries` failing chunk calls in a row and every
   * metadata request answered.
   */
  ghost predicate Undisturbed(e: Course) {
    Bearable(e.mishap, e.retries) && forall k: nat :: !e.metaLost(k) && e.clock(k) < e.deadline && e.server(k).auth.session.authenticated
  }

  /** A call that gets through brings the records asked for, or they have been overwritten. */
  ghost predicate AllServed(answers: nat -> FetchResult, request: ChunkRequest, ring: seq<Record>, i: nat, gone: Overwriting) {
    forall j :: Delivered(answers(j), request, ring, i) || (answers(j) == Raised(true) && i < gone(j, request.sensor))
  }

  lemma SoonServes(w: World, request: ChunkRequest, k: nat, mishap: nat -> Option<Mishap>, answers: nat -> FetchResult,
                   rings: seq<seq<Record>>, i: nat, gone: Overwriting)
    requires Bearable(mishap, w.retries) && forall j :: w.clock(j) < w.deadline
    requires forall j :: w.fetch(j, request) == Suffered(mishap(j), request, answers(j))
    requires Seeks(request, rings, i) && AllServed(answers, request, rings[request.sensor - 1], i, gone)
    ensures ServedSoon(w, request, k, rings, i, gone)
  {
    var ring := rings[request.sensor - 1];
    var n := CallPasses(w, request, k, mishap, answers);
    assert ServedAt(w, request, k, n, ring, i, gone);
  }

  lemma CallServedSoon(c: Config, d: Device.State, e: Course, w: World, gone: Overwriting, k: nat, request: ChunkRequest, i: nat,
                       answers: nat -> FetchResult)
    requires JustDescribed(d, e) && Follows(d, e) && NumbersUnique(d, e) && Undisturbed(e) && w == LiveWorld(c, e) && gone == Gone(d, e)
    requires Seeks(request, d.live, i) && answers == AnswerAt(c, e, request)
    ensures ServedSoon(w, request, k, d.live, i, gone)
  {
    forall j: nat
      ensures Delivered(answers(j), request, d.live[request.sensor - 1], i) || (answers(j) == Raised(true) && i < gone(j, request.sensor))
    {
      ChunkHonest(c, d, e, j, request, i, answers(j));
    }
    LiveFetches(c, e, w, request, answers);
    SoonServes(w, request, k, e.mishap, answers, d.live, i, gone);
  }

  lemma LiveIsReliable(c: Config, d: Device.State, e: Course, w: World, gone: Overwriting, x: nat)
    requires JustDescribed(d, e) && Follows(d, e) && NumbersUnique(d, e) && Undisturbed(e) && w == LiveWorld(c, e) && gone == Gone(d, e)
    requires 1 <= x <= Device.SENSOR_COUNT && d.live[x - 1] != []
    ensures Reliable(w, d.live, gone)
  {
    forall k: nat
      ensures w.clock(k) < w.deadline && w.refresh(k).Renewed?
    {
      MetaHonest(c, d, e, k, x);
    }
    forall k: nat, request: ChunkRequest, i: nat | Seeks(request, d.live, i)
      ensures ServedSoon(w, request, k, d.live, i, gone)
    {
      CallServedSoon(c, d, e, w, gone, k, request, i, AnswerAt(c, e, request));
    }
  }

  // --- What a transfer brings in --------------------------------------------------------------------------

  /** Of the first `handled` records of the ring, those that are not stored are no longer held. */
  ghost predicate OnlyGoneMissing(records: map<(nat, u32), HistoryValue>, x: nat, ring: seq<Record>, later: seq<Record>, handled: int) {
    forall j :: 0 <= j < handled && j < |ring| ==> (x, ring[j].sequence) in records || !Recovery.Holds(later, ring[j].sequence)
  }

  /** What the ring has lost by then, it does not hold. */
  lemma GoneIsNotHeld(d: Device.State, later: Device.State, tape: seq<Record>, length: nat, servedAt: nat, i: nat, j: nat)
    requires Device.Shaped(d) && Device.Shaped(later) && i < Device.SENSOR_COUNT && OnTape(d, later, tape, length, servedAt, i)
    requires j < |d.live[i]| && j < length - Min(length, d.capacity)
    ensures !Recovery.Holds(later.live[i], d.live[i][j].sequence)
  {
    assert d.live[i][j] == tape[j];
    WindowHolds(tape, Base(d, i), d.capacity, length, j);
  }

  lemma MissingIsGone(d: Device.State, e: Course, t: Sync, x: nat, handled: int)
    requires JustDescribed(d, e) && Follows(d, e) && NumbersUnique(d, e) && 1 <= x <= Device.SENSOR_COUNT
    requires Settled(t.records, x, d.live[x - 1], handled, GoneAt(d, e, t.k, x))
    ensures OnlyGoneMissing(t.records, x, d.live[x - 1], e.server(t.k).device.live[x - 1], handled)
  {
    var tape, servedAt := Moment(d, e, t.k, x - 1);
    MissingIsGoneThen(d, e.server(t.k).device, t.records, x, tape, LengthAt(d, e, t.k, x - 1), servedAt, handled);
  }

  lemma MissingIsGoneThen(d: Device.State, later: Device.State, records: map<(nat, u32), HistoryValue>, x: nat,
                          tape: seq<Record>, length: nat, servedAt: nat, handled: int)
    requires Device.Shaped(d) && Device.Shaped(later) && 1 <= x <= Device.SENSOR_COUNT && OnTape(d, later, tape, length, servedAt, x - 1)
    requires Settled(records, x, d.live[x - 1], handled, length - Min(length, d.capacity))
    ensures OnlyGoneMissing(records, x, d.live[x - 1], later.live[x - 1], handled)
  {
    var ring := d.live[x - 1];
    forall j | 0 <= j < handled && j < |ring| && (x, ring[j].sequence) !in records
      ensures !Recovery.Holds(later.live[x - 1], ring[j].sequence)
    {
      GoneIsNotHeld(d, later, tape, length, servedAt, x - 1, j);
    }
  }

  /** The transfer after the metadata request found, and froze, the rings of `d`. */
  function LiveRetrieval(c: Config, d: Device.State, e: Course, first: nat): Sync
    requires Device.Shaped(d)
  {
    RunLoop(Description(d), LiveWorld(c, e), Start(Description(d), first))
  }

  /**
   * Whatever happens during a transfer, further metadata requests by anyone, lost answers, ended
   * sessions: everything stored is the meaning of the record that the ring held under this number when
   * it was described, and of the records the transfer is through with, those it does not have are no
   * longer held by the device.
   */
  lemma LiveTransferIsFaithful(c: Config, d: Device.State, e: Course, first: nat, x: nat)
    requires JustDescribed(d, e) && Follows(d, e) && NumbersUnique(d, e) && 1 <= x <= Device.SENSOR_COUNT
    ensures var t, ring := LiveRetrieval(c, d, e, first), d.live[x - 1];
            && FromRing(t.records, x, ring) && Due(t, x) <= |ring|
            && OnlyGoneMissing(t.records, x, ring, e.server(t.k).device.live[x - 1], |ring| - Due(t, x))
  {
    SettledLive(c, d, e, first, x);
    MissingIsGone(d, e, LiveRetrieval(c, d, e, first), x, |d.live[x - 1]| - Due(LiveRetrieval(c, d, e, first), x));
  }

  lemma SettledLive(c: Config, d: Device.State, e: Course, first: nat, x: nat)
    requires JustDescribed(d, e) && Follows(d, e) && NumbersUnique(d, e) && 1 <= x <= Device.SENSOR_COUNT
    ensures var t, ring := LiveRetrieval(c, d, e, first), d.live[x - 1];
            && FromRing(t.records, x, ring) && Due(t, x) <= |ring|
            && Settled(t.records, x, ring, |ring| - Due(t, x), GoneAt(d, e, t.k, x))
  {
    LiveIsHonest(c, d, e, LiveWorld(c, e), Gone(d, e));
    TransferIsFaithful(Description(d), LiveWorld(c, e), first, d.live, Gone(d, e), x);
  }

  /**
   * And when every request gets through within its retries on an open session, however often the rings
   * are frozen anew meanwhile: every record that the device still holds at the end has been stored.
   */
  lemma LiveTransferKeepsPace(c: Config, d: Device.State, e: Course, first: nat, x: nat)
    requires JustDescribed(d, e) && Follows(d, e) && NumbersUnique(d, e) && 1 <= x <= Device.SENSOR_COUNT && Undisturbed(e)
    ensures var t, ring := LiveRetrieval(c, d, e, first), d.live[x - 1];
            && FromRing(t.records, x, ring)
            && OnlyGoneMissing(t.records, x, ring, e.server(t.k).device.live[x - 1], |ring|)
  {
    SettledLive(c, d, e, first, x);
    AllSettledLive(c, d, e, first, x);
    MissingIsGone(d, e, LiveRetrieval(c, d, e, first), x, |d.live[x - 1]|);
  }

  lemma AllSettledLive(c: Config, d: Device.State, e: Course, first: nat, x: nat)
    requires JustDescribed(d, e) && Follows(d, e) && NumbersUnique(d, e) && 1 <= x <= Device.SENSOR_COUNT && Undisturbed(e)
    ensures var t := LiveRetrieval(c, d, e, first);
            Settled(t.records, x, d.live[x - 1], |d.live[x - 1]|, GoneAt(d, e, t.k, x))
  {
    if d.live[x - 1] != [] {
      LiveIsHonest(c, d, e, LiveWorld(c, e), Gone(d, e));
      LiveIsReliable(c, d, e, LiveWorld(c, e), Gone(d, e), x);
      MissingIsOverwritten(Description(d), LiveWorld(c, e), first, d.live, Gone(d, e), x);
    }
  }

  /** The metadata request leaves the device as these theorems take it up. */
  lemma MetaLeavesFrozen(c: Config, s: Server, env: Ambient, id: u16)
    requires WellFormed(s) && s.auth.session.authenticated && Device.Recorded(s.device)
    ensures JustFrozen(Frozen(c, s, env, id).device) && Frozen(c, s, env, id).device.live == s.device.live
    ensures MetaFetched(c, s, env, id) == Success(Description(Frozen(c, s, env, id).device))
  {
    MetaFreezes(c, s, env, id);
    ExchangeParses(c, s, env, GET_HISTORY_META, id, [], MAX_PACKET_SIZE);
    Device.StepRecorded(s.device, Device.Frozen);
  }

  // --- Courses from inputs ----------------------------------------------------------------------------------

  function EventsBy(c: Config, s: Server, inputs: seq<Runs.Stamped>): nat -> seq<Device.Event>
    requires WellFormed(s) && Runs.Trace(inputs)
  {
    (n: nat) => if n <= |inputs| then DeviceRuns.Events(c, s, inputs, n) else []
  }

  lemma EventsStep(c: Config, s: Server, inputs: seq<Runs.Stamped>, f: nat -> seq<Device.Event>, k: nat)
    requires WellFormed(s) && Runs.Trace(inputs) && k < |inputs| && f == EventsBy(c, s, inputs)
    ensures f(k) <= f(k + 1)
  {
    assert f(k + 1) == DeviceRuns.Events(c, s, inputs, k + 1);
  }

  ghost predicate GrowsStepwise(f: nat -> seq<Device.Event>, n: nat) {
    forall k: nat :: k < n ==> f(k) <= f(k + 1)
  }

  lemma {:induction false} Chained(f: nat -> seq<Device.Event>, m: nat, n: nat, all: nat)
    requires m <= n <= all && GrowsStepwise(f, all)
    ensures f(m) <= f(n)
  {
    if m < n {
      Chained(f, m, n - 1, all);
      assert f(n - 1) <= f(n - 1 + 1);
    }
  }

  lemma EventsGrow(c: Config, s: Server, inputs: seq<Runs.Stamped>, f: nat -> seq<Device.Event>)
    requires WellFormed(s) && Runs.Trace(inputs) && f == EventsBy(c, s, inputs)
    ensures GrowsStepwise(f, |inputs|)
  {
    forall k: nat | k < |inputs|
      ensures f(k) <= f(k + 1)
    {
      EventsStep(c, s, inputs, f, k);
    }
  }

  lemma EventsAt(c: Config, s: Server, inputs: seq<Runs.Stamped>, f: nat -> seq<Device.Event>, n: nat)
    requires WellFormed(s) && Runs.Trace(inputs) && n <= |inputs| && f == EventsBy(c, s, inputs)
    ensures forall event :: event in f(n) ==> Device.Possible(event)
    ensures Runs.At(c, s, inputs, n).device == Device.Steps(s.device, f(n))
  {
    DeviceRuns.TraceIsDeviceRun(c, s, inputs, n);
  }

  /** Whatever bytes arrive, in whatever order, at a device that goes on sampling: that is such a course. */
  lemma InputsFollow(c: Config, s: Server, inputs: seq<Runs.Stamped>, cut: nat -> nat, f: nat -> seq<Device.Event>, e: Course)
    requires WellFormed(s) && Runs.Trace(inputs) && f == EventsBy(c, s, inputs)
    requires forall k: nat :: cut(k) <= |inputs|
    requires forall j: nat, k: nat :: j <= k ==> cut(j) <= cut(k)
    requires e.events == f(|inputs|) && forall k: nat :: e.before(k) == |f(cut(k))|
    requires forall k: nat :: e.server(k) == Runs.At(c, s, inputs, cut(k))
    ensures Follows(s.device, e)
  {
    EventsAt(c, s, inputs, f, |inputs|);
    EventsGrow(c, s, inputs, f);
    forall k: nat
      ensures e.events[..Reached(e, k)] == f(cut(k))
    {
      Chained(f, cut(k), |inputs|, |inputs|);
    }
    forall j: nat, k: nat | j <= k
      ensures Reached(e, j) <= Reached(e, k)
    {
      Chained(f, cut(j), cut(k), |inputs|);
    }
    forall k: nat
      ensures e.server(k).device == Device.Steps(s.device, e.events[..Reached(e, k)])
    {
      EventsAt(c, s, inputs, f, cut(k));
    }
  }
}
