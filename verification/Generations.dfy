/** Whole transfers through the client's fallback, against today's firmware and older one. */
module Generations {
  import opened Words
  import opened HistoryBuffers
  import opened ApplicationAuth
  import opened Wire
  import opened ProtocolServer
  import opened ProtocolClient
  import opened HistorySync
  import opened ThermometerClients
  import opened Recovery
  import Accounts = HistoryAccounting
  import Device

  /** How the synchronizer sees the end of a chunk call. */
  function ResultOf(r: Result<HistoryChunk, CallError>): FetchResult {
    match r
    case Success(chunk) => Arrived(chunk)
    case Failure(error) => Raised(error == Protocol(ProtocolError(Some(NotAvailable))))
  }

  /** What the client remembers and what it talks to when interaction `k` begins. */
  datatype ClientSide = ClientSide(memory: nat -> Memory, link: nat -> Link)

  /** What a call brings, at any time, if nothing befalls it. */
  function CallAt(e: Surroundings, client: ClientSide, request: ChunkRequest): nat -> FetchResult {
    (k: nat) => ResultOf(ChunkCall(client.memory(k), client.link(k), e.mtu(k), request.sensor, request.start, request.count).1)
  }

  /** The synchronizer's world when every chunk goes through `get_history_chunk`. */
  function ClientWorld(e: Surroundings, client: ClientSide): World {
    World(e.clock,
          (k: nat, request: ChunkRequest) => Suffered(e.mishap(k), request, CallAt(e, client, request)(k)),
          (k: nat) => RefreshRaised,
          (k: nat) => RecordsPerChunk(e.mtu(k), UsesCompact(client.memory(k))),
          e.deadline, e.retries)
  }

  /** Every link answers as the device does at that moment. */
  ghost predicate Connected(c: Config, s: Server, e: Surroundings, client: ClientSide, older: bool)
    requires WellFormed(s)
  {
    forall k: nat {:trigger client.link(k)} :: Speaks(client.link(k), c, DeviceAt(c, s, e, k), e.ambient(k), older)
  }

  lemma DueIsChunk(window: seq<Record>, request: ChunkRequest, limit: nat)
    requires KnownSensor(request.sensor)
    ensures ResultOf(Due(window, request.sensor, request.start, limit)) == ChunkOf(window, request, limit)
  {
  }

  /** One call, to a device that serves the frozen rings. */
  lemma CallDelivers(c: Config, d: Server, env: Ambient, older: bool, link: Link, m: Memory, mtu: nat,
                     frozen: seq<seq<Record>>, request: ChunkRequest, i: nat)
    requires Serving(d, frozen) && Speaks(link, c, d, env, older) && Asks(request, frozen, i)
    requires Device.Contiguous(frozen[request.sensor - 1]) && |frozen[request.sensor - 1]| <= 0xFFFF
    ensures Delivered(ResultOf(ChunkCall(m, link, mtu, request.sensor, request.start, request.count).1),
                      request, frozen[request.sensor - 1], i)
  {
    var limit := Limit(request.count, mtu, UsesCompact(m) && !older);
    assert Device.Served(d.device, request.sensor) == frozen[request.sensor - 1];
    ChunkCallServed(c, d, env, older, link, m, mtu, request.sensor, request.start, request.count);
    DueIsChunk(frozen[request.sensor - 1], request, limit);
    LimitBounds(request.count, mtu, UsesCompact(m) && !older);
    ChunkDelivers(request, frozen, i, limit);
  }

  lemma LimitBounds(count: nat, mtu: nat, compact: bool)
    requires 0 < count
    ensures 0 < Limit(count, mtu, compact) <= count
  {
  }

  lemma ClientAnswers(c: Config, s: Server, e: Surroundings, client: ClientSide, older: bool, frozen: seq<seq<Record>>,
                      meta: DeviceMeta, request: ChunkRequest, i: nat, answers: nat -> FetchResult)
    requires Serving(s, frozen) && Describes(meta, frozen) && Connected(c, s, e, client, older)
    requires Asks(request, frozen, i) && answers == CallAt(e, client, request)
    ensures AllDelivered(answers, request, frozen[request.sensor - 1], i)
  {
    forall k: nat
      ensures Delivered(answers(k), request, frozen[request.sensor - 1], i)
    {
      StillServing(c, s, e, k, frozen);
      CallDelivers(c, DeviceAt(c, s, e, k), e.ambient(k), older, client.link(k), client.memory(k), e.mtu(k), frozen, request, i);
    }
  }

  lemma ClientFetches(e: Surroundings, client: ClientSide, w: World, request: ChunkRequest, answers: nat -> FetchResult)
    requires w == ClientWorld(e, client) && answers == CallAt(e, client, request)
    ensures w.clock == e.clock && w.deadline == e.deadline && w.retries == e.retries
    ensures forall j :: w.fetch(j, request) == Suffered(e.mishap(j), request, answers(j))
  {
  }

  /**
   * A whole transfer through the fallback recovers both frozen rings exactly, from today's firmware and
   * from older one, with no more than `retries` failing calls in a row, whatever the client remembers at
   * each call, and so in particular for the memory that its own calls leave behind.
   */
  lemma EitherGenerationRecovers(c: Config, s: Server, e: Surroundings, client: ClientSide, older: bool,
                                 frozen: seq<seq<Record>>, meta: DeviceMeta, first: nat)
    requires Serving(s, frozen) && Describes(meta, frozen) && Connected(c, s, e, client, older)
    requires Bearable(e.mishap, e.retries) && forall k :: e.clock(k) < e.deadline
    ensures var t := RunLoop(meta, ClientWorld(e, client), Start(meta, first));
            Recovered(t, frozen) && Accounts.Complete(meta, meta.bootId, t)
  {
    var w := ClientWorld(e, client);
    forall k: nat, request: ChunkRequest, i: nat | Asks(request, frozen, i)
      ensures DeliveredSoon(w, request, k, frozen, i)
    {
      var answers := CallAt(e, client, request);
      ClientAnswers(c, s, e, client, older, frozen, meta, request, i, answers);
      ClientFetches(e, client, w, request, answers);
      SoonThrough(w, request, k, e.mishap, answers, frozen, i);
    }
    LoopRecovers(meta, w, frozen, first);
  }

  // --- What the calls leave behind ----------------------------------------------------------------

  /** One chunk call of a transfer. */
  datatype Asked = Asked(link: Link, mtu: nat, sensor: u8, start: u32, count: nat)

  function MemoryAfter(m: Memory, calls: seq<Asked>): Memory {
    if calls == [] then m
    else
      var last := calls[|calls| - 1];
      ChunkCall(MemoryAfter(m, calls[..|calls| - 1]), last.link, last.mtu, last.sensor, last.start, last.count).0
  }

  /** The call reaches an older device that serves contiguous rings to this session. */
  ghost predicate ReachesOlder(call: Asked) {
    Askable(call.sensor, call.count)
    && exists c, s, env ::
         WellFormed(s) && s.auth.session.authenticated && Device.Contiguous(Device.Served(s.device, call.sensor))
         && Speaks(call.link, c, s, env, true)
  }

  /** After its first call to an older device the client keeps to the full form for good. */
  lemma OlderIsRemembered(m: Memory, calls: seq<Asked>)
    requires calls != [] && forall call :: call in calls ==> ReachesOlder(call)
    ensures !UsesCompact(MemoryAfter(m, calls))
  {
    var last := calls[|calls| - 1];
    assert ReachesOlder(last);
    var c, s, env :|
      WellFormed(s) && s.auth.session.authenticated && Device.Contiguous(Device.Served(s.device, last.sensor))
      && Speaks(last.link, c, s, env, true);
    ChunkCallServed(c, s, env, true, last.link, MemoryAfter(m, calls[..|calls| - 1]), last.mtu, last.sensor, last.start, last.count);
  }
}
