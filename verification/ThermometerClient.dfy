/** Chunk calls of the BLE client, with their fallback to older firmware (backend/pc_client/thermometer_client.py). */
module ThermometerClients {
  import opened Words
  import opened HistoryBuffers
  import opened ApplicationAuth
  import opened Wire
  import opened ProtocolServer
  import opened ProtocolClient
  import opened RoundTrip
  import Device
  import Layouts

  datatype CallError = Protocol(error: ClientError) | TransportFailed

  /** The other side, as this call meets it: reply bytes, or a failed GATT operation. */
  type Link = seq<u8> -> Option<seq<u8>>

  /** What the client remembers between calls; `None` means the device has not shown which form it knows. */
  datatype Memory = Memory(requestId: u16, compact: Option<bool>)

  function NextId(id: u16): u16 {
    (id + 1) % TWO16
  }

  predicate UsesCompact(m: Memory) {
    m.compact != Some(false)
  }

  function Requested(count: int, mtu: nat, compact: bool): int {
    var size := RecordsPerChunk(mtu, compact);
    if count < size then count else size
  }

  /** One request and its response. */
  function Ask(link: Link, id: u16, sensor: int, start: int, count: int, compact: bool): Result<Response, CallError> {
    match BuildHistoryChunk(id, sensor, start, count, compact)
    case Failure(error) => Failure(Protocol(error))
    case Success(packet) =>
      match link(packet)
      case None => Failure(TransportFailed)
      case Some(bytes) => Lifted(ParseResponse(bytes, Some(ChunkOpcode(compact)), Some(id), false))
  }

  function Lifted<T>(r: Result<T, ClientError>): Result<T, CallError> {
    match r
    case Failure(error) => Failure(Protocol(error))
    case Success(value) => Success(value)
  }

  const REFUSED: CallError := Protocol(ProtocolError(Some(InvalidCommand)))

  /** A call in one given form, and whether the device turned out to know it. */
  function Call(link: Link, id: u16, mtu: nat, sensor: int, start: int, count: int, compact: bool)
    : (Result<HistoryChunk, CallError>, bool)
  {
    match Ask(link, id, sensor, start, Requested(count, mtu, compact), compact)
    case Failure(error) => (Failure(error), false)
    case Success(response) => (Lifted(DecodeHistoryChunk(response)), true)
  }

  function Learned(m: Memory, id: u16, answered: bool, compact: bool): Memory {
    Memory(id, if answered then Some(compact) else m.compact)
  }

  /** `get_history_chunk`: at most one refused compact request, then the full form for good. */
  function ChunkCall(m: Memory, link: Link, mtu: nat, sensor: int, start: int, count: int)
    : (Memory, Result<HistoryChunk, CallError>)
  {
    var compact, id := UsesCompact(m), NextId(m.requestId);
    var (result, answered) := Call(link, id, mtu, sensor, start, count, compact);
    if compact && result == Failure(REFUSED) && !answered then
      var (retried, known) := Call(link, NextId(id), mtu, sensor, start, count, false);
      (Memory(NextId(id), Some(false)), retried)
    else (Learned(m, id, answered, compact), result)
  }

  class ThermometerClient {
    var requestId: u16
    var compactSupported: Option<bool>
    var mtu: nat

    ghost function Recall(): Memory
      reads this
    {
      Memory(requestId, compactSupported)
    }

    constructor (mtu: nat)
      ensures Recall() == Memory(0, None) && this.mtu == mtu
    {
      requestId, compactSupported, this.mtu := 0, None, mtu;
    }

    method NextRequestId() returns (id: u16)
      modifies this`requestId
      ensures id == requestId == NextId(old(requestId))
      ensures id == if old(requestId) == 0xFFFF then 0 else old(requestId) + 1
    {
      requestId := (requestId + 1) % TWO16;
      id := requestId;
    }

    function RecordsNow(): nat
      reads this
    {
      RecordsPerChunk(mtu, compactSupported != Some(false))
    }

    method GetHistoryChunk(link: Link, sensor: int, start: int, count: int) returns (result: Result<HistoryChunk, CallError>)
      modifies this`requestId, this`compactSupported
      ensures (Recall(), result) == ChunkCall(old(Recall()), link, mtu, sensor, start, count)
    {
      var compact := compactSupported != Some(false);
      while true
        invariant compact == UsesCompact(Recall())
        invariant compact ==> Recall() == old(Recall())
        invariant !compact && UsesCompact(old(Recall())) ==>
                    Recall() == Memory(NextId(old(requestId)), Some(false))
                    && Call(link, NextId(old(requestId)), mtu, sensor, start, count, true) == (Failure(REFUSED), false)
        invariant !UsesCompact(old(Recall())) ==> Recall() == old(Recall())
        decreases compact
      {
        var id := NextRequestId();
        var size := RecordsNow();
        var response := Ask(link, id, sensor, start, if count < size then count else size, compact);
        if response.Failure? {
          if compact && response.error == REFUSED {
            compactSupported := Some(false);
            compact := false;
            continue;
          }
          return Failure(response.error);
        }
        compactSupported := Some(compact);
        return Lifted(DecodeHistoryChunk(response.value));
      }
    }
  }

  /** Once the full form is settled on, no compact request is sent again, whatever comes back. */
  lemma FullFormIsFinal(m: Memory, link: Link, mtu: nat, sensor: int, start: int, count: int)
    ensures !UsesCompact(m) ==>
              && ChunkCall(m, link, mtu, sensor, start, count).0 == Memory(NextId(m.requestId), Some(false))
              && ChunkCall(m, link, mtu, sensor, start, count).1
                 == Call(link, NextId(m.requestId), mtu, sensor, start, count, false).0
    ensures m.compact == Some(true) ==> ChunkCall(m, link, mtu, sensor, start, count).0.compact.Some?
  {
  }

  // --- Both generations of firmware ---------------------------------------------------------

  /**
   * The link answers `packet` as the device does; an older device, from before the compact form,
   * does not know that opcode.
   */
  ghost predicate Answered(link: Link, c: Config, s: Server, env: Ambient, older: bool, packet: seq<u8>)
    requires WellFormed(s)
  {
    link(packet) == Some(if older && OpcodeOf(packet) == GET_HISTORY_CHUNK_COMPACT
                         then Frame(Bare(GET_HISTORY_CHUNK_COMPACT, RequestIdOf(packet), InvalidCommand))
                         else Exchange(c, s, env, packet, MAX_PACKET_SIZE).1)
  }

  ghost predicate Speaks(link: Link, c: Config, s: Server, env: Ambient, older: bool)
    requires WellFormed(s)
  {
    forall packet {:trigger Answered(link, c, s, env, older, packet)} :: Answered(link, c, s, env, older, packet)
  }

  /** The answer a chunk call deserves: up to `limit` records of the served window, from `start` on. */
  function Due(window: seq<Record>, sensor: u8, start: u32, limit: nat): Result<HistoryChunk, CallError> {
    var records := Slice(window, start, limit);
    if records == [] then Failure(Protocol(ProtocolError(Some(NotAvailable))))
    else Success(HistoryChunk(sensor, start, Meanings(records)))
  }

  predicate Askable(sensor: u8, count: nat) {
    KnownSensor(sensor) && 0 < count
  }

  function Limit(count: nat, mtu: nat, compact: bool): nat
    requires 0 < count
  {
    ChunkLimit(Requested(count, mtu, compact), MAX_PACKET_SIZE, compact)
  }

  /** The bytes of a well-formed chunk request. */
  function PacketOf(id: u16, sensor: u8, start: u32, n: u8, compact: bool): seq<u8> {
    ChunkOffsets();
    BuildRequest(ChunkOpcode(compact), id, Layouts.Pack(HISTORY_CHUNK_REQUEST, ChunkRequestValues(sensor, start, n))).value
  }

  /** A call is a matter of the bytes that come back. */
  lemma CallIs(link: Link, id: u16, mtu: nat, sensor: u8, start: u32, count: nat, compact: bool, bytes: seq<u8>)
    requires Askable(sensor, count)
    requires link(PacketOf(id, sensor, start, Requested(count, mtu, compact), compact)) == Some(bytes)
    ensures Call(link, id, mtu, sensor, start, count, compact)
         == match ParseResponse(bytes, Some(ChunkOpcode(compact)), Some(id), false)
            case Failure(error) => (Failure(Protocol(error)), false)
            case Success(response) => (Lifted(DecodeHistoryChunk(response)), true)
  {
    BuiltChunk(id, sensor, start, Requested(count, mtu, compact), compact);
  }

  lemma FetchedFrom(c: Config, s: Server, env: Ambient, id: u16, sensor: u8, start: u32, n: u8, compact: bool, bytes: seq<u8>)
    requires WellFormed(s) && bytes == Exchange(c, s, env, PacketOf(id, sensor, start, n, compact), MAX_PACKET_SIZE).1
    ensures FetchedChunk(c, s, env, id, sensor, start, n, MAX_PACKET_SIZE, compact)
         == match ParseResponse(bytes, Some(ChunkOpcode(compact)), Some(id), false)
            case Failure(error) => Failure(error)
            case Success(response) => DecodeHistoryChunk(response)
  {
  }

  /** A request the device understands is answered from its window. */
  lemma CallServed(c: Config, s: Server, env: Ambient, older: bool, link: Link, id: u16, mtu: nat, sensor: u8, start: u32, count: nat, compact: bool)
    requires WellFormed(s) && s.auth.session.authenticated && Askable(sensor, count)
    requires Device.Contiguous(Device.Served(s.device, sensor))
    requires Speaks(link, c, s, env, older) && !(older && compact)
    ensures var (result, known) := Call(link, id, mtu, sensor, start, count, compact);
            && result == Due(Device.Served(s.device, sensor), sensor, start, Limit(count, mtu, compact))
            && (result.Success? ==> known)
  {
    var n: u8 := Requested(count, mtu, compact);
    BuiltChunk(id, sensor, start, n, compact);
    assert Answered(link, c, s, env, older, PacketOf(id, sensor, start, n, compact));
    var bytes := link(PacketOf(id, sensor, start, n, compact)).value;
    CallIs(link, id, mtu, sensor, start, count, compact, bytes);
    FetchedFrom(c, s, env, id, sensor, start, n, compact, bytes);
    ChunkFetched(c, s, env, id, sensor, start, n, MAX_PACKET_SIZE, compact);
  }

  lemma BuiltChunk(id: u16, sensor: u8, start: u32, n: u8, compact: bool)
    requires KnownSensor(sensor) && 1 <= n <= MaxRecords(compact)
    ensures var payload := Layouts.Pack(HISTORY_CHUNK_REQUEST, ChunkRequestValues(sensor, start, n));
            && BuildHistoryChunk(id, sensor, start, n, compact) == BuildRequest(ChunkOpcode(compact), id, payload)
            && BuildRequest(ChunkOpcode(compact), id, payload).Success?
            && PacketOf(id, sensor, start, n, compact) == BuildRequest(ChunkOpcode(compact), id, payload).value
            && OpcodeOf(PacketOf(id, sensor, start, n, compact)) == ChunkOpcode(compact)
            && RequestIdOf(PacketOf(id, sensor, start, n, compact)) == id
  {
    ChunkOffsets();
    RequestAccepted(ChunkOpcode(compact), id, Layouts.Pack(HISTORY_CHUNK_REQUEST, ChunkRequestValues(sensor, start, n)));
  }

  lemma CompactRefused(c: Config, s: Server, env: Ambient, link: Link, id: u16, mtu: nat, sensor: u8, start: u32, count: nat)
    requires WellFormed(s) && Askable(sensor, count) && Speaks(link, c, s, env, true)
    ensures Call(link, id, mtu, sensor, start, count, true) == (Failure(REFUSED), false)
  {
    var n: u8 := Requested(count, mtu, true);
    BuiltChunk(id, sensor, start, n, true);
    assert Answered(link, c, s, env, true, PacketOf(id, sensor, start, n, true));
    ReplyParsed(Bare(GET_HISTORY_CHUNK_COMPACT, id, InvalidCommand));
    CallIs(link, id, mtu, sensor, start, count, true, Frame(Bare(GET_HISTORY_CHUNK_COMPACT, id, InvalidCommand)));
  }

  /** A first answer other than a refusal is the call's answer. */
  lemma AnsweredAtOnce(m: Memory, link: Link, mtu: nat, sensor: int, start: int, count: int)
    ensures var (result, known) := Call(link, NextId(m.requestId), mtu, sensor, start, count, UsesCompact(m));
            known || result != Failure(REFUSED) ==> ChunkCall(m, link, mtu, sensor, start, count).1 == result
  {
  }

  /**
   * Either generation of firmware serves the caller: the call yields the device's own records from
   * the requested start on, as many as the form the device knows carries.
   */
  lemma ChunkCallServed(c: Config, s: Server, env: Ambient, older: bool, link: Link, m: Memory, mtu: nat, sensor: u8, start: u32, count: nat)
    requires WellFormed(s) && s.auth.session.authenticated && Askable(sensor, count)
    requires Device.Contiguous(Device.Served(s.device, sensor)) && Speaks(link, c, s, env, older)
    ensures ChunkCall(m, link, mtu, sensor, start, count).1
         == Due(Device.Served(s.device, sensor), sensor, start, Limit(count, mtu, UsesCompact(m) && !older))
    ensures ChunkCall(m, link, mtu, sensor, start, count).0.compact
         == if older || m.compact == Some(false) then Some(false)
            else if Slice(Device.Served(s.device, sensor), start, Limit(count, mtu, true)) == [] then m.compact else Some(true)
  {
    var id := NextId(m.requestId);
    if older && UsesCompact(m) {
      CompactRefused(c, s, env, link, id, mtu, sensor, start, count);
      CallServed(c, s, env, older, link, NextId(id), mtu, sensor, start, count, false);
    } else {
      CallServed(c, s, env, older, link, id, mtu, sensor, start, count, UsesCompact(m));
      AnsweredAtOnce(m, link, mtu, sensor, start, count);
    }
  }

  lemma LimitIsMaximal(count: nat, mtu: nat, compact: bool, held: nat)
    requires 0 < count && 0 < held && 23 <= mtu
    ensures Maximal(Min(Limit(count, mtu, compact), held), count, compact, mtu - 1, held)
  {
  }

  /**
   * Either generation answers a call for a number that its ring holds with as many records from there
   * on as one ATT read response holds, in the compact form if both sides know it, in the full form otherwise.
   */
  lemma ChunkCallIsMaximal(c: Config, s: Server, env: Ambient, older: bool, link: Link, m: Memory, mtu: nat, sensor: u8, count: nat,
                           ring: seq<Record>, i: nat)
    requires WellFormed(s) && s.auth.session.authenticated && KnownSensor(sensor) && 0 < count && 23 <= mtu
    requires Speaks(link, c, s, env, older)
    requires ring == RingRead(s.device, sensor) && Device.Contiguous(ring) && i < |ring| <= 0xFFFF
    ensures var r := ChunkCall(m, link, mtu, sensor, ring[i].sequence, count).1;
            r.Success? && Brings(r.value, ring, sensor, i, count, !older && m.compact != Some(false), mtu - 1)
  {
    var compact := UsesCompact(m) && !older;
    ChunkCallServed(c, s, env, older, link, m, mtu, sensor, ring[i].sequence, count);
    LimitIsMaximal(count, mtu, compact, |ring| - i);
    SliceBrings(ring, sensor, i, Limit(count, mtu, compact), count, compact, mtu - 1);
  }

  /** So a newer and an older device with the same rings give answers of which one begins with the other. */
  lemma GenerationsAgree(c: Config, s: Server, env: Ambient, newer: Link, older: Link, m: Memory, mtu: nat,
                         sensor: u8, start: u32, count: nat)
    requires WellFormed(s) && s.auth.session.authenticated && Askable(sensor, count)
    requires Device.Contiguous(Device.Served(s.device, sensor))
    requires Speaks(newer, c, s, env, false) && Speaks(older, c, s, env, true)
    ensures Alike(ChunkCall(m, newer, mtu, sensor, start, count).1, ChunkCall(m, older, mtu, sensor, start, count).1)
  {
    ChunkCallServed(c, s, env, false, newer, m, mtu, sensor, start, count);
    ChunkCallServed(c, s, env, true, older, m, mtu, sensor, start, count);
    DueNest(Device.Served(s.device, sensor), sensor, start, Limit(count, mtu, UsesCompact(m)), Limit(count, mtu, false));
  }

  /** Both fail, or one list of records begins with the other. */
  predicate Alike(x: Result<HistoryChunk, CallError>, y: Result<HistoryChunk, CallError>) {
    && x.Success? == y.Success?
    && (x.Success? ==> x.value.records <= y.value.records || y.value.records <= x.value.records)
  }

  lemma DueNest(window: seq<Record>, sensor: u8, start: u32, a: nat, b: nat)
    requires 0 < a && 0 < b
    ensures Alike(Due(window, sensor, start, a), Due(window, sensor, start, b))
  {
    SlicesNest(window, start, a, b);
  }
}
