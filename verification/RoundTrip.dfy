/** Both ends of the wire together: what the firmware encodes, the client decodes. */
module RoundTrip {
  import opened Words
  import opened Layouts
  import opened HistoryBuffers
  import opened ApplicationAuth
  import opened Wire
  import opened ProtocolServer
  import opened ProtocolClient
  import Device

  // --- Requests ---------------------------------------------------------------------

  /** The firmware finds no header fault in a client-built request and reads back its parts. */
  lemma RequestAccepted(opcode: u8, id: u16, payload: seq<u8>)
    requires |payload| < TWO16
    ensures BuildRequest(opcode, id, payload).Success?
    ensures var request := BuildRequest(opcode, id, payload).value;
            && HeaderFault(request).None? && OpcodeOf(request) == opcode && RequestIdOf(request) == id
            && request[HEADER_SIZE..] == payload
  {
    HeaderPacked(opcode, id, |payload|, 0, 0);
    var h := HeaderImage(opcode, id, |payload|, 0, 0);
    var request := h + payload;
    U16RoundTrip(id);
    U16RoundTrip(|payload|);
    assert request[2..4] == U16Bytes(id) && request[4..6] == U16Bytes(|payload|);
  }

  lemma ChunkRequestBytes(sensor: u8, start: u32, count: u8)
    ensures var p := Pack(HISTORY_CHUNK_REQUEST, ChunkRequestValues(sensor, start, count));
            |p| == 6 && p[0] == sensor && ReadU32(p[1..5]) == start && p[5] == count
  {
    ChunkOffsets();
    var v := ChunkRequestValues(sensor, start, count);
    var p := Pack(HISTORY_CHUNK_REQUEST, v);
    PackedSlot(HISTORY_CHUNK_REQUEST, v, 0);
    PackedSlot(HISTORY_CHUNK_REQUEST, v, 1);
    PackedSlot(HISTORY_CHUNK_REQUEST, v, 2);
    assert p[0..1] == [sensor] && p[5..6] == [count];
    U32RoundTrip(start);
  }

  lemma DisplayRequestBytes(sensor: u8, enabled: bool)
    ensures var p := Pack(SET_DISPLAY_REQUEST, [Int(sensor), Int(Flag(enabled))]);
            p == [sensor, Flag(enabled)]
  {
    SmallOffsets();
    var v := [Int(sensor), Int(Flag(enabled))];
    var p := Pack(SET_DISPLAY_REQUEST, v);
    PackedSlot(SET_DISPLAY_REQUEST, v, 0);
    PackedSlot(SET_DISPLAY_REQUEST, v, 1);
    assert p[0..1] == [sensor] && p[1..2] == [Flag(enabled)];
  }

  lemma ProofRequestBytes(proof: Proof)
    ensures Pack(AUTH_PROVE_REQUEST, [Bytes(proof)]) == proof
  {
    SmallOffsets();
    PackedSlot(AUTH_PROVE_REQUEST, [Bytes(proof)], 0);
  }

  // --- Response headers -----------------------------------------------------------------

  lemma StatusRoundTrip(status: Status)
    ensures StatusOf(status.Code()) == Some(status)
  {
  }

  /** Every framed reply to a known opcode parses; an error status is reported with its code. */
  lemma ReplyParsed(reply: Reply)
    requires |reply.payload| < TWO16 && KnownOpcode(reply.opcode)
    ensures ParseResponse(Frame(reply), Some(reply.opcode), Some(reply.requestId), false)
         == if reply.status == Ok
            then Success(Response(PROTOCOL_VERSION, reply.opcode, reply.requestId, Ok, reply.payload))
            else Failure(ProtocolError(Some(reply.status)))
  {
    var v := HeaderValues(reply.opcode, reply.requestId, |reply.payload|, reply.status.Code(), RESPONSE_FLAG);
    HeaderPacked(reply.opcode, reply.requestId, |reply.payload|, reply.status.Code(), RESPONSE_FLAG);
    UnpackPack(HEADER, v);
    StatusRoundTrip(reply.status);
    assert Frame(reply)[..HEADER_SIZE] == Pack(HEADER, v);
    assert Frame(reply)[HEADER_SIZE..] == reply.payload;
  }

  /** The bytes a client gets back for the request it built. */
  function Exchange(c: Config, s: Server, env: Ambient, request: seq<u8>, capacity: nat): (r: (Server, seq<u8>))
    requires WellFormed(s) && HEADER_SIZE <= capacity
    ensures WellFormed(r.0)
  {
    var (t, reply) := Process(c, s, env, request, capacity);
    (t, Frame(reply))
  }

  /**
   * For every request a client can build, the matching parse never finds the response malformed:
   * it yields the payload of a success, or the device's own error status.
   */
  lemma ExchangeParses(c: Config, s: Server, env: Ambient, opcode: u8, id: u16, payload: seq<u8>, capacity: nat)
    requires WellFormed(s) && HEADER_SIZE <= capacity && |payload| < TWO16 && KnownOpcode(opcode)
    ensures var request := BuildRequest(opcode, id, payload).value;
            var reply := Dispatch(c, s, env, payload, opcode, id, capacity).1;
            && Process(c, s, env, request, capacity) == Dispatch(c, s, env, payload, opcode, id, capacity)
            && ParseResponse(Exchange(c, s, env, request, capacity).1, Some(opcode), Some(id), false)
               == if reply.status == Ok
                  then Success(Response(PROTOCOL_VERSION, opcode, id, Ok, reply.payload))
                  else Failure(ProtocolError(Some(reply.status)))
  {
    RequestAccepted(opcode, id, payload);
    ReplyParsed(Dispatch(c, s, env, payload, opcode, id, capacity).1);
  }

  // --- Payloads ------------------------------------------------------------------------------

  function Answer(opcode: u8, id: u16, payload: seq<u8>): Response {
    Response(PROTOCOL_VERSION, opcode, id, Ok, payload)
  }

  /** What a client should see of one sensor. */
  function Seen(sensor: nat, latest: Device.Latest): SensorSnapshot {
    SensorSnapshot(sensor, if latest.status == Valid then Some(latest.temperature) else None,
                   Device.Visible(latest), latest.displayEnabled)
  }

  lemma SensorSeen(sensor: nat, latest: Device.Latest)
    ensures DecodeSensor(sensor, latest.temperature, VisibleCode(Device.Visible(latest)), Flag(latest.displayEnabled))
         == Some(Seen(sensor, latest))
  {
  }

  /** GET_CURRENT: the decoded snapshot is the device's, sensor by sensor. */
  lemma CurrentRoundTrip(current: Device.Current, id: u16)
    requires |current.sensors| == Device.SENSOR_COUNT
    ensures DecodeCurrent(Answer(GET_CURRENT, id, Pack(CURRENT_RESPONSE, CurrentValues(current))))
         == Success(CurrentSnapshot(current.bootId, current.newest,
                                    [Seen(1, current.sensors[0]), Seen(2, current.sensors[1])],
                                    if current.averageValid then Some(current.average) else None))
  {
    UnpackPack(CURRENT_RESPONSE, CurrentValues(current));
    SensorSeen(1, current.sensors[0]);
    SensorSeen(2, current.sensors[1]);
  }

  lemma MetaRoundTrip(meta: Device.Meta, id: u16)
    requires |meta.counts| == |meta.oldest| == Device.SENSOR_COUNT
    ensures DecodeMeta(Answer(GET_HISTORY_META, id, Pack(HISTORY_META_RESPONSE, MetaValues(meta))))
         == Success(HistoryMeta(meta.bootId, meta.newest, meta.counts, meta.oldest))
  {
    UnpackPack(HISTORY_META_RESPONSE, MetaValues(meta));
    assert meta.counts == [meta.counts[0], meta.counts[1]] && meta.oldest == [meta.oldest[0], meta.oldest[1]];
  }

  lemma VisibleRoundTrip(v: Device.VisibleState)
    ensures VisibleOf(VisibleCode(v)) == Some(v)
  {
  }

  lemma DisplayRoundTrip(sensor: u8, visible: Device.VisibleState, enabled: bool, id: u16)
    requires KnownSensor(sensor)
    ensures DecodeDisplay(Answer(SET_DISPLAY, id, Pack(SET_DISPLAY_RESPONSE, DisplayValues(sensor, visible, enabled))))
         == Success((sensor, visible, enabled))
  {
    UnpackPack(SET_DISPLAY_RESPONSE, DisplayValues(sensor, visible, enabled));
    VisibleRoundTrip(visible);
  }

  lemma ChallengeRoundTrip(deviceId: DeviceId, bootId: u32, nonce: Nonce, id: u16)
    ensures DecodeChallenge(Answer(AUTH_BEGIN, id, Pack(AUTH_BEGIN_RESPONSE, AuthBeginValues(deviceId, bootId, nonce))))
         == Success(Challenge(deviceId, bootId, nonce))
  {
    UnpackPack(AUTH_BEGIN_RESPONSE, AuthBeginValues(deviceId, bootId, nonce));
  }

  // --- History chunks ---------------------------------------------------------------------------

  /** The value a stored record stands for. */
  function Meaning(r: Record): HistoryValue {
    HistoryValue(r.sequence, if r.status == Valid then Some(r.temperature) else None, r.status)
  }

  function Meanings(records: seq<Record>): (m: seq<HistoryValue>)
    ensures |m| == |records|
    ensures forall i :: 0 <= i < |m| ==> m[i] == Meaning(records[i])
  {
    seq(|records|, i requires 0 <= i < |records| => Meaning(records[i]))
  }

  /** What record `i` of a chunk decodes to: a compact record takes its number from its place. */
  function Received(records: seq<Record>, start: u32, i: nat, compact: bool): HistoryValue
    requires i < |records|
  {
    if compact then Meaning(records[i]).(sequence := Wrap32(start + i)) else Meaning(records[i])
  }

  function ReceivedAll(records: seq<Record>, start: u32, n: nat, compact: bool): (values: seq<HistoryValue>)
    requires n <= |records|
    ensures |values| == n
    ensures forall i :: 0 <= i < n ==> values[i] == Received(records, start, i, compact)
  {
    seq(n, i requires 0 <= i < n => Received(records, start, i, compact))
  }

  lemma RecordRoundTrip(records: seq<Record>, start: u32, i: nat, compact: bool)
    requires i < |records|
    ensures DecodeRecord(RecordImage(records[i], compact), start, i, compact) == Some(Received(records, start, i, compact))
  {
    RecordOffsets();
    UnpackPack(RecordLayout(compact), RecordValues(records[i], compact));
  }

  lemma {:induction false} ImageOfRecord(records: seq<Record>, i: nat, compact: bool)
    requires i < |records|
    ensures (i + 1) * RecordSize(compact) <= |RecordImages(records, compact)|
    ensures ImageAt(RecordImages(records, compact), i, compact) == RecordImage(records[i], compact)
  {
    var front, last := records[..|records| - 1], records[|records| - 1];
    assert RecordImages(records, compact) == RecordImages(front, compact) + RecordImage(last, compact);
    if i < |front| {
      ImageOfRecord(front, i, compact);
      EarlierImage(RecordImages(front, compact), RecordImage(last, compact), i, compact);
    } else {
      LastImage(RecordImages(front, compact), RecordImage(last, compact), i, compact);
    }
  }

  lemma EarlierImage(images: seq<u8>, image: seq<u8>, i: nat, compact: bool)
    requires (i + 1) * RecordSize(compact) <= |images|
    ensures (i + 1) * RecordSize(compact) <= |images + image|
    ensures ImageAt(images + image, i, compact) == ImageAt(images, i, compact)
  {
    var at, size := i * RecordSize(compact), RecordSize(compact);
    assert at + size == (i + 1) * size;
    assert (images + image)[at..at + size] == images[at..at + size];
  }

  lemma LastImage(images: seq<u8>, image: seq<u8>, i: nat, compact: bool)
    requires |images| == i * RecordSize(compact) && |image| == RecordSize(compact)
    ensures (i + 1) * RecordSize(compact) <= |images + image|
    ensures ImageAt(images + image, i, compact) == image
  {
    assert (i + 1) * RecordSize(compact) == |images| + RecordSize(compact);
    assert (images + image)[|images|..] == image;
  }

  lemma DecodedAt(records: seq<Record>, start: u32, i: nat, compact: bool)
    requires i < |records|
    ensures RecordAt(RecordImages(records, compact), start, i, compact) == Some(Received(records, start, i, compact))
  {
    ImageOfRecord(records, i, compact);
    RecordRoundTrip(records, start, i, compact);
  }

  lemma RecordsRoundTrip(records: seq<Record>, start: u32, compact: bool)
    ensures DecodeRecords(RecordImages(records, compact), start, |records|, compact)
         == Some(ReceivedAll(records, start, |records|, compact))
  {
    var images, values := RecordImages(records, compact), ReceivedAll(records, start, |records|, compact);
    var f := (i: nat) => RecordAt(images, start, i, compact);
    forall i | 0 <= i < |values|
      ensures f(i) == Some(values[i])
    {
      DecodedAt(records, start, i, compact);
    }
    CollectsTo(f, values);
  }

  /** A chunk payload decodes to the copied records, in either encoding. */
  lemma ChunkRoundTrip(sensor: u8, start: u32, records: seq<Record>, compact: bool, id: u16)
    requires KnownSensor(sensor) && |records| < 0x100
    ensures DecodeHistoryChunk(Answer(ChunkOpcode(compact), id, ChunkPayload(sensor, start, records, compact)))
         == Success(HistoryChunk(sensor, start, ReceivedAll(records, start, |records|, compact)))
  {
    ChunkOffsets();
    var v := PrefixValues(sensor, start, |records|, RecordSize(compact));
    var payload := ChunkPayload(sensor, start, records, compact);
    UnpackPack(HISTORY_CHUNK_PREFIX, v);
    assert payload[..PREFIX_SIZE] == Pack(HISTORY_CHUNK_PREFIX, v);
    assert payload[PREFIX_SIZE..] == RecordImages(records, compact);
    RecordsRoundTrip(records, start, compact);
  }

  // --- The compact encoding loses nothing --------------------------------------------------------

  /** On a contiguous window, the records from `start` on are numbered start, start + 1, ... */
  lemma SliceNumbered(window: seq<Record>, start: u32, limit: nat, i: nat)
    requires Device.Contiguous(window) && i < |Slice(window, start, limit)|
    ensures Slice(window, start, limit)[i].sequence == Wrap32(start + i)
  {
    var k := Find(window, start);
    assert Slice(window, start, limit)[i] == window[k + i];
    WrapAdd(window[0].sequence + k, i);
  }

  /** Both encodings decode to the meaning of the very same stored records. */
  lemma ReceivedIsMeaning(window: seq<Record>, start: u32, limit: nat, compact: bool)
    requires Device.Contiguous(window)
    ensures var records := Slice(window, start, limit);
            ReceivedAll(records, start, |records|, compact) == Meanings(records)
  {
    var records := Slice(window, start, limit);
    forall i | 0 <= i < |records|
      ensures ReceivedAll(records, start, |records|, compact)[i] == Meaning(records[i])
    {
      SliceNumbered(window, start, limit, i);
    }
  }

  /** What the client makes of a chunk request answered by the device. */
  function FetchedChunk(c: Config, s: Server, env: Ambient, id: u16, sensor: u8, start: u32, count: u8, capacity: nat, compact: bool)
    : Result<HistoryChunk, ClientError>
    requires WellFormed(s) && HEADER_SIZE <= capacity
  {
    var opcode, payload := ChunkOpcode(compact), Pack(HISTORY_CHUNK_REQUEST, ChunkRequestValues(sensor, start, count));
    ChunkOffsets();
    var request := BuildRequest(opcode, id, payload).value;
    match ParseResponse(Exchange(c, s, env, request, capacity).1, Some(opcode), Some(id), false)
    case Failure(e) => Failure(e)
    case Success(r) => DecodeHistoryChunk(r)
  }

  /** The records a chunk request should deliver. */
  function Expected(s: Server, sensor: u8, start: u32, count: u8, capacity: nat, compact: bool): seq<Record>
    requires WellFormed(s) && KnownSensor(sensor)
  {
    Slice(Device.Served(s.device, sensor), start, ChunkLimit(count, capacity, compact))
  }

  /**
   * On an authenticated session, a chunk request over a contiguous window brings back exactly
   * the meaning of the stored records from `start` on, whichever encoding carried them; it is
   * refused as not available exactly when there is none.
   */
  lemma ChunkFetched(c: Config, s: Server, env: Ambient, id: u16, sensor: u8, start: u32, count: u8, capacity: nat, compact: bool)
    requires WellFormed(s) && s.auth.session.authenticated && KnownSensor(sensor) && 0 < count
    requires HEADER_SIZE + PREFIX_SIZE + 7 <= capacity
    requires Device.Contiguous(Device.Served(s.device, sensor))
    ensures var records := Expected(s, sensor, start, count, capacity, compact);
            FetchedChunk(c, s, env, id, sensor, start, count, capacity, compact)
            == if records == [] then Failure(ProtocolError(Some(NotAvailable)))
               else Success(HistoryChunk(sensor, start, Meanings(records)))
  {
    var opcode, payload := ChunkOpcode(compact), Pack(HISTORY_CHUNK_REQUEST, ChunkRequestValues(sensor, start, count));
    var records := Expected(s, sensor, start, count, capacity, compact);
    ChunkDispatched(c, s, env, id, sensor, start, count, capacity, compact);
    ExchangeParses(c, s, env, opcode, id, payload, capacity);
    ServedDecodes(Device.Served(s.device, sensor), start, ChunkLimit(count, capacity, compact), opcode, id, sensor, compact);
  }

  /** The device answers a client's chunk request from the window it serves. */
  lemma ChunkDispatched(c: Config, s: Server, env: Ambient, id: u16, sensor: u8, start: u32, count: u8, capacity: nat, compact: bool)
    requires WellFormed(s) && s.auth.session.authenticated && KnownSensor(sensor) && 0 < count
    requires HEADER_SIZE + PREFIX_SIZE + 7 <= capacity
    ensures var opcode, payload := ChunkOpcode(compact), Pack(HISTORY_CHUNK_REQUEST, ChunkRequestValues(sensor, start, count));
            var records := Expected(s, sensor, start, count, capacity, compact);
            && |payload| == 6 && |records| < 0x100 && ChunkLimit(count, capacity, compact) > 0
            && Dispatch(c, s, env, payload, opcode, id, capacity)
               == (s, ServeRecords(records, opcode, id, sensor, start, compact))
  {
    ChunkRequestBytes(sensor, start, count);
  }

  lemma ServedDecodes(window: seq<Record>, start: u32, limit: nat, opcode: u8, id: u16, sensor: u8, compact: bool)
    requires Device.Contiguous(window) && limit < 0x100 && KnownSensor(sensor) && opcode == ChunkOpcode(compact)
    ensures var records := Slice(window, start, limit);
            && |records| < 0x100
            && var reply := ServeRecords(records, opcode, id, sensor, start, compact);
            && (reply.status == Ok <==> records != []) && (records == [] ==> reply.status == NotAvailable)
            && (records != [] ==>
                  DecodeHistoryChunk(Answer(opcode, id, reply.payload)) == Success(HistoryChunk(sensor, start, Meanings(records))))
  {
    var records := Slice(window, start, limit);
    ChunkRoundTrip(sensor, start, records, compact, id);
    ReceivedIsMeaning(window, start, limit, compact);
  }

  /**
   * As many records as possible: no more than asked for, than the form carries, than fit behind
   * header and prefix, and than there are; and one of these bounds is reached.
   */
  predicate Maximal(n: nat, count: nat, compact: bool, capacity: int, held: nat) {
    var most, size := if compact then 72 else 32, if compact then 3 else 7;
    && 0 < n && n <= count && n <= most && 15 + n * size <= capacity && n <= held
    && (n == count || n == most || 15 + (n + 1) * size > capacity || n == held)
  }

  /** The ring a chunk request reads: the one frozen last, or the live one before the first freeze. */
  function RingRead(d: Device.State, sensor: nat): seq<Record>
    requires Device.Shaped(d) && KnownSensor(sensor)
  {
    if d.frozenValid then d.frozen[sensor - 1] else d.live[sensor - 1]
  }

  lemma LimitMaximal(requested: nat, capacity: nat, compact: bool, held: nat)
    requires 0 < requested && 0 < held && 22 <= capacity
    ensures Maximal(Min(ChunkLimit(requested, capacity, compact), held), requested, compact, capacity, held)
  {
  }

  lemma SliceHeld(window: seq<Record>, start: u32, i: nat, limit: nat)
    requires Device.Contiguous(window) && i < |window| <= 0xFFFF && window[i].sequence == start
    ensures Slice(window, start, limit) == window[i..i + Min(limit, |window| - i)]
  {
    Device.DistinctSequences(window);
    FoundAt(window, start, i);
  }

  /** The chunk brings the ring's records from place `i` on, as many as possible. */
  ghost predicate Brings(chunk: HistoryChunk, ring: seq<Record>, sensor: u8, i: nat, count: nat, compact: bool, capacity: int)
    requires i < |ring|
  {
    && chunk.sensor == sensor && chunk.start == ring[i].sequence
    && i + |chunk.records| <= |ring| && chunk.records == Meanings(ring[i..i + |chunk.records|])
    && Maximal(|chunk.records|, count, compact, capacity, |ring| - i)
  }

  lemma SliceBrings(ring: seq<Record>, sensor: u8, i: nat, limit: nat, count: nat, compact: bool, capacity: int)
    requires Device.Contiguous(ring) && i < |ring| <= 0xFFFF && 0 < limit
    requires Maximal(Min(limit, |ring| - i), count, compact, capacity, |ring| - i)
    ensures var records := Slice(ring, ring[i].sequence, limit);
            records != [] && Brings(HistoryChunk(sensor, ring[i].sequence, Meanings(records)), ring, sensor, i, count, compact, capacity)
  {
    SliceHeld(ring, ring[i].sequence, i, limit);
  }

  /** A chunk request for a number that the ring read from holds brings the records from there on, as many as possible. */
  lemma ChunkIsMaximal(c: Config, s: Server, env: Ambient, id: u16, sensor: u8, count: u8, capacity: nat, compact: bool,
                       ring: seq<Record>, i: nat)
    requires WellFormed(s) && s.auth.session.authenticated && KnownSensor(sensor) && 0 < count && 22 <= capacity
    requires ring == RingRead(s.device, sensor) && Device.Contiguous(ring) && i < |ring| <= 0xFFFF
    ensures var r := FetchedChunk(c, s, env, id, sensor, ring[i].sequence, count, capacity, compact);
            r.Success? && Brings(r.value, ring, sensor, i, count, compact, capacity)
  {
    ChunkFetched(c, s, env, id, sensor, ring[i].sequence, count, capacity, compact);
    LimitMaximal(count, capacity, compact, |ring| - i);
    SliceBrings(ring, sensor, i, ChunkLimit(count, capacity, compact), count, compact, capacity);
  }

  /** For a number that the ring does not hold it is refused as not available. */
  lemma ChunkNotHeld(c: Config, s: Server, env: Ambient, id: u16, sensor: u8, start: u32, count: u8, capacity: nat, compact: bool,
                     ring: seq<Record>)
    requires WellFormed(s) && s.auth.session.authenticated && KnownSensor(sensor) && 0 < count && 22 <= capacity
    requires ring == RingRead(s.device, sensor) && Device.Contiguous(ring)
    requires forall j :: 0 <= j < |ring| ==> ring[j].sequence != start
    ensures FetchedChunk(c, s, env, id, sensor, start, count, capacity, compact) == Failure(ProtocolError(Some(NotAvailable)))
  {
    ChunkFetched(c, s, env, id, sensor, start, count, capacity, compact);
    SliceAbsent(ring, start, ChunkLimit(count, capacity, compact));
  }

  /** A buffer too short for the first record makes the request fail, whatever the ring holds. */
  lemma ChunkTooShort(c: Config, s: Server, env: Ambient, id: u16, sensor: u8, start: u32, count: u8, capacity: nat, compact: bool)
    requires WellFormed(s) && s.auth.session.authenticated && KnownSensor(sensor) && 0 < count
    requires HEADER_SIZE <= capacity < 15 + (if compact then 3 else 7)
    ensures FetchedChunk(c, s, env, id, sensor, start, count, capacity, compact) == Failure(ProtocolError(Some(InternalError)))
  {
    var opcode, payload := ChunkOpcode(compact), Pack(HISTORY_CHUNK_REQUEST, ChunkRequestValues(sensor, start, count));
    ChunkRequestBytes(sensor, start, count);
    ExchangeParses(c, s, env, opcode, id, payload, capacity);
  }

  /**
   * Compact and full responses to the same request agree: both are refused, or the shorter list
   * of decoded records is a prefix of the longer, sequence numbers included.
   */
  lemma CompactRefinesFull(c: Config, s: Server, env: Ambient, id: u16, sensor: u8, start: u32, count: u8, capacity: nat)
    requires WellFormed(s) && s.auth.session.authenticated && KnownSensor(sensor) && 0 < count
    requires HEADER_SIZE + PREFIX_SIZE + 7 <= capacity
    requires Device.Recorded(s.device)
    ensures var compact := FetchedChunk(c, s, env, id, sensor, start, count, capacity, true);
            var full := FetchedChunk(c, s, env, id, sensor, start, count, capacity, false);
            && compact.Success? == full.Success?
            && (compact.Success? ==> full.value.records <= compact.value.records || compact.value.records <= full.value.records)
  {
    Device.EndsAtContiguous(s.device.live[sensor - 1], s.device.newest);
    ChunkFetched(c, s, env, id, sensor, start, count, capacity, true);
    ChunkFetched(c, s, env, id, sensor, start, count, capacity, false);
    SlicesNest(Device.Served(s.device, sensor), start, ChunkLimit(count, capacity, true), ChunkLimit(count, capacity, false));
  }

  lemma SlicesNest(window: seq<Record>, start: u32, a: nat, b: nat)
    requires 0 < a && 0 < b
    ensures Slice(window, start, a) == [] <==> Slice(window, start, b) == []
    ensures Meanings(Slice(window, start, a)) <= Meanings(Slice(window, start, b))
         || Meanings(Slice(window, start, b)) <= Meanings(Slice(window, start, a))
  {
    var x, y := Slice(window, start, a), Slice(window, start, b);
    if |x| <= |y| {
      assert Meanings(x) == Meanings(y)[..|x|];
    } else {
      assert Meanings(y) == Meanings(x)[..|y|];
    }
  }

  // --- Commands -----------------------------------------------------------------------------------

  /** The view shows a connected sensor's temperature, none for a disconnected one, and what its display does. */
  predicate Shows(v: SensorSnapshot, id: nat, latest: Device.Latest) {
    && v.sensor == id && v.enabled == latest.displayEnabled
    && v.temperature == (if latest.status == Valid then Some(latest.temperature as int) else None)
    && (v.state == Device.Unplugged <==> latest.status != Valid)
    && (v.state == Device.On <==> latest.status == Valid && latest.displayEnabled)
  }

  /** Both sensors as they are, and the average of both, cut towards zero, exactly when both are displayed. */
  predicate Portrays(v: CurrentSnapshot, d: Device.State)
    requires Device.Shaped(d)
  {
    && v.bootId == d.bootId && v.newest == d.newest && |v.sensors| == 2
    && Shows(v.sensors[0], 1, d.sensors[0].latest) && Shows(v.sensors[1], 2, d.sensors[1].latest)
    && (v.average.Some? <==> v.sensors[0].state == Device.On && v.sensors[1].state == Device.On)
    && (v.average.Some? ==>
          var sum: int := d.sensors[0].latest.temperature + d.sensors[1].latest.temperature;
          if sum >= 0 then 2 * v.average.value <= sum <= 2 * v.average.value + 1
          else 2 * v.average.value - 1 <= sum <= 2 * v.average.value)
  }

  lemma SnapshotPortrays(d: Device.State)
    requires Device.Shaped(d)
    ensures var c := Device.Snapshot(d);
            Portrays(CurrentSnapshot(c.bootId, c.newest, [Seen(1, c.sensors[0]), Seen(2, c.sensors[1])],
                                     if c.averageValid then Some(c.average) else None), d)
  {
  }

  /** A GET_CURRENT exchange shows the client what the device has, and changes nothing. */
  lemma CurrentFetched(c: Config, s: Server, env: Ambient, id: u16, capacity: nat)
    requires WellFormed(s) && s.auth.session.authenticated && HEADER_SIZE + CURRENT_SIZE <= capacity
    ensures var (t, bytes) := Exchange(c, s, env, BuildRequest(GET_CURRENT, id, []).value, capacity);
            var r := ParseResponse(bytes, Some(GET_CURRENT), Some(id), false);
            t == s && r.Success? && DecodeCurrent(r.value).Success? && Portrays(DecodeCurrent(r.value).value, s.device)
  {
    ExchangeParses(c, s, env, GET_CURRENT, id, [], capacity);
    CurrentRoundTrip(Device.Snapshot(s.device), id);
    SnapshotPortrays(s.device);
  }

  /**
   * A display command does what the client asked for, and the client is told so: an available
   * sensor is switched and reported as it then is, an unavailable one stays as it was.
   */
  lemma DisplayCommanded(c: Config, s: Server, env: Ambient, id: u16, sensor: nat, enabled: bool, capacity: nat)
    requires WellFormed(s) && s.auth.session.authenticated && KnownSensor(sensor) && HEADER_SIZE + 3 <= capacity
    ensures BuildSetDisplay(id, sensor, enabled).Success?
    ensures var (t, bytes) := Exchange(c, s, env, BuildSetDisplay(id, sensor, enabled).value, capacity);
            var r := ParseResponse(bytes, Some(SET_DISPLAY), Some(id), false);
            && t == s.(device := Device.SetDisplay(s.device, sensor, enabled))
            && if Device.Available(s.device, sensor)
               then r.Success? && DecodeDisplay(r.value) == Success((sensor, if enabled then Device.On else Device.Off, enabled))
                    && t.device.sensors[sensor - 1].latest.displayEnabled == enabled
               else r == Failure(ProtocolError(Some(NotAvailable))) && t == s
  {
    var payload := Pack(SET_DISPLAY_REQUEST, [Int(sensor), Int(Flag(enabled))]);
    DisplayDispatched(c, s, env, id, sensor, enabled, capacity);
    ExchangeParses(c, s, env, SET_DISPLAY, id, payload, capacity);
    SwitchedSensor(s.device, sensor, enabled);
    var latest := Device.SetDisplay(s.device, sensor, enabled).sensors[sensor - 1].latest;
    DisplayRoundTrip(sensor, Device.Visible(latest), latest.displayEnabled, id);
  }

  /** How an available sensor shows after the command; an unavailable one is left alone. */
  lemma SwitchedSensor(d: Device.State, sensor: nat, enabled: bool)
    requires Device.Shaped(d) && KnownSensor(sensor)
    ensures var t := Device.SetDisplay(d, sensor, enabled);
            if Device.Available(d, sensor)
            then t.sensors[sensor - 1].latest.displayEnabled == enabled
                 && Device.Visible(t.sensors[sensor - 1].latest) == if enabled then Device.On else Device.Off
            else t == d
  {
  }

  /** The device answers a client's display command with the state it leads to. */
  lemma DisplayDispatched(c: Config, s: Server, env: Ambient, id: u16, sensor: u8, enabled: bool, capacity: nat)
    requires WellFormed(s) && s.auth.session.authenticated && KnownSensor(sensor) && HEADER_SIZE + 3 <= capacity
    ensures var payload := Pack(SET_DISPLAY_REQUEST, [Int(sensor), Int(Flag(enabled))]);
            var device := Device.SetDisplay(s.device, sensor, enabled);
            var latest := device.sensors[sensor - 1].latest;
            |payload| == 2
            && Dispatch(c, s, env, payload, SET_DISPLAY, id, capacity)
               == (s.(device := device),
                   Reply(SET_DISPLAY, id, if Device.Available(s.device, sensor) then Ok else NotAvailable,
                         Pack(SET_DISPLAY_RESPONSE, DisplayValues(sensor, Device.Visible(latest), latest.displayEnabled))))
  {
    DisplayRequestBytes(sensor, enabled);
  }

  // --- The handshake ------------------------------------------------------------------------------

  /** The proof the client computes from the challenge it decoded; `key` is the shared keyed hash. */
  function ClientProof(c: Config, challenge: Challenge): Option<Proof> {
    c.mac(Message(c, challenge.deviceId, challenge.bootId, challenge.nonce))
  }

  /** A client that asks for a challenge and answers it with the keyed hash is let in. */
  ghost predicate LetsIn(c: Config, s: Server, first: Ambient, second: Ambient, id: u16, next: u16, capacity: nat)
    requires WellFormed(s) && HEADER_SIZE <= capacity && forall m :: c.mac(m).Some?
  {
    var begin := BuildRequest(AUTH_BEGIN, id, []).value;
    var (t, bytes) := Exchange(c, s, first, begin, capacity);
    && ParseResponse(bytes, Some(AUTH_BEGIN), Some(id), false).Success?
    && DecodeChallenge(ParseResponse(bytes, Some(AUTH_BEGIN), Some(id), false).value).Success?
    && var challenge := DecodeChallenge(ParseResponse(bytes, Some(AUTH_BEGIN), Some(id), false).value).value;
    && |challenge.deviceId| == 6 && |challenge.nonce| == 16
    && var prove := BuildProof(next, ClientProof(c, challenge).value);
    && prove.Success?
    && var (u, answer) := Exchange(c, t, second, prove.value, capacity);
    && ParseResponse(answer, Some(AUTH_PROVE), Some(next), false) == Success(Answer(AUTH_PROVE, next, []))
    && u.auth.session.authenticated
    && u.device == s.device
  }

  /**
   * A client that knows the passkey is let in: unless a lockout is still running, its proof for the
   * challenge it receives is accepted when it arrives within the timeout.
   */
  lemma Handshake(c: Config, s: Server, first: Ambient, second: Ambient, id: u16, next: u16, capacity: nat)
    requires WellFormed(s) && HEADER_SIZE + AUTH_BEGIN_SIZE <= capacity
    requires s.auth.guard.lockedUntil == 0 || s.auth.guard.lockedUntil <= first.now
    requires 0 <= second.now - first.now <= c.timeout
    requires forall m :: c.mac(m).Some?
    ensures LetsIn(c, s, first, second, id, next, capacity)
  {
    ExchangeParses(c, s, first, AUTH_BEGIN, id, [], capacity);
    var (auth, _) := Begin(s.auth, first.now, first.random);
    ChallengeRoundTrip(auth.session.deviceId, s.device.bootId, auth.session.nonce, id);
    var t := s.(auth := auth);
    var proof := c.mac(Message(c, auth.session.deviceId, s.device.bootId, auth.session.nonce)).value;
    ProofRequestBytes(proof);
    ExchangeParses(c, t, second, AUTH_PROVE, next, proof, capacity);
  }
}
