/** The firmware's request handler (firmware/main/src/protocol.c). */
module ProtocolServer {
  import opened Words
  import opened Layouts
  import opened Buffers
  import opened HistoryBuffers
  import opened ApplicationAuth
  import opened Wire
  import Device

  // --- The handler as a function of the whole device state -------------------------

  datatype Server = Server(device: Device.State, auth: Auth, bondReset: bool)

  predicate WellFormed(s: Server) {
    Device.Shaped(s.device)
  }

  /** What a request brings along from outside: the clock and fresh random bytes. */
  datatype Ambient = Ambient(now: int, random: Nonce)

  function Bare(opcode: u8, id: u16, status: Status): Reply {
    Reply(opcode, id, status, [])
  }

  /** The reply answers this request and fits the response buffer. */
  predicate Answers(reply: Reply, opcode: u8, id: u16, capacity: nat) {
    && reply.opcode == opcode && reply.requestId == id
    && |reply.payload| < TWO16 && HEADER_SIZE + |reply.payload| <= capacity
  }

  function AuthStatus(outcome: Outcome): Status {
    match outcome
    case Accepted => Ok
    case Required => AuthenticationRequired
    case Rejected => AuthenticationFailed
    case Locked => AuthenticationLocked
  }

  function AuthBegin(s: Server, env: Ambient, opcode: u8, id: u16, capacity: nat): (r: (Server, Reply))
    requires WellFormed(s)
    ensures WellFormed(r.0) && (HEADER_SIZE <= capacity ==> Answers(r.1, opcode, id, capacity))
  {
    SmallOffsets();
    var (auth, outcome) := Begin(s.auth, env.now, env.random);
    var t := s.(auth := auth);
    if outcome == Locked then (t, Bare(opcode, id, AuthenticationLocked))
    else if capacity < HEADER_SIZE + AUTH_BEGIN_SIZE then (t, Bare(opcode, id, InternalError))
    else
      (t, Reply(opcode, id, Ok,
                Pack(AUTH_BEGIN_RESPONSE, AuthBeginValues(auth.session.deviceId, s.device.bootId, auth.session.nonce))))
  }

  function AuthProve(c: Config, s: Server, env: Ambient, payload: seq<u8>, opcode: u8, id: u16): (r: (Server, Reply))
    requires WellFormed(s)
    ensures WellFormed(r.0) && r.1 == Bare(opcode, id, r.1.status)
  {
    if |payload| != PROOF_SIZE then (s, Bare(opcode, id, AuthenticationRequired))
    else
      var (auth, outcome) := Prove(c, s.auth, env.now, s.device.bootId, payload);
      (s.(auth := auth), Bare(opcode, id, AuthStatus(outcome)))
  }

  function GetCurrent(s: Server, opcode: u8, id: u16, capacity: nat): (r: Reply)
    requires WellFormed(s)
    ensures HEADER_SIZE <= capacity ==> Answers(r, opcode, id, capacity)
  {
    CurrentOffsets();
    if capacity < HEADER_SIZE + CURRENT_SIZE then Bare(opcode, id, InternalError)
    else Reply(opcode, id, Ok, Pack(CURRENT_RESPONSE, CurrentValues(Device.Snapshot(s.device))))
  }

  function SetDisplay(s: Server, payload: seq<u8>, opcode: u8, id: u16, capacity: nat): (r: (Server, Reply))
    requires WellFormed(s)
    ensures WellFormed(r.0) && (HEADER_SIZE <= capacity ==> Answers(r.1, opcode, id, capacity))
  {
    SmallOffsets();
    if |payload| != 2 then (s, Bare(opcode, id, InvalidValue))
    else if payload[0] == 0 || payload[0] > Device.SENSOR_COUNT then (s, Bare(opcode, id, InvalidSensor))
    else if payload[1] > 1 then (s, Bare(opcode, id, InvalidValue))
    else if capacity < HEADER_SIZE + 3 then (s, Bare(opcode, id, InternalError))
    else
      var device := Device.SetDisplay(s.device, payload[0], payload[1] != 0);
      var latest := device.sensors[payload[0] - 1].latest;
      (s.(device := device),
       Reply(opcode, id, if Device.Available(s.device, payload[0]) then Ok else NotAvailable,
             Pack(SET_DISPLAY_RESPONSE, DisplayValues(payload[0], Device.Visible(latest), latest.displayEnabled))))
  }

  function GetHistoryMeta(s: Server, opcode: u8, id: u16, capacity: nat): (r: (Server, Reply))
    requires WellFormed(s)
    ensures WellFormed(r.0) && (HEADER_SIZE <= capacity ==> Answers(r.1, opcode, id, capacity))
  {
    MetaOffsets();
    if capacity < HEADER_SIZE + META_SIZE then (s, Bare(opcode, id, InternalError))
    else
      (s.(device := Device.Freeze(s.device)),
       Reply(opcode, id, Ok, Pack(HISTORY_META_RESPONSE, MetaValues(Device.MetaOf(s.device)))))
  }

  /** Records that fit next to the fixed parts of a chunk response. */
  function RecordsThatFit(capacity: nat, compact: bool): nat {
    var overhead := HEADER_SIZE + PREFIX_SIZE;
    if capacity > overhead then (capacity - overhead) / RecordSize(compact) else 0
  }

  function ChunkLimit(requested: nat, capacity: nat, compact: bool): nat {
    Min(Min(requested, MaxRecords(compact)), RecordsThatFit(capacity, compact))
  }

  lemma ChunkFits(requested: nat, copied: nat, capacity: nat, compact: bool)
    requires 0 < copied <= ChunkLimit(requested, capacity, compact)
    ensures PREFIX_SIZE + copied * RecordSize(compact) < TWO16
    ensures HEADER_SIZE + PREFIX_SIZE + copied * RecordSize(compact) <= capacity
  {
  }

  function ChunkPayload(sensor: u8, start: u32, records: seq<Record>, compact: bool): (b: seq<u8>)
    requires |records| < 0x100
    ensures |b| == PREFIX_SIZE + |records| * RecordSize(compact)
  {
    ChunkOffsets();
    Pack(HISTORY_CHUNK_PREFIX, PrefixValues(sensor, start, |records|, RecordSize(compact))) + RecordImages(records, compact)
  }

  /** The answer once the records are copied out. */
  function ServeRecords(records: seq<Record>, opcode: u8, id: u16, sensor: u8, start: u32, compact: bool): Reply
    requires |records| < 0x100
  {
    if records == [] then Bare(opcode, id, NotAvailable)
    else Reply(opcode, id, Ok, ChunkPayload(sensor, start, records, compact))
  }

  lemma ServedAnswers(records: seq<Record>, opcode: u8, id: u16, sensor: u8, start: u32, compact: bool, requested: nat, capacity: nat)
    requires |records| <= ChunkLimit(requested, capacity, compact) && HEADER_SIZE <= capacity
    ensures |records| < 0x100 && Answers(ServeRecords(records, opcode, id, sensor, start, compact), opcode, id, capacity)
  {
    if records != [] {
      ChunkFits(requested, |records|, capacity, compact);
    }
  }

  function GetHistoryChunk(s: Server, payload: seq<u8>, opcode: u8, id: u16, capacity: nat, compact: bool): (r: Reply)
    requires WellFormed(s)
    ensures HEADER_SIZE <= capacity ==> Answers(r, opcode, id, capacity)
  {
    if |payload| != 6 then Bare(opcode, id, InvalidValue)
    else
      var sensor, start, requested := payload[0], ReadU32(payload[1..5]), payload[5];
      if sensor == 0 || sensor > Device.SENSOR_COUNT then Bare(opcode, id, InvalidSensor)
      else if requested == 0 then Bare(opcode, id, InvalidValue)
      else
        var limit := ChunkLimit(requested, capacity, compact);
        if limit == 0 then Bare(opcode, id, InternalError)
        else
          var records := Slice(Device.Served(s.device, sensor), start, limit);
          ServedAnswers(records, opcode, id, sensor, start, compact, requested, capacity);
          ServeRecords(records, opcode, id, sensor, start, compact)
  }

  function OpcodeOf(request: seq<u8>): u8 {
    if |request| > 1 then request[1] else 0
  }

  function RequestIdOf(request: seq<u8>): u16 {
    if |request| >= 4 then ReadU16(request[2..4]) else 0
  }

  /** The header fault of a request, if any, in the order the firmware looks for one. */
  function HeaderFault(request: seq<u8>): Option<Status> {
    if |request| < HEADER_SIZE then Some(InvalidValue)
    else if request[0] != PROTOCOL_VERSION then Some(UnsupportedVersion)
    else if request[6] != 0 || request[7] != 0 || ReadU16(request[4..6]) != |request| - HEADER_SIZE then Some(InvalidValue)
    else None
  }

  function Dispatch(c: Config, s: Server, env: Ambient, payload: seq<u8>, opcode: u8, id: u16, capacity: nat): (r: (Server, Reply))
    requires WellFormed(s)
    ensures WellFormed(r.0) && (HEADER_SIZE <= capacity ==> Answers(r.1, opcode, id, capacity))
  {
    if opcode == AUTH_BEGIN then
      if payload != [] then (s, Bare(opcode, id, InvalidValue)) else AuthBegin(s, env, opcode, id, capacity)
    else if opcode == AUTH_PROVE then AuthProve(c, s, env, payload, opcode, id)
    else if !s.auth.session.authenticated then (s, Bare(opcode, id, AuthenticationRequired))
    else if opcode == GET_CURRENT then
      (s, if payload != [] then Bare(opcode, id, InvalidValue) else GetCurrent(s, opcode, id, capacity))
    else if opcode == SET_DISPLAY then SetDisplay(s, payload, opcode, id, capacity)
    else if opcode == GET_HISTORY_META then
      if payload != [] then (s, Bare(opcode, id, InvalidValue)) else GetHistoryMeta(s, opcode, id, capacity)
    else if opcode == GET_HISTORY_CHUNK then (s, GetHistoryChunk(s, payload, opcode, id, capacity, false))
    else if opcode == GET_HISTORY_CHUNK_COMPACT then (s, GetHistoryChunk(s, payload, opcode, id, capacity, true))
    else if opcode == RESET_BOND then
      if payload != [] then (s, Bare(opcode, id, InvalidValue)) else (s.(bondReset := true), Bare(opcode, id, Ok))
    else (s, Bare(opcode, id, InvalidCommand))
  }

  /** `protocol_process_request` for a response buffer that holds at least a header. */
  function Process(c: Config, s: Server, env: Ambient, request: seq<u8>, capacity: nat): (r: (Server, Reply))
    requires WellFormed(s)
    ensures WellFormed(r.0) && (HEADER_SIZE <= capacity ==> Answers(r.1, OpcodeOf(request), RequestIdOf(request), capacity))
  {
    var opcode, id := OpcodeOf(request), RequestIdOf(request);
    match HeaderFault(request)
    case Some(status) => (s, Bare(opcode, id, status))
    case None => Dispatch(c, s, env, request[HEADER_SIZE..], opcode, id, capacity)
  }

  /**
   * For every request and every buffer that holds a header: the response fits, its header
   * states its payload length, and it echoes the request's opcode and request ID.
   */
  lemma ProcessTotal(c: Config, s: Server, env: Ambient, request: seq<u8>, capacity: nat)
    requires WellFormed(s) && HEADER_SIZE <= capacity
    ensures var (t, reply) := Process(c, s, env, request, capacity);
            && WellFormed(t)
            && |reply.payload| < TWO16
            && HEADER_SIZE <= |Frame(reply)| <= capacity
            && Frame(reply)[1] == OpcodeOf(request)
            && Frame(reply)[2..4] == U16Bytes(RequestIdOf(request))
            && ReadU16(Frame(reply)[4..6]) == |Frame(reply)| - HEADER_SIZE
            && Frame(reply)[7] == RESPONSE_FLAG
  {
    var (t, reply) := Process(c, s, env, request, capacity);
    U16RoundTrip(|reply.payload|);
    var h := HeaderImage(reply.opcode, reply.requestId, |reply.payload|, reply.status.Code(), RESPONSE_FLAG);
    assert Frame(reply)[..HEADER_SIZE] == h;
    assert Frame(reply)[2..4] == h[2..4] && Frame(reply)[4..6] == h[4..6];
  }

  // --- The handler in memory: responses are built inside the caller's buffer ---------

  function Blank(n: nat): seq<u8> {
    seq(n, _ => 0)
  }

  /** `s` holds the framed reply and zeroes behind it. */
  ghost predicate Holds(s: seq<u8>, reply: Reply) {
    && |reply.payload| < TWO16
    && |Frame(reply)| <= |s|
    && s == Frame(reply) + Blank(|s| - |Frame(reply)|)
  }

  lemma FinishedFrame(capacity: nat, reply: Reply)
    requires |reply.payload| < TWO16 && HEADER_SIZE + |reply.payload| <= capacity
    ensures var body := Patch(Blank(capacity), HEADER_SIZE, reply.payload);
            Holds(Patch(body, 0, HeaderImage(reply.opcode, reply.requestId, |reply.payload|, reply.status.Code(), RESPONSE_FLAG)), reply)
  {
  }

  /** `finish_response`: the header is written last, in front of a finished payload. */
  method FinishResponse(response: array<u8>, opcode: u8, id: u16, status: Status, payload: nat, ghost reply: Reply)
    returns (length: nat)
    requires reply.opcode == opcode && reply.requestId == id && reply.status == status
    requires payload == |reply.payload| < TWO16 && HEADER_SIZE + payload <= response.Length
    requires response[..] == Patch(Blank(response.Length), HEADER_SIZE, reply.payload)
    modifies response
    ensures Holds(response[..], reply) && length == |Frame(reply)|
  {
    EncodeHeader(response, opcode, id, status, payload);
    FinishedFrame(response.Length, reply);
    length := HEADER_SIZE + payload;
  }

  /** The eight header bytes, one field after another. */
  method EncodeHeader(response: array<u8>, opcode: u8, id: u16, status: Status, payload: u16)
    requires HEADER_SIZE <= response.Length
    modifies response
    ensures response[..] == Patch(old(response[..]), 0, HeaderImage(opcode, id, payload, status.Code(), RESPONSE_FLAG))
  {
    HeaderOffsets();
    ghost var was, values := response[..], HeaderValues(opcode, id, payload, status.Code(), RESPONSE_FLAG);
    WriteU8(response, 0, PROTOCOL_VERSION);
    WriteNext(was, 0, HEADER, values, 0);
    WriteU8(response, 1, opcode);
    WriteNext(was, 0, HEADER, values, 1);
    WriteU16(response, 2, id);
    WriteNext(was, 0, HEADER, values, 2);
    WriteU16(response, 4, payload);
    WriteNext(was, 0, HEADER, values, 3);
    WriteU8(response, 6, status.Code());
    WriteNext(was, 0, HEADER, values, 4);
    WriteU8(response, 7, RESPONSE_FLAG);
    WriteNext(was, 0, HEADER, values, 5);
    WritesPack(was, 0, HEADER, values);
    HeaderPacked(opcode, id, payload, status.Code(), RESPONSE_FLAG);
  }

  /** Finish a response without payload. */
  method FinishBare(response: array<u8>, opcode: u8, id: u16, status: Status) returns (length: nat)
    requires HEADER_SIZE <= response.Length && response[..] == Blank(response.Length)
    modifies response
    ensures Holds(response[..], Bare(opcode, id, status)) && length == |Frame(Bare(opcode, id, status))|
  {
    length := FinishResponse(response, opcode, id, status, 0, Bare(opcode, id, status));
  }

  /** The six fields of GET_HISTORY_META. */
  method EncodeMeta(response: array<u8>, meta: Device.Meta)
    requires |meta.counts| == |meta.oldest| == Device.SENSOR_COUNT
    requires HEADER_SIZE + META_SIZE <= response.Length
    modifies response
    ensures |Pack(HISTORY_META_RESPONSE, MetaValues(meta))| == META_SIZE
    ensures response[..] == Patch(old(response[..]), HEADER_SIZE, Pack(HISTORY_META_RESPONSE, MetaValues(meta)))
  {
    MetaOffsets();
    ghost var was, values := response[..], MetaValues(meta);
    WriteU32(response, 8, meta.bootId);
    WriteNext(was, 8, HISTORY_META_RESPONSE, values, 0);
    WriteU32(response, 12, meta.newest);
    WriteNext(was, 8, HISTORY_META_RESPONSE, values, 1);
    WriteU16(response, 16, meta.counts[0]);
    WriteNext(was, 8, HISTORY_META_RESPONSE, values, 2);
    WriteU16(response, 18, meta.counts[1]);
    WriteNext(was, 8, HISTORY_META_RESPONSE, values, 3);
    WriteU32(response, 20, meta.oldest[0]);
    WriteNext(was, 8, HISTORY_META_RESPONSE, values, 4);
    WriteU32(response, 24, meta.oldest[1]);
    WriteNext(was, 8, HISTORY_META_RESPONSE, values, 5);
    WritesPack(was, 8, HISTORY_META_RESPONSE, values);
  }

  /** The eleven fields of GET_CURRENT. */
  method EncodeCurrent(response: array<u8>, current: Device.Current)
    requires |current.sensors| == Device.SENSOR_COUNT
    requires HEADER_SIZE + CURRENT_SIZE <= response.Length
    modifies response
    ensures |Pack(CURRENT_RESPONSE, CurrentValues(current))| == CURRENT_SIZE
    ensures response[..] == Patch(old(response[..]), HEADER_SIZE, Pack(CURRENT_RESPONSE, CurrentValues(current)))
  {
    CurrentOffsets();
    ghost var was := response[..];
    EncodeIdentity(response, current);
    EncodeSensorFields(response, current, 0, was);
    EncodeSensorFields(response, current, 1, was);
    EncodeAverage(response, current, was);
  }

  /** One sensor's fields of GET_CURRENT. */
  method EncodeSensorFields(response: array<u8>, current: Device.Current, i: nat, ghost was: seq<u8>)
    requires |current.sensors| == Device.SENSOR_COUNT && i < Device.SENSOR_COUNT
    requires HEADER_SIZE + CURRENT_SIZE <= |was| == response.Length
    requires Offset(CURRENT_RESPONSE, 2 + 3 * i) == 8 + 4 * i && Offset(CURRENT_RESPONSE, 5 + 3 * i) == 12 + 4 * i
    requires response[..] == Written(was, 8, CURRENT_RESPONSE, CurrentValues(current), 2 + 3 * i)
    modifies response
    ensures response[..] == Written(was, 8, CURRENT_RESPONSE, CurrentValues(current), 5 + 3 * i)
  {
    EncodeSensor(response, current.sensors[i], 16 + 4 * i);
    SensorFields(was, current, i);
  }

  /** The first two fields of GET_CURRENT. */
  method EncodeIdentity(response: array<u8>, current: Device.Current)
    requires |current.sensors| == Device.SENSOR_COUNT
    requires HEADER_SIZE + CURRENT_SIZE <= response.Length && Offset(CURRENT_RESPONSE, 2) == 8
    modifies response
    ensures response[..] == Written(old(response[..]), 8, CURRENT_RESPONSE, CurrentValues(current), 2)
  {
    CurrentOffsets();
    ghost var was, values := response[..], CurrentValues(current);
    WriteU32(response, 8, current.bootId);
    WriteNext(was, 8, CURRENT_RESPONSE, values, 0);
    WriteU32(response, 12, current.newest);
    WriteNext(was, 8, CURRENT_RESPONSE, values, 1);
  }

  /** The last three fields of GET_CURRENT. */
  method EncodeAverage(response: array<u8>, current: Device.Current, ghost was: seq<u8>)
    requires |current.sensors| == Device.SENSOR_COUNT
    requires HEADER_SIZE + CURRENT_SIZE <= |was| == response.Length && Offset(CURRENT_RESPONSE, 8) == 16
    requires response[..] == Written(was, 8, CURRENT_RESPONSE, CurrentValues(current), 8)
    modifies response
    ensures |Pack(CURRENT_RESPONSE, CurrentValues(current))| == CURRENT_SIZE
    ensures response[..] == Patch(was, HEADER_SIZE, Pack(CURRENT_RESPONSE, CurrentValues(current)))
  {
    CurrentOffsets();
    ghost var values := CurrentValues(current);
    WriteI16(response, 24, current.average);
    WriteNext(was, 8, CURRENT_RESPONSE, values, 8);
    WriteU8(response, 26, Flag(current.averageValid));
    WriteNext(was, 8, CURRENT_RESPONSE, values, 9);
    WriteU8(response, 27, 0);
    WriteNext(was, 8, CURRENT_RESPONSE, values, 10);
    WritesPack(was, 8, CURRENT_RESPONSE, values);
  }

  ghost function SensorPatched(s: seq<u8>, sensor: Device.Latest, at: nat): (t: seq<u8>)
    requires at + 4 <= |s|
    ensures |t| == |s|
  {
    Patch(Patch(Patch(s, at, I16Bytes(sensor.temperature)), at + 2, [VisibleCode(Device.Visible(sensor))]),
          at + 3, [Flag(sensor.displayEnabled)])
  }

  /** `encode_sensor_snapshot`. */
  method EncodeSensor(response: array<u8>, sensor: Device.Latest, at: nat)
    requires at + 4 <= response.Length
    modifies response
    ensures response[..] == SensorPatched(old(response[..]), sensor, at)
  {
    WriteI16(response, at, sensor.temperature);
    WriteU8(response, at + 2, VisibleCode(Device.Visible(sensor)));
    WriteU8(response, at + 3, Flag(sensor.displayEnabled));
  }

  /** One sensor's three writes are three consecutive fields of the layout. */
  lemma SensorFields(was: seq<u8>, current: Device.Current, i: nat)
    requires |current.sensors| == Device.SENSOR_COUNT && i < Device.SENSOR_COUNT
    requires HEADER_SIZE + CURRENT_SIZE <= |was|
    ensures Offset(CURRENT_RESPONSE, 2 + 3 * i) == 8 + 4 * i && Offset(CURRENT_RESPONSE, 5 + 3 * i) == 12 + 4 * i
    ensures SensorPatched(Written(was, 8, CURRENT_RESPONSE, CurrentValues(current), 2 + 3 * i), current.sensors[i], 16 + 4 * i)
         == Written(was, 8, CURRENT_RESPONSE, CurrentValues(current), 5 + 3 * i)
  {
    CurrentOffsets();
    var values, n := CurrentValues(current), 2 + 3 * i;
    SensorValues(current, i);
    WriteNext(was, 8, CURRENT_RESPONSE, values, n);
    WriteNext(was, 8, CURRENT_RESPONSE, values, n + 1);
    WriteNext(was, 8, CURRENT_RESPONSE, values, n + 2);
  }

  lemma SensorValues(current: Device.Current, i: nat)
    requires |current.sensors| == Device.SENSOR_COUNT && i < Device.SENSOR_COUNT
    ensures var v, s, n := CurrentValues(current), current.sensors[i], 2 + 3 * i;
            && EncodeField(CURRENT_RESPONSE[n].kind, v[n]) == I16Bytes(s.temperature)
            && EncodeField(CURRENT_RESPONSE[n + 1].kind, v[n + 1]) == [VisibleCode(Device.Visible(s))]
            && EncodeField(CURRENT_RESPONSE[n + 2].kind, v[n + 2]) == [Flag(s.displayEnabled)]
            && Offset(CURRENT_RESPONSE, n) == 8 + 4 * i && Offset(CURRENT_RESPONSE, n + 1) == 10 + 4 * i
            && Offset(CURRENT_RESPONSE, n + 2) == 11 + 4 * i && Offset(CURRENT_RESPONSE, n + 3) == 12 + 4 * i
  {
    CurrentOffsets();
  }

  /** One history record at `at`, in either encoding. */
  method EncodeRecord(response: array<u8>, at: nat, record: Record, compact: bool)
    requires at + RecordSize(compact) <= response.Length
    modifies response
    ensures response[..] == Patch(old(response[..]), at, RecordImage(record, compact))
  {
    if compact {
      EncodeCompact(response, at, record);
    } else {
      EncodeFull(response, at, record);
    }
  }

  method EncodeCompact(response: array<u8>, at: nat, record: Record)
    requires at + RecordSize(true) <= response.Length
    modifies response
    ensures response[..] == Patch(old(response[..]), at, RecordImage(record, true))
  {
    RecordOffsets();
    ghost var was, values := response[..], RecordValues(record, true);
    WriteI16(response, at, record.temperature);
    WriteNext(was, at, COMPACT_HISTORY_RECORD, values, 0);
    WriteU8(response, at + 2, DataCode(record.status));
    WriteNext(was, at, COMPACT_HISTORY_RECORD, values, 1);
    WritesPack(was, at, COMPACT_HISTORY_RECORD, values);
  }

  method EncodeFull(response: array<u8>, at: nat, record: Record)
    requires at + RecordSize(false) <= response.Length
    modifies response
    ensures response[..] == Patch(old(response[..]), at, RecordImage(record, false))
  {
    RecordOffsets();
    ghost var was, values := response[..], RecordValues(record, false);
    WriteU32(response, at, record.sequence);
    WriteNext(was, at, HISTORY_RECORD, values, 0);
    WriteI16(response, at + 4, record.temperature);
    WriteNext(was, at, HISTORY_RECORD, values, 1);
    WriteU8(response, at + 6, DataCode(record.status));
    WriteNext(was, at, HISTORY_RECORD, values, 2);
    WritesPack(was, at, HISTORY_RECORD, values);
  }

  method EncodePrefix(response: array<u8>, sensor: u8, start: u32, count: u8, size: u8)
    requires HEADER_SIZE + PREFIX_SIZE <= response.Length
    modifies response
    ensures |Pack(HISTORY_CHUNK_PREFIX, PrefixValues(sensor, start, count, size))| == PREFIX_SIZE
    ensures response[..] == Patch(old(response[..]), HEADER_SIZE, Pack(HISTORY_CHUNK_PREFIX, PrefixValues(sensor, start, count, size)))
  {
    ChunkOffsets();
    ghost var was, values := response[..], PrefixValues(sensor, start, count, size);
    WriteU8(response, 8, sensor);
    WriteNext(was, 8, HISTORY_CHUNK_PREFIX, values, 0);
    WriteU32(response, 9, start);
    WriteNext(was, 8, HISTORY_CHUNK_PREFIX, values, 1);
    WriteU8(response, 13, count);
    WriteNext(was, 8, HISTORY_CHUNK_PREFIX, values, 2);
    WriteU8(response, 14, size);
    WriteNext(was, 8, HISTORY_CHUNK_PREFIX, values, 3);
    WritesPack(was, 8, HISTORY_CHUNK_PREFIX, values);
  }

  lemma PatchTwice(s: seq<u8>, at: nat, a: seq<u8>, b: seq<u8>)
    requires at + |a| + |b| <= |s|
    ensures Patch(Patch(s, at, a), at + |a|, b) == Patch(s, at, a + b)
  {
  }

  lemma NextFits(i: nat, count: nat, size: nat)
    requires i < count
    ensures (i + 1) * size == i * size + size <= count * size
  {
    assert count * size == (i + 1) * size + (count - i - 1) * size;
  }

  /** Writing record `i` behind its predecessors. */
  lemma NextImage(was: seq<u8>, base: nat, items: seq<Record>, i: nat, count: nat, compact: bool)
    requires i < count <= |items| && base + count * RecordSize(compact) <= |was|
    ensures base + i * RecordSize(compact) + RecordSize(compact) <= |was|
    ensures base + |RecordImages(items[..i], compact)| <= |was| && base + |RecordImages(items[..i + 1], compact)| <= |was|
    ensures Patch(Patch(was, base, RecordImages(items[..i], compact)), base + i * RecordSize(compact), RecordImage(items[i], compact))
         == Patch(was, base, RecordImages(items[..i + 1], compact))
  {
    NextFits(i, count, RecordSize(compact));
    assert items[..i + 1][..i] == items[..i];
    PatchTwice(was, base, RecordImages(items[..i], compact), RecordImage(items[i], compact));
  }

  /** The record loop of a chunk response. */
  method EncodeRecords(response: array<u8>, records: array<Record>, count: nat, compact: bool)
    requires count <= records.Length
    requires HEADER_SIZE + PREFIX_SIZE + count * RecordSize(compact) <= response.Length
    modifies response
    ensures response[..] == Patch(old(response[..]), HEADER_SIZE + PREFIX_SIZE, RecordImages(records[..count], compact))
  {
    ghost var was, items := response[..], records[..];
    assert Patch(was, HEADER_SIZE + PREFIX_SIZE, RecordImages(items[..0], compact)) == was;
    for i := 0 to count
      invariant HEADER_SIZE + PREFIX_SIZE + |RecordImages(items[..i], compact)| <= |was|
      invariant response[..] == Patch(was, HEADER_SIZE + PREFIX_SIZE, RecordImages(items[..i], compact))
    {
      EncodeNext(response, i, count, compact, was, items, records[i]);
    }
    assert items[..count] == records[..count];
  }

  /** The body of the record loop. */
  method EncodeNext(response: array<u8>, i: nat, ghost count: nat, compact: bool, ghost was: seq<u8>, ghost items: seq<Record>, record: Record)
    requires i < count <= |items| && items[i] == record && |was| == response.Length
    requires HEADER_SIZE + PREFIX_SIZE + count * RecordSize(compact) <= |was|
    requires HEADER_SIZE + PREFIX_SIZE + |RecordImages(items[..i], compact)| <= |was|
    requires response[..] == Patch(was, HEADER_SIZE + PREFIX_SIZE, RecordImages(items[..i], compact))
    modifies response
    ensures HEADER_SIZE + PREFIX_SIZE + |RecordImages(items[..i + 1], compact)| <= |was|
    ensures response[..] == Patch(was, HEADER_SIZE + PREFIX_SIZE, RecordImages(items[..i + 1], compact))
  {
    NextImage(was, HEADER_SIZE + PREFIX_SIZE, items, i, count, compact);
    EncodeRecord(response, HEADER_SIZE + PREFIX_SIZE + i * RecordSize(compact), record, compact);
  }

  method EncodeDisplay(response: array<u8>, sensor: u8, visible: Device.VisibleState, resulting: bool)
    requires HEADER_SIZE + 3 <= response.Length
    modifies response
    ensures |Pack(SET_DISPLAY_RESPONSE, DisplayValues(sensor, visible, resulting))| == 3
    ensures response[..] == Patch(old(response[..]), HEADER_SIZE, Pack(SET_DISPLAY_RESPONSE, DisplayValues(sensor, visible, resulting)))
  {
    SmallOffsets();
    ghost var was, values := response[..], DisplayValues(sensor, visible, resulting);
    WriteU8(response, 8, sensor);
    WriteNext(was, 8, SET_DISPLAY_RESPONSE, values, 0);
    WriteU8(response, 9, VisibleCode(visible));
    WriteNext(was, 8, SET_DISPLAY_RESPONSE, values, 1);
    WriteU8(response, 10, Flag(resulting));
    WriteNext(was, 8, SET_DISPLAY_RESPONSE, values, 2);
    WritesPack(was, 8, SET_DISPLAY_RESPONSE, values);
  }

  method EncodeChallenge(response: array<u8>, deviceId: DeviceId, bootId: u32, nonce: Nonce)
    requires HEADER_SIZE + AUTH_BEGIN_SIZE <= response.Length
    modifies response
    ensures |Pack(AUTH_BEGIN_RESPONSE, AuthBeginValues(deviceId, bootId, nonce))| == AUTH_BEGIN_SIZE
    ensures response[..] == Patch(old(response[..]), HEADER_SIZE, Pack(AUTH_BEGIN_RESPONSE, AuthBeginValues(deviceId, bootId, nonce)))
  {
    SmallOffsets();
    ghost var was, values := response[..], AuthBeginValues(deviceId, bootId, nonce);
    WriteBytes(response, 8, deviceId);
    WriteNext(was, 8, AUTH_BEGIN_RESPONSE, values, 0);
    WriteU32(response, 14, bootId);
    WriteNext(was, 8, AUTH_BEGIN_RESPONSE, values, 1);
    WriteBytes(response, 18, nonce);
    WriteNext(was, 8, AUTH_BEGIN_RESPONSE, values, 2);
    WritesPack(was, 8, AUTH_BEGIN_RESPONSE, values);
  }

  /** Prefix and records of a chunk response. */
  method EncodeChunk(response: array<u8>, sensor: u8, start: u32, records: array<Record>, count: nat, compact: bool)
    requires 0 < count <= records.Length && count <= ChunkLimit(0xFF, response.Length, compact)
    modifies response
    ensures response.Length >= HEADER_SIZE + PREFIX_SIZE + count * RecordSize(compact)
    ensures response[..] == Patch(old(response[..]), HEADER_SIZE, ChunkPayload(sensor, start, records[..count], compact))
  {
    ChunkFits(0xFF, count, response.Length, compact);
    ghost var was := response[..];
    EncodePrefix(response, sensor, start, count, RecordSize(compact));
    EncodeRecords(response, records, count, compact);
    PatchTwice(was, HEADER_SIZE, Pack(HISTORY_CHUNK_PREFIX, PrefixValues(sensor, start, count, RecordSize(compact))),
               RecordImages(records[..count], compact));
  }
}
