/** Requests and responses byte by byte (protocol/thermometer_protocol.json, firmware/main/src/protocol.c). */
module ByteForms {
  import opened Words
  import opened Layouts
  import opened HistoryBuffers
  import opened ApplicationAuth
  import opened Wire
  import opened ProtocolServer
  import opened ProtocolClient
  import Device

  // --- Numbers -----------------------------------------------------------------------------

  /** The lowest byte comes first; a negative number is stored as its complement to 2^16. */
  lemma LowestFirst(v: u32, w: u16, t: i16)
    ensures var b := U32Bytes(v); b[0] as int + 0x100 * b[1] as int + 0x1_0000 * b[2] as int + 0x100_0000 * b[3] as int == v
    ensures var b := U16Bytes(w); b[0] as int + 0x100 * b[1] as int == w
    ensures var b := I16Bytes(t); b[0] as int + 0x100 * b[1] as int == if t < 0 then t + 0x1_0000 else t
  {
    U32RoundTrip(v);
    U16RoundTrip(w);
    I16RoundTrip(t);
  }

  // --- Records -----------------------------------------------------------------------------

  lemma JoinedBy(parts: seq<seq<u8>>, n: nat)
    requires 0 < n <= |parts|
    ensures Join(parts, n) == Join(parts, n - 1) + parts[n - 1]
  {
  }

  lemma JoinTwo(parts: seq<seq<u8>>)
    requires 2 <= |parts|
    ensures Join(parts, 2) == parts[0] + parts[1]
  {
    JoinedBy(parts, 1);
    JoinedBy(parts, 2);
  }

  lemma JoinFour(parts: seq<seq<u8>>)
    requires 4 <= |parts|
    ensures Join(parts, 3) == parts[0] + parts[1] + parts[2]
    ensures Join(parts, 4) == parts[0] + parts[1] + parts[2] + parts[3]
  {
    JoinTwo(parts);
    JoinedBy(parts, 3);
    JoinedBy(parts, 4);
  }

  lemma JoinSix(parts: seq<seq<u8>>)
    requires 6 <= |parts|
    ensures Join(parts, 6) == parts[0] + parts[1] + parts[2] + parts[3] + parts[4] + parts[5]
  {
    JoinFour(parts);
    JoinedBy(parts, 5);
    JoinedBy(parts, 6);
  }

  lemma JoinEleven(parts: seq<seq<u8>>)
    requires 11 <= |parts|
    ensures Join(parts, 11) == parts[0] + parts[1] + parts[2] + parts[3] + parts[4] + parts[5] + parts[6] + parts[7] + parts[8] + parts[9] + parts[10]
  {
    JoinSix(parts);
    JoinedBy(parts, 7);
    JoinedBy(parts, 8);
    JoinedBy(parts, 9);
    JoinedBy(parts, 10);
    JoinedBy(parts, 11);
  }

  /** How a sensor shows: 0 for off, 1 for on, 2 for disconnected. */
  function StateByte(latest: Device.Latest): u8 {
    if latest.status != Valid then 2 else if latest.displayEnabled then 1 else 0
  }

  lemma CurrentBytes(c: Device.Current)
    requires |c.sensors| == Device.SENSOR_COUNT
    ensures Pack(CURRENT_RESPONSE, CurrentValues(c))
         == U32Bytes(c.bootId) + U32Bytes(c.newest)
            + I16Bytes(c.sensors[0].temperature) + [StateByte(c.sensors[0])] + [if c.sensors[0].displayEnabled then 1 else 0]
            + I16Bytes(c.sensors[1].temperature) + [StateByte(c.sensors[1])] + [if c.sensors[1].displayEnabled then 1 else 0]
            + I16Bytes(c.average) + [if c.averageValid then 1 else 0] + [0]
  {
    JoinEleven(Images(CURRENT_RESPONSE, CurrentValues(c)));
  }

  lemma MetaBytes(m: Device.Meta)
    requires |m.counts| == |m.oldest| == Device.SENSOR_COUNT
    ensures Pack(HISTORY_META_RESPONSE, MetaValues(m))
         == U32Bytes(m.bootId) + U32Bytes(m.newest) + U16Bytes(m.counts[0]) + U16Bytes(m.counts[1])
            + U32Bytes(m.oldest[0]) + U32Bytes(m.oldest[1])
  {
    JoinSix(Images(HISTORY_META_RESPONSE, MetaValues(m)));
  }

  lemma DisplayBytes(sensor: u8, latest: Device.Latest)
    ensures Pack(SET_DISPLAY_RESPONSE, DisplayValues(sensor, Device.Visible(latest), latest.displayEnabled))
         == [sensor] + [StateByte(latest)] + [if latest.displayEnabled then 1 else 0]
  {
    var values := DisplayValues(sensor, Device.Visible(latest), latest.displayEnabled);
    JoinTwo(Images(SET_DISPLAY_RESPONSE, values));
    JoinedBy(Images(SET_DISPLAY_RESPONSE, values), 3);
  }

  lemma ChallengeBytes(deviceId: DeviceId, bootId: u32, nonce: Nonce)
    ensures Pack(AUTH_BEGIN_RESPONSE, AuthBeginValues(deviceId, bootId, nonce)) == deviceId + U32Bytes(bootId) + nonce
  {
    var values := AuthBeginValues(deviceId, bootId, nonce);
    JoinTwo(Images(AUTH_BEGIN_RESPONSE, values));
    JoinedBy(Images(AUTH_BEGIN_RESPONSE, values), 3);
  }

  /** A record's bytes: its number in the full form only, the temperature, and 0 for a valid one. */
  function RecordBytes(r: Record, compact: bool): seq<u8> {
    (if compact then [] else U32Bytes(r.sequence)) + I16Bytes(r.temperature) + [if r.status == Valid then 0 else 1]
  }

  lemma RecordForm(r: Record, compact: bool)
    ensures RecordImage(r, compact) == RecordBytes(r, compact)
  {
    var parts := Images(RecordLayout(compact), RecordValues(r, compact));
    JoinTwo(parts);
    if !compact {
      JoinedBy(parts, 3);
    }
  }

  function RecordsBytes(records: seq<Record>, compact: bool): seq<u8> {
    if records == [] then [] else RecordsBytes(records[..|records| - 1], compact) + RecordBytes(records[|records| - 1], compact)
  }

  lemma {:induction false} RecordsForm(records: seq<Record>, compact: bool)
    ensures RecordImages(records, compact) == RecordsBytes(records, compact)
  {
    if records != [] {
      RecordsForm(records[..|records| - 1], compact);
      RecordForm(records[|records| - 1], compact);
    }
  }

  lemma ChunkBytes(sensor: u8, start: u32, records: seq<Record>, compact: bool)
    requires |records| < 0x100
    ensures ChunkPayload(sensor, start, records, compact)
         == [sensor] + U32Bytes(start) + [|records|] + [if compact then 3 else 7] + RecordsBytes(records, compact)
  {
    JoinFour(Images(HISTORY_CHUNK_PREFIX, PrefixValues(sensor, start, |records|, RecordSize(compact))));
    RecordsForm(records, compact);
  }

  /** The status in a response header. */
  function StatusByte(status: Status): u8 {
    match status
    case Ok => 0
    case InvalidCommand => 1
    case InvalidSensor => 2
    case InvalidValue => 3
    case NotAvailable => 4
    case InternalError => 5
    case UnsupportedVersion => 6
    case AuthenticationRequired => 7
    case AuthenticationFailed => 8
    case AuthenticationLocked => 9
  }

  lemma ResponseBytes(reply: Reply)
    requires |reply.payload| < TWO16
    ensures Frame(reply)
         == [2, reply.opcode] + U16Bytes(reply.requestId) + U16Bytes(|reply.payload|) + [StatusByte(reply.status), 1] + reply.payload
  {
  }

  // --- Requests ------------------------------------------------------------------------------

  lemma RequestBytes(opcode: u8, id: u16, payload: seq<u8>)
    requires |payload| < TWO16
    ensures BuildRequest(opcode, id, payload) == Success([2, opcode] + U16Bytes(id) + U16Bytes(|payload|) + [0, 0] + payload)
  {
    HeaderPacked(opcode, id, |payload|, 0, 0);
  }

  lemma ChunkRequestForm(id: u16, sensor: int, start: int, count: int, compact: bool)
    ensures BuildHistoryChunk(id, sensor, start, count, compact).Success? <==>
            1 <= sensor <= 2 && 0 <= start < 0x1_0000_0000 && 1 <= count <= if compact then 72 else 32
    ensures BuildHistoryChunk(id, sensor, start, count, compact).Success? ==>
              BuildHistoryChunk(id, sensor, start, count, compact).value
              == [2, if compact then 8 else 4] + U16Bytes(id) + [6, 0] + [0, 0] + [sensor] + U32Bytes(start) + [count]
  {
    if KnownSensor(sensor) && 0 <= start < TWO32 && 1 <= count <= MaxRecords(compact) {
      var values := ChunkRequestValues(sensor, start, count);
      ChunkOffsets();
      JoinTwo(Images(HISTORY_CHUNK_REQUEST, values));
      JoinedBy(Images(HISTORY_CHUNK_REQUEST, values), 3);
      RequestBytes(ChunkOpcode(compact), id, Pack(HISTORY_CHUNK_REQUEST, values));
    }
  }

  lemma DisplayRequestForm(id: u16, sensor: int, enabled: bool)
    ensures BuildSetDisplay(id, sensor, enabled).Success? <==> 1 <= sensor <= 2
    ensures 1 <= sensor <= 2 ==> BuildSetDisplay(id, sensor, enabled).value
                                 == [2, 2] + U16Bytes(id) + [2, 0] + [0, 0] + [sensor] + [if enabled then 1 else 0]
  {
    if KnownSensor(sensor) {
      var values := [Int(sensor), Int(Flag(enabled))];
      SmallOffsets();
      JoinTwo(Images(SET_DISPLAY_REQUEST, values));
      RequestBytes(SET_DISPLAY, id, Pack(SET_DISPLAY_REQUEST, values));
    }
  }

  lemma ProofForm(id: u16, proof: seq<u8>)
    ensures BuildProof(id, proof).Success? <==> |proof| == 32
    ensures |proof| == 32 ==> BuildProof(id, proof).value == [2, 6] + U16Bytes(id) + [32, 0] + [0, 0] + proof
  {
    if |proof| == 32 {
      SmallOffsets();
      JoinedBy(Images(AUTH_PROVE_REQUEST, [Bytes(proof)]), 1);
      assert Pack(AUTH_PROVE_REQUEST, [Bytes(proof)]) == [] + proof == proof;
      RequestBytes(AUTH_PROVE, id, proof);
    }
  }

  // --- Responses the client takes ----------------------------------------------------------------

  lemma HeaderFields(packet: seq<u8>)
    requires |packet| >= 8
    ensures |packet[..HEADER_SIZE]| == Size(HEADER)
    ensures Unpack(HEADER, packet[..HEADER_SIZE])
         == [Int(packet[0]), Int(packet[1]), Int(ReadU16(packet[2..4])), Int(ReadU16(packet[4..6])), Int(packet[6]), Int(packet[7])]
  {
    var h := packet[..HEADER_SIZE];
    HeaderOffsets();
    forall i | 0 <= i < |HEADER|
      ensures Slot(HEADER, h, i) == [packet[0..1], packet[1..2], packet[2..4], packet[4..6], packet[6..7], packet[7..8]][i]
    {
      HeaderSlot(h, i);
    }
  }

  /** A response is taken exactly if its length, flag, opcode and status are in order and it answers the request. */
  lemma ParsedIff(packet: seq<u8>, opcode: u8, id: u16)
    ensures ParseResponse(packet, Some(opcode), Some(id), false).Success? <==>
            && |packet| >= 8 && packet[0] == 2 && packet[1] == opcode && 1 <= opcode <= 8
            && packet[2] as int + 0x100 * packet[3] as int == id && packet[4] as int + 0x100 * packet[5] as int == |packet| - 8
            && packet[6] == 0 && packet[7] % 2 == 1
    ensures ParseResponse(packet, Some(opcode), Some(id), false).Success? ==>
              ParseResponse(packet, Some(opcode), Some(id), false).value == Response(2, opcode, id, Ok, packet[8..])
  {
    if |packet| >= 8 {
      HeaderFields(packet);
    }
  }

  lemma CurrentHead(p: seq<u8>)
    requires |p| == Size(CURRENT_RESPONSE) == 20
    ensures var v := Unpack(CURRENT_RESPONSE, p);
            && v[0] == Int(ReadU32(p[0..4])) && v[1] == Int(ReadU32(p[4..8])) && v[2] == Int(ReadI16(p[8..10]))
            && v[3] == Int(p[10]) && v[4] == Int(p[11])
  {
    CurrentOffsets();
  }

  lemma CurrentTail(p: seq<u8>)
    requires |p| == Size(CURRENT_RESPONSE) == 20
    ensures var v := Unpack(CURRENT_RESPONSE, p);
            && v[5] == Int(ReadI16(p[12..14])) && v[6] == Int(p[14]) && v[7] == Int(p[15])
            && v[8] == Int(ReadI16(p[16..18])) && v[9] == Int(p[18]) && v[10] == Int(p[19])
  {
    CurrentOffsets();
  }

  /** A snapshot is taken exactly if its states, flags and spare byte are in range. */
  lemma CurrentTakenIff(r: Response)
    ensures DecodeCurrent(r).Success? <==>
            && r.opcode == 1 && |r.payload| == 20
            && r.payload[10] <= 2 && r.payload[11] <= 1 && r.payload[14] <= 2 && r.payload[15] <= 1
            && r.payload[18] <= 1 && r.payload[19] == 0
  {
    CurrentOffsets();
    if |r.payload| == 20 {
      CurrentHead(r.payload);
      CurrentTail(r.payload);
    }
  }

  lemma DisplayTakenIff(r: Response)
    ensures DecodeDisplay(r).Success? <==>
            r.opcode == 2 && |r.payload| == 3 && 1 <= r.payload[0] <= 2 && r.payload[1] <= 2 && r.payload[2] <= 1
  {
    SmallOffsets();
    if |r.payload| == 3 {
      assert Slot(SET_DISPLAY_RESPONSE, r.payload, 0) == [r.payload[0]];
      assert Slot(SET_DISPLAY_RESPONSE, r.payload, 1) == [r.payload[1]];
      assert Slot(SET_DISPLAY_RESPONSE, r.payload, 2) == [r.payload[2]];
    }
  }

  lemma PrefixFields(p: seq<u8>)
    requires |p| == 7
    ensures |p| == Size(HISTORY_CHUNK_PREFIX)
    ensures Unpack(HISTORY_CHUNK_PREFIX, p) == [Int(p[0]), Int(ReadU32(p[1..5])), Int(p[5]), Int(p[6])]
  {
    ChunkOffsets();
  }

  /** The status byte of record `i` in a chunk's payload. */
  predicate KnownStatusAt(p: seq<u8>, i: nat, size: nat)
    requires 7 + (i + 1) * size <= |p| && 0 < size
  {
    p[7 + (i + 1) * size - 1] <= 1
  }

  lemma RecordTakenIff(image: seq<u8>, start: u32, i: nat, compact: bool)
    requires |image| == RecordSize(compact)
    ensures DecodeRecord(image, start, i, compact).Some? <==> image[|image| - 1] <= 1
  {
    RecordOffsets();
    if compact {
      assert Slot(COMPACT_HISTORY_RECORD, image, 1) == [image[2]];
    } else {
      assert Slot(HISTORY_RECORD, image, 2) == [image[6]];
    }
  }

  lemma {:induction false} CollectedIff<T>(f: nat -> Option<T>, n: nat)
    ensures Collect(f, n).Some? <==> forall i :: 0 <= i < n ==> f(i).Some?
  {
    if n > 0 {
      CollectedIff(f, n - 1);
    }
  }

  lemma StatusAt(p: seq<u8>, start: u32, i: nat, compact: bool)
    requires 7 + (i + 1) * RecordSize(compact) <= |p|
    ensures RecordAt(p[7..], start, i, compact).Some? <==> KnownStatusAt(p, i, RecordSize(compact))
  {
    var size := RecordSize(compact);
    assert (i + 1) * size == i * size + size;
    RecordTakenIff(ImageAt(p[7..], i, compact), start, i, compact);
    assert ImageAt(p[7..], i, compact)[size - 1] == p[7 + (i + 1) * size - 1];
  }

  lemma RecordsTakenIff(p: seq<u8>, start: u32, n: nat, compact: bool)
    requires |p| == 7 + n * RecordSize(compact)
    ensures DecodeRecords(p[7..], start, n, compact).Some? <==>
            forall i :: 0 <= i < n ==> 7 + (i + 1) * RecordSize(compact) <= |p| && KnownStatusAt(p, i, RecordSize(compact))
  {
    var images := p[7..];
    var f := (i: nat) => RecordAt(images, start, i, compact);
    CollectedIff(f, n);
    forall i | 0 <= i < n
      ensures 7 + (i + 1) * RecordSize(compact) <= |p| && (f(i).Some? <==> KnownStatusAt(p, i, RecordSize(compact)))
    {
      Fits(i, n, RecordSize(compact));
      StatusAt(p, start, i, compact);
    }
  }

  /** A chunk is taken exactly if sensor and record size are right, it is as long as it says, and each status is known. */
  lemma ChunkTakenIff(r: Response, compact: bool, n: nat)
    requires r.opcode == if compact then 8 else 4
    requires n == if |r.payload| >= 7 then r.payload[5] else 0
    ensures DecodeHistoryChunk(r).Success? <==>
            var size := if compact then 3 else 7;
            && |r.payload| == 7 + n * size && 1 <= r.payload[0] <= 2 && r.payload[6] == size
            && forall i :: 0 <= i < n ==> 7 + (i + 1) * size <= |r.payload| && KnownStatusAt(r.payload, i, size)
  {
    if |r.payload| >= 7 {
      var p := r.payload;
      PrefixFields(p[..PREFIX_SIZE]);
      if |p| == 7 + n * RecordSize(compact) {
        RecordsTakenIff(p, ReadU32(p[..PREFIX_SIZE][1..5]), n, compact);
      }
    }
  }

  lemma Fits(i: nat, n: nat, size: nat)
    requires i < n
    ensures (i + 1) * size <= n * size
  {
  }

  // --- Requests that are refused ---------------------------------------------------------------

  /** The request is refused with this status, echoing opcode and number, and nothing changes. */
  ghost predicate Refused(c: Config, s: Server, env: Ambient, request: seq<u8>, capacity: nat, opcode: u8, id: u16, status: Status)
    requires WellFormed(s)
  {
    Process(c, s, env, request, capacity) == (s, Reply(opcode, id, status, []))
  }

  /** Faults of the header, in the order in which they are looked for. */
  lemma HeaderFaults(c: Config, s: Server, env: Ambient, request: seq<u8>, capacity: nat, opcode: u8, id: u16)
    requires WellFormed(s)
    requires opcode == (if |request| > 1 then request[1] else 0)
    requires id == (if |request| >= 4 then request[2] as int + 0x100 * request[3] as int else 0)
    ensures |request| < 8 ==> Refused(c, s, env, request, capacity, opcode, id, InvalidValue)
    ensures |request| >= 8 && request[0] != 2 ==> Refused(c, s, env, request, capacity, opcode, id, UnsupportedVersion)
    ensures |request| >= 8 && request[0] == 2
            && (request[6] != 0 || request[7] != 0 || request[4] as int + 0x100 * request[5] as int != |request| - 8)
            ==> Refused(c, s, env, request, capacity, opcode, id, InvalidValue)
  {
  }

  /** A request with a sound header. */
  predicate Headed(request: seq<u8>, opcode: u8, id: u16, payload: seq<u8>) {
    |payload| < TWO16 && request == [2, opcode] + U16Bytes(id) + U16Bytes(|payload|) + [0, 0] + payload
  }

  lemma HeadedRuns(c: Config, s: Server, env: Ambient, request: seq<u8>, capacity: nat, opcode: u8, id: u16, payload: seq<u8>)
    requires WellFormed(s) && Headed(request, opcode, id, payload)
    ensures Process(c, s, env, request, capacity) == Dispatch(c, s, env, payload, opcode, id, capacity)
  {
    U16RoundTrip(id);
    U16RoundTrip(|payload|);
    assert request[2..4] == U16Bytes(id) && request[4..6] == U16Bytes(|payload|) && request[8..] == payload;
    assert request[0] == 2 && request[1] == opcode && request[6] == 0 && request[7] == 0;
  }

  /** Without a proven passkey everything but the two authentication requests is refused; with one, unknown opcodes are. */
  lemma GateFaults(c: Config, s: Server, env: Ambient, request: seq<u8>, capacity: nat, opcode: u8, id: u16, payload: seq<u8>)
    requires WellFormed(s) && Headed(request, opcode, id, payload)
    ensures opcode != 5 && opcode != 6 && !s.auth.session.authenticated
            ==> Refused(c, s, env, request, capacity, opcode, id, AuthenticationRequired)
    ensures (opcode == 0 || opcode > 8) && s.auth.session.authenticated
            ==> Refused(c, s, env, request, capacity, opcode, id, InvalidCommand)
  {
    HeadedRuns(c, s, env, request, capacity, opcode, id, payload);
  }

  /** Payloads of the wrong length. */
  lemma LengthFaults(c: Config, s: Server, env: Ambient, request: seq<u8>, capacity: nat, opcode: u8, id: u16, payload: seq<u8>)
    requires WellFormed(s) && Headed(request, opcode, id, payload)
    ensures opcode == 5 && payload != [] ==> Refused(c, s, env, request, capacity, opcode, id, InvalidValue)
    ensures opcode == 6 && |payload| != 32 ==> Refused(c, s, env, request, capacity, opcode, id, AuthenticationRequired)
    ensures (opcode == 1 || opcode == 3 || opcode == 7) && s.auth.session.authenticated && payload != []
            ==> Refused(c, s, env, request, capacity, opcode, id, InvalidValue)
    ensures opcode == 2 && s.auth.session.authenticated && |payload| != 2 ==> Refused(c, s, env, request, capacity, opcode, id, InvalidValue)
    ensures (opcode == 4 || opcode == 8) && s.auth.session.authenticated && |payload| != 6
            ==> Refused(c, s, env, request, capacity, opcode, id, InvalidValue)
  {
    HeadedRuns(c, s, env, request, capacity, opcode, id, payload);
  }

  /** Fields out of range, and buffers too short for the answer. */
  lemma FieldFaults(c: Config, s: Server, env: Ambient, request: seq<u8>, capacity: nat, opcode: u8, id: u16, payload: seq<u8>)
    requires WellFormed(s) && Headed(request, opcode, id, payload) && s.auth.session.authenticated
    ensures (opcode == 1 || opcode == 3) && payload == [] && capacity < 28
            ==> Refused(c, s, env, request, capacity, opcode, id, InternalError)
    ensures opcode == 2 && |payload| == 2 ==>
              && (payload[0] == 0 || payload[0] > 2 ==> Refused(c, s, env, request, capacity, opcode, id, InvalidSensor))
              && (1 <= payload[0] <= 2 && payload[1] > 1 ==> Refused(c, s, env, request, capacity, opcode, id, InvalidValue))
              && (1 <= payload[0] <= 2 && payload[1] <= 1 && capacity < 11 ==> Refused(c, s, env, request, capacity, opcode, id, InternalError))
    ensures (opcode == 4 || opcode == 8) && |payload| == 6 ==>
              && (payload[0] == 0 || payload[0] > 2 ==> Refused(c, s, env, request, capacity, opcode, id, InvalidSensor))
              && (1 <= payload[0] <= 2 && payload[5] == 0 ==> Refused(c, s, env, request, capacity, opcode, id, InvalidValue))
  {
    HeadedRuns(c, s, env, request, capacity, opcode, id, payload);
  }

  /** What AUTH_PROVE answers: locked out, not asked for, wrong or right, always without a payload. */
  lemma ProofAnswered(c: Config, s: Server, env: Ambient, request: seq<u8>, capacity: nat, id: u16, proof: Proof)
    requires WellFormed(s) && Headed(request, 6, id, proof)
    ensures var (t, reply) := Process(c, s, env, request, capacity);
            var (auth, outcome) := Prove(c, s.auth, env.now, s.device.bootId, proof);
            && t == s.(auth := auth) && reply.opcode == 6 && reply.requestId == id && reply.payload == []
            && (reply.status == Ok <==> outcome == Accepted)
            && (reply.status == AuthenticationRequired <==> outcome == Required)
            && (reply.status == AuthenticationFailed <==> outcome == Rejected)
            && (reply.status == AuthenticationLocked <==> outcome == Locked)
  {
    HeadedRuns(c, s, env, request, capacity, 6, id, proof);
  }

  /** RESET_BOND asks for the bond to be reset, and nothing else does. */
  lemma BondResetAsked(c: Config, s: Server, env: Ambient, request: seq<u8>, capacity: nat)
    requires WellFormed(s)
    ensures var (t, reply) := Process(c, s, env, request, capacity);
            var asked := Headed(request, 7, reply.requestId, []) && s.auth.session.authenticated;
            && t.bondReset == (s.bondReset || asked)
            && (asked ==> reply == Reply(7, reply.requestId, Ok, []) && t.device == s.device && t.auth == s.auth)
  {
    if HeaderFault(request).None? && OpcodeOf(request) == RESET_BOND && request[HEADER_SIZE..] == [] {
      U16ImageRoundTrip(request[2..4]);
      U16ImageRoundTrip(request[4..6]);
      assert request == [request[0], request[1]] + request[2..4] + request[4..6] + [request[6], request[7]] + request[8..];
    }
    if Headed(request, 7, RequestIdOf(request), []) {
      HeadedRuns(c, s, env, request, capacity, 7, RequestIdOf(request), []);
    }
  }
}
