/** Constants and record layouts of the shared protocol (protocol/thermometer_protocol.json). */
module Wire {
  import opened Words
  import opened Layouts
  import opened HistoryBuffers
  import Device

  const PROTOCOL_VERSION: u8 := 2
  const RESPONSE_FLAG: u8 := 1
  const MAX_HISTORY_RECORDS: nat := 32
  const MAX_COMPACT_HISTORY_RECORDS: nat := 72
  const MAX_PACKET_SIZE: nat := 239
  const PREFERRED_ATT_MTU: nat := 247

  const GET_CURRENT: u8 := 1
  const SET_DISPLAY: u8 := 2
  const GET_HISTORY_META: u8 := 3
  const GET_HISTORY_CHUNK: u8 := 4
  const AUTH_BEGIN: u8 := 5
  const AUTH_PROVE: u8 := 6
  const RESET_BOND: u8 := 7
  const GET_HISTORY_CHUNK_COMPACT: u8 := 8

  predicate KnownOpcode(code: u8) {
    1 <= code <= 8
  }

  datatype Status =
    | Ok | InvalidCommand | InvalidSensor | InvalidValue | NotAvailable | InternalError
    | UnsupportedVersion | AuthenticationRequired | AuthenticationFailed | AuthenticationLocked
  {
    function Code(): u8 {
      match this
      case Ok => 0
      case InvalidCommand => 1
      case InvalidSensor => 2
      case InvalidValue => 3
      case NotAvailable => 4
      case InternalError => 5
      case UnsupportedVersion => 6
      case AuthenticationRequired => 7
      case AuthenticationFailed => 8
      case AuthenticationLocked => 9
    }
  }

  const STATUSES: seq<Status> := [
    Ok, InvalidCommand, InvalidSensor, InvalidValue, NotAvailable, InternalError,
    UnsupportedVersion, AuthenticationRequired, AuthenticationFailed, AuthenticationLocked
  ]

  function StatusOf(code: u8): Option<Status> {
    if code < |STATUSES| then Some(STATUSES[code]) else None
  }

  function DataCode(status: DataStatus): u8 {
    if status == Valid then 0 else 1
  }

  function DataStatusOf(code: u8): Option<DataStatus> {
    if code == 0 then Some(Valid) else if code == 1 then Some(Disconnected) else None
  }

  function VisibleCode(v: Device.VisibleState): u8 {
    match v
    case Off => 0
    case On => 1
    case Unplugged => 2
  }

  function VisibleOf(code: u8): Option<Device.VisibleState> {
    if code == 0 then Some(Device.Off) else if code == 1 then Some(Device.On)
    else if code == 2 then Some(Device.Unplugged) else None
  }

  function Flag(b: bool): u8 {
    if b then 1 else 0
  }

  // --- Layouts -------------------------------------------------------------------

  const HEADER: seq<Field> := [
    Field("version", U8), Field("opcode", U8), Field("request_id", U16),
    Field("payload_length", U16), Field("status", U8), Field("flags", U8)
  ]
  const CURRENT_RESPONSE: seq<Field> := [
    Field("boot_id", U32), Field("newest_sequence", U32),
    Field("sensor_1_temperature_centi_c", I16), Field("sensor_1_visible_state", U8),
    Field("sensor_1_display_enabled", U8),
    Field("sensor_2_temperature_centi_c", I16), Field("sensor_2_visible_state", U8),
    Field("sensor_2_display_enabled", U8),
    Field("average_temperature_centi_c", I16), Field("average_valid", U8), Field("reserved", U8)
  ]
  const SET_DISPLAY_REQUEST: seq<Field> := [Field("sensor_id", U8), Field("enabled", U8)]
  const SET_DISPLAY_RESPONSE: seq<Field> := [
    Field("sensor_id", U8), Field("visible_state", U8), Field("enabled", U8)
  ]
  const HISTORY_META_RESPONSE: seq<Field> := [
    Field("boot_id", U32), Field("newest_sequence", U32),
    Field("sensor_1_count", U16), Field("sensor_2_count", U16),
    Field("sensor_1_oldest_sequence", U32), Field("sensor_2_oldest_sequence", U32)
  ]
  const HISTORY_CHUNK_REQUEST: seq<Field> := [
    Field("sensor_id", U8), Field("start_sequence", U32), Field("record_count", U8)
  ]
  const HISTORY_CHUNK_PREFIX: seq<Field> := [
    Field("sensor_id", U8), Field("start_sequence", U32), Field("record_count", U8), Field("record_size", U8)
  ]
  const HISTORY_RECORD: seq<Field> := [
    Field("sequence", U32), Field("temperature_centi_c", I16), Field("data_status", U8)
  ]
  const COMPACT_HISTORY_RECORD: seq<Field> := [Field("temperature_centi_c", I16), Field("data_status", U8)]
  const AUTH_BEGIN_RESPONSE: seq<Field> := [Field("device_id", Bytes6), Field("boot_id", U32), Field("nonce", Bytes16)]
  const AUTH_PROVE_REQUEST: seq<Field> := [Field("proof", Bytes32)]

  // The sizes and offsets the generated firmware header carries.
  const HEADER_SIZE: nat := 8
  const CURRENT_SIZE: nat := 20
  const META_SIZE: nat := 20
  const PREFIX_SIZE: nat := 7
  const AUTH_BEGIN_SIZE: nat := 26
  const PROOF_SIZE: nat := 32

  lemma HeaderOffsets()
    ensures Offset(HEADER, 0) == 0 && Offset(HEADER, 1) == 1 && Offset(HEADER, 2) == 2
    ensures Offset(HEADER, 3) == 4 && Offset(HEADER, 4) == 6 && Offset(HEADER, 5) == 7
    ensures Offset(HEADER, 6) == Size(HEADER) == HEADER_SIZE
  {
    assert Offset(HEADER, 2) == 2;
    assert Offset(HEADER, 4) == 6;
  }

  lemma CurrentOffsets()
    ensures Offset(CURRENT_RESPONSE, 1) == 4 && Offset(CURRENT_RESPONSE, 2) == 8
    ensures Offset(CURRENT_RESPONSE, 3) == 10 && Offset(CURRENT_RESPONSE, 4) == 11 && Offset(CURRENT_RESPONSE, 5) == 12
    ensures Offset(CURRENT_RESPONSE, 6) == 14 && Offset(CURRENT_RESPONSE, 7) == 15 && Offset(CURRENT_RESPONSE, 8) == 16
    ensures Offset(CURRENT_RESPONSE, 9) == 18 && Offset(CURRENT_RESPONSE, 10) == 19
    ensures Offset(CURRENT_RESPONSE, 11) == Size(CURRENT_RESPONSE) == CURRENT_SIZE
  {
    assert Offset(CURRENT_RESPONSE, 2) == 8;
    assert Offset(CURRENT_RESPONSE, 4) == 11;
    assert Offset(CURRENT_RESPONSE, 6) == 14;
    assert Offset(CURRENT_RESPONSE, 8) == 16;
    assert Offset(CURRENT_RESPONSE, 10) == 19;
  }

  lemma MetaOffsets()
    ensures Offset(HISTORY_META_RESPONSE, 1) == 4 && Offset(HISTORY_META_RESPONSE, 2) == 8
    ensures Offset(HISTORY_META_RESPONSE, 3) == 10 && Offset(HISTORY_META_RESPONSE, 4) == 12
    ensures Offset(HISTORY_META_RESPONSE, 5) == 16
    ensures Offset(HISTORY_META_RESPONSE, 6) == Size(HISTORY_META_RESPONSE) == META_SIZE
  {
    assert Offset(HISTORY_META_RESPONSE, 2) == 8;
    assert Offset(HISTORY_META_RESPONSE, 4) == 12;
  }

  lemma SmallOffsets()
    ensures Offset(SET_DISPLAY_REQUEST, 1) == 1 && Offset(SET_DISPLAY_REQUEST, 2) == Size(SET_DISPLAY_REQUEST) == 2
    ensures Offset(SET_DISPLAY_RESPONSE, 1) == 1 && Offset(SET_DISPLAY_RESPONSE, 2) == 2
    ensures Offset(SET_DISPLAY_RESPONSE, 3) == Size(SET_DISPLAY_RESPONSE) == 3
    ensures Offset(AUTH_BEGIN_RESPONSE, 1) == 6 && Offset(AUTH_BEGIN_RESPONSE, 2) == 10
    ensures Offset(AUTH_BEGIN_RESPONSE, 3) == Size(AUTH_BEGIN_RESPONSE) == AUTH_BEGIN_SIZE
    ensures Offset(AUTH_PROVE_REQUEST, 1) == Size(AUTH_PROVE_REQUEST) == PROOF_SIZE
  {
    assert Offset(SET_DISPLAY_RESPONSE, 2) == 2;
    assert Offset(AUTH_BEGIN_RESPONSE, 2) == 10;
  }

  lemma ChunkOffsets()
    ensures Offset(HISTORY_CHUNK_REQUEST, 1) == 1 && Offset(HISTORY_CHUNK_REQUEST, 2) == 5
    ensures Offset(HISTORY_CHUNK_REQUEST, 3) == Size(HISTORY_CHUNK_REQUEST) == 6
    ensures Offset(HISTORY_CHUNK_PREFIX, 1) == 1 && Offset(HISTORY_CHUNK_PREFIX, 2) == 5
    ensures Offset(HISTORY_CHUNK_PREFIX, 3) == 6
    ensures Offset(HISTORY_CHUNK_PREFIX, 4) == Size(HISTORY_CHUNK_PREFIX) == PREFIX_SIZE
  {
    assert Offset(HISTORY_CHUNK_REQUEST, 2) == 5;
    assert Offset(HISTORY_CHUNK_PREFIX, 2) == 5;
  }

  lemma RecordOffsets()
    ensures Offset(HISTORY_RECORD, 1) == 4 && Offset(HISTORY_RECORD, 2) == 6
    ensures Offset(HISTORY_RECORD, 3) == Size(HISTORY_RECORD) == 7
    ensures Offset(COMPACT_HISTORY_RECORD, 1) == 2
    ensures Offset(COMPACT_HISTORY_RECORD, 2) == Size(COMPACT_HISTORY_RECORD) == 3
  {
    assert Offset(HISTORY_RECORD, 2) == 6;
  }

  function RecordSize(compact: bool): nat {
    if compact then 3 else 7
  }

  function MaxRecords(compact: bool): nat {
    if compact then MAX_COMPACT_HISTORY_RECORDS else MAX_HISTORY_RECORDS
  }

  function RecordLayout(compact: bool): seq<Field> {
    if compact then COMPACT_HISTORY_RECORD else HISTORY_RECORD
  }

  /** The documented packet limits hold for the configured maxima (shared_config.py's size checks). */
  lemma PacketsFit(compact: bool)
    ensures HEADER_SIZE + PREFIX_SIZE + MaxRecords(compact) * RecordSize(compact) <= MAX_PACKET_SIZE
    ensures HEADER_SIZE + PREFIX_SIZE + MaxRecords(compact) * RecordSize(compact) <= PREFERRED_ATT_MTU - 1
    ensures 1 <= MaxRecords(compact) <= 255
    ensures MAX_HISTORY_RECORDS <= MAX_COMPACT_HISTORY_RECORDS
  {
  }

  // --- Field values of each record ------------------------------------------------

  function HeaderValues(opcode: u8, requestId: u16, length: u16, status: u8, flags: u8): (v: seq<Value>)
    ensures AllExact(HEADER, v)
  {
    [Int(PROTOCOL_VERSION), Int(opcode), Int(requestId), Int(length), Int(status), Int(flags)]
  }

  function CurrentValues(c: Device.Current): (v: seq<Value>)
    requires |c.sensors| == Device.SENSOR_COUNT
    ensures AllExact(CURRENT_RESPONSE, v)
  {
    var a, b := c.sensors[0], c.sensors[1];
    [Int(c.bootId), Int(c.newest),
     Int(a.temperature), Int(VisibleCode(Device.Visible(a))), Int(Flag(a.displayEnabled)),
     Int(b.temperature), Int(VisibleCode(Device.Visible(b))), Int(Flag(b.displayEnabled)),
     Int(c.average), Int(Flag(c.averageValid)), Int(0)]
  }

  function DisplayValues(id: u8, visible: Device.VisibleState, enabled: bool): (v: seq<Value>)
    ensures AllExact(SET_DISPLAY_RESPONSE, v)
  {
    [Int(id), Int(VisibleCode(visible)), Int(Flag(enabled))]
  }

  function MetaValues(m: Device.Meta): (v: seq<Value>)
    requires |m.counts| == |m.oldest| == Device.SENSOR_COUNT
    ensures AllExact(HISTORY_META_RESPONSE, v)
  {
    [Int(m.bootId), Int(m.newest), Int(m.counts[0]), Int(m.counts[1]), Int(m.oldest[0]), Int(m.oldest[1])]
  }

  function ChunkRequestValues(id: u8, start: u32, count: u8): (v: seq<Value>)
    ensures AllExact(HISTORY_CHUNK_REQUEST, v)
  {
    [Int(id), Int(start), Int(count)]
  }

  function PrefixValues(id: u8, start: u32, count: u8, size: u8): (v: seq<Value>)
    ensures AllExact(HISTORY_CHUNK_PREFIX, v)
  {
    [Int(id), Int(start), Int(count), Int(size)]
  }

  function RecordValues(r: Record, compact: bool): (v: seq<Value>)
    ensures AllExact(RecordLayout(compact), v)
  {
    if compact then [Int(r.temperature), Int(DataCode(r.status))]
    else [Int(r.sequence), Int(r.temperature), Int(DataCode(r.status))]
  }

  function RecordImage(r: Record, compact: bool): (b: seq<u8>)
    ensures |b| == RecordSize(compact)
  {
    RecordOffsets();
    Pack(RecordLayout(compact), RecordValues(r, compact))
  }

  function RecordImages(records: seq<Record>, compact: bool): (b: seq<u8>)
    ensures |b| == |records| * RecordSize(compact)
  {
    if records == [] then [] else
      var front := records[..|records| - 1];
      assert |records| * RecordSize(compact) == |front| * RecordSize(compact) + RecordSize(compact);
      RecordImages(front, compact) + RecordImage(records[|records| - 1], compact)
  }

  function AuthBeginValues(deviceId: seq<u8>, bootId: u32, nonce: seq<u8>): (v: seq<Value>)
    requires |deviceId| == 6 && |nonce| == 16
    ensures AllExact(AUTH_BEGIN_RESPONSE, v)
  {
    [Bytes(deviceId), Int(bootId), Bytes(nonce)]
  }

  // --- Packets ---------------------------------------------------------------------

  /** The eight header bytes at the firmware's offsets. */
  function HeaderImage(opcode: u8, requestId: u16, length: u16, status: u8, flags: u8): (b: seq<u8>)
    ensures |b| == HEADER_SIZE
  {
    [PROTOCOL_VERSION, opcode] + U16Bytes(requestId) + U16Bytes(length) + [status, flags]
  }

  /** They are what the Python packer produces for the header layout. */
  lemma HeaderPacked(opcode: u8, requestId: u16, length: u16, status: u8, flags: u8)
    ensures Size(HEADER) == HEADER_SIZE
    ensures HeaderImage(opcode, requestId, length, status, flags)
         == Pack(HEADER, HeaderValues(opcode, requestId, length, status, flags))
  {
    HeaderOffsets();
    var h, v := HeaderImage(opcode, requestId, length, status, flags), HeaderValues(opcode, requestId, length, status, flags);
    forall i | 0 <= i < |HEADER|
      ensures Slot(HEADER, h, i) == EncodeField(HEADER[i].kind, v[i])
    {
      HeaderSlot(h, i);
    }
    ImageDetermined(HEADER, v, h);
  }

  lemma HeaderSlot(h: seq<u8>, i: nat)
    requires |h| == Size(HEADER) == HEADER_SIZE && i < |HEADER|
    ensures Slot(HEADER, h, i) ==
            if i == 0 then h[0..1] else if i == 1 then h[1..2] else if i == 2 then h[2..4]
            else if i == 3 then h[4..6] else if i == 4 then h[6..7] else h[7..8]
  {
    HeaderOffsets();
  }

  /** A response: the header the firmware finishes with, then the payload. */
  datatype Reply = Reply(opcode: u8, requestId: u16, status: Status, payload: seq<u8>)

  function Frame(r: Reply): (b: seq<u8>)
    requires |r.payload| < TWO16
    ensures |b| == HEADER_SIZE + |r.payload|
  {
    HeaderImage(r.opcode, r.requestId, |r.payload|, r.status.Code(), RESPONSE_FLAG) + r.payload
  }
}
