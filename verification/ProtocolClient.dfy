/** The PC side of the wire (backend/pc_client/protocol.py and thermometer_client.py). */
module ProtocolClient {
  import opened Words
  import opened Layouts
  import opened HistoryBuffers
  import opened ApplicationAuth
  import opened Wire
  import Device

  /** `ProtocolError` may carry the device's status; `ValueError` marks a caller's mistake. */
  datatype ClientError = ProtocolError(status: Option<Status>) | ValueError

  datatype Response = Response(version: int, opcode: u8, requestId: int, status: Status, payload: seq<u8>)

  datatype SensorSnapshot = SensorSnapshot(sensor: nat, temperature: Option<int>, state: Device.VisibleState, enabled: bool)

  datatype CurrentSnapshot = CurrentSnapshot(bootId: int, newest: int, sensors: seq<SensorSnapshot>, average: Option<int>)

  datatype HistoryMeta = HistoryMeta(bootId: u32, newest: u32, counts: seq<u16>, oldest: seq<u32>)

  /** A history record as the service sees it; centi-degrees, absent when disconnected. */
  datatype HistoryValue = HistoryValue(sequence: u32, temperature: Option<i16>, status: DataStatus)

  datatype HistoryChunk = HistoryChunk(sensor: u8, start: u32, records: seq<HistoryValue>)

  datatype Challenge = Challenge(deviceId: DeviceId, bootId: u32, nonce: Nonce)

  function Malformed<T>(): Result<T, ClientError> {
    Failure(ProtocolError(None))
  }

  // --- Requests ----------------------------------------------------------------------

  function BuildRequest(opcode: u8, requestId: int, payload: seq<u8>): Result<seq<u8>, ClientError> {
    if !(0 <= requestId < TWO16) || |payload| >= TWO16 then Failure(ValueError)
    else Success(Pack(HEADER, HeaderValues(opcode, requestId, |payload|, 0, 0)) + payload)
  }

  predicate KnownSensor(sensor: int) {
    1 <= sensor <= Device.SENSOR_COUNT
  }

  function BuildSetDisplay(requestId: int, sensor: int, enabled: bool): Result<seq<u8>, ClientError> {
    if !KnownSensor(sensor) then Failure(ValueError)
    else BuildRequest(SET_DISPLAY, requestId, Pack(SET_DISPLAY_REQUEST, [Int(sensor), Int(Flag(enabled))]))
  }

  function BuildProof(requestId: int, proof: seq<u8>): Result<seq<u8>, ClientError> {
    if |proof| != PROOF_SIZE then Failure(ValueError)
    else BuildRequest(AUTH_PROVE, requestId, Pack(AUTH_PROVE_REQUEST, [Bytes(proof)]))
  }

  function ChunkOpcode(compact: bool): u8 {
    if compact then GET_HISTORY_CHUNK_COMPACT else GET_HISTORY_CHUNK
  }

  function BuildHistoryChunk(requestId: int, sensor: int, start: int, count: int, compact: bool): Result<seq<u8>, ClientError> {
    if !KnownSensor(sensor) || !(0 <= start < TWO32) || !(1 <= count <= MaxRecords(compact)) then Failure(ValueError)
    else BuildRequest(ChunkOpcode(compact), requestId, Pack(HISTORY_CHUNK_REQUEST, ChunkRequestValues(sensor, start, count)))
  }

  // --- Responses ------------------------------------------------------------------------

  function ParseResponse(packet: seq<u8>, expectedOpcode: Option<u8>, expectedId: Option<int>, allowError: bool)
    : (r: Result<Response, ClientError>)
    ensures r.Success? ==>
              && KnownOpcode(r.value.opcode) && r.value.version == PROTOCOL_VERSION
              && (expectedOpcode.Some? ==> r.value.opcode == expectedOpcode.value)
              && (expectedId.Some? ==> r.value.requestId == expectedId.value)
              && (r.value.status == Ok || allowError)
              && HEADER_SIZE + |r.value.payload| == |packet| && r.value.payload == packet[HEADER_SIZE..]
  {
    if |packet| < HEADER_SIZE then Malformed()
    else
      HeaderOffsets();
      var h := Unpack(HEADER, packet[..HEADER_SIZE]);
      var payload := packet[HEADER_SIZE..];
      if |payload| != h[3].n then Malformed()
      else if h[5].n % 2 == 0 then Malformed()
      else if !KnownOpcode(h[1].n) then Malformed()
      else
        var status := StatusOf(h[4].n);
        if status.None? then Malformed()
        else if h[0].n != PROTOCOL_VERSION then Failure(ProtocolError(status))
        else if expectedOpcode.Some? && h[1].n != expectedOpcode.value then Failure(ProtocolError(status))
        else if expectedId.Some? && h[2].n != expectedId.value then Failure(ProtocolError(status))
        else if status.value != Ok && !allowError then Failure(ProtocolError(status))
        else Success(Response(h[0].n, h[1].n, h[2].n, status.value, payload))
  }

  function Present(state: Device.VisibleState, centi: int): Option<int> {
    if state == Device.Unplugged then None else Some(centi)
  }

  /** One sensor's three fields; `None` when a code or flag is out of range. */
  function DecodeSensor(sensor: nat, centi: int, state: u8, enabled: u8): Option<SensorSnapshot> {
    var visible := VisibleOf(state);
    if visible.None? || enabled > 1 then None
    else Some(SensorSnapshot(sensor, Present(visible.value, centi), visible.value, enabled == 1))
  }

  function DecodeCurrent(r: Response): Result<CurrentSnapshot, ClientError> {
    if r.opcode != GET_CURRENT || |r.payload| != Size(CURRENT_RESPONSE) then Malformed()
    else
      var v := Unpack(CURRENT_RESPONSE, r.payload);
      var a, b := DecodeSensor(1, v[2].n, v[3].n, v[4].n), DecodeSensor(2, v[5].n, v[6].n, v[7].n);
      if a.None? || b.None? then Malformed()
      else if v[9].n > 1 || v[10].n != 0 then Malformed()
      else Success(CurrentSnapshot(v[0].n, v[1].n, [a.value, b.value], if v[9].n == 1 then Some(v[8].n) else None))
  }

  function DecodeDisplay(r: Response): Result<(nat, Device.VisibleState, bool), ClientError> {
    if r.opcode != SET_DISPLAY || |r.payload| != Size(SET_DISPLAY_RESPONSE) then Malformed()
    else
      var v := Unpack(SET_DISPLAY_RESPONSE, r.payload);
      if !KnownSensor(v[0].n) then Failure(ValueError)
      else if v[2].n > 1 then Malformed()
      else if VisibleOf(v[1].n).None? then Malformed()
      else Success((v[0].n, VisibleOf(v[1].n).value, v[2].n == 1))
  }

  function DecodeChallenge(r: Response): Result<Challenge, ClientError> {
    if r.opcode != AUTH_BEGIN || |r.payload| != Size(AUTH_BEGIN_RESPONSE) then Malformed()
    else
      var v := Unpack(AUTH_BEGIN_RESPONSE, r.payload);
      Success(Challenge(v[0].data, v[1].n, v[2].data))
  }

  function DecodeMeta(r: Response): Result<HistoryMeta, ClientError> {
    if r.opcode != GET_HISTORY_META || |r.payload| != Size(HISTORY_META_RESPONSE) then Malformed()
    else
      var v := Unpack(HISTORY_META_RESPONSE, r.payload);
      Success(HistoryMeta(v[0].n, v[1].n, [v[2].n, v[3].n], [v[4].n, v[5].n]))
  }

  // --- History chunks ----------------------------------------------------------------------

  /** Record `i` of a chunk; a compact record is numbered by its position. */
  function DecodeRecord(image: seq<u8>, start: u32, i: nat, compact: bool): Option<HistoryValue>
    requires |image| == RecordSize(compact)
  {
    RecordOffsets();
    var v := Unpack(RecordLayout(compact), image);
    var centi, code := if compact then v[0].n else v[1].n, if compact then v[1].n else v[2].n;
    var status := DataStatusOf(code);
    if status.None? then None
    else
      Some(HistoryValue(if compact then Wrap32(start + i) else v[0].n,
                        if status.value == Valid then Some(centi) else None, status.value))
  }

  function ImageAt(images: seq<u8>, i: nat, compact: bool): (image: seq<u8>)
    requires (i + 1) * RecordSize(compact) <= |images|
    ensures |image| == RecordSize(compact)
  {
    assert (i + 1) * RecordSize(compact) == i * RecordSize(compact) + RecordSize(compact);
    images[i * RecordSize(compact)..i * RecordSize(compact) + RecordSize(compact)]
  }

  /** Record `i` of a chunk's images; `None` when it is cut off or has an unknown data status. */
  function RecordAt(images: seq<u8>, start: u32, i: nat, compact: bool): Option<HistoryValue> {
    if (i + 1) * RecordSize(compact) <= |images| then DecodeRecord(ImageAt(images, i, compact), start, i, compact) else None
  }

  /** The first `n` records, or `None` when one of them does not decode. */
  function DecodeRecords(images: seq<u8>, start: u32, n: nat, compact: bool): (r: Option<seq<HistoryValue>>)
    ensures r.Some? ==> |r.value| == n
  {
    Collect((i: nat) => RecordAt(images, start, i, compact), n)
  }

  function DecodeHistoryChunk(r: Response): Result<HistoryChunk, ClientError> {
    if r.opcode != GET_HISTORY_CHUNK && r.opcode != GET_HISTORY_CHUNK_COMPACT then Malformed()
    else if |r.payload| < PREFIX_SIZE then Malformed()
    else
      ChunkOffsets();
      var compact := r.opcode == GET_HISTORY_CHUNK_COMPACT;
      var v := Unpack(HISTORY_CHUNK_PREFIX, r.payload[..PREFIX_SIZE]);
      if !KnownSensor(v[0].n) || v[3].n != RecordSize(compact) then Malformed()
      else if |r.payload| != PREFIX_SIZE + v[2].n * RecordSize(compact) then Malformed()
      else
        var records := DecodeRecords(r.payload[PREFIX_SIZE..], v[1].n, v[2].n, compact);
        if records.None? then Malformed() else Success(HistoryChunk(v[0].n, v[1].n, records.value))
  }

  /** The decoder's record loop, with its early exit on an unknown data status. */
  method DecodeRecordLoop(images: seq<u8>, start: u32, n: nat, compact: bool) returns (r: Option<seq<HistoryValue>>)
    ensures r == DecodeRecords(images, start, n, compact)
  {
    var f := (i: nat) => RecordAt(images, start, i, compact);
    var records: seq<HistoryValue> := [];
    for i := 0 to n
      invariant Collect(f, i) == Some(records)
    {
      var record := f(i);
      if record.None? {
        CollectStops(f, i + 1, n);
        return None;
      }
      records := records + [record.value];
    }
    r := Some(records);
  }

  // --- Sizing requests ---------------------------------------------------------------------

  function RecordsPerChunk(mtu: nat, compact: bool): (n: nat)
    ensures 1 <= n <= MaxRecords(compact)
  {
    var capacity := if mtu >= 1 then mtu - 1 else 0;
    var count := (capacity - (HEADER_SIZE + PREFIX_SIZE)) / RecordSize(compact);
    var capped := if MaxRecords(compact) < count then MaxRecords(compact) else count;
    if capped < 1 then 1 else capped
  }

  /** From the smallest legal MTU on, a chunk of that many records fits one ATT read response. */
  lemma ChunkFitsMtu(mtu: nat, compact: bool)
    requires 23 <= mtu
    ensures HEADER_SIZE + PREFIX_SIZE + RecordsPerChunk(mtu, compact) * RecordSize(compact) <= mtu - 1
    ensures RecordsPerChunk(mtu, compact) == MaxRecords(compact)
         || HEADER_SIZE + PREFIX_SIZE + (RecordsPerChunk(mtu, compact) + 1) * RecordSize(compact) > mtu - 1
  {
  }
}
