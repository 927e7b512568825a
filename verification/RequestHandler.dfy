/** `protocol_process_request` over the firmware's mutable state and response buffer. */
module RequestHandlers {
  import opened Words
  import opened Layouts
  import opened HistoryBuffers
  import opened ApplicationAuth
  import opened Wire
  import opened ProtocolServer
  import Device
  import opened Thermometers

  class RequestHandler {
    const thermometer: Thermometer
    const guard: AuthGuard
    const session: AuthSession
    var bondReset: bool

    ghost function Footprint(): set<object> {
      {this, guard, session} + thermometer.Footprint()
    }

    ghost predicate Valid()
      reads this, thermometer, thermometer.Rings()
    {
      && thermometer.Valid()
      && this as object !in thermometer.Footprint()
      && guard as object !in thermometer.Footprint() && session as object !in thermometer.Footprint()
      && this as object != guard && this as object != session
    }

    ghost function State(): (s: Server)
      requires Valid()
      reads this, guard, session, thermometer, thermometer.Rings(), thermometer.Arrays()
      ensures WellFormed(s)
    {
      Server(thermometer.State(), Auth(guard.Value(), session.Value()), bondReset)
    }

    constructor (config: Config, capacity: nat, bootId: u32)
      requires 0 < capacity <= 0xFFFF
      ensures Valid() && fresh(Footprint()) && guard.config == config
      ensures State() == Server(Device.Boot(capacity, bootId), Auth(UNLOCKED, NO_SESSION), false)
    {
      thermometer := new Thermometer(capacity, bootId);
      guard := new AuthGuard(config);
      session := new AuthSession();
      bondReset := false;
    }

    /** A new connection: `protocol_session_start`. */
    method StartSession(deviceId: DeviceId)
      requires Valid()
      modifies this`bondReset, session
      ensures Valid()
      ensures State() == old(State()).(bondReset := false, auth := Auth(old(guard.Value()), Started(deviceId)))
    {
      bondReset := false;
      session.Start(deviceId);
    }

    /** The connection ended: `protocol_session_end`. */
    method EndSession()
      requires Valid()
      modifies this`bondReset, session
      ensures Valid()
      ensures State() == old(State()).(bondReset := false, auth := Auth(old(guard.Value()), NO_SESSION))
    {
      session.Clear();
      bondReset := false;
    }

    /** `protocol_session_take_bond_reset`: a requested reset is reported once. */
    method TakeBondReset() returns (requested: bool)
      requires Valid()
      modifies this`bondReset
      ensures Valid() && requested == old(State()).bondReset
      ensures State() == old(State()).(bondReset := false)
    {
      requested := bondReset;
      if bondReset {
        bondReset := false;
      }
    }

    /** `protocol_session_take_disconnect`. */
    method TakeDisconnect() returns (requested: bool)
      requires Valid()
      modifies session
      ensures Valid() && requested == old(State()).auth.session.disconnectRequested
      ensures State() == old(State()).(auth := Auth(old(guard.Value()), old(session.Value()).(disconnectRequested := false)))
    {
      requested := session.TakeDisconnect();
    }

    method HandleAuthBegin(env: Ambient, opcode: u8, id: u16, response: array<u8>) returns (length: nat)
      requires Valid() && HEADER_SIZE <= response.Length && response[..] == Blank(response.Length)
      modifies guard, session, response
      ensures Valid()
      ensures var (s, reply) := AuthBegin(old(State()), env, opcode, id, response.Length);
              State() == s && Holds(response[..], reply) && length == |Frame(reply)|
    {
      var outcome := guard.BeginChallenge(session, env.now, env.random);
      if outcome == Locked {
        length := FinishBare(response, opcode, id, AuthenticationLocked);
        return;
      }
      if response.Length < HEADER_SIZE + AUTH_BEGIN_SIZE {
        length := FinishBare(response, opcode, id, InternalError);
        return;
      }
      var current := thermometer.GetCurrent();
      length := SendChallenge(response, opcode, id, session.deviceId, current.bootId, session.nonce);
    }

    method HandleAuthProve(env: Ambient, payload: seq<u8>, opcode: u8, id: u16, response: array<u8>) returns (length: nat)
      requires Valid() && HEADER_SIZE <= response.Length && response[..] == Blank(response.Length)
      modifies guard, session, response
      ensures Valid()
      ensures var (s, reply) := AuthProve(guard.config, old(State()), env, payload, opcode, id);
              State() == s && Holds(response[..], reply) && length == |Frame(reply)|
    {
      if |payload| != PROOF_SIZE {
        length := FinishBare(response, opcode, id, AuthenticationRequired);
        return;
      }
      var current := thermometer.GetCurrent();
      var outcome := guard.CheckProof(session, env.now, current.bootId, payload);
      length := FinishBare(response, opcode, id, AuthStatus(outcome));
    }

    method HandleGetCurrent(opcode: u8, id: u16, response: array<u8>) returns (length: nat)
      requires Valid() && HEADER_SIZE <= response.Length && response[..] == Blank(response.Length)
      modifies response
      ensures Valid() && State() == old(State())
      ensures var reply := GetCurrent(State(), opcode, id, response.Length);
              Holds(response[..], reply) && length == |Frame(reply)|
    {
      if response.Length < HEADER_SIZE + CURRENT_SIZE {
        length := FinishBare(response, opcode, id, InternalError);
        return;
      }
      var current := thermometer.GetCurrent();
      EncodeCurrent(response, current);
      length := FinishResponse(response, opcode, id, Ok, CURRENT_SIZE,
                               Reply(opcode, id, Ok, Pack(CURRENT_RESPONSE, CurrentValues(current))));
    }

    method HandleSetDisplay(payload: seq<u8>, opcode: u8, id: u16, response: array<u8>) returns (length: nat)
      requires Valid() && HEADER_SIZE <= response.Length && response[..] == Blank(response.Length)
      modifies thermometer`sensors, response
      ensures Valid()
      ensures var (s, reply) := SetDisplay(old(State()), payload, opcode, id, response.Length);
              State() == s && Holds(response[..], reply) && length == |Frame(reply)|
    {
      if |payload| != 2 {
        length := FinishBare(response, opcode, id, InvalidValue);
        return;
      }
      var sensor, enabled := payload[0], payload[1];
      if sensor == 0 || sensor > Device.SENSOR_COUNT {
        length := FinishBare(response, opcode, id, InvalidSensor);
        return;
      }
      if enabled > 1 {
        length := FinishBare(response, opcode, id, InvalidValue);
        return;
      }
      if response.Length < HEADER_SIZE + 3 {
        length := FinishBare(response, opcode, id, InternalError);
        return;
      }
      length := SwitchDisplay(sensor, enabled != 0, opcode, id, response);
    }

    /** The part of the display handler that acts. */
    method SwitchDisplay(sensor: u8, enabled: bool, opcode: u8, id: u16, response: array<u8>) returns (length: nat)
      requires Valid() && HEADER_SIZE + 3 <= response.Length && response[..] == Blank(response.Length)
      requires 1 <= sensor <= Device.SENSOR_COUNT
      modifies thermometer`sensors, response
      ensures Valid()
      ensures State() == old(State()).(device := Device.SetDisplay(old(State()).device, sensor, enabled))
      ensures var latest := State().device.sensors[sensor - 1].latest;
              var reply := Reply(opcode, id, if Device.Available(old(State()).device, sensor) then Ok else NotAvailable,
                                 Pack(SET_DISPLAY_RESPONSE, DisplayValues(sensor, Device.Visible(latest), latest.displayEnabled)));
              Holds(response[..], reply) && length == |Frame(reply)|
    {
      var available, visible, resulting := thermometer.SetDisplay(sensor, enabled);
      EncodeDisplay(response, sensor, visible, resulting);
      var status := if available then Ok else NotAvailable;
      ghost var answer := Pack(SET_DISPLAY_RESPONSE, DisplayValues(sensor, visible, resulting));
      length := FinishResponse(response, opcode, id, status, 3, Reply(opcode, id, status, answer));
    }

    method HandleGetHistoryMeta(opcode: u8, id: u16, response: array<u8>) returns (length: nat)
      requires Valid() && HEADER_SIZE <= response.Length && response[..] == Blank(response.Length)
      requires response !in Footprint()
      modifies thermometer.Footprint(), response
      ensures Valid()
      ensures var (s, reply) := GetHistoryMeta(old(State()), opcode, id, response.Length);
              State() == s && Holds(response[..], reply) && length == |Frame(reply)|
    {
      if response.Length < HEADER_SIZE + META_SIZE {
        length := FinishBare(response, opcode, id, InternalError);
        return;
      }
      var meta := FreezeAndDescribe(opcode, id, response.Length);
      length := SendMeta(response, opcode, id, meta);
    }

    /** The part of the metadata handler that acts on the device. */
    method FreezeAndDescribe(ghost opcode: u8, ghost id: u16, ghost capacity: nat) returns (meta: Device.Meta)
      requires Valid() && HEADER_SIZE + META_SIZE <= capacity
      modifies thermometer.Footprint()
      ensures Valid() && |meta.counts| == |meta.oldest| == Device.SENSOR_COUNT
      ensures (State(), Reply(opcode, id, Ok, Pack(HISTORY_META_RESPONSE, MetaValues(meta))))
           == GetHistoryMeta(old(State()), opcode, id, capacity)
    {
      meta := thermometer.GetHistoryMeta();
    }

    method HandleGetHistoryChunk(payload: seq<u8>, opcode: u8, id: u16, response: array<u8>, compact: bool)
      returns (length: nat)
      requires Valid() && HEADER_SIZE <= response.Length && response[..] == Blank(response.Length)
      modifies response
      ensures Valid() && State() == old(State())
      ensures var reply := GetHistoryChunk(State(), payload, opcode, id, response.Length, compact);
              Holds(response[..], reply) && length == |Frame(reply)|
    {
      if |payload| != 6 {
        length := FinishBare(response, opcode, id, InvalidValue);
        return;
      }
      var sensor, start, requested := payload[0], ReadU32(payload[1..5]), payload[5];
      if sensor == 0 || sensor > Device.SENSOR_COUNT {
        length := FinishBare(response, opcode, id, InvalidSensor);
        return;
      }
      if requested == 0 {
        length := FinishBare(response, opcode, id, InvalidValue);
        return;
      }
      var limit := ChunkLimit(requested, response.Length, compact);
      if limit == 0 {
        length := FinishBare(response, opcode, id, InternalError);
        return;
      }
      length := CopyAndSend(sensor, start, limit, opcode, id, response, compact);
    }

    /** The second half of the chunk handler: copy the records out, then encode them. */
    method CopyAndSend(sensor: u8, start: u32, limit: nat, opcode: u8, id: u16, response: array<u8>, compact: bool)
      returns (length: nat)
      requires Valid() && HEADER_SIZE <= response.Length && response[..] == Blank(response.Length)
      requires 1 <= sensor <= Device.SENSOR_COUNT && limit <= ChunkLimit(0xFF, response.Length, compact)
      modifies response
      ensures Valid() && State() == old(State())
      ensures var records := Slice(Device.Served(State().device, sensor), start, limit);
              var reply := ServeRecords(records, opcode, id, sensor, start, compact);
              Holds(response[..], reply) && length == |Frame(reply)|
    {
      var records, copied := CopyOut(sensor, start, limit);
      length := Encode(sensor, start, limit, records, copied, opcode, id, response, compact);
    }

    /** The answer, from the handler's local buffer. */
    method Encode(sensor: u8, start: u32, ghost limit: nat, records: array<Record>, copied: nat,
                  opcode: u8, id: u16, response: array<u8>, compact: bool)
      returns (length: nat)
      requires Valid() && HEADER_SIZE <= response.Length && response[..] == Blank(response.Length)
      requires 1 <= sensor <= Device.SENSOR_COUNT && copied <= limit <= ChunkLimit(0xFF, response.Length, compact)
      requires copied <= records.Length && records[..copied] == Slice(Device.Served(State().device, sensor), start, limit)
      modifies response
      ensures Valid() && State() == old(State())
      ensures var reply := ServeRecords(old(records[..copied]), opcode, id, sensor, start, compact);
              Holds(response[..], reply) && length == |Frame(reply)|
    {
      length := SendChunk(response, opcode, id, sensor, start, records, copied, compact);
    }

    /** The handler's local buffer, filled from the ring. */
    method CopyOut(sensor: u8, start: u32, limit: nat) returns (records: array<Record>, copied: nat)
      requires Valid() && 1 <= sensor <= Device.SENSOR_COUNT && limit <= MAX_COMPACT_HISTORY_RECORDS
      ensures Valid() && State() == old(State()) && fresh(records)
      ensures copied <= records.Length && copied <= limit
      ensures records[..copied] == Slice(Device.Served(State().device, sensor), start, limit)
    {
      records := new Record[MAX_COMPACT_HISTORY_RECORDS](_ => Record(0, 0, DataStatus.Valid));
      var ok;
      ok, copied := thermometer.CopyHistory(sensor, start, limit, records);
    }

    /** The opcodes an authenticated session may use. */
    method HandleProtected(ghost env: Ambient, payload: seq<u8>, opcode: u8, id: u16, response: array<u8>) returns (length: nat)
      requires Valid() && HEADER_SIZE <= response.Length && response[..] == Blank(response.Length)
      requires response !in Footprint() && session.authenticated && opcode != AUTH_BEGIN && opcode != AUTH_PROVE
      modifies this`bondReset, thermometer.Footprint(), response
      ensures Valid()
      ensures var (s, reply) := Dispatch(guard.config, old(State()), env, payload, opcode, id, response.Length);
              State() == s && Holds(response[..], reply) && length == |Frame(reply)|
    {
      if opcode == GET_CURRENT && payload == [] {
        length := HandleGetCurrent(opcode, id, response);
      } else if opcode == SET_DISPLAY {
        length := HandleSetDisplay(payload, opcode, id, response);
      } else if opcode == GET_HISTORY_META && payload == [] {
        length := HandleGetHistoryMeta(opcode, id, response);
      } else if opcode == GET_HISTORY_CHUNK {
        length := HandleGetHistoryChunk(payload, opcode, id, response, false);
      } else if opcode == GET_HISTORY_CHUNK_COMPACT {
        length := HandleGetHistoryChunk(payload, opcode, id, response, true);
      } else if opcode == RESET_BOND && payload == [] {
        bondReset := true;
        length := FinishBare(response, opcode, id, Ok);
      } else if opcode == GET_CURRENT || opcode == GET_HISTORY_META || opcode == RESET_BOND {
        length := FinishBare(response, opcode, id, InvalidValue);
      } else {
        length := FinishBare(response, opcode, id, InvalidCommand);
      }
    }

    /**
     * Answer one request. A buffer too small for a header gets nothing; any other ends up
     * holding exactly the framed reply, with zeroes behind it.
     */
    method ProcessRequest(env: Ambient, request: seq<u8>, response: array<u8>) returns (length: nat)
      requires Valid() && response !in Footprint()
      modifies Footprint(), response
      ensures Valid()
      ensures response.Length < HEADER_SIZE ==>
                length == 0 && State() == old(State()) && response[..] == old(response[..])
      ensures HEADER_SIZE <= response.Length ==>
                var (s, reply) := Process(guard.config, old(State()), env, request, response.Length);
                State() == s && Holds(response[..], reply) && length == |Frame(reply)|
    {
      if response.Length < HEADER_SIZE {
        return 0;
      }
      Clear(response);
      var opcode, id := OpcodeOf(request), RequestIdOf(request);
      if |request| < HEADER_SIZE {
        length := FinishBare(response, opcode, id, InvalidValue);
        return;
      }
      if request[0] != PROTOCOL_VERSION {
        length := FinishBare(response, opcode, id, UnsupportedVersion);
        return;
      }
      if request[6] != 0 || request[7] != 0 || ReadU16(request[4..6]) != |request| - HEADER_SIZE {
        length := FinishBare(response, opcode, id, InvalidValue);
        return;
      }
      var payload := request[HEADER_SIZE..];
      length := Handle(env, payload, opcode, id, response);
    }

    /** The opcode switch: the two authentication opcodes, then the gate. */
    method Handle(env: Ambient, payload: seq<u8>, opcode: u8, id: u16, response: array<u8>) returns (length: nat)
      requires Valid() && HEADER_SIZE <= response.Length && response[..] == Blank(response.Length)
      requires response !in Footprint()
      modifies Footprint(), response
      ensures Valid()
      ensures var (s, reply) := Dispatch(guard.config, old(State()), env, payload, opcode, id, response.Length);
              State() == s && Holds(response[..], reply) && length == |Frame(reply)|
    {
      if opcode == AUTH_BEGIN {
        if payload != [] {
          length := FinishBare(response, opcode, id, InvalidValue);
        } else {
          length := HandleAuthBegin(env, opcode, id, response);
        }
      } else if opcode == AUTH_PROVE {
        length := HandleAuthProve(env, payload, opcode, id, response);
      } else if !session.authenticated {
        length := FinishBare(response, opcode, id, AuthenticationRequired);
      } else {
        length := HandleProtected(env, payload, opcode, id, response);
      }
    }
  }

  method SendChallenge(response: array<u8>, opcode: u8, id: u16, deviceId: DeviceId, bootId: u32, nonce: Nonce)
    returns (length: nat)
    requires HEADER_SIZE + AUTH_BEGIN_SIZE <= response.Length && response[..] == Blank(response.Length)
    modifies response
    ensures var reply := Reply(opcode, id, Ok, Pack(AUTH_BEGIN_RESPONSE, AuthBeginValues(deviceId, bootId, nonce)));
            Holds(response[..], reply) && length == |Frame(reply)|
  {
    EncodeChallenge(response, deviceId, bootId, nonce);
    ghost var payload := Pack(AUTH_BEGIN_RESPONSE, AuthBeginValues(deviceId, bootId, nonce));
    length := FinishResponse(response, opcode, id, Ok, AUTH_BEGIN_SIZE, Reply(opcode, id, Ok, payload));
  }

  /** Encode the copied records, if any, and finish the response. */
  method SendMeta(response: array<u8>, opcode: u8, id: u16, meta: Device.Meta) returns (length: nat)
    requires HEADER_SIZE + META_SIZE <= response.Length && response[..] == Blank(response.Length)
    requires |meta.counts| == |meta.oldest| == Device.SENSOR_COUNT
    modifies response
    ensures var reply := Reply(opcode, id, Ok, Pack(HISTORY_META_RESPONSE, MetaValues(meta)));
            |reply.payload| == META_SIZE && Holds(response[..], reply) && length == |Frame(reply)|
  {
    EncodeMeta(response, meta);
    length := FinishResponse(response, opcode, id, Ok, META_SIZE,
                             Reply(opcode, id, Ok, Pack(HISTORY_META_RESPONSE, MetaValues(meta))));
  }

  method SendChunk(response: array<u8>, opcode: u8, id: u16, sensor: u8, start: u32,
                   records: array<Record>, copied: nat, compact: bool)
    returns (length: nat)
    requires HEADER_SIZE <= response.Length && response[..] == Blank(response.Length)
    requires copied <= records.Length && copied <= ChunkLimit(0xFF, response.Length, compact)
    modifies response
    ensures var reply := ServeRecords(records[..copied], opcode, id, sensor, start, compact);
            Holds(response[..], reply) && length == |Frame(reply)|
  {
    if copied == 0 {
      length := FinishBare(response, opcode, id, NotAvailable);
      return;
    }
    ChunkFits(0xFF, copied, response.Length, compact);
    EncodeChunk(response, sensor, start, records, copied, compact);
    length := FinishResponse(response, opcode, id, Ok, PREFIX_SIZE + copied * RecordSize(compact),
                             Reply(opcode, id, Ok, ChunkPayload(sensor, start, records[..copied], compact)));
  }

  /** `memset(response, 0, capacity)`. */
  method Clear(response: array<u8>)
    modifies response
    ensures response[..] == Blank(response.Length)
  {
    for i := 0 to response.Length
      invariant forall k :: 0 <= k < i ==> response[k] == 0
    {
      response[i] := 0;
    }
  }
}
