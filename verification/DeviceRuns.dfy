/** The device's rings over runs of arbitrary requests, from boot to the recovered history. */
module DeviceRuns {
  import opened Words
  import opened HistoryBuffers
  import opened ApplicationAuth
  import opened Wire
  import opened ProtocolServer
  import opened ProtocolRuns
  import opened Recovery
  import Accounts = HistoryAccounting
  import Device

  /** An authenticated, well-formed request whose answer fits. */
  predicate Acts(s: Server, t: Stamped, opcode: u8, length: nat, answer: nat)
    requires WellFormed(s)
  {
    IsRequest(t, opcode, length) && s.auth.session.authenticated && HEADER_SIZE + answer <= t.input.capacity
  }

  /** What an input does to the sensors and rings: one event, or none. */
  function EventsOf(s: Server, t: Stamped): seq<Device.Event>
    requires WellFormed(s)
  {
    if t.input.Background? then [t.input.event]
    else if Acts(s, t, GET_HISTORY_META, 0, META_SIZE) then [Device.Frozen]
    else if Acts(s, t, SET_DISPLAY, 2, 3) && 1 <= t.input.bytes[HEADER_SIZE] <= Device.SENSOR_COUNT && t.input.bytes[HEADER_SIZE + 1] <= 1
    then [Device.Switched(t.input.bytes[HEADER_SIZE], t.input.bytes[HEADER_SIZE + 1] == 1)]
    else []
  }

  lemma InputIsDeviceEvent(c: Config, s: Server, t: Stamped)
    requires WellFormed(s) && Allowed(t)
    ensures forall e :: e in EventsOf(s, t) ==> Device.Possible(e)
    ensures ProtocolRuns.Next(c, s, t).device == if EventsOf(s, t) == [] then s.device else Device.Step(s.device, EventsOf(s, t)[0])
    ensures |EventsOf(s, t)| <= 1
  {
  }

  /** The device events among the first `n` inputs. */
  function Events(c: Config, s: Server, trace: seq<Stamped>, n: nat): (events: seq<Device.Event>)
    requires WellFormed(s) && Trace(trace) && n <= |trace|
    ensures forall e :: e in events ==> Device.Possible(e)
  {
    if n == 0 then []
    else
      InputIsDeviceEvent(c, At(c, s, trace, n - 1), trace[n - 1]);
      Events(c, s, trace, n - 1) + EventsOf(At(c, s, trace, n - 1), trace[n - 1])
  }

  lemma StepsOn(s: Device.State, events: seq<Device.Event>, more: seq<Device.Event>)
    requires Device.Shaped(s) && |more| <= 1 && forall e :: e in events + more ==> Device.Possible(e)
    ensures Device.Steps(s, events + more)
         == if more == [] then Device.Steps(s, events) else Device.Step(Device.Steps(s, events), more[0])
  {
    if more == [] {
      assert events + more == events;
    } else {
      assert (events + more)[..|events|] == events;
    }
  }

  lemma NextIsDeviceRun(c: Config, d: Device.State, events: seq<Device.Event>, s: Server, t: Stamped)
    requires Device.Shaped(d) && WellFormed(s) && Allowed(t) && forall e :: e in events ==> Device.Possible(e)
    requires s.device == Device.Steps(d, events)
    ensures forall e :: e in events + EventsOf(s, t) ==> Device.Possible(e)
    ensures ProtocolRuns.Next(c, s, t).device == Device.Steps(d, events + EventsOf(s, t))
  {
    InputIsDeviceEvent(c, s, t);
    StepsOn(d, events, EventsOf(s, t));
  }

  /** Whatever bytes arrive, the rings move by these events only. */
  lemma {:induction false} TraceIsDeviceRun(c: Config, s: Server, trace: seq<Stamped>, n: nat)
    requires WellFormed(s) && Trace(trace) && n <= |trace|
    ensures At(c, s, trace, n).device == Device.Steps(s.device, Events(c, s, trace, n))
  {
    if n > 0 {
      TraceIsDeviceRun(c, s, trace, n - 1);
      NextIsDeviceRun(c, s.device, Events(c, s, trace, n - 1), At(c, s, trace, n - 1), trace[n - 1]);
    }
  }

  /** The rings of every state a run of bytes reaches are numbered as recovery needs it. */
  lemma AlwaysRecorded(c: Config, s: Server, trace: seq<Stamped>, n: nat)
    requires WellFormed(s) && Device.Recorded(s.device) && Trace(trace) && n <= |trace|
    ensures Device.Recorded(At(c, s, trace, n).device)
  {
    TraceIsDeviceRun(c, s, trace, n);
    Device.StepsRecorded(s.device, Events(c, s, trace, n));
  }

  /** A device that has just started. */
  function Booted(capacity: nat, bootId: u32): (s: Server)
    requires 0 < capacity <= 0xFFFF
    ensures WellFormed(s)
  {
    Server(Device.Boot(capacity, bootId), Auth(UNLOCKED, NO_SESSION), false)
  }

  lemma BootedIsRecorded(capacity: nat, bootId: u32)
    requires 0 < capacity <= 0xFFFF
    ensures Device.Recorded(Booted(capacity, bootId).device)
  {
  }

  /** The newest samples of sensor `x` since boot, as many as a ring holds, as the readings among the inputs call for. */
  function Newest(c: Config, capacity: nat, bootId: u32, trace: seq<Stamped>, n: nat, x: nat): seq<Record>
    requires 0 < capacity <= 0xFFFF && Trace(trace) && n <= |trace| && 1 <= x <= Device.SENSOR_COUNT
  {
    var samples := Device.Samples(Events(c, Booted(capacity, bootId), trace, n), x - 1);
    samples[|samples| - Min(|samples|, capacity)..]
  }

  lemma LiveIsNewest(c: Config, capacity: nat, bootId: u32, trace: seq<Stamped>, n: nat, x: nat)
    requires 0 < capacity <= 0xFFFF && Trace(trace) && n <= |trace| && 1 <= x <= Device.SENSOR_COUNT
    ensures At(c, Booted(capacity, bootId), trace, n).device.live[x - 1] == Newest(c, capacity, bootId, trace, n, x)
    ensures At(c, Booted(capacity, bootId), trace, n).device.bootId == bootId
  {
    TraceIsDeviceRun(c, Booted(capacity, bootId), trace, n);
    Device.LiveRingKeepsNewest(capacity, bootId, Events(c, Booted(capacity, bootId), trace, n), x - 1);
  }

  /**
   * From boot to the client: after any run of inputs at all, an authenticated transfer without timeouts,
   * and with at most `retries` failing calls in a row, is complete, and for each sensor it holds exactly
   * the decoded last min(n, capacity) samples since boot, as the readings called for them.
   */
  lemma RecoveryFromBoot(c: Config, capacity: nat, bootId: u32, trace: seq<Stamped>, n: nat,
                         env: Ambient, id: u16, e: Surroundings, first: nat)
    requires 0 < capacity <= 0xFFFF && Trace(trace) && n <= |trace|
    requires At(c, Booted(capacity, bootId), trace, n).auth.session.authenticated
    requires Bearable(e.mishap, e.retries) && forall k :: e.clock(k) < e.deadline
    ensures var s := At(c, Booted(capacity, bootId), trace, n);
            var t := Retrieval(c, s, env, id, e, first);
            && MetaFetched(c, s, env, id) == Success(Description(s.device))
            && Accounts.Complete(Description(s.device), bootId, t)
            && SensorRecovered(t.records, 1, Newest(c, capacity, bootId, trace, n, 1))
            && SensorRecovered(t.records, 2, Newest(c, capacity, bootId, trace, n, 2))
            && (forall key :: key in t.records ==> 1 <= key.0 <= Device.SENSOR_COUNT)
  {
    var s := At(c, Booted(capacity, bootId), trace, n);
    BootedIsRecorded(capacity, bootId);
    AlwaysRecorded(c, Booted(capacity, bootId), trace, n);
    LiveIsNewest(c, capacity, bootId, trace, n, 1);
    LiveIsNewest(c, capacity, bootId, trace, n, 2);
    RecoveryIsExact(c, s, env, id, e, first);
  }
}
