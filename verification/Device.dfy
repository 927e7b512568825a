/** The thermometer's state and its atomic steps, as values (firmware/main/src/thermometer.c). */
module Device {
  import opened Words
  import opened HistoryBuffers

  const SENSOR_COUNT: nat := 2
  const FAILED_READ_LIMIT: nat := 1
  const SUCCESSFUL_READ_LIMIT: nat := 1
  const COUNTER_MAX: nat := 0xFFFF

  datatype VisibleState = Off | On | Unplugged

  datatype Latest = Latest(temperature: i16, status: DataStatus, displayEnabled: bool, sequence: u32)

  datatype Reading = Reading(valid: bool, temperature: i16)

  datatype Sensor = Sensor(latest: Latest, failedReads: u16, successfulReads: u16)

  datatype State = State(
    capacity: nat, bootId: u32, newest: u32,
    sensors: seq<Sensor>,
    live: seq<seq<Record>>,
    frozen: seq<seq<Record>>,
    frozenValid: bool
  )

  datatype Current = Current(bootId: u32, newest: u32, sensors: seq<Latest>, average: i16, averageValid: bool)

  datatype Meta = Meta(bootId: u32, newest: u32, counts: seq<u16>, oldest: seq<u32>)

  predicate Shaped(s: State) {
    && 0 < s.capacity <= 0xFFFF
    && |s.sensors| == |s.live| == |s.frozen| == SENSOR_COUNT
    && forall i :: 0 <= i < SENSOR_COUNT ==> |s.live[i]| <= s.capacity && |s.frozen[i]| <= s.capacity
  }

  function Boot(capacity: nat, bootId: u32): State {
    State(capacity, bootId, 0, seq(SENSOR_COUNT, _ => Sensor(Latest(0, Disconnected, false, 0), 0, 0)),
          seq(SENSOR_COUNT, _ => []), seq(SENSOR_COUNT, _ => []), false)
  }

  // --- Sampling -----------------------------------------------------------------

  function SampleOf(sensor: Sensor, sequence: u32): Record {
    Record(sequence, sensor.latest.temperature, sensor.latest.status)
  }

  /** One sample period: every sensor's latest value enters its live ring under a new number. */
  function Sample(s: State): (t: State)
    requires Shaped(s)
    ensures Shaped(t)
  {
    var n := Wrap32(s.newest + 1);
    s.(newest := n,
       live := seq(SENSOR_COUNT, i requires 0 <= i < SENSOR_COUNT =>
         Push(s.live[i], SampleOf(s.sensors[i], n), s.capacity)),
       sensors := seq(SENSOR_COUNT, i requires 0 <= i < SENSOR_COUNT =>
         s.sensors[i].(latest := s.sensors[i].latest.(sequence := n))))
  }

  function Saturated(n: u16): u16 {
    if n < COUNTER_MAX then n + 1 else n
  }

  function Absorb(sensor: Sensor, reading: Reading): Sensor {
    if reading.valid then
      var hits := Saturated(sensor.successfulReads);
      var latest :=
        if sensor.latest.status == Valid || hits >= SUCCESSFUL_READ_LIMIT
        then sensor.latest.(temperature := reading.temperature, status := Valid) else sensor.latest;
      Sensor(latest, 0, hits)
    else
      var misses := Saturated(sensor.failedReads);
      var latest := if misses >= FAILED_READ_LIMIT then sensor.latest.(status := Disconnected) else sensor.latest;
      Sensor(latest, misses, 0)
  }

  function ApplyReading(s: State, i: nat, reading: Reading): (t: State)
    requires Shaped(s) && i < SENSOR_COUNT
    ensures Shaped(t)
  {
    s.(sensors := s.sensors[i := Absorb(s.sensors[i], reading)])
  }

  // --- Display --------------------------------------------------------------------

  function Visible(latest: Latest): VisibleState {
    if latest.status != Valid then Unplugged else if latest.displayEnabled then On else Off
  }

  function WithDisplay(s: State, id: nat, enabled: bool): (t: State)
    requires Shaped(s) && 1 <= id <= SENSOR_COUNT
    ensures Shaped(t)
  {
    var sensor := s.sensors[id - 1];
    s.(sensors := s.sensors[id - 1 := sensor.(latest := sensor.latest.(displayEnabled := enabled))])
  }

  predicate Available(s: State, id: nat)
    requires Shaped(s) && 1 <= id <= SENSOR_COUNT
  {
    s.sensors[id - 1].latest.status == Valid
  }

  /** A display switch only takes effect on an available sensor. */
  function SetDisplay(s: State, id: nat, enabled: bool): (t: State)
    requires Shaped(s) && 1 <= id <= SENSOR_COUNT
    ensures Shaped(t)
  {
    if Available(s, id) then WithDisplay(s, id, enabled) else s
  }

  function ToggleDisplay(s: State, id: nat): (t: State)
    requires Shaped(s) && 1 <= id <= SENSOR_COUNT
    ensures Shaped(t)
  {
    SetDisplay(s, id, !s.sensors[id - 1].latest.displayEnabled)
  }

  // --- Reading ----------------------------------------------------------------------

  /** C's division by two truncates toward zero. */
  function HalfTowardZero(sum: int): int {
    if sum >= 0 then sum / 2 else -(-sum / 2)
  }

  function Snapshot(s: State): Current
    requires Shaped(s)
  {
    var a, b := s.sensors[0].latest, s.sensors[1].latest;
    var valid := Visible(a) == On && Visible(b) == On;
    Current(s.bootId, s.newest, [a, b],
            if valid then HalfTowardZero(a.temperature as int + b.temperature as int) else 0, valid)
  }

  function OldestOf(window: seq<Record>): u32 {
    if window == [] then 0 else window[0].sequence
  }

  function MetaOf(s: State): Meta
    requires Shaped(s)
  {
    Meta(s.bootId, s.newest, [|s.live[0]|, |s.live[1]|], [OldestOf(s.live[0]), OldestOf(s.live[1])])
  }

  /** GET_HISTORY_META: both rings are copied aside, and described. */
  function Freeze(s: State): (t: State)
    requires Shaped(s)
    ensures Shaped(t)
  {
    s.(frozen := s.live, frozenValid := true)
  }

  /** The window a chunk request reads. */
  function Served(s: State, id: nat): seq<Record>
    requires Shaped(s) && 1 <= id <= SENSOR_COUNT
  {
    if s.frozenValid then s.frozen[id - 1] else s.live[id - 1]
  }

  // --- Runs -----------------------------------------------------------------------------

  datatype Event =
    | Sampled
    | Read(sensor: nat, reading: Reading)
    | Switched(id: nat, enabled: bool)
    | Button(id: nat)
    | Frozen

  predicate Possible(e: Event) {
    match e
    case Read(i, _) => i < SENSOR_COUNT
    case Switched(id, _) => 1 <= id <= SENSOR_COUNT
    case Button(id) => 1 <= id <= SENSOR_COUNT
    case _ => true
  }

  function Step(s: State, e: Event): (t: State)
    requires Shaped(s) && Possible(e)
    ensures Shaped(t)
    ensures t.capacity == s.capacity && t.bootId == s.bootId
    ensures e != Frozen ==> t.frozen == s.frozen && t.frozenValid == s.frozenValid
  {
    match e
    case Sampled => Sample(s)
    case Read(i, reading) => ApplyReading(s, i, reading)
    case Switched(id, enabled) => SetDisplay(s, id, enabled)
    case Button(id) => ToggleDisplay(s, id)
    case Frozen => Freeze(s)
  }

  function Steps(s: State, events: seq<Event>): (t: State)
    requires Shaped(s) && forall e :: e in events ==> Possible(e)
    ensures Shaped(t)
    ensures t.capacity == s.capacity && t.bootId == s.bootId
    ensures Frozen !in events ==> t.frozen == s.frozen && t.frozenValid == s.frozenValid
  {
    if events == [] then s
    else
      assert forall e :: e in events[..|events| - 1] ==> e in events;
      Step(Steps(s, events[..|events| - 1]), events[|events| - 1])
  }

  /** The records of a window carry consecutive sequence numbers, modulo 2^32. */
  predicate Contiguous(window: seq<Record>) {
    forall j :: 0 <= j < |window| ==> window[j].sequence == Wrap32(window[0].sequence + j)
  }

  /** A live window ends at the newest sample. */
  predicate EndsAt(window: seq<Record>, newest: u32) {
    forall j :: 0 <= j < |window| ==> window[j].sequence == Wrap32(newest - |window| + 1 + j)
  }

  predicate Recorded(s: State)
    requires Shaped(s)
  {
    && |s.live[0]| == |s.live[1]|
    && |s.frozen[0]| == |s.frozen[1]|
    && (forall i :: 0 <= i < SENSOR_COUNT ==> EndsAt(s.live[i], s.newest) && Contiguous(s.frozen[i]))
  }

  lemma EndsAtContiguous(window: seq<Record>, newest: u32)
    requires EndsAt(window, newest)
    ensures Contiguous(window)
    ensures window != [] ==> window[0].sequence == Wrap32(newest - |window| + 1)
  {
    forall j | 0 <= j < |window|
      ensures window[j].sequence == Wrap32(window[0].sequence + j)
    {
      WrapAdd(newest - |window| + 1, j);
      assert window[0].sequence == Wrap32(newest - |window| + 1 + 0);
    }
  }

  lemma PushEndsAt(window: seq<Record>, newest: u32, record: Record, capacity: nat)
    requires 0 < capacity && |window| <= capacity && EndsAt(window, newest)
    requires record.sequence == Wrap32(newest + 1)
    ensures EndsAt(Push(window, record, capacity), Wrap32(newest + 1))
  {
    var w := Push(window, record, capacity);
    var n := Wrap32(newest + 1);
    forall j | 0 <= j < |w|
      ensures w[j].sequence == Wrap32(n - |w| + 1 + j)
    {
      WrapAdd(newest + 1, j + 1 - |w|);
      var shift := |window| + 1 - |w|;
      if j < |w| - 1 {
        assert w[j] == window[j + shift];
        assert window[j + shift].sequence == Wrap32(newest - |window| + 1 + (j + shift));
      }
    }
  }

  lemma StepRecorded(s: State, e: Event)
    requires Shaped(s) && Recorded(s) && Possible(e)
    ensures Recorded(Step(s, e))
  {
    match e
    case Sampled =>
      var n := Wrap32(s.newest + 1);
      PushEndsAt(s.live[0], s.newest, SampleOf(s.sensors[0], n), s.capacity);
      PushEndsAt(s.live[1], s.newest, SampleOf(s.sensors[1], n), s.capacity);
    case Frozen =>
      EndsAtContiguous(s.live[0], s.newest);
      EndsAtContiguous(s.live[1], s.newest);
    case _ =>
  }

  lemma {:induction false} StepsRecorded(s: State, events: seq<Event>)
    requires Shaped(s) && Recorded(s) && forall e :: e in events ==> Possible(e)
    ensures Recorded(Steps(s, events))
  {
    if events != [] {
      var front := events[..|events| - 1];
      assert forall e :: e in front ==> e in events;
      StepsRecorded(s, front);
      StepRecorded(Steps(s, front), events[|events| - 1]);
    }
  }

  lemma DistinctSequences(window: seq<Record>)
    requires Contiguous(window) && |window| <= 0xFFFF
    ensures forall i, j :: 0 <= i < j < |window| ==> window[i].sequence != window[j].sequence
  {
    forall i, j | 0 <= i < j < |window|
      ensures window[i].sequence != window[j].sequence
    {
      WrapInjective(window[0].sequence, i, j);
    }
  }

  /**
   * From boot, over any run: both live rings hold equally many records with contiguous,
   * pairwise distinct numbers ending at the newest sample; the frozen rings are contiguous too.
   */
  lemma RingsContiguous(capacity: nat, bootId: u32, events: seq<Event>, i: nat)
    requires 0 < capacity <= 0xFFFF && i < SENSOR_COUNT
    requires forall e :: e in events ==> Possible(e)
    ensures var s := Steps(Boot(capacity, bootId), events);
            && |s.live[0]| == |s.live[1]| && |s.frozen[0]| == |s.frozen[1]|
            && (s.live[i] != [] ==> s.live[i][0].sequence == Wrap32(s.newest - |s.live[i]| + 1))
            && Contiguous(s.live[i]) && Contiguous(s.frozen[i])
            && (forall a, b :: 0 <= a < b < |s.live[i]| ==> s.live[i][a].sequence != s.live[i][b].sequence)
            && (forall a, b :: 0 <= a < b < |s.frozen[i]| ==> s.frozen[i][a].sequence != s.frozen[i][b].sequence)
  {
    StepsRecorded(Boot(capacity, bootId), events);
    var s := Steps(Boot(capacity, bootId), events);
    EndsAtContiguous(s.live[i], s.newest);
    DistinctSequences(s.live[i]);
    DistinctSequences(s.frozen[i]);
  }

  // --- The ring under sampling keeps exactly the newest samples --------------------------

  /** Every record a run ever sampled for sensor `i`, oldest first. */
  function History(s: State, events: seq<Event>, i: nat): seq<Record>
    requires Shaped(s) && i < SENSOR_COUNT && forall e :: e in events ==> Possible(e)
  {
    if events == [] then []
    else
      var front, e := events[..|events| - 1], events[|events| - 1];
      assert forall e :: e in front ==> e in events;
      var before := Steps(s, front);
      History(s, front, i) + (if e == Sampled then [SampleOf(before.sensors[i], Wrap32(before.newest + 1))] else [])
  }

  lemma StepsNext(s: State, events: seq<Event>, front: seq<Event>)
    requires Shaped(s) && events != [] && (forall e :: e in events ==> Possible(e)) && front == events[..|events| - 1]
    ensures (forall e :: e in front ==> Possible(e)) && Possible(events[|events| - 1])
    ensures Steps(s, events) == Step(Steps(s, front), events[|events| - 1])
  {
    assert forall e :: e in front ==> e in events;
  }

  /** What the last event adds to the history. */
  lemma HistoryNext(s: State, events: seq<Event>, i: nat, front: seq<Event>) returns (more: seq<Record>)
    requires Shaped(s) && i < SENSOR_COUNT && events != [] && forall e :: e in events ==> Possible(e)
    requires front == events[..|events| - 1]
    ensures (forall e :: e in front ==> Possible(e))
    ensures more == if events[|events| - 1] == Sampled then [SampleOf(Steps(s, front).sensors[i], Wrap32(Steps(s, front).newest + 1))] else []
    ensures History(s, events, i) == History(s, front, i) + more
  {
    assert forall e :: e in front ==> e in events;
    more := if events[|events| - 1] == Sampled then [SampleOf(Steps(s, front).sensors[i], Wrap32(Steps(s, front).newest + 1))] else [];
  }

  /** And to the ring. */
  lemma LiveNext(s: State, events: seq<Event>, i: nat, front: seq<Event>, more: seq<Record>)
    requires Shaped(s) && i < SENSOR_COUNT && (forall e :: e in events ==> Possible(e)) && forall e :: e in front ==> Possible(e)
    requires events != [] && front == events[..|events| - 1]
    requires more == if events[|events| - 1] == Sampled then [SampleOf(Steps(s, front).sensors[i], Wrap32(Steps(s, front).newest + 1))] else []
    ensures Steps(s, events).live[i] == if more == [] then Steps(s, front).live[i] else Push(Steps(s, front).live[i], more[0], s.capacity)
  {
    StepsNext(s, events, front);
    StepLive(Steps(s, front), events[|events| - 1], i);
  }

  /** At most one more record is pushed onto the ring. */
  lemma PushMore(window: seq<Record>, records: seq<Record>, more: seq<Record>, ring: seq<Record>, later: seq<Record>, capacity: nat)
    requires |window| <= capacity && 0 < capacity && |more| <= 1 && ring == PushAll(window, records, capacity)
    requires later == if more == [] then ring else Push(ring, more[0], capacity)
    ensures later == PushAll(window, records + more, capacity)
  {
    if more == [] {
      assert records + more == records;
    } else {
      PushAllOn(window, records, more[0], capacity);
    }
  }

  lemma {:induction false} LiveRingIsPushAll(s: State, events: seq<Event>, i: nat)
    requires Shaped(s) && i < SENSOR_COUNT && forall e :: e in events ==> Possible(e)
    ensures Steps(s, events).live[i] == PushAll(s.live[i], History(s, events, i), s.capacity)
  {
    if events != [] {
      var front := events[..|events| - 1];
      var more := HistoryNext(s, events, i, front);
      LiveNext(s, events, i, front, more);
      LiveRingIsPushAll(s, front, i);
      PushMore(s.live[i], History(s, front, i), more, Steps(s, front).live[i], Steps(s, events).live[i], s.capacity);
    }
  }

  /** Only sampling changes a live ring: by one record. */
  lemma StepLive(s: State, e: Event, i: nat)
    requires Shaped(s) && i < SENSOR_COUNT && Possible(e)
    ensures Step(s, e).live[i]
         == if e == Sampled then Push(s.live[i], SampleOf(s.sensors[i], Wrap32(s.newest + 1)), s.capacity) else s.live[i]
    ensures Step(s, e).capacity == s.capacity
  {
  }

  lemma PushAllOn(window: seq<Record>, records: seq<Record>, record: Record, capacity: nat)
    requires |window| <= capacity && 0 < capacity
    ensures PushAll(window, records + [record], capacity) == Push(PushAll(window, records, capacity), record, capacity)
  {
    assert (records + [record])[..|records|] == records;
  }

  // --- What the readings say ---------------------------------------------------------------

  /** How many samples have been taken. */
  function Taken(events: seq<Event>): nat {
    if events == [] then 0
    else Taken(events[..|events| - 1]) + (if events[|events| - 1] == Sampled then 1 else 0)
  }

  predicate Reads(e: Event, i: nat) {
    e.Read? && e.sensor == i
  }

  /** The temperature of sensor `i`'s last valid reading, zero before the first. */
  function LastGood(events: seq<Event>, i: nat): i16 {
    if events == [] then 0
    else
      var last := events[|events| - 1];
      if Reads(last, i) && last.reading.valid then last.reading.temperature else LastGood(events[..|events| - 1], i)
  }

  /** Whether sensor `i`'s last reading was valid; before the first it counts as disconnected. */
  predicate Connected(events: seq<Event>, i: nat) {
    events != []
    && var last := events[|events| - 1];
    if Reads(last, i) then last.reading.valid else Connected(events[..|events| - 1], i)
  }

  /** What sampling should record of sensor `i`, told by the readings alone: oldest first, numbered from 1 modulo 2^32. */
  function Samples(events: seq<Event>, i: nat): seq<Record> {
    if events == [] then []
    else
      var front, last := events[..|events| - 1], events[|events| - 1];
      Samples(front, i)
      + (if last == Sampled
         then [Record((Taken(front) + 1) % 0x1_0000_0000, LastGood(front, i), if Connected(front, i) then Valid else Disconnected)]
         else [])
  }

  /**
   * A reading decides what the sensor shows, a command or button whether it is displayed, if it is
   * connected, and sampling how it is numbered; nothing else changes any of these.
   */
  lemma ShownStep(s: State, e: Event, i: nat)
    requires Shaped(s) && Possible(e) && i < SENSOR_COUNT
    ensures var before, after := s.sensors[i].latest, Step(s, e).sensors[i].latest;
            && after.temperature == (if Reads(e, i) && e.reading.valid then e.reading.temperature else before.temperature)
            && after.status == (if Reads(e, i) then (if e.reading.valid then Valid else Disconnected) else before.status)
            && after.displayEnabled == (if before.status == Valid && e.Switched? && e.id == i + 1 then e.enabled
                                        else if before.status == Valid && e == Button(i + 1) then !before.displayEnabled
                                        else before.displayEnabled)
            && after.sequence == (if e == Sampled then (s.newest + 1) % 0x1_0000_0000 else before.sequence)
    ensures Step(s, e).newest == if e == Sampled then (s.newest + 1) % 0x1_0000_0000 else s.newest
  {
  }

  /** What the sensor shows, and how far the numbers are, is as the events say. */
  predicate AsShown(s: State, events: seq<Event>, i: nat)
    requires Shaped(s) && i < SENSOR_COUNT
  {
    && s.sensors[i].latest.temperature == LastGood(events, i)
    && s.sensors[i].latest.status == (if Connected(events, i) then Valid else Disconnected)
    && s.newest == Taken(events) % 0x1_0000_0000
  }

  lemma ShownOn(before: State, events: seq<Event>, i: nat, front: seq<Event>)
    requires Shaped(before) && i < SENSOR_COUNT && events != [] && front == events[..|events| - 1]
    requires Possible(events[|events| - 1]) && AsShown(before, front, i)
    ensures AsShown(Step(before, events[|events| - 1]), events, i)
  {
    ShownStep(before, events[|events| - 1], i);
    WrapAdd(Taken(front), 1);
  }

  lemma {:induction false} ShownAfter(capacity: nat, bootId: u32, events: seq<Event>, i: nat)
    requires 0 < capacity <= 0xFFFF && i < SENSOR_COUNT && forall e :: e in events ==> Possible(e)
    ensures AsShown(Steps(Boot(capacity, bootId), events), events, i)
  {
    if events != [] {
      var front := events[..|events| - 1];
      StepsNext(Boot(capacity, bootId), events, front);
      ShownAfter(capacity, bootId, front, i);
      ShownOn(Steps(Boot(capacity, bootId), front), events, i, front);
    }
  }

  /** From boot, what is sampled is what the readings say. */
  lemma {:induction false} HistoryIsSamples(capacity: nat, bootId: u32, events: seq<Event>, i: nat)
    requires 0 < capacity <= 0xFFFF && i < SENSOR_COUNT && forall e :: e in events ==> Possible(e)
    ensures History(Boot(capacity, bootId), events, i) == Samples(events, i)
  {
    if events != [] {
      var front := events[..|events| - 1];
      var more := HistoryNext(Boot(capacity, bootId), events, i, front);
      HistoryIsSamples(capacity, bootId, front, i);
      ShownAfter(capacity, bootId, front, i);
      NextSample(Steps(Boot(capacity, bootId), front), front, i);
      SamplesNext(events, i, front, more);
    }
  }

  lemma SamplesNext(events: seq<Event>, i: nat, front: seq<Event>, more: seq<Record>)
    requires events != [] && front == events[..|events| - 1]
    requires more == if events[|events| - 1] == Sampled
                     then [Record((Taken(front) + 1) % 0x1_0000_0000, LastGood(front, i), if Connected(front, i) then Valid else Disconnected)]
                     else []
    ensures Samples(events, i) == Samples(front, i) + more
  {
  }

  lemma NextSample(before: State, front: seq<Event>, i: nat)
    requires Shaped(before) && i < SENSOR_COUNT && AsShown(before, front, i)
    ensures SampleOf(before.sensors[i], Wrap32(before.newest + 1))
         == Record((Taken(front) + 1) % 0x1_0000_0000, LastGood(front, i), if Connected(front, i) then Valid else Disconnected)
  {
    WrapAdd(Taken(front), 1);
  }

  lemma {:induction false} SamplesTaken(events: seq<Event>, i: nat)
    ensures |Samples(events, i)| == Taken(events)
  {
    if events != [] {
      SamplesTaken(events[..|events| - 1], i);
    }
  }

  /** Reading `j` of the sensor is its last one before event `k`; with `good`, its last valid one. */
  predicate LastReading(events: seq<Event>, i: nat, k: nat, j: nat, good: bool) {
    && j < k <= |events| && Reads(events[j], i) && (good ==> events[j].reading.valid)
    && forall m :: j < m < k && Reads(events[m], i) ==> good && !events[m].reading.valid
  }

  /** The record is the one that the sample at event `k` adds for sensor `i`. */
  ghost predicate Told(events: seq<Event>, i: nat, k: nat, r: Record)
    requires k < |events|
  {
    && r.sequence == (Taken(events[..k]) + 1) % 0x1_0000_0000
    && (forall j: nat :: LastReading(events, i, k, j, true) ==> r.temperature == events[j].reading.temperature)
    && ((forall j :: 0 <= j < k && Reads(events[j], i) ==> !events[j].reading.valid) ==> r.temperature == 0)
    && (forall j: nat :: LastReading(events, i, k, j, false) ==> r.status == if events[j].reading.valid then Valid else Disconnected)
    && ((forall j :: 0 <= j < k ==> !Reads(events[j], i)) ==> r.status == Disconnected)
  }

  /**
   * The record that sample `k` adds for a sensor carries the temperature of its last valid reading
   * before, zero if there was none; it is valid exactly if the sensor's last reading was.
   */
  lemma SampleTells(capacity: nat, bootId: u32, events: seq<Event>, i: nat, k: nat)
    requires 0 < capacity <= 0xFFFF && i < SENSOR_COUNT && forall e :: e in events ==> Possible(e)
    requires k < |events| && events[k] == Sampled
    ensures Taken(events[..k]) < |History(Boot(capacity, bootId), events, i)|
    ensures Told(events, i, k, History(Boot(capacity, bootId), events, i)[Taken(events[..k])])
  {
    HistoryIsSamples(capacity, bootId, events, i);
    SampleAt(events, i, k);
    forall j: nat | LastReading(events, i, k, j, true)
      ensures LastGood(events[..k], i) == events[j].reading.temperature
    {
      LastGoodIs(events, i, k, j);
    }
    forall j: nat | LastReading(events, i, k, j, false)
      ensures Connected(events[..k], i) <==> events[j].reading.valid
    {
      ConnectedIs(events, i, k, j);
    }
    if forall j :: 0 <= j < k && Reads(events[j], i) ==> !events[j].reading.valid {
      NeverGood(events, i, k);
    }
    if forall j :: 0 <= j < k ==> !Reads(events[j], i) {
      NeverRead(events, i, k);
    }
  }

  lemma {:induction false} SampleAt(events: seq<Event>, i: nat, k: nat)
    requires k < |events| && events[k] == Sampled
    ensures Taken(events[..k]) < |Samples(events, i)|
    ensures Samples(events, i)[Taken(events[..k])]
         == Record((Taken(events[..k]) + 1) % 0x1_0000_0000, LastGood(events[..k], i),
                   if Connected(events[..k], i) then Valid else Disconnected)
    decreases |events|
  {
    var front := events[..|events| - 1];
    SamplesTaken(front, i);
    if k < |front| {
      SampleAt(front, i, k);
      assert front[..k] == events[..k];
    }
  }

  lemma {:induction false} LastGoodIs(events: seq<Event>, i: nat, k: nat, j: nat)
    requires LastReading(events, i, k, j, true)
    ensures LastGood(events[..k], i) == events[j].reading.temperature
  {
    assert events[..k][..k - 1] == events[..k - 1];
    if j < k - 1 {
      LastGoodIs(events, i, k - 1, j);
    }
  }

  lemma {:induction false} NeverGood(events: seq<Event>, i: nat, k: nat)
    requires k <= |events| && forall j :: 0 <= j < k && Reads(events[j], i) ==> !events[j].reading.valid
    ensures LastGood(events[..k], i) == 0
  {
    if k > 0 {
      NeverGood(events, i, k - 1);
      assert events[..k][..k - 1] == events[..k - 1];
    }
  }

  lemma {:induction false} ConnectedIs(events: seq<Event>, i: nat, k: nat, j: nat)
    requires LastReading(events, i, k, j, false)
    ensures Connected(events[..k], i) <==> events[j].reading.valid
  {
    assert events[..k][..k - 1] == events[..k - 1];
    if j < k - 1 {
      ConnectedIs(events, i, k - 1, j);
    }
  }

  lemma {:induction false} NeverRead(events: seq<Event>, i: nat, k: nat)
    requires k <= |events| && forall j :: 0 <= j < k ==> !Reads(events[j], i)
    ensures !Connected(events[..k], i)
  {
    if k > 0 {
      NeverRead(events, i, k - 1);
      assert events[..k][..k - 1] == events[..k - 1];
    }
  }

  lemma LiveIsNewest(capacity: nat, bootId: u32, events: seq<Event>, i: nat, taken: seq<Record>)
    requires 0 < capacity <= 0xFFFF && i < SENSOR_COUNT
    requires forall e :: e in events ==> Possible(e)
    requires taken == History(Boot(capacity, bootId), events, i)
    ensures Steps(Boot(capacity, bootId), events).live[i] == taken[|taken| - Min(|taken|, capacity)..]
  {
    LiveRingIsPushAll(Boot(capacity, bootId), events, i);
    RingKeepsNewest(taken, capacity);
  }

  /** From boot, a live ring is always the last min(n, capacity) of the n samples that the readings call for. */
  lemma LiveRingKeepsNewest(capacity: nat, bootId: u32, events: seq<Event>, i: nat)
    requires 0 < capacity <= 0xFFFF && i < SENSOR_COUNT
    requires forall e :: e in events ==> Possible(e)
    ensures |Samples(events, i)| == Taken(events)
    ensures Steps(Boot(capacity, bootId), events).live[i] == Samples(events, i)[Taken(events) - Min(Taken(events), capacity)..]
  {
    SamplesTaken(events, i);
    HistoryIsSamples(capacity, bootId, events, i);
    LiveIsNewest(capacity, bootId, events, i, Samples(events, i));
  }
}
