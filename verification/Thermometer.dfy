/** The firmware's shared thermometer state, updated in place under one mutex. */
module Thermometers {
  import opened Words
  import opened HistoryBuffers
  import opened Device

  class Thermometer {
    // One live and one frozen ring per sensor; a chunk request reads one of the four.
    const live1: HistoryBuffer
    const live2: HistoryBuffer
    const frozen1: HistoryBuffer
    const frozen2: HistoryBuffer
    const bootId: u32
    const capacity: nat
    var newest: u32
    var sensors: seq<Sensor>
    var frozenValid: bool

    function Live(i: nat): HistoryBuffer {
      if i == 0 then live1 else live2
    }

    function FrozenRing(i: nat): HistoryBuffer {
      if i == 0 then frozen1 else frozen2
    }

    ghost function Rings(): set<HistoryBuffer> {
      {live1, live2, frozen1, frozen2}
    }

    ghost function Arrays(): set<array<Record>> {
      {live1.records, live2.records, frozen1.records, frozen2.records}
    }

    /** Everything a method of this class may change. */
    ghost function Footprint(): set<object> {
      {this} + Rings() + Arrays()
    }

    ghost predicate Separate() {
      && live1 != live2 && live1 != frozen1 && live1 != frozen2
      && live2 != frozen1 && live2 != frozen2 && frozen1 != frozen2
      && live1.records != live2.records && live1.records != frozen1.records && live1.records != frozen2.records
      && live2.records != frozen1.records && live2.records != frozen2.records && frozen1.records != frozen2.records
    }

    ghost predicate Valid()
      reads this, Rings()
    {
      && Separate()
      && |sensors| == SENSOR_COUNT
      && 0 < capacity <= 0xFFFF
      && live1.Valid() && live2.Valid() && frozen1.Valid() && frozen2.Valid()
      && live1.Capacity() == live2.Capacity() == frozen1.Capacity() == frozen2.Capacity() == capacity
    }

    ghost function State(): (s: State)
      requires Valid()
      reads this, Rings(), Arrays()
      ensures Shaped(s)
    {
      Device.State(capacity, bootId, newest, sensors,
                   [live1.Window(), live2.Window()], [frozen1.Window(), frozen2.Window()], frozenValid)
    }

    constructor (capacity: nat, bootId: u32)
      requires 0 < capacity <= 0xFFFF
      ensures Valid() && fresh(Footprint())
      ensures State() == Boot(capacity, bootId)
    {
      live1 := new HistoryBuffer(capacity);
      live2 := new HistoryBuffer(capacity);
      frozen1 := new HistoryBuffer(capacity);
      frozen2 := new HistoryBuffer(capacity);
      this.capacity, this.bootId, newest, frozenValid := capacity, bootId, 0, false;
      sensors := seq(SENSOR_COUNT, _ => Sensor(Latest(0, Disconnected, false, 0), 0, 0));
    }

    /** The state loop's sample step. */
    method TakeSample()
      requires Valid()
      modifies Footprint()
      ensures Valid() && State() == Sample(old(State()))
    {
      newest := Wrap32(newest + 1);
      AppendHistory(0);
      AppendHistory(1);
      assert sensors == Sample(old(State())).sensors;
      assert State().live == Sample(old(State())).live;
    }

    /** `append_history_record` for one sensor. */
    method AppendHistory(i: nat)
      requires Valid() && i < SENSOR_COUNT
      modifies this`sensors, Live(i), Live(i).records
      ensures Valid()
      ensures Live(i).Window() == Push(old(Live(i).Window()), SampleOf(old(sensors[i]), newest), capacity)
      ensures sensors == old(sensors)[i := old(sensors[i]).(latest := old(sensors[i]).latest.(sequence := newest))]
    {
      Live(i).Append(SampleOf(sensors[i], newest));
      sensors := sensors[i := sensors[i].(latest := sensors[i].latest.(sequence := newest))];
    }

    method ApplyReading(i: nat, reading: Reading)
      requires Valid() && i < SENSOR_COUNT
      modifies this`sensors
      ensures Valid() && State() == Device.ApplyReading(old(State()), i, reading)
    {
      var sensor := sensors[i];
      if reading.valid {
        sensor := sensor.(failedReads := 0, successfulReads := Saturated(sensor.successfulReads));
        if sensor.latest.status == DataStatus.Valid || sensor.successfulReads >= SUCCESSFUL_READ_LIMIT {
          sensor := sensor.(latest := sensor.latest.(temperature := reading.temperature, status := DataStatus.Valid));
        }
      } else {
        sensor := sensor.(successfulReads := 0, failedReads := Saturated(sensor.failedReads));
        if sensor.failedReads >= FAILED_READ_LIMIT {
          sensor := sensor.(latest := sensor.latest.(status := Disconnected));
        }
      }
      sensors := sensors[i := sensor];
    }

    method GetCurrent() returns (snapshot: Current)
      requires Valid()
      ensures snapshot == Snapshot(State())
    {
      var a, b := sensors[0].latest, sensors[1].latest;
      var averageValid := Visible(a) == On && Visible(b) == On;
      var sum := a.temperature as int + b.temperature as int;
      snapshot := Current(bootId, newest, [a, b], if averageValid then HalfTowardZero(sum) else 0, averageValid);
    }

    /** Freeze both rings for the chunk reads that follow, and describe them. */
    method GetHistoryMeta() returns (meta: Meta)
      requires Valid()
      modifies Footprint()
      ensures Valid() && State() == Freeze(old(State()))
      ensures meta == MetaOf(old(State()))
    {
      FreezeRings();
      meta := DescribeFrozen();
    }

    /** The two structure assignments into the history snapshot. */
    method FreezeRings()
      requires Valid()
      modifies this`frozenValid, frozen1, frozen2, frozen1.records, frozen2.records
      ensures Valid() && State() == Freeze(old(State()))
    {
      frozen1.Assign(live1);
      frozen2.Assign(live2);
      frozenValid := true;
      assert frozen1.Window() == live1.Window() == old(live1.Window());
      assert live2.Window() == old(live2.Window());
    }

    method DescribeFrozen() returns (meta: Meta)
      requires Valid()
      ensures meta == Meta(bootId, newest, [|frozen1.Window()|, |frozen2.Window()|],
                           [OldestOf(frozen1.Window()), OldestOf(frozen2.Window())])
    {
      var count1 := frozen1.Count();
      var count2 := frozen2.Count();
      var oldest1 := frozen1.OldestSequence();
      var oldest2 := frozen2.OldestSequence();
      meta := Meta(bootId, newest, [count1, count2], [oldest1, oldest2]);
    }

    method SetDisplay(id: nat, enabled: bool) returns (available: bool, visible: VisibleState, resulting: bool)
      requires Valid() && 1 <= id <= SENSOR_COUNT
      modifies this`sensors
      ensures Valid() && State() == Device.SetDisplay(old(State()), id, enabled)
      ensures available == Available(old(State()), id)
      ensures visible == Visible(State().sensors[id - 1].latest)
      ensures resulting == State().sensors[id - 1].latest.displayEnabled
    {
      var sensor := sensors[id - 1];
      available := sensor.latest.status == DataStatus.Valid;
      if available {
        sensor := sensor.(latest := sensor.latest.(displayEnabled := enabled));
        sensors := sensors[id - 1 := sensor];
      }
      visible := Visible(sensor.latest);
      resulting := sensor.latest.displayEnabled;
    }

    method ToggleDisplay(id: nat) returns (available: bool)
      requires Valid() && 1 <= id <= SENSOR_COUNT
      modifies this`sensors
      ensures Valid() && State() == Device.ToggleDisplay(old(State()), id)
      ensures available == Available(old(State()), id)
    {
      var sensor := sensors[id - 1];
      available := sensor.latest.status == DataStatus.Valid;
      if available {
        sensors := sensors[id - 1 := sensor.(latest := sensor.latest.(displayEnabled := !sensor.latest.displayEnabled))];
      }
    }

    /** Chunk reads use the frozen ring once there is one; sampling does not disturb it. */
    method CopyHistory(id: nat, start: u32, requested: nat, out: array<Record>) returns (ok: bool, copied: nat)
      requires Valid() && 1 <= id <= SENSOR_COUNT
      requires requested <= out.Length && out !in Arrays()
      modifies out
      ensures Valid() && State() == old(State())
      ensures ok <==> copied > 0
      ensures copied == |Slice(Served(State(), id), start, requested)| <= out.Length
      ensures out[..copied] == Slice(Served(State(), id), start, requested)
    {
      var source := if frozenValid then FrozenRing(id - 1) else Live(id - 1);
      ok, copied := source.Copy(start, requested, out);
    }
  }
}
