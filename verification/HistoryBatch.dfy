/** Turning recovered records into dated rows (backend/pc_client/ble_service.py and history_sync.py). */
module HistoryBatches {
  import opened Words
  import opened HistoryBuffers
  import Device

  /** Times are microseconds; temperatures are centi-degrees. */
  datatype TimedRecord = TimedRecord(sensor: nat, sequence: u32, time: int, temperature: Option<i16>, status: DataStatus)

  datatype ReadingStatus = Retrieved(status: DataStatus) | NotRetrieved | Missing

  datatype SensorReading = SensorReading(sensor: nat, temperature: Option<i16>, status: ReadingStatus)

  datatype Source = Live | History | Provisional

  /** `(boot_id, sample_seq)`, the natural key of a sample the device took. */
  type Key = (u32, u32)

  /** `total` is the average in half centi-degrees, which keeps it exact. */
  datatype SampleRecord = SampleRecord(
    time: int,
    key: Option<Key>,
    readings: seq<SensorReading>,
    total: Option<int>,
    source: Source
  )

  // --- Dating a sequence number ---------------------------------------------------------

  /** `timestamp`: at most half the range back from the anchor, otherwise forward. */
  function Timestamp(anchor: u32, anchorTime: int, sequence: u32, period: int): int {
    var backward := Wrap32(anchor - sequence);
    if backward <= 0x7FFF_FFFF then anchorTime - backward * period
    else
      var forward := Wrap32(sequence - anchor);
      anchorTime + forward * period
  }

  /** How many periods after the anchor a sequence number lies, from -(2^31 - 1) to 2^31. */
  function Displacement(anchor: u32, sequence: u32): (d: int)
    ensures -0x8000_0000 < d <= 0x8000_0000
    ensures Wrap32(anchor + d) == sequence
  {
    var ahead := Wrap32(sequence - anchor);
    assert Wrap32(anchor + ahead) == sequence;
    if ahead <= 0x8000_0000 then ahead else ahead - TWO32
  }

  lemma DatedByDisplacement(anchor: u32, anchorTime: int, sequence: u32, period: int)
    ensures Timestamp(anchor, anchorTime, sequence, period) == anchorTime + Displacement(anchor, sequence) * period
  {
    var backward, d := Wrap32(anchor - sequence), Displacement(anchor, sequence);
    assert backward == if d <= 0 then -d else TWO32 - d;
    if d <= 0 {
      assert (-backward) * period == -(backward * period);
    }
  }

  lemma DisplacementApart(anchor: u32, p: u32, q: u32)
    ensures Displacement(anchor, p) < Displacement(anchor, q)
        ==> Displacement(anchor, q) - Displacement(anchor, p) == Wrap32(q - p)
    ensures Displacement(anchor, p) == Displacement(anchor, q) ==> p == q
  {
    WrapShift(anchor + Displacement(anchor, q), anchor + Displacement(anchor, p));
  }

  lemma NextDisplacement(anchor: u32, q: u32)
    ensures Displacement(anchor, Wrap32(q + 1))
         == if Displacement(anchor, q) == 0x8000_0000 then -0x7FFF_FFFF else Displacement(anchor, q) + 1
  {
    var d := Displacement(anchor, q);
    WrapAdd(anchor + d, 1);
    WrapAdd(anchor + d + 1, anchor);
    assert Wrap32(Wrap32(q + 1) - anchor) == Wrap32(d + 1);
    SmallWrap(d + 1);
  }

  lemma SmallWrap(x: int)
    requires -TWO32 < x < TWO32
    ensures Wrap32(x) == if x < 0 then x + TWO32 else x
  {
  }

  lemma Scaled(a: int, b: int, period: int)
    requires period > 0
    ensures b * period - a * period == (b - a) * period
    ensures a < b ==> a * period < b * period
  {
    if a < b {
      assert (b - a) * period > 0;
    }
  }

  /** The sample after `q` is dated one period later, except where the range is cut: 2^31 past the anchor. */
  lemma OnePeriodApart(anchor: u32, anchorTime: int, q: u32, period: int)
    requires period > 0
    ensures Timestamp(anchor, anchorTime, Wrap32(q + 1), period) == Timestamp(anchor, anchorTime, q, period) + period
       <==> Wrap32(q - anchor) != 0x8000_0000
  {
    var a, b := Displacement(anchor, q), Displacement(anchor, Wrap32(q + 1));
    DatedByDisplacement(anchor, anchorTime, q, period);
    DatedByDisplacement(anchor, anchorTime, Wrap32(q + 1), period);
    NextDisplacement(anchor, q);
    AtEdge(anchor, q);
    assert a != 0x8000_0000 ==> (b - a) * period == period;
    Scaled(a, b, period);
    Scaled(b, a, period);
  }

  lemma AtEdge(anchor: u32, q: u32)
    ensures Displacement(anchor, q) == 0x8000_0000 <==> Wrap32(q - anchor) == 0x8000_0000
  {
  }

  // --- Grouping by sequence ---------------------------------------------------------------

  type Group = map<nat, TimedRecord>

  /** The sequence numbers in order of first appearance: the order of the grouping dictionary. */
  function Sequences(records: seq<TimedRecord>): seq<u32> {
    if records == [] then []
    else
      var front, q := Sequences(records[..|records| - 1]), records[|records| - 1].sequence;
      if q in front then front else front + [q]
  }

  function GroupAt(groups: map<u32, Group>, q: u32): Group {
    if q in groups then groups[q] else map[]
  }

  function Groups(records: seq<TimedRecord>): (groups: map<u32, Group>) {
    if records == [] then map[]
    else
      var front, last := Groups(records[..|records| - 1]), records[|records| - 1];
      front[last.sequence := GroupAt(front, last.sequence)[last.sensor := last]]
  }

  function ReadingOf(group: Group, sensor: nat): SensorReading {
    if sensor in group then SensorReading(sensor, group[sensor].temperature, Retrieved(group[sensor].status))
    else SensorReading(sensor, None, NotRetrieved)
  }

  /** Both temperatures or no average. */
  function TotalOf(a: Option<i16>, b: Option<i16>): Option<int> {
    if a.Some? && b.Some? then Some(a.value + b.value) else None
  }

  function TimeOf(group: Group, now: int): int {
    if 2 in group then group[2].time else if 1 in group then group[1].time else now
  }

  function SampleOf(group: Group, bootId: u32, now: int, q: u32): SampleRecord {
    var first, second := ReadingOf(group, 1), ReadingOf(group, 2);
    SampleRecord(TimeOf(group, now), Some((bootId, q)), [first, second],
                 TotalOf(first.temperature, second.temperature), History)
  }

  /** One sample per grouped sequence, before sorting. */
  function Samples(records: seq<TimedRecord>, qs: seq<u32>, bootId: u32, now: int): (samples: seq<SampleRecord>)
    ensures |samples| == |qs|
  {
    seq(|qs|, i requires 0 <= i < |qs| => SampleOf(GroupAt(Groups(records), qs[i]), bootId, now, qs[i]))
  }

  /** A stable insertion, as the library's sort by time keeps equal keys in order. */
  function InsertByTime(samples: seq<SampleRecord>, x: SampleRecord): seq<SampleRecord> {
    if samples == [] || samples[|samples| - 1].time <= x.time then samples + [x]
    else InsertByTime(samples[..|samples| - 1], x) + [samples[|samples| - 1]]
  }

  function SortByTime(samples: seq<SampleRecord>): seq<SampleRecord> {
    if samples == [] then [] else InsertByTime(SortByTime(samples[..|samples| - 1]), samples[|samples| - 1])
  }

  /** The batch that the records of one retrieval become. */
  function Batch(records: seq<TimedRecord>, bootId: u32, now: int): seq<SampleRecord> {
    SortByTime(Samples(records, Sequences(records), bootId, now))
  }

  // --- The code ---------------------------------------------------------------------------

  /** `_build_history_batch`: fill the dictionary, emit one sample per entry, sort by time. */
  method BuildHistoryBatch(records: seq<TimedRecord>, bootId: u32, now: int) returns (samples: seq<SampleRecord>)
    ensures samples == Batch(records, bootId, now)
  {
    var order: seq<u32>, groups: map<u32, Group> := [], map[];
    for i := 0 to |records|
      invariant order == Sequences(records[..i]) && groups == Groups(records[..i])
    {
      assert records[..i + 1][..i] == records[..i];
      var record := records[i];
      if record.sequence !in order {
        order := order + [record.sequence];
      }
      groups := groups[record.sequence := GroupAt(groups, record.sequence)[record.sensor := record]];
    }
    assert records[..|records|] == records;
    samples := [];
    for i := 0 to |order|
      invariant |samples| == i
      invariant forall j :: 0 <= j < i ==> samples[j] == SampleOf(GroupAt(groups, order[j]), bootId, now, order[j])
    {
      var sample := BuildSample(GroupAt(groups, order[i]), bootId, now, order[i]);
      samples := samples + [sample];
    }
    assert samples == Samples(records, Sequences(records), bootId, now);
    samples := SortByTime(samples);
  }

  /** One entry: a reading per sensor, dated by the last sensor that has a record. */
  method BuildSample(group: Group, bootId: u32, now: int, q: u32) returns (sample: SampleRecord)
    ensures sample == SampleOf(group, bootId, now, q)
  {
    var readings: seq<SensorReading>, temperatures: seq<int>, time: Option<int> := [], [], None;
    for sensor := 1 to Device.SENSOR_COUNT + 1
      invariant readings == [ReadingOf(group, 1), ReadingOf(group, 2)][..sensor - 1]
      invariant time == if sensor > 2 && 2 in group then Some(group[2].time)
                        else if sensor > 1 && 1 in group then Some(group[1].time) else None
      invariant temperatures == (if sensor > 1 && 1 in group && group[1].temperature.Some? then [group[1].temperature.value as int] else [])
                              + (if sensor > 2 && 2 in group && group[2].temperature.Some? then [group[2].temperature.value as int] else [])
    {
      if sensor !in group {
        readings := readings + [SensorReading(sensor, None, NotRetrieved)];
      } else {
        var record := group[sensor];
        time := Some(record.time);
        readings := readings + [SensorReading(sensor, record.temperature, Retrieved(record.status))];
        if record.temperature.Some? {
          temperatures := temperatures + [record.temperature.value as int];
        }
      }
    }
    var total := if |temperatures| == Device.SENSOR_COUNT then Some(temperatures[0] + temperatures[1]) else None;
    sample := SampleRecord(if time.Some? then time.value else now, Some((bootId, q)), readings, total, History);
  }

  // --- Nothing is lost, and the order is the device's ----------------------------------------

  predicate Covers(records: seq<TimedRecord>, q: u32) {
    exists r :: r in records && r.sequence == q
  }

  /** At most one record per sensor and sequence number: the records come out of a dictionary. */
  predicate OnePerKey(records: seq<TimedRecord>) {
    && (forall r :: r in records ==> 1 <= r.sensor <= Device.SENSOR_COUNT)
    && (forall a, b :: a in records && b in records && a.sensor == b.sensor && a.sequence == b.sequence ==> a == b)
  }

  predicate Dated(records: seq<TimedRecord>, anchor: u32, anchorTime: int, period: int) {
    forall r :: r in records ==> r.time == Timestamp(anchor, anchorTime, r.sequence, period)
  }

  lemma {:induction false} SequencesAre(records: seq<TimedRecord>)
    ensures forall q :: q in Sequences(records) <==> Covers(records, q)
    ensures forall i, j :: 0 <= i < j < |Sequences(records)| ==> Sequences(records)[i] != Sequences(records)[j]
  {
    if records != [] {
      var front, last := records[..|records| - 1], records[|records| - 1];
      SequencesAre(front);
      assert records == front + [last];
      assert forall q :: Covers(records, q) <==> Covers(front, q) || q == last.sequence;
    }
  }

  /** A group holds a sensor's record exactly when there is one. */
  lemma {:induction false} GroupsAre(records: seq<TimedRecord>, q: u32, sensor: nat)
    requires OnePerKey(records)
    ensures sensor in GroupAt(Groups(records), q)
        ==> var r := GroupAt(Groups(records), q)[sensor]; r in records && r.sequence == q && r.sensor == sensor
    ensures forall r :: r in records && r.sequence == q && r.sensor == sensor ==> sensor in GroupAt(Groups(records), q)
  {
    if records != [] {
      var front, last := records[..|records| - 1], records[|records| - 1];
      assert records == front + [last];
      GroupsAre(front, q, sensor);
    }
  }

  predicate Ordered(samples: seq<SampleRecord>) {
    forall i, j :: 0 <= i < j < |samples| ==> samples[i].time <= samples[j].time
  }

  lemma InsertedBefore(samples: seq<SampleRecord>, others: seq<SampleRecord>, last: SampleRecord)
    requires multiset(samples) == multiset(others) && Ordered(samples)
    requires forall i :: 0 <= i < |others| ==> others[i].time <= last.time
    ensures Ordered(samples + [last])
  {
    forall i | 0 <= i < |samples|
      ensures samples[i].time <= last.time
    {
      assert samples[i] in multiset(others);
    }
  }

  lemma {:induction false} InsertKeeps(samples: seq<SampleRecord>, x: SampleRecord)
    ensures multiset(InsertByTime(samples, x)) == multiset(samples + [x])
  {
    if samples != [] && samples[|samples| - 1].time > x.time {
      var front, last := samples[..|samples| - 1], samples[|samples| - 1];
      assert samples == front + [last];
      InsertKeeps(front, x);
      assert multiset(front + [x] + [last]) == multiset(samples + [x]);
    }
  }

  lemma {:induction false} InsertOrders(samples: seq<SampleRecord>, x: SampleRecord)
    requires Ordered(samples)
    ensures Ordered(InsertByTime(samples, x))
  {
    if samples != [] && samples[|samples| - 1].time > x.time {
      var front, last := samples[..|samples| - 1], samples[|samples| - 1];
      assert samples == front + [last];
      InsertOrders(front, x);
      InsertKeeps(front, x);
      InsertedBefore(InsertByTime(front, x), front + [x], last);
    }
  }

  lemma {:induction false} SortKeeps(samples: seq<SampleRecord>)
    ensures multiset(SortByTime(samples)) == multiset(samples)
    ensures Ordered(SortByTime(samples))
  {
    if samples != [] {
      var front, last := samples[..|samples| - 1], samples[|samples| - 1];
      assert samples == front + [last];
      SortKeeps(front);
      InsertKeeps(SortByTime(front), last);
      InsertOrders(SortByTime(front), last);
      assert multiset(SortByTime(front) + [last]) == multiset(front + [last]);
    }
  }

  function RetrievedReading(r: TimedRecord): SensorReading {
    SensorReading(r.sensor, r.temperature, Retrieved(r.status))
  }

  /** Sensor `x`'s reading for sequence `q`: its record's if there is one, otherwise marked as absent. */
  ghost predicate Shows(reading: SensorReading, records: seq<TimedRecord>, q: u32, x: nat) {
    && (forall r :: r in records && r.sequence == q && r.sensor == x ==> reading == RetrievedReading(r))
    && (reading.status.Retrieved? ==> exists r :: r in records && r.sequence == q && reading == RetrievedReading(r))
    && (!reading.status.Retrieved? ==> reading == SensorReading(x, None, NotRetrieved))
  }

  ghost predicate Tells(sample: SampleRecord, records: seq<TimedRecord>, bootId: u32) {
    && sample.key.Some? && sample.key.value.0 == bootId && sample.source == History
    && |sample.readings| == Device.SENSOR_COUNT
    && sample.readings[0].sensor == 1 && Shows(sample.readings[0], records, sample.key.value.1, 1)
    && sample.readings[1].sensor == 2 && Shows(sample.readings[1], records, sample.key.value.1, 2)
    && (sample.total.Some? <==> sample.readings[0].temperature.Some? && sample.readings[1].temperature.Some?)
    && (sample.total.Some? ==> sample.total.value == sample.readings[0].temperature.value + sample.readings[1].temperature.value)
  }

  /** The sample belongs to a record's sequence number and carries its date; of two records, the second sensor's. */
  ghost predicate Sourced(sample: SampleRecord, records: seq<TimedRecord>, bootId: u32) {
    exists r :: r in records && sample.key == Some((bootId, r.sequence)) && sample.time == r.time
                && forall other :: other in records && other.sequence == r.sequence ==> other.sensor <= r.sensor
  }

  ghost predicate Placed(r: TimedRecord, samples: seq<SampleRecord>, bootId: u32) {
    exists s :: s in samples && s.key == Some((bootId, r.sequence))
  }

  lemma SampleTells(records: seq<TimedRecord>, bootId: u32, now: int, q: u32)
    requires OnePerKey(records) && Covers(records, q)
    ensures var sample := SampleOf(GroupAt(Groups(records), q), bootId, now, q);
            Tells(sample, records, bootId) && Sourced(sample, records, bootId)
  {
    GroupsAre(records, q, 1);
    GroupsAre(records, q, 2);
  }

  /** Every sample comes from a record and is dated like it; every record is in some sample. */
  ghost predicate Lossless(samples: seq<SampleRecord>, records: seq<TimedRecord>, bootId: u32) {
    && (forall s {:trigger Tells(s, records, bootId)} :: s in samples ==> Tells(s, records, bootId))
    && (forall s {:trigger Sourced(s, records, bootId)} :: s in samples ==> Sourced(s, records, bootId))
    && (forall r {:trigger Placed(r, samples, bootId)} :: r in records ==> Placed(r, samples, bootId))
    && (forall i, j :: 0 <= i < j < |samples| ==> samples[i].key != samples[j].key)
  }

  lemma SamplesLossless(records: seq<TimedRecord>, bootId: u32, now: int)
    requires OnePerKey(records)
    ensures Lossless(Samples(records, Sequences(records), bootId, now), records, bootId)
  {
    var qs := Sequences(records);
    var samples := Samples(records, qs, bootId, now);
    SequencesAre(records);
    forall i | 0 <= i < |qs|
      ensures samples[i].key == Some((bootId, qs[i]))
      ensures Tells(samples[i], records, bootId) && Sourced(samples[i], records, bootId)
    {
      SampleTells(records, bootId, now, qs[i]);
    }
    forall r | r in records
      ensures Placed(r, samples, bootId)
    {
      assert Covers(records, r.sequence);
      var i :| 0 <= i < |qs| && qs[i] == r.sequence;
      assert samples[i] in samples;
    }
  }

  lemma TwiceCounted(samples: seq<SampleRecord>, i: nat, j: nat)
    requires i < j < |samples| && samples[i] == samples[j]
    ensures multiset(samples)[samples[i]] >= 2
  {
    assert samples == samples[..j] + samples[j..];
    assert samples[i] in samples[..j] && samples[j] in samples[j..];
  }

  lemma {:induction false} DistinctCounted(samples: seq<SampleRecord>, s: SampleRecord)
    requires forall i, j :: 0 <= i < j < |samples| ==> samples[i].key != samples[j].key
    ensures multiset(samples)[s] <= 1
  {
    if samples != [] {
      var front, last := samples[..|samples| - 1], samples[|samples| - 1];
      assert samples == front + [last];
      DistinctCounted(front, s);
    }
  }

  /** Reordering keeps the samples. */
  lemma ReorderedLossless(samples: seq<SampleRecord>, sorted: seq<SampleRecord>, records: seq<TimedRecord>, bootId: u32)
    requires Lossless(samples, records, bootId) && multiset(sorted) == multiset(samples)
    ensures Lossless(sorted, records, bootId)
  {
    forall s | s in sorted
      ensures s in samples && Tells(s, records, bootId) && Sourced(s, records, bootId)
    {
      assert s in multiset(sorted);
    }
    forall r | r in records
      ensures Placed(r, sorted, bootId)
    {
      assert Placed(r, samples, bootId);
      var s :| s in samples && s.key == Some((bootId, r.sequence));
      assert s in multiset(samples);
    }
    forall i, j | 0 <= i < j < |sorted|
      ensures sorted[i].key != sorted[j].key
    {
      if sorted[i].key == sorted[j].key {
        assert sorted[i] in samples && sorted[j] in samples;
        var a :| 0 <= a < |samples| && samples[a] == sorted[i];
        var b :| 0 <= b < |samples| && samples[b] == sorted[j];
        assert a == b;
        TwiceCounted(sorted, i, j);
        DistinctCounted(samples, sorted[i]);
      }
    }
  }

  /**
   * Grouping loses nothing and invents nothing: the samples' keys are the records' sequence numbers,
   * each once, and a sample's readings are exactly the records of its sequence number.
   */
  lemma GroupingIsLossless(records: seq<TimedRecord>, bootId: u32, now: int)
    requires OnePerKey(records)
    ensures Lossless(Batch(records, bootId, now), records, bootId)
  {
    var samples := Samples(records, Sequences(records), bootId, now);
    SamplesLossless(records, bootId, now);
    SortKeeps(samples);
    ReorderedLossless(samples, SortByTime(samples), records, bootId);
  }

  /**
   * Sorting by time is sorting by sequence number around the anchor: any two samples are as many
   * periods apart as their sequence numbers, across the wrap too. So samples that follow each
   * other directly are one period apart, and none share a time.
   */
  lemma BatchFollowsDevice(records: seq<TimedRecord>, bootId: u32, now: int, anchor: u32, anchorTime: int, period: int,
                           i: nat, j: nat)
    requires OnePerKey(records) && Dated(records, anchor, anchorTime, period) && period > 0
    requires i < j < |Batch(records, bootId, now)|
    ensures var a, b := Batch(records, bootId, now)[i], Batch(records, bootId, now)[j];
            a.key.Some? && b.key.Some?
            && b.time == a.time + Wrap32(b.key.value.1 - a.key.value.1) * period && b.time > a.time
  {
    var samples := Batch(records, bootId, now);
    GroupingIsLossless(records, bootId, now);
    SortKeeps(Samples(records, Sequences(records), bootId, now));
    assert Tells(samples[i], records, bootId) && Sourced(samples[i], records, bootId);
    assert Tells(samples[j], records, bootId) && Sourced(samples[j], records, bootId);
    DatesApart(anchor, anchorTime, samples[i].key.value.1, samples[j].key.value.1, period);
  }

  lemma DatesApart(anchor: u32, anchorTime: int, p: u32, q: u32, period: int)
    requires period > 0 && p != q
    requires Timestamp(anchor, anchorTime, p, period) <= Timestamp(anchor, anchorTime, q, period)
    ensures Timestamp(anchor, anchorTime, q, period)
         == Timestamp(anchor, anchorTime, p, period) + Wrap32(q - p) * period
    ensures Timestamp(anchor, anchorTime, p, period) < Timestamp(anchor, anchorTime, q, period)
  {
    var a, b := Displacement(anchor, p), Displacement(anchor, q);
    DatedByDisplacement(anchor, anchorTime, p, period);
    DatedByDisplacement(anchor, anchorTime, q, period);
    DisplacementApart(anchor, p, q);
    Scaled(a, b, period);
    Scaled(b, a, period);
  }
}
