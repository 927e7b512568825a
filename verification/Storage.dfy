/** From the firmware's ring to database rows: recovery, batching and storing composed. */
module Storage {
  import opened Words
  import opened HistoryBuffers
  import opened ApplicationAuth
  import opened ProtocolServer
  import opened ProtocolClient
  import opened RoundTrip
  import opened HistorySync
  import opened Recovery
  import opened HistoryBatches
  import opened SampleTables
  import Guarantees = TableGuarantees
  import Device

  /** How the service dates sequence numbers: the current sample it trusts, and the sample period. */
  datatype Anchor = Anchor(sequence: u32, time: int, period: int)

  function Timed(value: HistoryValue, sensor: nat, anchor: Anchor): TimedRecord {
    TimedRecord(sensor, value.sequence, Timestamp(anchor.sequence, anchor.time, value.sequence, anchor.period),
                value.temperature, value.status)
  }

  /** The synchronizer's records, dated, in the order `keys` lists them. */
  function TimedAll(records: map<(nat, u32), HistoryValue>, keys: seq<(nat, u32)>, anchor: Anchor): (timed: seq<TimedRecord>)
    requires forall key :: key in keys ==> key in records
  {
    seq(|keys|, i requires 0 <= i < |keys| => Timed(records[keys[i]], keys[i].0, anchor))
  }

  /** Listing a dictionary's keys, in whatever order they were inserted. */
  ghost predicate Lists(keys: seq<(nat, u32)>, records: map<(nat, u32), HistoryValue>) {
    forall key :: key in keys <==> key in records
  }

  /** Records of the synchronizer carry the sequence number they are stored under. */
  predicate Filed(records: map<(nat, u32), HistoryValue>) {
    forall key :: key in records ==> 1 <= key.0 <= Device.SENSOR_COUNT && records[key].sequence == key.1
  }

  lemma TimedOnePerKey(records: map<(nat, u32), HistoryValue>, keys: seq<(nat, u32)>, anchor: Anchor)
    requires Lists(keys, records) && Filed(records)
    ensures var timed := TimedAll(records, keys, anchor);
            && OnePerKey(timed) && Dated(timed, anchor.sequence, anchor.time, anchor.period)
            && forall key :: key in records ==> Timed(records[key], key.0, anchor) in timed
  {
    var timed := TimedAll(records, keys, anchor);
    forall key | key in records
      ensures Timed(records[key], key.0, anchor) in timed
    {
      var i :| 0 <= i < |keys| && keys[i] == key;
      assert timed[i] == Timed(records[key], key.0, anchor);
    }
    forall r | r in timed
      ensures (r.sensor, r.sequence) in records && r == Timed(records[(r.sensor, r.sequence)], r.sensor, anchor)
    {
      var i :| 0 <= i < |timed| && timed[i] == r;
      assert keys[i] in records && keys[i] == (r.sensor, r.sequence);
    }
  }

  lemma RecoveredFiled(t: Sync, frozen: seq<seq<Record>>)
    requires Recovered(t, frozen)
    ensures Filed(t.records)
  {
    forall key | key in t.records
      ensures t.records[key].sequence == key.1
    {
      var window := frozen[key.0 - 1];
      assert Recovery.Holds(window, key.1);
      var j :| 0 <= j < |window| && window[j].sequence == key.1;
      assert t.records[(key.0, window[j].sequence)] == Meaning(window[j]);
    }
  }

  /** The row of a key: the device's reading, unless the row was already settled. */
  ghost predicate Kept(before: Table, after: Table, key: Key, x: nat, r: Record) {
    && Keyed(key) in after
    && after[Keyed(key)].At(x)
       == if Guarantees.Final(before, key, x) then before[Keyed(key)].At(x)
          else Side(Meaning(r).temperature, Retrieved(r.status))
  }

  lemma RecordKept(db: Guarantees.Database, records: map<(nat, u32), HistoryValue>, keys: seq<(nat, u32)>, anchor: Anchor,
                   bootId: u32, now: int, x: nat, r: Record)
    requires Guarantees.Intact(db) && Lists(keys, records) && Filed(records)
    requires (x, r.sequence) in records && records[(x, r.sequence)] == Meaning(r)
    ensures forall s :: s in Batch(TimedAll(records, keys, anchor), bootId, now) ==> Params(s).Some?
    ensures var batch := Batch(TimedAll(records, keys, anchor), bootId, now);
            Kept(db.rows, UpsertAll(db.rows, db.next, EntriesOf(batch)), (bootId, r.sequence), x, r)
  {
    var timed := TimedAll(records, keys, anchor);
    var mine := Timed(Meaning(r), x, anchor);
    TimedOnePerKey(records, keys, anchor);
    Guarantees.BatchStores(timed, bootId, now);
    BatchAgrees(timed, bootId, now);
    var entries := EntriesOf(Batch(timed, bootId, now));
    var e := EntryOf(timed, bootId, now, mine, x);
    Guarantees.UpsertAllSettles(db.rows, db.next, entries, (bootId, r.sequence));
    assert e in entries && Guarantees.HasReading(e, (bootId, r.sequence), x);
  }

  /** The entry a record ends up in. */
  lemma EntryOf(timed: seq<TimedRecord>, bootId: u32, now: int, mine: TimedRecord, x: nat) returns (e: Entry)
    requires OnePerKey(timed) && mine in timed && mine.sensor == x
    ensures forall s :: s in Batch(timed, bootId, now) ==> Params(s).Some?
    ensures e in EntriesOf(Batch(timed, bootId, now))
    ensures e.key == Some((bootId, mine.sequence)) && e.row.At(x) == Side(mine.temperature, Retrieved(mine.status))
  {
    var batch := Batch(timed, bootId, now);
    GroupingIsLossless(timed, bootId, now);
    Guarantees.BatchStores(timed, bootId, now);
    assert Placed(mine, batch, bootId);
    var i :| 0 <= i < |batch| && batch[i].key == Some((bootId, mine.sequence));
    assert Tells(batch[i], timed, bootId);
    Guarantees.SampleStores(batch[i], timed, bootId);
    assert HistoryBatches.Shows(batch[i].readings[x - 1], timed, mine.sequence, x);
    e := EntriesOf(batch)[i];
  }

  /** Within one batch every key occurs once, so its entries agree. */
  lemma BatchAgrees(timed: seq<TimedRecord>, bootId: u32, now: int)
    requires OnePerKey(timed)
    ensures forall s :: s in Batch(timed, bootId, now) ==> Params(s).Some?
    ensures Guarantees.Agreeing(EntriesOf(Batch(timed, bootId, now)))
  {
    var batch := Batch(timed, bootId, now);
    GroupingIsLossless(timed, bootId, now);
    Guarantees.BatchStores(timed, bootId, now);
    var entries := EntriesOf(batch);
    forall i | 0 <= i < |entries|
      ensures entries[i].key == batch[i].key
    {
      assert Tells(batch[i], timed, bootId);
      Guarantees.SampleStores(batch[i], timed, bootId);
    }
    DistinctAgree(entries);
  }

  lemma DistinctAgree(entries: seq<Entry>)
    requires forall i, j :: 0 <= i < j < |entries| ==> entries[i].key != entries[j].key
    ensures Guarantees.Agreeing(entries)
  {
    forall a, b | a in entries && b in entries && a.key == b.key
      ensures a == b
    {
      var i :| 0 <= i < |entries| && entries[i] == a;
      var j :| 0 <= j < |entries| && entries[j] == b;
      assert i == j;
    }
  }

  /** Storing the batch of a retrieval puts record `r` of sensor `x` into the row of its sequence number. */
  ghost predicate Arrives(db: Guarantees.Database, records: map<(nat, u32), HistoryValue>, keys: seq<(nat, u32)>, anchor: Anchor,
                          bootId: u32, now: int, x: nat, r: Record)
    requires Lists(keys, records)
  {
    var batch := Batch(TimedAll(records, keys, anchor), bootId, now);
    && (forall sample :: sample in batch ==> Params(sample).Some?)
    && Kept(db.rows, UpsertAll(db.rows, db.next, EntriesOf(batch)), (bootId, r.sequence), x, r)
  }

  lemma RecoveredArrives(t: Sync, frozen: seq<seq<Record>>, db: Guarantees.Database, keys: seq<(nat, u32)>, anchor: Anchor,
                         bootId: u32, now: int, x: nat, j: nat)
    requires Recovered(t, frozen) && Guarantees.Intact(db) && Lists(keys, t.records)
    requires 1 <= x <= Device.SENSOR_COUNT && j < |frozen[x - 1]|
    ensures Arrives(db, t.records, keys, anchor, bootId, now, x, frozen[x - 1][j])
  {
    RecoveredFiled(t, frozen);
    assert SensorRecovered(t.records, x, frozen[x - 1]);
    RecordKept(db, t.records, keys, anchor, bootId, now, x, frozen[x - 1][j]);
  }

  /**
   * From ring to table: whatever happens on the device between chunk requests, every record the
   * rings held when they were frozen ends up in the row of its boot and sequence number, as the
   * device recorded it, unless that side of the row was already settled by earlier data.
   */
  lemma RingReachesTable(c: Config, s: Server, env: Ambient, id: u16, e: Surroundings, first: nat,
                         keys: seq<(nat, u32)>, anchor: Anchor, now: int, db: Guarantees.Database, x: nat, j: nat)
    requires WellFormed(s) && s.auth.session.authenticated && Device.Recorded(s.device)
    requires Bearable(e.mishap, e.retries) && forall k :: e.clock(k) < e.deadline
    requires Guarantees.Intact(db) && 1 <= x <= Device.SENSOR_COUNT && j < |s.device.live[x - 1]|
    requires Lists(keys, Retrieval(c, s, env, id, e, first).records)
    ensures Arrives(db, Retrieval(c, s, env, id, e, first).records, keys, anchor, s.device.bootId, now, x, s.device.live[x - 1][j])
  {
    RecoveryIsExact(c, s, env, id, e, first);
    RecoveredArrives(Retrieval(c, s, env, id, e, first), s.device.live, db, keys, anchor, s.device.bootId, now, x, j);
  }
}
