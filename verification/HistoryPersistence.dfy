/** The database queue and the sample table together: what becomes of placeholders (persistence_worker.py, mysql_adapter.py). */
module HistoryPersistence {
  import opened Words
  import opened Futures
  import opened HistoryBatches
  import opened SampleTables
  import opened TableGuarantees
  import HistoryBuffers
  import Queue = PersistenceQueue

  /** A built batch: every sample can be stored under its own natural key. */
  type Batch = samples: seq<SampleRecord> | Storable(samples) witness []

  ghost predicate Storable(samples: seq<SampleRecord>) {
    forall s :: s in samples ==> s.key.Some? && Params(s).Some? && Recovered(Params(s).value) && Params(s).value.key == s.key
  }

  lemma BuiltIsStorable(records: seq<TimedRecord>, bootId: u32, now: int)
    requires OnePerKey(records)
    ensures Storable(HistoryBatches.Batch(records, bootId, now))
  {
    GroupingIsLossless(records, bootId, now);
    forall s | s in HistoryBatches.Batch(records, bootId, now)
      ensures Params(s).Some? && Recovered(Params(s).value) && Params(s).value.key == s.key
    {
      assert Tells(s, records, bootId);
      SampleStores(s, records, bootId);
    }
  }

  // --- One batch: an upsert that may stop short, then the reconciliation ------------------------

  /** The table after an upsert that committed the first `stored` samples. */
  function Committed(db: Database, batch: seq<SampleRecord>, stored: nat): Database
    requires stored <= |batch| && forall s :: s in batch ==> Params(s).Some?
  {
    Apply(db, Upserted(EntriesOf(batch[..stored])))
  }

  /** Statements commit slice by slice; a call that returns has stored everything. */
  predicate Possible(outcome: Queue.Outcome, batch: seq<SampleRecord>, stored: nat) {
    && stored <= |batch| && (stored == |batch| || stored % SLICE == 0)
    && (outcome == Queue.Returned(true) ==> stored == |batch|)
  }

  /** The row's slot has a sample in the table: one near it, in a row that is dated near that sample. */
  predicate Replaced(row: Row, batch: seq<SampleRecord>, t: Table, tolerance: nat) {
    exists s :: s in batch && s.key.Some? && Near(row.observedAt, s.time, tolerance)
                && Keyed(s.key.value) in t && Near(t[Keyed(s.key.value)].observedAt, s.time, tolerance)
  }

  /** Reconciling with the batch deletes only placeholders whose slots have a sample in the table. */
  ghost predicate NoSlotLost(db: Database, batch: seq<SampleRecord>, tolerance: nat) {
    forall id :: id in db.rows && id !in Reconciled(db.rows, batch, tolerance) ==> Replaced(db.rows[id], batch, db.rows, tolerance)
  }

  /** The samples lie at least one period apart, under distinct keys. */
  ghost predicate Spaced(batch: seq<SampleRecord>, period: int) {
    forall i, j :: 0 <= i < j < |batch| ==> batch[i].time + period <= batch[j].time && batch[i].key != batch[j].key
  }

  lemma BuiltIsSpaced(records: seq<TimedRecord>, bootId: u32, now: int, anchor: u32, anchorTime: int, period: int)
    requires OnePerKey(records) && Dated(records, anchor, anchorTime, period) && period > 0
    ensures Spaced(HistoryBatches.Batch(records, bootId, now), period)
  {
    var batch := HistoryBatches.Batch(records, bootId, now);
    GroupingIsLossless(records, bootId, now);
    forall i, j | 0 <= i < j < |batch|
      ensures batch[i].time + period <= batch[j].time
    {
      BatchFollowsDevice(records, bootId, now, anchor, anchorTime, period, i, j);
      AtLeastOne(Wrap32(batch[j].key.value.1 - batch[i].key.value.1), period);
    }
  }

  lemma AtLeastOne(n: nat, period: int)
    requires period > 0 && n * period > 0
    ensures n * period >= period
  {
    if n >= 1 {
      assert (n - 1) * period >= 0;
    }
  }

  /** What is in the table, or among the entries, is in it afterwards; nothing else is. */
  lemma {:induction false} KeysAfter(t: Table, next: nat, entries: seq<Entry>, key: Key)
    ensures Keyed(key) in UpsertAll(t, next, entries) <==> Keyed(key) in t || Mentions(entries, key)
  {
    if entries != [] {
      var front, last := entries[..|entries| - 1], entries[|entries| - 1];
      assert entries == front + [last];
      KeysAfter(t, next, front, key);
      assert Mentions(entries, key) <==> Mentions(front, key) || last.key == Some(key);
    }
  }

  /** A row keeps the date it was inserted with, whatever is merged into it. */
  lemma {:induction false} DateAfter(t: Table, next: nat, entries: seq<Entry>, key: Key, date: int)
    requires forall e :: e in entries && e.key == Some(key) ==> e.row.observedAt == date
    ensures Keyed(key) in t ==>
              Keyed(key) in UpsertAll(t, next, entries)
              && UpsertAll(t, next, entries)[Keyed(key)].observedAt == t[Keyed(key)].observedAt
    ensures Keyed(key) !in t && Keyed(key) in UpsertAll(t, next, entries) ==>
              UpsertAll(t, next, entries)[Keyed(key)].observedAt == date
  {
    if entries != [] {
      assert entries[|entries| - 1] in entries;
      DateAfter(t, next, entries[..|entries| - 1], key, date);
    }
  }

  /** Where a sample of the batch is after storing a prefix, and under which date. */
  lemma CommittedRow(db: Database, batch: Batch, stored: nat, i: nat)
    requires stored <= |batch| && i < |batch| && forall j :: 0 <= j < |batch| && j != i ==> batch[j].key != batch[i].key
    ensures var id, rows := Keyed(batch[i].key.value), Committed(db, batch, stored).rows;
            && (id in rows <==> id in db.rows || i < stored)
            && (id in rows ==> rows[id].observedAt == if id in db.rows then db.rows[id].observedAt else ToSecond(batch[i].time))
  {
    var entries, key := EntriesOf(batch[..stored]), batch[i].key.value;
    forall e | e in entries && e.key == Some(key)
      ensures e.row.observedAt == ToSecond(batch[i].time)
    {
      var j :| 0 <= j < stored && entries[j] == e;
      assert batch[j] in batch;
    }
    MentionedIffStored(batch, stored, i);
    KeysAfter(db.rows, db.next, entries, key);
    DateAfter(db.rows, db.next, entries, key, ToSecond(batch[i].time));
  }

  lemma MentionedIffStored(batch: Batch, stored: nat, i: nat)
    requires stored <= |batch| && i < |batch| && forall j :: 0 <= j < |batch| && j != i ==> batch[j].key != batch[i].key
    ensures batch[i] in batch && (Mentions(EntriesOf(batch[..stored]), batch[i].key.value) <==> i < stored)
  {
    var entries := EntriesOf(batch[..stored]);
    if i < stored {
      assert batch[i] in batch && entries[i] in entries;
    }
    forall e | e in entries && e.key == batch[i].key
      ensures i < stored
    {
      var j :| 0 <= j < stored && entries[j] == e;
      assert batch[j] in batch;
    }
  }

  /** A keyed row after storing was there before, under the same date, or is a stored sample's. */
  lemma CommittedOrigin(db: Database, batch: Batch, stored: nat, key: Key)
    requires stored <= |batch| && DistinctKeys(batch) && Keyed(key) in Committed(db, batch, stored).rows
    ensures var row := Committed(db, batch, stored).rows[Keyed(key)];
            if Keyed(key) in db.rows then row.observedAt == db.rows[Keyed(key)].observedAt
            else exists i :: 0 <= i < stored && batch[i].key == Some(key) && row.observedAt == ToSecond(batch[i].time)
  {
    var entries := EntriesOf(batch[..stored]);
    KeysAfter(db.rows, db.next, entries, key);
    if Mentions(entries, key) {
      var e :| e in entries && e.key == Some(key);
      var i :| 0 <= i < stored && entries[i] == e;
      assert batch[i] in batch;
      CommittedRow(db, batch, stored, i);
    } else {
      DateAfter(db.rows, db.next, entries, key, 0);
    }
  }

  ghost predicate DistinctKeys(batch: seq<SampleRecord>) {
    forall i, j :: 0 <= i < |batch| && 0 <= j < |batch| && i != j ==> batch[i].key != batch[j].key
  }

  /** Storing leaves placeholders alone, and keyed rows are none. */
  lemma CommittedPlaceholders(db: Database, batch: Batch, stored: nat)
    requires stored <= |batch| && Intact(db)
    ensures Intact(Committed(db, batch, stored))
    ensures forall n :: Numbered(n) in Committed(db, batch, stored).rows <==> Numbered(n) in db.rows
    ensures forall n :: Numbered(n) in db.rows ==> Committed(db, batch, stored).rows[Numbered(n)] == db.rows[Numbered(n)]
  {
    var entries := EntriesOf(batch[..stored]);
    forall e | e in entries
      ensures Recovered(e)
    {
      var i :| 0 <= i < stored && entries[i] == e;
      assert batch[i] in batch;
    }
    UpsertAllEvolves(db, entries);
    forall n: nat
      ensures Numbered(n) in Committed(db, batch, stored).rows <==> Numbered(n) in db.rows
      ensures Numbered(n) in db.rows ==> Committed(db, batch, stored).rows[Numbered(n)] == db.rows[Numbered(n)]
    {
      PlaceholdersStay(db.rows, db.next, entries, n);
    }
  }

  // --- When slots keep a row ---------------------------------------------------------------------------

  /** Each sample whose key is in the table already has its row dated near it. */
  predicate Aligned(db: Database, batch: seq<SampleRecord>, tolerance: nat) {
    forall i :: 0 <= i < |batch| && batch[i].key.Some? && Keyed(batch[i].key.value) in db.rows
      ==> Near(db.rows[Keyed(batch[i].key.value)].observedAt, batch[i].time, tolerance)
  }

  /** The sample has an aligned row, or is new and among those stored. */
  predicate CoveredSample(db: Database, batch: Batch, stored: nat, tolerance: nat, i: nat)
    requires i < |batch| && batch[i].key.Some?
  {
    var id := Keyed(batch[i].key.value);
    if id in db.rows then Near(db.rows[id].observedAt, batch[i].time, tolerance) else i < stored
  }

  ghost predicate Covered(db: Database, batch: Batch, stored: nat, tolerance: nat) {
    forall i :: 0 <= i < |batch| ==> CoveredSample(db, batch, stored, tolerance, i)
  }

  lemma CoveredIff(db: Database, batch: Batch, stored: nat, tolerance: nat)
    requires stored <= |batch|
    ensures Covered(db, batch, stored, tolerance)
       <==> Aligned(db, batch, tolerance) && forall i :: 0 <= i < |batch| && Keyed(batch[i].key.value) !in db.rows ==> i < stored
  {
    forall i | 0 <= i < |batch|
      ensures Keyed(batch[i].key.value) in db.rows ==>
                (CoveredSample(db, batch, stored, tolerance, i)
                 <==> Near(db.rows[Keyed(batch[i].key.value)].observedAt, batch[i].time, tolerance))
      ensures Keyed(batch[i].key.value) !in db.rows ==> (CoveredSample(db, batch, stored, tolerance, i) <==> i < stored)
    {
      assert batch[i] in batch;
    }
  }

  /** The databases differ in placeholders only. */
  ghost predicate SameKeyed(db: Database, other: Database) {
    && (forall key :: Keyed(key) in db.rows <==> Keyed(key) in other.rows)
    && (forall key :: Keyed(key) in db.rows ==> other.rows[Keyed(key)] == db.rows[Keyed(key)])
  }

  lemma RoundedNear(time: int, tolerance: nat)
    requires 500_000 <= tolerance
    ensures Near(ToSecond(time), time, tolerance) && ToSecond(time) % 1_000_000 == 0
    ensures time - 500_000 < ToSecond(time) <= time + 500_000
  {
  }

  lemma CoveredKeeps(db: Database, batch: Batch, stored: nat, period: int, tolerance: nat)
    requires stored <= |batch| && Spaced(batch, period) && 500_000 <= tolerance && Covered(db, batch, stored, tolerance)
    ensures NoSlotLost(Committed(db, batch, stored), batch, tolerance)
  {
    var after := Committed(db, batch, stored);
    forall id | id in after.rows && id !in Reconciled(after.rows, batch, tolerance)
      ensures Replaced(after.rows[id], batch, after.rows, tolerance)
    {
      var s :| s in batch && Near(after.rows[id].observedAt, s.time, tolerance);
      var i :| 0 <= i < |batch| && batch[i] == s;
      assert CoveredSample(db, batch, stored, tolerance, i);
      CommittedRow(db, batch, stored, i);
      RoundedNear(s.time, tolerance);
    }
  }

  /** The placeholder of a slot at `time`, as the poller publishes it. */
  function Placeholder(time: int): Row {
    Row(time, Side(None, Missing), Side(None, Missing), None, false, Provisional)
  }

  /** The keyed rows of a database and one placeholder. */
  ghost function WithPlaceholder(db: Database, time: int): Database {
    Database((map id | id in db.rows && id.Keyed? :: db.rows[id])[Numbered(0) := Placeholder(time)], 1)
  }

  lemma PlaceholderIntact(db: Database, time: int)
    requires Intact(db)
    ensures Intact(WithPlaceholder(db, time)) && SameKeyed(db, WithPlaceholder(db, time))
  {
    assert forall i :: 1 <= i <= 2 ==> Placeholder(time).At(i).status != NotRetrieved;
  }

  /** A placeholder near uncovered samples only goes, with nothing in its place. */
  lemma UncoveredLoses(db: Database, batch: Batch, stored: nat, period: int, tolerance: nat, i: nat, time: int)
    requires stored <= |batch| && Spaced(batch, period) && period > 0 && Intact(db)
    requires i < |batch| && Near(time, batch[i].time, tolerance)
    requires forall j :: 0 <= j < |batch| && Near(time, batch[j].time, tolerance) ==> !CoveredSample(db, batch, stored, tolerance, j)
    ensures !NoSlotLost(Committed(WithPlaceholder(db, time), batch, stored), batch, tolerance)
  {
    var other := WithPlaceholder(db, time);
    var after := Committed(other, batch, stored);
    PlaceholderIntact(db, time);
    CommittedPlaceholders(other, batch, stored);
    assert after.rows[Numbered(0)] == Placeholder(time);
    assert batch[i] in batch && Superseded(after.rows[Numbered(0)], batch, tolerance);
    forall s | s in batch && s.key.Some? && Near(time, s.time, tolerance) && Keyed(s.key.value) in after.rows
      ensures !Near(after.rows[Keyed(s.key.value)].observedAt, s.time, tolerance)
    {
      var j :| 0 <= j < |batch| && batch[j] == s;
      CommittedRow(other, batch, stored, j);
    }
  }

  /**
   * Reconciling after an upsert that stored a prefix: no slot loses its last row, whatever placeholders
   * there are beside the table's keyed rows, exactly when every sample has an aligned row or is new and
   * was stored.
   */
  lemma SlotsKeptIffCovered(db: Database, batch: Batch, stored: nat, period: int, tolerance: nat)
    requires stored <= |batch| && Spaced(batch, period) && 500_000 <= tolerance < period && Intact(db)
    ensures (forall other :: Intact(other) && SameKeyed(db, other) ==> NoSlotLost(Committed(other, batch, stored), batch, tolerance))
       <==> Covered(db, batch, stored, tolerance)
  {
    if Covered(db, batch, stored, tolerance) {
      forall other | Intact(other) && SameKeyed(db, other)
        ensures NoSlotLost(Committed(other, batch, stored), batch, tolerance)
      {
        CoveredIff(db, batch, stored, tolerance);
        CoveredIff(other, batch, stored, tolerance);
        CoveredKeeps(other, batch, stored, period, tolerance);
      }
    } else {
      var i :| 0 <= i < |batch| && !CoveredSample(db, batch, stored, tolerance, i);
      PlaceholderIntact(db, batch[i].time);
      UncoveredLoses(db, batch, stored, period, tolerance, i, batch[i].time);
    }
  }

  /** On aligned tables that is a matter of storing the whole batch. */
  lemma SlotsKeptIffAllStored(batch: Batch, stored: nat, period: int, tolerance: nat)
    requires stored <= |batch| && Spaced(batch, period) && 500_000 <= tolerance < period
    ensures (forall db :: Intact(db) && Aligned(db, batch, tolerance) ==> NoSlotLost(Committed(db, batch, stored), batch, tolerance))
       <==> stored == |batch|
  {
    if stored == |batch| {
      forall db | Intact(db) && Aligned(db, batch, tolerance)
        ensures NoSlotLost(Committed(db, batch, stored), batch, tolerance)
      {
        CoveredIff(db, batch, stored, tolerance);
        CoveredKeeps(db, batch, stored, period, tolerance);
      }
    } else {
      var empty, time := Database(map[], 0), batch[stored].time;
      PlaceholderIntact(empty, time);
      UncoveredLoses(empty, batch, stored, period, tolerance, stored, time);
    }
  }

  predicate KeysIn(batch: seq<SampleRecord>, t: Table) {
    forall s :: s in batch ==> s.key.Some? && Keyed(s.key.value) in t
  }

  /** No slot loses its last row to the upsert and the reconciliation, knowing only how the upsert ended. */
  ghost predicate Safe(outcome: Queue.Outcome, db: Database, batch: Batch, tolerance: nat) {
    forall stored, other {:trigger Committed(other, batch, stored)} ::
      Possible(outcome, batch, stored) && Intact(other) && SameKeyed(db, other)
      ==> NoSlotLost(Committed(other, batch, stored), batch, tolerance)
  }

  /**
   * What the caller can tell beforehand: for every number of slices committed and whatever placeholders
   * there are, the reconciliation is safe exactly when the table's rows are aligned with the batch and
   * the upsert returned its success, or there was nothing new to store.
   */
  lemma SafeIffReturnedAndAligned(outcome: Queue.Outcome, db: Database, batch: Batch, period: int, tolerance: nat)
    requires Spaced(batch, period) && 500_000 <= tolerance < period && Intact(db)
    ensures Safe(outcome, db, batch, tolerance)
       <==> Aligned(db, batch, tolerance) && (outcome == Queue.Returned(true) || KeysIn(batch, db.rows))
  {
    if Aligned(db, batch, tolerance) && (outcome == Queue.Returned(true) || KeysIn(batch, db.rows)) {
      AlignedIsSafe(outcome, db, batch, period, tolerance);
    } else if !Aligned(db, batch, tolerance) {
      SlotsKeptIffCovered(db, batch, |batch|, period, tolerance);
      CoveredIff(db, batch, |batch|, tolerance);
      assert Possible(outcome, batch, |batch|);
    } else {
      SlotsKeptIffCovered(db, batch, 0, period, tolerance);
      CoveredIff(db, batch, 0, tolerance);
      assert Possible(outcome, batch, 0);
    }
  }

  lemma AlignedIsSafe(outcome: Queue.Outcome, db: Database, batch: Batch, period: int, tolerance: nat)
    requires Spaced(batch, period) && 500_000 <= tolerance < period && Aligned(db, batch, tolerance)
    requires outcome == Queue.Returned(true) || KeysIn(batch, db.rows)
    ensures Safe(outcome, db, batch, tolerance)
  {
    forall stored, other | Possible(outcome, batch, stored) && Intact(other) && SameKeyed(db, other)
      ensures NoSlotLost(Committed(other, batch, stored), batch, tolerance)
    {
      CoveredIff(other, batch, stored, tolerance);
      CoveredKeeps(other, batch, stored, period, tolerance);
    }
  }

  /** A LIVE row for sample 5 of boot 7, received at second 10. */
  function LateRow(): Row {
    Row(10_000_000, Side(Some(2000), Retrieved(HistoryBuffers.Valid)), Side(None, Retrieved(HistoryBuffers.Disconnected)), None, false, Live)
  }

  /** The same sample as a batch dates it, at second 9. */
  function EarlySample(): SampleRecord {
    SampleRecord(9_000_000, Some((7, 5)),
                 [SensorReading(1, Some(2000), Retrieved(HistoryBuffers.Valid)), SensorReading(2, None, NotRetrieved)], None, History)
  }

  /** That row, and the placeholder of second 9. */
  function LateTable(next: nat): Database {
    Database(map[Numbered(0) := Placeholder(9_000_000), Keyed((7, 5)) := LateRow()], next)
  }

  /**
   * Success alone is not enough: the LIVE row at second 10 holds the key of the sample dated second 9. The
   * placeholder of second 9 is deleted although no row is left within half a second of it.
   */
  lemma MisalignedRowLosesSlot(next: nat)
    requires next > 0
    ensures Storable([EarlySample()]) && Intact(LateTable(next)) && !Aligned(LateTable(next), [EarlySample()], 500_000)
    ensures Possible(Queue.Returned(true), [EarlySample()], 1)
    ensures var after := Committed(LateTable(next), [EarlySample()], 1);
            && KeysIn([EarlySample()], after.rows) && Numbered(0) in after.rows && after.rows[Numbered(0)].observedAt == 9_000_000
            && (forall id :: id in Reconciled(after.rows, [EarlySample()], 500_000) ==> after.rows[id].observedAt == 10_000_000)
            && !NoSlotLost(after, [EarlySample()], 500_000)
  {
    OneSampleStorable(EarlySample());
    var batch: Batch := [EarlySample()];
    LateRowsAfter(next);
    assert EarlySample() in batch && Superseded(Placeholder(9_000_000), batch, 500_000);
    assert batch[0] == EarlySample();
  }

  lemma LateRowsAfter(next: nat)
    requires next > 0 && Storable([EarlySample()])
    ensures Intact(LateTable(next))
    ensures Committed(LateTable(next), [EarlySample()], 1).rows.Keys == {Numbered(0), Keyed((7, 5))}
    ensures var rows := Committed(LateTable(next), [EarlySample()], 1).rows;
            && rows[Numbered(0)] == Placeholder(9_000_000)
            && rows[Keyed((7, 5))].observedAt == 10_000_000 && rows[Keyed((7, 5))].source != Provisional
  {
    var batch: Batch, db := [EarlySample()], LateTable(next);
    assert Sound(LateRow()) && Sound(Placeholder(9_000_000));
    CommittedPlaceholders(db, batch, 1);
    var after := Committed(db, batch, 1);
    CommittedRow(db, batch, 1, 0);
    forall id | id in after.rows
      ensures id in {Numbered(0), Keyed((7, 5))}
    {
      match id
      case Numbered(n) =>
      case Keyed(key) => CommittedOrigin(db, batch, 1, key);
    }
  }

  lemma OneSampleStorable(sample: SampleRecord)
    requires |sample.readings| == 2 && sample.readings[0].sensor == 1 && sample.readings[1].sensor == 2
    requires sample.key.Some? && sample.source == History
    requires forall i :: 0 <= i < 2 && sample.readings[i].status == NotRetrieved ==> sample.readings[i].temperature.None?
    requires sample.total == TotalOf(sample.readings[0].temperature, sample.readings[1].temperature)
    ensures Storable([sample])
  {
    assert sample.readings[..1] == [sample.readings[0]];
    assert LastReading(sample.readings, 2) == Some(sample.readings[1]);
    assert LastReading([sample.readings[0]], 1) == Some(sample.readings[0]);
    var row := Params(sample).value.row;
    assert row.At(1) == SideOf(sample.readings[0]) && row.At(2) == SideOf(sample.readings[1]);
  }

  // --- Second by second -----------------------------------------------------------------------------------

  /** The table's dates have no fraction, as the column's type demands. */
  ghost predicate WholeSeconds(db: Database) {
    forall id :: id in db.rows ==> db.rows[id].observedAt % 1_000_000 == 0
  }

  /** Every second that loses a placeholder still has a row. */
  ghost predicate NoSecondEmptied(db: Database, batch: seq<SampleRecord>, tolerance: nat) {
    var left := Reconciled(db.rows, batch, tolerance);
    forall id :: id in db.rows && id !in left ==> exists other :: other in left && left[other].observedAt == db.rows[id].observedAt
  }

  /** A keyed row is dated at this second, or a new sample is stored under it. */
  ghost predicate Filled(db: Database, batch: Batch, stored: nat, second: int)
    requires stored <= |batch|
  {
    || (exists key :: Keyed(key) in db.rows && db.rows[Keyed(key)].observedAt == second)
    || (exists i :: 0 <= i < stored && Keyed(batch[i].key.value) !in db.rows && ToSecond(batch[i].time) == second)
  }

  /** Every second near a sample is filled. */
  ghost predicate AllFilled(db: Database, batch: Batch, stored: nat, tolerance: nat)
    requires stored <= |batch|
  {
    forall second, s :: s in batch && second % 1_000_000 == 0 && Near(second, s.time, tolerance) ==> Filled(db, batch, stored, second)
  }

  lemma FilledHasRow(db: Database, batch: Batch, stored: nat, second: int)
    requires stored <= |batch| && DistinctKeys(batch)
    ensures Filled(db, batch, stored, second)
       <==> exists key :: Keyed(key) in Committed(db, batch, stored).rows && Committed(db, batch, stored).rows[Keyed(key)].observedAt == second
  {
    var after := Committed(db, batch, stored);
    forall key | Keyed(key) in db.rows
      ensures Keyed(key) in after.rows && after.rows[Keyed(key)].observedAt == db.rows[Keyed(key)].observedAt
    {
      KeysAfter(db.rows, db.next, EntriesOf(batch[..stored]), key);
      CommittedOrigin(db, batch, stored, key);
    }
    forall i | 0 <= i < stored
      ensures var id := Keyed(batch[i].key.value); id in after.rows && (id !in db.rows ==> after.rows[id].observedAt == ToSecond(batch[i].time))
    {
      CommittedRow(db, batch, stored, i);
    }
    forall key | Keyed(key) in after.rows && after.rows[Keyed(key)].observedAt == second
      ensures Filled(db, batch, stored, second)
    {
      CommittedOrigin(db, batch, stored, key);
    }
  }

  /**
   * Second by second, on the dates the table can hold: no second is emptied, whatever placeholders there
   * are, exactly when every second near a sample has a keyed row or gets one.
   */
  lemma SecondsKeptIffFilled(db: Database, batch: Batch, stored: nat, tolerance: nat)
    requires stored <= |batch| && DistinctKeys(batch) && Intact(db) && WholeSeconds(db)
    ensures (forall other :: Intact(other) && WholeSeconds(other) && SameKeyed(db, other)
               ==> NoSecondEmptied(Committed(other, batch, stored), batch, tolerance))
       <==> AllFilled(db, batch, stored, tolerance)
  {
    if AllFilled(db, batch, stored, tolerance) {
      forall other | Intact(other) && WholeSeconds(other) && SameKeyed(db, other)
        ensures NoSecondEmptied(Committed(other, batch, stored), batch, tolerance)
      {
        FilledKeeps(db, other, batch, stored, tolerance);
      }
    } else {
      var second, s :| s in batch && second % 1_000_000 == 0 && Near(second, s.time, tolerance) && !Filled(db, batch, stored, second);
      UnfilledEmpties(db, batch, stored, tolerance, second, s);
    }
  }

  lemma FilledKeeps(db: Database, other: Database, batch: Batch, stored: nat, tolerance: nat)
    requires stored <= |batch| && DistinctKeys(batch) && Intact(other) && WholeSeconds(other) && SameKeyed(db, other)
    requires AllFilled(db, batch, stored, tolerance)
    ensures NoSecondEmptied(Committed(other, batch, stored), batch, tolerance)
  {
    var after := Committed(other, batch, stored);
    var left := Reconciled(after.rows, batch, tolerance);
    CommittedPlaceholders(other, batch, stored);
    forall id | id in after.rows && id !in left
      ensures exists row :: row in left && left[row].observedAt == after.rows[id].observedAt
    {
      var second := after.rows[id].observedAt;
      var s :| s in batch && Near(second, s.time, tolerance);
      assert id.Numbered? && second % 1_000_000 == 0;
      assert Filled(db, batch, stored, second);
      FilledHasRow(other, batch, stored, second);
      SameFilled(db, other, batch, stored, second);
      var key :| Keyed(key) in after.rows && after.rows[Keyed(key)].observedAt == second;
      assert Keyed(key) in left;
    }
  }

  lemma SameFilled(db: Database, other: Database, batch: Batch, stored: nat, second: int)
    requires stored <= |batch| && SameKeyed(db, other)
    ensures Filled(db, batch, stored, second) <==> Filled(other, batch, stored, second)
  {
  }

  lemma UnfilledEmpties(db: Database, batch: Batch, stored: nat, tolerance: nat, second: int, s: SampleRecord)
    requires stored <= |batch| && DistinctKeys(batch) && Intact(db) && WholeSeconds(db)
    requires s in batch && second % 1_000_000 == 0 && Near(second, s.time, tolerance) && !Filled(db, batch, stored, second)
    ensures var other := WithPlaceholder(db, second);
            && Intact(other) && WholeSeconds(other) && SameKeyed(db, other)
            && !NoSecondEmptied(Committed(other, batch, stored), batch, tolerance)
  {
    var other := WithPlaceholder(db, second);
    var after := Committed(other, batch, stored);
    PlaceholderIntact(db, second);
    CommittedPlaceholders(other, batch, stored);
    SameFilled(db, other, batch, stored, second);
    FilledHasRow(other, batch, stored, second);
    assert after.rows[Numbered(0)] == Placeholder(second) && Superseded(after.rows[Numbered(0)], batch, tolerance);
  }

  /** With a tolerance of half a second, the seconds near a sample: the one it is stored under, and on the half second also the one before. */
  lemma SecondsNear(second: int, time: int)
    requires second % 1_000_000 == 0
    ensures Near(second, time, 500_000) <==> second == ToSecond(time) || (time % 1_000_000 == 500_000 && second == time - 500_000)
  {
  }

  /** When nothing lies on the half second and rows present are dated as the batch would date them, storing the batch fills every second. */
  lemma ExactRowsFill(db: Database, batch: Batch)
    requires forall i :: 0 <= i < |batch| ==> batch[i].time % 1_000_000 != 500_000
    requires forall i :: 0 <= i < |batch| && Keyed(batch[i].key.value) in db.rows
               ==> db.rows[Keyed(batch[i].key.value)].observedAt == ToSecond(batch[i].time)
    ensures AllFilled(db, batch, |batch|, 500_000)
  {
    forall second, s | s in batch && second % 1_000_000 == 0 && Near(second, s.time, 500_000)
      ensures Filled(db, batch, |batch|, second)
    {
      var i :| 0 <= i < |batch| && batch[i] == s;
      SecondsNear(second, s.time);
    }
  }
}
