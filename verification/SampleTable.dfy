/** The sample table and its writers (backend/pc_client/mysql_adapter.py, backend/database/schema.sql). */
module SampleTables {
  import opened Words
  import opened HistoryBatches

  datatype Side = Side(temperature: Option<i16>, status: ReadingStatus)

  datatype Row = Row(observedAt: int, first: Side, second: Side, average: Option<int>, averageValid: bool, source: Source) {
    function At(i: nat): Side {
      if i == 1 then first else second
    }
  }

  /** The natural key is unique; rows without one are told apart by their running number. */
  datatype Id = Keyed(key: Key) | Numbered(n: nat)

  type Table = map<Id, Row>

  datatype Entry = Entry(key: Option<Key>, row: Row)

  const SLICE: nat := 100

  // --- From a sample to a row -----------------------------------------------------------

  /** `ROUND(.., 2)` and storing into DECIMAL(5,2): half a centi-degree rounds away from zero. */
  function Rounded(total: int): int {
    if total >= 0 then (total + 1) / 2 else -((1 - total) / 2)
  }

  /** DATETIME has no fraction: times are rounded to a second. */
  function ToSecond(time: int): int {
    (time + 500_000) / 1_000_000 * 1_000_000
  }

  function LastReading(readings: seq<SensorReading>, sensor: nat): Option<SensorReading> {
    if readings == [] then None
    else if readings[|readings| - 1].sensor == sensor then Some(readings[|readings| - 1])
    else LastReading(readings[..|readings| - 1], sensor)
  }

  function SideOf(reading: SensorReading): Side {
    Side(reading.temperature, reading.status)
  }

  /** `_sample_params`; `None` where it raises for want of a sensor. */
  function Params(sample: SampleRecord): Option<Entry> {
    var first, second := LastReading(sample.readings, 1), LastReading(sample.readings, 2);
    if first.None? || second.None? then None
    else
      var average := if sample.total.Some? then Some(Rounded(sample.total.value)) else None;
      Some(Entry(sample.key, Row(ToSecond(sample.time), SideOf(first.value), SideOf(second.value),
                                 average, average.Some?, sample.source)))
  }

  // --- The statements, as functions on the table -------------------------------------------

  predicate Fillable(row: Row, side: Side, incoming: Side) {
    row.source == History && side.status == NotRetrieved && incoming.status != NotRetrieved
  }

  function AverageOf(first: Side, second: Side): Option<int> {
    if first.temperature.Some? && second.temperature.Some?
    then Some(Rounded(first.temperature.value + second.temperature.value)) else None
  }

  /** The middle of both temperatures where both are there: exact, or half a centi-degree further from zero. */
  predicate Averages(first: Side, second: Side, average: Option<int>) {
    && (average.Some? <==> first.temperature.Some? && second.temperature.Some?)
    && (average.Some? ==>
          var sum: int := first.temperature.value + second.temperature.value;
          && sum - 1 <= 2 * average.value <= sum + 1
          && (sum >= 0 ==> 2 * average.value >= sum) && (sum <= 0 ==> 2 * average.value <= sum))
  }

  /** `ON DUPLICATE KEY UPDATE`: only a HISTORY row takes a side it has not retrieved yet. */
  function Merge(row: Row, incoming: Row): Row {
    var first := if Fillable(row, row.first, incoming.first) then incoming.first else row.first;
    var second := if Fillable(row, row.second, incoming.second) then incoming.second else row.second;
    var average := if row.source == History then AverageOf(first, second) else None;
    row.(first := first, second := second,
         average := if average.Some? then average else row.average,
         averageValid := average.Some? || row.averageValid)
  }

  function Upsert(t: Table, next: nat, e: Entry): Table {
    if e.key.None? then t[Numbered(next) := e.row]
    else
      var id := Keyed(e.key.value);
      t[id := if id in t then Merge(t[id], e.row) else e.row]
  }

  /** One entry after another; a row without a key takes the next number. */
  function UpsertAll(t: Table, next: nat, entries: seq<Entry>): Table {
    if entries == [] then t
    else
      var front, last := entries[..|entries| - 1], entries[|entries| - 1];
      Upsert(UpsertAll(t, next, front), next + |front|, last)
  }

  /** Insert, unless the natural key is taken. */
  function Insert(t: Table, next: nat, e: Entry): Table {
    match e.key
    case None => t[Numbered(next) := e.row]
    case Some(key) => if Keyed(key) in t then t else t[Keyed(key) := e.row]
  }

  predicate Near(time: int, other: int, tolerance: nat) {
    time - other <= tolerance && other - time <= tolerance
  }

  predicate Close(time: int, samples: seq<SampleRecord>, tolerance: nat) {
    exists s :: s in samples && Near(time, s.time, tolerance)
  }

  predicate Superseded(row: Row, samples: seq<SampleRecord>, tolerance: nat) {
    row.source == Provisional && Close(row.observedAt, samples, tolerance)
  }

  function Reconciled(t: Table, samples: seq<SampleRecord>, tolerance: nat): Table {
    map id | id in t && !Superseded(t[id], samples, tolerance) :: t[id]
  }

  function EntriesOf(samples: seq<SampleRecord>): (entries: seq<Entry>)
    requires forall s :: s in samples ==> Params(s).Some?
    ensures |entries| == |samples|
  {
    seq(|samples|, i requires 0 <= i < |samples| => Params(samples[i]).value)
  }

  /** How many leading samples have a reading for both sensors. */
  function Usable(samples: seq<SampleRecord>): (n: nat)
    ensures n <= |samples| && forall i :: 0 <= i < n ==> Params(samples[i]).Some?
    ensures n < |samples| ==> Params(samples[n]).None?
  {
    if samples == [] || Params(samples[0]).None? then 0 else 1 + Usable(samples[1..])
  }

  /** Whole slices are stored until one holds an unusable sample. */
  function Stored(samples: seq<SampleRecord>): (n: nat)
    ensures n <= |samples| && forall s :: s in samples[..n] ==> Params(s).Some?
  {
    if Usable(samples) == |samples| then |samples| else Usable(samples) / SLICE * SLICE
  }

  /** The last of the readings that is one of this sensor. */
  predicate LastOf(readings: seq<SensorReading>, sensor: nat, i: nat) {
    i < |readings| && readings[i].sensor == sensor && forall j :: i < j < |readings| ==> readings[j].sensor != sensor
  }

  lemma {:induction false} LastReadingIs(readings: seq<SensorReading>, sensor: nat)
    ensures LastReading(readings, sensor).None? <==> forall j :: 0 <= j < |readings| ==> readings[j].sensor != sensor
    ensures forall i: nat :: LastOf(readings, sensor, i) ==> LastReading(readings, sensor) == Some(readings[i])
  {
    if readings != [] {
      var front := readings[..|readings| - 1];
      LastReadingIs(front, sensor);
      forall i: nat | LastOf(readings, sensor, i) && i < |front|
        ensures LastReading(readings, sensor) == Some(readings[i])
      {
        assert LastOf(front, sensor, i);
      }
    }
  }

  /** A sample can be stored if it has a reading of both sensors; of several the last one counts. */
  lemma ParamsIs(sample: SampleRecord)
    ensures Params(sample).Some? <==> (exists r :: r in sample.readings && r.sensor == 1) && (exists r :: r in sample.readings && r.sensor == 2)
    ensures Params(sample).Some? ==> Params(sample).value.key == sample.key && Params(sample).value.row.source == sample.source
    ensures Params(sample).Some? ==> forall i: nat, x: nat :: 1 <= x <= 2 && LastOf(sample.readings, x, i) ==>
              Params(sample).value.row.At(x) == Side(sample.readings[i].temperature, sample.readings[i].status)
  {
    LastReadingIs(sample.readings, 1);
    LastReadingIs(sample.readings, 2);
  }

  /** Of a list whose first unusable sample is number `k`, the whole slices of 100 before it are stored. */
  lemma StoredIs(samples: seq<SampleRecord>, k: nat)
    requires k <= |samples| && (forall i :: 0 <= i < k ==> Params(samples[i]).Some?) && (k < |samples| ==> Params(samples[k]).None?)
    ensures k == |samples| ==> Stored(samples) == k
    ensures k < |samples| ==> Stored(samples) % 100 == 0 && Stored(samples) <= k < Stored(samples) + 100
  {
    UsableIs(samples, k);
  }

  lemma {:induction false} UsableIs(samples: seq<SampleRecord>, k: nat)
    requires k <= |samples| && (forall i :: 0 <= i < k ==> Params(samples[i]).Some?) && (k < |samples| ==> Params(samples[k]).None?)
    ensures Usable(samples) == k
  {
    if k > 0 {
      UsableIs(samples[1..], k - 1);
    }
  }

  // --- The adapter ------------------------------------------------------------------------

  class SampleTable {
    var rows: Table
    var next: nat

    constructor ()
      ensures rows == map[] && next == 0
    {
      rows, next := map[], 0;
    }

    /** `_publish_one`: a duplicate natural key is rejected. */
    method Publish(sample: SampleRecord) returns (persisted: Option<bool>)
      modifies this
      ensures persisted.None? <==> Params(sample).None?
      ensures persisted.None? ==> rows == old(rows) && next == old(next)
      ensures persisted.Some? ==>
                && rows == Insert(old(rows), old(next), Params(sample).value)
                && next == old(next) + 1
                && (persisted.value <==> sample.key.None? || Keyed(sample.key.value) !in old(rows))
                && rows == if !persisted.value then old(rows)
                           else old(rows)[(if sample.key.None? then Numbered(old(next)) else Keyed(sample.key.value)) := Params(sample).value.row]
    {
      var entry := Params(sample);
      if entry.None? {
        return None;
      }
      next := next + 1;
      if sample.key.None? {
        rows := rows[Numbered(next - 1) := entry.value.row];
        return Some(true);
      }
      var id := Keyed(sample.key.value);
      if id in rows {
        return Some(false);
      }
      rows := rows[id := entry.value.row];
      persisted := Some(true);
    }

    /** One multi-row statement: each row is inserted or updates its duplicate, column by column. */
    method Execute(entries: seq<Entry>)
      modifies this
      ensures rows == UpsertAll(old(rows), old(next), entries) && next == old(next) + |entries|
    {
      for i := 0 to |entries|
        invariant rows == UpsertAll(old(rows), old(next), entries[..i]) && next == old(next) + i
      {
        assert entries[..i + 1][..i] == entries[..i];
        var e := entries[i];
        if e.key.None? {
          rows := rows[Numbered(next) := e.row];
        } else if Keyed(e.key.value) !in rows {
          rows := rows[Keyed(e.key.value) := e.row];
        } else {
          var row := UpdateColumns(rows[Keyed(e.key.value)], e.row);
          rows := rows[Keyed(e.key.value) := row];
        }
        next := next + 1;
      }
      assert entries[..|entries|] == entries;
    }

    /** One pass of the slicing loop: nothing is stored when a sample of the slice is unusable. */
    method StoreSlice(samples: seq<SampleRecord>, offset: nat, end: nat, ghost t: Table, ghost first: nat) returns (stored: bool)
      requires offset < end <= |samples| && end <= offset + SLICE && offset <= Usable(samples) && offset % SLICE == 0
      requires rows == UpsertAll(t, first, EntriesOf(samples[..offset])) && next == first + offset
      modifies this
      ensures stored ==> end <= Usable(samples)
                         && rows == UpsertAll(t, first, EntriesOf(samples[..end])) && next == first + end
      ensures !stored ==> rows == old(rows) && next == old(next)
                          && Stored(samples) == offset && !forall s :: s in samples ==> Params(s).Some?
    {
      var entries := ParamsOf(samples[offset..end]);
      if entries.None? {
        UnusableSlice(samples, offset, end);
        return false;
      }
      UsableSlice(samples, offset, end);
      NextSlice(t, first, samples, offset, end);
      Execute(entries.value);
      stored := true;
    }

    /** `upsert_history`: a statement per slice of 100, each committed before the next. */
    method UpsertHistory(samples: seq<SampleRecord>) returns (persisted: bool)
      modifies this
      ensures persisted <==> forall s :: s in samples ==> Params(s).Some?
      ensures rows == UpsertAll(old(rows), old(next), EntriesOf(samples[..Stored(samples)]))
      ensures next == old(next) + Stored(samples)
    {
      var offset := 0;
      assert EntriesOf(samples[..0]) == [];
      while offset < |samples|
        invariant 0 <= offset <= |samples| && offset <= Usable(samples)
        invariant offset < |samples| ==> offset % SLICE == 0
        invariant rows == UpsertAll(old(rows), old(next), EntriesOf(samples[..offset])) && next == old(next) + offset
      {
        var end := if offset + SLICE <= |samples| then offset + SLICE else |samples|;
        var stored := StoreSlice(samples, offset, end, old(rows), old(next));
        if !stored {
          return false;
        }
        offset := end;
      }
      assert samples[..offset] == samples;
      persisted := true;
    }

    /** `reconcile_provisional_intervals`: select a time window, scan it, delete by id. */
    method Reconcile(samples: seq<SampleRecord>, tolerance: nat)
      modifies this`rows
      ensures rows == Reconciled(old(rows), samples, tolerance)
      ensures forall id :: id in rows <==>
                id in old(rows) && !(old(rows)[id].source == Provisional
                                     && exists s :: s in samples && s.time - tolerance <= old(rows)[id].observedAt <= s.time + tolerance)
      ensures forall id :: id in rows ==> rows[id] == old(rows)[id]
    {
      if samples == [] {
        assert Reconciled(rows, samples, tolerance) == rows;
        return;
      }
      var sorted := SortByTime(samples);
      SortKeeps(samples);
      SameSamples(samples, sorted);
      var candidates := Select(rows, sorted[0].time - tolerance, sorted[|sorted| - 1].time + tolerance);
      var stale := Scan(rows, candidates, sorted, tolerance);
      StaleIsSuperseded(rows, samples, sorted, tolerance, candidates, stale);
      rows := rows - stale;
    }
  }

  /** The window query. */
  function Select(t: Table, start: int, end: int): set<Id> {
    set id | id in t && t[id].source == Provisional && start <= t[id].observedAt <= end
  }

  /** The candidates within tolerance of some sample. */
  method Scan(t: Table, candidates: set<Id>, samples: seq<SampleRecord>, tolerance: nat) returns (stale: set<Id>)
    requires candidates <= t.Keys
    ensures stale == set id | id in candidates && Close(t[id].observedAt, samples, tolerance)
  {
    stale := {};
    var left := candidates;
    while left != {}
      invariant left <= candidates
      invariant stale == set id | id in candidates - left && Close(t[id].observedAt, samples, tolerance)
      decreases left
    {
      var id :| id in left;
      var near := NearAny(t[id].observedAt, samples, tolerance);
      if near {
        stale := stale + {id};
      }
      left := left - {id};
    }
  }

  /** The window drops no stale row: whatever is close to a sample lies in it. */
  lemma StaleIsSuperseded(t: Table, samples: seq<SampleRecord>, sorted: seq<SampleRecord>, tolerance: nat,
                          candidates: set<Id>, stale: set<Id>)
    requires sorted != [] && Ordered(sorted) && forall s :: s in samples <==> s in sorted
    requires candidates == Select(t, sorted[0].time - tolerance, sorted[|sorted| - 1].time + tolerance)
    requires stale == set id | id in candidates && Close(t[id].observedAt, sorted, tolerance)
    ensures t - stale == Reconciled(t, samples, tolerance)
  {
    forall id | id in t
      ensures id in stale <==> Superseded(t[id], samples, tolerance)
    {
      CloseTo(t[id].observedAt, samples, sorted, tolerance);
    }
  }

  lemma CloseTo(time: int, samples: seq<SampleRecord>, sorted: seq<SampleRecord>, tolerance: nat)
    requires sorted != [] && Ordered(sorted) && forall s :: s in samples <==> s in sorted
    ensures Close(time, sorted, tolerance) == Close(time, samples, tolerance)
    ensures Close(time, sorted, tolerance) ==> sorted[0].time - tolerance <= time <= sorted[|sorted| - 1].time + tolerance
  {
  }

  /** The update's assignments in order: each condition reads what the earlier ones left. */
  method UpdateColumns(stored: Row, incoming: Row) returns (row: Row)
    ensures row == Merge(stored, incoming)
    ensures stored.source == History && row.first.temperature.Some? && row.second.temperature.Some? ==>
              row.averageValid && Averages(row.first, row.second, row.average)
  {
    row := stored;
    if row.source == History && row.first.status == NotRetrieved && incoming.first.status != NotRetrieved {
      row := row.(first := row.first.(temperature := incoming.first.temperature));
    }
    if row.source == History && row.first.status == NotRetrieved && incoming.first.status != NotRetrieved {
      row := row.(first := row.first.(status := incoming.first.status));
    }
    if row.source == History && row.second.status == NotRetrieved && incoming.second.status != NotRetrieved {
      row := row.(second := row.second.(temperature := incoming.second.temperature));
    }
    if row.source == History && row.second.status == NotRetrieved && incoming.second.status != NotRetrieved {
      row := row.(second := row.second.(status := incoming.second.status));
    }
    if row.source == History && row.first.temperature.Some? && row.second.temperature.Some? {
      row := row.(average := Some(Rounded(row.first.temperature.value + row.second.temperature.value)));
    }
    if row.source == History && row.first.temperature.Some? && row.second.temperature.Some? {
      row := row.(averageValid := true);
    }
  }

  method ParamsOf(samples: seq<SampleRecord>) returns (entries: Option<seq<Entry>>)
    ensures entries.Some? <==> forall s :: s in samples ==> Params(s).Some?
    ensures entries.Some? ==> entries.value == EntriesOf(samples)
  {
    var built: seq<Entry> := [];
    for i := 0 to |samples|
      invariant |built| == i
      invariant forall j :: 0 <= j < i ==> Params(samples[j]) == Some(built[j])
    {
      var entry := Params(samples[i]);
      if entry.None? {
        return None;
      }
      built := built + [entry.value];
    }
    entries := Some(built);
  }

  method NearAny(time: int, samples: seq<SampleRecord>, tolerance: nat) returns (near: bool)
    ensures near <==> Close(time, samples, tolerance)
  {
    for i := 0 to |samples|
      invariant forall j :: 0 <= j < i ==> !Near(time, samples[j].time, tolerance)
    {
      if Near(time, samples[i].time, tolerance) {
        return true;
      }
    }
    near := false;
  }

  lemma SameSamples(samples: seq<SampleRecord>, sorted: seq<SampleRecord>)
    requires multiset(samples) == multiset(sorted)
    ensures forall s :: s in samples <==> s in sorted
    ensures |samples| == |sorted|
  {
    assert forall s :: s in samples <==> s in multiset(samples);
    assert forall s :: s in sorted <==> s in multiset(sorted);
    assert |multiset(samples)| == |samples| && |multiset(sorted)| == |sorted|;
  }

  lemma UsableSlice(samples: seq<SampleRecord>, offset: nat, end: nat)
    requires offset <= end <= |samples| && offset <= Usable(samples)
    requires forall s :: s in samples[offset..end] ==> Params(s).Some?
    ensures end <= Usable(samples)
  {
    forall i | offset <= i < end
      ensures Params(samples[i]).Some?
    {
      assert samples[offset..end][i - offset] == samples[i];
    }
  }

  /** Storing one more slice continues the fold. */
  lemma NextSlice(t: Table, next: nat, samples: seq<SampleRecord>, offset: nat, end: nat)
    requires offset <= end <= |samples|
    requires forall i :: 0 <= i < end ==> Params(samples[i]).Some?
    ensures UpsertAll(t, next, EntriesOf(samples[..end]))
         == UpsertAll(UpsertAll(t, next, EntriesOf(samples[..offset])), next + offset, EntriesOf(samples[offset..end]))
  {
    UpsertMore(t, next, EntriesOf(samples[..offset]), EntriesOf(samples[offset..end]));
    assert EntriesOf(samples[..offset]) + EntriesOf(samples[offset..end]) == EntriesOf(samples[..end]);
  }

  lemma UnusableSlice(samples: seq<SampleRecord>, offset: nat, end: nat)
    requires offset < end <= |samples| && end <= offset + SLICE && offset <= Usable(samples) && offset % SLICE == 0
    requires !forall s :: s in samples[offset..end] ==> Params(s).Some?
    ensures Stored(samples) == offset && !forall s :: s in samples ==> Params(s).Some?
  {
    var s :| s in samples[offset..end] && Params(s).None?;
    var i :| offset <= i < end && samples[i] == s;
    assert Usable(samples) <= i;
    WholeSlices(Usable(samples), offset);
  }

  lemma WholeSlices(n: nat, offset: nat)
    requires offset % SLICE == 0 && offset <= n < offset + SLICE
    ensures n / SLICE * SLICE == offset
  {
  }

  /** Slicing is invisible: a statement per slice is the row-by-row fold. */
  lemma {:induction false} UpsertMore(t: Table, next: nat, xs: seq<Entry>, ys: seq<Entry>)
    ensures UpsertAll(t, next, xs + ys) == UpsertAll(UpsertAll(t, next, xs), next + |xs|, ys)
  {
    if ys == [] {
      assert xs + ys == xs;
    } else {
      var front := ys[..|ys| - 1];
      assert (xs + ys)[..|xs + ys| - 1] == xs + front;
      UpsertMore(t, next, xs, front);
    }
  }
}
