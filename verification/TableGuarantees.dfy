/** What the sample table promises over runs of its writers, and for batches in any order. */
module TableGuarantees {
  import opened Words
  import opened HistoryBatches
  import opened SampleTables
  import HistoryBuffers

  // --- Sound rows -------------------------------------------------------------------------

  /** A side without a retrieved reading has no temperature; a HISTORY row has the average of its temperatures. */
  predicate Sound(row: Row) {
    && (forall i :: 1 <= i <= 2 && row.At(i).status == NotRetrieved ==> row.At(i).temperature.None?)
    && row.averageValid == row.average.Some?
    && (row.source == History ==> Averages(row.first, row.second, row.average))
  }

  /** Only placeholders for missed slots lack a natural key. */
  predicate Proper(e: Entry) {
    Sound(e.row) && (e.key.None? <==> e.row.source == Provisional)
  }

  datatype Database = Database(rows: Table, next: nat)

  predicate Intact(db: Database) {
    && (forall id :: id in db.rows ==> Sound(db.rows[id]))
    && (forall id :: id in db.rows ==> (id.Numbered? <==> db.rows[id].source == Provisional))
    && (forall id :: id in db.rows && id.Numbered? ==> id.n < db.next)
  }

  datatype Write = Published(e: Entry) | Upserted(entries: seq<Entry>) | Swept(samples: seq<SampleRecord>, tolerance: nat)

  predicate ProperWrite(w: Write) {
    match w
    case Published(e) => Proper(e)
    case Upserted(entries) => forall e :: e in entries ==> Proper(e)
    case Swept(_, _) => true
  }

  function Apply(db: Database, w: Write): Database {
    match w
    case Published(e) => Database(Insert(db.rows, db.next, e), db.next + 1)
    case Upserted(entries) => Database(UpsertAll(db.rows, db.next, entries), db.next + |entries|)
    case Swept(samples, tolerance) => db.(rows := Reconciled(db.rows, samples, tolerance))
  }

  function Run(db: Database, writes: seq<Write>): Database {
    if writes == [] then db else Apply(Run(db, writes[..|writes| - 1]), writes[|writes| - 1])
  }

  /** How a row may change: not at all, except that a HISTORY row gains sides it had not retrieved. */
  predicate Grown(row: Row, later: Row) {
    && later.source == row.source && later.observedAt == row.observedAt
    && (row.source != History ==> later == row)
    && (forall i :: 1 <= i <= 2 && row.At(i).status != NotRetrieved ==> later.At(i) == row.At(i))
  }

  /** Keyed rows stay and only grow; a placeholder stays as it is or goes for good. */
  ghost predicate Evolved(db: Database, later: Database) {
    && db.next <= later.next
    && (forall key :: Keyed(key) in db.rows ==> Keyed(key) in later.rows && Grown(db.rows[Keyed(key)], later.rows[Keyed(key)]))
    && (forall n: nat :: n < db.next && Numbered(n) in later.rows
          ==> Numbered(n) in db.rows && later.rows[Numbered(n)] == db.rows[Numbered(n)])
  }

  lemma EvolvedOn(a: Database, b: Database, c: Database)
    requires Evolved(a, b) && Evolved(b, c)
    ensures Evolved(a, c)
  {
    forall key | Keyed(key) in a.rows
      ensures Keyed(key) in c.rows && Grown(a.rows[Keyed(key)], c.rows[Keyed(key)])
    {
      assert Grown(a.rows[Keyed(key)], b.rows[Keyed(key)]);
    }
  }

  lemma MergeSound(row: Row, incoming: Row)
    requires Sound(row) && Sound(incoming)
    ensures Sound(Merge(row, incoming)) && Grown(row, Merge(row, incoming))
  {
    var merged := Merge(row, incoming);
    assert merged.At(1) == merged.first && merged.At(2) == merged.second;
    assert incoming.At(1) == incoming.first && incoming.At(2) == incoming.second;
    assert row.At(1) == row.first && row.At(2) == row.second;
  }

  lemma UpsertEvolves(db: Database, e: Entry)
    requires Intact(db) && Proper(e)
    ensures Intact(Database(Upsert(db.rows, db.next, e), db.next + 1))
    ensures Evolved(db, Database(Upsert(db.rows, db.next, e), db.next + 1))
  {
    if e.key.Some? && Keyed(e.key.value) in db.rows {
      MergeSound(db.rows[Keyed(e.key.value)], e.row);
    }
  }

  lemma {:induction false} UpsertAllEvolves(db: Database, entries: seq<Entry>)
    requires Intact(db) && forall e :: e in entries ==> Proper(e)
    ensures Intact(Apply(db, Upserted(entries))) && Evolved(db, Apply(db, Upserted(entries)))
  {
    if entries != [] {
      var front, last := entries[..|entries| - 1], entries[|entries| - 1];
      var before := Apply(db, Upserted(front));
      UpsertAllEvolves(db, front);
      UpsertEvolves(before, last);
      EvolvedOn(db, before, Apply(db, Upserted(entries)));
    }
  }

  lemma WriteEvolves(db: Database, w: Write)
    requires Intact(db) && ProperWrite(w)
    ensures Intact(Apply(db, w)) && Evolved(db, Apply(db, w))
  {
    match w
    case Published(e) =>
    case Upserted(entries) => UpsertAllEvolves(db, entries);
    case Swept(samples, tolerance) =>
  }

  /**
   * Over any run of inserts, batch upserts and reconciliations, in any order: LIVE rows never
   * change, a retrieved reading never changes or goes missing, a HISTORY row has the rounded average of
   * its temperatures exactly when it has both, and nothing but placeholders is ever deleted.
   */
  lemma {:induction false} RunEvolves(db: Database, writes: seq<Write>)
    requires Intact(db) && forall w :: w in writes ==> ProperWrite(w)
    ensures Intact(Run(db, writes)) && Evolved(db, Run(db, writes))
  {
    if writes != [] {
      var before := Run(db, writes[..|writes| - 1]);
      RunEvolves(db, writes[..|writes| - 1]);
      WriteEvolves(before, writes[|writes| - 1]);
      EvolvedOn(db, before, Run(db, writes));
    }
  }

  // --- One write -----------------------------------------------------------------------------

  /** Publishing adds the row under its natural key if that is free, without one as the next placeholder, and changes no other row. */
  lemma PublishedOutcome(db: Database, e: Entry, later: Database)
    requires Intact(db) && Proper(e) && later == Apply(db, Published(e))
    ensures forall key ::
              && (Keyed(key) in later.rows <==> Keyed(key) in db.rows || e.key == Some(key))
              && (Keyed(key) in later.rows ==>
                    later.rows[Keyed(key)] == if Keyed(key) in db.rows then db.rows[Keyed(key)] else e.row)
    ensures forall n: nat ::
              && (Numbered(n) in later.rows <==> Numbered(n) in db.rows || (e.key.None? && n == db.next))
              && (Numbered(n) in later.rows ==>
                    later.rows[Numbered(n)] == if e.key.None? && n == db.next then e.row else db.rows[Numbered(n)])
  {
  }

  /** Reconciling removes exactly the placeholders within the tolerance of some sample. */
  lemma SweptOutcome(db: Database, samples: seq<SampleRecord>, tolerance: nat, later: Database, id: Id)
    requires later == Apply(db, Swept(samples, tolerance))
    ensures id in later.rows <==>
            id in db.rows && (db.rows[id].source == Provisional ==>
                                forall s :: s in samples ==> s.time < db.rows[id].observedAt - tolerance || db.rows[id].observedAt + tolerance < s.time)
    ensures id in later.rows ==> later.rows[id] == db.rows[id]
  {
  }

  // --- Batches in any order ----------------------------------------------------------------

  predicate Recovered(e: Entry) {
    Proper(e) && e.row.source == History
  }

  predicate HasReading(e: Entry, key: Key, i: nat) {
    e.key == Some(key) && e.row.At(i).status != NotRetrieved
  }

  /** The entries never contradict each other about a retrieved reading. */
  ghost predicate Agreeing(entries: seq<Entry>) {
    forall a, b, key, i :: a in entries && b in entries && 1 <= i <= 2 && HasReading(a, key, i) && HasReading(b, key, i)
      ==> a.row.At(i) == b.row.At(i)
  }

  predicate Mentions(entries: seq<Entry>, key: Key) {
    exists e :: e in entries && e.key == Some(key)
  }

  /** Where the old row's side is final: not a HISTORY row, or retrieved already. */
  predicate Final(t: Table, key: Key, i: nat) {
    Keyed(key) in t && (t[Keyed(key)].source != History || t[Keyed(key)].At(i).status != NotRetrieved)
  }

  /**
   * What a side must be after storing a set of entries, with no reference to their order: the final
   * old value, else the reading some entry has, else nothing retrieved.
   */
  ghost predicate Settled(t: Table, entries: seq<Entry>, key: Key, i: nat, side: Side) {
    if Final(t, key, i) then side == t[Keyed(key)].At(i)
    else
      && (forall e :: e in entries && HasReading(e, key, i) ==> side == e.row.At(i))
      && (side != Side(None, NotRetrieved) ==> exists e :: e in entries && HasReading(e, key, i))
  }

  /** The rows present afterwards, their sides, and what is left alone. */
  ghost predicate Outcome(t: Table, entries: seq<Entry>, later: Table, key: Key) {
    && (Keyed(key) in later <==> Keyed(key) in t || Mentions(entries, key))
    && (Keyed(key) in t && (t[Keyed(key)].source != History || !Mentions(entries, key)) ==> later[Keyed(key)] == t[Keyed(key)])
    && (Keyed(key) in later ==>
          && Sound(later[Keyed(key)])
          && (Keyed(key) in t ==> later[Keyed(key)].source == t[Keyed(key)].source)
          && (Keyed(key) !in t ==> later[Keyed(key)].source == History)
          && forall i :: 1 <= i <= 2 ==> Settled(t, entries, key, i, later[Keyed(key)].At(i)))
  }

  /** One more entry for this key. */
  lemma OutcomeNext(t: Table, next: nat, front: seq<Entry>, last: Entry, before: Table, key: Key)
    requires forall id :: id in t ==> Sound(t[id])
    requires Recovered(last) && last.key == Some(key) && Agreeing(front + [last]) && Outcome(t, front, before, key)
    ensures Outcome(t, front + [last], Upsert(before, next, last), key)
  {
    var all, later := front + [last], Upsert(before, next, last);
    assert last in all && forall e :: e in all <==> e in front || e == last;
    if Keyed(key) in before {
      MergeSound(before[Keyed(key)], last.row);
    }
    SettledNext(t, front, last, before, key, 1, later[Keyed(key)].At(1));
    SettledNext(t, front, last, before, key, 2, later[Keyed(key)].At(2));
  }

  lemma SettledNext(t: Table, front: seq<Entry>, last: Entry, before: Table, key: Key, i: nat, side: Side)
    requires 1 <= i <= 2
    requires Recovered(last) && last.key == Some(key) && Agreeing(front + [last]) && Outcome(t, front, before, key)
    requires side == if Keyed(key) !in before || Fillable(before[Keyed(key)], before[Keyed(key)].At(i), last.row.At(i))
                     then last.row.At(i) else before[Keyed(key)].At(i)
    ensures Settled(t, front + [last], key, i, side)
  {
    var all := front + [last];
    assert last in all && forall e :: e in all <==> e in front || e == last;
    if Keyed(key) in before {
      assert Settled(t, front, key, i, before[Keyed(key)].At(i));
    }
  }

  lemma OutcomeOther(t: Table, next: nat, front: seq<Entry>, last: Entry, before: Table, key: Key)
    requires Recovered(last) && last.key != Some(key) && Outcome(t, front, before, key)
    ensures Outcome(t, front + [last], Upsert(before, next, last), key)
  {
    var all := front + [last];
    assert last in all && forall e :: e in all <==> e in front || e == last;
    assert Mentions(all, key) <==> Mentions(front, key);
    forall i, side | 1 <= i <= 2 && Settled(t, front, key, i, side)
      ensures Settled(t, all, key, i, side)
    {
    }
  }

  /** The fold delivers the order-free outcome. */
  lemma {:induction false} UpsertAllSettles(t: Table, next: nat, entries: seq<Entry>, key: Key)
    requires forall id :: id in t ==> Sound(t[id])
    requires (forall e :: e in entries ==> Recovered(e)) && Agreeing(entries)
    ensures Outcome(t, entries, UpsertAll(t, next, entries), key)
  {
    if entries != [] {
      var front, last := entries[..|entries| - 1], entries[|entries| - 1];
      var before := UpsertAll(t, next, front);
      assert entries == front + [last];
      UpsertAllSettles(t, next, front, key);
      if last.key == Some(key) {
        OutcomeNext(t, next + |front|, front, last, before, key);
      } else {
        OutcomeOther(t, next + |front|, front, last, before, key);
      }
    }
  }

  /** The sensor, status, average and source columns. */
  predicate SameColumns(a: Row, b: Row) {
    a.first == b.first && a.second == b.second && a.average == b.average && a.averageValid == b.averageValid && a.source == b.source
  }

  predicate SameReadings(a: Table, b: Table) {
    a.Keys == b.Keys && forall id :: id in a ==> SameColumns(a[id], b[id])
  }

  lemma {:induction false} PlaceholdersStay(t: Table, next: nat, entries: seq<Entry>, n: nat)
    requires forall e :: e in entries ==> Recovered(e)
    ensures Numbered(n) in UpsertAll(t, next, entries) <==> Numbered(n) in t
    ensures Numbered(n) in t ==> UpsertAll(t, next, entries)[Numbered(n)] == t[Numbered(n)]
  {
    if entries != [] {
      assert Recovered(entries[|entries| - 1]);
      PlaceholdersStay(t, next, entries[..|entries| - 1], n);
    }
  }

  lemma SettledOnce(t: Table, xs: seq<Entry>, ys: seq<Entry>, key: Key, i: nat, a: Side, b: Side)
    requires forall e :: e in xs <==> e in ys
    requires Settled(t, xs, key, i, a) && Settled(t, ys, key, i, b)
    ensures a == b
  {
  }

  /**
   * Recovered batches commute and repeat harmlessly: when they do not contradict each other, the
   * resulting readings, statuses and averages depend only on the set of samples stored.
   */
  lemma OrderAndRepetitionDoNotMatter(db: Database, xs: seq<Entry>, ys: seq<Entry>)
    requires Intact(db)
    requires forall e :: e in xs <==> e in ys
    requires (forall e :: e in xs ==> Recovered(e)) && Agreeing(xs)
    ensures SameReadings(UpsertAll(db.rows, db.next, xs), UpsertAll(db.rows, db.next, ys))
  {
    var a, b := UpsertAll(db.rows, db.next, xs), UpsertAll(db.rows, db.next, ys);
    forall id
      ensures id in a <==> id in b
      ensures id in a ==> SameColumns(a[id], b[id])
    {
      match id
      case Numbered(n) =>
        PlaceholdersStay(db.rows, db.next, xs, n);
        PlaceholdersStay(db.rows, db.next, ys, n);
      case Keyed(key) =>
        UpsertAllSettles(db.rows, db.next, xs, key);
        UpsertAllSettles(db.rows, db.next, ys, key);
        SameOutcome(db.rows, xs, ys, a, b, key);
    }
  }

  lemma SameOutcome(t: Table, xs: seq<Entry>, ys: seq<Entry>, a: Table, b: Table, key: Key)
    requires forall e :: e in xs <==> e in ys
    requires Outcome(t, xs, a, key) && Outcome(t, ys, b, key)
    ensures Keyed(key) in a <==> Keyed(key) in b
    ensures Keyed(key) in a ==> SameColumns(a[Keyed(key)], b[Keyed(key)])
  {
    assert Mentions(xs, key) <==> Mentions(ys, key);
    if Keyed(key) in a {
      var p, q := a[Keyed(key)], b[Keyed(key)];
      SettledOnce(t, xs, ys, key, 1, p.At(1), q.At(1));
      SettledOnce(t, xs, ys, key, 2, p.At(2), q.At(2));
    }
  }

  predicate Agree(a: Entry, b: Entry) {
    a.key == b.key ==> forall i :: 1 <= i <= 2 && a.row.At(i).status != NotRetrieved && b.row.At(i).status != NotRetrieved
                         ==> a.row.At(i) == b.row.At(i)
  }

  /** Agreement is exactly what makes two recovered samples commute. */
  lemma CommuteIffAgree(a: Entry, b: Entry)
    requires Recovered(a) && Recovered(b)
    ensures (forall db :: Intact(db) ==>
               SameReadings(UpsertAll(db.rows, db.next, [a, b]), UpsertAll(db.rows, db.next, [b, a])))
       <==> Agree(a, b)
  {
    if Agree(a, b) {
      forall db | Intact(db)
        ensures SameReadings(UpsertAll(db.rows, db.next, [a, b]), UpsertAll(db.rows, db.next, [b, a]))
      {
        OrderAndRepetitionDoNotMatter(db, [a, b], [b, a]);
      }
    } else {
      FirstWins(a, b);
      FirstWins(b, a);
      var empty := Database(map[], 0);
      assert Intact(empty);
      assert !SameReadings(UpsertAll(empty.rows, empty.next, [a, b]), UpsertAll(empty.rows, empty.next, [b, a]));
    }
  }

  lemma FirstWins(a: Entry, b: Entry)
    requires Recovered(a) && Recovered(b) && a.key == b.key
    ensures var t := UpsertAll(map[], 0, [a, b]);
            && Keyed(a.key.value) in t
            && forall i :: 1 <= i <= 2 && a.row.At(i).status != NotRetrieved ==> t[Keyed(a.key.value)].At(i) == a.row.At(i)
  {
    assert [a, b][..1] == [a] && [a][..0] == [];
    assert UpsertAll(map[], 0, [a]) == map[Keyed(a.key.value) := a.row];
    MergeSound(a.row, b.row);
  }

  // --- Batches built from records ------------------------------------------------------------

  /** What the device recorded: a temperature and a status per sensor and sequence number. */
  type Truth = (nat, u32) -> (Option<i16>, HistoryBuffers.DataStatus)

  ghost predicate Truthful(e: Entry, truth: Truth) {
    forall key, i :: 1 <= i <= 2 && HasReading(e, key, i) ==> e.row.At(i) == Side(truth(i, key.1).0, Retrieved(truth(i, key.1).1))
  }

  /** Entries that all report one device's recordings agree. */
  lemma TruthfulAgree(entries: seq<Entry>, truth: Truth)
    requires forall e :: e in entries ==> Truthful(e, truth)
    ensures Agreeing(entries)
  {
  }

  lemma SampleStores(sample: SampleRecord, records: seq<TimedRecord>, bootId: u32)
    requires Tells(sample, records, bootId)
    ensures Params(sample).Some? && Recovered(Params(sample).value) && Params(sample).value.key == sample.key
    ensures Params(sample).value.row.first == SideOf(sample.readings[0])
    ensures Params(sample).value.row.second == SideOf(sample.readings[1])
  {
    assert sample.readings[..1] == [sample.readings[0]];
    assert LastReading(sample.readings, 2) == Some(sample.readings[1]);
    assert LastReading([sample.readings[0]], 1) == Some(sample.readings[0]);
  }

  /** Every batch can be stored, and its rows are sound HISTORY rows with the records' readings. */
  lemma BatchStores(records: seq<TimedRecord>, bootId: u32, now: int)
    requires OnePerKey(records)
    ensures forall s :: s in Batch(records, bootId, now) ==> Params(s).Some?
    ensures forall e :: e in EntriesOf(Batch(records, bootId, now)) ==> Recovered(e)
  {
    GroupingIsLossless(records, bootId, now);
    forall s | s in Batch(records, bootId, now)
      ensures Params(s).Some? && Recovered(Params(s).value)
    {
      assert Tells(s, records, bootId);
      SampleStores(s, records, bootId);
    }
  }

  /**
   * Retries converge: any two batches of one boot built from the same device's records agree, so
   * partial retrievals may be stored in any order and any number of times.
   */
  lemma BatchIsTruthful(records: seq<TimedRecord>, bootId: u32, now: int, truth: Truth)
    requires OnePerKey(records)
    requires forall r :: r in records ==> (r.temperature, r.status) == truth(r.sensor, r.sequence)
    ensures forall s :: s in Batch(records, bootId, now) ==> Params(s).Some?
    ensures forall e :: e in EntriesOf(Batch(records, bootId, now)) ==> Truthful(e, truth)
  {
    var batch := Batch(records, bootId, now);
    BatchStores(records, bootId, now);
    GroupingIsLossless(records, bootId, now);
    forall s | s in batch
      ensures Truthful(Params(s).value, truth)
    {
      assert Tells(s, records, bootId);
      SampleStores(s, records, bootId);
    }
  }

  // --- Placeholders -------------------------------------------------------------------------------

  lemma {:induction false} WindowCovered(samples: seq<SampleRecord>, tolerance: nat, time: int)
    requires samples != [] && samples[0].time - tolerance <= time <= samples[|samples| - 1].time + tolerance
    requires forall i, j :: 0 <= i < j < |samples| && j == i + 1 ==> samples[j].time <= samples[i].time + 2 * tolerance
    ensures Close(time, samples, tolerance)
  {
    var front, last := samples[..|samples| - 1], samples[|samples| - 1];
    if Near(time, last.time, tolerance) {
      assert last in samples;
    } else {
      WindowCovered(front, tolerance, time);
      var s :| s in front && Near(time, s.time, tolerance);
      assert s in samples;
    }
  }

  /** The samples' sequence numbers follow each other directly, across the wrap too. */
  ghost predicate Gapless(samples: seq<SampleRecord>) {
    forall i, j :: 0 <= i < j < |samples| && j == i + 1 ==>
      samples[i].key.Some? && samples[j].key.Some? && samples[j].key.value.1 == Wrap32(samples[i].key.value.1 + 1)
  }

  /** Reconciling with a gapless batch leaves no placeholder in the whole time it spans. */
  lemma GaplessBatchClearsWindow(t: Table, records: seq<TimedRecord>, bootId: u32, now: int, anchor: u32, anchorTime: int,
                                 period: int, tolerance: nat, id: Id)
    requires OnePerKey(records) && Dated(records, anchor, anchorTime, period) && 0 < period <= 2 * tolerance
    requires Gapless(Batch(records, bootId, now))
    requires id in Reconciled(t, Batch(records, bootId, now), tolerance) && t[id].source == Provisional && records != []
    ensures var batch := Batch(records, bootId, now);
            batch != [] && (t[id].observedAt < batch[0].time - tolerance || t[id].observedAt > batch[|batch| - 1].time + tolerance)
  {
    var batch := Batch(records, bootId, now);
    GroupingIsLossless(records, bootId, now);
    assert Placed(records[0], batch, bootId);
    forall i, j | 0 <= i < j < |batch| && j == i + 1
      ensures batch[j].time == batch[i].time + period
    {
      BatchFollowsDevice(records, bootId, now, anchor, anchorTime, period, i, j);
      StepApart(batch[i].key.value.1);
    }
    if batch[0].time - tolerance <= t[id].observedAt <= batch[|batch| - 1].time + tolerance {
      WindowCovered(batch, tolerance, t[id].observedAt);
    }
  }

  lemma StepApart(q: u32)
    ensures Wrap32(Wrap32(q + 1) - q) == 1
  {
    WrapAdd(q + 1, q);
  }
}
