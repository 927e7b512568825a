/** What the transfer loop accounts for, whatever the device answers. */
module HistoryAccounting {
  import opened Words
  import opened ProtocolClient
  import opened HistorySync
  import Device

  /** The numbers start, start + 1, ..., modulo 2^32. */
  ghost function Numbers(start: int, n: nat): set<u32> {
    if n == 0 then {} else Numbers(start, n - 1) + {Wrap32(start + n - 1)}
  }

  /** The sequence numbers stored for one sensor. */
  ghost function StoredFor(records: map<(nat, u32), HistoryValue>, sensor: nat): set<u32> {
    set key | key in records.Keys && key.0 == sensor :: key.1
  }

  function LostBy(failures: seq<Failing>, sensor: nat): nat {
    if failures == [] then 0
    else
      var last := failures[|failures| - 1];
      LostBy(failures[..|failures| - 1], sensor)
      + (if last.LostRecords? && last.sensor == sensor then last.lost else 0)
  }

  /** One sensor's books. */
  datatype Ledger = Ledger(due: nat, retrieved: nat, lost: nat, next: u32, stored: set<u32>)

  ghost function LedgerOf(s: Sync, x: nat): Ledger
    requires x in s.remaining && x in s.next && 1 <= x <= |s.retrieved|
  {
    Ledger(s.remaining[x], s.retrieved[x - 1], LostBy(s.failures, x), s.next[x], StoredFor(s.records, x))
  }

  /**
   * Every expected record is retrieved, reported lost or still due; the next request continues
   * right behind what was handled; exactly `retrieved` distinct records are stored, all from the
   * handled part, and nothing of it is missing unless reported lost.
   */
  ghost predicate Balances(l: Ledger, oldest: u32, expected: u16) {
    && l.due + l.retrieved + l.lost == expected
    && l.next == Wrap32(oldest + expected - l.due)
    && l.stored <= Numbers(oldest, expected - l.due)
    && |l.stored| == l.retrieved
    && (l.lost == 0 ==> l.stored == Numbers(oldest, expected - l.due))
  }

  ghost predicate Balanced(meta: DeviceMeta, s: Sync, x: nat)
    requires Shaped(meta, s) && Sensor(meta, x)
  {
    Balances(LedgerOf(s, x), meta.oldest[x - 1], meta.counts[x - 1])
  }

  ghost predicate Books(meta: DeviceMeta, s: Sync)
    requires Shaped(meta, s)
  {
    && (forall x {:trigger Balanced(meta, s, x)} :: Sensor(meta, x) ==> Balanced(meta, s, x))
    && Tidy(meta, s)
  }

  /** Sensors without anything to fetch have nothing. */
  ghost predicate Tidy(meta: DeviceMeta, s: Sync)
    requires Shaped(meta, s)
  {
    && (forall x :: 1 <= x <= Device.SENSOR_COUNT && !Sensor(meta, x) ==> s.retrieved[x - 1] == 0)
    && (forall key :: key in s.records ==> Sensor(meta, key.0))
  }

  // --- Sets of numbers -------------------------------------------------------------------

  /** Membership is a bound on the wrapped distance from the start. */
  lemma {:induction false} InNumbers(start: int, n: nat, q: u32)
    requires n <= TWO32
    ensures q in Numbers(start, n) <==> Wrap32(q - start) < n
  {
    if n > 0 {
      InNumbers(start, n - 1, q);
      if q == Wrap32(start + n - 1) {
        WrapDistanceFrom(start, n - 1, q);
      } else if Wrap32(q - start) == n - 1 {
        WrapAdd(q - start, start);
      }
    }
  }

  lemma WrapDistanceFrom(start: int, i: nat, q: u32)
    requires i < TWO32 && q == Wrap32(start + i)
    ensures Wrap32(q - start) == i
  {
    WrapAdd(start + i, -start);
  }

  lemma {:induction false} NumbersGrow(start: int, a: nat, b: nat)
    ensures Numbers(start, a) + Numbers(Wrap32(start + a), b) == Numbers(start, a + b)
  {
    if b > 0 {
      NumbersGrow(start, a, b - 1);
      WrapAdd(start + a, b - 1);
    }
  }

  /** What lies before `start + a` is far behind it. */
  lemma DistanceBehind(start: int, a: nat, q: u32)
    requires Wrap32(q - start) < a <= TWO32
    ensures Wrap32(q - Wrap32(start + a)) == Wrap32(q - start) + TWO32 - a
  {
    WrapShift(q, start + a);
    assert Wrap32(q) == q;
    WrapAdd(q - start, a);
  }

  lemma NumbersApart(start: int, a: nat, b: nat)
    requires a + b <= TWO32
    ensures Numbers(start, a) !! Numbers(Wrap32(start + a), b)
  {
    forall q | q in Numbers(start, a)
      ensures q !in Numbers(Wrap32(start + a), b)
    {
      InNumbers(start, a, q);
      InNumbers(Wrap32(start + a), b, q);
      DistanceBehind(start, a, q);
    }
  }

  lemma {:induction false} NumbersCount(start: int, n: nat)
    requires n <= TWO32
    ensures |Numbers(start, n)| == n
  {
    if n > 0 {
      NumbersCount(start, n - 1);
      InNumbers(start, n - 1, Wrap32(start + n - 1));
      WrapDistanceFrom(start, n - 1, Wrap32(start + n - 1));
    }
  }

  /** Storing a numbered chunk adds exactly its numbers, for its sensor only. */
  lemma {:induction false} StoreAdds(records: map<(nat, u32), HistoryValue>, sensor: nat, values: seq<HistoryValue>, start: u32, x: nat)
    requires Numbered(values, start)
    ensures StoredFor(Store(records, sensor, values), x)
         == StoredFor(records, x) + (if x == sensor then Numbers(start, |values|) else {})
    ensures forall key :: key in Store(records, sensor, values) ==> key in records || key.0 == sensor
  {
    if values == [] {
      assert Numbers(start, 0) == {};
    } else {
      var n := |values| - 1;
      var front, last := values[..n], values[n];
      StoreAdds(records, sensor, front, start, x);
      var before := Store(records, sensor, front);
      StoredInsert(before, sensor, last, x);
      if x == sensor {
        NumbersGrow(start, n, 1);
        OneNumber(Wrap32(start + n));
      }
    }
  }

  lemma OneNumber(q: u32)
    ensures Numbers(q, 1) == {q}
  {
    assert Numbers(q, 0) == {};
    assert Wrap32(q + 1 - 1) == q;
  }

  lemma StoredInsert(records: map<(nat, u32), HistoryValue>, sensor: nat, value: HistoryValue, x: nat)
    ensures StoredFor(records[(sensor, value.sequence) := value], x)
         == StoredFor(records, x) + (if x == sensor then {value.sequence} else {})
  {
    var more := records[(sensor, value.sequence) := value];
    assert more.Keys == records.Keys + {(sensor, value.sequence)};
    if x == sensor {
      assert (sensor, value.sequence) in more.Keys;
    }
  }

  lemma LostAppend(failures: seq<Failing>, f: Failing, x: nat)
    ensures LostBy(failures + [f], x) == LostBy(failures, x) + (if f.LostRecords? && f.sensor == x then f.lost else 0)
  {
    assert (failures + [f])[..|failures|] == failures;
  }

  // --- Ledgers ------------------------------------------------------------------------------

  /** A chunk of `n` records moves them from due to retrieved. */
  ghost function Credited(l: Ledger, n: nat): Ledger
    requires n <= l.due
  {
    Ledger(l.due - n, l.retrieved + n, l.lost, Wrap32(l.next + n), l.stored + Numbers(l.next, n))
  }

  ghost function WrittenOff(l: Ledger, n: nat, oldest: u32): Ledger
    requires n <= l.due
  {
    Ledger(l.due - n, l.retrieved, l.lost + n, oldest, l.stored)
  }

  lemma CreditBalances(l: Ledger, oldest: u32, expected: u16, n: nat)
    requires Balances(l, oldest, expected) && n <= l.due
    ensures Balances(Credited(l, n), oldest, expected)
  {
    var handled := expected - l.due;
    var before, added, t := Numbers(oldest, handled), Numbers(l.next, n), Credited(l, n);
    assert before + added == Numbers(oldest, handled + n) by { NumbersGrow(oldest, handled, n); }
    assert |added| == n by { NumbersCount(l.next, n); }
    assert before !! added by { NumbersApart(oldest, handled, n); }
    assert |t.stored| == |l.stored| + n;
    assert t.next == Wrap32(oldest + expected - t.due) by { WrapAdd(oldest + handled, n); }
    assert handled + n == expected - t.due;
  }

  lemma WriteOffBalances(l: Ledger, oldest: u32, expected: u16, n: nat, newOldest: u32)
    requires Balances(l, oldest, expected) && 0 < n <= l.due && n == Wrap32(newOldest - l.next)
    ensures Balances(WrittenOff(l, n, newOldest), oldest, expected)
  {
    var handled := expected - l.due;
    NumbersGrow(oldest, handled, n);
    WrapAdd(oldest + handled, n);
    WrapReach(l.next, newOldest);
  }

  // --- One step keeps the books ---------------------------------------------------------------

  lemma StartBalanced(meta: DeviceMeta, k: nat)
    ensures Books(meta, Start(meta, k))
  {
    var s := Start(meta, k);
    forall x | Sensor(meta, x)
      ensures Balanced(meta, s, x)
    {
      assert LedgerOf(s, x) == Ledger(meta.counts[x - 1], 0, 0, meta.oldest[x - 1], {});
      EmptyBalances(meta.counts[x - 1], meta.oldest[x - 1]);
    }
  }

  lemma EmptyBalances(expected: u16, oldest: u32)
    ensures Balances(Ledger(expected, 0, 0, oldest, {}), oldest, expected)
  {
  }

  /** What a turn enters into one sensor's books. */
  datatype Entry = Nothing | Credit(n: nat) | WriteOff(n: nat, oldest: u32)

  ghost predicate Posts(before: Ledger, e: Entry, after: Ledger) {
    match e
    case Nothing => after == before
    case Credit(n) => 0 < n <= before.due && after == Credited(before, n)
    case WriteOff(n, oldest) => 0 < n <= before.due && n == Wrap32(oldest - before.next) && after == WrittenOff(before, n, oldest)
  }

  lemma PostBalances(before: Ledger, e: Entry, after: Ledger, oldest: u32, expected: u16)
    requires Posts(before, e, after) && Balances(before, oldest, expected)
    ensures Balances(after, oldest, expected)
  {
    match e
    case Nothing =>
    case Credit(n) => CreditBalances(before, oldest, expected, n);
    case WriteOff(n, newOldest) => WriteOffBalances(before, oldest, expected, n, newOldest);
  }

  lemma AcceptBooked(meta: DeviceMeta, s: Sync, request: ChunkRequest, chunk: HistoryChunk, k: nat, x: nat) returns (e: Entry)
    requires Shaped(meta, s) && s.pending != [] && request.sensor == s.pending[0] && Sensor(meta, x)
    requires request.start == s.next[s.pending[0]] && request.count <= s.remaining[s.pending[0]] && Acceptable(chunk, request)
    ensures Posts(LedgerOf(s, x), e, LedgerOf(Accept(meta, s, request, chunk, k), x))
    ensures x != s.pending[0] ==> e == Nothing
  {
    StoreAdds(s.records, request.sensor, chunk.records, request.start, x);
    e := if x == s.pending[0] then Credit(|chunk.records|) else Nothing;
  }

  lemma SalvageBooked(meta: DeviceMeta, s: Sync, oldest: u32, lost: nat, k: nat, x: nat) returns (e: Entry)
    requires Shaped(meta, s) && s.pending != [] && Sensor(meta, x)
    requires 0 < lost < s.remaining[s.pending[0]] && lost == Wrap32(oldest - s.next[s.pending[0]])
    ensures Posts(LedgerOf(s, x), e, LedgerOf(Salvage(meta, s, s.pending[0], oldest, lost, k), x))
    ensures x != s.pending[0] ==> e == Nothing
  {
    LostAppend(s.failures, LostRecords(s.pending[0], lost), x);
    e := if x == s.pending[0] then WriteOff(lost, oldest) else Nothing;
  }

  lemma FailuresAppended(f: seq<Failing>, sensor: nat, x: nat)
    ensures LostBy(f + [ChunkFailed(sensor)], x) == LostBy(f, x)
    ensures LostBy(f + [RefreshFailed(sensor), ChunkFailed(sensor)], x) == LostBy(f, x)
  {
    LostAppend(f, ChunkFailed(sensor), x);
    LostAppend(f, RefreshFailed(sensor), x);
    LostAppend(f + [RefreshFailed(sensor)], ChunkFailed(sensor), x);
    assert f + [RefreshFailed(sensor)] + [ChunkFailed(sensor)] == f + [RefreshFailed(sensor), ChunkFailed(sensor)];
  }

  /** The turn only reported failures; the books are as before. */
  ghost predicate Reported(s: Sync, sensor: nat, t: Sync) {
    && t.remaining == s.remaining && t.next == s.next && t.retrieved == s.retrieved && t.records == s.records
    && (t.failures == s.failures + [ChunkFailed(sensor)] || t.failures == s.failures + [RefreshFailed(sensor), ChunkFailed(sensor)])
  }

  lemma ReportedBooked(meta: DeviceMeta, s: Sync, sensor: nat, t: Sync, x: nat)
    requires Shaped(meta, s) && Sensor(meta, x) && Reported(s, sensor, t)
    ensures LedgerOf(t, x) == LedgerOf(s, x)
  {
    FailuresAppended(s.failures, sensor, x);
  }

  /** The turn skipped overwritten records. */
  ghost predicate Salvaged(meta: DeviceMeta, w: World, s: Sync, k: nat, t: Sync)
    requires Shaped(meta, s) && s.pending != [] && w.refresh(k + 1).Renewed?
  {
    var sensor := s.pending[0];
    var oldest := w.refresh(k + 1).meta.oldest[sensor - 1];
    var lost := Wrap32(oldest as int - s.next[sensor]);
    0 < lost < s.remaining[sensor] && t == Salvage(meta, s, sensor, oldest, lost, k + 2)
  }

  /** A turn without a chunk ends in one of these two ways. */
  lemma GiveUpCases(meta: DeviceMeta, w: World, s: Sync, request: ChunkRequest, notAvailable: bool, k: nat)
    requires Shaped(meta, s) && s.pending != [] && request.sensor == s.pending[0] && request.start == s.next[s.pending[0]]
    ensures var t := GiveUp(meta, w, s, request, notAvailable, k);
            Reported(s, s.pending[0], t) || (w.refresh(k + 1).Renewed? && Salvaged(meta, w, s, k, t))
  {
  }

  lemma EndBooked(meta: DeviceMeta, w: World, s: Sync, k: nat, t: Sync, x: nat) returns (e: Entry)
    requires Shaped(meta, s) && s.pending != [] && Sensor(meta, x) && x in t.remaining && x in t.next && x <= |t.retrieved|
    requires Reported(s, s.pending[0], t) || (w.refresh(k + 1).Renewed? && Salvaged(meta, w, s, k, t))
    ensures Posts(LedgerOf(s, x), e, LedgerOf(t, x))
    ensures x != s.pending[0] ==> e == Nothing
  {
    if Reported(s, s.pending[0], t) {
      ReportedBooked(meta, s, s.pending[0], t, x);
      e := Nothing;
    } else {
      var oldest: u32 := w.refresh(k + 1).meta.oldest[s.pending[0] - 1];
      var ahead: int := oldest as int - s.next[s.pending[0]];
      e := SalvageBooked(meta, s, oldest, Wrap32(ahead), k + 2, x);
    }
  }

  lemma GiveUpBooked(meta: DeviceMeta, w: World, s: Sync, request: ChunkRequest, notAvailable: bool, k: nat, x: nat) returns (e: Entry)
    requires Shaped(meta, s) && s.pending != [] && request.sensor == s.pending[0] && Sensor(meta, x)
    requires request.start == s.next[s.pending[0]]
    ensures Posts(LedgerOf(s, x), e, LedgerOf(GiveUp(meta, w, s, request, notAvailable, k), x))
    ensures x != s.pending[0] ==> e == Nothing
  {
    GiveUpCases(meta, w, s, request, notAvailable, k);
    e := EndBooked(meta, w, s, k, GiveUp(meta, w, s, request, notAvailable, k), x);
  }

  lemma ConcludeBooked(meta: DeviceMeta, w: World, s: Sync, request: ChunkRequest, attempt: Attempt, k: nat, x: nat) returns (e: Entry)
    requires Shaped(meta, s) && s.pending != [] && Sensor(meta, x) && Fitting(meta, s, request, attempt)
    requires Shaped(meta, Conclude(meta, w, s, request, attempt, k))
    ensures Posts(LedgerOf(s, x), e, LedgerOf(Conclude(meta, w, s, request, attempt, k), x))
    ensures x != s.pending[0] ==> e == Nothing
  {
    match attempt
    case OutOfTime => e := Nothing;
    case Got(chunk) => e := AcceptBooked(meta, s, request, chunk, k, x);
    case GaveUp(notAvailable) => e := GiveUpBooked(meta, w, s, request, notAvailable, k, x);
  }

  /** Whatever the replies, a turn posts at most one entry, and only for the sensor it served. */
  lemma StepBooked(meta: DeviceMeta, w: World, s: Sync, x: nat) returns (e: Entry)
    requires Shaped(meta, s) && s.pending != [] && Sensor(meta, x) && Shaped(meta, Step(meta, w, s))
    ensures Posts(LedgerOf(s, x), e, LedgerOf(Step(meta, w, s), x))
    ensures x != s.pending[0] ==> e == Nothing
  {
    var request := RequestFor(w, meta, s);
    var (attempt, k) := Attempts(w, request, s.k + 2, w.retries);
    assert Step(meta, w, s) == Conclude(meta, w, s, request, attempt, k);
    e := ConcludeBooked(meta, w, s, request, attempt, k, x);
  }

  lemma StepBalanced(meta: DeviceMeta, w: World, s: Sync, x: nat)
    requires Shaped(meta, s) && s.pending != [] && Sensor(meta, x) && Balanced(meta, s, x)
    requires Shaped(meta, Step(meta, w, s))
    ensures Balanced(meta, Step(meta, w, s), x)
  {
    var e := StepBooked(meta, w, s, x);
    PostBalances(LedgerOf(s, x), e, LedgerOf(Step(meta, w, s), x), meta.oldest[x - 1], meta.counts[x - 1]);
  }

  lemma TidyKept(meta: DeviceMeta, s: Sync, t: Sync)
    requires Shaped(meta, s) && s.pending != [] && Tidy(meta, s) && Shaped(meta, t)
    requires forall key :: key in t.records ==> key in s.records || key.0 == s.pending[0]
    requires forall i :: 0 <= i < Device.SENSOR_COUNT && i != s.pending[0] - 1 ==> t.retrieved[i] == s.retrieved[i]
    ensures Tidy(meta, t)
  {
    assert Sensor(meta, s.pending[0]);
  }

  lemma StepBooks(meta: DeviceMeta, w: World, s: Sync)
    requires Shaped(meta, s) && s.pending != [] && Books(meta, s) && Shaped(meta, Step(meta, w, s))
    ensures Books(meta, Step(meta, w, s))
  {
    forall x | Sensor(meta, x)
      ensures Balanced(meta, Step(meta, w, s), x)
    {
      assert Balanced(meta, s, x);
      StepBalanced(meta, w, s, x);
    }
    StepKeys(meta, w, s);
    StepRetrieved(meta, w, s);
    TidyKept(meta, s, Step(meta, w, s));
  }

  lemma StepRetrieved(meta: DeviceMeta, w: World, s: Sync)
    requires Shaped(meta, s) && s.pending != []
    ensures |Step(meta, w, s).retrieved| == |s.retrieved|
    ensures forall i :: 0 <= i < |s.retrieved| && i != s.pending[0] - 1 ==> Step(meta, w, s).retrieved[i] == s.retrieved[i]
  {
  }

  lemma StepKeys(meta: DeviceMeta, w: World, s: Sync)
    requires Shaped(meta, s) && s.pending != []
    ensures forall key :: key in Step(meta, w, s).records ==> key in s.records || key.0 == s.pending[0]
  {
    var request := RequestFor(w, meta, s);
    var (attempt, k) := Attempts(w, request, s.k + 2, w.retries);
    assert Step(meta, w, s) == Conclude(meta, w, s, request, attempt, k);
    if attempt.Got? {
      StoreAdds(s.records, request.sensor, attempt.chunk.records, request.start, request.sensor);
    }
  }

  // --- Whole runs --------------------------------------------------------------------------------

  lemma {:induction false} RunBooks(meta: DeviceMeta, w: World, s: Sync)
    requires Shaped(meta, s) && Books(meta, s)
    ensures Books(meta, RunLoop(meta, w, s))
    decreases Backlog(s.pending, s.remaining)
  {
    if Running(w, s) {
      StepProgress(meta, w, s);
      StepBooks(meta, w, s);
      RunBooks(meta, w, Step(meta, w, s));
    }
  }

  /** Under arbitrary replies the books balance at the end of the transfer. */
  lemma Accounting(meta: DeviceMeta, w: World, k: nat, x: nat)
    requires Sensor(meta, x)
    ensures Balanced(meta, RunLoop(meta, w, Start(meta, k)), x)
  {
    StartBalanced(meta, k);
    RunBooks(meta, w, Start(meta, k));
  }

  /** What `synchronize` reports on top of the loop. */
  function Failures(meta: DeviceMeta, anchorBoot: u32, s: Sync): seq<Failing> {
    s.failures
    + (if s.pending != [] || s.expired then [BudgetExceeded] else [])
    + (if anchorBoot != meta.bootId then [Rebooted] else [])
  }

  predicate Complete(meta: DeviceMeta, anchorBoot: u32, s: Sync) {
    s.retrieved == [meta.counts[0] as nat, meta.counts[1] as nat] && Failures(meta, anchorBoot, s) == []
  }

  /**
   * `complete` is honest: whatever the device answered, a complete result comes from one boot, with
   * nothing left to fetch and no failure on the way, and holds, for every sensor, exactly the sequences
   * oldest .. oldest + expected - 1 modulo 2^32, and nothing else.
   */
  lemma CompleteIsGapless(meta: DeviceMeta, w: World, k: nat, anchorBoot: u32)
    requires Complete(meta, anchorBoot, RunLoop(meta, w, Start(meta, k)))
    ensures var records := RunLoop(meta, w, Start(meta, k)).records;
            && (forall x :: 1 <= x <= Device.SENSOR_COUNT ==>
                  StoredFor(records, x) == Numbers(meta.oldest[x - 1], meta.counts[x - 1])
                  && |StoredFor(records, x)| == meta.counts[x - 1])
            && (forall key :: key in records ==> 1 <= key.0 <= Device.SENSOR_COUNT)
    ensures var t := RunLoop(meta, w, Start(meta, k));
            anchorBoot == meta.bootId && t.pending == [] && !t.expired && t.failures == []
  {
    CompleteIff(meta, anchorBoot, RunLoop(meta, w, Start(meta, k)));
    StartBalanced(meta, k);
    RunBooks(meta, w, Start(meta, k));
    CompleteBooks(meta, RunLoop(meta, w, Start(meta, k)), anchorBoot);
  }

  /** A result is complete exactly when every count was met, nothing failed or was left over, and the device did not restart. */
  lemma CompleteIff(meta: DeviceMeta, anchorBoot: u32, t: Sync)
    requires |t.retrieved| == Device.SENSOR_COUNT
    ensures Complete(meta, anchorBoot, t) <==>
            && t.retrieved[0] == meta.counts[0] && t.retrieved[1] == meta.counts[1]
            && t.failures == [] && t.pending == [] && !t.expired && anchorBoot == meta.bootId
  {
    assert t.retrieved == [t.retrieved[0], t.retrieved[1]];
  }

  /** What a turn may report. */
  predicate OfTurns(failures: seq<Failing>) {
    BudgetExceeded !in failures && Rebooted !in failures
  }

  lemma StepReports(meta: DeviceMeta, w: World, s: Sync)
    requires Shaped(meta, s) && s.pending != [] && OfTurns(s.failures)
    ensures OfTurns(Step(meta, w, s).failures)
  {
    var request := RequestFor(w, meta, s);
    var (attempt, k) := Attempts(w, request, s.k + 2, w.retries);
    assert Step(meta, w, s) == Conclude(meta, w, s, request, attempt, k);
    if attempt.GaveUp? {
      GiveUpCases(meta, w, s, request, attempt.notAvailable, k);
    }
  }

  lemma {:induction false} RunReports(meta: DeviceMeta, w: World, s: Sync)
    requires Shaped(meta, s) && OfTurns(s.failures)
    ensures OfTurns(RunLoop(meta, w, s).failures)
    decreases Backlog(s.pending, s.remaining)
  {
    if Running(w, s) {
      StepProgress(meta, w, s);
      StepReports(meta, w, s);
      RunReports(meta, w, Step(meta, w, s));
    }
  }

  /** The report names an exceeded budget exactly if a sensor was left waiting or time ran out, and a restart exactly if there was one. */
  lemma ReportTells(meta: DeviceMeta, w: World, k: nat, anchorBoot: u32)
    ensures var t := RunLoop(meta, w, Start(meta, k));
            && (BudgetExceeded in Failures(meta, anchorBoot, t) <==> t.pending != [] || t.expired)
            && (Rebooted in Failures(meta, anchorBoot, t) <==> anchorBoot != meta.bootId)
            && (forall f :: f in t.failures ==> f in Failures(meta, anchorBoot, t))
  {
    RunReports(meta, w, Start(meta, k));
  }

  lemma CompleteBooks(meta: DeviceMeta, t: Sync, anchorBoot: u32)
    requires Shaped(meta, t) && Books(meta, t) && Complete(meta, anchorBoot, t)
    ensures forall x :: 1 <= x <= Device.SENSOR_COUNT ==>
              StoredFor(t.records, x) == Numbers(meta.oldest[x - 1], meta.counts[x - 1])
              && |StoredFor(t.records, x)| == meta.counts[x - 1]
  {
    forall x | 1 <= x <= Device.SENSOR_COUNT
      ensures StoredFor(t.records, x) == Numbers(meta.oldest[x - 1], meta.counts[x - 1])
      ensures |StoredFor(t.records, x)| == meta.counts[x - 1]
    {
      if Sensor(meta, x) {
        assert Balanced(meta, t, x);
        CompleteSensor(meta, t, x);
      } else {
        UnusedSensor(meta, t, x);
      }
    }
  }

  lemma CompleteSensor(meta: DeviceMeta, t: Sync, x: nat)
    requires Shaped(meta, t) && Sensor(meta, x) && Balanced(meta, t, x)
    requires t.retrieved[x - 1] == meta.counts[x - 1]
    ensures StoredFor(t.records, x) == Numbers(meta.oldest[x - 1], meta.counts[x - 1])
    ensures |StoredFor(t.records, x)| == meta.counts[x - 1]
  {
    var l := LedgerOf(t, x);
    assert l.due == 0 && l.lost == 0;
  }

  lemma UnusedSensor(meta: DeviceMeta, t: Sync, x: nat)
    requires Shaped(meta, t) && Books(meta, t) && 1 <= x <= Device.SENSOR_COUNT && !Sensor(meta, x)
    ensures meta.counts[x - 1] == 0 == t.retrieved[x - 1]
    ensures StoredFor(t.records, x) == {} == Numbers(meta.oldest[x - 1], 0)
  {
  }
}
