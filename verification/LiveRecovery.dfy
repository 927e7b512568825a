/** Salvaging from rings that are overwritten, and frozen anew, during the transfer (backend/pc_client/history_sync.py). */
module LiveRecovery {
  import opened Words
  import opened HistoryBuffers
  import opened ProtocolClient
  import opened RoundTrip
  import opened HistorySync
  import opened Retries
  import opened Recovery
  import Accounts = HistoryAccounting
  import Device

  /** The request asks for the records of its sensor's ring from record `i` on, and for no more than these. */
  predicate Seeks(request: ChunkRequest, rings: seq<seq<Record>>, i: nat) {
    Asks(request, rings, i) && i + request.count <= |rings[request.sensor - 1]|
  }

  /** How many records of a sensor's ring have been overwritten by an interaction. */
  type Overwriting = (nat, nat) -> nat

  /** The metadata describes a later ring: of the one described first, `gone` records are no longer held. */
  predicate Tells(meta: DeviceMeta, later: DeviceMeta, x: nat, gone: nat)
    requires 1 <= x <= Device.SENSOR_COUNT
  {
    && gone + TWO16 <= TWO32
    && later.bootId == meta.bootId && later.oldest[x - 1] == Wrap32(meta.oldest[x - 1] + gone)
  }

  /**
   * A device whose rings go on: any call may fail, but an answer that passes the checks brings records
   * of the ring described first, and new metadata tells how much of it has been overwritten.
   */
  ghost predicate Honest(meta: DeviceMeta, w: World, rings: seq<seq<Record>>, gone: Overwriting) {
    && (forall k: nat, request: ChunkRequest, i: nat {:trigger w.fetch(k, request), Seeks(request, rings, i)} ::
          Seeks(request, rings, i) && w.fetch(k, request).Arrived? && Acceptable(w.fetch(k, request).chunk, request)
          ==> Delivered(w.fetch(k, request), request, rings[request.sensor - 1], i))
    && (forall k: nat, x: nat {:trigger Sensor(meta, x), w.refresh(k)} ::
          Sensor(meta, x) && w.refresh(k).Renewed? ==> Tells(meta, w.refresh(k).meta, x, gone(k, x)))
    && Grows(gone)
  }

  ghost predicate Grows(gone: Overwriting) {
    forall j: nat, k: nat, x: nat {:trigger gone(j, x), gone(k, x)} :: j <= k ==> gone(j, x) <= gone(k, x)
  }

  /** The records of the described ring a sensor is through with, stored or written off. */
  function Handled(meta: DeviceMeta, s: Sync, x: nat): int
    requires Sensor(meta, x) && x in s.remaining
  {
    meta.counts[x - 1] - s.remaining[x]
  }

  /** The first records of the ring are stored, or have been overwritten. */
  ghost predicate Settled(records: map<(nat, u32), HistoryValue>, x: nat, ring: seq<Record>, handled: int, gone: nat) {
    handled <= |ring| && forall j :: 0 <= j < handled ==> (x, ring[j].sequence) in records || j < gone
  }

  /** What a sensor has handled but not stored has been overwritten. */
  ghost predicate SettledFor(meta: DeviceMeta, s: Sync, x: nat, ring: seq<Record>, gone: Overwriting)
    requires Shaped(meta, s)
  {
    Sensor(meta, x) ==> Settled(s.records, x, ring, Handled(meta, s, x), gone(s.k, x))
  }

  ghost predicate AllSettled(meta: DeviceMeta, s: Sync, rings: seq<seq<Record>>, gone: Overwriting)
    requires |rings| == Device.SENSOR_COUNT && Shaped(meta, s)
  {
    SettledFor(meta, s, 1, rings[0], gone) && SettledFor(meta, s, 2, rings[1], gone)
  }

  /** Everything stored is right. */
  ghost predicate AllRight(records: map<(nat, u32), HistoryValue>, rings: seq<seq<Record>>)
    requires |rings| == Device.SENSOR_COUNT
  {
    Right(records, 1, rings[0]) && Right(records, 2, rings[1])
  }

  ghost predicate Faithful(meta: DeviceMeta, s: Sync, rings: seq<seq<Record>>, gone: Overwriting)
    requires |rings| == Device.SENSOR_COUNT && Shaped(meta, s)
  {
    AllRight(s.records, rings) && AllSettled(meta, s, rings, gone)
  }

  lemma StartFaithful(meta: DeviceMeta, k: nat, rings: seq<seq<Record>>, gone: Overwriting)
    requires Describes(meta, rings)
    ensures Faithful(meta, Start(meta, k), rings, gone)
  {
  }

  // --- One pass ---------------------------------------------------------------------------------------

  lemma NextIs(meta: DeviceMeta, s: Sync, x: nat)
    requires Shaped(meta, s) && Sensor(meta, x) && Accounts.Balanced(meta, s, x)
    ensures 0 <= Handled(meta, s, x) && s.next[x] == Wrap32(meta.oldest[x - 1] + Handled(meta, s, x))
  {
    var l := Accounts.LedgerOf(s, x);
    assert l.due + l.retrieved + l.lost == meta.counts[x - 1];
    assert l.next == Wrap32(meta.oldest[x - 1] + meta.counts[x - 1] - l.due);
  }

  /** What the front sensor asks for next. */
  lemma NextSought(meta: DeviceMeta, w: World, s: Sync, rings: seq<seq<Record>>)
    requires Describes(meta, rings) && Shaped(meta, s) && s.pending != [] && Accounts.Books(meta, s)
    ensures Sensor(meta, s.pending[0])
    ensures 0 <= Handled(meta, s, s.pending[0])
    ensures RequestFor(w, meta, s).start == Wrap32(meta.oldest[s.pending[0] - 1] + Handled(meta, s, s.pending[0]))
    ensures Seeks(RequestFor(w, meta, s), rings, Handled(meta, s, s.pending[0]))
  {
    var x := s.pending[0];
    assert Sensor(meta, x) && Accounts.Balanced(meta, s, x);
    NextIs(meta, s, x);
    FrontRequest(meta, w, s);
    RingSought(meta, rings, RequestFor(w, meta, s), Handled(meta, s, x));
  }

  lemma FrontRequest(meta: DeviceMeta, w: World, s: Sync)
    requires Shaped(meta, s) && s.pending != []
    ensures var request, x := RequestFor(w, meta, s), s.pending[0];
            && x in s.remaining && 0 < s.remaining[x] && Sensor(meta, x)
            && request.sensor == x && request.start == s.next[x] && 0 < request.count <= s.remaining[x]
  {
  }

  lemma RingSought(meta: DeviceMeta, rings: seq<seq<Record>>, request: ChunkRequest, i: nat)
    requires Describes(meta, rings) && Sensor(meta, request.sensor) && 0 < request.count
    requires i + request.count <= meta.counts[request.sensor - 1] && request.start == Wrap32(meta.oldest[request.sensor - 1] + i)
    ensures Seeks(request, rings, i)
  {
    NumberedFromOldest(rings[request.sensor - 1], i);
  }

  lemma {:induction false} StoreHolds(records: map<(nat, u32), HistoryValue>, x: nat, values: seq<HistoryValue>)
    ensures forall key :: key in records ==> key in Store(records, x, values)
    ensures forall j :: 0 <= j < |values| ==> (x, values[j].sequence) in Store(records, x, values)
  {
    if values != [] {
      StoreHolds(records, x, values[..|values| - 1]);
    }
  }

  lemma LaterSettled(records: map<(nat, u32), HistoryValue>, x: nat, ring: seq<Record>, handled: int, gone: nat, later: nat)
    requires Settled(records, x, ring, handled, gone) && gone <= later
    ensures Settled(records, x, ring, handled, later)
  {
  }

  /** A pass that changes neither books nor records. */
  lemma IdleSettled(meta: DeviceMeta, s: Sync, t: Sync, x: nat, ring: seq<Record>, gone: Overwriting)
    requires Grows(gone) && Shaped(meta, s) && Shaped(meta, t)
    requires SettledFor(meta, s, x, ring, gone) && t.records == s.records && t.remaining == s.remaining && s.k <= t.k
    ensures SettledFor(meta, t, x, ring, gone)
  {
    if Sensor(meta, x) {
      assert gone(s.k, x) <= gone(t.k, x);
      LaterSettled(s.records, x, ring, Handled(meta, s, x), gone(s.k, x), gone(t.k, x));
    }
  }

  /** A pass that stores the next records for the sensor itself. */
  lemma OwnSettled(meta: DeviceMeta, s: Sync, x: nat, values: seq<HistoryValue>, t: Sync, ring: seq<Record>, gone: Overwriting, i: nat)
    requires Grows(gone) && Shaped(meta, s) && Shaped(meta, t) && Sensor(meta, x) && s.k <= t.k
    requires SettledFor(meta, s, x, ring, gone) && i == Handled(meta, s, x)
    requires t.records == Store(s.records, x, values) && t.remaining[x] == s.remaining[x] - |values|
    requires i + |values| <= |ring| && values == Meanings(ring[i..i + |values|])
    ensures SettledFor(meta, t, x, ring, gone)
  {
    assert gone(s.k, x) <= gone(t.k, x);
    LaterSettled(s.records, x, ring, i, gone(s.k, x), gone(t.k, x));
    StoreSettles(s.records, x, values, ring, i, gone(t.k, x));
  }

  /** A pass that stores something for another sensor. */
  lemma OtherSettled(meta: DeviceMeta, s: Sync, y: nat, values: seq<HistoryValue>, t: Sync, x: nat, ring: seq<Record>, gone: Overwriting)
    requires Grows(gone) && Shaped(meta, s) && Shaped(meta, t) && s.k <= t.k
    requires SettledFor(meta, s, x, ring, gone) && t.records == Store(s.records, y, values)
    requires Sensor(meta, x) ==> t.remaining[x] == s.remaining[x]
    ensures SettledFor(meta, t, x, ring, gone)
  {
    if Sensor(meta, x) {
      assert gone(s.k, x) <= gone(t.k, x);
      LaterSettled(s.records, x, ring, Handled(meta, s, x), gone(s.k, x), gone(t.k, x));
      StoreHolds(s.records, y, values);
    }
  }

  /** A pass that writes off what has been overwritten for sensor `y`. */
  lemma SalvageSettled(meta: DeviceMeta, s: Sync, y: nat, k: nat, t: Sync, x: nat, ring: seq<Record>, gone: Overwriting)
    requires Grows(gone) && Shaped(meta, s) && Shaped(meta, t) && Sensor(meta, y)
    requires SettledFor(meta, s, x, ring, gone) && t.records == s.records && s.k <= k && t.k == k + 2
    requires gone(k + 1, y) < meta.counts[y - 1] && t.remaining == s.remaining[y := meta.counts[y - 1] - gone(k + 1, y)]
    requires x == y ==> |ring| == meta.counts[y - 1]
    ensures SettledFor(meta, t, x, ring, gone)
  {
    if Sensor(meta, x) {
      assert gone(s.k, x) <= gone(t.k, x) && gone(k + 1, x) <= gone(t.k, x);
      LaterSettled(s.records, x, ring, Handled(meta, s, x), gone(s.k, x), gone(t.k, x));
    }
  }

  lemma StoreSettles(records: map<(nat, u32), HistoryValue>, x: nat, values: seq<HistoryValue>, ring: seq<Record>, i: nat, gone: nat)
    requires Settled(records, x, ring, i, gone) && i + |values| <= |ring| && values == Meanings(ring[i..i + |values|])
    ensures Settled(Store(records, x, values), x, ring, i + |values|, gone)
  {
    StoreHolds(records, x, values);
    forall j | i <= j < i + |values|
      ensures (x, ring[j].sequence) in Store(records, x, values)
    {
      assert values[j - i] == Meaning(ring[j]);
    }
  }

  /** The distance between two places, up to 2^16 back and far ahead. */
  lemma LostIs(oldest: u32, handled: nat, gone: nat)
    requires handled < TWO16 && gone + TWO16 <= TWO32
    ensures var lost := Wrap32(Wrap32(oldest + gone) - Wrap32(oldest + handled));
            if handled <= gone then lost == gone - handled else lost >= TWO16
  {
    WrapShift(oldest + gone, oldest + handled);
  }

  /** A turn that ends with NOT_AVAILABLE and new metadata in time. */
  lemma GiveUpRefreshed(meta: DeviceMeta, w: World, s: Sync, request: ChunkRequest, k: nat)
    requires Shaped(meta, s) && s.pending != [] && request.sensor == s.pending[0]
    requires w.clock(k) < w.deadline && w.clock(k + 1) < w.deadline && w.refresh(k + 1).Renewed?
    ensures var x, renewed := s.pending[0], w.refresh(k + 1).meta;
            var lost := Wrap32(renewed.oldest[x - 1] as int - request.start);
            GiveUp(meta, w, s, request, true, k) ==
            if renewed.bootId == meta.bootId && 0 < lost < s.remaining[x] then Salvage(meta, s, x, renewed.oldest[x - 1], lost, k + 2)
            else s.(pending := s.pending[1..], failures := s.failures + [ChunkFailed(x)], k := k + 2)
  {
  }

  /** The code's guard tells whether some but not all of what was due has been overwritten, and how much. */
  lemma ToldLost(meta: DeviceMeta, renewed: DeviceMeta, x: nat, start: u32, handled: nat, remaining: nat, gone: nat)
    requires 1 <= x <= Device.SENSOR_COUNT && Tells(meta, renewed, x, gone)
    requires handled + remaining < TWO16 && start == Wrap32(meta.oldest[x - 1] + handled)
    ensures var lost := Wrap32(renewed.oldest[x - 1] as int - start);
            && (0 < lost < remaining <==> handled < gone < handled + remaining)
            && (handled < gone < handled + remaining ==> lost == gone - handled)
  {
    LostIs(meta.oldest[x - 1], handled, gone);
  }

  /**
   * When the device reports a sensor's next record as gone and new metadata arrives: the transfer goes
   * on behind what has been overwritten by then, if that is some but not all of what was due, and writes
   * off exactly this; otherwise it drops the sensor.
   */
  lemma SalvageIsExact(meta: DeviceMeta, w: World, s: Sync, request: ChunkRequest, k: nat, rings: seq<seq<Record>>, gone: Overwriting)
    requires Describes(meta, rings) && Honest(meta, w, rings, gone)
    requires Shaped(meta, s) && s.pending != [] && request == RequestFor(w, meta, s) && Accounts.Books(meta, s)
    requires w.clock(k) < w.deadline && w.clock(k + 1) < w.deadline && w.refresh(k + 1).Renewed?
    ensures Sensor(meta, s.pending[0])
    ensures var x, t := s.pending[0], GiveUp(meta, w, s, request, true, k);
            var handled, lost := Handled(meta, s, x), gone(k + 1, x);
            && t.records == s.records && t.k == k + 2
            && if handled < lost < meta.counts[x - 1]
               then t.remaining == s.remaining[x := meta.counts[x - 1] - lost] && t.pending == s.pending[1..] + [x]
                    && t.failures == s.failures + [LostRecords(x, lost - handled)]
               else t.remaining == s.remaining && t.pending == s.pending[1..] && t.failures == s.failures + [ChunkFailed(x)]
  {
    var x := s.pending[0];
    NextSought(meta, w, s, rings);
    assert Tells(meta, w.refresh(k + 1).meta, x, gone(k + 1, x));
    SalvageTold(meta, w, s, request, k, gone(k + 1, x));
  }

  lemma SalvageTold(meta: DeviceMeta, w: World, s: Sync, request: ChunkRequest, k: nat, lost: nat)
    requires Shaped(meta, s) && s.pending != [] && request.sensor == s.pending[0] && Sensor(meta, s.pending[0])
    requires 0 <= Handled(meta, s, s.pending[0]) && request.start == Wrap32(meta.oldest[s.pending[0] - 1] + Handled(meta, s, s.pending[0]))
    requires w.clock(k) < w.deadline && w.clock(k + 1) < w.deadline && w.refresh(k + 1).Renewed?
    requires Tells(meta, w.refresh(k + 1).meta, s.pending[0], lost)
    ensures var x, t := s.pending[0], GiveUp(meta, w, s, request, true, k);
            var handled := Handled(meta, s, x);
            && t.records == s.records && t.k == k + 2
            && if handled < lost < meta.counts[x - 1]
               then t.remaining == s.remaining[x := meta.counts[x - 1] - lost] && t.pending == s.pending[1..] + [x]
                    && t.failures == s.failures + [LostRecords(x, lost - handled)]
               else t.remaining == s.remaining && t.pending == s.pending[1..] && t.failures == s.failures + [ChunkFailed(x)]
  {
    var x := s.pending[0];
    ToldLost(meta, w.refresh(k + 1).meta, x, request.start, Handled(meta, s, x), s.remaining[x], lost);
    GiveUpRefreshed(meta, w, s, request, k);
  }

  /** Whether new metadata arrives when the next record is reported as gone. */
  predicate Refreshes(w: World, notAvailable: bool, k: nat) {
    notAvailable && w.clock(k) < w.deadline && w.clock(k + 1) < w.deadline && w.refresh(k + 1).Renewed?
  }

  /** Without it the sensor is dropped. */
  lemma GiveUpDrops(meta: DeviceMeta, w: World, s: Sync, request: ChunkRequest, notAvailable: bool, k: nat)
    requires Shaped(meta, s) && s.pending != [] && request.sensor == s.pending[0] && !Refreshes(w, notAvailable, k)
    ensures var t := GiveUp(meta, w, s, request, notAvailable, k);
            t.records == s.records && t.remaining == s.remaining && t.k >= k
  {
  }

  lemma GiveUpSettled(meta: DeviceMeta, w: World, s: Sync, request: ChunkRequest, notAvailable: bool, k: nat, t: Sync,
                      rings: seq<seq<Record>>, gone: Overwriting, x: nat)
    requires Describes(meta, rings) && Honest(meta, w, rings, gone) && 1 <= x <= Device.SENSOR_COUNT
    requires Shaped(meta, s) && s.pending != [] && request == RequestFor(w, meta, s) && s.k <= k && Accounts.Books(meta, s)
    requires t == GiveUp(meta, w, s, request, notAvailable, k) && Shaped(meta, t) && SettledFor(meta, s, x, rings[x - 1], gone)
    ensures SettledFor(meta, t, x, rings[x - 1], gone) && t.records == s.records
  {
    var y := s.pending[0];
    if Refreshes(w, notAvailable, k) {
      SalvageIsExact(meta, w, s, request, k, rings, gone);
      if Handled(meta, s, y) < gone(k + 1, y) < meta.counts[y - 1] {
        SalvageSettled(meta, s, y, k, t, x, rings[x - 1], gone);
      } else {
        IdleSettled(meta, s, t, x, rings[x - 1], gone);
      }
    } else {
      GiveUpDrops(meta, w, s, request, notAvailable, k);
      IdleSettled(meta, s, t, x, rings[x - 1], gone);
    }
  }

  /** What accepting a chunk does to the records and the books. */
  lemma AcceptIs(meta: DeviceMeta, s: Sync, request: ChunkRequest, chunk: HistoryChunk, k: nat)
    requires Shaped(meta, s) && s.pending != [] && request.sensor == s.pending[0]
    requires Acceptable(chunk, request) && request.count <= s.remaining[request.sensor]
    ensures var t, y := Accept(meta, s, request, chunk, k), request.sensor;
            && t.records == Store(s.records, y, chunk.records) && t.k == k && t.expired == s.expired
            && |chunk.records| <= s.remaining[y] && t.remaining == s.remaining[y := s.remaining[y] - |chunk.records|]
            && (t.remaining[y] > 0 ==> y in t.pending)
  {
  }

  /** The chunk a turn accepts brings the next records of its sensor's ring. */
  /** The values are those the ring holds from place `i` on. */
  predicate HeldFrom(ring: seq<Record>, i: int, values: seq<HistoryValue>) {
    0 <= i && i + |values| <= |ring| && values == Meanings(ring[i..i + |values|])
  }

  lemma GotDelivered(meta: DeviceMeta, w: World, s: Sync, rings: seq<seq<Record>>, gone: Overwriting, chunk: HistoryChunk)
    requires Describes(meta, rings) && Honest(meta, w, rings, gone) && Shaped(meta, s) && s.pending != [] && Accounts.Books(meta, s)
    requires Attempts(w, RequestFor(w, meta, s), s.k + 2, w.retries).0 == Got(chunk)
    ensures var y := s.pending[0];
            Sensor(meta, y) && HeldFrom(rings[y - 1], Handled(meta, s, y), chunk.records)
  {
    var request, i := RequestFor(w, meta, s), Handled(meta, s, s.pending[0]);
    NextSought(meta, w, s, rings);
    var n := GotFrom(w, request, s.k + 2, w.retries);
    assert Seeks(request, rings, i) && Acceptable(w.fetch(s.k + 2 + n, request).chunk, request);
  }

  predicate Gets(meta: DeviceMeta, w: World, s: Sync)
    requires Shaped(meta, s) && s.pending != []
  {
    Attempts(w, RequestFor(w, meta, s), s.k + 2, w.retries).0.Got?
  }

  /** A pass that accepts a chunk stores the next records of the front sensor's ring. */
  lemma GotIs(meta: DeviceMeta, w: World, s: Sync, rings: seq<seq<Record>>, gone: Overwriting, t: Sync) returns (values: seq<HistoryValue>, i: nat)
    requires Describes(meta, rings) && Honest(meta, w, rings, gone)
    requires Shaped(meta, s) && s.pending != [] && Accounts.Books(meta, s) && Gets(meta, w, s) && t == Step(meta, w, s)
    ensures Sensor(meta, s.pending[0]) && i == Handled(meta, s, s.pending[0]) && |values| <= s.remaining[s.pending[0]]
    ensures HeldFrom(rings[s.pending[0] - 1], i, values)
    ensures var y := s.pending[0];
            && t.records == Store(s.records, y, values) && t.remaining == s.remaining[y := s.remaining[y] - |values|]
            && s.k <= t.k
  {
    var chunk := GotStep(meta, w, s, t);
    GotDelivered(meta, w, s, rings, gone, chunk);
    values, i := chunk.records, Handled(meta, s, s.pending[0]);
  }

  lemma GotStep(meta: DeviceMeta, w: World, s: Sync, t: Sync) returns (chunk: HistoryChunk)
    requires Shaped(meta, s) && s.pending != [] && Gets(meta, w, s) && t == Step(meta, w, s)
    ensures Attempts(w, RequestFor(w, meta, s), s.k + 2, w.retries).0 == Got(chunk)
    ensures var y := s.pending[0];
            && t.records == Store(s.records, y, chunk.records) && |chunk.records| <= s.remaining[y]
            && t.remaining == s.remaining[y := s.remaining[y] - |chunk.records|] && s.k <= t.k
            && t.expired == s.expired && (t.remaining[y] > 0 ==> y in t.pending)
  {
    var request := RequestFor(w, meta, s);
    var (attempt, k) := Attempts(w, request, s.k + 2, w.retries);
    assert t == Conclude(meta, w, s, request, attempt, k);
    AttemptsAdvance(w, request, s.k + 2, w.retries);
    chunk := attempt.chunk;
    AcceptIs(meta, s, request, chunk, k);
  }

  lemma StepSettled(meta: DeviceMeta, w: World, s: Sync, rings: seq<seq<Record>>, gone: Overwriting, x: nat)
    requires Describes(meta, rings) && Honest(meta, w, rings, gone) && 1 <= x <= Device.SENSOR_COUNT
    requires Shaped(meta, s) && s.pending != [] && Accounts.Books(meta, s) && Shaped(meta, Step(meta, w, s))
    requires SettledFor(meta, s, x, rings[x - 1], gone)
    ensures SettledFor(meta, Step(meta, w, s), x, rings[x - 1], gone)
  {
    if Gets(meta, w, s) {
      ChunkSettled(meta, w, s, rings, gone, x, Step(meta, w, s));
    } else {
      LeftSettled(meta, w, s, rings, gone, x, Step(meta, w, s));
    }
  }

  lemma ChunkSettled(meta: DeviceMeta, w: World, s: Sync, rings: seq<seq<Record>>, gone: Overwriting, x: nat, t: Sync)
    requires Describes(meta, rings) && Honest(meta, w, rings, gone) && 1 <= x <= Device.SENSOR_COUNT
    requires Shaped(meta, s) && s.pending != [] && Accounts.Books(meta, s) && Shaped(meta, t) && Gets(meta, w, s)
    requires t == Step(meta, w, s) && SettledFor(meta, s, x, rings[x - 1], gone)
    ensures SettledFor(meta, t, x, rings[x - 1], gone)
  {
    var values, i := GotIs(meta, w, s, rings, gone, t);
    GotSettled(meta, s, s.pending[0], values, i, t, x, rings, gone);
  }

  lemma GotSettled(meta: DeviceMeta, s: Sync, y: nat, values: seq<HistoryValue>, i: nat, t: Sync, x: nat, rings: seq<seq<Record>>, gone: Overwriting)
    requires |rings| == Device.SENSOR_COUNT && Grows(gone) && Shaped(meta, s) && Shaped(meta, t) && 1 <= x <= Device.SENSOR_COUNT
    requires SettledFor(meta, s, x, rings[x - 1], gone) && Sensor(meta, y) && i == Handled(meta, s, y) && |values| <= s.remaining[y]
    requires HeldFrom(rings[y - 1], i, values)
    requires t.records == Store(s.records, y, values) && t.remaining == s.remaining[y := s.remaining[y] - |values|] && s.k <= t.k
    ensures SettledFor(meta, t, x, rings[x - 1], gone)
  {
    if x == y {
      OwnSettled(meta, s, x, values, t, rings[x - 1], gone, i);
    } else {
      OtherSettled(meta, s, y, values, t, x, rings[x - 1], gone);
    }
  }

  lemma LeftSettled(meta: DeviceMeta, w: World, s: Sync, rings: seq<seq<Record>>, gone: Overwriting, x: nat, t: Sync)
    requires Describes(meta, rings) && Honest(meta, w, rings, gone) && 1 <= x <= Device.SENSOR_COUNT
    requires Shaped(meta, s) && s.pending != [] && Accounts.Books(meta, s) && Shaped(meta, t) && !Gets(meta, w, s)
    requires t == Step(meta, w, s) && SettledFor(meta, s, x, rings[x - 1], gone)
    ensures SettledFor(meta, t, x, rings[x - 1], gone)
  {
    var expired, notAvailable, k := LeftStep(meta, w, s);
    if expired {
      IdleSettled(meta, s, t, x, rings[x - 1], gone);
    } else {
      GiveUpSettled(meta, w, s, RequestFor(w, meta, s), notAvailable, k, t, rings, gone, x);
    }
  }

  /** A pass without a chunk runs out of time or gives up on its request. */
  lemma LeftStep(meta: DeviceMeta, w: World, s: Sync) returns (expired: bool, notAvailable: bool, k: nat)
    requires Shaped(meta, s) && s.pending != [] && !Gets(meta, w, s)
    ensures var (attempt, last) := Attempts(w, RequestFor(w, meta, s), s.k + 2, w.retries);
            && s.k <= k == last && expired == attempt.OutOfTime? && (!expired ==> attempt == GaveUp(notAvailable))
    ensures var t := Step(meta, w, s);
            if expired then t.records == s.records && t.remaining == s.remaining && t.k == k
            else t == GiveUp(meta, w, s, RequestFor(w, meta, s), notAvailable, k)
  {
    var request := RequestFor(w, meta, s);
    var (attempt, last) := Attempts(w, request, s.k + 2, w.retries);
    assert Step(meta, w, s) == Conclude(meta, w, s, request, attempt, last);
    AttemptsAdvance(w, request, s.k + 2, w.retries);
    expired, notAvailable, k := attempt.OutOfTime?, attempt.GaveUp? && attempt.notAvailable, last;
  }

  lemma StepRight(meta: DeviceMeta, w: World, s: Sync, rings: seq<seq<Record>>, gone: Overwriting)
    requires Describes(meta, rings) && Honest(meta, w, rings, gone)
    requires Shaped(meta, s) && s.pending != [] && Accounts.Books(meta, s) && AllRight(s.records, rings)
    ensures AllRight(Step(meta, w, s).records, rings)
  {
    if Gets(meta, w, s) {
      var values, i := GotIs(meta, w, s, rings, gone, Step(meta, w, s));
      GotRight(s.records, Step(meta, w, s).records, s.pending[0], values, rings, i);
    } else {
      StepRecords(meta, w, s);
    }
  }

  lemma GotRight(records: map<(nat, u32), HistoryValue>, more: map<(nat, u32), HistoryValue>, y: nat, values: seq<HistoryValue>,
                 rings: seq<seq<Record>>, i: nat)
    requires |rings| == Device.SENSOR_COUNT && 1 <= y <= Device.SENSOR_COUNT && AllRight(records, rings)
    requires HeldFrom(rings[y - 1], i, values) && |rings[y - 1]| <= 0xFFFF && Device.Contiguous(rings[y - 1]) && more == Store(records, y, values)
    ensures AllRight(more, rings)
  {
    StoredRight(records, y, rings, i, |values|);
  }

  lemma StepRecords(meta: DeviceMeta, w: World, s: Sync)
    requires Shaped(meta, s) && s.pending != [] && !Gets(meta, w, s)
    ensures Step(meta, w, s).records == s.records
  {
  }

  /** Whatever fails: what is stored is right, and what is handled without being stored has been overwritten. */
  lemma {:induction false} RunFaithful(meta: DeviceMeta, w: World, s: Sync, rings: seq<seq<Record>>, gone: Overwriting)
    requires Describes(meta, rings) && Honest(meta, w, rings, gone) && Shaped(meta, s) && Accounts.Books(meta, s)
    requires Faithful(meta, s, rings, gone)
    ensures var t := RunLoop(meta, w, s); Faithful(meta, t, rings, gone) && Accounts.Books(meta, t)
    decreases Backlog(s.pending, s.remaining)
  {
    if Running(w, s) {
      StepProgress(meta, w, s);
      Accounts.StepBooks(meta, w, s);
      StepRight(meta, w, s, rings, gone);
      StepSettled(meta, w, s, rings, gone, 1);
      StepSettled(meta, w, s, rings, gone, 2);
      RunFaithful(meta, w, Step(meta, w, s), rings, gone);
    }
  }

  /** Records still to be fetched for a sensor. */
  function Due(t: Sync, x: nat): nat {
    if x in t.remaining then t.remaining[x] else 0
  }

  /** Nothing is stored that the ring did not hold. */
  ghost predicate FromRing(records: map<(nat, u32), HistoryValue>, x: nat, ring: seq<Record>) {
    Right(records, x, ring) && forall key :: key in records && key.0 == x ==> Holds(ring, key.1)
  }

  lemma StoredFromRing(meta: DeviceMeta, t: Sync, rings: seq<seq<Record>>, x: nat)
    requires Describes(meta, rings) && Shaped(meta, t) && Accounts.Books(meta, t) && 1 <= x <= Device.SENSOR_COUNT
    requires Right(t.records, x, rings[x - 1])
    ensures FromRing(t.records, x, rings[x - 1])
  {
    forall key | key in t.records && key.0 == x
      ensures Holds(rings[x - 1], key.1)
    {
      assert Sensor(meta, x) && Accounts.Balanced(meta, t, x);
      var l := Accounts.LedgerOf(t, x);
      assert key.1 in l.stored;
      NumberInRing(rings[x - 1], meta.oldest[x - 1], meta.counts[x - 1] - l.due, key.1);
    }
  }

  lemma NumberInRing(ring: seq<Record>, oldest: u32, handled: nat, q: u32)
    requires Device.Contiguous(ring) && oldest == Device.OldestOf(ring) && handled <= |ring| <= 0xFFFF
    requires q in Accounts.Numbers(oldest, handled)
    ensures Holds(ring, q)
  {
    Accounts.InNumbers(oldest, handled, q);
    NumberedFromOldest(ring, Wrap32(q - oldest));
    WrapReach(oldest, q);
  }

  lemma SettledDue(meta: DeviceMeta, t: Sync, rings: seq<seq<Record>>, gone: Overwriting, x: nat)
    requires Describes(meta, rings) && Shaped(meta, t) && 1 <= x <= Device.SENSOR_COUNT && Accounts.Books(meta, t)
    requires SettledFor(meta, t, x, rings[x - 1], gone)
    ensures Due(t, x) <= |rings[x - 1]|
    ensures Settled(t.records, x, rings[x - 1], |rings[x - 1]| - Due(t, x), gone(t.k, x))
  {
    if Sensor(meta, x) {
      assert Accounts.Balanced(meta, t, x);
      NextIs(meta, t, x);
    }
  }

  /**
   * Against any such device, whatever fails: everything stored is right, comes from the rings described
   * first, and of the records a sensor is through with, those not stored have been overwritten.
   */
  lemma TransferIsFaithful(meta: DeviceMeta, w: World, first: nat, rings: seq<seq<Record>>, gone: Overwriting, x: nat)
    requires Describes(meta, rings) && Honest(meta, w, rings, gone) && 1 <= x <= Device.SENSOR_COUNT
    ensures var t, ring := RunLoop(meta, w, Start(meta, first)), rings[x - 1];
            && FromRing(t.records, x, ring) && Due(t, x) <= |ring|
            && Settled(t.records, x, ring, |ring| - Due(t, x), gone(t.k, x))
  {
    StartedFaithful(meta, w, first, rings, gone);
    EndFaithful(meta, RunLoop(meta, w, Start(meta, first)), rings, gone, x);
  }

  lemma StartedFaithful(meta: DeviceMeta, w: World, first: nat, rings: seq<seq<Record>>, gone: Overwriting)
    requires Describes(meta, rings) && Honest(meta, w, rings, gone)
    ensures var t := RunLoop(meta, w, Start(meta, first)); Faithful(meta, t, rings, gone) && Accounts.Books(meta, t)
  {
    StartFaithful(meta, first, rings, gone);
    Accounts.StartBalanced(meta, first);
    RunFaithful(meta, w, Start(meta, first), rings, gone);
  }

  lemma EndFaithful(meta: DeviceMeta, t: Sync, rings: seq<seq<Record>>, gone: Overwriting, x: nat)
    requires Describes(meta, rings) && Shaped(meta, t) && 1 <= x <= Device.SENSOR_COUNT
    requires Faithful(meta, t, rings, gone) && Accounts.Books(meta, t)
    ensures var ring := rings[x - 1];
            && FromRing(t.records, x, ring) && Due(t, x) <= |ring|
            && Settled(t.records, x, ring, |ring| - Due(t, x), gone(t.k, x))
  {
    StoredFromRing(meta, t, rings, x);
    SettledDue(meta, t, rings, gone, x);
  }

  // --- Nothing is missing but what was overwritten -----------------------------------------------------

  /** The call brings the records asked for, or is refused because the first of them has been overwritten. */
  ghost predicate Served(w: World, request: ChunkRequest, k: nat, ring: seq<Record>, i: nat, gone: Overwriting) {
    Delivered(w.fetch(k, request), request, ring, i) || (w.fetch(k, request) == Raised(true) && i < gone(k, request.sensor))
  }

  ghost predicate ServedAt(w: World, request: ChunkRequest, k: nat, n: nat, ring: seq<Record>, i: nat, gone: Overwriting) {
    n <= w.retries && AllRetryable(w, request, k, n) && Served(w, request, k + n, ring, i, gone)
  }

  ghost predicate ServedSoon(w: World, request: ChunkRequest, k: nat, rings: seq<seq<Record>>, i: nat, gone: Overwriting)
    requires Seeks(request, rings, i)
  {
    var ring := rings[request.sensor - 1];
    exists n: nat :: ServedAt(w, request, k, n, ring, i, gone)
  }

  /** Within the retries every request gets through in time, as do the refreshes. */
  ghost predicate Reliable(w: World, rings: seq<seq<Record>>, gone: Overwriting) {
    && (forall k :: w.clock(k) < w.deadline)
    && (forall k :: w.refresh(k).Renewed?)
    && (forall k: nat, request: ChunkRequest, i: nat :: Seeks(request, rings, i) ==> ServedSoon(w, request, k, rings, i, gone))
  }

  /** A sensor that left the queue early has lost everything that was due. */
  ghost predicate DiligentFor(meta: DeviceMeta, s: Sync, x: nat, gone: Overwriting)
    requires Shaped(meta, s)
  {
    Sensor(meta, x) && s.remaining[x] > 0 && x !in s.pending ==> meta.counts[x - 1] <= gone(s.k, x)
  }

  ghost predicate Diligent(meta: DeviceMeta, s: Sync, gone: Overwriting)
    requires Shaped(meta, s)
  {
    !s.expired && DiligentFor(meta, s, 1, gone) && DiligentFor(meta, s, 2, gone)
  }

  /** The others stay in the queue, or out of it. */
  lemma OthersDiligent(meta: DeviceMeta, s: Sync, t: Sync, x: nat, gone: Overwriting)
    requires Grows(gone) && Shaped(meta, s) && Shaped(meta, t) && s.pending != [] && Turn(s, t) && s.k <= t.k
    requires x != s.pending[0] && DiligentFor(meta, s, x, gone)
    ensures DiligentFor(meta, t, x, gone)
  {
    assert gone(s.k, x) <= gone(t.k, x);
    if x in s.pending {
      assert x in s.pending[1..];
    }
  }

  lemma SoonServed(w: World, request: ChunkRequest, k: nat, rings: seq<seq<Record>>, i: nat, gone: Overwriting) returns (n: nat)
    requires Reliable(w, rings, gone) && Seeks(request, rings, i)
    ensures ServedAt(w, request, k, n, rings[request.sensor - 1], i, gone) && w.clock(k + n) < w.deadline
  {
    assert ServedSoon(w, request, k, rings, i, gone);
    var ring := rings[request.sensor - 1];
    n :| ServedAt(w, request, k, n, ring, i, gone);
  }

  /** In a reliable world one of its calls decides a turn: it brings a chunk, or the records asked for have been overwritten. */
  lemma ReliableTurn(meta: DeviceMeta, w: World, s: Sync, rings: seq<seq<Record>>, gone: Overwriting)
    requires Describes(meta, rings) && Honest(meta, w, rings, gone) && Reliable(w, rings, gone)
    requires Shaped(meta, s) && s.pending != [] && Accounts.Books(meta, s)
    ensures Sensor(meta, s.pending[0])
    ensures var request, y := RequestFor(w, meta, s), s.pending[0];
            var (attempt, k) := Attempts(w, request, s.k + 2, w.retries);
            && k >= s.k + 3 && (attempt.Got? || attempt == GaveUp(true))
            && (attempt == GaveUp(true) ==> Handled(meta, s, y) < gone(k - 1, y))
  {
    var request := RequestFor(w, meta, s);
    NextSought(meta, w, s, rings);
    var n := SoonServed(w, request, s.k + 2, rings, Handled(meta, s, s.pending[0]), gone);
    FirstDecides(w, request, s.k + 2, w.retries, n);
  }

  lemma FrontDiligent(meta: DeviceMeta, w: World, s: Sync, rings: seq<seq<Record>>, gone: Overwriting)
    requires Describes(meta, rings) && Honest(meta, w, rings, gone) && Reliable(w, rings, gone)
    requires Shaped(meta, s) && s.pending != [] && Accounts.Books(meta, s) && Shaped(meta, Step(meta, w, s))
    ensures Sensor(meta, s.pending[0]) && DiligentFor(meta, Step(meta, w, s), s.pending[0], gone)
    ensures Step(meta, w, s).expired == s.expired && s.k <= Step(meta, w, s).k
  {
    ReliableTurn(meta, w, s, rings, gone);
    if Gets(meta, w, s) {
      var chunk := GotStep(meta, w, s, Step(meta, w, s));
    } else {
      var expired, notAvailable, k := LeftStep(meta, w, s);
      RefusedDiligent(meta, w, s, RequestFor(w, meta, s), k, Step(meta, w, s), rings, gone);
    }
  }

  lemma RefusedDiligent(meta: DeviceMeta, w: World, s: Sync, request: ChunkRequest, k: nat, t: Sync, rings: seq<seq<Record>>, gone: Overwriting)
    requires Describes(meta, rings) && Honest(meta, w, rings, gone)
    requires w.clock(k) < w.deadline && w.clock(k + 1) < w.deadline && w.refresh(k + 1).Renewed?
    requires Shaped(meta, s) && s.pending != [] && request == RequestFor(w, meta, s) && Accounts.Books(meta, s)
    requires t == GiveUp(meta, w, s, request, true, k) && Shaped(meta, t)
    requires s.k < k && Sensor(meta, s.pending[0]) && Handled(meta, s, s.pending[0]) < gone(k - 1, s.pending[0])
    ensures DiligentFor(meta, t, s.pending[0], gone) && t.expired == s.expired && s.k <= t.k
  {
    SalvageIsExact(meta, w, s, request, k, rings, gone);
    GiveUpInTime(meta, w, s, request, k);
    LaterGone(gone, s.pending[0], k - 1, k + 1, k + 2);
  }

  lemma GiveUpInTime(meta: DeviceMeta, w: World, s: Sync, request: ChunkRequest, k: nat)
    requires Shaped(meta, s) && s.pending != [] && request.sensor == s.pending[0]
    ensures GiveUp(meta, w, s, request, true, k).expired == s.expired
  {
  }

  lemma LaterGone(gone: Overwriting, x: nat, i: nat, j: nat, k: nat)
    requires Grows(gone) && i <= j <= k
    ensures gone(i, x) <= gone(j, x) <= gone(k, x)
  {
  }

  lemma StepDiligent(meta: DeviceMeta, w: World, s: Sync, rings: seq<seq<Record>>, gone: Overwriting, x: nat)
    requires Describes(meta, rings) && Honest(meta, w, rings, gone) && Reliable(w, rings, gone)
    requires Shaped(meta, s) && s.pending != [] && Accounts.Books(meta, s) && DiligentFor(meta, s, x, gone)
    requires Shaped(meta, Step(meta, w, s)) && Turn(s, Step(meta, w, s))
    ensures DiligentFor(meta, Step(meta, w, s), x, gone) && Step(meta, w, s).expired == s.expired
  {
    FrontDiligent(meta, w, s, rings, gone);
    if x != s.pending[0] {
      OthersDiligent(meta, s, Step(meta, w, s), x, gone);
    }
  }

  lemma {:induction false} RunDiligent(meta: DeviceMeta, w: World, s: Sync, rings: seq<seq<Record>>, gone: Overwriting)
    requires Describes(meta, rings) && Honest(meta, w, rings, gone) && Reliable(w, rings, gone)
    requires Shaped(meta, s) && Accounts.Books(meta, s) && Diligent(meta, s, gone)
    ensures var t := RunLoop(meta, w, s); Diligent(meta, t, gone) && t.pending == []
    decreases Backlog(s.pending, s.remaining)
  {
    if Running(w, s) {
      StepProgress(meta, w, s);
      Accounts.StepBooks(meta, w, s);
      StepDiligent(meta, w, s, rings, gone, 1);
      StepDiligent(meta, w, s, rings, gone, 2);
      RunDiligent(meta, w, Step(meta, w, s), rings, gone);
    }
  }

  lemma StartedDiligent(meta: DeviceMeta, w: World, first: nat, rings: seq<seq<Record>>, gone: Overwriting)
    requires Describes(meta, rings) && Honest(meta, w, rings, gone) && Reliable(w, rings, gone)
    ensures var t := RunLoop(meta, w, Start(meta, first)); Diligent(meta, t, gone) && t.pending == []
  {
    Accounts.StartBalanced(meta, first);
    RunDiligent(meta, w, Start(meta, first), rings, gone);
  }

  lemma SensorDone(meta: DeviceMeta, t: Sync, rings: seq<seq<Record>>, gone: Overwriting, x: nat)
    requires Describes(meta, rings) && Shaped(meta, t) && 1 <= x <= Device.SENSOR_COUNT && t.pending == []
    requires Diligent(meta, t, gone) && AllSettled(meta, t, rings, gone)
    ensures Settled(t.records, x, rings[x - 1], |rings[x - 1]|, gone(t.k, x))
  {
    assert DiligentFor(meta, t, x, gone) && SettledFor(meta, t, x, rings[x - 1], gone);
  }

  /**
   * Against a device whose rings go on and are frozen anew at any time, when every request gets
   * through within its retries: at the end each record of the rings described first is stored unless the device has
   * overwritten it.
   */
  lemma MissingIsOverwritten(meta: DeviceMeta, w: World, first: nat, rings: seq<seq<Record>>, gone: Overwriting, x: nat)
    requires Describes(meta, rings) && Honest(meta, w, rings, gone) && Reliable(w, rings, gone) && 1 <= x <= Device.SENSOR_COUNT
    ensures var t := RunLoop(meta, w, Start(meta, first));
            && t.pending == [] && !t.expired
            && Settled(t.records, x, rings[x - 1], |rings[x - 1]|, gone(t.k, x))
  {
    StartedFaithful(meta, w, first, rings, gone);
    StartedDiligent(meta, w, first, rings, gone);
    SensorDone(meta, RunLoop(meta, w, Start(meta, first)), rings, gone, x);
  }
}
