/** One turn of the transfer, told by the answers to its calls (backend/pc_client/history_sync.py). */
module Retries {
  import opened Words
  import opened ProtocolClient
  import opened HistorySync
  import Device

  // --- How a call may go ------------------------------------------------------------------

  /** Made in time, but failed in a way that repeating it may mend. */
  predicate Retryable(w: World, request: ChunkRequest, k: nat) {
    && w.clock(k) < w.deadline
    && match w.fetch(k, request)
       case TimedOut => false
       case Arrived(chunk) => !Acceptable(chunk, request)
       case Raised(notAvailable) => !notAvailable
  }

  /** Made in time, and answered with an acceptable chunk. */
  predicate Good(w: World, request: ChunkRequest, k: nat) {
    w.clock(k) < w.deadline && w.fetch(k, request).Arrived? && Acceptable(w.fetch(k, request).chunk, request)
  }

  /** Made in time, and the device no longer has the record. */
  predicate Refused(w: World, request: ChunkRequest, k: nat) {
    w.clock(k) < w.deadline && w.fetch(k, request) == Raised(true)
  }

  /** Too late, or not answered in time. */
  predicate Late(w: World, request: ChunkRequest, k: nat) {
    w.clock(k) >= w.deadline || w.fetch(k, request).TimedOut?
  }

  predicate AllRetryable(w: World, request: ChunkRequest, k: nat, n: nat) {
    forall i :: k <= i < k + n ==> Retryable(w, request, i)
  }

  /**
   * The first call that cannot be mended by repeating it decides the turn, if the retries reach it;
   * otherwise the turn gives up after its first call and all its retries.
   */
  lemma {:induction false} FirstDecides(w: World, request: ChunkRequest, k: nat, left: nat, n: nat)
    requires n <= left + 1 && AllRetryable(w, request, k, n)
    ensures n <= left && Good(w, request, k + n) ==>
              Attempts(w, request, k, left) == (Got(w.fetch(k + n, request).chunk), k + n + 1)
    ensures n <= left && Refused(w, request, k + n) ==> Attempts(w, request, k, left) == (GaveUp(true), k + n + 1)
    ensures n <= left && Late(w, request, k + n) ==> Attempts(w, request, k, left) == (OutOfTime, k + n + 1)
    ensures n > left ==> Attempts(w, request, k, left) == (GaveUp(false), k + left + 1)
    decreases left
  {
    if n > 0 {
      assert Retryable(w, request, k);
      if left > 0 {
        FirstDecides(w, request, k + 1, left - 1, n - 1);
      }
    }
  }

  /** There is such a call, or there is not; and it is of one of the three kinds. */
  lemma {:induction false} SomeDecides(w: World, request: ChunkRequest, k: nat, left: nat) returns (n: nat)
    ensures n <= left + 1 && AllRetryable(w, request, k, n)
    ensures n <= left ==> Good(w, request, k + n) || Refused(w, request, k + n) || Late(w, request, k + n)
    decreases left
  {
    if !Retryable(w, request, k) {
      n := 0;
    } else if left == 0 {
      n := 1;
    } else {
      n := SomeDecides(w, request, k + 1, left - 1);
      n := n + 1;
    }
  }

  lemma AttemptsAdvance(w: World, request: ChunkRequest, k: nat, left: nat)
    ensures k < Attempts(w, request, k, left).1 <= k + left + 1
  {
    var n := SomeDecides(w, request, k, left);
    FirstDecides(w, request, k, left, n);
  }

  /** A chunk that is accepted came in time, with one of the calls of its turn. */
  lemma GotFrom(w: World, request: ChunkRequest, k: nat, left: nat) returns (n: nat)
    requires Attempts(w, request, k, left).0.Got?
    ensures n <= left && AllRetryable(w, request, k, n) && Good(w, request, k + n)
    ensures Attempts(w, request, k, left) == (Got(w.fetch(k + n, request).chunk), k + n + 1)
  {
    n := SomeDecides(w, request, k, left);
    FirstDecides(w, request, k, left, n);
  }

  // --- The turn as a whole -----------------------------------------------------------------

  /** The front sensor's next records: as many as a chunk may carry now, or all that are left if these are fewer. */
  predicate Asked(w: World, s: Sync, request: ChunkRequest) {
    && s.pending != [] && s.pending[0] in s.remaining && s.pending[0] in s.next
    && request.sensor == s.pending[0] && request.start == s.next[s.pending[0]]
    && request.count <= w.chunkSize(s.k + 1) && request.count <= s.remaining[s.pending[0]]
    && (request.count == w.chunkSize(s.k + 1) || request.count == s.remaining[s.pending[0]])
  }

  lemma AskedIs(meta: DeviceMeta, w: World, s: Sync, request: ChunkRequest)
    requires Shaped(meta, s) && Asked(w, s, request)
    ensures request == RequestFor(w, meta, s)
  {
  }

  lemma StepIs(meta: DeviceMeta, w: World, s: Sync, request: ChunkRequest, attempt: Attempt, k: nat)
    requires Shaped(meta, s) && Asked(w, s, request) && (attempt, k) == Attempts(w, request, s.k + 2, w.retries)
    ensures Step(meta, w, s) == Conclude(meta, w, s, request, attempt, k)
  {
    AskedIs(meta, w, s, request);
  }

  /** The chunk that decides a turn is the one it accepts. */
  lemma GoodTurn(meta: DeviceMeta, w: World, s: Sync, request: ChunkRequest, n: nat, chunk: HistoryChunk)
    requires Shaped(meta, s) && Asked(w, s, request) && n <= w.retries && AllRetryable(w, request, s.k + 2, n)
    requires Good(w, request, s.k + 2 + n) && w.fetch(s.k + 2 + n, request) == Arrived(chunk)
    ensures Step(meta, w, s) == Accept(meta, s, request, chunk, s.k + 3 + n)
  {
    FirstDecides(w, request, s.k + 2, w.retries, n);
    StepIs(meta, w, s, request, Got(chunk), s.k + 3 + n);
  }

  /** The sensor leaves the queue, or goes to its end. */
  ghost predicate Left(s: Sync, t: Sync, back: bool)
    requires s.pending != []
  {
    t.pending == s.pending[1..] + (if back then [s.pending[0]] else [])
  }

  /** Nothing has been stored or written off. */
  ghost predicate Untouched(s: Sync, t: Sync) {
    t.records == s.records && t.remaining == s.remaining && t.next == s.next && t.retrieved == s.retrieved
  }

  /** The values are stored under their sensor and number, and nothing else changes. */
  ghost predicate Stored(before: map<(nat, u32), HistoryValue>, x: nat, values: seq<HistoryValue>, after: map<(nat, u32), HistoryValue>) {
    && (forall i :: 0 <= i < |values| ==> (x, values[i].sequence) in after && after[(x, values[i].sequence)] == values[i])
    && (forall key :: key in after ==> (key in before && after[key] == before[key]) || Among(key, x, values))
    && (forall key :: key in before ==> key in after)
  }

  ghost predicate Among(key: (nat, u32), x: nat, values: seq<HistoryValue>) {
    exists i :: 0 <= i < |values| && key == (x, values[i].sequence)
  }

  lemma {:induction false} StoreIs(records: map<(nat, u32), HistoryValue>, x: nat, values: seq<HistoryValue>)
    requires forall i, j :: 0 <= i < j < |values| ==> values[i].sequence != values[j].sequence
    ensures Stored(records, x, values, Store(records, x, values))
  {
    if values != [] {
      var n := |values| - 1;
      StoreIs(records, x, values[..n]);
      var front, all := Store(records, x, values[..n]), Store(records, x, values);
      assert values[..n][..] == values[..n];
      forall i | 0 <= i < |values|
        ensures (x, values[i].sequence) in all && all[(x, values[i].sequence)] == values[i]
      {
        if i < n {
          assert values[..n][i] == values[i];
        }
      }
      forall key | key in all
        ensures (key in records && all[key] == records[key]) || Among(key, x, values)
      {
        if key != (x, values[n].sequence) && Among(key, x, values[..n]) {
          var i :| 0 <= i < n && key == (x, values[..n][i].sequence);
          assert key == (x, values[i].sequence);
        }
      }
    }
  }

  lemma NumberedApart(values: seq<HistoryValue>, start: u32)
    requires Numbered(values, start) && |values| <= TWO32
    ensures forall i, j :: 0 <= i < j < |values| ==> values[i].sequence != values[j].sequence
  {
    forall i, j | 0 <= i < j < |values|
      ensures values[i].sequence != values[j].sequence
    {
      WrapShift(start + j, start + i);
    }
  }

  /** The chunk answers the request with the numbers start, start + 1, ... modulo 2^32. */
  ghost predicate Answers(chunk: HistoryChunk, request: ChunkRequest) {
    && chunk.sensor == request.sensor && chunk.start == request.start
    && 0 < |chunk.records| <= request.count
    && forall i :: 0 <= i < |chunk.records| ==> chunk.records[i].sequence == (request.start + i) % 0x1_0000_0000
  }

  /**
   * If one of the calls that the retries allow brings the answer, in time, and each call before it
   * could be repeated, the turn stores exactly this answer, and the sensor goes on behind it.
   */
  lemma TurnStores(meta: DeviceMeta, w: World, s: Sync, request: ChunkRequest, n: nat, chunk: HistoryChunk)
    requires Shaped(meta, s) && Asked(w, s, request) && s.remaining[request.sensor] <= meta.counts[request.sensor - 1]
    requires n <= w.retries && AllRetryable(w, request, s.k + 2, n)
    requires w.clock(s.k + 2 + n) < w.deadline && w.fetch(s.k + 2 + n, request) == Arrived(chunk) && Answers(chunk, request)
    ensures var x, t := s.pending[0], Step(meta, w, s);
            var due := s.remaining[x] - |chunk.records|;
            && Stored(s.records, x, chunk.records, t.records)
            && t.remaining == s.remaining[x := due]
            && t.next == s.next[x := (request.start + |chunk.records|) % 0x1_0000_0000]
            && t.retrieved == s.retrieved[x - 1 := s.retrieved[x - 1] + |chunk.records|]
            && Left(s, t, due > 0) && t.failures == s.failures && t.expired == s.expired && t.k == s.k + 3 + n
  {
    GoodTurn(meta, w, s, request, n, chunk);
    NumberedApart(chunk.records, request.start);
    StoreIs(s.records, request.sensor, chunk.records);
  }

  /** If every call allowed fails like this, the turn gives up after the first call and all retries. */
  lemma TurnGivesUp(meta: DeviceMeta, w: World, s: Sync, request: ChunkRequest)
    requires Shaped(meta, s) && Asked(w, s, request) && AllRetryable(w, request, s.k + 2, w.retries + 1)
    ensures var t := Step(meta, w, s);
            && Untouched(s, t) && Left(s, t, false) && t.failures == s.failures + [ChunkFailed(s.pending[0])]
            && t.expired == s.expired && t.k == s.k + 3 + w.retries
  {
    FirstDecides(w, request, s.k + 2, w.retries, w.retries + 1);
    StepIs(meta, w, s, request, GaveUp(false), s.k + 3 + w.retries);
  }

  /** If time runs out first, the transfer ends with this turn. */
  lemma TurnRunsOut(meta: DeviceMeta, w: World, s: Sync, request: ChunkRequest, n: nat)
    requires Shaped(meta, s) && Asked(w, s, request)
    requires n <= w.retries && AllRetryable(w, request, s.k + 2, n) && Late(w, request, s.k + 2 + n)
    ensures var t := Step(meta, w, s);
            && Untouched(s, t) && Left(s, t, false) && t.failures == s.failures && t.expired && t.k == s.k + 3 + n
            && RunLoop(meta, w, t) == t
  {
    FirstDecides(w, request, s.k + 2, w.retries, n);
    StepIs(meta, w, s, request, OutOfTime, s.k + 3 + n);
  }

  /** What becomes of the turn when the device no longer has the record, reported with interaction `k - 1`. */
  ghost predicate RefusedEnd(meta: DeviceMeta, w: World, s: Sync, k: nat, t: Sync)
    requires Shaped(meta, s) && s.pending != []
  {
    var x := s.pending[0];
    && t.records == s.records && t.retrieved == s.retrieved && t.expired == s.expired
    && if w.clock(k) >= w.deadline then
         Untouched(s, t) && Left(s, t, false) && t.failures == s.failures + [ChunkFailed(x)] && t.k == k + 1
       else if w.clock(k + 1) >= w.deadline || w.refresh(k + 1).RefreshRaised? then
         Untouched(s, t) && Left(s, t, false) && t.failures == s.failures + [RefreshFailed(x), ChunkFailed(x)] && t.k == k + 2
       else
         var renewed := w.refresh(k + 1).meta;
         var lost := (renewed.oldest[x - 1] as int - s.next[x]) % 0x1_0000_0000;
         && t.k == k + 2
         && if renewed.bootId == meta.bootId && 0 < lost < s.remaining[x] then
              && t.remaining == s.remaining[x := s.remaining[x] - lost] && t.next == s.next[x := renewed.oldest[x - 1]]
              && Left(s, t, true) && t.failures == s.failures + [LostRecords(x, lost)]
            else Untouched(s, t) && Left(s, t, false) && t.failures == s.failures + [ChunkFailed(x)]
  }

  /** A refusal is not repeated: new metadata, in time, decides between going on behind the gap and dropping the sensor. */
  lemma TurnRefused(meta: DeviceMeta, w: World, s: Sync, request: ChunkRequest, n: nat, t: Sync)
    requires Shaped(meta, s) && Asked(w, s, request) && t == Step(meta, w, s)
    requires n <= w.retries && AllRetryable(w, request, s.k + 2, n) && Refused(w, request, s.k + 2 + n)
    ensures RefusedEnd(meta, w, s, s.k + 3 + n, t)
  {
    assert t == GiveUp(meta, w, s, request, true, s.k + 3 + n) by {
      FirstDecides(w, request, s.k + 2, w.retries, n);
      StepIs(meta, w, s, request, GaveUp(true), s.k + 3 + n);
    }
    RefusedEnds(meta, w, s, request, s.k + 3 + n, t);
  }

  lemma RefusedEnds(meta: DeviceMeta, w: World, s: Sync, request: ChunkRequest, k: nat, t: Sync)
    requires Shaped(meta, s) && Asked(w, s, request) && t == GiveUp(meta, w, s, request, true, k)
    ensures RefusedEnd(meta, w, s, k, t)
  {
  }

  /** Every turn goes in one of these four ways. */
  lemma TurnDecided(meta: DeviceMeta, w: World, s: Sync, request: ChunkRequest) returns (n: nat)
    requires Shaped(meta, s) && Asked(w, s, request)
    ensures n <= w.retries + 1 && AllRetryable(w, request, s.k + 2, n)
    ensures n <= w.retries ==>
              || (w.clock(s.k + 2 + n) < w.deadline && w.fetch(s.k + 2 + n, request).Arrived?
                  && Answers(w.fetch(s.k + 2 + n, request).chunk, request))
              || Refused(w, request, s.k + 2 + n) || Late(w, request, s.k + 2 + n)
  {
    n := SomeDecides(w, request, s.k + 2, w.retries);
  }

  /** No turn begins after the deadline; before it, the first of the queue has its turn. */
  lemma LoopGoesOn(meta: DeviceMeta, w: World, s: Sync)
    requires Shaped(meta, s)
    ensures s.pending == [] || s.expired || w.clock(s.k) >= w.deadline ==> RunLoop(meta, w, s) == s
    ensures s.pending != [] && !s.expired && w.clock(s.k) < w.deadline ==>
              Shaped(meta, Step(meta, w, s)) && RunLoop(meta, w, s) == RunLoop(meta, w, Step(meta, w, s))
  {
    if s.pending != [] {
      StepProgress(meta, w, s);
    }
  }

  lemma FrontAsks(meta: DeviceMeta, w: World, s: Sync)
    requires Shaped(meta, s) && s.pending != []
    ensures Asked(w, s, RequestFor(w, meta, s))
  {
  }
}
