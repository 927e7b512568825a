/** The drift-free polling loop (backend/pc_client/ble_service.py, `_poll_current`). */
module PollSchedule {

  /** How a due slot's request ends: published, an exception before anything was published, or cancelled. */
  datatype Poll = Delivered | Failed | Aborted

  /**
   * What the loop meets. `tick` is how far the clock moves between two readings, beyond a sleep asked
   * for in between: negative values stand for early wake-ups or a clock set back. The rest is indexed
   * by slot number.
   */
  datatype World = World(tick: nat -> int, started: nat -> bool, ready: nat -> bool, poll: nat -> Poll)

  datatype Reason = MissedDeadline | RequestFailed | NotConnected

  /** What is published for one slot; `seen` is the clock reading that decided it. */
  datatype Outcome = Live(seen: int) | Provisional(at: int, reason: Reason, seen: int)

  /** Where the loop starts on the monotonic clock and in UTC, and its period. */
  datatype Schedule = Schedule(anchor: int, utc: int, interval: int)

  function Due(s: Schedule, slot: int): int {
    s.anchor + slot * s.interval
  }

  /** What may be published for a slot, and when. */
  predicate Fits(w: World, s: Schedule, slot: nat, o: Outcome) {
    match o
    case Live(seen) => w.ready(slot) && w.poll(slot) == Delivered && seen < Due(s, slot + 1)
    case Provisional(at, reason, seen) =>
      && at == s.utc + slot * s.interval
      && match reason
         case MissedDeadline => Due(s, slot + 1) <= seen
         case RequestFailed => w.ready(slot) && w.poll(slot) == Failed && seen < Due(s, slot + 1)
         case NotConnected => !w.ready(slot) && seen < Due(s, slot + 1)
  }

  /** The log holds one outcome each for slots 1, 2, 3, ... */
  ghost predicate Scheduled(w: World, s: Schedule, log: seq<Outcome>) {
    forall i :: 0 <= i < |log| ==> Fits(w, s, i + 1, log[i])
  }

  /** The clock never goes back and no sleep ends early. */
  ghost predicate Steady(w: World) {
    forall k :: w.tick(k) >= 0
  }

  ghost predicate Punctual(s: Schedule, log: seq<Outcome>) {
    forall i :: 0 <= i < |log| ==> Due(s, i + 1) <= log[i].seen
  }

  /** How far the clock has moved by itself over the first `n` readings. */
  function Ticks(w: World, n: nat): int {
    if n == 0 then 0 else Ticks(w, n - 1) + w.tick(n - 1)
  }

  /** No decision is taken later than the clock has moved by itself. */
  ghost predicate NoLater(w: World, s: Schedule, log: seq<Outcome>) {
    forall i :: 0 <= i < |log| ==> log[i].seen <= Due(s, i + 1) + Ticks(w, 3 * i + 2)
  }

  /** A clock that moves by less than the interval over any three readings: nothing stalls for a whole slot. */
  ghost predicate Brisk(w: World, s: Schedule) {
    Steady(w) && forall k :: NoStall(w, s, k)
  }

  predicate NoStall(w: World, s: Schedule, k: nat) {
    w.tick(k) + w.tick(k + 1) + w.tick(k + 2) < s.interval
  }

  /** Each slot is decided when it is due, but for the wake-up. */
  ghost predicate OnTime(w: World, s: Schedule, log: seq<Outcome>) {
    forall i :: 0 <= i < |log| ==> log[i].seen == Due(s, i + 1) + w.tick(3 * i + 1)
  }

  lemma {:induction false} TicksGrow(w: World, m: nat, n: nat)
    requires Steady(w) && m <= n
    ensures Ticks(w, m) <= Ticks(w, n)
  {
    if m < n {
      TicksGrow(w, m, n - 1);
      assert w.tick(n - 1) >= 0;
    }
  }

  lemma NextDue(s: Schedule, slot: int)
    ensures Due(s, slot + 1) == Due(s, slot) + s.interval
  {
  }

  /** Where the loop stands when `k` readings have been taken and slots 1 to `n` are decided. */
  ghost predicate Lagging(w: World, s: Schedule, n: nat, k: nat, now: int) {
    k <= 3 * n && (Steady(w) ==> now <= Due(s, n) + Ticks(w, k))
  }

  ghost predicate Keeping(w: World, s: Schedule, n: nat, k: nat, now: int) {
    k == 3 * n && now == Due(s, n) + (if n == 0 then 0 else w.tick(3 * n - 2) + w.tick(3 * n - 1))
  }

  /** After the pause for the next slot. */
  ghost predicate Woken(w: World, s: Schedule, n: nat, k: nat, now: int) {
    && 0 < k <= 3 * n + 2
    && (Steady(w) ==> Due(s, n + 1) <= now <= Due(s, n + 1) + Ticks(w, k))
    && (Brisk(w, s) ==> k == 3 * n + 2 && now == Due(s, n + 1) + w.tick(3 * n + 1))
  }

  lemma PauseWakes(w: World, s: Schedule, n: nat, k: nat, now: int, pause: int)
    requires s.interval > 0 && Lagging(w, s, n, k, now) && (Brisk(w, s) ==> Keeping(w, s, n, k, now))
    requires pause == if Due(s, n + 1) - (now + w.tick(k)) > 0 then Due(s, n + 1) - (now + w.tick(k)) else 0
    ensures Woken(w, s, n, k + 2, now + w.tick(k) + pause + w.tick(k + 1))
  {
    NextDue(s, n);
    if Steady(w) {
      assert w.tick(k) >= 0 && w.tick(k + 1) >= 0;
      TicksGrow(w, 0, k);
    }
    if Brisk(w, s) {
      if n == 0 {
        assert NoStall(w, s, 0) && w.tick(1) >= 0 && w.tick(2) >= 0;
      } else {
        assert NoStall(w, s, 3 * n - 2);
      }
    }
  }

  /** In a brisk world a slot is decided before the next one is due. */
  lemma BriskIsBeforeNext(w: World, s: Schedule, n: nat, k: nat, now: int)
    requires Brisk(w, s) && Woken(w, s, n, k, now)
    ensures now < Due(s, n + 2)
  {
    NextDue(s, n + 1);
    var t := 3 * n + 1;
    assert NoStall(w, s, t) && w.tick(t + 1) >= 0 && w.tick(t + 2) >= 0;
  }

  /** Every outcome so far fits its slot and was decided in its time. */
  ghost predicate Logged(w: World, s: Schedule, log: seq<Outcome>) {
    Scheduled(w, s, log) && (Steady(w) ==> Punctual(s, log) && NoLater(w, s, log)) && (Brisk(w, s) ==> OnTime(w, s, log))
  }

  /** One more outcome, decided at a reading of the clock. */
  lemma Decided(w: World, s: Schedule, log: seq<Outcome>, o: Outcome, k: nat)
    requires Woken(w, s, |log|, k, o.seen) && Logged(w, s, log) && Fits(w, s, |log| + 1, o)
    ensures Logged(w, s, log + [o])
  {
    if Steady(w) {
      TicksGrow(w, k, 3 * |log| + 2);
    }
  }

  lemma MissedWoken(w: World, s: Schedule, n: nat, k: nat, now: int)
    requires s.interval > 0 && Woken(w, s, n, k, now) && Due(s, n + 2) <= now
    ensures Woken(w, s, n + 1, k + 1, now + w.tick(k))
  {
    NextDue(s, n + 1);
    if Steady(w) {
      assert w.tick(k) >= 0;
    }
    if Brisk(w, s) {
      BriskIsBeforeNext(w, s, n, k, now);
    }
  }

  lemma SlotDone(w: World, s: Schedule, n: nat, k: nat, now: int)
    requires Woken(w, s, n, k, now)
    ensures Lagging(w, s, n + 1, k + 1, now + w.tick(k))
    ensures Brisk(w, s) ==> Keeping(w, s, n + 1, k + 1, now + w.tick(k))
  {
  }

  /** The inner loop: slots whose successor is due already are given up one by one. */
  method SkipMissed(w: World, s: Schedule, limit: nat, log: seq<Outcome>, due: int, woken: int, readings: nat)
    returns (longer: seq<Outcome>, next: int, now: int, k: nat)
    requires s.interval > 0 && |log| <= limit && Logged(w, s, log)
    requires due == Due(s, |log| + 1) && Woken(w, s, |log|, readings, woken)
    ensures log <= longer && |longer| <= limit && Logged(w, s, longer)
    ensures forall i :: |log| <= i < |longer| ==> longer[i].Provisional? && longer[i].reason == MissedDeadline
    ensures next == Due(s, |longer| + 1) && Woken(w, s, |longer|, k, now)
    ensures |longer| < limit ==> now < Due(s, |longer| + 2)
  {
    longer, next, now, k := log, due, woken, readings;
    while |longer| < limit && next + s.interval <= now
      invariant log <= longer && |longer| <= limit && Logged(w, s, longer) && next == Due(s, |longer| + 1)
      invariant forall i :: |log| <= i < |longer| ==> longer[i].Provisional? && longer[i].reason == MissedDeadline
      invariant Woken(w, s, |longer|, k, now)
      decreases limit - |longer|
    {
      var missed := Provisional(s.utc + (next - s.anchor), MissedDeadline, now);
      NextDue(s, |longer| + 1);
      Decided(w, s, longer, missed, k);
      MissedWoken(w, s, |longer|, k, now);
      longer := longer + [missed];
      next := next + s.interval;
      now, k := now + w.tick(k), k + 1;
    }
    NextDue(s, |longer| + 1);
  }

  /**
   * The loop up to its first `limit` outcomes, or its end. However long sleeps, requests and stalls
   * take, every slot gets exactly one outcome, in order, dated by multiples of the interval; a
   * sample is requested only before the next slot is due, and a slot is skipped only after that. With
   * a clock that does not go back no slot is decided before it is due, or later than the clock has moved
   * by itself, and without stalls of a whole interval each one when it is due. The loop ends only when
   * the service stops or a request is cancelled.
   */
  method PollCurrent(w: World, s: Schedule, limit: nat) returns (log: seq<Outcome>)
    requires s.interval > 0
    ensures |log| <= limit && Scheduled(w, s, log)
    ensures Steady(w) ==> Punctual(s, log) && NoLater(w, s, log)
    ensures Brisk(w, s) ==> OnTime(w, s, log)
    ensures |log| < limit ==>
              var slot := |log| + 1; !w.started(slot) || (w.ready(slot) && w.poll(slot) == Aborted)
  {
    var k, now, next := 0, s.anchor, s.anchor + s.interval;
    log := [];
    while |log| < limit && w.started(|log| + 1)
      invariant |log| <= limit && Logged(w, s, log) && next == Due(s, |log| + 1)
      invariant Lagging(w, s, |log|, k, now) && (Brisk(w, s) ==> Keeping(w, s, |log|, k, now))
      decreases limit - |log|
    {
      var pause := if next - (now + w.tick(k)) > 0 then next - (now + w.tick(k)) else 0;
      PauseWakes(w, s, |log|, k, now, pause);
      now, k := now + w.tick(k), k + 1;
      now, k := now + pause + w.tick(k), k + 1;
      log, next, now, k := SkipMissed(w, s, limit, log, next, now, k);
      if |log| == limit {
        return;
      }
      NextDue(s, |log| + 1);
      var slot, scheduled := |log| + 1, s.utc + (next - s.anchor);
      var outcome: Outcome;
      if w.ready(slot) {
        match w.poll(slot) {
          case Delivered => outcome := Live(now);
          case Failed => outcome := Provisional(scheduled, RequestFailed, now);
          case Aborted => return;
        }
      } else {
        outcome := Provisional(scheduled, NotConnected, now);
      }
      Decided(w, s, log, outcome, k);
      SlotDone(w, s, |log|, k, now);
      log := log + [outcome];
      next := next + s.interval;
      now, k := now + w.tick(k), k + 1;
    }
  }

  /** Without stalls of a whole interval a slot is live exactly if the device is connected and the request succeeds, and none is skipped. */
  lemma BriskIsLive(w: World, s: Schedule, log: seq<Outcome>, i: nat)
    requires s.interval > 0 && Brisk(w, s) && Scheduled(w, s, log) && OnTime(w, s, log) && i < |log|
    ensures log[i].Live? <==> w.ready(i + 1) && w.poll(i + 1) == Delivered
    ensures log[i].Provisional? ==> log[i].reason != MissedDeadline
  {
    var t := 3 * i + 1;
    assert Fits(w, s, i + 1, log[i]);
    NextDue(s, i + 1);
    assert NoStall(w, s, t) && w.tick(t + 1) >= 0 && w.tick(t + 2) >= 0;
  }

  lemma DueIncreases(s: Schedule, i: int, j: int)
    requires s.interval > 0 && i <= j
    ensures Due(s, i) <= Due(s, j)
  {
    assert (j - i) * s.interval >= 0;
    assert j * s.interval - i * s.interval == (j - i) * s.interval;
  }

  /** Requests never bunch up: each falls into its own slot, so no two share an interval. */
  lemma OneRequestPerSlot(w: World, s: Schedule, log: seq<Outcome>, i: nat, j: nat)
    requires s.interval > 0 && Scheduled(w, s, log) && Punctual(s, log) && i < j < |log|
    requires !(log[i].Provisional? && log[i].reason == MissedDeadline)
    ensures Due(s, i + 1) <= log[i].seen < Due(s, j + 1) <= log[j].seen
  {
    assert Fits(w, s, i + 1, log[i]);
    DueIncreases(s, i + 2, j + 1);
  }
}
