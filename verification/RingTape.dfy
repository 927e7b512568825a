/** The device's rings over time, as windows on one growing tape of samples (firmware/main/src/thermometer.c). */
module RingTapes {
  import opened Words
  import opened HistoryBuffers
  import opened Device

  /** Sensor `i`'s live ring at some moment, and everything sampled since. */
  function Tape(s: State, events: seq<Event>, i: nat): seq<Record>
    requires Shaped(s) && i < SENSOR_COUNT && forall e :: e in events ==> Possible(e)
  {
    s.live[i] + History(s, events, i)
  }

  /** What a ring of this capacity holds once the tape has `length` records. */
  function Window(tape: seq<Record>, capacity: nat, length: nat): seq<Record>
    requires length <= |tape|
  {
    tape[length - Min(length, capacity)..length]
  }

  lemma FrontPossible(events: seq<Event>)
    requires events != [] && forall e :: e in events ==> Possible(e)
    ensures Possible(events[|events| - 1]) && forall e :: e in events[..|events| - 1] ==> Possible(e)
  {
  }

  /** The record that sampling adds. */
  function Next(s: State, i: nat): Record
    requires Shaped(s) && i < SENSOR_COUNT
  {
    SampleOf(s.sensors[i], Wrap32(s.newest + 1))
  }

  lemma TapeStep(s: State, events: seq<Event>, i: nat)
    requires Shaped(s) && i < SENSOR_COUNT && events != [] && forall e :: e in events ==> Possible(e)
    ensures var front, e := events[..|events| - 1], events[|events| - 1];
            && (e != Sampled ==> Tape(s, events, i) == Tape(s, front, i) && History(s, events, i) == History(s, front, i))
            && (e == Sampled ==> Tape(s, events, i) == Tape(s, front, i) + [Next(Steps(s, front), i)])
  {
    var front, e := events[..|events| - 1], events[|events| - 1];
    FrontPossible(events);
    var h := History(s, front, i);
    if e == Sampled {
      assert History(s, events, i) == h + [Next(Steps(s, front), i)];
      assert s.live[i] + (h + [Next(Steps(s, front), i)]) == s.live[i] + h + [Next(Steps(s, front), i)];
    } else {
      assert History(s, events, i) == h + [] == h;
    }
  }

  lemma TailPush(tape: seq<Record>, record: Record, capacity: nat)
    requires 0 < capacity
    ensures Push(Window(tape, capacity, |tape|), record, capacity) == Window(tape + [record], capacity, |tape| + 1)
  {
  }

  lemma {:induction false} PushAllIsTail(window: seq<Record>, records: seq<Record>, capacity: nat)
    requires |window| <= capacity && 0 < capacity
    ensures PushAll(window, records, capacity) == Window(window + records, capacity, |window + records|)
  {
    if records == [] {
      assert window + records == window;
    } else {
      var front, last := records[..|records| - 1], records[|records| - 1];
      PushAllIsTail(window, front, capacity);
      TailPush(window + front, last, capacity);
      assert window + front + [last] == window + records;
    }
  }

  /** The live ring is the end of the tape. */
  lemma LiveIsTail(s: State, events: seq<Event>, i: nat)
    requires Shaped(s) && i < SENSOR_COUNT && forall e :: e in events ==> Possible(e)
    ensures var tape := Tape(s, events, i); Steps(s, events).live[i] == Window(tape, s.capacity, |tape|)
  {
    LiveRingIsPushAll(s, events, i);
    PushAllIsTail(s.live[i], History(s, events, i), s.capacity);
  }

  /** The tape's records carry consecutive numbers, and the newest sample is its last. */
  predicate NumberedFrom(tape: seq<Record>, base: int) {
    forall j :: 0 <= j < |tape| ==> tape[j].sequence == Wrap32(base + j)
  }

  function Base(s: State, i: nat): int
    requires Shaped(s) && i < SENSOR_COUNT
  {
    s.newest - |s.live[i]| + 1
  }

  lemma NumberedOn(tape: seq<Record>, record: Record, base: int)
    requires NumberedFrom(tape, base) && record.sequence == Wrap32(base + |tape|)
    ensures NumberedFrom(tape + [record], base)
  {
  }

  /** What one more event adds to the tape. */
  lemma TapeMore(s: State, events: seq<Event>, i: nat, front: seq<Event>) returns (more: seq<Record>)
    requires Shaped(s) && i < SENSOR_COUNT && events != [] && forall e :: e in events ==> Possible(e)
    requires front == events[..|events| - 1]
    ensures (forall e :: e in front ==> Possible(e)) && |more| <= 1 && Tape(s, events, i) == Tape(s, front, i) + more
    ensures Steps(s, events).newest == if more == [] then Steps(s, front).newest else Wrap32(Steps(s, front).newest + 1)
    ensures more != [] ==> more[0].sequence == Wrap32(Steps(s, front).newest + 1)
  {
    FrontPossible(events);
    TapeStep(s, events, i);
    NewestStep(s, events);
    more := if events[|events| - 1] == Sampled then [Next(Steps(s, front), i)] else [];
  }

  lemma NumberedMore(tape: seq<Record>, more: seq<Record>, base: int, newest: u32, later: u32)
    requires NumberedFrom(tape, base) && newest == Wrap32(base + |tape| - 1) && |more| <= 1
    requires later == if more == [] then newest else Wrap32(newest + 1)
    requires more != [] ==> more[0].sequence == Wrap32(newest + 1)
    ensures NumberedFrom(tape + more, base) && later == Wrap32(base + |tape + more| - 1)
  {
    WrapAdd(base + |tape| - 1, 1);
    if more != [] {
      NumberedOn(tape, more[0], base);
    }
  }

  lemma {:induction false} TapeNumbered(s: State, events: seq<Event>, i: nat)
    requires Shaped(s) && Recorded(s) && i < SENSOR_COUNT && forall e :: e in events ==> Possible(e)
    ensures NumberedFrom(Tape(s, events, i), Base(s, i))
    ensures Steps(s, events).newest == Wrap32(Base(s, i) + |Tape(s, events, i)| - 1)
  {
    if events == [] {
      assert Tape(s, events, i) == s.live[i];
    } else {
      var front := events[..|events| - 1];
      var more := TapeMore(s, events, i, front);
      TapeNumbered(s, front, i);
      NumberedMore(Tape(s, front, i), more, Base(s, i), Steps(s, front).newest, Steps(s, events).newest);
    }
  }

  lemma NewestStep(s: State, events: seq<Event>)
    requires Shaped(s) && events != [] && forall e :: e in events ==> Possible(e)
    ensures var front, e := events[..|events| - 1], events[|events| - 1];
            Steps(s, events).newest == if e == Sampled then Wrap32(Steps(s, front).newest + 1) else Steps(s, front).newest
  {
  }

  /** Later the tape has grown at its end. */
  lemma {:induction false} TapeGrows(s: State, events: seq<Event>, more: seq<Event>, i: nat)
    requires Shaped(s) && i < SENSOR_COUNT && forall e :: e in events + more ==> Possible(e)
    ensures forall e :: e in events ==> Possible(e)
    ensures Tape(s, events, i) <= Tape(s, events + more, i)
  {
    if more == [] {
      assert events + more == events;
    } else {
      assert (events + more)[..|events + more| - 1] == events + more[..|more| - 1];
      FrontPossible(events + more);
      TapeGrows(s, events, more[..|more| - 1], i);
      TapeStep(s, events + more, i);
    }
  }

  /** Frozen rings, once frozen together with the tape's start, are the live ring of some earlier moment. */
  lemma {:induction false} FrozenIsWindow(s: State, events: seq<Event>, i: nat) returns (length: nat)
    requires Shaped(s) && i < SENSOR_COUNT && forall e :: e in events ==> Possible(e)
    requires s.frozenValid && s.frozen == s.live
    ensures |s.live[i]| <= length <= |Tape(s, events, i)|
    ensures Steps(s, events).frozenValid
    ensures Steps(s, events).frozen[i] == Window(Tape(s, events, i), s.capacity, length)
  {
    if events == [] {
      length := |s.live[i]|;
      assert Tape(s, events, i) == s.live[i];
    } else {
      var front, e := events[..|events| - 1], events[|events| - 1];
      TapeStep(s, events, i);
      if e == Frozen {
        length := |Tape(s, events, i)|;
        LiveIsTail(s, front, i);
      } else {
        length := FrozenIsWindow(s, front, i);
      }
    }
  }

  lemma TapeApart(tape: seq<Record>, base: int, j: nat, p: nat)
    requires NumberedFrom(tape, base) && |tape| <= TWO32 && p < |tape| && j < |tape|
    ensures tape[j].sequence == tape[p].sequence <==> j == p
  {
    WrapInjective(base, j, p);
  }

  /** With numbers that have not come round, a window holds a number exactly when its place lies inside. */
  lemma WindowHolds(tape: seq<Record>, base: int, capacity: nat, length: nat, p: nat)
    requires NumberedFrom(tape, base) && |tape| <= TWO32 && p < |tape| && length <= |tape|
    ensures (exists j :: 0 <= j < |Window(tape, capacity, length)| && Window(tape, capacity, length)[j].sequence == tape[p].sequence)
       <==> length - Min(length, capacity) <= p < length
  {
    var low, window := length - Min(length, capacity), Window(tape, capacity, length);
    forall j | 0 <= j < |window|
      ensures window[j] == tape[low + j] && (window[j].sequence == tape[p].sequence <==> low + j == p)
    {
      TapeApart(tape, base, low + j, p);
    }
    if low <= p < length {
      assert window[p - low] == tape[p];
    }
  }

  lemma SliceHere(tape: seq<Record>, low: nat, length: nat, p: nat, limit: nat)
    requires low <= p < length <= |tape|
    requires forall j :: low <= j < length && tape[j].sequence == tape[p].sequence ==> j == p
    ensures Slice(tape[low..length], tape[p].sequence, limit) == tape[p..p + Min(limit, length - p)]
  {
    var window := tape[low..length];
    assert forall j :: 0 <= j < |window| ==> window[j] == tape[low + j];
    FoundAt(window, tape[p].sequence, p - low);
    PieceOfPiece(tape, low, length, p, Min(limit, length - p));
  }

  /** A slice of a window, asked for from place `p` on, is that piece of the tape. */
  lemma WindowSlice(tape: seq<Record>, base: int, capacity: nat, length: nat, p: nat, limit: nat)
    requires NumberedFrom(tape, base) && |tape| <= TWO32 && p < |tape| && length <= |tape|
    ensures var records := Slice(Window(tape, capacity, length), tape[p].sequence, limit);
            if length - Min(length, capacity) <= p < length then records == tape[p..p + Min(limit, length - p)] else records == []
  {
    var low := length - Min(length, capacity);
    forall j | 0 <= j < |tape| && tape[j].sequence == tape[p].sequence
      ensures j == p
    {
      TapeApart(tape, base, j, p);
    }
    if low <= p < length {
      SliceHere(tape, low, length, p, limit);
    } else {
      var window := tape[low..length];
      assert forall j :: 0 <= j < |window| ==> window[j] == tape[low + j];
      SliceAbsent(window, tape[p].sequence, limit);
    }
  }

  lemma PieceOfPiece(tape: seq<Record>, low: nat, length: nat, p: nat, n: nat)
    requires low <= p && p + n <= length <= |tape|
    ensures tape[low..length][p - low..p - low + n] == tape[p..p + n]
  {
    var window := tape[low..length];
    var here, there := window[p - low..p - low + n], tape[p..p + n];
    forall j | 0 <= j < n
      ensures here[j] == there[j]
    {
      assert window[p - low + j] == tape[p + j];
    }
  }
}
