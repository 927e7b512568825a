/** The per-sensor ring of recent records (firmware/main/src/history_buffer.c). */
module HistoryBuffers {
  import opened Words

  datatype DataStatus = Valid | Disconnected

  /** One stored sample: sequence number, centi-degrees and data status. */
  datatype Record = Record(sequence: u32, temperature: i16, status: DataStatus)

  // --- The ring as a value: the records it holds, oldest first -----------------

  /** Append to a window of at most `capacity` records; the oldest one falls out when full. */
  function Push(window: seq<Record>, record: Record, capacity: nat): (w: seq<Record>)
    requires |window| <= capacity && 0 < capacity
    ensures |w| == if |window| < capacity then |window| + 1 else capacity
  {
    if |window| < capacity then window + [record] else window[1..] + [record]
  }

  function PushAll(window: seq<Record>, records: seq<Record>, capacity: nat): (w: seq<Record>)
    requires |window| <= capacity && 0 < capacity
    ensures |w| <= capacity
  {
    if records == [] then window
    else Push(PushAll(window, records[..|records| - 1], capacity), records[|records| - 1], capacity)
  }

  /** After any appends to an empty ring it holds the last min(n, capacity) records, in order. */
  lemma {:induction false} RingKeepsNewest(records: seq<Record>, capacity: nat)
    requires 0 < capacity
    ensures var kept := if |records| < capacity then |records| else capacity;
            PushAll([], records, capacity) == records[|records| - kept..]
  {
    if records != [] {
      var front, last := records[..|records| - 1], records[|records| - 1];
      RingKeepsNewest(front, capacity);
      NewestOn(front, last, records, PushAll([], front, capacity), PushAll([], records, capacity), capacity);
    }
  }

  lemma NewestOn(front: seq<Record>, last: Record, records: seq<Record>, ring: seq<Record>, later: seq<Record>, capacity: nat)
    requires 0 < capacity && records != [] && front == records[..|records| - 1] && last == records[|records| - 1]
    requires ring == front[|front| - (if |front| < capacity then |front| else capacity)..] && later == Push(ring, last, capacity)
    ensures later == records[|records| - (if |records| < capacity then |records| else capacity)..]
  {
    PushNewest(front, last, capacity);
    assert records == front + [last];
  }

  /** Appending moves a full window on by one. */
  lemma PushNewest(front: seq<Record>, last: Record, capacity: nat)
    requires 0 < capacity
    ensures var kept := if |front| < capacity then |front| else capacity;
            var more := if |front| + 1 < capacity then |front| + 1 else capacity;
            Push(front[|front| - kept..], last, capacity) == (front + [last])[|front| + 1 - more..]
  {
  }

  /** Index of the first record carrying `sequence`, or the length when there is none. */
  function Find(window: seq<Record>, sequence: u32): (k: nat)
    ensures k <= |window|
    ensures k < |window| ==> window[k].sequence == sequence
    ensures forall j :: 0 <= j < k ==> window[j].sequence != sequence
  {
    if window == [] || window[0].sequence == sequence then 0
    else
      var k := Find(window[1..], sequence);
      assert forall j :: 1 <= j <= k ==> window[j] == window[1..][j - 1];
      k + 1
  }

  lemma FoundAt(window: seq<Record>, sequence: u32, k: nat)
    requires k <= |window|
    requires forall j :: 0 <= j < k ==> window[j].sequence != sequence
    requires k < |window| ==> window[k].sequence == sequence
    ensures Find(window, sequence) == k
  {
  }

  function Min(a: nat, b: nat): nat {
    if a < b then a else b
  }

  /** The records a copy request obtains; none when the start is absent. */
  function Slice(window: seq<Record>, start: u32, requested: nat): (s: seq<Record>) {
    var k := Find(window, start);
    window[k..k + Min(requested, |window| - k)]
  }

  /**
   * A copy yields something exactly when something was asked for and `start` is still held;
   * it is then the slice of min(requested, available) records from there on.
   */
  lemma SliceAvailable(window: seq<Record>, start: u32, requested: nat)
    ensures Slice(window, start, requested) != [] <==> requested > 0 && exists k :: 0 <= k < |window| && window[k].sequence == start
    ensures forall k :: 0 <= k < |window| && window[k].sequence == start
                        && (forall j :: 0 <= j < k ==> window[j].sequence != start) ==>
              Slice(window, start, requested) == window[k..k + Min(requested, |window| - k)]
  {
    forall k | 0 <= k < |window| && window[k].sequence == start && (forall j :: 0 <= j < k ==> window[j].sequence != start)
      ensures Find(window, start) == k
    {
      FoundAt(window, start, k);
    }
  }

  lemma SliceAbsent(window: seq<Record>, start: u32, requested: nat)
    requires forall i :: 0 <= i < |window| ==> window[i].sequence != start
    ensures Slice(window, start, requested) == []
  {
    FoundAt(window, start, |window|);
  }

  // --- Rings as arrays ------------------------------------------------------------

  /** Where the `k`-th oldest record lies in an array of length `n`. */
  function Place(next: nat, count: nat, n: nat, k: nat): (i: nat)
    requires next < n && count <= n
    ensures i < n
  {
    ((next + n - count) % n + k) % n
  }

  /** The records an array and its two indices represent, oldest first. */
  function Arranged(content: seq<Record>, next: nat, count: nat): (window: seq<Record>)
    requires next < |content| && count <= |content|
    ensures |window| == count
    ensures forall k :: 0 <= k < count ==> window[k] == content[Place(next, count, |content|, k)]
  {
    seq(count, k requires 0 <= k < count => content[Place(next, count, |content|, k)])
  }

  /** Overwriting the slot behind the newest record pushes onto the window. */
  lemma ArrangedPush(content: seq<Record>, next: nat, count: nat, record: Record)
    requires next < |content| && count <= |content|
    ensures Arranged(content[next := record], (next + 1) % |content|, if count < |content| then count + 1 else count)
         == Push(Arranged(content, next, count), record, |content|)
  {
    var n := |content|;
    if count == n {
      FullRing(content, next, record);
    } else {
      RoomInRing(content, next, count, record);
    }
  }

  lemma FullRing(content: seq<Record>, next: nat, record: Record)
    requires next < |content|
    ensures Arranged(content[next := record], (next + 1) % |content|, |content|)
         == Arranged(content, next, |content|)[1..] + [record]
  {
    var n := |content|;
    var before, after := Arranged(content, next, n), Arranged(content[next := record], (next + 1) % n, n);
    forall k | 0 <= k < n
      ensures after[k] == (before[1..] + [record])[k]
    {
      var place := Place((next + 1) % n, n, n, k);
      PlaceShifts(next, n, k);
      assert after[k] == content[next := record][place];
    }
  }

  lemma RoomInRing(content: seq<Record>, next: nat, count: nat, record: Record)
    requires next < |content| && count < |content|
    ensures Arranged(content[next := record], (next + 1) % |content|, count + 1)
         == Arranged(content, next, count) + [record]
  {
    var n := |content|;
    var before, after := Arranged(content, next, count), Arranged(content[next := record], (next + 1) % n, count + 1);
    forall k | 0 <= k <= count
      ensures after[k] == (before + [record])[k]
    {
      var place := Place((next + 1) % n, count + 1, n, k);
      PlaceKept(next, count, n, k);
      assert after[k] == content[next := record][place];
    }
  }

  /** A full ring: the window slides by one slot. */
  lemma PlaceShifts(next: nat, n: nat, k: nat)
    requires next < n && k < n
    ensures Place((next + 1) % n, n, n, k) == if k == n - 1 then next else Place(next, n, n, k + 1)
    ensures k < n - 1 ==> Place(next, n, n, k + 1) != next
  {
    StartOf((next + 1) % n, n, n);
    StartOf(next, n, n);
    ModOnce(next + 1, n);
    ModOnce((next + 1) % n + k, n);
    ModOnce(next + (k + 1), n);
  }

  /** A ring with room: existing slots stay, the new one comes last. */
  lemma PlaceKept(next: nat, count: nat, n: nat, k: nat)
    requires next < n && count < n && k <= count
    ensures Place((next + 1) % n, count + 1, n, k) == if k == count then next else Place(next, count, n, k)
    ensures k < count ==> Place(next, count, n, k) != next
  {
    ModOnce(next + 1, n);
    StartOf((next + 1) % n, count + 1, n);
    StartOf(next, count, n);
    var start := if next < count then next + n - count else next - count;
    ModOnce(start + k, n);
  }

  /** Where the window starts, without remainders. */
  lemma StartOf(next: nat, count: nat, n: nat)
    requires next < n && count <= n
    ensures (next + n - count) % n == if next < count then next + n - count else next - count
  {
    ModOnce(next + n - count, n);
  }

  // --- The ring in memory ---------------------------------------------------------

  class HistoryBuffer {
    const records: array<Record>
    var nextIndex: nat
    var count: nat

    ghost predicate Valid()
      reads this
    {
      0 < records.Length <= 0xFFFF && nextIndex < records.Length && count <= records.Length
    }

    ghost function Capacity(): nat {
      records.Length
    }

    function OldestIndex(): (i: nat)
      requires Valid()
      reads this
      ensures i < records.Length
    {
      (nextIndex + records.Length - count) % records.Length
    }

    /** Where the `offset`-th oldest record lies in the array. */
    function IndexOf(offset: nat): (i: nat)
      requires Valid()
      reads this
      ensures i < records.Length && i == Place(nextIndex, count, records.Length, offset)
    {
      (OldestIndex() + offset) % records.Length
    }

    /** The records held, oldest first. */
    ghost function Window(): (w: seq<Record>)
      requires Valid()
      reads this, records
      ensures |w| == count
    {
      Arranged(records[..], nextIndex, count)
    }

    constructor (capacity: nat)
      requires 0 < capacity <= 0xFFFF
      ensures Valid() && fresh(records)
      ensures Capacity() == capacity && Window() == []
    {
      records := new Record[capacity](_ => Record(0, 0, DataStatus.Valid));
      nextIndex, count := 0, 0;
    }

    method Append(record: Record)
      requires Valid()
      modifies this, records
      ensures Valid()
      ensures Window() == Push(old(Window()), record, Capacity())
    {
      ghost var content := records[..];
      ArrangedPush(content, nextIndex, count, record);
      records[nextIndex] := record;
      assert records[..] == content[nextIndex := record];
      nextIndex := (nextIndex + 1) % records.Length;
      if count < records.Length {
        count := count + 1;
      }
    }

    method Count() returns (c: nat)
      requires Valid()
      ensures c == |Window()|
    {
      c := count;
    }

    /** Zero for an empty ring, as the firmware reports it. */
    method OldestSequence() returns (s: u32)
      requires Valid()
      ensures s == if Window() == [] then 0 else Window()[0].sequence
    {
      if count == 0 {
        return 0;
      }
      s := records[OldestIndex()].sequence;
      ModOnce(OldestIndex(), records.Length);
      assert IndexOf(0) == OldestIndex();
    }

    /** Copy up to `requested` records beginning with the one numbered `start`. */
    method Copy(start: u32, requested: nat, out: array<Record>) returns (ok: bool, copied: nat)
      requires Valid() && requested <= out.Length && out != records
      modifies out
      ensures Valid() && Window() == old(Window())
      ensures ok <==> copied > 0
      ensures copied == |Slice(Window(), start, requested)| <= out.Length
      ensures out[..copied] == Slice(Window(), start, requested)
      ensures forall k :: copied <= k < out.Length ==> out[k] == old(out[k])
    {
      ghost var w := Window();
      copied := 0;
      var offset := Locate(start);
      if offset == count {
        return false, 0;
      }
      var available := count - offset;
      copied := if requested < available then requested else available;
      CopyRange(offset, copied, out);
      ok := copied > 0;
    }

    /** The copy loop itself. */
    method CopyRange(offset: nat, total: nat, out: array<Record>)
      requires Valid() && offset + total <= count && total <= out.Length && out != records
      modifies out
      ensures out[..total] == old(Window())[offset..offset + total]
      ensures forall k :: total <= k < out.Length ==> out[k] == old(out[k])
    {
      var i := 0;
      while i < total
        invariant 0 <= i <= total
        invariant forall k :: 0 <= k < i ==> out[k] == records[IndexOf(offset + k)]
        invariant forall k :: i <= k < out.Length ==> out[k] == old(out[k])
      {
        out[i] := records[IndexOf(offset + i)];
        i := i + 1;
      }
    }

    /** The copy loop's search for its first record. */
    method Locate(start: u32) returns (offset: nat)
      requires Valid()
      ensures offset == Find(Window(), start)
    {
      ghost var w := Window();
      offset := 0;
      while offset < count && records[IndexOf(offset)].sequence != start
        invariant 0 <= offset <= count
        invariant forall j :: 0 <= j < offset ==> w[j].sequence != start
      {
        offset := offset + 1;
      }
      FoundAt(w, start, offset);
    }

    /** C structure assignment: this ring becomes an independent copy of `other`. */
    method Assign(other: HistoryBuffer)
      requires Valid() && other.Valid() && this != other && records != other.records
      requires Capacity() == other.Capacity()
      modifies this, records
      ensures Valid() && Window() == other.Window() == old(other.Window())
    {
      var i := 0;
      while i < records.Length
        invariant 0 <= i <= records.Length
        invariant forall k :: 0 <= k < i ==> records[k] == other.records[k]
        modifies records
      {
        records[i] := other.records[i];
        i := i + 1;
      }
      nextIndex, count := other.nextIndex, other.count;
      assert records[..] == other.records[..] == old(other.records[..]);
    }
  }

  lemma ModOnce(x: nat, n: nat)
    requires 0 < n && x < 2 * n
    ensures x % n == if x < n then x else x - n
  {
    if x < n {
      assert x / n == 0;
    } else {
      assert x == n * 1 + (x - n);
      assert x / n == 1;
    }
  }
}
