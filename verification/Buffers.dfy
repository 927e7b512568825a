/** Writing little-endian fields into a byte buffer in place, as the firmware's handlers do. */
module Buffers {
  import opened Words
  import opened Layouts

  /** `s` with the bytes from `at` on replaced by `b`. */
  function Patch(s: seq<u8>, at: nat, b: seq<u8>): (t: seq<u8>)
    requires at + |b| <= |s|
    ensures |t| == |s|
  {
    s[..at] + b + s[at + |b|..]
  }

  method WriteU8(buffer: array<u8>, at: nat, v: u8)
    requires at < buffer.Length
    modifies buffer
    ensures buffer[..] == Patch(old(buffer[..]), at, [v])
  {
    buffer[at] := v;
  }

  method WriteU16(buffer: array<u8>, at: nat, v: u16)
    requires at + 2 <= buffer.Length
    modifies buffer
    ensures buffer[..] == Patch(old(buffer[..]), at, U16Bytes(v))
  {
    buffer[at] := v % 0x100;
    buffer[at + 1] := v / 0x100;
  }

  method WriteI16(buffer: array<u8>, at: nat, v: i16)
    requires at + 2 <= buffer.Length
    modifies buffer
    ensures buffer[..] == Patch(old(buffer[..]), at, I16Bytes(v))
  {
    WriteU16(buffer, at, v % TWO16);
  }

  method WriteU32(buffer: array<u8>, at: nat, v: u32)
    requires at + 4 <= buffer.Length
    modifies buffer
    ensures buffer[..] == Patch(old(buffer[..]), at, U32Bytes(v))
  {
    buffer[at] := v % 0x100;
    buffer[at + 1] := v / 0x100 % 0x100;
    buffer[at + 2] := v / 0x1_0000 % 0x100;
    buffer[at + 3] := v / 0x100_0000;
  }

  /** `memcpy` of a fixed byte string. */
  method WriteBytes(buffer: array<u8>, at: nat, b: seq<u8>)
    requires at + |b| <= buffer.Length
    modifies buffer
    ensures buffer[..] == Patch(old(buffer[..]), at, b)
  {
    for i := 0 to |b|
      invariant forall k :: 0 <= k < i ==> buffer[at + k] == b[k]
      invariant forall k :: 0 <= k < buffer.Length && !(at <= k < at + i) ==> buffer[k] == old(buffer[k])
    {
      buffer[at + i] := b[i];
    }
    var was := old(buffer[..]);
    forall k | 0 <= k < buffer.Length
      ensures buffer[k] == Patch(was, at, b)[k]
    {
      if at <= k < at + |b| {
        assert buffer[at + (k - at)] == b[k - at];
      }
    }
  }

  /** The buffer after the first `n` parts were written back to back from `base`. */
  ghost function Laid(s: seq<u8>, base: nat, parts: seq<seq<u8>>, n: nat): (t: seq<u8>)
    requires n <= |parts| && base + |Join(parts, n)| <= |s|
    ensures |t| == |s|
  {
    if n == 0 then s
    else Patch(Laid(s, base, parts, n - 1), base + |Join(parts, n - 1)|, parts[n - 1])
  }

  lemma {:induction false} LaidJoin(s: seq<u8>, base: nat, parts: seq<seq<u8>>, n: nat)
    requires n <= |parts| && base + |Join(parts, n)| <= |s|
    ensures Laid(s, base, parts, n) == Patch(s, base, Join(parts, n))
  {
    if n > 0 {
      LaidJoin(s, base, parts, n - 1);
      var low, b := base + |Join(parts, n - 1)|, parts[n - 1];
      var t := Laid(s, base, parts, n - 1);
      assert t[..low] == s[..base] + Join(parts, n - 1);
      assert t[low + |b|..] == s[low + |b|..];
    }
  }

  /** The buffer after the first `n` fields' images were written at their offsets from `base`. */
  ghost function Placed(s: seq<u8>, base: nat, fields: seq<Field>, parts: seq<seq<u8>>, n: nat): (t: seq<u8>)
    requires Fitting(fields, parts) && n <= |fields| && base + Offset(fields, n) <= |s|
    ensures |t| == |s|
  {
    if n == 0 then s
    else Patch(Placed(s, base, fields, parts, n - 1), base + Offset(fields, n - 1), parts[n - 1])
  }

  lemma {:induction false} PlacedIsLaid(s: seq<u8>, base: nat, fields: seq<Field>, parts: seq<seq<u8>>, n: nat)
    requires Fitting(fields, parts) && n <= |fields| && base + Offset(fields, n) <= |s|
    ensures |Join(parts, n)| == Offset(fields, n)
    ensures Placed(s, base, fields, parts, n) == Laid(s, base, parts, n)
  {
    JoinLength(fields, parts, n);
    if n > 0 {
      PlacedIsLaid(s, base, fields, parts, n - 1);
    }
  }

  /** The same for the values of a record. */
  ghost function Written(s: seq<u8>, base: nat, fields: seq<Field>, values: seq<Value>, n: nat): (t: seq<u8>)
    requires AllPackable(fields, values) && n <= |fields| && base + Offset(fields, n) <= |s|
    ensures |t| == |s| && (n == 0 ==> t == s)
  {
    Placed(s, base, fields, Images(fields, values), n)
  }

  /** Writing one more field. */
  lemma WriteNext(s: seq<u8>, base: nat, fields: seq<Field>, values: seq<Value>, n: nat)
    requires AllPackable(fields, values) && n < |fields| && base + Offset(fields, n + 1) <= |s|
    ensures Written(s, base, fields, values, n + 1)
         == Patch(Written(s, base, fields, values, n), base + Offset(fields, n), EncodeField(fields[n].kind, values[n]))
  {
    var images, m := Images(fields, values), n + 1;
    assert Placed(s, base, fields, images, m) == Patch(Placed(s, base, fields, images, m - 1), base + Offset(fields, m - 1), images[m - 1]);
  }

  /** Writing every field at its offset leaves exactly the packed record behind. */
  lemma WritesPack(s: seq<u8>, base: nat, fields: seq<Field>, values: seq<Value>)
    requires AllPackable(fields, values) && base + Size(fields) <= |s|
    ensures Written(s, base, fields, values, |fields|) == Patch(s, base, Pack(fields, values))
  {
    PlacedIsLaid(s, base, fields, Images(fields, values), |fields|);
    LaidJoin(s, base, Images(fields, values), |fields|);
  }
}
