/** Fixed-width integers, 32-bit wrap-around and little-endian byte images. */
module Words {
  datatype Option<+T> = None | Some(value: T)
  datatype Result<+T, +E> = Success(value: T) | Failure(error: E)

  const TWO16: int := 0x1_0000
  const TWO32: int := 0x1_0000_0000

  type u8 = x: int | 0 <= x < 0x100
  type u16 = x: int | 0 <= x < 0x1_0000
  type u32 = x: int | 0 <= x < 0x1_0000_0000
  type i16 = x: int | -0x8000 <= x < 0x8000

  /** Unsigned 32-bit reduction: C's `uint32_t` arithmetic and Python's `& 0xFFFFFFFF`. */
  function Wrap32(x: int): u32 {
    x % TWO32
  }

  lemma WrapMultiple(x: int, k: int)
    ensures Wrap32(x + TWO32 * k) == Wrap32(x)
  {
    var q := x / TWO32;
    assert x == TWO32 * q + x % TWO32;
    assert x + TWO32 * k == TWO32 * (q + k) + x % TWO32;
  }

  lemma WrapAdd(a: int, b: int)
    ensures Wrap32(Wrap32(a) + b) == Wrap32(a + b)
    ensures Wrap32(Wrap32(a) - b) == Wrap32(a - b)
  {
    assert a == TWO32 * (a / TWO32) + Wrap32(a);
    WrapMultiple(Wrap32(a) + b, a / TWO32);
    WrapMultiple(Wrap32(a) - b, a / TWO32);
  }

  lemma WrapShift(x: int, y: int)
    ensures Wrap32(Wrap32(x) - Wrap32(y)) == Wrap32(x - y)
  {
    WrapAdd(x, Wrap32(y));
    assert y == TWO32 * (y / TWO32) + Wrap32(y);
    WrapMultiple(x - y, y / TWO32);
  }

  /** Offsets below 2^32 from one base stay distinct after wrapping. */
  lemma WrapInjective(base: int, i: int, j: int)
    requires 0 <= i < TWO32 && 0 <= j < TWO32
    ensures Wrap32(base + i) == Wrap32(base + j) <==> i == j
  {
  }

  /** Moving on by the wrapped distance to `q` arrives at `q`. */
  lemma WrapReach(base: int, q: u32)
    ensures Wrap32(base + Wrap32(q - base)) == q
  {
    var d := Wrap32(q - base);
    assert q - base == TWO32 * ((q - base) / TWO32) + d;
    assert base + d == q - TWO32 * ((q - base) / TWO32);
  }

  // --- Little-endian images, as the firmware's shifting writers produce them ---

  function U16Bytes(v: u16): (b: seq<u8>)
    ensures |b| == 2
  {
    [v % 0x100, v / 0x100]
  }

  function U32Bytes(v: u32): (b: seq<u8>)
    ensures |b| == 4
  {
    [v % 0x100, v / 0x100 % 0x100, v / 0x1_0000 % 0x100, v / 0x100_0000]
  }

  /** The C conversion `(uint16_t)value` of a signed 16-bit value. */
  function I16Bytes(v: i16): (b: seq<u8>)
    ensures |b| == 2
  {
    U16Bytes(v % TWO16)
  }

  function ReadU16(b: seq<u8>): u16
    requires |b| == 2
  {
    (b[0] as int) + 0x100 * (b[1] as int)
  }

  function ReadU32(b: seq<u8>): u32
    requires |b| == 4
  {
    (b[0] as int) + 0x100 * (b[1] as int) + 0x1_0000 * (b[2] as int) + 0x100_0000 * (b[3] as int)
  }

  function ReadI16(b: seq<u8>): i16
    requires |b| == 2
  {
    var u := ReadU16(b);
    if u < 0x8000 then u else u - TWO16
  }

  lemma U16RoundTrip(v: u16)
    ensures ReadU16(U16Bytes(v)) == v
  {
  }

  lemma U32RoundTrip(v: u32)
    ensures ReadU32(U32Bytes(v)) == v
  {
    var high := v / 0x1_0000;
    assert v == v % 0x100 + 0x100 * (v / 0x100);
    assert v / 0x100 == v / 0x100 % 0x100 + 0x100 * high;
    assert high == high % 0x100 + 0x100 * (v / 0x100_0000);
  }

  lemma I16RoundTrip(v: i16)
    ensures ReadI16(I16Bytes(v)) == v
  {
  }

  lemma U16ImageRoundTrip(b: seq<u8>)
    requires |b| == 2
    ensures U16Bytes(ReadU16(b)) == b
  {
  }

  lemma I16ImageRoundTrip(b: seq<u8>)
    requires |b| == 2
    ensures U16Bytes(ReadI16(b) % TWO16) == b
  {
    assert ReadI16(b) % TWO16 == ReadU16(b);
  }

  lemma U32ImageRoundTrip(b: seq<u8>)
    requires |b| == 4
    ensures U32Bytes(ReadU32(b)) == b
  {
    var v := ReadU32(b);
    assert v / 0x100_0000 == b[3];
    assert v / 0x1_0000 == b[2] as int + 0x100 * (b[3] as int);
    assert v / 0x100 == b[1] as int + 0x100 * (b[2] as int) + 0x1_0000 * (b[3] as int);
  }

  // --- Building a list that gives up on the first missing element --------------------

  function Collect<T>(f: nat -> Option<T>, n: nat): (r: Option<seq<T>>)
    ensures r.Some? ==> |r.value| == n
  {
    if n == 0 then Some([])
    else
      var front, last := Collect(f, n - 1), f(n - 1);
      if front.None? || last.None? then None else Some(front.value + [last.value])
  }

  lemma {:induction false} CollectStops<T>(f: nat -> Option<T>, i: nat, n: nat)
    requires i <= n && Collect(f, i).None?
    ensures Collect(f, n).None?
  {
    if i < n {
      CollectStops(f, i, n - 1);
    }
  }

  lemma {:induction false} CollectsTo<T>(f: nat -> Option<T>, values: seq<T>)
    requires forall i :: 0 <= i < |values| ==> f(i) == Some(values[i])
    ensures Collect(f, |values|) == Some(values)
  {
    if values != [] {
      var n := |values| - 1;
      CollectsTo(f, values[..n]);
      assert values == values[..n] + [values[n]];
    }
  }
}
