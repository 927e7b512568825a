/** The Dallas CRC-8 of the probe scratchpad (firmware/main/src/real_temperature_sensors.c). */
module Crc8 {

  const POLYNOMIAL: bv8 := 0x8C

  /** One bit step of the shift register, with the data bit already folded in. */
  function Shift(x: bv8): bv8 {
    if x & 1 == 1 then (x >> 1) ^ POLYNOMIAL else x >> 1
  }

  function Iterate<T>(f: T -> T, x: T, n: nat): T {
    if n == 0 then x else f(Iterate(f, x, n - 1))
  }

  /** `n` bit steps. */
  function Shifts(x: bv8, n: nat): bv8 {
    Iterate(Shift, x, n)
  }

  /** The eight bit steps of one byte. */
  function Shift8(x: bv8): bv8 {
    Shift(Shift(Shift(Shift(Shift(Shift(Shift(Shift(x))))))))
  }

  lemma Unrolled(x: bv8)
    ensures Shifts(x, 8) == Shift8(x)
  {
    assert Shifts(x, 1) == Shift(x);
    assert Shifts(x, 2) == Shift(Shift(x));
    assert Shifts(x, 3) == Shift(Shift(Shift(x)));
    assert Shifts(x, 4) == Shift(Shift(Shift(Shift(x))));
    assert Shifts(x, 5) == Shift(Shift(Shift(Shift(Shift(x)))));
    assert Shifts(x, 6) == Shift(Shift(Shift(Shift(Shift(Shift(x))))));
    assert Shifts(x, 7) == Shift(Shift(Shift(Shift(Shift(Shift(Shift(x)))))));
  }

  /** The register after one more byte. */
  function Absorb(crc: bv8, byte: bv8): bv8 {
    Shifts(crc ^ byte, 8)
  }

  function Fold<T>(f: (T, T) -> T, zero: T, data: seq<T>): T {
    if data == [] then zero else f(Fold(f, zero, data[..|data| - 1]), data[|data| - 1])
  }

  /** The remainder register after a message. */
  function Crc(data: seq<bv8>): bv8 {
    Fold(Absorb, 0, data)
  }

  // --- The bit-serial loop computes it ---------------------------------------------------

  lemma BitStep(crc: bv8, byte: bv8)
    ensures var mixed := (crc ^ byte) & 1 != 0;
            var next := if mixed then (crc >> 1) ^ POLYNOMIAL else crc >> 1;
            next ^ (byte >> 1) == Shift(crc ^ byte)
  {
  }

  /** One pass of the inner loop. */
  method AbsorbBit(before: bv8, byte: bv8) returns (crc: bv8)
    ensures crc ^ (byte >> 1) == Shift(before ^ byte)
  {
    BitStep(before, byte);
    var mix := (before ^ byte) & 1 != 0;
    crc := before >> 1;
    if mix {
      crc := crc ^ POLYNOMIAL;
    }
  }

  /** The inner loop: one byte, from its least significant bit. */
  method AbsorbByte(before: bv8, data: bv8) returns (crc: bv8)
    ensures crc == Absorb(before, data)
  {
    crc := before;
    var byte := data;
    for bit := 0 to 8
      invariant crc ^ byte == Shifts(before ^ data, bit)
      invariant byte == ShiftedOut(data, bit)
    {
      crc := AbsorbBit(crc, byte);
      byte := byte >> 1;
    }
    EightShifts(data);
    XorZero(crc, Shifts(before ^ data, 8));
  }

  /** `dallas_crc8`: the bytes in order. */
  method DallasCrc8(data: seq<bv8>) returns (crc: bv8)
    ensures crc == Crc(data)
  {
    crc := 0;
    for i := 0 to |data|
      invariant crc == Crc(data[..i])
    {
      assert data[..i + 1][..i] == data[..i];
      crc := AbsorbByte(crc, data[i]);
    }
    assert data[..|data|] == data;
  }

  function ShiftedOut(byte: bv8, n: nat): bv8 {
    if n == 0 then byte else ShiftedOut(byte, n - 1) >> 1
  }

  /** Eight shifts empty a byte. */
  lemma EightShifts(byte: bv8)
    ensures ShiftedOut(byte, 8) == 0
  {
    assert ShiftedOut(byte, 1) == byte >> 1;
    assert ShiftedOut(byte, 2) == byte >> 2;
    assert ShiftedOut(byte, 3) == byte >> 3;
    assert ShiftedOut(byte, 4) == byte >> 4;
    assert ShiftedOut(byte, 5) == byte >> 5;
    assert ShiftedOut(byte, 6) == byte >> 6;
    assert ShiftedOut(byte, 7) == byte >> 7;
  }

  // --- Linearity --------------------------------------------------------------------------

  /** Combine two lists of one length element by element. */
  function Combine<T>(plus: (T, T) -> T, a: seq<T>, b: seq<T>): (c: seq<T>)
    requires |a| == |b|
    ensures |c| == |a| && forall i :: 0 <= i < |a| ==> c[i] == plus(a[i], b[i])
  {
    seq(|a|, i requires 0 <= i < |a| => plus(a[i], b[i]))
  }

  /** A fold whose step respects `plus` respects it as a whole. */
  lemma {:induction false} FoldLinear<T(!new)>(f: (T, T) -> T, plus: (T, T) -> T, zero: T, a: seq<T>, b: seq<T>)
    requires |a| == |b| && plus(zero, zero) == zero
    requires forall p, q, r, s :: f(plus(p, q), plus(r, s)) == plus(f(p, r), f(q, s))
    ensures Fold(f, zero, Combine(plus, a, b)) == plus(Fold(f, zero, a), Fold(f, zero, b))
  {
    if a != [] {
      var n := |a| - 1;
      FoldLinear(f, plus, zero, a[..n], b[..n]);
      assert Combine(plus, a, b)[..n] == Combine(plus, a[..n], b[..n]);
    }
  }

  function Plus(p: bv8, q: bv8): bv8 {
    p ^ q
  }

  /** Bytewise exclusive or of two messages of one length. */
  function Xor(a: seq<bv8>, b: seq<bv8>): (c: seq<bv8>)
    requires |a| == |b|
    ensures |c| == |a| && forall i :: 0 <= i < |a| ==> c[i] == a[i] ^ b[i]
  {
    Combine(Plus, a, b)
  }

  /** Repeating a step that respects `plus` respects it. */
  lemma {:induction false} IterateLinear<T(!new)>(f: T -> T, plus: (T, T) -> T, x: T, y: T, n: nat)
    requires forall p, q :: f(plus(p, q)) == plus(f(p), f(q))
    ensures Iterate(f, plus(x, y), n) == plus(Iterate(f, x, n), Iterate(f, y, n))
  {
    if n > 0 {
      IterateLinear(f, plus, x, y, n - 1);
    }
  }

  lemma ShiftsLinear(x: bv8, y: bv8)
    ensures Shifts(Plus(x, y), 8) == Plus(Shifts(x, 8), Shifts(y, 8))
  {
    forall p, q
      ensures Shift(Plus(p, q)) == Plus(Shift(p), Shift(q))
    {
      ShiftLinear(p, q);
    }
    IterateLinear(Shift, Plus, x, y, 8);
  }

  lemma Regroup(a: bv8, b: bv8, c: bv8, d: bv8)
    ensures (a ^ b) ^ (c ^ d) == (a ^ c) ^ (b ^ d)
  {
  }

  lemma AbsorbLinear(a: bv8, b: bv8, c: bv8, d: bv8)
    ensures Absorb(a ^ b, c ^ d) == Absorb(a, c) ^ Absorb(b, d)
  {
    Regroup(a, b, c, d);
    ShiftsLinear(a ^ c, b ^ d);
  }

  lemma ShiftLinear(x: bv8, y: bv8)
    ensures Shift(x ^ y) == Shift(x) ^ Shift(y)
  {
  }

  /** For messages of every length the CRC is linear over exclusive or. */
  lemma CrcLinear(a: seq<bv8>, b: seq<bv8>)
    requires |a| == |b|
    ensures Crc(Xor(a, b)) == Crc(a) ^ Crc(b)
  {
    AbsorbRespectsPlus();
    FoldLinear(Absorb, Plus, 0, a, b);
  }

  lemma AbsorbRespectsPlus()
    ensures forall p, q, r, s :: Absorb(Plus(p, q), Plus(r, s)) == Plus(Absorb(p, r), Absorb(q, s))
    ensures Plus(0, 0) == 0
  {
    forall p, q, r, s
      ensures Absorb(Plus(p, q), Plus(r, s)) == Plus(Absorb(p, r), Absorb(q, s))
    {
      AbsorbLinear(p, q, r, s);
    }
  }

  // --- Which frames are accepted -------------------------------------------------------------

  lemma AbsorbZero(crc: bv8, byte: bv8)
    ensures Absorb(crc, byte) == 0 <==> crc == byte
  {
    Unrolled(crc ^ byte);
  }

  lemma XorZero(a: bv8, b: bv8)
    ensures a ^ b == 0 <==> a == b
  {
  }

  /** The acceptance test of `read_temperature`: the last byte is the CRC of the others. */
  predicate Accepted(frame: seq<bv8>)
    requires frame != []
  {
    Crc(frame[..|frame| - 1]) == frame[|frame| - 1]
  }

  /** A frame is accepted exactly when the CRC over all of it, check byte included, is zero. */
  lemma AcceptedIffZero(frame: seq<bv8>)
    requires frame != []
    ensures Accepted(frame) <==> Crc(frame) == 0
  {
    AbsorbZero(Crc(frame[..|frame| - 1]), frame[|frame| - 1]);
  }

  // --- Damage is detected -----------------------------------------------------------------------

  /** Damage by `error` (a bit pattern of the frame's length) goes unnoticed only if its CRC is zero. */
  lemma DamageNoticed(frame: seq<bv8>, error: seq<bv8>)
    requires frame != [] && |error| == |frame| && Accepted(frame)
    ensures Accepted(Xor(frame, error)) <==> Crc(error) == 0
  {
    AcceptedIffZero(frame);
    AcceptedIffZero(Xor(frame, error));
    CrcLinear(frame, error);
    assert Crc(frame) ^ Crc(error) == Crc(error);
  }

  /** A pattern without set bits from index `from` on keeps a zero, or a nonzero, remainder. */
  lemma {:induction false} QuietTail(error: seq<bv8>, from: nat)
    requires from <= |error| && forall i :: from <= i < |error| ==> error[i] == 0
    ensures Crc(error) == 0 <==> Crc(error[..from]) == 0
  {
    if from < |error| {
      var n := |error| - 1;
      QuietTail(error[..n], from);
      assert error[..n][..from] == error[..from];
      AbsorbZero(Crc(error[..n]), error[n]);
    } else {
      assert error[..from] == error;
    }
  }

  lemma {:induction false} QuietHead(error: seq<bv8>)
    requires forall i :: 0 <= i < |error| ==> error[i] == 0
    ensures Crc(error) == 0
  {
    QuietTail(error, 0);
  }

  /**
   * A burst of at most eight consecutive bits: the pattern `p`, placed `s` bits above the least
   * significant bit of byte `at` and running over into the next byte.
   */
  predicate IsBurst(error: seq<bv8>, at: nat, s: bv8, p: bv8) {
    && at < |error| && s < 8 && p != 0
    && (forall i :: 0 <= i < |error| && i != at && i != at + 1 ==> error[i] == 0)
    && error[at] == p << s
    && (if at + 1 < |error| then error[at + 1] == p >> (8 - s) else p >> (8 - s) == 0)
  }

  /** The remainder of a burst's first byte never equals its second byte. */
  lemma BurstNotCancelled(p: bv8, s: bv8)
    requires s < 8 && p != 0
    ensures Absorb(0, p << s) != p >> (8 - s)
  {
    Unrolled(p << s);
    assert 0 ^ (p << s) == p << s;
  }

  /** The CRC of a burst alone is not zero. */
  lemma BurstRemains(error: seq<bv8>, at: nat, s: bv8, p: bv8)
    requires IsBurst(error, at, s, p)
    ensures Crc(error) != 0
  {
    QuietHead(error[..at]);
    BurstNotCancelled(p, s);
    var first := error[..at + 1];
    assert first[..at] == error[..at];
    if at + 1 < |error| {
      var both := error[..at + 2];
      assert both[..at + 1] == first;
      AbsorbZero(Crc(first), error[at + 1]);
      QuietTail(error, at + 2);
    } else {
      assert first == error;
    }
  }

  /** Every valid frame damaged by a burst of at most eight consecutive bits is rejected. */
  lemma BurstDetected(frame: seq<bv8>, error: seq<bv8>, at: nat, s: bv8, p: bv8)
    requires frame != [] && |error| == |frame| && Accepted(frame) && IsBurst(error, at, s, p)
    ensures !Accepted(Xor(frame, error))
  {
    BurstRemains(error, at, s, p);
    DamageNoticed(frame, error);
  }

  /** Changing one byte is a burst within that byte. */
  lemma ByteIsBurst(frame: seq<bv8>, damaged: seq<bv8>, at: nat)
    requires |damaged| == |frame| && at < |frame|
    requires damaged[at] != frame[at] && forall i :: 0 <= i < |frame| && i != at ==> damaged[i] == frame[i]
    ensures IsBurst(Xor(frame, damaged), at, 0, frame[at] ^ damaged[at])
  {
    forall i | 0 <= i < |frame| && i != at
      ensures Xor(frame, damaged)[i] == 0
    {
      Undo(frame[i], damaged[i]);
    }
    XorZero(frame[at], damaged[at]);
    NoShift(frame[at] ^ damaged[at]);
  }

  /** Damage applied to the frame is the damaged frame. */
  lemma XorAgain(frame: seq<bv8>, damaged: seq<bv8>)
    requires |damaged| == |frame|
    ensures Xor(frame, Xor(frame, damaged)) == damaged
  {
    forall i | 0 <= i < |frame|
      ensures Xor(frame, Xor(frame, damaged))[i] == damaged[i]
    {
      Undo(frame[i], damaged[i]);
    }
  }

  /** Every valid frame with any one byte changed is rejected. */
  lemma ByteDetected(frame: seq<bv8>, damaged: seq<bv8>, at: nat)
    requires |damaged| == |frame| && at < |frame| && Accepted(frame)
    requires damaged[at] != frame[at] && forall i :: 0 <= i < |frame| && i != at ==> damaged[i] == frame[i]
    ensures !Accepted(damaged)
  {
    ByteIsBurst(frame, damaged, at);
    XorAgain(frame, damaged);
    BurstDetected(frame, Xor(frame, damaged), at, 0, frame[at] ^ damaged[at]);
  }

  lemma Undo(a: bv8, b: bv8)
    ensures a ^ (a ^ b) == b && (a == b ==> a ^ b == 0)
  {
  }

  lemma NoShift(p: bv8)
    ensures p << (0 as bv8) == p && p >> (8 as bv8) == 0
  {
  }
}
