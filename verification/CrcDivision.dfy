/** What the check byte means: the remainder of a polynomial division (firmware/main/src/real_temperature_sensors.c). */
module CrcDivision {
  import opened Crc8

  /** Polynomials over the two-element field, highest power first. */
  type Polynomial = seq<bool>

  /** x^8 + x^5 + x^4 + 1. */
  const GENERATOR: Polynomial := [true, false, false, true, true, false, false, false, true]

  const ZERO: Polynomial := [false, false, false, false, false, false, false, false]

  function Add(a: Polynomial, b: Polynomial): (c: Polynomial)
    requires |a| == |b|
    ensures |c| == |a| && forall i :: 0 <= i < |c| ==> c[i] == (a[i] != b[i])
  {
    seq(|a|, i requires 0 <= i < |a| => a[i] != b[i])
  }

  function AddIf(b: bool, p: Polynomial): (c: Polynomial)
    requires |p| == 9
    ensures |c| == 9
  {
    if b then Add(p, GENERATOR) else p
  }

  /** What has been multiplied so far, for one more digit of the factor. */
  function Extended(t: Polynomial, digit: bool): (p: Polynomial)
    requires |t| >= 8
    ensures |p| == |t| + 1
  {
    (t + [false])[..|t| - 8] + AddIf(digit, (t + [false])[|t| - 8..])
  }

  /** `q` times the generator. */
  function Times(q: Polynomial): (p: Polynomial)
    ensures |p| == |q| + 8
  {
    if q == [] then ZERO else Extended(Times(q[..|q| - 1]), q[|q| - 1])
  }

  /** One step of dividing by hand: bring down a digit, and subtract the generator if the leading digit asks for it. */
  function Divided(rest: Polynomial, digit: bool): (next: Polynomial)
    requires |rest| == 8
    ensures |next| == 8
  {
    AddIf(rest[0] != digit, rest + [false])[1..]
  }

  function Divide(rest: Polynomial, digits: Polynomial): (last: Polynomial)
    requires |rest| == 8
    ensures |last| == 8
  {
    if digits == [] then rest else Divided(Divide(rest, digits[..|digits| - 1]), digits[|digits| - 1])
  }

  /** What is subtracted from makes the digit brought down come out right. */
  lemma NextDigit(rest: Polynomial, digit: bool)
    requires |rest| == 8
    ensures AddIf(rest[0] != digit, rest + [false]) == [digit] + Divided(rest, digit)
  {
    var nine := AddIf(rest[0] != digit, rest + [false]);
    assert nine[0] == digit;
    assert nine == [nine[0]] + nine[1..];
  }

  lemma ExtendedIs(t: Polynomial, last: bool, head: Polynomial, rest: Polynomial)
    requires t == head + rest && |rest| == 8
    ensures Extended(t, last) == head + AddIf(last, rest + [false])
  {
    assert (t + [false])[..|head|] == head && (t + [false])[|head|..] == rest + [false];
  }

  lemma TimesOn(q: Polynomial, last: bool, head: Polynomial, rest: Polynomial)
    requires Times(q) == head + rest && |rest| == 8
    ensures Times(q + [last]) == head + AddIf(last, rest + [false])
  {
    assert (q + [last])[..|q|] == q;
    ExtendedIs(Times(q), last, head, rest);
  }

  lemma DivideNext(rest: Polynomial, p: Polynomial)
    requires |rest| == 8 && p != []
    ensures Divide(rest, p) == Divided(Divide(rest, p[..|p| - 1]), p[|p| - 1])
  {
  }

  /** Every polynomial, followed by eight digits for its remainder, is a multiple of the generator. */
  lemma {:induction false} HasQuotient(p: Polynomial, rest: Polynomial) returns (q: Polynomial)
    requires rest == Divide(ZERO, p)
    ensures |q| == |p| && Times(q) == p + rest
  {
    if p == [] {
      q := [];
    } else {
      var n := |p| - 1;
      var before := Divide(ZERO, p[..n]);
      var front := HasQuotient(p[..n], before);
      DivideNext(ZERO, p);
      q := QuotientOn(p[..n], p[n], front, before);
      assert p[..n] + [p[n]] == p;
    }
  }

  lemma QuotientOn(p: Polynomial, digit: bool, front: Polynomial, rest: Polynomial) returns (q: Polynomial)
    requires |front| == |p| && |rest| == 8 && Times(front) == p + rest
    ensures |q| == |p| + 1 && Times(q) == p + [digit] + Divided(rest, digit)
  {
    var last := rest[0] != digit;
    q := front + [last];
    TimesOn(front, last, p, rest);
    NextDigit(rest, digit);
    Joined(p, digit, Divided(rest, digit));
  }

  lemma Joined(p: Polynomial, digit: bool, rest: Polynomial)
    ensures p + ([digit] + rest) == p + [digit] + rest
  {
  }

  lemma LeadingDigit(rest: Polynomial, last: bool, nine: Polynomial)
    requires |rest| == 8 && nine == AddIf(last, rest + [false])
    ensures (rest[0] != nine[0]) == last && Divided(rest, nine[0]) == nine[1..]
  {
  }

  lemma DivideOne(head: Polynomial, digit: bool, rest: Polynomial)
    requires |rest| == 8 && Divide(ZERO, head) == rest
    ensures Divide(ZERO, head + [digit]) == Divided(rest, digit)
  {
    DivideNext(ZERO, head + [digit]);
    assert (head + [digit])[..|head|] == head;
  }

  /** The first digits of a product leave the others as their remainder; so they do with one more digit of the factor. */
  lemma EndsOn(last: bool, head: Polynomial, rest: Polynomial, nine: Polynomial)
    requires |rest| == 8 && Divide(ZERO, head) == rest && nine == AddIf(last, rest + [false])
    ensures Divide(ZERO, head + [nine[0]]) == nine[1..]
  {
    DivideOne(head, nine[0], rest);
    LeadingDigit(rest, last, nine);
  }

  lemma Regrouped(head: Polynomial, nine: Polynomial, all: Polynomial)
    requires |nine| == 9 && all == head + nine
    ensures all[..|head| + 1] == head + [nine[0]] && all[|head| + 1..] == nine[1..]
  {
  }

  lemma TimesNext(q: Polynomial, t: Polynomial, before: Polynomial)
    requires q != [] && t == Times(q) && before == Times(q[..|q| - 1])
    ensures t == Extended(before, q[|q| - 1])
  {
  }

  lemma ExtendedAt(before: Polynomial, digit: bool, n: nat, t: Polynomial)
    requires |before| == n + 8 && t == Extended(before, digit)
    ensures t == before[..n] + AddIf(digit, before[n..] + [false])
  {
    var head, rest := before[..n], before[n..];
    assert before == head + rest;
    ExtendedIs(before, digit, head, rest);
  }

  /** Only so: in a multiple of the generator the last eight digits are the remainder of those before. */
  lemma {:induction false} MultipleEndsSo(q: Polynomial, t: Polynomial)
    requires t == Times(q)
    ensures Divide(ZERO, t[..|q|]) == t[|q|..]
  {
    if q != [] {
      var n := |q| - 1;
      var before := Times(q[..n]);
      var nine := AddIf(q[n], before[n..] + [false]);
      MultipleEndsSo(q[..n], before);
      EndsOn(q[n], before[..n], before[n..], nine);
      TimesNext(q, t, before);
      ExtendedAt(before, q[n], n, t);
      Regrouped(before[..n], nine, t);
    }
  }

  // --- The shift register divides --------------------------------------------------------

  /** A byte's bits in the order in which the probe sends them. */
  function BitsOf(b: bv8): (bits: Polynomial)
    ensures |bits| == 8
  {
    [b & 1 != 0, b & 2 != 0, b & 4 != 0, b & 8 != 0, b & 16 != 0, b & 32 != 0, b & 64 != 0, b & 128 != 0]
  }

  function Sent(data: seq<bv8>): (bits: Polynomial)
    ensures |bits| == 8 * |data|
  {
    if data == [] then [] else Sent(data[..|data| - 1]) + BitsOf(data[|data| - 1])
  }

  /** The register after one more bit. */
  function Fed(crc: bv8, bit: bool): bv8 {
    if (crc & 1 != 0) != bit then (crc >> 1) ^ POLYNOMIAL else crc >> 1
  }

  lemma DividedIs(rest: Polynomial, bit: bool)
    requires |rest| == 8
    ensures var m := rest[0] != bit;
            Divided(rest, bit) == [rest[1], rest[2], rest[3] != m, rest[4] != m, rest[5], rest[6], rest[7], m]
  {
  }

  lemma FedDivides(crc: bv8, bit: bool)
    ensures BitsOf(Fed(crc, bit)) == Divided(BitsOf(crc), bit)
  {
    DividedIs(BitsOf(crc), bit);
    FedBits(crc, bit);
  }

  /** The register moves down by one bit; taking the generator off changes the three bits of x^5, x^4 and 1. */
  lemma FedBits(crc: bv8, bit: bool)
    ensures var mixed, now := (crc & 1 != 0) != bit, Fed(crc, bit);
            && (now & 1 != 0) == (crc & 2 != 0) && (now & 2 != 0) == (crc & 4 != 0)
            && (now & 4 != 0) == ((crc & 8 != 0) != mixed) && (now & 8 != 0) == ((crc & 16 != 0) != mixed)
            && (now & 16 != 0) == (crc & 32 != 0) && (now & 32 != 0) == (crc & 64 != 0)
            && (now & 64 != 0) == (crc & 128 != 0) && (now & 128 != 0) == mixed
  {
  }

  /** Feeding a byte bit by bit is absorbing it. */
  function FedAll(crc: bv8, byte: bv8, n: nat): bv8 {
    if n == 0 then crc else Fed(FedAll(crc, byte, n - 1), LowBit(ShiftedOut(byte, n - 1)))
  }

  predicate LowBit(byte: bv8) {
    byte & 1 != 0
  }

  /** Mixing the data in bit by bit, or all at once beforehand. */
  lemma FedStep(crc: bv8, byte: bv8)
    ensures Plus(Fed(crc, LowBit(byte)), byte >> 1) == Shift(Plus(crc, byte))
  {
  }

  lemma {:induction false} FedIsShift(crc: bv8, byte: bv8, n: nat, start: bv8)
    requires start == Plus(crc, byte)
    ensures Plus(FedAll(crc, byte, n), ShiftedOut(byte, n)) == Shifts(start, n)
  {
    if n > 0 {
      FedIsShift(crc, byte, n - 1, start);
      FedStep(FedAll(crc, byte, n - 1), ShiftedOut(byte, n - 1));
    }
  }

  lemma AbsorbFeeds(crc: bv8, byte: bv8)
    ensures Absorb(crc, byte) == FedAll(crc, byte, 8)
  {
    FedIsShift(crc, byte, 8, crc ^ byte);
    EightShifts(byte);
    XorZero(FedAll(crc, byte, 8), Shifts(crc ^ byte, 8));
  }

  lemma ShiftedBits(byte: bv8)
    ensures ShiftedOut(byte, 1) == byte >> 1
    ensures ShiftedOut(byte, 2) == byte >> 2
    ensures ShiftedOut(byte, 3) == byte >> 3
    ensures ShiftedOut(byte, 4) == byte >> 4
    ensures ShiftedOut(byte, 5) == byte >> 5
    ensures ShiftedOut(byte, 6) == byte >> 6
    ensures ShiftedOut(byte, 7) == byte >> 7
  {
    assert ShiftedOut(byte, 1) == byte >> 1;
    assert ShiftedOut(byte, 2) == byte >> 2;
    assert ShiftedOut(byte, 3) == byte >> 3;
    assert ShiftedOut(byte, 4) == byte >> 4;
    assert ShiftedOut(byte, 5) == byte >> 5;
    assert ShiftedOut(byte, 6) == byte >> 6;
  }

  lemma LowBits(byte: bv8)
    ensures ((byte >> 1) & 1 != 0) == (byte & 2 != 0) && ((byte >> 2) & 1 != 0) == (byte & 4 != 0)
    ensures ((byte >> 3) & 1 != 0) == (byte & 8 != 0) && ((byte >> 4) & 1 != 0) == (byte & 16 != 0)
    ensures ((byte >> 5) & 1 != 0) == (byte & 32 != 0) && ((byte >> 6) & 1 != 0) == (byte & 64 != 0)
    ensures ((byte >> 7) & 1 != 0) == (byte & 128 != 0)
  {
  }

  lemma BitAt(byte: bv8, n: nat)
    requires n < 8
    ensures LowBit(ShiftedOut(byte, n)) == BitsOf(byte)[n]
  {
    ShiftedBits(byte);
    LowBits(byte);
  }

  lemma {:induction false} BitsDivide(crc: bv8, byte: bv8, n: nat)
    requires n <= 8
    ensures BitsOf(FedAll(crc, byte, n)) == Divide(BitsOf(crc), BitsOf(byte)[..n])
  {
    if n > 0 {
      BitsDivide(crc, byte, n - 1);
      BitAt(byte, n - 1);
      FedDivides(FedAll(crc, byte, n - 1), BitsOf(byte)[n - 1]);
      assert BitsOf(byte)[..n][..n - 1] == BitsOf(byte)[..n - 1];
    }
  }

  lemma {:induction false} DivideOn(rest: Polynomial, a: Polynomial, b: Polynomial)
    requires |rest| == 8
    ensures Divide(rest, a + b) == Divide(Divide(rest, a), b)
  {
    if b == [] {
      assert a + b == a;
    } else {
      assert (a + b)[..|a + b| - 1] == a + b[..|b| - 1];
      DivideOn(rest, a, b[..|b| - 1]);
    }
  }

  /** The check byte's bits are the remainder of the data's. */
  lemma {:induction false} CrcIsRemainder(data: seq<bv8>)
    ensures BitsOf(Crc(data)) == Divide(ZERO, Sent(data))
  {
    if data != [] {
      var front, last := data[..|data| - 1], data[|data| - 1];
      CrcIsRemainder(front);
      AbsorbFeeds(Crc(front), last);
      BitsDivide(Crc(front), last, 8);
      assert BitsOf(last)[..8] == BitsOf(last);
      DivideOn(ZERO, Sent(front), BitsOf(last));
    }
  }

  lemma BitsTell(a: bv8, b: bv8)
    ensures a == b <==> BitsOf(a) == BitsOf(b)
  {
    if BitsOf(a) == BitsOf(b) {
      assert forall i :: 0 <= i < 8 ==> BitsOf(a)[i] == BitsOf(b)[i];
      assert BitsOf(a)[0] == BitsOf(b)[0] && BitsOf(a)[1] == BitsOf(b)[1] && BitsOf(a)[2] == BitsOf(b)[2] && BitsOf(a)[3] == BitsOf(b)[3];
      assert BitsOf(a)[4] == BitsOf(b)[4] && BitsOf(a)[5] == BitsOf(b)[5] && BitsOf(a)[6] == BitsOf(b)[6] && BitsOf(a)[7] == BitsOf(b)[7];
      SameBits(a, b);
    }
  }

  lemma SameBits(a: bv8, b: bv8)
    requires (a & 1 != 0) == (b & 1 != 0) && (a & 2 != 0) == (b & 2 != 0) && (a & 4 != 0) == (b & 4 != 0) && (a & 8 != 0) == (b & 8 != 0)
    requires (a & 16 != 0) == (b & 16 != 0) && (a & 32 != 0) == (b & 32 != 0) && (a & 64 != 0) == (b & 64 != 0) && (a & 128 != 0) == (b & 128 != 0)
    ensures a == b
  {
  }

  ghost predicate Multiple(p: Polynomial) {
    exists q: Polynomial :: Times(q) == p
  }

  /** A frame is accepted exactly when its bits, as sent, are a multiple of x^8 + x^5 + x^4 + 1. */
  lemma AcceptedIffMultiple(frame: seq<bv8>)
    requires frame != []
    ensures Accepted(frame) <==> Multiple(Sent(frame))
  {
    var data, check := frame[..|frame| - 1], frame[|frame| - 1];
    CrcIsRemainder(data);
    BitsTell(Crc(data), check);
    if Accepted(frame) {
      var q := HasQuotient(Sent(data), Divide(ZERO, Sent(data)));
    }
    forall q: Polynomial | Times(q) == Sent(frame)
      ensures Accepted(frame)
    {
      MultipleEndsSo(q, Times(q));
      assert Sent(frame)[..|q|] == Sent(data) && Sent(frame)[|q|..] == BitsOf(check);
    }
  }
}
