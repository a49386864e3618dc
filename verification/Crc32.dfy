/**
  CRC-32 with the reflected polynomial 0xEDB88320.  The table-driven loop is proved equal to
  the definition: shift the register one message bit at a time, least significant bit of
  each byte first (section 3.2.9 of IEEE 802.3, section 8 of RFC 1952).  The register step
  is a bijection, which is what makes the checksum detect every short burst of errors.
*/
module Crc32 {

  const POLY: bv32 := 0xEDB8_8320
  const ONES: bv32 := 0xFFFF_FFFF

  // ---- The definition ----

  function Xor(a: bv32, b: bv32): bv32 { a ^ b }

  predicate LowBit(w: bv32) { w & 1 != 0 }

  function Half(w: bv32): bv32 { w >> 1 }

  /** One shift of the register. */
  function Shift(c: bv32): bv32 {
    if LowBit(c) then Xor(POLY, Half(c)) else Half(c)
  }

  function Bit(b: bool): bv32 { if b then 1 else 0 }

  /** The register after a sequence of message bits. */
  function Register(c: bv32, bits: seq<bool>): bv32 {
    if bits == [] then c else Shift(Xor(Register(c, bits[..|bits| - 1]), Bit(bits[|bits| - 1])))
  }

  /** The low `k` bits of a word, least significant first. */
  function LowBits(w: bv32, k: nat): (bits: seq<bool>)
    ensures |bits| == k
  {
    if k == 0 then [] else [LowBit(w)] + LowBits(Half(w), k - 1)
  }

  /** The bits of a message in transmission order. */
  function Bits(bytes: seq<bv8>): (bits: seq<bool>)
    ensures |bits| == 8 * |bytes|
  {
    if bytes == [] then [] else Bits(bytes[..|bytes| - 1]) + LowBits(bytes[|bytes| - 1] as bv32, 8)
  }

  function Crc(bytes: seq<bv8>): bv32 { Xor(Register(ONES, Bits(bytes)), ONES) }

  // ---- Algebra of the register ----

  function Shifts(c: bv32, k: nat): bv32 {
    if k == 0 then c else Shift(Shifts(c, k - 1))
  }

  lemma XorIsAssociative(a: bv32, b: bv32, c: bv32)
    ensures Xor(Xor(a, b), c) == Xor(a, Xor(b, c))
  {
  }

  lemma XorCancels(a: bv32, b: bv32)
    ensures Xor(Xor(a, b), b) == a && Xor(a, b) == Xor(b, a) && Xor(a, 0) == a
  {
  }

  lemma HalfIsLinear(a: bv32, b: bv32)
    ensures Half(Xor(a, b)) == Xor(Half(a), Half(b))
  {
  }

  lemma LowBitIsLinear(a: bv32, b: bv32)
    ensures LowBit(Xor(a, b)) == (LowBit(a) != LowBit(b))
  {
  }

  lemma ShiftIsLinear(a: bv32, b: bv32)
    ensures Shift(Xor(a, b)) == Xor(Shift(a), Shift(b))
  {
    hide Xor, Half, LowBit;
    HalfIsLinear(a, b);
    LowBitIsLinear(a, b);
    var x, y := Half(a), Half(b);
    XorIsAssociative(POLY, x, y);
    XorIsAssociative(x, POLY, y);
    XorIsAssociative(POLY, x, Xor(POLY, y));
    XorCancels(x, POLY);
    XorCancels(Xor(x, POLY), Xor(POLY, y));
    XorIsAssociative(Xor(x, y), POLY, POLY);
    XorIsAssociative(Xor(x, POLY), POLY, y);
    XorIsAssociative(x, POLY, POLY);
    XorCancels(POLY, POLY);
    XorCancels(x, y);
  }

  lemma {:induction false} ShiftsAreLinear(a: bv32, b: bv32, k: nat)
    ensures Shifts(Xor(a, b), k) == Xor(Shifts(a, k), Shifts(b, k))
  {
    hide Shift, Xor;
    if k > 0 {
      ShiftsAreLinear(a, b, k - 1);
      ShiftIsLinear(Shifts(a, k - 1), Shifts(b, k - 1));
    }
  }

  predicate TopBit(w: bv32) { w & 0x8000_0000 != 0 }

  function Double(w: bv32, b: bool): bv32 { (w << 1) | Bit(b) }

  function Unshift(c: bv32): bv32 {
    if TopBit(c) then Double(Xor(POLY, c), true) else Double(c, false)
  }

  lemma HalfHasNoTopBit(c: bv32)
    ensures !TopBit(Half(c))
  {
  }

  lemma OddAndBack(c: bv32)
    requires c & 1 != 0
    ensures ((c >> 1) << 1) | 1 == c
  {
  }

  lemma EvenAndBack(c: bv32)
    requires c & 1 == 0
    ensures ((c >> 1) << 1) | 0 == c
  {
  }

  lemma HalfAndBack(c: bv32)
    ensures Double(Half(c), LowBit(c)) == c
  {
    if LowBit(c) {
      OddAndBack(c);
    } else {
      EvenAndBack(c);
    }
  }

  lemma PolySetsTopBit(h: bv32)
    requires !TopBit(h)
    ensures TopBit(Xor(POLY, h)) && Xor(POLY, Xor(POLY, h)) == h
  {
  }

  /** The register step can be undone, because the polynomial's top bit is set. */
  lemma ShiftIsInvertible(c: bv32)
    ensures Unshift(Shift(c)) == c
  {
    hide Xor, Half, LowBit, TopBit, Double;
    HalfHasNoTopBit(c);
    HalfAndBack(c);
    PolySetsTopBit(Half(c));
  }

  lemma {:induction false} ShiftsAreInjective(a: bv32, b: bv32, k: nat)
    requires Shifts(a, k) == Shifts(b, k)
    ensures a == b
  {
    hide Shift, Unshift;
    if k > 0 {
      ShiftIsInvertible(Shifts(a, k - 1));
      ShiftIsInvertible(Shifts(b, k - 1));
      ShiftsAreInjective(a, b, k - 1);
    }
  }

  lemma {:induction false} ShiftsSplit(c: bv32, j: nat, k: nat)
    ensures Shifts(c, j + k) == Shifts(Shifts(c, j), k)
  {
    hide Shift;
    if k > 0 {
      ShiftsSplit(c, j, k - 1);
    }
  }

  lemma {:induction false} RegisterConcat(c: bv32, a: seq<bool>, b: seq<bool>)
    ensures Register(c, a + b) == Register(Register(c, a), b)
  {
    hide Shift, Xor;
    if b == [] {
      assert a + b == a;
    } else {
      RegisterConcat(c, a, b[..|b| - 1]);
      assert (a + b)[..|a + b| - 1] == a + b[..|b| - 1];
    }
  }

  /** With equal remaining input, different registers stay different. */
  lemma {:induction false} RegisterIsInjective(c: bv32, d: bv32, bits: seq<bool>)
    requires Register(c, bits) == Register(d, bits)
    ensures c == d
  {
    hide Shift, Unshift, Xor;
    if bits != [] {
      var init, last := bits[..|bits| - 1], Bit(bits[|bits| - 1]);
      var x, y := Register(c, init), Register(d, init);
      ShiftIsInvertible(Xor(x, last));
      ShiftIsInvertible(Xor(y, last));
      XorCancels(x, last);
      XorCancels(y, last);
      RegisterIsInjective(c, d, init);
    }
  }

  // ---- Up to 32 message bits enter the register as one word ----

  function LowByte(w: bv32): bv32 { w & 0xFF }

  function HighBytes(w: bv32): bv32 { w & 0xFFFF_FF00 }

  function Upper(w: bv32): bv32 { w >> 8 }

  function Drop(w: bv32, k: nat): bv32 {
    if k == 0 then w else Drop(Half(w), k - 1)
  }

  function Even(w: bv32): bv32 { w & 0xFFFF_FFFE }

  lemma SplitLowBit(w: bv32)
    ensures w == Xor(Bit(LowBit(w)), Even(w))
    ensures Shift(Even(w)) == Half(w)
  {
    LowBitAndRest(w);
    EvenShifts(w);
  }

  lemma LowBitAndRest(w: bv32)
    ensures w == Xor(Bit(LowBit(w)), Even(w))
  {
    if w & 1 != 0 {
      assert 1 ^ (w & 0xFFFF_FFFE) == w;
    } else {
      assert 0 ^ (w & 0xFFFF_FFFE) == w;
    }
  }

  lemma EvenShifts(w: bv32)
    ensures Shift(Even(w)) == Half(w)
  {
    assert (w & 0xFFFF_FFFE) & 1 == 0;
    assert (w & 0xFFFF_FFFE) >> 1 == w >> 1;
  }

  lemma OneBit(c: bv32, b: bool)
    ensures Register(c, [b]) == Shift(Xor(c, Bit(b)))
  {
    hide Shift, Xor;
    assert [b][..0] == [];
    assert Register(c, []) == c;
  }

  /** `k` shifts of `c ^ w` are `k` input steps with the low bits of `w`; the rest of `w` moves down. */
  lemma {:induction false} WordEnters(c: bv32, w: bv32, k: nat)
    ensures Shifts(Xor(c, w), k) == Xor(Register(c, LowBits(w, k)), Drop(w, k))
    decreases k
  {
    hide Shift, Xor, LowBit, Half, Even, Bit;
    if k > 0 {
      var b := LowBit(w);
      SplitLowBit(w);
      XorIsAssociative(c, Bit(b), Even(w));
      ShiftIsLinear(Xor(c, Bit(b)), Even(w));
      OneBit(c, b);
      ShiftsSplit(Xor(c, w), 1, k - 1);
      assert Shifts(Xor(c, w), 0) == Xor(c, w);
      WordEnters(Register(c, [b]), Half(w), k - 1);
      RegisterConcat(c, [b], LowBits(Half(w), k - 1));
    }
  }

  lemma {:induction false} DropSplit(w: bv32, j: nat, k: nat)
    ensures Drop(w, j + k) == Drop(Drop(w, j), k)
    decreases j
  {
    hide Half;
    if j > 0 {
      DropSplit(Half(w), j - 1, k);
    }
  }

  lemma {:induction false} DropOfZero(k: nat)
    ensures Drop(0, k) == 0
  {
    if k > 0 {
      assert Half(0) == 0;
      DropOfZero(k - 1);
    }
  }

  predicate Covers(w: bv32, t: bv32) { w & t == t }

  lemma HalfCovers(w: bv32, t: bv32)
    requires Covers(w, t)
    ensures Covers(Half(w), Half(t))
  {
  }

  lemma {:induction false} DropCovers(w: bv32, t: bv32, k: nat)
    requires Covers(w, t)
    ensures Covers(Drop(w, k), Drop(t, k))
    decreases k
  {
    hide Half, Covers;
    if k > 0 {
      HalfCovers(w, t);
      DropCovers(Half(w), Half(t), k - 1);
    }
  }

  lemma FourHalves(w: bv32)
    ensures Drop(w, 4) == w >> 4
  {
    var a := Half(w);
    var b := Half(a);
    var c := Half(b);
    var d := Half(c);
    assert d == w >> 4 by { HalvesAdd(w); }
    assert Drop(d, 0) == d;
    assert Drop(c, 1) == d;
    assert Drop(b, 2) == d;
    assert Drop(a, 3) == d;
  }

  lemma EightHalves(w: bv32)
    ensures Drop(w, 8) == Upper(w)
  {
    hide Drop;
    FourHalves(w);
    FourHalves(w >> 4);
    DropSplit(w, 4, 4);
    assert (w >> 4) >> 4 == w >> 8;
  }

  /** A word with its top bit set is still non-zero after at most 31 halvings. */
  lemma TopBitNeeds32(w: bv32, k: nat)
    requires TopBit(w) && k <= 31
    ensures Drop(w, k) != 0
  {
    var t: bv32 := 0x8000_0000;
    DropCovers(w, t, k);
    if Drop(w, k) == 0 {
      assert Drop(t, k) == 0;
      DropSplit(t, k, 31 - k);
      DropOfZero(31 - k);
      EightHalves(t);
      EightHalves(0x80_0000);
      EightHalves(0x8000);
      FourHalves(0x80);
      DropSplit(t, 8, 8);
      DropSplit(t, 16, 8);
      DropSplit(t, 24, 4);
      DropSplit(t, 28, 3);
      assert Drop(8, 3) == 1;
    }
  }

  /** The word whose low bits are `bits`. */
  function Word(bits: seq<bool>): bv32 {
    if bits == [] then 0 else Double(Word(bits[1..]), bits[0])
  }

  lemma DoubleOdd(w: bv32)
    requires w & 0x8000_0000 == 0
    ensures ((w << 1) | 1) >> 1 == w && ((w << 1) | 1) & 1 != 0
  {
  }

  lemma DoubleEven(w: bv32)
    requires w & 0x8000_0000 == 0
    ensures ((w << 1) | 0) >> 1 == w && ((w << 1) | 0) & 1 == 0
  {
  }

  lemma DoubleAndBack(w: bv32, b: bool)
    requires !TopBit(w)
    ensures Half(Double(w, b)) == w && LowBit(Double(w, b)) == b
  {
    if b {
      DoubleOdd(w);
    } else {
      DoubleEven(w);
    }
  }

  lemma {:induction false} WordOfBits(bits: seq<bool>)
    requires |bits| <= 32
    ensures LowBits(Word(bits), |bits|) == bits && Drop(Word(bits), |bits|) == 0
  {
    hide Half, Double, LowBit, TopBit;
    if bits != [] {
      WordOfBits(bits[1..]);
      if TopBit(Word(bits[1..])) {
        TopBitNeeds32(Word(bits[1..]), |bits| - 1);
      }
      DoubleAndBack(Word(bits[1..]), bits[0]);
    }
  }

  /** From one register, different inputs of at most 32 bits lead to different registers. */
  lemma ShortInputsDiffer(c: bv32, u: seq<bool>, v: seq<bool>)
    requires |u| == |v| <= 32 && Register(c, u) == Register(c, v)
    ensures u == v
  {
    hide Xor, Register, Word, LowBits, Drop, Shifts;
    var k, x, y := |u|, Word(u), Word(v);
    WordOfBits(u);
    WordOfBits(v);
    WordEnters(c, x, k);
    WordEnters(c, y, k);
    ShiftsAreInjective(Xor(c, x), Xor(c, y), k);
    XorCancels(x, c);
    XorCancels(y, c);
  }

  /** `x` and `y` agree except inside a window of 32 consecutive bits starting at `p`. */
  predicate DifferInWindow(x: seq<bool>, y: seq<bool>, p: nat) {
    |x| == |y| && forall i :: 0 <= i < |x| && !(p <= i < p + 32) ==> x[i] == y[i]
  }

  /** A burst of errors no longer than the register always changes the register. */
  lemma BurstChangesRegister(c: bv32, x: seq<bool>, y: seq<bool>, p: nat)
    requires DifferInWindow(x, y, p) && p <= |x|
    requires Register(c, x) == Register(c, y)
    ensures x == y
  {
    hide Register, DifferInWindow;
    var q := if p + 32 <= |x| then p + 32 else |x|;
    WindowParts(x, y, p, q);
    var before := Register(c, x[..p]);
    ThreeParts(c, x, p, q);
    ThreeParts(c, y, p, q);
    RegisterIsInjective(Register(before, x[p..q]), Register(before, y[p..q]), x[q..]);
    ShortInputsDiffer(before, x[p..q], y[p..q]);
    assert x == x[..p] + x[p..q] + x[q..] && y == y[..p] + y[p..q] + y[q..];
  }

  lemma WindowParts(x: seq<bool>, y: seq<bool>, p: nat, q: nat)
    requires DifferInWindow(x, y, p) && p <= |x|
    requires q == if p + 32 <= |x| then p + 32 else |x|
    ensures |x| == |y| && x[..p] == y[..p] && x[q..] == y[q..]
  {
  }

  /** The register after a prefix, a middle and a rest. */
  lemma ThreeParts(c: bv32, x: seq<bool>, p: nat, q: nat)
    requires p <= q <= |x|
    ensures Register(c, x) == Register(Register(Register(c, x[..p]), x[p..q]), x[q..])
  {
    hide Register;
    assert x == x[..p] + x[p..] && x[p..] == x[p..q] + x[q..];
    RegisterConcat(c, x[..p], x[p..]);
    RegisterConcat(Register(c, x[..p]), x[p..q], x[q..]);
  }

  // ---- The table-driven form ----

  /** Eight shifts of a register whose low byte is clear only move it down. */
  lemma HighBytesMoveDown(c: bv32)
    requires c & 0xFF == 0
    ensures Shifts(c, 8) == Upper(c)
  {
    ClearBits(c);
    HalvesAdd(c);
    assert Shifts(c, 1) == c >> 1;
    assert Shifts(c, 2) == c >> 2;
    assert Shifts(c, 3) == c >> 3;
    assert Shifts(c, 4) == c >> 4;
    assert Shifts(c, 5) == c >> 5;
    assert Shifts(c, 6) == c >> 6;
    assert Shifts(c, 7) == c >> 7;
  }

  lemma ClearBits(c: bv32)
    requires c & 0xFF == 0
    ensures c & 1 == 0 && (c >> 1) & 1 == 0 && (c >> 2) & 1 == 0 && (c >> 3) & 1 == 0
    ensures (c >> 4) & 1 == 0 && (c >> 5) & 1 == 0 && (c >> 6) & 1 == 0 && (c >> 7) & 1 == 0
  {
  }

  lemma HalvesAdd(c: bv32)
    ensures (c >> 1) >> 1 == c >> 2 && (c >> 2) >> 1 == c >> 3 && (c >> 3) >> 1 == c >> 4
    ensures (c >> 4) >> 1 == c >> 5 && (c >> 5) >> 1 == c >> 6 && (c >> 6) >> 1 == c >> 7
    ensures (c >> 7) >> 1 == c >> 8
  {
  }

  lemma SplitLowByte(c: bv32)
    ensures Xor(LowByte(c), HighBytes(c)) == c
    ensures HighBytes(c) & 0xFF == 0 && Upper(HighBytes(c)) == Upper(c)
  {
  }

  lemma EightShifts(c: bv32)
    ensures Shifts(c, 8) == Xor(Shifts(LowByte(c), 8), Upper(c))
  {
    hide Xor, Shifts, LowByte, HighBytes;
    SplitLowByte(c);
    ShiftsAreLinear(LowByte(c), HighBytes(c), 8);
    HighBytesMoveDown(HighBytes(c));
  }

  lemma ByteIsSmall(c: bv32, b: bv8)
    ensures Upper(b as bv32) == 0 && Upper(Xor(c, b as bv32)) == Upper(c)
  {
  }

  /** Eight input bits at once: one table lookup and a move down. */
  lemma ByteEnters(c: bv32, b: bv8)
    ensures Register(c, LowBits(b as bv32, 8)) == Xor(Shifts(LowByte(Xor(c, b as bv32)), 8), Upper(c))
  {
    hide Xor, Shifts, Register, LowBits, Drop, LowByte, Upper;
    var w := b as bv32;
    WordEnters(c, w, 8);
    EightHalves(w);
    ByteIsSmall(c, b);
    XorCancels(Register(c, LowBits(w, 8)), 0);
    EightShifts(Xor(c, w));
  }

  /** What the lookup table must hold. */
  ghost predicate IsTable(t: seq<bv32>) {
    |t| == 256 && forall i :: 0 <= i < 256 ==> t[i] == Shifts(i as bv32, 8)
  }

  method BuildTable() returns (t: array<bv32>)
    ensures fresh(t) && IsTable(t[..])
  {
    hide Xor, Half, LowBit;
    t := new bv32[256](_ => 0);
    var i := 0;
    while i < 256
      invariant 0 <= i <= 256
      invariant forall j :: 0 <= j < i ==> t[j] == Shifts(j as bv32, 8)
    {
      var c := i as bv32;
      var k := 0;
      while k < 8
        invariant 0 <= k <= 8 && c == Shifts(i as bv32, k)
      {
        c := if LowBit(c) then Xor(POLY, Half(c)) else Half(c);
        k := k + 1;
      }
      t[i] := c;
      i := i + 1;
    }
  }

  lemma IndexRange(c: bv32)
    ensures LowByte(c) as int < 256 && (LowByte(c) as int) as bv32 == LowByte(c)
  {
  }

  /** The byte-at-a-time loop over the table computes the bit-at-a-time checksum. */
  method Crc32Ieee(t: array<bv32>, bytes: seq<bv8>) returns (crc: bv32)
    requires IsTable(t[..])
    ensures crc == Crc(bytes)
  {
    hide Xor, Shifts, Register, LowBits, LowByte, Upper;
    crc := ONES;
    assert bytes[..0] == [];
    RegisterOfNothing(ONES);
    for i := 0 to |bytes|
      invariant crc == Register(ONES, Bits(bytes[..i]))
    {
      var b := bytes[i];
      assert bytes[..i + 1][..i] == bytes[..i];
      RegisterConcat(ONES, Bits(bytes[..i]), LowBits(b as bv32, 8));
      ByteEnters(crc, b);
      IndexRange(Xor(crc, b as bv32));
      crc := Xor(t[LowByte(Xor(crc, b as bv32)) as int], Upper(crc));
    }
    assert bytes[..|bytes|] == bytes;
    crc := Xor(crc, ONES);
  }

  lemma RegisterOfNothing(c: bv32)
    ensures Register(c, Bits([])) == c
  {
  }

  // ---- Reference values ----

  /** One more byte, by the table entry of its index. */
  lemma Absorb(bytes: seq<bv8>, c: bv32, b: bv8, index: bv32, entry: bv32, c': bv32)
    requires Register(ONES, Bits(bytes)) == c
    requires LowByte(Xor(c, b as bv32)) == index && Shifts(index, 8) == entry && Xor(entry, Upper(c)) == c'
    ensures Register(ONES, Bits(bytes + [b])) == c'
  {
    hide Xor, Shifts, Register, LowBits, LowByte, Upper;
    assert (bytes + [b])[..|bytes|] == bytes;
    RegisterConcat(ONES, Bits(bytes), LowBits(b as bv32, 8));
    ByteEnters(c, b);
  }

  lemma FourAndFour(index: bv32, middle: bv32, entry: bv32)
    requires Shifts(index, 4) == middle && Shifts(middle, 4) == entry
    ensures Shifts(index, 8) == entry
  {
    hide Shifts;
    ShiftsSplit(index, 4, 4);
  }

  lemma TableEntriesA()
    ensures Shifts(0x00, 8) == 0x0000_0000
    ensures Shifts(0x01, 8) == 0x7707_3096
    ensures Shifts(0x19, 8) == 0x646B_A8C0
  {
    FourAndFour(0x00, 0x0000_0000, 0x0000_0000);
    FourAndFour(0x01, 0x1DB7_1064, 0x7707_3096);
    FourAndFour(0x19, 0xF00F_9345, 0x646B_A8C0);
  }

  lemma TableEntriesB()
    ensures Shifts(0x58, 8) == 0x65B0_D9C6
    ensures Shifts(0x69, 8) == 0x346E_D9FC
    ensures Shifts(0x72, 8) == 0xBE0B_1010
  {
    FourAndFour(0x58, 0xEDB8_8325, 0x65B0_D9C6);
    FourAndFour(0x69, 0xF00F_9342, 0x346E_D9FC);
    FourAndFour(0x72, 0x3B6E_20CF, 0xBE0B_1010);
  }

  lemma TableEntriesC()
    ensures Shifts(0x7A, 8) == 0xB0D0_9822
    ensures Shifts(0xA9, 8) == 0xAF0A_1B4C
    ensures Shifts(0xCE, 8) == 0x7CDC_EFB7
  {
    FourAndFour(0x7A, 0xD6D6_A3EF, 0xB0D0_9822);
    FourAndFour(0xA9, 0xF00F_934E, 0xAF0A_1B4C);
    FourAndFour(0xCE, 0xA00A_E274, 0x7CDC_EFB7);
  }

  lemma TableEntriesD()
    ensures Shifts(0xD5, 8) == 0xF6B9_265B
    ensures Shifts(0xED, 8) == 0xDEBB_9EC5
    ensures Shifts(0xFF, 8) == 0x2D02_EF8D
  {
    FourAndFour(0xD5, 0x6B6B_51F9, 0xF6B9_265B);
    FourAndFour(0xED, 0x86D3_D2DA, 0xDEBB_9EC5);
    FourAndFour(0xFF, 0xBDBD_F213, 0x2D02_EF8D);
  }

  /** The registers after one, two and so on up to nine of the digits "123456789". */
  lemma DigitsEnter(s: seq<bv8>)
    requires s == [0x31, 0x32, 0x33, 0x34, 0x35, 0x36, 0x37, 0x38, 0x39]
    ensures Register(ONES, Bits(s)) == 0x340B_C6D9
  {
    hide Register, LowBits, Bits, Shifts;
    TableEntriesA();
    TableEntriesB();
    TableEntriesC();
    TableEntriesD();
    RegisterOfNothing(ONES);
    assert s[..0] == [];
    Absorb(s[..0], 0xFFFF_FFFF, 0x31, 0xCE, 0x7CDC_EFB7, 0x7C23_1048);
    assert s[..0] + [0x31] == s[..1];
    Absorb(s[..1], 0x7C23_1048, 0x32, 0x7A, 0xB0D0_9822, 0xB0AC_BB32);
    assert s[..1] + [0x32] == s[..2];
    Absorb(s[..2], 0xB0AC_BB32, 0x33, 0x01, 0x7707_3096, 0x77B7_9C2D);
    assert s[..2] + [0x33] == s[..3];
    Absorb(s[..3], 0x77B7_9C2D, 0x34, 0x19, 0x646B_A8C0, 0x641C_1F5C);
    assert s[..3] + [0x34] == s[..4];
    Absorb(s[..4], 0x641C_1F5C, 0x35, 0x69, 0x346E_D9FC, 0x340A_C5E3);
    assert s[..4] + [0x35] == s[..5];
    Absorb(s[..5], 0x340A_C5E3, 0x36, 0xD5, 0xF6B9_265B, 0xF68D_2C9E);
    assert s[..5] + [0x36] == s[..6];
    Absorb(s[..6], 0xF68D_2C9E, 0x37, 0xA9, 0xAF0A_1B4C, 0xAFFC_9660);
    assert s[..6] + [0x37] == s[..7];
    Absorb(s[..7], 0xAFFC_9660, 0x38, 0x58, 0x65B0_D9C6, 0x651F_2550);
    assert s[..7] + [0x38] == s[..8];
    Absorb(s[..8], 0x651F_2550, 0x39, 0x69, 0x346E_D9FC, 0x340B_C6D9);
    assert s[..8] + [0x39] == s[..9];
    assert s[..9] == s;
  }

  /** The check value that catalogues of checksums give for this one. */
  lemma CheckValue()
    ensures Crc([0x31, 0x32, 0x33, 0x34, 0x35, 0x36, 0x37, 0x38, 0x39]) == 0xCBF4_3926
  {
    hide Register, Bits;
    DigitsEnter([0x31, 0x32, 0x33, 0x34, 0x35, 0x36, 0x37, 0x38, 0x39]);
  }

  lemma EightMore(c: bv32, index: bv32, entry: bv32, c': bv32)
    requires LowByte(c) == index && Shifts(index, 8) == entry && Xor(entry, Upper(c)) == c'
    ensures Shifts(c, 8) == c'
  {
    hide Shifts, Xor, LowByte, Upper;
    EightShifts(c);
  }

  /** The register that 32 shifts make of all ones: the residue of the standard. */
  lemma ResidueValue()
    ensures Shifts(ONES, 32) == 0xDEBB_20E3
  {
    hide Shifts;
    TableEntriesA();
    TableEntriesB();
    TableEntriesC();
    TableEntriesD();
    EightMore(0xFFFF_FFFF, 0xFF, 0x2D02_EF8D, 0x2DFD_1072);
    EightMore(0x2DFD_1072, 0x72, 0xBE0B_1010, 0xBE26_ED00);
    EightMore(0xBE26_ED00, 0x00, 0x0000_0000, 0x00BE_26ED);
    EightMore(0x00BE_26ED, 0xED, 0xDEBB_9EC5, 0xDEBB_20E3);
    ShiftsSplit(ONES, 8, 8);
    ShiftsSplit(ONES, 16, 8);
    ShiftsSplit(ONES, 24, 8);
  }
}
