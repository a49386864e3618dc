/**
  Audio samples and bytes.  A sample is the 32-bit pattern of an f32 and is only
  moved, compared and classified, never rounded.
*/
module Samples {

  type Sample = x: int | 0 <= x < 0x1_0000_0000

  type Byte = x: int | 0 <= x < 0x100

  /** An f32 is finite unless its eight exponent bits are all ones. */
  predicate IsFinite(s: Sample) {
    (s / 0x80_0000) % 0x100 != 0xFF
  }

  /** The patterns of infinities and NaNs, positive and negative; every other pattern is a number. */
  lemma FiniteExactly(s: Sample)
    ensures !IsFinite(s) <==> 0x7F80_0000 <= s < 0x8000_0000 || 0xFF80_0000 <= s
  {
    var e := s / 0x80_0000;
    assert s == e * 0x80_0000 + s % 0x80_0000;
    assert e < 0x200;
  }

  predicate AllFinite(xs: seq<Sample>) {
    forall i :: 0 <= i < |xs| ==> IsFinite(xs[i])
  }

  /** The index of the first non-finite sample, or the length when all are finite. */
  function FirstNonFinite(xs: seq<Sample>): (i: nat)
    ensures i <= |xs|
    ensures forall j :: 0 <= j < i ==> IsFinite(xs[j])
    ensures i < |xs| ==> !IsFinite(xs[i])
  {
    if xs == [] then 0
    else if !IsFinite(xs[0]) then 0
    else 1 + FirstNonFinite(xs[1..])
  }
}
