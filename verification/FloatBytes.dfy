/** Samples as four little-endian bytes, one after the other. */
module FloatBytes {
  import opened Samples

  function ToBytes(s: Sample): (b: seq<Byte>)
    ensures |b| == 4
    ensures s == b[0] as int + 0x100 * b[1] as int + 0x1_0000 * b[2] as int + 0x100_0000 * b[3] as int
  {
    Quotients(s);
    [s % 0x100, (s / 0x100) % 0x100, (s / 0x1_0000) % 0x100, s / 0x100_0000]
  }

  function FromBytes(b0: Byte, b1: Byte, b2: Byte, b3: Byte): Sample {
    b0 + 0x100 * b1 + 0x1_0000 * b2 + 0x100_0000 * b3
  }

  lemma Quotients(s: Sample)
    ensures s / 0x1_0000 == (s / 0x100) / 0x100
    ensures s / 0x100_0000 == (s / 0x1_0000) / 0x100
  {
  }

  lemma BytesRoundTrip(s: Sample)
    ensures var b := ToBytes(s); FromBytes(b[0], b[1], b[2], b[3]) == s
  {
  }

  function SampleAt(bytes: seq<Byte>, i: nat): Sample
    requires 4 * i + 4 <= |bytes|
  {
    FromBytes(bytes[4 * i], bytes[4 * i + 1], bytes[4 * i + 2], bytes[4 * i + 3])
  }

  /** The first `count` samples of a byte string. */
  function Decoded(bytes: seq<Byte>, count: nat): (xs: seq<Sample>)
    requires 4 * count <= |bytes|
    ensures |xs| == count && forall i :: 0 <= i < count ==> xs[i] == SampleAt(bytes, i)
  {
    seq(count, i requires 0 <= i < count => SampleAt(bytes, i))
  }

  function Encoded(xs: seq<Sample>): (bytes: seq<Byte>)
    ensures |bytes| == 4 * |xs|
  {
    if xs == [] then [] else Encoded(xs[..|xs| - 1]) + ToBytes(xs[|xs| - 1])
  }

  lemma {:induction false} EncodedAt(xs: seq<Sample>, i: nat)
    requires i < |xs|
    ensures SampleAt(Encoded(xs), i) == xs[i]
  {
    var last := |xs| - 1;
    BytesRoundTrip(xs[last]);
    if i < last {
      EncodedAt(xs[..last], i);
    }
  }

  /** Samples written out and read back are the same. */
  lemma DecodeEncoded(xs: seq<Sample>)
    ensures Decoded(Encoded(xs), |xs|) == xs
  {
    forall i | 0 <= i < |xs| ensures Decoded(Encoded(xs), |xs|)[i] == xs[i] {
      EncodedAt(xs, i);
    }
  }
}
