/**
  Bounded truncation of log lines at a UTF-8 boundary.  Text is a sequence of Unicode scalar
  values; the program only ever sees its bytes.
*/
module LogTruncate {
  import opened Samples

  const MAX_LOG_LINE_BYTES: nat := 8 * 1024

  type Scalar = x: int | 0 <= x < 0x11_0000 && !(0xD800 <= x < 0xE000)

  /** The UTF-8 form of one scalar value, section 3 of RFC 3629. */
  function Encode(c: Scalar): (b: seq<Byte>)
    ensures 1 <= |b| <= 4
  {
    if c < 0x80 then [c]
    else if c < 0x800 then [0xC0 + c / 0x40, Tail(c)]
    else if c < 0x1_0000 then [0xE0 + c / 0x1000, Tail(c / 0x40), Tail(c)]
    else [0xF0 + c / 0x4_0000, Tail(c / 0x1000), Tail(c / 0x40), Tail(c)]
  }

  function Tail(x: nat): (b: Byte)
    ensures IsContinuation(b)
  {
    0x80 + x % 0x40
  }

  predicate IsContinuation(b: Byte) { 0x80 <= b < 0xC0 }

  /** The length follows the range, the first byte names the length, and the payload bits are the scalar. */
  lemma EncodeExactly(c: Scalar)
    ensures var b := Encode(c);
      && (c <= 0x7F ==> b == [c])
      && (0x80 <= c <= 0x7FF ==> |b| == 2 && 0xC2 <= b[0] <= 0xDF && c == (b[0] - 0xC0) * 64 + Payload(b[1]))
      && (0x800 <= c <= 0xFFFF ==>
            |b| == 3 && 0xE0 <= b[0] <= 0xEF && c == (b[0] - 0xE0) * 4096 + Payload(b[1]) * 64 + Payload(b[2]))
      && (0x1_0000 <= c ==>
            && |b| == 4 && 0xF0 <= b[0] <= 0xF4
            && c == (b[0] - 0xF0) * 262_144 + Payload(b[1]) * 4096 + Payload(b[2]) * 64 + Payload(b[3]))
  {
    assert c / 0x1000 == (c / 0x40) / 0x40 && c / 0x4_0000 == (c / 0x1000) / 0x40;
  }

  /** The six bits of a continuation byte. */
  function Payload(b: Byte): int { b - 0x80 }

  lemma OnlyTheFirstByteLeads(c: Scalar, j: nat)
    requires j < |Encode(c)|
    ensures IsContinuation(Encode(c)[j]) <==> j > 0
  {
  }

  function Utf8(text: seq<Scalar>): seq<Byte> {
    if text == [] then [] else Utf8(text[..|text| - 1]) + Encode(text[|text| - 1])
  }

  /** Where scalar `k` starts, or the text ends. */
  function Offset(text: seq<Scalar>, k: nat): nat
    requires k <= |text|
  {
    |Utf8(text[..k])|
  }

  predicate IsCharBoundary(bytes: seq<Byte>, i: nat) {
    i == 0 || i == |bytes| || (i < |bytes| && !IsContinuation(bytes[i]))
  }

  lemma {:induction false} PrefixBytes(text: seq<Scalar>, k: nat)
    requires k <= |text|
    ensures Offset(text, k) <= |Utf8(text)| && Utf8(text[..k]) == Utf8(text)[..Offset(text, k)]
    ensures k < |text| ==> Offset(text, k + 1) == Offset(text, k) + |Encode(text[k])| <= |Utf8(text)|
    ensures k < |text| ==> Utf8(text)[Offset(text, k)..Offset(text, k + 1)] == Encode(text[k])
    decreases |text| - k
  {
    hide Encode;
    if k == |text| {
      assert text[..k] == text;
    } else {
      PrefixBytes(text, k + 1);
      assert text[..k + 1][..k] == text[..k];
    }
  }

  /** The scalar that byte `i` belongs to. */
  lemma {:induction false} Locate(text: seq<Scalar>, n: nat, i: nat) returns (k: nat)
    requires n <= |text| && i < Offset(text, n)
    ensures k < n && Offset(text, k) <= i < Offset(text, k + 1)
  {
    if Offset(text, n - 1) <= i {
      k := n - 1;
    } else {
      k := Locate(text, n - 1, i);
    }
  }

  /** A byte position is a boundary exactly when a scalar starts there or the text ends there. */
  lemma BoundaryExactly(text: seq<Scalar>, i: nat)
    requires i <= |Utf8(text)|
    ensures IsCharBoundary(Utf8(text), i) <==> exists k :: 0 <= k <= |text| && Offset(text, k) == i
  {
    hide Utf8, Encode;
    assert text[..|text|] == text;
    if i < |Utf8(text)| {
      var k := Locate(text, |text|, i);
      ByteOfScalar(text, k, i);
      if j: nat :| j <= |text| && Offset(text, j) == i {
        StartIsBoundary(text, j);
      }
      assert i == 0 ==> Offset(text, k) == i;
    } else {
      assert Offset(text, |text|) == i;
    }
  }

  lemma ByteOfScalar(text: seq<Scalar>, k: nat, i: nat)
    requires k < |text| && Offset(text, k) <= i < Offset(text, k + 1)
    ensures i < |Utf8(text)| && (IsContinuation(Utf8(text)[i]) <==> i > Offset(text, k))
  {
    hide Encode, Utf8;
    PrefixBytes(text, k);
    OnlyTheFirstByteLeads(text[k], i - Offset(text, k));
    assert Utf8(text)[i] == Utf8(text)[Offset(text, k)..Offset(text, k + 1)][i - Offset(text, k)];
  }

  lemma StartIsBoundary(text: seq<Scalar>, k: nat)
    requires k <= |text|
    ensures Offset(text, k) <= |Utf8(text)| && IsCharBoundary(Utf8(text), Offset(text, k))
  {
    PrefixBytes(text, k);
    if k < |text| {
      ByteOfScalar(text, k, Offset(text, k));
    } else {
      assert text[..k] == text;
    }
  }

  /** A boundary inside a scalar's bytes is where it starts. */
  lemma SnappedDown(text: seq<Scalar>, k: nat, i: nat)
    requires k < |text| && Offset(text, k) <= i < Offset(text, k + 1)
    requires i == 0 || IsCharBoundary(Utf8(text), i)
    ensures i == Offset(text, k) && i < |Utf8(text)|
  {
    ByteOfScalar(text, k, i);
  }

  const MARKER: seq<Scalar> := [46, 46, 46, 91, 116, 114, 117, 110, 99, 97, 116, 101, 100, 93]

  lemma MarkerIs()
    ensures |MARKER| == |"...[truncated]"| && forall i :: 0 <= i < |MARKER| ==> MARKER[i] == "...[truncated]"[i] as int
  {
  }

  lemma MarkerBytes()
    ensures Utf8(MARKER) == MARKER
  {
    AsciiIsItself(MARKER);
  }

  lemma {:induction false} AsciiIsItself(text: seq<Scalar>)
    requires forall i :: 0 <= i < |text| ==> text[i] < 0x80
    ensures Utf8(text) == text
  {
    if text != [] {
      AsciiIsItself(text[..|text| - 1]);
    }
  }

  lemma {:induction false} Utf8Append(a: seq<Scalar>, b: seq<Scalar>)
    ensures Utf8(a + b) == Utf8(a) + Utf8(b)
    decreases |b|
  {
    hide Encode;
    if b == [] {
      assert a + b == a;
    } else {
      Utf8Append(a, b[..|b| - 1]);
      assert (a + b)[..|a + b| - 1] == a + b[..|b| - 1];
    }
  }

  /** `k` scalars fit in the cap and one more does not. */
  predicate LongestFitting(text: seq<Scalar>, k: nat) {
    && k < |text|
    && Offset(text, k) <= 8192
    && Offset(text, k + 1) > 8192
  }

  /**
    A line within the cap is returned as it is.  A longer one becomes its longest prefix of
    whole scalars within the cap, followed by the marker; `steps` counts the snap-down loop.
  */
  method TruncateLogMessage(ghost text: seq<Scalar>, m: seq<Byte>) returns (s: seq<Byte>, steps: nat, ghost kept: nat)
    requires m == Utf8(text)
    ensures |m| <= 8192 ==> s == m && kept == |text|
    ensures |m| > 8192 ==> LongestFitting(text, kept) && s == Utf8(text[..kept] + MARKER)
    ensures steps <= 3
    ensures |s| <= 8192 <==> |m| <= 8192
  {
    steps, kept := 0, |text|;
    if |m| <= MAX_LOG_LINE_BYTES {
      return m, steps, kept;
    }
    hide Utf8, Encode, MARKER, IsCharBoundary;
    assert text[..|text|] == text;
    kept := Locate(text, |text|, MAX_LOG_LINE_BYTES);
    PrefixBytes(text, kept);
    var idx := MAX_LOG_LINE_BYTES;
    while idx > 0 && !IsCharBoundary(m, idx)
      invariant Offset(text, kept) <= idx <= MAX_LOG_LINE_BYTES && steps == MAX_LOG_LINE_BYTES - idx
    {
      ByteOfScalar(text, kept, idx);
      StartIsBoundary(text, kept);
      idx, steps := idx - 1, steps + 1;
    }
    SnappedDown(text, kept, idx);
    MarkerBytes();
    Utf8Append(text[..kept], MARKER);
    s := m[..idx] + MARKER;
  }
}
