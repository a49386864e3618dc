/**
  The 32-byte ACSTHEAD header: writer, parser, and the two guarantees that matter for a
  stored artifact.  What was written is read back, and any burst of damage confined to 32
  consecutive bits, anywhere in the header and at any alignment, is rejected.
*/
module HeadHeader {
  import opened Wrappers
  import opened Crc32

  const HEAD_MAGIC: seq<bv8> := [0x41, 0x43, 0x53, 0x54, 0x48, 0x45, 0x41, 0x44]
  const HEAD_HEADER_VERSION: bv32 := 1
  const HEAD_HEADER_SIZE: nat := 32
  const U32_MAX: nat := 0xFFFF_FFFF

  datatype HeadHeader = HeadHeader(headerVersion: bv32, featureDim: bv32, numClasses: bv32, payloadLen: bv32)

  datatype HeadHeaderError =
    | TooShort(got: nat, min: nat)
    | BadMagic(magic: seq<bv8>)
    | SchemaTooNew(found: bv32, supported: bv32)
    | BadCrc(stored: bv32, computed: bv32)
    | PayloadTooLarge(len: nat)
    | SinkFailed

  // ---- Little-endian words ----

  function ByteOf(w: bv32): bv8 { LowByte(w) as bv8 }

  function ToLe(w: bv32): (b: seq<bv8>)
    ensures |b| == 4
  {
    [ByteOf(w), ByteOf(Upper(w)), ByteOf(Upper(Upper(w))), ByteOf(Upper(Upper(Upper(w))))]
  }

  function Joined(low: bv8, high: bv32): bv32 { (high << 8) | low as bv32 }

  function FromLe(b: seq<bv8>): bv32
    requires |b| == 4
  {
    Joined(b[0], Joined(b[1], Joined(b[2], Joined(b[3], 0))))
  }

  lemma JoinUndone(w: bv32)
    ensures Joined(ByteOf(w), Upper(w)) == w
  {
    assert (w & 0xFF) as bv8 as bv32 == w & 0xFF;
    assert ((w >> 8) << 8) | (w & 0xFF) == w;
  }

  lemma FourBytesSuffice(w: bv32)
    ensures Upper(Upper(Upper(Upper(w)))) == 0
  {
    assert ((w >> 8) >> 8) >> 8 == w >> 24;
    assert (w >> 24) >> 8 == 0;
  }

  lemma LeRoundTrip(w: bv32)
    ensures FromLe(ToLe(w)) == w
  {
    hide Joined, ByteOf, Upper;
    JoinUndone(w);
    JoinUndone(Upper(w));
    JoinUndone(Upper(Upper(w)));
    JoinUndone(Upper(Upper(Upper(w))));
    FourBytesSuffice(w);
  }

  /** `b` is `w`, least significant byte first. */
  predicate IsLe(b: seq<bv8>, w: bv32) {
    && |b| == 4
    && b[0] as bv32 == w & 0xFF && b[1] as bv32 == (w >> 8) & 0xFF
    && b[2] as bv32 == (w >> 16) & 0xFF && b[3] as bv32 == (w >> 24) & 0xFF
  }

  lemma ToLeIs(w: bv32)
    ensures IsLe(ToLe(w), w)
  {
    hide LowByte, ByteOf, Upper;
    UppersOf(w);
    ByteOfIsLowByte(w);
    ByteOfIsLowByte(w >> 8);
    ByteOfIsLowByte(w >> 16);
    ByteOfIsLowByte(w >> 24);
    LowBytes(w);
  }

  lemma UppersOf(w: bv32)
    ensures Upper(w) == w >> 8 && Upper(Upper(w)) == w >> 16 && Upper(Upper(Upper(w))) == w >> 24
  {
    assert (w >> 8) >> 8 == w >> 16 && (w >> 16) >> 8 == w >> 24;
  }

  lemma LowBytes(w: bv32)
    ensures LowByte(w) == w & 0xFF && LowByte(w >> 8) == (w >> 8) & 0xFF
    ensures LowByte(w >> 16) == (w >> 16) & 0xFF && LowByte(w >> 24) == (w >> 24) & 0xFF
  {
  }

  lemma FromLeIs(b: seq<bv8>, w: bv32)
    requires IsLe(b, w)
    ensures FromLe(b) == w
  {
    hide FromLe, ToLe;
    ToLeIs(w);
    SameBytes(b, ToLe(w), w);
    LeRoundTrip(w);
  }

  lemma SameBytes(a: seq<bv8>, b: seq<bv8>, w: bv32)
    requires IsLe(a, w) && IsLe(b, w)
    ensures a == b
  {
    WideningKeepsValue(a[0], b[0]);
    WideningKeepsValue(a[1], b[1]);
    WideningKeepsValue(a[2], b[2]);
    WideningKeepsValue(a[3], b[3]);
  }

  // ---- Serialize and parse ----

  /** The layout: magic, version, feature_dim, num_classes, reserved zero, payload_len, checksum. */
  function Body(featureDim: bv32, numClasses: bv32, payloadLen: bv32): (b: seq<bv8>)
    ensures |b| == 28
  {
    HEAD_MAGIC + ToLe(HEAD_HEADER_VERSION) + ToLe(featureDim) + ToLe(numClasses) + ToLe(0) + ToLe(payloadLen)
  }

  function HeaderBytes(featureDim: bv32, numClasses: bv32, payloadLen: bv32): (b: seq<bv8>)
    ensures |b| == HEAD_HEADER_SIZE
  {
    var body := Body(featureDim, numClasses, payloadLen);
    body + ToLe(Crc(body))
  }

  function Overwrite<T>(s: seq<T>, at: nat, src: seq<T>): seq<T>
    requires at + |src| <= |s|
  {
    s[..at] + src + s[at + |src|..]
  }

  method CopyFromSlice(buf: array<bv8>, at: nat, src: seq<bv8>)
    requires at + |src| <= buf.Length
    modifies buf
    ensures buf[..] == Overwrite(old(buf[..]), at, src)
  {
    for i := 0 to |src|
      invariant forall j :: 0 <= j < buf.Length ==>
        buf[j] == if at <= j < at + i then src[j - at] else old(buf[j])
    {
      buf[at + i] := src[i];
    }
  }

  /** Overwriting 8, 4, 4, 4 and 4 bytes of a 28-byte prefix, leaving bytes 20 to 24 alone. */
  lemma Layout<T>(z: seq<T>, magic: seq<T>, v: seq<T>, f: seq<T>, n: seq<T>, p: seq<T>)
    requires |z| == 32 && |magic| == 8 && |v| == |f| == |n| == |p| == 4
    ensures Overwrite(Overwrite(Overwrite(Overwrite(Overwrite(z, 0, magic), 8, v), 12, f), 16, n), 24, p)
         == magic + v + f + n + z[20..24] + p + z[28..]
  {
    assert Overwrite(z, 0, magic) == magic + z[8..];
    assert Overwrite(magic + z[8..], 8, v) == magic + v + z[12..];
    assert Overwrite(magic + v + z[12..], 12, f) == magic + v + f + z[16..];
    assert Overwrite(magic + v + f + z[16..], 16, n) == magic + v + f + n + z[20..];
  }

  method SerializeHeader(table: array<bv32>, featureDim: bv32, numClasses: bv32, payloadLen: bv32)
    returns (buf: array<bv8>)
    requires IsTable(table[..])
    ensures fresh(buf) && buf[..] == HeaderBytes(featureDim, numClasses, payloadLen)
  {
    hide ToLe, Crc, IsTable, Overwrite;
    buf := new bv8[HEAD_HEADER_SIZE](_ => 0);
    ghost var zeros := buf[..];
    CopyFromSlice(buf, 0, HEAD_MAGIC);
    CopyFromSlice(buf, 8, ToLe(HEAD_HEADER_VERSION));
    CopyFromSlice(buf, 12, ToLe(featureDim));
    CopyFromSlice(buf, 16, ToLe(numClasses));
    // The reserved word is already zero.
    CopyFromSlice(buf, 24, ToLe(payloadLen));
    Layout(zeros, HEAD_MAGIC, ToLe(HEAD_HEADER_VERSION), ToLe(featureDim), ToLe(numClasses), ToLe(payloadLen));
    ZeroWord();
    assert zeros[20..24] == [0, 0, 0, 0];
    ghost var body := Body(featureDim, numClasses, payloadLen);
    assert buf[..] == body + zeros[28..];
    assert buf[..28] == body;
    var crc := Crc32Ieee(table, buf[..28]);
    CopyFromSlice(buf, 28, ToLe(crc));
    Trailer(body, zeros[28..], ToLe(crc));
  }

  lemma Trailer<T>(body: seq<T>, z: seq<T>, crc: seq<T>)
    requires |z| == |crc|
    ensures Overwrite(body + z, |body|, crc) == body + crc
  {
  }

  lemma ZeroWord()
    ensures ToLe(0) == [0, 0, 0, 0]
  {
  }

  function ParseHeader(bytes: seq<bv8>): Result<HeadHeader, HeadHeaderError> {
    if |bytes| < HEAD_HEADER_SIZE then Err(TooShort(|bytes|, HEAD_HEADER_SIZE))
    else if bytes[0..8] != HEAD_MAGIC then Err(BadMagic(bytes[0..8]))
    else
      var headerVersion := FromLe(bytes[8..12]);
      if headerVersion > HEAD_HEADER_VERSION then Err(SchemaTooNew(headerVersion, HEAD_HEADER_VERSION))
      else
        var stored, computed := FromLe(bytes[28..32]), Crc(bytes[..28]);
        if stored != computed then Err(BadCrc(stored, computed))
        else
          Ok(HeadHeader(headerVersion, FromLe(bytes[12..16]), FromLe(bytes[16..20]), FromLe(bytes[24..28])))
  }

  /**
    What the parser says of any byte string, by the words it holds: too short, another magic, a
    version above 1, a checksum that is not that of the first 28 bytes, or else the four fields.
  */
  lemma ParseExactly(bytes: seq<bv8>, version: bv32, featureDim: bv32, numClasses: bv32, payloadLen: bv32, stored: bv32)
    requires |bytes| >= 32 ==>
      && IsLe(bytes[8..12], version) && IsLe(bytes[12..16], featureDim) && IsLe(bytes[16..20], numClasses)
      && IsLe(bytes[24..28], payloadLen) && IsLe(bytes[28..32], stored)
    ensures ParseHeader(bytes) ==
      if |bytes| < 32 then Err(TooShort(|bytes|, 32))
      else if bytes[..8] != [0x41, 0x43, 0x53, 0x54, 0x48, 0x45, 0x41, 0x44] then Err(BadMagic(bytes[..8]))
      else if version > 1 then Err(SchemaTooNew(version, 1))
      else if stored != Crc(bytes[..28]) then Err(BadCrc(stored, Crc(bytes[..28])))
      else Ok(HeadHeader(version, featureDim, numClasses, payloadLen))
  {
    hide FromLe, Crc, IsLe;
    if |bytes| >= 32 {
      assert bytes[0..8] == bytes[..8];
      FromLeIs(bytes[8..12], version);
      FromLeIs(bytes[12..16], featureDim);
      FromLeIs(bytes[16..20], numClasses);
      FromLeIs(bytes[24..28], payloadLen);
      FromLeIs(bytes[28..32], stored);
    }
  }

  /** The written header, byte range by byte range. */
  lemma LayoutExactly(featureDim: bv32, numClasses: bv32, payloadLen: bv32)
    ensures var b := HeaderBytes(featureDim, numClasses, payloadLen);
      && |b| == 32
      && b[0..8] == [0x41, 0x43, 0x53, 0x54, 0x48, 0x45, 0x41, 0x44]
      && IsLe(b[8..12], 1) && IsLe(b[12..16], featureDim) && IsLe(b[16..20], numClasses)
      && b[20..24] == [0, 0, 0, 0] && IsLe(b[24..28], payloadLen) && IsLe(b[28..32], Crc(b[..28]))
  {
    hide ToLe, Crc, IsLe;
    var body := Body(featureDim, numClasses, payloadLen);
    var b := HeaderBytes(featureDim, numClasses, payloadLen);
    Fields(HEAD_MAGIC, ToLe(1), ToLe(featureDim), ToLe(numClasses), ToLe(0), ToLe(payloadLen), ToLe(Crc(body)), []);
    assert b + [] == b;
    ZeroWord();
    ToLeIs(1);
    ToLeIs(featureDim);
    ToLeIs(numClasses);
    ToLeIs(payloadLen);
    ToLeIs(Crc(body));
  }

  /** The fields of a 32-byte header, cut out of anything that starts with it. */
  lemma Fields<T>(m: seq<T>, v: seq<T>, f: seq<T>, n: seq<T>, z: seq<T>, p: seq<T>, c: seq<T>, rest: seq<T>)
    requires |m| == 8 && |v| == |f| == |n| == |z| == |p| == |c| == 4
    ensures var bytes := m + v + f + n + z + p + c + rest;
      && bytes[..28] == m + v + f + n + z + p
      && bytes[0..8] == m && bytes[8..12] == v && bytes[12..16] == f && bytes[16..20] == n
      && bytes[20..24] == z && bytes[24..28] == p && bytes[28..32] == c
  {
  }

  /** What was serialized is parsed back, whatever follows it. */
  lemma RoundTrip(featureDim: bv32, numClasses: bv32, payloadLen: bv32, rest: seq<bv8>)
    ensures ParseHeader(HeaderBytes(featureDim, numClasses, payloadLen) + rest) ==
            Ok(HeadHeader(HEAD_HEADER_VERSION, featureDim, numClasses, payloadLen))
  {
    hide ToLe, FromLe, Crc;
    Fields(HEAD_MAGIC, ToLe(HEAD_HEADER_VERSION), ToLe(featureDim), ToLe(numClasses), ToLe(0), ToLe(payloadLen),
           ToLe(Crc(Body(featureDim, numClasses, payloadLen))), rest);
    LeRoundTrip(HEAD_HEADER_VERSION);
    LeRoundTrip(featureDim);
    LeRoundTrip(numClasses);
    LeRoundTrip(payloadLen);
    LeRoundTrip(Crc(Body(featureDim, numClasses, payloadLen)));
  }

  /** A sink that accepts `room` more bytes and then fails. */
  method WriteAll(sink: seq<bv8>, room: nat, bytes: seq<bv8>) returns (ok: bool, sink': seq<bv8>, left: nat)
    ensures ok <==> |bytes| <= room
    ensures sink' == sink + bytes[..Min(|bytes|, room)] && left == room - Min(|bytes|, room)
  {
    var n := Min(|bytes|, room);
    return |bytes| <= room, sink + bytes[..n], room - n;
  }

  /**
    Writes header and payload, or nothing when the length does not fit its 32-bit field.  A sink
    that fails on the way holds a prefix of what should have been written.
  */
  method WriteWithPayload(table: array<bv32>, sink: seq<bv8>, room: nat, featureDim: bv32, numClasses: bv32,
                          payload: seq<bv8>)
    returns (r: Result<(), HeadHeaderError>, written: seq<bv8>)
    requires IsTable(table[..])
    ensures r == Err(PayloadTooLarge(|payload|)) <==> |payload| > 0xFFFF_FFFF
    ensures |payload| > 0xFFFF_FFFF ==> written == sink
    ensures |payload| <= U32_MAX ==>
      var full := HeaderBytes(featureDim, numClasses, |payload| as bv32) + payload;
      && (r.Ok? <==> |full| <= room) && (r.Err? ==> r == Err(SinkFailed))
      && written == sink + full[..Min(|full|, room)]
    ensures r.Ok? ==>
      && |sink| <= |written| && |payload| <= U32_MAX
      && ParseHeader(written[|sink|..]) ==
         Ok(HeadHeader(HEAD_HEADER_VERSION, featureDim, numClasses, |payload| as bv32))
  {
    hide ToLe, FromLe, Crc, ParseHeader, IsTable;
    if |payload| > U32_MAX {
      return Err(PayloadTooLarge(|payload|)), sink;
    }
    var header := SerializeHeader(table, featureDim, numClasses, |payload| as bv32);
    ghost var full := HeaderBytes(featureDim, numClasses, |payload| as bv32) + payload;
    var ok, left;
    ok, written, left := WriteAll(sink, room, header[..]);
    if !ok {
      assert header[..][..room] == full[..room];
      return Err(SinkFailed), written;
    }
    ok, written, left := WriteAll(written, left, payload);
    assert header[..][..HEAD_HEADER_SIZE] == header[..];
    assert header[..] + payload[..Min(|payload|, room - HEAD_HEADER_SIZE)] == full[..Min(|full|, room)];
    if !ok {
      return Err(SinkFailed), written;
    }
    RoundTrip(featureDim, numClasses, |payload| as bv32, payload);
    assert written[|sink|..] == full;
    r := Ok(());
  }

  // ---- Error detection ----

  lemma {:induction false} LowBitsSplit(w: bv32, j: nat, k: nat)
    ensures LowBits(w, j + k) == LowBits(w, j) + LowBits(Drop(w, j), k)
    decreases j
  {
    hide Half, LowBit;
    if j > 0 {
      LowBitsSplit(Half(w), j - 1, k);
    }
  }

  /** Eight bits of a word are the bits of its low byte. */
  lemma LowBitsOfByte(w: bv32)
    ensures LowBits(w, 8) == LowBits(LowByte(w), 8)
  {
    hide Register, Shifts, Xor, LowBits, Drop, LowByte, Upper;
    var low := LowByte(w);
    assert Upper(low) == 0 by { LowByteIsSmall(w); }
    WordEnters(0, w, 8);
    WordEnters(0, low, 8);
    EightHalves(w);
    EightHalves(low);
    XorCancels(w, 0);
    XorCancels(low, 0);
    XorCancels(0, w);
    XorCancels(0, low);
    EightShifts(w);
    var x, y := Register(0, LowBits(w, 8)), Register(0, LowBits(low, 8));
    XorCancels(x, Upper(w));
    XorCancels(Shifts(low, 8), Upper(w));
    XorCancels(y, 0);
    ShortInputsDiffer(0, LowBits(w, 8), LowBits(low, 8));
  }

  lemma LowByteIsSmall(w: bv32)
    ensures Upper(LowByte(w)) == 0 && LowByte(LowByte(w)) == LowByte(w)
  {
  }

  lemma ByteOfIsLowByte(w: bv32)
    ensures ByteOf(w) as bv32 == LowByte(w)
  {
  }

  lemma BitsOfByte(w: bv32)
    ensures LowBits(ByteOf(w) as bv32, 8) == LowBits(w, 8)
  {
    hide LowBits, ByteOf, LowByte;
    ByteOfIsLowByte(w);
    LowBitsOfByte(w);
  }

  lemma {:induction false} BitsConcat(a: seq<bv8>, b: seq<bv8>)
    ensures Bits(a + b) == Bits(a) + Bits(b)
  {
    hide LowBits;
    if b == [] {
      assert a + b == a;
    } else {
      BitsConcat(a, b[..|b| - 1]);
      assert (a + b)[..|a + b| - 1] == a + b[..|b| - 1];
    }
  }

  lemma BitsOfOne(b: bv8)
    ensures Bits([b]) == LowBits(b as bv32, 8)
  {
    hide LowBits;
    assert [b][..0] == [];
    assert Bits([]) == [];
  }

  /** The four bytes of a word are transmitted as its 32 bits. */
  lemma BitsOfLe(w: bv32)
    ensures Bits(ToLe(w)) == LowBits(w, 32) && Drop(w, 32) == 0
  {
    hide LowBits, Drop, ByteOf, Upper, Bits;
    var w1 := Upper(w);
    var w2 := Upper(w1);
    var w3 := Upper(w2);
    EightHalves(w);
    EightHalves(w1);
    EightHalves(w2);
    EightHalves(w3);
    FourBytesSuffice(w);
    LowBitsSplit(w, 8, 24);
    LowBitsSplit(w1, 8, 16);
    LowBitsSplit(w2, 8, 8);
    DropSplit(w, 8, 24);
    DropSplit(w1, 8, 16);
    DropSplit(w2, 8, 8);
    BitsOfByte(w);
    BitsOfByte(w1);
    BitsOfByte(w2);
    BitsOfByte(w3);
    BitsOfOne(ByteOf(w));
    BitsOfOne(ByteOf(w1));
    BitsOfOne(ByteOf(w2));
    BitsOfOne(ByteOf(w3));
    BitsConcat([ByteOf(w2)], [ByteOf(w3)]);
    BitsConcat([ByteOf(w1)], [ByteOf(w2)] + [ByteOf(w3)]);
    BitsConcat([ByteOf(w)], [ByteOf(w1)] + ([ByteOf(w2)] + [ByteOf(w3)]));
    assert ToLe(w) == [ByteOf(w)] + ([ByteOf(w1)] + ([ByteOf(w2)] + [ByteOf(w3)]));
  }

  /** Feeding a word as its four bytes shifts it through the register. */
  lemma LeEnters(c: bv32, w: bv32)
    ensures Register(c, Bits(ToLe(w))) == Shifts(Xor(c, w), 32)
  {
    hide LowBits, Drop, ToLe, Bits, Shifts, Xor, Register;
    BitsOfLe(w);
    WordEnters(c, w, 32);
    XorCancels(Register(c, LowBits(w, 32)), 0);
  }

  lemma LeOfJoined(b: seq<bv8>)
    requires |b| == 4
    ensures ToLe(FromLe(b)) == b
  {
    hide Joined, ByteOf, Upper;
    var h3 := Joined(b[3], 0);
    var h2 := Joined(b[2], h3);
    var h1 := Joined(b[1], h2);
    SplitJoined(b[3], 0);
    SmallJoined(b[3]);
    SplitJoined(b[2], h3);
    SmallerJoined(b[2], h3);
    SplitJoined(b[1], h2);
    SmallerJoined(b[1], h2);
    SplitJoined(b[0], h1);
  }

  lemma SplitJoined(low: bv8, high: bv32)
    requires high & 0xFF00_0000 == 0
    ensures ByteOf(Joined(low, high)) == low && Upper(Joined(low, high)) == high
  {
    hide Joined, ByteOf, Upper;
    JoinedUpper(low, high);
    JoinedLower(low, high);
  }

  lemma JoinedUpper(low: bv8, high: bv32)
    requires high & 0xFF00_0000 == 0
    ensures Upper(Joined(low, high)) == high
  {
  }

  lemma JoinedLower(low: bv8, high: bv32)
    ensures ByteOf(Joined(low, high)) == low
  {
  }

  lemma SmallJoined(low: bv8)
    ensures Joined(low, 0) & 0xFF00_0000 == 0 && Joined(low, 0) & 0xFFFF_FF00 == 0
  {
  }

  lemma SmallerJoined(low: bv8, high: bv32)
    ensures high & 0xFFFF_FF00 == 0 ==> Joined(low, high) & 0xFFFF_0000 == 0
    ensures high & 0xFFFF_0000 == 0 ==> Joined(low, high) & 0xFF00_0000 == 0
    ensures high & 0xFFFF_FF00 == 0 ==> high & 0xFF00_0000 == 0
    ensures high & 0xFFFF_0000 == 0 ==> high & 0xFF00_0000 == 0
  {
  }

  /** The stored checksum matches if and only if the whole header leaves the residue of the standard. */
  lemma ChecksumIsResidue(bytes: seq<bv8>)
    requires |bytes| == HEAD_HEADER_SIZE
    ensures FromLe(bytes[28..32]) == Crc(bytes[..28]) <==> Register(ONES, Bits(bytes)) == 0xDEBB_20E3
  {
    ResidueValue();
    hide FromLe, ToLe, Bits, Shifts, Xor, Register;
    var stored := FromLe(bytes[28..32]);
    var c := Register(ONES, Bits(bytes[..28]));
    assert bytes == bytes[..28] + bytes[28..32];
    BitsConcat(bytes[..28], bytes[28..32]);
    RegisterConcat(ONES, Bits(bytes[..28]), Bits(bytes[28..32]));
    LeOfJoined(bytes[28..32]);
    LeEnters(c, stored);
    if Register(ONES, Bits(bytes)) == 0xDEBB_20E3 {
      ShiftsAreInjective(Xor(c, stored), ONES, 32);
    }
    XorCancels(c, stored);
    XorCancels(stored, c);
    XorCancels(c, ONES);
    XorCancels(ONES, c);
    XorIsAssociative(c, c, ONES);
    XorCancels(c, c);
    XorIsAssociative(c, c, stored);
  }

  function ByteBits(b: bv8): seq<bool> { LowBits(b as bv32, 8) }

  lemma {:induction false} BitsAreInjective(a: seq<bv8>, b: seq<bv8>)
    requires |a| == |b| && Bits(a) == Bits(b)
    ensures a == b
  {
    hide ByteBits, Bits;
    if a != [] {
      var n := |a| - 1;
      LastBits(a);
      LastBits(b);
      SameParts(Bits(a[..n]), ByteBits(a[n]), Bits(b[..n]), ByteBits(b[n]));
      BitsAreInjective(a[..n], b[..n]);
      SameBitsSameByte(a[n], b[n]);
      SameLast(a, b);
    }
  }

  lemma LastBits(a: seq<bv8>)
    requires a != []
    ensures Bits(a) == Bits(a[..|a| - 1]) + ByteBits(a[|a| - 1])
  {
    hide LowBits;
  }

  lemma SameLast<T>(a: seq<T>, b: seq<T>)
    requires a != [] && |a| == |b| && a[..|a| - 1] == b[..|a| - 1] && a[|a| - 1] == b[|a| - 1]
    ensures a == b
  {
    assert a == a[..|a| - 1] + [a[|a| - 1]] && b == b[..|a| - 1] + [b[|a| - 1]];
  }

  lemma SameParts<T>(a: seq<T>, x: seq<T>, b: seq<T>, y: seq<T>)
    requires a + x == b + y && |a| == |b|
    ensures a == b && x == y
  {
    assert a == (a + x)[..|a|] && b == (b + y)[..|b|];
    assert x == (a + x)[|a|..] && y == (b + y)[|b|..];
  }

  lemma SameBitsSameByte(a: bv8, b: bv8)
    requires ByteBits(a) == ByteBits(b)
    ensures a == b
  {
    hide LowBits, Drop, Shifts, Register, Xor, Upper;
    var x, y := a as bv32, b as bv32;
    WordEnters(0, x, 8);
    WordEnters(0, y, 8);
    EightHalves(x);
    EightHalves(y);
    ByteIsSmall(0, a);
    ByteIsSmall(0, b);
    ShiftsAreInjective(Xor(0, x), Xor(0, y), 8);
    XorCancels(0, x);
    XorCancels(0, y);
    XorCancels(x, 0);
    XorCancels(y, 0);
    WideningKeepsValue(a, b);
  }

  lemma WideningKeepsValue(a: bv8, b: bv8)
    ensures a as bv32 == b as bv32 ==> a == b
  {
  }

  /**
    A header damaged only inside 32 consecutive bits, wherever they lie and however they are
    aligned, including across the boundary to the checksum, is never accepted.
  */
  lemma BurstIsRejected(featureDim: bv32, numClasses: bv32, payloadLen: bv32, damaged: seq<bv8>, p: nat)
    requires |damaged| == HEAD_HEADER_SIZE && p <= 8 * HEAD_HEADER_SIZE
    requires DifferInWindow(Bits(HeaderBytes(featureDim, numClasses, payloadLen)), Bits(damaged), p)
    requires damaged != HeaderBytes(featureDim, numClasses, payloadLen)
    ensures ParseHeader(damaged).Err?
  {
    hide FromLe, ToLe, Bits, Crc, Register, HeaderBytes;
    var header := HeaderBytes(featureDim, numClasses, payloadLen);
    assert header + [] == header;
    RoundTrip(featureDim, numClasses, payloadLen, []);
    ChecksumIsResidue(header);
    ChecksumIsResidue(damaged);
    if ParseHeader(damaged).Ok? {
      BurstChangesRegister(ONES, Bits(header), Bits(damaged), p);
      BitsAreInjective(header, damaged);
    }
  }

  lemma {:induction false} BitsOfEqualRange(a: seq<bv8>, b: seq<bv8>, i: nat)
    requires |a| == |b| && i < 8 * |a| && a[i / 8] == b[i / 8]
    ensures Bits(a)[i] == Bits(b)[i]
  {
    hide LowBits;
    if i / 8 < |a| - 1 {
      BitsOfEqualRange(a[..|a| - 1], b[..|b| - 1], i);
    }
  }

  /** The byte-level reading: damage inside any four consecutive bytes is rejected. */
  lemma FourByteDamageIsRejected(featureDim: bv32, numClasses: bv32, payloadLen: bv32, damaged: seq<bv8>, at: nat)
    requires |damaged| == HEAD_HEADER_SIZE && at <= HEAD_HEADER_SIZE
    requires forall i :: 0 <= i < HEAD_HEADER_SIZE && !(at <= i < at + 4) ==>
      damaged[i] == HeaderBytes(featureDim, numClasses, payloadLen)[i]
    requires damaged != HeaderBytes(featureDim, numClasses, payloadLen)
    ensures ParseHeader(damaged).Err?
  {
    hide FromLe, ToLe, Bits, Crc, Register, HeaderBytes, ParseHeader;
    var header := HeaderBytes(featureDim, numClasses, payloadLen);
    forall i | 0 <= i < 8 * HEAD_HEADER_SIZE && !(8 * at <= i < 8 * at + 32)
      ensures Bits(header)[i] == Bits(damaged)[i]
    {
      BitsOfEqualRange(header, damaged, i);
    }
    BurstIsRejected(featureDim, numClasses, payloadLen, damaged, 8 * at);
  }

  // ---- The bound is tight ----

  const TOP: bv32 := 0x8000_0000

  /** The top bit of a word takes 31 shifts to reach the end and then leaves the polynomial. */
  lemma TopBitLeavesPoly()
    ensures Shifts(TOP, 32) == POLY
  {
    HighBytesMoveDown(TOP);
    HighBytesMoveDown(0x80_0000);
    HighBytesMoveDown(0x8000);
    ShiftsSplit(TOP, 8, 8);
    ShiftsSplit(TOP, 16, 8);
    ShiftsSplit(TOP, 24, 8);
    assert Shifts(0x80, 3) == 0x10;
    assert Shifts(0x80, 6) == 0x02;
    assert Shifts(0x80, 8) == POLY;
  }

  /** Two words that follow a register `c`, with the top bit and the polynomial added to them. */
  lemma PolynomialPassesUnseen(c: bv32, f: bv32, n: bv32)
    ensures Shifts(Xor(Shifts(Xor(c, Xor(f, TOP)), 32), Xor(n, POLY)), 32) ==
            Shifts(Xor(Shifts(Xor(c, f), 32), n), 32)
  {
    hide Shifts, Xor;
    XorIsAssociative(c, f, TOP);
    ShiftsAreLinear(Xor(c, f), TOP, 32);
    TopBitLeavesPoly();
    var r := Shifts(Xor(c, f), 32);
    XorIsAssociative(r, POLY, Xor(n, POLY));
    XorCancels(n, POLY);
    XorCancels(POLY, Xor(n, POLY));
  }

  lemma RegisterOfTwoWords(prefix: seq<bv8>, f: bv32, n: bv32, rest: seq<bv8>)
    ensures Register(ONES, Bits(prefix + ToLe(f) + ToLe(n) + rest)) ==
            Register(Shifts(Xor(Shifts(Xor(Register(ONES, Bits(prefix)), f), 32), n), 32), Bits(rest))
  {
    hide Shifts, Xor, Register, Bits, ToLe;
    BitsConcat(prefix + ToLe(f) + ToLe(n), rest);
    RegisterConcat(ONES, Bits(prefix + ToLe(f) + ToLe(n)), Bits(rest));
    BitsConcat(prefix + ToLe(f), ToLe(n));
    RegisterConcat(ONES, Bits(prefix + ToLe(f)), Bits(ToLe(n)));
    BitsConcat(prefix, ToLe(f));
    RegisterConcat(ONES, Bits(prefix), Bits(ToLe(f)));
    LeEnters(Register(ONES, Bits(prefix)), f);
    LeEnters(Shifts(Xor(Register(ONES, Bits(prefix)), f), 32), n);
  }

  /**
    32 bits is the exact bound: in every header, flipping the 33-bit pattern of the polynomial
    from the top bit of feature_dim through num_classes leaves the checksum right, and the
    damaged header is accepted with other dimensions.
  */
  lemma BurstBoundIsTight(f: bv32, n: bv32, p: bv32)
    ensures var header, damaged := HeaderBytes(f, n, p), HeaderBytes(Xor(f, TOP), Xor(n, POLY), p);
      && (forall i :: 0 <= i < HEAD_HEADER_SIZE && !(15 <= i < 20) ==> damaged[i] == header[i])
      && damaged[15] == header[15] ^ 0x80
      && damaged != header
      && ParseHeader(damaged) == Ok(HeadHeader(HEAD_HEADER_VERSION, Xor(f, TOP), Xor(n, POLY), p))
  {
    hide Shifts, Xor, Register, Bits, ToLe, FromLe, ParseHeader, HeaderBytes;
    var header, damaged := HeaderBytes(f, n, p), HeaderBytes(Xor(f, TOP), Xor(n, POLY), p);
    var prefix, rest := HEAD_MAGIC + ToLe(HEAD_HEADER_VERSION), ToLe(0) + ToLe(p);
    HeaderIs(f, n, p);
    HeaderIs(Xor(f, TOP), Xor(n, POLY), p);
    RegisterOfTwoWords(prefix, f, n, rest);
    RegisterOfTwoWords(prefix, Xor(f, TOP), Xor(n, POLY), rest);
    PolynomialPassesUnseen(Register(ONES, Bits(prefix)), f, n);
    FlipTopBit(f);
    OnlyTwoWordsDiffer(prefix, ToLe(f), ToLe(n), ToLe(Xor(f, TOP)), ToLe(Xor(n, POLY)),
                       rest + ToLe(Crc(prefix + ToLe(f) + ToLe(n) + rest)));
    assert damaged + [] == damaged;
    RoundTrip(Xor(f, TOP), Xor(n, POLY), p, []);
  }

  /** A header by its two middle words. */
  lemma HeaderIs(f: bv32, n: bv32, p: bv32)
    ensures var prefix, rest := HEAD_MAGIC + ToLe(HEAD_HEADER_VERSION), ToLe(0) + ToLe(p);
      var body := prefix + ToLe(f) + ToLe(n) + rest;
      HeaderBytes(f, n, p) == prefix + ToLe(f) + ToLe(n) + (rest + ToLe(Crc(body)))
  {
    hide ToLe, Crc;
    var prefix, rest := HEAD_MAGIC + ToLe(HEAD_HEADER_VERSION), ToLe(0) + ToLe(p);
    assert Body(f, n, p) == prefix + ToLe(f) + ToLe(n) + rest;
  }

  lemma OnlyTwoWordsDiffer<T>(prefix: seq<T>, a: seq<T>, b: seq<T>, x: seq<T>, y: seq<T>, rest: seq<T>)
    requires |prefix| == 12 && |a| == |b| == |x| == |y| == 4 && a[..3] == x[..3]
    ensures var left, right := prefix + a + b + rest, prefix + x + y + rest;
      && (forall i :: 0 <= i < |left| && !(15 <= i < 20) ==> right[i] == left[i])
      && left[15] == a[3] && right[15] == x[3]
  {
    assert forall i :: 0 <= i < 3 ==> a[..3][i] == x[..3][i];
  }

  lemma FlipTopBit(w: bv32)
    ensures ToLe(Xor(w, TOP))[..3] == ToLe(w)[..3]
    ensures ToLe(Xor(w, TOP))[3] == ToLe(w)[3] ^ 0x80 != ToLe(w)[3]
  {
    hide ByteOf, Upper, Xor;
    FlipHigh(w);
    FlipHigh2(Upper(w));
    FlipHigh3(Upper(Upper(w)));
    FlipHigh4(Upper(Upper(Upper(w))));
  }

  lemma FlipHigh(w: bv32)
    ensures ByteOf(Xor(w, TOP)) == ByteOf(w) && Upper(Xor(w, TOP)) == Xor(Upper(w), 0x80_0000)
  {
  }

  lemma FlipHigh2(w: bv32)
    ensures ByteOf(Xor(w, 0x80_0000)) == ByteOf(w) && Upper(Xor(w, 0x80_0000)) == Xor(Upper(w), 0x8000)
  {
  }

  lemma FlipHigh3(w: bv32)
    ensures ByteOf(Xor(w, 0x8000)) == ByteOf(w) && Upper(Xor(w, 0x8000)) == Xor(Upper(w), 0x80)
  {
  }

  lemma FlipHigh4(w: bv32)
    ensures ByteOf(Xor(w, 0x80)) == ByteOf(w) ^ 0x80 != ByteOf(w)
  {
  }
}
