/**
  The NPY fixture writer and reader: a header with the shape printed in decimal, padded to a
  multiple of 64 bytes, then the samples.  Header text is a string; a byte is the code of its
  character.  What the source panics on is an error here.
*/
module Npy {
  import opened Wrappers
  import opened Samples
  import opened FloatBytes

  datatype NpyError = LengthMismatch(have: nat, need: nat) | Unreadable

  /** The platform: the largest `usize`, and which byte strings are valid UTF-8. */
  datatype Host = Host(usizeMax: nat, isUtf8: seq<Byte> -> bool)

  predicate SevenBit(b: seq<Byte>) {
    forall i :: 0 <= i < |b| ==> b[i] < 0x80
  }

  ghost predicate HostOk(h: Host) {
    forall b: seq<Byte> :: SevenBit(b) ==> h.isUtf8(b)
  }

  // ---- Decimal numbers ----

  function Digit(d: nat): char
    requires d < 10
  {
    '0' + d as char
  }

  predicate IsDigit(c: char) { '0' <= c <= '9' }

  function DigitValue(c: char): (d: nat)
    requires IsDigit(c)
  {
    c as int - '0' as int
  }

  function Decimal(n: nat): (s: string)
    ensures s != [] && forall i :: 0 <= i < |s| ==> IsDigit(s[i])
  {
    if n < 10 then [Digit(n)] else Decimal(n / 10) + [Digit(n % 10)]
  }

  function ValueOf(s: string): nat
    requires forall i :: 0 <= i < |s| ==> IsDigit(s[i])
  {
    if s == [] then 0 else 10 * ValueOf(s[..|s| - 1]) + DigitValue(s[|s| - 1])
  }

  lemma {:induction false} DecimalRoundTrip(n: nat)
    ensures ValueOf(Decimal(n)) == n
  {
    if n < 10 {
      assert [Digit(n)][..0] == [];
    } else {
      DecimalRoundTrip(n / 10);
      assert Decimal(n)[..|Decimal(n)| - 1] == Decimal(n / 10);
    }
  }

  /** The digits are the decimal ones, the most significant first and without leading zeros. */
  lemma DigitsAreDecimal()
    ensures forall d :: 0 <= d < 10 ==> Digit(d) == "0123456789"[d] && DigitValue("0123456789"[d]) == d
    ensures Decimal(1_024) == "1024" && Decimal(90_573) == "90573" && Decimal(86) == "86"
    ensures Decimal(0) == "0" && Decimal(2) == "2"
  {
    assert Decimal(10) == "10" && Decimal(102) == "102";
    assert Decimal(90) == "90" && Decimal(905) == "905" && Decimal(9_057) == "9057";
  }

  predicate AllDigits(s: string) { forall i :: 0 <= i < |s| ==> IsDigit(s[i]) }

  /** A string reads as a number exactly when it is a plus sign or nothing and then digits of a value in range. */
  lemma NumbersExactly(h: Host, s: string, n: nat)
    ensures ParseNumber(h, s) == Some(n) <==>
      exists body :: (s == body || s == "+" + body) && body != "" && AllDigits(body) && ValueOf(body) == n <= h.usizeMax
  {
    if body :| (s == body || s == "+" + body) && body != "" && AllDigits(body) && ValueOf(body) == n <= h.usizeMax {
      assert IsDigit(body[0]);
      assert ("+" + body)[1..] == body;
    }
    var body := if s != [] && s[0] == '+' then s[1..] else s;
    assert s == body || s == "+" + body;
  }

  /** An optional plus sign, at least one digit, and no overflow. */
  function ParseNumber(h: Host, s: string): Option<nat> {
    var body := if s != [] && s[0] == '+' then s[1..] else s;
    if body == [] || !AllDigits(body) || ValueOf(body) > h.usizeMax then None
    else Some(ValueOf(body))
  }

  // ---- The shape, printed and parsed ----

  function ShapeText(shape: seq<nat>): string {
    if shape == [] then "" else Decimal(shape[0]) + ", " + ShapeText(shape[1..])
  }

  /** The parts of `s` between commas. */
  function Fields(s: string): seq<string>
    decreases |s|
  {
    match Position(s, ',')
    case None => [s]
    case Some(i) => [s[..i]] + Fields(s[i + 1..])
  }

  predicate IsSpace(c: char) { c == ' ' || '\t' <= c <= '\r' }

  function TrimStart(s: string): (r: string)
    ensures |r| <= |s|
  {
    if s != [] && IsSpace(s[0]) then TrimStart(s[1..]) else s
  }

  function TrimEnd(s: string): string {
    if s != [] && IsSpace(s[|s| - 1]) then TrimEnd(s[..|s| - 1]) else s
  }

  function Trim(s: string): string { TrimEnd(TrimStart(s)) }

  /** `parts` with a comma between each two. */
  function Joined(parts: seq<string>): string {
    if parts == [] then "" else if |parts| == 1 then parts[0] else parts[0] + "," + Joined(parts[1..])
  }

  /** Splitting loses nothing but the commas, and leaves none. */
  lemma {:induction false} FieldsExactly(s: string)
    ensures Fields(s) != [] && Joined(Fields(s)) == s && forall part :: part in Fields(s) ==> ',' !in part
    decreases |s|
  {
    var at := Position(s, ',');
    if at.Some? {
      var i := at.value;
      FieldsExactly(s[i + 1..]);
      assert Fields(s)[1..] == Fields(s[i + 1..]);
      assert s == s[..i] + "," + s[i + 1..];
    }
  }

  predicate AllSpace(s: string) { forall i :: 0 <= i < |s| ==> IsSpace(s[i]) }

  /** Trimming takes spaces off both ends, and all of them. */
  lemma {:induction false} TrimExactly(lead: string, s: string, tail: string)
    requires AllSpace(lead) && AllSpace(tail)
    requires s != "" ==> !IsSpace(s[0]) && !IsSpace(s[|s| - 1])
    ensures Trim(lead + s + tail) == s
    decreases |lead| + |tail|
  {
    if lead != "" {
      TrimExactly(lead[1..], s, tail);
      assert (lead + s + tail)[1..] == lead[1..] + s + tail;
    } else {
      assert lead + s + tail == s + tail;
      if s == "" {
        SpaceTrimsAway(tail);
        assert s + tail == tail;
      } else {
        TrimTail(s, tail);
      }
    }
  }

  lemma {:induction false} SpaceTrimsAway(s: string)
    requires AllSpace(s)
    ensures TrimStart(s) == ""
  {
    if s != "" {
      SpaceTrimsAway(s[1..]);
    }
  }

  lemma {:induction false} TrimTail(s: string, tail: string)
    requires s != "" && !IsSpace(s[|s| - 1]) && AllSpace(tail)
    ensures TrimEnd(s + tail) == s
    decreases |tail|
  {
    if tail == "" {
      assert s + tail == s;
    } else {
      TrimTail(s, tail[..|tail| - 1]);
      assert (s + tail)[..|s + tail| - 1] == s + tail[..|tail| - 1];
    }
  }

  lemma SpacesAre()
    ensures forall c :: IsSpace(c) <==> c in [' ', '\t', '\n', '\r', 11 as char, 12 as char]
  {
  }

  /** The numbers in the fields that are not blank. */
  function ParseFields(h: Host, fields: seq<string>): Option<seq<nat>> {
    if fields == [] then Some([])
    else
      var rest := ParseFields(h, fields[1..]);
      var s := Trim(fields[0]);
      if s == [] then rest
      else match ParseNumber(h, s)
        case None => None
        case Some(n) => if rest.None? then None else Some([n] + rest.value)
  }

  function ParseShape(h: Host, s: string): Option<seq<nat>> { ParseFields(h, Fields(s)) }

  predicate InRange(h: Host, shape: seq<nat>) {
    forall i :: 0 <= i < |shape| ==> shape[i] <= h.usizeMax
  }

  lemma ParseDecimal(h: Host, n: nat)
    requires n <= h.usizeMax
    ensures ParseNumber(h, Decimal(n)) == Some(n)
  {
    DecimalRoundTrip(n);
    assert IsDigit(Decimal(n)[0]);
  }

  /** A printed number, with or without a space before it, trims to itself. */
  lemma TrimDecimal(lead: string, n: nat)
    requires lead == "" || lead == " "
    ensures Trim(lead + Decimal(n)) == Decimal(n)
  {
    var d := Decimal(n);
    assert IsDigit(d[0]) && IsDigit(d[|d| - 1]);
    if lead == "" {
      assert lead + d == d;
    } else {
      assert (lead + d)[1..] == d;
    }
  }

  lemma FirstAt(s: string, i: nat, x: char)
    requires i < |s| && s[i] == x && x !in s[..i]
    ensures Position(s, x) == Some(i)
  {
    assert forall k :: i < k <= |s| ==> s[..k][i] == x;
    assert forall j :: 0 <= j < i ==> s[..i][j] == s[j];
  }

  /** A printed shape is parsed back, also behind the space that follows a comma. */
  lemma {:induction false} ShapeRoundTrip(h: Host, lead: string, shape: seq<nat>)
    requires (lead == "" || lead == " ") && InRange(h, shape)
    ensures ParseShape(h, lead + ShapeText(shape)) == Some(shape)
    decreases |shape|
  {
    hide Decimal, ParseNumber, Trim, Fields, ParseFields;
    var s := lead + ShapeText(shape);
    if shape == [] {
      assert s == lead;
      BlankShape(h, lead);
    } else {
      var first := lead + Decimal(shape[0]);
      var rest := " " + ShapeText(shape[1..]);
      assert s == first + "," + rest;
      NoCommaIn(lead, shape[0]);
      FirstField(first, rest);
      ShapeRoundTrip(h, " ", shape[1..]);
      TrimDecimal(lead, shape[0]);
      ParseDecimal(h, shape[0]);
      FirstNumber(h, first, Fields(rest), shape[0]);
      assert [shape[0]] + shape[1..] == shape;
    }
  }

  lemma NoCommaIn(lead: string, n: nat)
    requires lead == "" || lead == " "
    ensures ',' !in lead + Decimal(n)
  {
    var d := Decimal(n);
    assert forall i :: 0 <= i < |d| ==> IsDigit(d[i]);
  }

  lemma FirstField(first: string, rest: string)
    requires ',' !in first
    ensures Fields(first + "," + rest) == [first] + Fields(rest)
  {
    var s := first + "," + rest;
    assert s[..|first|] == first && s[|first| + 1..] == rest;
    FirstAt(s, |first|, ',');
  }

  lemma FirstNumber(h: Host, first: string, others: seq<string>, n: nat)
    requires Trim(first) == Decimal(n) && ParseNumber(h, Decimal(n)) == Some(n)
    ensures ParseFields(h, [first] + others) ==
      match ParseFields(h, others) { case None => None case Some(ns) => Some([n] + ns) }
  {
    hide Trim, ParseNumber;
    assert ([first] + others)[1..] == others;
  }

  lemma BlankShape(h: Host, lead: string)
    requires lead == "" || lead == " "
    ensures ParseShape(h, lead) == Some([])
  {
    assert Position(lead, ',') == None;
    assert Fields(lead) == [lead];
    assert lead != "" ==> lead[1..] == "";
    assert Trim(lead) == "";
    assert ParseFields(h, []) == Some([]);
    assert Fields(lead)[1..] == [];
  }

  // ---- The header ----

  const PREFIX := "{'descr': " + "'<f4', " + "'fortran_order': " + "False, " + "'shape': "
  const MAGIC: seq<Byte> := [0x93, 78, 85, 77, 80, 89]
  const PREAMBLE: nat := 10

  function Dict(shape: seq<nat>): string { PREFIX + "(" + ShapeText(shape) + "), }" }

  /** The smallest length that holds the dictionary and a newline and ends the preamble on 64 bytes. */
  function PaddedLen(dict: nat): (len: nat)
    ensures dict < len <= dict + 64 && (10 + len) % 64 == 0
  {
    dict + 1 + (63 - (PREAMBLE + dict) % 64)
  }

  function Spaces(n: nat): (s: string)
    ensures |s| == n
  {
    seq(n, _ => ' ')
  }

  function HeaderLen(shape: seq<nat>): nat { PaddedLen(|Dict(shape)|) }

  function Header(shape: seq<nat>): (s: string)
    ensures |s| == HeaderLen(shape)
  {
    Dict(shape) + Spaces(HeaderLen(shape) - |Dict(shape)| - 1) + "\n"
  }

  function AsciiBytes(s: string): (b: seq<Byte>)
    ensures |b| == |s|
  {
    seq(|s|, i requires 0 <= i < |s| => s[i] as int % 0x100)
  }

  function TextOf(b: seq<Byte>): (s: string)
    ensures |s| == |b|
  {
    seq(|b|, i requires 0 <= i < |b| => b[i] as char)
  }

  predicate IsAscii(s: string) {
    forall i :: 0 <= i < |s| ==> s[i] < 128 as char
  }

  function Product(shape: seq<nat>): nat {
    if shape == [] then 1
    else
      ProductIsNat(shape[0], Product(shape[1..]));
      shape[0] * Product(shape[1..])
  }

  lemma ProductIsNat(a: nat, b: nat)
    ensures a * b >= 0
  {
  }

  /** The file, whose length field keeps only 16 bits of the header's length. */
  function FileOf(shape: seq<nat>, data: seq<Sample>): seq<Byte> {
    var len := HeaderLen(shape) % 0x1_0000;
    MAGIC + [1, 0, len % 0x100, len / 0x100] + AsciiBytes(Header(shape)) + Encoded(data)
  }

  // ---- Reading ----

  /** Where the header starts and how long it says it is. */
  function Layout(buf: seq<Byte>): Option<(nat, nat)> {
    if |buf| < 7 || buf[..6] != MAGIC then None
    else if buf[6] == 1 then
      if |buf| < 10 then None else Some((10, buf[8] as nat + 0x100 * buf[9] as nat))
    else if buf[6] == 2 || buf[6] == 3 then
      if |buf| < 12 then None else Some((12, FromBytes(buf[8], buf[9], buf[10], buf[11])))
    else None
  }

  function ShapeIn(h: Host, header: string): Option<seq<nat>> {
    var open, close := Position(header, '('), Position(header, ')');
    if open.None? || close.None? || close.value < open.value + 1 then None
    else ParseShape(h, header[open.value + 1..close.value])
  }

  function ReadFile(h: Host, buf: seq<Byte>): Result<(seq<nat>, seq<Sample>), NpyError> {
    match Layout(buf)
    case None => Err(Unreadable)
    case Some((start, len)) =>
      if start + len > |buf| || !h.isUtf8(buf[start..start + len]) then Err(Unreadable)
      else match ShapeIn(h, TextOf(buf[start..start + len]))
        case None => Err(Unreadable)
        case Some(shape) =>
          var data := buf[start + len..];
          Ok((shape, Decoded(data, Min(Product(shape), |data| / 4))))
  }

  // ---- Round trip ----

  predicate Plain(s: string) {
    forall i :: 0 <= i < |s| ==> s[i] != '(' && s[i] != ')' && s[i] < 128 as char
  }

  lemma PlainJoin(a: string, b: string)
    requires Plain(a) && Plain(b)
    ensures Plain(a + b)
  {
  }

  lemma {:induction false} ShapeTextIsPlain(shape: seq<nat>)
    ensures Plain(ShapeText(shape))
  {
    if shape != [] {
      ShapeTextIsPlain(shape[1..]);
      assert forall i :: 0 <= i < |Decimal(shape[0])| ==> IsDigit(Decimal(shape[0])[i]);
      PlainJoin(Decimal(shape[0]), ", ");
      PlainJoin(Decimal(shape[0]) + ", ", ShapeText(shape[1..]));
    }
  }

  lemma PrefixIsPlain()
    ensures Plain(PREFIX)
  {
    PlainJoin("{'descr': ", "'<f4', ");
    PlainJoin("{'descr': " + "'<f4', ", "'fortran_order': ");
    PlainJoin("{'descr': " + "'<f4', " + "'fortran_order': ", "False, ");
    PlainJoin("{'descr': " + "'<f4', " + "'fortran_order': " + "False, ", "'shape': ");
  }

  /** Where the parentheses of a header are, with anything after it or cut off. */
  lemma Parentheses(shape: seq<nat>)
    ensures var header, close := Header(shape), |PREFIX| + 1 + |ShapeText(shape)|;
      && IsAscii(header)
      && close + 4 == |Dict(shape)| < |header|
      && header[|PREFIX|] == '(' && header[close] == ')'
      && '(' !in header[..|PREFIX|] && ')' !in header[..close]
      && header[|PREFIX| + 1..close] == ShapeText(shape)
  {
    hide PaddedLen, ShapeText, PREFIX;
    PrefixIsPlain();
    ShapeTextIsPlain(shape);
    var header, close := Header(shape), |PREFIX| + 1 + |ShapeText(shape)|;
    var pad := Spaces(HeaderLen(shape) - |Dict(shape)| - 1);
    assert header == PREFIX + "(" + ShapeText(shape) + "), }" + pad + "\n";
    assert header[..|PREFIX|] == PREFIX;
    assert header[..close] == PREFIX + "(" + ShapeText(shape);
    assert forall i :: 0 <= i < |"), }"| ==> "), }"[i] < 128 as char;
  }

  lemma HeaderReadsBack(h: Host, shape: seq<nat>)
    requires InRange(h, shape)
    ensures ShapeIn(h, Header(shape)) == Some(shape)
  {
    hide Header, ShapeText, ParseShape;
    Parentheses(shape);
    FirstAt(Header(shape), |PREFIX|, '(');
    FirstAt(Header(shape), |PREFIX| + 1 + |ShapeText(shape)|, ')');
    ShapeRoundTrip(h, "", shape);
    assert "" + ShapeText(shape) == ShapeText(shape);
  }

  /** Cut off by a whole multiple of 64 KiB, a header has lost its closing parenthesis. */
  lemma CutHeaderIsUnreadable(h: Host, shape: seq<nat>, len: nat)
    requires len + 0x1_0000 <= HeaderLen(shape)
    ensures ShapeIn(h, Header(shape)[..len]) == None
  {
    hide Header, ShapeText, ParseShape, Dict;
    Parentheses(shape);
    var cut, close := Header(shape)[..len], |PREFIX| + 1 + |ShapeText(shape)|;
    assert forall i :: 0 <= i < |cut| ==> cut[i] == Header(shape)[..close][i];
    assert ')' !in cut;
  }

  lemma FileParts(shape: seq<nat>, data: seq<Sample>)
    ensures var buf, len := FileOf(shape, data), HeaderLen(shape);
      && Layout(buf) == Some((10, len % 0x1_0000))
      && |buf| == 10 + len + 4 * |data|
      && buf[10..10 + len % 0x1_0000] == AsciiBytes(Header(shape))[..len % 0x1_0000]
      && (len < 0x1_0000 ==> buf[10 + len..] == Encoded(data))
  {
    hide Header, HeaderLen, Encoded, AsciiBytes;
    var buf, len := FileOf(shape, data), HeaderLen(shape);
    assert buf[..6] == MAGIC;
    assert buf[10..10 + len] == AsciiBytes(Header(shape));
    assert buf[10..10 + len][..len % 0x1_0000] == buf[10..10 + len % 0x1_0000];
  }

  lemma AsciiPrefix(s: string, n: nat)
    requires n <= |s| && IsAscii(s)
    ensures TextOf(AsciiBytes(s)[..n]) == s[..n]
    ensures SevenBit(AsciiBytes(s)[..n])
  {
  }

  /** Once the layout is known, reading is reading the header text and the samples. */
  lemma ReadFrom(h: Host, buf: seq<Byte>, start: nat, len: nat, header: string)
    requires HostOk(h) && Layout(buf) == Some((start, len)) && start + len <= |buf|
    requires TextOf(buf[start..start + len]) == header
    requires SevenBit(buf[start..start + len])
    ensures ShapeIn(h, header).None? ==> ReadFile(h, buf) == Err(Unreadable)
    ensures ShapeIn(h, header).Some? ==>
      var shape, data := ShapeIn(h, header).value, buf[start + len..];
      ReadFile(h, buf) == Ok((shape, Decoded(data, Min(Product(shape), |data| / 4))))
  {
    hide Layout, TextOf, ShapeIn, Decoded, Product;
  }

  /**
    Writing and reading a file returns the same shape and samples exactly when the padded header
    fits the 16-bit length field; otherwise the file the writer produced cannot be read at all.
  */
  lemma RoundTripExactly(h: Host, shape: seq<nat>, data: seq<Sample>)
    requires HostOk(h) && InRange(h, shape) && |data| == Product(shape)
    ensures HeaderLen(shape) < 0x1_0000 ==> ReadFile(h, FileOf(shape, data)) == Ok((shape, data))
    ensures HeaderLen(shape) >= 0x1_0000 ==> ReadFile(h, FileOf(shape, data)) == Err(Unreadable)
  {
    hide FileOf, Layout, Header, HeaderLen, ShapeIn, Encoded, Decoded, AsciiBytes, TextOf, Product, ReadFile;
    hide ShapeText, PREFIX;
    FileParts(shape, data);
    Parentheses(shape);
    var len := HeaderLen(shape) % 0x1_0000;
    AsciiPrefix(Header(shape), len);
    ReadFrom(h, FileOf(shape, data), 10, len, Header(shape)[..len]);
    if HeaderLen(shape) < 0x1_0000 {
      assert Header(shape)[..len] == Header(shape);
      HeaderReadsBack(h, shape);
      DecodeEncoded(data);
    } else {
      CutHeaderIsUnreadable(h, shape, len);
    }
  }

  // ---- The format, byte by byte ----

  /** A word of four bytes, least significant first. */
  function Word(n: nat): (b: seq<Byte>)
    requires n < 0x1_0000_0000
    ensures |b| == 4 && FromBytes(b[0], b[1], b[2], b[3]) == n
  {
    ToBytes(n)
  }

  /**
    The written file: the magic bytes, version 1.0, the low 16 bits of the header's length, low byte
    first, the header and the samples.  The header is the dictionary, spaces and a newline, and ends on a
    multiple of 64 bytes.
  */
  lemma FormatExactly(shape: seq<nat>, data: seq<Sample>)
    returns (text: string, pad: nat, lo: nat, hi: nat)
    ensures text ==
      "{'descr': '<f4', " + "'fortran_order': False, " + "'shape': (" + ShapeText(shape) + "), }" + Spaces(pad) + "\n"
    ensures pad < 64 && (10 + |text|) % 64 == 0 && lo < 0x100 && hi < 0x100
    ensures lo + 0x100 * hi == |text| % 0x1_0000
    ensures FileOf(shape, data) ==
      [0x93, 'N' as int, 'U' as int, 'M' as int, 'P' as int, 'Y' as int, 1, 0, lo, hi] + AsciiBytes(text) + Encoded(data)
  {
    hide ShapeText, AsciiBytes, Encoded, PaddedLen, PREFIX;
    PrefixIs();
    text, pad := Header(shape), HeaderLen(shape) - |Dict(shape)| - 1;
    lo, hi := |text| % 0x1_0000 % 0x100, |text| % 0x1_0000 / 0x100;
    assert MAGIC + [1, 0, lo, hi] == [0x93, 'N' as int, 'U' as int, 'M' as int, 'P' as int, 'Y' as int, 1, 0, lo, hi];
    assert text == PREFIX + "(" + ShapeText(shape) + "), }" + Spaces(pad) + "\n";
  }

  lemma PrefixIs()
    ensures PREFIX + "(" == "{'descr': '<f4', " + "'fortran_order': False, " + "'shape': ("
  {
    DescrIs();
    OrderIs();
    ShapeKeyIs();
    Regrouped("{'descr': ", "'<f4', ", "'fortran_order': ", "False, ", "'shape': ", "(");
  }

  lemma DescrIs()
    ensures "{'descr': " + "'<f4', " == "{'descr': '<f4', "
  {
  }

  lemma OrderIs()
    ensures "'fortran_order': " + "False, " == "'fortran_order': False, "
  {
  }

  lemma ShapeKeyIs()
    ensures "'shape': " + "(" == "'shape': ("
  {
  }

  lemma Regrouped(a: string, b: string, c: string, d: string, e: string, f: string)
    ensures a + b + c + d + e + f == (a + b) + (c + d) + (e + f)
  {
  }

  lemma ShapeTextExample()
    ensures ShapeText([]) == "" && ShapeText([1_024]) == "1024, " && ShapeText([2, 86]) == "2, 86, "
  {
    hide Decimal, ShapeText;
    DigitsAreDecimal();
    NextDimension(1_024, []);
    NextDimension(86, []);
    NextDimension(2, [86]);
    assert [1_024] + [] == [1_024] && [86] + [] == [86] && [2] + [86] == [2, 86];
    assert "86" + ", " + "" == "86, ";
  }

  lemma NextDimension(n: nat, rest: seq<nat>)
    ensures ShapeText([]) == "" && ShapeText([n] + rest) == Decimal(n) + ", " + ShapeText(rest)
  {
    hide Decimal;
    assert ([n] + rest)[1..] == rest;
  }

  /** A file of version 1, 2 or 3 with header text `header`, and `rest` after it. */
  function FileWith(version: nat, header: string, rest: seq<Byte>): (buf: seq<Byte>)
    requires version in {1, 2, 3} && |header| < if version == 1 then 0x1_0000 else 0x1_0000_0000
  {
    MAGIC + [version, 0] +
    (if version == 1 then [|header| % 0x100, |header| / 0x100] else Word(|header|)) + AsciiBytes(header) + rest
  }

  /**
    Any file of version 1, 2 or 3 with a header this writer makes reads as that shape and the samples
    that follow, as many as the shape asks for; missing samples, extra ones and up to three loose bytes at
    the end are no error.
  */
  lemma EveryVersionReads(h: Host, version: nat, shape: seq<nat>, data: seq<Sample>, loose: seq<Byte>)
    requires HostOk(h) && InRange(h, shape) && |loose| < 4
    requires version in {1, 2, 3} && HeaderLen(shape) < if version == 1 then 0x1_0000 else 0x1_0000_0000
    ensures ReadFile(h, FileWith(version, Header(shape), Encoded(data) + loose)) ==
            Ok((shape, data[..Min(Product(shape), |data|)]))
  {
    hide Header, HeaderLen, ShapeIn, Encoded, Decoded, AsciiBytes, TextOf, Product, ReadFile, Layout, PREFIX, ShapeText;
    hide HostOk, SevenBit, InRange;
    var header, rest := Header(shape), Encoded(data) + loose;
    var start := if version == 1 then 10 else 12;
    var buf := FileWith(version, header, rest);
    LayoutOfFile(version, header, rest);
    Parentheses(shape);
    AsciiPrefix(header, |header|);
    assert AsciiBytes(header)[..|header|] == AsciiBytes(header) && header[..|header|] == header;
    HeaderReadsBack(h, shape);
    ReadFrom(h, buf, start, |header|, header);
    DecodePart(data, loose, Min(Product(shape), |data|));
  }

  lemma LayoutOfFile(version: nat, header: string, rest: seq<Byte>)
    requires version in {1, 2, 3} && |header| < if version == 1 then 0x1_0000 else 0x1_0000_0000
    ensures var buf, start := FileWith(version, header, rest), if version == 1 then 10 else 12;
      && Layout(buf) == Some((start, |header|)) && start + |header| <= |buf|
      && buf[start..start + |header|] == AsciiBytes(header) && buf[start + |header|..] == rest
  {
    hide AsciiBytes;
    var buf, start := FileWith(version, header, rest), if version == 1 then 10 else 12;
    var front := MAGIC + [version, 0] + if version == 1 then [|header| % 0x100, |header| / 0x100] else Word(|header|);
    assert buf == front + AsciiBytes(header) + rest && |front| == start;
    assert buf[..6] == MAGIC && buf[6] == version;
  }

  lemma DecodePart(data: seq<Sample>, loose: seq<Byte>, n: nat)
    requires |loose| < 4 && n <= |data|
    ensures |Encoded(data) + loose| / 4 == |data| && Decoded(Encoded(data) + loose, n) == data[..n]
  {
    hide Encoded;
    forall i | 0 <= i < n ensures Decoded(Encoded(data) + loose, n)[i] == data[i] {
      EncodedAt(data, i);
    }
  }

  /** A file without the magic bytes or with another version cannot be read. */
  lemma ForeignFilesAreRefused(h: Host, buf: seq<Byte>)
    requires
      || |buf| < 7 || buf[..6] != [0x93, 'N' as int, 'U' as int, 'M' as int, 'P' as int, 'Y' as int]
      || buf[6] !in {1, 2, 3}
    ensures ReadFile(h, buf) == Err(Unreadable)
  {
    hide ShapeIn, Product;
  }

  function Ones(n: nat): seq<nat> { seq(n, _ => 1) }

  lemma {:induction false} OnesText(n: nat)
    ensures |ShapeText(Ones(n))| == 3 * n && Product(Ones(n)) == 1
  {
    if n > 0 {
      OnesText(n - 1);
      assert Ones(n)[1..] == Ones(n - 1);
      assert Decimal(1) == ['1'];
    }
  }

  /** The failing input is real: 22 000 dimensions of one element make a file nobody can read. */
  lemma OverlongHeader(h: Host, x: Sample)
    requires HostOk(h) && h.usizeMax >= 1
    ensures InRange(h, Ones(22_000)) && |[x]| == Product(Ones(22_000))
    ensures HeaderLen(Ones(22_000)) >= 0x1_0000
    ensures ReadFile(h, FileOf(Ones(22_000), [x])) == Err(Unreadable)
  {
    hide FileOf, ReadFile, PREFIX, ShapeText, Product;
    OnesText(22_000);
    RoundTripExactly(h, Ones(22_000), [x]);
  }

  // ---- The writer and the reader ----

  method PrintShape(shape: seq<nat>) returns (s: string)
    ensures s == ShapeText(shape)
  {
    s := "";
    for i := 0 to |shape|
      invariant s + ShapeText(shape[i..]) == ShapeText(shape)
    {
      assert shape[i..][0] == shape[i] && shape[i..][1..] == shape[i + 1..];
      s := s + Decimal(shape[i]) + ", ";
    }
  }

  /** Counts up to the next multiple of 64. */
  method PadHeader(dict: nat) returns (len: nat)
    ensures len == PaddedLen(dict)
  {
    len := dict + 1;
    while (PREAMBLE + len) % 64 != 0
      invariant dict < len <= PaddedLen(dict)
      decreases PaddedLen(dict) - len
    {
      NextMultiple(dict, len);
      len := len + 1;
    }
    FirstMultiple(dict, len);
  }

  lemma NextMultiple(dict: nat, len: nat)
    requires dict < len <= PaddedLen(dict) && (PREAMBLE + len) % 64 != 0
    ensures len < PaddedLen(dict)
  {
  }

  lemma FirstMultiple(dict: nat, len: nat)
    requires dict < len <= PaddedLen(dict) && (PREAMBLE + len) % 64 == 0
    ensures len == PaddedLen(dict)
  {
  }

  lemma EncodedNothing(data: seq<Sample>)
    ensures Encoded(data[..0]) == []
  {
  }

  lemma EncodedMore(data: seq<Sample>, i: nat)
    requires i < |data|
    ensures Encoded(data[..i + 1]) == Encoded(data[..i]) + ToBytes(data[i])
  {
    hide ToBytes;
    assert data[..i + 1][..i] == data[..i];
  }

  method WriteNpy(h: Host, shape: seq<nat>, data: seq<Sample>) returns (r: Result<seq<Byte>, NpyError>)
    requires HostOk(h) && InRange(h, shape)
    ensures r.Ok? <==> |data| == Product(shape)
    ensures r.Err? ==> r == Err(LengthMismatch(|data|, Product(shape)))
    ensures r.Ok? ==> r.value == FileOf(shape, data)
    ensures r.Ok? && HeaderLen(shape) < 0x1_0000 ==> ReadFile(h, r.value) == Ok((shape, data))
  {
    hide ReadFile, Product, ShapeText, PaddedLen, PREFIX, AsciiBytes, Encoded, ToBytes;
    if |data| != Product(shape) {
      return Err(LengthMismatch(|data|, Product(shape)));
    }
    RoundTripExactly(h, shape, data);
    var text := PrintShape(shape);
    var dict := PREFIX + "(" + text + "), }";
    var len := PadHeader(|dict|);
    var header := dict + Spaces(len - |dict| - 1) + "\n";
    var stored := len % 0x1_0000;
    var buf: seq<Byte> := MAGIC;
    buf := buf + [1] + [0];
    buf := buf + [stored % 0x100, stored / 0x100];
    buf := buf + AsciiBytes(header);
    var front := buf;
    EncodedNothing(data);
    for i := 0 to |data|
      invariant buf == front + Encoded(data[..i])
    {
      EncodedMore(data, i);
      buf := buf + ToBytes(data[i]);
    }
    assert data[..|data|] == data;
    return Ok(buf);
  }

  /** Reads as many whole samples as the shape asks for or the file still holds, whichever is less. */
  method ReadNpy(h: Host, buf: seq<Byte>) returns (r: Result<(seq<nat>, seq<Sample>), NpyError>)
    ensures r == ReadFile(h, buf)
    ensures r.Ok? ==> |r.value.1| <= Product(r.value.0)
  {
    hide Product, ShapeIn;
    var layout := Layout(buf);
    if layout.None? {
      return Err(Unreadable);
    }
    var (start, len) := layout.value;
    if start + len > |buf| || !h.isUtf8(buf[start..start + len]) {
      return Err(Unreadable);
    }
    var shape := ShapeIn(h, TextOf(buf[start..start + len]));
    if shape.None? {
      return Err(Unreadable);
    }
    var data := buf[start + len..];
    var n := Min(Product(shape.value), |data| / 4);
    ghost var all := Decoded(data, n);
    var samples: seq<Sample> := [];
    for i := 0 to n
      invariant samples == all[..i]
    {
      samples := samples + [SampleAt(data, i)];
    }
    assert all[..n] == all;
    return Ok((shape.value, samples));
  }
}
