/**
  Finding the head's kernel and bias in a parsed manifest and reading their weights, by the two
  routes the converter has: from the whole concatenated blob, and from the two byte ranges that
  the shard reader copies out while streaming.
*/
module TfjsHead {
  import opened Wrappers
  import opened Samples
  import opened FloatBytes
  import opened TfjsManifest

  datatype HeadWeights = HeadWeights(kernel: seq<Sample>, bias: seq<Sample>, classes: nat, inDim: nat)

  // ---- Locating the head ----

  predicate EndsWith(s: string, suffix: string) {
    |s| >= |suffix| && s[|s| - |suffix|..] == suffix
  }

  lemma EndsWithExactly(s: string, suffix: string)
    ensures EndsWith(s, suffix) <==> exists front :: s == front + suffix
  {
    if EndsWith(s, suffix) {
      assert s == s[..|s| - |suffix|] + suffix;
    }
  }

  function FindNamed(es: seq<Entry>, suffix: string): (i: Option<nat>)
    ensures i.None? ==> forall j :: 0 <= j < |es| ==> !EndsWith(es[j].name, suffix)
    ensures i.Some? ==> i.value < |es| && EndsWith(es[i.value].name, suffix)
    ensures i.Some? ==> forall j :: 0 <= j < i.value ==> !EndsWith(es[j].name, suffix)
  {
    if es == [] then None
    else if EndsWith(es[0].name, suffix) then Some(0)
    else match FindNamed(es[1..], suffix)
      case None => None
      case Some(i) => Some(i + 1)
  }

  predicate KernelShaped(shape: seq<nat>) { |shape| == 2 && shape[0] == BACKBONE_FEATURE_DIM }

  function BiasFor(n: nat): seq<nat> -> bool { shape => shape == [n] }

  /** The indices, in order, of the entries whose shape passes `test`. */
  function WithShape(es: seq<Entry>, test: seq<nat> -> bool): (at: seq<nat>)
    ensures forall k :: 0 <= k < |at| ==> at[k] < |es| && test(es[at[k]].shape)
    ensures forall i :: 0 <= i < |es| && test(es[i].shape) ==> i in at
    ensures forall k, m :: 0 <= k < m < |at| ==> at[k] < at[m]
  {
    if es == [] then []
    else
      var n := |es| - 1;
      var front := WithShape(es[..n], test);
      assert forall i :: 0 <= i < n ==> es[..n][i] == es[i];
      if test(es[n].shape) then front + [n] else front
  }

  /** The indices of kernel and bias: by name when both names occur, else by a unique shape. */
  function Pick(es: seq<Entry>): (r: Result<(nat, nat), Error>)
    ensures r.Ok? ==> r.value.0 < |es| && r.value.1 < |es|
    ensures r.Err? ==> r.error.Locator?
  {
    var kernel, bias := FindNamed(es, "NewHeadDense/kernel"), FindNamed(es, "NewHeadDense/bias");
    if kernel.Some? && bias.Some? then Ok((kernel.value, bias.value))
    else
      var kernels := WithShape(es, KernelShaped);
      if |kernels| != 1 then Err(Locator(KernelCandidates(|kernels|)))
      else
        var n := es[kernels[0]].shape[1];
        var biases := WithShape(es, BiasFor(n));
        if |biases| != 1 then Err(Locator(BiasCandidates(|biases|)))
        else Ok((kernels[0], biases[0]))
  }

  /** Entry `i` is the first whose name ends with `suffix`. */
  predicate FirstNamed(es: seq<Entry>, suffix: string, i: nat) {
    && i < |es| && EndsWith(es[i].name, suffix)
    && forall j :: 0 <= j < i ==> !EndsWith(es[j].name, suffix)
  }

  /** When both canonical names occur, kernel and bias are the first entries that carry them. */
  lemma PickedByName(es: seq<Entry>, k: nat, b: nat)
    requires FirstNamed(es, "NewHeadDense/kernel", k) && FirstNamed(es, "NewHeadDense/bias", b)
    ensures Pick(es) == Ok((k, b))
  {
    FoundFirst(es, "NewHeadDense/kernel", k);
    FoundFirst(es, "NewHeadDense/bias", b);
    hide FindNamed, FirstNamed, WithShape, EndsWith;
  }

  lemma FoundFirst(es: seq<Entry>, suffix: string, i: nat)
    requires FirstNamed(es, suffix, i)
    ensures FindNamed(es, suffix) == Some(i)
  {
    var found := FindNamed(es, suffix);
    assert found.Some? && !(found.value < i) && !(i < found.value);
  }

  ghost predicate OnlyOne(es: seq<Entry>, test: seq<nat> -> bool, i: nat) {
    && i < |es| && test(es[i].shape)
    && forall j :: 0 <= j < |es| && test(es[j].shape) ==> j == i
  }

  lemma OnlyOneWithShape(es: seq<Entry>, test: seq<nat> -> bool)
    ensures |WithShape(es, test)| == 1 <==> exists i :: OnlyOne(es, test, i)
    ensures |WithShape(es, test)| == 1 ==> OnlyOne(es, test, WithShape(es, test)[0])
  {
    var at := WithShape(es, test);
    if |at| == 1 {
      assert OnlyOne(es, test, at[0]);
    }
    if |at| >= 2 {
      assert at[0] < at[1];
      forall i ensures !OnlyOne(es, test, i) {
      }
    }
  }

  /** `k` alone has a shape [2000, n], and `b` alone the shape [n] that goes with it. */
  predicate UniquePair(es: seq<Entry>, k: nat, b: nat) {
    && k < |es| && b < |es|
    && |es[k].shape| == 2 && es[k].shape[0] == 2000 && es[b].shape == [es[k].shape[1]]
    && (forall j :: 0 <= j < |es| && |es[j].shape| == 2 && es[j].shape[0] == 2000 ==> j == k)
    && (forall j :: 0 <= j < |es| && es[j].shape == es[b].shape ==> j == b)
  }

  /** Without both canonical names, a head is found exactly when the shapes leave no choice. */
  lemma PickedByShape(es: seq<Entry>)
    requires FindNamed(es, "NewHeadDense/kernel").None? || FindNamed(es, "NewHeadDense/bias").None?
    ensures Pick(es).Ok? <==> exists k: nat, b: nat :: UniquePair(es, k, b)
    ensures forall k: nat, b: nat :: UniquePair(es, k, b) ==> Pick(es) == Ok((k, b))
  {
    hide FindNamed, WithShape;
    OnlyOneWithShape(es, KernelShaped);
    var kernels := WithShape(es, KernelShaped);
    if |kernels| == 1 {
      OnlyOneWithShape(es, BiasFor(es[kernels[0]].shape[1]));
    }
    if Pick(es).Ok? {
      assert UniquePair(es, Pick(es).value.0, Pick(es).value.1);
    }
    forall k: nat, b: nat | UniquePair(es, k, b) ensures Pick(es) == Ok((k, b)) {
      assert OnlyOne(es, KernelShaped, k);
      assert kernels[0] == k;
      assert OnlyOne(es, BiasFor(es[k].shape[1]), b);
    }
  }

  /** The entries whose shape passes `test`. */
  ghost function Candidates(es: seq<Entry>, test: seq<nat> -> bool): set<nat> {
    set i: nat | i < |es| && test(es[i].shape)
  }

  lemma {:induction false} WithShapeCounts(es: seq<Entry>, test: seq<nat> -> bool)
    ensures |WithShape(es, test)| == |Candidates(es, test)|
  {
    hide WithShape, Candidates;
    if es == [] {
      NoCandidates(test);
    } else {
      var n := |es| - 1;
      WithShapeCounts(es[..n], test);
      OneMoreCandidate(es[..n], es[n], test);
      WithShapeSnoc(es, test);
      assert es[..n] + [es[n]] == es;
    }
  }

  lemma NoCandidates(test: seq<nat> -> bool)
    ensures WithShape([], test) == [] && Candidates([], test) == {}
  {
  }

  lemma WithShapeSnoc(es: seq<Entry>, test: seq<nat> -> bool)
    requires es != []
    ensures var n := |es| - 1;
      |WithShape(es, test)| == |WithShape(es[..n], test)| + if test(es[n].shape) then 1 else 0
  {
  }

  lemma OneMoreCandidate(es: seq<Entry>, e: Entry, test: seq<nat> -> bool)
    ensures |Candidates(es + [e], test)| == |Candidates(es, test)| + if test(e.shape) then 1 else 0
  {
    if test(e.shape) {
      assert Candidates(es + [e], test) == Candidates(es, test) + {|es|};
    } else {
      assert Candidates(es + [e], test) == Candidates(es, test);
    }
  }

  /** Without both canonical names and a unique kernel shape, the error counts the kernel shapes. */
  lemma KernelsMiscounted(es: seq<Entry>)
    requires FindNamed(es, "NewHeadDense/kernel").None? || FindNamed(es, "NewHeadDense/bias").None?
    requires |Candidates(es, KernelShaped)| != 1
    ensures Pick(es) == Err(Locator(KernelCandidates(|Candidates(es, KernelShaped)|)))
  {
    hide WithShape, Candidates, FindNamed;
    WithShapeCounts(es, KernelShaped);
  }

  /** With a unique kernel shape but no unique bias shape, the error counts the bias shapes. */
  lemma BiasesMiscounted(es: seq<Entry>, k: nat)
    requires FindNamed(es, "NewHeadDense/kernel").None? || FindNamed(es, "NewHeadDense/bias").None?
    requires OnlyOne(es, KernelShaped, k) && |Candidates(es, BiasFor(es[k].shape[1]))| != 1
    ensures Pick(es) == Err(Locator(BiasCandidates(|Candidates(es, BiasFor(es[k].shape[1]))|)))
  {
    hide WithShape, Candidates, FindNamed;
    OnlyOneWithShape(es, KernelShaped);
    assert WithShape(es, KernelShaped)[0] == k;
    WithShapeCounts(es, BiasFor(es[k].shape[1]));
  }

  // ---- Reading weights ----

  /** The samples of a tensor, or the first one that is not finite. */
  function Checked(bytes: seq<Byte>, offset: nat, count: nat, tensor: string): Result<seq<Sample>, Error>
    requires offset + 4 * count <= |bytes|
  {
    var xs := Decoded(bytes[offset..offset + 4 * count], count);
    var bad := FirstNonFinite(xs);
    if bad < |xs| then Err(NonFiniteWeight(tensor, bad, xs[bad])) else Ok(xs)
  }

  method ReadF32AtChecked(bytes: seq<Byte>, offset: nat, count: nat, tensor: string)
    returns (r: Result<seq<Sample>, Error>)
    requires offset + 4 * count <= |bytes|
    ensures r == Checked(bytes, offset, count, tensor)
  {
    hide FirstNonFinite;
    var slice := bytes[offset..offset + 4 * count];
    ghost var xs := Decoded(slice, count);
    var out := new Sample[count](_ => 0);
    for i := 0 to count
      invariant out[..i] == xs[..i]
      invariant FirstNonFinite(xs) == i + FirstNonFinite(xs[i..])
    {
      var v := SampleAt(slice, i);
      assert v == xs[i] == xs[i..][0] && xs[i..][1..] == xs[i + 1..];
      NonFiniteNext(xs[i..]);
      if !IsFinite(v) {
        return Err(NonFiniteWeight(tensor, i, v));
      }
      out[i] := v;
    }
    assert out[..] == xs;
    return Ok(out[..]);
  }

  lemma NonFiniteNext(xs: seq<Sample>)
    requires xs != []
    ensures FirstNonFinite(xs) == if IsFinite(xs[0]) then 1 + FirstNonFinite(xs[1..]) else 0
  {
  }

  /** The shape checks both routes make on the picked pair, in order. */
  function HeadShapeError(k: Entry, b: Entry): Option<Error> {
    if !KernelShaped(k.shape) then Some(Locator(KernelShape(k.name, k.shape)))
    else if b.shape != [k.shape[1]] then Some(Locator(BiasShape(b.name, b.shape)))
    else if k.shape[1] == 0 || k.shape[1] > DEFAULT_LIMITS.maxClasses then
      Some(BadClassCount(k.shape[1], DEFAULT_LIMITS.maxClasses))
    else None
  }

  function SaturatingEnd(h: Host, e: Entry): nat {
    if End(e) > h.usizeMax then h.usizeMax else End(e)
  }

  /** A picked pair of well-formed entries that a blob of `size` bytes covers. */
  predicate PairFits(k: Entry, b: Entry, size: nat) {
    EntryOk(k) && EntryOk(b) && End(k) <= size && End(b) <= size
  }

  lemma PairLengths(k: Entry, b: Entry)
    requires EntryOk(k) && EntryOk(b) && HeadShapeError(k, b).None?
    ensures k.len == BACKBONE_FEATURE_DIM * k.shape[1] * 4 && b.len == k.shape[1] * 4
  {
    var n := k.shape[1];
    assert k.shape == [BACKBONE_FEATURE_DIM, n];
    assert Product([]) == 1 && Product([n]) == Times(n, 1) by { assert [n][1..] == []; }
    assert Product(k.shape) == Times(BACKBONE_FEATURE_DIM, Product([n])) by { assert k.shape[1..] == [n]; }
  }

  /** The weights of a picked pair read straight from the blob. */
  function HeadFromBlob(h: Host, k: Entry, b: Entry, blob: seq<Byte>): Result<HeadWeights, Error>
    requires PairFits(k, b, |blob|)
  {
    var bad := HeadShapeError(k, b);
    if bad.Some? then Err(bad.value)
    else
      var n := k.shape[1];
      var need := if SaturatingEnd(h, k) >= SaturatingEnd(h, b) then SaturatingEnd(h, k) else SaturatingEnd(h, b);
      if |blob| < need then Err(ShortRead(|blob|, need))
      else if BACKBONE_FEATURE_DIM * n > h.usizeMax then Err(ShapeOverflow(k.name, k.shape))
      else
        PairLengths(k, b);
        match Checked(blob, k.offset, BACKBONE_FEATURE_DIM * n, k.name)
        case Err(e) => Err(e)
        case Ok(kernel) =>
          match Checked(blob, b.offset, n, b.name)
          case Err(e) => Err(e)
          case Ok(bias) => Ok(HeadWeights(kernel, bias, n, BACKBONE_FEATURE_DIM))
  }

  lemma PickedFits(m: Manifest, i: nat)
    requires Laid(m) && i < |m.entries|
    ensures EntryOk(m.entries[i]) && End(m.entries[i]) <= Declared(m)
  {
    EntryInBounds(m, i);
  }

  /** The route over the whole blob. */
  function ExtractFromBuffers(h: Host, m: Manifest, blob: seq<Byte>): Result<HeadWeights, Error>
    requires Laid(m)
  {
    if |blob| != Declared(m) then Err(BlobLength(|blob|, Declared(m)))
    else match Pick(m.entries)
      case Err(e) => Err(e)
      case Ok((k, b)) =>
        PickedFits(m, k);
        PickedFits(m, b);
        HeadFromBlob(h, m.entries[k], m.entries[b], blob)
  }

  /** The checks on one range of `count` floats: overflow, byte cap, exact length. */
  function RangeError(h: Host, e: Entry, what: string, cap: nat, count: nat, have: nat): Option<Error> {
    var need := count * F32_BYTES;
    if need > h.usizeMax then Some(ShapeOverflow(e.name, e.shape))
    else if need > cap then Some(LimitExceeded(what, need, cap))
    else if have != need then Some(ShortRead(have, need))
    else None
  }

  /** The route over two byte ranges, with its own caps and length checks. */
  function FromByteRanges(h: Host, k: Entry, b: Entry, kernelBytes: seq<Byte>, biasBytes: seq<Byte>)
    : Result<HeadWeights, Error>
  {
    var bad := HeadShapeError(k, b);
    if bad.Some? then Err(bad.value)
    else
      var n := k.shape[1];
      if BACKBONE_FEATURE_DIM * n > h.usizeMax then Err(ShapeOverflow(k.name, k.shape))
      else
        var count := BACKBONE_FEATURE_DIM * n;
        match RangeError(h, k, "kernel_bytes", DEFAULT_LIMITS.maxKernelBytes, count, |kernelBytes|)
        case Some(e) => Err(e)
        case None =>
          match RangeError(h, b, "bias_bytes", DEFAULT_LIMITS.maxBiasBytes, n, |biasBytes|)
          case Some(e) => Err(e)
          case None =>
            match Checked(kernelBytes, 0, count, k.name)
            case Err(e) => Err(e)
            case Ok(kernel) =>
              match Checked(biasBytes, 0, n, b.name)
              case Err(e) => Err(e)
              case Ok(bias) => Ok(HeadWeights(kernel, bias, n, BACKBONE_FEATURE_DIM))
  }

  function Slice(blob: seq<Byte>, e: Entry): (r: seq<Byte>)
    requires End(e) <= |blob|
    ensures |r| == e.len
  {
    blob[e.offset..End(e)]
  }

  lemma CheckedSlice(blob: seq<Byte>, e: Entry, count: nat, tensor: string)
    requires End(e) <= |blob| && e.len == 4 * count
    ensures Checked(Slice(blob, e), 0, count, tensor) == Checked(blob, e.offset, count, tensor)
  {
    assert Slice(blob, e)[0..4 * count] == blob[e.offset..e.offset + 4 * count];
  }

  /**
    The two routes return the same weights or the same error on a picked pair, and none of the
    extra caps, overflow and length checks of the second one ever fires, whatever limits the
    manifest was parsed with.
  */
  lemma RangesAgreeWithBlob(h: Host, k: Entry, b: Entry, blob: seq<Byte>)
    requires HostOk(h) && PairFits(k, b, |blob|) && |blob| <= h.usizeMax
    ensures var r := FromByteRanges(h, k, b, Slice(blob, k), Slice(blob, b));
      && r == HeadFromBlob(h, k, b, blob)
      && (r.Err? ==> !r.error.LimitExceeded? && !r.error.ShortRead? && !r.error.ShapeOverflow?)
  {
    hide Checked, Slice, EntryOk;
    if HeadShapeError(k, b).None? {
      PairLengths(k, b);
      CheckedSlice(blob, k, BACKBONE_FEATURE_DIM * k.shape[1], k.name);
      CheckedSlice(blob, b, k.shape[1], b.name);
      CheckedErrors(Slice(blob, k), BACKBONE_FEATURE_DIM * k.shape[1], k.name);
      CheckedErrors(Slice(blob, b), k.shape[1], b.name);
    }
  }

  lemma CheckedErrors(bytes: seq<Byte>, count: nat, tensor: string)
    requires 4 * count <= |bytes|
    ensures Checked(bytes, 0, count, tensor).Err? ==> Checked(bytes, 0, count, tensor).error.NonFiniteWeight?
  {
  }

  /**
    A pair of entries yields weights exactly when the shapes pair up, the class count is between
    one and the default cap, and every weight is finite; the weights are the decoded slices.
    Limits looser than the default ones therefore never let a larger head through.
  */
  lemma WeightsExactly(h: Host, k: Entry, b: Entry, blob: seq<Byte>)
    requires HostOk(h) && PairFits(k, b, |blob|) && |blob| <= h.usizeMax
    ensures var r := HeadFromBlob(h, k, b, blob);
      && (r.Ok? <==>
            && KernelShaped(k.shape) && b.shape == [k.shape[1]]
            && 1 <= k.shape[1] <= 10_000
            && k.len % 4 == 0 && AllFinite(Decoded(Slice(blob, k), k.len / 4))
            && b.len % 4 == 0 && AllFinite(Decoded(Slice(blob, b), b.len / 4)))
      && (r.Ok? ==> r.value == HeadWeights(Decoded(Slice(blob, k), k.len / 4), Decoded(Slice(blob, b), b.len / 4),
                                           k.shape[1], BACKBONE_FEATURE_DIM))
  {
    hide EntryOk;
    if HeadShapeError(k, b).None? {
      PairLengths(k, b);
      assert k.len / 4 == BACKBONE_FEATURE_DIM * k.shape[1] && b.len / 4 == k.shape[1];
    }
  }

  /**
    The byte-range route on any two byte strings: it yields weights exactly when the shapes pair up
    for 1 to 10 000 classes, both strings have the length their shape asks for, and every weight is
    finite; a string of another length is reported with both lengths.
  */
  lemma RangesExactly(h: Host, k: Entry, b: Entry, kernelBytes: seq<Byte>, biasBytes: seq<Byte>, n: nat)
    requires HostOk(h)
    ensures var r := FromByteRanges(h, k, b, kernelBytes, biasBytes);
      k.shape == [2000, n] && b.shape == [n] && 1 <= n <= 10_000 ==>
        if |kernelBytes| != 8000 * n then r == Err(ShortRead(|kernelBytes|, 8000 * n))
        else if |biasBytes| != 4 * n then r == Err(ShortRead(|biasBytes|, 4 * n))
        else
          var kernel, bias := Decoded(kernelBytes, 2000 * n), Decoded(biasBytes, n);
          && (r.Ok? <==> AllFinite(kernel) && AllFinite(bias))
          && (r.Ok? ==> r.value == HeadWeights(kernel, bias, n, 2000))
    ensures FromByteRanges(h, k, b, kernelBytes, biasBytes).Ok? ==>
      |k.shape| == 2 && k.shape[0] == 2000 && b.shape == [k.shape[1]] && 1 <= k.shape[1] <= 10_000
  {
    if k.shape == [2000, n] && b.shape == [n] && 1 <= n <= 10_000 {
      if |kernelBytes| == 8000 * n {
        assert kernelBytes[0..8000 * n] == kernelBytes;
      }
      if |biasBytes| == 4 * n {
        assert biasBytes[0..4 * n] == biasBytes;
      }
    }
  }

  /** Sample `i` of a tensor's bytes is `x`, and the first that is not finite. */
  predicate FirstBad(bytes: seq<Byte>, i: nat, x: Sample) {
    && 4 * i + 4 <= |bytes| && x == SampleAt(bytes, i) && !IsFinite(x)
    && forall j :: 0 <= j < i ==> IsFinite(SampleAt(bytes, j))
  }

  /** What each error says of the pair is so, and every check made before it had passed. */
  predicate TrueFault(k: Entry, b: Entry, kernelBytes: seq<Byte>, biasBytes: seq<Byte>, e: Error) {
    match e
    case Locator(KernelShape(name, shape)) =>
      name == k.name && shape == k.shape && (|shape| != 2 || shape[0] != 2000)
    case Locator(BiasShape(name, shape)) =>
      name == b.name && shape == b.shape && |k.shape| == 2 && k.shape[0] == 2000 && shape != [k.shape[1]]
    case BadClassCount(got, max) =>
      && |k.shape| == 2 && k.shape[0] == 2000 && b.shape == [k.shape[1]]
      && got == k.shape[1] && max == 10_000 && !(1 <= got <= max)
    case NonFiniteWeight(tensor, i, x) =>
      || (tensor == k.name && FirstBad(kernelBytes, i, x))
      || (tensor == b.name && AllFinite(Decoded(kernelBytes, |kernelBytes| / 4)) && FirstBad(biasBytes, i, x))
    case _ => false
  }

  /** A refused pair is refused for the first of its faults. */
  lemma FaultsAreTrue(h: Host, k: Entry, b: Entry, blob: seq<Byte>)
    requires HostOk(h) && PairFits(k, b, |blob|) && |blob| <= h.usizeMax
    requires HeadFromBlob(h, k, b, blob).Err?
    ensures TrueFault(k, b, Slice(blob, k), Slice(blob, b), HeadFromBlob(h, k, b, blob).error)
  {
    hide EntryOk, Checked, FirstBad, AllFinite, Decoded, Slice, HeadShapeError;
    if HeadShapeError(k, b).Some? {
      ShapeFaultIsTrue(k, b, Slice(blob, k), Slice(blob, b));
    } else {
      PairLengths(k, b);
      CheckedFault(blob, k, k.name);
      CheckedFault(blob, b, b.name);
    }
  }

  lemma ShapeFaultIsTrue(k: Entry, b: Entry, kernelBytes: seq<Byte>, biasBytes: seq<Byte>)
    requires HeadShapeError(k, b).Some?
    ensures TrueFault(k, b, kernelBytes, biasBytes, HeadShapeError(k, b).value)
  {
    hide FirstBad, AllFinite, Decoded;
  }

  /** Reading one entry: all its samples, or its first bad one. */
  lemma CheckedFault(blob: seq<Byte>, e: Entry, tensor: string)
    requires End(e) <= |blob| && e.len % 4 == 0
    ensures var r := Checked(blob, e.offset, e.len / 4, tensor);
      && (r.Ok? ==> AllFinite(Decoded(Slice(blob, e), e.len / 4)))
      && (r.Err? ==> r.error.NonFiniteWeight? && r.error.tensor == tensor
                     && FirstBad(Slice(blob, e), r.error.index, r.error.weight))
  {
    assert blob[e.offset..e.offset + 4 * (e.len / 4)] == Slice(blob, e);
  }

  /** The first entries with the canonical names are a kernel and a bias for `n` classes. */
  predicate NamedHead(m: Manifest, k: nat, b: nat, n: nat) {
    && FirstNamed(m.entries, "NewHeadDense/kernel", k) && FirstNamed(m.entries, "NewHeadDense/bias", b)
    && m.entries[k].shape == [2000, n] && m.entries[b].shape == [n] && 1 <= n <= 10_000
  }

  /** The `count` floats at the start of an entry. */
  function Floats(blob: seq<Byte>, e: Entry, count: nat): seq<Sample>
    requires e.offset + 4 * count <= |blob|
  {
    Decoded(blob[e.offset..e.offset + 4 * count], count)
  }

  /** A head under the canonical names is loaded exactly when its weights are finite, and is then those two entries. */
  lemma NamedHeadIsExtracted(h: Host, m: Manifest, k: nat, b: nat, n: nat, blob: seq<Byte>)
    requires HostOk(h) && Laid(m) && |blob| == Declared(m) <= h.usizeMax && NamedHead(m, k, b, n)
    ensures m.entries[k].offset + 4 * (2000 * n) <= |blob| && m.entries[b].offset + 4 * n <= |blob|
    ensures var r := ExtractFromBuffers(h, m, blob);
      var kernel, bias := Floats(blob, m.entries[k], 2000 * n), Floats(blob, m.entries[b], n);
      && (r.Ok? <==> AllFinite(kernel) && AllFinite(bias))
      && (r.Ok? ==> r.value == HeadWeights(kernel, bias, n, 2000))
  {
    hide EntryOk, HeadFromBlob, Pick, Laid, FirstNamed, Declared, HeadShapeError, KernelShaped, Floats;
    PickedByName(m.entries, k, b);
    PickedFits(m, k);
    PickedFits(m, b);
    NamedPair(h, m.entries[k], m.entries[b], n, blob);
  }

  lemma NamedPair(h: Host, k: Entry, b: Entry, n: nat, blob: seq<Byte>)
    requires HostOk(h) && PairFits(k, b, |blob|) && |blob| <= h.usizeMax
    requires k.shape == [2000, n] && b.shape == [n] && 1 <= n <= 10_000
    ensures k.offset + 4 * (2000 * n) <= |blob| && b.offset + 4 * n <= |blob|
    ensures var r, kernel, bias := HeadFromBlob(h, k, b, blob), Floats(blob, k, 2000 * n), Floats(blob, b, n);
      && (r.Ok? <==> AllFinite(kernel) && AllFinite(bias))
      && (r.Ok? ==> r.value == HeadWeights(kernel, bias, n, 2000))
  {
    hide EntryOk, HeadFromBlob, AllFinite, Decoded;
    PairLengths(k, b);
    WeightsExactly(h, k, b, blob);
  }
}
