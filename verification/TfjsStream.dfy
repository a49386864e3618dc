/**
  The streaming shard reader: every shard is read once, and only the bytes that overlap the
  head's kernel and bias are copied out.  The result is the two slices of the concatenated
  shards, wherever the shard boundaries fall.
*/
module TfjsStream {
  import opened Wrappers
  import opened Samples
  import opened TfjsManifest
  import opened TfjsHead

  /** The first `n` shards one after the other. */
  function Joined(shards: seq<seq<Byte>>, n: nat): seq<Byte>
    requires n <= |shards|
  {
    if n == 0 then [] else Joined(shards, n - 1) + shards[n - 1]
  }

  function Blob(shards: seq<seq<Byte>>): seq<Byte> { Joined(shards, |shards|) }

  lemma {:induction false} JoinedIsPrefix(shards: seq<seq<Byte>>, n: nat)
    requires n <= |shards|
    ensures |Joined(shards, n)| <= |Blob(shards)| && Joined(shards, n) == Blob(shards)[..|Joined(shards, n)|]
    decreases |shards| - n
  {
    if n < |shards| {
      JoinedIsPrefix(shards, n + 1);
      assert Joined(shards, n) == Joined(shards, n + 1)[..|Joined(shards, n)|];
    }
  }

  function LensFrom(es: seq<Entry>, i: nat): nat
    requires i <= |es|
    decreases |es| - i
  {
    if i == |es| then 0 else es[i].len + LensFrom(es, i + 1)
  }

  /** The sum of all lengths is where the last entry ends. */
  lemma {:induction false} SumIsDeclared(m: Manifest, i: nat)
    requires Laid(m) && i < |m.entries|
    ensures m.entries[i].offset + LensFrom(m.entries, i) == Declared(m)
    decreases |m.entries| - i
  {
    hide EntryOk;
    if i + 1 < |m.entries| {
      assert Follows(m.entries, 0, i + 1);
      SumIsDeclared(m, i + 1);
    }
  }

  method SumOfLens(m: Manifest) returns (total: nat)
    requires Laid(m)
    ensures total == Declared(m)
  {
    hide EntryOk;
    total := 0;
    for i := 0 to |m.entries|
      invariant total + LensFrom(m.entries, i) == LensFrom(m.entries, 0)
    {
      total := total + m.entries[i].len;
    }
    assert Follows(m.entries, 0, 0);
    SumIsDeclared(m, 0);
  }

  /** What `out` holds once the first `seen` bytes of `blob` have gone by. */
  ghost predicate Filled(out: seq<Byte>, e: Entry, blob: seq<Byte>, seen: nat) {
    && |out| == e.len && seen <= |blob|
    && forall j :: 0 <= j < |out| && e.offset + j < seen ==> out[j] == blob[e.offset + j]
  }

  /** Copies the part of `shard`, which starts at `start` in the blob, that entry `e` occupies. */
  method CopyOverlap(h: Host, e: Entry, out: array<Byte>, shard: seq<Byte>, start: nat, ghost blob: seq<Byte>)
    requires End(e) <= h.usizeMax && start + |shard| <= |blob|
    requires blob[start..start + |shard|] == shard
    requires Filled(out[..], e, blob, start)
    modifies out
    ensures Filled(out[..], e, blob, start + |shard|)
  {
    var entryEnd, shardEnd := SaturatingEnd(h, e), start + |shard|;
    var overlapStart := if e.offset >= start then e.offset else start;
    var overlapEnd := if entryEnd <= shardEnd then entryEnd else shardEnd;
    if overlapStart >= overlapEnd {
      return;
    }
    var inShard, inBuffer, copyLen := overlapStart - start, overlapStart - e.offset, overlapEnd - overlapStart;
    ghost var before := out[..];
    for i := 0 to copyLen
      invariant forall j :: 0 <= j < out.Length ==>
        out[j] == if inBuffer <= j < inBuffer + i then shard[inShard + j - inBuffer] else before[j]
    {
      out[inBuffer + i] := shard[inShard + i];
    }
    forall j | 0 <= j < out.Length && e.offset + j < shardEnd
      ensures out[j] == blob[e.offset + j]
    {
      if inBuffer <= j {
        assert shard[inShard + j - inBuffer] == blob[start..shardEnd][e.offset + j - start];
      } else {
        assert before[j] == blob[e.offset + j];
      }
    }
  }

  /** The two ranges, or a length error when the shards do not add up to the declared payload. */
  method ReadHeadBytesStreaming(h: Host, m: Manifest, k: Entry, b: Entry, shards: seq<seq<Byte>>)
    returns (r: Result<(seq<Byte>, seq<Byte>), Error>)
    requires Laid(m) && End(k) <= Declared(m) <= h.usizeMax && End(b) <= Declared(m)
    ensures |Blob(shards)| <= h.usizeMax && |Blob(shards)| != Declared(m) ==>
      r == Err(BlobLength(|Blob(shards)|, Declared(m)))
    ensures |Blob(shards)| > h.usizeMax ==> r == Err(ShapeOverflow("<cumulative shard offset>", []))
    ensures |Blob(shards)| == Declared(m) ==> r == Ok((Slice(Blob(shards), k), Slice(Blob(shards), b)))
  {
    hide Laid, Joined;
    var declared := SumOfLens(m);
    ghost var blob := Blob(shards);
    var kernelBytes, biasBytes := new Byte[k.len](_ => 0), new Byte[b.len](_ => 0);
    var cumulative: nat := 0;
    JoinedNothing(shards);
    for i := 0 to |shards|
      invariant cumulative == |Joined(shards, i)| <= h.usizeMax
      invariant Filled(kernelBytes[..], k, blob, cumulative)
      invariant Filled(biasBytes[..], b, blob, cumulative)
    {
      JoinedNext(shards, i);
      if cumulative + |shards[i]| > h.usizeMax {
        return Err(ShapeOverflow("<cumulative shard offset>", []));
      }
      CopyOverlap(h, k, kernelBytes, shards[i], cumulative, blob);
      CopyOverlap(h, b, biasBytes, shards[i], cumulative, blob);
      cumulative := cumulative + |shards[i]|;
    }
    if cumulative != declared {
      return Err(BlobLength(cumulative, declared));
    }
    assert kernelBytes[..] == Slice(blob, k);
    assert biasBytes[..] == Slice(blob, b);
    return Ok((kernelBytes[..], biasBytes[..]));
  }

  lemma JoinedNothing(shards: seq<seq<Byte>>)
    ensures Joined(shards, 0) == []
  {
  }

  lemma JoinedNext(shards: seq<seq<Byte>>, i: nat)
    requires i < |shards|
    ensures var at := |Joined(shards, i)|;
      && |Joined(shards, i + 1)| == at + |shards[i]| <= |Blob(shards)|
      && Blob(shards)[at..at + |shards[i]|] == shards[i]
  {
    JoinedIsPrefix(shards, i + 1);
    var at := |Joined(shards, i)|;
    assert Joined(shards, i + 1)[at..at + |shards[i]|] == shards[i];
  }

  /** What the streaming route returns, said by the blob it never builds. */
  function Streamed(h: Host, m: Manifest, blob: seq<Byte>): Result<HeadWeights, Error>
    requires Laid(m)
  {
    match Pick(m.entries)
    case Err(e) => Err(e)
    case Ok(_) =>
      if |blob| > h.usizeMax then Err(ShapeOverflow("<cumulative shard offset>", []))
      else ExtractFromBuffers(h, m, blob)
  }

  /** The blob has the declared length and a head under the canonical names whose weights are finite. */
  predicate HoldsNamedHead(m: Manifest, blob: seq<Byte>, k: nat, b: nat, n: nat) {
    && |blob| == Declared(m) && NamedHead(m, k, b, n)
    && m.entries[k].offset + 4 * (2000 * n) <= |blob| && m.entries[b].offset + 4 * n <= |blob|
    && AllFinite(Floats(blob, m.entries[k], 2000 * n)) && AllFinite(Floats(blob, m.entries[b], n))
  }

  lemma NamedHeadIsLoaded(h: Host, m: Manifest, blob: seq<Byte>)
    requires HostOk(h) && Laid(m) && Declared(m) <= h.usizeMax
    ensures forall k: nat, b: nat, n: nat :: HoldsNamedHead(m, blob, k, b, n) ==>
      Streamed(h, m, blob) ==
        Ok(HeadWeights(Floats(blob, m.entries[k], 2000 * n), Floats(blob, m.entries[b], n), n, 2000))
  {
    hide Laid, ExtractFromBuffers, Pick, Floats;
    forall k: nat, b: nat, n: nat | HoldsNamedHead(m, blob, k, b, n)
      ensures Streamed(h, m, blob) ==
        Ok(HeadWeights(Floats(blob, m.entries[k], 2000 * n), Floats(blob, m.entries[b], n), n, 2000))
    {
      PickedByName(m.entries, k, b);
      NamedHeadIsExtracted(h, m, k, b, n, blob);
    }
  }

  /**
    The streaming route: pick, stream the shards, read the weights from the two ranges.  It
    gives the answer of the whole-blob route on any blob that route could hold in memory, unless
    the head cannot be located and the blob has the wrong length as well, when the two report
    different ones of the two faults.
  */
  method LoadHead(h: Host, m: Manifest, shards: seq<seq<Byte>>) returns (r: Result<HeadWeights, Error>)
    requires HostOk(h) && Laid(m) && Declared(m) <= h.usizeMax
    ensures r == Streamed(h, m, Blob(shards))
    ensures |Blob(shards)| <= h.usizeMax ==>
      (r == ExtractFromBuffers(h, m, Blob(shards)) <==> Pick(m.entries).Ok? || |Blob(shards)| == Declared(m))
    ensures forall k: nat, b: nat, n: nat :: HoldsNamedHead(m, Blob(shards), k, b, n) ==>
      r == Ok(HeadWeights(Floats(Blob(shards), m.entries[k], 2000 * n), Floats(Blob(shards), m.entries[b], n), n, 2000))
  {
    hide Laid, HeadFromBlob, FromByteRanges, Pick, EntryOk, Joined, Floats, HoldsNamedHead, NamedHead;
    NamedHeadIsLoaded(h, m, Blob(shards));
    var picked := Pick(m.entries);
    if picked.Err? {
      return Err(picked.error);
    }
    var k, b := m.entries[picked.value.0], m.entries[picked.value.1];
    PickedFits(m, picked.value.0);
    PickedFits(m, picked.value.1);
    var ranges := ReadHeadBytesStreaming(h, m, k, b, shards);
    if ranges.Err? {
      return Err(ranges.error);
    }
    RangesAgreeWithBlob(h, k, b, Blob(shards));
    r := FromByteRanges(h, k, b, ranges.value.0, ranges.value.1);
  }

  // ---- Inputs on which the code differs from what its comments say ----

  function Dims(shape: seq<nat>): seq<Option<nat>> {
    seq(|shape|, i requires 0 <= i < |shape| => Some(shape[i]))
  }

  /** A float tensor as a document declares it. */
  function Tensor(name: string, shape: seq<nat>): Weight { Weight(Some(name), Some("float32"), Some(Dims(shape))) }

  /** One group with one shard. */
  function OneShard(path: string, weights: seq<Weight>): Document {
    Document.Document(Some([Group(Some([Some(path)]), Some(weights))]))
  }

  lemma TensorShape(name: string, shape: seq<nat>)
    ensures Shaped(Tensor(name, shape)) && ShapeOf(Tensor(name, shape)) == shape
  {
  }

  lemma OneShardAccepted(h: Host, l: Limits, path: string, weights: seq<Weight>)
    requires HostOk(h) && h.safePath(path) && l.maxShards >= 1
    requires WeightsOk(h, l, weights) && weights != [] && TotalBytes(weights) <= h.usizeMax
    ensures Acceptable(h, l, 0, OneShard(path, weights))
    ensures ParseManifest(h, l, 0, OneShard(path, weights)) == Ok(Manifest(Placed(weights, 0), [path]))
  {
    hide WeightOk, TotalBytes, Placed, WeightsOk;
    var g := Group(Some([Some(path)]), Some(weights));
    assert [g][0] == g && [g][1..] == [];
    OneGroup(g);
    WeightsAreShaped(h, l, weights);
    assert Values([Some(path)]) == [path];
    AcceptedExactly(h, l, 0, OneShard(path, weights));
  }

  /**
    Limits looser than the default ones let a document with 10 001 classes through the parser, and
    its head is then refused by the default class cap, whatever the blob holds.
  */
  lemma LooserLimitsStillCapped(h: Host, path: string) returns (l: Limits, doc: Document, m: Manifest)
    requires HostOk(h) && h.safePath(path)
    ensures l == DEFAULT_LIMITS.(maxClasses := 20_000)
    ensures ParseManifest(h, l, 0, doc) == Ok(m) && Laid(m) && Declared(m) == 80_048_004
    ensures forall blob: seq<Byte> :: |blob| == Declared(m) ==>
      ExtractFromBuffers(h, m, blob) == Err(BadClassCount(10_001, 10_000))
  {
    l := DEFAULT_LIMITS.(maxClasses := 20_000);
    var kernel, bias := Tensor("k", [2000, 10_001]), Tensor("b", [10_001]);
    var weights := [kernel, bias];
    doc := OneShard(path, weights);
    TwoTensors(h, l);
    OneShardAccepted(h, l, path, weights);
    m := Manifest(Placed(weights, 0), [path]);
    AcceptedIsLaid(h, l, 0, doc);
    HeadOfTwo(m.entries);
    forall blob: seq<Byte> | |blob| == Declared(m)
      ensures ExtractFromBuffers(h, m, blob) == Err(BadClassCount(10_001, 10_000))
    {
    }
  }

  lemma LargeProducts()
    ensures Product([2000, 10_001]) == 20_002_000 && Product([10_001]) == 10_001 && Product([1]) == 1
  {
    assert [2000, 10_001][1..] == [10_001] && [10_001][1..] == [] && [1][1..] == [];
    assert Product([]) == 1;
    assert Product([10_001]) == Times(10_001, 1);
    assert Product([1]) == Times(1, 1);
  }

  lemma TwoTensors(h: Host, l: Limits)
    requires HostOk(h) && l == DEFAULT_LIMITS.(maxClasses := 20_000)
    ensures var weights := [Tensor("k", [2000, 10_001]), Tensor("b", [10_001])];
      && WeightsOk(h, l, weights) && TotalBytes(weights) == 80_048_004
      && Placed(weights, 0) ==
         [Entry("k", [2000, 10_001], 0, 80_008_000), Entry("b", [10_001], 80_008_000, 40_004)]
  {
    hide Product;
    var kernel, bias := Tensor("k", [2000, 10_001]), Tensor("b", [10_001]);
    TensorShape("k", [2000, 10_001]);
    TensorShape("b", [10_001]);
    LargeProducts();
    assert [kernel, bias][1..] == [bias] && [bias][1..] == [];
  }

  lemma HeadOfTwo(es: seq<Entry>)
    requires es == [Entry("k", [2000, 10_001], 0, 80_008_000), Entry("b", [10_001], 80_008_000, 40_004)]
    ensures Pick(es) == Ok((0, 1))
  {
    hide Pick, WithShape, FindNamed;
    assert !EndsWith(es[0].name, "NewHeadDense/kernel") && !EndsWith(es[1].name, "NewHeadDense/kernel");
    PickedByShape(es);
    assert es[0].shape == [2000, 10_001] && es[1].shape == [10_001];
    assert UniquePair(es, 0, 1);
  }

  /** A manifest without a head and a blob of the wrong length: each route reports the other fault. */
  lemma RoutesReportDifferentFaults(h: Host, path: string) returns (doc: Document, m: Manifest)
    requires HostOk(h) && h.safePath(path)
    ensures ParseManifest(h, DEFAULT_LIMITS, 0, doc) == Ok(m) && Laid(m)
    ensures Streamed(h, m, []) == Err(Locator(KernelCandidates(0)))
    ensures ExtractFromBuffers(h, m, []) == Err(BlobLength(0, 4))
  {
    hide Product;
    var weights := [Tensor("x", [1])];
    doc := OneShard(path, weights);
    TensorShape("x", [1]);
    LargeProducts();
    assert weights[1..] == [];
    OneShardAccepted(h, DEFAULT_LIMITS, path, weights);
    m := Manifest(Placed(weights, 0), [path]);
    AcceptedIsLaid(h, DEFAULT_LIMITS, 0, doc);
    assert m.entries == [Entry("x", [1], 0, 4)];
    assert FindNamed(m.entries, "NewHeadDense/kernel").None?;
    assert WithShape(m.entries, KernelShaped) == [];
  }
}
