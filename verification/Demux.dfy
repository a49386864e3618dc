/**
  One pass over an interleaved block: every whitelisted channel is copied, cleaned of
  non-finite samples, into its stride of the flat scratch buffer, and its energy summed.
*/
module Demux {
  import opened Samples

  /** Non-finite samples become 0.0, whose bit pattern is 0. */
  function Clean(s: Sample): (r: Sample)
    ensures IsFinite(r)
    ensures IsFinite(s) ==> r == s
    ensures !IsFinite(s) ==> r == 0
  {
    if IsFinite(s) then s else 0
  }

  /** `f * n + ch` addresses channel `ch` of frame `f`. */
  lemma FrameInBounds(f: nat, frames: nat, n: nat, ch: nat)
    requires f < frames && ch < n
    ensures 0 <= f * n + ch < frames * n
  {
    assert frames * n == f * n + n + (frames - f - 1) * n;
    Products(frames - f - 1, n);
    Products(f, n);
  }

  lemma Products(a: nat, b: nat)
    ensures a * b >= 0
  {
  }

  /** The cleaned samples of one channel of a block. */
  function ChannelOf(interleaved: seq<Sample>, n: nat, ch: nat, frames: nat): (c: seq<Sample>)
    requires ch < n && |interleaved| == frames * n
    ensures |c| == frames
    ensures forall f :: 0 <= f < frames ==> IsFinite(c[f])
  {
    seq(frames, f requires 0 <= f < frames =>
      (FrameInBounds(f, frames, n, ch);
       Clean(interleaved[f * n + ch])))
  }

  /** Sum of squares, with `value` giving the number a finite pattern stands for. */
  function SumSq(value: Sample -> real, xs: seq<Sample>): (r: real)
    ensures r >= 0.0
  {
    if xs == [] then 0.0
    else
      Square(value(xs[|xs| - 1]));
      SumSq(value, xs[..|xs| - 1]) + value(xs[|xs| - 1]) * value(xs[|xs| - 1])
  }

  lemma Square(x: real)
    ensures x * x >= 0.0
  {
  }

  function Splice<T>(s: seq<T>, at: nat, part: seq<T>): (r: seq<T>)
    requires at + |part| <= |s|
    ensures |r| == |s|
  {
    s[..at] + part + s[at + |part|..]
  }

  lemma StrideInBounds(slot: nat, slots: nat, stride: nat)
    requires slot < slots
    ensures slot * stride + stride <= slots * stride
  {
    assert slots * stride == slot * stride + stride + (slots - slot - 1) * stride;
    Products(slots - slot - 1, stride);
  }

  /** The flat buffer after the first `k` slots have been written. */
  function Demuxed(flat: seq<Sample>, interleaved: seq<Sample>, n: nat, whitelist: seq<nat>,
                   frames: nat, stride: nat, k: nat): (r: seq<Sample>)
    requires frames <= stride && k <= |whitelist| && |flat| == |whitelist| * stride
    requires |interleaved| == frames * n && forall i :: 0 <= i < |whitelist| ==> whitelist[i] < n
    ensures |r| == |flat|
  {
    if k == 0 then flat
    else
      StrideInBounds(k - 1, |whitelist|, stride);
      Splice(Demuxed(flat, interleaved, n, whitelist, frames, stride, k - 1),
             (k - 1) * stride, ChannelOf(interleaved, n, whitelist[k - 1], frames))
  }

  lemma DemuxedNothing(flat: seq<Sample>, interleaved: seq<Sample>, n: nat, whitelist: seq<nat>, frames: nat, stride: nat)
    requires frames <= stride && |flat| == |whitelist| * stride
    requires |interleaved| == frames * n && forall i :: 0 <= i < |whitelist| ==> whitelist[i] < n
    ensures Demuxed(flat, interleaved, n, whitelist, frames, stride, 0) == flat
  {
  }

  lemma DemuxedNext(flat: seq<Sample>, interleaved: seq<Sample>, n: nat, whitelist: seq<nat>,
                    frames: nat, stride: nat, k: nat)
    requires frames <= stride && k < |whitelist| && |flat| == |whitelist| * stride
    requires |interleaved| == frames * n && forall i :: 0 <= i < |whitelist| ==> whitelist[i] < n
    ensures k * stride + frames <= |flat|
    ensures Demuxed(flat, interleaved, n, whitelist, frames, stride, k + 1) ==
      Splice(Demuxed(flat, interleaved, n, whitelist, frames, stride, k), k * stride,
             ChannelOf(interleaved, n, whitelist[k], frames))
  {
    StrideInBounds(k, |whitelist|, stride);
  }

  /** Slot `i` starts with its own channel, and the rest of its stride is as it was. */
  lemma {:induction false} DemuxedSlot(flat: seq<Sample>, interleaved: seq<Sample>, n: nat, whitelist: seq<nat>,
                                        frames: nat, stride: nat, k: nat, i: nat)
    requires frames <= stride && k <= |whitelist| && |flat| == |whitelist| * stride
    requires |interleaved| == frames * n && forall i :: 0 <= i < |whitelist| ==> whitelist[i] < n
    requires i < |whitelist|
    ensures i * stride + stride <= |flat|
    ensures var r := Demuxed(flat, interleaved, n, whitelist, frames, stride, k);
      && r[i * stride..i * stride + frames] ==
         (if i < k then ChannelOf(interleaved, n, whitelist[i], frames) else flat[i * stride..i * stride + frames])
      && r[i * stride + frames..i * stride + stride] == flat[i * stride + frames..i * stride + stride]
    decreases k
  {
    hide ChannelOf, Demuxed, Splice;
    StrideInBounds(i, |whitelist|, stride);
    if k == 0 {
      DemuxedNothing(flat, interleaved, n, whitelist, frames, stride);
    } else {
      DemuxedSlot(flat, interleaved, n, whitelist, frames, stride, k - 1, i);
      DemuxedNext(flat, interleaved, n, whitelist, frames, stride, k - 1);
      SplicedSlot(Demuxed(flat, interleaved, n, whitelist, frames, stride, k - 1), k - 1,
                  ChannelOf(interleaved, n, whitelist[k - 1], frames), i, frames, stride, |whitelist|);
    }
  }

  /** Splicing slot `j` shows in slot `i` only if they are the same, or the strides are empty. */
  lemma SplicedSlot(s: seq<Sample>, j: nat, part: seq<Sample>, i: nat, frames: nat, stride: nat, slots: nat)
    requires i < slots && j < slots && |s| == slots * stride && |part| == frames <= stride
    ensures i * stride + stride <= |s| && j * stride + stride <= |s|
    ensures var r := Splice(s, j * stride, part);
      && r[i * stride..i * stride + frames] == (if i == j then part else s[i * stride..i * stride + frames])
      && r[i * stride + frames..i * stride + stride] == s[i * stride + frames..i * stride + stride]
  {
    hide Splice;
    StridesApart(i, j, slots, stride);
    SplicedWindow(s, j * stride, part, i * stride, frames, stride);
    if i != j && i * stride == j * stride {
      SameStart(i, j, stride);
    }
  }

  lemma StridesApart(i: nat, j: nat, slots: nat, stride: nat)
    requires i < slots && j < slots
    ensures i * stride + stride <= slots * stride && j * stride + stride <= slots * stride
    ensures i < j ==> i * stride + stride <= j * stride
    ensures j < i ==> j * stride + stride <= i * stride
  {
    StrideInBounds(i, slots, stride);
    StrideInBounds(j, slots, stride);
    if i < j {
      StrideInBounds(i, j, stride);
    } else if j < i {
      StrideInBounds(j, i, stride);
    }
  }

  /** Different slots start at the same place only when the strides are empty. */
  lemma SameStart(i: nat, j: nat, stride: nat)
    requires i != j && i * stride == j * stride
    ensures stride == 0
  {
    if i < j {
      StrideInBounds(i, j, stride);
    } else {
      StrideInBounds(j, i, stride);
    }
  }

  /** A splice inside one stride shows there and leaves windows of other strides alone. */
  lemma SplicedWindow<T>(s: seq<T>, at: nat, part: seq<T>, from: nat, frames: nat, stride: nat)
    requires |part| == frames <= stride && at + stride <= |s| && from + stride <= |s|
    requires from == at || from + stride <= at || at + stride <= from
    ensures Splice(s, at, part)[from..from + frames] == (if from == at then part else s[from..from + frames])
    ensures Splice(s, at, part)[from + frames..from + stride] == s[from + frames..from + stride]
  {
  }

  /** Frame `f` of slot `i`: the sample of the slot's own channel, or 0 where that is not a number. */
  predicate CopiedAt(flat: seq<Sample>, interleaved: seq<Sample>, n: nat, whitelist: seq<nat>, stride: nat, i: nat, f: nat)
    requires i < |whitelist|
  {
    var at, from := i * stride + f, f * n + whitelist[i];
    && 0 <= at < |flat| && 0 <= from < |interleaved|
    && (IsFinite(interleaved[from]) ==> flat[at] == interleaved[from])
    && (!IsFinite(interleaved[from]) ==> flat[at] == 0)
  }

  predicate KeptAt(flat: seq<Sample>, before: seq<Sample>, stride: nat, i: nat, f: nat) {
    var at := i * stride + f;
    0 <= at < |flat| == |before| && flat[at] == before[at]
  }

  /** Sample by sample: the first `frames` of each stride are copied and cleaned, the rest kept. */
  lemma DemuxedAt(flat: seq<Sample>, interleaved: seq<Sample>, n: nat, whitelist: seq<nat>,
                  frames: nat, stride: nat, i: nat, f: nat)
    requires frames <= stride && |flat| == |whitelist| * stride && i < |whitelist| && f < stride
    requires |interleaved| == frames * n && forall i :: 0 <= i < |whitelist| ==> whitelist[i] < n
    ensures var r := Demuxed(flat, interleaved, n, whitelist, frames, stride, |whitelist|);
      if f < frames then CopiedAt(r, interleaved, n, whitelist, stride, i, f) else KeptAt(r, flat, stride, i, f)
  {
    hide Demuxed, ChannelOf, Clean, IsFinite;
    DemuxedSlot(flat, interleaved, n, whitelist, frames, stride, |whitelist|, i);
    Products(i, stride);
    var r, at := Demuxed(flat, interleaved, n, whitelist, frames, stride, |whitelist|), i * stride;
    if f < frames {
      ChannelAt(interleaved, n, whitelist[i], frames, f);
      assert r[at + f] == r[at..at + frames][f];
    } else {
      assert r[at + f] == r[at + frames..at + stride][f - frames];
      assert flat[at + f] == flat[at + frames..at + stride][f - frames];
    }
  }

  /** Slot-major: the outer loop over slots, the inner over frames. */
  method SinglePassDemuxAndRms(value: Sample -> real, interleaved: seq<Sample>, n: nat, whitelist: seq<nat>,
                               flat: array<Sample>, sumSq: array<real>, frames: nat, stride: nat)
    requires frames <= stride && flat.Length == |whitelist| * stride && sumSq.Length == |whitelist|
    requires |interleaved| == frames * n && forall i :: 0 <= i < |whitelist| ==> whitelist[i] < n
    modifies flat, sumSq
    ensures flat[..] == Demuxed(old(flat[..]), interleaved, n, whitelist, frames, stride, |whitelist|)
    ensures forall i, f :: 0 <= i < |whitelist| && 0 <= f < frames ==>
      CopiedAt(flat[..], interleaved, n, whitelist, stride, i, f)
    ensures forall i, f :: 0 <= i < |whitelist| && frames <= f < stride ==>
      KeptAt(flat[..], old(flat[..]), stride, i, f)
    ensures forall i :: 0 <= i < |whitelist| ==>
      sumSq[i] == SumSq(value, ChannelOf(interleaved, n, whitelist[i], frames))
  {
    hide Demuxed, SumSq, Splice, CopiedAt, KeptAt, ChannelOf;
    ghost var before := flat[..];
    DemuxedNothing(before, interleaved, n, whitelist, frames, stride);
    for slot := 0 to |whitelist|
      invariant flat[..] == Demuxed(before, interleaved, n, whitelist, frames, stride, slot)
      invariant forall i :: 0 <= i < slot ==>
        sumSq[i] == SumSq(value, ChannelOf(interleaved, n, whitelist[i], frames))
    {
      StrideInBounds(slot, |whitelist|, stride);
      var offset, ch := slot * stride, whitelist[slot];
      var total := DemuxSlot(value, interleaved, n, ch, flat, offset, frames);
      sumSq[slot] := total;
      DemuxedNext(before, interleaved, n, whitelist, frames, stride, slot);
    }
    forall i, f | 0 <= i < |whitelist| && 0 <= f < stride
      ensures if f < frames then CopiedAt(flat[..], interleaved, n, whitelist, stride, i, f)
              else KeptAt(flat[..], before, stride, i, f)
    {
      DemuxedAt(before, interleaved, n, whitelist, frames, stride, i, f);
    }
  }

  /** The inner loop: one channel into one window, its energy in a local accumulator. */
  method DemuxSlot(value: Sample -> real, interleaved: seq<Sample>, n: nat, ch: nat,
                   flat: array<Sample>, offset: nat, frames: nat) returns (total: real)
    requires ch < n && |interleaved| == frames * n && offset + frames <= flat.Length
    modifies flat
    ensures flat[..] == Splice(old(flat[..]), offset, ChannelOf(interleaved, n, ch, frames))
    ensures forall f :: 0 <= f < frames ==> CopiedAt(flat[offset..], interleaved, n, [ch], 0, 0, f)
    ensures total == SumSq(value, ChannelOf(interleaved, n, ch, frames))
  {
    hide ChannelOf, SumSq;
    ghost var channel := ChannelOf(interleaved, n, ch, frames);
    total := 0.0;
    SumSqNothing(value, channel);
    for f := 0 to frames
      invariant forall j :: 0 <= j < flat.Length ==>
        flat[j] == if offset <= j < offset + f then channel[j - offset] else old(flat[j])
      invariant total == SumSq(value, channel[..f])
    {
      FrameInBounds(f, frames, n, ch);
      var s := Clean(interleaved[f * n + ch]);
      ChannelAt(interleaved, n, ch, frames, f);
      SumSqNext(value, channel, f);
      flat[offset + f] := s;
      total := total + value(s) * value(s);
    }
    assert channel[..frames] == channel;
    forall f | 0 <= f < frames ensures CopiedAt(flat[offset..], interleaved, n, [ch], 0, 0, f) {
      ChannelAt(interleaved, n, ch, frames, f);
      assert flat[offset..][f] == flat[offset + f];
    }
  }

  lemma ChannelAt(interleaved: seq<Sample>, n: nat, ch: nat, frames: nat, f: nat)
    requires ch < n && |interleaved| == frames * n && f < frames
    ensures 0 <= f * n + ch < |interleaved|
    ensures ChannelOf(interleaved, n, ch, frames)[f] == Clean(interleaved[f * n + ch])
  {
    FrameInBounds(f, frames, n, ch);
  }

  /** The energy of one sample, and of two stretches one after the other. */
  lemma {:induction false} EnergyAddsUp(value: Sample -> real, x: Sample, a: seq<Sample>, b: seq<Sample>)
    ensures SumSq(value, [x]) == value(x) * value(x)
    ensures SumSq(value, a + b) == SumSq(value, a) + SumSq(value, b)
    decreases |b|
  {
    assert [x][..0] == [];
    if b == [] {
      assert a + b == a;
    } else {
      EnergyAddsUp(value, x, a, b[..|b| - 1]);
      assert (a + b)[..|a + b| - 1] == a + b[..|b| - 1];
    }
  }

  lemma SumSqNothing(value: Sample -> real, xs: seq<Sample>)
    ensures SumSq(value, xs[..0]) == 0.0
  {
  }

  lemma SumSqNext(value: Sample -> real, xs: seq<Sample>, f: nat)
    requires f < |xs|
    ensures SumSq(value, xs[..f + 1]) == SumSq(value, xs[..f]) + value(xs[f]) * value(xs[f])
  {
    assert xs[..f + 1][..f] == xs[..f];
  }
}
