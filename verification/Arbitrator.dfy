/**
  The mic arbitrator's state and its processing of one period: demux, smoothed levels,
  choice of slot, resampling and chunked pushes into the sample ring.  The real-valued
  functions and the resampling kernels are parameters with the bounds stated here.
*/
module Arbitrator {
  import opened Wrappers
  import opened Samples
  import opened RingIndex
  import opened AudioRing
  import opened Resampling
  import opened SlotPolicy
  import opened Demux

  const SAMPLE_RATE: nat := 44_100

  datatype Source = Source(id: nat, channels: nat, period: nat, rate: nat, whitelist: seq<nat>)

  predicate WellFormed(src: Source) {
    && src.period > 0 && src.rate > 0 && src.whitelist != []
    && forall i :: 0 <= i < |src.whitelist| ==> src.whitelist[i] < src.channels
  }

  /** The number of a pattern, the square root, and the smoothing weight of a block of frames. */
  datatype Numerics = Numerics(value: Sample -> real, sqrt: real -> real, alpha: (nat, nat) -> real)

  ghost predicate Sound(num: Numerics) {
    && (forall x :: x >= 0.0 ==> num.sqrt(x) >= 0.0)
    && forall frames, rate :: 0.0 <= num.alpha(frames, rate) <= 1.0
  }

  ghost predicate KernelsSound<S>(kernels: nat -> Kernel<S>) {
    forall rate :: kernels(rate).chunk > 0
  }

  // ---- Levels ----

  function BlockRms(num: Numerics, xs: seq<Sample>): real
    requires xs != []
  {
    num.sqrt(SumSq(num.value, xs) / (|xs| as real))
  }

  function Times(a: real, x: real): real { a * x }

  function Ema(alpha: real, block: real, previous: real): real {
    Times(alpha, block) + Times(1.0 - alpha, previous)
  }

  lemma ScaledAtMost(a: real, x: real, m: real)
    requires a >= 0.0 && 0.0 <= x <= m
    ensures 0.0 <= Times(a, x) <= Times(a, m)
  {
  }

  /** Smoothing never leaves the range of what went into it. */
  lemma EmaStaysInRange(alpha: real, block: real, previous: real, m: real)
    requires 0.0 <= alpha <= 1.0 && 0.0 <= block <= m && 0.0 <= previous <= m
    ensures 0.0 <= Ema(alpha, block, previous) <= m
  {
    hide Times;
    ScaledAtMost(alpha, block, m);
    ScaledAtMost(1.0 - alpha, previous, m);
    PartsOfWhole(alpha, m);
  }

  lemma PartsOfWhole(alpha: real, m: real)
    ensures Times(alpha, m) + Times(1.0 - alpha, m) == m
  {
  }

  /** The block levels of all slots. */
  function BlockLevels(num: Numerics, channels: seq<seq<Sample>>, frames: nat): (r: seq<real>)
    requires frames > 0 && forall i :: 0 <= i < |channels| ==> |channels[i]| == frames
    ensures |r| == |channels|
  {
    seq(|channels|, i requires 0 <= i < |channels| => BlockRms(num, channels[i]))
  }

  /** With an exact square root, a block level is the root of the mean energy of its slot's samples. */
  lemma LevelIsRootMeanSquare(num: Numerics, channels: seq<seq<Sample>>, frames: nat, i: nat)
    requires Sound(num) && (forall x :: x >= 0.0 ==> num.sqrt(x) * num.sqrt(x) == x)
    requires frames > 0 && (forall i :: 0 <= i < |channels| ==> |channels[i]| == frames) && i < |channels|
    ensures var level := BlockLevels(num, channels, frames)[i];
      level >= 0.0 && level * level * (frames as real) == SumSq(num.value, channels[i])
  {
    var total, mean := SumSq(num.value, channels[i]), SumSq(num.value, channels[i]) / (frames as real);
    MeanIsNonNegative(total, frames);
    assert mean * (frames as real) == total;
  }

  /** Each slot's level keeps the share 1 - alpha of its distance from its block's level. */
  lemma SmoothedApproaches(alpha: real, blocks: seq<real>, levels: seq<real>, i: nat)
    requires |blocks| == |levels| && i < |levels|
    ensures Smoothed(alpha, blocks, levels)[i] - blocks[i] == (1.0 - alpha) * (levels[i] - blocks[i])
  {
  }

  /** The cleaned channels of a block, one per whitelisted slot. */
  function Channels(block: seq<Sample>, n: nat, whitelist: seq<nat>, frames: nat): (r: seq<seq<Sample>>)
    requires |block| == frames * n
    requires forall i :: 0 <= i < |whitelist| ==> whitelist[i] < n
    ensures |r| == |whitelist| && forall i :: 0 <= i < |r| ==> |r[i]| == frames
  {
    seq(|whitelist|, i requires 0 <= i < |whitelist| => ChannelOf(block, n, whitelist[i], frames))
  }

  /** Full reads use the weight cached at boot; short reads weigh their own frames. */
  function AlphaForFrames(num: Numerics, frames: nat, cache: Cache): (alpha: real)
    requires Sound(num)
    ensures 0.0 <= cache.alpha <= 1.0 ==> 0.0 <= alpha <= 1.0
    ensures cache.alpha == num.alpha(cache.period, cache.rate) ==> alpha == num.alpha(frames, cache.rate)
  {
    if frames == cache.period then cache.alpha else num.alpha(frames, cache.rate)
  }

  function Smoothed(alpha: real, blocks: seq<real>, levels: seq<real>): (r: seq<real>)
    requires |blocks| == |levels|
    ensures |r| == |levels|
  {
    seq(|levels|, i requires 0 <= i < |levels| => Ema(alpha, blocks[i], levels[i]))
  }

  function Highest(start: real, xs: seq<real>): (m: real)
    ensures m >= start && forall i :: 0 <= i < |xs| ==> xs[i] <= m
    ensures m == start || m in xs
  {
    if xs == [] then start
    else
      var h := Highest(start, xs[..|xs| - 1]);
      if xs[|xs| - 1] > h then xs[|xs| - 1] else h
  }

  // ---- Output ----

  /** `gained` is channel `ch` of the block, sample by sample, with 0 for what is not a number. */
  predicate OwnSamples(gained: seq<Sample>, block: seq<Sample>, n: nat, ch: nat, frames: nat) {
    |gained| == frames && forall f :: 0 <= f < frames ==> CopiedAt(gained, block, n, [ch], 0, 0, f)
  }

  lemma ChannelIsOwnSamples(block: seq<Sample>, n: nat, ch: nat, frames: nat)
    requires ch < n && |block| == frames * n
    ensures OwnSamples(ChannelOf(block, n, ch, frames), block, n, ch, frames)
  {
    forall f | 0 <= f < frames ensures CopiedAt(ChannelOf(block, n, ch, frames), block, n, [ch], 0, 0, f) {
      ChannelAt(block, n, ch, frames, f);
    }
  }

  /** The channel choice is pinned, so only the pinned slot's resampler is fed. */
  predicate TrulyFixed(policy: ChannelSelection, whitelist: seq<nat>) {
    policy.FixedChannel? && policy.channel in whitelist
  }

  /** A slot's resampler after the period. */
  function StreamAfter<S>(k: Kernel<S>, st: Stream<S>, channel: seq<Sample>, skipped: bool): Stream<S>
    requires k.chunk > 0
  {
    if skipped then Fresh(k) else Drained(Feed(k, st, channel))
  }

  /** All slots' resamplers after the period. */
  function ResamplersAfter<S>(k: Kernel<S>, rs: seq<Option<Stream<S>>>, channels: seq<seq<Sample>>,
                              fixed: bool, active: nat): (r: seq<Option<Stream<S>>>)
    requires k.chunk > 0 && |rs| == |channels|
    ensures |r| == |rs| && forall i :: 0 <= i < |r| ==> (r[i].Some? <==> rs[i].Some?)
  {
    seq(|rs|, i requires 0 <= i < |rs| =>
      match rs[i]
      case None => None
      case Some(st) => Some(StreamAfter(k, st, channels[i], fixed && i != active)))
  }

  function AllFresh<S>(k: Kernel<S>, rs: seq<Option<Stream<S>>>): (r: seq<Option<Stream<S>>>)
    ensures |r| == |rs| && forall i :: 0 <= i < |r| ==> (r[i].Some? <==> rs[i].Some?)
  {
    seq(|rs|, i requires 0 <= i < |rs| => if rs[i].Some? then Some(Fresh(k)) else None)
  }

  /** What the period adds to the ring, given the active slot's channel and resampler. */
  function Emission<S>(k: Kernel<S>, st: Option<Stream<S>>, channel: seq<Sample>): seq<Sample>
    requires k.chunk > 0
  {
    match st
    case None => channel
    case Some(stream) => Feed(k, stream, channel).out
  }

  /** Pushes a batch of any length in chunks the ring admits. */
  method PushChunked(writer: Writer, batch: seq<Sample>)
    requires writer.inner.Valid()
    modifies writer.inner`head, writer.inner`log, writer.inner.cells
    ensures writer.inner.Valid() && writer.inner.log == old(writer.inner.log) + batch
  {
    var maxPush := SafetyMargin(writer.inner.capacity);
    var sent := 0;
    while sent < |batch|
      invariant sent <= |batch| && writer.inner.Valid()
      invariant writer.inner.log == old(writer.inner.log) + batch[..sent]
    {
      var end := if sent + maxPush <= |batch| then sent + maxPush else |batch|;
      writer.Push(batch[sent..end]);
      assert batch[..end] == batch[..sent] + batch[sent..end];
      sent := end;
    }
    assert batch[..|batch|] == batch;
  }

  /** Slot `i` of the flat scratch starts with `channels[i]`. */
  ghost predicate Strided(flat: seq<Sample>, channels: seq<seq<Sample>>, frames: nat, stride: nat) {
    forall i :: 0 <= i < |channels| ==> SlotHas(flat, i * stride, channels[i], frames)
  }

  predicate SlotHas(flat: seq<Sample>, at: int, channel: seq<Sample>, frames: nat) {
    0 <= at && at + frames <= |flat| && flat[at..at + frames] == channel
  }

  /** The loop over the slots' resamplers: skipped ones are reset, the others fed and drained. */
  method FeedSlots<S>(writer: Writer, k: Kernel<S>, before: seq<Option<Stream<S>>>, flat: seq<Sample>, stride: nat,
                      frames: nat, fixed: bool, activeIdx: nat, ghost channels: seq<seq<Sample>>)
    returns (rs: seq<Option<Stream<S>>>)
    requires writer.inner.Valid() && k.chunk > 0 && activeIdx < |before| == |channels|
    requires forall i :: 0 <= i < |before| ==> before[i].Some?
    requires Strided(flat, channels, frames, stride)
    modifies writer.inner`head, writer.inner`log, writer.inner.cells
    ensures writer.inner.Valid()
    ensures rs == ResamplersAfter(k, before, channels, fixed, activeIdx)
    ensures writer.inner.log == old(writer.inner.log) + Emission(k, before[activeIdx], channels[activeIdx])
  {
    hide Pump, Holds, Feed, Drained, Fresh, StreamAfter;
    rs := before;
    for slot := 0 to |before|
      invariant |rs| == |before| && writer.inner.Valid()
      invariant forall i :: slot <= i < |before| ==> rs[i] == before[i]
      invariant forall i :: 0 <= i < slot ==>
        rs[i] == Some(StreamAfter(k, before[i].value, channels[i], fixed && i != activeIdx))
      invariant writer.inner.log == old(writer.inner.log) +
        if slot <= activeIdx then [] else Emission(k, before[activeIdx], channels[activeIdx])
    {
      assert SlotHas(flat, slot * stride, channels[slot], frames);
      if fixed && slot != activeIdx {
        SkippedStream(k, before[slot].value, channels[slot]);
        rs := rs[slot := Some(Fresh(k))];
      } else {
        var offset := slot * stride;
        var fed := Feed(k, before[slot].value, flat[offset..offset + frames]);
        FedStream(k, before[slot].value, channels[slot]);
        rs := rs[slot := Some(Drained(fed))];
        if slot == activeIdx {
          PushChunked(writer, fed.out);
        }
      }
    }
    assert rs == ResamplersAfter(k, before, channels, fixed, activeIdx);
  }

  lemma SkippedStream<S>(k: Kernel<S>, st: Stream<S>, channel: seq<Sample>)
    requires k.chunk > 0
    ensures StreamAfter(k, st, channel, true) == Fresh(k)
  {
  }

  lemma FedStream<S>(k: Kernel<S>, st: Stream<S>, channel: seq<Sample>)
    requires k.chunk > 0
    ensures StreamAfter(k, st, channel, false) == Drained(Feed(k, st, channel))
  {
  }

  function Area(rows: nat, columns: nat): nat {
    Products(rows, columns);
    rows * columns
  }

  /** A scratch buffer of `n` zeros. */
  method Scratch(n: nat) returns (a: array<Sample>)
    ensures fresh(a) && a.Length == n && forall i :: 0 <= i < n ==> a[i] == 0
  {
    a := new Sample[n](_ => 0);
  }

  /** The buffers of a freshly opened source. */
  method Buffers(slots: nat, period: nat, channels: nat)
    returns (interleaved: array<Sample>, slotScratch: array<Sample>, sumSq: array<real>)
    ensures fresh(interleaved) && interleaved.Length == Area(period, channels)
    ensures fresh(slotScratch) && slotScratch.Length == Area(slots, period) && slotScratch != interleaved
    ensures fresh(sumSq) && sumSq.Length == slots
  {
    hide Area;
    slotScratch := Scratch(Area(slots, period));
    sumSq := new real[slots](_ => 0.0);
    interleaved := Scratch(Area(period, channels));
  }

  function Repeat<T>(n: nat, x: T): (r: seq<T>)
    ensures |r| == n && forall i :: 0 <= i < n ==> r[i] == x
  {
    seq(n, _ => x)
  }

  /** What the hot path keeps of the active source, so as not to borrow it. */
  datatype Cache = Cache(whitelist: seq<nat>, channels: nat, rate: nat, period: nat, alpha: real)

  const NO_CACHE := Cache([], 0, 0, 0, 1.0)

  function CacheOf(num: Numerics, src: Source): Cache {
    Cache(src.whitelist, src.channels, src.rate, src.period, num.alpha(src.period, src.rate))
  }

  lemma CacheFields(num: Numerics, src: Source)
    ensures var cache := CacheOf(num, src);
      && cache.whitelist == src.whitelist && cache.channels == src.channels
      && cache.rate == src.rate && cache.period == src.period
  {
  }

  /** The cache mirrors the active source, and is empty without one. */
  ghost predicate CacheValid(num: Numerics, active: Option<Source>, cache: Cache) {
    match active
    case None => cache == NO_CACHE
    case Some(src) => WellFormed(src) && cache == CacheOf(num, src)
  }

  /** Per-slot state is sized to the whitelist; resamplers are all present or all absent. */
  ghost predicate SlotsValid<S>(cache: Cache, levels: seq<real>, peak: real,
                                resamplers: seq<Option<Stream<S>>>, choice: Choice) {
    && |levels| == |resamplers| == |cache.whitelist|
    && InRange(choice, cache.whitelist)
    && (forall i :: 0 <= i < |levels| ==> 0.0 <= levels[i] <= peak)
    && (forall i :: 0 <= i < |resamplers| ==> (resamplers[i].Some? <==> cache.rate != SAMPLE_RATE))
  }

  lemma SilentSlotsValid<S>(cache: Cache, st: Stream<S>)
    ensures SlotsValid(cache, Repeat(|cache.whitelist|, 0.0), 0.0,
      Repeat(|cache.whitelist|, if cache.rate != SAMPLE_RATE then Some(st) else None), Choice(None, None))
  {
  }

  class ArbitratorState<!S> {
    const num: Numerics
    const kernels: nat -> Kernel<S>
    var active: Option<Source>
    var cache: Cache
    var perSlot: seq<real>
    var resamplers: seq<Option<Stream<S>>>
    var choice: Choice
    var lastData: nat
    var interleaved: array<Sample>
    var slotScratch: array<Sample>
    var sumSq: array<real>
    /** The highest block level since boot. */
    ghost var peak: real

    ghost predicate Valid()
      reads this
    {
      && Sound(num) && KernelsSound(kernels)
      && CacheValid(num, active, cache)
      && SlotsValid(cache, perSlot, peak, resamplers, choice)
      && interleaved != slotScratch
      && (active.None? ==> choice == Choice(None, None))
      && (active.Some? ==>
            && interleaved.Length == Area(cache.period, cache.channels)
            && slotScratch.Length == Area(|cache.whitelist|, cache.period)
            && sumSq.Length == |cache.whitelist|)
    }

    constructor (num: Numerics, kernels: nat -> Kernel<S>)
      requires Sound(num) && KernelsSound(kernels)
      ensures Valid() && active.None? && this.num == num && this.kernels == kernels
    {
      this.num, this.kernels := num, kernels;
      active, cache := None, NO_CACHE;
      perSlot, resamplers, choice, lastData := [], [], Choice(None, None), 0;
      interleaved, slotScratch, sumSq := new Sample[0](_ => 0), new Sample[0](_ => 0), new real[0](_ => 0.0);
      peak := 0.0;
    }

    /** Wires up a freshly opened source: silence in every slot, nothing selected. */
    method Boot(src: Source, now: nat)
      requires Valid() && WellFormed(src)
      modifies this
      ensures Valid() && active == Some(src) && cache == CacheOf(num, src) && lastData == now
      ensures fresh(interleaved) && fresh(slotScratch) && fresh(sumSq)
      ensures perSlot == Repeat(|src.whitelist|, 0.0) && choice == Choice(None, None)
      ensures resamplers == Repeat(|src.whitelist|,
        if src.rate != SAMPLE_RATE then Some(Fresh(kernels(src.rate))) else None)
    {
      hide Sound, Area, KernelsSound, WellFormed, Repeat, SlotsValid, Fresh, CacheOf;
      CacheFields(num, src);
      SilentSlotsValid(CacheOf(num, src), Fresh(kernels(src.rate)));
      var nSlots := |src.whitelist|;
      var initial := if src.rate != SAMPLE_RATE then Some(Fresh(kernels(src.rate))) else None;
      interleaved, slotScratch, sumSq := Buffers(nSlots, src.period, src.channels);
      cache := CacheOf(num, src);
      perSlot := Repeat(nSlots, 0.0);
      resamplers := Repeat(nSlots, initial);
      choice, lastData, peak := Choice(None, None), now, 0.0;
      active := Some(src);
    }

    /** Drops the source; the scratch capacity is kept for the next boot. */
    method TearDown()
      requires Valid()
      modifies this
      ensures Valid() && active.None? && perSlot == [] && resamplers == [] && choice == Choice(None, None)
      ensures lastData == old(lastData)
      ensures interleaved == old(interleaved) && slotScratch == old(slotScratch) && sumSq == old(sumSq)
    {
      hide Sound, Area, KernelsSound, CacheOf;
      active, cache := None, NO_CACHE;
      perSlot, resamplers, choice, peak := [], [], Choice(None, None), 0.0;
    }

    /** Folds the block levels into the smoothed ones, slot by slot. */
    method UpdateLevels(frames: nat, alpha: real, ghost channels: seq<seq<Sample>>)
      requires Valid() && active.Some? && frames > 0 && 0.0 <= alpha <= 1.0
      requires |channels| == |perSlot| && forall i :: 0 <= i < |channels| ==> |channels[i]| == frames
      requires forall i :: 0 <= i < |channels| ==> sumSq[i] == SumSq(num.value, channels[i])
      modifies this`perSlot, this`peak
      ensures Valid()
      ensures perSlot == Smoothed(alpha, BlockLevels(num, channels, frames), old(perSlot))
      ensures peak == Highest(old(peak), BlockLevels(num, channels, frames))
    {
      hide SumSq, Area, KernelsSound, Ema, Highest;
      ghost var blocks := BlockLevels(num, channels, frames);
      ghost var levels, top := perSlot, Highest(peak, blocks);
      for slot := 0 to |cache.whitelist|
        invariant |perSlot| == |levels|
        invariant forall i :: 0 <= i < slot ==> perSlot[i] == Ema(alpha, blocks[i], levels[i])
        invariant forall i :: slot <= i < |levels| ==> perSlot[i] == levels[i]
        invariant forall i :: 0 <= i < slot ==> 0.0 <= perSlot[i] <= top
      {
        MeanIsNonNegative(sumSq[slot], frames);
        var block := num.sqrt(sumSq[slot] / (frames as real));
        assert block == blocks[slot];
        EmaStaysInRange(alpha, block, levels[slot], top);
        perSlot := perSlot[slot := Ema(alpha, block, perSlot[slot])];
      }
      peak := top;
      assert perSlot == Smoothed(alpha, blocks, levels);
    }

    /** Demultiplexes the block read into `interleaved` and sums each channel's energy. */
    method DemuxPeriod(frames: nat) returns (ghost channels: seq<seq<Sample>>)
      requires Valid() && active.Some? && frames <= cache.period
      modifies slotScratch, sumSq
      ensures Valid() && 0 <= frames * cache.channels <= interleaved.Length
      ensures channels ==
        Channels(interleaved[..frames * cache.channels], cache.channels, cache.whitelist, frames)
      ensures forall i :: 0 <= i < |channels| ==>
        OwnSamples(channels[i], interleaved[..frames * cache.channels], cache.channels, cache.whitelist[i], frames)
      ensures Strided(slotScratch[..], channels, frames, cache.period)
      ensures forall i :: 0 <= i < |channels| ==> sumSq[i] == SumSq(num.value, channels[i])
    {
      hide SumSq, Demuxed, ChannelOf, Area, KernelsSound, Sound, SlotsValid, OwnSamples;
      Products(frames, cache.channels);
      BlockFits(frames, cache.period, cache.channels);
      AreaIs(|cache.whitelist|, cache.period);
      var input := interleaved[..frames * cache.channels];
      channels := Channels(input, cache.channels, cache.whitelist, frames);
      ghost var flat := slotScratch[..];
      SinglePassDemuxAndRms(num.value, input, cache.channels, cache.whitelist, slotScratch, sumSq, frames, cache.period);
      forall i | 0 <= i < |channels|
        ensures SlotHas(slotScratch[..], i * cache.period, channels[i], frames)
        ensures OwnSamples(channels[i], input, cache.channels, cache.whitelist[i], frames)
      {
        ChannelIsOwnSamples(input, cache.channels, cache.whitelist[i], frames);
        DemuxedSlot(flat, input, cache.channels, cache.whitelist, frames, cache.period, |cache.whitelist|, i);
        Products(i, cache.period);
      }
    }

    /** Emits the active slot: as it is at the ring's own rate, through the resamplers otherwise. */
    method Emit(writer: Writer, frames: nat, fixed: bool, activeIdx: nat, ghost channels: seq<seq<Sample>>)
      requires Valid() && active.Some? && activeIdx < |cache.whitelist| && frames <= cache.period
      requires |channels| == |cache.whitelist| && Strided(slotScratch[..], channels, frames, cache.period)
      requires writer.inner.Valid()
      requires cache.rate == SAMPLE_RATE ==> frames <= SafetyMargin(writer.inner.capacity)
      modifies this`resamplers, writer.inner`head, writer.inner`log, writer.inner.cells
      ensures Valid() && writer.inner.Valid()
      ensures resamplers == if cache.rate == SAMPLE_RATE then old(resamplers)
        else ResamplersAfter(kernels(cache.rate), old(resamplers), channels, fixed, activeIdx)
      ensures writer.inner.log == old(writer.inner.log) +
        Emission(kernels(cache.rate), old(resamplers)[activeIdx], channels[activeIdx])
      ensures cache.rate == 44_100 ==> writer.inner.log == old(writer.inner.log) + channels[activeIdx]
    {
      hide Area, Holds, ResamplersAfter, Feed;
      if resamplers[activeIdx].None? {
        assert SlotHas(slotScratch[..], activeIdx * cache.period, channels[activeIdx], frames);
        var offset := activeIdx * cache.period;
        writer.Push(slotScratch[offset..offset + frames]);
      } else {
        hide Emission, Strided;
        var rs := FeedSlots(writer, kernels(cache.rate), resamplers, slotScratch[..], cache.period, frames,
                            fixed, activeIdx, channels);
        resamplers := rs;
      }
    }

    /** Picks the slot for this period and stamps a change with the time. */
    method Choose(policy: ChannelSelection, now: nat, knobs: Knobs) returns (activeIdx: nat)
      requires Valid() && active.Some?
      modifies this`choice
      ensures Valid() && choice.active == Some(activeIdx) && activeIdx < |cache.whitelist|
      ensures choice == Next(old(choice), Period(policy, perSlot, now), cache.whitelist, knobs)
      ensures policy.FixedChannel? && policy.channel in cache.whitelist ==>
        cache.whitelist[activeIdx] == policy.channel
    {
      hide PickSlot, Area, KernelsSound, Sound;
      if policy.FixedChannel? && policy.channel in cache.whitelist {
        FixedChannelIsChosen(choice, Period(policy, perSlot, now), cache.whitelist, knobs);
      }
      var newSlot := PickSlot(policy, perSlot, cache.whitelist, choice.active, choice.lastSwitch, now, knobs);
      NextSlot(choice, Period(policy, perSlot, now), cache.whitelist, knobs);
      choice := Choice(newSlot, if newSlot != choice.active then Some(now) else choice.lastSwitch);
      activeIdx := newSlot.value;
    }

    /** After a recovered read error: resamplers restart, levels and the choice stay. */
    method ResetPerChannelFir()
      requires Valid() && active.Some?
      modifies this`resamplers
      ensures Valid()
      ensures resamplers == AllFresh(kernels(cache.rate), old(resamplers))
    {
      hide Area, Sound;
      var k := kernels(cache.rate);
      ghost var before := resamplers;
      for slot := 0 to |resamplers|
        invariant |resamplers| == |before|
        invariant forall i :: 0 <= i < |before| ==>
          resamplers[i] == if i < slot && before[i].Some? then Some(Fresh(k)) else before[i]
      {
        if resamplers[slot].Some? {
          resamplers := resamplers[slot := Some(Fresh(k))];
        }
      }
      assert resamplers == AllFresh(k, before);
    }

    /**
      One successfully read period of `frames` frames, already in `interleaved`.  Everything the
      period does is a function of its block: levels, choice, resamplers, and what the ring gains.
    */
    method ProcessPeriod(writer: Writer, frames: nat, policy: ChannelSelection, now: nat, knobs: Knobs)
      requires Valid() && active.Some? && 0 < frames <= cache.period
      requires writer.inner.Valid() && writer.inner.cells != slotScratch && writer.inner.cells != interleaved
      requires cache.rate == SAMPLE_RATE ==> frames <= SafetyMargin(writer.inner.capacity)
      modifies this`perSlot, this`peak, this`choice, this`resamplers, slotScratch, sumSq,
               writer.inner`head, writer.inner`log, writer.inner.cells
      ensures Valid() && writer.inner.Valid()
      ensures 0 <= frames * cache.channels <= interleaved.Length
      ensures choice.active.Some? && choice.active.value < |cache.whitelist|
      ensures old(writer.inner.log) <= writer.inner.log
      ensures policy.FixedChannel? && policy.channel in cache.whitelist ==>
        cache.whitelist[choice.active.value] == policy.channel
      ensures cache.rate == 44_100 ==>
        OwnSamples(writer.inner.log[|old(writer.inner.log)|..], interleaved[..frames * cache.channels], cache.channels,
                   cache.whitelist[choice.active.value], frames)
      ensures var channels := Channels(interleaved[..frames * cache.channels], cache.channels, cache.whitelist, frames);
        && perSlot == Smoothed(num.alpha(frames, cache.rate), BlockLevels(num, channels, frames), old(perSlot))
        && peak == Highest(old(peak), BlockLevels(num, channels, frames))
        && choice == Next(old(choice), Period(policy, perSlot, now), cache.whitelist, knobs)
        && choice.active.Some?
        && writer.inner.log == old(writer.inner.log) +
             Emission(kernels(cache.rate), old(resamplers)[choice.active.value], channels[choice.active.value])
        && resamplers == (if cache.rate == SAMPLE_RATE then old(resamplers)
             else ResamplersAfter(kernels(cache.rate), old(resamplers), channels,
                                  TrulyFixed(policy, cache.whitelist), choice.active.value))
    {
      hide Holds, SumSq, Next, Highest, ChannelOf, Area, Smoothed, BlockLevels, ResamplersAfter, Emission,
           Strided, KernelsSound, WellFormed, OwnSamples;
      ghost var channels := DemuxPeriod(frames);
      var alpha := AlphaForFrames(num, frames, cache);
      UpdateLevels(frames, alpha, channels);
      var activeIdx := Choose(policy, now, knobs);
      Emit(writer, frames, TrulyFixed(policy, cache.whitelist), activeIdx, channels);
    }
  }

  lemma AreaIs(rows: nat, columns: nat)
    ensures Area(rows, columns) == rows * columns
  {
  }

  lemma MeanIsNonNegative(total: real, frames: nat)
    requires total >= 0.0 && frames > 0
    ensures total / (frames as real) >= 0.0
  {
  }

  lemma BlockFits(frames: nat, period: nat, n: nat)
    requires frames <= period
    ensures 0 <= frames * n <= Area(period, n)
  {
    Products(frames, n);
    Products(period - frames, n);
    assert period * n == frames * n + (period - frames) * n;
  }
}
