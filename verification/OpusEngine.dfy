/**
  The Opus encoder pipeline: resampler, 960-sample framer, encoder.  The encoder is a
  parameter (a stateful function from a frame to a packet or a failure).  Proved: the
  framer conserves samples, and since the last reset the packets are a function of the
  concatenated input alone.
*/
module OpusEngine {
  import opened Wrappers
  import opened Samples
  import opened Resampling

  type Packet = seq<Byte>

  datatype Encoded = Failed | Bytes(packet: Packet)

  datatype Codec<!E> = Codec(init: E, encode: (E, seq<Sample>) -> (E, Encoded))

  datatype OpusError = BadPcm(index: nat) | EncoderInternal | EmptyEncode

  const FRAME_SAMPLES: nat := 960

  // ---- Framing ----

  function Flatten<T>(parts: seq<seq<T>>): seq<T> {
    if parts == [] then [] else Flatten(parts[..|parts| - 1]) + parts[|parts| - 1]
  }

  predicate AllFrames(frames: seq<seq<Sample>>) {
    forall i :: 0 <= i < |frames| ==> |frames[i]| == FRAME_SAMPLES
  }

  function FrameAt(pcm: seq<Sample>, i: nat): seq<Sample>
    requires (i + 1) * FRAME_SAMPLES <= |pcm|
  {
    pcm[i * FRAME_SAMPLES..(i + 1) * FRAME_SAMPLES]
  }

  /** The whole frames of `pcm`, in order; `Tail(pcm)` is what is left over. */
  function Frames(pcm: seq<Sample>): seq<seq<Sample>> {
    seq(|pcm| / FRAME_SAMPLES, i requires 0 <= i < |pcm| / FRAME_SAMPLES => FrameAt(pcm, i))
  }

  function Tail(pcm: seq<Sample>): seq<Sample> { pcm[|pcm| / FRAME_SAMPLES * FRAME_SAMPLES..] }

  lemma {:induction false} FlattenFrames(pcm: seq<Sample>, k: nat)
    requires k * FRAME_SAMPLES <= |pcm|
    ensures Flatten(Frames(pcm)[..k]) == pcm[..k * FRAME_SAMPLES]
  {
    if k > 0 {
      FlattenFrames(pcm, k - 1);
      assert Frames(pcm)[..k][..k - 1] == Frames(pcm)[..k - 1];
      assert Frames(pcm)[..k][k - 1] == FrameAt(pcm, k - 1);
      assert pcm[..k * FRAME_SAMPLES] == pcm[..(k - 1) * FRAME_SAMPLES] + FrameAt(pcm, k - 1);
    }
  }

  /** Cutting into frames loses nothing, repeats nothing and keeps the order. */
  lemma FramesConserve(pcm: seq<Sample>)
    ensures AllFrames(Frames(pcm)) && |Frames(pcm)| == |pcm| / 960 && |Tail(pcm)| == |pcm| % 960
    ensures Flatten(Frames(pcm)) + Tail(pcm) == pcm
  {
    var n := |pcm| / FRAME_SAMPLES;
    FlattenFrames(pcm, n);
    assert Frames(pcm)[..n] == Frames(pcm);
  }

  lemma {:induction false} FlattenLength(frames: seq<seq<Sample>>)
    requires AllFrames(frames)
    ensures |Flatten(frames)| == |frames| * FRAME_SAMPLES
  {
    if frames != [] {
      FlattenLength(frames[..|frames| - 1]);
    }
  }

  lemma {:induction false} FlattenedFrame(frames: seq<seq<Sample>>, i: nat)
    requires AllFrames(frames) && i < |frames|
    ensures |Flatten(frames)| == |frames| * FRAME_SAMPLES
    ensures frames[i] == FrameAt(Flatten(frames), i)
  {
    FlattenLength(frames);
    var init := frames[..|frames| - 1];
    FlattenLength(init);
    if i < |frames| - 1 {
      FlattenedFrame(init, i);
      assert FrameAt(Flatten(frames), i) == FrameAt(Flatten(init), i);
    }
  }

  /** There is only one way to cut a sequence into whole frames and a shorter rest. */
  lemma FramesAreUnique(frames: seq<seq<Sample>>, rest: seq<Sample>, pcm: seq<Sample>)
    requires AllFrames(frames) && |rest| < FRAME_SAMPLES && Flatten(frames) + rest == pcm
    ensures frames == Frames(pcm) && rest == Tail(pcm)
  {
    FlattenLength(frames);
    assert |pcm| / FRAME_SAMPLES == |frames|;
    forall i | 0 <= i < |frames| ensures frames[i] == Frames(pcm)[i] {
      FlattenedFrame(frames, i);
      assert FrameAt(pcm, i) == FrameAt(Flatten(frames), i);
    }
  }

  // ---- Encoding ----

  /** Encodes `frames` in order; the third component says that every packet came out non-empty. */
  function EncodeAll<E>(c: Codec<E>, frames: seq<seq<Sample>>): (E, seq<Packet>, bool) {
    if frames == [] then (c.init, [], true)
    else
      var (e, packets, ok) := EncodeAll(c, frames[..|frames| - 1]);
      var (e', result) := c.encode(e, frames[|frames| - 1]);
      if ok && result.Bytes? && result.packet != [] then (e', packets + [result.packet], true)
      else (e', packets, false)
  }

  /** The packets an engine has emitted for all it was fed. */
  function PacketsFor<S, E>(k: Kernel<S>, c: Codec<E>, fed: seq<Sample>): seq<Packet>
    requires k.chunk > 0
  {
    EncodeAll(c, Frames(Resampled(k, fed))).1
  }

  /** Moving one frame from the front of `pcm` to the encoder. */
  lemma OneMoreFrame<E>(c: Codec<E>, frames: seq<seq<Sample>>, pcm: seq<Sample>)
    requires |pcm| >= FRAME_SAMPLES
    ensures var frame, before := pcm[..FRAME_SAMPLES], EncodeAll(c, frames);
      var (e, result) := c.encode(before.0, frame);
      var good := result.Bytes? && result.packet != [];
      && Flatten(frames + [frame]) + pcm[FRAME_SAMPLES..] == Flatten(frames) + pcm
      && EncodeAll(c, frames + [frame]) ==
         (e, before.1 + (if before.2 && good then [result.packet] else []), before.2 && good)
  {
    var frame := pcm[..FRAME_SAMPLES];
    assert (frames + [frame])[..|frames|] == frames;
    assert frame + pcm[FRAME_SAMPLES..] == pcm;
    assert EncodeAll(c, frames).1 + [] == EncodeAll(c, frames).1;
  }

  class Engine<S, E> {
    const kernel: Kernel<S>
    const codec: Codec<E>
    const resampler: Streaming<S>
    var encoder: E
    var outPcm: seq<Sample>
    /** All input accepted, and all frames and packets emitted, since the last reset. */
    ghost var fed: seq<Sample>
    ghost var frames: seq<seq<Sample>>
    ghost var packets: seq<Packet>

    /** No sample is lost or repeated between the resampler and the encoder. */
    ghost predicate Conserving()
      reads this, resampler
    {
      && kernel.chunk > 0 && resampler.kernel == kernel
      && resampler.View() == Drained(Feed(kernel, Fresh(kernel), fed))
      && AllFrames(frames)
      && Flatten(frames) + outPcm == Resampled(kernel, fed)
    }

    /** Between calls, as long as no call failed in the encoder. */
    ghost predicate Valid()
      reads this, resampler
    {
      && Conserving()
      && |outPcm| < FRAME_SAMPLES
      && EncodeAll(codec, frames) == (encoder, packets, true)
    }

    constructor (kernel: Kernel<S>, codec: Codec<E>)
      requires kernel.chunk > 0
      ensures Valid() && fed == [] && fresh(resampler)
      ensures this.kernel == kernel && this.codec == codec
    {
      this.kernel, this.codec := kernel, codec;
      resampler := new Streaming(kernel);
      encoder, outPcm := codec.init, [];
      fed, frames, packets := [], [], [];
    }

    /** What a valid engine has emitted and holds back is determined by its input. */
    lemma StateIsDetermined()
      requires Valid()
      ensures frames == Frames(Resampled(kernel, fed)) && outPcm == Tail(Resampled(kernel, fed))
      ensures packets == PacketsFor(kernel, codec, fed)
    {
      FramesAreUnique(frames, outPcm, Resampled(kernel, fed));
    }

    /**
      Feeds one block.  Success emits exactly the packets that the longer input adds; input with
      a non-finite sample is rejected whole; an encoder failure stops before the
      failing frame is dropped, so even then no sample is lost.
    */
    method ProcessPcm(pcm: seq<Sample>) returns (r: Result<nat, OpusError>, emitted: seq<Packet>)
      requires Valid()
      modifies this`encoder, this`outPcm, this`fed, this`frames, this`packets, resampler
      ensures r == Err(BadPcm(FirstNonFinite(pcm))) <==> FirstNonFinite(pcm) < |pcm|
      ensures FirstNonFinite(pcm) < |pcm| ==>
        && Valid() && emitted == [] && fed == old(fed) && frames == old(frames) && packets == old(packets)
        && outPcm == old(outPcm) && encoder == old(encoder) && resampler.View() == old(resampler.View())
      ensures FirstNonFinite(pcm) == |pcm| ==>
        && !(r.Err? && r.error.BadPcm?)
        && Conserving() && fed == old(fed) + pcm
        && packets == old(packets) + emitted && old(frames) <= frames
      ensures r.Ok? ==>
        && Valid() && r.value == |emitted|
        && packets == PacketsFor(kernel, codec, old(fed) + pcm)
      ensures r.Err? && !r.error.BadPcm? ==>
        && |outPcm| >= FRAME_SAMPLES
        && EncodeAll(codec, frames).2 && !EncodeAll(codec, frames + [outPcm[..FRAME_SAMPLES]]).2
        && var result := codec.encode(EncodeAll(codec, frames).0, outPcm[..FRAME_SAMPLES]).1;
        r.error == if result.Failed? then EncoderInternal else EmptyEncode
    {
      hide Pump, Feed, Fresh, Resampled, PacketsFor, EncodeAll, Flatten, Frames;
      emitted := [];
      var bad := FirstNonFinite(pcm);
      if bad < |pcm| {
        return Err(BadPcm(bad)), [];
      }
      FeedDrained(kernel, fed, pcm);
      var _ := resampler.Process(pcm);
      var drained := resampler.DrainOutput();
      fed := fed + pcm;
      outPcm := outPcm + drained;
      assert Flatten(frames) + outPcm == Flatten(frames) + old(outPcm) + drained;
      while |outPcm| >= FRAME_SAMPLES
        invariant Conserving() && fed == old(fed) + pcm
        invariant EncodeAll(codec, frames) == (encoder, packets, true)
        invariant packets == old(packets) + emitted
        invariant old(frames) <= frames
        decreases |outPcm|
      {
        var frame := outPcm[..FRAME_SAMPLES];
        OneMoreFrame(codec, frames, outPcm);
        var (e, result) := codec.encode(encoder, frame);
        encoder := e;
        if result.Failed? {
          return Err(EncoderInternal), emitted;
        }
        if result.packet == [] {
          return Err(EmptyEncode), emitted;
        }
        emitted := emitted + [result.packet];
        outPcm := outPcm[FRAME_SAMPLES..];
        frames := frames + [frame];
        packets := packets + [result.packet];
      }
      StateIsDetermined();
      return Ok(|emitted|), emitted;
    }

    /** `ok` is whether the encoder accepted its reset; on success the engine is as new. */
    method ResetAfterDiscontinuity(ok: bool) returns (r: Result<(), OpusError>)
      requires Conserving()
      modifies this`encoder, this`outPcm, this`fed, this`frames, this`packets, resampler
      ensures r.Ok? <==> ok
      ensures Conserving() && fed == [] && outPcm == []
      ensures ok ==> Valid() && packets == []
    {
      resampler.ResetAfterDiscontinuity();
      outPcm := [];
      fed, frames, packets := [], [], [];
      if !ok {
        return Err(EncoderInternal);
      }
      encoder := codec.init;
      return Ok(());
    }
  }
}
