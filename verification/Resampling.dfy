/**
  The streaming wrapper around the sinc resampler.  The kernel itself is a parameter: a
  function from its state and one full chunk of input to its next state and the output
  of that chunk.  What is proved is the wrapper's job: however the input is cut up, the kernel
  sees the same chunks, so the output depends only on the concatenated input.
*/
module Resampling {
  import opened Samples

  datatype Kernel<!S> = Kernel(init: S, chunk: nat, step: (S, seq<Sample>) -> (S, seq<Sample>))

  /** A kernel fed from `accum`, with output not drained yet in `out`. */
  datatype Stream<S> = Stream(state: S, accum: seq<Sample>, out: seq<Sample>)

  /** Feeds every full chunk of `st.accum` to the kernel. */
  function Pump<S>(k: Kernel<S>, st: Stream<S>): (r: Stream<S>)
    requires k.chunk > 0
    ensures |r.accum| < k.chunk
    decreases |st.accum|
  {
    if |st.accum| < k.chunk then st
    else
      var (state, produced) := k.step(st.state, st.accum[..k.chunk]);
      Pump(k, Stream(state, st.accum[k.chunk..], st.out + produced))
  }

  function Fresh<S>(k: Kernel<S>): Stream<S> { Stream(k.init, [], []) }

  function Feed<S>(k: Kernel<S>, st: Stream<S>, input: seq<Sample>): Stream<S>
    requires k.chunk > 0
  {
    Pump(k, st.(accum := st.accum + input))
  }

  /** Draining the output moves it out and nothing else. */
  function Drained<S>(st: Stream<S>): Stream<S> { st.(out := []) }

  /** Feeding two inputs one after the other is feeding their concatenation. */
  lemma {:induction false} FeedTwice<S>(k: Kernel<S>, st: Stream<S>, a: seq<Sample>, b: seq<Sample>)
    requires k.chunk > 0
    ensures Feed(k, Feed(k, st, a), b) == Feed(k, st, a + b)
    decreases |st.accum| + |a|
  {
    var buf := st.accum + a;
    assert st.accum + (a + b) == buf + b;
    if |buf| >= k.chunk {
      var (state, produced) := k.step(st.state, buf[..k.chunk]);
      assert (buf + b)[..k.chunk] == buf[..k.chunk];
      assert (buf + b)[k.chunk..] == buf[k.chunk..] + b;
      var next := Stream(state, [], st.out + produced);
      assert [] + buf[k.chunk..] == buf[k.chunk..];
      assert [] + (buf[k.chunk..] + b) == buf[k.chunk..] + b;
      FeedTwice(k, next, buf[k.chunk..], b);
    }
  }

  /** Output waiting to be drained is carried along unread. */
  lemma {:induction false} PumpCarriesOutput<S>(k: Kernel<S>, st: Stream<S>)
    requires k.chunk > 0
    ensures var r := Pump(k, Drained(st)); Pump(k, st) == r.(out := st.out + r.out)
    decreases |st.accum|
  {
    if |st.accum| >= k.chunk {
      var (state, produced) := k.step(st.state, st.accum[..k.chunk]);
      var rest := st.accum[k.chunk..];
      PumpCarriesOutput(k, Stream(state, rest, st.out + produced));
      PumpCarriesOutput(k, Stream(state, rest, [] + produced));
      var r := Pump(k, Stream(state, rest, []));
      assert st.out + produced + r.out == st.out + ([] + produced + r.out);
    } else {
      assert st.out + [] == st.out;
    }
  }

  /** A resampler with nothing accumulated hands a full chunk to the kernel and appends its output. */
  lemma FeedChunk<S>(k: Kernel<S>, st: Stream<S>, chunk: seq<Sample>)
    requires k.chunk > 0 && st.accum == [] && |chunk| == k.chunk
    ensures var (state, produced) := k.step(st.state, chunk);
      Feed(k, st, chunk) == Stream(state, [], st.out + produced)
  {
    assert st.accum + chunk == chunk;
    assert chunk[..k.chunk] == chunk && chunk[k.chunk..] == [];
    var (state, produced) := k.step(st.state, chunk);
    PumpNothing(k, Stream(state, [], st.out + produced));
  }

  /** Less than a chunk only accumulates. */
  lemma FeedLess<S>(k: Kernel<S>, st: Stream<S>, input: seq<Sample>)
    requires k.chunk > 0 && |st.accum| + |input| < k.chunk
    ensures Feed(k, st, input) == st.(accum := st.accum + input)
  {
  }

  /** Everything resampled from `fed`. */
  function Resampled<S>(k: Kernel<S>, fed: seq<Sample>): seq<Sample>
    requires k.chunk > 0
  {
    Feed(k, Fresh(k), fed).out
  }

  /** Feeding a drained resampler yields the samples that the longer input adds. */
  lemma FeedDrained<S>(k: Kernel<S>, fed: seq<Sample>, pcm: seq<Sample>)
    requires k.chunk > 0
    ensures var st := Drained(Feed(k, Fresh(k), fed));
      && |st.accum| < k.chunk
      && Drained(Feed(k, st, pcm)) == Drained(Feed(k, Fresh(k), fed + pcm))
      && Resampled(k, fed) + Feed(k, st, pcm).out == Resampled(k, fed + pcm)
  {
    var full := Feed(k, Fresh(k), fed);
    FeedTwice(k, Fresh(k), fed, pcm);
    PumpCarriesOutput(k, full.(accum := full.accum + pcm));
  }

  lemma PumpNothing<S>(k: Kernel<S>, st: Stream<S>)
    requires k.chunk > 0 && |st.accum| < k.chunk
    ensures Pump(k, st) == st
  {
  }

  /** One chunk at `at` goes to the kernel. */
  lemma PumpOne<S>(k: Kernel<S>, state: S, accum: seq<Sample>, at: nat, out: seq<Sample>)
    requires k.chunk > 0 && at + k.chunk <= |accum|
    ensures var (state', produced) := k.step(state, accum[at..at + k.chunk]);
      Pump(k, Stream(state, accum[at..], out)) == Pump(k, Stream(state', accum[at + k.chunk..], out + produced))
  {
    assert accum[at..][..k.chunk] == accum[at..at + k.chunk];
    assert accum[at..][k.chunk..] == accum[at + k.chunk..];
  }

  class Streaming<S> {
    const kernel: Kernel<S>
    var state: S
    var accum: seq<Sample>
    var out: seq<Sample>

    function View(): Stream<S>
      reads this
    {
      Stream(state, accum, out)
    }

    constructor (kernel: Kernel<S>)
      requires kernel.chunk > 0
      ensures this.kernel == kernel && View() == Fresh(kernel)
    {
      this.kernel := kernel;
      state, accum, out := kernel.init, [], [];
    }

    /** Appends `input`, then feeds full chunks; the consumed prefix is dropped once, at the end. */
    method Process(input: seq<Sample>) returns (produced: nat)
      requires kernel.chunk > 0 && |accum| < kernel.chunk
      modifies this
      ensures View() == Feed(kernel, old(View()), input)
      ensures |out| == |old(out)| + produced
    {
      hide Pump;
      if input == [] {
        assert old(View()).accum + input == accum;
        PumpNothing(kernel, View());
        return 0;
      }
      accum := accum + input;
      produced := 0;
      var consumed := 0;
      while consumed + kernel.chunk <= |accum|
        invariant consumed <= |accum| && accum == old(accum) + input
        invariant |out| == |old(out)| + produced
        invariant Pump(kernel, Stream(state, accum[consumed..], out)) == Feed(kernel, old(View()), input)
        decreases |accum| - consumed
      {
        var window := accum[consumed..consumed + kernel.chunk];
        PumpOne(kernel, state, accum, consumed, out);
        var (state', produced') := kernel.step(state, window);
        state := state';
        out := out + produced';
        produced := produced + |produced'|;
        consumed := consumed + kernel.chunk;
      }
      PumpNothing(kernel, Stream(state, accum[consumed..], out));
      if consumed > 0 {
        accum := accum[consumed..];
      }
    }

    method DrainOutput() returns (drained: seq<Sample>)
      modifies this`out
      ensures drained == old(out) && View() == Drained(old(View()))
    {
      drained := out;
      out := [];
    }

    /** Clears the history: what follows is processed as by a fresh resampler. */
    method ResetAfterDiscontinuity()
      modifies this
      ensures View() == Fresh(kernel)
    {
      accum, out, state := [], [], kernel.init;
    }
  }
}
