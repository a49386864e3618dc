/**
  The arbitrator's loop: one iteration resolves and opens a source, applies the failover timer,
  reads, and processes what was read.  `Iterated` says what an iteration does as a function on
  values; `RunOnce` is the loop body on the mutable state; the rest is about whole runs.
*/
module ArbitratorLoop {
  import opened Wrappers
  import opened Samples
  import opened RingIndex
  import opened AudioRing
  import opened Resampling
  import opened SlotPolicy
  import opened Demux
  import opened Arbitrator

  datatype Outcome =
    | Frames(frames: nat, block: seq<Sample>)
    | Timeout
    | StopRequested
    | EndOfStream
    | ReadFailed(recovered: bool)

  /** The arbitrator's fixed surroundings. */
  datatype Params<!S> = Params(num: Numerics, kernels: nat -> Kernel<S>, knobs: Knobs, failoverAfter: nat)

  /**
    What one iteration meets: the settings snapshot, what opening each candidate would give, the
    outcome of the read, and the four times at which the iteration looks at the clock.
  */
  datatype World = World(mic: MicSelection, channel: ChannelSelection, ids: seq<nat>, opens: seq<Option<Source>>,
                         outcome: Outcome, boot: nat, check: nat, read: nat, pick: nat)

  predicate WorldValid(w: World) {
    && |w.opens| == |w.ids|
    && forall i :: 0 <= i < |w.opens| && w.opens[i].Some? ==>
         WellFormed(w.opens[i].value) && w.opens[i].value.id == w.ids[i]
  }

  // ---- Which source runs ----

  /** The first candidate at or after `start` that opens. */
  function FirstOpen(opens: seq<Option<Source>>, start: nat): (r: Option<Source>)
    requires start <= |opens|
    ensures r.Some? ==> exists i :: start <= i < |opens| && opens[i] == r && forall j :: start <= j < i ==> opens[j].None?
    ensures r.None? ==> forall i :: start <= i < |opens| ==> opens[i].None?
    decreases |opens| - start
  {
    if start == |opens| then None
    else if opens[start].Some? then opens[start]
    else FirstOpen(opens, start + 1)
  }

  function ActiveId(active: Option<Source>): Option<nat> {
    if active.Some? then Some(active.value.id) else None
  }

  function Desired(w: World, active: Option<Source>): (d: Option<nat>)
    ensures d.Some? ==> d.value < |w.ids|
  {
    ResolveDesired(w.mic, w.ids, ActiveId(active))
  }

  predicate NeedSwitch(w: World, active: Option<Source>) {
    var d := Desired(w, active);
    if d.None? then active.Some? else active.None? || active.value.id != w.ids[d.value]
  }

  /** What a switch opens: the desired candidate, or under FirstAvailable a later one. */
  function Opened(w: World, active: Option<Source>): Option<Source>
    requires WorldValid(w)
  {
    match Desired(w, active)
    case None => None
    case Some(d) =>
      if w.opens[d].Some? then w.opens[d]
      else if w.mic.FirstAvailable? then FirstOpen(w.opens, d + 1)
      else None
  }

  function Selected(w: World, active: Option<Source>): Option<Source>
    requires WorldValid(w)
  {
    if NeedSwitch(w, active) then Opened(w, active) else active
  }

  /**
    What an iteration ends up with, by policy: a listed active source is kept; otherwise
    FirstAvailable runs the first candidate that opens, and a fixed choice runs its own
    candidate or nothing.
  */
  lemma SelectionIsExact(w: World, active: Option<Source>)
    requires WorldValid(w)
    ensures w.mic.FirstAvailable? ==>
      Selected(w, active) == if active.Some? && active.value.id in w.ids then active else FirstOpen(w.opens, 0)
    ensures w.mic.FixedMic? ==>
      Selected(w, active) ==
        match Position(w.ids, w.mic.id)
        case None => None
        case Some(d) => if active.Some? && active.value.id == w.mic.id then active else w.opens[d]
  {
  }

  // ---- One iteration, on values ----

  datatype Snap<S> = Snap(active: Option<Source>, levels: seq<real>, resamplers: seq<Option<Stream<S>>>,
                          choice: Choice, lastData: nat)

  ghost predicate ParamsValid<S>(p: Params<S>) {
    Sound(p.num) && KernelsSound(p.kernels)
  }

  /** Without a source nothing is kept; with one, every per-slot list is sized to its whitelist. */
  ghost predicate SnapValid<S>(s: Snap<S>) {
    match s.active
    case None => s.levels == [] && s.resamplers == [] && s.choice == Choice(None, None)
    case Some(src) =>
      && WellFormed(src)
      && |s.levels| == |s.resamplers| == |src.whitelist|
      && InRange(s.choice, src.whitelist)
      && forall i :: 0 <= i < |s.resamplers| ==> (s.resamplers[i].Some? <==> src.rate != SAMPLE_RATE)
  }

  function Down<S>(s: Snap<S>): Snap<S> {
    Snap(None, [], [], Choice(None, None), s.lastData)
  }

  function Booted<S>(p: Params<S>, src: Source, now: nat): Snap<S> {
    Snap(Some(src), Repeat(|src.whitelist|, 0.0),
         Repeat(|src.whitelist|, if src.rate != SAMPLE_RATE then Some(Fresh(p.kernels(src.rate))) else None),
         Choice(None, None), now)
  }

  function Switched<S>(p: Params<S>, s: Snap<S>, w: World): Snap<S>
    requires WorldValid(w)
  {
    if !NeedSwitch(w, s.active) then s
    else match Opened(w, s.active)
      case None => Down(s)
      case Some(src) => Booted(p, src, w.boot)
  }

  lemma SwitchedIsValid<S>(p: Params<S>, s: Snap<S>, w: World)
    requires WorldValid(w) && SnapValid(s)
    ensures SnapValid(Switched(p, s, w))
    ensures Switched(p, s, w).active == Selected(w, s.active)
  {
    if NeedSwitch(w, s.active) && Opened(w, s.active).Some? {
      var src := Opened(w, s.active).value;
      assert exists i :: 0 <= i < |w.opens| && w.opens[i] == Some(src);
    }
  }

  /** A read returns at most one period of whole frames. */
  predicate Readable(src: Source, outcome: Outcome) {
    outcome.Frames? ==> 0 < outcome.frames <= src.period && |outcome.block| == outcome.frames * src.channels
  }

  /** The state after a period, and what the period adds to the ring. */
  ghost function Processed<S>(p: Params<S>, s: Snap<S>, w: World): (r: (Snap<S>, seq<Sample>))
    requires ParamsValid(p) && SnapValid(s) && s.active.Some?
    requires w.outcome.Frames? && Readable(s.active.value, w.outcome)
    ensures SnapValid(r.0) && r.0.active == s.active
  {
    hide ResamplersAfter, Emission, ChannelOf;
    var src, frames := s.active.value, w.outcome.frames;
    var channels := Channels(w.outcome.block, src.channels, src.whitelist, frames);
    var levels := Smoothed(p.num.alpha(frames, src.rate), BlockLevels(p.num, channels, frames), s.levels);
    var period := Period(w.channel, levels, w.pick);
    NextSlot(s.choice, period, src.whitelist, p.knobs);
    var choice := Next(s.choice, period, src.whitelist, p.knobs);
    var idx := choice.active.value;
    var resamplers :=
      if src.rate == SAMPLE_RATE then s.resamplers
      else ResamplersAfter(p.kernels(src.rate), s.resamplers, channels, TrulyFixed(w.channel, src.whitelist), idx);
    (Snap(s.active, levels, resamplers, choice, w.read),
     Emission(p.kernels(src.rate), s.resamplers[idx], channels[idx]))
  }

  /** The failover timer: only FirstAvailable gives up on a silent source. */
  predicate FailsOver<S>(p: Params<S>, s: Snap<S>, w: World) {
    FailsOverNow(s.active, s.lastData, p.failoverAfter, w)
  }

  predicate FailsOverNow(active: Option<Source>, lastData: nat, failoverAfter: nat, w: World) {
    active.Some? && w.mic.FirstAvailable? && SaturatingSince(w.check, lastData) > failoverAfter
  }

  ghost function AfterRead<S>(p: Params<S>, s: Snap<S>, w: World): (r: (Snap<S>, seq<Sample>))
    requires ParamsValid(p) && SnapValid(s) && s.active.Some? && Readable(s.active.value, w.outcome)
    ensures SnapValid(r.0)
  {
    match w.outcome
    case Frames(_, _) => Processed(p, s, w)
    case Timeout => (s, [])
    case StopRequested => (s, [])
    case EndOfStream => (Down(s), [])
    case ReadFailed(recovered) =>
      if recovered then (s.(resamplers := AllFresh(p.kernels(s.active.value.rate), s.resamplers)), [])
      else (Down(s), [])
  }

  /** The read of this iteration, if there is one, fits the source it is made on. */
  predicate WorldReadable(w: World, active: Option<Source>)
    requires WorldValid(w)
  {
    var src := Selected(w, active);
    src.Some? ==> Readable(src.value, w.outcome)
  }

  ghost function Iterated<S>(p: Params<S>, s: Snap<S>, w: World): (r: (Snap<S>, seq<Sample>))
    requires ParamsValid(p) && SnapValid(s) && WorldValid(w) && WorldReadable(w, s.active)
    ensures SnapValid(r.0)
  {
    SwitchedIsValid(p, s, w);
    var s1 := Switched(p, s, w);
    if FailsOver(p, s1, w) then (Down(s1), [])
    else if s1.active.None? then (s1, [])
    else AfterRead(p, s1, w)
  }

  /** The iteration keeps the active source: it is still listed and still the one wanted. */
  predicate Stays(w: World, active: Option<Source>) {
    && active.Some? && active.value.id in w.ids
    && (w.mic.FixedMic? ==> active.value.id == w.mic.id)
  }

  lemma SwitchesUnlessItStays(w: World, active: Option<Source>)
    requires active.Some?
    ensures NeedSwitch(w, active) <==> !Stays(w, active)
  {
  }

  /** When the source of this iteration last gave data, or was opened. */
  function Since(w: World, active: Option<Source>, lastData: nat): nat {
    if Stays(w, active) then lastData else w.boot
  }

  /** The failover timer and the read both spare the source. */
  predicate Survives(w: World, since: nat, failoverAfter: nat) {
    && !(w.mic.FirstAvailable? && w.check > since + failoverAfter)
    && !w.outcome.EndOfStream? && w.outcome != ReadFailed(false)
  }

  /**
    The exact outcome of an iteration.  The selected source is lost to the failover timer, the end
    of its stream or an error it did not recover from, and to nothing else; a read that delivers
    frames moves the timer; only such a read adds to the ring or moves levels and choice; a
    recovered error restarts the resamplers.
  */
  lemma IterationExactly<S>(p: Params<S>, s: Snap<S>, w: World)
    requires ParamsValid(p) && SnapValid(s) && WorldValid(w) && WorldReadable(w, s.active)
    ensures var (t, gained) := Iterated(p, s, w);
      var src, since := Selected(w, s.active), Since(w, s.active, s.lastData);
      && t.active == (if src.Some? && Survives(w, since, p.failoverAfter) then src else None)
      && (t.active.None? ==> t.levels == [] && t.resamplers == [] && t.choice == Choice(None, None) && gained == [])
      && t.lastData == (if t.active.Some? && w.outcome.Frames? then w.read else if src.Some? then since else s.lastData)
    ensures var (t, gained) := Iterated(p, s, w);
      t.active.Some? && !w.outcome.Frames? ==>
        var before := if Stays(w, s.active) then s else Booted(p, t.active.value, w.boot);
        && gained == [] && t.levels == before.levels && t.choice == before.choice
        && |t.resamplers| == |before.resamplers|
        && forall i :: 0 <= i < |t.resamplers| ==>
             t.resamplers[i] == if w.outcome.ReadFailed? && before.resamplers[i].Some?
                                then Some(Fresh(p.kernels(t.active.value.rate))) else before.resamplers[i]
  {
    hide Processed, Opened, NeedSwitch, Repeat;
    SwitchedIsValid(p, s, w);
    if s.active.Some? {
      SwitchesUnlessItStays(w, s.active);
    } else {
      NothingToKeep(w);
    }
    ProcessedKeepsTime(p, Switched(p, s, w), w);
  }

  /** A freshly opened source is silent, nothing is selected and every resampler is as new. */
  lemma BootedIsSilent<S>(p: Params<S>, src: Source, now: nat)
    ensures var t := Booted(p, src, now);
      && t.active == Some(src) && t.choice == Choice(None, None) && t.lastData == now
      && |t.levels| == |t.resamplers| == |src.whitelist|
      && forall i :: 0 <= i < |src.whitelist| ==>
           && t.levels[i] == 0.0
           && t.resamplers[i] == if src.rate == 44_100 then None else Some(Stream(p.kernels(src.rate).init, [], []))
  {
  }

  lemma NothingToKeep(w: World)
    requires WorldValid(w)
    ensures !NeedSwitch(w, None) ==> Selected(w, None).None?
  {
  }

  lemma ProcessedKeepsTime<S>(p: Params<S>, s: Snap<S>, w: World)
    requires ParamsValid(p) && SnapValid(s)
    ensures s.active.Some? && w.outcome.Frames? && Readable(s.active.value, w.outcome) ==>
      Processed(p, s, w).0.active == s.active && Processed(p, s, w).0.lastData == w.read
  {
    hide ResamplersAfter, Emission, ChannelOf, Smoothed, BlockLevels, Next;
  }

  // ---- One iteration, on the mutable state ----

  ghost function SnapOf<S>(st: ArbitratorState<S>): Snap<S>
    reads st
  {
    Snap(st.active, st.perSlot, st.resamplers, st.choice, st.lastData)
  }

  /** Walks the candidates from `start` on. */
  method OpenStartingFrom(opens: seq<Option<Source>>, start: nat) returns (r: Option<Source>)
    requires start <= |opens|
    ensures r == FirstOpen(opens, start)
  {
    for i := start to |opens|
      invariant FirstOpen(opens, start) == FirstOpen(opens, i)
    {
      if opens[i].Some? {
        return opens[i];
      }
    }
    return None;
  }

  /** The top of the loop: keep the source, or tear it down and open another. */
  method SelectSource<S>(st: ArbitratorState<S>, ghost p: Params<S>, w: World)
    requires st.Valid() && st.num == p.num && st.kernels == p.kernels && WorldValid(w)
    modifies st
    ensures st.Valid() && SnapOf(st) == Switched(p, old(SnapOf(st)), w)
    ensures st.interleaved == old(st.interleaved) || fresh(st.interleaved)
    ensures st.slotScratch == old(st.slotScratch) || fresh(st.slotScratch)
    ensures st.sumSq == old(st.sumSq) || fresh(st.sumSq)
  {
    hide Repeat, FirstOpen, Desired;
    if NeedSwitch(w, st.active) {
      var d := Desired(w, st.active);
      ghost var expected := Opened(w, st.active);
      st.TearDown();
      if d.Some? {
        var src := w.opens[d.value];
        if src.None? && w.mic.FirstAvailable? {
          src := OpenStartingFrom(w.opens, d.value + 1);
        }
        assert src == expected;
        if src.Some? {
          OpenedIsWellFormed(w, d.value, src);
          st.Boot(src.value, w.boot);
        }
      }
    }
  }

  lemma OpenedIsWellFormed(w: World, d: nat, src: Option<Source>)
    requires WorldValid(w) && d < |w.opens| && src.Some?
    requires src == w.opens[d] || src == FirstOpen(w.opens, d + 1)
    ensures WellFormed(src.value)
  {
    assert exists i :: 0 <= i < |w.opens| && w.opens[i] == src;
  }

  /** At the ring's own rate a whole read is pushed at once, and must fit the margin. */
  predicate FitsRing(src: Source, outcome: Outcome, cap: nat) {
    outcome.Frames? && src.rate == SAMPLE_RATE ==> outcome.frames <= SafetyMargin(cap)
  }

  /** What the source's read leaves in the front of the buffer. */
  method ReadInto(buffer: array<Sample>, block: seq<Sample>)
    requires |block| <= buffer.Length
    modifies buffer
    ensures buffer[..|block|] == block
  {
    for i := 0 to |block|
      invariant buffer[..i] == block[..i]
    {
      buffer[i] := block[i];
    }
  }

  /** A read that delivered frames: the block lands in the buffer and the period is processed. */
  method ProcessRead<S>(st: ArbitratorState<S>, writer: Writer, p: Params<S>, w: World)
    requires st.Valid() && st.num == p.num && st.kernels == p.kernels && st.active.Some?
    requires ParamsValid(p) && SnapValid(SnapOf(st))
    requires w.outcome.Frames? && Readable(st.active.value, w.outcome)
    requires writer.inner.Valid()
    requires writer.inner.cells != st.slotScratch && writer.inner.cells != st.interleaved
    requires FitsRing(st.active.value, w.outcome, writer.inner.capacity)
    modifies st, st.interleaved, st.slotScratch, st.sumSq,
             writer.inner`head, writer.inner`log, writer.inner.cells
    ensures st.Valid() && writer.inner.Valid()
    ensures st.slotScratch == old(st.slotScratch) && st.interleaved == old(st.interleaved)
    ensures var r := Processed(p, old(SnapOf(st)), w);
      SnapOf(st) == r.0 && writer.inner.log == old(writer.inner.log) + r.1
  {
    hide Holds, ResamplersAfter, Emission, ChannelOf, Area, Smoothed, BlockLevels, Next, Sound, KernelsSound;
    BlockFits(w.outcome.frames, st.cache.period, st.cache.channels);
    ReadInto(st.interleaved, w.outcome.block);
    st.lastData := w.read;
    st.ProcessPeriod(writer, w.outcome.frames, w.channel, w.pick, p.knobs);
  }

  /** One iteration of the loop does what `Iterated` says, and pushes exactly what it says. */
  method RunOnce<S>(st: ArbitratorState<S>, writer: Writer, p: Params<S>, w: World)
    requires st.Valid() && st.num == p.num && st.kernels == p.kernels
    requires ParamsValid(p) && SnapValid(SnapOf(st)) && WorldValid(w) && WorldReadable(w, st.active)
    requires writer.inner.Valid()
    requires writer.inner.cells != st.slotScratch && writer.inner.cells != st.interleaved
    requires Selected(w, st.active).Some? ==> FitsRing(Selected(w, st.active).value, w.outcome, writer.inner.capacity)
    modifies st, st.interleaved, st.slotScratch, st.sumSq,
             writer.inner`head, writer.inner`log, writer.inner.cells
    ensures st.Valid() && writer.inner.Valid()
    ensures writer.inner.cells != st.slotScratch && writer.inner.cells != st.interleaved
    ensures var r := Iterated(p, old(SnapOf(st)), w);
      SnapOf(st) == r.0 && writer.inner.log == old(writer.inner.log) + r.1
  {
    hide Switched, Processed, NeedSwitch, Opened, Holds;
    ghost var log := writer.inner.log;
    SwitchedIsValid(p, SnapOf(st), w);
    SelectSource(st, p, w);
    assert log == log + [];
    if FailsOverNow(st.active, st.lastData, p.failoverAfter, w) {
      st.TearDown();
      return;
    }
    if st.active.None? {
      return;
    }
    match w.outcome
    case Timeout => return;
    case StopRequested => return;
    case EndOfStream => st.TearDown();
    case ReadFailed(recovered) =>
      if recovered {
        st.ResetPerChannelFir();
      } else {
        st.TearDown();
      }
    case Frames(frames, block) =>
      ProcessRead(st, writer, p, w);
  }

  // ---- Whole runs ----

  /** Every iteration of `ws` meets a world it can read, starting from `s`. */
  ghost predicate Runnable<S>(p: Params<S>, s: Snap<S>, ws: seq<World>)
    requires ParamsValid(p) && SnapValid(s)
    decreases |ws|
  {
    ws != [] ==>
      && WorldValid(ws[0]) && WorldReadable(ws[0], s.active)
      && Runnable(p, Iterated(p, s, ws[0]).0, ws[1..])
  }

  /** The state after a run, and everything the run adds to the ring. */
  ghost function Run<S>(p: Params<S>, s: Snap<S>, ws: seq<World>): (r: (Snap<S>, seq<Sample>))
    requires ParamsValid(p) && SnapValid(s) && Runnable(p, s, ws)
    ensures SnapValid(r.0)
    decreases |ws|
  {
    if ws == [] then (s, [])
    else
      var (s1, first) := Iterated(p, s, ws[0]);
      var (s2, rest) := Run(p, s1, ws[1..]);
      (s2, first + rest)
  }

  /** Index `i` is the first candidate that opens. */
  predicate FirstToOpen(w: World, i: nat)
    requires WorldValid(w)
  {
    i < |w.opens| && w.opens[i].Some? && forall j :: 0 <= j < i ==> w.opens[j].None?
  }

  /**
    The iteration after a failover, under FirstAvailable, runs the failed microphone again exactly
    when that is the first candidate that opens; only otherwise does the loop move on.
  */
  lemma FailoverMovesOnExactly<S>(p: Params<S>, s: Snap<S>, w1: World, w2: World)
    requires ParamsValid(p) && SnapValid(s) && WorldValid(w1) && WorldReadable(w1, s.active)
    requires FailsOver(p, Switched(p, s, w1), w1)
    requires WorldValid(w2) && w2.mic.FirstAvailable?
    ensures var failed, next := Switched(p, s, w1).active, Switched(p, Iterated(p, s, w1).0, w2).active;
      (next.Some? && next.value.id == failed.value.id) <==>
        exists i: nat :: FirstToOpen(w2, i) && w2.ids[i] == failed.value.id
  {
    hide Booted, AfterRead;
    SwitchedIsValid(p, s, w1);
    assert Iterated(p, s, w1).0.active == None;
    SwitchedIsValid(p, Iterated(p, s, w1).0, w2);
    SelectionIsExact(w2, None);
    FirstOpenIsFirst(w2);
  }

  lemma FirstOpenIsFirst(w: World)
    requires WorldValid(w)
    ensures forall i: nat :: FirstToOpen(w, i) ==> FirstOpen(w.opens, 0) == w.opens[i]
    ensures FirstOpen(w.opens, 0).Some? ==> exists i: nat :: FirstToOpen(w, i)
  {
    var r := FirstOpen(w.opens, 0);
    if r.Some? {
      var k: nat :| k < |w.opens| && w.opens[k] == r && forall j :: 0 <= j < k ==> w.opens[j].None?;
      assert FirstToOpen(w, k);
      forall i: nat | FirstToOpen(w, i) ensures r == w.opens[i] {
        assert !(k < i) && !(i < k);
      }
    }
  }

  /**
    Failing over never reaches a second candidate: while the first candidate opens, the loop
    under FirstAvailable only ever runs that one, however long it stays silent.
  */
  lemma {:induction false} FailoverReturnsToFirst<S>(p: Params<S>, s: Snap<S>, ws: seq<World>, first: nat)
    requires ParamsValid(p) && SnapValid(s) && Runnable(p, s, ws)
    requires s.active.None? || s.active.value.id == first
    requires forall i :: 0 <= i < |ws| ==>
      && ws[i].mic.FirstAvailable? && ws[i].ids != [] && ws[i].ids[0] == first
      && WorldValid(ws[i]) && ws[i].opens[0].Some?
    ensures var r := Run(p, s, ws).0; r.active.None? || r.active.value.id == first
    decreases |ws|
  {
    hide AfterRead, Switched;
    if ws != [] {
      SelectionIsExact(ws[0], s.active);
      SwitchedIsValid(p, s, ws[0]);
      IterationKeepsOrDrops(p, s, ws[0]);
      FailoverReturnsToFirst(p, Iterated(p, s, ws[0]).0, ws[1..], first);
    }
  }

  /** A world that offers microphone `src` alone, which opens and then times out. */
  function SilentWorld(src: Source, now: nat): World {
    World(FirstAvailable, Auto, [src.id], [Some(src)], Timeout, now, now, now, now)
  }

  lemma SilentWorldIsReadable(src: Source, now: nat, active: Option<Source>)
    requires WellFormed(src) && (active.None? || active == Some(src))
    ensures var w := SilentWorld(src, now);
      WorldValid(w) && Selected(w, active) == Some(src) && WorldReadable(w, active)
      && (NeedSwitch(w, active) <==> active.None?)
  {
    SelectionIsExact(SilentWorld(src, now), active);
  }

  lemma SilentBoot<S>(p: Params<S>, s: Snap<S>, src: Source, now: nat)
    requires ParamsValid(p) && SnapValid(s) && s.active.None? && WellFormed(src)
    ensures WorldValid(SilentWorld(src, now)) && WorldReadable(SilentWorld(src, now), s.active)
    ensures Iterated(p, s, SilentWorld(src, now)) == (Booted(p, src, now), [])
  {
    hide Repeat, Selected, NeedSwitch;
    SilentWorldIsReadable(src, now, None);
  }

  lemma SilentTimeout<S>(p: Params<S>, s: Snap<S>, src: Source, now: nat)
    requires ParamsValid(p) && SnapValid(s) && s.active == Some(src) && WellFormed(src)
    requires now > s.lastData + p.failoverAfter
    ensures var w := SilentWorld(src, now);
      && WorldValid(w) && WorldReadable(w, s.active) && FailsOver(p, Switched(p, s, w), w)
      && Iterated(p, s, w) == (Down(s), [])
  {
    hide Repeat, Selected, NeedSwitch, Booted;
    SilentWorldIsReadable(src, now, Some(src));
  }

  lemma RunOne<S>(p: Params<S>, s: Snap<S>, w: World, rest: seq<World>)
    requires ParamsValid(p) && SnapValid(s) && WorldValid(w) && WorldReadable(w, s.active)
    requires Runnable(p, Iterated(p, s, w).0, rest)
    ensures Runnable(p, s, [w] + rest)
    ensures var first, r := Iterated(p, s, w), Run(p, Iterated(p, s, w).0, rest);
      Run(p, s, [w] + rest) == (r.0, first.1 + r.1)
  {
    hide Iterated, WorldReadable;
    assert ([w] + rest)[1..] == rest;
  }

  /**
    A run in which that happens: any source opens, stays silent, is given up when the timer
    expires, and is opened again by the next iteration.
  */
  lemma SilentSourceIsReopened<S>(p: Params<S>, s: Snap<S>, src: Source) returns (w0: World, w1: World, s1: Snap<S>)
    requires ParamsValid(p) && SnapValid(s) && s.active.None? && WellFormed(src)
    ensures WorldValid(w1) && SnapValid(s1)
    ensures Runnable(p, s, [w0]) && s1 == Run(p, s, [w0]).0 && s1.active == Some(src)
    ensures FailsOver(p, Switched(p, s1, w1), w1)
    ensures Runnable(p, s, [w0, w1, w1])
    ensures Run(p, s, [w0, w1, w1]).0.active == Some(src) && Run(p, s, [w0, w1, w1]).1 == []
  {
    hide Iterated, WorldReadable, Switched, SilentWorld;
    var now := p.failoverAfter + 1;
    w0, w1, s1 := SilentWorld(src, 0), SilentWorld(src, now), Booted(p, src, 0);
    SilentBoot(p, s, src, 0);
    SilentTimeout(p, s1, src, now);
    SilentBoot(p, Down(s1), src, now);
    RunOne(p, s, w0, []);
    RunOne(p, Down(s1), w1, []);
    RunOne(p, s1, w1, [w1] + []);
    RunOne(p, s, w0, [w1] + ([w1] + []));
    assert [w0] + [] == [w0] && [w0] + ([w1] + ([w1] + [])) == [w0, w1, w1];
  }

  /** An iteration ends with the source it selected or with none. */
  lemma IterationKeepsOrDrops<S>(p: Params<S>, s: Snap<S>, w: World)
    requires ParamsValid(p) && SnapValid(s) && WorldValid(w) && WorldReadable(w, s.active)
    ensures Iterated(p, s, w).0.active in {None, Selected(w, s.active)}
  {
    hide Switched, Processed;
    SwitchedIsValid(p, s, w);
  }

  /** The iteration neither replaces nor loses the source. */
  ghost predicate Keeps<S>(p: Params<S>, s: Snap<S>, w: World)
    requires WorldValid(w)
  {
    && s.active.Some? && !NeedSwitch(w, s.active) && !FailsOver(p, s, w)
    && !w.outcome.EndOfStream? && w.outcome != ReadFailed(false)
  }

  ghost predicate KeepsAll<S>(p: Params<S>, s: Snap<S>, ws: seq<World>)
    requires ParamsValid(p) && SnapValid(s) && Runnable(p, s, ws)
    decreases |ws|
  {
    ws != [] ==> Keeps(p, s, ws[0]) && KeepsAll(p, Iterated(p, s, ws[0]).0, ws[1..])
  }

  /** The periods processed along a run, as the slot policy sees them. */
  ghost function Periods<S>(p: Params<S>, s: Snap<S>, ws: seq<World>): (ps: seq<Period>)
    requires ParamsValid(p) && SnapValid(s) && Runnable(p, s, ws)
    ensures |ps| <= |ws|
    decreases |ws|
  {
    if ws == [] then []
    else
      var s1 := Iterated(p, s, ws[0]).0;
      (if ws[0].outcome.Frames? then [Period(ws[0].channel, s1.levels, ws[0].pick)] else [])
      + Periods(p, s1, ws[1..])
  }

  /** An iteration that keeps the source changes the choice only through the slot policy. */
  lemma KeptChoice<S>(p: Params<S>, s: Snap<S>, w: World)
    requires ParamsValid(p) && SnapValid(s) && WorldValid(w) && WorldReadable(w, s.active) && Keeps(p, s, w)
    ensures var s1 := Iterated(p, s, w).0;
      && s1.active == s.active
      && s1.choice ==
         if w.outcome.Frames? then Next(s.choice, Period(w.channel, s1.levels, w.pick), s.active.value.whitelist, p.knobs)
         else s.choice
  {
    hide ResamplersAfter, Emission, ChannelOf, Smoothed, BlockLevels, Next, AllFresh;
  }

  /**
    While one source runs, the choice of slot is the slot policy's choice over the periods
    processed, so its hysteresis and dwell rules hold of the loop.
  */
  lemma {:induction false} ChoiceFollowsPolicy<S>(p: Params<S>, s: Snap<S>, ws: seq<World>, before: seq<Period>)
    requires ParamsValid(p) && SnapValid(s) && Runnable(p, s, ws) && KeepsAll(p, s, ws) && s.active.Some?
    requires var whitelist := s.active.value.whitelist;
      && Recording(before, whitelist) && s.choice == After(before, whitelist, p.knobs)
      && Recording(before + Periods(p, s, ws), whitelist)
    ensures var r := Run(p, s, ws).0;
      && r.active == s.active
      && r.choice == After(before + Periods(p, s, ws), s.active.value.whitelist, p.knobs)
    decreases |ws|
  {
    hide Next, Iterated, Keeps, After, Recording, SnapValid, WorldReadable, WorldValid;
    if ws == [] {
      assert before + [] == before;
    } else {
      var whitelist, s1 := s.active.value.whitelist, Iterated(p, s, ws[0]).0;
      KeptChoice(p, s, ws[0]);
      var now := if ws[0].outcome.Frames? then [Period(ws[0].channel, s1.levels, ws[0].pick)] else [];
      var all := before + Periods(p, s, ws);
      assert all == before + now + Periods(p, s1, ws[1..]);
      assert before + now == all[..|before + now|];
      RecordingPrefix(all, whitelist, |before + now|);
      if ws[0].outcome.Frames? {
        AfterOneMore(before, now[0], whitelist, p.knobs);
      } else {
        assert before + now == before;
      }
      ChoiceFollowsPolicy(p, s1, ws[1..], before + now);
    }
  }

  lemma AfterOneMore(before: seq<Period>, x: Period, whitelist: seq<nat>, knobs: Knobs)
    requires Recording(before + [x], whitelist)
    ensures Recording(before, whitelist) && |x.rms| == |whitelist|
    ensures After(before + [x], whitelist, knobs) == Next(After(before, whitelist, knobs), x, whitelist, knobs)
  {
    hide Next;
    assert (before + [x])[..|before|] == before;
    assert (before + [x])[|before|] == x;
    RecordingPrefix(before + [x], whitelist, |before|);
  }

  // ---- The failover timer over a run ----

  /** The time of the latest read that delivered frames, or `boot` before the first one. */
  function LatestRead(ws: seq<World>, boot: nat): nat {
    if ws == [] then boot
    else if ws[|ws| - 1].outcome.Frames? then ws[|ws| - 1].read
    else LatestRead(ws[..|ws| - 1], boot)
  }

  lemma {:induction false} LatestReadIs(ws: seq<World>, boot: nat, i: nat)
    requires i < |ws| && ws[i].outcome.Frames? && forall j :: i < j < |ws| ==> !ws[j].outcome.Frames?
    ensures LatestRead(ws, boot) == ws[i].read
    decreases |ws|
  {
    if i < |ws| - 1 {
      LatestReadIs(ws[..|ws| - 1], boot, i);
    }
  }

  lemma {:induction false} NoReads(ws: seq<World>, boot: nat)
    requires forall j :: 0 <= j < |ws| ==> !ws[j].outcome.Frames?
    ensures LatestRead(ws, boot) == boot
    decreases |ws|
  {
    if ws != [] {
      NoReads(ws[..|ws| - 1], boot);
    }
  }

  lemma {:induction false} LatestReadSplit(w: World, ws: seq<World>, boot: nat)
    ensures LatestRead([w] + ws, boot) == LatestRead(ws, if w.outcome.Frames? then w.read else boot)
    decreases |ws|
  {
    var all := [w] + ws;
    if ws == [] {
      assert all[..0] == [];
    } else {
      assert all[..|all| - 1] == [w] + ws[..|ws| - 1];
      LatestReadSplit(w, ws[..|ws| - 1], boot);
    }
  }

  lemma KeptTimer<S>(p: Params<S>, s: Snap<S>, w: World)
    requires ParamsValid(p) && SnapValid(s) && WorldValid(w) && WorldReadable(w, s.active) && Keeps(p, s, w)
    ensures Iterated(p, s, w).0.active == s.active
    ensures Iterated(p, s, w).0.lastData == if w.outcome.Frames? then w.read else s.lastData
  {
    hide Iterated, Opened, NeedSwitch, SnapValid, WorldValid;
    KeptChoice(p, s, w);
    IterationExactly(p, s, w);
    SwitchesUnlessItStays(w, s.active);
  }

  /** While one source is kept, the timer counts from the latest read that delivered frames. */
  lemma {:induction false} TimerFollowsReads<S>(p: Params<S>, s: Snap<S>, ws: seq<World>)
    requires ParamsValid(p) && SnapValid(s) && Runnable(p, s, ws) && KeepsAll(p, s, ws)
    ensures Run(p, s, ws).0.active == s.active
    ensures Run(p, s, ws).0.lastData == LatestRead(ws, s.lastData)
    decreases |ws|
  {
    hide Iterated, Keeps, SnapValid, WorldReadable, WorldValid, LatestRead;
    if ws == [] {
      NoReads([], s.lastData);
    } else {
      KeptTimer(p, s, ws[0]);
      TimerFollowsReads(p, Iterated(p, s, ws[0]).0, ws[1..]);
      LatestReadSplit(ws[0], ws[1..], s.lastData);
      assert [ws[0]] + ws[1..] == ws;
    }
  }

  /**
    From the iteration that opens a source, while it is kept: the timer counts from the latest read
    that delivered frames, or from the opening before the first one, and the next iteration that
    still wants the source gives it up if and only if the policy is FirstAvailable and more than
    `failoverAfter` has passed since then.
  */
  lemma FailoverExactly<S>(p: Params<S>, s: Snap<S>, w0: World, ws: seq<World>, w: World)
    requires ParamsValid(p) && SnapValid(s) && Runnable(p, s, [w0] + ws)
    requires WorldValid(w0) && WorldReadable(w0, s.active)
    requires !Stays(w0, s.active) && Iterated(p, s, w0).0.active.Some?
    requires Runnable(p, Iterated(p, s, w0).0, ws) && KeepsAll(p, Iterated(p, s, w0).0, ws)
    requires WorldValid(w) && Stays(w, Iterated(p, s, w0).0.active)
    ensures var t := Run(p, s, [w0] + ws).0;
      && t.active == Iterated(p, s, w0).0.active
      && t.lastData == LatestRead([w0] + ws, w0.boot)
      && (FailsOver(p, Switched(p, t, w), w) <==>
            w.mic.FirstAvailable? && w.check > LatestRead([w0] + ws, w0.boot) + p.failoverAfter)
  {
    hide Iterated, KeepsAll, SnapValid, WorldReadable, WorldValid, LatestRead, Runnable;
    RunOne(p, s, w0, ws);
    IterationExactly(p, s, w0);
    TimerFollowsReads(p, Iterated(p, s, w0).0, ws);
    LatestReadSplit(w0, ws, w0.boot);
    SwitchesUnlessItStays(w, Run(p, s, [w0] + ws).0.active);
  }

  /** The source is still wanted, and neither ends nor fails for good. */
  predicate Healthy(w: World, active: Option<Source>) {
    Stays(w, active) && !w.outcome.EndOfStream? && w.outcome != ReadFailed(false)
  }

  /** A healthy source that always delivers within `failoverAfter` of the next check is never given up. */
  lemma {:induction false} PromptSourceIsKept<S>(p: Params<S>, s: Snap<S>, ws: seq<World>)
    requires ParamsValid(p) && SnapValid(s) && Runnable(p, s, ws)
    requires forall i :: 0 <= i < |ws| ==> Healthy(ws[i], s.active)
    requires forall i :: 0 <= i < |ws| ==> ws[i].check <= LatestRead(ws[..i], s.lastData) + p.failoverAfter
    ensures KeepsAll(p, s, ws) && Run(p, s, ws).0.active == s.active
    decreases |ws|
  {
    hide Iterated, SnapValid, WorldReadable, WorldValid, LatestRead, NeedSwitch;
    if ws != [] {
      assert Healthy(ws[0], s.active);
      SwitchesUnlessItStays(ws[0], s.active);
      assert ws[..0] == [];
      NoReads([], s.lastData);
      KeptTimer(p, s, ws[0]);
      var t := Iterated(p, s, ws[0]).0;
      forall i | 0 <= i < |ws| - 1
        ensures ws[1..][i].check <= LatestRead(ws[1..][..i], t.lastData) + p.failoverAfter
      {
        LatestReadSplit(ws[0], ws[1..][..i], s.lastData);
        assert [ws[0]] + ws[1..][..i] == ws[..i + 1];
        assert ws[1..][i] == ws[i + 1];
      }
      PromptSourceIsKept(p, t, ws[1..]);
    }
  }

  // ---- What the ring gains over a run ----

  /** The cleaned samples that slot `i` gets from this iteration's read. */
  function HeardNow(src: Source, w: World, i: nat): seq<Sample>
    requires WellFormed(src) && i < |src.whitelist| && Readable(src, w.outcome)
  {
    if w.outcome.Frames? then ChannelOf(w.outcome.block, src.channels, src.whitelist[i], w.outcome.frames) else []
  }

  predicate AllReadable(src: Source, ws: seq<World>) {
    forall j :: 0 <= j < |ws| ==> Readable(src, ws[j].outcome)
  }

  function Heard(src: Source, ws: seq<World>, i: nat): seq<Sample>
    requires WellFormed(src) && i < |src.whitelist| && AllReadable(src, ws)
  {
    if ws == [] then [] else HeardNow(src, ws[0], i) + Heard(src, ws[1..], i)
  }

  /** The channel setting names slot `i`: the first place of a fixed channel in the list. */
  predicate PinnedTo(w: World, whitelist: seq<nat>, i: nat) {
    && w.channel.FixedChannel? && i < |whitelist| && whitelist[i] == w.channel.channel
    && forall j :: 0 <= j < i ==> whitelist[j] != w.channel.channel
  }

  /** Nothing in this iteration interrupts the stream that slot `i`'s resampler is fed. */
  predicate GoesOn(w: World, whitelist: seq<nat>, i: nat) {
    && w.outcome != ReadFailed(true)
    && (w.channel.FixedChannel? && w.channel.channel in whitelist ==> PinnedTo(w, whitelist, i))
  }

  /** Slot `i`'s resampler is where one fed `heard` since it was new would be. */
  ghost predicate HasHeard<S>(p: Params<S>, s: Snap<S>, src: Source, i: nat, heard: seq<Sample>)
    requires ParamsValid(p)
  {
    i < |s.resamplers| && s.resamplers[i] == Some(Drained(Feed(p.kernels(src.rate), Fresh(p.kernels(src.rate)), heard)))
  }

  lemma NewHasHeardNothing<S>(p: Params<S>, src: Source, now: nat, i: nat)
    requires ParamsValid(p) && i < |src.whitelist| && src.rate != 44_100
    ensures HasHeard(p, Booted(p, src, now), src, i, [])
  {
    FeedLess(p.kernels(src.rate), Fresh(p.kernels(src.rate)), []);
  }

  lemma PinnedIsChosen<S>(p: Params<S>, s: Snap<S>, w: World, i: nat)
    requires ParamsValid(p) && SnapValid(s) && s.active.Some?
    requires w.outcome.Frames? && Readable(s.active.value, w.outcome)
    requires PinnedTo(w, s.active.value.whitelist, i)
    ensures Processed(p, s, w).0.choice.active == Some(i)
  {
    hide ResamplersAfter, Emission, ChannelOf, Smoothed, BlockLevels, Next;
    var src, t := s.active.value, Processed(p, s, w).0;
    assert src.whitelist[i] in src.whitelist;
    FixedChannelIsChosen(s.choice, Period(w.channel, t.levels, w.pick), src.whitelist, p.knobs);
  }

  /**
    One processed period: the chosen slot's samples go to the ring, as they are at the ring's own
    rate and through that slot's resampler otherwise; every other resampler is fed its own channel
    too, unless the channel is fixed, when it starts again.
  */
  lemma PeriodExactly<S>(p: Params<S>, s: Snap<S>, w: World, i: nat)
    requires ParamsValid(p) && SnapValid(s) && s.active.Some? && i < |s.active.value.whitelist|
    requires w.outcome.Frames? && Readable(s.active.value, w.outcome)
    ensures var src, (t, gained) := s.active.value, Processed(p, s, w);
      var k, heard, chosen := p.kernels(src.rate), HeardNow(src, w, i), t.choice.active == Some(i);
      && |t.resamplers| == |s.resamplers| == |src.whitelist|
      && (src.rate == 44_100 ==> t.resamplers == s.resamplers && (chosen ==> gained == heard))
      && (src.rate != 44_100 ==>
            && s.resamplers[i].Some?
            && var fed := Feed(k, s.resamplers[i].value, heard);
            && (chosen ==> gained == fed.out)
            && t.resamplers[i] ==
                 if w.channel.FixedChannel? && w.channel.channel in src.whitelist && !chosen
                 then Some(Stream(k.init, [], [])) else Some(fed.(out := [])))
  {
    hide Feed, ChannelOf, Smoothed, BlockLevels, Next;
    var src, t := s.active.value, Processed(p, s, w).0;
    NextSlot(s.choice, Period(w.channel, t.levels, w.pick), src.whitelist, p.knobs);
    assert Channels(w.outcome.block, src.channels, src.whitelist, w.outcome.frames)[i] == HeardNow(src, w, i);
  }

  /**
    A period moves each slot's level towards the root of the mean energy of what the slot got: the
    distance shrinks to the share 1 - alpha, with the weight of this read's own length.
  */
  lemma LevelsFollowEnergy<S>(p: Params<S>, s: Snap<S>, w: World, i: nat) returns (block: real)
    requires ParamsValid(p) && SnapValid(s) && s.active.Some? && i < |s.active.value.whitelist|
    requires w.outcome.Frames? && Readable(s.active.value, w.outcome)
    requires forall x :: x >= 0.0 ==> p.num.sqrt(x) * p.num.sqrt(x) == x
    ensures var src, t := s.active.value, Processed(p, s, w).0;
      && block >= 0.0
      && block * block * (w.outcome.frames as real) == SumSq(p.num.value, HeardNow(src, w, i))
      && t.levels[i] - block == (1.0 - p.num.alpha(w.outcome.frames, src.rate)) * (s.levels[i] - block)
  {
    hide ChannelOf, Smoothed, BlockLevels, Next, ResamplersAfter, Emission, SumSq;
    var src, frames := s.active.value, w.outcome.frames;
    var channels := Channels(w.outcome.block, src.channels, src.whitelist, frames);
    assert channels[i] == HeardNow(src, w, i);
    LevelIsRootMeanSquare(p.num, channels, frames, i);
    SmoothedApproaches(p.num.alpha(frames, src.rate), BlockLevels(p.num, channels, frames), s.levels, i);
    block := BlockLevels(p.num, channels, frames)[i];
  }

  lemma KeptPeriod<S>(p: Params<S>, s: Snap<S>, w: World)
    requires ParamsValid(p) && SnapValid(s) && WorldValid(w) && WorldReadable(w, s.active) && Keeps(p, s, w)
    ensures Readable(s.active.value, w.outcome)
    ensures w.outcome.Frames? ==> Iterated(p, s, w) == Processed(p, s, w)
    ensures w.outcome in {Timeout, StopRequested} ==> Iterated(p, s, w) == (s, [])
  {
    hide Processed, NeedSwitch, Opened;
  }

  /** One kept iteration, for a slot whose stream goes on. */
  lemma HearsMore<S>(p: Params<S>, s: Snap<S>, w: World, src: Source, i: nat, before: seq<Sample>)
    requires ParamsValid(p) && SnapValid(s) && WorldValid(w) && WorldReadable(w, s.active) && Keeps(p, s, w)
    requires s.active == Some(src) && src.rate != 44_100 && i < |src.whitelist|
    requires HasHeard(p, s, src, i, before) && GoesOn(w, src.whitelist, i)
    ensures WellFormed(src) && Readable(src, w.outcome)
    ensures HasHeard(p, Iterated(p, s, w).0, src, i, before + HeardNow(src, w, i))
    ensures w.outcome.Frames? && Iterated(p, s, w).0.choice.active == Some(i) ==>
      Resampled(p.kernels(src.rate), before) + Iterated(p, s, w).1 ==
      Resampled(p.kernels(src.rate), before + HeardNow(src, w, i))
    ensures !w.outcome.Frames? ==> Iterated(p, s, w).1 == [] && HeardNow(src, w, i) == []
  {
    hide Feed, Iterated, Processed, NeedSwitch, Fresh, Resampled;
    KeptPeriod(p, s, w);
    FeedDrained(p.kernels(src.rate), before, HeardNow(src, w, i));
    if w.outcome.Frames? {
      PeriodExactly(p, s, w, i);
      if PinnedTo(w, src.whitelist, i) {
        PinnedIsChosen(p, s, w, i);
      }
    } else {
      assert before + [] == before;
    }
  }

  /** Over any run, a resampler whose stream goes on has heard every sample of its channel, once and in order. */
  lemma {:induction false} ResamplersHearEverything<S>(p: Params<S>, s: Snap<S>, ws: seq<World>, src: Source, i: nat,
                                                        before: seq<Sample>)
    requires ParamsValid(p) && SnapValid(s) && Runnable(p, s, ws) && KeepsAll(p, s, ws)
    requires s.active == Some(src) && src.rate != 44_100 && i < |src.whitelist|
    requires HasHeard(p, s, src, i, before) && forall j :: 0 <= j < |ws| ==> GoesOn(ws[j], src.whitelist, i)
    ensures AllReadable(src, ws) && HasHeard(p, Run(p, s, ws).0, src, i, before + Heard(src, ws, i))
    decreases |ws|
  {
    hide Iterated, Keeps, SnapValid, WorldReadable, WorldValid, HasHeard, GoesOn, HeardNow;
    if ws == [] {
      assert before + [] == before;
    } else {
      assert GoesOn(ws[0], src.whitelist, i);
      HearsMore(p, s, ws[0], src, i, before);
      KeptTimer(p, s, ws[0]);
      ResamplersHearEverything(p, Iterated(p, s, ws[0]).0, ws[1..], src, i, before + HeardNow(src, ws[0], i));
      assert before + HeardNow(src, ws[0], i) + Heard(src, ws[1..], i) == before + Heard(src, ws, i);
    }
  }

  /**
    While a fixed channel is listed, a run adds to the ring exactly what one resampler fed that
    channel alone would add, and at the ring's own rate the channel itself.
  */
  lemma {:induction false} PinnedChannelIsRecorded<S>(p: Params<S>, s: Snap<S>, ws: seq<World>, src: Source, i: nat,
                                                       before: seq<Sample>)
    requires ParamsValid(p) && SnapValid(s) && Runnable(p, s, ws) && KeepsAll(p, s, ws)
    requires s.active == Some(src) && src.rate != 44_100 ==> HasHeard(p, s, src, i, before)
    requires s.active == Some(src) && i < |src.whitelist|
    requires forall j :: 0 <= j < |ws| ==> PinnedTo(ws[j], src.whitelist, i) && ws[j].outcome != ReadFailed(true)
    ensures AllReadable(src, ws)
    ensures src.rate == 44_100 ==> Run(p, s, ws).1 == Heard(src, ws, i)
    ensures src.rate != 44_100 ==>
      Resampled(p.kernels(src.rate), before) + Run(p, s, ws).1 == Resampled(p.kernels(src.rate), before + Heard(src, ws, i))
    decreases |ws|
  {
    hide Iterated, Keeps, SnapValid, WorldReadable, WorldValid, HasHeard, PinnedTo, HeardNow, Resampled;
    var k := p.kernels(src.rate);
    if ws == [] {
      assert before + [] == before && Resampled(k, before) + [] == Resampled(k, before);
    } else {
      PinnedPeriod(p, s, ws[0], src, i, before);
      var now := HeardNow(src, ws[0], i);
      KeptTimer(p, s, ws[0]);
      PinnedChannelIsRecorded(p, Iterated(p, s, ws[0]).0, ws[1..], src, i, before + now);
      assert before + now + Heard(src, ws[1..], i) == before + Heard(src, ws, i);
      var first, rest := Iterated(p, s, ws[0]).1, Run(p, Iterated(p, s, ws[0]).0, ws[1..]).1;
      assert Resampled(k, before) + (first + rest) == Resampled(k, before) + first + rest;
    }
  }

  lemma PinnedPeriod<S>(p: Params<S>, s: Snap<S>, w: World, src: Source, i: nat, before: seq<Sample>)
    requires ParamsValid(p) && SnapValid(s) && WorldValid(w) && WorldReadable(w, s.active) && Keeps(p, s, w)
    requires s.active == Some(src) && i < |src.whitelist|
    requires src.rate != 44_100 ==> HasHeard(p, s, src, i, before)
    requires PinnedTo(w, src.whitelist, i) && w.outcome != ReadFailed(true)
    ensures WellFormed(src) && Readable(src, w.outcome)
    ensures src.rate == 44_100 ==> Iterated(p, s, w).1 == HeardNow(src, w, i)
    ensures src.rate != 44_100 ==>
      && HasHeard(p, Iterated(p, s, w).0, src, i, before + HeardNow(src, w, i))
      && Resampled(p.kernels(src.rate), before) + Iterated(p, s, w).1 ==
         Resampled(p.kernels(src.rate), before + HeardNow(src, w, i))
  {
    hide Iterated, Processed, NeedSwitch, HasHeard, Resampled, ChannelOf;
    KeptPeriod(p, s, w);
    if w.outcome.Frames? {
      PinnedIsChosen(p, s, w, i);
      PeriodExactly(p, s, w, i);
    }
    if src.rate != 44_100 {
      HearsMore(p, s, w, src, i, before);
      assert before + [] == before;
      assert Resampled(p.kernels(src.rate), before) + [] == Resampled(p.kernels(src.rate), before);
    }
  }
}
