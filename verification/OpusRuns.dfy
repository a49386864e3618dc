/** What every run of the Opus loop does: what it feeds, when it panics, when it can starve. */
module OpusRuns {
  import opened RingIndex
  import opened Samples
  import opened AudioRing
  import opened OpusEngine
  import opened Resampling
  import opened OpusLoop
  import RingMargin

  /** In every run, every block is the stream at its position and epochs are gapless. */
  lemma EveryRunFeedsTheStream(s: State, es: seq<Event>)
    requires Start(s) && Schedule(s, es) && PCM_PULL_CHUNK <= SafePeekWindow(s.ring.cap)
    ensures var t := Exec(s, es);
      && FeedsAdjacent(t.feeds)
      && forall i :: 0 <= i < |t.feeds| ==> FeedSound(t.ring, t.feeds[i])
  {
    hide Slot, Exec, Schedule, FeedsAdjacent;
    assert Inv(s) by { NoFeedsYet(s); }
    RunInv(s, es);
  }

  lemma NoFeedsYet(s: State)
    requires Start(s)
    ensures Inv(s)
  {
  }

  // ---- Panics ----

  predicate Panicked(s: State) {
    s.me in s.ring.readers && s.ring.readers[s.me].pc.Panicked?
  }

  /** Nobody but the loop takes a step. */
  predicate Alone(es: seq<Event>) {
    forall i :: 0 <= i < |es| ==> !es[i].Foreign?
  }

  lemma Extend(s: State, es: seq<Event>, t: State, e: Event) returns (es': seq<Event>, t': State)
    requires Schedule(s, es) && Exec(s, es) == t && Enabled(t, e)
    ensures Schedule(s, es') && Exec(s, es') == t' == Apply(t, e)
    ensures es' == es + [e] && (Alone(es) && !e.Foreign? ==> Alone(es'))
  {
    hide Slot, Enabled, Apply;
    es', t' := es + [e], Apply(t, e);
    assert es'[..|es'| - 1] == es;
  }

  /** Paused, starting, or recovering from lag: the loop has yet to seek before it reads on. */
  predicate Restarting(s: State) {
    s.pc.OuterTop? || s.pc.Parked? || s.pc.Building? || s.pc.Resyncing? || s.pc.LagSeek?
  }

  /** How many engines a restarting loop builds or resets before its seek or right after it. */
  function Renewals(s: State): nat { if s.pc.Resyncing? then 0 else 1 }

  /** From a pause, a start or a lag to the loop's inner top, the loop running alone. */
  lemma SeekAlone(s0: State, es: seq<Event>, s: State) returns (es': seq<Event>, t: State)
    requires Schedule(s0, es) && Exec(s0, es) == s && Restarting(s) && s.me in s.ring.readers && Alone(es)
    requires !s.ring.readers[s.me].pc.Copying? && !s.ring.readers[s.me].pc.Panicked?
    ensures Schedule(s0, es') && Exec(s0, es') == t && Alone(es')
    ensures t.me == s.me && t.feeds == s.feeds && t.pc.InnerTop? && t.epoch == s.epoch + Renewals(s)
    ensures t.ring == s.ring.(readers := s.ring.readers[s.me :=
      Ring.Reader(SaturatingSub(s.ring.head, BACKLOG_SAMPLES), Ring.Resting)])
  {
    hide Slot, Exec, Schedule;
    es', t := es, s;
    if t.pc.LagSeek? {
      es', t := Extend(s0, es', t, SeekAfterLag);
      es', t := Extend(s0, es', t, ResetEngine(true));
    } else {
      es', t := UpToResync(s0, es, s);
      es', t := Extend(s0, es', t, ResyncSeek);
    }
  }

  /** From a pause or a start to the resync, the loop running alone. */
  lemma UpToResync(s0: State, es: seq<Event>, s: State) returns (es': seq<Event>, t: State)
    requires Schedule(s0, es) && Exec(s0, es) == s && Restarting(s) && !s.pc.LagSeek? && Alone(es)
    ensures Schedule(s0, es') && Exec(s0, es') == t && Alone(es')
    ensures t == s.(pc := Resyncing, epoch := s.epoch + Renewals(s))
  {
    hide Slot, Exec, Schedule;
    es', t := es, s;
    if t.pc.Parked? {
      es', t := Extend(s0, es', t, Unpark(CountChanged));
    }
    if t.pc.OuterTop? {
      es', t := Extend(s0, es', t, OuterCheck(false, 1));
    }
    if t.pc.Building? {
      es', t := Extend(s0, es', t, Build(true));
    }
  }

  /** The loop's reader after a resync and the first head load of a peek. */
  function ResyncedReader(ring: Ring.State): Ring.Reader {
    var tail := SaturatingSub(ring.head, BACKLOG_SAMPLES);
    var status := Decide(ring.head, tail, PCM_PULL_CHUNK, ring.cap);
    Ring.Reader(tail,
      if PCM_PULL_CHUNK > SafePeekWindow(ring.cap) then Ring.Panicked
      else if status.Ready? then Ring.Copying(PCM_PULL_CHUNK, [])
      else Ring.Returned(PCM_PULL_CHUNK, status, []))
  }

  /** From a restart to the next peek, the loop running alone. */
  lemma ResyncAndPeek(s0: State, es: seq<Event>, s: State) returns (es': seq<Event>, t: State)
    requires Schedule(s0, es) && Exec(s0, es) == s && Restarting(s) && s.me in s.ring.readers && Alone(es)
    requires !s.ring.readers[s.me].pc.Copying? && !s.ring.readers[s.me].pc.Panicked?
    ensures Schedule(s0, es') && Exec(s0, es') == t && Alone(es')
    ensures t.me == s.me && t.feeds == s.feeds && t.pc.InPeek? && t.epoch == s.epoch + Renewals(s)
    ensures t.ring == s.ring.(readers := s.ring.readers[s.me := ResyncedReader(s.ring)])
  {
    hide Slot, Exec, Schedule, Restarting;
    es', t := SeekAlone(s0, es, s);
    es', t := ToNextPeek(s0, es', t);
    es', t := Extend(s0, es', t, StartPeek);
  }

  lemma ToNextPeek(s0: State, es: seq<Event>, s: State) returns (es': seq<Event>, t: State)
    requires Schedule(s0, es) && Exec(s0, es) == s && s.pc.InnerTop? && Alone(es)
    ensures Schedule(s0, es') && Exec(s0, es') == t && t == s.(pc := ToPeek) && Alone(es')
  {
    hide Slot, Exec, Schedule;
    es', t := Extend(s0, es, s, InnerCheck(false, 1));
    if t.pc.Sleeping? {
      es', t := Extend(s0, es', t, WakeUp(TimerFired));
    }
  }

  /** From the start to the first peek, the loop running alone. */
  lemma FirstPeek(s: State) returns (es: seq<Event>, t: State)
    requires Start(s)
    ensures Schedule(s, es) && Exec(s, es) == t
    ensures t.me == s.me && s.me in t.ring.readers && t.ring.cap == s.ring.cap
    ensures PCM_PULL_CHUNK > SafePeekWindow(s.ring.cap) ==> Panicked(t)
  {
    hide Slot, Exec, Schedule, Ring.Inv, Decide;
    EmptyRun(s);
    es, t := ResyncAndPeek(s, [], s);
  }

  lemma EmptyRun(s: State)
    ensures Schedule(s, []) && Exec(s, []) == s
  {
  }

  /** No assert of `peek_into` or `advance` ever fires if and only if a block fits the safe window. */
  lemma NeverPanicsExactly(s: State)
    requires Start(s)
    ensures (forall es :: Schedule(s, es) ==> !Panicked(Exec(s, es)))
       <==> PCM_PULL_CHUNK <= SafePeekWindow(s.ring.cap)
  {
    hide Slot, Exec, Schedule, Ring.Inv;
    if PCM_PULL_CHUNK <= SafePeekWindow(s.ring.cap) {
      forall es | Schedule(s, es) ensures !Panicked(Exec(s, es)) {
        assert Inv(s) by { NoFeedsYet(s); }
        RunInv(s, es);
      }
    } else {
      var es, t := FirstPeek(s);
    }
  }

  // ---- Epochs and packets ----

  function Blocks(feeds: seq<Fed>): seq<Sample> {
    if feeds == [] then [] else Blocks(feeds[..|feeds| - 1]) + feeds[|feeds| - 1].block
  }

  lemma {:induction false} EpochsAscend(feeds: seq<Fed>, i: nat, j: nat)
    requires FeedsAdjacent(feeds) && i <= j < |feeds|
    ensures feeds[i].epoch <= feeds[j].epoch
    decreases j - i
  {
    if i < j {
      EpochsAscend(feeds, i, j - 1);
    }
  }

  /** All that one engine epoch was fed is one gapless slice of the stream. */
  lemma {:induction false} EpochIsOneSlice(s: State, i: nat, j: nat)
    requires Inv(s) && i <= j < |s.feeds| && s.feeds[i].epoch == s.feeds[j].epoch
    ensures s.feeds[i].pos <= s.feeds[j].pos && s.feeds[j].pos + PCM_PULL_CHUNK <= |s.ring.stream|
    ensures Blocks(s.feeds[i..j + 1]) == s.ring.stream[s.feeds[i].pos..s.feeds[j].pos + PCM_PULL_CHUNK]
    decreases j - i
  {
    hide Slot, Ring.Inv, PcInv, Blocks;
    assert FeedSound(s.ring, s.feeds[j]);
    BlocksSnoc(s.feeds, i, j);
    if i < j {
      EpochsAscend(s.feeds, i, j - 1);
      EpochsAscend(s.feeds, j - 1, j);
      EpochIsOneSlice(s, i, j - 1);
      JoinSlices(s.ring.stream, s.feeds[i].pos, s.feeds[j].pos, s.feeds[j].pos + PCM_PULL_CHUNK);
    }
  }

  lemma BlocksSnoc(feeds: seq<Fed>, i: nat, j: nat)
    requires i <= j < |feeds|
    ensures Blocks(feeds[i..j + 1]) == Blocks(feeds[i..j]) + feeds[j].block
    ensures i == j ==> Blocks(feeds[i..j + 1]) == feeds[j].block
  {
    assert feeds[i..j + 1][..j - i] == feeds[i..j];
  }

  lemma JoinSlices<T>(xs: seq<T>, a: nat, b: nat, c: nat)
    requires a <= b <= c <= |xs|
    ensures xs[a..b] + xs[b..c] == xs[a..c]
  {
  }

  /**
    The packets of an epoch are those of one uninterrupted recording: a fresh engine given the
    epoch's blocks one call each, as the loop gives them, emits over all those calls what a
    single call on the slice of the stream they cover would emit.
  */
  method PacketsOfOneSlice<S, E>(engine: Engine<S, E>, ghost s: State, i: nat, j: nat, feeds: seq<Fed>)
    returns (ok: bool, sent: seq<Packet>)
    requires engine.Valid() && engine.fed == [] && engine.packets == []
    requires Inv(s) && feeds == s.feeds && i <= j < |feeds| && feeds[i].epoch == feeds[j].epoch
    modifies engine`encoder, engine`outPcm, engine`fed, engine`frames, engine`packets, engine.resampler
    ensures feeds[i].pos <= feeds[j].pos && feeds[j].pos + PCM_PULL_CHUNK <= |s.ring.stream|
    ensures ok ==> engine.Valid()
    ensures var slice := s.ring.stream[feeds[i].pos..feeds[j].pos + PCM_PULL_CHUNK];
      ok ==> sent == PacketsFor(engine.kernel, engine.codec, slice)
    ensures !ok ==>
      || (exists n :: i <= n <= j && FirstNonFinite(feeds[n].block) < |feeds[n].block|)
      || (|engine.outPcm| >= FRAME_SAMPLES
          && !EncodeAll(engine.codec, engine.frames + [engine.outPcm[..FRAME_SAMPLES]]).2)
  {
    hide Inv, PacketsFor, Blocks, EncodeAll, Flatten, Frames, Feed, Fresh, Resampled;
    EpochIsOneSlice(s, i, j);
    sent := [];
    NoBlocks(feeds, i);
    for n := i to j + 1
      invariant engine.Valid() && engine.fed == Blocks(feeds[i..n]) && engine.packets == sent
      invariant n > i ==> sent == PacketsFor(engine.kernel, engine.codec, Blocks(feeds[i..n]))
    {
      BlocksSnoc(feeds, i, n);
      var r, emitted := engine.ProcessPcm(feeds[n].block);
      if r.Err? {
        return false, sent;
      }
      sent := sent + emitted;
    }
    return true, sent;
  }

  lemma NoBlocks(feeds: seq<Fed>, i: nat)
    requires i <= |feeds|
    ensures Blocks(feeds[i..i]) == []
  {
  }

  // ---- Progress after a resync ----

  /** How far behind the head a resync puts the reader. */
  function Behind(head: nat): nat { if head <= BACKLOG_SAMPLES then head else BACKLOG_SAMPLES }

  /** At least `floor` samples behind the head and outside the safe window: only `Lagged` can follow. */
  ghost predicate Starved(s: State, floor: nat) {
    && Inv(s) && s.me in s.ring.readers
    && PCM_PULL_CHUNK <= SafePeekWindow(s.ring.cap) < floor <= BACKLOG_SAMPLES && floor <= s.ring.head
    && var rd := s.ring.readers[s.me];
      match s.pc
      case InnerTop => rd.tail + floor <= s.ring.head
      case Sleeping => rd.tail + floor <= s.ring.head
      case ToPeek => rd.tail + floor <= s.ring.head
      case InPeek => rd.tail + floor <= s.ring.head && rd.pc.Returned? && rd.pc.status.Lagged?
      case LagReset => rd.tail + floor <= s.ring.head
      case ToAdvance => false
      case Feeding(_, _) => false
      case _ => true
  }

  lemma StarvedOwnStep(s: State, e: Event, floor: nat)
    requires Starved(s, floor) && Enabled(s, e) && RingEvent(s, e) != [] && !e.Foreign?
    ensures Starved(Apply(s, e), floor)
  {
    hide Slot, Inv, Ring.Apply, Ring.Inv, Ring.ReaderInv;
    StepInv(s, e);
    OwnReaderStep(s, e);
  }

  lemma StarvedLocalStep(s: State, e: Event, floor: nat)
    requires Starved(s, floor) && Enabled(s, e) && (RingEvent(s, e) == [] || e.Foreign?)
    ensures Starved(Apply(s, e), floor)
  {
    hide Slot, Inv, Ring.Apply, Ring.Enabled, Ring.ReaderInv, PcInv, Holds;
    StepInv(s, e);
    RingStep(s, e);
    HeadsGrow(s, Apply(s, e));
  }

  lemma HeadsGrow(s: State, t: State)
    requires Inv(s) && Inv(t) && s.ring.stream <= t.ring.stream
    ensures s.ring.head <= t.ring.head
  {
  }

  lemma {:induction false} StarvedForever(s: State, es: seq<Event>, floor: nat)
    requires Starved(s, floor) && Schedule(s, es)
    ensures Starved(Exec(s, es), floor) && Exec(s, es).feeds == s.feeds
  {
    hide Slot, Enabled, Apply, Starved;
    if es != [] {
      StarvedForever(s, es[..|es| - 1], floor);
      var t, e := Exec(s, es[..|es| - 1]), es[|es| - 1];
      if RingEvent(t, e) == [] || e.Foreign? {
        StarvedLocalStep(t, e, floor);
      } else {
        StarvedOwnStep(t, e, floor);
      }
      StarvedFeedsNothing(t, e, floor);
    }
  }

  lemma StarvedFeedsNothing(s: State, e: Event, floor: nat)
    requires Starved(s, floor) && Enabled(s, e)
    ensures Apply(s, e).feeds == s.feeds
  {
    hide Slot, Inv;
    FeedsAfter(s, e);
  }

  /** Running alone from a restart, the loop's next peek is admitted. */
  lemma ResyncAdmitsAPeek(s: State) returns (es: seq<Event>, t: State)
    requires Ring.CellsInv(s.ring) && s.me in s.ring.readers && !s.ring.readers[s.me].pc.Copying?
    requires !s.ring.readers[s.me].pc.Panicked?
    requires Restarting(s) && PCM_PULL_CHUNK <= s.ring.head
    requires Behind(s.ring.head) <= SafePeekWindow(s.ring.cap)
    ensures Schedule(s, es) && Exec(s, es) == t && Alone(es)
    ensures t.me == s.me && t.feeds == s.feeds && t.pc.InPeek? && t.epoch == s.epoch + Renewals(s)
    ensures t.ring == s.ring.(readers := s.ring.readers[s.me :=
      Ring.Reader(s.ring.head - Behind(s.ring.head), Ring.Copying(PCM_PULL_CHUNK, []))])
  {
    hide Slot, Exec, Schedule, Ring.CellsInv, Restarting;
    EmptyRun(s);
    es, t := ResyncAndPeek(s, [], s);
  }

  /** Running alone from a complete copy, the loop feeds the block. */
  lemma CompleteCopyIsFed(s: State, es: seq<Event>, t: State) returns (es': seq<Event>, t': State)
    requires Schedule(s, es) && Exec(s, es) == t && t.pc.InPeek? && t.me in t.ring.readers && Alone(es)
    requires var rd := t.ring.readers[t.me];
      && rd.pc.Copying? && rd.pc.n == |rd.pc.out| == PCM_PULL_CHUNK
      && rd.tail + PCM_PULL_CHUNK <= t.ring.head <= rd.tail + SafePeekWindow(t.ring.cap)
    ensures Schedule(s, es') && Exec(s, es') == t' && Alone(es')
    ensures t'.feeds == t.feeds + [Fed(t.epoch, t.ring.readers[t.me].tail, t.ring.readers[t.me].pc.out)]
  {
    hide Slot, Exec, Schedule;
    es', t' := Extend(s, es, t, Recheck);
    es', t' := Extend(s, es', t', Dispatch);
    es', t' := Extend(s, es', t', AdvanceTail);
    es', t' := Extend(s, es', t', FeedEngine(true));
  }

  /** Running alone from a restart with a backlog inside the window, the loop feeds a block. */
  lemma ResyncFeedsABlock(s: State) returns (es: seq<Event>, t: State)
    requires Inv(s) && Restarting(s) && PCM_PULL_CHUNK <= s.ring.head
    requires Behind(s.ring.head) <= SafePeekWindow(s.ring.cap)
    ensures Schedule(s, es) && Exec(s, es) == t && Alone(es) && |t.feeds| == |s.feeds| + 1
    ensures t.feeds[|s.feeds|].epoch == s.epoch + Renewals(s)
    ensures t.feeds[|s.feeds|].pos == s.ring.head - Behind(s.ring.head)
  {
    hide Slot, Exec, Schedule, Ring.CellsInv, FeedsAdjacent, FeedSound, Restarting;
    RestsWhileRestarting(s);
    es, t := ResyncAdmitsAPeek(s);
    ReadersDoNotTouchCells(s.ring, t.ring);
    es, t := CopyBlock(s, es, t, PCM_PULL_CHUNK);
    es, t := CompleteCopyIsFed(s, es, t);
  }

  lemma RestsWhileRestarting(s: State)
    requires Inv(s) && Restarting(s)
    ensures s.me in s.ring.readers && Ring.CellsInv(s.ring)
    ensures !s.ring.readers[s.me].pc.Copying? && !s.ring.readers[s.me].pc.Panicked?
  {
    hide Slot, FeedsAdjacent, FeedSound;
  }

  /** The first `k` copies of a peek, with nobody else running. */
  lemma {:induction false} CopyBlock(s0: State, es: seq<Event>, s: State, k: nat)
    returns (es': seq<Event>, t: State)
    requires Schedule(s0, es) && Exec(s0, es) == s && Alone(es)
    requires Ring.CellsInv(s.ring) && s.pc.InPeek? && s.me in s.ring.readers && k <= PCM_PULL_CHUNK
    requires s.ring.readers[s.me].pc == Ring.Copying(PCM_PULL_CHUNK, [])
    ensures Schedule(s0, es') && Exec(s0, es') == t && Alone(es')
    ensures s.me in t.ring.readers && t.ring.readers[s.me].pc.Copying?
    ensures t.ring.readers[s.me].tail == s.ring.readers[s.me].tail
    ensures t.ring.readers[s.me].pc.n == PCM_PULL_CHUNK && |t.ring.readers[s.me].pc.out| == k
    ensures t == s.(ring := s.ring.(readers := t.ring.readers))
  {
    hide Slot, Exec, Schedule, Holds;
    if k == 0 {
      es', t := es, s;
    } else {
      es', t := CopyBlock(s0, es, s, k - 1);
      CopyIsEnabled(t);
      es', t := Extend(s0, es', t, CopyCell);
    }
  }

  lemma ReadersDoNotTouchCells(r: Ring.State, r': Ring.State)
    requires Ring.CellsInv(r) && r' == r.(readers := r'.readers)
    ensures Ring.CellsInv(r')
  {
    assert Ring.Stored(r') == Ring.Stored(r);
  }

  lemma CopyIsEnabled(s: State)
    requires Ring.CellsInv(s.ring) && s.pc.InPeek? && s.me in s.ring.readers
    requires var pc := s.ring.readers[s.me].pc; pc.Copying? && |pc.out| < pc.n
    ensures Enabled(s, CopyCell)
  {
  }

  // ---- When a resync can be followed by a block ----

  /** `es` leads from `s` to `t` by steps of the writer, while the loop waits to resync. */
  ghost predicate WriterRun(s: State, es: seq<Event>, t: State) {
    && Schedule(s, es) && Exec(s, es) == t && Inv(t)
    && t == s.(ring := t.ring) && t.ring.cap == s.ring.cap && t.ring.maxPush == s.ring.maxPush
  }

  lemma WriterStep(s: State, es: seq<Event>, t: State, re: Ring.Event) returns (es': seq<Event>, t': State)
    requires WriterRun(s, es, t) && Ring.Enabled(t.ring, re) && !Ring.ReaderEvent(re) && !re.NewReader?
    requires PCM_PULL_CHUNK <= SafePeekWindow(t.ring.cap)
    ensures WriterRun(s, es', t') && t'.ring == Ring.Apply(t.ring, re)
  {
    hide Slot, Exec, Schedule, Ring.Apply, Ring.Enabled, Inv;
    assert RingEvent(t, Foreign(re)) == [re];
    es', t' := Extend(s, es, t, Foreign(re));
    StepInv(t, Foreign(re));
    RingStep(t, Foreign(re));
    ForeignLeavesLoop(t, Foreign(re));
    assert t'.ring == Ring.Apply(t.ring, re) by { ForeignAppliesRing(t, re); }
  }

  lemma ForeignAppliesRing(t: State, re: Ring.Event)
    requires Enabled(t, Foreign(re))
    ensures Ring.Enabled(t.ring, re) && Apply(t, Foreign(re)).ring == Ring.Apply(t.ring, re)
  {
    hide Ring.Apply, Ring.Enabled;
    assert RingEvent(t, Foreign(re)) == [re] && re in [re];
  }

  lemma RingOf(s: State)
    requires Inv(s)
    ensures Ring.CellsInv(s.ring) && IsPowerOfTwo(s.ring.cap) && s.ring.maxPush <= SafetyMargin(s.ring.cap)
    ensures s.ring.writer.Storing? ==>
      s.ring.writer.stored <= |s.ring.writer.batch| <= SafetyMargin(s.ring.cap)
  {
    hide Slot, PcInv, FeedsAdjacent, FeedSound, Ring.ReaderInv;
  }

  /** The writer finishes the push it is making, and exists. */
  lemma {:induction false} FinishPush(s: State, es: seq<Event>, t: State) returns (es': seq<Event>, t': State)
    requires WriterRun(s, es, t) && PCM_PULL_CHUNK <= SafePeekWindow(t.ring.cap)
    ensures WriterRun(s, es', t') && t'.ring.writer.Idle?
    ensures t.ring.head <= t'.ring.head <= t.ring.head + SafetyMargin(t.ring.cap)
    decreases if t.ring.writer.Storing? then 2 + |t.ring.writer.batch| - t.ring.writer.stored
              else if t.ring.writer.Absent? then 1 else 0
  {
    hide Slot, Exec, Schedule, Inv, Ring.CellsInv, IsPowerOfTwo;
    es', t' := es, t;
    RingOf(t);
    match t.ring.writer
    case Idle =>
    case Absent =>
      es', t' := WriterStep(s, es, t, Ring.TakeWriter);
    case Storing(batch, k) =>
      if k < |batch| {
        RingMargin.StoreIsEnabled(t.ring);
        es', t' := WriterStep(s, es, t, Ring.StoreCell);
        es', t' := FinishPush(s, es', t');
      } else {
        es', t' := WriterStep(s, es, t, Ring.Publish);
      }
  }

  /** Pushes of one sample until `n` are published. */
  lemma {:induction false} FillTo(s: State, es: seq<Event>, t: State, n: nat) returns (es': seq<Event>, t': State)
    requires WriterRun(s, es, t) && PCM_PULL_CHUNK <= SafePeekWindow(t.ring.cap)
    requires t.ring.writer.Idle? && t.ring.maxPush > 0
    ensures WriterRun(s, es', t')
    ensures t'.ring.head == if t.ring.head < n then n else t.ring.head
    decreases if t.ring.head < n then n - t.ring.head else 0
  {
    hide Slot, Exec, Schedule, Inv, Ring.CellsInv, IsPowerOfTwo;
    es', t' := es, t;
    if t.ring.head < n {
      es', t' := WriterStep(s, es, t, Ring.BeginPush([0]));
      RingOf(t');
      RingMargin.StoreIsEnabled(t'.ring);
      es', t' := WriterStep(s, es', t', Ring.StoreCell);
      es', t' := WriterStep(s, es', t', Ring.Publish);
      es', t' := FillTo(s, es', t', n);
    }
  }

  /** Between two powers of two there is no third. */
  lemma {:induction false} PowersAreApart(n: nat, m: nat)
    requires IsPowerOfTwo(n) && IsPowerOfTwo(m) && n > m
    ensures n >= 2 * m
  {
    if m > 1 {
      PowersAreApart(n / 2, m / 2);
    }
  }

  /** One push on top of less than a block still fits a window that holds a block. */
  lemma BlockAndPushFit(cap: nat)
    requires IsPowerOfTwo(cap) && PCM_PULL_CHUNK <= SafePeekWindow(cap)
    ensures PCM_PULL_CHUNK + SafetyMargin(cap) <= SafePeekWindow(cap) + 1
  {
    assert IsPowerOfTwo(16) && IsPowerOfTwo(128);
    assert IsPowerOfTwo(1024);
    PowersAreApart(cap, 1024);
  }

  /** With less than a block published, the writer brings the head into reach first. */
  lemma FirstBlockArrives(s: State) returns (es: seq<Event>, t: State)
    requires Inv(s) && s.ring.maxPush > 0 && PCM_PULL_CHUNK <= SafePeekWindow(s.ring.cap)
    requires s.ring.head < PCM_PULL_CHUNK
    ensures WriterRun(s, es, t)
    ensures PCM_PULL_CHUNK <= t.ring.head <= SafePeekWindow(s.ring.cap)
  {
    hide Slot, Exec, Schedule, Inv, Ring.CellsInv, IsPowerOfTwo;
    EmptyRun(s);
    RingOf(s);
    BlockAndPushFit(s.ring.cap);
    es, t := FinishPush(s, [], s);
    es, t := FillTo(s, es, t, PCM_PULL_CHUNK);
  }

  /** Two runs one after the other. */
  lemma {:induction false} Joined(s: State, first: seq<Event>, t: State, second: seq<Event>)
    requires Schedule(s, first) && Exec(s, first) == t && Schedule(t, second)
    ensures Schedule(s, first + second) && Exec(s, first + second) == Exec(t, second)
    decreases |second|
  {
    hide Enabled, Apply;
    if second == [] {
      assert first + second == first;
    } else {
      var n := |second| - 1;
      Joined(s, first, t, second[..n]);
      assert (first + second)[..|first + second| - 1] == first + second[..n];
      assert (first + second)[|first + second| - 1] == second[n];
    }
  }

  /** A block can be fed whenever the backlog that the seek leaves fits the window. */
  lemma BlockCanFollow(s: State) returns (es: seq<Event>)
    requires Inv(s) && Restarting(s) && s.ring.maxPush > 0
    requires PCM_PULL_CHUNK <= SafePeekWindow(s.ring.cap) && Behind(s.ring.head) <= SafePeekWindow(s.ring.cap)
    ensures Schedule(s, es) && |Exec(s, es).feeds| > |s.feeds|
  {
    hide Slot, Exec, Schedule, Inv;
    var t;
    if PCM_PULL_CHUNK <= s.ring.head {
      es, t := ResyncFeedsABlock(s);
    } else {
      var mid, more;
      es, mid := FirstBlockArrives(s);
      more, t := ResyncFeedsABlock(mid);
      Joined(s, es, mid, more);
      es := es + more;
    }
  }

  /**
    Paused, starting, or recovering from lag, the loop can feed another block in some continuation if
    and only if what its seek leaves between tail and head fits the safe window: the whole log, or the
    backlog if the log is longer.  Otherwise it only ever lags again.
  */
  lemma ResyncProgressExactly(s: State)
    requires Inv(s) && Restarting(s) && s.ring.maxPush > 0 && PCM_PULL_CHUNK <= SafePeekWindow(s.ring.cap)
    ensures (exists es :: Schedule(s, es) && |Exec(s, es).feeds| > |s.feeds|)
       <==> Behind(s.ring.head) <= SafePeekWindow(s.ring.cap)
  {
    hide Slot, Exec, Schedule, Inv;
    if Behind(s.ring.head) <= SafePeekWindow(s.ring.cap) {
      var es := BlockCanFollow(s);
    } else {
      var floor := Behind(s.ring.head);
      assert Starved(s, floor) by { OwnReaderPresent(s); }
      forall es | Schedule(s, es) ensures |Exec(s, es).feeds| == |s.feeds| {
        StarvedForever(s, es, floor);
      }
    }
  }

  lemma OwnReaderPresent(s: State)
    requires Inv(s)
    ensures s.me in s.ring.readers
  {
  }

  /** Pushes of a quarter of the ring until `n` samples are published. */
  lemma {:induction false} PushUntil(s0: Ring.State, es: seq<Ring.Event>, s: Ring.State, n: nat)
    returns (es': seq<Ring.Event>, t: Ring.State)
    requires RingMargin.Reaches(s0, es, s) && s.writer.Idle? && s.maxPush > 0
    ensures RingMargin.Reaches(s0, es', t) && t.head >= n
    ensures t == s.(cells := t.cells, head := t.head, stream := t.stream)
    decreases if s.head >= n then 0 else n - s.head
  {
    hide RingMargin.Reaches;
    es', t := es, s;
    if s.head < n {
      es', t := RingMargin.PushBatch(s0, es, s, RingMargin.Repeat(0, s.maxPush));
      es', t := PushUntil(s0, es', t, n);
    }
  }

  /** A run of the ring from empty to a full backlog, with one reader that has not moved. */
  lemma FullBacklog(cap: nat) returns (es: seq<Ring.Event>, r: Ring.State)
    requires IsPowerOfTwo(cap) && cap >= 4
    ensures RingMargin.Reaches(Ring.Init(cap, SafetyMargin(cap)), es, r)
    ensures r.cap == cap && r.maxPush == SafetyMargin(cap) && r.head >= BACKLOG_SAMPLES
    ensures r.readers == map[0 := Ring.Reader(0, Ring.Resting)]
  {
    hide IsPowerOfTwo, RingMargin.Reaches;
    var s0 := Ring.Init(cap, SafetyMargin(cap));
    RingMargin.StartReaches(cap, SafetyMargin(cap));
    es, r := RingMargin.Then(s0, [], s0, Ring.TakeWriter);
    es, r := RingMargin.Then(s0, es, r, Ring.NewReader(0, 0));
    es, r := PushUntil(s0, es, r, BACKLOG_SAMPLES);
  }

  /**
    The starving loop exists: on every ring whose safe window holds a block but not the backlog,
    a run from the empty ring leads to it, so no block is ever fed again.
  */
  lemma StarvationIsReachable(cap: nat)
    returns (ringRun: seq<Ring.Event>, s0: State, es: seq<Event>)
    requires IsPowerOfTwo(cap) && PCM_PULL_CHUNK <= SafePeekWindow(cap) < BACKLOG_SAMPLES
    ensures var start := Ring.Init(cap, SafetyMargin(cap));
      Ring.Schedule(start, ringRun) && s0.ring == Ring.Exec(start, ringRun)
    ensures Start(s0) && Schedule(s0, es)
    ensures Exec(s0, es).pc.Resyncing? && Starved(Exec(s0, es), BACKLOG_SAMPLES)
  {
    hide Slot, Exec, Schedule, Ring.Exec, Ring.Schedule, Ring.CellsInv, IsPowerOfTwo;
    var r, t;
    ringRun, r := FullBacklog(cap);
    Ring.InitInv(cap, SafetyMargin(cap));
    Ring.RunInv(Ring.Init(cap, SafetyMargin(cap)), ringRun);
    s0 := State(r, 0, OuterTop, true, 0, []);
    NoFeedsYet(s0);
    EmptyRun(s0);
    es, t := Extend(s0, [], s0, OuterCheck(false, 1));
    es, t := Extend(s0, es, t, Build(true));
    RunInv(s0, es);
  }

  /** Rings of 2048 and of 4096 samples are such rings. */
  lemma SmallRingsStarve()
    ensures forall cap :: cap in {2048, 4096} ==>
      IsPowerOfTwo(cap) && PCM_PULL_CHUNK <= SafePeekWindow(cap) < BACKLOG_SAMPLES
  {
    assert IsPowerOfTwo(16) && IsPowerOfTwo(128);
    assert IsPowerOfTwo(1024);
    assert IsPowerOfTwo(2048);
  }
}
