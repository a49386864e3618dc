/**
  The Opus task's run loop as a client of the ring: pause, resume, lag recovery and the
  pull of 1024-sample blocks, interleaved at every atomic operation with the writer and
  with the other readers.  Subscriber counts, shutdown, timers and engine failures are
  inputs of the events and may take any value.
*/
module OpusLoop {
  import opened RingIndex
  import opened Samples
  import opened AudioRing
  import Ring = RingProtocol

  const PCM_PULL_CHUNK: nat := 1024
  const BACKLOG_SAMPLES: nat := 4096

  datatype Pc =
    | OuterTop | Parked | Building | Resyncing
    | InnerTop | Sleeping | ToPeek | InPeek
    | LagSeek | LagReset
    | ToAdvance | Feeding(pos: nat, block: seq<Sample>)
    | Stopped | Failed

  /** One block handed to the engine; `epoch` counts engine builds and resets. */
  datatype Fed = Fed(epoch: nat, pos: nat, block: seq<Sample>)

  datatype State = State(ring: Ring.State, me: nat, pc: Pc, waited: bool, epoch: nat, feeds: seq<Fed>)

  datatype Wake = Shutdown | ChannelClosed | CountChanged | TimerFired

  datatype Event =
    | Foreign(e: Ring.Event)                     // the writer or another reader
    | OuterCheck(shutdown: bool, subscribers: nat)
    | Unpark(wake: Wake)
    | Build(ok: bool)
    | ResyncSeek
    | InnerCheck(shutdown: bool, subscribers: nat)
    | WakeUp(wake: Wake)
    | StartPeek
    | CopyCell
    | Recheck
    | Dispatch
    | SeekAfterLag
    | ResetEngine(ok: bool)
    | AdvanceTail
    | FeedEngine(ok: bool)

  /** The ring operation an event performs, if any. */
  function RingEvent(s: State, e: Event): seq<Ring.Event> {
    match e
    case Foreign(re) => [re]
    case ResyncSeek => [Ring.SeekLatest(s.me, BACKLOG_SAMPLES)]
    case SeekAfterLag => [Ring.SeekLatest(s.me, BACKLOG_SAMPLES)]
    case StartPeek => [Ring.BeginPeek(s.me, PCM_PULL_CHUNK)]
    case CopyCell => [Ring.CopyCell(s.me)]
    case Recheck => [Ring.Recheck(s.me)]
    case AdvanceTail => [Ring.Advance(s.me, PCM_PULL_CHUNK)]
    case _ => []
  }

  predicate AtPc(s: State, e: Event) {
    match e
    case Foreign(re) => !(Ring.ReaderEvent(re) && re.r == s.me)
    case OuterCheck(_, _) => s.pc.OuterTop?
    case Unpark(wake) => s.pc.Parked? && !wake.TimerFired?
    case Build(_) => s.pc.Building?
    case ResyncSeek => s.pc.Resyncing?
    case InnerCheck(_, _) => s.pc.InnerTop?
    case WakeUp(_) => s.pc.Sleeping?
    case StartPeek => s.pc.ToPeek?
    case CopyCell => s.pc.InPeek?
    case Recheck => s.pc.InPeek?
    case Dispatch => s.pc.InPeek? && s.me in s.ring.readers && s.ring.readers[s.me].pc.Returned?
    case SeekAfterLag => s.pc.LagSeek?
    case ResetEngine(_) => s.pc.LagReset?
    case AdvanceTail => s.pc.ToAdvance? && s.me in s.ring.readers && s.ring.readers[s.me].pc.Returned?
    case FeedEngine(_) => s.pc.Feeding?
  }

  predicate Enabled(s: State, e: Event) {
    AtPc(s, e) && forall re :: re in RingEvent(s, e) ==> Ring.Enabled(s.ring, re)
  }

  function Apply(s: State, e: Event): State
    requires Enabled(s, e)
  {
    var ring := if RingEvent(s, e) == [] then s.ring else
      assert RingEvent(s, e)[0] in RingEvent(s, e);
      Ring.Apply(s.ring, RingEvent(s, e)[0]);
    var t := s.(ring := ring);
    match e
    case Foreign(_) => t
    case OuterCheck(shutdown, subscribers) =>
      t.(pc := if shutdown then Stopped else if subscribers == 0 then Parked else Building)
    case Unpark(wake) => t.(pc := if wake.CountChanged? then OuterTop else Stopped)
    case Build(ok) => if ok then t.(pc := Resyncing, epoch := s.epoch + 1) else t.(pc := Pc.Failed)
    case ResyncSeek => t.(pc := InnerTop)
    case InnerCheck(shutdown, subscribers) =>
      t.(pc := if shutdown then Stopped else if subscribers == 0 then OuterTop
               else if s.waited then Sleeping else ToPeek)
    case WakeUp(wake) =>
      t.(pc := if wake.TimerFired? then ToPeek else if wake.CountChanged? then InnerTop else Stopped)
    case StartPeek => t.(pc := InPeek)
    case CopyCell => t
    case Recheck => t
    case Dispatch =>
      var status := s.ring.readers[s.me].pc.status;
      t.(waited := status.Wait?,
         pc := if status.Wait? then InnerTop else if status.Lagged? then LagSeek else ToAdvance)
    case SeekAfterLag => t.(pc := LagReset)
    case ResetEngine(ok) => if ok then t.(pc := InnerTop, epoch := s.epoch + 1) else t.(pc := Pc.Failed)
    case AdvanceTail =>
      var rd := s.ring.readers[s.me];
      t.(pc := Feeding(rd.tail, rd.pc.out))
    case FeedEngine(ok) =>
      if ok then t.(pc := InnerTop, feeds := s.feeds + [Fed(s.epoch, s.pc.pos, s.pc.block)])
      else t.(pc := Pc.Failed)
  }

  predicate Schedule(s: State, es: seq<Event>)
    decreases |es|, 0
  {
    es == [] || (Schedule(s, es[..|es| - 1]) && Enabled(Exec(s, es[..|es| - 1]), es[|es| - 1]))
  }

  function Exec(s: State, es: seq<Event>): State
    requires Schedule(s, es)
    decreases |es|, 1
  {
    if es == [] then s else Apply(Exec(s, es[..|es| - 1]), es[|es| - 1])
  }

  /** The loop starts on a resting reader of a ring in any state its protocol allows. */
  ghost predicate Start(s: State) {
    && Ring.Inv(s.ring) && s.ring.maxPush <= SafetyMargin(s.ring.cap)
    && s.me in s.ring.readers && s.ring.readers[s.me].pc.Resting?
    && s.pc.OuterTop? && s.waited && s.epoch == 0 && s.feeds == []
  }

  // ---- Invariant ----

  ghost predicate FeedSound(ring: Ring.State, f: Fed) {
    && f.pos + PCM_PULL_CHUNK <= |ring.stream|
    && f.block == ring.stream[f.pos..f.pos + PCM_PULL_CHUNK]
  }

  /** Consecutive blocks of one engine epoch are adjacent in the stream. */
  ghost predicate FeedsAdjacent(feeds: seq<Fed>) {
    forall i :: 0 < i < |feeds| ==>
      && feeds[i - 1].epoch <= feeds[i].epoch
      && (feeds[i - 1].epoch == feeds[i].epoch ==> feeds[i].pos == feeds[i - 1].pos + PCM_PULL_CHUNK)
  }

  /** Position of the next block if the running engine has been fed already. */
  ghost predicate Continues(s: State, pos: nat) {
    s.feeds != [] && s.feeds[|s.feeds| - 1].epoch == s.epoch ==>
      pos == s.feeds[|s.feeds| - 1].pos + PCM_PULL_CHUNK
  }

  ghost predicate PcInv(s: State, rd: Ring.Reader) {
    match s.pc
    case InPeek =>
      (rd.pc.Copying? || rd.pc.Returned?) && rd.pc.n == PCM_PULL_CHUNK && Continues(s, rd.tail)
    case ToAdvance =>
      rd.pc.Returned? && rd.pc.status.Ready? && rd.pc.n == PCM_PULL_CHUNK && Continues(s, rd.tail)
    case Feeding(pos, block) =>
      && !rd.pc.Copying?
      && FeedSound(s.ring, Fed(s.epoch, pos, block)) && rd.tail == pos + PCM_PULL_CHUNK && Continues(s, pos)
    case InnerTop => !rd.pc.Copying? && Continues(s, rd.tail)
    case Sleeping => !rd.pc.Copying? && Continues(s, rd.tail)
    case ToPeek => !rd.pc.Copying? && Continues(s, rd.tail)
    case Resyncing => !rd.pc.Copying? && (s.feeds != [] ==> s.feeds[|s.feeds| - 1].epoch < s.epoch)
    case _ => !rd.pc.Copying?
  }

  ghost predicate Inv(s: State) {
    && Ring.Inv(s.ring) && s.ring.maxPush <= SafetyMargin(s.ring.cap)
    && s.me in s.ring.readers && !s.ring.readers[s.me].pc.Panicked?
    && PcInv(s, s.ring.readers[s.me])
    && (forall i :: 0 <= i < |s.feeds| ==> FeedSound(s.ring, s.feeds[i]) && s.feeds[i].epoch <= s.epoch)
    && FeedsAdjacent(s.feeds)
  }

  lemma RingStep(s: State, e: Event)
    requires Inv(s) && Enabled(s, e)
    ensures Ring.Inv(Apply(s, e).ring)
    ensures s.ring.stream <= Apply(s, e).ring.stream
    ensures Apply(s, e).ring.cap == s.ring.cap && Apply(s, e).ring.maxPush == s.ring.maxPush
    ensures s.me in Apply(s, e).ring.readers
    ensures RingEvent(s, e) == [] || e.Foreign? ==>
      Apply(s, e).ring.readers[s.me] == s.ring.readers[s.me]
  {
    hide Slot, Ring.Inv;
    if RingEvent(s, e) != [] {
      assert RingEvent(s, e)[0] in RingEvent(s, e);
      Ring.StepInv(s.ring, RingEvent(s, e)[0]);
    }
  }

  /** The loop's own reader after one of its ring operations. */
  lemma OwnReaderStep(s: State, e: Event)
    requires Inv(s) && Enabled(s, e) && RingEvent(s, e) != [] && !e.Foreign?
    ensures var re := RingEvent(s, e)[0];
      && Ring.Enabled(s.ring, re)
      && Apply(s, e).ring == s.ring.(readers :=
           s.ring.readers[s.me := Ring.ReaderStep(s.ring, s.ring.readers[s.me], re)])
      && Ring.ReaderInv(Apply(s, e).ring, Apply(s, e).ring.readers[s.me])
      && Ring.ReaderInv(s.ring, s.ring.readers[s.me])
  {
    hide Slot, Ring.ReaderInv, PcInv, Ring.CellsInv;
    assert RingEvent(s, e)[0] in RingEvent(s, e);
    RingStep(s, e);
  }

  /** Steps that load or store shared memory for the loop. */
  lemma OwnStepPcInv(s: State, e: Event)
    requires Inv(s) && Enabled(s, e) && RingEvent(s, e) != [] && !e.Foreign?
    requires PCM_PULL_CHUNK <= SafePeekWindow(s.ring.cap)
    ensures PcInv(Apply(s, e), Apply(s, e).ring.readers[s.me])
    ensures !Apply(s, e).ring.readers[s.me].pc.Panicked?
  {
    hide Slot, Ring.Inv, Ring.Apply, Ring.Enabled, FeedsAdjacent;
    OwnReaderStep(s, e);
  }

  /** A step of the writer or another reader moves only the ring. */
  lemma ForeignStepPcInv(s: State, e: Event)
    requires Inv(s) && Enabled(s, e) && e.Foreign?
    ensures PcInv(Apply(s, e), Apply(s, e).ring.readers[s.me])
  {
    hide Slot, Ring.Inv, Ring.Apply, Ring.Enabled, FeedsAdjacent, Apply, Enabled;
    RingStep(s, e);
    ForeignLeavesLoop(s, e);
  }

  lemma ForeignLeavesLoop(s: State, e: Event)
    requires Enabled(s, e) && e.Foreign?
    ensures Apply(s, e) == s.(ring := Apply(s, e).ring)
  {
    hide Ring.Apply, Ring.Enabled;
  }

  /** A step without a ring operation leaves the loop's reader alone. */
  lemma LocalStepPcInv(s: State, e: Event)
    requires Inv(s) && Enabled(s, e) && RingEvent(s, e) == []
    ensures PcInv(Apply(s, e), Apply(s, e).ring.readers[s.me])
  {
    hide Inv, PcInv, Apply, Enabled;
    if e.Build? || e.ResetEngine? || e.FeedEngine? {
      EngineStepPcInv(s, e);
    } else {
      ControlStepPcInv(s, e);
    }
  }

  lemma EngineStepPcInv(s: State, e: Event)
    requires Inv(s) && Enabled(s, e) && (e.Build? || e.ResetEngine? || e.FeedEngine?)
    ensures s.me in Apply(s, e).ring.readers
    ensures PcInv(Apply(s, e), Apply(s, e).ring.readers[s.me])
  {
    hide Slot, Ring.Inv, Ring.Apply, Ring.Enabled, FeedsAdjacent, FeedSound;
    NoRingStep(s, e);
  }

  lemma ControlStepPcInv(s: State, e: Event)
    requires Inv(s) && Enabled(s, e) && RingEvent(s, e) == []
    requires !e.Build? && !e.ResetEngine? && !e.FeedEngine?
    ensures s.me in Apply(s, e).ring.readers
    ensures PcInv(Apply(s, e), Apply(s, e).ring.readers[s.me])
  {
    hide Slot, Ring.Inv, Ring.Apply, Ring.Enabled, FeedsAdjacent, FeedSound, Ring.ReaderInv;
    NoRingStep(s, e);
  }

  lemma NoRingStep(s: State, e: Event)
    requires Enabled(s, e) && RingEvent(s, e) == []
    ensures Apply(s, e).ring == s.ring
  {
    hide Ring.Apply, Ring.Enabled;
  }

  lemma FeedStaysSound(ring: Ring.State, ring': Ring.State, f: Fed)
    requires FeedSound(ring, f) && ring.stream <= ring'.stream
    ensures FeedSound(ring', f)
  {
  }

  lemma FeedsAfter(s: State, e: Event)
    requires Enabled(s, e)
    ensures Apply(s, e).epoch >= s.epoch
    ensures Apply(s, e).feeds == if e.FeedEngine? && e.ok
      then s.feeds + [Fed(s.epoch, s.pc.pos, s.pc.block)] else s.feeds
  {
    hide Slot, Ring.Apply, Ring.Enabled;
  }

  lemma FeedsStepInv(s: State, e: Event)
    requires Inv(s) && Enabled(s, e)
    ensures FeedsAdjacent(Apply(s, e).feeds)
    ensures forall i :: 0 <= i < |Apply(s, e).feeds| ==>
      FeedSound(Apply(s, e).ring, Apply(s, e).feeds[i]) && Apply(s, e).feeds[i].epoch <= Apply(s, e).epoch
  {
    hide Slot, Ring.Inv, Apply, FeedSound, Ring.Enabled;
    RingStep(s, e);
    FeedsAfter(s, e);
    var s' := Apply(s, e);
    forall i | 0 <= i < |s'.feeds| ensures FeedSound(s'.ring, s'.feeds[i]) && s'.feeds[i].epoch <= s'.epoch {
      FeedStaysSound(s.ring, s'.ring, s'.feeds[i]);
    }
  }

  lemma StepInv(s: State, e: Event)
    requires Inv(s) && Enabled(s, e) && PCM_PULL_CHUNK <= SafePeekWindow(s.ring.cap)
    ensures Inv(Apply(s, e))
  {
    hide Slot, Ring.Inv, PcInv, FeedsAdjacent, FeedSound, Enabled;
    RingStep(s, e);
    FeedsStepInv(s, e);
    if e.Foreign? {
      ForeignStepPcInv(s, e);
    } else if RingEvent(s, e) == [] {
      LocalStepPcInv(s, e);
    } else {
      OwnStepPcInv(s, e);
    }
  }

  lemma {:induction false} RunInv(s: State, es: seq<Event>)
    requires Inv(s) && Schedule(s, es) && PCM_PULL_CHUNK <= SafePeekWindow(s.ring.cap)
    ensures Inv(Exec(s, es)) && Exec(s, es).ring.cap == s.ring.cap && Exec(s, es).me == s.me
  {
    hide Slot, Enabled, Inv, Apply;
    if es != [] {
      RunInv(s, es[..|es| - 1]);
      var t := Exec(s, es[..|es| - 1]);
      StepInv(t, es[|es| - 1]);
      RingStep(t, es[|es| - 1]);
      SameReader(t, es[|es| - 1]);
    }
  }

  lemma SameReader(s: State, e: Event)
    requires Enabled(s, e)
    ensures Apply(s, e).me == s.me
  {
    hide Slot, Ring.Apply, Ring.Enabled;
  }
}
