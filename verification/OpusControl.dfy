/** When the Opus loop stops, fails, pauses, resumes and waits, over every run. */
module OpusControl {
  import opened Wrappers
  import opened RingIndex
  import opened Samples
  import opened AudioRing
  import opened OpusLoop
  import opened OpusRuns

  // ---- Stopping and failing ----

  /** A check that saw the shutdown flag, or a wake-up for shutdown or a closed channel. */
  predicate ToldToStop(e: Event) {
    match e
    case OuterCheck(shutdown, _) => shutdown
    case InnerCheck(shutdown, _) => shutdown
    case Unpark(wake) => wake == Shutdown || wake == ChannelClosed
    case WakeUp(wake) => wake == Shutdown || wake == ChannelClosed
    case _ => false
  }

  predicate EngineFails(e: Event) {
    e == Build(false) || e == ResetEngine(false) || e == FeedEngine(false)
  }

  /** One more event of a run. */
  lemma Step(s: State, es: seq<Event>)
    requires Schedule(s, es) && es != []
    ensures var front, e := es[..|es| - 1], es[|es| - 1];
      Schedule(s, front) && Enabled(Exec(s, front), e) && Exec(s, es) == Apply(Exec(s, front), e)
  {
    hide Enabled, Apply;
  }

  lemma EndsStep(s: State, e: Event)
    requires Enabled(s, e)
    ensures Apply(s, e).pc.Stopped? <==> s.pc.Stopped? || ToldToStop(e)
    ensures Apply(s, e).pc.Failed? <==> s.pc.Failed? || EngineFails(e)
    ensures Apply(s, e).epoch == s.epoch + if e == Build(true) || e == ResetEngine(true) then 1 else 0
    ensures Apply(s, e).me == s.me
  {
    hide Slot, Ring.Apply, Ring.Enabled;
  }

  /** The loop has stopped if and only if it was told to. */
  lemma {:induction false} StopsExactly(s: State, es: seq<Event>)
    requires Schedule(s, es) && !s.pc.Stopped?
    ensures Exec(s, es).pc.Stopped? <==> exists i :: 0 <= i < |es| && ToldToStop(es[i])
  {
    hide Schedule, Exec, Apply, Enabled, ToldToStop;
    if es == [] {
      EmptyRun(s);
    } else {
      Step(s, es);
      var front := es[..|es| - 1];
      StopsExactly(s, front);
      EndsStep(Exec(s, front), es[|es| - 1]);
      assert forall i :: 0 <= i < |front| ==> front[i] == es[i];
    }
  }

  /** The loop has failed if and only if the engine did. */
  lemma {:induction false} FailsExactly(s: State, es: seq<Event>)
    requires Schedule(s, es) && !s.pc.Failed?
    ensures Exec(s, es).pc.Failed? <==> exists i :: 0 <= i < |es| && EngineFails(es[i])
  {
    hide Schedule, Exec, Apply, Enabled, EngineFails;
    if es == [] {
      EmptyRun(s);
    } else {
      Step(s, es);
      var front := es[..|es| - 1];
      FailsExactly(s, front);
      EndsStep(Exec(s, front), es[|es| - 1]);
      assert forall i :: 0 <= i < |front| ==> front[i] == es[i];
    }
  }

  /** The engines built and reset in a run. */
  function Engines(es: seq<Event>): nat {
    if es == [] then 0
    else Engines(es[..|es| - 1]) + if es[|es| - 1] in [Build(true), ResetEngine(true)] then 1 else 0
  }

  lemma {:induction false} EpochsCountEngines(s: State, es: seq<Event>)
    requires Schedule(s, es)
    ensures Exec(s, es).epoch == s.epoch + Engines(es) && Exec(s, es).me == s.me
  {
    hide Schedule, Exec, Apply, Enabled;
    if es == [] {
      EmptyRun(s);
    } else {
      Step(s, es);
      EpochsCountEngines(s, es[..|es| - 1]);
      EndsStep(Exec(s, es[..|es| - 1]), es[|es| - 1]);
    }
  }

  // ---- Pausing and resuming ----

  predicate SawNobody(e: Event) { e == OuterCheck(false, 0) || e == InnerCheck(false, 0) }

  predicate SawSomebody(e: Event) {
    || (e.OuterCheck? && !e.shutdown && e.subscribers > 0)
    || (e.InnerCheck? && !e.shutdown && e.subscribers > 0)
  }

  lemma NobodyStep(s: State, e: Event)
    requires Enabled(s, e)
    ensures SawNobody(e) ==> Apply(s, e).pc.OuterTop? || Apply(s, e).pc.Parked?
    ensures s.pc in {OuterTop, Parked, Stopped} && !SawSomebody(e) ==>
      Apply(s, e).pc in {OuterTop, Parked, Stopped} && RingEvent(s, e) == (if e.Foreign? then [e.e] else [])
    ensures s.pc in {OuterTop, Parked, Stopped} || SawNobody(e) ==>
      Apply(s, e).feeds == s.feeds && Apply(s, e).epoch == s.epoch
  {
    hide Slot, Ring.Apply, Ring.Enabled;
  }

  /** From a check that saw no subscriber until one that sees one, no engine is built and nothing is fed. */
  lemma {:induction false} PausesWithoutSubscribers(s: State, es: seq<Event>, i: nat)
    requires Schedule(s, es) && i < |es| && SawNobody(es[i])
    requires forall k :: i < k < |es| ==> !SawSomebody(es[k])
    ensures Schedule(s, es[..i])
    ensures Exec(s, es).feeds == Exec(s, es[..i]).feeds && Exec(s, es).epoch == Exec(s, es[..i]).epoch
    ensures Exec(s, es).pc in {OuterTop, Parked, Stopped}
    decreases |es|
  {
    hide Schedule, Exec, Apply, Enabled, SawNobody, SawSomebody;
    Step(s, es);
    var front := es[..|es| - 1];
    NobodyStep(Exec(s, front), es[|es| - 1]);
    if i < |front| {
      PausesWithoutSubscribers(s, front, i);
      assert front[..i] == es[..i];
    }
  }

  /**
    From every reachable pause, a change of the subscriber count and a check that sees a subscriber
    lead to a new engine epoch; running on alone the loop then feeds its first block, the oldest of
    the backlog, provided that a block is published and the backlog fits the window.
  */
  lemma PauseEnds(s: State) returns (t: State, more: seq<Event>)
    requires Inv(s) && s.pc.Parked? && PCM_PULL_CHUNK <= SafePeekWindow(s.ring.cap)
    ensures var resume := [Unpark(CountChanged), OuterCheck(false, 1), Build(true)];
      && Schedule(s, resume) && Exec(s, resume) == t
      && t == s.(pc := Resyncing, epoch := s.epoch + 1)
    ensures 1024 <= s.ring.head && Behind(s.ring.head) <= SafePeekWindow(s.ring.cap) ==>
      && Schedule(t, more) && Alone(more)
      && var u := Exec(t, more);
      && |u.feeds| == |s.feeds| + 1 && u.feeds[|s.feeds|].epoch == s.epoch + 1
      && u.feeds[|s.feeds|].pos == if s.ring.head <= 4096 then 0 else s.ring.head - 4096
  {
    hide Slot, Exec, Schedule, Inv;
    EmptyRun(s);
    var es;
    es, t := Extend(s, [], s, Unpark(CountChanged));
    es, t := Extend(s, es, t, OuterCheck(false, 1));
    es, t := Extend(s, es, t, Build(true));
    assert es == [Unpark(CountChanged), OuterCheck(false, 1), Build(true)];
    RunInv(s, es);
    more := [];
    if PCM_PULL_CHUNK <= s.ring.head && Behind(s.ring.head) <= SafePeekWindow(s.ring.cap) {
      var u;
      more, u := ResyncFeedsABlock(t);
    }
  }

  // ---- Checks before peeks ----

  predicate BeforePeek(pc: Pc) { pc.Sleeping? || pc.ToPeek? }

  /** The events after which the loop goes through its inner check before it peeks. */
  predicate NeedsCheck(e: Event) { !e.Foreign? && !e.InnerCheck? && e != WakeUp(TimerFired) }

  lemma PeekStep(s: State, e: Event)
    requires Enabled(s, e)
    ensures NeedsCheck(e) ==> !BeforePeek(Apply(s, e).pc)
    ensures BeforePeek(Apply(s, e).pc) ==> BeforePeek(s.pc) || (e.InnerCheck? && SawSomebody(e))
    ensures e.StartPeek? ==> s.pc.ToPeek?
  {
    hide Slot, Ring.Apply, Ring.Enabled;
  }

  /**
    After a count change, a peek, a feed, a seek or an engine event, the loop never peeks before an
    inner check has seen neither shutdown nor an empty audience.
  */
  lemma {:induction false} CheckedBeforePeek(s: State, es: seq<Event>, i: nat) returns (k: nat)
    requires Schedule(s, es) && i < |es| && NeedsCheck(es[i]) && BeforePeek(Exec(s, es).pc)
    ensures i < k < |es| && es[k].InnerCheck? && SawSomebody(es[k])
    decreases |es|
  {
    hide Schedule, Exec, Apply, Enabled, SawSomebody, NeedsCheck, BeforePeek;
    Step(s, es);
    var front, e := es[..|es| - 1], es[|es| - 1];
    PeekStep(Exec(s, front), e);
    if BeforePeek(Exec(s, front).pc) && i < |front| {
      k := CheckedBeforePeek(s, front, i);
    } else {
      k := |front|;
    }
  }

  // ---- Waiting ----

  /** The status of the latest dispatched peek. */
  function LastStatus(s: State, es: seq<Event>): Option<ReadStatus>
    requires Schedule(s, es)
  {
    if es == [] then None
    else
      var before := Exec(s, es[..|es| - 1]);
      if es[|es| - 1].Dispatch? then Some(before.ring.readers[before.me].pc.status)
      else LastStatus(s, es[..|es| - 1])
  }

  lemma WaitedStep(s: State, e: Event)
    requires Enabled(s, e)
    ensures e.Dispatch? ==> s.me in s.ring.readers && s.ring.readers[s.me].pc.Returned?
    ensures Apply(s, e).waited == if e.Dispatch? then s.ring.readers[s.me].pc.status.Wait? else s.waited
  {
    hide Slot, Ring.Apply, Ring.Enabled;
  }

  lemma {:induction false} WaitedIsLastStatus(s: State, es: seq<Event>)
    requires Schedule(s, es) && s.waited
    ensures Exec(s, es).waited <==> LastStatus(s, es).None? || LastStatus(s, es).value.Wait?
  {
    hide Apply, Enabled;
    if es != [] {
      WaitedIsLastStatus(s, es[..|es| - 1]);
      WaitedStep(Exec(s, es[..|es| - 1]), es[|es| - 1]);
    }
  }

  /**
    With an audience the loop sleeps before its next peek if and only if the latest peek found too
    few samples, or none was made yet; otherwise it peeks again at once.
  */
  lemma NapsExactly(s: State, es: seq<Event>, subscribers: nat)
    requires Start(s) && Schedule(s, es) && subscribers > 0 && Enabled(Exec(s, es), InnerCheck(false, subscribers))
    ensures var status := LastStatus(s, es);
      Apply(Exec(s, es), InnerCheck(false, subscribers)).pc ==
        if status.None? || status.value.Wait? then Sleeping else ToPeek
  {
    hide Exec, Schedule, LastStatus;
    WaitedIsLastStatus(s, es);
  }

  // ---- Lag ----

  /** Between a lagged peek and the loop's inner top: before the seek, and between seek and reset. */
  predicate Recovering(s: State, sought: bool) { if sought then s.pc.LagReset? else s.pc.LagSeek? }

  lemma LagStep(s: State, e: Event)
    requires Enabled(s, e)
    ensures e.Dispatch? && s.ring.readers[s.me].pc.status.Lagged? ==> Recovering(Apply(s, e), false)
    ensures Recovering(s, false) ==> e.Foreign? || (e == SeekAfterLag && Recovering(Apply(s, e), true))
    ensures Recovering(s, true) ==> e.Foreign? || e.ResetEngine?
    ensures e.Foreign? ==> Apply(s, e).pc == s.pc
  {
    hide Slot, Ring.Apply, Ring.Enabled;
  }

  /** After a lagged peek the loop's next two events are the seek and the reset of its engine. */
  lemma {:induction false} LagIsRecovered(s: State, es: seq<Event>, i: nat)
    requires Schedule(s, es) && i < |es| && es[i] == Dispatch && Schedule(s, es[..i])
    requires var t := Exec(s, es[..i]);
      t.me in t.ring.readers && t.ring.readers[t.me].pc.Returned? && t.ring.readers[t.me].pc.status.Lagged?
    ensures var own := OwnEvents(es[i + 1..]);
      && (own == [] ==> Exec(s, es).pc.LagSeek?)
      && (own != [] ==> own[0] == SeekAfterLag)
      && (|own| == 1 ==> Exec(s, es).pc.LagReset?)
      && (|own| >= 2 ==> own[1].ResetEngine?)
    decreases |es|
  {
    hide Schedule, Exec, Apply, Enabled;
    Step(s, es);
    var front, e := es[..|es| - 1], es[|es| - 1];
    LagStep(Exec(s, front), e);
    if i < |front| {
      assert front[..i] == es[..i];
      LagIsRecovered(s, front, i);
      assert es[i + 1..][..|front| - i - 1] == front[i + 1..];
    } else {
      assert es[..i] == front && es[i + 1..] == [];
    }
  }

  /** The events of a run that are the loop's own. */
  function OwnEvents(es: seq<Event>): seq<Event> {
    if es == [] then []
    else OwnEvents(es[..|es| - 1]) + if es[|es| - 1].Foreign? then [] else [es[|es| - 1]]
  }
}
