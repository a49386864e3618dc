/** What holds over every run of the training-job registry. */
module TrainingRuns {
  import opened Wrappers
  import opened TrainingProtocol

  predicate Possible(s: State, es: seq<Event>)
    decreases |es|
  {
    es != [] ==> Enabled(s, es[0]) && Possible(Apply(s, es[0]), es[1..])
  }

  function Run(s: State, es: seq<Event>): State
    requires Possible(s, es)
    decreases |es|
  {
    if es == [] then s else Run(Apply(s, es[0]), es[1..])
  }

  lemma {:induction false} RunInv(s: State, es: seq<Event>)
    requires Inv(s) && Possible(s, es)
    ensures Inv(Run(s, es))
    decreases |es|
  {
    hide Inv, Apply, Enabled;
    if es != [] {
      StepInv(s, es[0]);
      RunInv(Apply(s, es[0]), es[1..]);
    }
  }

  lemma ReachableInv(es: seq<Event>)
    requires Possible(START, es)
    ensures Inv(Run(START, es))
  {
    StartInv();
    RunInv(START, es);
  }

  /**
    At most one job is ever running, the single permit is held for it, and it is still in the
    map, where cancel and shutdown can find it.
  */
  lemma AtMostOneRuns(es: seq<Event>, a: nat, b: nat)
    requires Possible(START, es)
    requires IsRunning(Run(START, es), a) && IsRunning(Run(START, es), b)
    ensures a == b && HeldBy(Run(START, es), a) && a in Run(START, es).registered
  {
    ReachableInv(es);
    var s := Run(START, es);
    assert EntryInv(s, a) && EntryInv(s, b);
  }

  /** Over any stretch of a run outcomes are final, finish times fixed and set flags stay set. */
  lemma {:induction false} OutcomesAreFinal(s: State, es: seq<Event>)
    requires Inv(s) && Possible(s, es)
    ensures Evolves(s, Run(s, es))
    decreases |es|
  {
    hide Inv, Apply, Enabled, Evolves;
    if es == [] {
      NothingEvolves(s);
    } else {
      var s1 := Apply(s, es[0]);
      StepInv(s, es[0]);
      InvTasks(s);
      StepEvolves(s, es[0]);
      OutcomesAreFinal(s1, es[1..]);
      EvolvesOn(s, s1, Run(s1, es[1..]));
    }
  }

  lemma InvTasks(s: State)
    requires Inv(s)
    ensures TasksInv(s)
  {
  }

  lemma NothingEvolves(s: State)
    ensures Evolves(s, s)
  {
  }

  lemma EvolvesOn(s: State, s1: State, s2: State)
    requires Evolves(s, s1) && Evolves(s1, s2)
    ensures Evolves(s, s2)
  {
  }

  /** Whatever a reaper takes out of the map is over, and has been for at least its `maxAge`. */
  lemma ReaperTakesOnlyFinished(es: seq<Event>, t: nat, id: nat)
    requires Possible(START, es) && Enabled(Run(START, es), Remove(t, id))
    ensures var s, c := Run(START, es), CallOf(Run(START, es), t);
      && id in s.entries && !s.entries[id].state.Running? && s.entries[id].finishedAt.Some?
      && (c.maxAge == 0 || c.now >= s.entries[id].finishedAt.value + c.maxAge)
  {
    ReachableInv(es);
    assert CallInv(Run(START, es), CallOf(Run(START, es), t));
  }

  // ---- Where times, outcomes and flags come from ----

  function Ticks(es: seq<Event>): nat {
    if es == [] then 0 else Ticks(es[..|es| - 1]) + if es[|es| - 1].Tick? then 1 else 0
  }

  /** Nothing but a tick moves the clock. */
  lemma {:induction false} ClockCountsTicks(es: seq<Event>)
    requires Possible(START, es)
    ensures Run(START, es).clock == Ticks(es)
    decreases |es|
  {
    hide Apply, Enabled;
    if es != [] {
      Last(START, es);
      ClockCountsTicks(es[..|es| - 1]);
      ClockStep(Run(START, es[..|es| - 1]), es[|es| - 1]);
    }
  }

  lemma ClockStep(s: State, e: Event)
    requires Enabled(s, e)
    ensures Apply(s, e).clock == s.clock + if e.Tick? then 1 else 0
  {
  }

  /** The event publishes this outcome of job `id` at this state's time. */
  predicate Publishes(s: State, e: Event, id: nat, j: Job) {
    e == Publish(id, j.state) && j.finishedAt == Some(s.clock)
  }

  /** The event sets the flag of job `id`: a cancel that looked it up, or a walk that saw it running. */
  predicate RaisesFlag(s: State, e: Event, id: nat) {
    || (e.SetCancel? && CallOf(s, e.t) == LookedUp(id))
    || (e.SwapFlag? && CallOf(s, e.t).Decided? && CallOf(s, e.t).id == id)
  }

  lemma JobStep(s: State, e: Event, id: nat)
    requires Inv(s) && Enabled(s, e) && id in Apply(s, e).entries
    ensures var j := Apply(s, e).entries[id];
      && (id !in s.entries ==> e.Insert? && e.id == id && j == Job(Running, false, None))
      && (id in s.entries ==>
            && (if e.Publish? && e.id == id then Publishes(s, e, id, j)
                else j.state == s.entries[id].state && j.finishedAt == s.entries[id].finishedAt)
            && j.cancel == (s.entries[id].cancel || RaisesFlag(s, e, id)))
  {
    hide PermitInv, HolderInv, JobsInv, TasksInv, CallsInv, CountedInv;
  }

  /** A finished job has the outcome its task published, and the time at which it did. */
  lemma {:induction false} OutcomeWasPublished(es: seq<Event>, id: nat) returns (i: nat)
    requires Possible(START, es) && id in Run(START, es).entries && !Run(START, es).entries[id].state.Running?
    ensures i < |es| && Possible(START, es[..i])
    ensures Publishes(Run(START, es[..i]), es[i], id, Run(START, es).entries[id])
    decreases |es|
  {
    hide Inv, Apply, Enabled, Publishes;
    Last(START, es);
    var front, e := es[..|es| - 1], es[|es| - 1];
    ReachableInv(front);
    JobStep(Run(START, front), e, id);
    if e.Publish? && e.id == id {
      i := |front|;
    } else {
      i := OutcomeWasPublished(front, id);
      assert front[..i] == es[..i];
      SamePublishes(Run(START, es[..i]), es[i], id, Run(START, front).entries[id], Run(START, es).entries[id]);
    }
  }

  lemma SamePublishes(s: State, e: Event, id: nat, j: Job, j': Job)
    requires Publishes(s, e, id, j) && j.state == j'.state && j.finishedAt == j'.finishedAt
    ensures Publishes(s, e, id, j')
  {
  }

  /** A flag is up exactly when a cancel or a shutdown walk has raised it. */
  lemma {:induction false} FlagsExactly(es: seq<Event>, id: nat)
    requires Possible(START, es) && id in Run(START, es).entries
    ensures Run(START, es).entries[id].cancel <==>
      exists i :: 0 <= i < |es| && Possible(START, es[..i]) && RaisesFlag(Run(START, es[..i]), es[i], id)
    decreases |es|
  {
    hide Inv, Apply, Enabled, RaisesFlag;
    Last(START, es);
    var front, e := es[..|es| - 1], es[|es| - 1];
    ReachableInv(front);
    JobStep(Run(START, front), e, id);
    assert forall i :: 0 <= i < |front| ==> front[..i] == es[..i] && front[i] == es[i];
    if id in Run(START, front).entries {
      FlagsExactly(front, id);
    } else {
      forall i | 0 <= i < |es| && Possible(START, es[..i]) ensures !RaisesFlag(Run(START, es[..i]), es[i], id) {
        NothingToRaise(es, i, id);
      }
    }
  }

  /** Nobody raises the flag of a job before it is made. */
  lemma NothingToRaise(es: seq<Event>, i: nat, id: nat)
    requires Possible(START, es) && i < |es| && Possible(START, es[..i])
    requires Possible(START, es[..|es| - 1]) && id !in Run(START, es[..|es| - 1]).entries
    ensures !RaisesFlag(Run(START, es[..i]), es[i], id)
  {
    hide Apply, Enabled, Run, Possible;
    ReachableInv(es[..i]);
    JobsStay(es[..|es| - 1], i);
    assert es[..|es| - 1][..i] == es[..i];
    var s, e := Run(START, es[..i]), es[i];
    if e.SetCancel? || e.SwapFlag? {
      assert CallInv(s, CallOf(s, e.t));
    }
  }

  lemma {:induction false} JobsStay(es: seq<Event>, i: nat)
    requires Possible(START, es) && i <= |es|
    ensures Possible(START, es[..i]) && Run(START, es[..i]).entries.Keys <= Run(START, es).entries.Keys
    decreases |es|
  {
    hide Inv, Apply, Enabled;
    if i < |es| {
      Last(START, es);
      var front := es[..|es| - 1];
      JobsStay(front, i);
      assert front[..i] == es[..i];
      ReachableInv(front);
      InvTasks(Run(START, front));
      StepEvolves(Run(START, front), es[|es| - 1]);
    } else {
      assert es[..i] == es;
    }
  }

  /** A cancel call: it finds exactly the jobs still in the map, and sets the flag of the one it found. */
  lemma CancelExactly(s: State, t: nat, id: nat)
    requires Inv(s) && CallOf(s, t).Idle?
    ensures Enabled(s, Lookup(t, id))
    ensures id !in s.registered ==> Apply(s, Lookup(t, id)) == s
    ensures id in s.registered ==>
      var s1 := Apply(s, Lookup(t, id));
      && Enabled(s1, SetCancel(t))
      && Apply(s1, SetCancel(t)) ==
         s.(entries := s.entries[id := s.entries[id].(cancel := true)], calls := s.calls[t := Idle])
  {
    if id in s.registered {
      var s1 := Apply(s, Lookup(t, id));
      assert s1.calls[t := Idle] == s.calls[t := Idle];
    }
  }

  /** Over all shutdown calls together each job is counted at most once, and what is counted is stopped. */
  lemma CountedOnce(es: seq<Event>, k: nat, m: nat)
    requires Possible(START, es) && k < m < |Run(START, es).counted|
    ensures var s := Run(START, es);
      && s.counted[k] != s.counted[m]
      && s.counted[k] in s.entries && s.entries[s.counted[k]].cancel
  {
    ReachableInv(es);
  }

  // ---- What the shutdown calls return ----

  /** What a shutdown walk has counted so far. */
  function Counting(c: Call): nat {
    match c
    case Walking(_, _, n) => n
    case Decided(_, _, n, _) => n
    case _ => 0
  }

  /** The counts of the walks under way among callers below `b`. */
  function UnderWay(s: State, b: nat): nat {
    if b == 0 then 0 else UnderWay(s, b - 1) + Counting(CallOf(s, b - 1))
  }

  /** The sum of the numbers that shutdown calls have returned in a run. */
  function Returned(s: State, es: seq<Event>): nat
    requires Possible(s, es)
    decreases |es|
  {
    if es == [] then 0
    else
      Last(s, es);
      var front, e := es[..|es| - 1], es[|es| - 1];
      Returned(s, front) + if e.EndCancelAll? then Counting(CallOf(Run(s, front), e.t)) else 0
  }

  /** Only one caller's count changes in a step. */
  lemma {:induction false} UnderWayStep(s: State, e: Event, b: nat)
    requires Enabled(s, e)
    ensures UnderWay(Apply(s, e), b) == UnderWay(s, b) +
      if Mover(e).Some? && Mover(e).value < b
      then Counting(CallOf(Apply(s, e), Mover(e).value)) - Counting(CallOf(s, Mover(e).value)) else 0
  {
    hide Apply, Enabled, Counting;
    if b > 0 {
      UnderWayStep(s, e, b - 1);
      if Mover(e) != Some(b - 1) {
        OthersStay(s, e, b - 1);
      }
    }
  }

  /** A step either lists a job and counts it, or ends a walk with its count, or changes neither. */
  lemma CountStep(s: State, e: Event)
    requires Enabled(s, e)
    ensures var grown := |Apply(s, e).counted| - |s.counted|;
      match Mover(e)
      case None => grown == 0
      case Some(t) =>
        Counting(CallOf(Apply(s, e), t)) ==
          if e.EndCancelAll? then 0 else Counting(CallOf(s, t)) + grown
    ensures e.EndCancelAll? ==> Apply(s, e).counted == s.counted
  {
  }

  lemma CallsStay(s: State, e: Event)
    requires Enabled(s, e)
    ensures s.calls.Keys <= Apply(s, e).calls.Keys
  {
  }

  /**
    What the shutdown calls have returned, together with what the walks under way have counted, is
    the number of jobs counted, each of them once.
  */
  lemma {:induction false} ReturnedCountsAddUp(es: seq<Event>, b: nat)
    requires Possible(START, es) && forall t :: t in Run(START, es).calls ==> t < b
    ensures Returned(START, es) + UnderWay(Run(START, es), b) == |Run(START, es).counted|
    decreases |es|
  {
    hide Apply, Enabled, Counting;
    if es == [] {
      NobodyCounts(b);
    } else {
      Last(START, es);
      var front, e := es[..|es| - 1], es[|es| - 1];
      var s := Run(START, front);
      CallsStay(s, e);
      ReturnedCountsAddUp(front, b);
      UnderWayStep(s, e, b);
      CountStep(s, e);
      MoverIsKnown(s, e);
    }
  }

  lemma {:induction false} NobodyCounts(b: nat)
    ensures UnderWay(START, b) == 0
  {
    if b > 0 {
      NobodyCounts(b - 1);
    }
  }

  /** A caller whose count changes has made a call before, or makes one now. */
  lemma MoverIsKnown(s: State, e: Event)
    requires Enabled(s, e)
    ensures Mover(e).Some? && Counting(CallOf(Apply(s, e), Mover(e).value)) != Counting(CallOf(s, Mover(e).value)) ==>
      Mover(e).value in s.calls
    ensures e.EndCancelAll? ==> Mover(e) == Some(e.t) && e.t in s.calls
  {
  }

  lemma Begin() returns (es: seq<Event>)
    ensures Possible(START, es) && Run(START, es) == START
  {
    es := [];
  }

  /** One more event at the end of a run. */
  lemma Then(es: seq<Event>, e: Event) returns (more: seq<Event>)
    requires Possible(START, es) && Enabled(Run(START, es), e)
    ensures Possible(START, more) && Run(START, more) == Apply(Run(START, es), e)
  {
    more := es + [e];
    Snoc(START, es, e);
  }

  lemma {:induction false} Snoc(s: State, es: seq<Event>, e: Event)
    requires Possible(s, es) && Enabled(Run(s, es), e)
    ensures Possible(s, es + [e]) && Run(s, es + [e]) == Apply(Run(s, es), e)
    decreases |es|
  {
    hide Enabled, Apply;
    if es == [] {
      assert [e][1..] == [];
    } else {
      Snoc(Apply(s, es[0]), es[1..], e);
      assert (es + [e])[1..] == es[1..] + [e];
    }
  }

  /** The last event of a run. */
  lemma {:induction false} Last(s: State, es: seq<Event>)
    requires Possible(s, es) && es != []
    ensures var front, e := es[..|es| - 1], es[|es| - 1];
      Possible(s, front) && Enabled(Run(s, front), e) && Run(s, es) == Apply(Run(s, front), e)
    decreases |es|
  {
    hide Enabled, Apply;
    if |es| > 1 {
      Last(Apply(s, es[0]), es[1..]);
      assert es[1..][..|es| - 2] == es[..|es| - 1][1..];
    } else {
      assert es[..0] == [] && es[1..] == [];
    }
  }

  /** Every prefix of a run is a run, and the next event is enabled after it. */
  lemma {:induction false} PossiblePrefix(s: State, es: seq<Event>, j: nat)
    requires Possible(s, es) && j < |es|
    ensures Possible(s, es[..j]) && Enabled(Run(s, es[..j]), es[j])
    decreases |es|
  {
    hide Enabled, Apply;
    Last(s, es);
    if j < |es| - 1 {
      PossiblePrefix(s, es[..|es| - 1], j);
      assert es[..|es| - 1][..j] == es[..j];
    }
  }
}
