/** What a configuration call reports, against what it did, over every run from boot. */
module ConfigOutcomes {
  import opened Wrappers
  import opened ConfigProtocol
  import opened ConfigSafety
  import opened ConfigRuns

  lemma Step<C>(s: State<C>, es: seq<Event<C>>)
    requires Schedule(s, es) && es != []
    ensures var front, e := es[..|es| - 1], es[|es| - 1];
      Schedule(s, front) && Enabled(Exec(s, front), e) && Exec(s, es) == Apply(Exec(s, front), e)
  {
    hide Enabled, Apply;
  }

  /** The outcome a thread is about to report. */
  function Verdict<C>(pc: Pc<C>): Option<Outcome> {
    match pc
    case Unlocking(_, outcome) => Some(outcome)
    case Clearing(outcome) => Some(outcome)
    case _ => None
  }

  // ---- Whether the call changed the configuration ----

  /** The event begins a call that is let in. */
  predicate Begins<C>(s: State<C>, e: Event<C>) {
    e.Call? && e.t in s.threads && !s.threads[e.t].inMutate
  }

  /** Since its latest call began, `t` has swapped a new configuration in. */
  function Swapped<C(==)>(s: State<C>, es: seq<Event<C>>, t: nat): bool
    requires Schedule(s, es)
  {
    if es == [] then false
    else
      var front, e := es[..|es| - 1], es[|es| - 1];
      if e.t == t && Begins(Exec(s, front), e) then false
      else if e.t == t && e.Store? then true else Swapped(s, front, t)
  }

  /** Since its latest call began, `t`'s after-hook has panicked. */
  function HookPanicked<C(==)>(s: State<C>, es: seq<Event<C>>, t: nat): bool
    requires Schedule(s, es)
  {
    if es == [] then false
    else
      var front, e := es[..|es| - 1], es[|es| - 1];
      if e.t == t && Begins(Exec(s, front), e) then false
      else if e.t == t && e.Panic? && t in Exec(s, front).threads && Exec(s, front).threads[t].pc.InHook? then true
      else HookPanicked(s, front, t)
  }

  predicate PcSwapped<C>(pc: Pc<C>, swapped: bool, panicked: bool) {
    match pc
    case InHook(_) => swapped && !panicked
    case Unlocking(_, o) => (swapped <==> o.Committed? || (o.Unwound? && panicked)) && (panicked ==> o.Unwound?)
    case Clearing(o) => (swapped <==> o.Committed? || (o.Unwound? && panicked)) && (panicked ==> o.Unwound?)
    case Idle => true
    case ReloadWaiting(_) => true
    case ReloadLocked(_) => true
    case ReloadChecking(_, _) => true
    case ReloadStoring(_, _) => true
    case ReloadUnlocking(_) => true
    case _ => !swapped && !panicked
  }

  lemma SwappedStep<C>(s: State<C>, e: Event<C>, swapped: bool, panicked: bool)
    requires Enabled(s, e) && (s.threads[e.t].inMutate <==> InCall(s.threads[e.t].pc)) && !s.threads[e.t].pc.NestedWait?
    requires PcSwapped(s.threads[e.t].pc, swapped, panicked)
    ensures PcSwapped(ThreadStep(s, e).pc,
      !Begins(s, e) && (swapped || e.Store?), !Begins(s, e) && (panicked || (e.Panic? && s.threads[e.t].pc.InHook?)))
  {
    hide CellStep;
  }

  lemma {:induction false} SwappedRun<C>(s: State<C>, es: seq<Event<C>>, t: nat)
    requires Start(s) && Schedule(s, es) && t in Exec(s, es).threads
    ensures PcSwapped(Exec(s, es).threads[t].pc, Swapped(s, es, t), HookPanicked(s, es, t))
  {
    hide Apply, Enabled, Inv, ThreadStep, PcSwapped;
    if es == [] {
      NobodyHasSwapped(s, t);
    } else {
      Step(s, es);
      var front, e := es[..|es| - 1], es[|es| - 1];
      StartInv(s);
      RunInv(s, front);
      StepsAlone(Exec(s, front), e);
      SwappedRun(s, front, t);
      if e.t == t {
        OfThread(Exec(s, front), t);
        SwappedStep(Exec(s, front), e, Swapped(s, front, t), HookPanicked(s, front, t));
      }
    }
  }

  lemma NobodyHasSwapped<C>(s: State<C>, t: nat)
    requires Start(s) && t in s.threads
    ensures PcSwapped(s.threads[t].pc, false, false)
  {
  }

  /**
    When a call is about to return, it has swapped a new configuration in if and only if it reports a
    commit, or an unwinding that began in its after-hook.
  */
  lemma ReportIsTrue<C>(s: State<C>, es: seq<Event<C>>, t: nat)
    requires Start(s) && Schedule(s, es) && t in Exec(s, es).threads && Exec(s, es).threads[t].pc.Clearing?
    ensures var outcome := Exec(s, es).threads[t].pc.outcome;
      && (Swapped(s, es, t) <==> outcome.Committed? || (outcome.Unwound? && HookPanicked(s, es, t)))
      && Enabled(Exec(s, es), ClearFlag(t))
      && Apply(Exec(s, es), ClearFlag(t)) ==
         Exec(s, es).(threads := Exec(s, es).threads[t := Thread(false, Idle, Some(outcome))])
  {
    hide Exec, Schedule, Swapped, HookPanicked;
    SwappedRun(s, es, t);
    assert Exec(s, es).cells + map[] == Exec(s, es).cells;
  }

  // ---- Why a call ended as it did ----

  /** The event that settles a call's outcome, and what it met. */
  predicate Settles<C>(s: State<C>, e: Event<C>, outcome: Outcome) {
    && e.t in s.threads
    && match outcome
       case Committed => e.Hook?
       case Invalid => e.Validate? && s.threads[e.t].pc.ToValidate? && !s.valid(s.threads[e.t].pc.draft.cfg)
       case WriteFailed => e.Write? && !e.ok
       case RolledBack => e.Rollback?
       case Unwound => e.Panic?
       case _ => false
  }

  lemma VerdictStep<C>(s: State<C>, e: Event<C>)
    requires Enabled(s, e) && Verdict(ThreadStep(s, e).pc).Some?
    ensures Settles(s, e, Verdict(ThreadStep(s, e).pc).value)
         || (e.Unlock? && Verdict(s.threads[e.t].pc) == Verdict(ThreadStep(s, e).pc))
  {
    hide CellStep;
  }

  /** Every outcome was settled by the event that stands for it, and only the unlock came after that. */
  lemma {:induction false} OutcomeHasItsCause<C>(s: State<C>, es: seq<Event<C>>, t: nat) returns (i: nat)
    requires Start(s) && Schedule(s, es) && t in Exec(s, es).threads && Verdict(Exec(s, es).threads[t].pc).Some?
    ensures i < |es| && Schedule(s, es[..i])
    ensures es[i].t == t && Settles(Exec(s, es[..i]), es[i], Verdict(Exec(s, es).threads[t].pc).value)
    ensures forall k :: i < k < |es| && es[k].t == t ==> es[k].Unlock?
  {
    hide Apply, Enabled, ThreadStep, Settles, Verdict;
    if es == [] {
      NoVerdictYet(s, t);
      assert false;
    } else {
      Step(s, es);
      var front, e := es[..|es| - 1], es[|es| - 1];
      StepsAlone(Exec(s, front), e);
      if e.t == t {
        VerdictStep(Exec(s, front), e);
      }
      if e.t == t && Settles(Exec(s, front), e, Verdict(Exec(s, es).threads[t].pc).value) {
        i := |front|;
      } else {
        i := OutcomeHasItsCause(s, front, t);
        assert front[..i] == es[..i];
      }
    }
  }

  lemma NoVerdictYet<C>(s: State<C>, t: nat)
    requires Start(s) && t in s.threads
    ensures Verdict(s.threads[t].pc).None?
  {
  }
}
