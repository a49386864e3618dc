/** The guarantees of the configuration protocol, over every run from boot. */
module ConfigRuns {
  import opened Wrappers
  import opened ConfigProtocol
  import opened ConfigSafety

  // ---- No lost update ----

  lemma HistoryGrows<C>(s: State<C>, e: Event<C>, c: nat)
    requires Inv(s) && Enabled(s, e) && c in s.cells
    ensures c in Apply(s, e).cells
    ensures Apply(s, e).cells[c].initial == s.cells[c].initial
    ensures s.cells[c].committed <= Apply(s, e).cells[c].committed
  {
    hide Inv, ThreadStep, DraftInv;
    SameDomain(s, e, c);
    if c in CellStep(s, e) {
      ChangedCell(s, e, c);
    }
  }

  lemma {:induction false} HistoryKept<C>(s: State<C>, es: seq<Event<C>>, c: nat)
    requires Inv(s) && Schedule(s, es) && c in s.cells
    ensures c in Exec(s, es).cells
    ensures Exec(s, es).cells[c].initial == s.cells[c].initial
    ensures s.cells[c].committed <= Exec(s, es).cells[c].committed
  {
    hide Inv, Apply, Enabled;
    if es != [] {
      HistoryKept(s, es[..|es| - 1], c);
      RunInv(s, es[..|es| - 1]);
      HistoryGrows(Exec(s, es[..|es| - 1]), es[|es| - 1], c);
    }
  }

  /**
    The snapshot is always the boot configuration with every committed edit applied, in lock
    order; an edit once committed is never dropped from that fold by a later step.
  */
  lemma NoLostUpdate<C>(s: State<C>, es: seq<Event<C>>, more: seq<Event<C>>, c: nat)
    requires Start(s) && c in s.cells
    requires Schedule(s, es) && Schedule(Exec(s, es), more)
    ensures c in Exec(s, es).cells && c in Exec(Exec(s, es), more).cells
    ensures var cell, later := Exec(s, es).cells[c], Exec(Exec(s, es), more).cells[c];
      && cell.mem == Fold(s.cells[c].disk, cell.committed)
      && later.mem == Fold(s.cells[c].disk, later.committed)
      && cell.committed <= later.committed
  {
    hide Apply, Enabled, Inv, Schedule, Exec;
    StartInv(s);
    HistoryKept(s, es, c);
    RunInv(s, es);
    HistoryKept(Exec(s, es), more, c);
    RunInv(Exec(s, es), more);
    OfCell(Exec(s, es), c);
    OfCell(Exec(Exec(s, es), more), c);
  }

  // ---- Agreement of disk, memory and runtime ----

  /** Every commit's after-hook stored the configuration and none of them panicked. */
  ghost predicate HooksPublish<C>(s: State<C>, es: seq<Event<C>>)
    requires Schedule(s, es)
  {
    es != [] ==>
      var e := es[|es| - 1];
      && HooksPublish(s, es[..|es| - 1])
      && (e.Hook? ==> e.stores)
      && !(e.Panic? && Exec(s, es[..|es| - 1]).threads[e.t].pc.InHook?)
  }

  /** Commits are published except while the committer is still in its hook. */
  ghost predicate PublishInv<C>(s: State<C>, c: nat)
    requires c in s.cells
  {
    var cell := s.cells[c];
    cell.published == |cell.committed| ||
    (cell.owner.Some? && cell.owner.value in s.threads && s.threads[cell.owner.value].pc.InHook?)
  }

  lemma PublishStep<C>(s: State<C>, e: Event<C>, c: nat)
    requires Inv(s) && Enabled(s, e) && c in s.cells && PublishInv(s, c)
    requires (e.Hook? ==> e.stores) && !(e.Panic? && s.threads[e.t].pc.InHook?)
    ensures c in Apply(s, e).cells && PublishInv(Apply(s, e), c)
  {
    hide Inv, DraftInv, HistoryInv, Fold;
    SameDomain(s, e, c);
    OfThread(s, e.t);
    OfCell(s, c);
    if c in CellStep(s, e) {
      ChangedCell(s, e, c);
    }
    if s.threads[e.t].pc.InHook? {
      HookLeavesOnlyByHook(s, e);
    }
  }

  lemma HookLeavesOnlyByHook<C>(s: State<C>, e: Event<C>)
    requires Enabled(s, e) && s.threads[e.t].pc.InHook? && !e.Panic?
    ensures e.Hook? || Apply(s, e).threads[e.t].pc.InHook? || Apply(s, e).threads[e.t].pc.NestedWait?
  {
    hide CellStep;
  }

  lemma {:induction false} PublishRun<C>(s: State<C>, es: seq<Event<C>>, c: nat)
    requires Inv(s) && Schedule(s, es) && HooksPublish(s, es) && c in s.cells && PublishInv(s, c)
    ensures c in Exec(s, es).cells && PublishInv(Exec(s, es), c)
  {
    hide Inv, Apply, Enabled, PublishInv;
    if es != [] {
      PublishRun(s, es[..|es| - 1], c);
      RunInv(s, es[..|es| - 1]);
      PublishStep(Exec(s, es[..|es| - 1]), es[|es| - 1], c);
    }
  }

  /** Whenever a cell's lock is free, disk, memory and the runtime copy agree. */
  lemma FreeLockMeansAgreement<C>(s: State<C>, es: seq<Event<C>>, c: nat)
    requires Start(s) && Schedule(s, es) && c in s.cells
    ensures c in Exec(s, es).cells
    ensures var cell := Exec(s, es).cells[c];
      cell.owner.None? ==> cell.disk == cell.mem && (HooksPublish(s, es) ==> cell.runtime == cell.mem)
  {
    hide Apply, Enabled, Inv, Schedule, Exec;
    StartInv(s);
    HistoryKept(s, es, c);
    RunInv(s, es);
    OfCell(Exec(s, es), c);
    var cell := Exec(s, es).cells[c];
    assert cell.committed[..|cell.committed|] == cell.committed;
    if HooksPublish(s, es) {
      PublishRun(s, es, c);
    }
  }

  /**
    A crash at any point leaves on disk the last committed configuration, or the one that the
    lock holder has written and is about to commit; either way a valid one.
  */
  lemma CrashSafe<C>(s: State<C>, es: seq<Event<C>>, c: nat)
    requires Start(s) && Schedule(s, es) && c in s.cells
    ensures c in Exec(s, es).cells
    ensures var t := Exec(s, es);
      var cell := t.cells[c];
      && s.valid(cell.disk)
      && (cell.disk == Fold(cell.initial, cell.committed)
          || (cell.owner.Some? && cell.owner.value in t.threads
              && t.threads[cell.owner.value].pc.ToStore?
              && cell.disk == Fold(cell.initial, cell.committed + t.threads[cell.owner.value].pc.draft.edits)))
  {
    hide Apply, Enabled, Inv, Schedule, Exec, Fold;
    StartInv(s);
    HistoryKept(s, es, c);
    RunInv(s, es);
    SameValidator(s, es);
    var t := Exec(s, es);
    OfCell(t, c);
    var cell := t.cells[c];
    if cell.disk != cell.mem {
      OfThread(t, cell.owner.value);
      FoldConcat(cell.initial, cell.committed, t.threads[cell.owner.value].pc.draft.edits);
    }
  }

  lemma {:induction false} SameValidator<C>(s: State<C>, es: seq<Event<C>>)
    requires Schedule(s, es)
    ensures Exec(s, es).valid == s.valid && Exec(s, es).threads.Keys == s.threads.Keys
  {
    hide Enabled, CellStep, ThreadStep;
    if es != [] {
      SameValidator(s, es[..|es| - 1]);
      assert es[|es| - 1].t in Exec(s, es[..|es| - 1]).threads by { EnabledThread(Exec(s, es[..|es| - 1]), es[|es| - 1]); }
    }
  }

  lemma EnabledThread<C>(s: State<C>, e: Event<C>)
    requires Enabled(s, e)
    ensures e.t in s.threads
  {
  }

  /** Without outside edits the reload worker never finds anything to do. */
  lemma ReloadNeverFires<C>(s: State<C>, es: seq<Event<C>>, c: nat)
    requires Start(s) && Schedule(s, es) && c in s.cells
    ensures c in Exec(s, es).cells && Exec(s, es).cells[c].reloads == 0
    ensures forall t :: t in Exec(s, es).threads ==> !Exec(s, es).threads[t].pc.ReloadStoring?
  {
    hide Apply, Enabled, Inv, Schedule, Exec, Fold;
    StartInv(s);
    HistoryKept(s, es, c);
    RunInv(s, es);
    OfCell(Exec(s, es), c);
    forall t | t in Exec(s, es).threads ensures !Exec(s, es).threads[t].pc.ReloadStoring? {
      OfThread(Exec(s, es), t);
    }
  }

  // ---- Locks and flags ----

  /** What a thread that is not waiting and not idle can do next. */
  function Next<C>(t: nat, pc: Pc<C>): Event<C> {
    match pc
    case Locked(_, _) => Clone(t)
    case Mutating(_, _) => RunMutator(t)
    case Open(_) => Rollback(t)
    case ToValidate(_) => Validate(t)
    case ToWrite(_) => Write(t, true)
    case ToStore(_) => Store(t)
    case InHook(_) => Hook(t, true)
    case Unlocking(_, _) => Unlock(t)
    case ReloadLocked(_) => ReadFile(t, true)
    case ReloadChecking(_, _) => Compare(t, true)
    case ReloadUnlocking(_) => Unlock(t)
    case Clearing(_) => ClearFlag(t)
    case _ => Acquire(t)
  }

  /** No reachable state has a thread waiting for a lock while it holds one. */
  lemma WaitersHoldNothing<C>(s: State<C>, es: seq<Event<C>>, t: nat)
    requires Start(s) && Schedule(s, es) && t in Exec(s, es).threads
    ensures var pc := Exec(s, es).threads[t].pc;
      !pc.NestedWait? && (AwaitedLock(pc).Some? ==> LockOf(pc).None?)
  {
    hide Apply, Enabled, Inv, Schedule, Exec;
    StartInv(s);
    RunInv(s, es);
    OfThread(Exec(s, es), t);
  }

  lemma HolderCanStep<C>(s: State<C>, t: nat)
    requires Inv(s) && t in s.threads
    requires LockOf(s.threads[t].pc).Some? || s.threads[t].pc.Clearing?
    ensures Enabled(s, Next(t, s.threads[t].pc))
  {
    hide Inv, HistoryInv;
    OfThread(s, t);
  }

  /** As long as some thread is inside a call, some thread inside a call can take a step. */
  lemma NoDeadlock<C>(s: State<C>, es: seq<Event<C>>, t: nat) returns (e: Event<C>)
    requires Start(s) && Schedule(s, es)
    requires t in Exec(s, es).threads && !Exec(s, es).threads[t].pc.Idle?
    ensures Enabled(Exec(s, es), e) && !Exec(s, es).threads[e.t].pc.Idle?
  {
    hide Apply, Inv, Schedule, Exec, HistoryInv, DraftInv;
    StartInv(s);
    RunInv(s, es);
    var now := Exec(s, es);
    OfThread(now, t);
    var pc := now.threads[t].pc;
    if LockOf(pc).Some? || pc.Clearing? {
      HolderCanStep(now, t);
      e := Next(t, pc);
    } else {
      var c := AwaitedLock(pc).value;
      OfCell(now, c);
      if now.cells[c].owner.Some? {
        var u := now.cells[c].owner.value;
        HolderCanStep(now, u);
        e := Next(u, now.threads[u].pc);
      } else {
        e := Acquire(t);
      }
    }
  }

  /** The flag is up exactly inside a call: every way out of a call has taken it down. */
  lemma FlagTracksTheCall<C>(s: State<C>, es: seq<Event<C>>, t: nat)
    requires Start(s) && Schedule(s, es) && t in Exec(s, es).threads
    ensures Exec(s, es).threads[t].inMutate <==> InCall(Exec(s, es).threads[t].pc)
    ensures Exec(s, es).threads[t].pc.Idle? ==> !Exec(s, es).threads[t].inMutate
  {
    hide Apply, Enabled, Inv, Schedule, Exec;
    StartInv(s);
    RunInv(s, es);
    OfThread(Exec(s, es), t);
  }

  /** A call from inside a mutator, an open guard or a hook is rejected and changes nothing else. */
  lemma ReentryIsRejected<C>(s: State<C>, es: seq<Event<C>>, e: Event<C>)
    requires Start(s) && Schedule(s, es) && Enabled(Exec(s, es), e) && e.Call?
    ensures var now := Exec(s, es);
      var th := now.threads[e.t];
      Apply(now, e) == now.(threads := now.threads[e.t :=
        if InCall(th.pc) then th.(last := Some(Reentrant))
        else Thread(true, Waiting(e.c, e.mutator), th.last)])
  {
    hide Inv, Schedule, Exec;
    StartInv(s);
    RunInv(s, es);
    OfThread(Exec(s, es), e.t);
    assert Exec(s, es).cells + map[] == Exec(s, es).cells;
  }
}
