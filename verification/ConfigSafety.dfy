/** What every interleaving of the configuration protocol preserves. */
module ConfigSafety {
  import opened Wrappers
  import opened ConfigProtocol

  lemma {:induction false} FoldConcat<C>(start: C, a: seq<Edit<C>>, b: seq<Edit<C>>)
    ensures Fold(start, a + b) == Fold(Fold(start, a), b)
  {
    if b == [] {
      assert a + b == a;
    } else {
      FoldConcat(start, a, b[..|b| - 1]);
      assert (a + b)[..|a + b| - 1] == a + b[..|b| - 1];
    }
  }

  lemma FoldNothing<C>(start: C)
    ensures Fold(start, []) == start
  {
  }

  lemma FoldOneMore<C>(start: C, edits: seq<Edit<C>>, f: Edit<C>)
    ensures Fold(start, edits + [f]) == f(Fold(start, edits))
  {
    assert (edits + [f])[..|edits|] == edits;
  }

  // ---- Invariant ----

  /** Inside `mutate_then` or an open guard, from the flag being set to its being cleared. */
  predicate InCall<C>(pc: Pc<C>) {
    !pc.Idle? && !pc.ReloadWaiting? && !pc.ReloadLocked? && !pc.ReloadChecking? && !pc.ReloadStoring?
    && !pc.ReloadUnlocking?
  }

  ghost predicate DraftInv<C>(valid: C -> bool, cell: Cell<C>, pc: Pc<C>) {
    match pc
    case Mutating(d, _) => d.cfg == Fold(cell.mem, d.edits)
    case Open(d) => d.cfg == Fold(cell.mem, d.edits)
    case ToValidate(d) => d.cfg == Fold(cell.mem, d.edits)
    case ToWrite(d) => d.cfg == Fold(cell.mem, d.edits) && valid(d.cfg)
    case ToStore(d) => d.cfg == Fold(cell.mem, d.edits) && valid(d.cfg) && cell.disk == d.cfg
    case InHook(d) => d.cfg == cell.mem
    case ReloadChecking(_, text) => text == cell.mem
    case ReloadStoring(_, _) => false
    case _ => true
  }

  ghost predicate ThreadInv<C>(s: State<C>, t: nat)
    requires t in s.threads
  {
    var Thread(inMutate, pc, _) := s.threads[t];
    && !pc.NestedWait?
    && (inMutate <==> InCall(pc))
    && (AwaitedLock(pc).Some? ==> AwaitedLock(pc).value in s.cells)
    && (LockOf(pc).Some? ==>
          && LockOf(pc).value in s.cells
          && s.cells[LockOf(pc).value].owner == Some(t)
          && DraftInv(s.valid, s.cells[LockOf(pc).value], pc))
  }

  ghost predicate HistoryInv<C>(valid: C -> bool, cell: Cell<C>) {
    && cell.mem == Fold(cell.initial, cell.committed) && valid(cell.mem)
    && cell.published <= |cell.committed|
    && cell.runtime == Fold(cell.initial, cell.committed[..cell.published])
    && cell.reloads == 0
  }

  ghost predicate CellInv<C>(s: State<C>, c: nat)
    requires c in s.cells
  {
    var cell := s.cells[c];
    && HistoryInv(s.valid, cell)
    && (cell.owner.Some? ==>
          cell.owner.value in s.threads && LockOf(s.threads[cell.owner.value].pc) == Some(c))
    && (cell.disk == cell.mem || (cell.owner.Some? && s.threads[cell.owner.value].pc.ToStore?))
  }

  ghost predicate Inv<C>(s: State<C>) {
    && (forall t :: t in s.threads ==> ThreadInv(s, t))
    && (forall c :: c in s.cells ==> CellInv(s, c))
  }

  lemma StartInv<C>(s: State<C>)
    requires Start(s)
    ensures Inv(s)
  {
    forall c | c in s.cells ensures CellInv(s, c) {
      assert s.cells[c].committed[..0] == [];
    }
  }

  // ---- Preservation ----

  lemma OfThread<C>(s: State<C>, t: nat)
    requires Inv(s) && t in s.threads
    ensures ThreadInv(s, t)
  {
  }

  lemma OfCell<C>(s: State<C>, c: nat)
    requires Inv(s) && c in s.cells
    ensures CellInv(s, c)
  {
  }

  /** An event changes at most one cell: the one its thread has locked, or is locking. */
  lemma ChangedCell<C>(s: State<C>, e: Event<C>, c: nat)
    requires Inv(s) && Enabled(s, e) && c in CellStep(s, e)
    ensures c in s.cells
    ensures if e.Acquire? then s.cells[c].owner.None? && AwaitedLock(s.threads[e.t].pc) == Some(c)
            else LockOf(s.threads[e.t].pc) == Some(c) && s.cells[c].owner == Some(e.t)
  {
    hide Inv, DraftInv, HistoryInv, Fold, ThreadStep;
    OfThread(s, e.t);
  }

  /** The changed cell itself. */
  lemma ChangedCellHistory<C>(s: State<C>, e: Event<C>, c: nat)
    requires Inv(s) && Enabled(s, e) && c in CellStep(s, e)
    ensures HistoryInv(s.valid, CellStep(s, e)[c])
    ensures var cell := CellStep(s, e)[c];
      cell.disk == cell.mem || (cell.owner.Some? && e.Write?)
    ensures CellStep(s, e)[c].owner ==
      if e.Acquire? then Some(e.t) else if e.Unlock? then None else s.cells[c].owner
  {
    hide Fold, Inv;
    OfThread(s, e.t);
    ChangedCell(s, e, c);
    OfCell(s, c);
    var cell := s.cells[c];
    if e.Store? {
      var d := s.threads[e.t].pc.draft;
      FoldConcat(cell.initial, cell.committed, d.edits);
      assert (cell.committed + d.edits)[..cell.published] == cell.committed[..cell.published];
    } else if e.Hook? {
      assert cell.committed[..|cell.committed|] == cell.committed;
    }
  }

  /** The cell whose lock the stepping thread holds, or has just taken. */
  lemma HeldCellAfter<C>(s: State<C>, e: Event<C>)
    requires Inv(s) && Enabled(s, e) && !e.Unlock?
    ensures e.Acquire? ==>
      var c := AwaitedLock(s.threads[e.t].pc).value;
      c in s.cells && Apply(s, e).cells == s.cells[c := s.cells[c].(owner := Some(e.t))]
    ensures !e.Acquire? && LockOf(s.threads[e.t].pc).Some? ==>
      var pc := s.threads[e.t].pc;
      var c := LockOf(pc).value;
      && c in s.cells && s.cells[c].owner == Some(e.t)
      && var cell := Apply(s, e).cells[c];
      && cell.owner == Some(e.t)
      && (!e.StoreReload? ==> cell.mem == if e.Store? then pc.draft.cfg else s.cells[c].mem)
      && cell.disk == if e.Write? && e.ok then pc.draft.cfg else s.cells[c].disk
  {
    hide Inv, ThreadStep, DraftInv, CellStep, HistoryInv, Fold;
    OfThread(s, e.t);
    if e.Acquire? {
      AcquiredCell(s, e);
    } else if LockOf(s.threads[e.t].pc).Some? {
      var c := LockOf(s.threads[e.t].pc).value;
      HeldCellStep(s, e, c);
    }
  }

  lemma AcquiredCell<C>(s: State<C>, e: Event<C>)
    requires Enabled(s, e) && e.Acquire?
    ensures var c := AwaitedLock(s.threads[e.t].pc).value;
      CellStep(s, e) == map[c := s.cells[c].(owner := Some(e.t))]
  {
    hide ThreadStep;
  }

  /** What a step of the lock holder does to the cell. */
  lemma HeldCellStep<C>(s: State<C>, e: Event<C>, c: nat)
    requires Enabled(s, e) && !e.Acquire? && !e.Unlock? && LockOf(s.threads[e.t].pc) == Some(c)
    ensures var pc := s.threads[e.t].pc;
      var cell := if c in CellStep(s, e) then CellStep(s, e)[c] else s.cells[c];
      && cell.owner == s.cells[c].owner
      && (e.Store? ==> pc.ToStore?) && (e.Write? ==> pc.ToWrite?)
      && (!e.StoreReload? ==> cell.mem == if e.Store? then pc.draft.cfg else s.cells[c].mem)
      && cell.disk == if e.Write? && e.ok then pc.draft.cfg else s.cells[c].disk
  {
    hide ThreadStep;
  }

  lemma SameDomain<C>(s: State<C>, e: Event<C>, c: nat)
    requires Inv(s) && Enabled(s, e)
    ensures c in Apply(s, e).cells <==> c in s.cells
  {
    hide Inv, ThreadStep, CellStep;
    if c in CellStep(s, e) {
      ChangedCell(s, e, c);
    }
  }

  /** The stepping thread, against the cell it leaves behind. */
  lemma OwnThreadInv<C>(s: State<C>, e: Event<C>)
    requires Inv(s) && Enabled(s, e)
    ensures ThreadInv(Apply(s, e), e.t)
  {
    hide Inv, Enabled, ThreadStep, CellStep, DraftInv;
    StepsAlone(s, e);
    OwnFlag(s, e);
    OwnLock(s, e);
    if AwaitedLock(ThreadStep(s, e).pc).Some? {
      SameDomain(s, e, AwaitedLock(ThreadStep(s, e).pc).value);
    }
  }

  lemma StepsAlone<C>(s: State<C>, e: Event<C>)
    requires Enabled(s, e)
    ensures e.t in s.threads && Apply(s, e).threads == s.threads[e.t := ThreadStep(s, e)]
  {
    hide ThreadStep, CellStep;
  }

  /** The flag is up exactly inside a call, and what a thread waits for exists. */
  lemma OwnFlag<C>(s: State<C>, e: Event<C>)
    requires Inv(s) && Enabled(s, e)
    ensures var th := ThreadStep(s, e);
      && !th.pc.NestedWait? && (th.inMutate <==> InCall(th.pc))
      && (AwaitedLock(th.pc).Some? ==> AwaitedLock(th.pc).value in s.cells)
  {
    hide HistoryInv, Inv, Fold, CellStep, DraftInv;
    OfThread(s, e.t);
  }

  /** The cell whose lock the thread holds after the step belongs to it and suits its draft. */
  lemma OwnLock<C>(s: State<C>, e: Event<C>)
    requires Inv(s) && Enabled(s, e)
    ensures var s', pc := Apply(s, e), ThreadStep(s, e).pc;
      LockOf(pc).Some? ==>
        && LockOf(pc).value in s'.cells
        && s'.cells[LockOf(pc).value].owner == Some(e.t)
        && DraftInv(s'.valid, s'.cells[LockOf(pc).value], pc)
  {
    hide Inv, Enabled, ThreadStep, CellStep, DraftInv;
    StepsAlone(s, e);
    LockMoves(s, e);
    if !e.Unlock? && LockOf(ThreadStep(s, e).pc).Some? {
      HeldCellAfter(s, e);
      OwnDraft(s, e);
    }
  }

  /** After its step a thread's draft suits the cell it holds. */
  lemma OwnDraft<C>(s: State<C>, e: Event<C>)
    requires Inv(s) && Enabled(s, e) && !e.Unlock?
    requires LockOf(ThreadStep(s, e).pc).Some? && LockOf(ThreadStep(s, e).pc).value in Apply(s, e).cells
    ensures DraftInv(s.valid, Apply(s, e).cells[LockOf(ThreadStep(s, e).pc).value], ThreadStep(s, e).pc)
  {
    hide Inv, Enabled, ThreadStep, CellStep, DraftInv, Apply;
    if e.Clone? || e.RunMutator? || e.EditDraft? {
      EditedDraft(s, e);
    } else {
      CarriedDraft(s, e);
    }
  }

  /** Cloning starts a draft without edits, and user code adds one edit to it. */
  lemma EditedDraft<C>(s: State<C>, e: Event<C>)
    requires Inv(s) && Enabled(s, e) && (e.Clone? || e.RunMutator? || e.EditDraft?)
    requires LockOf(ThreadStep(s, e).pc).Some? && LockOf(ThreadStep(s, e).pc).value in Apply(s, e).cells
    ensures DraftInv(s.valid, Apply(s, e).cells[LockOf(ThreadStep(s, e).pc).value], ThreadStep(s, e).pc)
  {
    hide HistoryInv, Inv, Fold, InCall;
    OfThread(s, e.t);
    var pc := s.threads[e.t].pc;
    if e.Clone? {
      FoldNothing(s.cells[pc.c].mem);
    } else if e.RunMutator? {
      FoldOneMore(s.cells[pc.draft.c].mem, pc.draft.edits, pc.f);
    } else {
      FoldOneMore(s.cells[pc.draft.c].mem, pc.draft.edits, e.f);
    }
  }

  /** The protocol's own steps carry the draft on unchanged. */
  lemma CarriedDraft<C>(s: State<C>, e: Event<C>)
    requires Inv(s) && Enabled(s, e) && !e.Unlock? && !e.Clone? && !e.RunMutator? && !e.EditDraft?
    requires LockOf(ThreadStep(s, e).pc).Some? && LockOf(ThreadStep(s, e).pc).value in Apply(s, e).cells
    ensures DraftInv(s.valid, Apply(s, e).cells[LockOf(ThreadStep(s, e).pc).value], ThreadStep(s, e).pc)
  {
    hide HistoryInv, Inv, Fold, CellStep, InCall, Apply;
    OfThread(s, e.t);
    LockMoves(s, e);
    StepsAlone(s, e);
    HeldCellAfter(s, e);
    if LockOf(s.threads[e.t].pc).Some? {
      OfCell(s, LockOf(s.threads[e.t].pc).value);
    }
  }

  /** Other threads hold other locks, so what they rely on is untouched. */
  lemma OtherThreadInv<C>(s: State<C>, e: Event<C>, t: nat)
    requires Inv(s) && Enabled(s, e) && t in s.threads && t != e.t
    ensures ThreadInv(Apply(s, e), t)
  {
    hide CellStep, ThreadStep, DraftInv, HistoryInv, Enabled, Inv;
    OfThread(s, t);
    var s' := Apply(s, e);
    assert s'.threads[t] == s.threads[t];
    var pc := s.threads[t].pc;
    if LockOf(pc).Some? {
      var c := LockOf(pc).value;
      if c in CellStep(s, e) {
        ChangedCell(s, e, c);
        assert false;
      }
      assert s'.cells[c] == s.cells[c];
    }
  }

  /** How the lock a thread holds changes with its program counter. */
  lemma LockMoves<C>(s: State<C>, e: Event<C>)
    requires Inv(s) && Enabled(s, e)
    ensures var before, after := s.threads[e.t].pc, Apply(s, e).threads[e.t].pc;
      && (e.Acquire? ==> LockOf(before).None? && LockOf(after) == AwaitedLock(before))
      && (e.Unlock? ==> LockOf(before).Some? && LockOf(after).None?)
      && (!e.Acquire? && !e.Unlock? ==> LockOf(after) == LockOf(before))
      && (before.ToStore? ==> e.Store?)
      && (e.Write? && e.ok ==> after.ToStore?)
  {
    hide HistoryInv, DraftInv, CellStep, Fold, Inv, Apply;
    OfThread(s, e.t);
    StepsAlone(s, e);
    PcMoves(s, e);
  }

  lemma PcMoves<C>(s: State<C>, e: Event<C>)
    requires Enabled(s, e) && !s.threads[e.t].pc.NestedWait?
    requires s.threads[e.t].inMutate <==> InCall(s.threads[e.t].pc)
    ensures var before, after := s.threads[e.t].pc, ThreadStep(s, e).pc;
      && (e.Acquire? ==> LockOf(before).None? && LockOf(after) == AwaitedLock(before))
      && (e.Unlock? ==> LockOf(before).Some? && LockOf(after).None?)
      && (!e.Acquire? && !e.Unlock? ==> LockOf(after) == LockOf(before))
      && (before.ToStore? ==> e.Store?)
      && (e.Write? && e.ok ==> after.ToStore?)
  {
    hide CellStep, Fold;
  }

  lemma CellStepDomain<C>(s: State<C>, e: Event<C>)
    requires Inv(s) && Enabled(s, e)
    ensures e.Write? && CellStep(s, e) != map[] ==> e.ok
    ensures e.Acquire? ==> AwaitedLock(s.threads[e.t].pc).value in CellStep(s, e)
    ensures e.Unlock? || e.Store? ==> LockOf(s.threads[e.t].pc).value in CellStep(s, e)
  {
    hide Inv, ThreadStep, HistoryInv, DraftInv, Fold;
    OfThread(s, e.t);
  }

  lemma EveryCellInv<C>(s: State<C>, e: Event<C>, c: nat)
    requires Inv(s) && Enabled(s, e) && c in Apply(s, e).cells
    ensures c in s.cells && CellInv(Apply(s, e), c)
  {
    hide CellStep, ThreadStep, DraftInv, HistoryInv, Inv;
    var s' := Apply(s, e);
    LockMoves(s, e);
    CellStepDomain(s, e);
    OfThread(s, e.t);
    if c in CellStep(s, e) {
      ChangedCell(s, e, c);
      ChangedCellHistory(s, e, c);
      OfCell(s, c);
      assert s'.cells[c] == CellStep(s, e)[c];
    } else {
      assert s'.cells[c] == s.cells[c];
      OfCell(s, c);
    }
  }

  lemma StepInv<C>(s: State<C>, e: Event<C>)
    requires Inv(s) && Enabled(s, e)
    ensures Inv(Apply(s, e))
  {
    hide CellStep, ThreadStep, CellInv, ThreadInv;
    var s' := Apply(s, e);
    forall t | t in s'.threads ensures ThreadInv(s', t) {
      if t == e.t {
        OwnThreadInv(s, e);
      } else {
        OtherThreadInv(s, e, t);
      }
    }
    forall c | c in s'.cells ensures CellInv(s', c) {
      EveryCellInv(s, e, c);
    }
  }

  lemma {:induction false} RunInv<C>(s: State<C>, es: seq<Event<C>>)
    requires Inv(s) && Schedule(s, es)
    ensures Inv(Exec(s, es))
  {
    hide Enabled, Apply, Inv;
    if es != [] {
      RunInv(s, es[..|es| - 1]);
      StepInv(Exec(s, es[..|es| - 1]), es[|es| - 1]);
    }
  }
}
