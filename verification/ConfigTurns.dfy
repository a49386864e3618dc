/**
  Whole calls that one thread makes alone, from any reachable state: what `mutate_then` and an open
  guard do when nothing fails, and that a refused or rolled-back call leaves everything as it was.
*/
module ConfigTurns {
  import opened Wrappers
  import opened ConfigProtocol
  import opened ConfigSafety
  import opened ConfigRuns

  lemma Extend<C>(s: State<C>, es: seq<Event<C>>, now: State<C>, e: Event<C>)
    returns (es': seq<Event<C>>, now': State<C>)
    requires Schedule(s, es) && Exec(s, es) == now && Enabled(now, e)
    ensures Schedule(s, es') && Exec(s, es') == now' == Apply(now, e)
  {
    hide Enabled, Apply;
    es', now' := es + [e], Apply(now, e);
    assert es'[..|es'| - 1] == es;
  }

  /** `s` with one thread and one cell replaced. */
  function With<C>(s: State<C>, t: nat, th: Thread<C>, c: nat, cell: Cell<C>): State<C> {
    s.(cells := s.cells[c := cell], threads := s.threads[t := th])
  }

  /** `es` leads from `s` to `s` with thread `t` and cell `c` replaced. */
  ghost predicate Solo<C>(s: State<C>, es: seq<Event<C>>, t: nat, th: Thread<C>, c: nat, cell: Cell<C>) {
    && t in s.threads && c in s.cells
    && Schedule(s, es) && Exec(s, es) == With(s, t, th, c, cell)
  }

  /** One step of the only running thread. */
  lemma SoloStep<C>(s: State<C>, es: seq<Event<C>>, t: nat, th: Thread<C>, c: nat, cell: Cell<C>,
                    e: Event<C>, th': Thread<C>, cell': Cell<C>)
    returns (es': seq<Event<C>>)
    requires Solo(s, es, t, th, c, cell) && e.t == t
    requires var now := With(s, t, th, c, cell);
      && Enabled(now, e) && ThreadStep(now, e) == th'
      && (CellStep(now, e) == map[c := cell'] || (CellStep(now, e) == map[] && cell' == cell))
    ensures Solo(s, es', t, th', c, cell')
  {
    hide Enabled, ThreadStep, CellStep, Exec, Schedule;
    var now := With(s, t, th, c, cell);
    var now';
    es', now' := Extend(s, es, now, e);
    assert now'.cells == With(s, t, th', c, cell').cells;
    assert now'.threads == With(s, t, th', c, cell').threads;
  }

  /** Thread `t` is outside every call, and nobody holds the lock of `c`. */
  ghost predicate CanCall<C>(s: State<C>, t: nat, c: nat) {
    && t in s.threads && s.threads[t].pc.Idle? && !s.threads[t].inMutate
    && c in s.cells && s.cells[c].owner.None?
  }

  /** `t` inside a call, at `pc`, its last outcome as before. */
  function At<C>(s: State<C>, t: nat, pc: Pc<C>): Thread<C>
    requires t in s.threads
  {
    Thread(true, pc, s.threads[t].last)
  }

  lemma Started<C>(s: State<C>, t: nat, c: nat)
    requires t in s.threads && c in s.cells
    ensures Solo(s, [], t, s.threads[t], c, s.cells[c])
  {
    assert s.cells[c := s.cells[c]] == s.cells && s.threads[t := s.threads[t]] == s.threads;
  }

  /** Up to the lock and the clone of the configuration. */
  lemma UpToClone<C>(s: State<C>, t: nat, c: nat, mutator: Option<Edit<C>>) returns (es: seq<Event<C>>)
    requires CanCall(s, t, c)
    ensures var d := Draft(c, s.cells[c].mem, []);
      Solo(s, es, t, At(s, t, match mutator case Some(f) => Mutating(d, f) case None => Open(d)), c,
           s.cells[c].(owner := Some(t)))
  {
    hide Exec, Schedule, Fold, Solo;
    var free, held, d := s.cells[c], s.cells[c].(owner := Some(t)), Draft(c, s.cells[c].mem, []);
    var th0, th1, th2 := s.threads[t], At(s, t, Waiting(c, mutator)), At(s, t, Locked(c, mutator));
    var th3 := At(s, t, match mutator case Some(f) => Mutating(d, f) case None => Open(d));
    Started(s, t, c);
    es := SoloStep(s, [], t, th0, c, free, Call(t, c, mutator), th1, free);
    es := SoloStep(s, es, t, th1, c, free, Acquire(t), th2, held);
    es := SoloStep(s, es, t, th2, c, held, Clone(t), th3, held);
  }

  /** The cell with `edits` committed everywhere, `cfg` being what they make of it. */
  function CommittedEverywhere<C>(cell: Cell<C>, cfg: C, edits: seq<Edit<C>>): Cell<C> {
    cell.(disk := cfg, mem := cfg, runtime := cfg, committed := cell.committed + edits,
          published := |cell.committed| + |edits|)
  }

  /** From the validation of a valid draft to the hook. */
  lemma UpToHook<C>(s: State<C>, es: seq<Event<C>>, t: nat, c: nat, d: Draft<C>) returns (es': seq<Event<C>>)
    requires CanCall(s, t, c) && d.c == c && s.valid(d.cfg)
    requires Solo(s, es, t, At(s, t, ToValidate(d)), c, s.cells[c].(owner := Some(t)))
    ensures Solo(s, es', t, At(s, t, InHook(d)), c,
                 s.cells[c].(owner := Some(t), disk := d.cfg, mem := d.cfg, committed := s.cells[c].committed + d.edits))
  {
    hide Exec, Schedule, Fold, Solo;
    var held := s.cells[c].(owner := Some(t));
    var written := held.(disk := d.cfg);
    es' := SoloStep(s, es, t, At(s, t, ToValidate(d)), c, held, Validate(t), At(s, t, ToWrite(d)), held);
    es' := SoloStep(s, es', t, At(s, t, ToWrite(d)), c, held, Write(t, true), At(s, t, ToStore(d)), written);
    es' := SoloStep(s, es', t, At(s, t, ToStore(d)), c, written, Store(t), At(s, t, InHook(d)),
                    written.(mem := d.cfg, committed := held.committed + d.edits));
  }

  /** From the validation of a valid draft to the end of the call. */
  lemma CommitsAlone<C>(s: State<C>, es: seq<Event<C>>, t: nat, c: nat, d: Draft<C>) returns (es': seq<Event<C>>)
    requires CanCall(s, t, c) && d.c == c && s.valid(d.cfg)
    requires Solo(s, es, t, At(s, t, ToValidate(d)), c, s.cells[c].(owner := Some(t)))
    ensures Solo(s, es', t, Thread(false, Idle, Some(Committed)), c, CommittedEverywhere(s.cells[c], d.cfg, d.edits))
  {
    hide Exec, Schedule, Fold, Solo;
    var stored := s.cells[c].(owner := Some(t), disk := d.cfg, mem := d.cfg, committed := s.cells[c].committed + d.edits);
    var done := CommittedEverywhere(s.cells[c], d.cfg, d.edits);
    es' := UpToHook(s, es, t, c, d);
    es' := SoloStep(s, es', t, At(s, t, InHook(d)), c, stored, Hook(t, true),
                    At(s, t, Unlocking(c, Committed)), done.(owner := Some(t)));
    es' := Leaves(s, es', t, c, done, Committed);
  }

  /** Unlock and clear the flag. */
  lemma Leaves<C>(s: State<C>, es: seq<Event<C>>, t: nat, c: nat, done: Cell<C>, outcome: Outcome)
    returns (es': seq<Event<C>>)
    requires t in s.threads && done.owner.None?
    requires Solo(s, es, t, At(s, t, Unlocking(c, outcome)), c, done.(owner := Some(t)))
    ensures Solo(s, es', t, Thread(false, Idle, Some(outcome)), c, done)
  {
    hide Exec, Schedule, Fold;
    var held := done.(owner := Some(t));
    es' := SoloStep(s, es, t, At(s, t, Unlocking(c, outcome)), c, held, Unlock(t), At(s, t, Clearing(outcome)), done);
    es' := SoloStep(s, es', t, At(s, t, Clearing(outcome)), c, done,
                    ClearFlag(t), Thread(false, Idle, Some(outcome)), done);
  }

  /** The thread is outside every call and the lock of `c` is free, after a run from boot. */
  ghost predicate Ready<C>(s0: State<C>, before: seq<Event<C>>, s: State<C>, t: nat, c: nat) {
    && Start(s0) && Schedule(s0, before) && Exec(s0, before) == s
    && t in s.threads && s.threads[t].pc.Idle?
    && c in s.cells && s.cells[c].owner.None?
  }

  lemma ReadyCanCall<C>(s0: State<C>, before: seq<Event<C>>, s: State<C>, t: nat, c: nat)
    requires Ready(s0, before, s, t, c)
    ensures CanCall(s, t, c)
  {
    hide Exec, Schedule;
    FlagTracksTheCall(s0, before, t);
  }

  /**
    From any reachable state in which the thread is outside every call and the lock is free, a valid
    `mutate_then` run alone commits exactly its mutator, everywhere, and changes nothing else.
  */
  lemma MutateThenCommits<C>(s0: State<C>, before: seq<Event<C>>, s: State<C>, t: nat, c: nat, f: Edit<C>)
    returns (es: seq<Event<C>>)
    requires Ready(s0, before, s, t, c) && s.valid(f(s.cells[c].mem))
    ensures Schedule(s, es)
    ensures Exec(s, es) == s.(
      cells := s.cells[c := CommittedEverywhere(s.cells[c], f(s.cells[c].mem), [f])],
      threads := s.threads[t := Thread(false, Idle, Some(Committed))])
  {
    hide Exec, Schedule, Fold;
    ReadyCanCall(s0, before, s, t, c);
    var held, d := s.cells[c].(owner := Some(t)), Draft(c, s.cells[c].mem, []);
    es := UpToClone(s, t, c, Some(f));
    assert [] + [f] == [f];
    es := SoloStep(s, es, t, At(s, t, Mutating(d, f)), c, held, RunMutator(t), At(s, t, ToValidate(Edited(d, f))), held);
    es := CommitsAlone(s, es, t, c, Edited(d, f));
  }

  /** An open guard to which `edits` have been made one by one. */
  lemma {:induction false} UpToEdited<C>(s: State<C>, t: nat, c: nat, edits: seq<Edit<C>>) returns (es: seq<Event<C>>)
    requires CanCall(s, t, c)
    ensures Solo(s, es, t, At(s, t, Open(Draft(c, Fold(s.cells[c].mem, edits), edits))), c, s.cells[c].(owner := Some(t)))
    decreases |edits|
  {
    hide Exec, Schedule, Solo, Fold;
    var mem := s.cells[c].mem;
    if edits == [] {
      FoldNothing(mem);
      es := UpToClone(s, t, c, None);
    } else {
      var n := |edits| - 1;
      es := UpToEdited(s, t, c, edits[..n]);
      FoldOneMore(mem, edits[..n], edits[n]);
      assert edits[..n] + [edits[n]] == edits;
      var held := s.cells[c].(owner := Some(t));
      es := SoloStep(s, es, t, At(s, t, Open(Draft(c, Fold(mem, edits[..n]), edits[..n]))), c, held,
                     EditDraft(t, edits[n]), At(s, t, Open(Draft(c, Fold(mem, edits), edits))), held);
    }
  }

  /** A guard that makes `edits` and commits a valid result commits exactly them, everywhere. */
  lemma GuardCommits<C>(s0: State<C>, before: seq<Event<C>>, s: State<C>, t: nat, c: nat, edits: seq<Edit<C>>)
    returns (es: seq<Event<C>>)
    requires Ready(s0, before, s, t, c) && s.valid(Fold(s.cells[c].mem, edits))
    ensures Schedule(s, es)
    ensures Exec(s, es) == s.(
      cells := s.cells[c := CommittedEverywhere(s.cells[c], Fold(s.cells[c].mem, edits), edits)],
      threads := s.threads[t := Thread(false, Idle, Some(Committed))])
  {
    hide Exec, Schedule, Fold;
    ReadyCanCall(s0, before, s, t, c);
    var held, d := s.cells[c].(owner := Some(t)), Draft(c, Fold(s.cells[c].mem, edits), edits);
    es := UpToEdited(s, t, c, edits);
    es := SoloStep(s, es, t, At(s, t, Open(d)), c, held, Commit(t), At(s, t, ToValidate(d)), held);
    es := CommitsAlone(s, es, t, c, d);
  }

  /**
    A guard that makes `edits` and then rolls back, panics or fails validation changes nothing but the
    thread's last outcome.
  */
  lemma GuardLeavesNothing<C>(s0: State<C>, before: seq<Event<C>>, s: State<C>, t: nat, c: nat, edits: seq<Edit<C>>,
                              outcome: Outcome)
    returns (es: seq<Event<C>>)
    requires Ready(s0, before, s, t, c) && outcome in {RolledBack, Unwound, Invalid}
    requires outcome.Invalid? ==> !s.valid(Fold(s.cells[c].mem, edits))
    ensures Schedule(s, es)
    ensures Exec(s, es) == s.(threads := s.threads[t := Thread(false, Idle, Some(outcome))])
  {
    hide Exec, Schedule, Fold, Solo;
    ReadyCanCall(s0, before, s, t, c);
    var held, d := s.cells[c].(owner := Some(t)), Draft(c, Fold(s.cells[c].mem, edits), edits);
    var end := At(s, t, Unlocking(c, outcome));
    es := UpToEdited(s, t, c, edits);
    if outcome.RolledBack? {
      es := SoloStep(s, es, t, At(s, t, Open(d)), c, held, Rollback(t), end, held);
    } else if outcome.Unwound? {
      es := SoloStep(s, es, t, At(s, t, Open(d)), c, held, Panic(t), end, held);
    } else {
      es := SoloStep(s, es, t, At(s, t, Open(d)), c, held, Commit(t), At(s, t, ToValidate(d)), held);
      es := SoloStep(s, es, t, At(s, t, ToValidate(d)), c, held, Validate(t), end, held);
    }
    es := Leaves(s, es, t, c, s.cells[c], outcome);
    OnlyTheThread(s, es, t, Thread(false, Idle, Some(outcome)), c);
  }

  lemma OnlyTheThread<C>(s: State<C>, es: seq<Event<C>>, t: nat, th: Thread<C>, c: nat)
    requires c in s.cells && Solo(s, es, t, th, c, s.cells[c])
    ensures Schedule(s, es) && Exec(s, es) == s.(threads := s.threads[t := th])
  {
    hide Exec, Schedule;
    assert s.cells[c := s.cells[c]] == s.cells;
  }

  // ---- The reload worker ----

  lemma UpToFile<C>(s: State<C>, t: nat, c: nat) returns (es: seq<Event<C>>)
    requires CanCall(s, t, c)
    ensures Solo(s, es, t, s.threads[t].(pc := ReloadLocked(c)), c, s.cells[c].(owner := Some(t)))
  {
    hide Exec, Schedule, Fold, Solo;
    var th, cell := s.threads[t], s.cells[c];
    Started(s, t, c);
    es := SoloStep(s, [], t, th, c, cell, StartReload(t, c), th.(pc := ReloadWaiting(c)), cell);
    es := SoloStep(s, es, t, th.(pc := ReloadWaiting(c)), c, cell, Acquire(t), th.(pc := ReloadLocked(c)),
                   cell.(owner := Some(t)));
  }

  /** A file worth loading: it can be read, is valid, differs from the snapshot and is accepted. */
  predicate WorthLoading<C(==)>(s: State<C>, c: nat, readOk: bool, accepted: bool)
    requires c in s.cells
  {
    readOk && s.valid(s.cells[c].disk) && s.cells[c].disk != s.cells[c].mem && accepted
  }

  /** From the held lock to the unlock: the snapshot becomes the file, if that is worth loading. */
  lemma UpToReloaded<C>(s: State<C>, es: seq<Event<C>>, t: nat, c: nat, readOk: bool, accepted: bool)
    returns (es': seq<Event<C>>)
    requires CanCall(s, t, c)
    requires Solo(s, es, t, s.threads[t].(pc := ReloadLocked(c)), c, s.cells[c].(owner := Some(t)))
    ensures var held := s.cells[c].(owner := Some(t));
      Solo(s, es', t, s.threads[t].(pc := ReloadUnlocking(c)), c,
           if WorthLoading(s, c, readOk, accepted) then held.(mem := held.disk, reloads := held.reloads + 1) else held)
  {
    hide Exec, Schedule, Fold, Solo;
    var th, held := s.threads[t], s.cells[c].(owner := Some(t));
    if !readOk {
      es' := SoloStep(s, es, t, th.(pc := ReloadLocked(c)), c, held,
                      ReadFile(t, false), th.(pc := ReloadUnlocking(c)), held);
    } else {
      es' := SoloStep(s, es, t, th.(pc := ReloadLocked(c)), c, held,
                      ReadFile(t, true), th.(pc := ReloadChecking(c, held.disk)), held);
      if WorthLoading(s, c, readOk, accepted) {
        es' := Loads(s, es', t, c);
      } else {
        es' := SoloStep(s, es', t, th.(pc := ReloadChecking(c, held.disk)), c, held,
                        Compare(t, accepted), th.(pc := ReloadUnlocking(c)), held);
      }
    }
  }

  /** A file worth loading is stored. */
  lemma Loads<C>(s: State<C>, es: seq<Event<C>>, t: nat, c: nat) returns (es': seq<Event<C>>)
    requires CanCall(s, t, c) && WorthLoading(s, c, true, true)
    requires Solo(s, es, t, s.threads[t].(pc := ReloadChecking(c, s.cells[c].disk)), c, s.cells[c].(owner := Some(t)))
    ensures var held := s.cells[c].(owner := Some(t));
      Solo(s, es', t, s.threads[t].(pc := ReloadUnlocking(c)), c, held.(mem := held.disk, reloads := held.reloads + 1))
  {
    hide Exec, Schedule, Fold, Solo;
    var th, held := s.threads[t], s.cells[c].(owner := Some(t));
    var storing := th.(pc := ReloadStoring(c, held.disk));
    es' := SoloStep(s, es, t, th.(pc := ReloadChecking(c, held.disk)), c, held, Compare(t, true), storing, held);
    es' := SoloStep(s, es', t, storing, c, held, StoreReload(t), th.(pc := ReloadUnlocking(c)),
                    held.(mem := held.disk, reloads := held.reloads + 1));
  }

  /**
    A reload that runs alone, whatever is in the file: the snapshot becomes the file and the counter
    goes up exactly when the file can be read, is valid, differs from the snapshot and is accepted;
    otherwise the cell stays as it was.
  */
  lemma ReloadExactly<C>(s: State<C>, t: nat, c: nat, readOk: bool, accepted: bool) returns (es: seq<Event<C>>)
    requires CanCall(s, t, c)
    ensures Schedule(s, es)
    ensures var cell := s.cells[c];
      Exec(s, es) == s.(
        cells := s.cells[c := if WorthLoading(s, c, readOk, accepted)
                              then cell.(mem := cell.disk, reloads := cell.reloads + 1) else cell],
        threads := s.threads[t := s.threads[t].(pc := Idle, last := Some(Reloaded))])
  {
    hide Exec, Schedule, Fold;
    var th, cell := s.threads[t], s.cells[c];
    var after := if WorthLoading(s, c, readOk, accepted) then cell.(mem := cell.disk, reloads := cell.reloads + 1) else cell;
    es := UpToFile(s, t, c);
    es := UpToReloaded(s, es, t, c, readOk, accepted);
    es := SoloStep(s, es, t, th.(pc := ReloadUnlocking(c)), c, after.(owner := Some(t)), Unlock(t),
                   th.(pc := Idle, last := Some(Reloaded)), after);
  }
}
