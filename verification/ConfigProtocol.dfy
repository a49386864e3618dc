/**
  The configuration transactions of any number of cells under any interleaving of threads:
  `mutate_then`, `open_mutation` / `commit` / `rollback`, and the reload worker.  One event is
  one lock operation, one access to shared state, one disk write or one piece of user
  code.  Validation is a parameter; disk writes, file reads and user callbacks may fail
  or panic whenever an event says so.  Nobody else edits the file.
*/
module ConfigProtocol {
  import opened Wrappers

  type Edit<!C> = C -> C

  /** The configuration that results from applying `edits` in order. */
  function Fold<C>(start: C, edits: seq<Edit<C>>): C {
    if edits == [] then start else edits[|edits| - 1](Fold(start, edits[..|edits| - 1]))
  }

  /**
    `initial`, `committed` and `published` are history: the configuration at boot, the edits
    committed since in lock order, and how many of them the runtime copy reflects.
  */
  datatype Cell<!C> = Cell(
    disk: C, mem: C, runtime: C, owner: Option<nat>,
    initial: C, committed: seq<Edit<C>>, published: nat, reloads: nat)

  /** Work on the clone `cfg` of cell `c`, to which `edits` have been applied. */
  datatype Draft<!C> = Draft(c: nat, cfg: C, edits: seq<Edit<C>>)

  datatype Outcome = Committed | Invalid | WriteFailed | RolledBack | Unwound | Reentrant | Reloaded

  datatype Pc<!C> =
    | Idle
    | Waiting(c: nat, mutator: Option<Edit<C>>)     // None: open_mutation
    | Locked(c: nat, mutator: Option<Edit<C>>)
    | Mutating(draft: Draft<C>, f: Edit<C>)         // mutate_then, about to run its mutator
    | Open(draft: Draft<C>)                         // a guard in the caller's hands
    | ToValidate(draft: Draft<C>)
    | ToWrite(draft: Draft<C>)
    | ToStore(draft: Draft<C>)
    | InHook(draft: Draft<C>)
    | Unlocking(c: nat, outcome: Outcome)
    | Clearing(outcome: Outcome)
    | NestedWait(c: nat)                            // blocked on a lock from inside user code
    | ReloadWaiting(c: nat)
    | ReloadLocked(c: nat)
    | ReloadChecking(c: nat, text: C)
    | ReloadStoring(c: nat, text: C)
    | ReloadUnlocking(c: nat)

  /** `inMutate` is the thread-local re-entrancy flag. */
  datatype Thread<!C> = Thread(inMutate: bool, pc: Pc<C>, last: Option<Outcome>)

  datatype State<!C> = State(valid: C -> bool, cells: map<nat, Cell<C>>, threads: map<nat, Thread<C>>)

  datatype Event<!C> =
    | Call(t: nat, c: nat, mutator: Option<Edit<C>>)
    | Acquire(t: nat)
    | Clone(t: nat)
    | RunMutator(t: nat)
    | EditDraft(t: nat, f: Edit<C>)
    | Commit(t: nat)
    | Rollback(t: nat)
    | Panic(t: nat)
    | Validate(t: nat)
    | Write(t: nat, ok: bool)
    | Store(t: nat)
    | Hook(t: nat, stores: bool)
    | Unlock(t: nat)
    | ClearFlag(t: nat)
    | StartReload(t: nat, c: nat)
    | ReadFile(t: nat, ok: bool)
    | Compare(t: nat, accepted: bool)
    | StoreReload(t: nat)

  /** The cell whose mutate lock a thread at this point holds. */
  function LockOf<C>(pc: Pc<C>): Option<nat> {
    match pc
    case Locked(c, _) => Some(c)
    case Mutating(d, _) => Some(d.c)
    case Open(d) => Some(d.c)
    case ToValidate(d) => Some(d.c)
    case ToWrite(d) => Some(d.c)
    case ToStore(d) => Some(d.c)
    case InHook(d) => Some(d.c)
    case Unlocking(c, _) => Some(c)
    case ReloadLocked(c) => Some(c)
    case ReloadChecking(c, _) => Some(c)
    case ReloadStoring(c, _) => Some(c)
    case ReloadUnlocking(c) => Some(c)
    case _ => None
  }

  /** The cell whose lock a thread at this point waits for. */
  function AwaitedLock<C>(pc: Pc<C>): Option<nat> {
    match pc
    case Waiting(c, _) => Some(c)
    case ReloadWaiting(c) => Some(c)
    case NestedWait(c) => Some(c)
    case _ => None
  }

  /** User code is running, and may call back into the configuration. */
  predicate InUserCode<C>(pc: Pc<C>) {
    pc.Idle? || pc.Mutating? || pc.Open? || pc.InHook?
  }

  predicate PcAllows<C>(pc: Pc<C>, e: Event<C>) {
    match e
    case Call(_, _, _) => InUserCode(pc)
    case Acquire(_) => AwaitedLock(pc).Some? && !pc.NestedWait?
    case Clone(_) => pc.Locked?
    case RunMutator(_) => pc.Mutating?
    case EditDraft(_, _) => pc.Open?
    case Commit(_) => pc.Open?
    case Rollback(_) => pc.Open?
    case Panic(_) => pc.Mutating? || pc.Open? || pc.InHook?
    case Validate(_) => pc.ToValidate?
    case Write(_, _) => pc.ToWrite?
    case Store(_) => pc.ToStore?
    case Hook(_, _) => pc.InHook?
    case Unlock(_) => pc.Unlocking? || pc.ReloadUnlocking?
    case ClearFlag(_) => pc.Clearing?
    case StartReload(_, _) => pc.Idle?
    case ReadFile(_, _) => pc.ReloadLocked?
    case Compare(_, _) => pc.ReloadChecking?
    case StoreReload(_) => pc.ReloadStoring?
  }

  predicate Enabled<C>(s: State<C>, e: Event<C>) {
    && e.t in s.threads
    && PcAllows(s.threads[e.t].pc, e)
    && (e.Call? || e.StartReload? ==> e.c in s.cells)
    && (LockOf(s.threads[e.t].pc).Some? ==> LockOf(s.threads[e.t].pc).value in s.cells)
    && (e.Acquire? ==>
          var c := AwaitedLock(s.threads[e.t].pc).value;
          c in s.cells && s.cells[c].owner.None?)
  }

  /** The thread's own state after an event, given the cell it works on. */
  function ThreadStep<C(==)>(s: State<C>, e: Event<C>): Thread<C>
    requires Enabled(s, e)
  {
    var th := s.threads[e.t];
    match e
    case Call(_, c, mutator) =>
      // The flag is swapped to true; a value that was already true means re-entry.
      if th.inMutate then th.(last := Some(Reentrant))
      else if th.pc.Idle? then th.(inMutate := true, pc := Waiting(c, mutator))
      else th.(inMutate := true, pc := NestedWait(c))
    case Acquire(_) =>
      th.(pc := if th.pc.Waiting? then Locked(th.pc.c, th.pc.mutator) else ReloadLocked(th.pc.c))
    case Clone(_) =>
      var d := Draft(th.pc.c, s.cells[th.pc.c].mem, []);
      th.(pc := match th.pc.mutator case Some(f) => Mutating(d, f) case None => Open(d))
    case RunMutator(_) => th.(pc := ToValidate(Edited(th.pc.draft, th.pc.f)))
    case EditDraft(_, f) => th.(pc := Open(Edited(th.pc.draft, f)))
    case Commit(_) => th.(pc := ToValidate(th.pc.draft))
    case Rollback(_) => th.(pc := Unlocking(th.pc.draft.c, RolledBack))
    case Panic(_) => th.(pc := Unlocking(th.pc.draft.c, Unwound))
    case Validate(_) =>
      th.(pc := if s.valid(th.pc.draft.cfg) then ToWrite(th.pc.draft) else Unlocking(th.pc.draft.c, Invalid))
    case Write(_, ok) =>
      th.(pc := if ok then ToStore(th.pc.draft) else Unlocking(th.pc.draft.c, WriteFailed))
    case Store(_) => th.(pc := InHook(th.pc.draft))
    case Hook(_, _) => th.(pc := Unlocking(th.pc.draft.c, Committed))
    case Unlock(_) =>
      if th.pc.Unlocking? then th.(pc := Clearing(th.pc.outcome)) else th.(pc := Idle, last := Some(Reloaded))
    case ClearFlag(_) => Thread(false, Idle, Some(th.pc.outcome))
    case StartReload(_, c) => th.(pc := ReloadWaiting(c))
    case ReadFile(_, ok) =>
      th.(pc := if ok then ReloadChecking(th.pc.c, s.cells[th.pc.c].disk) else ReloadUnlocking(th.pc.c))
    case Compare(_, accepted) =>
      var text := th.pc.text;
      th.(pc := if s.valid(text) && text != s.cells[th.pc.c].mem && accepted
                then ReloadStoring(th.pc.c, text) else ReloadUnlocking(th.pc.c))
    case StoreReload(_) => th.(pc := ReloadUnlocking(th.pc.c))
  }

  function Edited<C>(d: Draft<C>, f: Edit<C>): Draft<C> {
    d.(cfg := f(d.cfg), edits := d.edits + [f])
  }

  /** The one cell an event changes, if any. */
  function CellStep<C>(s: State<C>, e: Event<C>): map<nat, Cell<C>>
    requires Enabled(s, e)
  {
    var pc := s.threads[e.t].pc;
    match e
    case Acquire(t) => var c := AwaitedLock(pc).value; map[c := s.cells[c].(owner := Some(t))]
    case Write(_, ok) =>
      if ok then map[pc.draft.c := s.cells[pc.draft.c].(disk := pc.draft.cfg)] else map[]
    case Store(_) =>
      var cell := s.cells[pc.draft.c];
      map[pc.draft.c := cell.(mem := pc.draft.cfg, committed := cell.committed + pc.draft.edits)]
    case Hook(_, stores) =>
      var cell := s.cells[pc.draft.c];
      if stores then map[pc.draft.c := cell.(runtime := pc.draft.cfg, published := |cell.committed|)] else map[]
    case Unlock(_) => map[LockOf(pc).value := s.cells[LockOf(pc).value].(owner := None)]
    case StoreReload(_) =>
      var cell := s.cells[pc.c];
      map[pc.c := cell.(mem := pc.text, reloads := cell.reloads + 1)]
    case _ => map[]
  }

  function Apply<C(==)>(s: State<C>, e: Event<C>): State<C>
    requires Enabled(s, e)
  {
    s.(cells := s.cells + CellStep(s, e), threads := s.threads[e.t := ThreadStep(s, e)])
  }

  predicate Schedule<C(==)>(s: State<C>, es: seq<Event<C>>)
    decreases |es|, 0
  {
    es == [] || (Schedule(s, es[..|es| - 1]) && Enabled(Exec(s, es[..|es| - 1]), es[|es| - 1]))
  }

  function Exec<C(==)>(s: State<C>, es: seq<Event<C>>): State<C>
    requires Schedule(s, es)
    decreases |es|, 1
  {
    if es == [] then s else Apply(Exec(s, es[..|es| - 1]), es[|es| - 1])
  }

  /** After boot: every cell loaded from its file, every lock free, every thread outside. */
  ghost predicate Start<C>(s: State<C>) {
    && (forall c :: c in s.cells ==>
          var cell := s.cells[c];
          && cell.disk == cell.mem == cell.runtime == cell.initial && s.valid(cell.initial)
          && cell.owner.None? && cell.committed == [] && cell.published == 0 && cell.reloads == 0)
    && (forall t :: t in s.threads ==> s.threads[t] == Thread(false, Idle, None))
  }
}
