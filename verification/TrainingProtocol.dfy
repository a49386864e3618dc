/**
  The training-job registry under any interleaving of callers and job tasks.  One event is one
  access to the semaphore, the map, a job's locked core or its cancel flag.  Every task is
  assumed to reach the block that records its outcome.
*/
module TrainingProtocol {
  import opened Wrappers

  datatype JobState = Running | Completed | Failed | Cancelled

  datatype Job = Job(state: JobState, cancel: bool, finishedAt: Option<nat>)

  /** A job's task: training, holding the locked core with and without the permit, or gone. */
  datatype Task = Working | Publishing | Leaving | Gone

  datatype Permit = Free | OfCall(t: nat) | OfTask(id: nat)

  /** Where a caller is inside a registry operation. */
  datatype Call =
    | Idle
    | Reserved                                                // spawn, permit in hand
    | Inserted(id: nat)                                       // spawn, entry in the map, task not started
    | LookedUp(id: nat)                                       // cancel, entry in hand
    | Walking(start: set<nat>, seen: set<nat>, n: nat)        // cancel_all, between entries
    | Decided(start: set<nat>, seen: set<nat>, n: nat, id: nat)
    | Collecting(start: set<nat>, seen: set<nat>, found: set<nat>, now: nat, maxAge: nat)
    | Removing(found: set<nat>, pending: set<nat>, removed: nat, now: nat, maxAge: nat)

  /**
    `entries` are all jobs ever made: a caller or task may hold one after it left the map.
    `counted` lists the jobs whose flag a cancel_all call turned on, as it counted them.  A reaper
    reports the size of what it `found`; `removed` is how many of its removals took an entry out.
  */
  datatype State = State(
    clock: nat, entries: map<nat, Job>, registered: set<nat>, tasks: map<nat, Task>,
    permit: Permit, calls: map<nat, Call>, counted: seq<nat>)

  datatype Event =
    | Tick
    | TryAcquire(t: nat)
    | Insert(t: nat, id: nat)
    | Launch(t: nat)
    | Publish(id: nat, outcome: JobState)
    | DropPermit(id: nat)
    | UnlockCore(id: nat)
    | Lookup(t: nat, id: nat)
    | SetCancel(t: nat)
    | BeginCancelAll(t: nat)
    | ReadState(t: nat, id: nat)
    | SwapFlag(t: nat)
    | EndCancelAll(t: nat)
    | BeginReap(t: nat, maxAge: nat)
    | Collect(t: nat, id: nat)
    | EndCollect(t: nat)
    | Remove(t: nat, id: nat)
    | EndReap(t: nat)

  function CallOf(s: State, t: nat): Call { if t in s.calls then s.calls[t] else Idle }

  /** The core is free to be locked by somebody else than the job's own task. */
  predicate CoreFree(s: State, id: nat) {
    id in s.tasks ==> s.tasks[id] !in {Publishing, Leaving}
  }

  predicate Enabled(s: State, e: Event) {
    match e
    case Tick => true
    case TryAcquire(t) => CallOf(s, t).Idle?
    case Insert(t, id) => CallOf(s, t).Reserved? && id !in s.entries
    case Launch(t) => CallOf(s, t).Inserted?
    case Publish(id, outcome) => id in s.tasks && s.tasks[id].Working? && id in s.entries && !outcome.Running?
    case DropPermit(id) => id in s.tasks && s.tasks[id].Publishing?
    case UnlockCore(id) => id in s.tasks && s.tasks[id].Leaving?
    case Lookup(t, id) => CallOf(s, t).Idle?
    case SetCancel(t) => CallOf(s, t).LookedUp? && CallOf(s, t).id in s.entries
    case BeginCancelAll(t) => CallOf(s, t).Idle?
    case ReadState(t, id) =>
      var c := CallOf(s, t);
      c.Walking? && id in s.registered && id in s.entries && id !in c.seen && CoreFree(s, id)
    case SwapFlag(t) => CallOf(s, t).Decided? && CallOf(s, t).id in s.entries
    case EndCancelAll(t) => var c := CallOf(s, t); c.Walking? && c.start * s.registered <= c.seen
    case BeginReap(t, _) => CallOf(s, t).Idle?
    case Collect(t, id) =>
      var c := CallOf(s, t);
      c.Collecting? && id in s.registered && id in s.entries && id !in c.seen && CoreFree(s, id)
    case EndCollect(t) => var c := CallOf(s, t); c.Collecting? && c.start * s.registered <= c.seen
    case Remove(t, id) => CallOf(s, t).Removing? && id in CallOf(s, t).pending
    case EndReap(t) => CallOf(s, t).Removing? && CallOf(s, t).pending == {}
  }

  function SaturatingSince(now: nat, t: nat): nat { if now <= t then 0 else now - t }

  function With(s: State, t: nat, c: Call): State { s.(calls := s.calls[t := c]) }

  /** Old enough to drop; running jobs and jobs with no finish time never are. */
  predicate Reapable(j: Job, now: nat, maxAge: nat) {
    j.finishedAt.Some? && SaturatingSince(now, j.finishedAt.value) >= maxAge
  }

  lemma ReapableExactly(j: Job, now: nat, maxAge: nat)
    ensures Reapable(j, now, maxAge) <==>
      j.finishedAt.Some? && (maxAge == 0 || now >= j.finishedAt.value + maxAge)
  {
  }

  function Apply(s: State, e: Event): State
    requires Enabled(s, e)
  {
    match e
    case Tick => s.(clock := s.clock + 1)
    case TryAcquire(t) =>
      if s.permit.Free? then With(s.(permit := OfCall(t)), t, Reserved) else s   // AnotherTrainRunning
    case Insert(t, id) =>
      With(s.(entries := s.entries[id := Job(Running, false, None)], registered := s.registered + {id}), t, Inserted(id))
    case Launch(t) =>
      var id := CallOf(s, t).id;
      With(s.(tasks := s.tasks[id := Working], permit := OfTask(id)), t, Idle)
    case Publish(id, outcome) =>
      s.(entries := s.entries[id := s.entries[id].(state := outcome, finishedAt := Some(s.clock))],
         tasks := s.tasks[id := Publishing])
    case DropPermit(id) => s.(permit := Free, tasks := s.tasks[id := Leaving])
    case UnlockCore(id) => s.(tasks := s.tasks[id := Gone])
    case Lookup(t, id) => if id in s.registered then With(s, t, LookedUp(id)) else s   // JobNotFound
    case SetCancel(t) =>
      var id := CallOf(s, t).id;
      With(s.(entries := s.entries[id := s.entries[id].(cancel := true)]), t, Idle)
    case BeginCancelAll(t) => With(s, t, Walking(s.registered, {}, 0))
    case ReadState(t, id) =>
      var c := CallOf(s, t);
      With(s, t, if s.entries[id].state.Running? then Decided(c.start, c.seen, c.n, id)
                 else Walking(c.start, c.seen + {id}, c.n))
    case SwapFlag(t) =>
      var c := CallOf(s, t);
      var was := s.entries[c.id].cancel;
      With(s.(entries := s.entries[c.id := s.entries[c.id].(cancel := true)],
              counted := if was then s.counted else s.counted + [c.id]),
           t, Walking(c.start, c.seen + {c.id}, if was then c.n else c.n + 1))
    case EndCancelAll(t) => With(s, t, Idle)
    case BeginReap(t, maxAge) => With(s, t, Collecting(s.registered, {}, {}, s.clock, maxAge))
    case Collect(t, id) =>
      var c := CallOf(s, t);
      With(s, t, c.(seen := c.seen + {id},
                    found := if Reapable(s.entries[id], c.now, c.maxAge) then c.found + {id} else c.found))
    case EndCollect(t) =>
      var c := CallOf(s, t);
      With(s, t, Removing(c.found, c.found, 0, c.now, c.maxAge))
    case Remove(t, id) =>
      var c := CallOf(s, t);
      var hit := id in s.registered;
      With(s.(registered := s.registered - {id}), t,
           c.(pending := c.pending - {id}, removed := if hit then c.removed + 1 else c.removed))
    case EndReap(t) => With(s, t, Idle)
  }

  const START := State(0, map[], {}, map[], Free, map[], [])

  // ---- What every step keeps ----

  predicate IsRunning(s: State, id: nat) { id in s.entries && s.entries[id].state.Running? }

  /** Whoever holds the permit, and only that one, is between acquiring and releasing it. */
  ghost predicate PermitInv(s: State) {
    && (forall t: nat :: CallOf(s, t).Reserved? || CallOf(s, t).Inserted? ==> s.permit == OfCall(t))
    && (forall id :: id in s.tasks && s.tasks[id] in {Working, Publishing} ==> s.permit == OfTask(id))
  }

  /** The permit is never lost: who holds it is on the way to releasing it. */
  ghost predicate HolderInv(s: State) {
    match s.permit
    case Free => true
    case OfCall(t) => CallOf(s, t).Reserved? || CallOf(s, t).Inserted?
    case OfTask(id) => id in s.tasks && s.tasks[id] in {Working, Publishing}
  }

  /** A running job is held by the permit: its spawn has not finished, or its task works. */
  predicate HeldBy(s: State, id: nat) {
    match s.permit
    case Free => false
    case OfCall(t) => CallOf(s, t) == Inserted(id)
    case OfTask(i) => i == id && id in s.tasks && s.tasks[id].Working?
  }

  predicate EntryInv(s: State, id: nat)
    requires id in s.entries
  {
    && (s.entries[id].state.Running? ==> HeldBy(s, id) && id in s.registered)
    && (s.entries[id].state.Running? <==> s.entries[id].finishedAt.None?)
    && (s.entries[id].finishedAt.Some? ==> s.entries[id].finishedAt.value <= s.clock)
  }

  predicate JobsInv(s: State) {
    && s.registered <= s.entries.Keys && s.tasks.Keys <= s.entries.Keys
    && forall id :: id in s.entries ==> EntryInv(s, id)
  }

  /** Job tasks, and callers about to launch one, agree with the entries. */
  ghost predicate TasksInv(s: State) {
    && (forall id :: id in s.tasks ==> id in s.entries && (s.tasks[id].Working? <==> s.entries[id].state.Running?))
    && (forall t: nat :: Launching(s, t))
  }

  predicate Launching(s: State, t: nat) {
    CallOf(s, t).Inserted? ==> CallOf(s, t).id !in s.tasks && IsRunning(s, CallOf(s, t).id)
  }

  /** The job has been over for at least `maxAge` at time `now`. */
  predicate Over(s: State, id: nat, now: nat, maxAge: nat) {
    id in s.entries && !s.entries[id].state.Running? && Reapable(s.entries[id], now, maxAge)
  }

  /** A walk has stopped each job it passed, unless the job is over. */
  predicate Stopped(s: State, id: nat) { id in s.entries && (s.entries[id].state.Running? ==> s.entries[id].cancel) }

  predicate CallInv(s: State, c: Call) {
    match c
    case LookedUp(id) => id in s.entries
    case Walking(start, seen, n) => (forall id :: id in seen ==> Stopped(s, id)) && start <= s.entries.Keys
    case Decided(start, seen, n, id) =>
      (forall id :: id in seen ==> Stopped(s, id)) && start <= s.entries.Keys && id in s.entries
    case Collecting(_, _, found, now, maxAge) => forall id :: id in found ==> Over(s, id, now, maxAge)
    case Removing(found, pending, _, now, maxAge) =>
      pending <= found && forall id :: id in found ==> Over(s, id, now, maxAge)
    case _ => true
  }

  ghost predicate CallsInv(s: State) { forall t: nat :: CallInv(s, CallOf(s, t)) }

  predicate CountedInv(s: State) {
    && (forall k :: 0 <= k < |s.counted| ==> s.counted[k] in s.entries && s.entries[s.counted[k]].cancel)
    && (forall k, m :: 0 <= k < m < |s.counted| ==> s.counted[k] != s.counted[m])
  }

  ghost predicate Inv(s: State) {
    PermitInv(s) && HolderInv(s) && JobsInv(s) && TasksInv(s) && CallsInv(s) && CountedInv(s)
  }

  lemma StartInv()
    ensures Inv(START)
  {
  }

  lemma PermitStep(s: State, e: Event)
    requires Inv(s) && Enabled(s, e)
    ensures PermitInv(Apply(s, e))
  {
    hide CallsInv, CountedInv, JobsInv, TasksInv;
  }

  lemma HolderStep(s: State, e: Event)
    requires Inv(s) && Enabled(s, e)
    ensures HolderInv(Apply(s, e))
  {
    hide CallsInv, CountedInv, JobsInv, TasksInv;
  }

  lemma JobsStep(s: State, e: Event)
    requires Inv(s) && Enabled(s, e)
    ensures JobsInv(Apply(s, e))
  {
    hide CountedInv, EntryInv, PermitInv;
    var s' := Apply(s, e);
    if e.Launch? {
      assert Launching(s, e.t);
    }
    forall id | id in s'.entries ensures EntryInv(s', id) {
      EntryStep(s, e, id);
    }
  }

  lemma EntryStep(s: State, e: Event, id: nat)
    requires Inv(s) && Enabled(s, e) && id in Apply(s, e).entries
    ensures EntryInv(Apply(s, e), id)
  {
    hide CountedInv, HolderInv, PermitInv, Apply, Enabled;
    if IsRunning(Apply(s, e), id) {
      RunningStaysHeld(s, e, id);
    }
    TimesAgree(s, e, id);
  }

  lemma RunningStaysHeld(s: State, e: Event, id: nat)
    requires Inv(s) && Enabled(s, e) && IsRunning(Apply(s, e), id)
    ensures HeldBy(Apply(s, e), id) && id in Apply(s, e).registered
  {
    hide CountedInv, HolderInv, CallsInv, JobsInv, TasksInv, PermitInv;
    if e.Launch? {
      LaunchFacts(s, e.t);
    }
    if e.Remove? {
      RemovesOver(s, e);
    }
    if e.Publish? || e.DropPermit? {
      TaskHolds(s, e.id);
    }
    if e.TryAcquire? || e.Insert? {
      InsertHolds(s, e.t);
    }
    if id in s.entries {
      OfEntry(s, id);
    }
  }

  lemma InsertHolds(s: State, t: nat)
    requires Inv(s)
    ensures CallOf(s, t).Reserved? ==> s.permit == OfCall(t)
  {
    hide CallsInv, CountedInv, HolderInv, JobsInv, TasksInv;
  }

  lemma RemovesOver(s: State, e: Event)
    requires Inv(s) && Enabled(s, e) && e.Remove?
    ensures !IsRunning(s, e.id)
  {
    hide CountedInv, HolderInv, JobsInv, TasksInv, PermitInv;
    assert CallInv(s, CallOf(s, e.t));
  }

  lemma OfEntry(s: State, id: nat)
    requires Inv(s) && id in s.entries
    ensures EntryInv(s, id)
  {
    hide CountedInv, HolderInv, PermitInv, CallsInv, TasksInv, EntryInv;
  }

  lemma TimesAgree(s: State, e: Event, id: nat)
    requires Inv(s) && Enabled(s, e) && id in Apply(s, e).entries
    ensures var j, clock := Apply(s, e).entries[id], Apply(s, e).clock;
      && (j.state.Running? <==> j.finishedAt.None?)
      && (j.finishedAt.Some? ==> j.finishedAt.value <= clock)
  {
    hide CountedInv, HolderInv, PermitInv, CallsInv, TasksInv, HeldBy, Inv;
    if id in s.entries {
      OfEntry(s, id);
    }
  }

  lemma TasksStep(s: State, e: Event)
    requires Inv(s) && Enabled(s, e)
    ensures TasksInv(Apply(s, e))
  {
    hide CallsInv, CountedInv, EntryInv;
    if e.Launch? {
      assert Launching(s, e.t);
    }
    forall t: nat ensures Launching(Apply(s, e), t) {
      LaunchingStep(s, e, t);
    }
  }

  lemma LaunchingStep(s: State, e: Event, t: nat)
    requires Inv(s) && Enabled(s, e)
    ensures Launching(Apply(s, e), t)
  {
    hide CallsInv, CountedInv, EntryInv, HolderInv, Inv;
    LaunchFacts(s, t);
    if e.Publish? || e.DropPermit? {
      TaskHolds(s, e.id);
    }
    if e.Launch? {
      LaunchFacts(s, e.t);
    }
  }

  /** A caller about to launch holds the permit, and its job has no task yet. */
  lemma LaunchFacts(s: State, t: nat)
    requires Inv(s)
    ensures Launching(s, t) && s.tasks.Keys <= s.entries.Keys
    ensures CallOf(s, t).Inserted? ==> s.permit == OfCall(t)
  {
    hide CallsInv, CountedInv, EntryInv, HolderInv, Launching;
  }

  lemma TaskHolds(s: State, id: nat)
    requires Inv(s) && id in s.tasks && s.tasks[id] in {Working, Publishing}
    ensures s.permit == OfTask(id)
  {
    hide CallsInv, CountedInv, EntryInv, HolderInv, Launching;
  }

  /** What may happen to jobs: they are never forgotten, an outcome is final, a set flag stays set. */
  ghost predicate Evolves(s: State, s': State) {
    forall id :: id in s.entries ==> id in s'.entries && JobEvolves(s.entries[id], s'.entries[id])
  }

  predicate JobEvolves(j: Job, j': Job) {
    && (!j.state.Running? ==> j'.state == j.state && j'.finishedAt == j.finishedAt)
    && (j.cancel ==> j'.cancel)
  }

  lemma StepEvolves(s: State, e: Event)
    requires TasksInv(s) && Enabled(s, e)
    ensures Evolves(s, Apply(s, e))
  {
    hide Apply, Enabled, JobEvolves, TasksInv;
    forall id | id in s.entries ensures id in Apply(s, e).entries && JobEvolves(s.entries[id], Apply(s, e).entries[id]) {
      OneJobEvolves(s, e, id);
    }
  }

  lemma OneJobEvolves(s: State, e: Event, id: nat)
    requires TasksInv(s) && Enabled(s, e) && id in s.entries
    ensures id in Apply(s, e).entries && JobEvolves(s.entries[id], Apply(s, e).entries[id])
  {
    hide Launching;
  }

  /** What a caller knows stays true while jobs evolve. */
  lemma CallKept(s: State, s': State, c: Call)
    requires CallInv(s, c) && Evolves(s, s')
    ensures CallInv(s', c)
  {
  }

  lemma CountedStep(s: State, e: Event)
    requires Inv(s) && Enabled(s, e)
    ensures CountedInv(Apply(s, e))
  {
    hide CallsInv, PermitInv, TasksInv, EntryInv;
  }

  /** Which caller an event moves. */
  function Mover(e: Event): Option<nat> {
    match e
    case TryAcquire(t) => Some(t)
    case Insert(t, _) => Some(t)
    case Launch(t) => Some(t)
    case Lookup(t, _) => Some(t)
    case SetCancel(t) => Some(t)
    case BeginCancelAll(t) => Some(t)
    case ReadState(t, _) => Some(t)
    case SwapFlag(t) => Some(t)
    case EndCancelAll(t) => Some(t)
    case BeginReap(t, _) => Some(t)
    case Collect(t, _) => Some(t)
    case EndCollect(t) => Some(t)
    case Remove(t, _) => Some(t)
    case EndReap(t) => Some(t)
    case _ => None
  }

  lemma OthersStay(s: State, e: Event, t: nat)
    requires Enabled(s, e) && Mover(e) != Some(t)
    ensures CallOf(Apply(s, e), t) == CallOf(s, t)
  {
  }

  lemma MoverKnows(s: State, e: Event, t: nat)
    requires JobsInv(s) && Enabled(s, e) && Mover(e) == Some(t)
    requires CallInv(s, CallOf(s, t)) && Evolves(s, Apply(s, e)) && CallInv(Apply(s, e), CallOf(s, t))
    ensures CallInv(Apply(s, e), CallOf(Apply(s, e), t))
  {
  }

  lemma CallsStep(s: State, e: Event)
    requires Inv(s) && Enabled(s, e)
    ensures CallsInv(Apply(s, e))
  {
    hide PermitInv, CountedInv, TasksInv, Apply, Enabled, JobsInv;
    StepEvolves(s, e);
    var s' := Apply(s, e);
    forall t: nat ensures CallInv(s', CallOf(s', t)) {
      CallKept(s, s', CallOf(s, t));
      if Mover(e) == Some(t) {
        MoverKnows(s, e, t);
      } else {
        OthersStay(s, e, t);
      }
    }
  }

  lemma StepInv(s: State, e: Event)
    requires Inv(s) && Enabled(s, e)
    ensures Inv(Apply(s, e))
  {
    hide PermitInv, HolderInv, JobsInv, TasksInv, CallsInv, CountedInv, Apply, Enabled;
    PermitStep(s, e);
    HolderStep(s, e);
    JobsStep(s, e);
    TasksStep(s, e);
    CallsStep(s, e);
    CountedStep(s, e);
  }
}
