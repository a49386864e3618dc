/**
  Which running jobs a shutdown walk stops.  The map may gain a job behind the walk's back, so
  the walk stops every running job if and only if nothing is inserted while it goes on.
*/
module TrainingShutdown {
  import opened Wrappers
  import opened TrainingProtocol
  import opened TrainingRuns

  /**
    When a shutdown call is about to return, a job that still runs unstopped was not in the map
    when the call began.
  */
  lemma ShutdownReachesOlderJobs(es: seq<Event>, t: nat, id: nat)
    requires Possible(START, es) && Enabled(Run(START, es), EndCancelAll(t))
    requires var s := Run(START, es); IsRunning(s, id) && !s.entries[id].cancel
    ensures id !in CallOf(Run(START, es), t).start
  {
    hide Inv, Enabled, Run;
    ReachableInv(es);
    WalkMisses(Run(START, es), t, id);
  }

  /** Some job runs with its flag down. */
  ghost predicate Unstopped(s: State) {
    exists id :: IsRunning(s, id) && !s.entries[id].cancel
  }

  function Inserts(es: seq<Event>): nat {
    if es == [] then 0 else Inserts(es[..|es| - 1]) + if es[|es| - 1].Insert? then 1 else 0
  }

  /** `es` is one shutdown call of `t` from `s`, about to return with a job left unstopped. */
  ghost predicate MissingCall(s: State, es: seq<Event>, t: nat) {
    && Possible(s, es)
    && es != [] && es[0] == BeginCancelAll(t)
    && EndCancelAll(t) !in es
    && Enabled(Run(s, es), EndCancelAll(t))
    && Unstopped(Run(s, es))
  }

  // ---- A walk visits each entry once ----

  /** The walk has read `id`, and has either gone on or is about to set its flag. */
  predicate Visited(s: State, t: nat, id: nat) {
    var c := CallOf(s, t);
    (c.Walking? && id in c.seen) || (c.Decided? && (id in c.seen || c.id == id))
  }

  lemma VisitedStays(s: State, e: Event, t: nat, id: nat)
    requires Enabled(s, e) && e != EndCancelAll(t)
    ensures e == ReadState(t, id) ==> Visited(Apply(s, e), t, id)
    ensures Visited(s, t, id) ==> Visited(Apply(s, e), t, id) && e != ReadState(t, id)
  {
    if Mover(e) != Some(t) {
      OthersStay(s, e, t);
    }
  }

  /** In one shutdown call no job's state is read twice. */
  lemma EachEntryOnce(s: State, es: seq<Event>, t: nat, id: nat, i: nat, j: nat)
    requires Possible(s, es) && EndCancelAll(t) !in es
    requires i < j < |es| && es[i] == ReadState(t, id)
    ensures es[j] != ReadState(t, id)
  {
    hide Apply, Enabled, Visited;
    PossiblePrefix(s, es, j);
    VisitedAfter(s, es[..j], t, id, i);
    assert es[j] in es;
    VisitedStays(Run(s, es[..j]), es[j], t, id);
  }

  lemma {:induction false} VisitedAfter(s: State, es: seq<Event>, t: nat, id: nat, i: nat)
    requires Possible(s, es) && EndCancelAll(t) !in es && i < |es| && es[i] == ReadState(t, id)
    ensures Visited(Run(s, es), t, id)
    decreases |es|
  {
    hide Apply, Enabled, Visited;
    Last(s, es);
    var front, e := es[..|es| - 1], es[|es| - 1];
    VisitedStays(Run(s, front), e, t, id);
    if i < |front| {
      VisitedAfter(s, front, t, id, i);
    }
  }

  // ---- Without an insertion nothing is missed ----

  predicate InWalk(c: Call) { c.Walking? || c.Decided? }

  /** Inside its shutdown call, `t` remembers the map as it was at the start. */
  predicate WalksFrom(s: State, t: nat, start: set<nat>) {
    InWalk(CallOf(s, t)) && CallOf(s, t).start == start
  }

  lemma WalkStep(s: State, e: Event, t: nat, start: set<nat>)
    requires Enabled(s, e) && WalksFrom(s, t, start) && e != EndCancelAll(t)
    ensures WalksFrom(Apply(s, e), t, start)
  {
    if Mover(e) != Some(t) {
      OthersStay(s, e, t);
    }
  }

  lemma {:induction false} WalkRun(s: State, es: seq<Event>, t: nat)
    requires Possible(s, es) && es != [] && es[0] == BeginCancelAll(t) && EndCancelAll(t) !in es
    ensures WalksFrom(Run(s, es), t, s.registered)
    decreases |es|
  {
    hide Apply, Enabled, WalksFrom;
    Last(s, es);
    var front, e := es[..|es| - 1], es[|es| - 1];
    if front == [] {
      WalkStarts(s, t);
    } else {
      assert front[0] == es[0];
      WalkRun(s, front, t);
      WalkStep(Run(s, front), e, t, s.registered);
    }
  }

  lemma WalkStarts(s: State, t: nat)
    requires Enabled(s, BeginCancelAll(t))
    ensures WalksFrom(Apply(s, BeginCancelAll(t)), t, s.registered)
  {
  }

  lemma {:induction false} NoNewJobs(s: State, es: seq<Event>)
    requires Possible(s, es) && Inserts(es) == 0
    ensures Run(s, es).entries.Keys == s.entries.Keys
    decreases |es|
  {
    hide Apply, Enabled;
    if es != [] {
      Last(s, es);
      NoNewJobs(s, es[..|es| - 1]);
      SameJobs(Run(s, es[..|es| - 1]), es[|es| - 1]);
    }
  }

  lemma SameJobs(s: State, e: Event)
    requires Enabled(s, e) && !e.Insert?
    ensures Apply(s, e).entries.Keys == s.entries.Keys
  {
  }

  lemma WithoutInsertionNothingIsMissed(s: State, es: seq<Event>, t: nat)
    requires Inv(s) && MissingCall(s, es, t)
    ensures Inserts(es) >= 1
  {
    hide Inv, Apply, Enabled;
    if Inserts(es) == 0 {
      var id :| IsRunning(Run(s, es), id) && !Run(s, es).entries[id].cancel;
      NoNewJobs(s, es);
      OutcomesAreFinal(s, es);
      RunInv(s, es);
      RunningIsRegistered(s, id);
      WalkRun(s, es, t);
      WalkMisses(Run(s, es), t, id);
    }
  }

  lemma RunningIsRegistered(s: State, id: nat)
    requires Inv(s) && IsRunning(s, id)
    ensures id in s.registered
  {
    assert EntryInv(s, id);
  }

  /** What a finished walk leaves unstopped was not in the map when it began. */
  lemma WalkMisses(s: State, t: nat, id: nat)
    requires Inv(s) && Enabled(s, EndCancelAll(t)) && IsRunning(s, id) && !s.entries[id].cancel
    ensures id !in CallOf(s, t).start
  {
    assert CallInv(s, CallOf(s, t)) && EntryInv(s, id);
    assert id in CallOf(s, t).seen ==> Stopped(s, id);
  }

  // ---- One insertion is enough, at any moment of any walk ----

  /** `es` leads from `s` to `u` with `n` insertions and without ending `t`'s walk. */
  ghost predicate Leads(s: State, es: seq<Event>, u: State, t: nat, n: nat) {
    && Possible(s, es) && Run(s, es) == u && Inv(u)
    && EndCancelAll(t) !in es && Inserts(es) == n
  }

  lemma More(s: State, es: seq<Event>, u: State, t: nat, n: nat, e: Event)
    returns (es': seq<Event>, u': State)
    requires Leads(s, es, u, t, n) && Enabled(u, e) && e != EndCancelAll(t)
    ensures u' == Apply(u, e) && Leads(s, es', u', t, n + if e.Insert? then 1 else 0)
    ensures es' == es + [e]
  {
    hide Inv, Apply, Enabled, Run, Possible, Inserts;
    es', u' := es + [e], Apply(u, e);
    Snoc(s, es, e);
    StepInv(u, e);
    InsertsMore(es, e);
  }

  lemma InsertsMore(es: seq<Event>, e: Event)
    ensures Inserts(es + [e]) == Inserts(es) + if e.Insert? then 1 else 0
  {
    assert (es + [e])[..|es|] == es;
  }

  lemma Nothing(s: State, t: nat) returns (es: seq<Event>)
    requires Inv(s)
    ensures es == [] && Leads(s, es, s, t, 0)
  {
    es := [];
  }

  lemma StillWalks(u: State, t: nat, e: Event)
    requires CallOf(u, t).Walking? && Enabled(u, e) && Mover(e) != Some(t)
    ensures CallOf(Apply(u, e), t) == CallOf(u, t)
  {
    OthersStay(u, e, t);
  }

  /** From any moment of a walk to one between two of its entries. */
  lemma BetweenEntries(s: State, es: seq<Event>, u: State, t: nat) returns (es': seq<Event>, u': State)
    requires Leads(s, es, u, t, 0) && InWalk(CallOf(u, t))
    ensures Leads(s, es', u', t, 0) && CallOf(u', t).Walking? && es <= es'
  {
    hide Inv, Enabled, Run, Possible;
    es', u' := es, u;
    if CallOf(u, t).Decided? {
      SwapIsEnabled(u, t);
      es', u' := More(s, es, u, t, 0, SwapFlag(t));
    }
  }

  lemma SwapIsEnabled(s: State, t: nat)
    requires Inv(s) && CallOf(s, t).Decided?
    ensures Enabled(s, SwapFlag(t))
  {
    assert CallInv(s, CallOf(s, t));
  }

  /** The permit is free, or reserved by a spawn that has not inserted its job yet. */
  predicate CanInsert(u: State) {
    u.permit.Free? || (u.permit.OfCall? && CallOf(u, u.permit.t).Reserved?)
  }

  /** Lets the job that holds the permit finish, after its spawn has started it. */
  lemma FreePermit(s: State, es: seq<Event>, u: State, t: nat)
    returns (es': seq<Event>, u': State)
    requires Leads(s, es, u, t, 0) && CallOf(u, t).Walking?
    ensures Leads(s, es', u', t, 0) && CallOf(u', t).Walking? && CanInsert(u') && es <= es'
  {
    hide Inv, Enabled, Run, Possible, Apply, Leads, CanInsert;
    es', u' := es, u;
    LeadsKeepsInv(s, es, u, t, 0);
    if u.permit.OfCall? && CallOf(u, u.permit.t).Inserted? {
      var e := Launch(u.permit.t);
      LaunchHands(u, u.permit.t);
      StillWalks(u, t, e);
      es', u' := More(s, es', u', t, 0, e);
    }
    LeadsKeepsInv(s, es', u', t, 0);
    if u'.permit.OfTask? && u'.tasks[u'.permit.id].Working? {
      var e := Publish(u'.permit.id, Completed);
      PublishGoesOn(u', u'.permit.id);
      StillWalks(u', t, e);
      es', u' := More(s, es', u', t, 0, e);
    }
    LeadsKeepsInv(s, es', u', t, 0);
    if u'.permit.OfTask? {
      var e := DropPermit(u'.permit.id);
      DropFrees(u', u'.permit.id);
      StillWalks(u', t, e);
      es', u' := More(s, es', u', t, 0, e);
    } else {
      HoldersOfCalls(u');
    }
  }

  lemma LeadsKeepsInv(s: State, es: seq<Event>, u: State, t: nat, n: nat)
    requires Leads(s, es, u, t, n)
    ensures Inv(u) && HolderInv(u)
  {
  }

  lemma LaunchHands(u: State, v: nat)
    requires Inv(u) && CallOf(u, v).Inserted?
    ensures Enabled(u, Launch(v))
    ensures var u' := Apply(u, Launch(v)); u'.permit.OfTask? && u'.tasks[u'.permit.id].Working?
  {
  }

  lemma PublishGoesOn(u: State, id: nat)
    requires Inv(u) && u.permit == OfTask(id) && u.tasks[id].Working?
    ensures Enabled(u, Publish(id, Completed))
    ensures var u' := Apply(u, Publish(id, Completed)); u'.permit == OfTask(id) && id in u'.tasks && u'.tasks[id].Publishing?
  {
    hide CallsInv, CountedInv;
  }

  lemma DropFrees(u: State, id: nat)
    requires id in u.tasks && u.permit == OfTask(id) && u.tasks[id].Publishing?
    ensures Enabled(u, DropPermit(id)) && CanInsert(Apply(u, DropPermit(id)))
  {
  }

  lemma HoldersOfCalls(u: State)
    requires HolderInv(u) && !u.permit.OfTask?
    requires u.permit.OfCall? ==> !CallOf(u, u.permit.t).Inserted?
    ensures CanInsert(u)
  {
  }

  /** A number outside a finite set. */
  lemma FreshNumber(used: set<nat>) returns (x: nat)
    ensures x !in used
  {
    x := 0;
    var below: set<nat> := {};
    while x in used
      invariant below <= used && |below| == x && forall y :: y in below <==> 0 <= y < x
      decreases |used - below|
    {
      below := below + {x};
      x := x + 1;
    }
  }

  /** Somebody acquires the permit if need be, and inserts a new job. */
  lemma InsertOne(s: State, es: seq<Event>, u: State, t: nat)
    returns (es': seq<Event>, u': State, x: nat)
    requires Leads(s, es, u, t, 0) && CallOf(u, t).Walking? && CanInsert(u)
    ensures Leads(s, es', u', t, 1) && Escapes(u', t, x) && es <= es'
  {
    hide Inv, Enabled, Run, Possible, Leads, Apply;
    es', u' := es, u;
    if u.permit.Free? {
      var v := FreshNumber(u.calls.Keys + {t});
      AcquireIsEnabled(u, v);
      StillWalks(u, t, TryAcquire(v));
      es', u' := More(s, es, u, t, 0, TryAcquire(v));
    }
    x := FreshNumber(u'.entries.Keys);
    var e := Insert(u'.permit.t, x);
    LeadsKeepsInv(s, es', u', t, 0);
    InsertEscapes(u', t, x);
    es', u' := More(s, es', u', t, 0, e);
  }

  /** Job `x` runs unstopped, its spawn holds the permit, and `t`'s walk has not known it. */
  ghost predicate Escapes(u: State, t: nat, x: nat) {
    && CallOf(u, t).Walking? && x !in CallOf(u, t).start
    && IsRunning(u, x) && !u.entries[x].cancel
    && u.permit.OfCall? && CallOf(u, u.permit.t) == Inserted(x) && u.permit.t != t
  }

  lemma AcquireIsEnabled(u: State, v: nat)
    requires u.permit.Free? && v !in u.calls
    ensures Enabled(u, TryAcquire(v))
    ensures var u' := Apply(u, TryAcquire(v)); u'.permit == OfCall(v) && CallOf(u', v).Reserved?
  {
  }

  lemma InsertEscapes(u: State, t: nat, x: nat)
    requires Inv(u) && CallOf(u, t).Walking? && x !in u.entries
    requires u.permit.OfCall? && CallOf(u, u.permit.t).Reserved?
    ensures Enabled(u, Insert(u.permit.t, x)) && Escapes(Apply(u, Insert(u.permit.t, x)), t, x)
  {
    hide PermitInv, HolderInv, CountedInv, TasksInv, JobsInv;
    assert CallInv(u, CallOf(u, t));
  }

  // ---- The rest of the walk ----

  ghost function LockedCores(u: State): set<nat> {
    set id | id in u.tasks && u.tasks[id].Leaving?
  }

  /** Finished tasks let go of their cores. */
  lemma {:induction false} UnlockCores(s: State, es: seq<Event>, u: State, t: nat, x: nat)
    returns (es': seq<Event>, u': State)
    requires Leads(s, es, u, t, 1) && Escapes(u, t, x)
    ensures Leads(s, es', u', t, 1) && Escapes(u', t, x) && LockedCores(u') == {} && es <= es'
    decreases |LockedCores(u)|
  {
    hide Inv, Enabled, Run, Possible, Leads, Apply, Escapes, LockedCores;
    es', u' := es, u;
    if LockedCores(u) != {} {
      var id :| id in LockedCores(u);
      UnlockOne(u, t, x, id);
      es', u' := More(s, es, u, t, 1, UnlockCore(id));
      Smaller(LockedCores(u), id);
      es', u' := UnlockCores(s, es', u', t, x);
    }
  }

  lemma Smaller(ids: set<nat>, id: nat)
    requires id in ids
    ensures |ids - {id}| < |ids|
  {
  }

  lemma UnlockOne(u: State, t: nat, x: nat, id: nat)
    requires Escapes(u, t, x) && id in LockedCores(u)
    ensures Enabled(u, UnlockCore(id)) && Escapes(Apply(u, UnlockCore(id)), t, x)
    ensures LockedCores(Apply(u, UnlockCore(id))) == LockedCores(u) - {id}
  {
  }

  ghost function ToVisit(u: State, t: nat): set<nat>
    requires CallOf(u, t).Walking?
  {
    CallOf(u, t).start * u.registered - CallOf(u, t).seen
  }

  /** The walk passes the entries it has not seen; none of them runs. */
  lemma {:induction false} VisitRest(s: State, es: seq<Event>, u: State, t: nat, x: nat)
    returns (es': seq<Event>, u': State)
    requires Leads(s, es, u, t, 1) && Escapes(u, t, x) && LockedCores(u) == {}
    ensures Leads(s, es', u', t, 1) && Escapes(u', t, x) && ToVisit(u', t) == {} && es <= es'
    decreases |ToVisit(u, t)|
  {
    hide Inv, Enabled, Run, Possible, Leads, Apply, LockedCores, ToVisit;
    es', u' := es, u;
    if ToVisit(u, t) != {} {
      var id :| id in ToVisit(u, t);
      LeadsKeepsInv(s, es, u, t, 1);
      VisitOne(u, t, x, id);
      es', u' := More(s, es, u, t, 1, ReadState(t, id));
      Smaller(ToVisit(u, t), id);
      es', u' := VisitRest(s, es', u', t, x);
    }
  }

  lemma VisitOne(u: State, t: nat, x: nat, id: nat)
    requires Inv(u) && Escapes(u, t, x) && LockedCores(u) == {} && id in ToVisit(u, t)
    ensures Enabled(u, ReadState(t, id))
    ensures var u' := Apply(u, ReadState(t, id));
      Escapes(u', t, x) && LockedCores(u') == {} && ToVisit(u', t) == ToVisit(u, t) - {id}
  {
    hide CallsInv, CountedInv, TasksInv;
    assert EntryInv(u, id);
    assert id in u.tasks ==> id !in LockedCores(u);
    assert LockedCores(Apply(u, ReadState(t, id))) == LockedCores(u);
  }

  /**
    At any moment of any reachable walk, one insertion is enough for the walk to return while a
    job runs on unstopped.
  */
  lemma EveryWalkCanMissAJob(s: State, es: seq<Event>, u: State, t: nat)
    returns (es': seq<Event>, u': State)
    requires Leads(s, es, u, t, 0) && InWalk(CallOf(u, t))
    ensures Leads(s, es', u', t, 1) && es <= es'
    ensures Enabled(u', EndCancelAll(t)) && Unstopped(u')
  {
    hide Inv, Enabled, Run, Possible, Leads, Apply, Escapes, LockedCores, ToVisit, CanInsert;
    var x;
    es', u' := BetweenEntries(s, es, u, t);
    es', u' := FreePermit(s, es', u', t);
    es', u', x := InsertOne(s, es', u', t);
    es', u' := UnlockCores(s, es', u', t, x);
    es', u' := VisitRest(s, es', u', t, x);
    EscapedIsMissed(u', t, x);
  }

  lemma EscapedIsMissed(u: State, t: nat, x: nat)
    requires Escapes(u, t, x) && ToVisit(u, t) == {}
    ensures Enabled(u, EndCancelAll(t)) && Unstopped(u)
  {
    assert forall id :: id in CallOf(u, t).start * u.registered ==> id !in ToVisit(u, t);
  }

  /**
    A shutdown call can return with a job left running unstopped if and only if a job may be
    inserted while it walks.
  */
  lemma ShutdownMissesExactly(s: State, t: nat, insertions: nat)
    requires Inv(s) && CallOf(s, t).Idle?
    ensures (exists es :: MissingCall(s, es, t) && Inserts(es) <= insertions) <==> insertions >= 1
  {
    hide Inv, Apply, Run, Possible, Unstopped;
    if insertions >= 1 {
      var es, u := ShutdownMissesOne(s, t);
      assert MissingCall(s, es, t) && Inserts(es) <= insertions;
    } else {
      forall es | MissingCall(s, es, t) ensures Inserts(es) >= 1 {
        WithoutInsertionNothingIsMissed(s, es, t);
      }
    }
  }

  lemma ShutdownMissesOne(s: State, t: nat) returns (es: seq<Event>, u: State)
    requires Inv(s) && CallOf(s, t).Idle?
    ensures MissingCall(s, es, t) && Inserts(es) == 1
  {
    hide Inv, Run, Possible, Unstopped;
    es := Nothing(s, t);
    var first;
    first, u := More(s, es, s, t, 0, BeginCancelAll(t));
    assert first[0] == BeginCancelAll(t);
    es, u := EveryWalkCanMissAJob(s, first, u, t);
    assert es[0] == first[0];
  }
}
