/**
  What a reaper's count says.  It reports how many keys it collected; the map may have lost some
  of them to another reaper before it got to them.
*/
module TrainingReap {
  import opened Wrappers
  import opened TrainingProtocol
  import opened TrainingRuns

  /** After `es`, caller `t` has collected `id` and has not removed it since. */
  ghost predicate Waiting(es: seq<Event>, t: nat, id: nat) {
    exists i :: 0 <= i < |es| && es[i] == Collect(t, id) && !Removed(es, i, t, id)
  }

  /** `t` removes `id` somewhere after position `i`. */
  predicate Removed(es: seq<Event>, i: nat, t: nat, id: nat) {
    exists k :: i < k < |es| && es[k] == Remove(t, id)
  }

  /** In `es` some other caller removes `id` between `t`'s collecting it and `t`'s removing it. */
  ghost predicate Stolen(es: seq<Event>, t: nat, id: nat) {
    exists j :: 0 <= j < |es| && StolenAt(es, t, id, j)
  }

  ghost predicate StolenAt(es: seq<Event>, t: nat, id: nat, j: nat)
    requires j < |es|
  {
    es[j].Remove? && es[j].t != t && es[j].id == id && Waiting(es[..j], t, id)
  }

  lemma RemovedSnoc(es: seq<Event>, e: Event, i: nat, t: nat, id: nat)
    requires i < |es|
    ensures Removed(es + [e], i, t, id) <==> Removed(es, i, t, id) || e == Remove(t, id)
  {
    var more := es + [e];
    if k: nat :| i < k < |es| && es[k] == Remove(t, id) {
      assert more[k] == Remove(t, id);
    }
    assert more[|es|] == e;
    if k: nat :| i < k < |more| && more[k] == Remove(t, id) {
      assert k < |es| ==> es[k] == Remove(t, id);
    }
  }

  lemma WaitingSnoc(es: seq<Event>, e: Event, t: nat, id: nat)
    ensures Waiting(es + [e], t, id) <==> e == Collect(t, id) || (Waiting(es, t, id) && e != Remove(t, id))
  {
    hide Removed;
    var more := es + [e];
    assert more[|es|] == e;
    if e == Collect(t, id) {
      NotRemovedYet(more, t, id);
    }
    if i: nat :| i < |es| && es[i] == Collect(t, id) && !Removed(es, i, t, id) {
      RemovedSnoc(es, e, i, t, id);
      assert more[i] == Collect(t, id);
    }
    if i: nat :| i < |more| && more[i] == Collect(t, id) && !Removed(more, i, t, id) {
      if i < |es| {
        RemovedSnoc(es, e, i, t, id);
        assert es[i] == Collect(t, id);
      }
    }
  }

  lemma NotRemovedYet(es: seq<Event>, t: nat, id: nat)
    requires es != []
    ensures !Removed(es, |es| - 1, t, id)
  {
  }

  lemma StolenSnoc(es: seq<Event>, e: Event, t: nat, id: nat)
    ensures Stolen(es + [e], t, id) <==>
      Stolen(es, t, id) || (e.Remove? && e.t != t && e.id == id && Waiting(es, t, id))
  {
    hide Waiting;
    var more := es + [e];
    assert more[..|es|] == es;
    if j: nat :| j < |es| && StolenAt(es, t, id, j) {
      assert more[..j] == es[..j];
      assert StolenAt(more, t, id, j);
    }
    if e.Remove? && e.t != t && e.id == id && Waiting(es, t, id) {
      assert StolenAt(more, t, id, |es|);
    }
    if j: nat :| j < |more| && StolenAt(more, t, id, j) {
      if j < |es| {
        assert more[..j] == es[..j];
        assert StolenAt(es, t, id, j);
      }
    }
  }

  // ---- One reap call ----

  /** `es` is a run from `s` that begins with `t`'s reap call and does not go beyond its end. */
  predicate OneReap(s: State, es: seq<Event>, t: nat) {
    && Possible(s, es)
    && es != [] && es[0].BeginReap? && es[0].t == t
    && EndReap(t) !in es
  }

  /** The part of what was found that nobody took away. */
  ghost function Kept(es: seq<Event>, t: nat, ids: set<nat>): set<nat> {
    set id | id in ids && !Stolen(es, t, id)
  }

  /** A key that `t` still has to remove: it is gone from the map exactly if somebody else took it. */
  ghost predicate Tracked(s: State, es: seq<Event>, t: nat, id: nat) {
    id in s.entries && Waiting(es, t, id) && (id !in s.registered <==> Stolen(es, t, id))
  }

  /** Only keys of jobs that are no longer in the map are ever stolen. */
  ghost predicate StolenIsGone(s: State, es: seq<Event>, t: nat) {
    forall id :: Stolen(es, t, id) ==> id in s.entries && id !in s.registered
  }

  ghost predicate ReapInv(s: State, es: seq<Event>, t: nat) {
    && StolenIsGone(s, es, t)
    && match CallOf(s, t)
       case Collecting(_, _, found, _, _) => forall id :: id in found ==> Tracked(s, es, t, id)
       case Removing(found, pending, removed, _, _) =>
         && pending <= found
         && (forall id :: id in pending ==> Tracked(s, es, t, id))
         && (forall id :: id in found - pending ==> !Waiting(es, t, id))
         && removed == |Kept(es, t, found - pending)|
       case _ => false
  }

  /** What any event does to the set of known jobs and to one job's place in the map. */
  lemma MapStep(s: State, e: Event, id: nat)
    requires Inv(s) && Enabled(s, e) && id in s.entries
    ensures id in Apply(s, e).entries
    ensures id in Apply(s, e).registered <==> id in s.registered && !(e.Remove? && e.id == id)
  {
    hide PermitInv, HolderInv, TasksInv, CallsInv, CountedInv, EntryInv;
  }

  lemma RemovedIsKnown(s: State, e: Event)
    requires Inv(s) && Enabled(s, e) && (e.Remove? || e.Collect?)
    ensures e.id in s.entries
  {
    hide PermitInv, TasksInv, CountedInv, EntryInv;
    assert CallInv(s, CallOf(s, e.t));
  }

  lemma StolenStaysGone(s: State, es: seq<Event>, t: nat, e: Event)
    requires Inv(s) && Enabled(s, e) && StolenIsGone(s, es, t)
    ensures StolenIsGone(Apply(s, e), es + [e], t)
  {
    hide Inv, Apply, Enabled, Stolen, Waiting;
    forall id | Stolen(es + [e], t, id)
      ensures id in Apply(s, e).entries && id !in Apply(s, e).registered
    {
      StolenSnoc(es, e, t, id);
      if e.Remove? {
        RemovedIsKnown(s, e);
      }
      MapStep(s, e, id);
    }
  }

  lemma TrackedStep(s: State, es: seq<Event>, t: nat, id: nat, e: Event)
    requires Inv(s) && Enabled(s, e) && Tracked(s, es, t, id) && e != Remove(t, id)
    ensures Tracked(Apply(s, e), es + [e], t, id)
  {
    hide Inv, Apply, Enabled, Stolen, Waiting;
    MapStep(s, e, id);
    WaitingSnoc(es, e, t, id);
    StolenSnoc(es, e, t, id);
  }

  /** A key just collected is in the map, so nobody has taken it yet. */
  lemma CollectedIsTracked(s: State, es: seq<Event>, t: nat, id: nat)
    requires Inv(s) && Enabled(s, Collect(t, id)) && StolenIsGone(s, es, t)
    ensures Tracked(Apply(s, Collect(t, id)), es + [Collect(t, id)], t, id)
  {
    hide Inv, Stolen, Waiting;
    MapStep(s, Collect(t, id), id);
    WaitingSnoc(es, Collect(t, id), t, id);
    StolenSnoc(es, Collect(t, id), t, id);
  }

  /** Once removed, a key's fate is sealed. */
  lemma KeptStays(es: seq<Event>, e: Event, t: nat, ids: set<nat>)
    requires forall id :: id in ids ==> !Waiting(es, t, id)
    ensures Kept(es + [e], t, ids) == Kept(es, t, ids)
  {
    hide Stolen, Waiting;
    forall id | id in ids ensures Stolen(es + [e], t, id) <==> Stolen(es, t, id) {
      StolenSnoc(es, e, t, id);
    }
  }

  lemma KeptMore(es: seq<Event>, t: nat, ids: set<nat>, id: nat)
    requires id !in ids
    ensures |Kept(es, t, ids + {id})| == |Kept(es, t, ids)| + if Stolen(es, t, id) then 0 else 1
  {
    hide Stolen;
    var was := Kept(es, t, ids);
    if Stolen(es, t, id) {
      assert Kept(es, t, ids + {id}) == was;
    } else {
      assert Kept(es, t, ids + {id}) == was + {id};
    }
  }

  lemma OtherStep(s: State, es: seq<Event>, t: nat, e: Event)
    requires Inv(s) && Enabled(s, e) && ReapInv(s, es, t) && Mover(e) != Some(t)
    ensures ReapInv(Apply(s, e), es + [e], t)
  {
    hide Inv, Apply, Enabled, Tracked, Kept, StolenIsGone, Waiting, Stolen;
    StolenStaysGone(s, es, t, e);
    OthersStay(s, e, t);
    match CallOf(s, t)
    case Collecting(_, _, found, _, _) =>
      forall id | id in found ensures Tracked(Apply(s, e), es + [e], t, id) {
        TrackedStep(s, es, t, id, e);
      }
    case Removing(found, pending, removed, _, _) =>
      forall id | id in pending ensures Tracked(Apply(s, e), es + [e], t, id) {
        TrackedStep(s, es, t, id, e);
      }
      forall id | id in found - pending ensures !Waiting(es + [e], t, id) {
        WaitingSnoc(es, e, t, id);
      }
      KeptStays(es, e, t, found - pending);
  }

  lemma CollectStep(s: State, es: seq<Event>, t: nat, key: nat)
    requires Inv(s) && Enabled(s, Collect(t, key)) && ReapInv(s, es, t)
    ensures ReapInv(Apply(s, Collect(t, key)), es + [Collect(t, key)], t)
  {
    hide Inv, Tracked, Kept, StolenIsGone, Waiting, Stolen;
    var e := Collect(t, key);
    StolenStaysGone(s, es, t, e);
    CollectedIsTracked(s, es, t, key);
    forall id | id in CallOf(s, t).found ensures Tracked(Apply(s, e), es + [e], t, id) {
      TrackedStep(s, es, t, id, e);
    }
  }

  lemma EndCollectStep(s: State, es: seq<Event>, t: nat)
    requires Inv(s) && Enabled(s, EndCollect(t)) && ReapInv(s, es, t)
    ensures ReapInv(Apply(s, EndCollect(t)), es + [EndCollect(t)], t)
  {
    hide Inv, Tracked, StolenIsGone, Waiting, Stolen;
    var e, found := EndCollect(t), CallOf(s, t).found;
    StolenStaysGone(s, es, t, e);
    forall id | id in found ensures Tracked(Apply(s, e), es + [e], t, id) {
      TrackedStep(s, es, t, id, e);
    }
    assert found - found == {};
    assert Kept(es + [e], t, {}) == {};
  }

  lemma RemoveStep(s: State, es: seq<Event>, t: nat, key: nat)
    requires Inv(s) && Enabled(s, Remove(t, key)) && ReapInv(s, es, t)
    ensures ReapInv(Apply(s, Remove(t, key)), es + [Remove(t, key)], t)
  {
    hide Inv, Tracked, Kept, StolenIsGone, Waiting, Stolen;
    var e, c := Remove(t, key), CallOf(s, t);
    StolenStaysGone(s, es, t, e);
    assert Tracked(s, es, t, key);
    HitExactly(s, es, t, key);
    forall id | id in c.pending - {key} ensures Tracked(Apply(s, e), es + [e], t, id) {
      TrackedStep(s, es, t, id, e);
    }
    forall id | id in c.found - (c.pending - {key}) ensures !Waiting(es + [e], t, id) {
      WaitingSnoc(es, e, t, id);
    }
    StolenSnoc(es, e, t, key);
    KeptStays(es, e, t, c.found - c.pending);
    KeptMore(es + [e], t, c.found - c.pending, key);
    assert c.found - (c.pending - {key}) == (c.found - c.pending) + {key};
  }

  lemma HitExactly(s: State, es: seq<Event>, t: nat, id: nat)
    requires Tracked(s, es, t, id)
    ensures id in s.registered <==> !Stolen(es, t, id)
  {
  }

  lemma ReapStep(s: State, es: seq<Event>, t: nat, e: Event)
    requires Inv(s) && Enabled(s, e) && ReapInv(s, es, t) && e != EndReap(t)
    ensures ReapInv(Apply(s, e), es + [e], t)
  {
    hide Inv, Tracked, Kept, StolenIsGone, Waiting, Stolen, Apply;
    if Mover(e) != Some(t) {
      OtherStep(s, es, t, e);
    } else {
      OwnReapSteps(s, es, t, e);
      match e
      case Collect(_, id) => CollectStep(s, es, t, id);
      case EndCollect(_) => EndCollectStep(s, es, t);
      case Remove(_, id) => RemoveStep(s, es, t, id);
    }
  }

  /** Inside its reap call a caller can only go on with it. */
  lemma OwnReapSteps(s: State, es: seq<Event>, t: nat, e: Event)
    requires Enabled(s, e) && ReapInv(s, es, t) && e != EndReap(t) && Mover(e) == Some(t)
    ensures (e.Collect? || e.EndCollect? || e.Remove?) && e.t == t
  {
  }

  lemma BeginStep(s: State, t: nat, e: Event)
    requires Enabled(s, e) && e.BeginReap? && e.t == t
    ensures ReapInv(Apply(s, e), [e], t)
  {
    forall id ensures !Stolen([e], t, id) {
      assert forall j :: 0 <= j < |[e]| ==> [e][j] == e;
    }
  }

  lemma {:induction false} ReapRun(s: State, es: seq<Event>, t: nat)
    requires Inv(s) && OneReap(s, es, t)
    ensures ReapInv(Run(s, es), es, t)
    decreases |es|
  {
    hide Inv, Apply, Enabled, ReapInv;
    Last(s, es);
    var front, e := es[..|es| - 1], es[|es| - 1];
    if front == [] {
      assert es == [e];
      BeginStep(s, t, e);
    } else {
      assert front[0] == es[0];
      ReapRun(s, front, t);
      RunInv(s, front);
      assert es == front + [e];
      ReapStep(Run(s, front), front, t, e);
    }
  }

  /**
    A reaper reports the number of keys it collected.  When its call is about to return, that is
    the number of entries it took out of the map if and only if no other caller removed one of
    them between its collecting and its removing it.
  */
  lemma ReapCountExactly(s: State, es: seq<Event>, t: nat)
    requires Inv(s) && OneReap(s, es, t) && Enabled(Run(s, es), EndReap(t))
    ensures var c := CallOf(Run(s, es), t);
      |c.found| == c.removed <==> forall id :: id in c.found ==> !Stolen(es, t, id)
  {
    hide Inv, Stolen, Tracked, StolenIsGone;
    ReapRun(s, es, t);
    var c := CallOf(Run(s, es), t);
    var kept := Kept(es, t, c.found);
    assert c.found - c.pending == c.found;
    if forall id :: id in c.found ==> !Stolen(es, t, id) {
      assert kept == c.found;
    } else {
      var id :| id in c.found && Stolen(es, t, id);
      assert id !in kept && kept <= c.found;
      ProperSubset(kept, c.found);
    }
  }

  lemma ProperSubset(a: set<nat>, b: set<nat>)
    requires a < b
    ensures |a| < |b|
  {
    assert b == a + (b - a);
    assert b - a != {};
  }

  // ---- What a reaper takes ----

  /** The call remembers its time and age limit, and has not lost sight of `id`. */
  ghost predicate Pursues(s: State, t: nat, id: nat, start: set<nat>, now: nat, maxAge: nat) {
    && id in s.entries && s.entries[id].finishedAt.Some? && Reapable(s.entries[id], now, maxAge)
    && match CallOf(s, t)
       case Collecting(st, seen, found, n, m) => st == start && n == now && m == maxAge && (id in seen ==> id in found)
       case Removing(_, pending, _, _, _) => id in pending || id !in s.registered
       case _ => false
  }

  lemma PursuitGoesOn(s: State, e: Event, t: nat, id: nat, start: set<nat>, now: nat, maxAge: nat)
    requires Inv(s) && Enabled(s, e) && e != EndReap(t) && id in start && Pursues(s, t, id, start, now, maxAge)
    ensures Pursues(Apply(s, e), t, id, start, now, maxAge)
  {
    hide Inv;
    MapStep(s, e, id);
    FinishedStays(s, e, id);
    if Mover(e) != Some(t) {
      hide Apply, Enabled;
      OthersStay(s, e, t);
    }
  }

  lemma FinishedStays(s: State, e: Event, id: nat)
    requires Inv(s) && Enabled(s, e) && id in s.entries && s.entries[id].finishedAt.Some?
    ensures id in Apply(s, e).entries && Apply(s, e).entries[id].finishedAt == s.entries[id].finishedAt
  {
    hide Apply, Enabled, PermitInv, HolderInv, CallsInv, CountedInv;
    InvTasks(s);
    OneJobEvolves(s, e, id);
    assert EntryInv(s, id);
  }

  lemma {:induction false} PursuitRun(s: State, es: seq<Event>, t: nat, id: nat)
    requires Inv(s) && OneReap(s, es, t) && id in s.registered && id in s.entries
    requires Reapable(s.entries[id], s.clock, es[0].maxAge)
    ensures Pursues(Run(s, es), t, id, s.registered, s.clock, es[0].maxAge)
    decreases |es|
  {
    hide Inv, Apply, Enabled, Pursues, Reapable;
    Last(s, es);
    var front, e := es[..|es| - 1], es[|es| - 1];
    if front == [] {
      PursuitStarts(s, t, id, e);
    } else {
      assert front[0] == es[0];
      PursuitRun(s, front, t, id);
      RunInv(s, front);
      PursuitGoesOn(Run(s, front), e, t, id, s.registered, s.clock, es[0].maxAge);
    }
  }

  lemma PursuitStarts(s: State, t: nat, id: nat, e: Event)
    requires Enabled(s, e) && e.BeginReap? && e.t == t && id in s.entries && Reapable(s.entries[id], s.clock, e.maxAge)
    ensures Pursues(Apply(s, e), t, id, s.registered, s.clock, e.maxAge)
  {
  }

  /**
    When a reap call is about to return, every job that was in the map when the call began, and was
    over for at least the requested age then, has left the map.
  */
  lemma ReaperTakesAllOldJobs(s: State, es: seq<Event>, t: nat, id: nat)
    requires Inv(s) && OneReap(s, es, t) && Enabled(Run(s, es), EndReap(t))
    requires id in s.registered && id in s.entries && s.entries[id].finishedAt.Some?
    requires es[0].maxAge == 0 || s.clock >= s.entries[id].finishedAt.value + es[0].maxAge
    ensures id !in Run(s, es).registered
  {
    hide Inv, Reapable;
    ReapableExactly(s.entries[id], s.clock, es[0].maxAge);
    PursuitRun(s, es, t, id);
  }

  // ---- What a caller can arrange ----

  predicate Reaping(c: Call) { c.Collecting? || c.Removing? }

  /** No other reaper is at work when `t`'s call begins, and none starts before it ends. */
  ghost predicate Alone(s: State, es: seq<Event>, t: nat) {
    && (forall u: nat :: u != t ==> !Reaping(CallOf(s, u)))
    && (forall i :: 0 <= i < |es| && es[i].BeginReap? ==> es[i].t == t)
  }

  lemma {:induction false} StaysAlone(s: State, es: seq<Event>, t: nat, u: nat)
    requires Possible(s, es) && Alone(s, es, t) && u != t
    ensures !Reaping(CallOf(Run(s, es), u))
    decreases |es|
  {
    hide Inv, Apply, Enabled, Reaping;
    if es != [] {
      var front := es[..|es| - 1];
      Last(s, es);
      StaysAlone(s, front, t, u);
      NoReapBegins(Run(s, front), es[|es| - 1], u);
    }
  }

  lemma NoReapBegins(s: State, e: Event, u: nat)
    requires Enabled(s, e) && !Reaping(CallOf(s, u)) && !(e.BeginReap? && e.t == u)
    ensures !Reaping(CallOf(Apply(s, e), u))
  {
    if Mover(e) != Some(u) {
      OthersStay(s, e, u);
    }
  }

  /** A reaper that nobody overlaps reports exactly what it removed. */
  lemma LoneReaperCountsRight(s: State, es: seq<Event>, t: nat)
    requires Inv(s) && OneReap(s, es, t) && Enabled(Run(s, es), EndReap(t)) && Alone(s, es, t)
    ensures var c := CallOf(Run(s, es), t); |c.found| == c.removed
  {
    hide Inv, Apply, Waiting;
    ReapCountExactly(s, es, t);
    forall id ensures !Stolen(es, t, id) {
      forall j: nat | j < |es| ensures !StolenAt(es, t, id, j) {
        if es[j].Remove? && es[j].t != t {
          PossiblePrefix(s, es, j);
          StaysAlone(s, es[..j], t, es[j].t);
        }
      }
    }
  }

  /** Two overlapping reapers that find the same job both report it, though it leaves the map once. */
  lemma OverlappingReapersOvercount() returns (es: seq<Event>)
    ensures Possible(START, es) && Enabled(Run(START, es), EndReap(1)) && Enabled(Run(START, es), EndReap(2))
    ensures |CallOf(Run(START, es), 1).found| + |CallOf(Run(START, es), 2).found| == 2
    ensures CallOf(Run(START, es), 1).removed + CallOf(Run(START, es), 2).removed == 1
    ensures Run(START, es).entries.Keys == {7}
  {
    hide Run, Possible;
    es := OneRemoved();
    es := Then(es, Remove(2, 7));
  }

  lemma OneRemoved() returns (es: seq<Event>)
    ensures Possible(START, es)
    ensures Run(START, es) == State(0, map[7 := Job(Completed, false, Some(0))], {}, map[7 := Gone], Free,
      map[0 := Idle, 1 := Removing({7}, {}, 1, 0, 0), 2 := Removing({7}, {7}, 0, 0, 0)], [])
  {
    hide Run, Possible;
    es := BothCollected();
    es := Then(es, Remove(1, 7));
    assert Run(START, es).calls[1] == Removing({7}, {}, 1, 0, 0);
  }

  lemma BothCollected() returns (es: seq<Event>)
    ensures Possible(START, es)
    ensures Run(START, es) == State(0, map[7 := Job(Completed, false, Some(0))], {7}, map[7 := Gone], Free,
      map[0 := Idle, 1 := Removing({7}, {7}, 0, 0, 0), 2 := Removing({7}, {7}, 0, 0, 0)], [])
  {
    hide Run, Possible;
    es := BothFound();
    es := Then(es, EndCollect(1));
    es := Then(es, EndCollect(2));
  }

  lemma BothFound() returns (es: seq<Event>)
    ensures Possible(START, es)
    ensures Run(START, es) == State(0, map[7 := Job(Completed, false, Some(0))], {7}, map[7 := Gone], Free,
      map[0 := Idle, 1 := Collecting({7}, {7}, {7}, 0, 0), 2 := Collecting({7}, {7}, {7}, 0, 0)], [])
  {
    hide Run, Possible;
    es := BothStarted();
    es := Then(es, Collect(1, 7));
    es := Then(es, Collect(2, 7));
    assert var none: set<nat> := {}; none + {7} == {7};
    assert Run(START, es).calls ==
      map[0 := Idle, 1 := Collecting({7}, {7}, {7}, 0, 0), 2 := Collecting({7}, {7}, {7}, 0, 0)];
  }

  lemma BothStarted() returns (es: seq<Event>)
    ensures Possible(START, es)
    ensures Run(START, es) == State(0, map[7 := Job(Completed, false, Some(0))], {7}, map[7 := Gone], Free,
      map[0 := Idle, 1 := Collecting({7}, {}, {}, 0, 0), 2 := Collecting({7}, {}, {}, 0, 0)], [])
  {
    hide Run, Possible;
    es := FinishedJob();
    es := Then(es, BeginReap(1, 0));
    es := Then(es, BeginReap(2, 0));
  }

  /** A run in which job 7 was spawned, completed at time 0 and released everything. */
  lemma FinishedJob() returns (es: seq<Event>)
    ensures Possible(START, es)
    ensures Run(START, es) == State(0, map[7 := Job(Completed, false, Some(0))], {7}, map[7 := Gone], Free, map[0 := Idle], [])
  {
    hide Run, Possible;
    es := Begin();
    es := Then(es, TryAcquire(0));
    es := Then(es, Insert(0, 7));
    es := Then(es, Launch(0));
    es := Then(es, Publish(7, Completed));
    es := Then(es, DropPermit(7));
    es := Then(es, UnlockCore(7));
  }
}
