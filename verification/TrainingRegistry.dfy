/** The training-job registry as one caller at a time sees it: a map, a permit, and loops over the map. */
module TrainingRegistry {
  import opened Wrappers
  import opened TrainingProtocol

  datatype Entry = Entry(workspace: nat, job: Job)

  datatype RegistryError = InvalidConfig | AnotherTrainRunning | JobNotFound | WrongWorkspace

  predicate Cancellable(e: Entry) { e.job.state.Running? && !e.job.cancel }

  function WithFlag(e: Entry): Entry {
    if e.job.state.Running? then e.(job := e.job.(cancel := true)) else e
  }

  /** The map after the flags of the running jobs among `ids` have been set. */
  function CancelledIn(jobs: map<nat, Entry>, ids: set<nat>): (r: map<nat, Entry>)
    ensures r.Keys == jobs.Keys
  {
    map id | id in jobs :: if id in ids then WithFlag(jobs[id]) else jobs[id]
  }

  function AllCancelled(jobs: map<nat, Entry>): map<nat, Entry> { CancelledIn(jobs, jobs.Keys) }

  lemma CancelledNext(jobs: map<nat, Entry>, ids: set<nat>, id: nat)
    requires id in jobs && id !in ids
    ensures CancelledIn(jobs, ids)[id] == jobs[id]
    ensures CancelledIn(jobs, ids + {id}) == CancelledIn(jobs, ids)[id := WithFlag(jobs[id])]
  {
  }

  lemma CancelledNothing(jobs: map<nat, Entry>)
    ensures CancelledIn(jobs, {}) == jobs
  {
  }

  lemma CancelledStaysOk(jobs: map<nat, Entry>, permitFree: bool)
    requires RegistryOk(jobs, permitFree)
    ensures RegistryOk(AllCancelled(jobs), permitFree)
  {
    StaysOk(jobs, AllCancelled(jobs), permitFree);
  }

  /** The permit is out exactly while some job runs, and then only one does. */
  predicate RegistryOk(jobs: map<nat, Entry>, permitFree: bool) {
    && (permitFree <==> forall id :: id in jobs ==> !jobs[id].job.state.Running?)
    && (forall a, b :: a in jobs && b in jobs && jobs[a].job.state.Running? && jobs[b].job.state.Running? ==> a == b)
    && (forall id :: id in jobs ==> (jobs[id].job.state.Running? <==> jobs[id].job.finishedAt.None?))
  }

  /** A change of the map that leaves every job's outcome alone and drops only finished jobs. */
  lemma StaysOk(jobs: map<nat, Entry>, jobs': map<nat, Entry>, permitFree: bool)
    requires RegistryOk(jobs, permitFree) && jobs'.Keys <= jobs.Keys
    requires forall id :: id in jobs' ==>
      jobs'[id].job.state == jobs[id].job.state && jobs'[id].job.finishedAt == jobs[id].job.finishedAt
    requires forall id :: id in jobs && jobs[id].job.state.Running? ==> id in jobs'
    ensures RegistryOk(jobs', permitFree)
  {
  }

  /** The keys among `ids` whose flag a cancel turns on. */
  ghost function ToCount(jobs: map<nat, Entry>, ids: set<nat>): set<nat> {
    set id | id in ids && id in jobs && Cancellable(jobs[id])
  }

  function Kept(jobs: map<nat, Entry>, now: nat, maxAge: nat): map<nat, Entry> {
    map id | id in jobs && !Reapable(jobs[id].job, now, maxAge) :: jobs[id]
  }

  class JobRegistry {
    var jobs: map<nat, Entry>
    var permitFree: bool

    ghost predicate Valid()
      reads this
    {
      RegistryOk(jobs, permitFree)
    }

    constructor ()
      ensures Valid() && jobs == map[] && permitFree
    {
      jobs, permitFree := map[], true;
    }

    /** Admits a job when its settings are valid and no other trains; `id` is a new UUID. */
    method Spawn(workspace: nat, configOk: bool, id: nat) returns (r: Result<nat, RegistryError>)
      requires Valid() && id !in jobs
      modifies this
      ensures Valid()
      ensures r == if !configOk then Err(InvalidConfig)
                   else if exists j :: j in old(jobs) && old(jobs)[j].job.state.Running? then Err(AnotherTrainRunning)
                   else Ok(id)
      ensures jobs == if r.Ok? then old(jobs)[id := Entry(workspace, Job(Running, false, None))] else old(jobs)
    {
      if !configOk {
        return Err(InvalidConfig);
      }
      if !permitFree {
        return Err(AnotherTrainRunning);
      }
      permitFree := false;
      jobs := jobs[id := Entry(workspace, Job(Running, false, None))];
      assert jobs[id].job.state.Running?;
      return Ok(id);
    }

    /** The end of a job's task. */
    method Finish(id: nat, outcome: JobState, now: nat)
      requires Valid() && id in jobs && jobs[id].job.state.Running? && !outcome.Running?
      modifies this
      ensures Valid() && permitFree
      ensures jobs == old(jobs)[id := old(jobs)[id].(job := Job(outcome, old(jobs)[id].job.cancel, Some(now)))]
    {
      jobs := jobs[id := jobs[id].(job := jobs[id].job.(state := outcome, finishedAt := Some(now)))];
      permitFree := true;
    }

    method Cancel(workspace: nat, id: nat) returns (r: Result<(), RegistryError>)
      requires Valid()
      modifies this`jobs
      ensures Valid()
      ensures r == if id !in old(jobs) then Err(JobNotFound)
                   else if old(jobs)[id].workspace != workspace then Err(WrongWorkspace)
                   else Ok(())
      ensures jobs == if r.Ok? then old(jobs)[id := old(jobs)[id].(job := old(jobs)[id].job.(cancel := true))] else old(jobs)
    {
      if id !in jobs {
        return Err(JobNotFound);
      }
      if jobs[id].workspace != workspace {
        return Err(WrongWorkspace);
      }
      hide RegistryOk;
      ghost var before := jobs;
      jobs := jobs[id := jobs[id].(job := jobs[id].job.(cancel := true))];
      StaysOk(before, jobs, permitFree);
      return Ok(());
    }

    /** Sets a running job's flag and says whether it was off. */
    method StopOne(id: nat) returns (turned: bool)
      requires id in jobs
      modifies this`jobs
      ensures jobs == old(jobs)[id := WithFlag(old(jobs)[id])] && turned == Cancellable(old(jobs)[id])
    {
      turned := false;
      if jobs[id].job.state.Running? {
        turned := !jobs[id].job.cancel;
        jobs := jobs[id := jobs[id].(job := jobs[id].job.(cancel := true))];
      } else {
        assert jobs == jobs[id := jobs[id]];
      }
    }

    /** Stops every running job and counts the flags that were off; a second call counts nothing. */
    method CancelAllForShutdown() returns (n: nat)
      requires Valid()
      modifies this`jobs
      ensures Valid() && jobs == AllCancelled(old(jobs))
      ensures jobs.Keys == old(jobs).Keys
      ensures forall id :: id in old(jobs) ==>
        jobs[id] == if old(jobs)[id].job.state.Running? then old(jobs)[id].(job := old(jobs)[id].job.(cancel := true))
                    else old(jobs)[id]
      ensures n == 1 <==> exists id :: id in old(jobs) && old(jobs)[id].job.state.Running? && !old(jobs)[id].job.cancel
      ensures n == |ToCount(old(jobs), old(jobs).Keys)| <= 1
      ensures ToCount(jobs, jobs.Keys) == {}
    {
      hide RegistryOk, ToCount, Cancellable, WithFlag, CancelledIn;
      n := 0;
      ghost var before, done: set<nat> := jobs, {};
      NothingToCount(before);
      CancelledNothing(before);
      var todo := jobs.Keys;
      while todo != {}
        invariant done !! todo && done + todo == before.Keys
        invariant jobs == CancelledIn(before, done)
        invariant n == |ToCount(before, done)|
        decreases |todo|
      {
        var id :| id in todo;
        CountOneMore(before, done, id);
        CancelledNext(before, done, id);
        var turned := StopOne(id);
        if turned {
          n := n + 1;
        }
        todo, done := todo - {id}, done + {id};
      }
      assert done == before.Keys;
      CancelledStaysOk(before, permitFree);
      AtMostOne(before, permitFree);
      NoneLeft(before);
      CancelledEach(before);
      SomeToCount(before);
    }

    /** Drops what finished at least `maxAge` ago, in two passes, and counts it. */
    method ReapFinished(now: nat, maxAge: nat) returns (n: nat)
      requires Valid()
      modifies this`jobs
      ensures Valid() && jobs == Kept(old(jobs), now, maxAge)
      ensures jobs.Keys <= old(jobs).Keys && forall id :: id in jobs ==> jobs[id] == old(jobs)[id]
      ensures forall id :: id in old(jobs) ==>
        var at := old(jobs)[id].job.finishedAt;
        id !in jobs <==> at.Some? && (maxAge == 0 || now >= at.value + maxAge)
      ensures n == |old(jobs)| - |jobs|
    {
      hide RegistryOk, Reapable;
      ghost var before := jobs;
      var toRemove := set id | id in jobs && Reapable(jobs[id].job, now, maxAge);
      n := |toRemove|;
      KeptCount(before, toRemove);
      KeptIs(before, now, maxAge, toRemove);
      KeptKeepsRunning(before, now, maxAge, permitFree);
      KeptEach(before, now, maxAge);
      RemoveAll(toRemove);
    }

    /** The second pass: one removal per collected key. */
    method RemoveAll(ids: set<nat>)
      modifies this`jobs
      ensures jobs == old(jobs) - ids
    {
      var left := ids;
      while left != {}
        invariant left <= ids && jobs == old(jobs) - (ids - left)
        decreases |left|
      {
        var id :| id in left;
        jobs := jobs - {id};
        left := left - {id};
      }
    }
  }

  lemma KeptIs(jobs: map<nat, Entry>, now: nat, maxAge: nat, reaped: set<nat>)
    requires reaped == set id | id in jobs && Reapable(jobs[id].job, now, maxAge)
    ensures jobs - reaped == Kept(jobs, now, maxAge)
  {
  }

  lemma KeptEach(jobs: map<nat, Entry>, now: nat, maxAge: nat)
    ensures forall id :: id in jobs ==>
      var at := jobs[id].job.finishedAt;
      id !in Kept(jobs, now, maxAge) <==> at.Some? && (maxAge == 0 || now >= at.value + maxAge)
  {
    forall id | id in jobs
      ensures id !in Kept(jobs, now, maxAge) <==>
        jobs[id].job.finishedAt.Some? && (maxAge == 0 || now >= jobs[id].job.finishedAt.value + maxAge)
    {
      ReapableExactly(jobs[id].job, now, maxAge);
    }
  }

  lemma KeptCount(jobs: map<nat, Entry>, reaped: set<nat>)
    requires reaped <= jobs.Keys
    ensures |jobs - reaped| == |jobs| - |reaped|
  {
    var rest := jobs - reaped;
    assert rest.Keys == jobs.Keys - reaped;
    assert |rest.Keys| == |rest| && |jobs.Keys| == |jobs|;
  }

  lemma NothingToCount(jobs: map<nat, Entry>)
    ensures |ToCount(jobs, {})| == 0
  {
    assert ToCount(jobs, {}) == {};
  }

  lemma NoneLeft(jobs: map<nat, Entry>)
    ensures ToCount(AllCancelled(jobs), jobs.Keys) == {}
  {
  }

  lemma CancelledEach(jobs: map<nat, Entry>)
    ensures forall id :: id in jobs ==>
      AllCancelled(jobs)[id] ==
        if jobs[id].job.state.Running? then jobs[id].(job := jobs[id].job.(cancel := true)) else jobs[id]
  {
  }

  lemma SomeToCount(jobs: map<nat, Entry>)
    ensures |ToCount(jobs, jobs.Keys)| >= 1 <==>
      exists id :: id in jobs && jobs[id].job.state.Running? && !jobs[id].job.cancel
  {
    var s := ToCount(jobs, jobs.Keys);
    if |s| >= 1 {
      var id :| id in s;
    }
    if id :| id in jobs && jobs[id].job.state.Running? && !jobs[id].job.cancel {
      assert id in s;
    }
  }

  lemma CountOneMore(jobs: map<nat, Entry>, done: set<nat>, id: nat)
    requires id in jobs && id !in done
    ensures |ToCount(jobs, done + {id})| == |ToCount(jobs, done)| + (if Cancellable(jobs[id]) then 1 else 0)
  {
    var was, now := ToCount(jobs, done), ToCount(jobs, done + {id});
    if Cancellable(jobs[id]) {
      assert now == was + {id} && id !in was;
    } else {
      assert now == was;
    }
  }

  lemma AtMostOne(jobs: map<nat, Entry>, permitFree: bool)
    requires RegistryOk(jobs, permitFree)
    ensures |ToCount(jobs, jobs.Keys)| <= 1
  {
    var s := ToCount(jobs, jobs.Keys);
    if a :| a in s {
      assert s == {a};
    }
  }

  /** Reaping never drops a running job. */
  lemma KeptKeepsRunning(jobs: map<nat, Entry>, now: nat, maxAge: nat, permitFree: bool)
    requires RegistryOk(jobs, permitFree)
    ensures RegistryOk(Kept(jobs, now, maxAge), permitFree)
    ensures forall id :: id in jobs && jobs[id].job.state.Running? ==> id in Kept(jobs, now, maxAge)
  {
    StaysOk(jobs, Kept(jobs, now, maxAge), permitFree);
  }
}
