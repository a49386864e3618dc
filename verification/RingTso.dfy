/**
  The sample ring on a machine with a FIFO store buffer (x86-TSO): the writer's cell stores and
  head stores wait in the buffer and reach memory one at a time, in order, at any later moment,
  while readers load from memory.  Every such run refines a run of module RingProtocol.
*/
module RingTso {
  import opened RingIndex
  import opened Samples
  import opened AudioRing
  import opened RingProtocol

  datatype Write = CellWrite(slot: nat, x: Sample) | HeadWrite(head: nat)

  /** `Issuing(batch, k)`: the stores of the first `k` samples have been issued. */
  datatype Issue = Quiet | Issuing(batch: seq<Sample>, issued: nat)

  /**
    `cells`, `head`: memory.  `own`: the writer's own view of head.  `pushed`: the history of all
    samples of all pushes begun.
  */
  datatype Tso = Tso(
    cap: nat, maxPush: nat, cells: seq<Sample>, head: nat, readers: map<nat, RingProtocol.Reader>,
    buffer: seq<Write>, own: nat, issue: Issue, pushed: seq<Sample>)

  datatype TsoEvent =
    | StartPush(batch: seq<Sample>)
    | IssueCell
    | IssueHead
    | Flush
    | Read(e: Event)

  /** Memory as readers see it. */
  function View(t: Tso): State {
    State(t.cap, t.maxPush, t.cells, t.head, [], RingProtocol.Idle, t.readers)
  }

  predicate TsoEnabled(t: Tso, e: TsoEvent) {
    match e
    case StartPush(batch) => t.issue.Quiet? && 0 < |batch| <= t.maxPush
    case IssueCell => t.issue.Issuing? && t.issue.issued < |t.issue.batch| && 0 < t.cap
    case IssueHead => t.issue.Issuing? && t.issue.issued == |t.issue.batch|
    case Flush => t.buffer != [] && (t.buffer[0].CellWrite? ==> t.buffer[0].slot < |t.cells|)
    case Read(r) => (ReaderEvent(r) || r.NewReader?) && Enabled(View(t), r)
  }

  function TsoApply(t: Tso, e: TsoEvent): Tso
    requires TsoEnabled(t, e)
  {
    match e
    case StartPush(batch) => t.(issue := Issuing(batch, 0), pushed := t.pushed + batch)
    case IssueCell =>
      var Issuing(batch, k) := t.issue;
      t.(buffer := t.buffer + [CellWrite(Slot(t.own + k, t.cap), batch[k])], issue := Issuing(batch, k + 1))
    case IssueHead =>
      var next := t.own + |t.issue.batch|;
      t.(buffer := t.buffer + [HeadWrite(next)], own := next, issue := Quiet)
    case Flush =>
      match t.buffer[0] {
        case CellWrite(slot, x) => t.(cells := t.cells[slot := x], buffer := t.buffer[1..])
        case HeadWrite(h) => t.(head := h, buffer := t.buffer[1..])
      }
    case Read(r) => t.(readers := Apply(View(t), r).readers)
  }

  predicate TsoRun(t: Tso, es: seq<TsoEvent>)
    decreases |es|, 0
  {
    es == [] || (TsoRun(t, es[..|es| - 1]) && TsoEnabled(TsoExec(t, es[..|es| - 1]), es[|es| - 1]))
  }

  function TsoExec(t: Tso, es: seq<TsoEvent>): Tso
    requires TsoRun(t, es)
    decreases |es|, 1
  {
    if es == [] then t else TsoApply(TsoExec(t, es[..|es| - 1]), es[|es| - 1])
  }

  function TsoInit(cap: nat, maxPush: nat): Tso {
    Tso(cap, maxPush, seq(cap, _ => 0), 0, map[], [], 0, Quiet, [])
  }

  // ---- The stores still to come ----

  /** The stores of `batch`, pushed at head `h`, from its sample `k` on. */
  function StoresFrom(batch: seq<Sample>, k: nat, h: nat, cap: nat): (ws: seq<Write>)
    requires k <= |batch| && 0 < cap
    ensures ws != []
    decreases |batch| - k
  {
    if k == |batch| then [HeadWrite(h + |batch|)]
    else [CellWrite(Slot(h + k, cap), batch[k])] + StoresFrom(batch, k + 1, h, cap)
  }

  function StoresOf(todo: seq<seq<Sample>>, h: nat, cap: nat): seq<Write>
    requires 0 < cap
  {
    if todo == [] then [] else StoresFrom(todo[0], 0, h, cap) + StoresOf(todo[1..], h + |todo[0]|, cap)
  }

  function Joined(todo: seq<seq<Sample>>): seq<Sample> {
    if todo == [] then [] else todo[0] + Joined(todo[1..])
  }

  /** What the sequentially consistent writer of `s` would still store, with `todo` pushes to come. */
  function Ahead(s: State, todo: seq<seq<Sample>>): seq<Write>
    requires 0 < s.cap && (s.writer.Storing? ==> s.writer.stored <= |s.writer.batch|)
  {
    (if s.writer.Storing? then StoresFrom(s.writer.batch, s.writer.stored, s.head, s.cap) else [])
    + StoresOf(todo, NextHead(s), s.cap)
  }

  function Current(s: State): seq<Sample> { if s.writer.Storing? then s.writer.batch else [] }

  function NextHead(s: State): nat { s.head + |Current(s)| }

  /** The stores of the push under way that have not been issued. */
  function Unissued(t: Tso): seq<Write>
    requires 0 < t.cap && (t.issue.Issuing? ==> t.issue.issued <= |t.issue.batch|)
  {
    if t.issue.Issuing? then StoresFrom(t.issue.batch, t.issue.issued, t.own, t.cap) else []
  }

  /**
    Memory of `t` is memory of `s`, and buffer plus unissued stores are exactly what the writer
    of `s` has ahead of it.
  */
  predicate Refines(t: Tso, s: State, todo: seq<seq<Sample>>) {
    && 0 < t.cap == s.cap && t.maxPush == s.maxPush && t.cells == s.cells && t.head == s.head && t.readers == s.readers
    && !s.writer.Absent?
    && (s.writer.Storing? ==> s.writer.stored <= |s.writer.batch|)
    && (t.issue.Issuing? ==> t.issue.issued <= |t.issue.batch|)
    && (forall i :: 0 <= i < |todo| ==> 0 < |todo[i]| <= s.maxPush)
    && t.buffer + Unissued(t) == Ahead(s, todo)
    && t.own + (if t.issue.Issuing? then |t.issue.batch| else 0) == NextHead(s) + |Joined(todo)|
    && t.pushed == s.stream + Current(s) + Joined(todo)
  }

  lemma NoPushes(h: nat, cap: nat)
    requires 0 < cap
    ensures StoresOf([], h, cap) == [] && Joined([]) == []
  {
  }

  lemma FirstPush(todo: seq<seq<Sample>>, h: nat, cap: nat)
    requires 0 < cap && todo != []
    ensures StoresOf(todo, h, cap) == StoresFrom(todo[0], 0, h, cap) + StoresOf(todo[1..], h + |todo[0]|, cap)
    ensures Joined(todo) == todo[0] + Joined(todo[1..])
  {
  }

  lemma {:induction false} StoresOfMore(todo: seq<seq<Sample>>, batch: seq<Sample>, h: nat, cap: nat)
    requires 0 < cap
    ensures StoresOf(todo + [batch], h, cap) == StoresOf(todo, h, cap) + StoresFrom(batch, 0, h + |Joined(todo)|, cap)
    ensures Joined(todo + [batch]) == Joined(todo) + batch
    decreases |todo|
  {
    hide StoresFrom, StoresOf, Joined;
    FirstPush(todo + [batch], h, cap);
    if todo == [] {
      NoPushes(h, cap);
      NoPushes(h + |batch|, cap);
      assert (todo + [batch])[1..] == [];
    } else {
      FirstPush(todo, h, cap);
      StoresOfMore(todo[1..], batch, h + |todo[0]|, cap);
      assert (todo + [batch])[1..] == todo[1..] + [batch];
    }
  }

  lemma FirstStore(batch: seq<Sample>, k: nat, h: nat, cap: nat)
    requires k <= |batch| && 0 < cap
    ensures var ws := StoresFrom(batch, k, h, cap);
      if k < |batch| then ws[0] == CellWrite(Slot(h + k, cap), batch[k]) && ws[1..] == StoresFrom(batch, k + 1, h, cap)
      else ws == [HeadWrite(h + |batch|)]
  {
  }

  lemma StartPushRefines(t: Tso, s: State, todo: seq<seq<Sample>>, batch: seq<Sample>)
    requires Refines(t, s, todo) && TsoEnabled(t, StartPush(batch))
    ensures Refines(TsoApply(t, StartPush(batch)), s, todo + [batch])
  {
    hide StoresFrom, StoresOf, Joined;
    StoresOfMore(todo, batch, NextHead(s), s.cap);
    var t' := TsoApply(t, StartPush(batch));
    assert t'.buffer + Unissued(t') == t.buffer + Unissued(t) + StoresFrom(batch, 0, t.own, t.cap);
    assert Ahead(s, todo + [batch]) == Ahead(s, todo) + StoresFrom(batch, 0, t.own, t.cap);
  }

  lemma IssueRefines(t: Tso, s: State, todo: seq<seq<Sample>>, e: TsoEvent)
    requires Refines(t, s, todo) && TsoEnabled(t, e) && (e.IssueCell? || e.IssueHead?)
    ensures Refines(TsoApply(t, e), s, todo)
  {
    hide StoresFrom, StoresOf, Joined, Slot;
    FirstStore(t.issue.batch, t.issue.issued, t.own, t.cap);
    var t' := TsoApply(t, e);
    var next := Unissued(t)[0];
    assert Unissued(t) == [next] + Unissued(t');
    assert t'.buffer == t.buffer + [next];
    assert t.buffer + [next] + Unissued(t') == t.buffer + ([next] + Unissued(t'));
  }

  lemma ReadRefines(t: Tso, s: State, todo: seq<seq<Sample>>, e: Event)
    requires Refines(t, s, todo) && TsoEnabled(t, Read(e))
    ensures Enabled(s, e) && Refines(TsoApply(t, Read(e)), Apply(s, e), todo)
  {
    hide StoresFrom, StoresOf, Slot;
  }

  /** The oldest buffered store is the next store of the push that `s` is making. */
  lemma OldestStore(t: Tso, s: State, todo: seq<seq<Sample>>)
    requires Refines(t, s, todo) && t.buffer != [] && s.writer.Storing?
    ensures var ws := StoresFrom(s.writer.batch, s.writer.stored, s.head, s.cap);
      t.buffer[0] == ws[0] && t.buffer[1..] + Unissued(t) == ws[1..] + StoresOf(todo, NextHead(s), s.cap)
  {
    hide StoresFrom, StoresOf, Joined;
    var ahead := Ahead(s, todo);
    assert t.buffer[0] == ahead[0];
    assert t.buffer[1..] + Unissued(t) == ahead[1..];
  }

  lemma FlushCellRefines(t: Tso, s: State, todo: seq<seq<Sample>>)
    requires Refines(t, s, todo) && TsoEnabled(t, Flush) && s.writer.Storing? && s.writer.stored < |s.writer.batch|
    ensures Enabled(s, StoreCell) && Refines(TsoApply(t, Flush), Apply(s, StoreCell), todo)
  {
    hide Slot, StoresFrom, StoresOf, Joined;
    OldestStore(t, s, todo);
    FirstStore(s.writer.batch, s.writer.stored, s.head, s.cap);
  }

  lemma FlushHeadRefines(t: Tso, s: State, todo: seq<seq<Sample>>)
    requires Refines(t, s, todo) && TsoEnabled(t, Flush) && s.writer.Storing? && s.writer.stored == |s.writer.batch|
    requires s.head == |s.stream|
    ensures Enabled(s, Publish) && Refines(TsoApply(t, Flush), Apply(s, Publish), todo)
  {
    hide Slot, StoresFrom, StoresOf, Joined;
    OldestStore(t, s, todo);
    FirstStore(s.writer.batch, s.writer.stored, s.head, s.cap);
    var s' := Apply(s, Publish);
    assert [] + StoresOf(todo, NextHead(s'), s.cap) == StoresOf(todo, NextHead(s'), s.cap);
    assert s'.stream + [] == s'.stream;
  }

  lemma BeginRefines(t: Tso, s: State, todo: seq<seq<Sample>>)
    requires Refines(t, s, todo) && s.writer.Idle? && todo != []
    ensures Enabled(s, BeginPush(todo[0])) && Refines(t, Apply(s, BeginPush(todo[0])), todo[1..])
  {
    hide Slot, StoresFrom;
    var s' := Apply(s, BeginPush(todo[0]));
    assert Ahead(s', todo[1..]) == Ahead(s, todo);
    assert s.stream + [] + (todo[0] + Joined(todo[1..])) == s.stream + todo[0] + Joined(todo[1..]);
  }

  // ---- Whole runs ----

  lemma Extended(s: State, es: seq<Event>, e: Event)
    requires Schedule(s, es) && Enabled(Exec(s, es), e)
    ensures Schedule(s, es + [e]) && Exec(s, es + [e]) == Apply(Exec(s, es), e)
  {
    hide Enabled, Apply;
    assert (es + [e])[..|es|] == es;
  }

  /** Every run with a store buffer is matched by a run without one that memory cannot tell apart. */
  lemma {:induction false} Simulated(cap: nat, maxPush: nat, ts: seq<TsoEvent>)
    returns (es: seq<Event>, todo: seq<seq<Sample>>)
    requires IsPowerOfTwo(cap) && cap >= 4 && maxPush <= SafetyMargin(cap)
    requires TsoRun(TsoInit(cap, maxPush), ts)
    ensures Schedule(Init(cap, maxPush), es)
    ensures Refines(TsoExec(TsoInit(cap, maxPush), ts), Exec(Init(cap, maxPush), es), todo)
  {
    hide Refines, Enabled, Apply, TsoEnabled, TsoApply, Schedule, Exec, Inv;
    var s0 := Init(cap, maxPush);
    InitInv(cap, maxPush);
    if ts == [] {
      es := Started(cap, maxPush);
      todo := [];
    } else {
      var t := TsoExec(TsoInit(cap, maxPush), ts[..|ts| - 1]);
      es, todo := Simulated(cap, maxPush, ts[..|ts| - 1]);
      RunInv(s0, es);
      es, todo := SimulatedStep(s0, es, t, todo, ts[|ts| - 1]);
    }
  }

  lemma Started(cap: nat, maxPush: nat) returns (es: seq<Event>)
    requires IsPowerOfTwo(cap) && cap >= 4
    ensures Schedule(Init(cap, maxPush), es)
    ensures Refines(TsoInit(cap, maxPush), Exec(Init(cap, maxPush), es), [])
  {
    es := [TakeWriter];
    assert es[..0] == [];
    assert Exec(Init(cap, maxPush), []) == Init(cap, maxPush);
    assert Exec(Init(cap, maxPush), es) == Init(cap, maxPush).(writer := RingProtocol.Idle);
  }

  lemma SimulatedStep(s0: State, es: seq<Event>, t: Tso, todo: seq<seq<Sample>>, e: TsoEvent)
    returns (es': seq<Event>, todo': seq<seq<Sample>>)
    requires Schedule(s0, es) && Inv(Exec(s0, es)) && Refines(t, Exec(s0, es), todo) && TsoEnabled(t, e)
    ensures Schedule(s0, es') && Refines(TsoApply(t, e), Exec(s0, es'), todo')
    ensures es <= es' && |es'| <= |es| + 2
  {
    hide Refines, Enabled, Apply, TsoEnabled, TsoApply, Schedule, Exec, Inv;
    var s := Exec(s0, es);
    match e
    case StartPush(batch) =>
      StartPushRefines(t, s, todo, batch);
      es', todo' := es, todo + [batch];
    case IssueCell =>
      IssueRefines(t, s, todo, e);
      es', todo' := es, todo;
    case IssueHead =>
      IssueRefines(t, s, todo, e);
      es', todo' := es, todo;
    case Read(r) =>
      ReadRefines(t, s, todo, r);
      Extended(s0, es, r);
      es', todo' := es + [r], todo;
    case Flush =>
      es', todo' := SimulatedFlush(s0, es, t, todo);
  }

  lemma HeadOf(s: State)
    requires Inv(s)
    ensures s.head == |s.stream|
  {
  }

  lemma SimulatedFlush(s0: State, es: seq<Event>, t: Tso, todo: seq<seq<Sample>>)
    returns (es': seq<Event>, todo': seq<seq<Sample>>)
    requires Schedule(s0, es) && Inv(Exec(s0, es)) && Refines(t, Exec(s0, es), todo) && TsoEnabled(t, Flush)
    ensures Schedule(s0, es') && Refines(TsoApply(t, Flush), Exec(s0, es'), todo')
    ensures es <= es' && |es'| <= |es| + 2
  {
    hide Enabled, Apply, Schedule, Exec, Inv, StoresFrom, TsoApply;
    var s := Exec(s0, es);
    HeadOf(s);
    es', todo' := es, todo;
    if s.writer.Idle? {
      BeginRefines(t, s, todo);
      Extended(s0, es, BeginPush(todo[0]));
      BegunPush(s, todo[0]);
      es', todo' := es + [BeginPush(todo[0])], todo[1..];
    }
    var s1 := Exec(s0, es');
    if s1.writer.stored < |s1.writer.batch| {
      FlushCellRefines(t, s1, todo');
      Extended(s0, es', StoreCell);
      es' := es' + [StoreCell];
    } else {
      FlushHeadRefines(t, s1, todo');
      Extended(s0, es', Publish);
      es' := es' + [Publish];
    }
  }

  lemma BegunPush(s: State, batch: seq<Sample>)
    requires Enabled(s, BeginPush(batch))
    ensures Apply(s, BeginPush(batch)) == s.(writer := Storing(batch, 0))
  {
  }

  /** A store that waits can always drain: its cell is one of the ring's. */
  lemma BufferDrains(cap: nat, maxPush: nat, ts: seq<TsoEvent>)
    requires IsPowerOfTwo(cap) && cap >= 4 && maxPush <= SafetyMargin(cap)
    requires TsoRun(TsoInit(cap, maxPush), ts) && TsoExec(TsoInit(cap, maxPush), ts).buffer != []
    ensures TsoEnabled(TsoExec(TsoInit(cap, maxPush), ts), Flush)
  {
    hide Schedule, Exec, TsoRun, TsoExec, Refines, Inv;
    var es, todo := Simulated(cap, maxPush, ts);
    InitInv(cap, maxPush);
    RunInv(Init(cap, maxPush), es);
    OldestFits(TsoExec(TsoInit(cap, maxPush), ts), Exec(Init(cap, maxPush), es), todo);
  }

  lemma OldestFits(t: Tso, s: State, todo: seq<seq<Sample>>)
    requires Inv(s) && Refines(t, s, todo) && t.buffer != []
    ensures TsoEnabled(t, Flush)
  {
    hide Slot, StoresFrom, StoresOf, ReaderInv, Joined;
    if s.writer.Storing? {
      OldestStore(t, s, todo);
      FirstStore(s.writer.batch, s.writer.stored, s.head, s.cap);
    } else {
      FirstOfNext(t, s, todo);
      FirstStore(todo[0], 0, s.head, s.cap);
    }
  }

  /** Between pushes the oldest store is the first of the next push. */
  lemma FirstOfNext(t: Tso, s: State, todo: seq<seq<Sample>>)
    requires Refines(t, s, todo) && t.buffer != [] && !s.writer.Storing?
    ensures todo != [] && t.buffer[0] == StoresFrom(todo[0], 0, s.head, s.cap)[0]
  {
    hide Slot, StoresFrom, Joined;
    assert t.buffer[0] == Ahead(s, todo)[0];
  }

  /**
    With a store buffer, too, a peek that returned `Ready` filled `out` with exactly the samples
    it asked for, out of all that were ever pushed.
  */
  lemma ReadyIsNeverMixedUnderTso(cap: nat, maxPush: nat, ts: seq<TsoEvent>, r: nat)
    requires IsPowerOfTwo(cap) && cap >= 4 && maxPush <= SafetyMargin(cap)
    requires TsoRun(TsoInit(cap, maxPush), ts)
    requires var t := TsoExec(TsoInit(cap, maxPush), ts);
      r in t.readers && t.readers[r].pc.Returned? && t.readers[r].pc.status.Ready?
    ensures var t := TsoExec(TsoInit(cap, maxPush), ts);
      var tail, pc := t.readers[r].tail, t.readers[r].pc;
      tail + pc.n <= |t.pushed| && pc.out == t.pushed[tail..tail + pc.n]
  {
    hide Schedule, Exec, TsoRun, TsoExec, Ahead, Unissued;
    var es, todo := Simulated(cap, maxPush, ts);
    ReadyIsNeverMixed(cap, maxPush);
    var t, s := TsoExec(TsoInit(cap, maxPush), ts), Exec(Init(cap, maxPush), es);
    assert ReadySound(s);
    assert s.stream <= t.pushed;
  }

  // ---- The other direction ----

  lemma TsoExtended(t: Tso, ts: seq<TsoEvent>, e: TsoEvent)
    requires TsoRun(t, ts) && TsoEnabled(TsoExec(t, ts), e)
    ensures TsoRun(t, ts + [e]) && TsoExec(t, ts + [e]) == TsoApply(TsoExec(t, ts), e)
  {
    hide TsoEnabled, TsoApply;
    assert (ts + [e])[..|ts|] == ts;
  }

  /** A drained writer's stores are those its unissued push has left. */
  lemma DrainedIssue(t: Tso, s: State)
    requires Refines(t, s, []) && t.buffer == []
    ensures s.writer.Storing? <==> t.issue.Issuing?
    ensures s.writer.Storing? ==>
      StoresFrom(s.writer.batch, s.writer.stored, s.head, s.cap) == StoresFrom(t.issue.batch, t.issue.issued, t.own, t.cap)
  {
    hide StoresFrom;
    NoPushes(NextHead(s), s.cap);
    assert Ahead(s, []) == if s.writer.Storing? then StoresFrom(s.writer.batch, s.writer.stored, s.head, s.cap) else [];
    assert t.buffer + Unissued(t) == Unissued(t);
  }

  /** From a drained buffer, a step of the writer is issued and drained at once. */
  lemma IssueAndFlush(t: Tso, s: State, e: Event) returns (issue: TsoEvent, t': Tso)
    requires Inv(s) && Refines(t, s, []) && t.buffer == [] && Enabled(s, e) && (e.StoreCell? || e.Publish?)
    ensures TsoEnabled(t, issue) && TsoEnabled(TsoApply(t, issue), Flush)
    ensures t' == TsoApply(TsoApply(t, issue), Flush) && t'.buffer == [] && Refines(t', Apply(s, e), [])
  {
    hide Slot, StoresFrom, StoresOf, Joined, Inv, Refines;
    DrainedIssue(t, s);
    SamePlace(t, s);
    issue := if e.StoreCell? then IssueCell else IssueHead;
    IssueRefines(t, s, [], issue);
    var mid := TsoApply(t, issue);
    OldestFits(mid, s, []);
    t' := TsoApply(mid, Flush);
    assert |mid.buffer| == 1;
    if e.StoreCell? {
      FlushCellRefines(mid, s, []);
    } else {
      HeadOf(s);
      FlushHeadRefines(mid, s, []);
    }
  }

  /** With nothing in the buffer both writers are at the same sample of their pushes. */
  lemma SamePlace(t: Tso, s: State)
    requires Refines(t, s, []) && t.buffer == []
    ensures 0 < t.cap && (s.writer.Storing? <==> t.issue.Issuing?)
    ensures s.writer.Storing? ==>
      && t.issue.issued <= |t.issue.batch| && s.writer.stored <= |s.writer.batch|
      && (s.writer.stored < |s.writer.batch| <==> t.issue.issued < |t.issue.batch|)
  {
    hide StoresFrom;
    DrainedIssue(t, s);
    if s.writer.Storing? {
      FirstStore(s.writer.batch, s.writer.stored, s.head, s.cap);
      FirstStore(t.issue.batch, t.issue.issued, t.own, t.cap);
    }
  }

  /** Every sequentially consistent step is one that a machine with a drained store buffer can take, and drain again. */
  lemma MatchedStep(t0: Tso, ts: seq<TsoEvent>, s: State, e: Event) returns (ts': seq<TsoEvent>)
    requires TsoRun(t0, ts) && TsoExec(t0, ts).buffer == [] && Refines(TsoExec(t0, ts), s, [])
    requires Inv(s) && Enabled(s, e) && !e.TakeWriter? && !e.DropWriter?
    ensures TsoRun(t0, ts') && TsoExec(t0, ts').buffer == [] && Refines(TsoExec(t0, ts'), Apply(s, e), [])
  {
    hide Slot, StoresFrom, StoresOf, Joined, Inv, Refines, TsoRun, TsoExec, Apply;
    var t := TsoExec(t0, ts);
    if e.StoreCell? || e.Publish? {
      var issue, t' := IssueAndFlush(t, s, e);
      TsoExtended(t0, ts, issue);
      TsoExtended(t0, ts + [issue], Flush);
      ts' := ts + [issue] + [Flush];
    } else if e.BeginPush? {
      PushCanStart(t, s, e.batch);
      TsoExtended(t0, ts, StartPush(e.batch));
      StartPushRefines(t, s, [], e.batch);
      var mid := TsoApply(t, StartPush(e.batch));
      assert [] + [e.batch] == [e.batch];
      BeginRefines(mid, s, [e.batch]);
      assert [e.batch][1..] == [];
      ts' := ts + [StartPush(e.batch)];
    } else {
      ReadsMemory(t, s, e);
      TsoExtended(t0, ts, Read(e));
      ReadRefines(t, s, [], e);
      ts' := ts + [Read(e)];
    }
  }

  lemma PushCanStart(t: Tso, s: State, batch: seq<Sample>)
    requires Refines(t, s, []) && t.buffer == [] && Enabled(s, BeginPush(batch))
    ensures TsoEnabled(t, StartPush(batch)) && TsoApply(t, StartPush(batch)).buffer == []
  {
    SamePlace(t, s);
  }

  lemma ReadsMemory(t: Tso, s: State, e: Event)
    requires Refines(t, s, []) && Enabled(s, e) && (ReaderEvent(e) || e.NewReader?)
    ensures TsoEnabled(t, Read(e)) && TsoApply(t, Read(e)).buffer == t.buffer
  {
    hide Slot, StoresFrom, StoresOf;
  }

  /**
    The store buffer adds behaviour and takes none away: every sequentially consistent run whose writer
    is kept is matched by a run with a store buffer that ends drained, memory for memory.
  */
  lemma {:induction false} EveryRunIsPossibleUnderTso(cap: nat, maxPush: nat, es: seq<Event>) returns (ts: seq<TsoEvent>)
    requires IsPowerOfTwo(cap) && cap >= 4 && maxPush <= SafetyMargin(cap)
    requires var s1 := Init(cap, maxPush).(writer := RingProtocol.Idle);
      Schedule(s1, es) && forall i :: 0 <= i < |es| ==> !es[i].TakeWriter? && !es[i].DropWriter?
    ensures TsoRun(TsoInit(cap, maxPush), ts)
    ensures var t, s := TsoExec(TsoInit(cap, maxPush), ts), Exec(Init(cap, maxPush).(writer := RingProtocol.Idle), es);
      t.buffer == [] && t.cells == s.cells && t.head == s.head && t.readers == s.readers
    ensures Refines(TsoExec(TsoInit(cap, maxPush), ts), Exec(Init(cap, maxPush).(writer := RingProtocol.Idle), es), [])
  {
    hide Slot, Apply, Enabled, Inv, TsoEnabled, TsoApply, IsPowerOfTwo;
    var s1 := Init(cap, maxPush).(writer := RingProtocol.Idle);
    TakenInv(cap, maxPush);
    if es == [] {
      ts := [];
      StartsMatched(cap, maxPush);
    } else {
      var front := es[..|es| - 1];
      ts := EveryRunIsPossibleUnderTso(cap, maxPush, front);
      RunInv(s1, front);
      ts := MatchedStep(TsoInit(cap, maxPush), ts, Exec(s1, front), es[|es| - 1]);
    }
  }

  lemma TakenInv(cap: nat, maxPush: nat)
    requires IsPowerOfTwo(cap) && cap >= 4
    ensures Inv(Init(cap, maxPush).(writer := RingProtocol.Idle))
  {
    hide Slot, IsPowerOfTwo;
    InitInv(cap, maxPush);
    StepInv(Init(cap, maxPush), TakeWriter);
  }

  lemma StartsMatched(cap: nat, maxPush: nat)
    requires cap >= 4
    ensures Refines(TsoInit(cap, maxPush), Init(cap, maxPush).(writer := RingProtocol.Idle), [])
  {
  }
}
