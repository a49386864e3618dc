/**
  The sample ring under any interleaving of one writer and any number of readers.
  Each event is one atomic operation of the source (a cell store, a cell load, a load or
  store of `head`) together with the thread-local code up to the next one; memory is
  sequentially consistent.  A run is a sequence of enabled events, so a statement about
  every sequence of events is a statement about every interleaving.
*/
module RingProtocol {
  import opened RingIndex
  import opened Samples
  import opened AudioRing

  /** `Storing(batch, k)`: the first `k` samples of `batch` are in their cells, head is not. */
  datatype WriterPc = Absent | Idle | Storing(batch: seq<Sample>, stored: nat)

  /**
    `Copying(n, out)`: the first head load of a peek of `n` admitted it, and `out` has been
    copied so far.  `Returned` remembers the last peek until the reader moves its tail.
  */
  datatype ReaderPc =
    | Resting
    | Copying(n: nat, out: seq<Sample>)
    | Returned(n: nat, status: ReadStatus, out: seq<Sample>)
    | Panicked

  datatype Reader = Reader(tail: nat, pc: ReaderPc)

  /**
    `maxPush` is the longest push admitted (`cap / 4` in the source); `stream` is the
    history of every sample published so far.
  */
  datatype State = State(
    cap: nat, maxPush: nat, cells: seq<Sample>, head: nat, stream: seq<Sample>,
    writer: WriterPc, readers: map<nat, Reader>)

  datatype Event =
    | TakeWriter
    | DropWriter
    | BeginPush(batch: seq<Sample>)
    | StoreCell
    | Publish
    | NewReader(r: nat, behindHead: nat)
    | BeginPeek(r: nat, n: nat)
    | CopyCell(r: nat)
    | Recheck(r: nat)
    | Advance(r: nat, n: nat)
    | SeekLatest(r: nat, n: nat)

  function Init(cap: nat, maxPush: nat): State {
    State(cap, maxPush, seq(cap, _ => 0), 0, [], Absent, map[])
  }

  predicate ReaderEvent(e: Event) {
    e.BeginPeek? || e.CopyCell? || e.Recheck? || e.Advance? || e.SeekLatest?
  }

  predicate Enabled(s: State, e: Event) {
    match e
    case TakeWriter => s.writer.Absent?
    case DropWriter => s.writer.Idle?
    case BeginPush(batch) => s.writer.Idle? && 0 < |batch| <= s.maxPush
    case StoreCell =>
      && s.writer.Storing? && s.writer.stored < |s.writer.batch|
      && 0 < s.cap && Slot(s.head + s.writer.stored, s.cap) < |s.cells|
    case Publish => s.writer.Storing? && s.writer.stored == |s.writer.batch|
    case NewReader(r, _) => r !in s.readers
    case BeginPeek(r, _) => r in s.readers && !s.readers[r].pc.Copying? && !s.readers[r].pc.Panicked?
    case Advance(r, _) => r in s.readers && !s.readers[r].pc.Copying? && !s.readers[r].pc.Panicked?
    case SeekLatest(r, _) => r in s.readers && !s.readers[r].pc.Copying? && !s.readers[r].pc.Panicked?
    case CopyCell(r) =>
      && r in s.readers && s.readers[r].pc.Copying? && |s.readers[r].pc.out| < s.readers[r].pc.n
      && 0 < s.cap && Slot(s.readers[r].tail + |s.readers[r].pc.out|, s.cap) < |s.cells|
    case Recheck(r) =>
      r in s.readers && s.readers[r].pc.Copying? && |s.readers[r].pc.out| == s.readers[r].pc.n
  }

  /** The reader's side of an event: its new local state, from what it loads. */
  function ReaderStep(s: State, rd: Reader, e: Event): Reader
    requires ReaderEvent(e) && e.r in s.readers && rd == s.readers[e.r] && Enabled(s, e)
  {
    match e
    case BeginPeek(_, n) =>
      if n == 0 then rd.(pc := Returned(0, Ready, []))
      else if n > SafePeekWindow(s.cap) then rd.(pc := Panicked)
      else
        var status := Decide(s.head, rd.tail, n, s.cap);
        rd.(pc := if status.Ready? then Copying(n, []) else Returned(n, status, []))
    case CopyCell(_) =>
      rd.(pc := Copying(rd.pc.n, rd.pc.out + [s.cells[Slot(rd.tail + |rd.pc.out|, s.cap)]]))
    case Recheck(_) =>
      var avail1 := SaturatingSub(s.head, rd.tail);
      var status := if avail1 <= SafePeekWindow(s.cap) then Ready else Lagged(avail1);
      rd.(pc := Returned(rd.pc.n, status, rd.pc.out))
    case Advance(_, n) =>
      Reader(rd.tail + n, if rd.tail + n <= s.head then Resting else Panicked)
    case SeekLatest(_, n) =>
      Reader(SaturatingSub(s.head, n), Resting)
  }

  function Apply(s: State, e: Event): State
    requires Enabled(s, e)
  {
    match e
    case TakeWriter => s.(writer := Idle)
    case DropWriter => s.(writer := Absent)
    case BeginPush(batch) => s.(writer := Storing(batch, 0))
    case StoreCell =>
      var Storing(batch, k) := s.writer;
      s.(cells := s.cells[Slot(s.head + k, s.cap) := batch[k]], writer := Storing(batch, k + 1))
    case Publish =>
      s.(head := s.head + |s.writer.batch|, stream := s.stream + s.writer.batch, writer := Idle)
    case NewReader(r, behindHead) =>
      s.(readers := s.readers[r := Reader(SaturatingSub(s.head, behindHead), Resting)])
    case _ =>
      s.(readers := s.readers[e.r := ReaderStep(s, s.readers[e.r], e)])
  }

  predicate Schedule(s: State, es: seq<Event>)
    decreases |es|, 0
  {
    es == [] || (Schedule(s, es[..|es| - 1]) && Enabled(Exec(s, es[..|es| - 1]), es[|es| - 1]))
  }

  /** The state after running the events of `es` in order. */
  function Exec(s: State, es: seq<Event>): State
    requires Schedule(s, es)
    decreases |es|, 1
  {
    if es == [] then s else Apply(Exec(s, es[..|es| - 1]), es[|es| - 1])
  }

  // ---- Invariant ----

  /** Every sample stored so far, published or not. */
  function Stored(s: State): seq<Sample> {
    if s.writer.Storing? && s.writer.stored <= |s.writer.batch|
    then s.stream + s.writer.batch[..s.writer.stored] else s.stream
  }

  /** Each cell holds the newest stored sample of its residue, at most `maxPush` of them unpublished. */
  ghost predicate CellsInv(s: State) {
    && s.cap >= 4
    && s.head == |s.stream|
    && (s.writer.Storing? ==> s.writer.stored <= |s.writer.batch| <= s.maxPush)
    && Holds(s.cells, s.cap, Stored(s))
  }

  ghost predicate ReaderInv(s: State, rd: Reader) {
    match rd.pc
    case Panicked => true
    case Resting => rd.tail <= s.head
    case Copying(n, out) =>
      && 0 < n <= SafePeekWindow(s.cap) && |out| <= n
      && rd.tail + n <= s.head == |s.stream|
      && (s.head - rd.tail <= SafePeekWindow(s.cap) ==> out == s.stream[rd.tail..rd.tail + |out|])
    case Returned(n, status, out) =>
      && rd.tail <= s.head
      && (status.Ready? ==> rd.tail + n <= s.head == |s.stream| && out == s.stream[rd.tail..rd.tail + n])
      && (status.Lagged? ==> SafePeekWindow(s.cap) < status.behind && rd.tail + status.behind <= s.head)
  }

  ghost predicate Inv(s: State) {
    && CellsInv(s)
    && forall r :: r in s.readers ==> ReaderInv(s, s.readers[r])
  }

  lemma InitInv(cap: nat, maxPush: nat)
    requires IsPowerOfTwo(cap) && cap >= 4
    ensures Inv(Init(cap, maxPush))
  {
    SlotsInRange(cap);
  }

  lemma WriterKeepsCells(s: State, e: Event)
    requires CellsInv(s) && Enabled(s, e)
    ensures CellsInv(Apply(s, e))
  {
    hide Slot, Holds, ReaderStep;
    if e.StoreCell? {
      var Storing(batch, k) := s.writer;
      StoreKeepsHolds(s.cells, s.cap, Stored(s), batch[k]);
      assert Stored(s) + [batch[k]] == Stored(Apply(s, e));
    } else if e.Publish? {
      assert Stored(s) == Stored(Apply(s, e));
    } else if e.BeginPush? {
      assert Stored(s) == Stored(Apply(s, e));
    }
  }

  /** The reader that takes the step: only a copy needs the safety margin. */
  lemma ReaderStepInv(s: State, e: Event)
    requires Inv(s) && Enabled(s, e) && ReaderEvent(e)
    requires e.CopyCell? ==> s.maxPush <= SafetyMargin(s.cap)
    ensures ReaderInv(s, ReaderStep(s, s.readers[e.r], e))
  {
    hide Slot, Holds;
    var rd := s.readers[e.r];
    if e.CopyCell? {
      CopyStepInv(s, rd, e);
    }
  }

  /** A copied cell holds the sample of its position as long as the reader has not fallen behind. */
  lemma CopyStepInv(s: State, rd: Reader, e: Event)
    requires Inv(s) && Enabled(s, e) && e.CopyCell? && rd == s.readers[e.r]
    requires s.maxPush <= SafetyMargin(s.cap)
    ensures ReaderInv(s, ReaderStep(s, rd, e))
  {
    hide Slot, Holds;
    assert ReaderInv(s, rd);
    var Copying(n, out) := rd.pc;
    var p := rd.tail + |out|;
    if s.head - rd.tail <= SafePeekWindow(s.cap) {
      HeldSample(s.cells, s.cap, Stored(s), p);
      assert s.stream[rd.tail..p + 1] == s.stream[rd.tail..p] + [s.stream[p]];
    }
  }

  /** The other readers: publishing more samples never invalidates what they copied. */
  lemma ReaderUndisturbed(s: State, s': State, rd: Reader)
    requires ReaderInv(s, rd) && s.cap == s'.cap
    requires s.head == |s.stream| && s'.head == |s'.stream| && s.stream <= s'.stream
    ensures ReaderInv(s', rd)
  {
  }

  lemma StepInv(s: State, e: Event)
    requires Inv(s) && Enabled(s, e)
    requires e.CopyCell? ==> s.maxPush <= SafetyMargin(s.cap)
    ensures Inv(Apply(s, e))
    ensures s.stream <= Apply(s, e).stream && Apply(s, e).cap == s.cap && Apply(s, e).maxPush == s.maxPush
  {
    hide Slot;
    var s' := Apply(s, e);
    WriterKeepsCells(s, e);
    if ReaderEvent(e) {
      ReaderStepInv(s, e);
    }
    forall r | r in s'.readers ensures ReaderInv(s', s'.readers[r]) {
      if ReaderEvent(e) && r == e.r {
        ReaderUndisturbed(s, s', s'.readers[r]);
      } else if r in s.readers {
        ReaderUndisturbed(s, s', s.readers[r]);
      }
    }
  }

  lemma {:induction false} RunInv(s: State, es: seq<Event>)
    requires Inv(s) && s.maxPush <= SafetyMargin(s.cap) && Schedule(s, es)
    ensures Inv(Exec(s, es))
    ensures s.stream <= Exec(s, es).stream
    ensures Exec(s, es).cap == s.cap && Exec(s, es).maxPush == s.maxPush
  {
    hide Slot, Enabled, Apply, Inv;
    if es != [] {
      RunInv(s, es[..|es| - 1]);
      StepInv(Exec(s, es[..|es| - 1]), es[|es| - 1]);
    }
  }

  // ---- Safety ----

  /** A peek that returned `Ready` filled `out` with exactly the samples it asked for. */
  predicate ReadySound(s: State) {
    forall r :: r in s.readers && s.readers[r].pc.Returned? && s.readers[r].pc.status.Ready? ==>
      var Reader(tail, pc) := s.readers[r];
      tail + pc.n <= |s.stream| && pc.out == s.stream[tail..tail + pc.n]
  }

  ghost predicate AlwaysReadySound(cap: nat, maxPush: nat) {
    forall es :: Schedule(Init(cap, maxPush), es) ==> ReadySound(Exec(Init(cap, maxPush), es))
  }

  /** No interleaving returns `Ready` with a mix of old and new samples. */
  lemma ReadyIsNeverMixed(cap: nat, maxPush: nat)
    requires IsPowerOfTwo(cap) && cap >= 4 && maxPush <= SafetyMargin(cap)
    ensures AlwaysReadySound(cap, maxPush)
  {
    hide Slot;
    InitInv(cap, maxPush);
    forall es | Schedule(Init(cap, maxPush), es)
      ensures ReadySound(Exec(Init(cap, maxPush), es))
    {
      RunInv(Init(cap, maxPush), es);
    }
  }
}
