/**
  The push limit `cap / 4` is exactly the bound the seqlock needs: with any longer push
  admitted there is a run in which a peek returns `Ready` with a sample that was
  overwritten during the copy.
*/
module RingMargin {
  import opened RingIndex
  import opened Samples
  import opened AudioRing
  import opened RingProtocol

  /** `es` is a run from `s0` to `s`, which keeps the cell invariant. */
  ghost predicate Reaches(s0: State, es: seq<Event>, s: State) {
    Schedule(s0, es) && Exec(s0, es) == s && CellsInv(s)
  }

  /** One more event at the end of a run. */
  lemma Then(s0: State, es: seq<Event>, s: State, e: Event) returns (es': seq<Event>, t: State)
    requires Reaches(s0, es, s) && Enabled(s, e)
    ensures t == Apply(s, e) && Reaches(s0, es', t)
  {
    hide Slot, Enabled, Apply, CellsInv;
    es', t := es + [e], Apply(s, e);
    assert es'[..|es'| - 1] == es;
    WriterKeepsCells(s, e);
  }

  lemma StoreIsEnabled(s: State)
    requires CellsInv(s) && s.writer.Storing? && s.writer.stored < |s.writer.batch|
    ensures Enabled(s, StoreCell)
  {
  }

  /** The first `k` cell stores of a push. */
  lemma {:induction false} StoreMany(s0: State, es: seq<Event>, s: State, batch: seq<Sample>, k: nat)
    returns (es': seq<Event>, t: State)
    requires Reaches(s0, es, s) && s.writer == Storing(batch, 0) && k <= |batch|
    ensures Reaches(s0, es', t) && t == s.(cells := t.cells, writer := Storing(batch, k))
  {
    hide Slot, Exec, Schedule, Holds;
    if k == 0 {
      es', t := es, s;
    } else {
      es', t := StoreMany(s0, es, s, batch, k - 1);
      StoreIsEnabled(t);
      es', t := Then(s0, es', t, StoreCell);
    }
  }

  /** A whole push of `batch`; no reader takes a step meanwhile. */
  lemma PushBatch(s0: State, es: seq<Event>, s: State, batch: seq<Sample>)
    returns (es': seq<Event>, t: State)
    requires Reaches(s0, es, s) && s.writer.Idle? && 0 < |batch| <= s.maxPush
    ensures Reaches(s0, es', t)
    ensures t == s.(cells := t.cells, head := s.head + |batch|, stream := s.stream + batch)
  {
    hide Slot, Exec, Schedule, CellsInv;
    es', t := Then(s0, es, s, BeginPush(batch));
    es', t := StoreMany(s0, es', t, batch, |batch|);
    es', t := Then(s0, es', t, Publish);
  }

  function Repeat(x: Sample, k: nat): seq<Sample> { seq(k, _ => x) }

  lemma StartReaches(cap: nat, maxPush: nat)
    requires IsPowerOfTwo(cap) && cap >= 4
    ensures Reaches(Init(cap, maxPush), [], Init(cap, maxPush))
  {
    hide Slot;
    InitInv(cap, maxPush);
  }

  /**
    Half of the counterexample: a reader at sample 0 is admitted to peek one sample at the
    very edge of the safe window, all of it zeros.
  */
  lemma AdmittedAtTheEdge(cap: nat, maxPush: nat) returns (es: seq<Event>, s: State)
    requires IsPowerOfTwo(cap) && cap >= 4 && maxPush > SafetyMargin(cap)
    ensures Reaches(Init(cap, maxPush), es, s)
    ensures s.cap == cap && s.maxPush == maxPush && s.writer.Idle?
    ensures s.head == SafePeekWindow(cap) && |s.stream| > 0 && s.stream[0] == 0
    ensures 0 in s.readers && s.readers[0] == Reader(0, Copying(1, []))
  {
    hide Slot, Exec, Schedule, CellsInv, IsPowerOfTwo;
    var s0 := Init(cap, maxPush);
    StartReaches(cap, maxPush);
    var zeros := Repeat(0, SafetyMargin(cap));
    es, s := Then(s0, [], s0, TakeWriter);
    es, s := Then(s0, es, s, NewReader(0, 0));
    es, s := PushBatch(s0, es, s, zeros);
    es, s := PushBatch(s0, es, s, zeros);
    es, s := PushBatch(s0, es, s, zeros);
    DivisibleByFour(cap);
    es, s := Then(s0, es, s, BeginPeek(0, 1));
  }

  lemma DivisibleByFour(cap: nat)
    requires IsPowerOfTwo(cap) && cap >= 4
    ensures cap == 4 * SafetyMargin(cap)
  {
    assert IsPowerOfTwo(cap / 2);
  }

  /**
    The other half: the writer stores `cap / 4 + 1` cells, the last of them over sample 0,
    before the reader copies it; head has not moved, so the recheck passes.
  */
  lemma LongPushBreaksReady(cap: nat, maxPush: nat) returns (es: seq<Event>)
    requires IsPowerOfTwo(cap) && cap >= 4 && maxPush > SafetyMargin(cap)
    ensures Schedule(Init(cap, maxPush), es) && !ReadySound(Exec(Init(cap, maxPush), es))
  {
    hide Slot, Exec, Schedule, CellsInv, IsPowerOfTwo;
    var s0 := Init(cap, maxPush);
    var s;
    es, s := AdmittedAtTheEdge(cap, maxPush);
    var batch := Repeat(1, SafetyMargin(cap) + 1);
    es, s := Then(s0, es, s, BeginPush(batch));
    es, s := StoreMany(s0, es, s, batch, |batch|);
    FirstCellOverwritten(s, batch);
    es, s := Then(s0, es, s, CopyCell(0));
    assert s.readers[0].pc.out == [1];
    es, s := Then(s0, es, s, Recheck(0));
    assert s.readers[0] == Reader(0, Returned(1, Ready, [1]));
    assert s.stream[0..1][0] == 0;
    assert !ReadySound(s);
  }

  lemma FirstCellOverwritten(s: State, batch: seq<Sample>)
    requires CellsInv(s) && s.head == SafePeekWindow(s.cap)
    requires |batch| == SafetyMargin(s.cap) + 1 && s.writer == Storing(batch, |batch|)
    ensures Slot(0, s.cap) < |s.cells| && s.cells[Slot(0, s.cap)] == batch[SafetyMargin(s.cap)]
  {
    hide Slot;
    SlotOffset(0, s.cap, s.cap);
    SlotInRange(0, s.cap);
    HeldSample(s.cells, s.cap, Stored(s), s.cap);
  }

  /** Every interleaving is free of mixed reads if and only if pushes are limited to `cap / 4`. */
  lemma MarginIsExact(cap: nat, maxPush: nat)
    requires IsPowerOfTwo(cap) && cap >= 4
    ensures AlwaysReadySound(cap, maxPush) <==> maxPush <= SafetyMargin(cap)
  {
    hide Slot;
    if maxPush <= SafetyMargin(cap) {
      ReadyIsNeverMixed(cap, maxPush);
    } else {
      var es := LongPushBreaksReady(cap, maxPush);
    }
  }
}
