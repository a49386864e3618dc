/**
  The single-writer, multi-reader sample ring, used by one thread at a time.
  Every operation is specified against `log`, the unbounded sequence of all samples
  ever pushed: the arrays, the mask index and the two-segment copies are an
  implementation of that log.  Module RingProtocol treats interleaved threads.
*/
module AudioRing {
  import opened RingIndex
  import opened Samples

  datatype ReadStatus = Ready | Wait | Lagged(behind: nat)

  function SaturatingSub(a: nat, b: nat): nat {
    if a <= b then 0 else a - b
  }

  function SafetyMargin(cap: nat): nat { cap / 4 }

  function SafePeekWindow(cap: nat): nat { cap - SafetyMargin(cap) }

  /** What a peek of `n` samples decides from one load of `head`. */
  function Decide(head: nat, tail: nat, n: nat, cap: nat): ReadStatus {
    var avail := SaturatingSub(head, tail);
    if n == 0 then Ready
    else if avail < n then Wait
    else if avail > SafePeekWindow(cap) then Lagged(avail)
    else Ready
  }

  /** The shared part of the ring: its cells, the published head, the writer flag. */
  class AudioBuffer {
    const capacity: nat
    const cells: array<Sample>
    var head: nat
    var writerTaken: bool
    ghost var log: seq<Sample>

    ghost predicate Valid()
      reads this, cells
    {
      && capacity >= 4
      && head == |log|
      && Holds(cells[..], capacity, log)
    }

    constructor (capacity: nat)
      requires capacity >= 4 && IsPowerOfTwo(capacity)
      ensures Valid() && fresh(cells)
      ensures this.capacity == capacity && log == [] && !writerTaken
    {
      this.capacity := capacity;
      cells := new Sample[capacity](_ => 0);
      head, writerTaken, log := 0, false, [];
      new;
      SlotsInRange(capacity);
    }

    /** Panics in the source when a writer already exists. */
    method TakeWriter() returns (w: Writer)
      requires Valid() && !writerTaken
      modifies this`writerTaken
      ensures Valid() && writerTaken && w.inner == this && fresh(w)
    {
      writerTaken := true;
      w := new Writer(this);
    }

    method NewReader() returns (r: Reader)
      requires Valid()
      ensures fresh(r) && r.inner == this && r.tail == |log|
    {
      r := new Reader(this, head);
    }

    method NewReaderAt(behindHead: nat) returns (r: Reader)
      requires Valid()
      ensures fresh(r) && r.inner == this
      ensures r.tail == if behindHead <= |log| then |log| - behindHead else 0
    {
      r := new Reader(this, SaturatingSub(head, behindHead));
    }
  }

  class Writer {
    const inner: AudioBuffer

    constructor (inner: AudioBuffer)
      ensures this.inner == inner
    {
      this.inner := inner;
    }

    /** Appends `samples` to the log; a batch longer than the margin panics in the source. */
    method Push(samples: seq<Sample>)
      requires inner.Valid()
      requires |samples| <= SafetyMargin(inner.capacity)
      modifies inner`head, inner`log, inner.cells
      ensures inner.Valid()
      ensures inner.log == old(inner.log) + samples
    {
      hide Slot;
      var n := |samples|;
      if n == 0 {
        assert inner.log == inner.log + samples;
        return;
      }
      var cap, head := inner.capacity, inner.head;
      var cells := inner.cells;
      ghost var log := inner.log;
      assert IsPowerOfTwo(cap) && cells.Length == cap;
      hide Holds;
      var start := Slot(head, cap);
      SlotInRange(head, cap);
      var first := if cap - start < n then cap - start else n;
      var headPart, wrapPart := samples[..first], samples[first..];
      StoreSegment(cells, cap, log, headPart, start);
      SlotOffset(head, first, cap);
      StoreSegment(cells, cap, log + headPart, wrapPart, 0);
      assert log + headPart + wrapPart == log + samples;
      inner.head := head + n;
      inner.log := log + samples;
    }

    /** Stores `part`, the continuation of `full`, in the cells from `at` on, without wrapping. */
    static method StoreSegment(cells: array<Sample>, cap: nat, ghost full: seq<Sample>, part: seq<Sample>, at: nat)
      requires Holds(cells[..], cap, full) && cells.Length == cap
      requires part != [] ==> Slot(|full|, cap) == at && at + |part| <= cap
      modifies cells
      ensures Holds(cells[..], cap, full + part)
    {
      hide Slot, Holds;
      HoldsPowerOfTwo(cells[..], cap, full);
      assert full + part[..0] == full;
      for i := 0 to |part|
        invariant Holds(cells[..], cap, full + part[..i])
      {
        SlotOffset(|full|, i, cap);
        StoreNext(cells[..], cap, full, part, i, at + i);
        cells[at + i] := part[i];
      }
      assert part[..|part|] == part;
    }

    static lemma HoldsPowerOfTwo(cells: seq<Sample>, cap: nat, full: seq<Sample>)
      requires Holds(cells, cap, full)
      ensures IsPowerOfTwo(cap)
    {
    }

    /** Storing `part[i]` in cell `cell`, the slot of the next position, keeps the ring's promise. */
    static lemma StoreNext(cells: seq<Sample>, cap: nat, full: seq<Sample>, part: seq<Sample>, i: nat, cell: nat)
      requires i < |part| && i <= cap
      requires Holds(cells, cap, full + part[..i])
      requires cell == Slot(|full| + i, cap)
      ensures cell < |cells| == cap
      ensures Holds(cells[cell := part[i]], cap, full + part[..i + 1])
    {
      hide Slot;
      StoreKeepsHolds(cells, cap, full + part[..i], part[i]);
      assert full + part[..i] + [part[i]] == full + part[..i + 1];
    }

    /** Releases the writer slot. */
    method Drop()
      modifies inner`writerTaken
      ensures !inner.writerTaken
    {
      inner.writerTaken := false;
    }
  }

  class Reader {
    const inner: AudioBuffer
    var tail: nat

    constructor (inner: AudioBuffer, tail: nat)
      ensures this.inner == inner && this.tail == tail
    {
      this.inner, this.tail := inner, tail;
    }

    /**
      Copies the oldest unconsumed samples into `out` without consuming them.  With no
      concurrent writer the status is exactly that of one head load, and a `Ready`
      peek returns the next samples of the log.  An oversized `out` panics in the source.
    */
    method PeekInto(out: array<Sample>) returns (status: ReadStatus)
      requires inner.Valid() && out != inner.cells
      requires out.Length <= SafePeekWindow(inner.capacity)
      modifies out
      ensures inner.Valid()
      ensures status == Decide(|inner.log|, tail, out.Length, inner.capacity)
      ensures var window := inner.capacity - inner.capacity / 4;
        && (status.Wait? <==> out.Length > 0 && tail + out.Length > |inner.log|)
        && (status.Lagged? <==> out.Length > 0 && tail + out.Length <= |inner.log| && tail + window < |inner.log|)
        && (status.Lagged? ==> tail + status.behind == |inner.log|)
      ensures status.Ready? && out.Length > 0 ==>
        tail + out.Length <= |inner.log| && out[..] == inner.log[tail..tail + out.Length]
      ensures !status.Ready? ==> out[..] == old(out[..])
    {
      hide Slot, Holds;
      var n := out.Length;
      if n == 0 {
        return Ready;
      }
      var cap := inner.capacity;
      var cmm := cap - cap / 4;
      var h0 := inner.head;
      var avail := SaturatingSub(h0, tail);
      if avail < n {
        return Wait;
      }
      if avail > cmm {
        return Lagged(avail);
      }
      CopyWindow(out);
      var avail1 := SaturatingSub(inner.head, tail);
      status := if avail1 <= cmm then Ready else Lagged(avail1);
    }

    /** The two-segment copy of the samples from `tail` on, all of which the ring still holds. */
    method CopyWindow(out: array<Sample>)
      requires inner.Valid() && out != inner.cells && 0 < out.Length <= inner.capacity
      requires |inner.log| - inner.capacity <= tail && tail + out.Length <= |inner.log|
      modifies out
      ensures out[..] == inner.log[tail..tail + out.Length]
    {
      hide Slot, Holds;
      var n, cap, cells := out.Length, inner.capacity, inner.cells;
      ghost var log, ring := inner.log, cells[..];
      HoldsAll(ring, cap, log);
      var start := Slot(tail, cap);
      SlotInRange(tail, cap);
      var first := if cap - start < n then cap - start else n;
      SegmentsAreSlices(ring, cap, log, tail, n, first);
      ghost var a, b := ring[start..start + first], ring[..n - first];
      CopySegment(cells, start, out, 0, first, a);
      CopySegment(cells, 0, out, first, n - first, b);
      BothSegments(out[..], a, b);
    }

    lemma HoldsAll(cells: seq<Sample>, cap: nat, log: seq<Sample>)
      requires Holds(cells, cap, log)
      ensures IsPowerOfTwo(cap) && |cells| == cap
    {
    }

    /** The two segments of a wrapped window are together a slice of the log. */
    lemma SegmentsAreSlices(cells: seq<Sample>, cap: nat, log: seq<Sample>, p: nat, n: nat, first: nat)
      requires Holds(cells, cap, log) && |log| - cap <= p && p + n <= |log| && n <= cap
      requires Slot(p, cap) <= cap && first == if cap - Slot(p, cap) < n then cap - Slot(p, cap) else n
      ensures cells[Slot(p, cap)..Slot(p, cap) + first] + cells[..n - first] == log[p..p + n]
    {
      hide Slot, Holds;
      HoldsAll(cells, cap, log);
      SegmentIsSlice(cells, cap, log, p, first);
      if first < n {
        SlotOffset(p, first, cap);
        SegmentIsSlice(cells, cap, log, p + first, n - first);
        assert cells[..n - first] == cells[0..0 + (n - first)];
      }
      assert log[p..p + first] + log[p + first..p + n] == log[p..p + n];
    }

    lemma BothSegments(out: seq<Sample>, a: seq<Sample>, b: seq<Sample>)
      requires |out| == |a| + |b| && out[..|a|] == a && out[|a|..] == b
      ensures out == a + b
    {
      assert out == out[..|a|] + out[|a|..];
    }

    /** Copies `count` cells from `from` on into `out` at `at`. */
    static method CopySegment(cells: array<Sample>, from: nat, out: array<Sample>, at: nat, count: nat,
                              ghost segment: seq<Sample>)
      requires out != cells && from + count <= cells.Length && at + count <= out.Length
      requires segment == cells[from..from + count]
      modifies out
      ensures out[..at] == old(out[..at]) && out[at..at + count] == segment
      ensures out[at + count..] == old(out[at + count..])
    {
      for i := 0 to count
        invariant forall j :: 0 <= j < out.Length ==>
          out[j] == if at <= j < at + i then segment[j - at] else old(out[j])
      {
        assert cells[from + i] == segment[i];
        out[at + i] := cells[from + i];
      }
    }

    /** Cells that do not wrap hold a slice of the log. */
    lemma {:induction false} SegmentIsSlice(cells: seq<Sample>, cap: nat, log: seq<Sample>, p: nat, count: nat)
      requires Holds(cells, cap, log) && |log| - cap <= p && p + count <= |log|
      requires Slot(p, cap) + count <= cap
      ensures cells[Slot(p, cap)..Slot(p, cap) + count] == log[p..p + count]
    {
      hide Slot;
      if count > 0 {
        SegmentIsSlice(cells, cap, log, p, count - 1);
        SlotOffset(p, count - 1, cap);
        HeldSample(cells, cap, log, p + count - 1);
        Snoc(cells, Slot(p, cap), count - 1);
        Snoc(log, p, count - 1);
      }
    }

    lemma Snoc(xs: seq<Sample>, at: nat, n: nat)
      requires at + n < |xs|
      ensures xs[at..at + n + 1] == xs[at..at + n] + [xs[at + n]]
    {
    }

    /** Consumes `n` samples; over-advancing panics in the source. */
    method Advance(n: nat)
      requires inner.Valid() && tail + n <= |inner.log|
      modifies this`tail
      ensures tail == old(tail) + n
    {
      tail := tail + n;
    }

    /** Resyncs to the newest `n` samples, or to the start of the log when it is shorter. */
    method SeekLatest(n: nat)
      requires inner.Valid()
      modifies this`tail
      ensures tail == if n <= |inner.log| then |inner.log| - n else 0
    {
      tail := SaturatingSub(inner.head, n);
    }

    method Available() returns (n: nat)
      requires inner.Valid()
      ensures tail + n == if tail <= |inner.log| then |inner.log| else tail
    {
      n := SaturatingSub(inner.head, tail);
    }
  }

  /**
    A resync to `out.Length` followed by a peek into `out`, with no push between them: served
    with the newest samples exactly when the log already holds that many.
  */
  method ResyncThenPeek(reader: Reader, out: array<Sample>) returns (status: ReadStatus)
    requires reader.inner.Valid() && out != reader.inner.cells
    requires 0 < out.Length <= SafePeekWindow(reader.inner.capacity)
    modifies reader`tail, out
    ensures status == if out.Length <= |reader.inner.log| then Ready else Wait
    ensures status.Ready? ==> out[..] == reader.inner.log[|reader.inner.log| - out.Length..]
    ensures status.Wait? ==> out[..] == old(out[..]) && reader.tail == 0
  {
    reader.SeekLatest(out.Length);
    status := reader.PeekInto(out);
  }
}
