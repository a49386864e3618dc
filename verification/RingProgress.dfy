/** What one peek's status promises about later steps of the same run. */
module RingProgress {
  import opened RingIndex
  import opened AudioRing
  import opened RingProtocol

  predicate HasReturned(s: State, r: nat) {
    r in s.readers && s.readers[r].pc.Returned?
  }

  /**
    What a peek decides when it loads the head, and again when it has copied: nothing asked for is
    ready, more than the window panics, too few samples wait, too many behind the head lag.
  */
  lemma PeekDecides(s: State, r: nat, n: nat)
    requires Enabled(s, BeginPeek(r, n))
    ensures var rd := s.readers[r];
      Apply(s, BeginPeek(r, n)).readers[r] == Reader(rd.tail,
        if n == 0 then Returned(0, Ready, [])
        else if n > s.cap - s.cap / 4 then Panicked
        else if rd.tail + n > s.head then Returned(n, Wait, [])
        else if rd.tail + (s.cap - s.cap / 4) < s.head then Returned(n, Lagged(s.head - rd.tail), [])
        else Copying(n, []))
  {
    hide Slot;
  }

  lemma RecheckDecides(s: State, r: nat)
    requires Inv(s) && Enabled(s, Recheck(r))
    ensures var rd := s.readers[r];
      && rd.tail <= s.head
      && Apply(s, Recheck(r)).readers[r] == Reader(rd.tail,
           Returned(rd.pc.n, if s.head <= rd.tail + (s.cap - s.cap / 4) then Ready else Lagged(s.head - rd.tail), rd.pc.out))
  {
    hide Slot, Holds;
    InvOfReader(s, r);
  }

  /** A dropped writer leaves the ring to the next one, and only then is it free to take. */
  lemma WriterHandsOver(s: State)
    ensures s.writer.Idle? ==> Enabled(s, DropWriter) && Enabled(Apply(s, DropWriter), TakeWriter)
    ensures Enabled(s, TakeWriter) ==> s.writer.Absent? && Apply(s, TakeWriter) == s.(writer := Idle)
    ensures !s.writer.Absent? ==> !Enabled(s, TakeWriter)
  {
  }

  /**
    Once a peek has reported `Lagged`, every later first load or recheck at the same tail, by
    any reader, reports `Lagged` by at least as much: retrying without moving tail is futile.
  */
  lemma LaggedIsSticky(s: State, es: seq<Event>, r: nat, e: Event)
    requires Inv(s) && s.maxPush <= SafetyMargin(s.cap) && Schedule(s, es)
    requires HasReturned(s, r) && s.readers[r].pc.status.Lagged?
    requires Enabled(Exec(s, es), e) && (e.Recheck? || (e.BeginPeek? && 0 < e.n <= SafePeekWindow(s.cap)))
    requires Exec(s, es).readers[e.r].tail == s.readers[r].tail
    ensures var s' := Apply(Exec(s, es), e);
      && HasReturned(s', e.r) && s'.readers[e.r].pc.status.Lagged?
      && s'.readers[e.r].pc.status.behind >= s.readers[r].pc.status.behind
  {
    hide Slot, Schedule, Exec;
    RunInv(s, es);
  }

  /** Within the run, a peek of `n` at tail `t` never waits once `head >= t + n` has been seen. */
  lemma {:induction false} NoWaitBelowSeenHead(s: State, es: seq<Event>, r: nat, t: nat)
    requires Inv(s) && s.maxPush <= SafetyMargin(s.cap) && Schedule(s, es)
    requires r in s.readers && s.readers[r].pc.Resting?
    ensures r in Exec(s, es).readers
    ensures var rd := Exec(s, es).readers[r];
      rd.pc.Returned? && rd.pc.status.Wait? && rd.tail == t ==> s.head < t + rd.pc.n
  {
    hide Slot, Holds, Apply, Enabled, ReaderInv, Inv;
    if es != [] {
      var front, e := es[..|es| - 1], es[|es| - 1];
      NoWaitBelowSeenHead(s, front, r, t);
      RunInv(s, front);
      HeadGrows(s, Exec(s, front));
      WaitSaysWhy(Exec(s, front), e, r);
    } else {
      NotReturned(s, r);
    }
  }

  lemma NotReturned(s: State, r: nat)
    requires r in s.readers && s.readers[r].pc.Resting?
    ensures !HasReturned(s, r)
  {
  }

  lemma HeadGrows(s: State, s': State)
    requires Inv(s) && Inv(s') && s.stream <= s'.stream
    ensures s.head <= s'.head
  {
    hide Slot, Holds, ReaderInv;
  }

  /** After a step, a reader stands at a `Wait` only if it did before or found too little just now. */
  lemma WaitSaysWhy(s: State, e: Event, r: nat)
    requires Enabled(s, e) && r in s.readers
    ensures r in Apply(s, e).readers
    ensures var before, after := s.readers[r], Apply(s, e).readers[r];
      after.pc.Returned? && after.pc.status.Wait? ==> after == before || s.head < after.tail + after.pc.n
  {
    hide Slot, Holds;
  }

  /**
    After `seek_latest(m)`, or for a new reader made `m` samples behind the head, with `m` samples
    published: a peek of `m` that returns while at most
    `safe window - m` more have been published returns `Ready` with the `m` samples that
    were the newest ones when the seek ran.
  */
  lemma ResyncIsServed(s: State, start: Event, r: nat, m: nat, es: seq<Event>)
    requires Inv(s) && s.maxPush <= SafetyMargin(s.cap)
    requires start in [SeekLatest(r, m), NewReader(r, m)] && 0 < m <= s.head && Enabled(s, start)
    requires var s1 := Apply(s, start);
      && Schedule(s1, es)
      && HasReturned(Exec(s1, es), r)
      && Exec(s1, es).readers[r].tail == s.head - m
      && Exec(s1, es).readers[r].pc.n == m
      && Exec(s1, es).head <= s.head - m + SafePeekWindow(s.cap)
    ensures var s2 := Exec(Apply(s, start), es);
      s2.readers[r].pc == Returned(m, Ready, s.stream[s.head - m..])
  {
    hide Slot, Schedule, Exec, Holds, Inv, Apply, ReaderInv, Enabled;
    AfterSeek(s, start, r, m);
    var s1 := Apply(s, start);
    StepInv(s, start);
    RunInv(s1, es);
    NoWaitBelowSeenHead(s1, es, r, s.head - m);
    var s2 := Exec(s1, es);
    InvOfReader(s2, r);
    NotBehindIsReady(s2, s2.readers[r]);
    assert s2.stream[s.head - m..s.head] == s.stream[s.head - m..];
  }

  lemma AfterSeek(s: State, start: Event, r: nat, m: nat)
    requires Inv(s) && start in [SeekLatest(r, m), NewReader(r, m)] && 0 < m <= s.head && Enabled(s, start)
    ensures s.head == |s.stream|
    ensures Apply(s, start) == s.(readers := s.readers[r := Reader(s.head - m, Resting)])
  {
    hide Slot, Holds;
  }

  /** Asked for more than is published, both start at the first sample. */
  lemma SeekFromTheStart(s: State, start: Event, r: nat, m: nat)
    requires start in [SeekLatest(r, m), NewReader(r, m)] && m >= s.head && Enabled(s, start)
    ensures Apply(s, start) == s.(readers := s.readers[r := Reader(0, Resting)])
  {
    hide Slot;
  }

  lemma InvOfReader(s: State, r: nat)
    requires Inv(s) && r in s.readers
    ensures ReaderInv(s, s.readers[r])
  {
    hide Slot, Holds, ReaderInv;
  }

  /** A peek that came back, not for want of samples and not too far behind, is ready. */
  lemma NotBehindIsReady(s: State, rd: RingProtocol.Reader)
    requires ReaderInv(s, rd) && rd.pc.Returned? && !rd.pc.status.Wait?
    requires s.head <= rd.tail + SafePeekWindow(s.cap)
    ensures rd.pc.status.Ready? && rd.tail + rd.pc.n <= s.head == |s.stream|
    ensures rd.pc.out == s.stream[rd.tail..rd.tail + rd.pc.n]
  {
  }

  /** After a `Ready` peek of `n`, advancing by `k` panics exactly never when `k <= n`. */
  lemma AdvanceAfterReady(s: State, es: seq<Event>, r: nat, k: nat)
    requires Inv(s) && s.maxPush <= SafetyMargin(s.cap) && Schedule(s, es)
    requires HasReturned(s, r) && s.readers[r].pc.status.Ready? && k <= s.readers[r].pc.n
    requires r in Exec(s, es).readers && Exec(s, es).readers[r] == s.readers[r]
    ensures Enabled(Exec(s, es), Advance(r, k))
    ensures Apply(Exec(s, es), Advance(r, k)).readers[r] == Reader(s.readers[r].tail + k, Resting)
  {
    hide Slot, Schedule, Exec;
    RunInv(s, es);
  }
}
