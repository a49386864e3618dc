/**
  How the mic arbitrator chooses the source and the channel slot: pure decisions, and what
  they imply over a whole run of periods.  Levels are reals; times are clock ticks.
*/
module SlotPolicy {
  import opened Wrappers

  datatype ChannelSelection = Auto | FixedChannel(channel: nat)

  datatype MicSelection = FirstAvailable | FixedMic(id: nat)

  /** The candidate to run; `FirstAvailable` sticks to an active one that is still listed. */
  function ResolveDesired(policy: MicSelection, candidates: seq<nat>, active: Option<nat>): (d: Option<nat>)
    ensures d.Some? ==> d.value < |candidates|
    ensures policy.FirstAvailable? && active.Some? && active.value in candidates ==>
      d.Some? && candidates[d.value] == active.value
    ensures policy.FirstAvailable? ==> (d.None? <==> candidates == [])
    ensures policy.FixedMic? ==> (d.Some? <==> policy.id in candidates)
    ensures policy.FixedMic? && d.Some? ==> candidates[d.value] == policy.id
  {
    match policy
    case FixedMic(id) => Position(candidates, id)
    case FirstAvailable =>
      if active.Some? && Position(candidates, active.value).Some? then Position(candidates, active.value)
      else if candidates == [] then None else Some(0)
  }

  /** The slot of the highest level, the last one among equals. */
  function Loudest(rms: seq<real>): (i: nat)
    requires rms != []
    ensures i < |rms|
    ensures forall j :: 0 <= j < |rms| ==> rms[j] <= rms[i]
    ensures forall j :: i < j < |rms| ==> rms[j] < rms[i]
  {
    if |rms| == 1 then 0
    else
      var best := Loudest(rms[..|rms| - 1]);
      if rms[best] > rms[|rms| - 1] then best else |rms| - 1
  }

  datatype Knobs = Knobs(hysteresis: real, dwell: nat)

  function SaturatingSince(now: nat, t: nat): nat { if now <= t then 0 else now - t }

  function PickSlot(policy: ChannelSelection, rms: seq<real>, whitelist: seq<nat>, current: Option<nat>,
                    lastSwitch: Option<nat>, now: nat, knobs: Knobs): Option<nat>
    requires current.Some? ==> current.value < |rms|
  {
    if rms == [] then None
    else if policy.FixedChannel? && Position(whitelist, policy.channel).Some? then
      Position(whitelist, policy.channel)
    else
      var loudest := Loudest(rms);
      match current
      case None => Some(loudest)
      case Some(active) =>
        if active == loudest then Some(active)
        else if rms[loudest] > rms[active] * knobs.hysteresis
          && (lastSwitch.None? || SaturatingSince(now, lastSwitch.value) >= knobs.dwell)
        then Some(loudest)
        else Some(active)
  }

  // ---- Runs ----

  /** What one processed period brings: the policy in force, the levels after it, the clock. */
  datatype Period = Period(policy: ChannelSelection, rms: seq<real>, now: nat)

  datatype Choice = Choice(active: Option<nat>, lastSwitch: Option<nat>)

  /** The channel choice decided by level rather than by a fixed, listed channel. */
  predicate DecidedByLevel(p: Period, whitelist: seq<nat>) {
    !(p.policy.FixedChannel? && p.policy.channel in whitelist)
  }

  predicate InRange(c: Choice, whitelist: seq<nat>) {
    c.active.Some? ==> c.active.value < |whitelist|
  }

  function Next(c: Choice, p: Period, whitelist: seq<nat>, knobs: Knobs): (c': Choice)
    requires InRange(c, whitelist) && |p.rms| == |whitelist|
    ensures InRange(c', whitelist)
  {
    var slot := PickSlot(p.policy, p.rms, whitelist, c.active, c.lastSwitch, p.now, knobs);
    Choice(slot, if slot != c.active then Some(p.now) else c.lastSwitch)
  }

  /**
    A fixed channel that is listed is chosen at its first place in the list, whatever the levels,
    the slot in use and the dwell time.
  */
  lemma FixedChannelIsChosen(c: Choice, p: Period, whitelist: seq<nat>, knobs: Knobs)
    requires InRange(c, whitelist) && |p.rms| == |whitelist|
    requires p.policy.FixedChannel? && p.policy.channel in whitelist
    ensures var slot := Next(c, p, whitelist, knobs).active;
      && slot.Some? && slot.value < |whitelist| && whitelist[slot.value] == p.policy.channel
      && forall j :: 0 <= j < slot.value ==> whitelist[j] != p.policy.channel
  {
    var slot := Next(c, p, whitelist, knobs).active;
    assert p.rms != [];
    forall j | 0 <= j < slot.value ensures whitelist[j] != p.policy.channel {
      assert whitelist[j] in whitelist[..slot.value];
    }
  }

  /** Slot `l` has the highest level, and is the last slot that has it. */
  predicate IsLoudest(rms: seq<real>, l: nat) {
    && l < |rms|
    && (forall j :: 0 <= j < |rms| ==> rms[j] <= rms[l])
    && (forall j :: l < j < |rms| ==> rms[j] < rms[l])
  }

  /** At least `dwell` ticks lie between `t` and `now`; a clock that went back counts as none. */
  predicate DwellOver(t: nat, now: nat, dwell: nat) { dwell == 0 || now >= t + dwell }

  /**
    A choice by level, both ways: the loudest slot is taken when nothing was chosen before, or when
    it is another one, beats the old one by the hysteresis factor and the dwell time is over; in
    every other case the slot stays.
  */
  lemma LevelChoiceExactly(c: Choice, p: Period, whitelist: seq<nat>, knobs: Knobs, l: nat)
    requires InRange(c, whitelist) && |p.rms| == |whitelist|
    requires DecidedByLevel(p, whitelist) && IsLoudest(p.rms, l)
    ensures var c' := Next(c, p, whitelist, knobs);
      && (c.active.None? ==> c' == Choice(Some(l), Some(p.now)))
      && (c.active.Some? ==>
            var moves :=
              && c.active.value != l && p.rms[l] > p.rms[c.active.value] * knobs.hysteresis
              && (c.lastSwitch.Some? ==> DwellOver(c.lastSwitch.value, p.now, knobs.dwell));
            c' == if moves then Choice(Some(l), Some(p.now)) else c)
  {
    PickByLevel(c, p, whitelist, knobs, l);
    hide PickSlot, IsLoudest;
  }

  lemma PickByLevel(c: Choice, p: Period, whitelist: seq<nat>, knobs: Knobs, l: nat)
    requires InRange(c, whitelist) && |p.rms| == |whitelist|
    requires DecidedByLevel(p, whitelist) && IsLoudest(p.rms, l)
    ensures var slot := PickSlot(p.policy, p.rms, whitelist, c.active, c.lastSwitch, p.now, knobs);
      && (c.active.None? ==> slot == Some(l))
      && (c.active.Some? ==>
            var moves :=
              && c.active.value != l && p.rms[l] > p.rms[c.active.value] * knobs.hysteresis
              && (c.lastSwitch.Some? ==> DwellOver(c.lastSwitch.value, p.now, knobs.dwell));
            slot == if moves then Some(l) else c.active)
  {
    LoudestIs(p.rms, l);
    NotListed(p, whitelist);
    hide Loudest, IsLoudest, Position, DecidedByLevel;
    if c.active.Some? && c.lastSwitch.Some? {
      DwellIs(c.lastSwitch.value, p.now, knobs.dwell);
    }
    hide SaturatingSince, DwellOver;
  }

  lemma NotListed(p: Period, whitelist: seq<nat>)
    requires DecidedByLevel(p, whitelist)
    ensures p.policy.FixedChannel? ==> Position(whitelist, p.policy.channel).None?
  {
  }

  lemma DwellIs(t: nat, now: nat, dwell: nat)
    ensures SaturatingSince(now, t) >= dwell <==> DwellOver(t, now, dwell)
  {
  }

  /** There is only one loudest slot. */
  lemma LoudestIs(rms: seq<real>, l: nat)
    requires IsLoudest(rms, l)
    ensures rms != [] && Loudest(rms) == l
  {
    assert !(Loudest(rms) < l) && !(l < Loudest(rms));
  }

  /** One booted source: a non-empty whitelist, levels for each slot, a clock that never goes back. */
  predicate Recording(ps: seq<Period>, whitelist: seq<nat>) {
    && whitelist != []
    && (forall i :: 0 <= i < |ps| ==> |ps[i].rms| == |whitelist|)
    && (forall i, j :: 0 <= i <= j < |ps| ==> ps[i].now <= ps[j].now)
  }

  /** The choice after all periods of `ps`, starting as `boot` leaves it. */
  function After(ps: seq<Period>, whitelist: seq<nat>, knobs: Knobs): (c: Choice)
    requires Recording(ps, whitelist)
    ensures InRange(c, whitelist)
  {
    if ps == [] then Choice(None, None)
    else Next(After(ps[..|ps| - 1], whitelist, knobs), ps[|ps| - 1], whitelist, knobs)
  }

  lemma RecordingPrefix(ps: seq<Period>, whitelist: seq<nat>, i: nat)
    requires Recording(ps, whitelist) && i <= |ps|
    ensures Recording(ps[..i], whitelist)
  {
  }

  function ChoiceBefore(ps: seq<Period>, whitelist: seq<nat>, knobs: Knobs, i: nat): (c: Choice)
    requires Recording(ps, whitelist) && i <= |ps|
    ensures InRange(c, whitelist)
  {
    After(ps[..i], whitelist, knobs)
  }

  lemma ChoiceStep(ps: seq<Period>, whitelist: seq<nat>, knobs: Knobs, i: nat)
    requires Recording(ps, whitelist) && i < |ps|
    ensures ChoiceBefore(ps, whitelist, knobs, i + 1) == Next(ChoiceBefore(ps, whitelist, knobs, i), ps[i], whitelist, knobs)
  {
    assert ps[..i + 1][..i] == ps[..i];
  }

  /** Period `i` selects another slot than the one before it, or the first one. */
  predicate Changes(ps: seq<Period>, whitelist: seq<nat>, knobs: Knobs, i: nat)
    requires Recording(ps, whitelist) && i < |ps|
  {
    ChoiceBefore(ps, whitelist, knobs, i + 1).active != ChoiceBefore(ps, whitelist, knobs, i).active
  }

  /** Period `i` moves from one slot to another because of the levels. */
  predicate LevelSwitch(ps: seq<Period>, whitelist: seq<nat>, knobs: Knobs, i: nat)
    requires Recording(ps, whitelist) && i < |ps|
  {
    && Changes(ps, whitelist, knobs, i)
    && ChoiceBefore(ps, whitelist, knobs, i).active.Some?
    && DecidedByLevel(ps[i], whitelist)
  }

  /** `lastSwitch` is the time of a change, and none came after it. */
  lemma {:induction false} LastSwitchIsLatestChange(ps: seq<Period>, whitelist: seq<nat>, knobs: Knobs, n: nat)
    requires Recording(ps, whitelist) && n <= |ps|
    ensures var c := ChoiceBefore(ps, whitelist, knobs, n);
      && (c.active.None? <==> n == 0) && (c.lastSwitch.None? <==> n == 0)
      && (forall i :: 0 <= i < n && Changes(ps, whitelist, knobs, i) ==> ps[i].now <= c.lastSwitch.value)
      && (n > 0 ==> exists i :: 0 <= i < n && Changes(ps, whitelist, knobs, i) && c.lastSwitch == Some(ps[i].now))
  {
    hide Next, After;
    if n == 0 {
      assert ps[..0] == [];
      FirstChoice(whitelist, knobs);
    } else {
      LastSwitchIsLatestChange(ps, whitelist, knobs, n - 1);
      ChoiceStep(ps, whitelist, knobs, n - 1);
      NextSlot(ChoiceBefore(ps, whitelist, knobs, n - 1), ps[n - 1], whitelist, knobs);
      var before, c := ChoiceBefore(ps, whitelist, knobs, n - 1), ChoiceBefore(ps, whitelist, knobs, n);
      forall i | 0 <= i < n && Changes(ps, whitelist, knobs, i) ensures ps[i].now <= c.lastSwitch.value {
        if i < n - 1 {
          assert ps[i].now <= ps[n - 1].now;
        }
      }
      if Changes(ps, whitelist, knobs, n - 1) {
        assert c.lastSwitch == Some(ps[n - 1].now);
      }
    }
  }

  lemma FirstChoice(whitelist: seq<nat>, knobs: Knobs)
    requires whitelist != []
    ensures After([], whitelist, knobs) == Choice(None, None)
  {
  }

  lemma NextSlot(c: Choice, p: Period, whitelist: seq<nat>, knobs: Knobs)
    requires InRange(c, whitelist) && |p.rms| == |whitelist| && whitelist != []
    ensures var c' := Next(c, p, whitelist, knobs);
      && c'.active.Some?
      && (c'.active != c.active ==> c'.lastSwitch == Some(p.now))
      && (c'.active == c.active ==> c'.lastSwitch == c.lastSwitch)
  {
    assert p.rms != [];
  }

  /**
    Every switch by level goes to a slot of maximal level that beats the old one by the
    hysteresis factor, at least `dwell` after every earlier change of slot.
  */
  lemma LevelSwitchRules(ps: seq<Period>, whitelist: seq<nat>, knobs: Knobs, i: nat)
    requires Recording(ps, whitelist) && i < |ps| && LevelSwitch(ps, whitelist, knobs, i)
    ensures var from, to := ChoiceBefore(ps, whitelist, knobs, i).active, ChoiceBefore(ps, whitelist, knobs, i + 1).active;
      && to.Some? && to.value < |whitelist| && from.value < |whitelist|
      && (forall j :: 0 <= j < |whitelist| ==> ps[i].rms[j] <= ps[i].rms[to.value])
      && ps[i].rms[to.value] > ps[i].rms[from.value] * knobs.hysteresis
    ensures forall j :: 0 <= j < i && Changes(ps, whitelist, knobs, j) ==> ps[i].now >= ps[j].now + knobs.dwell
  {
    hide After;
    ChoiceStep(ps, whitelist, knobs, i);
    LastSwitchIsLatestChange(ps, whitelist, knobs, i);
    assert i > 0;
    forall j | 0 <= j < i && Changes(ps, whitelist, knobs, j) ensures ps[i].now >= ps[j].now + knobs.dwell {
      assert ps[j].now <= ps[i].now;
    }
  }

  /**
    Both ways: a period whose choice is made by level moves to the loudest slot if and only if that
    is another one than before, its level beats the old one's by the hysteresis factor, and at least
    `dwell` has passed since every earlier change.
  */
  lemma LevelSwitchExactly(ps: seq<Period>, whitelist: seq<nat>, knobs: Knobs, i: nat, l: nat)
    requires Recording(ps, whitelist) && 0 < i < |ps|
    requires DecidedByLevel(ps[i], whitelist) && IsLoudest(ps[i].rms, l)
    ensures ChoiceBefore(ps, whitelist, knobs, i).active.Some?
    ensures var from, to := ChoiceBefore(ps, whitelist, knobs, i).active, ChoiceBefore(ps, whitelist, knobs, i + 1).active;
      var moves :=
        && from.value != l && ps[i].rms[l] > ps[i].rms[from.value] * knobs.hysteresis
        && forall j :: 0 <= j < i && Changes(ps, whitelist, knobs, j) ==> ps[i].now >= ps[j].now + knobs.dwell;
      && (LevelSwitch(ps, whitelist, knobs, i) <==> moves)
      && to == if moves then Some(l) else from
  {
    hide After, Next;
    ChoiceStep(ps, whitelist, knobs, i);
    LastSwitchIsLatestChange(ps, whitelist, knobs, i);
    var c := ChoiceBefore(ps, whitelist, knobs, i);
    LevelChoiceExactly(c, ps[i], whitelist, knobs, l);
    var k :| 0 <= k < i && Changes(ps, whitelist, knobs, k) && c.lastSwitch == Some(ps[k].now);
    assert ps[k].now <= ps[i].now;
  }

  /** The periods below `n` that switch by level, in order. */
  function LevelSwitches(ps: seq<Period>, whitelist: seq<nat>, knobs: Knobs, n: nat): (at: seq<nat>)
    requires Recording(ps, whitelist) && n <= |ps|
    ensures forall k :: 0 <= k < |at| ==> at[k] < n
  {
    hide LevelSwitch, Recording;
    if n == 0 then []
    else
      var before := LevelSwitches(ps, whitelist, knobs, n - 1);
      if LevelSwitch(ps, whitelist, knobs, n - 1) then before + [n - 1] else before
  }

  /** The list holds exactly the switches by level, each once, in ascending order. */
  lemma {:induction false} LevelSwitchesExactly(ps: seq<Period>, whitelist: seq<nat>, knobs: Knobs, n: nat)
    returns (at: seq<nat>)
    requires Recording(ps, whitelist) && n <= |ps|
    ensures at == LevelSwitches(ps, whitelist, knobs, n)
    ensures forall k :: 0 <= k < |at| ==> at[k] < n && LevelSwitch(ps, whitelist, knobs, at[k])
    ensures forall i :: 0 <= i < n && LevelSwitch(ps, whitelist, knobs, i) ==> i in at
    ensures forall k, m :: 0 <= k < m < |at| ==> at[k] < at[m]
  {
    hide LevelSwitch, Recording, LevelSwitches;
    LevelSwitchesAt(ps, whitelist, knobs, n);
    at := [];
    if n > 0 {
      var before := LevelSwitchesExactly(ps, whitelist, knobs, n - 1);
      at := before;
      if LevelSwitch(ps, whitelist, knobs, n - 1) {
        at := before + [n - 1];
        Appended(before, n - 1);
      }
    }
  }

  lemma LevelSwitchesAt(ps: seq<Period>, whitelist: seq<nat>, knobs: Knobs, n: nat)
    requires Recording(ps, whitelist) && n <= |ps|
    ensures LevelSwitches(ps, whitelist, knobs, n) ==
      if n == 0 then []
      else if LevelSwitch(ps, whitelist, knobs, n - 1) then LevelSwitches(ps, whitelist, knobs, n - 1) + [n - 1]
      else LevelSwitches(ps, whitelist, knobs, n - 1)
  {
    hide LevelSwitch, Recording;
  }

  lemma Appended(at: seq<nat>, n: nat)
    ensures n in at + [n] && forall i :: i in at ==> i in at + [n]
    ensures (at + [n])[|at|] == n && forall k :: 0 <= k < |at| ==> (at + [n])[k] == at[k]
  {
    assert (at + [n])[|at|] == n;
  }

  /** The `k`-th and `m`-th switch are at least `m - k` dwells apart. */
  lemma {:induction false} SwitchesAreSpaced(ps: seq<Period>, whitelist: seq<nat>, knobs: Knobs, k: nat, m: nat)
    requires Recording(ps, whitelist) && k <= m < |LevelSwitches(ps, whitelist, knobs, |ps|)|
    ensures var at := LevelSwitches(ps, whitelist, knobs, |ps|);
      ps[at[m]].now >= ps[at[k]].now + (m - k) * knobs.dwell
    decreases m - k
  {
    hide After, LevelSwitches;
    var at := LevelSwitchesExactly(ps, whitelist, knobs, |ps|);
    if k < m {
      SwitchesAreSpaced(ps, whitelist, knobs, k, m - 1);
      LevelSwitchRules(ps, whitelist, knobs, at[m]);
      assert at[m - 1] < at[m] && Changes(ps, whitelist, knobs, at[m - 1]);
      assert (m - k) * knobs.dwell == (m - 1 - k) * knobs.dwell + knobs.dwell;
    }
  }

  /** Any `span` of time contains at most `span / dwell + 1` switches by level. */
  lemma SwitchRateIsBounded(ps: seq<Period>, whitelist: seq<nat>, knobs: Knobs, k: nat, m: nat, span: nat)
    requires Recording(ps, whitelist) && knobs.dwell > 0
    requires k <= m < |LevelSwitches(ps, whitelist, knobs, |ps|)|
    requires var at := LevelSwitches(ps, whitelist, knobs, |ps|); ps[at[m]].now - ps[at[k]].now <= span
    ensures m - k + 1 <= span / knobs.dwell + 1
  {
    hide After, LevelSwitches;
    SwitchesAreSpaced(ps, whitelist, knobs, k, m);
    QuotientAtLeast(m - k, knobs.dwell, span);
  }

  lemma QuotientAtLeast(n: nat, d: nat, span: nat)
    requires d > 0 && n * d <= span
    ensures n <= span / d
  {
    var q := span / d;
    assert span < (q + 1) * d by { assert span == q * d + span % d; }
    if n > q {
      assert n * d == (q + 1) * d + (n - q - 1) * d;
      NonNegativeProduct(n - q - 1, d);
      assert false;
    }
  }

  lemma NonNegativeProduct(a: nat, b: nat)
    ensures a * b >= 0
  {
  }

  /** From any state, while the levels stay the same a choice by level moves at most once. */
  lemma {:induction false} ConstantLevelsSettle(c: Choice, ps: seq<Period>, whitelist: seq<nat>, knobs: Knobs,
                                                 rms: seq<real>, moves: seq<nat>)
    requires InRange(c, whitelist) && |rms| == |whitelist| && whitelist != []
    requires forall i :: 0 <= i < |ps| ==> ps[i].rms == rms && DecidedByLevel(ps[i], whitelist)
    requires forall k :: 0 <= k < |moves| ==> moves[k] < |ps| && ChoiceAlong(c, ps, whitelist, knobs, moves[k] + 1).active
                                                          != ChoiceAlong(c, ps, whitelist, knobs, moves[k]).active
    requires forall k, m :: 0 <= k < m < |moves| ==> moves[k] < moves[m]
    ensures |moves| <= 1
  {
    if |moves| >= 2 {
      var i, j := moves[0], moves[1];
      MovesToLoudest(c, ps, whitelist, knobs, rms, i);
      StaysAtLoudest(c, ps, whitelist, knobs, rms, i + 1, j + 1);
      StaysAtLoudest(c, ps, whitelist, knobs, rms, i + 1, j);
    }
  }

  function ChoiceAlong(c: Choice, ps: seq<Period>, whitelist: seq<nat>, knobs: Knobs, n: nat): (c': Choice)
    requires InRange(c, whitelist) && n <= |ps|
    requires forall i :: 0 <= i < |ps| ==> |ps[i].rms| == |whitelist|
    ensures InRange(c', whitelist)
  {
    if n == 0 then c else Next(ChoiceAlong(c, ps, whitelist, knobs, n - 1), ps[n - 1], whitelist, knobs)
  }

  lemma MovesToLoudest(c: Choice, ps: seq<Period>, whitelist: seq<nat>, knobs: Knobs, rms: seq<real>, i: nat)
    requires InRange(c, whitelist) && |rms| == |whitelist| && whitelist != [] && i < |ps|
    requires forall i :: 0 <= i < |ps| ==> ps[i].rms == rms && DecidedByLevel(ps[i], whitelist)
    requires ChoiceAlong(c, ps, whitelist, knobs, i + 1).active != ChoiceAlong(c, ps, whitelist, knobs, i).active
    ensures ChoiceAlong(c, ps, whitelist, knobs, i + 1).active == Some(Loudest(rms))
  {
  }

  lemma {:induction false} StaysAtLoudest(c: Choice, ps: seq<Period>, whitelist: seq<nat>, knobs: Knobs,
                                           rms: seq<real>, i: nat, j: nat)
    requires InRange(c, whitelist) && |rms| == |whitelist| && whitelist != [] && i <= j <= |ps|
    requires forall i :: 0 <= i < |ps| ==> ps[i].rms == rms && DecidedByLevel(ps[i], whitelist)
    requires ChoiceAlong(c, ps, whitelist, knobs, i).active == Some(Loudest(rms))
    ensures ChoiceAlong(c, ps, whitelist, knobs, j).active == Some(Loudest(rms))
    decreases j - i
  {
    if i < j {
      StaysAtLoudest(c, ps, whitelist, knobs, rms, i, j - 1);
    }
  }
}
