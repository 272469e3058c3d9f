/** Whether the raise condition holds all through the pending delay. */
module Continuity {
  import opened Domain
  import opened EngineSpec
  import opened Lifecycle
  import opened SlidingWindow

  /** Whenever an alert fires out of pending, every step since it entered pending found the
      raise condition true. */
  ghost predicate DelayIsContinuous(c: Setup) {
    forall ops: seq<Op>, j, i, k ::
      WellTimed(ops) && 0 <= j < k < i < |ops| && Enters(c, ops, j, Pending) && Enters(c, ops, i, Firing)
      && (forall m :: j < m < i ==> !Changes(DecisionAt(c, ops, m))) ==>
        ConditionHolds(c, Slot(c, ops[..k]), ops[k])
  }

  /** The rules whose condition cannot be seen to dip while an alert stays pending: a window that
      empties must have resolved the alert for silence by then. */
  predicate NeverDips(rule: Rule) {
    match rule.kind
    case CountTotal => true
    case CountWindow => rule.raiseN == 1 && rule.silenceSec + rule.hysteresisSec <= rule.windowSec
    case MissingHeartbeat => rule.hysteresisSec == 0
  }

  /** A step that leaves such an alert pending found the condition true. */
  lemma PendingStepHolds(c: Setup, slot: Option<Rt>, op: Op, before: Time)
    requires ValidRule(c.rule) && NeverDips(c.rule) && c.rule.kind != CountWindow
    requires SlotInv(c, slot, before) && before <= op.at && (op.Arrive? ==> ValidEvent(op.event))
    requires StateOf(slot) == Pending && StateOf(Step(c, slot, op).0) == Pending
    requires c.rule.kind == MissingHeartbeat ==> HeartbeatMissing(c.rule, slot.value, before)
    ensures ConditionHolds(c, slot, op)
    ensures c.rule.kind == MissingHeartbeat ==> HeartbeatMissing(c.rule, Step(c, slot, op).0.value, op.at)
  {
  }

  /** Entering pending, a heartbeat rule sees the gap. */
  lemma EntersInGap(c: Setup, slot: Option<Rt>, op: Op, before: Time)
    requires ValidRule(c.rule) && c.rule.kind == MissingHeartbeat
    requires SlotInv(c, slot, before) && before <= op.at
    requires StateOf(slot) != Pending && StateOf(Step(c, slot, op).0) == Pending
    ensures HeartbeatMissing(c.rule, Step(c, slot, op).0.value, op.at)
  {
  }

  lemma {:induction false} PendingSeesGap(c: Setup, ops: seq<Op>)
    requires ValidRule(c.rule) && c.rule.kind == MissingHeartbeat && NeverDips(c.rule) && WellTimed(ops)
    requires StateOf(Slot(c, ops)) == Pending
    ensures HeartbeatMissing(c.rule, Slot(c, ops).value, LastTime(ops))
  {
    hide Step, RtInv, NeverDips;
    var last := |ops| - 1;
    var prefix := ops[..last];
    ReachableStates(c, prefix);
    if StateOf(Slot(c, prefix)) == Pending {
      PendingSeesGap(c, prefix);
      PendingStepHolds(c, Slot(c, prefix), ops[last], LastTime(prefix));
    } else {
      EntersInGap(c, Slot(c, prefix), ops[last], LastTime(prefix));
    }
  }

  /** With a threshold of one, every event is enough on its own. */
  lemma OneEventIsEnough(c: Setup, ops: seq<Op>, k: nat)
    requires ValidRule(c.rule) && c.rule.kind == CountWindow && c.rule.raiseN == 1 && WellTimed(ops)
    requires k < |ops| && ops[k].Arrive?
    ensures ConditionHolds(c, Slot(c, ops[..k]), ops[k])
  {
    var run := ops[..k + 1];
    assert run[..k] == ops[..k];
    RaiseTestIsNaive(c, run);
    var history := Counted(c, ops[..k]);
    var point := WindowPoint(ops[k].at, ops[k].event.aggCnt);
    var cutoff := ops[k].at - Seconds(c.rule.windowSec);
    assert Counted(c, run) == history + [point];
    WithinAppend(history, [point], cutoff);
    WithinAll([point], cutoff);
    hide Within, Counted, Slot, Sum, ConditionHolds;
    SumAppend(Within(history, cutoff), point);
    ReachableStates(c, run);
    PositiveSum(Slot(c, run).value.window);
  }

  lemma SlotAt(c: Setup, ops: seq<Op>, k: nat)
    requires k < |ops|
    ensures Slot(c, ops[..k + 1]) == Step(c, Slot(c, ops[..k]), ops[k]).0
  {
    assert ops[..k + 1][..k] == ops[..k];
  }

  /** A window holds its last event for its whole width. */
  lemma LastEventCounts(c: Setup, ops: seq<Op>, at: Time)
    requires ValidRule(c.rule) && c.rule.kind == CountWindow && c.rule.raiseN == 1 && WellTimed(ops)
    requires IsActive(StateOf(Slot(c, ops))) && at - Slot(c, ops).value.lastSeen < Seconds(c.rule.windowSec)
    ensures ConditionAt(c.rule, Slot(c, ops).value, at)
  {
    hide Slot, Prune, Sum, HeartbeatMissing;
    var rt := Slot(c, ops).value;
    ReachableStates(c, ops);
    ActiveWindowEndsNow(c, ops);
    LastPointStays(rt.window, at - Seconds(c.rule.windowSec), rt.windowSum);
  }

  /** The newest point of a window is the last event. */
  lemma {:induction false} ActiveWindowEndsNow(c: Setup, ops: seq<Op>)
    requires ValidRule(c.rule) && c.rule.kind == CountWindow && WellTimed(ops)
    requires IsActive(StateOf(Slot(c, ops)))
    ensures var rt := Slot(c, ops).value;
            rt.window != [] && rt.window[|rt.window| - 1].at == rt.lastSeen
  {
    hide EventStep, TickStep, RtInv, ConditionHolds;
    var last := |ops| - 1;
    var prefix := ops[..last];
    ReachableStates(c, prefix);
    match ops[last]
    case Arrive(event, at) =>
      RaiseTestIsNaive(c, ops);
      NewestIsWithin(Counted(c, prefix), WindowPoint(at, event.aggCnt), at - Seconds(c.rule.windowSec));
      ArrivalTouches(c, Slot(c, prefix), event, at);
    case Tick(at) =>
      TickKeepsActive(c, Slot(c, prefix), at, LastTime(prefix));
      ActiveWindowEndsNow(c, prefix);
    case Compact(_, _) =>
      ActiveWindowEndsNow(c, prefix);
  }

  lemma ArrivalTouches(c: Setup, slot: Option<Rt>, event: Event, at: Instant)
    ensures EventStep(c.rule, slot, c.id, event, at).0.lastSeen == at
  {
    hide EventApply;
  }

  lemma TickKeepsActive(c: Setup, slot: Option<Rt>, at: Instant, before: Time)
    requires c.rule.kind == CountWindow && SlotInv(c, slot, before)
    requires IsActive(StateOf(Step(c, slot, Tick(at)).0))
    ensures Step(c, slot, Tick(at)).0 == slot
  {
  }

  lemma NewestIsWithin(history: seq<WindowPoint>, point: WindowPoint, cutoff: Time)
    requires point.at >= cutoff
    ensures var window := Within(history + [point], cutoff);
            window != [] && window[|window| - 1] == point
  {
    WithinAppend(history, [point], cutoff);
    WithinAll([point], cutoff);
  }

  /** A tick that keeps such an alert pending finds its last event in the window. */
  lemma TickFindsEvent(c: Setup, slot: Option<Rt>, at: Instant, before: Time)
    requires ValidRule(c.rule) && c.rule.kind == CountWindow && SlotInv(c, slot, before)
    requires StateOf(slot) == Pending && StateOf(Step(c, slot, Tick(at)).0) == Pending
    ensures at - slot.value.lastSeen < Seconds(c.rule.silenceSec + c.rule.hysteresisSec)
  {
  }

  lemma ContinuousAt(c: Setup, ops: seq<Op>, j: nat, i: nat, k: nat)
    requires ValidRule(c.rule) && NeverDips(c.rule) && WellTimed(ops)
    requires j < k < i < |ops| && Enters(c, ops, j, Pending) && Enters(c, ops, i, Firing)
    requires forall m :: j < m < i ==> !Changes(DecisionAt(c, ops, m))
    ensures ConditionHolds(c, Slot(c, ops[..k]), ops[k])
  {
    hide Step, RtInv, HeartbeatMissing, ConditionAt, PruneWindow;
    StaysPending(c, ops, j, k);
    StaysPending(c, ops, j, k + 1);
    ReachableStates(c, ops[..k]);
    SlotAt(c, ops, k);
    if c.rule.kind == CountWindow {
      if ops[k].Tick? {
        TickFindsEvent(c, Slot(c, ops[..k]), ops[k].at, LastTime(ops[..k]));
        LastEventCounts(c, ops[..k], ops[k].at);
      } else if ops[k].Arrive? {
        OneEventIsEnough(c, ops, k);
      }
    } else {
      if c.rule.kind == MissingHeartbeat {
        PendingSeesGap(c, ops[..k]);
      }
      PendingStepHolds(c, Slot(c, ops[..k]), ops[k], LastTime(ops[..k]));
    }
  }

  /** Without a change the alert stays pending. */
  lemma {:induction false} StaysPending(c: Setup, ops: seq<Op>, j: nat, k: nat)
    requires ValidRule(c.rule) && WellTimed(ops) && j < k <= |ops| && Enters(c, ops, j, Pending)
    requires forall m :: j < m < k ==> !Changes(DecisionAt(c, ops, m))
    ensures StateOf(Slot(c, ops[..k])) == Pending
  {
    hide Step, RtInv;
    var last := k - 1;
    SlotAt(c, ops, last);
    assert ops[..last + 1] == ops[..k];
    ReachableStates(c, ops[..last]);
    StepAdvances(c, Slot(c, ops[..last]), ops[last], LastTime(ops[..last]));
    if j < last {
      StaysPending(c, ops, j, last);
      assert !Changes(DecisionAt(c, ops, last));
    }
  }

  // ---------------------------------------------------------------------------
  // The dip.

  /** A run, at whose position `k` the condition is false between entering pending and firing. */
  ghost predicate Dips(c: Setup, ops: seq<Op>, j: nat, k: nat, i: nat) {
    && WellTimed(ops) && j < k < i < |ops| && Enters(c, ops, j, Pending) && Enters(c, ops, i, Firing)
    && (forall m :: j < m < i ==> !Changes(DecisionAt(c, ops, m)))
    && !ConditionHolds(c, Slot(c, ops[..k]), ops[k])
  }

  /** The first event opens the alert as pending. */
  lemma WindowOpensPending(c: Setup) returns (s: Rt)
    requires ValidRule(c.rule) && c.rule.kind == CountWindow && c.rule.pendingEnabled
    ensures Step(c, None, Arrive(SampleEvent(c.rule.raiseN), 1)).0 == Some(s)
    ensures s.state == Pending && s.pendingSince == Some(1)
    ensures s.window == [WindowPoint(1, c.rule.raiseN)] && s.windowSum == c.rule.raiseN && s.lastSeen == 1
    ensures s.ruleName == c.rule.name
    ensures Step(c, None, Arrive(SampleEvent(c.rule.raiseN), 1)).1 == Some(Entered(c.id, Pending, false))
  {
    var point := WindowPoint(1, c.rule.raiseN);
    assert [] + [point] == [point];
    assert PruneWindow([point], 1, Seconds(c.rule.windowSec), c.rule.raiseN) == ([point], c.rule.raiseN);
    s := Step(c, None, Arrive(SampleEvent(c.rule.raiseN), 1)).0.value;
  }

  /** One event after the window emptied: not enough, and the alert stays pending. */
  lemma WindowDips(c: Setup, s: Rt, at: Instant) returns (next: Rt)
    requires ValidRule(c.rule) && c.rule.kind == CountWindow && c.rule.raiseN >= 2
    requires s.state == Pending && s.pendingSince == Some(1)
    requires s.window == [WindowPoint(1, c.rule.raiseN)] && s.windowSum == c.rule.raiseN
    requires at > 1 + Seconds(c.rule.windowSec)
    ensures var op := Arrive(SampleEvent(1), at);
            && !ConditionHolds(c, Some(s), op)
            && Step(c, Some(s), op) == (Some(next), Some(Noted(s.alertId)))
    ensures next.state == Pending && next.pendingSince == Some(1) && next.window == [WindowPoint(at, 1)] && next.windowSum == 1
  {
    var p, q := WindowPoint(1, c.rule.raiseN), WindowPoint(at, 1);
    assert [p] + [q] == [p, q] && [p, q][1..] == [q];
    assert Prune([q], at - Seconds(c.rule.windowSec), 1) == ([q], 1);
    assert PruneWindow([p, q], at, Seconds(c.rule.windowSec), c.rule.raiseN + 1) == ([q], 1);
    next := Step(c, Some(s), Arrive(SampleEvent(1), at)).0.value;
  }

  /** Enough events after the delay: the alert fires. */
  lemma WindowFires(c: Setup, s: Rt, at: Instant, p: WindowPoint)
    requires ValidRule(c.rule) && c.rule.kind == CountWindow
    requires s.state == Pending && s.pendingSince == Some(1) && s.window == [p] && s.windowSum == p.count == 1
    requires at - 1 >= Seconds(c.rule.pendingDelaySec)
    ensures var d := Step(c, Some(s), Arrive(SampleEvent(c.rule.raiseN), at)).1;
            Changes(d) && d.value.state == Firing
  {
    var q := WindowPoint(at, c.rule.raiseN);
    assert [p] + [q] == [p, q] && [p, q][1..] == [q];
    assert Prune([q], at - Seconds(c.rule.windowSec), c.rule.raiseN) == ([q], c.rule.raiseN);
    assert PruneWindow([p, q], at, Seconds(c.rule.windowSec), 1 + c.rule.raiseN).1 >= c.rule.raiseN;
    hide PruneWindow;
  }

  lemma WindowDipRun(c: Setup) returns (ops: seq<Op>)
    requires ValidRule(c.rule) && c.rule.kind == CountWindow && c.rule.pendingEnabled && c.rule.raiseN >= 2
    ensures Dips(c, ops, 0, 1, 2)
  {
    hide Step, ConditionHolds, Prune;
    var t1 := 2 + Seconds(c.rule.windowSec);
    var t2 := t1 + Seconds(c.rule.pendingDelaySec);
    var s1 := WindowOpensPending(c);
    var s2 := WindowDips(c, s1, t1);
    WindowFires(c, s2, t2, WindowPoint(t1, 1));
    ops := [Arrive(SampleEvent(c.rule.raiseN), 1), Arrive(SampleEvent(1), t1), Arrive(SampleEvent(c.rule.raiseN), t2)];
    assert Slot(c, ops[..0]) == None;
    SlotAt(c, ops, 0);
    SlotAt(c, ops, 1);
    assert DecisionAt(c, ops, 0) == Some(Entered(c.id, Pending, false));
    assert DecisionAt(c, ops, 1) == Some(Noted(s1.alertId));
  }

  /** The window of a single event has emptied, but its silence timeout has not yet run out. */
  lemma TickDips(c: Setup, s: Rt, at: Instant)
    requires ValidRule(c.rule) && c.rule.kind == CountWindow && c.rule.silenceSec + c.rule.hysteresisSec > c.rule.windowSec
    requires s.state == Pending && s.ruleName == c.rule.name && s.lastSeen == 1
    requires s.window == [WindowPoint(1, c.rule.raiseN)] && s.windowSum == c.rule.raiseN
    requires at == 2 + Seconds(c.rule.windowSec)
    ensures Step(c, Some(s), Tick(at)) == (Some(s), None) && !ConditionHolds(c, Some(s), Tick(at))
  {
    EmptyPrunes(s.window[0], at - Seconds(c.rule.windowSec));
    assert s.window == [s.window[0]];
  }

  lemma WindowEmptiesRun(c: Setup) returns (ops: seq<Op>)
    requires ValidRule(c.rule) && c.rule.kind == CountWindow && c.rule.pendingEnabled && c.rule.raiseN == 1
    requires c.rule.silenceSec + c.rule.hysteresisSec > c.rule.windowSec
    ensures Dips(c, ops, 0, 1, 2)
  {
    hide Step, ConditionHolds, Prune;
    var t1 := 2 + Seconds(c.rule.windowSec);
    var t2 := t1 + Seconds(c.rule.pendingDelaySec);
    var s := WindowOpensPending(c);
    TickDips(c, s, t1);
    WindowFires(c, s, t2, WindowPoint(1, 1));
    ops := [Arrive(SampleEvent(1), 1), Tick(t1), Arrive(SampleEvent(1), t2)];
    assert Slot(c, ops[..0]) == None;
    SlotAt(c, ops, 0);
    SlotAt(c, ops, 1);
    assert DecisionAt(c, ops, 0) == Some(Entered(c.id, Pending, false));
    assert DecisionAt(c, ops, 1) == None;
  }

  /** The first heartbeat, and the first tick that misses the next one. */
  lemma HeartbeatOpensPending(c: Setup, gap: Instant) returns (s1: Rt, s2: Rt)
    requires ValidRule(c.rule) && c.rule.kind == MissingHeartbeat && c.rule.pendingEnabled
    requires gap == 1 + Seconds(c.rule.missingSec)
    ensures Step(c, None, Arrive(SampleEvent(1), 1)).0 == Some(s1)
    ensures Step(c, Some(s1), Tick(gap)) == (Some(s2), Some(Entered(s1.alertId, Pending, false)))
    ensures s2.initialized && s2.state == Pending && s2.pendingSince == Some(gap) && s2.hysteresisSince == None
  {
    s1 := Step(c, None, Arrive(SampleEvent(1), 1)).0.value;
    s2 := Step(c, Some(s1), Tick(gap)).0.value;
  }

  /** A heartbeat for the pending alert, and the tick at which the next gap lets it fire. */
  lemma HeartbeatDips(c: Setup, s: Rt, gap: Instant, later: Instant) returns (next: Rt)
    requires ValidRule(c.rule) && c.rule.kind == MissingHeartbeat && c.rule.hysteresisSec > 0
    requires s.initialized && s.state == Pending && s.pendingSince == Some(gap) && s.hysteresisSince == None
    requires later == gap + Seconds(c.rule.missingSec) + Seconds(c.rule.pendingDelaySec)
    requires c.rule.pendingEnabled
    ensures var op := Arrive(SampleEvent(1), gap);
            !ConditionHolds(c, Some(s), op) && Step(c, Some(s), op) == (Some(next), Some(Kept(s.alertId, Pending)))
    ensures var d := Step(c, Some(next), Tick(later)).1;
            Changes(d) && d.value.state == Firing
  {
    next := Step(c, Some(s), Arrive(SampleEvent(1), gap)).0.value;
  }

  /** A heartbeat comes while the alert is pending and starts a recovery that never completes. */
  lemma HeartbeatDipRun(c: Setup) returns (ops: seq<Op>)
    requires ValidRule(c.rule) && c.rule.kind == MissingHeartbeat && c.rule.pendingEnabled && c.rule.hysteresisSec > 0
    ensures Dips(c, ops, 1, 2, 3) && ops[2].Arrive?
  {
    hide Step, ConditionHolds;
    var gap := 1 + Seconds(c.rule.missingSec);
    var later := gap + Seconds(c.rule.missingSec) + Seconds(c.rule.pendingDelaySec);
    var s1, s2 := HeartbeatOpensPending(c, gap);
    var s3 := HeartbeatDips(c, s2, gap, later);
    ops := [Arrive(SampleEvent(1), 1), Tick(gap), Arrive(SampleEvent(1), gap), Tick(later)];
    assert Slot(c, ops[..0]) == None;
    SlotAt(c, ops, 0);
    SlotAt(c, ops, 1);
    SlotAt(c, ops, 2);
    assert DecisionAt(c, ops, 1) == Some(Entered(s1.alertId, Pending, false));
    assert DecisionAt(c, ops, 2) == Some(Kept(s2.alertId, Pending));
  }

  /** The condition is true at every step of the pending delay, over every run, exactly for the rules
      whose condition cannot dip; the engine does not restart the delay when it does dip. */
  lemma DelayIsContinuousIff(c: Setup)
    requires ValidRule(c.rule) && c.rule.pendingEnabled
    ensures DelayIsContinuous(c) <==> NeverDips(c.rule)
  {
    hide Enters, Slot, WellTimed, ConditionHolds;
    if NeverDips(c.rule) {
      forall ops: seq<Op>, j, i, k |
        WellTimed(ops) && 0 <= j < k < i < |ops| && Enters(c, ops, j, Pending) && Enters(c, ops, i, Firing)
        && (forall m :: j < m < i ==> !Changes(DecisionAt(c, ops, m)))
        ensures ConditionHolds(c, Slot(c, ops[..k]), ops[k])
      {
        ContinuousAt(c, ops, j, i, k);
      }
    } else if c.rule.kind == CountWindow && c.rule.raiseN == 1 {
      var ops := WindowEmptiesRun(c);
      assert Dips(c, ops, 0, 1, 2);
    } else if c.rule.kind == CountWindow {
      var ops := WindowDipRun(c);
      assert Dips(c, ops, 0, 1, 2);
    } else {
      var ops := HeartbeatDipRun(c);
      assert Dips(c, ops, 1, 2, 3);
    }
  }

  // ---------------------------------------------------------------------------
  // Between the steps.

  /** Between entering pending at `j` and firing at `i` the state before step `k` has the condition
      true at the instant `at`, which lies between that step and the one before. */
  ghost predicate TrueBetween(c: Setup, ops: seq<Op>, j: nat, i: nat, k: nat, at: Time) {
    WellTimed(ops) && j < k <= i < |ops| && Enters(c, ops, j, Pending) && Enters(c, ops, i, Firing)
    && (forall m :: j < m < i ==> !Changes(DecisionAt(c, ops, m))) && ops[k - 1].at <= at <= ops[k].at ==>
      Slot(c, ops[..k]).Some? && ConditionAt(c.rule, Slot(c, ops[..k]).value, at)
  }

  lemma TrueAtAllTimes(c: Setup, ops: seq<Op>, j: nat, i: nat, k: nat, at: Time)
    requires ValidRule(c.rule) && c.rule.kind != CountWindow && NeverDips(c.rule)
    ensures TrueBetween(c, ops, j, i, k, at)
  {
    hide Slot, Enters, DecisionAt;
    if WellTimed(ops) && j < k <= i < |ops| && Enters(c, ops, j, Pending)
       && (forall m :: j < m < i ==> !Changes(DecisionAt(c, ops, m))) && ops[k - 1].at <= at <= ops[k].at {
      StaysPending(c, ops, j, k);
      ReachableStates(c, ops[..k]);
      if c.rule.kind == MissingHeartbeat {
        PendingSeesGap(c, ops[..k]);
      }
    }
  }

  /** Two bursts a whole window apart, with nothing in between. */
  lemma WindowSilentRun(c: Setup) returns (ops: seq<Op>, at: Time)
    requires ValidRule(c.rule) && c.rule.kind == CountWindow && c.rule.pendingEnabled
    ensures !TrueBetween(c, ops, 0, 1, 1, at)
  {
    hide Step, Prune;
    at := 2 + Seconds(c.rule.windowSec);
    var later := at + Seconds(c.rule.pendingDelaySec);
    var s := WindowOpensPending(c);
    BurstFires(c, s, later);
    ops := [Arrive(SampleEvent(c.rule.raiseN), 1), Arrive(SampleEvent(c.rule.raiseN), later)];
    assert Slot(c, ops[..0]) == None;
    SlotAt(c, ops, 0);
    assert DecisionAt(c, ops, 0) == Some(Entered(c.id, Pending, false));
    assert s.window[1..] == [];
    EmptyPrunes(s.window[0], at - Seconds(c.rule.windowSec));
  }

  lemma EmptyPrunes(p: WindowPoint, cutoff: Time)
    requires p.at < cutoff
    ensures Prune([p], cutoff, p.count) == ([], 0)
  {
    assert [p][1..] == [];
  }

  lemma BurstFires(c: Setup, s: Rt, at: Instant)
    requires ValidRule(c.rule) && c.rule.kind == CountWindow
    requires s.state == Pending && s.pendingSince == Some(1)
    requires s.window == [WindowPoint(1, c.rule.raiseN)] && s.windowSum == c.rule.raiseN
    requires at == 2 + Seconds(c.rule.windowSec) + Seconds(c.rule.pendingDelaySec)
    ensures var d := Step(c, Some(s), Arrive(SampleEvent(c.rule.raiseN), at)).1;
            Changes(d) && d.value.state == Firing
  {
    var p, q := WindowPoint(1, c.rule.raiseN), WindowPoint(at, c.rule.raiseN);
    assert [p] + [q] == [p, q] && [p, q][1..] == [q];
    assert Prune([q], at - Seconds(c.rule.windowSec), c.rule.raiseN) == ([q], c.rule.raiseN);
    assert PruneWindow([p, q], at, Seconds(c.rule.windowSec), 2 * c.rule.raiseN).1 >= c.rule.raiseN;
    hide PruneWindow;
  }

  /** At every instant of the delay, and not only at the steps, the condition is true over every run
      exactly for total-count rules and for heartbeat rules without hysteresis. */
  lemma DelayIsContinuousInTimeIff(c: Setup)
    requires ValidRule(c.rule) && c.rule.pendingEnabled
    ensures (forall ops: seq<Op>, j, i, k, at :: TrueBetween(c, ops, j, i, k, at)) <==>
              c.rule.kind != CountWindow && NeverDips(c.rule)
  {
    hide TrueBetween;
    if c.rule.kind == CountWindow {
      var ops, at := WindowSilentRun(c);
    } else if NeverDips(c.rule) {
      forall ops: seq<Op>, j, i, k, at ensures TrueBetween(c, ops, j, i, k, at) {
        TrueAtAllTimes(c, ops, j, i, k, at);
      }
    } else {
      var ops, at := HeartbeatSilentRun(c);
    }
  }

  lemma HeartbeatSilentRun(c: Setup) returns (ops: seq<Op>, at: Time)
    requires ValidRule(c.rule) && c.rule.kind == MissingHeartbeat && c.rule.pendingEnabled && c.rule.hysteresisSec > 0
    ensures !TrueBetween(c, ops, 1, 3, 3, at)
  {
    hide Slot, ConditionHolds, Enters, DecisionAt, Step, ConditionAt;
    ops := HeartbeatDipRun(c);
    at := ops[2].at;
    assert ops[2].at <= ops[3].at;
    SlotAt(c, ops, 2);
    BeatEndsGap(c, Slot(c, ops[..2]), ops[2]);
  }

  lemma BeatEndsGap(c: Setup, slot: Option<Rt>, op: Op)
    requires ValidRule(c.rule) && c.rule.kind == MissingHeartbeat && !ConditionHolds(c, slot, op)
    ensures op.Arrive? && Step(c, slot, op).0.Some? ==> !ConditionAt(c.rule, Step(c, slot, op).0.value, op.at)
  {
    hide EventApply;
  }
}
