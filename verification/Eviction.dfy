/** Which rules cannot tell that an idle state was evicted. */
module Eviction {
  import opened Domain
  import opened EngineSpec
  import opened Lifecycle
  import opened SlidingWindow

  /** The same run without its compactions. */
  function Uncompacted(ops: seq<Op>): seq<Op> {
    if ops == [] then []
    else
      var last := |ops| - 1;
      Uncompacted(ops[..last]) + if ops[last].Compact? then [] else [ops[last]]
  }

  /** Every decision of a run, in order. */
  function Decisions(c: Setup, ops: seq<Op>): seq<Decision> {
    if ops == [] then []
    else
      var last := |ops| - 1;
      var d := DecisionAt(c, ops, last);
      Decisions(c, ops[..last]) + if d.Some? then [d.value] else []
  }

  /** Equal in everything a decision depends on. */
  predicate SameEvaluation(a: Rt, b: Rt) {
    && a.alertId == b.alertId && a.ruleName == b.ruleName && a.lastSeen == b.lastSeen
    && a.state == b.state && a.raisedAt == b.raisedAt && a.pendingSince == b.pendingSince
    && a.hysteresisSince == b.hysteresisSince && a.initialized == b.initialized
    && a.countTotal == b.countTotal && a.window == b.window && a.windowSum == b.windowSum
  }

  /** The rules whose idle states carry nothing worth keeping for longer than `idleTTL`. */
  predicate ForgetsIdle(rule: Rule, idleTTL: Time) {
    rule.kind != MissingHeartbeat && (rule.raiseN == 1 || (rule.kind == CountWindow && idleTTL > Seconds(rule.windowSec)))
  }

  /** The state with compactions against the state without: alike, or evicted against idle and stale. */
  ghost predicate Alike(c: Setup, a: Option<Rt>, b: Option<Rt>, now: Time) {
    if a.Some? then b.Some? && SameEvaluation(a.value, b.value)
    else b.Some? ==>
      && b.value.state == Idle
      && (c.rule.raiseN == 1 || b.value.lastSeen < now - Seconds(c.rule.windowSec))
  }

  /** An event cannot tell an idle state of such a rule from a fresh one. */
  lemma {:induction false} StalePrunes(points: seq<WindowPoint>, point: WindowPoint, cutoff: Time, sum: int)
    requires forall p :: p in points ==> p.at < cutoff
    requires point.at >= cutoff && sum == Sum(points)
    ensures Prune(points + [point], cutoff, sum + point.count) == ([point], point.count)
  {
    if points == [] {
      assert points + [point] == [point];
    } else {
      assert (points + [point])[1..] == points[1..] + [point];
      StalePrunes(points[1..], point, cutoff, sum - points[0].count);
    }
  }

  /** Events act alike on states that are equal in evaluation. */
  lemma EventActsAlike(c: Setup, a: Rt, b: Rt, event: Event, at: Instant)
    requires SameEvaluation(a, b)
    ensures var (a', da) := EventStep(c.rule, Some(a), c.id, event, at);
            var (b', db) := EventStep(c.rule, Some(b), c.id, event, at);
            SameEvaluation(a', b') && da == db
  {
    hide ApplyActive, PruneWindow, HeartbeatStep;
    var ta, tb := Touched(c.rule, Some(a), c.id, event, at), Touched(c.rule, Some(b), c.id, event, at);
    match c.rule.kind
    case CountTotal => TotalActsAlike(c.rule, ta, tb, event.aggCnt, at);
    case CountWindow => WindowStepsAlike(c.rule, ta, tb, event.aggCnt, at);
    case MissingHeartbeat => HeartbeatActsAlike(c.rule, ta, tb, at);
  }

  lemma TotalActsAlike(rule: Rule, a: Rt, b: Rt, count: int, at: Instant)
    requires SameEvaluation(a, b)
    ensures SameEvaluation(TotalStep(rule, a, count, at).0, TotalStep(rule, b, count, at).0)
    ensures TotalStep(rule, a, count, at).1 == TotalStep(rule, b, count, at).1
  {
    hide ApplyActive;
    var total := a.countTotal + count;
    ActiveActsAlike(rule, a.(initialized := true, countTotal := total, activeCount := a.activeCount + count),
                    b.(initialized := true, countTotal := total, activeCount := b.activeCount + count), at, total >= rule.raiseN, false);
  }

  lemma HeartbeatActsAlike(rule: Rule, a: Rt, b: Rt, at: Instant)
    requires SameEvaluation(a, b)
    ensures SameEvaluation(HeartbeatStep(rule, a, at).0, HeartbeatStep(rule, b, at).0)
    ensures HeartbeatStep(rule, a, at).1 == HeartbeatStep(rule, b, at).1
  {
  }

  lemma TickActsAlike(c: Setup, a: Rt, b: Rt, at: Instant)
    requires SameEvaluation(a, b)
    ensures var ra, rb := TickStep(c.rule, a, at), TickStep(c.rule, b, at);
            SameEvaluation(ra.rt, rb.rt) && ra.decision == rb.decision
  {
    hide HeartbeatTick;
    if c.rule.kind == MissingHeartbeat {
      HeartbeatTicksAlike(c.rule, a, b, at);
    }
  }

  lemma HeartbeatTicksAlike(rule: Rule, a: Rt, b: Rt, at: Instant)
    requires SameEvaluation(a, b)
    ensures SameEvaluation(HeartbeatTick(rule, a, at).rt, HeartbeatTick(rule, b, at).rt)
    ensures HeartbeatTick(rule, a, at).decision == HeartbeatTick(rule, b, at).decision
  {
    hide ApplyActive;
    ActiveActsAlike(rule, a, b, at, true, true);
  }

  lemma ActiveActsAlike(rule: Rule, a: Rt, b: Rt, at: Instant, active: bool, fromTick: bool)
    requires SameEvaluation(a, b)
    ensures var (a', da) := ApplyActive(rule, a, at, active, fromTick);
            var (b', db) := ApplyActive(rule, b, at, active, fromTick);
            SameEvaluation(a', b') && da == db
  {
  }

  /** An idle state of such a rule counts a new event as a fresh state does. */
  lemma IdleWindowPrunes(c: Setup, b: Rt, count: int, at: Instant, before: Time)
    requires ValidRule(c.rule) && RtInv(c, b, before) && before <= at
    requires b.state == Idle && c.rule.kind == CountWindow
    requires c.rule.raiseN == 1 || b.lastSeen < at - Seconds(c.rule.windowSec)
    ensures var point := WindowPoint(at, count);
            PruneWindow(b.window + [point], at, Seconds(c.rule.windowSec), b.windowSum + count) == ([point], count)
  {
    if c.rule.raiseN == 1 {
      PositiveSum(b.window);
    }
    StalePrunes(b.window, WindowPoint(at, count), at - Seconds(c.rule.windowSec), b.windowSum);
  }

  lemma IdleActsFresh(c: Setup, b: Rt, event: Event, at: Instant, before: Time)
    requires ValidRule(c.rule) && RtInv(c, b, before) && before <= at && b.ruleName == c.rule.name
    requires b.state == Idle && c.rule.kind != MissingHeartbeat
    requires c.rule.raiseN == 1 || (c.rule.kind == CountWindow && b.lastSeen < at - Seconds(c.rule.windowSec))
    ensures var (a', da) := EventStep(c.rule, None, c.id, event, at);
            var (b', db) := EventStep(c.rule, Some(b), c.id, event, at);
            SameEvaluation(a', b') && da == db
  {
    if c.rule.kind == CountWindow {
      IdleWindowPrunes(c, b, event.aggCnt, at, before);
      StalePrunes([], WindowPoint(at, event.aggCnt), at - Seconds(c.rule.windowSec), 0);
      var ta, tb := Touched(c.rule, None, c.id, event, at), Touched(c.rule, Some(b), c.id, event, at);
      WindowStepsAlike(c.rule, ta, tb, event.aggCnt, at);
    }
  }

  /** Two idle states whose windows prune to the same one count an event alike. */
  lemma WindowStepsAlike(rule: Rule, a: Rt, b: Rt, count: int, at: Instant)
    requires PruneWindow(a.window + [WindowPoint(at, count)], at, Seconds(rule.windowSec), a.windowSum + count)
          == PruneWindow(b.window + [WindowPoint(at, count)], at, Seconds(rule.windowSec), b.windowSum + count)
    requires SameEvaluation(a, b.(window := a.window, windowSum := a.windowSum, initialized := a.initialized))
    ensures SameEvaluation(WindowStep(rule, a, count, at).0, WindowStep(rule, b, count, at).0)
    ensures WindowStep(rule, a, count, at).1 == WindowStep(rule, b, count, at).1
  {
    hide PruneWindow, ApplyActive;
    var (window, sum) := PruneWindow(a.window + [WindowPoint(at, count)], at, Seconds(rule.windowSec), a.windowSum + count);
    ActiveActsAlike(rule, a.(initialized := true, window := window, windowSum := sum, activeCount := a.activeCount + count),
                    b.(initialized := true, window := window, windowSum := sum, activeCount := b.activeCount + count), at, sum >= rule.raiseN, false);
  }

  /** One step of both runs keeps them alike; a compaction moves only the first. */
  lemma StepKeepsAlike(c: Setup, a: Option<Rt>, b: Option<Rt>, op: Op, idleTTL: Time, before: Time)
    requires ValidRule(c.rule) && ForgetsIdle(c.rule, idleTTL) && before <= op.at
    requires SlotInv(c, b, before) && (b.Some? ==> b.value.ruleName == c.rule.name)
    requires op.Compact? ==> op.minIdle == idleTTL
    requires Alike(c, a, b, before)
    ensures if op.Compact? then Alike(c, Step(c, a, op).0, b, op.at) && Step(c, a, op).1 == None
            else Alike(c, Step(c, a, op).0, Step(c, b, op).0, op.at) && Step(c, a, op).1 == Step(c, b, op).1
  {
    hide EventStep;
    match op
    case Arrive(event, at) =>
      if a.Some? {
        EventActsAlike(c, a.value, b.value, event, at);
      } else if b.Some? {
        IdleActsFresh(c, b.value, event, at, before);
      }
    case Tick(at) =>
      if a.Some? {
        TickActsAlike(c, a.value, b.value, at);
      }
    case Compact(at, _) =>
  }

  lemma AppendTimed(ops: seq<Op>, op: Op)
    requires WellTimed(ops) && LastTime(ops) <= op.at && (op.Arrive? ==> ValidEvent(op.event))
    ensures WellTimed(ops + [op])
  {
    assert forall i :: 0 <= i < |ops| ==> ops[i].at <= ops[|ops| - 1].at;
  }

  lemma {:induction false} UncompactedTimes(ops: seq<Op>)
    requires WellTimed(ops)
    ensures WellTimed(Uncompacted(ops)) && LastTime(Uncompacted(ops)) <= LastTime(ops)
  {
    if ops != [] {
      var last := |ops| - 1;
      assert WellTimed(ops[..last]) && LastTime(ops[..last]) <= ops[last].at;
      hide WellTimed;
      UncompactedTimes(ops[..last]);
      if !ops[last].Compact? {
        assert ops[last].Arrive? ==> ValidEvent(ops[last].event) by { LastIsValid(ops); }
        AppendTimed(Uncompacted(ops[..last]), ops[last]);
      }
    }
  }

  lemma LastIsValid(ops: seq<Op>)
    requires WellTimed(ops) && ops != []
    ensures ops[|ops| - 1].Arrive? ==> ValidEvent(ops[|ops| - 1].event)
  {
  }

  /** Main result: for such rules a run with idle evictions makes the decisions of the run without. */
  lemma {:induction false} EvictionUnseen(c: Setup, ops: seq<Op>, idleTTL: Time)
    requires ValidRule(c.rule) && ForgetsIdle(c.rule, idleTTL)
    requires WellTimed(ops) && EvictsAfter(ops, idleTTL)
    ensures Decisions(c, ops) == Decisions(c, Uncompacted(ops))
    ensures Alike(c, Slot(c, ops), Slot(c, Uncompacted(ops)), LastTime(ops))
  {
    hide Step, RtInv, ForgetsIdle;
    if ops != [] {
      var last := |ops| - 1;
      var prefix := ops[..last];
      EvictionUnseen(c, prefix, idleTTL);
      UncompactedTimes(prefix);
      var plain := Uncompacted(prefix);
      ReachableStates(c, plain);
      InvLater(c, Slot(c, plain), LastTime(plain), LastTime(prefix));
      StepKeepsAlike(c, Slot(c, prefix), Slot(c, plain), ops[last], idleTTL, LastTime(prefix));
      if ops[last].Compact? {
        assert plain + [] == plain;
        assert Decisions(c, prefix) + [] == Decisions(c, prefix);
      } else {
        assert (plain + [ops[last]])[..|plain|] == plain;
      }
    }
  }

  lemma InvLater(c: Setup, slot: Option<Rt>, early: Time, late: Time)
    requires SlotInv(c, slot, early) && early <= late
    ensures SlotInv(c, slot, late) && (slot.Some? ==> slot.value.ruleName == c.rule.name)
  {
  }

  // ---------------------------------------------------------------------------
  // And only for such rules.

  ghost predicate EvictionInvisible(c: Setup, idleTTL: Time) {
    forall ops: seq<Op> :: WellTimed(ops) && EvictsAfter(ops, idleTTL) ==>
      Decisions(c, ops) == Decisions(c, Uncompacted(ops))
  }

  /** A step, a compaction that evicts, and another step. */
  lemma EvictedBetween(c: Setup, first: Op, idleTTL: Time, second: Op) returns (ops: seq<Op>)
    requires first.Arrive? && ValidEvent(first.event) && idleTTL >= 0 && first.at + idleTTL <= second.at
    requires second.Arrive? ==> ValidEvent(second.event)
    requires !second.Compact?
    requires StateOf(Step(c, None, first).0) == Idle && Step(c, None, first).0.Some?
    requires Step(c, None, second).1 != Step(c, Step(c, None, first).0, second).1
    ensures WellTimed(ops) && EvictsAfter(ops, idleTTL)
    ensures Decisions(c, ops) != Decisions(c, Uncompacted(ops))
  {
    hide Step, Decisions, Slot, Uncompacted;
    var evict := Compact(first.at + idleTTL, idleTTL);
    ops := [first, evict, second];
    EvictingCompaction(c, first, evict);
    DecidedApart(c, first, evict, second);
  }

  lemma DecidedApart(c: Setup, first: Op, evict: Op, second: Op)
    requires evict.Compact? && !first.Compact? && !second.Compact?
    requires Step(c, Step(c, None, first).0, evict) == (None, None)
    requires Step(c, None, second).1 != Step(c, Step(c, None, first).0, second).1
    ensures Decisions(c, [first, evict, second]) != Decisions(c, Uncompacted([first, evict, second]))
  {
    hide Step, Decisions, Slot, Uncompacted;
    var none: seq<Op> := [];
    assert none + [first] == [first] && [first] + [evict] == [first, evict] && [first] + [second] == [first, second];
    assert [first, evict] + [second] == [first, evict, second];
    NothingDecided(c);
    Appended(c, none, first);
    Appended(c, [first], evict);
    Appended(c, [first, evict], second);
    Appended(c, [first], second);
    var x, y := DecidedIn(Step(c, None, second).1), DecidedIn(Step(c, Step(c, None, first).0, second).1);
    var before := Decisions(c, [first]);
    assert Decisions(c, [first, evict]) == before;
    assert Uncompacted([first, evict, second]) == [first, second];
    if before + x == before + y {
      DropHead(before, x, y);
    }
  }

  function DecidedIn(d: Option<Decision>): seq<Decision> {
    if d.Some? then [d.value] else []
  }

  lemma NothingDecided(c: Setup)
    ensures Slot(c, []) == None && Uncompacted([]) == []
  {
  }

  lemma Appended(c: Setup, ops: seq<Op>, op: Op)
    ensures Slot(c, ops + [op]) == Step(c, Slot(c, ops), op).0
    ensures Decisions(c, ops + [op]) == Decisions(c, ops) + DecidedIn(Step(c, Slot(c, ops), op).1)
    ensures Uncompacted(ops + [op]) == Uncompacted(ops) + if op.Compact? then [] else [op]
  {
    hide Step;
    assert (ops + [op])[..|ops|] == ops;
  }

  lemma EvictingCompaction(c: Setup, first: Op, evict: Op)
    requires first.Arrive? && evict.Compact? && evict.at - first.at >= evict.minIdle
    requires StateOf(Step(c, None, first).0) == Idle && Step(c, None, first).0.Some?
    ensures Step(c, Step(c, None, first).0, evict) == (None, None)
  {
  }

  /** A count alert one short of its threshold opens at the next event, unless it was evicted. */
  lemma CountLostByEviction(c: Setup, idleTTL: Time) returns (ops: seq<Op>)
    requires ValidRule(c.rule) && idleTTL >= 0 && c.rule.kind != MissingHeartbeat && !ForgetsIdle(c.rule, idleTTL)
    ensures WellTimed(ops) && EvictsAfter(ops, idleTTL)
    ensures Decisions(c, ops) != Decisions(c, Uncompacted(ops))
  {
    hide Step;
    var first, second := Arrive(SampleEvent(c.rule.raiseN - 1), 1), Arrive(SampleEvent(1), 1 + idleTTL);
    if c.rule.kind == CountWindow {
      WindowOneShort(c, idleTTL, first, second);
    } else {
      TotalOneShort(c, idleTTL, first, second);
    }
    ops := EvictedBetween(c, first, idleTTL, second);
  }

  /** The second event decides differently after the first and on its own. */
  predicate CountsOn(c: Setup, first: Op, second: Op) {
    var slot := Step(c, None, first).0;
    StateOf(slot) == Idle && slot.Some? && Step(c, None, second).1 != Step(c, slot, second).1
  }

  lemma TotalOneShort(c: Setup, idleTTL: Time, first: Op, second: Op)
    requires ValidRule(c.rule) && idleTTL >= 0 && c.rule.kind == CountTotal && c.rule.raiseN > 1
    requires first == Arrive(SampleEvent(c.rule.raiseN - 1), 1) && second == Arrive(SampleEvent(1), 1 + idleTTL)
    ensures CountsOn(c, first, second)
  {
  }

  lemma WindowOneShort(c: Setup, idleTTL: Time, first: Op, second: Op)
    requires ValidRule(c.rule) && 0 <= idleTTL <= Seconds(c.rule.windowSec) && c.rule.kind == CountWindow && c.rule.raiseN > 1
    requires first == Arrive(SampleEvent(c.rule.raiseN - 1), 1) && second == Arrive(SampleEvent(1), 1 + idleTTL)
    ensures CountsOn(c, first, second)
  {
    var width := Seconds(c.rule.windowSec);
    var p, q := WindowPoint(1, c.rule.raiseN - 1), WindowPoint(1 + idleTTL, 1);
    assert [] + [p] == [p] && [] + [q] == [q] && [p] + [q] == [p, q];
    assert PruneWindow([] + [p], 1, width, 0 + p.count) == ([p], p.count);
    assert PruneWindow([] + [q], 1 + idleTTL, width, 0 + q.count) == ([q], 1);
    assert PruneWindow([p] + [q], 1 + idleTTL, width, p.count + 1) == ([p, q], c.rule.raiseN);
    hide PruneWindow;
  }

  /** An evicted heartbeat is forgotten: its silence is never noticed. */
  lemma HeartbeatLostByEviction(c: Setup, idleTTL: Time) returns (ops: seq<Op>)
    requires ValidRule(c.rule) && idleTTL >= 0 && c.rule.kind == MissingHeartbeat
    ensures WellTimed(ops) && EvictsAfter(ops, idleTTL)
    ensures Decisions(c, ops) != Decisions(c, Uncompacted(ops))
  {
    ops := EvictedBetween(c, Arrive(SampleEvent(1), 1), idleTTL, Tick(1 + idleTTL + Seconds(c.rule.missingSec)));
  }

  /** Idle eviction is invisible exactly to the count rules that open at their first event and
      to the window rules whose window is shorter than the idle threshold. */
  lemma EvictionInvisibleIff(c: Setup, idleTTL: Time)
    requires ValidRule(c.rule) && idleTTL >= 0
    ensures EvictionInvisible(c, idleTTL) <==> ForgetsIdle(c.rule, idleTTL)
  {
    hide Decisions, Uncompacted, WellTimed, EvictsAfter;
    if ForgetsIdle(c.rule, idleTTL) {
      forall ops: seq<Op> | WellTimed(ops) && EvictsAfter(ops, idleTTL)
        ensures Decisions(c, ops) == Decisions(c, Uncompacted(ops))
      {
        EvictionUnseen(c, ops, idleTTL);
      }
    } else if c.rule.kind == MissingHeartbeat {
      var ops := HeartbeatLostByEviction(c, idleTTL);
    } else {
      var ops := CountLostByEviction(c, idleTTL);
    }
  }
}
