/** The incremental window of a window-count rule against the naive one, and
    what evicting an idle state can be seen to do. */
module SlidingWindow {
  import opened Domain
  import opened EngineSpec
  import opened Lifecycle

  // ---------------------------------------------------------------------------
  // Filtering.

  /** The points not older than `cutoff`. */
  function Within(points: seq<WindowPoint>, cutoff: Time): seq<WindowPoint> {
    if points == [] then []
    else
      var last := |points| - 1;
      Within(points[..last], cutoff) + if points[last].at >= cutoff then [points[last]] else []
  }

  ghost predicate Sorted(points: seq<WindowPoint>, end: Time) {
    && (forall i, j :: 0 <= i < j < |points| ==> points[i].at <= points[j].at)
    && (forall p :: p in points ==> p.at <= end)
  }

  lemma {:induction false} WithinAppend(a: seq<WindowPoint>, b: seq<WindowPoint>, cutoff: Time)
    ensures Within(a + b, cutoff) == Within(a, cutoff) + Within(b, cutoff)
  {
    if b == [] {
      assert a + b == a;
    } else {
      var last := |b| - 1;
      assert (a + b)[..|a + b| - 1] == a + b[..last];
      WithinAppend(a, b[..last], cutoff);
    }
  }

  lemma {:induction false} WithinNone(points: seq<WindowPoint>, cutoff: Time)
    requires forall p :: p in points ==> p.at < cutoff
    ensures Within(points, cutoff) == []
  {
    if points != [] {
      var last := |points| - 1;
      assert points == points[..last] + [points[last]];
      WithinNone(points[..last], cutoff);
    }
  }

  lemma {:induction false} WithinAll(points: seq<WindowPoint>, cutoff: Time)
    requires forall p :: p in points ==> p.at >= cutoff
    ensures Within(points, cutoff) == points
  {
    if points != [] {
      var last := |points| - 1;
      assert points == points[..last] + [points[last]];
      WithinAll(points[..last], cutoff);
    }
  }

  /** A later cutoff can be applied to the points an earlier one left. */
  lemma {:induction false} WithinTwice(points: seq<WindowPoint>, early: Time, late: Time)
    requires early <= late
    ensures Within(Within(points, early), late) == Within(points, late)
    ensures forall p :: p in Within(points, early) ==> p in points
  {
    if points != [] {
      var last := |points| - 1;
      WithinTwice(points[..last], early, late);
      var tail := if points[last].at >= early then [points[last]] else [];
      WithinAppend(Within(points[..last], early), tail, late);
      assert Within(tail, late) == if points[last].at >= late then [points[last]] else [];
    }
  }

  lemma SortedAppend(points: seq<WindowPoint>, point: WindowPoint, end: Time)
    requires Sorted(points, point.at) && point.at <= end
    ensures Sorted(points + [point], end) && Sorted(points, end)
  {
  }

  lemma {:induction false} WithinSorted(points: seq<WindowPoint>, cutoff: Time, end: Time)
    requires Sorted(points, end)
    ensures Sorted(Within(points, cutoff), end)
    ensures forall p :: p in Within(points, cutoff) ==> p in points
  {
    if points != [] {
      var last := |points| - 1;
      WithinSorted(points[..last], cutoff, points[last].at);
      SortedAppend(Within(points[..last], cutoff), points[last], end);
    }
  }

  lemma SortedRest(points: seq<WindowPoint>, end: Time)
    requires Sorted(points, end) && points != []
    ensures Sorted(points[1..], end) && forall p :: p in points ==> p.at >= points[0].at
  {
  }

  lemma WithinDropsFirst(points: seq<WindowPoint>, cutoff: Time)
    requires points != [] && points[0].at < cutoff
    ensures Within(points, cutoff) == Within(points[1..], cutoff)
  {
    hide Within;
    var first, rest := [points[0]], points[1..];
    assert points == first + rest;
    WithinAppend(first, rest, cutoff);
    WithinNone(first, cutoff);
    assert [] + Within(rest, cutoff) == Within(rest, cutoff);
  }

  /** On points in time order, dropping the stale prefix is filtering. */
  lemma {:induction false} PruneFilters(points: seq<WindowPoint>, cutoff: Time, sum: int, end: Time)
    requires Sorted(points, end)
    ensures Prune(points, cutoff, sum).0 == Within(points, cutoff)
  {
    hide Sorted, Within;
    if points == [] {
      WithinNone(points, cutoff);
    } else {
      SortedRest(points, end);
      if points[0].at < cutoff {
        WithinDropsFirst(points, cutoff);
        PruneFilters(points[1..], cutoff, sum - points[0].count, end);
      } else {
        WithinAll(points, cutoff);
      }
    }
  }

  // ---------------------------------------------------------------------------
  // The window is exact.

  /** The step forgets what the alert counted: it resolved or its state was evicted. */
  predicate Forgets(c: Setup, slot: Option<Rt>, op: Op) {
    var (next, d) := Step(c, slot, op);
    (d.Some? && d.value.state == Resolved) || (slot.Some? && next.None?)
  }

  /** Every event since the alert last closed or was evicted. */
  function Counted(c: Setup, ops: seq<Op>): seq<WindowPoint> {
    if ops == [] then []
    else
      var last := |ops| - 1;
      var before := Counted(c, ops[..last]);
      if ops[last].Arrive? then before + [WindowPoint(ops[last].at, ops[last].event.aggCnt)]
      else if Forgets(c, Slot(c, ops[..last]), ops[last]) then []
      else before
  }

  ghost predicate WindowExact(c: Setup, slot: Option<Rt>, history: seq<WindowPoint>) {
    match slot
    case None => history == []
    case Some(rt) =>
      && Sorted(history, rt.lastSeen)
      && rt.window == Within(history, rt.lastSeen - Seconds(c.rule.windowSec))
  }

  /** Adding a point to the window and pruning gives the window of the longer history. */
  lemma PrunedWindow(history: seq<WindowPoint>, early: Time, point: WindowPoint, cutoff: Time)
    requires Sorted(history, point.at) && (early <= cutoff || history == [])
    ensures var window := Within(history, early);
            Prune(window + [point], cutoff, Sum(window) + point.count)
            == (Within(history + [point], cutoff), Sum(Within(history + [point], cutoff)))
  {
    hide Within, Sorted, Prune, Sum;
    var window := Within(history, early);
    WithinSorted(history, early, point.at);
    SortedAppend(window, point, point.at);
    PruneFilters(window + [point], cutoff, Sum(window) + point.count, point.at);
    WithinAppend(window, [point], cutoff);
    WithinAppend(history, [point], cutoff);
    if history == [] {
      WithinNone(history, early);
      WithinNone(history, cutoff);
    } else {
      WithinTwice(history, early, cutoff);
    }
    SumAppend(window, point);
    PruneSum(window + [point], cutoff, Sum(window) + point.count);
  }

  lemma CountedWindow(rule: Rule, rt: Rt, count: int, now: Instant, history: seq<WindowPoint>, early: Time)
    requires rule.windowSec > 0
    requires Sorted(history, now) && (early <= now - Seconds(rule.windowSec) || history == [])
    requires rt.window == Within(history, early) && rt.windowSum == Sum(rt.window)
    ensures var windowed := Within(history + [WindowPoint(now, count)], now - Seconds(rule.windowSec));
            && PruneWindow(rt.window + [WindowPoint(now, count)], now, Seconds(rule.windowSec), rt.windowSum + count)
               == (windowed, Sum(windowed))
            && WindowStep(rule, rt, count, now).0.window == windowed
            && WindowStep(rule, rt, count, now).0.windowSum == Sum(windowed)
            && WindowStep(rule, rt, count, now).1.state != Resolved
  {
    hide ApplyActive, Prune, Within, Sum, Sorted;
    PrunedWindow(history, early, WindowPoint(now, count), now - Seconds(rule.windowSec));
  }

  /** The state an event finds holds the window of the history as of some earlier cutoff. */
  lemma TouchedWindow(c: Setup, slot: Option<Rt>, event: Event, at: Instant, before: Time, history: seq<WindowPoint>)
    returns (early: Time)
    requires SlotInv(c, slot, before) && before <= at && WindowExact(c, slot, history)
    ensures var rt := Touched(c.rule, slot, c.id, event, at);
            && Sorted(history, at) && (early <= at - Seconds(c.rule.windowSec) || history == [])
            && rt.window == Within(history, early) && rt.windowSum == Sum(rt.window)
            && rt.lastSeen == at
    ensures Sorted(history + [WindowPoint(at, event.aggCnt)], at)
  {
    var rt := Touched(c.rule, slot, c.id, event, at);
    if slot.Some? {
      early := slot.value.lastSeen - Seconds(c.rule.windowSec);
      assert rt.window == slot.value.window && rt.windowSum == slot.value.windowSum;
    } else {
      early := 0;
      assert rt.window == history == [] && rt.windowSum == 0;
    }
  }

  lemma ArrivalKeepsWindow(c: Setup, slot: Option<Rt>, event: Event, at: Instant, before: Time, history: seq<WindowPoint>)
    requires ValidRule(c.rule) && c.rule.kind == CountWindow && ValidEvent(event)
    requires SlotInv(c, slot, before) && before <= at
    requires WindowExact(c, slot, history)
    ensures var (rt, d) := EventStep(c.rule, slot, c.id, event, at);
            var point := WindowPoint(at, event.aggCnt);
            var windowed := Within(history + [point], at - Seconds(c.rule.windowSec));
            && Sorted(history + [point], at)
            && rt.lastSeen == at && rt.window == windowed && rt.windowSum == Sum(windowed)
            && (ConditionHolds(c, slot, Arrive(event, at)) <==> Sum(windowed) >= c.rule.raiseN)
            && d.state != Resolved
  {
    hide WindowStep, PruneWindow, Within, Sum, RtInv, WindowExact, Touched;
    var early := TouchedWindow(c, slot, event, at, before, history);
    CountedWindow(c.rule, Touched(c.rule, slot, c.id, event, at), event.aggCnt, at, history, early);
  }

  lemma TickKeepsWindow(c: Setup, slot: Option<Rt>, at: Instant, history: seq<WindowPoint>)
    requires c.rule.kind == CountWindow && WindowExact(c, slot, history)
    ensures var op := Tick(at);
            WindowExact(c, Step(c, slot, op).0, if Forgets(c, slot, op) then [] else history)
  {
    assert forall cutoff :: Within([], cutoff) == [];
  }

  /** The window is exactly the events since the last reset that are not older than its width,
      as of the last event. */
  lemma {:induction false} WindowIsExact(c: Setup, ops: seq<Op>)
    requires ValidRule(c.rule) && c.rule.kind == CountWindow && WellTimed(ops)
    ensures WindowExact(c, Slot(c, ops), Counted(c, ops))
  {
    hide EventStep, TickStep, RtInv, Within, Sorted;
    if ops != [] {
      var last := |ops| - 1;
      var prefix := ops[..last];
      WindowIsExact(c, prefix);
      ReachableStates(c, prefix);
      match ops[last]
      case Arrive(event, at) =>
        ArrivalKeepsWindow(c, Slot(c, prefix), event, at, LastTime(prefix), Counted(c, prefix));
      case Tick(at) => TickKeepsWindow(c, Slot(c, prefix), at, Counted(c, prefix));
      case Compact(_, _) =>
    }
  }

  /** The raise test of each event is the naive one over everything counted since the last reset. */
  lemma RaiseTestIsNaive(c: Setup, ops: seq<Op>)
    requires ValidRule(c.rule) && c.rule.kind == CountWindow && WellTimed(ops)
    requires ops != [] && ops[|ops| - 1].Arrive?
    ensures var last := |ops| - 1;
            var windowed := Within(Counted(c, ops), ops[last].at - Seconds(c.rule.windowSec));
            && (ConditionHolds(c, Slot(c, ops[..last]), ops[last]) <==> Sum(windowed) >= c.rule.raiseN)
            && Slot(c, ops).Some? && Slot(c, ops).value.window == windowed && Slot(c, ops).value.windowSum == Sum(windowed)
  {
    hide EventStep, ConditionHolds, RtInv, Within, Sorted, WindowExact;
    var last := |ops| - 1;
    WindowIsExact(c, ops[..last]);
    ReachableStates(c, ops[..last]);
    ArrivalKeepsWindow(c, Slot(c, ops[..last]), ops[last].event, ops[last].at, LastTime(ops[..last]), Counted(c, ops[..last]));
  }

  // ---------------------------------------------------------------------------
  // When resets cannot be seen.

  /** Every event of the run, whatever was reset or evicted in between. */
  function AllEvents(ops: seq<Op>): seq<WindowPoint> {
    if ops == [] then []
    else
      var last := |ops| - 1;
      AllEvents(ops[..last]) + if ops[last].Arrive? then [WindowPoint(ops[last].at, ops[last].event.aggCnt)] else []
  }

  /** Compactions evict only states idle for at least `idleTTL`, and there is no cap. */
  ghost predicate EvictsAfter(ops: seq<Op>, idleTTL: Time) {
    forall i :: 0 <= i < |ops| && ops[i].Compact? ==> ops[i].minIdle == idleTTL
  }

  /** What was forgotten had already left the window. */
  ghost predicate OnlyStaleForgotten(c: Setup, ops: seq<Op>) {
    var all, kept := AllEvents(ops), Counted(c, ops);
    && |kept| <= |all| && all[|all| - |kept|..] == kept
    && forall p :: p in all[..|all| - |kept|] ==> p.at < LastTime(ops) - Seconds(c.rule.windowSec)
  }

  /** A step that forgets comes longer than the window after the last event. */
  lemma ForgettingIsLate(c: Setup, slot: Option<Rt>, op: Op, idleTTL: Time)
    requires ValidRule(c.rule) && c.rule.kind == CountWindow && !op.Arrive?
    requires c.rule.silenceSec + c.rule.hysteresisSec > c.rule.windowSec && idleTTL > Seconds(c.rule.windowSec)
    requires op.Compact? ==> op.minIdle == idleTTL
    requires Forgets(c, slot, op)
    ensures slot.Some? && slot.value.lastSeen < op.at - Seconds(c.rule.windowSec)
  {
  }

  lemma {:induction false} ForgottenIsStale(c: Setup, ops: seq<Op>, idleTTL: Time)
    requires ValidRule(c.rule) && c.rule.kind == CountWindow && WellTimed(ops) && EvictsAfter(ops, idleTTL)
    requires c.rule.silenceSec + c.rule.hysteresisSec > c.rule.windowSec && idleTTL > Seconds(c.rule.windowSec)
    ensures OnlyStaleForgotten(c, ops)
  {
    hide Step, Forgets, Within;
    if ops != [] {
      var last := |ops| - 1;
      var prefix := ops[..last];
      ForgottenIsStale(c, prefix, idleTTL);
      var all, kept := AllEvents(prefix), Counted(c, prefix);
      var forgotten := all[..|all| - |kept|];
      assert all == forgotten + kept;
      if ops[last].Arrive? {
        var point := WindowPoint(ops[last].at, ops[last].event.aggCnt);
        assert AllEvents(ops) == forgotten + (kept + [point]);
      } else {
        assert AllEvents(ops) == all;
        if Forgets(c, Slot(c, prefix), ops[last]) {
          WindowIsExact(c, prefix);
          ForgettingIsLate(c, Slot(c, prefix), ops[last], idleTTL);
          assert all[..|all|] == all;
        }
      }
    }
  }

  /** With a silence timeout longer than the window, the raise test of every event is the naive
      sum over the whole run: no reset and no idle eviction can be seen. */
  lemma ResetsInvisible(c: Setup, ops: seq<Op>, idleTTL: Time)
    requires ValidRule(c.rule) && c.rule.kind == CountWindow && WellTimed(ops) && EvictsAfter(ops, idleTTL)
    requires c.rule.silenceSec + c.rule.hysteresisSec > c.rule.windowSec && idleTTL > Seconds(c.rule.windowSec)
    requires ops != [] && ops[|ops| - 1].Arrive?
    ensures Slot(c, ops).Some?
    ensures Slot(c, ops).value.window == Within(AllEvents(ops), LastTime(ops) - Seconds(c.rule.windowSec))
  {
    hide Within, AllEvents, Counted, Slot, ConditionHolds, WellTimed, EvictsAfter;
    RaiseTestIsNaive(c, ops);
    ForgottenIsStale(c, ops, idleTTL);
    StaleDrops(AllEvents(ops), Counted(c, ops), LastTime(ops) - Seconds(c.rule.windowSec));
  }

  /** Filtering does not see a prefix that is too old. */
  lemma StaleDrops(all: seq<WindowPoint>, kept: seq<WindowPoint>, cutoff: Time)
    requires |kept| <= |all| && all[|all| - |kept|..] == kept
    requires forall p :: p in all[..|all| - |kept|] ==> p.at < cutoff
    ensures Within(all, cutoff) == Within(kept, cutoff)
  {
    hide Within;
    var forgotten := all[..|all| - |kept|];
    assert all == forgotten + kept;
    WithinAppend(forgotten, kept, cutoff);
    WithinNone(forgotten, cutoff);
    assert [] + Within(kept, cutoff) == Within(kept, cutoff);
  }

  function SampleEvent(count: int): Event {
    Event(1, map[], "v", "1", count)
  }

  /** The first event of a run reaches the threshold. */
  lemma FirstEventOpens(c: Setup, ops: seq<Op>)
    requires ValidRule(c.rule) && c.rule.kind == CountWindow
    requires ops == [Arrive(SampleEvent(c.rule.raiseN), 1)]
    ensures WellTimed(ops) && IsActive(StateOf(Slot(c, ops))) && Slot(c, ops).value.lastSeen == 1
  {
    RaiseTestIsNaive(c, ops);
    assert ops[..0] == [];
    assert Counted(c, ops) == [WindowPoint(1, c.rule.raiseN)];
    WithinAll(Counted(c, ops), 1 - Seconds(c.rule.windowSec));
    assert Sum(Counted(c, ops)) == c.rule.raiseN;
    hide Prune, Within, Sum;
  }

  /** Otherwise a reset loses events that are still in the window: the alert opens, its silence
      timeout closes it, and the next event is counted alone. */
  lemma ResetLosesEvents(c: Setup) returns (ops: seq<Op>)
    requires ValidRule(c.rule) && c.rule.kind == CountWindow
    requires c.rule.silenceSec + c.rule.hysteresisSec <= c.rule.windowSec
    ensures WellTimed(ops) && forall i :: 0 <= i < |ops| ==> !ops[i].Compact?
    ensures ops != [] && ops[|ops| - 1].Arrive? && Slot(c, ops).Some?
    ensures Slot(c, ops).value.window != Within(AllEvents(ops), LastTime(ops) - Seconds(c.rule.windowSec))
  {
    hide EventStep, Within, ConditionHolds;
    var late := 1 + Seconds(c.rule.silenceSec + c.rule.hysteresisSec);
    var first, second := Arrive(SampleEvent(c.rule.raiseN), 1), Arrive(SampleEvent(1), late);
    var tick := Tick(late);
    ops := [first, tick, second];
    assert ops[..2] == [first, tick] && [first, tick][..1] == [first] && [first][..0] == [];
    FirstEventOpens(c, [first]);
    assert Forgets(c, Slot(c, [first]), tick);
    assert Counted(c, ops) == [WindowPoint(late, 1)];
    assert AllEvents([]) == [] && AllEvents([first]) == [WindowPoint(1, c.rule.raiseN)] == AllEvents([first, tick]);
    assert AllEvents(ops) == [WindowPoint(1, c.rule.raiseN), WindowPoint(late, 1)];
    RaiseTestIsNaive(c, ops);
    WithinAll(Counted(c, ops), late - Seconds(c.rule.windowSec));
    WithinAll(AllEvents(ops), late - Seconds(c.rule.windowSec));
  }

  /** Each event sees the naive window over the whole run. */
  ghost predicate ResetsUnseen(c: Setup, idleTTL: Time) {
    forall ops: seq<Op> :: WellTimed(ops) && EvictsAfter(ops, idleTTL) && ops != [] && ops[|ops| - 1].Arrive? ==>
      && Slot(c, ops).Some?
      && Slot(c, ops).value.window == Within(AllEvents(ops), LastTime(ops) - Seconds(c.rule.windowSec))
  }

  /** The window equals the naive one over every run exactly when the silence timeout is longer
      than the window; the usual choice of equal lengths is one instant short. */
  lemma ResetsUnseenIff(c: Setup, idleTTL: Time)
    requires ValidRule(c.rule) && c.rule.kind == CountWindow && idleTTL > Seconds(c.rule.windowSec)
    ensures ResetsUnseen(c, idleTTL) <==> c.rule.silenceSec + c.rule.hysteresisSec > c.rule.windowSec
  {
    hide Slot, AllEvents, Within, LastTime;
    if c.rule.silenceSec + c.rule.hysteresisSec > c.rule.windowSec {
      forall ops: seq<Op> | WellTimed(ops) && EvictsAfter(ops, idleTTL) && ops != [] && ops[|ops| - 1].Arrive?
        ensures Slot(c, ops).Some?
        ensures Slot(c, ops).value.window == Within(AllEvents(ops), LastTime(ops) - Seconds(c.rule.windowSec))
      {
        ResetsInvisible(c, ops, idleTTL);
      }
    } else {
      var ops := ResetLosesEvents(c);
    }
  }
}
