/** Every state change of one alert, from the history of its events and ticks alone. */
module Decisions {
  import opened Domain
  import opened EngineSpec
  import opened Lifecycle
  import opened SlidingWindow
  import opened Recovery

  // ---------------------------------------------------------------------------
  // Counters.

  /** The counters of a stored state against the events counted since the last reset; heartbeats are not counted. */
  ghost predicate Counts(c: Setup, slot: Option<Rt>, history: seq<WindowPoint>) {
    match slot
    case None => c.rule.kind != MissingHeartbeat ==> history == []
    case Some(rt) =>
      && rt.activeCount == (if c.rule.kind == MissingHeartbeat then 0 else Sum(history))
      && rt.countTotal == (if c.rule.kind == CountTotal then Sum(history) else 0)
  }

  lemma ArrivalCounts(c: Setup, slot: Option<Rt>, event: Event, at: Instant, history: seq<WindowPoint>)
    requires Counts(c, slot, history)
    requires c.rule.kind != MissingHeartbeat ==> EventStep(c.rule, slot, c.id, event, at).1.state != Resolved
    ensures Counts(c, Step(c, slot, Arrive(event, at)).0, history + [WindowPoint(at, event.aggCnt)])
  {
    hide PruneWindow, Sum;
    SumAppend(history, WindowPoint(at, event.aggCnt));
    NothingCounted();
  }

  lemma NothingCounted()
    ensures Sum([]) == 0
  {
  }

  lemma CountEventsOpen(c: Setup, slot: Option<Rt>, event: Event, at: Instant)
    ensures c.rule.kind != MissingHeartbeat ==> EventStep(c.rule, slot, c.id, event, at).1.state != Resolved
  {
    hide PruneWindow, ApplyActive;
  }

  lemma TickCounts(c: Setup, slot: Option<Rt>, op: Op, history: seq<WindowPoint>)
    requires Counts(c, slot, history) && !op.Arrive?
    ensures Counts(c, Step(c, slot, op).0, if Forgets(c, slot, op) then [] else history)
  {
    hide Sum;
    NothingCounted();
  }

  /** Over any run the counters are the sum of the events since the alert last closed or was evicted. */
  lemma {:induction false} CountersAreExact(c: Setup, ops: seq<Op>)
    ensures Counts(c, Slot(c, ops), Counted(c, ops))
  {
    hide Step, Forgets, Counts;
    if ops == [] {
      NothingYet(c);
    } else {
      var last := |ops| - 1;
      var prefix := ops[..last];
      CountersAreExact(c, prefix);
      if ops[last].Arrive? {
        CountEventsOpen(c, Slot(c, prefix), ops[last].event, ops[last].at);
        ArrivalCounts(c, Slot(c, prefix), ops[last].event, ops[last].at, Counted(c, prefix));
      } else {
        TickCounts(c, Slot(c, prefix), ops[last], Counted(c, prefix));
      }
    }
  }

  lemma NothingYet(c: Setup)
    ensures Counts(c, None, [])
  {
  }

  // ---------------------------------------------------------------------------
  // The raise condition.

  /** Step `i` looks at the raise condition and finds it true: the events since the last reset add up to the
      threshold, those inside the window do, or the last heartbeat is too old. */
  ghost predicate Raised(c: Setup, ops: seq<Op>, i: nat)
    requires i < |ops|
  {
    match c.rule.kind
    case CountTotal => ops[i].Arrive? && Sum(Counted(c, ops[..i + 1])) >= c.rule.raiseN
    case CountWindow =>
      ops[i].Arrive? && Sum(Within(Counted(c, ops[..i + 1]), ops[i].at - Seconds(c.rule.windowSec))) >= c.rule.raiseN
    case MissingHeartbeat => SeesGap(c, ops, i)
  }

  /** The engine's own test at a step that evaluates it. */
  predicate Evaluates(c: Setup, slot: Option<Rt>, op: Op) {
    && (if c.rule.kind == MissingHeartbeat then op.Tick? && slot.Some? else op.Arrive?)
    && ConditionHolds(c, slot, op)
  }

  lemma TotalTest(c: Setup, ops: seq<Op>)
    requires ValidRule(c.rule) && c.rule.kind == CountTotal && WellTimed(ops) && ops != [] && ops[|ops| - 1].Arrive?
    ensures var last := |ops| - 1;
            ConditionHolds(c, Slot(c, ops[..last]), ops[last]) <==> Sum(Counted(c, ops)) >= c.rule.raiseN
  {
    hide Step;
    var last := |ops| - 1;
    CountersAreExact(c, ops[..last]);
    SumAppend(Counted(c, ops[..last]), WindowPoint(ops[last].at, ops[last].event.aggCnt));
  }

  lemma RaisedIsTest(c: Setup, ops: seq<Op>, i: nat)
    requires ValidRule(c.rule) && WellTimed(ops) && i < |ops|
    ensures Raised(c, ops, i) <==> Evaluates(c, Slot(c, ops[..i]), ops[i])
  {
    hide Slot, Counted, Within, Sum;
    var upto := ops[..i + 1];
    assert upto[..i] == ops[..i] && upto[i] == ops[i];
    if c.rule.kind == MissingHeartbeat {
      GapIsMissing(c, ops, i);
    } else if ops[i].Arrive? {
      hide ConditionHolds;
      if c.rule.kind == CountTotal {
        TotalTest(c, upto);
      } else {
        RaiseTestIsNaive(c, upto);
      }
    }
  }

  // ---------------------------------------------------------------------------
  // All changes.

  /** What a decision changes, in terms of the state it finds and of whether the raise condition was found true. */
  predicate ChangesAs(c: Setup, slot: Option<Rt>, op: Op, d: Option<Decision>) {
    && (Changes(d) && d.value.state == Pending <==>
          Evaluates(c, slot, op) && StateOf(slot) == Idle && c.rule.pendingEnabled)
    && (Changes(d) && d.value.state == Firing <==>
          Evaluates(c, slot, op)
          && if c.rule.pendingEnabled then StateOf(slot) == Pending && op.at - slot.value.raisedAt >= Seconds(c.rule.pendingDelaySec)
             else StateOf(slot) == Idle)
    && (c.rule.kind != MissingHeartbeat ==>
          (Changes(d) && d.value.state == Resolved <==>
             op.Tick? && IsActive(StateOf(slot)) && op.at - slot.value.lastSeen >= Seconds(c.rule.silenceSec + c.rule.hysteresisSec)))
  }

  lemma ChangingEvent(c: Setup, slot: Option<Rt>, event: Event, at: Instant, before: Time)
    requires ValidRule(c.rule) && SlotInv(c, slot, before) && before <= at
    ensures ChangesAs(c, slot, Arrive(event, at), Step(c, slot, Arrive(event, at)).1)
  {
    hide PruneWindow, Sum;
  }

  lemma ChangingTick(c: Setup, slot: Option<Rt>, at: Instant, before: Time)
    requires ValidRule(c.rule) && SlotInv(c, slot, before) && before <= at
    ensures ChangesAs(c, slot, Tick(at), Step(c, slot, Tick(at)).1)
  {
    hide PruneWindow, Sum;
  }

  lemma ChangingStep(c: Setup, slot: Option<Rt>, op: Op, before: Time)
    requires ValidRule(c.rule) && SlotInv(c, slot, before) && before <= op.at
    ensures ChangesAs(c, slot, op, Step(c, slot, op).1)
  {
    hide EventStep, TickStep, ConditionHolds, SlotInv;
    match op
    case Arrive(event, at) => ChangingEvent(c, slot, event, at, before);
    case Tick(at) => ChangingTick(c, slot, at, before);
    case Compact(_, _) =>
  }

  /** The alert entered pending at position `j` and has not changed since. */
  ghost predicate PendingSince(c: Setup, ops: seq<Op>, j: nat) {
    && j < |ops| && Enters(c, ops, j, Pending)
    && forall k :: j < k < |ops| ==> !Changes(DecisionAt(c, ops, k))
  }

  /** At step `i` the alert has been pending for at least the delay. */
  ghost predicate Waited(c: Setup, ops: seq<Op>, i: nat)
    requires i < |ops|
  {
    exists j :: 0 <= j < i && PendingSince(c, ops[..i], j) && ops[i].at - ops[j].at >= Seconds(c.rule.pendingDelaySec)
  }

  lemma WaitedSinceRaise(c: Setup, ops: seq<Op>, i: nat)
    requires ValidRule(c.rule) && WellTimed(ops) && i < |ops| && StateOf(Slot(c, ops[..i])) == Pending
    ensures Waited(c, ops, i) <==> ops[i].at - Slot(c, ops[..i]).value.raisedAt >= Seconds(c.rule.pendingDelaySec)
  {
    hide Step, Slot, DecisionAt;
    var prefix := ops[..i];
    var j := PendingOrigin(c, prefix);
    assert PendingSince(c, prefix, j);
    if Waited(c, ops, i) {
      var k :| 0 <= k < i && PendingSince(c, prefix, k) && ops[i].at - ops[k].at >= Seconds(c.rule.pendingDelaySec);
      assert !(j < k) && !(k < j);
    }
  }

  /** The alert was silent for the timeout of a count rule. */
  predicate Silent(c: Setup, ops: seq<Op>, i: nat)
    requires i < |ops|
  {
    ops[i].at - LastHeard(ops[..i]) >= Seconds(c.rule.silenceSec + c.rule.hysteresisSec)
  }

  /** Main result on decisions: over any run, each step changes the state exactly as the history says. Pending and
      firing need the raise condition, and firing out of pending the whole delay; a count alert resolves at the
      first tick after its silence, a heartbeat alert once it has recovered. */
  lemma ChangesFollowHistory(c: Setup, ops: seq<Op>, i: nat)
    requires ValidRule(c.rule) && WellTimed(ops) && i < |ops|
    ensures var was := StateOf(Slot(c, ops[..i]));
            && (Enters(c, ops, i, Pending) <==> Raised(c, ops, i) && c.rule.pendingEnabled && was == Idle)
            && (Enters(c, ops, i, Firing) <==>
                  Raised(c, ops, i) && if c.rule.pendingEnabled then was == Pending && Waited(c, ops, i) else was == Idle)
            && (Enters(c, ops, i, Resolved) <==>
                  IsActive(was)
                  && if c.rule.kind != MissingHeartbeat then ops[i].Tick? && Silent(c, ops, i)
                     else if c.rule.hysteresisSec == 0 then ops[i].Arrive?
                     else (ops[i].Arrive? || (ops[i].Tick? && !SeesGap(c, ops, i))) && Recovered(c, ops, i))
  {
    hide Step, Raised, Waited, Recovered, Evaluates, SeesGap, LastHeard;
    var prefix := ops[..i];
    ReachableStates(c, prefix);
    LastSeenIsLastHeard(c, prefix);
    RaisedIsTest(c, ops, i);
    ChangingStep(c, Slot(c, prefix), ops[i], LastTime(prefix));
    if StateOf(Slot(c, prefix)) == Pending {
      WaitedSinceRaise(c, ops, i);
    }
    if c.rule.kind == MissingHeartbeat {
      if c.rule.hysteresisSec == 0 {
        ResolvesAtFirstHeartbeat(c, ops, i);
      } else {
        ResolvesIffRecovered(c, ops, i);
      }
    }
  }
}
