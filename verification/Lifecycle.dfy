/** Whole engine runs of one alert under one rule. */
module Lifecycle {
  import opened Domain
  import opened EngineSpec

  /** What happens to an alert: an accepted event, a tick of its rule, or a compaction.
      Compaction with `minIdle` zero stands for the state cap, which evicts any inactive state. */
  datatype Op =
    | Arrive(event: Event, at: Instant)
    | Tick(at: Instant)
    | Compact(at: Instant, minIdle: Time)

  /** The rule and alert of a run. The manager removes the state of an alert that resolved;
      the engine alone keeps it. */
  datatype Setup = Setup(rule: Rule, id: AlertId, removesResolved: bool)

  function Surviving(c: Setup, rt: Rt, d: Option<Decision>): Option<Rt> {
    if c.removesResolved && d.Some? && d.value.state == Resolved then None else Some(rt)
  }

  function Step(c: Setup, slot: Option<Rt>, op: Op): (Option<Rt>, Option<Decision>) {
    match op
    case Arrive(event, at) =>
      var (rt, d) := EventStep(c.rule, slot, c.id, event, at);
      (Surviving(c, rt, Some(d)), Some(d))
    case Tick(at) =>
      if slot.None? then (None, None)
      else
        var r := TickStep(c.rule, slot.value, at);
        (Surviving(c, r.rt, r.decision), r.decision)
    case Compact(at, minIdle) =>
      (if slot.Some? && slot.value.state == Idle && at - slot.value.lastSeen >= minIdle then None else slot, None)
  }

  /** The alert's state after a run. */
  function Slot(c: Setup, ops: seq<Op>): Option<Rt> {
    if ops == [] then None else Step(c, Slot(c, ops[..|ops| - 1]), ops[|ops| - 1]).0
  }

  /** The decision made at position `i` of a run. */
  function DecisionAt(c: Setup, ops: seq<Op>, i: nat): Option<Decision>
    requires i < |ops|
  {
    Step(c, Slot(c, ops[..i]), ops[i]).1
  }

  /** The clock never goes back and events are valid. */
  ghost predicate WellTimed(ops: seq<Op>) {
    && (forall i, j :: 0 <= i < j < |ops| ==> ops[i].at <= ops[j].at)
    && (forall i :: 0 <= i < |ops| && ops[i].Arrive? ==> ValidEvent(ops[i].event))
  }

  function LastTime(ops: seq<Op>): Time {
    if ops == [] then ZERO_TIME else ops[|ops| - 1].at
  }

  function StateOf(slot: Option<Rt>): AlertState {
    if slot.None? then Idle else slot.value.state
  }

  ghost predicate Positive(points: seq<WindowPoint>) {
    forall p :: p in points ==> p.count >= 1
  }

  /** What holds of every reachable runtime state; `now` is the time of the last step. */
  ghost predicate RtInv(c: Setup, rt: Rt, now: Time) {
    && rt.alertId == c.id && rt.ruleName == c.rule.name
    && rt.initialized && ZERO_TIME < rt.lastSeen <= now
    && rt.state != Resolved
    && (rt.state == Pending ==> c.rule.pendingEnabled)
    && rt.pendingSince == (if rt.state == Pending then Some(rt.raisedAt) else None)
    && (if IsActive(rt.state) then ZERO_TIME < rt.raisedAt <= now
        else rt.raisedAt == ZERO_TIME && rt.hysteresisSince == None)
    && (c.rule.kind == CountTotal ==> (IsActive(rt.state) <==> rt.countTotal >= c.rule.raiseN))
    && rt.countTotal >= 0 && (c.rule.kind != CountTotal ==> rt.countTotal == 0)
    && rt.windowSum == Sum(rt.window) && Positive(rt.window)
    && (forall p :: p in rt.window ==> p.at <= rt.lastSeen)
    && (c.rule.kind == CountWindow && rt.state == Idle ==> rt.windowSum < c.rule.raiseN)
    && (c.rule.kind != MissingHeartbeat ==> rt.hysteresisSince == None)
    && (c.rule.kind != CountWindow ==> rt.window == [])
  }

  ghost predicate SlotInv(c: Setup, slot: Option<Rt>, now: Time) {
    slot.Some? ==> RtInv(c, slot.value, now)
  }

  // ---------------------------------------------------------------------------
  // Sums and pruning.

  lemma {:induction false} SumAppend(points: seq<WindowPoint>, p: WindowPoint)
    ensures Sum(points + [p]) == Sum(points) + p.count
  {
    if points == [] {
      assert points + [p] == [p];
    } else {
      assert (points + [p])[1..] == points[1..] + [p];
      SumAppend(points[1..], p);
    }
  }

  /** Pruning keeps the running sum equal to the sum of what is left. */
  lemma {:induction false} PruneSum(points: seq<WindowPoint>, cutoff: Time, sum: int)
    requires sum == Sum(points)
    ensures var (kept, left) := Prune(points, cutoff, sum);
            left == Sum(kept) && (forall p :: p in kept ==> p in points)
  {
    if points != [] && points[0].at < cutoff {
      PruneSum(points[1..], cutoff, sum - points[0].count);
    }
  }

  lemma {:induction false} PositiveSum(points: seq<WindowPoint>)
    requires Positive(points)
    ensures Sum(points) >= |points|
  {
    if points != [] {
      PositiveSum(points[1..]);
    }
  }

  /** Pruning keeps the newest point while it is not too old, and with it a positive sum. */
  lemma {:induction false} LastPointStays(points: seq<WindowPoint>, cutoff: Time, sum: int)
    requires points != [] && points[|points| - 1].at >= cutoff && Positive(points) && sum == Sum(points)
    ensures Prune(points, cutoff, sum).1 >= 1
  {
    if points[0].at < cutoff {
      LastPointStays(points[1..], cutoff, sum - points[0].count);
    } else {
      PositiveSum(points);
    }
  }

  // ---------------------------------------------------------------------------
  // The invariant.

  lemma ApplyActiveInv(c: Setup, rt: Rt, now: Instant, active: bool, fromTick: bool)
    requires ValidRule(c.rule) && c.rule.kind != CountTotal
    requires RtInv(c, rt.(windowSum := Sum([]), window := []), now)
    requires rt.windowSum == Sum(rt.window) && Positive(rt.window) && (c.rule.kind != CountWindow ==> rt.window == [])
    requires forall p :: p in rt.window ==> p.at <= rt.lastSeen
    requires c.rule.kind == CountWindow && !active && rt.state == Idle ==> rt.windowSum < c.rule.raiseN
    ensures RtInv(c, ApplyActive(c.rule, rt, now, active, fromTick).0, now)
  {
  }

  lemma TouchedInv(c: Setup, slot: Option<Rt>, event: Event, now: Instant, before: Time)
    requires SlotInv(c, slot, before) && before <= now
    ensures var rt := Touched(c.rule, slot, c.id, event, now);
            && (slot.Some? ==> RtInv(c, rt, now))
            && (slot.None? ==> rt == FreshRt(c.rule, event, c.id).(lastSeen := now))
  {
  }

  lemma TotalInv(c: Setup, slot: Option<Rt>, event: Event, now: Instant, before: Time)
    requires ValidRule(c.rule) && ValidEvent(event) && c.rule.kind == CountTotal
    requires SlotInv(c, slot, before) && before <= now
    ensures RtInv(c, EventStep(c.rule, slot, c.id, event, now).0, now)
  {
    TouchedInv(c, slot, event, now, before);
  }

  lemma WindowInv(c: Setup, slot: Option<Rt>, event: Event, now: Instant, before: Time)
    requires ValidRule(c.rule) && ValidEvent(event) && c.rule.kind == CountWindow
    requires SlotInv(c, slot, before) && before <= now
    ensures RtInv(c, EventStep(c.rule, slot, c.id, event, now).0, now)
  {
    hide ApplyActive, Prune;
    TouchedInv(c, slot, event, now, before);
    var rt := Touched(c.rule, slot, c.id, event, now);
    var point := WindowPoint(now, event.aggCnt);
    SumAppend(rt.window, point);
    PruneSum(rt.window + [point], now - Seconds(c.rule.windowSec), rt.windowSum + event.aggCnt);
    var (window, sum) := PruneWindow(rt.window + [point], now, Seconds(c.rule.windowSec), rt.windowSum + event.aggCnt);
    var counted := rt.(initialized := true, window := window, windowSum := sum,
                       activeCount := rt.activeCount + event.aggCnt);
    ApplyActiveInv(c, counted, now, sum >= c.rule.raiseN, false);
  }

  lemma HeartbeatInv(c: Setup, slot: Option<Rt>, event: Event, now: Instant, before: Time)
    requires ValidRule(c.rule) && c.rule.kind == MissingHeartbeat
    requires SlotInv(c, slot, before) && before <= now
    ensures RtInv(c, EventStep(c.rule, slot, c.id, event, now).0, now)
  {
    TouchedInv(c, slot, event, now, before);
  }

  lemma TickInv(c: Setup, rt: Rt, now: Instant, before: Time)
    requires ValidRule(c.rule) && RtInv(c, rt, before) && before <= now
    ensures RtInv(c, TickStep(c.rule, rt, now).rt, now)
  {
    if c.rule.kind == MissingHeartbeat && HeartbeatMissing(c.rule, rt, now) {
      ApplyActiveInv(c, rt, now, true, true);
    }
  }

  lemma StepInv(c: Setup, slot: Option<Rt>, op: Op, before: Time)
    requires ValidRule(c.rule) && (op.Arrive? ==> ValidEvent(op.event))
    requires SlotInv(c, slot, before) && before <= op.at
    ensures SlotInv(c, Step(c, slot, op).0, op.at)
  {
    hide EventStep, TickStep;
    match op
    case Arrive(event, at) =>
      match c.rule.kind {
        case CountTotal => TotalInv(c, slot, event, at, before);
        case CountWindow => WindowInv(c, slot, event, at, before);
        case MissingHeartbeat => HeartbeatInv(c, slot, event, at, before);
      }
    case Tick(at) =>
      if slot.Some? {
        TickInv(c, slot.value, at, before);
      }
    case Compact(_, _) =>
  }

  /** Every reachable state: never stored as resolved, `pendingSince` exactly while pending, a
      running sum equal to the window's, and a total-count alert open exactly while its count
      reaches the threshold. */
  lemma {:induction false} ReachableStates(c: Setup, ops: seq<Op>)
    requires ValidRule(c.rule) && WellTimed(ops)
    ensures SlotInv(c, Slot(c, ops), LastTime(ops))
  {
    if ops != [] {
      var prefix := ops[..|ops| - 1];
      ReachableStates(c, prefix);
      StepInv(c, Slot(c, prefix), ops[|ops| - 1], LastTime(prefix));
    }
  }

  /** When the alert was last heard of: the time of the latest event. */
  function LastHeard(ops: seq<Op>): Time {
    if ops == [] then ZERO_TIME
    else if ops[|ops| - 1].Arrive? then ops[|ops| - 1].at
    else LastHeard(ops[..|ops| - 1])
  }

  /** The silence timer of a stored state starts at the latest event. */
  lemma {:induction false} LastSeenIsLastHeard(c: Setup, ops: seq<Op>)
    ensures Slot(c, ops).Some? ==> Slot(c, ops).value.lastSeen == LastHeard(ops)
  {
    hide EventApply, TickStep;
    if ops != [] {
      LastSeenIsLastHeard(c, ops[..|ops| - 1]);
    }
  }

  // ---------------------------------------------------------------------------
  // The order of transitions.

  predicate Changes(d: Option<Decision>) {
    d.Some? && d.value.stateChanged
  }

  /** The states an alert changed to, in order. */
  function Transitions(c: Setup, ops: seq<Op>): seq<AlertState> {
    if ops == [] then []
    else
      var d := DecisionAt(c, ops, |ops| - 1);
      Transitions(c, ops[..|ops| - 1]) + if Changes(d) then [d.value.state] else []
  }

  /** The lifecycle as a table: idle, pending when the rule asks for it, firing, resolved. */
  function Advance(pending: bool, state: AlertState, change: AlertState): Option<AlertState> {
    match (state, change)
    case (Idle, Pending) => if pending then Some(Pending) else None
    case (Idle, Firing) => if pending then None else Some(Firing)
    case (Pending, Firing) => Some(Firing)
    case (Pending, Resolved) => Some(Idle)
    case (Firing, Resolved) => Some(Idle)
    case _ => None
  }

  /** The state after a sequence of changes, if the table allows them. */
  function Walk(pending: bool, state: AlertState, changes: seq<AlertState>): Option<AlertState>
    decreases |changes|
  {
    if changes == [] then Some(state)
    else
      var next := Advance(pending, state, changes[0]);
      if next.None? then None else Walk(pending, next.value, changes[1..])
  }

  /** A prefix of `(opening resolved)*`, where an opening is `firing`, or `pending` with or without `firing`. */
  predicate Episodes(pending: bool, changes: seq<AlertState>) {
    changes == [] ||
    (var opening := if pending && |changes| > 1 && changes[1] == Firing then 2 else 1;
     && changes[0] == (if pending then Pending else Firing)
     && (opening < |changes| ==> changes[opening] == Resolved && Episodes(pending, changes[opening + 1..])))
  }

  lemma {:induction false} WalkAppend(pending: bool, state: AlertState, changes: seq<AlertState>, change: AlertState)
    ensures var end := Walk(pending, state, changes);
            Walk(pending, state, changes + [change]) == if end.None? then None else Advance(pending, end.value, change)
    decreases |changes|
  {
    if changes == [] {
      assert changes + [change] == [change];
    } else {
      assert (changes + [change])[1..] == changes[1..] + [change];
      var next := Advance(pending, state, changes[0]);
      if next.Some? {
        WalkAppend(pending, next.value, changes[1..], change);
      }
    }
  }

  /** The table accepts exactly the prefixes of that pattern. */
  lemma {:induction false} WalksAreEpisodes(pending: bool, changes: seq<AlertState>)
    ensures Walk(pending, Idle, changes).Some? <==> Episodes(pending, changes)
    decreases |changes|
  {
    if |changes| >= 2 {
      var open := if pending then Pending else Firing;
      var rest := changes[1..];
      assert Walk(pending, Idle, changes) == if changes[0] == open then Walk(pending, open, rest) else None;
      assert rest[1..] == changes[2..];
      var next := Advance(pending, open, rest[0]);
      assert Walk(pending, open, rest) == if next.None? then None else Walk(pending, next.value, changes[2..]);
      if rest[0] == Resolved {
        WalksAreEpisodes(pending, changes[2..]);
      } else if next == Some(Firing) && |changes| >= 3 {
        assert changes[2..][0] == changes[2] && changes[2..][1..] == changes[3..];
        if changes[2] == Resolved {
          WalksAreEpisodes(pending, changes[3..]);
        }
      }
    }
  }

  lemma StepAdvances(c: Setup, slot: Option<Rt>, op: Op, before: Time)
    requires ValidRule(c.rule) && SlotInv(c, slot, before)
    ensures var (next, d) := Step(c, slot, op);
            if Changes(d) then Advance(c.rule.pendingEnabled, StateOf(slot), d.value.state) == Some(StateOf(next))
            else StateOf(next) == StateOf(slot)
  {
    hide Prune, Sum;
  }

  /** Main result on order: over any run, the changes of one alert form a prefix of
      `(opening resolved)*` and lead to the state the engine holds. */
  lemma {:induction false} TransitionsFollowLifecycle(c: Setup, ops: seq<Op>)
    requires ValidRule(c.rule) && WellTimed(ops)
    ensures Walk(c.rule.pendingEnabled, Idle, Transitions(c, ops)) == Some(StateOf(Slot(c, ops)))
    ensures Episodes(c.rule.pendingEnabled, Transitions(c, ops))
  {
    if ops != [] {
      var last := |ops| - 1;
      var prefix := ops[..last];
      TransitionsFollowLifecycle(c, prefix);
      ReachableStates(c, prefix);
      StepAdvances(c, Slot(c, prefix), ops[last], LastTime(prefix));
      var d := DecisionAt(c, ops, last);
      if Changes(d) {
        WalkAppend(c.rule.pendingEnabled, Idle, Transitions(c, prefix), d.value.state);
      } else {
        assert Transitions(c, prefix) + [] == Transitions(c, prefix);
      }
    }
    WalksAreEpisodes(c.rule.pendingEnabled, Transitions(c, ops));
  }

  // ---------------------------------------------------------------------------
  // Why and when an alert opens.

  /** The raise condition at an instant: the count since the last reset, the sum over the window that
      ends there, or the heartbeat missing there. */
  predicate ConditionAt(rule: Rule, rt: Rt, at: Time) {
    match rule.kind
    case CountTotal => rt.countTotal >= rule.raiseN
    case CountWindow => PruneWindow(rt.window, at, Seconds(rule.windowSec), rt.windowSum).1 >= rule.raiseN
    case MissingHeartbeat => HeartbeatMissing(rule, rt, at)
  }

  /** The raise condition at a step: with the event that arrives counted in, or at the instant of a
      tick. A heartbeat that arrives means the condition is false. A compaction does not look at it. */
  predicate ConditionHolds(c: Setup, slot: Option<Rt>, op: Op) {
    match op
    case Compact(_, _) => true
    case Arrive(event, at) =>
      (match c.rule.kind
       case CountTotal => Touched(c.rule, slot, c.id, event, at).countTotal + event.aggCnt >= c.rule.raiseN
       case CountWindow =>
         var rt := Touched(c.rule, slot, c.id, event, at);
         PruneWindow(rt.window + [WindowPoint(at, event.aggCnt)], at, Seconds(c.rule.windowSec),
                     rt.windowSum + event.aggCnt).1 >= c.rule.raiseN
       case MissingHeartbeat => false)
    case Tick(at) => slot.Some? ==> ConditionAt(c.rule, slot.value, at)
  }

  predicate Enters(c: Setup, ops: seq<Op>, i: nat, state: AlertState)
    requires i < |ops|
  {
    var d := DecisionAt(c, ops, i);
    Changes(d) && d.value.state == state
  }

  /** What one step tells about a pending alert and about opening. */
  predicate OpensAs(c: Setup, slot: Option<Rt>, op: Op, next: Option<Rt>, d: Option<Decision>) {
    && (Changes(d) && IsActive(d.value.state) ==> ConditionHolds(c, slot, op))
    && (Changes(d) && d.value.state == Pending ==> next.Some? && next.value.raisedAt == op.at)
    && (StateOf(next) == Pending && !Changes(d) ==>
          slot.Some? && slot.value.state == Pending && next.value.raisedAt == slot.value.raisedAt)
    && (Changes(d) && d.value.state == Firing && StateOf(slot) == Pending ==>
          op.at - slot.value.raisedAt >= Seconds(c.rule.pendingDelaySec))
  }

  lemma OpeningEvent(c: Setup, slot: Option<Rt>, event: Event, at: Instant, before: Time)
    requires ValidRule(c.rule) && SlotInv(c, slot, before) && before <= at
    ensures var (next, d) := Step(c, slot, Arrive(event, at)); OpensAs(c, slot, Arrive(event, at), next, d)
  {
    hide PruneWindow, Sum;
  }

  lemma OpeningTick(c: Setup, slot: Option<Rt>, at: Instant, before: Time)
    requires ValidRule(c.rule) && SlotInv(c, slot, before) && before <= at
    ensures var (next, d) := Step(c, slot, Tick(at)); OpensAs(c, slot, Tick(at), next, d)
  {
    hide PruneWindow, Sum;
  }

  lemma OpeningStep(c: Setup, slot: Option<Rt>, op: Op, before: Time)
    requires ValidRule(c.rule) && SlotInv(c, slot, before) && before <= op.at
    ensures var (next, d) := Step(c, slot, op); OpensAs(c, slot, op, next, d)
  {
    hide EventStep, TickStep, ConditionHolds, SlotInv;
    match op
    case Arrive(event, at) => OpeningEvent(c, slot, event, at, before);
    case Tick(at) => OpeningTick(c, slot, at, before);
    case Compact(_, _) =>
  }

  /** A run's prefix makes the same decisions. */
  lemma PrefixAgrees(c: Setup, ops: seq<Op>, n: nat)
    requires n <= |ops|
    ensures forall k :: 0 <= k <= n ==> ops[..n][..k] == ops[..k]
    ensures forall k :: 0 <= k < n ==> DecisionAt(c, ops[..n], k) == DecisionAt(c, ops, k)
  {
    hide Step;
    assert forall k :: 0 <= k <= n ==> ops[..n][..k] == ops[..k];
  }

  /** A pending alert entered that state at one earlier step, and nothing changed since. */
  lemma {:induction false} PendingOrigin(c: Setup, ops: seq<Op>) returns (j: nat)
    requires ValidRule(c.rule) && WellTimed(ops)
    requires StateOf(Slot(c, ops)) == Pending
    ensures j < |ops| && Enters(c, ops, j, Pending) && ops[j].at == Slot(c, ops).value.raisedAt
    ensures forall k :: j < k < |ops| ==> !Changes(DecisionAt(c, ops, k)) && StateOf(Slot(c, ops[..k])) == Pending
  {
    hide EventStep, TickStep, ConditionHolds, RtInv;
    var last := |ops| - 1;
    var prefix := ops[..last];
    ReachableStates(c, prefix);
    OpeningStep(c, Slot(c, prefix), ops[last], LastTime(prefix));
    StepAdvances(c, Slot(c, prefix), ops[last], LastTime(prefix));
    if Changes(DecisionAt(c, ops, last)) {
      j := last;
    } else {
      j := PendingOrigin(c, prefix);
      PrefixAgrees(c, ops, last);
    }
  }

  /** Firing out of pending comes at least the configured delay after the step that entered
      pending, with the raise condition true at that step. */
  lemma FiringAfterDelay(c: Setup, ops: seq<Op>, i: nat) returns (j: nat)
    requires ValidRule(c.rule) && WellTimed(ops) && i < |ops|
    requires StateOf(Slot(c, ops[..i])) == Pending && Enters(c, ops, i, Firing)
    ensures j < i && Enters(c, ops, j, Pending)
    ensures ops[i].at - ops[j].at >= Seconds(c.rule.pendingDelaySec)
    ensures ConditionHolds(c, Slot(c, ops[..i]), ops[i]) && ConditionHolds(c, Slot(c, ops[..j]), ops[j])
    ensures forall k :: j < k < i ==> !Changes(DecisionAt(c, ops, k)) && StateOf(Slot(c, ops[..k])) == Pending
  {
    var prefix := ops[..i];
    j := PendingOrigin(c, prefix);
    PrefixAgrees(c, ops, i);
    ReachableStates(c, ops[..i]);
    ReachableStates(c, ops[..j]);
    OpeningStep(c, Slot(c, ops[..i]), ops[i], LastTime(ops[..i]));
    OpeningStep(c, Slot(c, ops[..j]), ops[j], LastTime(ops[..j]));
  }

  /** Every opening, pending or firing, happens at a step whose raise condition is true. */
  lemma OpensOnCondition(c: Setup, ops: seq<Op>, i: nat)
    requires ValidRule(c.rule) && WellTimed(ops) && i < |ops|
    requires Enters(c, ops, i, Pending) || Enters(c, ops, i, Firing)
    ensures ConditionHolds(c, Slot(c, ops[..i]), ops[i])
  {
    ReachableStates(c, ops[..i]);
    OpeningStep(c, Slot(c, ops[..i]), ops[i], LastTime(ops[..i]));
  }

  /** No decision about a pending alert asks for a notification, so the switch for
      pending notifications has no effect. */
  lemma PendingNeverNotifies(c: Setup, slot: Option<Rt>, op: Op)
    ensures var d := Step(c, slot, op).1;
            d.Some? && d.value.shouldNotify ==> d.value.state == Firing || d.value.state == Resolved
  {
    hide Prune, Sum;
  }
}
