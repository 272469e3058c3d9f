/** What the rule engine does to the runtime state of one alert, as functions on
    values. The `Engine` class is proved against these. */
module EngineSpec {
  import opened Domain

  datatype WindowPoint = WindowPoint(at: Time, count: int)

  /** What deliveries left behind: last delivery per repeat key, opening message and
      external reference per route. */
  datatype Marks = Marks(lastNotified: map<string, Time>, messages: map<string, string>, refs: map<string, string>)

  /** The evaluation state of one alert. */
  datatype Rt = Rt(
    alertId: AlertId,
    ruleName: string,
    identity: AlertIdentity,
    raisedAt: Time,
    initialized: bool,
    lastSeen: Time,
    pendingSince: Option<Time>,
    hysteresisSince: Option<Time>,
    state: AlertState,
    countTotal: int,
    window: seq<WindowPoint>,
    windowSum: int,
    activeCount: int,
    marks: Marks)

  /** The state of an alert seen for the first time. */
  function FreshRt(rule: Rule, event: Event, id: AlertId): Rt {
    Rt(id, rule.name, AlertIdentity(event.varName, event.tags, event.metric),
       ZERO_TIME, false, ZERO_TIME, None, None, Idle, 0, [], 0, 0, NO_MARKS)
  }

  /** An alert that closed: references and notification times survive until the state is removed. */
  function ResetResolved(rt: Rt): Rt {
    rt.(state := Idle, pendingSince := None, hysteresisSince := None, window := [], windowSum := 0,
        countTotal := 0, activeCount := 0, raisedAt := ZERO_TIME)
  }

  /** `after` is the same alert under the same rule, with the same delivery marks and silence timer. */
  predicate SameAlert(before: Rt, after: Rt) {
    && after.alertId == before.alertId && after.ruleName == before.ruleName
    && after.marks == before.marks && after.lastSeen == before.lastSeen
  }

  /** The raise condition was just evaluated to `active`. */
  function ApplyActive(rule: Rule, rt: Rt, now: Instant, active: bool, fromTick: bool): (r: (Rt, Decision))
    ensures SameAlert(rt, r.0)
    ensures r.1.matched ==> r.1.alertId == rt.alertId
    ensures r.1.state != Resolved
    ensures r.0.window == rt.window && r.0.windowSum == rt.windowSum && r.0.countTotal == rt.countTotal
  {
    if !active then (rt, if fromTick then NO_DECISION else Noted(rt.alertId))
    else
      var rt := rt.(hysteresisSince := None);
      match rt.state
      case Idle =>
        if rule.pendingEnabled then
          (rt.(raisedAt := now, pendingSince := Some(now), state := Pending), Entered(rt.alertId, Pending, false))
        else
          (rt.(raisedAt := now, pendingSince := None, state := Firing), Entered(rt.alertId, Firing, true))
      case Pending =>
        var since := if rt.pendingSince.Some? then rt.pendingSince.value else now;
        if now - since >= Seconds(rule.pendingDelaySec) then
          (rt.(state := Firing, pendingSince := None), Entered(rt.alertId, Firing, true))
        else
          (rt.(pendingSince := Some(since)), Kept(rt.alertId, Pending))
      case Firing => (rt, Kept(rt.alertId, Firing))
      case Resolved => (rt.(state := Idle, raisedAt := ZERO_TIME), Noted(rt.alertId))
  }

  function Sum(points: seq<WindowPoint>): int {
    if points == [] then 0 else points[0].count + Sum(points[1..])
  }

  /** Drops the leading points older than `cutoff` and takes their counts off the sum. */
  function Prune(points: seq<WindowPoint>, cutoff: Time, sum: int): (seq<WindowPoint>, int) {
    if points != [] && points[0].at < cutoff then Prune(points[1..], cutoff, sum - points[0].count)
    else (points, sum)
  }

  function PruneWindow(points: seq<WindowPoint>, now: Time, window: Time, sum: int): (seq<WindowPoint>, int) {
    if window <= 0 then ([], 0) else Prune(points, now - window, sum)
  }

  /** The state an event finds: the stored one or a fresh one, with the event's time and value. */
  function Touched(rule: Rule, slot: Option<Rt>, id: AlertId, event: Event, now: Instant): Rt {
    var rt := if slot.Some? then slot.value else FreshRt(rule, event, id);
    rt.(lastSeen := now, identity := rt.identity.(metric := event.metric))
  }

  /** One event of a heartbeat rule, on the touched state. */
  function HeartbeatStep(rule: Rule, rt: Rt, now: Instant): (r: (Rt, Decision))
    ensures SameAlert(rt, r.0)
  {
    if !rt.initialized then
      (rt.(initialized := true, state := Idle, pendingSince := None, hysteresisSince := None), Noted(rt.alertId))
    else if !IsActive(rt.state) then (rt, Noted(rt.alertId))
    else if rule.hysteresisSec <= 0 then
      (ResetResolved(rt), Closed(rt.alertId, "heartbeat_recovered", true))
    else
      var since := if rt.hysteresisSince.Some? then rt.hysteresisSince.value else now;
      if now - since < Seconds(rule.hysteresisSec) then
        (rt.(hysteresisSince := Some(since)), Kept(rt.alertId, rt.state))
      else (ResetResolved(rt), Closed(rt.alertId, "heartbeat_recovered", true))
  }

  /** One event of a total-count rule, on the touched state. */
  function TotalStep(rule: Rule, rt: Rt, count: int, now: Instant): (r: (Rt, Decision))
    ensures SameAlert(rt, r.0)
  {
    var counted := rt.(initialized := true, countTotal := rt.countTotal + count, activeCount := rt.activeCount + count);
    ApplyActive(rule, counted, now, counted.countTotal >= rule.raiseN, false)
  }

  /** One event of a window-count rule, on the touched state. */
  function WindowStep(rule: Rule, rt: Rt, count: int, now: Instant): (r: (Rt, Decision))
    ensures SameAlert(rt, r.0)
  {
    var (window, sum) := PruneWindow(rt.window + [WindowPoint(now, count)], now, Seconds(rule.windowSec),
                                     rt.windowSum + count);
    var counted := rt.(initialized := true, window := window, windowSum := sum, activeCount := rt.activeCount + count);
    ApplyActive(rule, counted, now, sum >= rule.raiseN, false)
  }

  function EventApply(rule: Rule, rt: Rt, count: int, now: Instant): (r: (Rt, Decision))
    ensures SameAlert(rt, r.0)
  {
    match rule.kind
    case CountTotal => TotalStep(rule, rt, count, now)
    case CountWindow => WindowStep(rule, rt, count, now)
    case MissingHeartbeat => HeartbeatStep(rule, rt, now)
  }

  /** One event of any rule. */
  function EventStep(rule: Rule, slot: Option<Rt>, id: AlertId, event: Event, now: Instant): (r: (Rt, Decision))
    ensures SameAlert(Touched(rule, slot, id, event, now), r.0)
  {
    EventApply(rule, Touched(rule, slot, id, event, now), event.aggCnt, now)
  }

  /** What a tick makes of one alert; `firing` tells whether its id is reported for repeats. */
  datatype TickResult = TickResult(rt: Rt, decision: Option<Decision>, firing: bool)

  predicate HeartbeatMissing(rule: Rule, rt: Rt, now: Time) {
    now - rt.lastSeen >= Seconds(rule.missingSec)
  }

  /** When the recovery window of a heartbeat alert began, as a tick sees it. */
  function RecoverySince(rt: Rt, now: Instant): Time {
    if rt.hysteresisSince.Some? then rt.hysteresisSince.value
    else if rt.lastSeen == ZERO_TIME then now
    else rt.lastSeen
  }

  function HeartbeatTick(rule: Rule, rt: Rt, now: Instant): (r: TickResult)
    ensures SameAlert(rt, r.rt)
    ensures r.decision.Some? ==> r.decision.value.alertId == rt.alertId
  {
    if !rt.initialized then TickResult(rt, None, false)
    else if HeartbeatMissing(rule, rt, now) then
      var (raised, d) := ApplyActive(rule, rt, now, true, true);
      TickResult(raised, Some(d), false)
    else if !IsActive(rt.state) || rule.hysteresisSec <= 0 then TickResult(rt, None, false)
    else
      var since := RecoverySince(rt, now);
      if now - since >= Seconds(rule.hysteresisSec) then
        TickResult(ResetResolved(rt), Some(Closed(rt.alertId, "heartbeat_recovered", false)), false)
      else
        TickResult(rt.(hysteresisSince := Some(since)), Some(Kept(rt.alertId, rt.state)), rt.state == Firing)
  }

  /** One tick of the rule the state belongs to. */
  function TickStep(rule: Rule, rt: Rt, now: Instant): (r: TickResult)
    ensures SameAlert(rt, r.rt)
    ensures r.decision.Some? ==> r.decision.value.alertId == rt.alertId
  {
    match rule.kind
    case MissingHeartbeat => HeartbeatTick(rule, rt, now)
    case _ =>
      if !IsActive(rt.state) then TickResult(rt, None, false)
      else if now - rt.lastSeen >= Seconds(rule.silenceSec + rule.hysteresisSec) then
        TickResult(ResetResolved(rt), Some(Closed(rt.alertId, "silence_timeout", false)), false)
      else TickResult(rt, None, rt.state == Firing)
  }

  // ---------------------------------------------------------------------------
  // Whole-engine operations, on the map of all states.

  /** A tick of `rule` on one of the engine's states: only the rule's own states move. */
  function TickOf(rule: Rule, rt: Rt, now: Instant): (r: TickResult)
    ensures SameAlert(rt, r.rt)
    ensures r.decision.Some? ==> r.decision.value.alertId == rt.alertId
  {
    if rt.ruleName == rule.name then TickStep(rule, rt, now) else TickResult(rt, None, false)
  }

  function TickAll(rule: Rule, states: map<AlertId, Rt>, now: Instant): map<AlertId, Rt> {
    map id | id in states :: TickOf(rule, states[id], now).rt
  }

  /** The decision of one alert, if it has one at this tick. */
  function TickDecision(rule: Rule, states: map<AlertId, Rt>, now: Instant, id: AlertId): Option<Decision> {
    if id in states then TickOf(rule, states[id], now).decision else None
  }

  predicate TickFires(rule: Rule, states: map<AlertId, Rt>, now: Instant, id: AlertId) {
    id in states && TickOf(rule, states[id], now).firing
  }

  /** The decisions of a tick are those of its alerts, one per alert at most, in any order. */
  ghost predicate TickDecisions(rule: Rule, states: map<AlertId, Rt>, now: Instant, ds: seq<Decision>) {
    && (forall i :: 0 <= i < |ds| ==> TickDecision(rule, states, now, ds[i].alertId) == Some(ds[i]))
    && (forall i, j :: 0 <= i < j < |ds| ==> ds[i].alertId != ds[j].alertId)
    && (forall id :: TickDecision(rule, states, now, id).Some? ==>
          exists i :: 0 <= i < |ds| && ds[i].alertId == id)
  }

  ghost predicate TickFiring(rule: Rule, states: map<AlertId, Rt>, now: Instant, ids: seq<AlertId>) {
    && (forall id :: id in ids <==> TickFires(rule, states, now, id))
    && (forall i, j :: 0 <= i < j < |ids| ==> ids[i] != ids[j])
  }

  /** An inactive state that the idle threshold evicts. */
  predicate Stale(rt: Rt, now: Time, idleTTL: Time) {
    idleTTL > 0 && rt.state == Idle && rt.lastSeen != ZERO_TIME && now - rt.lastSeen >= idleTTL
  }

  /** What compaction promises: only inactive states go; every stale one goes; the cap is met
      unless only active states are left; beyond the stale ones, states go only while the cap
      is exceeded and least recently seen first. */
  ghost predicate Compacted(before: map<AlertId, Rt>, after: map<AlertId, Rt>, now: Time, idleTTL: Time, cap: int) {
    && after.Keys <= before.Keys
    && (forall id :: id in after ==> after[id] == before[id])
    && (forall id :: id in before && id !in after ==> before[id].state == Idle)
    && (forall id :: id in after ==> !Stale(after[id], now, idleTTL))
    && (0 < cap < |after| ==> forall id :: id in after ==> after[id].state != Idle)
    && (forall id :: id in before && id !in after && !Stale(before[id], now, idleTTL) ==>
          && 0 < cap <= |after|
          && forall k :: k in after && after[k].state == Idle ==> before[id].lastSeen <= after[k].lastSeen)
  }

  const NO_MARKS := Marks(map[], map[], map[])

  function MarksOf(states: map<AlertId, Rt>, id: AlertId): Marks {
    if id in states then states[id].marks else NO_MARKS
  }

  /** The states after setting the delivery marks of one alert; an unknown alert has none. */
  function WithMarks(states: map<AlertId, Rt>, id: AlertId, marks: Marks): map<AlertId, Rt> {
    if id in states then states[id := states[id].(marks := marks)] else states
  }
}
