/** Runs of one alert through the manager: the stored card and tick follow the engine. */
module AlertRuns {
  import opened Domain
  import opened EngineSpec
  import opened Cards
  import opened Delivery
  import opened AlertFlow
  import L = Lifecycle

  /** What stays fixed over a run. */
  datatype Env = Env(cfg: Config, world: World, rule: Rule, id: AlertId)

  datatype SliceOp =
    | Arrive(event: Event, at: Instant)
    | Tick(at: Instant)
    | Evict(at: Instant)
    | Expire(reason: string, looks: Looks, at: Instant)

  /** One operation outside a batch; false when a send failed and the manager gave up. */
  ghost function Did(env: Env, s: Slice, op: SliceOp): (Slice, bool) {
    match op
    case Arrive(event, at) => EventFlow(env.cfg, env.world, env.rule, env.id, s, event, at, false)
    case Tick(at) => TickFlow(env.cfg, env.world, env.rule, env.id, s, at)
    case Evict(_) => (if MayEvict(s) then Evicted(s) else s, true)
    case Expire(reason, looks, at) => (ExpiryFlow(env.cfg, env.world, env.rule, env.id, s, reason, looks, at), true)
  }

  ghost function After(env: Env, ops: seq<SliceOp>): Slice {
    if ops == [] then NO_SLICE else Did(env, After(env, ops[..|ops| - 1]), ops[|ops| - 1]).0
  }

  /** The operation comes after `from`: its event is valid and its clock readings do not go back. */
  predicate Timely(op: SliceOp, from: Time) {
    && from <= op.at
    && (op.Arrive? ==> ValidEvent(op.event))
    && (op.Expire? ==> LooksWithin(op.looks, from, op.at))
  }

  /** The clock never goes back and events are valid. */
  predicate WellTimed(ops: seq<SliceOp>) {
    ops == [] || (WellTimed(ops[..|ops| - 1]) && Timely(ops[|ops| - 1], LastTime(ops[..|ops| - 1])))
  }

  function LastTime(ops: seq<SliceOp>): Time {
    if ops == [] then ZERO_TIME else ops[|ops| - 1].at
  }

  function SetupOf(env: Env): L.Setup {
    L.Setup(env.rule, env.id, true)
  }

  // ---------------------------------------------------------------------------
  // The invariant.

  /** The card tells what the engine holds. */
  predicate Agrees(rt: Rt, card: AlertCard) {
    && card.alertId == rt.alertId && card.ruleName == rt.ruleName
    && card.identity.varName == rt.identity.varName && card.identity.tags == rt.identity.tags
    && card.state == rt.state && card.raisedAt == rt.raisedAt && card.pendingSince == rt.pendingSince
    && card.closedAt == None && card.externalRefs == rt.marks.refs
  }

  /** A card exists exactly while the engine holds the alert as open, and agrees with it. */
  predicate Mirrored(rt: Option<Rt>, card: Option<VersionedCard>) {
    && (card.Some? <==> rt.Some? && IsActive(rt.value.state))
    && (card.Some? ==> Agrees(rt.value, card.value.card))
    && (rt.Some? && rt.value.state != Firing ==> rt.value.marks == NO_MARKS)
  }

  /** Every event of an open alert of such a rule meets its raise condition. */
  predicate EveryEventCounts(rule: Rule) {
    rule.kind == CountTotal || (rule.kind == CountWindow && rule.raiseN == 1)
  }

  /** A tick exists exactly beside a card, and expires by the engine's silence timeout. */
  predicate Timed(rule: Rule, rt: Option<Rt>, tick: Option<Time>) {
    && (tick.Some? <==> rt.Some? && IsActive(rt.value.state))
    && (tick.Some? && EveryEventCounts(rule) ==> tick.value == TickExpiry(rt.value.lastSeen, ResolveTimeout(rule)))
    && (tick.Some? && rule.kind == CountWindow ==>
          if ResolveTimeout(rule) > 0 then ZERO_TIME < tick.value <= rt.value.lastSeen + ResolveTimeout(rule)
          else tick.value == ZERO_TIME)
    && (tick.Some? && ResolveTimeout(rule) > 0 ==> tick.value > ZERO_TIME)
  }

  ghost predicate Synced(env: Env, s: Slice, now: Time) {
    && L.SlotInv(SetupOf(env), s.rt, now)
    && Mirrored(s.rt, s.card)
    && Timed(env.rule, s.rt, s.tick)
    && s.deferred == None
  }

  /** The notification of a resolve failed: the card is left behind as resolved. */
  predicate Stuck(s: Slice) {
    s.card.Some? && s.card.value.card.state == Resolved
  }

  // ---------------------------------------------------------------------------
  // References survive a delivery on both sides.

  lemma {:induction false} CapturedRefs(perChannel: bool, marks: Marks, state: AlertState, at: Time,
                                        results: seq<(Route, SendResult)>)
    ensures CapturedAll(perChannel, marks, state, at, results).refs == marks.refs + RefUpdates(results)
    decreases |results|
  {
    if results != [] {
      var last := |results| - 1;
      CapturedSplit(perChannel, marks, state, at, results, last);
      CapturedRefs(perChannel, marks, state, at, results[..last]);
      assert results[last..] == [results[last]];
    }
  }

  lemma {:induction false} CapturedSplit(perChannel: bool, marks: Marks, state: AlertState, at: Time,
                                         results: seq<(Route, SendResult)>, n: nat)
    requires n <= |results|
    ensures CapturedAll(perChannel, marks, state, at, results) ==
            CapturedAll(perChannel, CapturedAll(perChannel, marks, state, at, results[..n]), state, at, results[n..])
    decreases n
  {
    if n > 0 {
      var first := Captured(perChannel, marks, state, at, results[0].0, results[0].1);
      CapturedSplit(perChannel, first, state, at, results[1..], n - 1);
      assert results[..n][1..] == results[1..][..n - 1];
      assert results[1..][n - 1..] == results[n..];
    } else {
      assert results[..0] == [] && results[0..] == results;
    }
  }

  lemma {:induction false} UpdatesNonEmpty(results: seq<(Route, SendResult)>)
    ensures forall key :: key in RefUpdates(results) ==> RefUpdates(results)[key] != ""
    decreases |results|
  {
    if results != [] {
      UpdatesNonEmpty(results[..|results| - 1]);
    }
  }

  lemma MergedIsSum(refs: map<string, string>, updates: map<string, string>)
    requires forall key :: key in updates ==> updates[key] != ""
    ensures MergedRefs(refs, updates) == refs + updates
  {
  }

  /** A notification touches only marks, references and the log, and keeps the references equal. */
  lemma DispatchedKeeps(env: Env, s: Slice, state: AlertState, now: Instant, routes: seq<Route>)
    ensures var (t, ok) := Dispatched(env.cfg, env.world, env.rule, env.id, s, state, now, routes);
            && t.tick == s.tick && t.deferred == s.deferred
            && t.rt == (if s.rt.Some? then Some(s.rt.value.(marks := SliceMarks(t))) else None)
            && (t.card.Some? <==> s.card.Some?)
            && (t.card.Some? ==> t.card.value.card == s.card.value.card.(externalRefs := t.card.value.card.externalRefs))
            && (state == Resolved ==> t.card == s.card)
            && (state != Resolved && s.card.Some? && s.rt.Some? && s.card.value.card.externalRefs == SliceMarks(s).refs ==>
                  t.card.value.card.externalRefs == SliceMarks(t).refs)
  {
    hide SendAll, CapturedAll, RefUpdates, MergedRefs;
    var batch := SendAll(env.world, env.id, routes, SliceMarks(s), state, now, s.log);
    CapturedRefs(env.cfg.repeatPerChannel, SliceMarks(s), state, now, batch.results);
    UpdatesNonEmpty(batch.results);
    if s.card.Some? {
      MergedIsSum(s.card.value.card.externalRefs, RefUpdates(batch.results));
    }
  }

  // ---------------------------------------------------------------------------
  // What an engine step tells the manager.

  /** The engine moved an alert that was in state `from`, open since `raised`, to `rt` and decided `d`. */
  predicate Decides(from: AlertState, raised: Time, rt: Rt, d: Decision, now: Instant) {
    if d.stateChanged then
      && d.shouldStore && (d.shouldNotify <==> d.state != Pending)
      && (d.state == Pending || d.state == Firing || d.state == Resolved)
      && rt.state == (if d.state == Resolved then Idle else d.state)
      && (from == Idle ==> d.state != Resolved && rt.raisedAt == now)
      && (from != Idle && d.state != Resolved ==> d.state == Firing && from == Pending && rt.raisedAt == raised)
    else
      && rt.state == from && rt.raisedAt == raised && !d.shouldNotify && d.state != Resolved
      && (d.shouldStore ==> IsActive(d.state) && d.state == rt.state)
  }

  function RaisedAt(slot: Option<Rt>): Time {
    if slot.Some? then slot.value.raisedAt else ZERO_TIME
  }

  function MarksIn(slot: Option<Rt>): Marks {
    if slot.Some? then slot.value.marks else NO_MARKS
  }

  ghost predicate Moves(env: Env, before: Option<Rt>, rt: Rt, d: Decision, now: Instant) {
    && L.RtInv(SetupOf(env), rt, now)
    && Decides(L.StateOf(before), RaisedAt(before), rt, d, now)
    && rt.marks == MarksIn(before)
    && (before.Some? ==> rt.identity.varName == before.value.identity.varName && rt.identity.tags == before.value.identity.tags)
  }

  lemma ActiveDecides(rule: Rule, rt: Rt, now: Instant, active: bool, fromTick: bool)
    requires rt.state != Resolved && (rt.state == Idle ==> rt.raisedAt == ZERO_TIME)
    ensures var (next, d) := ApplyActive(rule, rt, now, active, fromTick);
            Decides(rt.state, rt.raisedAt, next, d, now) && next.identity == rt.identity
            && (active ==> d.shouldStore && IsActive(next.state))
  {
  }

  lemma HeartbeatDecides(rule: Rule, rt: Rt, now: Instant)
    requires rt.state != Resolved && (rt.state == Idle ==> rt.raisedAt == ZERO_TIME)
    requires !rt.initialized ==> rt.state == Idle
    ensures var (next, d) := HeartbeatStep(rule, rt, now);
            Decides(rt.state, rt.raisedAt, next, d, now) && next.identity == rt.identity
  {
  }

  lemma EventDecides(rule: Rule, rt: Rt, count: int, now: Instant)
    requires rt.state != Resolved && (rt.state == Idle ==> rt.raisedAt == ZERO_TIME)
    requires !rt.initialized ==> rt.state == Idle
    ensures var (next, d) := EventApply(rule, rt, count, now);
            && Decides(rt.state, rt.raisedAt, next, d, now) && next.identity == rt.identity
            && (rule.kind == CountTotal && rt.countTotal + count >= rule.raiseN ==> d.shouldStore)
            && (rule.kind == CountTotal ==> next.countTotal == rt.countTotal + count)
            && (rule.kind == CountWindow ==>
                  var (window, sum) := PruneWindow(rt.window + [WindowPoint(now, count)], now, Seconds(rule.windowSec), rt.windowSum + count);
                  next.window == window && next.windowSum == sum && (sum >= rule.raiseN ==> d.shouldStore))
            && (rule.kind != MissingHeartbeat ==> d.state != Resolved)
  {
    hide Decides, ApplyActive, HeartbeatStep, PruneWindow;
    match rule.kind
    case CountTotal =>
      var counted := rt.(initialized := true, countTotal := rt.countTotal + count, activeCount := rt.activeCount + count);
      ActiveDecides(rule, counted, now, counted.countTotal >= rule.raiseN, false);
    case CountWindow =>
      var (window, sum) := PruneWindow(rt.window + [WindowPoint(now, count)], now, Seconds(rule.windowSec), rt.windowSum + count);
      var counted := rt.(initialized := true, window := window, windowSum := sum, activeCount := rt.activeCount + count);
      ActiveDecides(rule, counted, now, sum >= rule.raiseN, false);
    case MissingHeartbeat => HeartbeatDecides(rule, rt, now);
  }

  lemma EventMoves(env: Env, slot: Option<Rt>, event: Event, now: Instant, before: Time)
    requires ValidRule(env.rule) && ValidEvent(event)
    requires L.SlotInv(SetupOf(env), slot, before) && before <= now
    ensures var (rt, d) := EventStep(env.rule, slot, env.id, event, now);
            && Moves(env, slot, rt, d, now)
            && rt.lastSeen == now
            && (EveryEventCounts(env.rule) && IsActive(rt.state) ==> d.shouldStore)
            && (env.rule.kind != MissingHeartbeat ==> d.state != Resolved)
  {
    hide EventApply, Decides;
    var c := SetupOf(env).(removesResolved := false);
    L.StepInv(c, slot, L.Arrive(event, now), before);
    var touched := Touched(env.rule, slot, env.id, event, now);
    EventDecides(env.rule, touched, event.aggCnt, now);
    if env.rule.kind == CountWindow {
      NewEventCounts(touched.window, WindowPoint(now, event.aggCnt), now - Seconds(env.rule.windowSec));
    }
  }

  /** An event is in the window that ends with it. */
  lemma NewEventCounts(window: seq<WindowPoint>, point: WindowPoint, cutoff: Time)
    requires L.Positive(window) && point.count >= 1 && point.at >= cutoff
    ensures Prune(window + [point], cutoff, Sum(window) + point.count).1 >= 1
  {
    L.SumAppend(window, point);
    L.LastPointStays(window + [point], cutoff, Sum(window) + point.count);
  }

  lemma TickDecides(rule: Rule, rt: Rt, now: Instant)
    requires rt.state != Resolved && (rt.state == Idle ==> rt.raisedAt == ZERO_TIME)
    ensures var r := TickOf(rule, rt, now);
            && Decides(rt.state, rt.raisedAt, r.rt, if r.decision.Some? then r.decision.value else NO_DECISION, now)
            && r.rt.identity == rt.identity
            && (rule.kind != MissingHeartbeat && r.decision.None? ==> r.rt == rt)
            && (rule.kind != MissingHeartbeat && r.decision.Some? ==> r.decision.value.state == Resolved)
            && (r.firing ==> r.rt.state == Firing && (r.decision.Some? ==> !r.decision.value.stateChanged))
  {
  }

  lemma TickMoves(env: Env, rt: Rt, now: Instant, before: Time)
    requires ValidRule(env.rule)
    requires L.RtInv(SetupOf(env), rt, before) && before <= now
    ensures var r := TickOf(env.rule, rt, now);
            && Moves(env, Some(rt), r.rt, if r.decision.Some? then r.decision.value else NO_DECISION, now)
            && (env.rule.kind != MissingHeartbeat && r.decision.None? ==> r.rt == rt)
            && (env.rule.kind != MissingHeartbeat && r.decision.Some? ==> r.decision.value.state == Resolved)
            && (r.firing ==> r.rt.state == Firing && (r.decision.Some? ==> !r.decision.value.stateChanged))
  {
    hide TickStep, Decides;
    var c := SetupOf(env).(removesResolved := false);
    L.StepInv(c, Some(rt), L.Tick(now), before);
    TickDecides(env.rule, rt, now);
  }

  // ---------------------------------------------------------------------------
  // One decision keeps the copies together.

  lemma SeedingEqual(refs: map<string, string>)
    ensures Seeded(refs, refs) == refs && Seeded(refs, map[]) == refs
  {
  }

  /** The card write of an opening or a change from pending to firing. */
  lemma PersistedMirrors(env: Env, before: Slice, rt: Rt, d: Decision, now: Instant)
    requires Mirrored(before.rt, before.card) && L.StateOf(before.rt) != Resolved
    requires Moves(env, before.rt, rt, d, now) && d.stateChanged
    requires before.rt.Some? ==> rt.alertId == before.rt.value.alertId && rt.ruleName == before.rt.value.ruleName
    ensures var (t, allow) := Persisted(env.rule, env.id, before.(rt := Some(rt)), d, now);
            && allow && t.tick == before.tick && t.deferred == before.deferred
            && t.rt == Some(rt) && t.card.Some? && t.card.value.card.state == d.state
            && (d.state != Resolved ==> Mirrored(t.rt, t.card))
  {
    SeedingEqual(rt.marks.refs);
    if before.card.Some? {
      assert before.card.value.card.externalRefs == rt.marks.refs;
      SeedingEqual(before.card.value.card.externalRefs);
    } else {
      assert rt.marks == NO_MARKS;
    }
  }

  lemma AnnouncedMirrors(env: Env, s: Slice, d: Decision, now: Instant, allow: bool)
    requires s.rt.Some? && s.card.Some? && s.card.value.card.state == d.state
    requires d.shouldStore && (d.state != Resolved ==> Mirrored(s.rt, s.card) && s.rt.value.state == d.state)
    requires d.shouldNotify <==> d.state != Pending
    ensures var (t, ok) := Announced(env.cfg, env.world, env.rule, env.id, s, d, now, allow);
            && t.deferred == s.deferred
            && (if d.state == Resolved then if ok then t == Removed(s).(log := t.log) else Stuck(t)
                else && t.tick == s.tick && Mirrored(t.rt, t.card)
                     && t.rt == Some(s.rt.value.(marks := SliceMarks(t))))
  {
    hide Dispatched;
    DispatchedKeeps(env, s, d.state, now, env.rule.routes);
  }

  /** The times of a decision: only a stored one refreshes the tick, and where every event counts each
      event of an open alert is stored. */
  predicate Refreshes(rule: Rule, before: Option<Rt>, rt: Rt, d: Decision, now: Instant) {
    if rule.kind == MissingHeartbeat || d.state == Resolved then true
    else if d.shouldStore then rt.lastSeen == now
    else IsActive(rt.state) ==>
           before.Some? && (if EveryEventCounts(rule) then rt.lastSeen == before.value.lastSeen
                            else rt.lastSeen >= before.value.lastSeen)
  }

  lemma UnchangedSyncs(env: Env, s: Slice, rt: Rt, d: Decision, now: Instant, before: Time)
    requires ValidRule(env.rule) && Synced(env, s, before) && before <= now
    requires Moves(env, s.rt, rt, d, now) && Refreshes(env.rule, s.rt, rt, d, now) && !d.stateChanged
    ensures var moved := s.(rt := Some(rt));
            Synced(env, if d.shouldStore then Refreshed(moved, false, now, ResolveTimeout(env.rule)) else moved, now)
  {
  }

  lemma AppliedSyncs(env: Env, s: Slice, rt: Rt, d: Decision, now: Instant, before: Time)
    requires ValidRule(env.rule) && Synced(env, s, before) && before <= now
    requires Moves(env, s.rt, rt, d, now) && Refreshes(env.rule, s.rt, rt, d, now)
    ensures var (t, ok) := Applied(env.cfg, env.world, env.rule, env.id, s.(rt := Some(rt)), d, now, false);
            && (if Stuck(t) then !ok && d.state == Resolved else Synced(env, t, now))
            && (!d.stateChanged ==> ok && t.rt == Some(rt))
            && (d.state != Resolved ==> t.rt == Some(rt.(marks := SliceMarks(t))))
  {
    var moved := s.(rt := Some(rt));
    var ticked := if d.shouldStore && d.state != Resolved then Refreshed(moved, false, now, ResolveTimeout(env.rule)) else moved;
    if d.stateChanged {
      ChangedSyncs(env, s, rt, d, now, before);
    } else {
      UnchangedSyncs(env, s, rt, d, now, before);
      if d.shouldStore {
        AnnouncedQuiet(env, ticked, d, now);
      }
    }
  }

  lemma ChangedSyncs(env: Env, s: Slice, rt: Rt, d: Decision, now: Instant, before: Time)
    requires ValidRule(env.rule) && Synced(env, s, before) && before <= now
    requires Moves(env, s.rt, rt, d, now) && Refreshes(env.rule, s.rt, rt, d, now) && d.stateChanged
    ensures var (t, ok) := Applied(env.cfg, env.world, env.rule, env.id, s.(rt := Some(rt)), d, now, false);
            && (if Stuck(t) then !ok && d.state == Resolved else Synced(env, t, now))
            && (d.state != Resolved ==> t.rt == Some(rt.(marks := SliceMarks(t))))
  {
    hide Persisted, Announced;
    var moved := s.(rt := Some(rt));
    var ticked := if d.state != Resolved then Refreshed(moved, false, now, ResolveTimeout(env.rule)) else moved;
    PersistedMirrors(env, ticked.(rt := s.rt), rt, d, now);
    assert ticked.(rt := s.rt).(rt := Some(rt)) == ticked;
    var (stored, allow) := Persisted(env.rule, env.id, ticked, d, now);
    AnnouncedMirrors(env, stored, d, now, allow);
    var (t, ok) := Announced(env.cfg, env.world, env.rule, env.id, stored, d, now, allow);
    assert (t, ok) == Applied(env.cfg, env.world, env.rule, env.id, moved, d, now, false);
    if t.rt.Some? {
      assert L.RtInv(SetupOf(env), rt.(marks := SliceMarks(t)), now);
    }
    if d.state != Resolved {
      assert Timed(env.rule, stored.rt, stored.tick);
    }
  }

  lemma AnnouncedQuiet(env: Env, s: Slice, d: Decision, now: Instant)
    requires !d.shouldNotify && d.state != Resolved
    ensures Announced(env.cfg, env.world, env.rule, env.id, s, d, now, true) == (s, true)
  {
  }

  // ---------------------------------------------------------------------------
  // Every operation keeps the copies together.

  lemma EventSyncs(env: Env, s: Slice, event: Event, now: Instant, before: Time)
    requires ValidRule(env.rule) && ValidEvent(event) && Synced(env, s, before) && before <= now
    ensures var (t, ok) := EventFlow(env.cfg, env.world, env.rule, env.id, s, event, now, false);
            if Stuck(t) then !ok && env.rule.kind == MissingHeartbeat else Synced(env, t, now)
  {
    hide EventStep, Applied;
    EventMoves(env, s.rt, event, now, before);
    var (rt, d) := EventStep(env.rule, s.rt, env.id, event, now);
    AppliedSyncs(env, s, rt, d, now, before);
  }

  lemma DispatchedSyncs(env: Env, s: Slice, now: Instant, routes: seq<Route>)
    requires Synced(env, s, now) && L.StateOf(s.rt) == Firing
    ensures var t := Dispatched(env.cfg, env.world, env.rule, env.id, s, Firing, now, routes).0;
            Synced(env, t, now) && L.StateOf(t.rt) == Firing
  {
    hide Dispatched;
    DispatchedKeeps(env, s, Firing, now, routes);
    var t := Dispatched(env.cfg, env.world, env.rule, env.id, s, Firing, now, routes).0;
    assert L.RtInv(SetupOf(env), s.rt.value.(marks := SliceMarks(t)), now);
  }

  lemma {:induction false} RepeatRoutesSync(env: Env, s: Slice, now: Instant, routes: seq<Route>)
    requires Synced(env, s, now) && L.StateOf(s.rt) == Firing
    ensures Synced(env, RepeatRoutes(env.cfg, env.world, env.rule, env.id, s, now, routes), now)
    decreases |routes|
  {
    hide Dispatched, Synced;
    if routes != [] {
      DispatchedSyncs(env, s, now, [routes[0]]);
      var next := if RepeatDue(env.cfg, env.rule, SliceMarks(s), routes[0].key, now)
                  then Dispatched(env.cfg, env.world, env.rule, env.id, s, Firing, now, [routes[0]]).0 else s;
      RepeatRoutesSync(env, next, now, routes[1..]);
    }
  }

  lemma SyncedIsNotStuck(env: Env, s: Slice, now: Time)
    ensures Synced(env, s, now) ==> !Stuck(s)
  {
  }

  lemma RepeatedSyncs(env: Env, s: Slice, now: Instant)
    requires Synced(env, s, now) && L.StateOf(s.rt) == Firing
    ensures var t := Repeated(env.cfg, env.world, env.rule, env.id, s, now);
            Synced(env, t, now) && !Stuck(t)
  {
    hide Dispatched, Synced, Stuck;
    SyncedIsNotStuck(env, Repeated(env.cfg, env.world, env.rule, env.id, s, now), now);
    RepeatRoutesSync(env, s, now, env.rule.routes);
    DispatchedSyncs(env, s, now, env.rule.routes);
  }

  /** Before the repeats. */
  lemma TickDecidedSyncs(env: Env, s: Slice, now: Instant, before: Time)
    requires ValidRule(env.rule) && Synced(env, s, before) && before <= now
    ensures var (t, ok) := TickDecided(env.cfg, env.world, env.rule, env.id, s, now);
            && (if Stuck(t) then !ok else Synced(env, t, now))
            && (s.rt.Some? && TickOf(env.rule, s.rt.value, now).firing ==> ok && !Stuck(t) && L.StateOf(t.rt) == Firing)
  {
    hide TickOf, Applied;
    if s.rt.Some? {
      TickMoves(env, s.rt.value, now, before);
      var r := TickOf(env.rule, s.rt.value, now);
      var d := if r.decision.Some? then r.decision.value else NO_DECISION;
      assert r.rt.lastSeen == s.rt.value.lastSeen;
      AppliedSyncs(env, s, r.rt, d, now, before);
    }
  }

  lemma TickSyncs(env: Env, s: Slice, now: Instant, before: Time)
    requires ValidRule(env.rule) && Synced(env, s, before) && before <= now
    ensures var (t, ok) := TickFlow(env.cfg, env.world, env.rule, env.id, s, now);
            if Stuck(t) then !ok else Synced(env, t, now)
  {
    hide TickDecided, Repeated, TickOf, Synced, Stuck;
    TickDecidedSyncs(env, s, now, before);
    var decided := TickDecided(env.cfg, env.world, env.rule, env.id, s, now).0;
    if s.rt.Some? && TickOf(env.rule, s.rt.value, now).firing {
      RepeatedSyncs(env, decided, now);
    }
  }

  lemma ExpirySyncs(env: Env, s: Slice, reason: string, looks: Looks, now: Instant, before: Time)
    requires ValidRule(env.rule) && Synced(env, s, before) && before <= now
    ensures Synced(env, ExpiryFlow(env.cfg, env.world, env.rule, env.id, s, reason, looks, now), now)
  {
    hide Dispatched;
    if !Ticking(s.tick, looks) && s.card.Some? {
      var expired := ExpiredCard(s.card.value.card, reason, now);
      var stored := s.(tick := None, card := Some(VersionedCard(expired, s.card.value.revision + 1)),
                       rt := SeededRt(s.rt, expired.externalRefs));
      DispatchedKeeps(env, stored, Resolved, now, env.rule.routes);
    }
  }

  /** Each operation either keeps the copies together or failed while announcing a resolve. */
  lemma DidSyncs(env: Env, s: Slice, op: SliceOp, before: Time)
    requires ValidRule(env.rule) && (op.Arrive? ==> ValidEvent(op.event))
    requires Synced(env, s, before) && before <= op.at
    ensures var (t, ok) := Did(env, s, op);
            if Stuck(t) then !ok else Synced(env, t, op.at)
  {
    hide EventFlow, TickFlow, ExpiryFlow;
    match op
    case Arrive(event, at) => EventSyncs(env, s, event, at, before);
    case Tick(at) => TickSyncs(env, s, at, before);
    case Evict(at) =>
    case Expire(reason, looks, at) => ExpirySyncs(env, s, reason, looks, at, before);
  }

  /** The deliveries never failed at a resolve. */
  ghost predicate NeverStuck(env: Env, ops: seq<SliceOp>) {
    !Stuck(After(env, ops)) && (ops == [] || NeverStuck(env, ops[..|ops| - 1]))
  }

  /** Main result: after any run, a card exists exactly while the engine holds the alert as pending
      or firing and tells the same, and its tick expires by the engine's silence timeout. */
  lemma {:induction false} RunsStaySynced(env: Env, ops: seq<SliceOp>)
    requires ValidRule(env.rule) && WellTimed(ops) && NeverStuck(env, ops)
    ensures Synced(env, After(env, ops), LastTime(ops))
  {
    hide Did, Stuck;
    if ops != [] {
      var prefix := ops[..|ops| - 1];
      RunsStaySynced(env, prefix);
      DidSyncs(env, After(env, prefix), ops[|ops| - 1], LastTime(prefix));
    } else {
      assert Synced(env, NO_SLICE, ZERO_TIME);
    }
  }
}
