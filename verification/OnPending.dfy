/** The switch for pending notifications, in the rule and in the service, changes nothing. */
module OnPending {
  import opened Domain
  import opened EngineSpec
  import opened Cards
  import opened Delivery
  import opened AlertFlow
  import opened AlertRuns
  import L = Lifecycle

  /** The same service with the switches set otherwise. */
  function Switched(env: Env, service: bool, rule: Option<bool>): Env {
    env.(cfg := env.cfg.(onPending := service), rule := env.rule.(onPending := rule))
  }

  lemma ActiveIgnores(a: Rule, o: Option<bool>, rt: Rt, now: Instant, active: bool, fromTick: bool)
    ensures ApplyActive(a.(onPending := o), rt, now, active, fromTick) == ApplyActive(a, rt, now, active, fromTick)
  {
  }

  lemma EventIgnores(a: Rule, o: Option<bool>, slot: Option<Rt>, id: AlertId, event: Event, now: Instant)
    ensures EventStep(a.(onPending := o), slot, id, event, now) == EventStep(a, slot, id, event, now)
  {
    hide ApplyActive, PruneWindow;
    var rt := Touched(a, slot, id, event, now);
    assert Touched(a.(onPending := o), slot, id, event, now) == rt;
    match a.kind
    case CountTotal =>
      var total := rt.countTotal + event.aggCnt;
      ActiveIgnores(a, o, rt.(initialized := true, countTotal := total, activeCount := rt.activeCount + event.aggCnt), now, total >= a.raiseN, false);
    case CountWindow =>
      var (window, sum) := PruneWindow(rt.window + [WindowPoint(now, event.aggCnt)], now, Seconds(a.windowSec), rt.windowSum + event.aggCnt);
      ActiveIgnores(a, o, rt.(initialized := true, window := window, windowSum := sum, activeCount := rt.activeCount + event.aggCnt),
                    now, sum >= a.raiseN, false);
    case MissingHeartbeat =>
  }

  lemma TickIgnores(a: Rule, o: Option<bool>, rt: Rt, now: Instant)
    ensures TickOf(a.(onPending := o), rt, now) == TickOf(a, rt, now)
  {
    hide ApplyActive;
    ActiveIgnores(a, o, rt, now, true, true);
  }

  lemma DispatchedIgnores(env: Env, service: bool, rule: Option<bool>, s: Slice, state: AlertState, now: Instant, routes: seq<Route>)
    ensures var other := Switched(env, service, rule);
            Dispatched(other.cfg, other.world, other.rule, other.id, s, state, now, routes) ==
            Dispatched(env.cfg, env.world, env.rule, env.id, s, state, now, routes)
  {
    hide SendAll, CapturedAll, WithRefs, RefUpdates;
  }

  lemma AppliedIgnores(env: Env, service: bool, rule: Option<bool>, s: Slice, d: Decision, now: Instant, batch: bool)
    requires d.shouldNotify ==> d.state != Pending
    ensures var other := Switched(env, service, rule);
            Applied(other.cfg, other.world, other.rule, other.id, s, d, now, batch) ==
            Applied(env.cfg, env.world, env.rule, env.id, s, d, now, batch)
  {
    hide Dispatched, NewCard, UpdatedCard, Seeded;
    if (d.shouldStore || d.shouldNotify) && s.rt.Some? {
      var ticked := if d.shouldStore && d.state != Resolved then Refreshed(s, batch, now, ResolveTimeout(env.rule)) else s;
      var (stored, _) := if d.stateChanged then Persisted(env.rule, env.id, ticked, d, now) else (ticked, true);
      DispatchedIgnores(env, service, rule, stored, d.state, now, env.rule.routes);
    }
  }

  lemma EventFlowIgnores(env: Env, service: bool, rule: Option<bool>, s: Slice, event: Event, now: Instant, batch: bool)
    ensures var other := Switched(env, service, rule);
            EventFlow(other.cfg, other.world, other.rule, other.id, s, event, now, batch) ==
            EventFlow(env.cfg, env.world, env.rule, env.id, s, event, now, batch)
  {
    hide EventStep, Applied;
    EventIgnores(env.rule, rule, s.rt, env.id, event, now);
    L.PendingNeverNotifies(SetupOf(env), s.rt, L.Arrive(event, now));
    var (rt, d) := EventStep(env.rule, s.rt, env.id, event, now);
    AppliedIgnores(env, service, rule, s.(rt := Some(rt)), d, now, batch);
  }

  lemma {:induction false} RepeatRoutesIgnore(env: Env, service: bool, rule: Option<bool>, s: Slice, now: Instant, routes: seq<Route>)
    ensures var other := Switched(env, service, rule);
            RepeatRoutes(other.cfg, other.world, other.rule, other.id, s, now, routes) ==
            RepeatRoutes(env.cfg, env.world, env.rule, env.id, s, now, routes)
    decreases |routes|
  {
    hide Dispatched;
    if routes != [] {
      DispatchedIgnores(env, service, rule, s, Firing, now, [routes[0]]);
      var next := if RepeatDue(env.cfg, env.rule, SliceMarks(s), routes[0].key, now)
                  then Dispatched(env.cfg, env.world, env.rule, env.id, s, Firing, now, [routes[0]]).0 else s;
      RepeatRoutesIgnore(env, service, rule, next, now, routes[1..]);
    }
  }

  lemma TickFlowIgnores(env: Env, service: bool, rule: Option<bool>, s: Slice, now: Instant)
    ensures var other := Switched(env, service, rule);
            TickFlow(other.cfg, other.world, other.rule, other.id, s, now) == TickFlow(env.cfg, env.world, env.rule, env.id, s, now)
  {
    hide TickStep, Applied, Dispatched, RepeatRoutes;
    if s.rt.Some? {
      TickIgnores(env.rule, rule, s.rt.value, now);
      var r := TickOf(env.rule, s.rt.value, now);
      if r.decision.Some? {
        TickNeverNotifiesPending(env.rule, s.rt.value, now);
        AppliedIgnores(env, service, rule, s.(rt := Some(r.rt)), r.decision.value, now, false);
      }
      var decided := TickDecided(env.cfg, env.world, env.rule, env.id, s, now).0;
      RepeatRoutesIgnore(env, service, rule, decided, now, env.rule.routes);
      DispatchedIgnores(env, service, rule, decided, Firing, now, env.rule.routes);
    }
  }

  lemma TickNeverNotifiesPending(rule: Rule, rt: Rt, now: Instant)
    ensures var d := TickOf(rule, rt, now).decision;
            d.Some? && d.value.shouldNotify ==> d.value.state != Pending
  {
  }

  lemma DidIgnores(env: Env, service: bool, rule: Option<bool>, s: Slice, op: SliceOp)
    ensures Did(Switched(env, service, rule), s, op) == Did(env, s, op)
  {
    hide EventFlow, TickFlow, Dispatched;
    match op
    case Arrive(event, at) => EventFlowIgnores(env, service, rule, s, event, at, false);
    case Tick(at) => TickFlowIgnores(env, service, rule, s, at);
    case Evict(_) =>
    case Expire(reason, looks, at) =>
      if s.card.Some? {
        var expired := ExpiredCard(s.card.value.card, reason, at);
        var stored := s.(tick := None, card := Some(VersionedCard(expired, s.card.value.revision + 1)),
                         rt := SeededRt(s.rt, expired.externalRefs));
        DispatchedIgnores(env, service, rule, stored, Resolved, at, env.rule.routes);
      }
  }

  /** Main result: whatever the switches say, every run leaves the same engine state, card, tick and
      deliveries, step by step. */
  lemma {:induction false} OnPendingHasNoEffect(env: Env, service: bool, rule: Option<bool>, ops: seq<SliceOp>)
    ensures After(Switched(env, service, rule), ops) == After(env, ops)
    ensures ops != [] ==> Did(Switched(env, service, rule), After(env, ops[..|ops| - 1]), ops[|ops| - 1])
                          == Did(env, After(env, ops[..|ops| - 1]), ops[|ops| - 1])
  {
    hide Did;
    if ops != [] {
      OnPendingHasNoEffect(env, service, rule, ops[..|ops| - 1]);
      DidIgnores(env, service, rule, After(env, ops[..|ops| - 1]), ops[|ops| - 1]);
    }
  }
}
