/** Exactly which rules cannot tell a batch from its events one at a time. */
module Batches {
  import opened Domain
  import opened EngineSpec
  import opened Cards
  import opened OffWindows
  import opened Delivery
  import opened AlertFlow
  import opened AlertRuns
  import opened Messages
  import opened Service
  import opened Witnesses
  import L = Lifecycle
  import W = SlidingWindow

  /** The events of one alert in order, up to the first failure. */
  ghost function EventsFlow(env: Env, s: Slice, arrivals: seq<Arrival>, batch: bool): (Slice, bool)
    decreases |arrivals|
  {
    if arrivals == [] then (s, true)
    else
      var (next, ok) := EventFlow(env.cfg, env.world, env.rule, env.id, s, arrivals[0].event, arrivals[0].at, batch);
      if ok then EventsFlow(env, next, arrivals[1..], batch) else (next, false)
  }

  /** After any run, a batch of events leaves what its events one at a time leave, and fails with them. */
  ghost predicate BatchAgrees(env: Env, ops: seq<SliceOp>, arrivals: seq<Arrival>) {
    WellTimed(ops) && Ascending(arrivals, LastTime(ops)) && (forall i :: 0 <= i < |arrivals| ==> ValidEvent(arrivals[i].event)) ==>
      var (t, ok) := EventsFlow(env, After(env, ops), arrivals, true);
      EventsFlow(env, After(env, ops), arrivals, false) == (Flushed(t), ok)
  }

  lemma DidKeepsDeferred(env: Env, s: Slice, op: SliceOp)
    requires s.deferred == None
    ensures Did(env, s, op).0.deferred == None
  {
    hide EventStep, TickOf, Applied, Dispatched, RepeatRoutes, RepeatDue;
    match op
    case Arrive(event, at) =>
      var (rt, d) := EventStep(env.rule, s.rt, env.id, event, at);
      AppliedKeepsDeferred(env, s.(rt := Some(rt)), d, at);
    case Tick(at) =>
      if s.rt.Some? {
        var r := TickOf(env.rule, s.rt.value, at);
        if r.decision.Some? {
          AppliedKeepsDeferred(env, s.(rt := Some(r.rt)), r.decision.value, at);
        }
        var decided := TickDecided(env.cfg, env.world, env.rule, env.id, s, at).0;
        RepeatRoutesKeepDeferred(env, decided, at, env.rule.routes);
        DispatchedKeeps(env, decided, Firing, at, env.rule.routes);
      }
    case Evict(_) =>
    case Expire(reason, looks, at) =>
      if s.card.Some? {
        var expired := ExpiredCard(s.card.value.card, reason, at);
        var stored := s.(tick := None, card := Some(VersionedCard(expired, s.card.value.revision + 1)),
                         rt := SeededRt(s.rt, expired.externalRefs));
        DispatchedKeeps(env, stored, Resolved, at, env.rule.routes);
      }
  }

  lemma AppliedKeepsDeferred(env: Env, s: Slice, d: Decision, now: Instant)
    requires s.deferred == None
    ensures Applied(env.cfg, env.world, env.rule, env.id, s, d, now, false).0.deferred == None
  {
    hide Persisted, Dispatched;
    if (d.shouldStore || d.shouldNotify) && s.rt.Some? {
      var ticked := if d.shouldStore && d.state != Resolved then Refreshed(s, false, now, ResolveTimeout(env.rule)) else s;
      PersistedCommutes(env, ticked, d, now);
      var stored := if d.stateChanged then Persisted(env.rule, env.id, ticked, d, now).0 else ticked;
      DispatchedKeeps(env, stored, d.state, now, env.rule.routes);
    }
  }

  lemma {:induction false} RepeatRoutesKeepDeferred(env: Env, s: Slice, now: Instant, routes: seq<Route>)
    requires s.deferred == None
    ensures RepeatRoutes(env.cfg, env.world, env.rule, env.id, s, now, routes).deferred == None
    decreases |routes|
  {
    hide Dispatched, RepeatDue;
    if routes != [] {
      DispatchedKeeps(env, s, Firing, now, [routes[0]]);
      var next := if RepeatDue(env.cfg, env.rule, SliceMarks(s), routes[0].key, now)
                  then Dispatched(env.cfg, env.world, env.rule, env.id, s, Firing, now, [routes[0]]).0 else s;
      RepeatRoutesKeepDeferred(env, next, now, routes[1..]);
    }
  }

  lemma {:induction false} RunsKeepDeferred(env: Env, ops: seq<SliceOp>)
    ensures After(env, ops).deferred == None
  {
    hide Did;
    if ops != [] {
      RunsKeepDeferred(env, ops[..|ops| - 1]);
      DidKeepsDeferred(env, After(env, ops[..|ops| - 1]), ops[|ops| - 1]);
    }
  }

  lemma {:induction false} EventsCommute(env: Env, s: Slice, arrivals: seq<Arrival>, from: Time)
    requires BatchSafe(env.rule) && PutOff(env.rule, s, from) && Ascending(arrivals, from)
    ensures var (t, ok) := EventsFlow(env, s, arrivals, true);
            EventsFlow(env, Flushed(s), arrivals, false) == (Flushed(t), ok)
    decreases |arrivals|
  {
    hide EventFlow, Flushed;
    if arrivals != [] {
      var (event, at) := (arrivals[0].event, arrivals[0].at);
      EventCommutes(env, s, event, at);
      var (next, ok) := EventFlow(env.cfg, env.world, env.rule, env.id, s, event, at, true);
      EventsCommute(env, next, arrivals[1..], at);
    }
  }

  // ---------------------------------------------------------------------------
  // The batch that shows the difference.

  /** A service whose transports always accept and whose clock face never moves. */
  function Calm(minute: int): World {
    World(_ => minute, text => text, (_, _) => Accepted("1"))
  }

  /** The first heartbeat of a firing alert puts a refresh off, the second resolves. */
  lemma TwoBeats(env: Env, s: Slice, now: Instant, later: Instant)
    requires ValidRule(env.rule) && env.rule.kind == MissingHeartbeat && env.rule.hysteresisSec > 0
    requires Synced(env, s, now) && L.StateOf(s.rt) == Firing && s.rt.value.initialized && s.rt.value.hysteresisSince == None
    requires later == now + Seconds(env.rule.hysteresisSec)
    ensures var (rt, d) := EventStep(env.rule, s.rt, env.id, W.SampleEvent(1), now);
            && d == Kept(env.id, Firing)
            && var (_, last) := EventStep(env.rule, Some(rt), env.id, W.SampleEvent(1), later);
               last == Closed(env.id, "heartbeat_recovered", true)
  {
  }

  /** The resolve of a firing alert whose messages are live, or while notifications are off, succeeds. */
  lemma ResolveSucceeds(env: Env, s: Slice, rt: Rt, d: Decision, now: Instant, batch: bool)
    requires Mirrored(s.rt, s.card) && L.StateOf(s.rt) == Firing && rt.marks == s.rt.value.marks
    requires d.stateChanged && d.shouldStore && d.shouldNotify && d.state == Resolved
    requires (Working(env) && MessagesLive(env, s)) || OffActive(env.rule.off, env.world.localMinute(now))
    ensures var (t, ok) := Applied(env.cfg, env.world, env.rule, env.id, s.(rt := Some(rt)), d, now, batch);
            ok && t.card == None && t.tick == None && t.deferred == s.deferred
  {
    hide UpdatedCard, Dispatched, StoredRef, LiveOf, Working;
    var moved := s.(rt := Some(rt));
    SeedingEqual(rt.marks.refs);
    var stored := Persisted(env.rule, env.id, moved, d, now).0;
    assert stored.rt == Some(rt) by { UpdateKeepsRefs(s.card.value.card, d, InputOf(env.rule, env.id, rt, now)); }
    DispatchedKeeps(env, stored, Resolved, now, env.rule.routes);
    if OffActive(env.rule.off, env.world.localMinute(now)) {
      DispatchedWhileOff(env, stored, now);
    } else {
      ResolvedRemovesMessages(env, stored, now);
    }
  }

  lemma UpdateKeepsRefs(card: AlertCard, d: Decision, input: CardInput)
    ensures UpdatedCard(card, d, input).externalRefs == card.externalRefs
  {
  }

  lemma DispatchedWhileOff(env: Env, s: Slice, now: Instant)
    requires OffActive(env.rule.off, env.world.localMinute(now))
    ensures Dispatched(env.cfg, env.world, env.rule, env.id, s, Resolved, now, env.rule.routes) == (s, true)
  {
  }

  /** A heartbeat that only keeps the alert open. */
  lemma KeptFlow(env: Env, s: Slice, event: Event, now: Instant, batch: bool)
    requires s.deferred == None && EventStep(env.rule, s.rt, env.id, event, now).1 == Kept(env.id, Firing)
    ensures var rt := EventStep(env.rule, s.rt, env.id, event, now).0;
            EventFlow(env.cfg, env.world, env.rule, env.id, s, event, now, batch) ==
            (Refreshed(s.(rt := Some(rt)), batch, now, ResolveTimeout(env.rule)), true)
  {
    hide EventStep;
    var rt := EventStep(env.rule, s.rt, env.id, event, now).0;
    AnnouncedQuiet(env, Refreshed(s.(rt := Some(rt)), batch, now, ResolveTimeout(env.rule)), Kept(env.id, Firing), now);
  }

  lemma OneEventFlow(env: Env, s: Slice, arrival: Arrival, batch: bool)
    ensures EventsFlow(env, s, [arrival], batch) ==
            EventFlow(env.cfg, env.world, env.rule, env.id, s, arrival.event, arrival.at, batch)
  {
    hide EventFlow;
    assert [arrival][1..] == [];
  }

  /** One event at a time, or in a batch, the two heartbeats resolve the alert; after the batch its tick is back. */
  lemma TwoBeatsFlow(env: Env, s: Slice, now: Instant, later: Instant, batch: bool)
    requires ValidRule(env.rule) && env.rule.kind == MissingHeartbeat && env.rule.hysteresisSec > 0
    requires Synced(env, s, now) && L.StateOf(s.rt) == Firing && s.rt.value.initialized && s.rt.value.hysteresisSince == None
    requires later == now + Seconds(env.rule.hysteresisSec)
    requires (Working(env) && MessagesLive(env, s)) || OffActive(env.rule.off, env.world.localMinute(later))
    ensures var (t, ok) := EventsFlow(env, s, [Arrival(W.SampleEvent(1), now), Arrival(W.SampleEvent(1), later)], batch);
            ok && t.card == None && t.tick == None && (t.deferred.Some? <==> batch)
  {
    hide EventStep, Working, StoredRef, LiveOf;
    var event := W.SampleEvent(1);
    var first, second := Arrival(event, now), Arrival(event, later);
    assert [first, second][1..] == [second] && [second][1..] == [];
    TwoBeats(env, s, now, later);
    KeptFlow(env, s, event, now, batch);
    var (rt, d) := EventStep(env.rule, s.rt, env.id, event, now);
    EventMoves(env, s.rt, event, now, now);
    assert rt.marks == s.rt.value.marks;
    var kept := Refreshed(s.(rt := Some(rt)), batch, now, ResolveTimeout(env.rule));
    assert kept.rt == Some(rt) && kept.log == s.log && kept.card == s.card && (kept.deferred.Some? <==> batch);
    assert SliceMarks(kept) == SliceMarks(s);
    var (last, closed) := EventStep(env.rule, Some(rt), env.id, event, later);
    assert SameAlert(Touched(env.rule, Some(rt), env.id, event, later), last);
    ResolveSucceeds(env, kept, last, closed, later, batch);
    OneEventFlow(env, kept, second, batch);
    assert EventsFlow(env, s, [first, second], batch) == EventsFlow(env, kept, [second], batch);
  }

  /** A minute at which the rule's notifications are on, if there is one. */
  ghost function ClearMinute(rule: Rule): int {
    if exists minute: int :: !OffActive(rule.off, minute) then
      var minute: int :| !OffActive(rule.off, minute); minute
    else 0
  }

  /** A heartbeat rule with hysteresis has a run and a batch of two heartbeats after which a tick is
      left without a card. */
  lemma BatchLeavesTick(rule: Rule) returns (env: Env, ops: seq<SliceOp>, arrivals: seq<Arrival>)
    requires ValidRule(rule) && ValidRoutes(rule.routes) && !BatchSafe(rule)
    ensures env.rule == rule && !BatchAgrees(env, ops, arrivals)
    ensures var t := Flushed(EventsFlow(env, After(env, ops), arrivals, true).0);
            t.card == None && t.tick.Some?
  {
    hide EventsFlow, After, Synced, WellTimed, NeverStuck, MessagesLive;
    var minute := ClearMinute(rule);
    env := Env(Config(false, 0, false, false, 0, 0), Calm(minute), rule, "a");
    var now;
    ops, now := FiringRun(env);
    var s := After(env, ops);
    var later := now + Seconds(rule.hysteresisSec);
    arrivals := [Arrival(W.SampleEvent(1), now), Arrival(W.SampleEvent(1), later)];
    TwoBeatsFlow(env, s, now, later, true);
    TwoBeatsFlow(env, s, now, later, false);
  }

  /** Main result: whatever the transports answer, after any run a batch is the same as its events one at
      a time exactly for count rules and for heartbeat rules without hysteresis. */
  lemma BatchAgreesIff(rule: Rule)
    requires ValidRule(rule) && ValidRoutes(rule.routes)
    ensures (forall env: Env, ops, arrivals :: env.rule == rule ==> BatchAgrees(env, ops, arrivals)) <==> BatchSafe(rule)
  {
    hide BatchAgrees;
    if BatchSafe(rule) {
      forall env: Env, ops, arrivals | env.rule == rule ensures BatchAgrees(env, ops, arrivals) {
        BatchAgreesAlways(env, ops, arrivals);
      }
    } else {
      var env, ops, arrivals := BatchLeavesTick(rule);
    }
  }

  lemma BatchAgreesAlways(env: Env, ops: seq<SliceOp>, arrivals: seq<Arrival>)
    requires BatchSafe(env.rule)
    ensures BatchAgrees(env, ops, arrivals)
  {
    hide EventsFlow, After, WellTimed;
    var s := After(env, ops);
    RunsKeepDeferred(env, ops);
    assert Flushed(s) == s;
    if Ascending(arrivals, LastTime(ops)) {
      EventsCommute(env, s, arrivals, LastTime(ops));
    }
  }
}
