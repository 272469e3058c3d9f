/** Off windows and the messages an alert owns: what is suppressed is not caught up. */
module OffHours {
  import opened Domain
  import opened EngineSpec
  import opened Cards
  import opened OffWindows
  import opened Delivery
  import opened AlertFlow
  import opened AlertRuns
  import opened Messages
  import L = Lifecycle

  /** Deliveries that are made succeed, and the rule has no tracker. */
  ghost predicate Reaching(env: Env) {
    && Reliable(env.world) && ValidRoutes(env.rule.routes)
    && forall route :: route in env.rule.routes ==> !IsTracker(route.channel)
  }

  predicate Holds(routes: seq<Route>, marks: Marks) {
    exists i :: 0 <= i < |routes| && OwnsMessage(routes[i]) && StoredRef(marks, routes[i].key).Some?
  }

  ghost predicate InStep(env: Env, s: Slice) {
    Matched(env.rule.routes, s.log, SliceMarks(s))
  }

  /** The operation closes a firing alert with a live message inside an off window. */
  ghost predicate Silenced(env: Env, s: Slice, op: SliceOp) {
    && L.StateOf(s.rt) == Firing && Did(env, s, op).0.rt == None
    && OffActive(env.rule.off, env.world.localMinute(op.at)) && Holds(env.rule.routes, SliceMarks(s))
  }

  // ---------------------------------------------------------------------------
  // One notification, on or off.

  lemma OffIsQuiet(env: Env, s: Slice, state: AlertState, now: Instant, routes: seq<Route>)
    requires OffActive(env.rule.off, env.world.localMinute(now))
    ensures Dispatched(env.cfg, env.world, env.rule, env.id, s, state, now, routes) == (s, true)
  {
  }

  lemma FiringAtAnyHour(env: Env, s: Slice, now: Instant, routes: seq<Route>)
    requires Reaching(env) && s.rt.Some? && InStep(env, s)
    requires DistinctKeys(routes) && forall route :: route in routes ==> route in env.rule.routes
    ensures var (t, ok) := Dispatched(env.cfg, env.world, env.rule, env.id, s, Firing, now, routes);
            ok && InStep(env, t)
  {
    hide Dispatched, Matched, StoredRef, OffActive;
    if OffActive(env.rule.off, env.world.localMinute(now)) {
      OffIsQuiet(env, s, Firing, now, routes);
    } else {
      FiringKeepsMatch(env, s, now, routes);
    }
  }

  lemma ResolvedAtAnyHour(env: Env, s: Slice, now: Instant)
    requires Reaching(env) && InStep(env, s)
    ensures var (t, ok) := Dispatched(env.cfg, env.world, env.rule, env.id, s, Resolved, now, env.rule.routes);
            && ok
            && (InStep(env, Removed(t)) <==>
                !OffActive(env.rule.off, env.world.localMinute(now)) || !Holds(env.rule.routes, SliceMarks(s)))
  {
    hide Dispatched, StoredRef, OffActive, LiveOf;
    var t := Dispatched(env.cfg, env.world, env.rule, env.id, s, Resolved, now, env.rule.routes).0;
    forall route | route in env.rule.routes ensures StoredRef(NO_MARKS, route.key) == None {
      NoMarksNoRefs(route.key);
    }
    if OffActive(env.rule.off, env.world.localMinute(now)) {
      OffIsQuiet(env, s, Resolved, now, env.rule.routes);
      if Holds(env.rule.routes, SliceMarks(s)) {
        var i :| 0 <= i < |env.rule.routes| && OwnsMessage(env.rule.routes[i]) && StoredRef(SliceMarks(s), env.rule.routes[i].key).Some?;
        assert env.rule.routes[i] in env.rule.routes && LiveOf(t.log, env.rule.routes[i].key) != Nothing;
      }
      if !Holds(env.rule.routes, SliceMarks(s)) {
        forall route | route in env.rule.routes && OwnsMessage(route) ensures LiveOf(t.log, route.key) == Nothing {
          var i :| 0 <= i < |env.rule.routes| && env.rule.routes[i] == route;
          assert StoredRef(SliceMarks(s), env.rule.routes[i].key) == None;
        }
      }
    } else {
      ResolvedClears(env, s, now);
    }
  }

  lemma NoMarksHoldNothing(routes: seq<Route>)
    ensures !Holds(routes, NO_MARKS)
  {
  }

  // ---------------------------------------------------------------------------
  // One operation.

  /** What a decision does: the messages stay in step, unless it closes the alert while they are off. */
  lemma AppliedAtAnyHour(env: Env, s: Slice, rt: Rt, d: Decision, now: Instant, before: Time)
    requires ValidRule(env.rule) && Reaching(env) && Synced(env, s, before) && before <= now && InStep(env, s)
    requires Moves(env, s.rt, rt, d, now)
    ensures var (t, ok) := Applied(env.cfg, env.world, env.rule, env.id, s.(rt := Some(rt)), d, now, false);
            && ok && (t.rt == None <==> d.stateChanged && d.state == Resolved)
            && (InStep(env, t) <==> !(d.stateChanged && d.state == Resolved && OffActive(env.rule.off, env.world.localMinute(now))
                                      && Holds(env.rule.routes, SliceMarks(s))))
  {
    hide Persisted, Dispatched, Matched, StoredRef, OffActive, Holds;
    var moved := s.(rt := Some(rt));
    assert SliceMarks(moved) == SliceMarks(s);
    var ticked := if d.shouldStore && d.state != Resolved then Refreshed(moved, false, now, ResolveTimeout(env.rule)) else moved;
    assert ticked == moved.(tick := ticked.tick);
    if d.stateChanged {
      PersistedMirrors(env, ticked.(rt := s.rt), rt, d, now);
      assert ticked.(rt := s.rt).(rt := Some(rt)) == ticked;
      PersistedKeepsLog(env, ticked, d, now);
      var stored := Persisted(env.rule, env.id, ticked, d, now).0;
      assert InStep(env, stored) && SliceMarks(stored) == SliceMarks(s);
      DispatchedKeeps(env, stored, d.state, now, env.rule.routes);
      if d.state == Firing {
        FiringAtAnyHour(env, stored, now, env.rule.routes);
      } else if d.state == Resolved {
        ResolvedAtAnyHour(env, stored, now);
      }
    } else if d.shouldStore {
      AnnouncedQuiet(env, ticked, d, now);
    }
  }

  lemma RepeatAtAnyHour(env: Env, s: Slice, now: Instant, routes: seq<Route>)
    requires Reaching(env) && InStep(env, s) && s.rt.Some?
    requires DistinctKeys(routes) && forall route :: route in routes ==> route in env.rule.routes
    ensures var t := Dispatched(env.cfg, env.world, env.rule, env.id, s, Firing, now, routes).0;
            InStep(env, t) && t.rt.Some?
  {
    hide Dispatched, InStep;
    FiringAtAnyHour(env, s, now, routes);
    DispatchedKeeps(env, s, Firing, now, routes);
  }

  lemma {:induction false} RepeatRoutesAtAnyHour(env: Env, s: Slice, now: Instant, routes: seq<Route>)
    requires Reaching(env) && InStep(env, s) && s.rt.Some?
    requires forall route :: route in routes ==> route in env.rule.routes
    ensures var t := RepeatRoutes(env.cfg, env.world, env.rule, env.id, s, now, routes);
            InStep(env, t) && t.rt.Some?
    decreases |routes|
  {
    hide Dispatched, InStep, RepeatDue, Reaching;
    if routes != [] {
      RepeatAtAnyHour(env, s, now, [routes[0]]);
      var next := if RepeatDue(env.cfg, env.rule, SliceMarks(s), routes[0].key, now)
                  then Dispatched(env.cfg, env.world, env.rule, env.id, s, Firing, now, [routes[0]]).0 else s;
      RepeatRoutesAtAnyHour(env, next, now, routes[1..]);
    }
  }

  lemma RepeatedAtAnyHour(env: Env, s: Slice, now: Instant)
    requires Reaching(env) && InStep(env, s) && s.rt.Some?
    ensures var t := Repeated(env.cfg, env.world, env.rule, env.id, s, now);
            InStep(env, t) && t.rt.Some?
  {
    hide Dispatched, InStep, RepeatRoutes, RepeatDue;
    RepeatRoutesAtAnyHour(env, s, now, env.rule.routes);
    RepeatAtAnyHour(env, s, now, env.rule.routes);
  }

  /** An operation keeps the messages in step exactly unless it silences a live one. */
  lemma DidAtAnyHour(env: Env, s: Slice, op: SliceOp, before: Time)
    requires ValidRule(env.rule) && Reaching(env) && Synced(env, s, before) && Timely(op, before) && InStep(env, s)
    ensures var (t, ok) := Did(env, s, op);
            ok && (InStep(env, t) <==> !Silenced(env, s, op))
  {
    hide EventFlow, TickFlow, ExpiryFlow, InStep, Reaching, Holds, OffActive;
    match op
    case Arrive(event, at) => EventAtAnyHour(env, s, event, at, before);
    case Tick(at) => TickAtAnyHour(env, s, at, before);
    case Evict(at) =>
      if MayEvict(s) {
        EvictedInStep(env, s, before);
      }
    case Expire(reason, looks, at) => ExpiryAtAnyHour(env, s, reason, looks, at, before);
  }

  lemma EvictedInStep(env: Env, s: Slice, before: Time)
    requires Synced(env, s, before) && InStep(env, s) && MayEvict(s)
    ensures InStep(env, Evicted(s))
  {
    hide Matched;
  }

  /** Only a firing alert holds a reference. */
  lemma HoldersFire(env: Env, s: Slice, before: Time)
    requires Synced(env, s, before)
    ensures Holds(env.rule.routes, SliceMarks(s)) ==> L.StateOf(s.rt) == Firing
  {
    NoMarksHoldNothing(env.rule.routes);
  }

  lemma EventAtAnyHour(env: Env, s: Slice, event: Event, now: Instant, before: Time)
    requires ValidRule(env.rule) && Reaching(env) && Synced(env, s, before) && before <= now && ValidEvent(event) && InStep(env, s)
    ensures var (t, ok) := EventFlow(env.cfg, env.world, env.rule, env.id, s, event, now, false);
            && ok
            && (InStep(env, t) <==> !(L.StateOf(s.rt) == Firing && t.rt == None && OffActive(env.rule.off, env.world.localMinute(now))
                                      && Holds(env.rule.routes, SliceMarks(s))))
  {
    hide EventStep, Applied, InStep, Reaching, Holds, OffActive;
    HoldersFire(env, s, before);
    EventMoves(env, s.rt, event, now, before);
    var (rt, d) := EventStep(env.rule, s.rt, env.id, event, now);
    AppliedAtAnyHour(env, s, rt, d, now, before);
  }

  lemma TickAtAnyHour(env: Env, s: Slice, now: Instant, before: Time)
    requires ValidRule(env.rule) && Reaching(env) && Synced(env, s, before) && before <= now && InStep(env, s)
    ensures var (t, ok) := TickFlow(env.cfg, env.world, env.rule, env.id, s, now);
            && ok
            && (InStep(env, t) <==> !(L.StateOf(s.rt) == Firing && t.rt == None && OffActive(env.rule.off, env.world.localMinute(now))
                                      && Holds(env.rule.routes, SliceMarks(s))))
  {
    hide TickOf, Applied, InStep, Reaching, Holds, OffActive, Repeated;
    HoldersFire(env, s, before);
    if s.rt.Some? {
      TickMoves(env, s.rt.value, now, before);
      var r := TickOf(env.rule, s.rt.value, now);
      var d := if r.decision.Some? then r.decision.value else NO_DECISION;
      AppliedAtAnyHour(env, s, r.rt, d, now, before);
      NothingDecided(env, s.(rt := Some(r.rt)), now);
      if r.firing {
        TickDecidedSyncs(env, s, now, before);
        RepeatedAtAnyHour(env, TickDecided(env.cfg, env.world, env.rule, env.id, s, now).0, now);
      }
    }
  }

  lemma ExpiryAtAnyHour(env: Env, s: Slice, reason: string, looks: Looks, now: Instant, before: Time)
    requires Reaching(env) && Synced(env, s, before) && InStep(env, s)
    ensures var t := ExpiryFlow(env.cfg, env.world, env.rule, env.id, s, reason, looks, now);
            InStep(env, t) <==> !(L.StateOf(s.rt) == Firing && t.rt == None && OffActive(env.rule.off, env.world.localMinute(now))
                                  && Holds(env.rule.routes, SliceMarks(s)))
  {
    hide Dispatched, Matched, Reaching, Holds, OffActive;
    HoldersFire(env, s, before);
    if !Ticking(s.tick, looks) && s.card.Some? {
      var expired := ExpiredCard(s.card.value.card, reason, now);
      var stored := s.(tick := None, card := Some(VersionedCard(expired, s.card.value.revision + 1)),
                       rt := SeededRt(s.rt, expired.externalRefs));
      SeedingEqual(s.rt.value.marks.refs);
      assert stored.rt == s.rt;
      ResolvedAtAnyHour(env, stored, now);
    }
  }

  // ---------------------------------------------------------------------------
  // Runs.

  ghost predicate AlwaysInStep(env: Env, ops: seq<SliceOp>) {
    InStep(env, After(env, ops)) && (ops == [] || AlwaysInStep(env, ops[..|ops| - 1]))
  }

  ghost predicate NeverSilenced(env: Env, ops: seq<SliceOp>) {
    ops == [] || (NeverSilenced(env, ops[..|ops| - 1]) && !Silenced(env, After(env, ops[..|ops| - 1]), ops[|ops| - 1]))
  }

  /** Main result on off windows: over any run every active-only message stays live under exactly the reference
      the engine holds, exactly when no firing alert with a live message is closed inside an off window. Openings
      and repeats that are suppressed do no harm: the message is created by the first repeat outside the window. */
  lemma {:induction false} InStepIffNeverSilenced(env: Env, ops: seq<SliceOp>)
    requires ValidRule(env.rule) && Reaching(env) && WellTimed(ops)
    ensures AlwaysInStep(env, ops) <==> NeverSilenced(env, ops)
    ensures NeverSilenced(env, ops) ==> Synced(env, After(env, ops), LastTime(ops))
  {
    hide Did, Reaching, InStep, Silenced, Synced;
    if ops == [] {
      NothingInStep(env);
    } else {
      var prefix := ops[..|ops| - 1];
      InStepIffNeverSilenced(env, prefix);
      if NeverSilenced(env, prefix) {
        DidAtAnyHour(env, After(env, prefix), ops[|ops| - 1], LastTime(prefix));
        DidSyncs(env, After(env, prefix), ops[|ops| - 1], LastTime(prefix));
      }
    }
  }

  lemma NothingInStep(env: Env)
    ensures InStep(env, NO_SLICE) && Synced(env, NO_SLICE, ZERO_TIME)
  {
    forall route | route in env.rule.routes ensures StoredRef(NO_MARKS, route.key) == None {
      NoMarksNoRefs(route.key);
    }
  }
}
