/** Trackers behind a pending delay: exactly the rules whose alerts can get stuck when they resolve. */
module Trackers {
  import opened Domain
  import opened EngineSpec
  import opened Delivery
  import opened AlertFlow
  import opened AlertRuns
  import opened Messages
  import opened Witnesses
  import L = Lifecycle
  import W = SlidingWindow

  /** A tracker cannot resolve an issue that was never opened. */
  lemma ResolveSticks(env: Env, s: Slice, rt: Rt, d: Decision, now: Instant, before: Time)
    requires ValidRule(env.rule) && Synced(env, s, before) && before <= now && L.StateOf(s.rt) == Pending
    requires Working(env) && TrackerWaits(env.rule)
    requires Moves(env, s.rt, rt, d, now) && d.stateChanged && d.state == Resolved
    ensures var (t, ok) := Applied(env.cfg, env.world, env.rule, env.id, s.(rt := Some(rt)), d, now, false);
            !ok && Stuck(t)
  {
    hide Persisted, SendAll, StoredRef;
    PersistedMirrors(env, s, rt, d, now);
    var stored := Persisted(env.rule, env.id, s.(rt := Some(rt)), d, now).0;
    var i :| 0 <= i < |env.rule.routes| && IsTracker(env.rule.routes[i].channel);
    var tracker := env.rule.routes[i];
    assert tracker in env.rule.routes && tracker.mode != ActiveOnly;
    NoMarksNoRefs(tracker.key);
    assert SliceMarks(stored) == NO_MARKS && Blocked(NO_MARKS, tracker, Resolved);
    FailsIffBlocked(env.world, env.id, env.rule.routes, NO_MARKS, Resolved, now, stored.log);
  }

  lemma EventSticks(env: Env, s: Slice, event: Event, now: Instant, before: Time)
    requires ValidRule(env.rule) && ValidEvent(event) && Synced(env, s, before) && before <= now && L.StateOf(s.rt) == Pending
    requires Working(env) && TrackerWaits(env.rule)
    requires var d := EventStep(env.rule, s.rt, env.id, event, now).1;
             d.stateChanged && d.state == Resolved
    ensures Stuck(Did(env, s, Arrive(event, now)).0)
  {
    hide EventStep, Applied, Working, TrackerWaits, Stuck;
    EventMoves(env, s.rt, event, now, before);
    var (rt, d) := EventStep(env.rule, s.rt, env.id, event, now);
    ResolveSticks(env, s, rt, d, now, before);
  }

  lemma TickSticks(env: Env, s: Slice, now: Instant, before: Time)
    requires ValidRule(env.rule) && Synced(env, s, before) && before <= now && L.StateOf(s.rt) == Pending
    requires Working(env) && TrackerWaits(env.rule)
    requires var d := TickOf(env.rule, s.rt.value, now).decision;
             d.Some? && d.value.stateChanged && d.value.state == Resolved
    ensures Stuck(Did(env, s, Tick(now)).0)
  {
    hide TickOf, Applied, Working, TrackerWaits, Stuck, Repeated;
    TickMoves(env, s.rt.value, now, before);
    var r := TickOf(env.rule, s.rt.value, now);
    ResolveSticks(env, s, r.rt, r.decision.value, now, before);
  }

  // ---------------------------------------------------------------------------
  // A run that gets there, for every rule with such a tracker.

  lemma SilenceResolves(rule: Rule, rt: Rt, now: Instant)
    requires rule.kind != MissingHeartbeat && rt.ruleName == rule.name && IsActive(rt.state)
    requires now - rt.lastSeen >= Seconds(rule.silenceSec + rule.hysteresisSec)
    ensures var d := TickOf(rule, rt, now).decision;
            d.Some? && d.value.stateChanged && d.value.state == Resolved
  {
  }

  /** The first heartbeat of an open alert starts its recovery, and one after the hysteresis ends it. */
  lemma BeatRecovers(rule: Rule, slot: Option<Rt>, id: AlertId, now: Instant)
    requires rule.kind == MissingHeartbeat && rule.hysteresisSec >= 0
    requires slot.Some? && slot.value.initialized && IsActive(slot.value.state) && slot.value.hysteresisSince == None
    ensures var (rt, d) := EventStep(rule, slot, id, W.SampleEvent(1), now);
            if rule.hysteresisSec == 0 then d.stateChanged && d.state == Resolved
            else
              && d == Kept(slot.value.alertId, slot.value.state) && rt.state == slot.value.state
              && forall marks, later: Instant :: later - now >= Seconds(rule.hysteresisSec) ==>
                   var last := EventStep(rule, Some(rt.(marks := marks)), id, W.SampleEvent(1), later).1;
                   last.stateChanged && last.state == Resolved
  {
  }

  lemma StuckRun(env: Env) returns (ops: seq<SliceOp>)
    requires ValidRule(env.rule) && Working(env) && TrackerWaits(env.rule)
    ensures WellTimed(ops) && !NeverStuck(env, ops)
  {
    hide EventStep, TickOf, Did, Synced, WellTimed, NeverStuck, After, Stuck, Working;
    var now;
    ops, now := OpeningRun(env);
    var s := After(env, ops);
    SyncedName(env, s, now);
    if env.rule.kind != MissingHeartbeat {
      var late := now + Seconds(env.rule.silenceSec + env.rule.hysteresisSec);
      SilenceResolves(env.rule, s.rt.value, late);
      TickSticks(env, s, late, now);
      Extended(env, ops, Tick(late));
      ops := ops + [Tick(late)];
    } else {
      var beat := Arrive(W.SampleEvent(1), now);
      BeatRecovers(env.rule, s.rt, env.id, now);
      Extended(env, ops, beat);
      if env.rule.hysteresisSec == 0 {
        EventSticks(env, s, beat.event, now, now);
        ops := ops + [beat];
      } else {
        EventReaches(env, s, beat.event, now, now);
        var kept := Did(env, s, beat).0;
        var last := Arrive(W.SampleEvent(1), now + Seconds(env.rule.hysteresisSec));
        EventSticks(env, kept, last.event, last.at, now);
        Extended(env, ops + [beat], last);
        ops := ops + [beat] + [last];
      }
    }
  }

  lemma SyncedName(env: Env, s: Slice, now: Time)
    requires Synced(env, s, now) && s.rt.Some?
    ensures s.rt.value.ruleName == env.rule.name
  {
  }

  lemma {:induction false} NeverSticks(env: Env, ops: seq<SliceOp>)
    requires ValidRule(env.rule) && Favourable(env) && WellTimed(ops)
    ensures NeverStuck(env, ops)
  {
    hide After, Working, Stuck, Synced;
    MessagesFollowAlerts(env, ops);
    SyncedIsNotStuck(env, After(env, ops), LastTime(ops));
    if ops != [] {
      NeverSticks(env, ops[..|ops| - 1]);
    }
  }

  /** Main result: with working transports, no run leaves a resolved card behind exactly when the rule has
      no tracker behind a pending delay. */
  lemma NeverStuckIff(env: Env)
    requires ValidRule(env.rule) && Working(env)
    ensures (forall ops: seq<SliceOp> :: WellTimed(ops) ==> NeverStuck(env, ops)) <==> !TrackerWaits(env.rule)
  {
    hide WellTimed, NeverStuck, Working, TrackerWaits;
    if TrackerWaits(env.rule) {
      var ops := StuckRun(env);
    } else {
      forall ops: seq<SliceOp> | WellTimed(ops) ensures NeverStuck(env, ops) {
        NeverSticks(env, ops);
      }
    }
  }
}
