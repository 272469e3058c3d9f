/** Runs that open an alert and let it fire, for every valid rule. */
module Witnesses {
  import opened Domain
  import opened EngineSpec
  import opened AlertFlow
  import opened AlertRuns
  import opened Messages
  import L = Lifecycle
  import W = SlidingWindow

  lemma EmptySynced(env: Env)
    ensures Synced(env, NO_SLICE, ZERO_TIME) && MessagesLive(env, NO_SLICE)
  {
  }

  /** An event that does not resolve the alert leaves what the engine computed. */
  lemma EventReaches(env: Env, s: Slice, event: Event, now: Instant, before: Time)
    requires ValidRule(env.rule) && ValidEvent(event) && Synced(env, s, before) && before <= now
    requires EventStep(env.rule, s.rt, env.id, event, now).1.state != Resolved
    ensures var t := Did(env, s, Arrive(event, now)).0;
            && Synced(env, t, now) && !Stuck(t)
            && t.rt == Some(EventStep(env.rule, s.rt, env.id, event, now).0.(marks := SliceMarks(t)))
            && (Working(env) && MessagesLive(env, s) ==> MessagesLive(env, t))
  {
    hide EventStep, Applied, Working, MessagesLive;
    EventMoves(env, s.rt, event, now, before);
    var (rt, d) := EventStep(env.rule, s.rt, env.id, event, now);
    AppliedSyncs(env, s, rt, d, now, before);
    if Working(env) && MessagesLive(env, s) {
      EventMessages(env, s, event, now, before);
    }
  }

  /** A tick that does not resolve the alert leaves what the engine computed. */
  lemma TickReaches(env: Env, s: Slice, now: Instant, before: Time)
    requires ValidRule(env.rule) && Synced(env, s, before) && before <= now && s.rt.Some?
    requires var r := TickOf(env.rule, s.rt.value, now);
             !r.firing && (r.decision.Some? ==> r.decision.value.state != Resolved)
    ensures var t := Did(env, s, Tick(now)).0;
            && Synced(env, t, now) && !Stuck(t)
            && t.rt == Some(TickOf(env.rule, s.rt.value, now).rt.(marks := SliceMarks(t)))
            && (Working(env) && MessagesLive(env, s) ==> MessagesLive(env, t))
  {
    hide TickOf, Applied, Working, MessagesLive;
    if Working(env) && MessagesLive(env, s) {
      TickMessages(env, s, now, before);
    }
    TickMoves(env, s.rt.value, now, before);
    var r := TickOf(env.rule, s.rt.value, now);
    assert r.rt.lastSeen == s.rt.value.lastSeen;
    var d := if r.decision.Some? then r.decision.value else NO_DECISION;
    AppliedSyncs(env, s, r.rt, d, now, before);
    TickDecidedSyncs(env, s, now, before);
  }

  // ---------------------------------------------------------------------------
  // The engine's part.

  function Opening(rule: Rule): AlertState {
    if rule.pendingEnabled then Pending else Firing
  }

  lemma PrunesToLast(points: seq<WindowPoint>, point: WindowPoint, cutoff: Time)
    requires L.Positive(points) && point.count >= 1 && point.at >= cutoff
    ensures Prune(points + [point], cutoff, Sum(points) + point.count).1 >= point.count
    decreases |points|
  {
    if points == [] {
      assert [] + [point] == [point] && [point][1..] == [];
    } else {
      assert (points + [point])[1..] == points[1..] + [point];
      L.PositiveSum(points);
      if points[0].at < cutoff {
        PrunesToLast(points[1..], point, cutoff);
      }
    }
  }

  /** A burst of events that meets the threshold on its own raises a count rule. */
  lemma BurstRaises(env: Env, slot: Option<Rt>, now: Instant, before: Time)
    requires ValidRule(env.rule) && env.rule.kind != MissingHeartbeat
    requires L.SlotInv(SetupOf(env), slot, before) && before <= now
    requires L.StateOf(slot) == Idle || (L.StateOf(slot) == Pending && now - slot.value.raisedAt >= Seconds(env.rule.pendingDelaySec))
    ensures var (rt, d) := EventStep(env.rule, slot, env.id, W.SampleEvent(env.rule.raiseN), now);
            && rt.state == (if L.StateOf(slot) == Idle then Opening(env.rule) else Firing)
            && d.state != Resolved && rt.lastSeen == now && (L.StateOf(slot) == Idle ==> rt.raisedAt == now)
  {
    var touched := Touched(env.rule, slot, env.id, W.SampleEvent(env.rule.raiseN), now);
    if env.rule.kind == CountWindow {
      PrunesToLast(touched.window, WindowPoint(now, env.rule.raiseN), now - Seconds(env.rule.windowSec));
    }
    hide Prune, Sum;
  }

  /** What a heartbeat alert that has just been opened by a tick, or has just fired, looks like. */
  predicate Missed(rt: Rt, now: Time, missing: Time) {
    rt.initialized && rt.lastSeen == 1 && rt.hysteresisSince == None && now - 1 >= missing
  }

  /** The tick that misses a heartbeat opens the alert, and one that misses it for longer lets it fire. */
  lemma MissRaises(env: Env, rt: Rt, now: Instant, before: Time)
    requires ValidRule(env.rule) && env.rule.kind == MissingHeartbeat
    requires L.RtInv(SetupOf(env), rt, before) && before <= now && Missed(rt, now, Seconds(env.rule.missingSec))
    requires rt.state == Idle || (rt.state == Pending && now - rt.raisedAt >= Seconds(env.rule.pendingDelaySec))
    ensures var r := TickOf(env.rule, rt, now);
            && r.decision.Some? && r.decision.value.state != Resolved && !r.firing
            && r.rt.state == (if rt.state == Idle then Opening(env.rule) else Firing)
            && Missed(r.rt, now, Seconds(env.rule.missingSec)) && (rt.state == Idle ==> r.rt.raisedAt == now)
  {
  }

  lemma FirstHeartbeat(env: Env)
    requires env.rule.kind == MissingHeartbeat
    ensures var (rt, d) := EventStep(env.rule, None, env.id, W.SampleEvent(1), 1);
            rt.initialized && rt.lastSeen == 1 && rt.hysteresisSince == None && rt.state == Idle && d.state != Resolved
  {
  }

  // ---------------------------------------------------------------------------
  // The runs.

  lemma Extended(env: Env, ops: seq<SliceOp>, op: SliceOp)
    requires WellTimed(ops) && Timely(op, LastTime(ops))
    ensures WellTimed(ops + [op]) && LastTime(ops + [op]) == op.at
    ensures After(env, ops + [op]) == Did(env, After(env, ops), op).0
    ensures NeverStuck(env, ops + [op]) <==> NeverStuck(env, ops) && !Stuck(Did(env, After(env, ops), op).0)
  {
    hide Did, Stuck;
    assert (ops + [op])[..|ops|] == ops;
  }

  /** A run that leaves an alert synced in a state, entered or seen at `now`. */
  ghost predicate Leads(env: Env, ops: seq<SliceOp>, now: Time, state: AlertState) {
    && WellTimed(ops) && NeverStuck(env, ops) && LastTime(ops) == now && now > ZERO_TIME
    && var s := After(env, ops);
       && Synced(env, s, now) && s.rt.Some? && s.rt.value.state == state
       && (if env.rule.kind == MissingHeartbeat then s.rt.value.initialized && s.rt.value.lastSeen == 1 && s.rt.value.hysteresisSince == None
           else s.rt.value.lastSeen == now)
       && (Working(env) ==> MessagesLive(env, s))
  }

  lemma EmptyRun(env: Env)
    ensures WellTimed([]) && NeverStuck(env, []) && After(env, []) == NO_SLICE
  {
  }

  lemma OpeningRun(env: Env) returns (ops: seq<SliceOp>, now: Instant)
    requires ValidRule(env.rule)
    ensures Leads(env, ops, now, Opening(env.rule)) && After(env, ops).rt.value.raisedAt == now
    ensures env.rule.kind == MissingHeartbeat ==> now - 1 >= Seconds(env.rule.missingSec)
  {
    hide EventStep, TickOf, Did, Synced, WellTimed, NeverStuck, After, Stuck, Working, MessagesLive;
    EmptySynced(env);
    EmptyRun(env);
    if env.rule.kind == MissingHeartbeat {
      var beat := Arrive(W.SampleEvent(1), 1);
      FirstHeartbeat(env);
      EventReaches(env, NO_SLICE, beat.event, 1, ZERO_TIME);
      Extended(env, [], beat);
      var s := Did(env, NO_SLICE, beat).0;
      now := 1 + Seconds(env.rule.missingSec);
      SyncedSlot(env, s, 1);
      MissRaises(env, s.rt.value, now, 1);
      TickReaches(env, s, now, 1);
      Extended(env, [] + [beat], Tick(now));
      ops := [] + [beat] + [Tick(now)];
    } else {
      now := 1;
      var burst := Arrive(W.SampleEvent(env.rule.raiseN), 1);
      BurstRaises(env, None, 1, ZERO_TIME);
      EventReaches(env, NO_SLICE, burst.event, 1, ZERO_TIME);
      Extended(env, [], burst);
      ops := [] + [burst];
    }
  }

  lemma SyncedSlot(env: Env, s: Slice, now: Time)
    requires Synced(env, s, now)
    ensures L.SlotInv(SetupOf(env), s.rt, now)
  {
  }

  lemma FiringRun(env: Env) returns (ops: seq<SliceOp>, now: Instant)
    requires ValidRule(env.rule)
    ensures Leads(env, ops, now, Firing)
  {
    hide EventStep, TickOf, Did, Synced, WellTimed, NeverStuck, After, Stuck, Working, MessagesLive;
    ops, now := OpeningRun(env);
    if env.rule.pendingEnabled {
      var s := After(env, ops);
      var later := now + Seconds(env.rule.pendingDelaySec);
      SyncedSlot(env, s, now);
      if env.rule.kind == MissingHeartbeat {
        MissRaises(env, s.rt.value, later, now);
        TickReaches(env, s, later, now);
        Extended(env, ops, Tick(later));
        ops := ops + [Tick(later)];
      } else {
        var burst := Arrive(W.SampleEvent(env.rule.raiseN), later);
        BurstRaises(env, s.rt, later, now);
        EventReaches(env, s, burst.event, later, now);
        Extended(env, ops, burst);
        ops := ops + [burst];
      }
      now := later;
    }
  }
}
