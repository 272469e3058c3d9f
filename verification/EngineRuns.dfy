/** The engine inside the manager: between two removals of its state, an alert's engine state is that of the engine
    alone under the same events, ticks and evictions, so what holds of engine runs holds of the service. */
module EngineRuns {
  import opened Domain
  import opened EngineSpec
  import opened AlertFlow
  import opened AlertRuns
  import opened Messages
  import opened Records
  import L = Lifecycle

  /** An engine state without the marks that deliveries left. */
  function Bare(slot: Option<Rt>): Option<Rt> {
    if slot.None? then None else Some(slot.value.(marks := NO_MARKS))
  }

  /** What the engine sees of an operation; an expiry that does not act is nothing to it. */
  function EngineOps(ops: seq<SliceOp>): seq<L.Op> {
    if ops == [] then []
    else
      EngineOps(ops[..|ops| - 1]) +
      match ops[|ops| - 1]
      case Arrive(event, at) => [L.Arrive(event, at)]
      case Tick(at) => [L.Tick(at)]
      case Evict(at) => [L.Compact(at, 0)]
      case Expire(_, _, _) => []
  }

  /** How many operations had passed when the engine last held nothing about the alert. */
  ghost function LastCleared(env: Env, ops: seq<SliceOp>): (n: nat)
    ensures n <= |ops|
  {
    if ops == [] || After(env, ops).rt.None? then |ops| else LastCleared(env, ops[..|ops| - 1])
  }

  // ---------------------------------------------------------------------------
  // Marks do not influence the engine.

  lemma EventIgnoresMarks(rule: Rule, slot: Option<Rt>, id: AlertId, event: Event, now: Instant)
    ensures var (rt, d) := EventStep(rule, slot, id, event, now);
            && EventStep(rule, Bare(slot), id, event, now) == (rt.(marks := NO_MARKS), d)
            && rt.marks == MarksIn(slot)
  {
    hide PruneWindow;
  }

  lemma TickIgnoresMarks(rule: Rule, rt: Rt, now: Instant)
    ensures var r := TickStep(rule, rt, now);
            TickStep(rule, rt.(marks := NO_MARKS), now) == r.(rt := r.rt.(marks := NO_MARKS))
  {
  }

  // ---------------------------------------------------------------------------
  // One operation.

  /** A decision leaves the engine's new state, or nothing when it was to resolve. */
  lemma AppliedMoves(env: Env, s: Slice, rt: Rt, d: Decision, now: Instant, before: Time)
    requires ValidRule(env.rule) && Synced(env, s, before) && before <= now && Moves(env, s.rt, rt, d, now)
    ensures var t := Applied(env.cfg, env.world, env.rule, env.id, s.(rt := Some(rt)), d, now, false).0;
            !Stuck(t) ==> Bare(t.rt) == if d.state == Resolved then None else Some(rt.(marks := NO_MARKS))
  {
    hide Persisted, Announced, Synced, Stuck, Moves;
    AppliedWrites(env, s, rt, d, now, before);
    if d.state == Resolved {
      ResolvedLeavesNothing(env, s, rt, d, now, before);
    }
  }

  lemma ResolvedLeavesNothing(env: Env, s: Slice, rt: Rt, d: Decision, now: Instant, before: Time)
    requires ValidRule(env.rule) && Synced(env, s, before) && before <= now && Moves(env, s.rt, rt, d, now) && d.state == Resolved
    ensures var t := Applied(env.cfg, env.world, env.rule, env.id, s.(rt := Some(rt)), d, now, false).0;
            t.rt == None || Stuck(t)
  {
    hide Persisted, Announced;
    PersistedMirrors(env, s, rt, d, now);
    AnnouncedMirrors(env, Persisted(env.rule, env.id, s.(rt := Some(rt)), d, now).0, d, now, true);
  }

  lemma EventMovesEngine(env: Env, s: Slice, event: Event, now: Instant, before: Time)
    requires ValidRule(env.rule) && Synced(env, s, before) && before <= now && ValidEvent(event)
    ensures var t := EventFlow(env.cfg, env.world, env.rule, env.id, s, event, now, false).0;
            !Stuck(t) ==> Bare(t.rt) == L.Step(SetupOf(env), Bare(s.rt), L.Arrive(event, now)).0
  {
    hide EventStep, Applied, Stuck, Synced;
    SyncedSlot(env, s, before);
    EventMoves(env, s.rt, event, now, before);
    EventIgnoresMarks(env.rule, s.rt, env.id, event, now);
    var (rt, d) := EventStep(env.rule, s.rt, env.id, event, now);
    AppliedMoves(env, s, rt, d, now, before);
  }

  lemma SyncedSlot(env: Env, s: Slice, now: Time)
    ensures Synced(env, s, now) ==> L.SlotInv(SetupOf(env), s.rt, now)
  {
  }

  lemma TickMovesEngine(env: Env, s: Slice, now: Instant, before: Time)
    requires ValidRule(env.rule) && Synced(env, s, before) && before <= now
    ensures var t := TickFlow(env.cfg, env.world, env.rule, env.id, s, now).0;
            !Stuck(t) ==> Bare(t.rt) == L.Step(SetupOf(env), Bare(s.rt), L.Tick(now)).0
  {
    hide TickStep, Applied, Stuck, Synced, Repeated;
    SyncedSlot(env, s, before);
    if s.rt.Some? {
      TickMoves(env, s.rt.value, now, before);
      TickIgnoresMarks(env.rule, s.rt.value, now);
      var r := TickOf(env.rule, s.rt.value, now);
      assert r == TickStep(env.rule, s.rt.value, now);
      var d := if r.decision.Some? then r.decision.value else NO_DECISION;
      AppliedMoves(env, s, r.rt, d, now, before);
      NothingDecided(env, s.(rt := Some(r.rt)), now);
      var decided := TickDecided(env.cfg, env.world, env.rule, env.id, s, now).0;
      if r.firing {
        TickDecidedSyncs(env, s, now, before);
        RepeatedMovesNothing(env, decided, now);
      }
    }
  }

  lemma RepeatedMovesNothing(env: Env, s: Slice, now: Instant)
    ensures Bare(Repeated(env.cfg, env.world, env.rule, env.id, s, now).rt) == Bare(s.rt)
  {
    hide Dispatched, RepeatDue, RepeatRoutes;
    RoutesMoveNothing(env, s, now, env.rule.routes);
    DispatchedKeeps(env, s, Firing, now, env.rule.routes);
  }

  lemma {:induction false} RoutesMoveNothing(env: Env, s: Slice, now: Instant, routes: seq<Route>)
    ensures Bare(RepeatRoutes(env.cfg, env.world, env.rule, env.id, s, now, routes).rt) == Bare(s.rt)
    decreases |routes|
  {
    hide Dispatched, RepeatDue;
    if routes != [] {
      DispatchedKeeps(env, s, Firing, now, [routes[0]]);
      var next := if RepeatDue(env.cfg, env.rule, SliceMarks(s), routes[0].key, now)
                  then Dispatched(env.cfg, env.world, env.rule, env.id, s, Firing, now, [routes[0]]).0 else s;
      RoutesMoveNothing(env, next, now, routes[1..]);
    }
  }

  lemma EvictionMovesEngine(env: Env, s: Slice, at: Instant, before: Time)
    requires Synced(env, s, before) && before <= at
    ensures Bare((if MayEvict(s) then Evicted(s) else s).rt) == L.Step(SetupOf(env), Bare(s.rt), L.Compact(at, 0)).0
  {
  }

  // ---------------------------------------------------------------------------
  // Runs.

  lemma {:induction false} EngineOpsAppend(ops: seq<SliceOp>, n: nat)
    requires n < |ops|
    ensures ops[n..][..|ops[n..]| - 1] == ops[..|ops| - 1][n..]
    ensures ops[n..][|ops[n..]| - 1] == ops[|ops| - 1]
  {
  }

  /** The engine's run is in time order too. */
  lemma {:induction false} EngineTimed(ops: seq<SliceOp>, n: nat)
    requires WellTimed(ops) && n <= |ops|
    ensures var run := EngineOps(ops[n..]);
            L.WellTimed(run) && forall i :: 0 <= i < |run| ==> run[i].at <= LastTime(ops)
    decreases |ops|
  {
    hide ValidEvent;
    if n < |ops| {
      EngineTimed(ops[..|ops| - 1], n);
      EngineOpsAppend(ops, n);
    }
  }

  /** One operation that does not clear the alert moves it as the engine's operation would. */
  lemma DidMovesEngine(env: Env, s: Slice, op: SliceOp, before: Time)
    requires ValidRule(env.rule) && Synced(env, s, before) && Timely(op, before)
    ensures var t := Did(env, s, op).0;
            !Stuck(t) && t.rt.Some? ==>
              match op
              case Arrive(event, at) => Bare(t.rt) == L.Step(SetupOf(env), Bare(s.rt), L.Arrive(event, at)).0
              case Tick(at) => Bare(t.rt) == L.Step(SetupOf(env), Bare(s.rt), L.Tick(at)).0
              case Evict(at) => Bare(t.rt) == L.Step(SetupOf(env), Bare(s.rt), L.Compact(at, 0)).0
              case Expire(_, _, _) => t.rt == s.rt
  {
    hide EventFlow, TickFlow, ExpiryFlow, L.Step, Stuck, Synced, Bare;
    match op
    case Arrive(event, at) => EventMovesEngine(env, s, event, at, before);
    case Tick(at) => TickMovesEngine(env, s, at, before);
    case Evict(at) => EvictionMovesEngine(env, s, at, before);
    case Expire(reason, looks, at) => ExpiryActsIff(env, s, op, before);
  }

  lemma SlotAppend(c: L.Setup, run: seq<L.Op>, op: L.Op)
    ensures L.Slot(c, run + [op]) == L.Step(c, L.Slot(c, run), op).0
  {
    assert (run + [op])[..|run|] == run;
  }

  lemma EngineOpsStep(env: Env, ops: seq<SliceOp>)
    requires ops != []
    ensures var slot := L.Slot(SetupOf(env), EngineOps(ops[..|ops| - 1]));
            L.Slot(SetupOf(env), EngineOps(ops)) ==
            match ops[|ops| - 1]
            case Arrive(event, at) => L.Step(SetupOf(env), slot, L.Arrive(event, at)).0
            case Tick(at) => L.Step(SetupOf(env), slot, L.Tick(at)).0
            case Evict(at) => L.Step(SetupOf(env), slot, L.Compact(at, 0)).0
            case Expire(_, _, _) => slot
  {
    hide L.Slot, L.Step;
    var run := EngineOps(ops[..|ops| - 1]);
    match ops[|ops| - 1]
    case Arrive(event, at) => SlotAppend(SetupOf(env), run, L.Arrive(event, at));
    case Tick(at) => SlotAppend(SetupOf(env), run, L.Tick(at));
    case Evict(at) => SlotAppend(SetupOf(env), run, L.Compact(at, 0));
    case Expire(_, _, _) => assert run + [] == run;
  }

  /** Main result on the engine inside: over any run, the engine state of an alert is that of the engine alone under
      the operations since it last held nothing, so every event, tick and eviction does there what it does here. */
  lemma {:induction false} RunsFollowEngine(env: Env, ops: seq<SliceOp>)
    requires ValidRule(env.rule) && WellTimed(ops) && NeverStuck(env, ops)
    ensures Bare(After(env, ops).rt) == L.Slot(SetupOf(env), EngineOps(ops[LastCleared(env, ops)..]))
    ensures L.WellTimed(EngineOps(ops[LastCleared(env, ops)..]))
  {
    hide Did, Stuck, Synced, Timely, Bare, EngineOps, L.Step, L.WellTimed;
    var n := LastCleared(env, ops);
    EngineTimed(ops, n);
    if n == |ops| {
      NothingHeld(env, ops);
      assert EngineOps(ops[n..]) == [] by { NothingDone(ops[n..]); }
    } else {
      var prefix := ops[..|ops| - 1];
      RunsFollowEngine(env, prefix);
      RunsStaySynced(env, prefix);
      DidMovesEngine(env, After(env, prefix), ops[|ops| - 1], LastTime(prefix));
      EngineOpsAppend(ops, n);
      EngineOpsStep(env, ops[n..]);
    }
  }

  lemma NothingDone(ops: seq<SliceOp>)
    ensures ops == [] ==> EngineOps(ops) == []
  {
  }

  lemma NothingHeld(env: Env, ops: seq<SliceOp>)
    requires LastCleared(env, ops) == |ops|
    ensures Bare(After(env, ops).rt) == None
  {
    hide Did;
    if ops != [] && After(env, ops).rt.Some? {
      assert LastCleared(env, ops[..|ops| - 1]) <= |ops| - 1;
    }
  }
}
