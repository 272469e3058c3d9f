/** What a resolved card that was left behind hands on to the next episode of its alert. */
module Leftovers {
  import opened Domain
  import opened EngineSpec
  import opened Delivery
  import opened AlertFlow
  import opened AlertRuns
  import L = Lifecycle

  /** The card of an episode that could not be closed: resolved, with the episode's raise time and references. */
  ghost predicate Left(env: Env, s: Slice, raised: Time, refs: set<string>, now: Time) {
    && L.SlotInv(SetupOf(env), s.rt, now) && L.StateOf(s.rt) == Idle
    && Stuck(s) && s.card.value.card.raisedAt == raised && refs <= s.card.value.card.externalRefs.Keys
  }

  /** The next episode's card tells its state, but the raise time and references of the one before. */
  ghost predicate Inherits(env: Env, s: Slice, raised: Time, refs: set<string>, now: Time) {
    && L.SlotInv(SetupOf(env), s.rt, now) && IsActive(L.StateOf(s.rt)) && s.rt.value.raisedAt == now
    && s.card.Some? && s.card.value.card.state == s.rt.value.state
    && s.card.value.card.raisedAt == raised && refs <= s.card.value.card.externalRefs.Keys
  }

  lemma PersistedInherits(env: Env, s: Slice, d: Decision, now: Instant)
    requires s.rt.Some? && s.card.Some?
    ensures var t := Persisted(env.rule, env.id, s, d, now).0;
            && t.tick == s.tick && t.log == s.log && t.card.Some?
            && t.rt == Some(s.rt.value.(marks := SliceMarks(t)))
            && t.card.value.card.state == d.state && t.card.value.card.raisedAt == s.card.value.card.raisedAt
            && t.card.value.card.externalRefs == s.card.value.card.externalRefs
  {
    hide Seeded;
  }

  /** Deliveries only add references to a card. */
  lemma DispatchedInherits(env: Env, s: Slice, state: AlertState, now: Instant, routes: seq<Route>)
    requires s.card.Some?
    ensures var t := Dispatched(env.cfg, env.world, env.rule, env.id, s, state, now, routes).0;
            t.card.Some? && s.card.value.card.externalRefs.Keys <= t.card.value.card.externalRefs.Keys
  {
    hide SendAll, CapturedAll, RefUpdates;
  }

  /** A resolve whose notification fails leaves the card with what the episode put there. */
  lemma ResolveLeaves(env: Env, s: Slice, rt: Rt, d: Decision, now: Instant, before: Time)
    requires ValidRule(env.rule) && Synced(env, s, before) && before <= now && Moves(env, s.rt, rt, d, now) && s.rt.Some?
    ensures var t := Applied(env.cfg, env.world, env.rule, env.id, s.(rt := Some(rt)), d, now, false).0;
            Stuck(t) ==> Left(env, t, s.rt.value.raisedAt, s.rt.value.marks.refs.Keys, now)
  {
    hide Persisted, Dispatched;
    var moved := s.(rt := Some(rt));
    OnlyResolvesStick(env, s, rt, d, now, before);
    if d.stateChanged && d.state == Resolved {
      PersistedInherits(env, moved, d, now);
      var stored := Persisted(env.rule, env.id, moved, d, now).0;
      DispatchedKeeps(env, stored, Resolved, now, env.rule.routes);
      var t := Dispatched(env.cfg, env.world, env.rule, env.id, stored, Resolved, now, env.rule.routes).0;
      assert L.RtInv(SetupOf(env), rt.(marks := SliceMarks(t)), now);
    }
  }

  /** Only a resolve can leave a resolved card. */
  lemma OnlyResolvesStick(env: Env, s: Slice, rt: Rt, d: Decision, now: Instant, before: Time)
    requires ValidRule(env.rule) && Synced(env, s, before) && before <= now && Moves(env, s.rt, rt, d, now)
    ensures var t := Applied(env.cfg, env.world, env.rule, env.id, s.(rt := Some(rt)), d, now, false).0;
            Stuck(t) ==> d.stateChanged && d.state == Resolved
  {
    hide Persisted, Dispatched;
    var moved := s.(rt := Some(rt));
    var ticked := if d.shouldStore && d.state != Resolved then Refreshed(moved, false, now, ResolveTimeout(env.rule)) else moved;
    if d.stateChanged {
      PersistedMirrors(env, ticked.(rt := s.rt), rt, d, now);
      assert ticked.(rt := s.rt).(rt := Some(rt)) == ticked;
      var stored := Persisted(env.rule, env.id, ticked, d, now).0;
      DispatchedKeeps(env, stored, d.state, now, env.rule.routes);
    } else if d.shouldStore {
      AnnouncedQuiet(env, ticked, d, now);
    }
  }

  lemma StuckIsLeft(env: Env, s: Slice, op: SliceOp, before: Time)
    requires ValidRule(env.rule) && Synced(env, s, before) && Timely(op, before)
    ensures var t := Did(env, s, op).0;
            Stuck(t) ==> s.rt.Some? && Left(env, t, s.rt.value.raisedAt, s.rt.value.marks.refs.Keys, op.at)
  {
    hide EventStep, TickOf, Applied, ExpiryFlow, Repeated;
    match op
    case Arrive(event, at) =>
      EventMoves(env, s.rt, event, at, before);
      var (rt, d) := EventStep(env.rule, s.rt, env.id, event, at);
      OnlyResolvesStick(env, s, rt, d, at, before);
      if s.rt.Some? {
        ResolveLeaves(env, s, rt, d, at, before);
      }
    case Tick(at) =>
      if s.rt.Some? {
        TickMoves(env, s.rt.value, at, before);
        var r := TickOf(env.rule, s.rt.value, at);
        var d := if r.decision.Some? then r.decision.value else NO_DECISION;
        ResolveLeaves(env, s, r.rt, d, at, before);
        TickDecidedSyncs(env, s, at, before);
        if r.firing {
          RepeatedSyncs(env, TickDecided(env.cfg, env.world, env.rule, env.id, s, at).0, at);
        }
      }
    case Evict(_) =>
    case Expire(reason, looks, at) => ExpirySyncs(env, s, reason, looks, at, before);
  }

  /** One decision about an alert with a leftover card. */
  lemma AppliedToLeft(env: Env, s: Slice, rt: Rt, d: Decision, now: Instant, before: Time, raised: Time, refs: set<string>)
    requires ValidRule(env.rule) && Left(env, s, raised, refs, before) && before <= now && Moves(env, s.rt, rt, d, now)
    ensures var t := Applied(env.cfg, env.world, env.rule, env.id, s.(rt := Some(rt)), d, now, false).0;
            if d.stateChanged then Inherits(env, t, raised, refs, now) else Left(env, t, raised, refs, now)
  {
    hide Persisted, Dispatched;
    var moved := s.(rt := Some(rt));
    if d.stateChanged {
      var ticked := Refreshed(moved, false, now, ResolveTimeout(env.rule));
      PersistedInherits(env, ticked, d, now);
      var stored := Persisted(env.rule, env.id, ticked, d, now).0;
      DispatchedKeeps(env, stored, d.state, now, env.rule.routes);
      DispatchedInherits(env, stored, d.state, now, env.rule.routes);
      var t := Dispatched(env.cfg, env.world, env.rule, env.id, stored, d.state, now, env.rule.routes).0;
      assert L.RtInv(SetupOf(env), rt.(marks := SliceMarks(t)), now);
      assert L.RtInv(SetupOf(env), rt.(marks := SliceMarks(stored)), now);
    }
  }

  lemma DidToLeft(env: Env, s: Slice, op: SliceOp, before: Time, raised: Time, refs: set<string>)
    requires ValidRule(env.rule) && Left(env, s, raised, refs, before) && Timely(op, before)
    ensures var t := Did(env, s, op).0;
            if L.StateOf(t.rt) == Idle then Left(env, t, raised, refs, op.at) else Inherits(env, t, raised, refs, op.at)
  {
    hide EventStep, TickOf, Applied, Repeated, Dispatched;
    match op
    case Arrive(event, at) =>
      EventMoves(env, s.rt, event, at, before);
      var (rt, d) := EventStep(env.rule, s.rt, env.id, event, at);
      AppliedToLeft(env, s, rt, d, at, before, raised, refs);
    case Tick(at) =>
      if s.rt.Some? {
        TickMoves(env, s.rt.value, at, before);
        var r := TickOf(env.rule, s.rt.value, at);
        var d := if r.decision.Some? then r.decision.value else NO_DECISION;
        AppliedToLeft(env, s, r.rt, d, at, before, raised, refs);
      }
    case Evict(_) =>
    case Expire(_, _, _) =>
  }

  /** Main result on leftovers: over any run, the card of a resolve that failed stays, resolved, until the alert
      opens again, and the card of that next episode still tells the raise time and the references of the last. */
  lemma {:induction false} LeftoversAreInherited(env: Env, ops: seq<SliceOp>, n: nat)
    requires ValidRule(env.rule) && WellTimed(ops) && n < |ops| && NeverStuck(env, ops[..n]) && Stuck(After(env, ops[..n + 1]))
    requires forall m :: n < m < |ops| ==> L.StateOf(After(env, ops[..m]).rt) == Idle
    ensures var last := After(env, ops[..n]);
            && last.rt.Some?
            && var (raised, refs) := (last.rt.value.raisedAt, last.rt.value.marks.refs.Keys);
               if L.StateOf(After(env, ops).rt) == Idle then Left(env, After(env, ops), raised, refs, LastTime(ops))
               else Inherits(env, After(env, ops), raised, refs, LastTime(ops))
    decreases |ops|
  {
    hide Did, Stuck, Left, Inherits, Synced;
    var prefix := ops[..|ops| - 1];
    if n == |ops| - 1 {
      assert ops[..n + 1] == ops && ops[..n] == prefix;
      RunsStaySynced(env, prefix);
      StuckIsLeft(env, After(env, prefix), ops[n], LastTime(prefix));
      LeftIsIdle(env, After(env, ops), After(env, prefix).rt.value.raisedAt, After(env, prefix).rt.value.marks.refs.Keys, LastTime(ops));
    } else {
      assert prefix[..n] == ops[..n] && prefix[..n + 1] == ops[..n + 1];
      assert forall m :: n < m < |prefix| ==> prefix[..m] == ops[..m];
      assert ops[..|prefix|] == prefix;
      LeftoversAreInherited(env, prefix, n);
      var last := After(env, ops[..n]);
      DidToLeft(env, After(env, prefix), ops[|ops| - 1], LastTime(prefix), last.rt.value.raisedAt, last.rt.value.marks.refs.Keys);
    }
  }

  lemma LeftIsIdle(env: Env, s: Slice, raised: Time, refs: set<string>, now: Time)
    requires Left(env, s, raised, refs, now)
    ensures L.StateOf(s.rt) == Idle
  {
  }

  /** The two copies of such an alert agree only if it opened again at the very instant of its first raise. */
  lemma InheritedDisagrees(env: Env, s: Slice, raised: Time, refs: set<string>, now: Time)
    requires Inherits(env, s, raised, refs, now)
    ensures Mirrored(s.rt, s.card) ==> raised == now
  {
  }
}
