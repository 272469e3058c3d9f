/** What is written about an alert: the contents of its card at each change, and when its tick runs out. */
module Records {
  import opened Domain
  import opened EngineSpec
  import opened Cards
  import opened Delivery
  import opened AlertFlow
  import opened AlertRuns
  import opened Messages
  import opened Service
  import opened ServiceRuns
  import L = Lifecycle

  // ---------------------------------------------------------------------------
  // Cards.

  /** The card was written at this instant, from what the engine now holds, and tells why it closed if it did. */
  predicate WrittenAt(card: AlertCard, rt: Rt, cause: string, at: Instant) {
    && card.lastSeenAt == at && card.eventCount == rt.activeCount && card.identity.metric == rt.identity.metric
    && (if card.state == Resolved then card.closedAt == Some(at) && card.resolveCause == cause
        else card.closedAt == None && card.resolveCause == "")
  }

  /** The cards are the same but for references that were added. */
  predicate SameButRefs(a: Option<VersionedCard>, b: Option<VersionedCard>) {
    && (a.Some? <==> b.Some?)
    && (a.Some? ==> b.value.card == a.value.card.(externalRefs := b.value.card.externalRefs))
  }

  /** A change of state writes the card and nothing else does. Removed cards are the matter of `Synced`. */
  ghost predicate WritesOnChange(s: Slice, t: Slice, cause: string, at: Instant) {
    if L.StateOf(s.rt) == L.StateOf(t.rt) then SameButRefs(s.card, t.card)
    else t.card.Some? ==> t.rt.Some? && WrittenAt(t.card.value.card, t.rt.value, cause, at)
  }

  lemma PersistedWrites(env: Env, s: Slice, d: Decision, now: Instant)
    requires s.rt.Some? && (d.state == Pending || d.state == Firing || d.state == Resolved)
    ensures var t := Persisted(env.rule, env.id, s, d, now).0;
            && t.card.Some? && t.rt.Some? && t.card.value.card.state == d.state
            && WrittenAt(t.card.value.card, t.rt.value, d.cause, now)
  {
    hide Seeded;
  }

  lemma AppliedWrites(env: Env, s: Slice, rt: Rt, d: Decision, now: Instant, before: Time)
    requires ValidRule(env.rule) && Synced(env, s, before) && before <= now && Moves(env, s.rt, rt, d, now)
    ensures var t := Applied(env.cfg, env.world, env.rule, env.id, s.(rt := Some(rt)), d, now, false).0;
            && WritesOnChange(s, t, d.cause, now)
            && (t.rt.Some? ==> t.rt.value == rt.(marks := SliceMarks(t)))
            && (t.rt.None? ==> d.state == Resolved)
  {
    hide Dispatched, NewCard, UpdatedCard, Seeded;
    var moved := s.(rt := Some(rt));
    var ticked := if d.shouldStore && d.state != Resolved then Refreshed(moved, false, now, ResolveTimeout(env.rule)) else moved;
    if d.stateChanged {
      PersistedWrites(env, ticked, d, now);
      var stored := Persisted(env.rule, env.id, ticked, d, now).0;
      assert stored.rt.value == rt.(marks := SliceMarks(stored));
      DispatchedKeeps(env, stored, d.state, now, env.rule.routes);
    } else if d.shouldStore {
      AnnouncedQuiet(env, ticked, d, now);
    }
  }

  lemma DispatchedTouches(env: Env, s: Slice, now: Instant, routes: seq<Route>)
    ensures var t := Dispatched(env.cfg, env.world, env.rule, env.id, s, Firing, now, routes).0;
            SameButRefs(s.card, t.card) && L.StateOf(t.rt) == L.StateOf(s.rt) && t.tick == s.tick
  {
    hide Dispatched;
    DispatchedKeeps(env, s, Firing, now, routes);
  }

  lemma {:induction false} RepeatRoutesTouch(env: Env, s: Slice, now: Instant, routes: seq<Route>)
    ensures var t := RepeatRoutes(env.cfg, env.world, env.rule, env.id, s, now, routes);
            SameButRefs(s.card, t.card) && L.StateOf(t.rt) == L.StateOf(s.rt) && t.tick == s.tick
    decreases |routes|
  {
    hide Dispatched, RepeatDue;
    if routes != [] {
      DispatchedTouches(env, s, now, [routes[0]]);
      var next := if RepeatDue(env.cfg, env.rule, SliceMarks(s), routes[0].key, now)
                  then Dispatched(env.cfg, env.world, env.rule, env.id, s, Firing, now, [routes[0]]).0 else s;
      RepeatRoutesTouch(env, next, now, routes[1..]);
    }
  }

  lemma RepeatedTouches(env: Env, s: Slice, now: Instant)
    ensures var t := Repeated(env.cfg, env.world, env.rule, env.id, s, now);
            SameButRefs(s.card, t.card) && L.StateOf(t.rt) == L.StateOf(s.rt) && t.tick == s.tick
  {
    hide Dispatched, RepeatDue, RepeatRoutes;
    RepeatRoutesTouch(env, s, now, env.rule.routes);
    DispatchedTouches(env, s, now, env.rule.routes);
  }

  /** Why the engine resolves: a heartbeat came back, or nothing came for the silence timeout. */
  function CauseOf(rule: Rule): string {
    if rule.kind == MissingHeartbeat then "heartbeat_recovered" else "silence_timeout"
  }

  lemma EventCause(rule: Rule, slot: Option<Rt>, id: AlertId, event: Event, now: Instant)
    ensures var d := EventStep(rule, slot, id, event, now).1;
            d.state == Resolved ==> d.cause == CauseOf(rule) && d.resolveImmediate
  {
    hide PruneWindow;
  }

  lemma TickCause(rule: Rule, rt: Rt, now: Instant)
    ensures var d := TickOf(rule, rt, now).decision;
            d.Some? && d.value.state == Resolved ==> d.value.cause == CauseOf(rule) && !d.value.resolveImmediate
  {
  }

  lemma SameCause(s: Slice, t: Slice, a: string, b: string, at: Instant)
    requires WritesOnChange(s, t, a, at)
    requires L.StateOf(s.rt) != L.StateOf(t.rt) && t.card.Some? && t.card.value.card.state == Resolved ==> a == b
    ensures WritesOnChange(s, t, b, at)
  {
  }

  /** Only a decision to resolve leaves a resolved card. */
  lemma ResolvedByDecision(env: Env, s: Slice, rt: Rt, d: Decision, now: Instant, before: Time)
    requires ValidRule(env.rule) && Synced(env, s, before) && before <= now && Moves(env, s.rt, rt, d, now)
    ensures var t := Applied(env.cfg, env.world, env.rule, env.id, s.(rt := Some(rt)), d, now, false).0;
            t.card.Some? && t.card.value.card.state == Resolved ==> d.state == Resolved
  {
    hide Dispatched, NewCard, UpdatedCard, Seeded;
    var moved := s.(rt := Some(rt));
    var ticked := if d.shouldStore && d.state != Resolved then Refreshed(moved, false, now, ResolveTimeout(env.rule)) else moved;
    if d.stateChanged {
      PersistedWrites(env, ticked, d, now);
      DispatchedKeeps(env, Persisted(env.rule, env.id, ticked, d, now).0, d.state, now, env.rule.routes);
    } else if d.shouldStore {
      AnnouncedQuiet(env, ticked, d, now);
    }
  }

  lemma TickWrites(env: Env, s: Slice, now: Instant, before: Time)
    requires ValidRule(env.rule) && Synced(env, s, before) && before <= now
    ensures WritesOnChange(s, TickFlow(env.cfg, env.world, env.rule, env.id, s, now).0, CauseOf(env.rule), now)
  {
    hide TickOf, Applied, Repeated, WrittenAt;
    if s.rt.Some? {
      TickMoves(env, s.rt.value, now, before);
      var r := TickOf(env.rule, s.rt.value, now);
      var d := if r.decision.Some? then r.decision.value else NO_DECISION;
      AppliedWrites(env, s, r.rt, d, now, before);
      ResolvedByDecision(env, s, r.rt, d, now, before);
      NothingDecided(env, s.(rt := Some(r.rt)), now);
      TickCause(env.rule, s.rt.value, now);
      var decided := TickDecided(env.cfg, env.world, env.rule, env.id, s, now).0;
      SameCause(s, decided, d.cause, CauseOf(env.rule), now);
      if r.firing {
        RepeatedTouches(env, decided, now);
        TickDecidedSyncs(env, s, now, before);
      }
    }
  }

  lemma DidWrites(env: Env, s: Slice, op: SliceOp, before: Time)
    requires ValidRule(env.rule) && Synced(env, s, before) && Timely(op, before)
    ensures WritesOnChange(s, Did(env, s, op).0, CauseOf(env.rule), op.at)
  {
    hide EventStep, Applied, TickFlow, Dispatched, WrittenAt;
    match op
    case Arrive(event, at) =>
      EventMoves(env, s.rt, event, at, before);
      var (rt, d) := EventStep(env.rule, s.rt, env.id, event, at);
      AppliedWrites(env, s, rt, d, at, before);
      ResolvedByDecision(env, s, rt, d, at, before);
      EventCause(env.rule, s.rt, env.id, event, at);
      SameCause(s, Did(env, s, op).0, d.cause, CauseOf(env.rule), at);
    case Tick(at) => TickWrites(env, s, at, before);
    case Evict(_) =>
    case Expire(reason, looks, at) => ExpirySyncs(env, s, reason, looks, at, before);
  }

  /** Main result on cards: over any run a card is written exactly when its alert changes state, apart from references,
      with the time, the count and the value the engine then holds, and with the cause when it closed. */
  lemma CardsRecordChanges(env: Env, ops: seq<SliceOp>)
    requires ValidRule(env.rule) && WellTimed(ops) && ops != [] && NeverStuck(env, ops[..|ops| - 1])
    ensures var op := ops[|ops| - 1];
            WritesOnChange(After(env, ops[..|ops| - 1]), After(env, ops), CauseOf(env.rule), op.at)
  {
    hide Did, Stuck, WritesOnChange;
    var prefix := ops[..|ops| - 1];
    RunsStaySynced(env, prefix);
    DidWrites(env, After(env, prefix), ops[|ops| - 1], LastTime(prefix));
  }

  // ---------------------------------------------------------------------------
  // Ticks of heartbeat alerts.

  /** The time of the last event or tick of the rule. */
  function LastTouched(ops: seq<SliceOp>): Time {
    if ops == [] then ZERO_TIME
    else if ops[|ops| - 1].Arrive? || ops[|ops| - 1].Tick? then ops[|ops| - 1].at
    else LastTouched(ops[..|ops| - 1])
  }

  /** The tick of an open heartbeat alert runs out a missing time and a hysteresis after it was last touched. */
  ghost predicate TickSet(env: Env, s: Slice, touched: Time) {
    IsActive(L.StateOf(s.rt)) ==>
      && s.tick == Some(touched + Seconds(env.rule.missingSec + env.rule.hysteresisSec))
      && (env.rule.hysteresisSec == 0 ==> touched - s.rt.value.lastSeen >= Seconds(env.rule.missingSec))
  }

  lemma AppliedSetsTick(env: Env, s: Slice, d: Decision, now: Instant)
    requires s.rt.Some? && d.shouldStore && d.state != Resolved
    ensures Applied(env.cfg, env.world, env.rule, env.id, s, d, now, false).0.tick == Some(TickExpiry(now, ResolveTimeout(env.rule)))
  {
    hide Dispatched, NewCard, UpdatedCard, Seeded;
    var ticked := Refreshed(s, false, now, ResolveTimeout(env.rule));
    var stored := if d.stateChanged then Persisted(env.rule, env.id, ticked, d, now).0 else ticked;
    DispatchedKeeps(env, stored, d.state, now, env.rule.routes);
  }

  lemma OpenHeartbeatStores(rule: Rule, slot: Option<Rt>, id: AlertId, event: Event, now: Instant)
    requires rule.kind == MissingHeartbeat
    ensures var (rt, d) := EventStep(rule, slot, id, event, now);
            IsActive(rt.state) && (slot.Some? ==> slot.value.initialized) ==> d.shouldStore && d.state != Resolved && rule.hysteresisSec > 0
  {
  }

  lemma OpenTickStores(env: Env, rt: Rt, now: Instant, before: Time)
    requires ValidRule(env.rule) && env.rule.kind == MissingHeartbeat && L.RtInv(SetupOf(env), rt, before) && before <= now
    requires IsActive(rt.state) && env.rule.hysteresisSec == 0 ==> now - rt.lastSeen >= Seconds(env.rule.missingSec)
    ensures var r := TickOf(env.rule, rt, now);
            IsActive(r.rt.state) ==>
              && r.decision.Some? && r.decision.value.shouldStore && r.decision.value.state != Resolved
              && r.rt.lastSeen == rt.lastSeen
              && (env.rule.hysteresisSec == 0 ==> now - rt.lastSeen >= Seconds(env.rule.missingSec))
  {
  }

  lemma EventSetsTick(env: Env, s: Slice, event: Event, now: Instant, before: Time)
    requires ValidRule(env.rule) && env.rule.kind == MissingHeartbeat && ValidEvent(event) && Synced(env, s, before) && before <= now
    ensures TickSet(env, EventFlow(env.cfg, env.world, env.rule, env.id, s, event, now, false).0, now)
  {
    hide EventStep, Applied;
    EventMoves(env, s.rt, event, now, before);
    OpenHeartbeatStores(env.rule, s.rt, env.id, event, now);
    var (rt, d) := EventStep(env.rule, s.rt, env.id, event, now);
    AppliedWrites(env, s, rt, d, now, before);
    if d.shouldStore && d.state != Resolved {
      AppliedSetsTick(env, s.(rt := Some(rt)), d, now);
    }
  }

  lemma TickSetsTick(env: Env, s: Slice, now: Instant, before: Time, touched: Time)
    requires ValidRule(env.rule) && env.rule.kind == MissingHeartbeat && Synced(env, s, before) && touched <= before <= now
    requires TickSet(env, s, touched)
    ensures TickSet(env, TickFlow(env.cfg, env.world, env.rule, env.id, s, now).0, now)
  {
    hide TickOf, Applied, Repeated;
    if s.rt.Some? {
      TickMoves(env, s.rt.value, now, before);
      OpenTickStores(env, s.rt.value, now, before);
      var r := TickOf(env.rule, s.rt.value, now);
      var d := if r.decision.Some? then r.decision.value else NO_DECISION;
      AppliedWrites(env, s, r.rt, d, now, before);
      if d.shouldStore && d.state != Resolved {
        AppliedSetsTick(env, s.(rt := Some(r.rt)), d, now);
      }
      var decided := TickDecided(env.cfg, env.world, env.rule, env.id, s, now).0;
      if r.firing {
        RepeatedTouches(env, decided, now);
        TickDecidedSyncs(env, s, now, before);
        RepeatedKeepsSeen(env, decided, now);
      }
    }
  }

  lemma RepeatedKeepsSeen(env: Env, s: Slice, now: Instant)
    ensures var t := Repeated(env.cfg, env.world, env.rule, env.id, s, now);
            s.rt.Some? ==> t.rt.Some? && t.rt.value.lastSeen == s.rt.value.lastSeen
  {
    hide Dispatched, RepeatDue, RepeatRoutes;
    RoutesKeepSeen(env, s, now, env.rule.routes);
    DispatchedKeeps(env, s, Firing, now, env.rule.routes);
  }

  lemma {:induction false} RoutesKeepSeen(env: Env, s: Slice, now: Instant, routes: seq<Route>)
    ensures var t := RepeatRoutes(env.cfg, env.world, env.rule, env.id, s, now, routes);
            s.rt.Some? ==> t.rt.Some? && t.rt.value.lastSeen == s.rt.value.lastSeen
    decreases |routes|
  {
    hide Dispatched, RepeatDue;
    if routes != [] {
      DispatchedKeeps(env, s, Firing, now, [routes[0]]);
      var next := if RepeatDue(env.cfg, env.rule, SliceMarks(s), routes[0].key, now)
                  then Dispatched(env.cfg, env.world, env.rule, env.id, s, Firing, now, [routes[0]]).0 else s;
      RoutesKeepSeen(env, next, now, routes[1..]);
    }
  }

  /** Main result on heartbeat ticks: over any run, the tick of an open heartbeat alert runs out the missing time and
      the hysteresis after the last event or tick of its rule, so ticks that keep coming keep it alive. */
  lemma {:induction false} HeartbeatTicksFollow(env: Env, ops: seq<SliceOp>)
    requires ValidRule(env.rule) && env.rule.kind == MissingHeartbeat && WellTimed(ops) && NeverStuck(env, ops)
    ensures TickSet(env, After(env, ops), LastTouched(ops)) && LastTouched(ops) <= LastTime(ops)
  {
    hide EventFlow, TickFlow, Stuck, TickSet, Synced, ValidEvent;
    if ops == [] {
      NothingSet(env);
    } else {
      var prefix := ops[..|ops| - 1];
      var s, op := After(env, prefix), ops[|ops| - 1];
      HeartbeatTicksFollow(env, prefix);
      RunsStaySynced(env, prefix);
      match op
      case Arrive(event, at) => EventSetsTick(env, s, event, at, LastTime(prefix));
      case Tick(at) => TickSetsTick(env, s, at, LastTime(prefix), LastTouched(prefix));
      case Evict(at) => EvictedSetsNothing(env, s, LastTouched(prefix));
      case Expire(reason, looks, at) => ExpiredSetsNothing(env, s, op, LastTime(prefix), LastTouched(prefix));
    }
  }

  lemma NothingSet(env: Env)
    ensures TickSet(env, NO_SLICE, ZERO_TIME)
  {
  }

  lemma EvictedSetsNothing(env: Env, s: Slice, touched: Time)
    requires TickSet(env, s, touched)
    ensures TickSet(env, if MayEvict(s) then Evicted(s) else s, touched)
  {
  }

  // ---------------------------------------------------------------------------
  // Expiries.

  /** An expiry closes and removes an open alert exactly when its tick had run out at the first look; with looks in
      order the second one finds nothing else. Otherwise it does nothing. */
  lemma ExpiryActsIff(env: Env, s: Slice, op: SliceOp, before: Time)
    requires Synced(env, s, before) && op.Expire? && Timely(op, before)
    ensures var t := Did(env, s, op).0;
            if IsActive(L.StateOf(s.rt)) && s.tick.value != ZERO_TIME && s.tick.value <= op.looks.first then
              t.rt == None && t.card == None && t.tick == None
            else t == s
  {
    hide Dispatched;
  }

  lemma ExpiredSetsNothing(env: Env, s: Slice, op: SliceOp, before: Time, touched: Time)
    requires Synced(env, s, before) && op.Expire? && Timely(op, before) && TickSet(env, s, touched)
    ensures TickSet(env, Did(env, s, op).0, touched)
  {
    hide Did, Synced;
    ExpiryActsIff(env, s, op, before);
  }

  /** An open alert whose rule is gone is closed by its expiry on the card alone: the card says why, keeps the rest,
      and stays; nobody is told. */
  lemma OrphansAreClosedSilently(cfg: Config, world: World, rules: seq<Rule>, before: Slices, id: AlertId, reason: string, looks: Looks,
                                 at: Instant, after: Slices)
    requires Steps(cfg, world, rules, before, ExpireOp(id, reason, looks, at), after)
    requires looks.first <= looks.second && before[id].card.Some?
    requires var card := before[id].card.value.card;
             IsActive(card.state) && forall i :: 0 <= i < |rules| ==> rules[i].name != card.ruleName
    ensures forall other :: other != id ==> after[other] == before[other]
    ensures var s, t := before[id], after[id];
            if s.tick.Some? && (s.tick.value == ZERO_TIME || looks.first < s.tick.value) then t == s
            else
              && t.rt == s.rt && t.log == s.log && t.tick == None && t.card.Some?
              && t.card.value.revision == s.card.value.revision + 1
              && var card := t.card.value.card;
                 && card.state == Resolved && card.closedAt == Some(at)
                 && card.resolveCause == (if reason == "" then "ttl_expired" else reason)
                 && (s.card.value.card.raisedAt != ZERO_TIME ==> card.raisedAt == s.card.value.card.raisedAt)
                 && (s.card.value.card.raisedAt == ZERO_TIME ==>
                       card.raisedAt == if s.card.value.card.lastSeenAt != ZERO_TIME then s.card.value.card.lastSeenAt else at)
                 && card.(state := s.card.value.card.state, raisedAt := s.card.value.card.raisedAt, closedAt := s.card.value.card.closedAt,
                          resolveCause := s.card.value.card.resolveCause) == s.card.value.card
  {
    NamelessRule(rules, before[id].card.value.card.ruleName);
  }

  lemma {:induction false} NamelessRule(rules: seq<Rule>, name: string)
    requires forall i :: 0 <= i < |rules| ==> rules[i].name != name
    ensures RuleByName(rules, name) == None
    decreases |rules|
  {
    if rules != [] {
      assert forall i :: 0 <= i < |rules[1..]| ==> rules[1..][i] == rules[i + 1];
      NamelessRule(rules[1..], name);
    }
  }
}
