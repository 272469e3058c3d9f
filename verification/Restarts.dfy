/** Restarts of the instance: the engine forgets, the store and the channels do not. */
module Restarts {
  import opened Domain
  import opened EngineSpec
  import opened Cards
  import opened Delivery
  import opened AlertFlow
  import opened AlertRuns
  import opened Messages
  import opened Failures
  import opened Witnesses
  import L = Lifecycle

  datatype LifeOp = Call(op: SliceOp) | Restart(when: Instant)

  function TimeOf(op: LifeOp): Instant {
    if op.Call? then op.op.at else op.when
  }

  /** A restart loses the engine's state; card, tick and messages stay. */
  function Restarted(s: Slice): Slice {
    s.(rt := None)
  }

  ghost function LifeStep(env: Env, s: Slice, op: LifeOp): Slice {
    if op.Call? then Did(env, s, op.op).0 else Restarted(s)
  }

  ghost function Lived(env: Env, ops: seq<LifeOp>): Slice {
    if ops == [] then NO_SLICE else LifeStep(env, Lived(env, ops[..|ops| - 1]), ops[|ops| - 1])
  }

  function LifeTime(ops: seq<LifeOp>): Time {
    if ops == [] then ZERO_TIME else TimeOf(ops[|ops| - 1])
  }

  predicate TimelyLife(op: LifeOp, from: Time) {
    if op.Call? then Timely(op.op, from) else from <= op.when
  }

  predicate LifeTimed(ops: seq<LifeOp>) {
    ops == [] ||
    (var last := ops[|ops| - 1];
     LifeTimed(ops[..|ops| - 1]) && TimelyLife(last, LifeTime(ops[..|ops| - 1])))
  }

  // ---------------------------------------------------------------------------
  // The card is what carries the references over a restart.

  function CardRef(card: Option<VersionedCard>, key: string): Option<string> {
    if card.Some? && RefAt(card.value.card.externalRefs, key) != "" then Some(RefAt(card.value.card.externalRefs, key)) else None
  }

  /** Every owned message is live under exactly the reference that the card holds. */
  ghost predicate Accounted(env: Env, s: Slice) {
    forall route :: route in env.rule.routes && OwnsMessage(route) ==> LiveOf(s.log, route.key) == LiveAs(CardRef(s.card, route.key))
  }

  predicate NoBlank(refs: map<string, string>) {
    forall key :: key in refs ==> refs[key] != ""
  }

  /** What the engine knows of the references: nothing while idle, all the card holds while open. */
  predicate Knows(rt: Option<Rt>, card: Option<VersionedCard>) {
    rt.Some? ==>
      if IsActive(rt.value.state) then
        card.Some? && card.value.card.state == rt.value.state && card.value.card.externalRefs == rt.value.marks.refs
      else rt.value.marks == NO_MARKS
  }

  /** What a card promises by itself. */
  ghost predicate CardSound(env: Env, card: Option<VersionedCard>, tick: Option<Time>) {
    card.Some? ==>
      && IsActive(card.value.card.state) && (card.value.card.state == Pending ==> env.rule.pendingEnabled)
      && NoBlank(card.value.card.externalRefs)
      && (card.value.card.state == Firing ==>
            forall route :: route in env.rule.routes && OwnsMessage(route) ==> CardRef(card, route.key).Some?)
      && tick.Some? && (if ResolveTimeout(env.rule) > 0 then tick.value > ZERO_TIME else tick.value == ZERO_TIME)
  }

  ghost predicate Carried(env: Env, s: Slice, now: Time) {
    && L.SlotInv(SetupOf(env), s.rt, now)
    && Knows(s.rt, s.card) && CardSound(env, s.card, s.tick) && Accounted(env, s)
  }

  lemma RefsAgree(marks: Marks, card: Option<VersionedCard>, key: string)
    requires card.Some? && card.value.card.externalRefs == marks.refs
    ensures StoredRef(marks, key) == CardRef(card, key)
  {
  }

  /** While the engine holds what the card holds, owned messages match both. */
  lemma AccountedMatches(env: Env, s: Slice)
    requires Accounted(env, s) && s.card.Some? && s.card.value.card.externalRefs == SliceMarks(s).refs
    ensures Matched(env.rule.routes, s.log, SliceMarks(s))
  {
    hide LiveOf, StoredRef, CardRef;
    forall route | route in env.rule.routes ensures StoredRef(SliceMarks(s), route.key) == CardRef(s.card, route.key) {
      RefsAgree(SliceMarks(s), s.card, route.key);
    }
  }

  lemma SeedingFresh(refs: map<string, string>)
    requires NoBlank(refs)
    ensures Seeded(map[], refs) == refs && Seeded(refs, refs) == refs
  {
  }

  /** No delivery stores an empty reference. */
  lemma DispatchedNoBlank(env: Env, s: Slice, now: Instant, routes: seq<Route>)
    requires s.card.Some? && NoBlank(s.card.value.card.externalRefs)
    ensures var t := Dispatched(env.cfg, env.world, env.rule, env.id, s, Firing, now, routes).0;
            t.card.Some? && NoBlank(t.card.value.card.externalRefs)
  {
    hide SendAll, CapturedAll, RefUpdates, MergedRefs;
    var batch := SendAll(env.world, env.id, routes, SliceMarks(s), Firing, now, s.log);
    UpdatesNonEmpty(batch.results);
    MergedIsSum(s.card.value.card.externalRefs, RefUpdates(batch.results));
  }

  /** A firing notification of an alert whose card and engine hold the same references. */
  lemma FiringCarries(env: Env, s: Slice, now: Instant, routes: seq<Route>)
    requires Working(env) && Accounted(env, s) && s.rt.Some? && L.RtInv(SetupOf(env), s.rt.value, now) && s.rt.value.state == Firing
    requires s.card.Some? && s.card.value.card.state == Firing && s.card.value.card.externalRefs == SliceMarks(s).refs
    requires NoBlank(s.card.value.card.externalRefs) && s.tick.Some?
    requires if ResolveTimeout(env.rule) > 0 then s.tick.value > ZERO_TIME else s.tick.value == ZERO_TIME
    requires DistinctKeys(routes) && forall route :: route in routes ==> route in env.rule.routes
    requires routes == env.rule.routes || Carried(env, s, now)
    ensures var (t, ok) := Dispatched(env.cfg, env.world, env.rule, env.id, s, Firing, now, routes);
            ok && Carried(env, t, now) && L.StateOf(t.rt) == Firing
  {
    hide Dispatched, LiveOf, StoredRef, CardRef, Working;
    AccountedMatches(env, s);
    FiringKeepsMessages(env, s, now, routes);
    DispatchedKeeps(env, s, Firing, now, routes);
    DispatchedNoBlank(env, s, now, routes);
    var t := Dispatched(env.cfg, env.world, env.rule, env.id, s, Firing, now, routes).0;
    assert L.RtInv(SetupOf(env), s.rt.value.(marks := SliceMarks(t)), now);
    forall route | route in env.rule.routes && OwnsMessage(route)
      ensures StoredRef(SliceMarks(t), route.key) == CardRef(t.card, route.key) && CardRef(t.card, route.key).Some?
    {
      RefsAgree(SliceMarks(t), t.card, route.key);
      RefsAgree(SliceMarks(s), s.card, route.key);
    }
  }

  /** The resolved notification of such an alert removes every owned message. */
  lemma ResolveClears(env: Env, s: Slice, now: Instant, before: Option<VersionedCard>)
    requires Working(env) && !TrackerWaits(env.rule) && Accounted(env, s.(card := before))
    requires before.Some? && CardSound(env, before, s.tick) && before.value.card.externalRefs == SliceMarks(s).refs
    ensures var (t, ok) := Dispatched(env.cfg, env.world, env.rule, env.id, s, Resolved, now, env.rule.routes);
            ok && forall route :: route in env.rule.routes && OwnsMessage(route) ==> LiveOf(t.log, route.key) == Nothing
  {
    hide Dispatched, LiveOf, StoredRef, CardRef, Working;
    var held := s.(card := before);
    AccountedMatches(env, held);
    forall route | route in env.rule.routes && IsTracker(route.channel) ensures StoredRef(SliceMarks(s), route.key).Some? {
      RefsAgree(SliceMarks(held), before, route.key);
      TrackersFireAtOnce(env.rule, route);
    }
    ResolvedRemovesMessages(env, s, now);
  }

  lemma TrackersFireAtOnce(rule: Rule, route: Route)
    requires !TrackerWaits(rule) && route in rule.routes && IsTracker(route.channel)
    ensures !rule.pendingEnabled
  {
  }

  lemma NothingAccounted(env: Env, s: Slice)
    requires s.card == None && forall route :: route in env.rule.routes && OwnsMessage(route) ==> LiveOf(s.log, route.key) == Nothing
    ensures Accounted(env, s)
  {
  }

  // ---------------------------------------------------------------------------
  // One operation.

  /** The card write of a transition hands the card's references to the engine. */
  lemma PersistedCarries(env: Env, s: Slice, rt: Rt, d: Decision, now: Instant, before: Time)
    requires Carried(env, s, before) && Moves(env, s.rt, rt, d, now) && d.stateChanged
    ensures var (t, allow) := Persisted(env.rule, env.id, s.(rt := Some(rt)), d, now);
            && t.rt.Some? && t.rt.value == rt.(marks := SliceMarks(t)) && t.log == s.log && t.tick == s.tick
            && t.card.Some? && t.card.value.card.state == d.state
            && t.card.value.card.externalRefs == SliceMarks(t).refs && NoBlank(SliceMarks(t).refs)
            && (forall key :: CardRef(t.card, key) == CardRef(s.card, key))
            && (allow <==> s.card.None? || s.card.value.card.state != d.state)
  {
    var refs := if s.card.Some? then s.card.value.card.externalRefs else map[];
    SeedingFresh(refs);
    assert rt.marks.refs == map[] || rt.marks.refs == refs;
    SeedingEqual(rt.marks.refs);
    var t := Persisted(env.rule, env.id, s.(rt := Some(rt)), d, now).0;
    assert t.card.value.card.externalRefs == refs;
  }

  /** The tick of a decision that keeps or changes an open alert. */
  lemma TickSound(env: Env, s: Slice, now: Instant)
    ensures var t := Refreshed(s, false, now, ResolveTimeout(env.rule));
            && t == s.(tick := t.tick) && t.tick.Some?
            && (ValidRule(env.rule) ==> if ResolveTimeout(env.rule) > 0 then t.tick.value > ZERO_TIME else t.tick.value == ZERO_TIME)
  {
  }

  lemma OpensCarried(env: Env, s: Slice, rt: Rt, d: Decision, now: Instant, before: Time)
    requires ValidRule(env.rule) && Favourable(env) && Carried(env, s, before) && before <= now
    requires Moves(env, s.rt, rt, d, now) && d.stateChanged && d.state != Resolved
    ensures var (t, ok) := Applied(env.cfg, env.world, env.rule, env.id, s.(rt := Some(rt)), d, now, false);
            ok && Carried(env, t, now)
  {
    hide Persisted, Dispatched, LiveOf, StoredRef, CardRef, Working, Refreshed;
    var moved := s.(rt := Some(rt));
    TickSound(env, moved, now);
    var ticked := Refreshed(moved, false, now, ResolveTimeout(env.rule));
    var base := s.(tick := ticked.tick);
    assert Carried(env, base, before);
    assert base.(rt := Some(rt)) == ticked;
    PersistedCarries(env, base, rt, d, now, before);
    var (stored, allow) := Persisted(env.rule, env.id, ticked, d, now);
    assert L.RtInv(SetupOf(env), rt.(marks := SliceMarks(stored)), now);
    assert Accounted(env, stored);
    WorkingRoutes(env);
    if d.state == Firing && allow {
      FiringCarries(env, stored, now, env.rule.routes);
    }
  }

  lemma ResolvesCarried(env: Env, s: Slice, rt: Rt, d: Decision, now: Instant, before: Time)
    requires ValidRule(env.rule) && Favourable(env) && Carried(env, s, before) && before <= now
    requires Moves(env, s.rt, rt, d, now) && d.stateChanged && d.state == Resolved
    ensures var (t, ok) := Applied(env.cfg, env.world, env.rule, env.id, s.(rt := Some(rt)), d, now, false);
            ok && Carried(env, t, now)
  {
    hide Persisted, Dispatched, LiveOf, StoredRef, CardRef, Working;
    PersistedCarries(env, s, rt, d, now, before);
    var (stored, allow) := Persisted(env.rule, env.id, s.(rt := Some(rt)), d, now);
    assert IsActive(L.StateOf(s.rt)) && s.card.Some? && allow;
    assert s.card.value.card.externalRefs == SliceMarks(stored).refs by {
      assert SliceMarks(s).refs == s.card.value.card.externalRefs;
      SeededSame(env, s, rt, d, now);
    }
    ResolveClears(env, stored, now, s.card);
    var t := Dispatched(env.cfg, env.world, env.rule, env.id, stored, Resolved, now, env.rule.routes).0;
    NothingAccounted(env, Removed(t));
  }

  lemma SeededSame(env: Env, s: Slice, rt: Rt, d: Decision, now: Instant)
    requires s.card.Some? && rt.marks.refs == s.card.value.card.externalRefs
    ensures SliceMarks(Persisted(env.rule, env.id, s.(rt := Some(rt)), d, now).0).refs == s.card.value.card.externalRefs
  {
    SeedingEqual(rt.marks.refs);
  }

  lemma StaysCarried(env: Env, s: Slice, rt: Rt, d: Decision, now: Instant, before: Time)
    requires ValidRule(env.rule) && Carried(env, s, before) && before <= now
    requires Moves(env, s.rt, rt, d, now) && !d.stateChanged
    ensures var (t, ok) := Applied(env.cfg, env.world, env.rule, env.id, s.(rt := Some(rt)), d, now, false);
            ok && Carried(env, t, now) && t.rt == Some(rt)
  {
    hide LiveOf, StoredRef, CardRef, Refreshed, Persisted, Dispatched;
    var moved := s.(rt := Some(rt));
    TickSound(env, moved, now);
    if d.shouldStore {
      AnnouncedQuiet(env, Refreshed(moved, false, now, ResolveTimeout(env.rule)), d, now);
    }
  }

  lemma AppliedCarries(env: Env, s: Slice, rt: Rt, d: Decision, now: Instant, before: Time)
    requires ValidRule(env.rule) && Favourable(env) && Carried(env, s, before) && before <= now
    requires Moves(env, s.rt, rt, d, now)
    ensures var (t, ok) := Applied(env.cfg, env.world, env.rule, env.id, s.(rt := Some(rt)), d, now, false);
            && ok && Carried(env, t, now)
            && (!d.stateChanged ==> t.rt == Some(rt))
  {
    hide Applied, Carried, Favourable;
    if !d.stateChanged {
      StaysCarried(env, s, rt, d, now, before);
    } else if d.state == Resolved {
      ResolvesCarried(env, s, rt, d, now, before);
    } else {
      OpensCarried(env, s, rt, d, now, before);
    }
  }

  lemma RepeatCarries(env: Env, s: Slice, now: Instant, routes: seq<Route>)
    requires Working(env) && Carried(env, s, now) && L.StateOf(s.rt) == Firing
    requires DistinctKeys(routes) && forall route :: route in routes ==> route in env.rule.routes
    ensures var t := Dispatched(env.cfg, env.world, env.rule, env.id, s, Firing, now, routes).0;
            Carried(env, t, now) && L.StateOf(t.rt) == Firing
  {
    hide Dispatched, LiveOf, Working;
    FiringCarries(env, s, now, routes);
  }

  lemma {:induction false} RepeatRoutesCarry(env: Env, s: Slice, now: Instant, routes: seq<Route>)
    requires Working(env) && Carried(env, s, now) && L.StateOf(s.rt) == Firing
    requires forall route :: route in routes ==> route in env.rule.routes
    ensures Carried(env, RepeatRoutes(env.cfg, env.world, env.rule, env.id, s, now, routes), now)
    decreases |routes|
  {
    hide Dispatched, Carried, Working, RepeatDue;
    if routes != [] {
      RepeatCarries(env, s, now, [routes[0]]);
      var next := if RepeatDue(env.cfg, env.rule, SliceMarks(s), routes[0].key, now)
                  then Dispatched(env.cfg, env.world, env.rule, env.id, s, Firing, now, [routes[0]]).0 else s;
      RepeatRoutesCarry(env, next, now, routes[1..]);
    }
  }

  lemma RepeatedCarries(env: Env, s: Slice, now: Instant)
    requires Working(env) && Carried(env, s, now) && L.StateOf(s.rt) == Firing
    ensures Carried(env, Repeated(env.cfg, env.world, env.rule, env.id, s, now), now)
  {
    hide Dispatched, Carried, RepeatRoutes, RepeatDue;
    RepeatRoutesCarry(env, s, now, env.rule.routes);
    RepeatCarries(env, s, now, env.rule.routes);
  }

  lemma CarriedSlot(env: Env, s: Slice, now: Time)
    requires Carried(env, s, now)
    ensures L.SlotInv(SetupOf(env), s.rt, now)
  {
  }

  lemma EventCarries(env: Env, s: Slice, event: Event, now: Instant, before: Time)
    requires ValidRule(env.rule) && Favourable(env) && ValidEvent(event) && Carried(env, s, before) && before <= now
    ensures Carried(env, Did(env, s, Arrive(event, now)).0, now)
  {
    hide EventStep, Applied, Favourable, Carried;
    CarriedSlot(env, s, before);
    EventMoves(env, s.rt, event, now, before);
    var (rt, d) := EventStep(env.rule, s.rt, env.id, event, now);
    AppliedCarries(env, s, rt, d, now, before);
  }

  lemma TickCarries(env: Env, s: Slice, now: Instant, before: Time)
    requires ValidRule(env.rule) && Favourable(env) && Carried(env, s, before) && before <= now
    ensures Carried(env, Did(env, s, Tick(now)).0, now)
  {
    hide TickOf, Applied, Working, Carried, Repeated;
    CarriedSlot(env, s, before);
    if s.rt.Some? {
      TickMoves(env, s.rt.value, now, before);
      var r := TickOf(env.rule, s.rt.value, now);
      var d := if r.decision.Some? then r.decision.value else NO_DECISION;
      AppliedCarries(env, s, r.rt, d, now, before);
      NothingDecided(env, s.(rt := Some(r.rt)), now);
      if r.firing {
        RepeatedCarries(env, TickDecided(env.cfg, env.world, env.rule, env.id, s, now).0, now);
      }
    } else {
      CarriedLater(env, s, before, now);
    }
  }

  lemma CarriedLater(env: Env, s: Slice, before: Time, now: Time)
    requires Carried(env, s, before) && before <= now
    ensures Carried(env, s, now)
  {
  }

  /** The expiry meets an alert with a live message that the engine does not know. */
  ghost predicate Blind(env: Env, s: Slice, op: LifeOp) {
    && op.Call? && op.op.Expire? && s.rt == None && s.card.Some? && !Ticking(s.tick, op.op.looks)
    && exists route :: route in env.rule.routes && OwnsMessage(route) && CardRef(s.card, route.key).Some?
  }

  /** An expiry that resolves an alert removes its owned messages exactly when the engine knows the alert,
      or when there were none. */
  lemma ExpiryRemovesIff(env: Env, s: Slice, reason: string, looks: Looks, now: Instant, before: Time)
    requires Favourable(env) && Carried(env, s, before) && s.card.Some? && !Ticking(s.tick, looks)
    ensures var t := ExpiryFlow(env.cfg, env.world, env.rule, env.id, s, reason, looks, now);
            && t.card == None && t.rt == None
            && ((forall route :: route in env.rule.routes && OwnsMessage(route) ==> LiveOf(t.log, route.key) == Nothing) <==>
                s.rt.Some? || forall route :: route in env.rule.routes && OwnsMessage(route) ==> LiveOf(s.log, route.key) == Nothing)
  {
    hide Dispatched, LiveOf, StoredRef, CardRef, Working, ExpiredCard;
    var expired := ExpiredCard(s.card.value.card, reason, now);
    ExpiryKeepsRefs(s.card.value.card, reason, now);
    var stored := s.(tick := None, card := Some(VersionedCard(expired, s.card.value.revision + 1)),
                     rt := SeededRt(s.rt, expired.externalRefs));
    if s.rt.Some? {
      SeedingFresh(expired.externalRefs);
      assert SliceMarks(stored).refs == expired.externalRefs;
      AnyTick(env, s, stored);
      ResolveClears(env, stored.(tick := s.tick), now, s.card);
      TickAside(env, stored, s.tick, now);
    } else {
      WorkingRoutes(env);
      BlindSends(env, stored, now);
    }
  }

  lemma WorkingRoutes(env: Env)
    requires Working(env)
    ensures ValidRoutes(env.rule.routes)
  {
  }

  lemma ExpiryKeepsRefs(card: AlertCard, reason: string, now: Instant)
    ensures ExpiredCard(card, reason, now).externalRefs == card.externalRefs
  {
  }

  lemma AnyTick(env: Env, s: Slice, stored: Slice)
    requires Accounted(env, s) && stored.log == s.log
    ensures Accounted(env, stored.(tick := s.tick).(card := s.card))
  {
  }

  lemma TickAside(env: Env, s: Slice, tick: Option<Time>, now: Instant)
    ensures var a := Dispatched(env.cfg, env.world, env.rule, env.id, s, Resolved, now, env.rule.routes);
            var b := Dispatched(env.cfg, env.world, env.rule, env.id, s.(tick := tick), Resolved, now, env.rule.routes);
            a.0.log == b.0.log
  {
    hide SendAll, CapturedAll, WithRefs, RefUpdates;
  }

  /** Without engine state no owned message is touched. */
  lemma BlindSends(env: Env, s: Slice, now: Instant)
    requires ValidRoutes(env.rule.routes) && s.rt == None
    ensures var t := Dispatched(env.cfg, env.world, env.rule, env.id, s, Resolved, now, env.rule.routes).0;
            forall route :: route in env.rule.routes && OwnsMessage(route) ==> LiveOf(t.log, route.key) == LiveOf(s.log, route.key)
  {
    hide LiveOf, SendAll;
    forall route | route in env.rule.routes && OwnsMessage(route)
      ensures LiveOf(SendAll(env.world, env.id, env.rule.routes, NO_MARKS, Resolved, now, s.log).log, route.key) == LiveOf(s.log, route.key)
    {
      NoMarksNoRefs(route.key);
      forall other | other in env.rule.routes && other.key == route.key ensures OwnsMessage(other) {
        SameKeySameRoute(env.rule.routes, other, route);
      }
      UnsentWithoutRef(env.world, env.id, env.rule.routes, NO_MARKS, now, s.log, route.key);
    }
  }

  lemma ExpiryCarries(env: Env, s: Slice, reason: string, looks: Looks, now: Instant, before: Time)
    requires Favourable(env) && Carried(env, s, before) && before <= now
    ensures var t := ExpiryFlow(env.cfg, env.world, env.rule, env.id, s, reason, looks, now);
            if Blind(env, s, Call(Expire(reason, looks, now))) then !Accounted(env, t) else Carried(env, t, now)
  {
    hide Dispatched, LiveOf, CardRef, Working, ExpiredCard;
    if !Ticking(s.tick, looks) && s.card.Some? {
      ExpiryRemovesIff(env, s, reason, looks, now, before);
      var t := ExpiryFlow(env.cfg, env.world, env.rule, env.id, s, reason, looks, now);
      forall route | route in env.rule.routes ensures CardRef(t.card, route.key) == None {
        NoCardNoRef(route.key);
      }
      if Blind(env, s, Call(Expire(reason, looks, now))) {
        var route :| route in env.rule.routes && OwnsMessage(route) && CardRef(s.card, route.key).Some?;
        assert LiveOf(s.log, route.key) != Nothing;
      }
    }
  }

  lemma NoCardNoRef(key: string)
    ensures CardRef(None, key) == None
  {
  }

  /** Every operation of a life that is not blind keeps all messages accounted for; a blind one does not. */
  lemma LifeCarries(env: Env, s: Slice, op: LifeOp, before: Time)
    requires ValidRule(env.rule) && Favourable(env) && Carried(env, s, before) && before <= TimeOf(op)
    requires op.Call? && op.op.Arrive? ==> ValidEvent(op.op.event)
    ensures if Blind(env, s, op) then !Accounted(env, LifeStep(env, s, op)) else Carried(env, LifeStep(env, s, op), TimeOf(op))
  {
    hide EventFlow, TickFlow, ExpiryFlow, Favourable, LiveOf, CardRef;
    match op
    case Restart(_) =>
    case Call(call) =>
      match call {
        case Arrive(event, at) => EventCarries(env, s, event, at, before);
        case Tick(at) => TickCarries(env, s, at, before);
        case Evict(_) =>
        case Expire(reason, looks, at) => ExpiryCarries(env, s, reason, looks, at, before);
      }
  }

  // ---------------------------------------------------------------------------
  // Whole lives.

  /** After every prefix each owned message was live under the reference of the card. */
  ghost predicate AlwaysAccounted(env: Env, ops: seq<LifeOp>) {
    Accounted(env, Lived(env, ops)) && (ops == [] || AlwaysAccounted(env, ops[..|ops| - 1]))
  }

  ghost predicate NeverBlind(env: Env, ops: seq<LifeOp>) {
    ops == [] || (NeverBlind(env, ops[..|ops| - 1]) && !Blind(env, Lived(env, ops[..|ops| - 1]), ops[|ops| - 1]))
  }

  lemma CarriedAccounts(env: Env, s: Slice, now: Time)
    requires Carried(env, s, now)
    ensures Accounted(env, s)
  {
  }

  lemma {:induction false} UnblindLives(env: Env, ops: seq<LifeOp>)
    requires ValidRule(env.rule) && Favourable(env) && LifeTimed(ops) && NeverBlind(env, ops)
    ensures Carried(env, Lived(env, ops), LifeTime(ops)) && AlwaysAccounted(env, ops)
  {
    hide LifeStep, Carried, Favourable, Blind, Accounted;
    if ops == [] {
      NothingCarried(env);
    } else {
      var last := |ops| - 1;
      UnblindLives(env, ops[..last]);
      LifeCarries(env, Lived(env, ops[..last]), ops[last], LifeTime(ops[..last]));
    }
    CarriedAccounts(env, Lived(env, ops), LifeTime(ops));
  }

  lemma NothingCarried(env: Env)
    ensures Carried(env, NO_SLICE, ZERO_TIME)
  {
  }

  /** Main result on restarts: over any run with restarts anywhere, every owned message stays accounted for
      by the card exactly when no expiry resolves an alert with a live message that the engine has forgotten. */
  lemma {:induction false} AccountedIffNeverBlind(env: Env, ops: seq<LifeOp>)
    requires ValidRule(env.rule) && Favourable(env) && LifeTimed(ops)
    ensures AlwaysAccounted(env, ops) <==> NeverBlind(env, ops)
  {
    hide LifeStep, Carried, Favourable, Blind, Accounted;
    if NeverBlind(env, ops) {
      UnblindLives(env, ops);
    } else {
      var last := |ops| - 1;
      AccountedIffNeverBlind(env, ops[..last]);
      if NeverBlind(env, ops[..last]) {
        UnblindLives(env, ops[..last]);
        LifeCarries(env, Lived(env, ops[..last]), ops[last], LifeTime(ops[..last]));
      }
    }
  }

  // ---------------------------------------------------------------------------
  // A life that loses a message.

  function Calls(ops: seq<SliceOp>): seq<LifeOp> {
    if ops == [] then [] else Calls(ops[..|ops| - 1]) + [Call(ops[|ops| - 1])]
  }

  lemma {:induction false} CallsLive(env: Env, ops: seq<SliceOp>)
    requires WellTimed(ops)
    ensures LifeTimed(Calls(ops)) && LifeTime(Calls(ops)) == LastTime(ops) && Lived(env, Calls(ops)) == After(env, ops)
  {
    hide Did;
    if ops != [] {
      var last := |ops| - 1;
      CallsLive(env, ops[..last]);
      assert Calls(ops)[..|Calls(ops)| - 1] == Calls(ops[..last]);
    }
  }

  lemma LifeExtended(env: Env, ops: seq<LifeOp>, op: LifeOp)
    requires LifeTimed(ops) && TimelyLife(op, LifeTime(ops))
    ensures LifeTimed(ops + [op]) && LifeTime(ops + [op]) == TimeOf(op)
    ensures Lived(env, ops + [op]) == LifeStep(env, Lived(env, ops), op)
    ensures NeverBlind(env, ops + [op]) <==> NeverBlind(env, ops) && !Blind(env, Lived(env, ops), op)
  {
    hide LifeStep, Blind;
    assert (ops + [op])[..|ops|] == ops;
  }

  predicate OwnsSome(routes: seq<Route>) {
    exists i :: 0 <= i < |routes| && OwnsMessage(routes[i])
  }

  /** The alert fires, the instance restarts, and the tick runs out at its time. */
  lemma BlindLife(env: Env) returns (ops: seq<LifeOp>)
    requires ValidRule(env.rule) && Working(env) && OwnsSome(env.rule.routes) && ResolveTimeout(env.rule) > 0
    ensures LifeTimed(ops) && !NeverBlind(env, ops)
  {
    hide Did, Working, Synced, WellTimed, NeverStuck, After, Blind, LifeStep, NeverBlind, LifeTimed;
    var fired, now := FiringRun(env);
    var s := After(env, fired);
    CallsLive(env, fired);
    FiringHoldsTick(env, s, now);
    var late: Instant := if s.tick.value > now then s.tick.value else now;
    var expiry := Call(Expire("", Looks(late, late), late));
    LifeExtended(env, Calls(fired), Restart(now));
    BlindAfterRestart(env, s, expiry, now);
    LifeExtended(env, Calls(fired) + [Restart(now)], expiry);
    ops := Calls(fired) + [Restart(now)] + [expiry];
    assert LifeStep(env, s, Restart(now)) == Restarted(s) by { RestartStep(env, s, now); }
  }

  lemma RestartStep(env: Env, s: Slice, now: Instant)
    ensures LifeStep(env, s, Restart(now)) == Restarted(s)
  {
  }

  lemma FiringHoldsTick(env: Env, s: Slice, now: Time)
    requires Synced(env, s, now) && L.StateOf(s.rt) == Firing && ResolveTimeout(env.rule) > 0
    ensures s.tick.Some? && s.tick.value > ZERO_TIME
  {
  }

  lemma BlindAfterRestart(env: Env, s: Slice, expiry: LifeOp, now: Time)
    requires Synced(env, s, now) && MessagesLive(env, s) && L.StateOf(s.rt) == Firing && OwnsSome(env.rule.routes)
    requires s.tick.Some? && s.tick.value > ZERO_TIME
    requires expiry.Call? && expiry.op.Expire? && s.tick.value <= expiry.op.looks.first && s.tick.value <= expiry.op.looks.second
    ensures Blind(env, Restarted(s), expiry)
  {
    hide LiveOf, StoredRef, CardRef, Matched;
    var i :| 0 <= i < |env.rule.routes| && OwnsMessage(env.rule.routes[i]);
    var route := env.rule.routes[i];
    assert route in env.rule.routes && StoredRef(SliceMarks(s), route.key).Some?;
    RefsAgree(SliceMarks(s), s.card, route.key);
  }

  /** Without owned messages, or without a timeout, no expiry is blind. */
  lemma {:induction false} NeverBlindLife(env: Env, ops: seq<LifeOp>)
    requires ValidRule(env.rule) && Favourable(env) && LifeTimed(ops)
    requires !OwnsSome(env.rule.routes) || ResolveTimeout(env.rule) <= 0
    ensures NeverBlind(env, ops)
  {
    hide LifeStep, Carried, Favourable, Blind;
    if ops != [] {
      var last := |ops| - 1;
      NeverBlindLife(env, ops[..last]);
      UnblindLives(env, ops[..last]);
      CannotBeBlind(env, Lived(env, ops[..last]), ops[last], LifeTime(ops[..last]));
    }
  }

  lemma CannotBeBlind(env: Env, s: Slice, op: LifeOp, now: Time)
    requires Carried(env, s, now) && (!OwnsSome(env.rule.routes) || ResolveTimeout(env.rule) <= 0)
    ensures !Blind(env, s, op)
  {
    hide CardRef;
    if route :| route in env.rule.routes && OwnsMessage(route) {
      var i :| 0 <= i < |env.rule.routes| && env.rule.routes[i] == route;
      assert OwnsSome(env.rule.routes);
    }
  }

  /** A rule is safe from restarts, over every life, exactly when it owns no message or never expires. */
  lemma RestartSafeIff(env: Env)
    requires ValidRule(env.rule) && Favourable(env)
    ensures (forall ops: seq<LifeOp> :: LifeTimed(ops) ==> AlwaysAccounted(env, ops)) <==>
              !OwnsSome(env.rule.routes) || ResolveTimeout(env.rule) <= 0
  {
    hide LifeTimed, AlwaysAccounted, NeverBlind, Working, OwnsSome, TrackerWaits;
    if !OwnsSome(env.rule.routes) || ResolveTimeout(env.rule) <= 0 {
      forall ops: seq<LifeOp> | LifeTimed(ops) ensures AlwaysAccounted(env, ops) {
        NeverBlindLife(env, ops);
        AccountedIffNeverBlind(env, ops);
      }
    } else {
      var ops := BlindLife(env);
      AccountedIffNeverBlind(env, ops);
    }
  }
}
