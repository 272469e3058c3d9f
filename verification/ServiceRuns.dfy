/** Whole runs of the service over all its rules and alerts: events one by one or in batches, ticks
    and expiries. */
module ServiceRuns {
  import opened Domain
  import opened EngineSpec
  import opened Cards
  import opened Delivery
  import opened AlertFlow
  import opened AlertRuns
  import opened AlertKey
  import opened Service
  import L = Lifecycle

  // ---------------------------------------------------------------------------
  // Ticks never influence the rest.

  /** The slices differ at most in their ticks. */
  predicate Alike(a: Slice, b: Slice) {
    a.rt == b.rt && a.card == b.card && a.log == b.log
  }

  lemma PersistedAlike(env: Env, a: Slice, b: Slice, d: Decision, now: Instant)
    requires Alike(a, b) && a.rt.Some?
    ensures var (s, x) := Persisted(env.rule, env.id, a, d, now);
            var (t, y) := Persisted(env.rule, env.id, b, d, now);
            Alike(s, t) && x == y
  {
    hide NewCard, UpdatedCard, Seeded;
  }

  lemma DispatchedAlike(env: Env, a: Slice, b: Slice, state: AlertState, now: Instant, routes: seq<Route>)
    requires Alike(a, b)
    ensures var (s, x) := Dispatched(env.cfg, env.world, env.rule, env.id, a, state, now, routes);
            var (t, y) := Dispatched(env.cfg, env.world, env.rule, env.id, b, state, now, routes);
            Alike(s, t) && x == y
  {
    hide SendAll, CapturedAll, WithRefs, RefUpdates;
  }

  lemma AnnouncedAlike(env: Env, a: Slice, b: Slice, d: Decision, now: Instant, allow: bool)
    requires Alike(a, b)
    ensures var (s, x) := Announced(env.cfg, env.world, env.rule, env.id, a, d, now, allow);
            var (t, y) := Announced(env.cfg, env.world, env.rule, env.id, b, d, now, allow);
            Alike(s, t) && x == y
  {
    hide Dispatched;
    DispatchedAlike(env, a, b, d.state, now, env.rule.routes);
  }

  lemma AppliedAlike(env: Env, a: Slice, b: Slice, d: Decision, now: Instant, batchA: bool, batchB: bool)
    requires Alike(a, b)
    ensures var (s, x) := Applied(env.cfg, env.world, env.rule, env.id, a, d, now, batchA);
            var (t, y) := Applied(env.cfg, env.world, env.rule, env.id, b, d, now, batchB);
            Alike(s, t) && x == y
  {
    hide Persisted, Announced;
    if (d.shouldStore || d.shouldNotify) && a.rt.Some? {
      var refreshes, ttl := d.shouldStore && d.state != Resolved, ResolveTimeout(env.rule);
      var tickedA := if refreshes then Refreshed(a, batchA, now, ttl) else a;
      var tickedB := if refreshes then Refreshed(b, batchB, now, ttl) else b;
      assert Alike(tickedA, tickedB) && tickedA.rt == a.rt;
      PersistedAlike(env, tickedA, tickedB, d, now);
      var (storedA, allow) := if d.stateChanged then Persisted(env.rule, env.id, tickedA, d, now) else (tickedA, true);
      var (storedB, _) := if d.stateChanged then Persisted(env.rule, env.id, tickedB, d, now) else (tickedB, true);
      AnnouncedAlike(env, storedA, storedB, d, now, allow);
    }
  }

  lemma EventAlike(env: Env, a: Slice, b: Slice, event: Event, now: Instant, batchA: bool, batchB: bool)
    requires Alike(a, b)
    ensures var (s, x) := EventFlow(env.cfg, env.world, env.rule, env.id, a, event, now, batchA);
            var (t, y) := EventFlow(env.cfg, env.world, env.rule, env.id, b, event, now, batchB);
            Alike(s, t) && x == y
  {
    hide EventStep, Applied;
    var (rt, d) := EventStep(env.rule, a.rt, env.id, event, now);
    AppliedAlike(env, a.(rt := Some(rt)), b.(rt := Some(rt)), d, now, batchA, batchB);
  }

  lemma {:induction false} RepeatRoutesAlike(env: Env, a: Slice, b: Slice, now: Instant, routes: seq<Route>)
    requires Alike(a, b)
    ensures Alike(RepeatRoutes(env.cfg, env.world, env.rule, env.id, a, now, routes),
                  RepeatRoutes(env.cfg, env.world, env.rule, env.id, b, now, routes))
    decreases |routes|
  {
    hide Dispatched, RepeatDue;
    if routes != [] {
      DispatchedAlike(env, a, b, Firing, now, [routes[0]]);
      var due := RepeatDue(env.cfg, env.rule, SliceMarks(a), routes[0].key, now);
      var nextA := if due then Dispatched(env.cfg, env.world, env.rule, env.id, a, Firing, now, [routes[0]]).0 else a;
      var nextB := if due then Dispatched(env.cfg, env.world, env.rule, env.id, b, Firing, now, [routes[0]]).0 else b;
      RepeatRoutesAlike(env, nextA, nextB, now, routes[1..]);
    }
  }

  lemma RepeatedAlike(env: Env, a: Slice, b: Slice, now: Instant)
    requires Alike(a, b)
    ensures Alike(Repeated(env.cfg, env.world, env.rule, env.id, a, now), Repeated(env.cfg, env.world, env.rule, env.id, b, now))
  {
    hide Dispatched, RepeatDue;
    RepeatRoutesAlike(env, a, b, now, env.rule.routes);
    DispatchedAlike(env, a, b, Firing, now, env.rule.routes);
  }

  lemma TickAlike(env: Env, a: Slice, b: Slice, now: Instant)
    requires Alike(a, b)
    ensures var (s, x) := TickFlow(env.cfg, env.world, env.rule, env.id, a, now);
            var (t, y) := TickFlow(env.cfg, env.world, env.rule, env.id, b, now);
            Alike(s, t) && x == y
  {
    hide TickOf, Applied, Repeated;
    if a.rt.Some? {
      var r := TickOf(env.rule, a.rt.value, now);
      var movedA, movedB := a.(rt := Some(r.rt)), b.(rt := Some(r.rt));
      if r.decision.Some? {
        AppliedAlike(env, movedA, movedB, r.decision.value, now, false, false);
      }
      RepeatedAlike(env, TickDecided(env.cfg, env.world, env.rule, env.id, a, now).0,
                    TickDecided(env.cfg, env.world, env.rule, env.id, b, now).0, now);
    }
  }

  // ---------------------------------------------------------------------------
  // Cards mirror the engine, whatever the ticks are.

  ghost predicate CardSynced(env: Env, s: Slice, now: Time) {
    L.SlotInv(SetupOf(env), s.rt, now) && Mirrored(s.rt, s.card)
  }

  /** The same slice with the tick it should have. */
  function Retimed(rule: Rule, s: Slice): Slice {
    s.(tick := if s.rt.Some? && IsActive(s.rt.value.state) then Some(TickExpiry(s.rt.value.lastSeen, ResolveTimeout(rule))) else None,
       deferred := None)
  }

  lemma RetimedSyncs(env: Env, s: Slice, now: Time)
    requires ValidRule(env.rule) && CardSynced(env, s, now)
    ensures Synced(env, Retimed(env.rule, s), now)
  {
  }

  lemma EventKeepsCard(env: Env, s: Slice, event: Event, now: Instant, before: Time, batch: bool)
    requires ValidRule(env.rule) && ValidEvent(event) && CardSynced(env, s, before) && before <= now
    ensures var (t, ok) := EventFlow(env.cfg, env.world, env.rule, env.id, s, event, now, batch);
            if Stuck(t) then !ok else CardSynced(env, t, now)
  {
    hide EventFlow;
    RetimedSyncs(env, s, before);
    EventSyncs(env, Retimed(env.rule, s), event, now, before);
    EventAlike(env, s, Retimed(env.rule, s), event, now, batch, false);
  }

  lemma TickKeepsCard(env: Env, s: Slice, now: Instant, before: Time)
    requires ValidRule(env.rule) && CardSynced(env, s, before) && before <= now
    ensures var (t, ok) := TickFlow(env.cfg, env.world, env.rule, env.id, s, now);
            if Stuck(t) then !ok else CardSynced(env, t, now)
  {
    hide TickFlow;
    RetimedSyncs(env, s, before);
    TickSyncs(env, Retimed(env.rule, s), now, before);
    TickAlike(env, s, Retimed(env.rule, s), now);
  }

  lemma ExpiryKeepsCard(env: Env, s: Slice, reason: string, looks: Looks, now: Instant, before: Time)
    requires CardSynced(env, s, before) && before <= now
    ensures CardSynced(env, ExpiryFlow(env.cfg, env.world, env.rule, env.id, s, reason, looks, now), now)
  {
    hide Dispatched;
    if !Ticking(s.tick, looks) && s.card.Some? {
      var expired := ExpiredCard(s.card.value.card, reason, now);
      var stored := s.(tick := None, card := Some(VersionedCard(expired, s.card.value.revision + 1)),
                       rt := SeededRt(s.rt, expired.externalRefs));
      DispatchedKeeps(env, stored, Resolved, now, env.rule.routes);
    }
  }

  // ---------------------------------------------------------------------------
  // All alerts.

  /** Every rule's alerts have their cards in step, and there is nothing about ids that no rule makes. */
  ghost predicate AllCards(cfg: Config, world: World, rules: seq<Rule>, slices: Slices, now: Time) {
    && (forall rule, id :: rule in rules && Owns(world.hash, rule, id) ==> CardSynced(Env(cfg, world, rule, id), slices[id], now))
    && (forall id :: (forall rule :: rule in rules ==> !Owns(world.hash, rule, id)) ==> slices[id].rt == None && slices[id].card == None)
  }

  lemma AllCardsLater(cfg: Config, world: World, rules: seq<Rule>, slices: Slices, before: Time, now: Time)
    requires AllCards(cfg, world, rules, slices, before) && before <= now
    ensures AllCards(cfg, world, rules, slices, now)
  {
    forall rule, id | rule in rules && Owns(world.hash, rule, id)
      ensures CardSynced(Env(cfg, world, rule, id), slices[id], now)
    {
      assert CardSynced(Env(cfg, world, rule, id), slices[id], before);
    }
  }

  lemma ReplacedCards(cfg: Config, world: World, rules: seq<Rule>, slices: Slices, rule: Rule, id: AlertId, s: Slice, now: Time)
    requires OneOwner(world.hash, rules) && rule in rules && Owns(world.hash, rule, id)
    requires AllCards(cfg, world, rules, slices, now) && CardSynced(Env(cfg, world, rule, id), s, now)
    ensures AllCards(cfg, world, rules, slices[id := s], now)
  {
    hide Key, CardSynced;
    forall other, k | other in rules && Owns(world.hash, other, k)
      ensures CardSynced(Env(cfg, world, other, k), slices[id := s][k], now)
    {
      if k == id {
        assert other == rule;
      }
    }
  }

  /** No notification of a resolve failed. */
  ghost predicate NoneStuck(slices: Slices) {
    forall id :: !Stuck(slices[id])
  }

  lemma {:induction false} EventOnKeepsCards(cfg: Config, world: World, all: seq<Rule>, rules: seq<Rule>, slices: Slices,
                                             event: Event, now: Instant, batch: bool)
    requires ValidRules(world, all) && ValidEvent(event) && forall rule :: rule in rules ==> rule in all
    requires AllCards(cfg, world, all, slices, now)
    ensures var (t, ok) := EventOn(cfg, world, rules, slices, event, now, batch);
            ok || NoneStuck(t) ==> AllCards(cfg, world, all, t, now)
    decreases |rules|
  {
    hide EventFlow, Key, CardSynced, ValidRule, ValidEvent, OutOfOrder, Owns, Stuck;
    if rules != [] {
      var rule := rules[0];
      var target := Target(world, rule, event, now);
      if target.None? {
        EventOnKeepsCards(cfg, world, all, rules[1..], slices, event, now, batch);
      } else {
        var id := target.value;
        TargetOwned(world, rule, event, now);
        EventKeepsCard(Env(cfg, world, rule, id), slices[id], event, now, now, batch);
        var (s, ok) := EventFlow(cfg, world, rule, id, slices[id], event, now, batch);
        var next: Slices := slices[id := s];
        assert next[id] == s;
        if ok || !Stuck(s) {
          ReplacedCards(cfg, world, all, slices, rule, id, s, now);
        }
        if ok {
          EventOnKeepsCards(cfg, world, all, rules[1..], next, event, now, batch);
        }
      }
    }
  }

  function LastOf(arrivals: seq<Arrival>, from: Time): Time {
    if arrivals == [] then from else arrivals[|arrivals| - 1].at
  }

  lemma {:induction false} EventsOnKeepCards(cfg: Config, world: World, rules: seq<Rule>, slices: Slices, arrivals: seq<Arrival>,
                                             from: Time, batch: bool)
    requires ValidRules(world, rules) && (forall i :: 0 <= i < |arrivals| ==> ValidEvent(arrivals[i].event))
    requires Ascending(arrivals, from) && AllCards(cfg, world, rules, slices, from)
    ensures var (t, ok) := EventsOn(cfg, world, rules, slices, arrivals, batch);
            ok || NoneStuck(t) ==> AllCards(cfg, world, rules, t, LastOf(arrivals, from))
    decreases |arrivals|
  {
    hide EventOn, ValidRules, AllCards, NoneStuck;
    if arrivals != [] {
      var at := arrivals[0].at;
      AllCardsLater(cfg, world, rules, slices, from, at);
      EventOnKeepsCards(cfg, world, rules, rules, slices, arrivals[0].event, at, batch);
      var (next, ok) := EventOn(cfg, world, rules, slices, arrivals[0].event, at, batch);
      if ok {
        EventsOnKeepCards(cfg, world, rules, next, arrivals[1..], at, batch);
      } else if NoneStuck(next) {
        AllCardsLater(cfg, world, rules, next, at, LastOf(arrivals, from));
      }
    }
  }

  // ---------------------------------------------------------------------------
  // Ticks and expiries.

  /** A tick of all rules is, for the cards, a tick of the alert's own rule. */
  lemma TicksKeepCards(cfg: Config, world: World, rules: seq<Rule>, before: Slices, after: Slices, now: Instant, from: Time)
    requires ValidRules(world, rules) && AllCards(cfg, world, rules, before, from) && from <= now
    requires TicksOk(cfg, world, rules, before, now)
    requires CompactedSlices(cfg, TickedAll(cfg, world, rules, before, now), after, now)
    ensures AllCards(cfg, world, rules, after, now)
  {
    hide TickSlice, CardSynced, Owns, ValidRule, OneOwner, Abandoned, Known, WithinCap, OldestWent;
    forall rule, id | rule in rules && Owns(world.hash, rule, id) ensures CardSynced(Env(cfg, world, rule, id), after[id], now) {
      TickSliceKeepsCard(cfg, world, rules, |rules|, rule, id, before[id], now, from);
      assert rules[..|rules|] == rules;
      assert TickSlice(cfg, world, rules, id, before[id], now).1;
      EvictionKeepsCard(Env(cfg, world, rule, id), TickedAll(cfg, world, rules, before, now)[id], now);
    }
    forall id | forall rule :: rule in rules ==> !Owns(world.hash, rule, id) ensures after[id].rt == None && after[id].card == None {
      UnknownTicks(cfg, world, rules, id, before[id], now);
    }
  }

  lemma EvictionKeepsCard(env: Env, s: Slice, now: Time)
    requires CardSynced(env, s, now)
    ensures MayEvict(s) ==> CardSynced(env, Evicted(s), now)
  {
  }

  lemma {:induction false} UnknownTicks(cfg: Config, world: World, rules: seq<Rule>, id: AlertId, s: Slice, now: Instant)
    requires s.rt == None
    ensures TickSlice(cfg, world, rules, id, s, now) == (s, true)
    decreases |rules|
  {
    if rules != [] {
      UnknownTicks(cfg, world, rules[..|rules| - 1], id, s, now);
    }
  }

  lemma CardRuleName(env: Env, s: Slice, now: Time)
    requires CardSynced(env, s, now)
    ensures !Stuck(s)
    ensures s.rt.Some? ==> s.rt.value.ruleName == env.rule.name
    ensures s.card.Some? ==> s.card.value.card.ruleName == env.rule.name
  {
  }

  lemma {:induction false} TickSliceKeepsCard(cfg: Config, world: World, all: seq<Rule>, n: nat, rule: Rule, id: AlertId,
                                              s: Slice, now: Instant, from: Time)
    requires ValidRules(world, all) && rule in all && n <= |all|
    requires CardSynced(Env(cfg, world, rule, id), s, from) && from <= now
    ensures var (t, ok) := TickSlice(cfg, world, all[..n], id, s, now);
            && (t, ok) == (if rule in all[..n] then TickFlow(cfg, world, rule, id, s, now) else (s, true))
            && (ok ==> CardSynced(Env(cfg, world, rule, id), t, now))
  {
    hide TickFlow, CardSynced, ValidRule, Owns, OneOwner;
    TickKeepsCard(Env(cfg, world, rule, id), s, now, from);
    CardLater(Env(cfg, world, rule, id), s, from, now);
    if n > 0 {
      TickSliceKeepsCard(cfg, world, all, n - 1, rule, id, s, now, from);
      assert all[..n][..n - 1] == all[..n - 1] && all[..n] == all[..n - 1] + [all[n - 1]];
      var (t, ok) := TickSlice(cfg, world, all[..n - 1], id, s, now);
      if all[n - 1] != rule {
        if ok {
          CardRuleName(Env(cfg, world, rule, id), t, now);
          NamesDiffer(all, n - 1, rule);
          OtherRuleTicks(cfg, world, all[n - 1], id, t, now);
        }
      } else {
        assert rule !in all[..n - 1];
      }
    }
  }

  lemma CardLater(env: Env, s: Slice, from: Time, now: Time)
    requires CardSynced(env, s, from) && from <= now
    ensures CardSynced(env, s, now)
  {
  }

  lemma {:induction false} FoundByName(rules: seq<Rule>, rule: Rule)
    requires rule in rules && forall i, j :: 0 <= i < j < |rules| ==> rules[i].name != rules[j].name
    ensures RuleByName(rules, rule.name) == Some(rule)
    decreases |rules|
  {
    if rules[0] != rule {
      NamesDiffer(rules, 0, rule);
      assert rules == [rules[0]] + rules[1..];
      FoundByName(rules[1..], rule);
    }
  }

  lemma ExpiryKeepsCards(cfg: Config, world: World, rules: seq<Rule>, before: Slices, id: AlertId, reason: string, looks: Looks, now: Instant, from: Time)
    requires ValidRules(world, rules) && AllCards(cfg, world, rules, before, from) && from <= now
    ensures AllCards(cfg, world, rules, before[id := ExpiryOn(cfg, world, rules, id, before[id], reason, looks, now)], now)
  {
    hide ExpiryFlow, CardSynced, Owns, ValidRule, OneOwner, Ticking;
    AllCardsLater(cfg, world, rules, before, from, now);
    var s := before[id];
    if owner :| owner in rules && Owns(world.hash, owner, id) {
      var env := Env(cfg, world, owner, id);
      CardRuleName(env, s, now);
      FoundByName(rules, owner);
      ExpiryKeepsCard(env, s, reason, looks, now, now);
      TicksAside(env, s, None, now);
      ReplacedCards(cfg, world, rules, before, owner, id, ExpiryOn(cfg, world, rules, id, s, reason, looks, now), now);
    }
  }

  lemma TicksAside(env: Env, s: Slice, tick: Option<Time>, now: Time)
    requires CardSynced(env, s, now)
    ensures CardSynced(env, s.(tick := tick), now)
  {
  }

  // ---------------------------------------------------------------------------
  // Runs.

  datatype ServiceOp =
    | PushOp(event: Event, at: Instant)
    | BatchOp(arrivals: seq<Arrival>, at: Instant)
    | TickOp(at: Instant)
    | ExpireOp(id: AlertId, reason: string, looks: Looks, at: Instant)

  /** What one complete call does; compaction leaves some choice to a tick. */
  ghost predicate Steps(cfg: Config, world: World, rules: seq<Rule>, before: Slices, op: ServiceOp, after: Slices) {
    match op
    case PushOp(event, at) => EventOn(cfg, world, rules, before, event, at, false) == (after, true)
    case BatchOp(arrivals, _) =>
      var (t, ok) := EventsOn(cfg, world, rules, before, arrivals, true);
      ok && after == FlushedAll(t)
    case TickOp(at) =>
      TicksOk(cfg, world, rules, before, at) && CompactedSlices(cfg, TickedAll(cfg, world, rules, before, at), after, at)
    case ExpireOp(id, reason, looks, at) => after == before[id := ExpiryOn(cfg, world, rules, id, before[id], reason, looks, at)]
  }

  /** The operation comes after `from`, with valid events and clock readings that do not go back. */
  ghost predicate Follows(op: ServiceOp, from: Time) {
    && from <= op.at
    && (op.PushOp? ==> ValidEvent(op.event))
    && (op.BatchOp? ==> Ascending(op.arrivals, from) && LastOf(op.arrivals, from) <= op.at
                        && forall i :: 0 <= i < |op.arrivals| ==> ValidEvent(op.arrivals[i].event))
    && (op.ExpireOp? ==> LooksWithin(op.looks, from, op.at))
  }

  lemma FlushKeepsCards(cfg: Config, world: World, rules: seq<Rule>, slices: Slices, now: Time)
    requires AllCards(cfg, world, rules, slices, now)
    ensures AllCards(cfg, world, rules, FlushedAll(slices), now)
  {
    hide Owns;
    forall rule, id | rule in rules && Owns(world.hash, rule, id)
      ensures CardSynced(Env(cfg, world, rule, id), FlushedAll(slices)[id], now)
    {
      assert CardSynced(Env(cfg, world, rule, id), slices[id], now);
    }
  }

  lemma StepKeepsCards(cfg: Config, world: World, rules: seq<Rule>, before: Slices, op: ServiceOp, after: Slices, from: Time)
    requires ValidRules(world, rules) && AllCards(cfg, world, rules, before, from)
    requires Follows(op, from) && Steps(cfg, world, rules, before, op, after)
    ensures AllCards(cfg, world, rules, after, op.at)
  {
    hide EventOn, EventsOn, TicksOk, TickedAll, CompactedSlices, ExpiryOn, FlushedAll, AllCards, ValidRules;
    AllCardsLater(cfg, world, rules, before, from, op.at);
    match op
    case PushOp(event, at) => EventOnKeepsCards(cfg, world, rules, rules, before, event, at, false);
    case BatchOp(arrivals, at) =>
      EventsOnKeepCards(cfg, world, rules, before, arrivals, from, true);
      var t := EventsOn(cfg, world, rules, before, arrivals, true).0;
      AllCardsLater(cfg, world, rules, t, LastOf(arrivals, from), at);
      FlushKeepsCards(cfg, world, rules, t, at);
    case TickOp(at) => TicksKeepCards(cfg, world, rules, before, after, at, from);
    case ExpireOp(id, reason, looks, at) => ExpiryKeepsCards(cfg, world, rules, before, id, reason, looks, at, from);
  }

  /** The clock before the operation at position `i`. */
  function Clock(ops: seq<ServiceOp>, i: nat): Time
    requires i <= |ops|
  {
    if i == 0 then ZERO_TIME else ops[i - 1].at
  }

  /** A run of complete calls from an empty service. */
  ghost predicate Run(cfg: Config, world: World, rules: seq<Rule>, states: seq<Slices>, ops: seq<ServiceOp>) {
    && |states| == |ops| + 1
    && (forall id :: states[0][id] == NO_SLICE)
    && (forall i :: 0 <= i < |ops| ==> Follows(ops[i], Clock(ops, i)))
    && (forall i :: 0 <= i < |ops| ==> Steps(cfg, world, rules, states[i], ops[i], states[i + 1]))
  }

  lemma RunPrefix(cfg: Config, world: World, rules: seq<Rule>, states: seq<Slices>, ops: seq<ServiceOp>)
    requires Run(cfg, world, rules, states, ops) && ops != []
    ensures var last := |ops| - 1;
            && Run(cfg, world, rules, states[..|ops|], ops[..last]) && states[..|ops|][last] == states[last]
            && Clock(ops[..last], last) == Clock(ops, last)
            && Follows(ops[last], Clock(ops, last)) && Steps(cfg, world, rules, states[last], ops[last], states[|ops|])
  {
    hide Steps, Follows;
    var last := |ops| - 1;
    assert forall i :: 0 <= i <= last ==> Clock(ops[..last], i) == Clock(ops, i);
    assert Steps(cfg, world, rules, states[last], ops[last], states[last + 1]);
  }

  /** Main result on the service: after any run of complete calls over all rules and alerts, a card exists
      exactly for the alerts the engine holds as pending or firing, and tells the same. */
  lemma {:induction false} CardsMirrorEngine(cfg: Config, world: World, rules: seq<Rule>, states: seq<Slices>, ops: seq<ServiceOp>)
    requires ValidRules(world, rules) && Run(cfg, world, rules, states, ops)
    ensures AllCards(cfg, world, rules, states[|ops|], Clock(ops, |ops|))
    ensures forall id :: Mirrored(states[|ops|][id].rt, states[|ops|][id].card)
    decreases |ops|
  {
    hide Steps, Follows, AllCards, ValidRules, Mirrored;
    if ops == [] {
      NothingStored(cfg, world, rules, states[0]);
    } else {
      hide Run;
      var last := |ops| - 1;
      RunPrefix(cfg, world, rules, states, ops);
      CardsMirrorEngine(cfg, world, rules, states[..|ops|], ops[..last]);
      StepKeepsCards(cfg, world, rules, states[last], ops[last], states[|ops|], Clock(ops, last));
    }
    AllMirrored(cfg, world, rules, states[|ops|], Clock(ops, |ops|));
  }

  lemma NothingStored(cfg: Config, world: World, rules: seq<Rule>, slices: Slices)
    requires forall id :: slices[id] == NO_SLICE
    ensures AllCards(cfg, world, rules, slices, ZERO_TIME)
  {
    hide Owns;
  }

  lemma AllMirrored(cfg: Config, world: World, rules: seq<Rule>, slices: Slices, now: Time)
    requires AllCards(cfg, world, rules, slices, now)
    ensures forall id :: Mirrored(slices[id].rt, slices[id].card)
  {
    hide Owns, Mirrored;
    forall id ensures Mirrored(slices[id].rt, slices[id].card) {
      if owner :| owner in rules && Owns(world.hash, owner, id) {
        assert CardSynced(Env(cfg, world, owner, id), slices[id], now);
      } else {
        NothingMirrors();
      }
    }
  }

  lemma NothingMirrors()
    ensures Mirrored(None, None)
  {
  }

  lemma KnownAreOpenOrIdle(cfg: Config, world: World, rules: seq<Rule>, slices: Slices, now: Time, id: AlertId)
    requires AllCards(cfg, world, rules, slices, now) && slices[id].rt.Some?
    ensures slices[id].rt.value.state == Idle || IsActive(slices[id].rt.value.state)
  {
    hide Owns, Mirrored;
    var owner :| owner in rules && Owns(world.hash, owner, id);
    assert CardSynced(Env(cfg, world, owner, id), slices[id], now);
  }

  /** Main result on memory: with a cap, each complete tick of a run leaves no more engine states than the cap, or
      only those of alerts that are pending or firing. */
  lemma TickMeetsCap(cfg: Config, world: World, rules: seq<Rule>, states: seq<Slices>, ops: seq<ServiceOp>) returns (known: set<AlertId>)
    requires ValidRules(world, rules) && Run(cfg, world, rules, states, ops)
    requires ops != [] && ops[|ops| - 1].TickOp? && cfg.maxStates > 0
    ensures Known(states[|ops|], known)
    ensures |known| <= cfg.maxStates || forall id :: id in known ==> IsActive(states[|ops|][id].rt.value.state)
  {
    hide AllCards, ValidRules, TicksOk, TickedAll;
    var last := |ops| - 1;
    var t := states[|ops|];
    CardsMirrorEngine(cfg, world, rules, states, ops);
    RunPrefix(cfg, world, rules, states, ops);
    var ticked := TickedAll(cfg, world, rules, states[last], ops[last].at);
    known :| Known(t, known) && WithinCap(cfg, t, known) && OldestWent(cfg, ticked, t, known, ops[last].at);
    forall id | id in known ensures t[id].rt.value.state == Idle || IsActive(t[id].rt.value.state) {
      KnownAreOpenOrIdle(cfg, world, rules, t, Clock(ops, |ops|), id);
    }
  }
}
