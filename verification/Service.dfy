/** The whole service as a map from alert ids to what it holds about each: events over all rules,
    batches, and ticks. */
module Service {
  import opened Domain
  import opened EngineSpec
  import opened Cards
  import opened Delivery
  import opened AlertFlow
  import opened AlertRuns
  import opened AlertKey

  /** What the service holds about every alert there could be. */
  ghost predicate Total(slices: imap<AlertId, Slice>) {
    forall id :: id in slices
  }
  type Slices = s: imap<AlertId, Slice> | Total(s) ghost witness imap id: AlertId :: NO_SLICE

  function UnixMilli(now: Instant): int {
    now / 1_000_000
  }

  /** The event comes too late or too far from the future for the rule. */
  predicate OutOfOrder(rule: Rule, event: Event, now: Instant) {
    || (rule.maxLateMs > 0 && UnixMilli(now) - event.dt > rule.maxLateMs)
    || (rule.maxFutureSkewMs > 0 && event.dt > UnixMilli(now) + rule.maxFutureSkewMs)
  }

  /** The alert an event belongs to under one rule, if the rule takes the event at all. */
  function Target(world: World, rule: Rule, event: Event, now: Instant): Option<AlertId> {
    if OutOfOrder(rule, event, now) || !rule.accepts(event) then None else Key(world.hash, rule, event)
  }

  /** One event under each rule in order, up to the first failure. */
  ghost function EventOn(cfg: Config, world: World, rules: seq<Rule>, slices: Slices, event: Event, now: Instant,
                         batch: bool): (Slices, bool)
    decreases |rules|
  {
    if rules == [] then (slices, true)
    else
      var target := Target(world, rules[0], event, now);
      if target.None? then EventOn(cfg, world, rules[1..], slices, event, now, batch)
      else
        var (s, ok) := EventFlow(cfg, world, rules[0], target.value, slices[target.value], event, now, batch);
        var next: Slices := slices[target.value := s];
        if ok then EventOn(cfg, world, rules[1..], next, event, now, batch) else (next, false)
  }

  /** An event and the clock reading at its turn. */
  datatype Arrival = Arrival(event: Event, at: Instant)

  /** The events in order, up to the first failure. */
  ghost function EventsOn(cfg: Config, world: World, rules: seq<Rule>, slices: Slices, arrivals: seq<Arrival>,
                          batch: bool): (Slices, bool)
    decreases |arrivals|
  {
    if arrivals == [] then (slices, true)
    else
      var (next, ok) := EventOn(cfg, world, rules, slices, arrivals[0].event, arrivals[0].at, batch);
      if ok then EventsOn(cfg, world, rules, next, arrivals[1..], batch) else (next, false)
  }

  ghost function FlushedAll(slices: Slices): Slices {
    imap id: AlertId :: Flushed(slices[id])
  }

  /** Two rules never make the same alert id. */
  ghost predicate OneOwner(hash: string -> string, rules: seq<Rule>) {
    forall a, b, e, f :: a in rules && b in rules && Key(hash, a, e).Some? && Key(hash, a, e) == Key(hash, b, f) ==> a == b
  }

  /** The rule makes the alert's id. */
  ghost predicate Owns(hash: string -> string, rule: Rule, id: AlertId) {
    exists event :: Key(hash, rule, event) == Some(id)
  }

  lemma KeyShape(hash: string -> string, rule: Rule, event: Event) returns (rest: string)
    requires Key(hash, rule, event).Some?
    ensures Key(hash, rule, event).value == "rule/" + Sanitized(rule.name) + "/" + rest
    ensures SlashFree(Sanitized(rule.name))
  {
    hide Sanitized, Canonical;
    SanitizedIsSlashFree(rule.name);
    SortKeepsTags(rule.fromTags);
    rest := Sanitized(event.varName) + "/" + hash(Canonical(SortTags(rule.fromTags), event.tags));
  }

  /** Rules whose names differ after sanitizing never share an alert. */
  lemma DistinctNamesOwn(hash: string -> string, rules: seq<Rule>)
    requires forall a, b :: a in rules && b in rules && Sanitized(a.name) == Sanitized(b.name) ==> a == b
    ensures OneOwner(hash, rules)
  {
    hide Sanitized, Key;
    forall a, b, e, f | a in rules && b in rules && Key(hash, a, e).Some? && Key(hash, a, e) == Key(hash, b, f)
      ensures a == b
    {
      var restA := KeyShape(hash, a, e);
      var restB := KeyShape(hash, b, f);
      SegmentsAgree("rule/", Sanitized(a.name), Sanitized(b.name), restA, restB);
    }
  }

  // ---------------------------------------------------------------------------
  // A batch is the same as its events one by one.

  /** No event of such a rule both refreshes a tick and belongs to an alert that an event can resolve. */
  predicate BatchSafe(rule: Rule) {
    rule.kind != MissingHeartbeat || rule.hysteresisSec == 0
  }

  /** A refresh put off by a batch is one its rule made, and not from the future. */
  predicate PutOff(rule: Rule, s: Slice, now: Time) {
    s.deferred.Some? ==> rule.kind != MissingHeartbeat && s.deferred.value.ttl == ResolveTimeout(rule) && s.deferred.value.lastSeen <= now
  }

  lemma RefreshCommutes(rule: Rule, s: Slice, now: Instant)
    requires PutOff(rule, s, now) && rule.kind != MissingHeartbeat
    ensures Flushed(Refreshed(s, true, now, ResolveTimeout(rule))) == Refreshed(Flushed(s), false, now, ResolveTimeout(rule))
    ensures PutOff(rule, Refreshed(s, true, now, ResolveTimeout(rule)), now)
  {
  }

  lemma PersistedCommutes(env: Env, s: Slice, d: Decision, now: Instant)
    requires s.rt.Some?
    ensures var (t, allow) := Persisted(env.rule, env.id, s, d, now);
            && Persisted(env.rule, env.id, Flushed(s), d, now) == (Flushed(t), allow)
            && t.deferred == s.deferred && t.rt.Some?
  {
    hide NewCard, UpdatedCard, Seeded;
  }

  lemma DispatchedCommutes(env: Env, s: Slice, state: AlertState, now: Instant)
    ensures var (t, ok) := Dispatched(env.cfg, env.world, env.rule, env.id, s, state, now, env.rule.routes);
            && Dispatched(env.cfg, env.world, env.rule, env.id, Flushed(s), state, now, env.rule.routes) == (Flushed(t), ok)
            && t.deferred == s.deferred
  {
    hide SendAll, CapturedAll, WithRefs, RefUpdates;
  }

  lemma AnnouncedCommutes(env: Env, s: Slice, d: Decision, now: Instant, allow: bool)
    requires d.state != Resolved
    ensures var (t, ok) := Announced(env.cfg, env.world, env.rule, env.id, s, d, now, allow);
            && Announced(env.cfg, env.world, env.rule, env.id, Flushed(s), d, now, allow) == (Flushed(t), ok)
            && t.deferred == s.deferred
  {
    hide Dispatched;
    DispatchedCommutes(env, s, d.state, now);
  }

  lemma AppliedCommutes(env: Env, s: Slice, d: Decision, now: Instant)
    requires PutOff(env.rule, s, now) && d.state != Resolved && env.rule.kind != MissingHeartbeat
    ensures var (t, ok) := Applied(env.cfg, env.world, env.rule, env.id, s, d, now, true);
            && Applied(env.cfg, env.world, env.rule, env.id, Flushed(s), d, now, false) == (Flushed(t), ok)
            && PutOff(env.rule, t, now)
  {
    hide Persisted, Announced, Refreshed;
    if (d.shouldStore || d.shouldNotify) && s.rt.Some? {
      RefreshCommutes(env.rule, s, now);
      RefreshKeepsRt(s, now, ResolveTimeout(env.rule));
      var ticked := if d.shouldStore then Refreshed(s, true, now, ResolveTimeout(env.rule)) else s;
      PersistedCommutes(env, ticked, d, now);
      var (stored, allow) := if d.stateChanged then Persisted(env.rule, env.id, ticked, d, now) else (ticked, true);
      AnnouncedCommutes(env, stored, d, now, allow);
    }
  }

  lemma RefreshKeepsRt(s: Slice, now: Instant, ttl: Time)
    ensures Refreshed(s, true, now, ttl).rt == s.rt && Refreshed(Flushed(s), false, now, ttl).rt == s.rt
  {
  }

  /** An event of a count rule never resolves its alert. */
  lemma CountEventsNeverResolve(rule: Rule, slot: Option<Rt>, id: AlertId, event: Event, now: Instant)
    requires rule.kind != MissingHeartbeat
    ensures EventStep(rule, slot, id, event, now).1.state != Resolved
  {
    hide ApplyActive, PruneWindow;
  }

  /** A heartbeat without hysteresis never refreshes a tick. */
  lemma BareHeartbeat(rule: Rule, slot: Option<Rt>, id: AlertId, event: Event, now: Instant)
    requires rule.kind == MissingHeartbeat && rule.hysteresisSec == 0
    ensures var d := EventStep(rule, slot, id, event, now).1;
            d.shouldStore ==> d.state == Resolved
  {
  }

  /** Without a refresh a batch changes nothing. */
  lemma UnrefreshedCommutes(env: Env, s: Slice, d: Decision, now: Instant)
    requires s.deferred == None && (d.shouldStore ==> d.state == Resolved)
    ensures Applied(env.cfg, env.world, env.rule, env.id, s, d, now, true) == Applied(env.cfg, env.world, env.rule, env.id, s, d, now, false)
    ensures Applied(env.cfg, env.world, env.rule, env.id, s, d, now, true).0.deferred == None
  {
    hide Persisted, Dispatched;
    if (d.shouldStore || d.shouldNotify) && s.rt.Some? {
      PersistedCommutes(env, s, d, now);
      var stored := if d.stateChanged then Persisted(env.rule, env.id, s, d, now).0 else s;
      DispatchedKeeps(env, stored, d.state, now, env.rule.routes);
    }
  }

  lemma EventCommutes(env: Env, s: Slice, event: Event, now: Instant)
    requires PutOff(env.rule, s, now) && BatchSafe(env.rule)
    ensures var (t, ok) := EventFlow(env.cfg, env.world, env.rule, env.id, s, event, now, true);
            && EventFlow(env.cfg, env.world, env.rule, env.id, Flushed(s), event, now, false) == (Flushed(t), ok)
            && PutOff(env.rule, t, now)
  {
    hide EventStep, Applied;
    var (rt, d) := EventStep(env.rule, s.rt, env.id, event, now);
    if env.rule.kind == MissingHeartbeat {
      BareHeartbeat(env.rule, s.rt, env.id, event, now);
      UnrefreshedCommutes(env, s.(rt := Some(rt)), d, now);
    } else {
      CountEventsNeverResolve(env.rule, s.rt, env.id, event, now);
      AppliedCommutes(env, s.(rt := Some(rt)), d, now);
    }
  }

  ghost predicate AllPutOff(hash: string -> string, rules: seq<Rule>, slices: Slices, now: Time) {
    forall rule, id :: rule in rules && Owns(hash, rule, id) ==> PutOff(rule, slices[id], now)
  }

  lemma FlushOne(slices: Slices, id: AlertId, s: Slice)
    ensures FlushedAll(slices[id := s]) == FlushedAll(slices)[id := Flushed(s)]
  {
  }

  lemma {:induction false} EventOnCommutes(cfg: Config, world: World, all: seq<Rule>, rules: seq<Rule>, slices: Slices,
                                           event: Event, now: Instant)
    requires OneOwner(world.hash, all) && forall rule :: rule in all ==> BatchSafe(rule)
    requires forall rule :: rule in rules ==> rule in all
    requires AllPutOff(world.hash, all, slices, now)
    ensures var (t, ok) := EventOn(cfg, world, rules, slices, event, now, true);
            && EventOn(cfg, world, rules, FlushedAll(slices), event, now, false) == (FlushedAll(t), ok)
            && AllPutOff(world.hash, all, t, now)
    decreases |rules|
  {
    hide EventFlow, Flushed, Key, PutOff;
    if rules != [] {
      var rule := rules[0];
      var target := Target(world, rule, event, now);
      if target.None? {
        EventOnCommutes(cfg, world, all, rules[1..], slices, event, now);
      } else {
        var id := target.value;
        assert Owns(world.hash, rule, id);
        EventCommutes(Env(cfg, world, rule, id), slices[id], event, now);
        var (s, ok) := EventFlow(cfg, world, rule, id, slices[id], event, now, true);
        var next: Slices := slices[id := s];
        FlushOne(slices, id, s);
        forall other, k | other in all && Owns(world.hash, other, k) ensures PutOff(other, next[k], now) {
          if k == id {
            assert other == rule;
          }
        }
        EventOnCommutes(cfg, world, all, rules[1..], next, event, now);
      }
    }
  }

  ghost predicate Ascending(arrivals: seq<Arrival>, from: Time) {
    && (forall i :: 0 <= i < |arrivals| ==> from <= arrivals[i].at)
    && forall i, j :: 0 <= i < j < |arrivals| ==> arrivals[i].at <= arrivals[j].at
  }

  lemma {:induction false} EventsOnCommute(cfg: Config, world: World, rules: seq<Rule>, slices: Slices, arrivals: seq<Arrival>,
                                           from: Time)
    requires OneOwner(world.hash, rules) && forall rule :: rule in rules ==> BatchSafe(rule)
    requires Ascending(arrivals, from) && AllPutOff(world.hash, rules, slices, from)
    ensures var (t, ok) := EventsOn(cfg, world, rules, slices, arrivals, true);
            EventsOn(cfg, world, rules, FlushedAll(slices), arrivals, false) == (FlushedAll(t), ok)
    decreases |arrivals|
  {
    hide EventOn, OneOwner, FlushedAll, Owns;
    if arrivals != [] {
      var at := arrivals[0].at;
      assert AllPutOff(world.hash, rules, slices, at);
      EventOnCommutes(cfg, world, rules, rules, slices, arrivals[0].event, at);
      var (next, ok) := EventOn(cfg, world, rules, slices, arrivals[0].event, at, true);
      EventsOnCommute(cfg, world, rules, next, arrivals[1..], at);
    }
  }

  /** Main result on batches: for such rules and a clock that never goes back, a batch leaves the same
      engine, cards, ticks and deliveries as its events one at a time, and fails on the same event. */
  lemma BatchEqualsSequence(cfg: Config, world: World, rules: seq<Rule>, slices: Slices, arrivals: seq<Arrival>)
    requires OneOwner(world.hash, rules) && forall rule :: rule in rules ==> BatchSafe(rule)
    requires Ascending(arrivals, ZERO_TIME) && forall id :: slices[id].deferred == None
    ensures var (t, ok) := EventsOn(cfg, world, rules, slices, arrivals, true);
            EventsOn(cfg, world, rules, slices, arrivals, false) == (FlushedAll(t), ok)
  {
    hide EventsOn;
    assert FlushedAll(slices) == slices;
    EventsOnCommute(cfg, world, rules, slices, arrivals, ZERO_TIME);
  }

  // ---------------------------------------------------------------------------
  // Ticks.

  /** One tick of every rule on one alert, up to the first failure. */
  ghost function TickSlice(cfg: Config, world: World, rules: seq<Rule>, id: AlertId, s: Slice, now: Instant): (Slice, bool)
    decreases |rules|
  {
    if rules == [] then (s, true)
    else
      var last := |rules| - 1;
      var (t, ok) := TickSlice(cfg, world, rules[..last], id, s, now);
      if ok then TickFlow(cfg, world, rules[last], id, t, now) else (t, false)
  }

  /** The engine's part of a tick: all states of the rule move before the first decision is applied. */
  function Moved(rule: Rule, s: Slice, now: Instant): Slice {
    if s.rt.None? then s else s.(rt := Some(TickOf(rule, s.rt.value, now).rt))
  }

  /** A tick of one rule while only the decisions of the alerts in `done` are applied. */
  ghost function DecidedBy(cfg: Config, world: World, rule: Rule, before: Slices, done: set<AlertId>, now: Instant): Slices {
    imap id: AlertId :: if id in done then TickDecided(cfg, world, rule, id, before[id], now).0 else Moved(rule, before[id], now)
  }

  /** A tick of one rule while only the alerts in `done` had their repeats. */
  ghost function RepeatedBy(cfg: Config, world: World, rule: Rule, before: Slices, done: set<AlertId>, now: Instant): Slices {
    imap id: AlertId :: if id in done then TickFlow(cfg, world, rule, id, before[id], now).0
                        else TickDecided(cfg, world, rule, id, before[id], now).0
  }

  /** A whole tick of one rule, when nothing failed. */
  ghost function TickedBy(cfg: Config, world: World, rule: Rule, before: Slices, now: Instant): Slices {
    imap id: AlertId :: TickFlow(cfg, world, rule, id, before[id], now).0
  }

  /** The tick of a rule stopped at the decision of `failed`: the engine has moved every alert, but
      only the decisions of `done` were applied. */
  ghost predicate StoppedAt(cfg: Config, world: World, rule: Rule, before: Slices, after: Slices, now: Instant,
                            done: set<AlertId>, failed: AlertId)
  {
    && failed in done && !TickDecided(cfg, world, rule, failed, before[failed], now).1
    && (forall id :: id in done && id != failed ==> TickDecided(cfg, world, rule, id, before[id], now).1)
    && after == DecidedBy(cfg, world, rule, before, done, now)
  }

  ghost predicate TickStopped(cfg: Config, world: World, rule: Rule, before: Slices, after: Slices, now: Instant) {
    exists done, failed :: StoppedAt(cfg, world, rule, before, after, now, done, failed)
  }

  /** A tick of all rules, when nothing failed. */
  ghost function TickedAll(cfg: Config, world: World, rules: seq<Rule>, before: Slices, now: Instant): Slices {
    imap id: AlertId :: TickSlice(cfg, world, rules, id, before[id], now).0
  }

  ghost predicate TicksOk(cfg: Config, world: World, rules: seq<Rule>, before: Slices, now: Instant) {
    forall id :: TickSlice(cfg, world, rules, id, before[id], now).1
  }

  /** The tick finished the rules before some rule and stopped in that one. */
  ghost predicate TickGaveUp(cfg: Config, world: World, rules: seq<Rule>, before: Slices, after: Slices, now: Instant) {
    exists n :: 0 <= n < |rules| && GaveUpAt(cfg, world, rules, before, after, now, n)
  }

  ghost predicate GaveUpAt(cfg: Config, world: World, rules: seq<Rule>, before: Slices, after: Slices, now: Instant, n: nat)
    requires n < |rules|
  {
    && TicksOk(cfg, world, rules[..n], before, now)
    && TickStopped(cfg, world, rules[n], TickedAll(cfg, world, rules[..n], before, now), after, now)
  }

  /** An inactive state that was not heard of for the idle threshold, where there is one. */
  predicate Abandoned(cfg: Config, rt: Rt, now: Time) {
    cfg.idleSec > 0 && rt.state == Idle && rt.lastSeen != ZERO_TIME && now - rt.lastSeen >= Seconds(cfg.idleSec)
  }

  /** The alerts that have an engine state. */
  ghost predicate Known(slices: Slices, ids: set<AlertId>) {
    forall id :: id in ids <==> slices[id].rt.Some?
  }

  /** A cap leaves no more states than it allows, or no inactive one. */
  ghost predicate WithinCap(cfg: Config, slices: Slices, known: set<AlertId>)
    requires Known(slices, known)
  {
    cfg.maxStates > 0 ==> |known| <= cfg.maxStates || forall id :: id in known ==> slices[id].rt.value.state != Idle
  }

  /** A state that was not abandoned went only to meet the cap, and no inactive state that was left is older. */
  ghost predicate OldestWent(cfg: Config, before: Slices, after: Slices, known: set<AlertId>, now: Time)
    requires Known(after, known)
  {
    forall id :: before[id].rt.Some? && id !in known && !Abandoned(cfg, before[id].rt.value, now) ==>
      && 0 < cfg.maxStates <= |known|
      && forall k :: k in known && after[k].rt.value.state == Idle ==> before[id].rt.value.lastSeen <= after[k].rt.value.lastSeen
  }

  /** Compaction took only inactive states: every abandoned one, and of the others the oldest down to the cap. */
  ghost predicate CompactedSlices(cfg: Config, before: Slices, after: Slices, now: Instant) {
    && (forall id :: after[id] == before[id] || (MayEvict(before[id]) && after[id] == Evicted(before[id])))
    && (forall id :: after[id].rt.Some? ==> !Abandoned(cfg, after[id].rt.value, now))
    && exists known :: Known(after, known) && WithinCap(cfg, after, known) && OldestWent(cfg, before, after, known, now)
  }

  function RuleByName(rules: seq<Rule>, name: string): Option<Rule> {
    if rules == [] then None else if rules[0].name == name then Some(rules[0]) else RuleByName(rules[1..], name)
  }

  /** The tick of an alert expired: its rule is looked up by the name in the card. Without that rule
      the card stays behind as resolved. */
  ghost function ExpiryOn(cfg: Config, world: World, rules: seq<Rule>, id: AlertId, s: Slice, reason: string, looks: Looks, now: Instant): Slice {
    if Ticking(s.tick, looks) || s.card.None? || !IsActive(s.card.value.card.state) then
      if Ticking(s.tick, looks) then s else s.(tick := None)
    else
      var rule := RuleByName(rules, s.card.value.card.ruleName);
      if rule.Some? then ExpiryFlow(cfg, world, rule.value, id, s, reason, looks, now)
      else
        s.(tick := None,
           card := Some(VersionedCard(ExpiredCard(s.card.value.card, reason, now), s.card.value.revision + 1)))
  }

  // ---------------------------------------------------------------------------
  // Rules and their alerts.

  /** What configuration validation guarantees about the rules together. */
  ghost predicate ValidRules(world: World, rules: seq<Rule>) {
    && (forall rule :: rule in rules ==> ValidRule(rule))
    && (forall i, j :: 0 <= i < j < |rules| ==> rules[i].name != rules[j].name)
    && OneOwner(world.hash, rules)
  }

  lemma TargetOwned(world: World, rule: Rule, event: Event, now: Instant)
    ensures var target := Target(world, rule, event, now);
            target.Some? ==> Owns(world.hash, rule, target.value)
  {
  }

  /** A rule's tick passes over the alerts of other rules. */
  lemma OtherRuleTicks(cfg: Config, world: World, rule: Rule, id: AlertId, s: Slice, now: Instant)
    requires s.rt.Some? ==> s.rt.value.ruleName != rule.name
    ensures TickFlow(cfg, world, rule, id, s, now) == (s, true)
  {
  }

  lemma NamesDiffer(rules: seq<Rule>, i: nat, rule: Rule)
    requires forall i, j :: 0 <= i < j < |rules| ==> rules[i].name != rules[j].name
    requires i < |rules| && rule in rules && rules[i] != rule
    ensures rules[i].name != rule.name
  {
    var j :| 0 <= j < |rules| && rules[j] == rule;
    if i < j {
      assert rules[i].name != rules[j].name;
    } else {
      assert rules[j].name != rules[i].name;
    }
  }
}
