/** The ticks of the whole service: outside batches of heartbeat rules with hysteresis every stored tick expires by
    the engine's silence timer. */
module ServiceTicks {
  import opened Domain
  import opened EngineSpec
  import opened Cards
  import opened Delivery
  import opened AlertFlow
  import opened AlertRuns
  import opened AlertKey
  import opened Service
  import opened ServiceRuns
  import L = Lifecycle

  function Rest(s: Slice): (Option<Rt>, Option<VersionedCard>, Option<Time>, Option<TickRefresh>) {
    (s.rt, s.card, s.tick, s.deferred)
  }

  /** Engine, card and tick of every alert agree, and there is nothing about ids that no rule makes. */
  ghost predicate AllSynced(cfg: Config, world: World, rules: seq<Rule>, slices: Slices, now: Time) {
    && (forall rule, id :: rule in rules && Owns(world.hash, rule, id) ==> Synced(Env(cfg, world, rule, id), slices[id], now))
    && (forall id :: (forall rule :: rule in rules ==> !Owns(world.hash, rule, id)) ==> Rest(slices[id]) == (None, None, None, None))
  }

  lemma AllSyncedLater(cfg: Config, world: World, rules: seq<Rule>, slices: Slices, before: Time, now: Time)
    requires AllSynced(cfg, world, rules, slices, before) && before <= now
    ensures AllSynced(cfg, world, rules, slices, now)
  {
    forall rule, id | rule in rules && Owns(world.hash, rule, id)
      ensures Synced(Env(cfg, world, rule, id), slices[id], now)
    {
      assert Synced(Env(cfg, world, rule, id), slices[id], before);
    }
  }

  /** One event keeps every alert in step, unless the notification of a resolve failed. */
  lemma {:induction false} EventOnSyncs(cfg: Config, world: World, all: seq<Rule>, rules: seq<Rule>, slices: Slices,
                                        event: Event, now: Instant)
    requires ValidRules(world, all) && ValidEvent(event) && forall rule :: rule in rules ==> rule in all
    requires AllSynced(cfg, world, all, slices, now)
    ensures var (t, ok) := EventOn(cfg, world, rules, slices, event, now, false);
            && (ok ==> AllSynced(cfg, world, all, t, now))
            && ((forall id :: !Stuck(t[id])) ==> AllSynced(cfg, world, all, t, now))
    decreases |rules|
  {
    hide EventFlow, Key, Synced, ValidRule, ValidEvent, OutOfOrder, Owns, Stuck;
    if rules != [] {
      var rule := rules[0];
      var target := Target(world, rule, event, now);
      if target.None? {
        EventOnSyncs(cfg, world, all, rules[1..], slices, event, now);
      } else {
        var id := target.value;
        TargetOwned(world, rule, event, now);
        EventSyncs(Env(cfg, world, rule, id), slices[id], event, now, now);
        var (s, ok) := EventFlow(cfg, world, rule, id, slices[id], event, now, false);
        var next: Slices := slices[id := s];
        assert next[id] == s;
        if ok || !Stuck(s) {
          ReplacedSyncs(cfg, world, all, slices, rule, id, s, now);
        }
        if ok {
          EventOnSyncs(cfg, world, all, rules[1..], next, event, now);
        }
      }
    }
  }

  lemma ReplacedSyncs(cfg: Config, world: World, rules: seq<Rule>, slices: Slices, rule: Rule, id: AlertId, s: Slice, now: Time)
    requires OneOwner(world.hash, rules) && rule in rules && Owns(world.hash, rule, id)
    requires AllSynced(cfg, world, rules, slices, now) && Synced(Env(cfg, world, rule, id), s, now)
    ensures AllSynced(cfg, world, rules, slices[id := s], now)
  {
    hide Key, Synced;
    forall other, k | other in rules && Owns(world.hash, other, k)
      ensures Synced(Env(cfg, world, other, k), slices[id := s][k], now)
    {
      if k == id {
        assert other == rule;
      }
    }
  }

  lemma {:induction false} EventsOnSync(cfg: Config, world: World, rules: seq<Rule>, slices: Slices, arrivals: seq<Arrival>, from: Time)
    requires ValidRules(world, rules) && (forall i :: 0 <= i < |arrivals| ==> ValidEvent(arrivals[i].event))
    requires Ascending(arrivals, from) && AllSynced(cfg, world, rules, slices, from)
    ensures var (t, ok) := EventsOn(cfg, world, rules, slices, arrivals, false);
            ok ==> AllSynced(cfg, world, rules, t, LastOf(arrivals, from))
    decreases |arrivals|
  {
    hide EventOn, ValidRules, AllSynced;
    if arrivals != [] {
      var at := arrivals[0].at;
      AllSyncedLater(cfg, world, rules, slices, from, at);
      EventOnSyncs(cfg, world, rules, rules, slices, arrivals[0].event, at);
      var (next, ok) := EventOn(cfg, world, rules, slices, arrivals[0].event, at, false);
      if ok {
        EventsOnSync(cfg, world, rules, next, arrivals[1..], at);
      }
    }
  }

  lemma SyncedCard(env: Env, s: Slice, now: Time)
    requires Synced(env, s, now)
    ensures CardSynced(env, s, now)
    ensures MayEvict(s) ==> Synced(env, Evicted(s), now)
  {
  }

  lemma TicksSync(cfg: Config, world: World, rules: seq<Rule>, before: Slices, after: Slices, now: Instant, from: Time)
    requires ValidRules(world, rules) && AllSynced(cfg, world, rules, before, from) && from <= now
    requires TicksOk(cfg, world, rules, before, now)
    requires CompactedSlices(cfg, TickedAll(cfg, world, rules, before, now), after, now)
    ensures AllSynced(cfg, world, rules, after, now)
  {
    hide TickSlice, TickFlow, Synced, CardSynced, Owns, ValidRule, OneOwner, Abandoned, Known, WithinCap, OldestWent, Stuck;
    assert rules[..|rules|] == rules;
    forall rule, id | rule in rules && Owns(world.hash, rule, id) ensures Synced(Env(cfg, world, rule, id), after[id], now) {
      var env := Env(cfg, world, rule, id);
      SyncedCard(env, before[id], from);
      TickSliceKeepsCard(cfg, world, rules, |rules|, rule, id, before[id], now, from);
      TickSyncs(env, before[id], now, from);
      assert TickSlice(cfg, world, rules, id, before[id], now).1;
      var ticked := TickedAll(cfg, world, rules, before, now)[id];
      CardRuleName(env, ticked, now);
      SyncedCard(env, ticked, now);
    }
    forall id | forall rule :: rule in rules ==> !Owns(world.hash, rule, id) ensures Rest(after[id]) == (None, None, None, None) {
      UnknownTicks(cfg, world, rules, id, before[id], now);
    }
  }

  lemma ExpirySync(cfg: Config, world: World, rules: seq<Rule>, before: Slices, id: AlertId, reason: string, looks: Looks, now: Instant, from: Time)
    requires ValidRules(world, rules) && AllSynced(cfg, world, rules, before, from) && from <= now
    ensures AllSynced(cfg, world, rules, before[id := ExpiryOn(cfg, world, rules, id, before[id], reason, looks, now)], now)
  {
    hide ExpiryFlow, Synced, Owns, ValidRule, OneOwner, Ticking;
    AllSyncedLater(cfg, world, rules, before, from, now);
    var s := before[id];
    if owner :| owner in rules && Owns(world.hash, owner, id) {
      var env := Env(cfg, world, owner, id);
      SyncedCard(env, s, now);
      CardRuleName(env, s, now);
      FoundByName(rules, owner);
      ExpirySyncs(env, s, reason, looks, now, now);
      NoCardNoTick(env, s, now);
      ReplacedSyncs(cfg, world, rules, before, owner, id, ExpiryOn(cfg, world, rules, id, s, reason, looks, now), now);
    }
  }

  lemma NoCardNoTick(env: Env, s: Slice, now: Time)
    requires Synced(env, s, now)
    ensures s.card.None? || !IsActive(s.card.value.card.state) ==> s.(tick := None) == s
  {
  }

  /** A batch has no heartbeat rule with hysteresis to serve. */
  ghost predicate BatchRules(rules: seq<Rule>) {
    forall rule :: rule in rules ==> BatchSafe(rule)
  }

  lemma StepSyncs(cfg: Config, world: World, rules: seq<Rule>, before: Slices, op: ServiceOp, after: Slices, from: Time)
    requires ValidRules(world, rules) && AllSynced(cfg, world, rules, before, from)
    requires op.BatchOp? ==> BatchRules(rules)
    requires Follows(op, from) && Steps(cfg, world, rules, before, op, after) && from >= ZERO_TIME
    ensures AllSynced(cfg, world, rules, after, op.at)
  {
    hide EventOn, EventsOn, TicksOk, TickedAll, CompactedSlices, ExpiryOn, FlushedAll, AllSynced;
    AllSyncedLater(cfg, world, rules, before, from, op.at);
    match op
    case PushOp(event, at) => EventOnSyncs(cfg, world, rules, rules, before, event, at);
    case BatchOp(arrivals, at) =>
      NothingPutOff(cfg, world, rules, before, from);
      BatchEqualsSequence(cfg, world, rules, before, arrivals);
      EventsOnSync(cfg, world, rules, before, arrivals, from);
      AllSyncedLater(cfg, world, rules, after, LastOf(arrivals, from), at);
    case TickOp(at) => TicksSync(cfg, world, rules, before, after, at, from);
    case ExpireOp(id, reason, looks, at) => ExpirySync(cfg, world, rules, before, id, reason, looks, at, from);
  }

  lemma NothingPutOff(cfg: Config, world: World, rules: seq<Rule>, slices: Slices, now: Time)
    requires AllSynced(cfg, world, rules, slices, now)
    ensures forall id :: slices[id].deferred == None
  {
    hide Owns, L.SlotInv, Mirrored, Timed;
    forall id ensures slices[id].deferred == None {
      if owner :| owner in rules && Owns(world.hash, owner, id) {
        assert Synced(Env(cfg, world, owner, id), slices[id], now);
      } else {
        assert Rest(slices[id]) == (None, None, None, None);
      }
    }
  }

  /** Main result on ticks: after any run whose batches serve no heartbeat rule with hysteresis, every alert's engine state,
      card and tick agree; in particular a tick exists exactly beside a card. */
  lemma {:induction false} TicksFollowEngine(cfg: Config, world: World, rules: seq<Rule>, states: seq<Slices>, ops: seq<ServiceOp>)
    requires ValidRules(world, rules) && Run(cfg, world, rules, states, ops)
    requires (exists i :: 0 <= i < |ops| && ops[i].BatchOp?) ==> BatchRules(rules)
    ensures AllSynced(cfg, world, rules, states[|ops|], Clock(ops, |ops|)) && Clock(ops, |ops|) >= ZERO_TIME
    decreases |ops|
  {
    hide Steps, Follows, AllSynced, ValidRules, BatchRules;
    if ops == [] {
      NothingTimed(cfg, world, rules, states[0]);
    } else {
      hide Run;
      var last := |ops| - 1;
      RunPrefix(cfg, world, rules, states, ops);
      assert forall i :: 0 <= i < last ==> ops[..last][i] == ops[i];
      TicksFollowEngine(cfg, world, rules, states[..|ops|], ops[..last]);
      StepSyncs(cfg, world, rules, states[last], ops[last], states[|ops|], Clock(ops, last));
    }
  }

  lemma NothingTimed(cfg: Config, world: World, rules: seq<Rule>, slices: Slices)
    requires forall id :: slices[id] == NO_SLICE
    ensures AllSynced(cfg, world, rules, slices, ZERO_TIME)
  {
    hide Owns;
  }
}
