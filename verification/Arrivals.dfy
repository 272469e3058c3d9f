/** What one event reaches: the alerts it moves under each rule, and those it leaves alone. */
module Arrivals {
  import opened Domain
  import opened EngineSpec
  import opened Cards
  import opened Delivery
  import opened AlertFlow
  import opened AlertRuns
  import opened AlertKey
  import opened Service
  import opened ServiceRuns

  // ---------------------------------------------------------------------------
  // Which events a rule ignores.

  /** The clock has passed the last nanosecond of the last millisecond at which the event is still in time. */
  predicate Late(rule: Rule, event: Event, now: Instant) {
    rule.maxLateMs > 0 && now >= (event.dt + rule.maxLateMs + 1) * 1_000_000
  }

  /** The event is further ahead of the clock than the rule allows. */
  predicate Ahead(rule: Rule, event: Event, now: Instant) {
    rule.maxFutureSkewMs > 0 && now < (event.dt - rule.maxFutureSkewMs) * 1_000_000
  }

  /** The rule has a blank name, or one of its key tags is missing from the event. */
  predicate Keyless(rule: Rule, event: Event) {
    || (forall i :: 0 <= i < |rule.name| ==> IsSpace(rule.name[i]))
    || (exists i :: 0 <= i < |rule.fromTags| && rule.fromTags[i] !in event.tags)
  }

  predicate Ignores(rule: Rule, event: Event, now: Instant) {
    Late(rule, event, now) || Ahead(rule, event, now) || !rule.accepts(event) || Keyless(rule, event)
  }

  lemma {:induction false} BlankIff(s: string)
    ensures Trim(s) == "" <==> forall i :: 0 <= i < |s| ==> IsSpace(s[i])
    decreases |s|
  {
    hide IsSpace;
    if s != "" && IsSpace(s[0]) {
      BlankIff(s[1..]);
      assert forall i :: 1 <= i < |s| ==> s[1..][i - 1] == s[i];
      assert s == [s[0]] + s[1..];
    } else if s != "" && IsSpace(s[|s| - 1]) {
      BlankIff(s[..|s| - 1]);
      assert s[..|s| - 1][0] == s[0];
    }
  }

  lemma KeylessIff(hash: string -> string, rule: Rule, event: Event)
    ensures Key(hash, rule, event) == None <==> Keyless(rule, event)
  {
    hide Sanitized, IsSpace, Trim;
    BlankIff(rule.name);
  }

  lemma MillisecondsAgree(rule: Rule, event: Event, now: Instant)
    ensures OutOfOrder(rule, event, now) <==> Late(rule, event, now) || Ahead(rule, event, now)
  {
    var ms, rest := now / 1_000_000, now % 1_000_000;
    assert now == ms * 1_000_000 + rest && 0 <= rest < 1_000_000;
  }

  lemma IgnoredIff(world: World, rule: Rule, event: Event, now: Instant)
    ensures Target(world, rule, event, now) ==
            if Ignores(rule, event, now) then None else Key(world.hash, rule, event)
  {
    hide Key, Keyless, OutOfOrder, Late, Ahead;
    MillisecondsAgree(rule, event, now);
    KeylessIff(world.hash, rule, event);
  }

  // ---------------------------------------------------------------------------
  // One event under all rules.

  /** An alert that no rule picks is left alone, also when the event fails. */
  lemma {:induction false} UntouchedByEvent(cfg: Config, world: World, rules: seq<Rule>, slices: Slices, event: Event, now: Instant,
                                            batch: bool, id: AlertId)
    requires forall i :: 0 <= i < |rules| ==> Target(world, rules[i], event, now) != Some(id)
    ensures EventOn(cfg, world, rules, slices, event, now, batch).0[id] == slices[id]
    decreases |rules|
  {
    hide EventFlow, Target;
    if rules != [] {
      var target := Target(world, rules[0], event, now);
      assert forall i :: 0 <= i < |rules[1..]| ==> rules[1..][i] == rules[i + 1];
      if target.None? {
        UntouchedByEvent(cfg, world, rules[1..], slices, event, now, batch, id);
      } else {
        var (s, ok) := EventFlow(cfg, world, rules[0], target.value, slices[target.value], event, now, batch);
        var next: Slices := slices[target.value := s];
        if ok {
          UntouchedByEvent(cfg, world, rules[1..], next, event, now, batch, id);
        }
      }
    }
  }

  /** Only the rule at position `n` picks the alert. */
  predicate PicksOnly(world: World, rules: seq<Rule>, n: nat, event: Event, now: Instant, id: AlertId) {
    && n < |rules| && Target(world, rules[n], event, now) == Some(id)
    && forall i :: 0 <= i < |rules| && i != n ==> Target(world, rules[i], event, now) != Some(id)
  }

  /** Its rule alone moves the alert, when every rule succeeds. */
  lemma {:induction false} MovedByEvent(cfg: Config, world: World, rules: seq<Rule>, slices: Slices, event: Event, now: Instant,
                                        batch: bool, n: nat, id: AlertId)
    requires PicksOnly(world, rules, n, event, now, id)
    requires EventOn(cfg, world, rules, slices, event, now, batch).1
    ensures EventFlow(cfg, world, rules[n], id, slices[id], event, now, batch) ==
            (EventOn(cfg, world, rules, slices, event, now, batch).0[id], true)
    decreases |rules|
  {
    hide EventFlow, Target;
    var rest := rules[1..];
    assert forall i :: 0 <= i < |rest| ==> rest[i] == rules[i + 1];
    var target := Target(world, rules[0], event, now);
    if target.None? {
      MovedByEvent(cfg, world, rest, slices, event, now, batch, n - 1, id);
    } else {
      var s := EventFlow(cfg, world, rules[0], target.value, slices[target.value], event, now, batch).0;
      var next: Slices := slices[target.value := s];
      if n == 0 {
        UntouchedByEvent(cfg, world, rest, next, event, now, batch, id);
      } else {
        MovedByEvent(cfg, world, rest, next, event, now, batch, n - 1, id);
      }
    }
  }

  // ---------------------------------------------------------------------------
  // What it means to be reached.

  /** The identity an event gives: its own for a new alert, and only its value for a known one. */
  function IdentityAfter(slot: Option<Rt>, event: Event): AlertIdentity {
    if slot.None? then AlertIdentity(event.varName, event.tags, event.metric)
    else slot.value.identity.(metric := event.metric)
  }

  /** The alert was heard of at this instant: its silence timer restarts, or it was an open heartbeat alert and closed. */
  predicate Heard(rule: Rule, s: Slice, event: Event, t: Slice, at: Instant) {
    if t.rt.Some? then t.rt.value.lastSeen == at && t.rt.value.identity == IdentityAfter(s.rt, event)
    else rule.kind == MissingHeartbeat && s.rt.Some? && IsActive(s.rt.value.state) && t.card == None && t.tick == None
  }

  lemma EventHeard(rule: Rule, slot: Option<Rt>, id: AlertId, event: Event, now: Instant)
    ensures var (rt, d) := EventStep(rule, slot, id, event, now);
            && rt.lastSeen == now && rt.identity == IdentityAfter(slot, event)
            && (d.state == Resolved ==> rule.kind == MissingHeartbeat && slot.Some? && IsActive(slot.value.state))
  {
    hide PruneWindow;
  }

  lemma FlowHeard(cfg: Config, world: World, rule: Rule, id: AlertId, s: Slice, event: Event, now: Instant)
    ensures var (t, ok) := EventFlow(cfg, world, rule, id, s, event, now, false);
            ok ==> Heard(rule, s, event, t, now)
  {
    hide EventStep, Dispatched, NewCard, UpdatedCard, Seeded;
    var env := Env(cfg, world, rule, id);
    EventHeard(rule, s.rt, id, event, now);
    var (rt, d) := EventStep(rule, s.rt, id, event, now);
    var moved := s.(rt := Some(rt));
    var ticked := if d.shouldStore && d.state != Resolved then Refreshed(moved, false, now, ResolveTimeout(rule)) else moved;
    var stored := if d.stateChanged then Persisted(rule, id, ticked, d, now).0 else ticked;
    DispatchedKeeps(env, stored, d.state, now, rule.routes);
  }

  /** Main result on events: a complete push reaches, under every rule, exactly the alert of the event's key, and none
      when the event is late, ahead, not accepted or without a key. Alerts of no rule are never reached. */
  lemma PushReachesItsAlerts(cfg: Config, world: World, rules: seq<Rule>, before: Slices, event: Event, at: Instant, after: Slices)
    requires ValidRules(world, rules) && Steps(cfg, world, rules, before, PushOp(event, at), after)
    ensures forall rule, id :: rule in rules && Owns(world.hash, rule, id) ==>
              if Ignores(rule, event, at) || Key(world.hash, rule, event) != Some(id) then after[id] == before[id]
              else Heard(rule, before[id], event, after[id], at)
    ensures forall id :: (forall rule :: rule in rules ==> !Owns(world.hash, rule, id)) ==> after[id] == before[id]
  {
    hide EventFlow, Key, Target, Owns, Ignores, Heard, ValidRule;
    forall rule, id | rule in rules && Owns(world.hash, rule, id)
      ensures if Ignores(rule, event, at) || Key(world.hash, rule, event) != Some(id) then after[id] == before[id]
              else Heard(rule, before[id], event, after[id], at)
    {
      var n :| 0 <= n < |rules| && rules[n] == rule;
      IgnoredIff(world, rule, event, at);
      OthersPickOthers(world, rules, n, event, at, id);
      if Target(world, rule, event, at) == Some(id) {
        MovedByEvent(cfg, world, rules, before, event, at, false, n, id);
        FlowHeard(cfg, world, rule, id, before[id], event, at);
      } else {
        UntouchedByEvent(cfg, world, rules, before, event, at, false, id);
      }
    }
    forall id | forall rule :: rule in rules ==> !Owns(world.hash, rule, id) ensures after[id] == before[id] {
      forall i | 0 <= i < |rules| ensures Target(world, rules[i], event, at) != Some(id) {
        TargetOwned(world, rules[i], event, at);
      }
      UntouchedByEvent(cfg, world, rules, before, event, at, false, id);
    }
  }

  lemma OthersPickOthers(world: World, rules: seq<Rule>, n: nat, event: Event, now: Instant, id: AlertId)
    requires ValidRules(world, rules) && n < |rules| && Owns(world.hash, rules[n], id)
    ensures forall i :: 0 <= i < |rules| && i != n ==> Target(world, rules[i], event, now) != Some(id)
  {
    hide Key, ValidRule, OutOfOrder;
    var own :| Key(world.hash, rules[n], own) == Some(id);
    forall i | 0 <= i < |rules| && i != n ensures Target(world, rules[i], event, now) != Some(id) {
      assert rules[i] in rules && rules[n] in rules;
      assert rules[i].name != rules[n].name;
    }
  }

  /** An ignored event leaves the rule's alerts alone also when it fails under another rule. */
  lemma IgnoredEventsReachNothing(cfg: Config, world: World, rules: seq<Rule>, slices: Slices, event: Event, now: Instant, batch: bool,
                                  rule: Rule, id: AlertId)
    requires ValidRules(world, rules) && rule in rules && Owns(world.hash, rule, id)
    requires Ignores(rule, event, now) || Key(world.hash, rule, event) != Some(id)
    ensures EventOn(cfg, world, rules, slices, event, now, batch).0[id] == slices[id]
  {
    hide EventFlow, Key, Target, Owns, Ignores, ValidRule;
    var n :| 0 <= n < |rules| && rules[n] == rule;
    IgnoredIff(world, rule, event, now);
    OthersPickOthers(world, rules, n, event, now, id);
    UntouchedByEvent(cfg, world, rules, slices, event, now, batch, id);
  }

  // ---------------------------------------------------------------------------
  // Batches.

  /** The slices before, between and after pushes of the arrivals, one at a time. */
  ghost predicate Pushes(cfg: Config, world: World, rules: seq<Rule>, states: seq<Slices>, arrivals: seq<Arrival>) {
    && |states| == |arrivals| + 1
    && forall i :: 0 <= i < |arrivals| ==> Steps(cfg, world, rules, states[i], PushOp(arrivals[i].event, arrivals[i].at), states[i + 1])
  }

  lemma {:induction false} EventsArePushes(cfg: Config, world: World, rules: seq<Rule>, before: Slices, arrivals: seq<Arrival>)
    returns (states: seq<Slices>)
    requires EventsOn(cfg, world, rules, before, arrivals, false).1
    ensures Pushes(cfg, world, rules, states, arrivals) && states[0] == before
    ensures states[|arrivals|] == EventsOn(cfg, world, rules, before, arrivals, false).0
    decreases |arrivals|
  {
    hide EventOn;
    if arrivals == [] {
      states := [before];
    } else {
      var next := EventOn(cfg, world, rules, before, arrivals[0].event, arrivals[0].at, false).0;
      var rest := EventsArePushes(cfg, world, rules, next, arrivals[1..]);
      states := [before] + rest;
      forall i | 0 <= i < |arrivals|
        ensures Steps(cfg, world, rules, states[i], PushOp(arrivals[i].event, arrivals[i].at), states[i + 1])
      {
        if i > 0 {
          assert arrivals[1..][i - 1] == arrivals[i];
        }
      }
    }
  }

  /** A complete batch that serves no heartbeat rule with hysteresis is a sequence of complete pushes. */
  lemma BatchIsPushes(cfg: Config, world: World, rules: seq<Rule>, before: Slices, arrivals: seq<Arrival>, at: Instant, after: Slices)
    returns (states: seq<Slices>)
    requires OneOwner(world.hash, rules) && (forall rule :: rule in rules ==> BatchSafe(rule))
    requires Ascending(arrivals, ZERO_TIME) && forall id :: before[id].deferred == None
    requires Steps(cfg, world, rules, before, BatchOp(arrivals, at), after)
    ensures Pushes(cfg, world, rules, states, arrivals) && states[0] == before && states[|arrivals|] == after
  {
    hide EventsOn, OneOwner, Pushes;
    BatchEqualsSequence(cfg, world, rules, before, arrivals);
    states := EventsArePushes(cfg, world, rules, before, arrivals);
  }
}
