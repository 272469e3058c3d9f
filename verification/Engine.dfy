/** The rule engine: runtime states changed in place, one object per alert. */
module EngineModel {
  import opened Domain
  import opened EngineSpec

  method DropStale(points: seq<WindowPoint>, now: Time, window: Time, windowSum: int)
    returns (kept: seq<WindowPoint>, sum: int)
    ensures (kept, sum) == PruneWindow(points, now, window, windowSum)
  {
    if window <= 0 {
      return [], 0;
    }
    var cutoff := now - window;
    var drop := 0;
    sum := windowSum;
    while drop < |points|
      invariant 0 <= drop <= |points|
      invariant Prune(points, cutoff, windowSum) == Prune(points[drop..], cutoff, sum)
    {
      if points[drop].at >= cutoff {
        break;
      }
      sum := sum - points[drop].count;
      drop := drop + 1;
    }
    kept := points[drop..];
  }

  /** Per-alert mutable evaluation state. */
  class RuntimeState {
    const alertId: AlertId
    const ruleName: string
    const varName: string
    const tags: map<string, string>
    var metricValue: string
    var raisedAt: Time
    var initialized: bool
    var lastSeen: Time
    var pendingSince: Option<Time>
    var hysteresisSince: Option<Time>
    var currentState: AlertState
    var countTotal: int
    var countWindow: seq<WindowPoint>
    var countWindowSum: int
    var activeCount: int
    var lastNotified: map<string, Time>
    var channelRefs: map<string, string>
    var externalRefs: map<string, string>

    function View(): Rt
      reads this
    {
      Rt(alertId, ruleName, AlertIdentity(varName, tags, metricValue), raisedAt, initialized, lastSeen,
         pendingSince, hysteresisSince, currentState, countTotal, countWindow, countWindowSum, activeCount,
         Marks(lastNotified, channelRefs, externalRefs))
    }

    constructor (rule: Rule, event: Event, id: AlertId)
      ensures View() == FreshRt(rule, event, id)
      ensures alertId == id
    {
      alertId, ruleName, varName, tags, metricValue := id, rule.name, event.varName, event.tags, event.metric;
      raisedAt, initialized, lastSeen := ZERO_TIME, false, ZERO_TIME;
      pendingSince, hysteresisSince, currentState := None, None, Idle;
      countTotal, countWindow, countWindowSum, activeCount := 0, [], 0, 0;
      lastNotified, channelRefs, externalRefs := map[], map[], map[];
    }

    method ResetAfterResolve()
      modifies this
      ensures View() == ResetResolved(old(View()))
    {
      ghost var before := View();
      currentState := Idle;
      pendingSince := None;
      hysteresisSince := None;
      countWindow := [];
      countWindowSum := 0;
      countTotal := 0;
      activeCount := 0;
      raisedAt := ZERO_TIME;
      assert before.marks == View().marks && before.identity == View().identity;
    }

    method ApplyActiveCondition(rule: Rule, now: Instant, active: bool, fromTick: bool) returns (d: Decision)
      modifies this
      ensures (View(), d) == ApplyActive(rule, old(View()), now, active, fromTick)
    {
      if !active {
        return if fromTick then NO_DECISION else Noted(alertId);
      }
      hysteresisSince := None;
      match currentState
      case Idle =>
        raisedAt := now;
        if rule.pendingEnabled {
          pendingSince := Some(now);
          currentState := Pending;
          return Entered(alertId, Pending, false);
        }
        currentState := Firing;
        pendingSince := None;
        return Entered(alertId, Firing, true);
      case Pending =>
        if pendingSince == None {
          pendingSince := Some(now);
        }
        if now - pendingSince.value >= Seconds(rule.pendingDelaySec) {
          currentState := Firing;
          pendingSince := None;
          return Entered(alertId, Firing, true);
        }
        return Kept(alertId, Pending);
      case Firing =>
        return Kept(alertId, Firing);
      case Resolved =>
        currentState := Idle;
        raisedAt := ZERO_TIME;
        return Noted(alertId);
    }

    /** A heartbeat arrived; the state was already touched. */
    method ApplyHeartbeat(rule: Rule, now: Instant) returns (d: Decision)
      modifies this
      ensures (View(), d) == HeartbeatStep(rule, old(View()), now)
    {
      if !initialized {
        initialized := true;
        currentState := Idle;
        pendingSince := None;
        hysteresisSince := None;
        return Noted(alertId);
      }
      if currentState == Pending || currentState == Firing {
        var recovery := Seconds(rule.hysteresisSec);
        if recovery > 0 {
          if hysteresisSince == None {
            hysteresisSince := Some(now);
          }
          if now - hysteresisSince.value < recovery {
            return Kept(alertId, currentState);
          }
        }
        ResetAfterResolve();
        return Closed(alertId, "heartbeat_recovered", true);
      }
      return Noted(alertId);
    }

    method ApplyTotal(rule: Rule, count: int, now: Instant) returns (d: Decision)
      modifies this
      ensures (View(), d) == TotalStep(rule, old(View()), count, now)
    {
      hide ApplyActive;
      initialized := true;
      countTotal := countTotal + count;
      activeCount := activeCount + count;
      d := ApplyActiveCondition(rule, now, countTotal >= rule.raiseN, false);
    }

    method ApplyWindow(rule: Rule, count: int, now: Instant) returns (d: Decision)
      modifies this
      ensures (View(), d) == WindowStep(rule, old(View()), count, now)
    {
      hide ApplyActive, Prune;
      initialized := true;
      countWindow := countWindow + [WindowPoint(now, count)];
      countWindowSum := countWindowSum + count;
      activeCount := activeCount + count;
      countWindow, countWindowSum := DropStale(countWindow, now, Seconds(rule.windowSec), countWindowSum);
      d := ApplyActiveCondition(rule, now, countWindowSum >= rule.raiseN, false);
    }

    /** One event for this alert, which `now` touches first. */
    method ApplyEvent(rule: Rule, event: Event, now: Instant) returns (d: Decision)
      modifies this
      ensures var touched := old(View()).(lastSeen := now, identity := old(View()).identity.(metric := event.metric));
              (View(), d) == EventApply(rule, touched, event.aggCnt, now)
    {
      hide TotalStep, WindowStep, HeartbeatStep;
      lastSeen := now;
      metricValue := event.metric;
      match rule.kind
      case CountTotal => d := ApplyTotal(rule, event.aggCnt, now);
      case CountWindow => d := ApplyWindow(rule, event.aggCnt, now);
      case MissingHeartbeat => d := ApplyHeartbeat(rule, now);
    }

    /** The no-event evaluation of one state; `ds` are the decisions in the order they were made. */
    method ApplyTick(rule: Rule, now: Instant) returns (ds: seq<Decision>, firing: bool)
      modifies this
      ensures var r := TickStep(rule, old(View()), now);
              && View() == r.rt && firing == r.firing
              && ds == if r.decision.Some? then [r.decision.value] else []
    {
      ds := [];
      match rule.kind
      case MissingHeartbeat =>
        if !initialized {
          return [], false;
        }
        var active := now - lastSeen >= Seconds(rule.missingSec);
        if active {
          hysteresisSince := None;
        }
        var d := ApplyActiveCondition(rule, now, active, true);
        if d.matched {
          ds := ds + [d];
        }
        if active || !IsActive(currentState) {
          return ds, false;
        }
        var recovery := Seconds(rule.hysteresisSec);
        if recovery <= 0 {
          return ds, false;
        }
        if hysteresisSince == None {
          hysteresisSince := Some(if lastSeen == ZERO_TIME then now else lastSeen);
        }
        if now - hysteresisSince.value >= recovery {
          ds := ds + [Closed(alertId, "heartbeat_recovered", false)];
          ResetAfterResolve();
          return ds, false;
        }
        ds := ds + [Kept(alertId, currentState)];
        return ds, currentState == Firing;
      case _ =>
        if currentState != Pending && currentState != Firing {
          return [], false;
        }
        if now - lastSeen >= Seconds(rule.silenceSec + rule.hysteresisSec) {
          ds := ds + [Closed(alertId, "silence_timeout", false)];
          ResetAfterResolve();
        }
        return ds, currentState == Firing;
    }
  }

  /** An eviction candidate of the cap phase. */
  datatype Candidate = Candidate(id: AlertId, lastSeen: Time)

  ghost predicate ByAge(cs: seq<Candidate>) {
    forall i, j :: 0 <= i < j < |cs| ==> cs[i].lastSeen <= cs[j].lastSeen
  }

  function Insert(c: Candidate, cs: seq<Candidate>): seq<Candidate> {
    if cs == [] || c.lastSeen <= cs[0].lastSeen then [c] + cs else [cs[0]] + Insert(c, cs[1..])
  }

  lemma {:induction false} InsertKeepsAll(c: Candidate, cs: seq<Candidate>)
    ensures multiset(Insert(c, cs)) == multiset(cs) + multiset{c}
  {
    if cs != [] && c.lastSeen > cs[0].lastSeen {
      assert cs == [cs[0]] + cs[1..];
      InsertKeepsAll(c, cs[1..]);
    }
  }

  lemma {:induction false} InsertKeepsOrder(c: Candidate, cs: seq<Candidate>)
    requires ByAge(cs)
    ensures ByAge(Insert(c, cs)) && Insert(c, cs) != []
    ensures Insert(c, cs)[0] == c || (cs != [] && Insert(c, cs)[0] == cs[0])
  {
    if cs != [] && c.lastSeen > cs[0].lastSeen {
      var rest := Insert(c, cs[1..]);
      InsertKeepsOrder(c, cs[1..]);
      assert forall i :: 0 < i < |rest| ==> rest[0].lastSeen <= rest[i].lastSeen;
    }
  }

  /** Candidates, least recently seen first. */
  function SortedByAge(cs: seq<Candidate>): (r: seq<Candidate>)
    ensures ByAge(r) && multiset(r) == multiset(cs)
  {
    if cs == [] then []
    else
      assert cs == [cs[0]] + cs[1..];
      var rest := SortedByAge(cs[1..]);
      InsertKeepsAll(cs[0], rest);
      InsertKeepsOrder(cs[0], rest);
      Insert(cs[0], rest)
  }

  /** `kept` is `before` without its stale states. */
  ghost predicate WithoutStale(before: map<AlertId, Rt>, kept: map<AlertId, Rt>, now: Time, idleTTL: Time) {
    && kept.Keys <= before.Keys
    && (forall id :: id in kept ==> kept[id] == before[id])
    && forall id :: id in before ==> (id !in kept <==> Stale(before[id], now, idleTTL))
  }

  /** Of the alerts outside `todo` exactly the stale ones are gone. */
  ghost predicate Evicting<V>(all: map<AlertId, V>, before: map<AlertId, Rt>, todo: set<AlertId>, gone: set<AlertId>,
                              now: Time, idleTTL: Time)
  {
    && all.Keys == before.Keys && todo <= all.Keys && gone <= all.Keys - todo
    && forall id :: id in before && id !in todo ==> (id in gone <==> Stale(before[id], now, idleTTL))
  }

  lemma EvictingStart<V>(all: map<AlertId, V>, before: map<AlertId, Rt>, now: Time, idleTTL: Time)
    requires all.Keys == before.Keys
    ensures Evicting(all, before, all.Keys, {}, now, idleTTL)
    ensures all - {} == all && before - {} == before
  {
  }

  lemma EvictingNext<V>(all: map<AlertId, V>, before: map<AlertId, Rt>, todo: set<AlertId>, gone: set<AlertId>,
                        now: Time, idleTTL: Time, id: AlertId)
    requires Evicting(all, before, todo, gone, now, idleTTL) && id in todo
    ensures id in all - gone && id in before - gone && (before - gone)[id] == before[id]
    ensures Evicting(all, before, todo - {id}, if Stale(before[id], now, idleTTL) then gone + {id} else gone, now, idleTTL)
    ensures (all - gone) - {id} == all - (gone + {id}) && (before - gone) - {id} == before - (gone + {id})
    ensures |gone + {id}| == |gone| + 1
  {
    hide Stale;
  }

  lemma EvictingEnd<V>(all: map<AlertId, V>, before: map<AlertId, Rt>, gone: set<AlertId>, now: Time, idleTTL: Time)
    requires Evicting(all, before, {}, gone, now, idleTTL)
    ensures (all - gone).Keys <= all.Keys && |gone| == |all| - |all - gone|
    ensures forall id :: id in all - gone ==> (all - gone)[id] == all[id]
    ensures forall id :: id in all ==> (id !in all - gone <==> Stale(before[id], now, idleTTL))
  {
    hide Stale;
    assert (all - gone).Keys == all.Keys - gone;
    assert |(all - gone).Keys| == |all - gone| && |all.Keys| == |all|;
  }

  /** The candidates are exactly the inactive states. */
  ghost predicate Inactive(states: map<AlertId, Rt>, cs: seq<Candidate>) {
    && (forall c :: c in cs ==> c.id in states && states[c.id].state == Idle && c.lastSeen == states[c.id].lastSeen)
    && forall id :: id in states && states[id].state == Idle ==> Candidate(id, states[id].lastSeen) in cs
  }

  /** `after` is `kept` without the first `done` candidates. */
  ghost predicate WithoutFirst(kept: map<AlertId, Rt>, after: map<AlertId, Rt>, cs: seq<Candidate>, done: nat) {
    && after.Keys <= kept.Keys && done <= |cs|
    && (forall id :: id in after ==> after[id] == kept[id])
    && forall id :: id in kept ==> (id !in after <==> exists i :: 0 <= i < done && cs[i].id == id)
  }

  lemma SortedInactive(states: map<AlertId, Rt>, cs: seq<Candidate>)
    requires Inactive(states, cs)
    ensures Inactive(states, SortedByAge(cs))
  {
    var sorted := SortedByAge(cs);
    assert forall c :: c in cs <==> c in multiset(cs);
    assert forall c :: c in sorted <==> c in multiset(sorted);
  }

  lemma EvictionCompacts(before: map<AlertId, Rt>, kept: map<AlertId, Rt>, after: map<AlertId, Rt>,
                         now: Time, idleTTL: Time, cap: nat, cs: seq<Candidate>, done: nat)
    requires WithoutStale(before, kept, now, idleTTL)
    requires Inactive(kept, cs) && ByAge(cs)
    requires WithoutFirst(kept, after, cs, done)
    requires 0 < cap <= |after| && (|after| > cap ==> done == |cs|)
    ensures Compacted(before, after, now, idleTTL, cap)
  {
    forall id, k | id in kept && id !in after && k in after && after[k].state == Idle
      ensures before[id].lastSeen <= after[k].lastSeen
    {
      var i :| 0 <= i < done && cs[i].id == id;
      assert cs[i] in cs;
      var j :| 0 <= j < |cs| && cs[j] == Candidate(k, kept[k].lastSeen);
      assert i < j;
    }
    forall id | id in after && |after| > cap ensures after[id].state != Idle {
    }
    forall id | id in kept && id !in after ensures before[id].state == Idle {
      var i :| 0 <= i < done && cs[i].id == id;
      assert cs[i] in cs;
    }
  }

  /** The decisions and firing ids of the alerts in `done`. */
  ghost predicate Reported(rule: Rule, before: map<AlertId, Rt>, now: Instant, done: set<AlertId>,
                           ds: seq<Decision>, firing: seq<AlertId>)
  {
    && done <= before.Keys
    && (forall i :: 0 <= i < |ds| ==>
          ds[i].alertId in done && TickOf(rule, before[ds[i].alertId], now).decision == Some(ds[i]))
    && (forall i, j :: 0 <= i < j < |ds| ==> ds[i].alertId != ds[j].alertId)
    && (forall id :: id in done && TickOf(rule, before[id], now).decision.Some? ==>
          TickOf(rule, before[id], now).decision.value in ds)
    && (forall id :: id in firing <==> id in done && TickOf(rule, before[id], now).firing)
    && (forall i, j :: 0 <= i < j < |firing| ==> firing[i] != firing[j])
  }

  /** The engine's states while those in `todo` still wait for their tick. */
  ghost function Ticked(rule: Rule, before: map<AlertId, Rt>, todo: set<AlertId>, now: Instant): map<AlertId, Rt> {
    map id | id in before :: if id in todo then before[id] else TickOf(rule, before[id], now).rt
  }

  lemma TickedEnds(rule: Rule, before: map<AlertId, Rt>, now: Instant)
    ensures Ticked(rule, before, before.Keys, now) == before
    ensures Ticked(rule, before, {}, now) == TickAll(rule, before, now)
  {
  }

  lemma TickedOne(rule: Rule, before: map<AlertId, Rt>, todo: set<AlertId>, now: Instant, id: AlertId)
    requires id in before && id in todo
    ensures id in Ticked(rule, before, todo, now) && Ticked(rule, before, todo, now)[id] == before[id]
    ensures Ticked(rule, before, todo - {id}, now) ==
            Ticked(rule, before, todo, now)[id := TickOf(rule, before[id], now).rt]
  {
    hide TickOf;
  }

  lemma ReportNone(rule: Rule, before: map<AlertId, Rt>, now: Instant)
    ensures Reported(rule, before, now, before.Keys - before.Keys, [], [])
  {
  }

  /** Adding the results of one more alert. */
  lemma ReportOne(rule: Rule, before: map<AlertId, Rt>, now: Instant, todo: set<AlertId>,
                  ds: seq<Decision>, firing: seq<AlertId>, id: AlertId, more: seq<Decision>, fires: bool)
    requires Reported(rule, before, now, before.Keys - todo, ds, firing)
    requires id in before && id in todo && before[id].alertId == id
    requires var r := TickOf(rule, before[id], now);
             fires == r.firing && more == if r.decision.Some? then [r.decision.value] else []
    ensures Reported(rule, before, now, before.Keys - (todo - {id}), ds + more, if fires then firing + [id] else firing)
  {
    hide TickOf;
  }

  lemma ReportAll(rule: Rule, before: map<AlertId, Rt>, now: Instant, ds: seq<Decision>, firing: seq<AlertId>)
    requires forall id :: id in before ==> before[id].alertId == id
    requires Reported(rule, before, now, before.Keys, ds, firing)
    ensures TickDecisions(rule, before, now, ds) && TickFiring(rule, before, now, firing)
  {
    hide TickOf;
    forall id | TickDecision(rule, before, now, id).Some?
      ensures exists i :: 0 <= i < |ds| && ds[i].alertId == id
    {
      var d := TickDecision(rule, before, now, id).value;
      var i :| 0 <= i < |ds| && ds[i] == d;
    }
  }

  /** All runtime states, keyed by alert id. */
  class Engine {
    var states: map<AlertId, RuntimeState>

    ghost predicate Valid()
      reads this
    {
      forall id :: id in states ==> states[id].alertId == id
    }

    function View(): (v: map<AlertId, Rt>)
      reads this, states.Values
      ensures v.Keys == states.Keys
    {
      map id | id in states :: states[id].View()
    }

    constructor ()
      ensures Valid() && View() == map[]
      ensures states == map[]
    {
      states := map[];
    }

    method EnsureState(rule: Rule, event: Event, id: AlertId)
      requires Valid()
      modifies this
      ensures Valid() && id in states
      ensures View() == if id in old(View()) then old(View()) else old(View())[id := FreshRt(rule, event, id)]
      ensures fresh(states.Values - old(states.Values))
    {
      hide FreshRt;
      if id !in states {
        var state := new RuntimeState(rule, event, id);
        states := states[id := state];
      }
    }

    method EventAt(rule: Rule, event: Event, id: AlertId, now: Instant) returns (d: Decision)
      requires Valid() && id in states
      modifies states.Values
      ensures Valid() && states == old(states)
      ensures var (rt, decision) := EventStep(rule, Some(old(View())[id]), id, event, now);
              View() == old(View())[id := rt] && d == decision
    {
      hide EventApply;
      d := states[id].ApplyEvent(rule, event, now);
    }

    method ProcessEvent(rule: Rule, event: Event, id: AlertId, now: Instant) returns (d: Decision)
      requires Valid()
      modifies this, states.Values
      ensures Valid() && fresh(states.Values - old(states.Values))
      ensures var (rt, decision) := EventStep(rule, Lookup(old(View()), id), id, event, now);
              View() == old(View())[id := rt] && d == decision
    {
      hide EventApply, Engine.View;
      EnsureState(rule, event, id);
      d := EventAt(rule, event, id, now);
    }

    method TickAt(rule: Rule, id: AlertId, now: Instant) returns (ds: seq<Decision>, firing: bool)
      requires Valid() && id in states
      modifies states.Values
      ensures Valid() && states == old(states)
      ensures var r := TickOf(rule, old(View())[id], now);
              && View() == old(View())[id := r.rt] && firing == r.firing
              && ds == if r.decision.Some? then [r.decision.value] else []
    {
      hide TickStep;
      ds, firing := [], false;
      if states[id].ruleName == rule.name {
        ds, firing := states[id].ApplyTick(rule, now);
      }
    }

    method TickRuleWithFiring(rule: Rule, now: Instant) returns (ds: seq<Decision>, firing: seq<AlertId>)
      requires Valid()
      modifies states.Values
      ensures Valid() && states == old(states)
      ensures View() == TickAll(rule, old(View()), now)
      ensures TickDecisions(rule, old(View()), now, ds)
      ensures TickFiring(rule, old(View()), now, firing)
    {
      hide TickOf, Engine.View, Reported, Ticked, TickAll;
      ghost var before := View();
      AlertIdsMatch();
      ReportNone(rule, before, now);
      TickedEnds(rule, before, now);
      ds, firing := [], [];
      var todo := states.Keys;
      while todo != {}
        invariant todo <= states.Keys == before.Keys
        invariant Valid() && states == old(states)
        invariant View() == Ticked(rule, before, todo, now)
        invariant Reported(rule, before, now, before.Keys - todo, ds, firing)
        decreases |todo|
      {
        var id :| id in todo;
        TickedOne(rule, before, todo, now, id);
        var more, fires := TickAt(rule, id, now);
        ReportOne(rule, before, now, todo, ds, firing, id, more, fires);
        todo := todo - {id};
        ds := ds + more;
        if fires {
          firing := firing + [id];
        }
      }
      assert before.Keys - todo == before.Keys;
      ReportAll(rule, before, now, ds, firing);
    }

    lemma AlertIdsMatch()
      requires Valid()
      ensures forall id :: id in View() ==> View()[id].alertId == id
    {
    }

    method RemoveAlertState(id: AlertId)
      requires Valid()
      modifies this
      ensures Valid() && states == old(states) - {id}
      ensures View() == old(View()) - {id}
    {
      states := states - {id};
    }

    /** What deliveries left behind for an alert; nothing when the engine does not know it. */
    method MarksAt(id: AlertId) returns (marks: Marks)
      requires Valid()
      ensures marks == MarksOf(View(), id)
    {
      if id !in states {
        return NO_MARKS;
      }
      var state := states[id];
      marks := Marks(state.lastNotified, state.channelRefs, state.externalRefs);
    }

    /** A copy of an alert's state. */
    method StateSnapshot(id: AlertId) returns (rt: Option<Rt>)
      requires Valid()
      ensures rt == Lookup(View(), id)
    {
      if id !in states {
        return None;
      }
      rt := Some(states[id].View());
    }

    method SetLastNotified(id: AlertId, key: string, now: Time)
      requires Valid()
      modifies states.Values
      ensures Valid() && states == old(states)
      ensures var marks := MarksOf(old(View()), id);
              View() == WithMarks(old(View()), id, marks.(lastNotified := marks.lastNotified[key := now]))
    {
      if id in states {
        var state := states[id];
        state.lastNotified := state.lastNotified[key := now];
      }
    }

    method SetChannelMessage(id: AlertId, key: string, message: string)
      requires Valid()
      modifies states.Values
      ensures Valid() && states == old(states)
      ensures var marks := MarksOf(old(View()), id);
              View() == WithMarks(old(View()), id, marks.(messages := marks.messages[key := message]))
    {
      if id in states {
        var state := states[id];
        state.channelRefs := state.channelRefs[key := message];
      }
    }

    method SetChannelExternalRef(id: AlertId, key: string, value: string)
      requires Valid()
      modifies states.Values
      ensures Valid() && states == old(states)
      ensures var marks := MarksOf(old(View()), id);
              View() == WithMarks(old(View()), id, marks.(refs := marks.refs[key := value]))
    {
      if id in states {
        var state := states[id];
        state.externalRefs := state.externalRefs[key := value];
      }
    }

    method EvictIfStale(id: AlertId, now: Instant, idleTTL: Time) returns (evicted: bool)
      requires Valid() && id in states && idleTTL > 0
      modifies this
      ensures evicted <==> Stale(old(View())[id], now, idleTTL)
      ensures states == if evicted then old(states) - {id} else old(states)
      ensures Valid() && View() == if evicted then old(View()) - {id} else old(View())
    {
      var state := states[id];
      evicted := state.currentState == Idle && state.lastSeen != ZERO_TIME && now - state.lastSeen >= idleTTL;
      if evicted {
        states := states - {id};
      }
    }

    /** Drops the inactive states not seen for `idleTTL`. */
    method EvictStale(now: Instant, idleTTL: Time) returns (removed: nat)
      requires Valid() && idleTTL > 0
      modifies this
      ensures Valid() && states.Keys <= old(states).Keys
      ensures forall id :: id in states ==> states[id] == old(states)[id]
      ensures forall id :: id in old(states) ==> (id !in states <==> Stale(old(View())[id], now, idleTTL))
      ensures removed == |old(states)| - |states|
    {
      hide Engine.View, Engine.Valid, Stale, Evicting;
      ghost var before, all, gone: set<AlertId> := View(), states, {};
      EvictingStart(all, before, now, idleTTL);
      removed := 0;
      var todo := states.Keys;
      while todo != {}
        invariant Valid() && states == all - gone && View() == before - gone
        invariant Evicting(all, before, todo, gone, now, idleTTL) && removed == |gone|
        decreases |todo|
      {
        var id :| id in todo;
        EvictingNext(all, before, todo, gone, now, idleTTL, id);
        todo := todo - {id};
        var evicted := EvictIfStale(id, now, idleTTL);
        if evicted {
          gone := gone + {id};
          removed := removed + 1;
        }
      }
      EvictingEnd(all, before, gone, now, idleTTL);
    }

    method CollectInactive() returns (cs: seq<Candidate>)
      requires Valid()
      ensures Inactive(View(), cs)
    {
      cs := [];
      var todo := states.Keys;
      while todo != {}
        invariant todo <= states.Keys
        invariant forall c :: c in cs ==> c.id in states && states[c.id].currentState == Idle && c.lastSeen == states[c.id].lastSeen
        invariant forall id :: id in states && id !in todo && states[id].currentState == Idle ==> Candidate(id, states[id].lastSeen) in cs
        decreases |todo|
      {
        var id :| id in todo;
        todo := todo - {id};
        if states[id].currentState == Idle {
          cs := cs + [Candidate(id, states[id].lastSeen)];
        }
      }
    }

    /** Removes the oldest candidates until at most `cap` states are left. */
    method EvictOldest(cs: seq<Candidate>, cap: nat) returns (removed: nat, ghost done: nat)
      requires Valid() && |states| > cap
      modifies this
      ensures Valid() && states.Keys <= old(states).Keys
      ensures forall id :: id in states ==> states[id] == old(states)[id]
      ensures done <= |cs| && |states| >= cap && (|states| > cap ==> done == |cs|)
      ensures forall id :: id in old(states) ==> (id !in states <==> exists i :: 0 <= i < done && cs[i].id == id)
      ensures removed == |old(states)| - |states|
    {
      ghost var all := states;
      removed := 0;
      var need := |states| - cap;
      var k := 0;
      while k < |cs| && need > 0
        invariant 0 <= k <= |cs| && need == |states| - cap >= 0
        invariant states.Keys <= all.Keys
        invariant forall id :: id in states ==> states[id] == all[id]
        invariant forall id :: id in all ==> (id !in states <==> exists i :: 0 <= i < k && cs[i].id == id)
        invariant removed == |all| - |states|
      {
        var id := cs[k].id;
        k := k + 1;
        if id in states {
          states := states - {id};
          removed := removed + 1;
          need := need - 1;
        }
      }
      done := k;
    }

    method CompactStates(now: Instant, idleTTL: Time, maxStates: int) returns (removed: nat)
      requires Valid()
      modifies this
      ensures Valid() && states.Keys <= old(states).Keys
      ensures forall id :: id in states ==> states[id] == old(states)[id]
      ensures Compacted(old(View()), View(), now, idleTTL, maxStates)
      ensures removed == |old(View())| - |View()|
    {
      ghost var before := View();
      removed := 0;
      if idleTTL > 0 {
        removed := EvictStale(now, idleTTL);
      }
      ghost var kept := View();
      assert WithoutStale(before, kept, now, idleTTL);
      assert |before| == |before.Keys| && |kept| == |kept.Keys|;
      if maxStates <= 0 || |states| <= maxStates {
        return;
      }
      var more := CompactToCap(before, now, idleTTL, maxStates);
      removed := removed + more;
    }

    method EvictToCap(cs: seq<Candidate>, cap: nat) returns (removed: nat, ghost done: nat)
      requires Valid() && |states| > cap
      modifies this
      ensures Valid() && states.Keys <= old(states).Keys
      ensures forall id :: id in states ==> states[id] == old(states)[id]
      ensures WithoutFirst(old(View()), View(), cs, done)
      ensures |View()| >= cap && (|View()| > cap ==> done == |cs|)
      ensures removed == |old(View())| - |View()|
    {
      assert |View()| == |View().Keys|;
      removed, done := EvictOldest(cs, cap);
      assert |View()| == |View().Keys|;
    }

    method CompactToCap(ghost before: map<AlertId, Rt>, now: Instant, idleTTL: Time, cap: nat) returns (removed: nat)
      requires Valid() && WithoutStale(before, View(), now, idleTTL)
      requires 0 < cap < |states|
      modifies this
      ensures Valid() && states.Keys <= old(states).Keys
      ensures forall id :: id in states ==> states[id] == old(states)[id]
      ensures Compacted(before, View(), now, idleTTL, cap)
      ensures removed == |old(View())| - |View()|
    {
      hide Compacted, WithoutStale, Inactive, SortedByAge, WithoutFirst, Engine.View;
      ghost var kept := View();
      var cs := CollectInactive();
      SortedInactive(kept, cs);
      ghost var done;
      removed, done := EvictToCap(SortedByAge(cs), cap);
      EvictionCompacts(before, kept, View(), now, idleTTL, cap, SortedByAge(cs), done);
    }
  }
}
