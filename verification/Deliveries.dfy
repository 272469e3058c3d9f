/** Exactly which routes each operation of a run delivers on: what opens, what repeats and what closes. */
module Deliveries {
  import opened Domain
  import opened EngineSpec
  import opened Cards
  import opened OffWindows
  import opened Delivery
  import opened AlertFlow
  import opened AlertRuns
  import opened Messages
  import opened Repeats
  import opened Threads
  import L = Lifecycle

  // ---------------------------------------------------------------------------
  // What a reader of the log expects.

  /** The rule repeats its notifications, by itself or because the service does. */
  predicate SwitchedOn(env: Env) {
    env.rule.repeat == Some(true) || (env.rule.repeat == None && env.cfg.repeat)
  }

  /** The rule's interval, else the service's, else five minutes. */
  function Interval(env: Env): Time {
    if env.rule.repeatEverySec > 0 then Seconds(env.rule.repeatEverySec)
    else if env.cfg.repeatEverySec > 0 then Seconds(env.cfg.repeatEverySec)
    else Seconds(300)
  }

  /** Some delivery since position `from`, on this key if keys count on their own, is younger than the interval. */
  ghost predicate Young(env: Env, log: seq<Entry>, from: nat, key: string, at: Time) {
    exists i :: from <= i < |log| && log[i].Delivered? && (env.cfg.repeatPerChannel ==> log[i].key == key)
                && at - log[i].at < Interval(env)
  }

  /** The routes, in order, on which no delivery is younger than the interval. */
  ghost function Due(env: Env, log: seq<Entry>, from: nat, routes: seq<Route>, at: Time): seq<Route> {
    if routes == [] then []
    else (if Young(env, log, from, routes[0].key, at) then [] else [routes[0]]) + Due(env, log, from, routes[1..], at)
  }

  /** The routes that close without a message to close. */
  function Untied(routes: seq<Route>): seq<Route> {
    if routes == [] then []
    else (if routes[0].mode == ActiveOnly || routes[0].channel == Mattermost then [] else [routes[0]]) + Untied(routes[1..])
  }

  predicate DeliveredOn(entry: Entry, route: Route, at: Time) {
    entry.Delivered? && entry.key == route.key && entry.at == at
  }

  /** The log grew by one delivery on each of the routes, in order. */
  ghost predicate Delivers(log: seq<Entry>, longer: seq<Entry>, routes: seq<Route>, at: Time) {
    && |longer| == |log| + |routes| && longer[..|log|] == log
    && forall i :: |log| <= i < |longer| ==> DeliveredOn(longer[i], routes[i - |log|], at)
  }

  /** A tick reports the firing alert for repeats: always under a count rule, and under a heartbeat rule while it recovers. */
  predicate Reported(env: Env, rt: Rt, at: Time) {
    env.rule.kind == MissingHeartbeat ==> env.rule.hysteresisSec > 0 && at - rt.lastSeen < Seconds(env.rule.missingSec)
  }

  /** The routes an operation delivers on, given the slices around it and where the episode's deliveries begin. */
  ghost function Expected(env: Env, s: Slice, op: SliceOp, t: Slice, from: nat): seq<Route> {
    var was, now := L.StateOf(s.rt), L.StateOf(t.rt);
    if was != Firing && now == Firing then env.rule.routes
    else if was == Firing && now != Firing then env.rule.routes
    else if was == Pending && now == Idle then Untied(env.rule.routes)
    else if was == Firing && op.Tick? && Reported(env, s.rt.value, op.at) && SwitchedOn(env) then
      Due(env, s.log, from, env.rule.routes, op.at)
    else []
  }

  // ---------------------------------------------------------------------------
  // One notification.

  lemma DeliversBoth(a: seq<Entry>, b: seq<Entry>, c: seq<Entry>, first: seq<Route>, second: seq<Route>, at: Time)
    requires Delivers(a, b, first, at) && Delivers(b, c, second, at)
    ensures Delivers(a, c, first + second, at)
  {
    assert c[..|a|] == c[..|b|][..|a|];
    forall i | |a| <= i < |c| ensures DeliveredOn(c[i], (first + second)[i - |a|], at) {
      if i < |b| {
        assert c[..|b|][i] == b[i];
      } else {
        assert DeliveredOn(c[i], second[i - |b|], at);
      }
    }
  }

  /** The routes that a notification does not skip. */
  function Sendable(routes: seq<Route>, marks: Marks, state: AlertState): seq<Route> {
    if routes == [] then []
    else (if Skips(marks, routes[0], state) then [] else [routes[0]]) + Sendable(routes[1..], marks, state)
  }

  lemma {:induction false} SendAllDelivers(world: World, id: AlertId, routes: seq<Route>, marks: Marks, state: AlertState,
                                           at: Time, log: seq<Entry>)
    ensures var batch := SendAll(world, id, routes, marks, state, at, log);
            batch.ok ==> Delivers(log, batch.log, Sendable(routes, marks, state), at)
    decreases |routes|
  {
    hide SendOn, Skips;
    if routes != [] {
      var route, rest := routes[0], routes[1..];
      var sent := SendOn(route, marks, state, world.reply(id, |log|));
      if Skips(marks, route, state) {
        SendAllDelivers(world, id, rest, marks, state, at, log);
        assert [] + Sendable(rest, marks, state) == Sendable(rest, marks, state);
      } else if sent.Some? {
        var longer := log + [Delivered(route.key, at, sent.value.0)];
        assert Delivers(log, longer, [route], at);
        SendAllDelivers(world, id, rest, marks, state, at, longer);
        var batch := SendAll(world, id, rest, marks, state, at, longer);
        if batch.ok {
          DeliversBoth(log, longer, batch.log, [route], Sendable(rest, marks, state), at);
        }
      }
    }
  }

  lemma {:induction false} FiringSkipsNothing(routes: seq<Route>, marks: Marks)
    ensures Sendable(routes, marks, Firing) == routes
    decreases |routes|
  {
    if routes != [] {
      FiringSkipsNothing(routes[1..], marks);
    }
  }

  lemma {:induction false} KnownSkipsNothing(routes: seq<Route>, marks: Marks)
    requires forall i :: 0 <= i < |routes| && (routes[i].mode == ActiveOnly || routes[i].channel == Mattermost) ==>
               StoredRef(marks, routes[i].key).Some?
    ensures Sendable(routes, marks, Resolved) == routes
    decreases |routes|
  {
    hide StoredRef;
    if routes != [] {
      assert forall i :: 0 <= i < |routes[1..]| ==> routes[1..][i] == routes[i + 1];
      KnownSkipsNothing(routes[1..], marks);
    }
  }

  lemma {:induction false} UnknownSkipsTied(routes: seq<Route>)
    ensures Sendable(routes, NO_MARKS, Resolved) == Untied(routes)
    decreases |routes|
  {
    if routes != [] {
      NoMarksNoRefs(routes[0].key);
      UnknownSkipsTied(routes[1..]);
    }
  }

  /** Every time the engine remembers is that of a delivery of the episode. */
  ghost predicate Exact(env: Env, s: Slice, from: nat) {
    forall key :: key in SliceMarks(s).lastNotified ==>
      exists i :: from <= i < |s.log| && s.log[i].Delivered? && KeyFor(env, s.log[i].key) == key
                  && s.log[i].at == SliceMarks(s).lastNotified[key]
  }

  lemma {:induction false} CapturedFrom(env: Env, marks: Marks, state: AlertState, at: Time, results: seq<(Route, SendResult)>, key: string)
    ensures var after := CapturedAll(env.cfg.repeatPerChannel, marks, state, at, results).lastNotified;
            key in after ==>
              || (key in marks.lastNotified && after[key] == marks.lastNotified[key])
              || (after[key] == at && exists i :: 0 <= i < |results| && KeyFor(env, results[i].0.key) == key)
    decreases |results|
  {
    if results != [] {
      var rest := results[1..];
      var next := Captured(env.cfg.repeatPerChannel, marks, state, at, results[0].0, results[0].1);
      assert next.lastNotified == marks.lastNotified[KeyFor(env, results[0].0.key) := at];
      hide Captured;
      CapturedFrom(env, next, state, at, rest, key);
      assert forall i :: 0 <= i < |rest| ==> rest[i] == results[i + 1];
    }
  }

  /** A notification that succeeds delivers on the routes it does not skip, and its time is remembered. */
  lemma DispatchedDelivers(env: Env, s: Slice, state: AlertState, now: Instant, routes: seq<Route>, from: nat)
    requires Working(env) && s.rt.Some? && from <= |s.log| && Exact(env, s, from)
    requires Dispatched(env.cfg, env.world, env.rule, env.id, s, state, now, routes).1
    ensures var t := Dispatched(env.cfg, env.world, env.rule, env.id, s, state, now, routes).0;
            && Delivers(s.log, t.log, Sendable(routes, SliceMarks(s), state), now)
            && Exact(env, t, from) && t.rt.Some? && |s.log| <= |t.log|
  {
    hide SendAll, CapturedAll, WithRefs, RefUpdates, Sendable;
    SendAllDelivers(env.world, env.id, routes, SliceMarks(s), state, now, s.log);
    SentLog(env.world, env.id, routes, SliceMarks(s), state, now, s.log);
    var batch := SendAll(env.world, env.id, routes, SliceMarks(s), state, now, s.log);
    var t := Dispatched(env.cfg, env.world, env.rule, env.id, s, state, now, routes).0;
    assert forall i :: 0 <= i < |s.log| ==> t.log[..|s.log|][i] == t.log[i];
    forall key | key in SliceMarks(t).lastNotified
      ensures exists i :: from <= i < |t.log| && t.log[i].Delivered? && KeyFor(env, t.log[i].key) == key
                          && t.log[i].at == SliceMarks(t).lastNotified[key]
    {
      CapturedFrom(env, SliceMarks(s), state, now, batch.results, key);
      if key in SliceMarks(s).lastNotified && SliceMarks(t).lastNotified[key] == SliceMarks(s).lastNotified[key] {
        var i :| from <= i < |s.log| && s.log[i].Delivered? && KeyFor(env, s.log[i].key) == key
                 && s.log[i].at == SliceMarks(s).lastNotified[key];
        assert t.log[i] == s.log[i];
      } else {
        var i :| 0 <= i < |batch.results| && KeyFor(env, batch.results[i].0.key) == key;
        assert t.log[|s.log| + i].key == batch.results[i].0.key;
      }
    }
  }

  // ---------------------------------------------------------------------------
  // Repeats.

  /** The engine's marks say the same as the log: a repeat is due exactly when no delivery is too young. */
  lemma DueIsNotYoung(env: Env, s: Slice, from: nat, key: string, before: Time, now: Instant)
    requires Remembered(env, s, from, before) && before <= now && Exact(env, s, from)
    ensures RepeatDue(env.cfg, env.rule, SliceMarks(s), KeyFor(env, key), now) <==> !Young(env, s.log, from, key, now)
  {
    var own := KeyFor(env, key);
    var marks := SliceMarks(s).lastNotified;
    if Young(env, s.log, from, key, now) {
      var j :| from <= j < |s.log| && s.log[j].Delivered? && (env.cfg.repeatPerChannel ==> s.log[j].key == key)
               && now - s.log[j].at < Interval(env);
      assert KeyFor(env, s.log[j].key) == own && own in marks && s.log[j].at <= marks[own];
    }
    if own in marks {
      var i :| from <= i < |s.log| && s.log[i].Delivered? && KeyFor(env, s.log[i].key) == own && s.log[i].at == marks[own];
    }
  }

  /** A delivery on another key makes no route younger. */
  lemma {:induction false} DueUnmoved(env: Env, log: seq<Entry>, longer: seq<Entry>, from: nat, routes: seq<Route>, at: Time, key: string)
    requires env.cfg.repeatPerChannel && !HasKey(routes, key) && |log| <= |longer| && longer[..|log|] == log
    requires forall i :: |log| <= i < |longer| ==> longer[i].key == key
    ensures Due(env, longer, from, routes, at) == Due(env, log, from, routes, at)
    decreases |routes|
  {
    if routes != [] {
      assert forall i :: 0 <= i < |routes[1..]| ==> routes[1..][i] == routes[i + 1];
      DueUnmoved(env, log, longer, from, routes[1..], at, key);
      assert routes[0].key != key;
      assert forall i :: 0 <= i < |log| ==> longer[..|log|][i] == longer[i];
    }
  }

  lemma {:induction false} RepeatRoutesDeliver(env: Env, s: Slice, now: Instant, routes: seq<Route>, from: nat)
    requires Working(env) && env.cfg.repeatPerChannel && DistinctKeys(routes)
    requires Remembered(env, s, from, now) && s.rt.Some? && Exact(env, s, from)
    ensures var t := RepeatRoutes(env.cfg, env.world, env.rule, env.id, s, now, routes);
            && Delivers(s.log, t.log, Due(env, s.log, from, routes, now), now) && Exact(env, t, from)
            && L.StateOf(t.rt) == L.StateOf(s.rt)
    decreases |routes|
  {
    hide Dispatched, Remembered, RepeatDue, Exact, Young;
    RememberedFrom(env, s, from, now);
    if routes != [] {
      var rest := routes[1..];
      assert !HasKey(rest, routes[0].key) && DistinctKeys(rest) by {
        assert forall i :: 0 <= i < |rest| ==> rest[i] == routes[i + 1];
      }
      DueIsNotYoung(env, s, from, routes[0].key, now, now);
      if RepeatDue(env.cfg, env.rule, SliceMarks(s), routes[0].key, now) {
        var next := Dispatched(env.cfg, env.world, env.rule, env.id, s, Firing, now, [routes[0]]).0;
        RepeatSucceeds(env, s, now, [routes[0]]);
        DispatchedKeeps(env, s, Firing, now, [routes[0]]);
        DispatchedRemembers(env, s, Firing, now, [routes[0]], from, now);
        DispatchedDelivers(env, s, Firing, now, [routes[0]], from);
        FiringSkipsNothing([routes[0]], SliceMarks(s));
        assert forall i :: |s.log| <= i < |next.log| ==> next.log[i].key == routes[0].key;
        DueUnmoved(env, s.log, next.log, from, rest, now, routes[0].key);
        RepeatRoutesDeliver(env, next, now, rest, from);
        var t := RepeatRoutes(env.cfg, env.world, env.rule, env.id, next, now, rest);
        DeliversBoth(s.log, next.log, t.log, [routes[0]], Due(env, s.log, from, rest, now), now);
      } else {
        RepeatRoutesDeliver(env, s, now, rest, from);
        assert [] + Due(env, s.log, from, rest, now) == Due(env, s.log, from, rest, now);
      }
    }
  }

  lemma RememberedFrom(env: Env, s: Slice, from: nat, now: Time)
    ensures Remembered(env, s, from, now) ==> from <= |s.log|
  {
  }

  /** With one key for all routes they are due together. */
  lemma {:induction false} AllDue(env: Env, log: seq<Entry>, from: nat, routes: seq<Route>, at: Time, key: string)
    requires !env.cfg.repeatPerChannel
    ensures Due(env, log, from, routes, at) == if Young(env, log, from, key, at) then [] else routes
    decreases |routes|
  {
    if routes != [] {
      AllDue(env, log, from, routes[1..], at, key);
      assert Young(env, log, from, routes[0].key, at) <==> Young(env, log, from, key, at);
    }
  }

  lemma RepeatedDelivers(env: Env, s: Slice, now: Instant, from: nat)
    requires Working(env) && Remembered(env, s, from, now) && s.rt.Some? && Exact(env, s, from)
    ensures var t := Repeated(env.cfg, env.world, env.rule, env.id, s, now);
            && Delivers(s.log, t.log, if SwitchedOn(env) then Due(env, s.log, from, env.rule.routes, now) else [], now)
            && Exact(env, t, from) && L.StateOf(t.rt) == L.StateOf(s.rt)
  {
    hide Dispatched, RepeatDue, Remembered, Exact, Young;
    RememberedFrom(env, s, from, now);
    DispatchedKeeps(env, s, Firing, now, env.rule.routes);
    if env.cfg.repeatPerChannel {
      RepeatRoutesDeliver(env, s, now, env.rule.routes, from);
    } else {
      AllDue(env, s.log, from, env.rule.routes, now, "");
      DueIsNotYoung(env, s, from, "", now, now);
      if RepeatDue(env.cfg, env.rule, SliceMarks(s), GLOBAL_KEY, now) {
        RepeatSucceeds(env, s, now, env.rule.routes);
        DispatchedDelivers(env, s, Firing, now, env.rule.routes, from);
        FiringSkipsNothing(env.rule.routes, SliceMarks(s));
      }
    }
  }

  // ---------------------------------------------------------------------------
  // One operation.

  ghost predicate AllThreaded(env: Env, s: Slice) {
    forall route :: route in env.rule.routes && ThreadRoute(route) ==> Threaded(env, s, route.key)
  }

  /** What holds before an operation. */
  ghost predicate Settled(env: Env, s: Slice, from: nat, before: Time) {
    && Synced(env, s, before) && MessagesLive(env, s) && AllThreaded(env, s)
    && Remembered(env, s, from, before) && Exact(env, s, from)
  }

  /** The routes of the notification that a decision makes. */
  function Told(env: Env, was: AlertState, d: Decision): seq<Route> {
    if !d.stateChanged || d.state == Pending then []
    else if d.state == Resolved && was != Firing then Untied(env.rule.routes)
    else env.rule.routes
  }

  /** When a firing alert resolves, every route has the reference it needs. */
  lemma FiringKnows(env: Env, s: Slice, marks: Marks)
    requires MessagesLive(env, s) && AllThreaded(env, s) && L.StateOf(s.rt) == Firing && marks.refs == SliceMarks(s).refs
    ensures Sendable(env.rule.routes, marks, Resolved) == env.rule.routes
  {
    hide LiveOf, ThreadOf, On, Made;
    forall i | 0 <= i < |env.rule.routes| && (env.rule.routes[i].mode == ActiveOnly || env.rule.routes[i].channel == Mattermost)
      ensures StoredRef(marks, env.rule.routes[i].key).Some?
    {
      var route := env.rule.routes[i];
      assert StoredRef(marks, route.key) == StoredRef(SliceMarks(s), route.key);
      assert route in env.rule.routes;
      if route.mode == ActiveOnly {
        assert OwnsMessage(route);
      } else {
        assert ThreadRoute(route) && Threaded(env, s, route.key);
      }
    }
    KnownSkipsNothing(env.rule.routes, marks);
  }

  /** The closing notification of an open alert. */
  lemma ClosingDelivers(env: Env, s: Slice, stored: Slice, now: Instant, from: nat)
    requires Working(env) && MessagesLive(env, s) && AllThreaded(env, s) && Mirrored(s.rt, s.card) && IsActive(L.StateOf(s.rt))
    requires stored.rt.Some? && stored.log == s.log && SliceMarks(stored) == SliceMarks(s) && from <= |s.log| && Exact(env, stored, from)
    requires Dispatched(env.cfg, env.world, env.rule, env.id, stored, Resolved, now, env.rule.routes).1
    ensures Delivers(s.log, Dispatched(env.cfg, env.world, env.rule, env.id, stored, Resolved, now, env.rule.routes).0.log,
                     if L.StateOf(s.rt) == Firing then env.rule.routes else Untied(env.rule.routes), now)
  {
    hide Dispatched, Sendable, Exact, MessagesLive, AllThreaded;
    DispatchedDelivers(env, stored, Resolved, now, env.rule.routes, from);
    if L.StateOf(s.rt) == Firing {
      FiringKnows(env, s, SliceMarks(stored));
    } else {
      UnknownSkipsTied(env.rule.routes);
    }
  }

  lemma ExactMoves(env: Env, s: Slice, t: Slice, from: nat)
    requires Exact(env, s, from) && t.log == s.log && SliceMarks(t).lastNotified == SliceMarks(s).lastNotified
    ensures Exact(env, t, from)
  {
  }

  lemma NothingExact(env: Env, s: Slice, from: nat)
    ensures s.rt.None? ==> Exact(env, s, from)
  {
  }

  lemma SettledFrom(env: Env, s: Slice, from: nat, before: Time)
    ensures Settled(env, s, from, before) ==> from <= |s.log|
  {
  }

  lemma AnnouncedDelivers(env: Env, s: Slice, stored: Slice, d: Decision, now: Instant, from: nat, before: Time)
    requires Working(env) && Settled(env, s, from, before) && L.StateOf(s.rt) != Resolved
    requires stored.rt.Some? && stored.log == s.log && SliceMarks(stored) == SliceMarks(s) && Exact(env, stored, from)
    requires d.stateChanged && Decides(L.StateOf(s.rt), RaisedAt(s.rt), stored.rt.value, d, now)
    ensures var (t, ok) := Announced(env.cfg, env.world, env.rule, env.id, stored, d, now, true);
            ok ==>
              && Delivers(s.log, t.log, Told(env, L.StateOf(s.rt), d), now) && Exact(env, t, from)
              && t.rt == if d.state == Resolved then None else Some(stored.rt.value.(marks := SliceMarks(t)))
  {
    hide Dispatched, Exact, Sendable, MessagesLive, AllThreaded, Remembered, LiveOf;
    SettledFrom(env, s, from, before);
    var (t, ok) := Announced(env.cfg, env.world, env.rule, env.id, stored, d, now, true);
    NothingExact(env, t, from);
    if d.state == Firing && ok {
      DispatchedDelivers(env, stored, Firing, now, env.rule.routes, from);
      DispatchedKeeps(env, stored, Firing, now, env.rule.routes);
      FiringSkipsNothing(env.rule.routes, SliceMarks(stored));
    } else if d.state == Resolved && ok {
      ClosingDelivers(env, s, stored, now, from);
    }
  }

  lemma AppliedDelivers(env: Env, s: Slice, rt: Rt, d: Decision, now: Instant, from: nat, before: Time)
    requires ValidRule(env.rule) && Favourable(env) && Settled(env, s, from, before) && before <= now && Moves(env, s.rt, rt, d, now)
    ensures var (t, ok) := Applied(env.cfg, env.world, env.rule, env.id, s.(rt := Some(rt)), d, now, false);
            && ok && Delivers(s.log, t.log, Told(env, L.StateOf(s.rt), d), now) && Exact(env, t, from)
            && L.StateOf(t.rt) == rt.state
  {
    hide Persisted, Announced, Working, MessagesLive, AllThreaded, Remembered, Exact;
    AppliedMessages(env, s, rt, d, now, before);
    var moved := s.(rt := Some(rt));
    assert SliceMarks(moved) == SliceMarks(s);
    var ticked := if d.shouldStore && d.state != Resolved then Refreshed(moved, false, now, ResolveTimeout(env.rule)) else moved;
    assert ticked == moved.(tick := ticked.tick);
    ExactMoves(env, s, ticked, from);
    if d.stateChanged {
      PersistedMirrors(env, ticked.(rt := s.rt), rt, d, now);
      assert ticked.(rt := s.rt).(rt := Some(rt)) == ticked;
      PersistedKeepsLog(env, ticked, d, now);
      var stored := Persisted(env.rule, env.id, ticked, d, now).0;
      ExactMoves(env, s, stored, from);
      AnnouncedDelivers(env, s, stored, d, now, from, before);
    } else if d.shouldStore {
      AnnouncedQuiet(env, ticked, d, now);
    }
  }

  /** What the theorem says of one operation. */
  ghost predicate AsExpected(env: Env, s: Slice, op: SliceOp, t: Slice, from: nat) {
    Delivers(s.log, t.log, Expected(env, s, op, t, from), op.at) && Exact(env, t, from)
  }

  lemma EventDelivers(env: Env, s: Slice, event: Event, now: Instant, from: nat, before: Time)
    requires ValidRule(env.rule) && Favourable(env) && ValidEvent(event) && Settled(env, s, from, before) && before <= now
    ensures AsExpected(env, s, Arrive(event, now), EventFlow(env.cfg, env.world, env.rule, env.id, s, event, now, false).0, from)
  {
    hide EventStep, Applied, Working, MessagesLive, AllThreaded, Remembered, Exact, Due, Untied;
    EventMoves(env, s.rt, event, now, before);
    var (rt, d) := EventStep(env.rule, s.rt, env.id, event, now);
    AppliedDelivers(env, s, rt, d, now, from, before);
  }

  /** When a tick reports the alert. */
  lemma ReportedIff(env: Env, rt: Rt, now: Instant, before: Time)
    requires ValidRule(env.rule) && L.RtInv(SetupOf(env), rt, before) && before <= now
    ensures var r := TickOf(env.rule, rt, now);
            && (r.firing <==> rt.state == Firing && r.rt.state == Firing && Reported(env, rt, now))
            && (r.firing ==> r.decision.Some? ==> !r.decision.value.stateChanged)
  {
  }

  lemma TickDelivers(env: Env, s: Slice, now: Instant, from: nat, before: Time)
    requires ValidRule(env.rule) && Favourable(env) && Settled(env, s, from, before) && before <= now
    requires s.rt.None? ==> from == |s.log|
    ensures AsExpected(env, s, Tick(now), TickFlow(env.cfg, env.world, env.rule, env.id, s, now).0, from)
  {
    hide TickOf, Applied, Working, MessagesLive, AllThreaded, Remembered, Exact, Due, Untied, Repeated;
    if s.rt.Some? {
      TickMoves(env, s.rt.value, now, before);
      ReportedIff(env, s.rt.value, now, before);
      var r := TickOf(env.rule, s.rt.value, now);
      var d := if r.decision.Some? then r.decision.value else NO_DECISION;
      AppliedDelivers(env, s, r.rt, d, now, from, before);
      NothingDecided(env, s.(rt := Some(r.rt)), now);
      var decided := TickDecided(env.cfg, env.world, env.rule, env.id, s, now).0;
      if r.firing {
        TickDecidedFollows(env, s, now, from, before);
        TickDecidedSyncs(env, s, now, before);
        assert decided.log == s.log;
        RepeatedDelivers(env, decided, now, from);
      }
    }
  }

  lemma ExpiryDelivers(env: Env, s: Slice, reason: string, looks: Looks, now: Instant, from: nat, before: Time)
    requires Favourable(env) && Settled(env, s, from, before)
    ensures AsExpected(env, s, Expire(reason, looks, now), ExpiryFlow(env.cfg, env.world, env.rule, env.id, s, reason, looks, now), from)
  {
    hide Dispatched, StoredRef, LiveOf, Working, Remembered, Exact, Due, Untied, AllThreaded;
    var t := ExpiryFlow(env.cfg, env.world, env.rule, env.id, s, reason, looks, now);
    SettledFrom(env, s, from, before);
    NothingExact(env, t, from);
    ExactMoves(env, s, s.(tick := None), from);
    if !Ticking(s.tick, looks) && s.card.Some? {
      var expired := ExpiredCard(s.card.value.card, reason, now);
      var stored := s.(tick := None, card := Some(VersionedCard(expired, s.card.value.revision + 1)),
                       rt := SeededRt(s.rt, expired.externalRefs));
      SeedingEqual(s.rt.value.marks.refs);
      assert stored.rt == s.rt;
      forall r | r in env.rule.routes && IsTracker(r.channel) ensures StoredRef(SliceMarks(stored), r.key).Some? {
        assert OwnsMessage(r) && !env.rule.pendingEnabled;
      }
      ResolvedRemovesMessages(env, stored, now);
      ExactMoves(env, s, stored, from);
      ClosingDelivers(env, s, stored, now, from);
    }
  }

  lemma DidDelivers(env: Env, s: Slice, op: SliceOp, from: nat, before: Time)
    requires ValidRule(env.rule) && Favourable(env) && Settled(env, s, from, before) && Timely(op, before)
    requires s.rt.None? ==> from == |s.log|
    ensures AsExpected(env, s, op, Did(env, s, op).0, from)
  {
    hide EventFlow, TickFlow, ExpiryFlow, Working, Settled, Exact, Due, Untied;
    match op
    case Arrive(event, at) => EventDelivers(env, s, event, at, from, before);
    case Tick(at) => TickDelivers(env, s, at, from, before);
    case Evict(at) => EvictionDelivers(env, s, at, from, before);
    case Expire(reason, looks, at) => ExpiryDelivers(env, s, reason, looks, at, from, before);
  }

  lemma EvictionDelivers(env: Env, s: Slice, at: Instant, from: nat, before: Time)
    requires Settled(env, s, from, before)
    ensures AsExpected(env, s, Evict(at), if MayEvict(s) then Evicted(s) else s, from)
  {
    hide Synced, MessagesLive, AllThreaded, Remembered;
  }

  // ---------------------------------------------------------------------------
  // Runs.

  lemma {:induction false} RunIsSettled(env: Env, ops: seq<SliceOp>)
    requires ValidRule(env.rule) && Favourable(env) && WellTimed(ops)
    ensures Settled(env, After(env, ops), EpisodeStart(env, ops), LastTime(ops)) && AllOk(env, ops)
    ensures After(env, ops).rt.None? ==> EpisodeStart(env, ops) == |After(env, ops).log|
  {
    hide Did, Working, Synced, MessagesLive, Threaded, Exact, Remembered, Expected;
    var t := After(env, ops);
    MessagesFollowAlerts(env, ops);
    forall route | route in env.rule.routes && ThreadRoute(route) ensures Threaded(env, t, route.key) {
      RunThreads(env, ops, route);
    }
    if ops != [] {
      var prefix := ops[..|ops| - 1];
      RunIsSettled(env, prefix);
      DidMessages(env, After(env, prefix), ops[|ops| - 1], LastTime(prefix));
      DidDelivers(env, After(env, prefix), ops[|ops| - 1], EpisodeStart(env, prefix), LastTime(prefix));
    }
    FavourableIsReliable(env);
    RunRemembers(env, ops);
    NothingExact(env, t, EpisodeStart(env, ops));
  }

  lemma FavourableIsReliable(env: Env)
    requires Favourable(env)
    ensures Reliable(env.world)
  {
  }

  /** Main result on deliveries: over any run, the log grows at each operation by exactly one delivery on each route
      that it should. An opening and the close of a firing alert go out on every route, the close of a pending one
      on the routes that need no message, and a tick that reports a firing alert repeats it exactly when repeats are
      switched on, on exactly the routes without a delivery younger than the interval. Nothing else is sent. */
  lemma DeliversExactly(env: Env, ops: seq<SliceOp>)
    requires ValidRule(env.rule) && Favourable(env) && WellTimed(ops) && ops != []
    ensures var prefix, op := ops[..|ops| - 1], ops[|ops| - 1];
            var s, t := After(env, prefix), After(env, ops);
            Delivers(s.log, t.log, Expected(env, s, op, t, EpisodeStart(env, prefix)), op.at)
  {
    hide Did, Working, Settled, Expected, Delivers, Exact;
    var prefix := ops[..|ops| - 1];
    RunIsSettled(env, prefix);
    DidDelivers(env, After(env, prefix), ops[|ops| - 1], EpisodeStart(env, prefix), LastTime(prefix));
  }

  // ---------------------------------------------------------------------------
  // Cards that were left by a restart.

  /** A decision to fire is announced on every route, unless the card already fires. */
  lemma FiringAnnounced(env: Env, s: Slice, d: Decision, now: Instant)
    requires Working(env) && s.rt.Some? && d.state == Firing && d.stateChanged && d.shouldStore && d.shouldNotify
    ensures var t := Applied(env.cfg, env.world, env.rule, env.id, s, d, now, false).0;
            && Delivers(s.log, t.log, if s.card.Some? && s.card.value.card.state == Firing then [] else env.rule.routes, now)
            && L.StateOf(t.rt) == L.StateOf(s.rt)
  {
    hide Dispatched, NewCard, UpdatedCard, Seeded, Working;
    var ticked := Refreshed(s, false, now, ResolveTimeout(env.rule));
    var stored := Persisted(env.rule, env.id, ticked, d, now).0;
    FiringDelivers(env, stored, now);
    DispatchedKeeps(env, stored, Firing, now, env.rule.routes);
  }

  lemma FiringDelivers(env: Env, s: Slice, now: Instant)
    requires Working(env)
    ensures Delivers(s.log, Dispatched(env.cfg, env.world, env.rule, env.id, s, Firing, now, env.rule.routes).0.log, env.rule.routes, now)
  {
    hide SendAll, CapturedAll, WithRefs, RefUpdates;
    FailsIffBlocked(env.world, env.id, env.rule.routes, SliceMarks(s), Firing, now, s.log);
    SendAllDelivers(env.world, env.id, env.rule.routes, SliceMarks(s), Firing, now, s.log);
    FiringSkipsNothing(env.rule.routes, SliceMarks(s));
  }

  /** Another decision leaves the state that the engine moved to, or none. */
  lemma OtherwiseKept(env: Env, s: Slice, d: Decision, now: Instant)
    ensures var t := Applied(env.cfg, env.world, env.rule, env.id, s, d, now, false).0;
            t.rt.Some? ==> s.rt.Some? && t.rt.value.state == s.rt.value.state
  {
    hide Dispatched, NewCard, UpdatedCard, Seeded;
    if s.rt.Some? {
      var ticked := if d.shouldStore && d.state != Resolved then Refreshed(s, false, now, ResolveTimeout(env.rule)) else s;
      var stored := if d.stateChanged then Persisted(env.rule, env.id, ticked, d, now).0 else ticked;
      DispatchedKeeps(env, stored, d.state, now, env.rule.routes);
    }
  }

  predicate FiresNow(was: AlertState, now: AlertState, d: Decision) {
    was != Firing && now == Firing ==> d.state == Firing && d.stateChanged && d.shouldStore && d.shouldNotify
  }

  lemma EventFires(rule: Rule, slot: Option<Rt>, id: AlertId, event: Event, now: Instant)
    ensures var (rt, d) := EventStep(rule, slot, id, event, now);
            FiresNow(L.StateOf(slot), rt.state, d)
  {
    hide PruneWindow;
  }

  lemma TickFires(rule: Rule, rt: Rt, now: Instant)
    ensures var r := TickOf(rule, rt, now);
            && FiresNow(rt.state, r.rt.state, if r.decision.Some? then r.decision.value else NO_DECISION)
            && (r.firing ==> rt.state == Firing)
  {
  }

  /** Whatever the service holds, also after a restart that lost the engine's state: an alert that starts firing is
      announced on every route exactly unless its card was firing already. */
  lemma AnnouncedUnlessOnCard(env: Env, s: Slice, op: SliceOp)
    requires Working(env) && (op.Arrive? || op.Tick?)
    ensures var t := Did(env, s, op).0;
            L.StateOf(s.rt) != Firing && L.StateOf(t.rt) == Firing ==>
              Delivers(s.log, t.log, if s.card.Some? && s.card.value.card.state == Firing then [] else env.rule.routes, op.at)
  {
    hide EventStep, TickOf, Applied, Repeated, Working;
    match op
    case Arrive(event, at) =>
      EventFires(env.rule, s.rt, env.id, event, at);
      var (rt, d) := EventStep(env.rule, s.rt, env.id, event, at);
      var moved := s.(rt := Some(rt));
      OtherwiseKept(env, moved, d, at);
      if L.StateOf(s.rt) != Firing && rt.state == Firing {
        FiringAnnounced(env, moved, d, at);
      }
    case Tick(at) =>
      if s.rt.Some? {
        TickFires(env.rule, s.rt.value, at);
        var r := TickOf(env.rule, s.rt.value, at);
        var moved := s.(rt := Some(r.rt));
        if r.decision.Some? {
          OtherwiseKept(env, moved, r.decision.value, at);
          if L.StateOf(s.rt) != Firing && r.rt.state == Firing {
            FiringAnnounced(env, moved, r.decision.value, at);
          }
        }
      }
  }

  // ---------------------------------------------------------------------------
  // Off hours and failing routes.

  /** Whatever else happens, no operation delivers at a minute when notifications are off. */
  lemma SilentWhenOff(env: Env, s: Slice, op: SliceOp)
    requires OffActive(env.rule.off, env.world.localMinute(op.at))
    ensures Did(env, s, op).0.log == s.log
  {
    hide EventStep, TickOf, NewCard, UpdatedCard, Seeded, OffActive, RepeatRoutes, RepeatDue;
    forall x: Slice, state: AlertState, routes: seq<Route>
      ensures Dispatched(env.cfg, env.world, env.rule, env.id, x, state, op.at, routes) == (x, true)
    {
    }
    hide Dispatched;
    forall x: Slice ensures RepeatRoutes(env.cfg, env.world, env.rule, env.id, x, op.at, env.rule.routes) == x {
      SilentRepeats(env, x, op.at, env.rule.routes);
    }
  }

  lemma {:induction false} SilentRepeats(env: Env, s: Slice, now: Instant, routes: seq<Route>)
    requires OffActive(env.rule.off, env.world.localMinute(now))
    ensures RepeatRoutes(env.cfg, env.world, env.rule, env.id, s, now, routes) == s
    decreases |routes|
  {
    hide OffActive, RepeatDue;
    if routes != [] {
      SilentRepeats(env, s, now, routes[1..]);
    }
  }

  /** The log grew, and one of the new entries, delivered or rejected, is on the key. */
  ghost predicate Asked(log: seq<Entry>, longer: seq<Entry>, key: string) {
    |log| <= |longer| && exists i :: |log| <= i < |longer| && longer[i].key == key
  }

  /** The engine remembers no delivery on the key, or one that is old enough. */
  predicate Aged(env: Env, marks: Marks, key: string, at: Time) {
    key !in marks.lastNotified || marks.lastNotified[key] == ZERO_TIME || at - marks.lastNotified[key] >= Interval(env)
  }

  /** A firing notification over one route asks that route once, whatever comes of it. */
  lemma OneRouteAsked(env: Env, s: Slice, now: Instant, route: Route)
    requires !OffActive(env.rule.off, env.world.localMinute(now)) && s.rt.Some? && env.cfg.repeatPerChannel
    ensures var t := Dispatched(env.cfg, env.world, env.rule, env.id, s, Firing, now, [route]).0;
            && |t.log| == |s.log| + 1 && t.log[..|s.log|] == s.log && t.log[|s.log|].key == route.key && t.rt.Some?
            && forall key :: key != route.key ==> Lookup(SliceMarks(t).lastNotified, key) == Lookup(SliceMarks(s).lastNotified, key)
  {
    var marks := SliceMarks(s);
    assert !Skips(marks, route, Firing);
    hide SendOn, OffActive, WithRefs, RefUpdates, Skips, StoredRef;
    var sent := SendOn(route, marks, Firing, env.world.reply(env.id, |s.log|));
    var batch := SendAll(env.world, env.id, [route], marks, Firing, now, s.log);
    assert [route][1..] == [];
    if sent.Some? {
      var longer := s.log + [Delivered(route.key, now, sent.value.0)];
      assert SendAll(env.world, env.id, [], marks, Firing, now, longer) == Batch(longer, [], true);
      var results := [(route, sent.value.1)];
      assert batch == Batch(longer, results, true);
      assert results[1..] == [];
      assert CapturedAll(true, marks, Firing, now, results) == CapturedAll(true, Captured(true, marks, Firing, now, route, sent.value.1), Firing, now, []);
    } else {
      assert batch == Batch(s.log + [Rejected(route.key, now)], [], false);
    }
  }

  lemma {:induction false} RoutesAsked(env: Env, s: Slice, now: Instant, routes: seq<Route>, key: string)
    requires !OffActive(env.rule.off, env.world.localMinute(now)) && s.rt.Some? && env.cfg.repeatPerChannel && DistinctKeys(routes)
    ensures var t := RepeatRoutes(env.cfg, env.world, env.rule, env.id, s, now, routes);
            && |s.log| <= |t.log| && t.log[..|s.log|] == s.log
            && (Asked(s.log, t.log, key) <==> HasKey(routes, key) && Aged(env, SliceMarks(s), key, now))
    decreases |routes|
  {
    hide Dispatched, OffActive;
    if routes != [] {
      var rest := routes[1..];
      assert DistinctKeys(rest) && (HasKey(routes, key) <==> routes[0].key == key || HasKey(rest, key)) by {
        assert forall i :: 0 <= i < |rest| ==> rest[i] == routes[i + 1];
      }
      assert routes[0].key == key ==> !HasKey(rest, key);
      var next := s;
      if RepeatDue(env.cfg, env.rule, SliceMarks(s), routes[0].key, now) {
        OneRouteAsked(env, s, now, routes[0]);
        next := Dispatched(env.cfg, env.world, env.rule, env.id, s, Firing, now, [routes[0]]).0;
        assert key != routes[0].key ==> Lookup(SliceMarks(next).lastNotified, key) == Lookup(SliceMarks(s).lastNotified, key);
        assert key != routes[0].key ==> (Aged(env, SliceMarks(next), key, now) <==> Aged(env, SliceMarks(s), key, now));
      }
      RoutesAsked(env, next, now, rest, key);
      var t := RepeatRoutes(env.cfg, env.world, env.rule, env.id, next, now, rest);
      assert t.log[..|s.log|] == t.log[..|next.log|][..|s.log|];
      assert forall i :: 0 <= i < |next.log| ==> t.log[..|next.log|][i] == t.log[i];
    }
  }

  /** With a key per channel, a tick that reports a firing alert asks exactly the routes that are due, and a
      transport that fails does not keep the others from being asked. */
  lemma FailingRoutesStopNone(env: Env, s: Slice, now: Instant, before: Time, route: Route)
    requires ValidRule(env.rule) && Synced(env, s, before) && before <= now && DistinctKeys(env.rule.routes)
    requires !OffActive(env.rule.off, env.world.localMinute(now)) && env.cfg.repeatPerChannel && SwitchedOn(env)
    requires L.StateOf(s.rt) == Firing && Reported(env, s.rt.value, now) && route in env.rule.routes
    ensures var t := Did(env, s, Tick(now)).0;
            L.StateOf(t.rt) == Firing ==> (Asked(s.log, t.log, route.key) <==> Aged(env, SliceMarks(s), route.key, now))
  {
    hide TickOf, Applied, RepeatRoutes, OffActive;
    TickMoves(env, s.rt.value, now, before);
    ReportedIff(env, s.rt.value, now, before);
    var r := TickOf(env.rule, s.rt.value, now);
    var d := if r.decision.Some? then r.decision.value else NO_DECISION;
    var moved := s.(rt := Some(r.rt));
    TickDecidedSyncs(env, s, now, before);
    var i :| 0 <= i < |env.rule.routes| && env.rule.routes[i] == route;
    if r.firing {
      KeptOnlyTicks(env, moved, d, now);
      NothingDecided(env, moved, now);
      var decided := TickDecided(env.cfg, env.world, env.rule, env.id, s, now).0;
      assert decided.log == s.log && SliceMarks(decided) == SliceMarks(s) && decided.rt.Some?;
      RoutesAsked(env, decided, now, env.rule.routes, route.key);
    } else {
      ResolvedIsIdle(env, moved, d, now);
    }
  }

  lemma ResolvedIsIdle(env: Env, s: Slice, d: Decision, now: Instant)
    requires L.StateOf(s.rt) == Idle
    ensures L.StateOf(Applied(env.cfg, env.world, env.rule, env.id, s, d, now, false).0.rt) == Idle
  {
    hide Dispatched, NewCard, UpdatedCard, Seeded;
    if s.rt.Some? {
      var ticked := if d.shouldStore && d.state != Resolved then Refreshed(s, false, now, ResolveTimeout(env.rule)) else s;
      var stored := if d.stateChanged then Persisted(env.rule, env.id, ticked, d, now).0 else ticked;
      DispatchedKeeps(env, stored, d.state, now, env.rule.routes);
    }
  }

  lemma KeptOnlyTicks(env: Env, s: Slice, d: Decision, now: Instant)
    requires !d.stateChanged && !d.shouldNotify && d.state != Resolved
    ensures var t := Applied(env.cfg, env.world, env.rule, env.id, s, d, now, false).0;
            t == s.(tick := t.tick)
  {
  }
}
