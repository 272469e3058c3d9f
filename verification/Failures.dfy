/** Where the copies part: what a failed delivery, a restart or a repeat leaves behind. */
module Failures {
  import opened Domain
  import opened EngineSpec
  import opened Cards
  import opened OffWindows
  import opened Delivery
  import opened AlertFlow
  import opened AlertRuns
  import opened Messages
  import opened Service
  import L = Lifecycle

  // ---------------------------------------------------------------------------
  // A tick that stops loses the decisions it has not applied.

  /** The tick changes the alert's state. */
  predicate ChangesAt(rule: Rule, s: Slice, now: Instant) {
    s.rt.Some? && var d := TickOf(rule, s.rt.value, now).decision; d.Some? && d.value.stateChanged
  }

  /** A resolved notification fails on some route: its transport does, or a tracker has no issue to resolve. Routes
      that are skipped are not asked; `n` deliveries came before. */
  predicate Refuses(world: World, id: AlertId, routes: seq<Route>, marks: Marks, n: nat) {
    routes != [] &&
    if Skips(marks, routes[0], Resolved) then Refuses(world, id, routes[1..], marks, n)
    else
      || world.reply(id, n).Failed? || (IsTracker(routes[0].channel) && StoredRef(marks, routes[0].key) == None)
      || Refuses(world, id, routes[1..], marks, n + 1)
  }

  lemma {:induction false} ResolvedFailsIff(world: World, id: AlertId, routes: seq<Route>, marks: Marks, at: Time, log: seq<Entry>)
    ensures SendAll(world, id, routes, marks, Resolved, at, log).ok <==> !Refuses(world, id, routes, marks, |log|)
    decreases |routes|
  {
    if routes != [] {
      ResolvedSendFailsIff(routes[0], marks, world.reply(id, |log|));
      hide SendOn, Skips;
      var sent := SendOn(routes[0], marks, Resolved, world.reply(id, |log|));
      if Skips(marks, routes[0], Resolved) {
        ResolvedFailsIff(world, id, routes[1..], marks, at, log);
      } else if sent.Some? {
        ResolvedFailsIff(world, id, routes[1..], marks, at, log + [Delivered(routes[0].key, at, sent.value.0)]);
      }
    }
  }

  lemma ResolvedSendFailsIff(route: Route, marks: Marks, reply: Reply)
    ensures !Skips(marks, route, Resolved) ==>
              (SendOn(route, marks, Resolved, reply) == None <==>
               reply.Failed? || (IsTracker(route.channel) && StoredRef(marks, route.key) == None))
  {
  }

  /** The tick resolves the alert, and the notification of that fails. */
  ghost predicate FailsToResolve(env: Env, s: Slice, now: Instant) {
    && s.rt.Some? && var d := TickOf(env.rule, s.rt.value, now).decision;
       && d.Some? && d.value.stateChanged && d.value.state == Resolved
       && !OffActive(env.rule.off, env.world.localMinute(now))
       && Refuses(env.world, env.id, env.rule.routes, SliceMarks(s), |s.log|)
  }

  /** A tick leaves a resolved card behind exactly when it resolves the alert and a route refuses. */
  lemma SticksIff(env: Env, s: Slice, now: Instant, from: Time)
    requires ValidRule(env.rule) && Synced(env, s, from) && from <= now
    ensures Stuck(TickDecided(env.cfg, env.world, env.rule, env.id, s, now).0) <==> FailsToResolve(env, s, now)
  {
    hide TickOf, Persisted, SendAll, CapturedAll, WithRefs, RefUpdates, Refuses;
    TickDecidedSyncs(env, s, now, from);
    if s.rt.Some? {
      TickMoves(env, s.rt.value, now, from);
      var r := TickOf(env.rule, s.rt.value, now);
      if r.decision.Some? && r.decision.value.stateChanged && r.decision.value.state == Resolved {
        PersistedMirrors(env, s, r.rt, r.decision.value, now);
        PersistedKeepsLog(env, s.(rt := Some(r.rt)), r.decision.value, now);
        ResolvedFailsIff(env.world, env.id, env.rule.routes, SliceMarks(s), now, s.log);
      } else {
        NotResolvedNotStuck(env, s, now, from);
      }
    }
  }

  lemma NotResolvedNotStuck(env: Env, s: Slice, now: Instant, from: Time)
    requires ValidRule(env.rule) && Synced(env, s, from) && from <= now && s.rt.Some?
    requires var d := TickOf(env.rule, s.rt.value, now).decision;
             !(d.Some? && d.value.stateChanged && d.value.state == Resolved)
    ensures !Stuck(TickDecided(env.cfg, env.world, env.rule, env.id, s, now).0)
  {
    hide TickOf, Applied;
    TickMoves(env, s.rt.value, now, from);
    var r := TickOf(env.rule, s.rt.value, now);
    assert r.rt.lastSeen == s.rt.value.lastSeen;
    var d := if r.decision.Some? then r.decision.value else NO_DECISION;
    AppliedSyncs(env, s, r.rt, d, now, from);
  }

  /** When a tick stops at a failing decision, the copies of an alert whose decision was applied are in step
      exactly unless its resolve could not be announced, and those of any other exactly unless it changed
      state: then the engine has moved and the card has not. */
  lemma LostTransition(env: Env, before: Slices, after: Slices, now: Instant, done: set<AlertId>, failed: AlertId, from: Time)
    requires ValidRule(env.rule) && Synced(env, before[env.id], from) && from <= now
    requires StoppedAt(env.cfg, env.world, env.rule, before, after, now, done, failed)
    ensures Mirrored(after[env.id].rt, after[env.id].card) <==>
              if env.id in done then !FailsToResolve(env, before[env.id], now) else !ChangesAt(env.rule, before[env.id], now)
  {
    hide TickOf, TickDecided, FailsToResolve;
    var s := before[env.id];
    if env.id in done {
      TickDecidedSyncs(env, s, now, from);
      SticksIff(env, s, now, from);
      assert after[env.id] == TickDecided(env.cfg, env.world, env.rule, env.id, s, now).0;
    } else {
      assert after[env.id] == Moved(env.rule, s, now);
      if s.rt.Some? {
        TickMoves(env, s.rt.value, now, from);
      }
    }
  }

  /** The engine holds the alert as firing and there is no card. */
  ghost predicate Lost(env: Env, s: Slice, now: Time) {
    L.SlotInv(SetupOf(env), s.rt, now) && L.StateOf(s.rt) == Firing && s.card == None
  }

  lemma AppliedToLost(env: Env, s: Slice, rt: Rt, d: Decision, now: Instant, before: Time)
    requires Lost(env, s, before) && before <= now && Moves(env, s.rt, rt, d, now)
    ensures var (t, ok) := Applied(env.cfg, env.world, env.rule, env.id, s.(rt := Some(rt)), d, now, false);
            ok ==> Lost(env, t, now) || (t.rt == None && t.card == None)
  {
    hide Dispatched, Persisted;
    var moved := s.(rt := Some(rt));
    if d.stateChanged {
      assert d.state == Resolved;
    } else if d.shouldStore {
      AnnouncedQuiet(env, Refreshed(moved, false, now, ResolveTimeout(env.rule)), d, now);
    }
  }

  lemma RepeatedToLost(env: Env, s: Slice, now: Instant, routes: seq<Route>)
    requires Lost(env, s, now)
    ensures Lost(env, Dispatched(env.cfg, env.world, env.rule, env.id, s, Firing, now, routes).0, now)
  {
    hide Dispatched;
    DispatchedKeeps(env, s, Firing, now, routes);
    var t := Dispatched(env.cfg, env.world, env.rule, env.id, s, Firing, now, routes).0;
    assert L.RtInv(SetupOf(env), s.rt.value.(marks := SliceMarks(t)), now);
  }

  lemma {:induction false} RepeatRoutesToLost(env: Env, s: Slice, now: Instant, routes: seq<Route>)
    requires Lost(env, s, now)
    ensures Lost(env, RepeatRoutes(env.cfg, env.world, env.rule, env.id, s, now, routes), now)
    decreases |routes|
  {
    hide Dispatched, Lost, RepeatDue;
    if routes != [] {
      RepeatedToLost(env, s, now, [routes[0]]);
      var next := if RepeatDue(env.cfg, env.rule, SliceMarks(s), routes[0].key, now)
                  then Dispatched(env.cfg, env.world, env.rule, env.id, s, Firing, now, [routes[0]]).0 else s;
      RepeatRoutesToLost(env, next, now, routes[1..]);
    }
  }

  lemma TickToLost(env: Env, s: Slice, now: Instant, before: Time)
    requires ValidRule(env.rule) && Lost(env, s, before) && before <= now
    ensures var (t, ok) := TickFlow(env.cfg, env.world, env.rule, env.id, s, now);
            ok ==> Lost(env, t, now) || (t.rt == None && t.card == None)
  {
    hide TickOf, Applied, Dispatched, RepeatRoutes, RepeatDue;
    var r := TickOf(env.rule, s.rt.value, now);
    TickMoves(env, s.rt.value, now, before);
    var moved := s.(rt := Some(r.rt));
    if r.decision.Some? {
      AppliedToLost(env, s, r.rt, r.decision.value, now, before);
    }
    var decided := TickDecided(env.cfg, env.world, env.rule, env.id, s, now).0;
    if r.firing && decided.rt.Some? && Lost(env, decided, now) {
      RepeatRoutesToLost(env, decided, now, env.rule.routes);
      RepeatedToLost(env, decided, now, env.rule.routes);
    }
  }

  /** Once lost, an alert never gets a card again before it resolves. */
  lemma LostStaysLost(env: Env, s: Slice, op: SliceOp, before: Time)
    requires ValidRule(env.rule) && (op.Arrive? ==> ValidEvent(op.event))
    requires Lost(env, s, before) && before <= op.at
    ensures var (t, ok) := Did(env, s, op);
            ok ==> Lost(env, t, op.at) || (t.rt == None && t.card == None)
  {
    hide EventStep, Applied, TickFlow, Dispatched;
    match op
    case Arrive(event, at) =>
      EventMoves(env, s.rt, event, at, before);
      var (rt, d) := EventStep(env.rule, s.rt, env.id, event, at);
      AppliedToLost(env, s, rt, d, at, before);
    case Tick(at) => TickToLost(env, s, at, before);
    case Evict(_) =>
    case Expire(_, _, _) =>
  }

  /** The engine decides to resolve the alert, at an event or at a tick. */
  ghost predicate EngineResolves(env: Env, s: Slice, moved: Rt, d: Decision) {
    && d.state == Resolved
    && ((exists event, now :: (moved, d) == EventStep(env.rule, s.rt, env.id, event, now))
        || (s.rt.Some? && exists now :: TickOf(env.rule, s.rt.value, now) == TickResult(moved, Some(d), false)))
  }

  /** How many events the card of a resolve counts: none when the engine resolves, because it resets its counters
      before the card is written, and as many as the card counted before when the tick expires. */
  lemma ResolvedCardCounts(env: Env, s: Slice, moved: Rt, d: Decision, card: AlertCard, reason: string, now: Instant)
    ensures EngineResolves(env, s, moved, d) ==>
              Persisted(env.rule, env.id, s.(rt := Some(moved)), d, now).0.card.value.card.eventCount == 0
    ensures ExpiredCard(card, reason, now).eventCount == card.eventCount
  {
    hide EventStep, TickOf, NewCard;
    if EngineResolves(env, s, moved, d) {
      if event, at :| (moved, d) == EventStep(env.rule, s.rt, env.id, event, at) {
        EventResetsCount(env.rule, s.rt, env.id, event, at);
      } else {
        var at :| TickOf(env.rule, s.rt.value, at) == TickResult(moved, Some(d), false);
        TickResetsCount(env.rule, s.rt.value, at);
      }
      NewCardCounts(d, InputOf(env.rule, env.id, moved, now));
    }
  }

  lemma NewCardCounts(d: Decision, input: CardInput)
    ensures NewCard(d, input).eventCount == input.eventCount
  {
  }

  lemma EventResetsCount(rule: Rule, slot: Option<Rt>, id: AlertId, event: Event, now: Instant)
    ensures var (rt, d) := EventStep(rule, slot, id, event, now);
            d.state == Resolved ==> rt.activeCount == 0
  {
    hide PruneWindow;
  }

  lemma TickResetsCount(rule: Rule, rt: Rt, now: Instant)
    ensures var r := TickOf(rule, rt, now);
            r.decision.Some? && r.decision.value.state == Resolved ==> r.rt.activeCount == 0
  {
  }

  // ---------------------------------------------------------------------------
  // Deliveries that fail.

  /** A firing notification fails on the route: its transport does, and it is not spared as a tracker
      that already has an issue. */
  predicate Rejects(route: Route, marks: Marks, reply: Reply) {
    reply.Failed? && !(IsTracker(route.channel) && StoredRef(marks, route.key).Some?)
  }

  /** The first route on which a firing notification fails; `n` deliveries came before it. */
  function FirstRejected(world: World, id: AlertId, routes: seq<Route>, marks: Marks, n: nat): Option<nat> {
    if routes == [] then None
    else if Rejects(routes[0], marks, world.reply(id, n)) then Some(0)
    else
      var rest := FirstRejected(world, id, routes[1..], marks, n + 1);
      if rest.None? then None else Some(rest.value + 1)
  }

  lemma SendFailsIff(route: Route, marks: Marks, reply: Reply)
    ensures SendOn(route, marks, Firing, reply) == None <==> Rejects(route, marks, reply)
  {
  }

  lemma {:induction false} FiringFailsIff(world: World, id: AlertId, routes: seq<Route>, marks: Marks, at: Time, log: seq<Entry>)
    ensures SendAll(world, id, routes, marks, Firing, at, log).ok <==> FirstRejected(world, id, routes, marks, |log|) == None
    decreases |routes|
  {
    hide SendOn, Rejects;
    if routes != [] {
      SendFailsIff(routes[0], marks, world.reply(id, |log|));
      var sent := SendOn(routes[0], marks, Firing, world.reply(id, |log|));
      if sent.Some? {
        FiringFailsIff(world, id, routes[1..], marks, at, log + [Delivered(routes[0].key, at, sent.value.0)]);
      }
    }
  }

  /** Some route that owns a message and has no reference yet comes before the first that fails. */
  ghost predicate Orphans(world: World, id: AlertId, routes: seq<Route>, marks: Marks, n: nat) {
    var failed := FirstRejected(world, id, routes, marks, n);
    failed.Some? && exists i :: 0 <= i < failed.value && i < |routes| && OwnsMessage(routes[i]) && StoredRef(marks, routes[i].key) == None
  }

  /** The message of one route after a notification that failed on route `f`. */
  lemma {:induction false} FailedRoute(world: World, id: AlertId, routes: seq<Route>, marks: Marks, at: Time, log: seq<Entry>,
                                       i: nat, f: nat)
    requires DistinctKeys(routes) && i < |routes| && OwnsMessage(routes[i])
    requires FirstRejected(world, id, routes, marks, |log|) == Some(f)
    requires LiveOf(log, routes[i].key) == LiveAs(StoredRef(marks, routes[i].key))
    ensures LiveOf(SendAll(world, id, routes, marks, Firing, at, log).log, routes[i].key) == LiveAs(StoredRef(marks, routes[i].key))
            <==> !(i < f && StoredRef(marks, routes[i].key) == None)
    decreases |routes|
  {
    hide SendOn, Rejects, LiveOf, StoredRef;
    var head, rest := routes[0], routes[1..];
    var key := routes[i].key;
    assert DistinctKeys(rest) && forall k :: 0 <= k < |rest| ==> rest[k] == routes[k + 1];
    SendFailsIff(head, marks, world.reply(id, |log|));
    var sent := SendOn(head, marks, Firing, world.reply(id, |log|));
    if sent.None? {
      LiveAppend(log, Rejected(head.key, at), key);
    } else {
      var entry := Delivered(head.key, at, sent.value.0);
      LiveAppend(log, entry, key);
      if i == 0 {
        assert !HasKey(rest, key);
        OwnMoves(head, marks, world.reply(id, |log|), LiveOf(log, key));
        OtherRoutes(world, id, rest, marks, Firing, at, log + [entry], key, false, marks);
      } else {
        assert head.key != key;
        FailedRoute(world, id, rest, marks, at, log + [entry], i - 1, f - 1);
      }
    }
  }

  lemma OwnMoves(route: Route, marks: Marks, reply: Reply, live: Live)
    requires OwnsMessage(route) && live == LiveAs(StoredRef(marks, route.key)) && SendOn(route, marks, Firing, reply).Some?
    ensures Advance(live, SendOn(route, marks, Firing, reply).value.0) == live <==> StoredRef(marks, route.key).Some?
  {
  }

  /** Main result on failures: after a firing notification every owned message is live under exactly the
      reference the engine holds, unless a message was created before a route that failed. */
  lemma FiringKeepsMatchIff(env: Env, s: Slice, now: Instant, routes: seq<Route>)
    requires s.rt.Some? && DistinctKeys(routes) && Matched(routes, s.log, SliceMarks(s))
    ensures var t := Dispatched(env.cfg, env.world, env.rule, env.id, s, Firing, now, routes).0;
            Matched(routes, t.log, SliceMarks(t)) <==>
            OffActive(env.rule.off, env.world.localMinute(now)) || !Orphans(env.world, env.id, routes, SliceMarks(s), |s.log|)
  {
    hide SendAll, CapturedAll, WithRefs, RefUpdates, LiveOf, StoredRef, FirstRejected, OffActive;
    var marks := SliceMarks(s);
    var batch := SendAll(env.world, env.id, routes, marks, Firing, now, s.log);
    var failed := FirstRejected(env.world, env.id, routes, marks, |s.log|);
    FiringFailsIff(env.world, env.id, routes, marks, now, s.log);
    if batch.ok {
      forall route | route in routes && OwnsMessage(route)
        ensures LiveOf(batch.log, route.key) ==
                LiveAs(StoredRef(CapturedAll(env.cfg.repeatPerChannel, marks, Firing, now, batch.results), route.key))
      {
        OwnRoute(env.world, env.id, routes, marks, Firing, now, s.log, route, env.cfg.repeatPerChannel, marks);
      }
    } else {
      forall i | 0 <= i < |routes| && OwnsMessage(routes[i])
        ensures LiveOf(batch.log, routes[i].key) == LiveAs(StoredRef(marks, routes[i].key))
                <==> !(i < failed.value && StoredRef(marks, routes[i].key) == None)
      {
        FailedRoute(env.world, env.id, routes, marks, now, s.log, i, failed.value);
      }
      MatchedByIndex(routes, batch.log, marks);
    }
  }

  lemma MatchedByIndex(routes: seq<Route>, log: seq<Entry>, marks: Marks)
    ensures Matched(routes, log, marks) <==>
            forall i :: 0 <= i < |routes| && OwnsMessage(routes[i]) ==>
              LiveOf(log, routes[i].key) == LiveAs(StoredRef(marks, routes[i].key))
  {
    hide LiveOf, StoredRef;
    if Matched(routes, log, marks) {
      forall i | 0 <= i < |routes| && OwnsMessage(routes[i])
        ensures LiveOf(log, routes[i].key) == LiveAs(StoredRef(marks, routes[i].key))
      {
        assert routes[i] in routes;
      }
    }
  }

  /** A failing second route makes the manager forget the message it has just created on the first:
      nobody holds its reference, and the next notification creates another one. */
  lemma FailureOrphansMessage(env: Env, s: Slice, now: Instant, later: Instant, a: Route, b: Route)
    requires env.rule.routes == [a, b] && a.key != b.key && a.mode == ActiveOnly && !IsTracker(a.channel)
    requires !OffActive(env.rule.off, env.world.localMinute(now)) && !OffActive(env.rule.off, env.world.localMinute(later))
    requires s.rt.Some? && StoredRef(SliceMarks(s), a.key) == None && StoredRef(SliceMarks(s), b.key) == None
    requires LiveOf(s.log, a.key) == Nothing
    requires env.world.reply(env.id, |s.log|).Accepted? && env.world.reply(env.id, |s.log| + 1).Failed?
    requires env.world.reply(env.id, |s.log| + 2).Accepted?
    ensures var (t, ok) := Dispatched(env.cfg, env.world, env.rule, env.id, s, Firing, now, [a, b]);
            && !ok && SliceMarks(t) == SliceMarks(s) && t.card == s.card
            && LiveOf(t.log, a.key) == Open(env.world.reply(env.id, |s.log|).ref)
            && LiveOf(Dispatched(env.cfg, env.world, env.rule, env.id, t, Firing, later, [a, b]).0.log, a.key) == Broken
  {
    hide LiveOf, CapturedAll, WithRefs, RefUpdates;
    var marks, first := SliceMarks(s), env.world.reply(env.id, |s.log|).ref;
    var created, rejected := Delivered(a.key, now, Create(first)), Rejected(b.key, now);
    assert [a, b][1..] == [b];
    assert SendAll(env.world, env.id, [a, b], marks, Firing, now, s.log).log == s.log + [created] + [rejected];
    LiveAppend(s.log, created, a.key);
    LiveAppend(s.log + [created], rejected, a.key);
    var log := s.log + [created] + [rejected];
    var again := Delivered(a.key, later, Create(env.world.reply(env.id, |log|).ref));
    LiveAppend(log, again, a.key);
    OtherRoutes(env.world, env.id, [b], marks, Firing, later, log + [again], a.key, env.cfg.repeatPerChannel, marks);
    assert SendAll(env.world, env.id, [a, b], marks, Firing, later, log).log ==
           SendAll(env.world, env.id, [b], marks, Firing, later, log + [again]).log;
  }

  /** A resolved notification without references touches no owned message. */
  lemma {:induction false} UnsentWithoutRef(world: World, id: AlertId, routes: seq<Route>, marks: Marks, at: Time, log: seq<Entry>, key: string)
    requires StoredRef(marks, key) == None
    requires forall route :: route in routes && route.key == key ==> OwnsMessage(route)
    ensures LiveOf(SendAll(world, id, routes, marks, Resolved, at, log).log, key) == LiveOf(log, key)
    decreases |routes|
  {
    hide LiveOf, SendHistory;
    if routes != [] {
      var route, rest := routes[0], routes[1..];
      assert routes == [route] + rest;
      var sent := SendOn(route, marks, Resolved, world.reply(id, |log|));
      if Skips(marks, route, Resolved) {
        UnsentWithoutRef(world, id, rest, marks, at, log, key);
      } else if sent.None? {
        LiveAppend(log, Rejected(route.key, at), key);
      } else {
        assert route.key != key;
        LiveAppend(log, Delivered(route.key, at, sent.value.0), key);
        UnsentWithoutRef(world, id, rest, marks, at, log + [Delivered(route.key, at, sent.value.0)], key);
      }
    }
  }
}
