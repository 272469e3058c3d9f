/** Messages and issues that an alert owns: over any run they are created, edited and removed in
    step with the alert, and none is left behind. */
module Messages {
  import opened Domain
  import opened EngineSpec
  import opened Cards
  import opened OffWindows
  import opened Delivery
  import opened AlertFlow
  import opened AlertRuns
  import L = Lifecycle

  /** The message of one route, as its channel sees it. `Broken` is an operation out of turn: a second
      creation, or an edit or a removal of anything but the live message. */
  datatype Live = Nothing | Open(ref: string) | Broken

  function Advance(live: Live, op: TransportOp): Live {
    match op
    case Create(ref) => if live == Nothing then Open(ref) else Broken
    case Edit(ref) => if live == Open(ref) then live else Broken
    case Remove(ref) => if live == Open(ref) then Nothing else Broken
    case _ => live
  }

  function LiveOf(log: seq<Entry>, key: string): Live {
    if log == [] then Nothing
    else
      var last := |log| - 1;
      var live := LiveOf(log[..last], key);
      if log[last].Delivered? && log[last].key == key then Advance(live, log[last].op) else live
  }

  predicate DistinctKeys(routes: seq<Route>) {
    forall i, j :: 0 <= i < j < |routes| ==> routes[i].key != routes[j].key
  }

  /** What validation guarantees about routes. */
  predicate ValidRoutes(routes: seq<Route>) {
    && DistinctKeys(routes)
    && forall route :: route in routes && route.mode == ActiveOnly ==> route.channel == Telegram || route.channel == Mattermost
  }

  ghost predicate Reliable(world: World) {
    forall id, n :: world.reply(id, n).Accepted?
  }

  /** Deliveries succeed and notifications are never off. */
  ghost predicate Working(env: Env) {
    && Reliable(env.world) && ValidRoutes(env.rule.routes)
    && forall now: Instant :: !OffActive(env.rule.off, env.world.localMinute(now))
  }

  /** Deliveries succeed and notifications are on at an instant. */
  ghost predicate WorkingAt(env: Env, now: Instant) {
    Reliable(env.world) && ValidRoutes(env.rule.routes) && !OffActive(env.rule.off, env.world.localMinute(now))
  }

  /** A tracker of the rule waits for a pending alert to fire before it opens an issue. */
  predicate TrackerWaits(rule: Rule) {
    rule.pendingEnabled && exists i :: 0 <= i < |rule.routes| && IsTracker(rule.routes[i].channel)
  }

  ghost predicate Favourable(env: Env) {
    Working(env) && !TrackerWaits(env.rule)
  }

  function LiveAs(ref: Option<string>): Live {
    if ref.None? then Nothing else Open(ref.value)
  }

  /** Each owned message is live under exactly the reference the engine holds. */
  ghost predicate Matched(routes: seq<Route>, log: seq<Entry>, marks: Marks) {
    forall route :: route in routes && OwnsMessage(route) ==> LiveOf(log, route.key) == LiveAs(StoredRef(marks, route.key))
  }

  /** Every owned message is live exactly while the alert fires. */
  ghost predicate MessagesLive(env: Env, s: Slice) {
    && Matched(env.rule.routes, s.log, SliceMarks(s))
    && forall route :: route in env.rule.routes && OwnsMessage(route) ==>
         (StoredRef(SliceMarks(s), route.key).Some? <==> L.StateOf(s.rt) == Firing)
  }

  // ---------------------------------------------------------------------------
  // One notification.

  predicate HasKey(routes: seq<Route>, key: string) {
    exists i :: 0 <= i < |routes| && routes[i].key == key
  }

  lemma LiveAppend(log: seq<Entry>, entry: Entry, key: string)
    ensures LiveOf(log + [entry], key) ==
            if entry.Delivered? && entry.key == key then Advance(LiveOf(log, key), entry.op) else LiveOf(log, key)
  {
    assert (log + [entry])[..|log|] == log;
  }

  /** A route without the key does not touch the key's message or reference. */
  lemma {:induction false} OtherRoutes(world: World, id: AlertId, routes: seq<Route>, marks: Marks, state: AlertState,
                                       at: Time, log: seq<Entry>, key: string, perChannel: bool, kept: Marks)
    requires !HasKey(routes, key)
    ensures var batch := SendAll(world, id, routes, marks, state, at, log);
            && LiveOf(batch.log, key) == LiveOf(log, key)
            && StoredRef(CapturedAll(perChannel, kept, state, at, batch.results), key) == StoredRef(kept, key)
    decreases |routes|
  {
    hide SendOn, Skips;
    if routes != [] {
      var route, rest := routes[0], routes[1..];
      assert forall i :: 0 <= i < |rest| ==> rest[i] == routes[i + 1];
      if Skips(marks, route, state) {
        OtherRoutes(world, id, rest, marks, state, at, log, key, perChannel, kept);
      } else {
        var sent := SendOn(route, marks, state, world.reply(id, |log|));
        if sent.None? {
          LiveAppend(log, Rejected(route.key, at), key);
        } else {
          var entry := Delivered(route.key, at, sent.value.0);
          LiveAppend(log, entry, key);
          var next := Captured(perChannel, kept, state, at, route, sent.value.1);
          OtherRoutes(world, id, rest, marks, state, at, log + [entry], key, perChannel, next);
        }
      }
    }
  }

  /** The owned message of a route on which a firing or resolved notification goes out. */
  lemma OwnSend(route: Route, marks: Marks, state: AlertState, reply: Reply, live: Live, perChannel: bool, kept: Marks, at: Time)
    requires OwnsMessage(route) && (state == Firing || state == Resolved)
    requires live == LiveAs(StoredRef(marks, route.key))
    ensures var sent := SendOn(route, marks, state, reply);
            if state == Resolved && StoredRef(marks, route.key) == None then Skips(marks, route, state) || sent == None
            else
              && !Skips(marks, route, state)
              && (sent.Some? && state == Resolved ==> Advance(live, sent.value.0) == Nothing)
              && (sent.Some? && state == Firing ==>
                    var ref := StoredRef(Captured(perChannel, kept, state, at, route, sent.value.1), route.key);
                    ref.Some? && Advance(live, sent.value.0) == LiveAs(ref))
  {
  }

  /** A successful notification over routes among which one owns a message. */
  lemma {:induction false} OwnRoute(world: World, id: AlertId, routes: seq<Route>, marks: Marks, state: AlertState,
                                    at: Time, log: seq<Entry>, route: Route, perChannel: bool, kept: Marks)
    requires DistinctKeys(routes) && route in routes && OwnsMessage(route)
    requires state == Firing || state == Resolved
    requires LiveOf(log, route.key) == LiveAs(StoredRef(marks, route.key))
    ensures var batch := SendAll(world, id, routes, marks, state, at, log);
            var after := CapturedAll(perChannel, kept, state, at, batch.results);
            batch.ok ==>
              && (state == Firing ==> StoredRef(after, route.key).Some? && LiveOf(batch.log, route.key) == LiveAs(StoredRef(after, route.key)))
              && (state == Resolved ==> LiveOf(batch.log, route.key) == Nothing)
    decreases |routes|
  {
    hide SendOn, Skips, Captured, LiveOf;
    var head, rest := routes[0], routes[1..];
    assert routes == [head] + rest && DistinctKeys(rest);
    var sent := SendOn(head, marks, state, world.reply(id, |log|));
    if head == route {
      assert !HasKey(rest, route.key);
      OwnSend(route, marks, state, world.reply(id, |log|), LiveOf(log, route.key), perChannel, kept, at);
      if Skips(marks, head, state) {
        OtherRoutes(world, id, rest, marks, state, at, log, route.key, perChannel, kept);
      } else if sent.Some? {
        var entry := Delivered(head.key, at, sent.value.0);
        LiveAppend(log, entry, route.key);
        var next := Captured(perChannel, kept, state, at, head, sent.value.1);
        OtherRoutes(world, id, rest, marks, state, at, log + [entry], route.key, perChannel, next);
      }
    } else {
      assert head.key != route.key by {
        var i :| 0 <= i < |routes| && routes[i] == route;
      }
      if Skips(marks, head, state) {
        OwnRoute(world, id, rest, marks, state, at, log, route, perChannel, kept);
      } else if sent.Some? {
        var entry := Delivered(head.key, at, sent.value.0);
        LiveAppend(log, entry, route.key);
        var next := Captured(perChannel, kept, state, at, head, sent.value.1);
        OwnRoute(world, id, rest, marks, state, at, log + [entry], route, perChannel, next);
      }
    }
  }

  /** A resolved notification that needs a reference which the alert does not have. */
  predicate Blocked(marks: Marks, route: Route, state: AlertState) {
    state == Resolved && IsTracker(route.channel) && route.mode != ActiveOnly && StoredRef(marks, route.key) == None
  }

  /** With working transports, a notification fails exactly when one of its routes is a tracker
      asked to resolve an issue it never opened. */
  lemma {:induction false} FailsIffBlocked(world: World, id: AlertId, routes: seq<Route>, marks: Marks, state: AlertState,
                                           at: Time, log: seq<Entry>)
    requires Reliable(world)
    ensures SendAll(world, id, routes, marks, state, at, log).ok <==> forall route :: route in routes ==> !Blocked(marks, route, state)
    decreases |routes|
  {
    if routes != [] {
      var route, rest := routes[0], routes[1..];
      assert routes == [route] + rest;
      var sent := SendOn(route, marks, state, world.reply(id, |log|));
      assert !Skips(marks, route, state) ==> (sent.None? <==> Blocked(marks, route, state));
      hide SendOn, Skips;
      if Skips(marks, route, state) {
        FailsIffBlocked(world, id, rest, marks, state, at, log);
      } else if sent.Some? {
        FailsIffBlocked(world, id, rest, marks, state, at, log + [Delivered(route.key, at, sent.value.0)]);
      }
    }
  }

  /** One firing notification over some of the rule's routes. */
  lemma FiringKeepsMatch(env: Env, s: Slice, now: Instant, routes: seq<Route>)
    requires WorkingAt(env, now) && s.rt.Some? && Matched(env.rule.routes, s.log, SliceMarks(s))
    requires DistinctKeys(routes) && forall route :: route in routes ==> route in env.rule.routes
    ensures var (t, ok) := Dispatched(env.cfg, env.world, env.rule, env.id, s, Firing, now, routes);
            && ok && t.rt == Some(s.rt.value.(marks := SliceMarks(t)))
            && Matched(env.rule.routes, t.log, SliceMarks(t))
            && forall route :: route in env.rule.routes && OwnsMessage(route) ==>
                 if route in routes then StoredRef(SliceMarks(t), route.key).Some?
                 else StoredRef(SliceMarks(t), route.key) == StoredRef(SliceMarks(s), route.key)
  {
    hide SendAll, CapturedAll, LiveOf, StoredRef, WithRefs;
    var marks := SliceMarks(s);
    FailsIffBlocked(env.world, env.id, routes, marks, Firing, now, s.log);
    var (t, ok) := Dispatched(env.cfg, env.world, env.rule, env.id, s, Firing, now, routes);
    forall route | route in env.rule.routes && OwnsMessage(route)
      ensures LiveOf(t.log, route.key) == LiveAs(StoredRef(SliceMarks(t), route.key))
      ensures if route in routes then StoredRef(SliceMarks(t), route.key).Some?
              else StoredRef(SliceMarks(t), route.key) == StoredRef(marks, route.key)
    {
      if route in routes {
        OwnRoute(env.world, env.id, routes, marks, Firing, now, s.log, route, env.cfg.repeatPerChannel, marks);
      } else {
        if HasKey(routes, route.key) {
          var i :| 0 <= i < |routes| && routes[i].key == route.key;
          SameKeySameRoute(env.rule.routes, routes[i], route);
        }
        OtherRoutes(env.world, env.id, routes, marks, Firing, now, s.log, route.key, env.cfg.repeatPerChannel, marks);
      }
    }
  }

  lemma FiringKeepsMessages(env: Env, s: Slice, now: Instant, routes: seq<Route>)
    requires Working(env) && s.rt.Some? && Matched(env.rule.routes, s.log, SliceMarks(s))
    requires DistinctKeys(routes) && forall route :: route in routes ==> route in env.rule.routes
    ensures var (t, ok) := Dispatched(env.cfg, env.world, env.rule, env.id, s, Firing, now, routes);
            && ok && t.rt == Some(s.rt.value.(marks := SliceMarks(t)))
            && Matched(env.rule.routes, t.log, SliceMarks(t))
            && forall route :: route in env.rule.routes && OwnsMessage(route) ==>
                 if route in routes then StoredRef(SliceMarks(t), route.key).Some?
                 else StoredRef(SliceMarks(t), route.key) == StoredRef(SliceMarks(s), route.key)
  {
    hide Dispatched, Matched, StoredRef;
    FiringKeepsMatch(env, s, now, routes);
  }

  lemma SameKeySameRoute(routes: seq<Route>, a: Route, b: Route)
    requires DistinctKeys(routes) && a in routes && b in routes && a.key == b.key
    ensures a == b
  {
    var i :| 0 <= i < |routes| && routes[i] == a;
    var j :| 0 <= j < |routes| && routes[j] == b;
    assert i == j;
  }

  /** The resolved notification of an alert whose trackers have their issues. */
  lemma ResolvedClears(env: Env, s: Slice, now: Instant)
    requires WorkingAt(env, now) && Matched(env.rule.routes, s.log, SliceMarks(s))
    requires forall route :: route in env.rule.routes && IsTracker(route.channel) ==> StoredRef(SliceMarks(s), route.key).Some?
    ensures var (t, ok) := Dispatched(env.cfg, env.world, env.rule, env.id, s, Resolved, now, env.rule.routes);
            ok && forall route :: route in env.rule.routes && OwnsMessage(route) ==> LiveOf(t.log, route.key) == Nothing
  {
    hide SendAll, CapturedAll, LiveOf, StoredRef, WithRefs;
    var marks := SliceMarks(s);
    FailsIffBlocked(env.world, env.id, env.rule.routes, marks, Resolved, now, s.log);
    forall route | route in env.rule.routes && OwnsMessage(route)
      ensures LiveOf(SendAll(env.world, env.id, env.rule.routes, marks, Resolved, now, s.log).log, route.key) == Nothing
    {
      OwnRoute(env.world, env.id, env.rule.routes, marks, Resolved, now, s.log, route, env.cfg.repeatPerChannel, marks);
    }
  }

  lemma ResolvedRemovesMessages(env: Env, s: Slice, now: Instant)
    requires Working(env) && Matched(env.rule.routes, s.log, SliceMarks(s))
    requires forall route :: route in env.rule.routes && IsTracker(route.channel) ==> StoredRef(SliceMarks(s), route.key).Some?
    ensures var (t, ok) := Dispatched(env.cfg, env.world, env.rule, env.id, s, Resolved, now, env.rule.routes);
            ok && forall route :: route in env.rule.routes && OwnsMessage(route) ==> LiveOf(t.log, route.key) == Nothing
  {
    hide Dispatched, Matched, StoredRef, LiveOf;
    ResolvedClears(env, s, now);
  }

  // ---------------------------------------------------------------------------
  // One operation.

  lemma NoMarksNoRefs(key: string)
    ensures StoredRef(NO_MARKS, key) == None
  {
  }

  /** One decision of the engine. */
  lemma AppliedMessages(env: Env, s: Slice, rt: Rt, d: Decision, now: Instant, before: Time)
    requires ValidRule(env.rule) && Working(env) && (d.state == Resolved ==> Favourable(env)) && Synced(env, s, before) && before <= now
    requires MessagesLive(env, s) && Moves(env, s.rt, rt, d, now)
    ensures var (t, ok) := Applied(env.cfg, env.world, env.rule, env.id, s.(rt := Some(rt)), d, now, false);
            ok && MessagesLive(env, t)
  {
    hide Persisted, Announced, Matched, StoredRef, LiveOf;
    var moved := s.(rt := Some(rt));
    assert SliceMarks(moved) == SliceMarks(s);
    var ticked := if d.shouldStore && d.state != Resolved then Refreshed(moved, false, now, ResolveTimeout(env.rule)) else moved;
    assert ticked == moved.(tick := ticked.tick);
    if d.stateChanged {
      PersistedMirrors(env, ticked.(rt := s.rt), rt, d, now);
      assert ticked.(rt := s.rt).(rt := Some(rt)) == ticked;
      PersistedKeepsLog(env, ticked, d, now);
      AnnouncedMessages(env, s, Persisted(env.rule, env.id, ticked, d, now).0, d, now);
    } else if d.shouldStore {
      AnnouncedQuiet(env, ticked, d, now);
    }
  }

  lemma PersistedKeepsLog(env: Env, s: Slice, d: Decision, now: Instant)
    requires s.rt.Some?
    ensures Persisted(env.rule, env.id, s, d, now).0.log == s.log
  {
  }

  lemma AnnouncedMessages(env: Env, s: Slice, stored: Slice, d: Decision, now: Instant)
    requires Working(env) && (d.state == Resolved ==> Favourable(env)) && MessagesLive(env, s) && Mirrored(s.rt, s.card)
    requires L.StateOf(s.rt) != Resolved && (L.StateOf(s.rt) == Pending ==> env.rule.pendingEnabled)
    requires stored.rt.Some? && stored.log == s.log && SliceMarks(stored) == SliceMarks(s)
    requires d.stateChanged && Decides(L.StateOf(s.rt), RaisedAt(s.rt), stored.rt.value, d, now)
    ensures var (t, ok) := Announced(env.cfg, env.world, env.rule, env.id, stored, d, now, true);
            ok && MessagesLive(env, t)
  {
    hide Dispatched, StoredRef, LiveOf, Mirrored;
    var from := L.StateOf(s.rt);
    if d.state == Firing {
      FiringKeepsMessages(env, stored, now, env.rule.routes);
    } else if d.state == Resolved {
      ResolvedRemovesMessages(env, stored, now);
      forall route | route in env.rule.routes ensures StoredRef(NO_MARKS, route.key) == None {
        NoMarksNoRefs(route.key);
      }
    }
  }

  lemma EventMessages(env: Env, s: Slice, event: Event, now: Instant, before: Time)
    requires ValidRule(env.rule) && Working(env) && ValidEvent(event) && Synced(env, s, before) && before <= now
    requires MessagesLive(env, s) && (EventStep(env.rule, s.rt, env.id, event, now).1.state == Resolved ==> Favourable(env))
    ensures var (t, ok) := EventFlow(env.cfg, env.world, env.rule, env.id, s, event, now, false);
            ok && MessagesLive(env, t)
  {
    hide EventStep, Applied, Working, MessagesLive;
    EventMoves(env, s.rt, event, now, before);
    var (rt, d) := EventStep(env.rule, s.rt, env.id, event, now);
    AppliedMessages(env, s, rt, d, now, before);
  }

  lemma RepeatMessages(env: Env, s: Slice, now: Instant, routes: seq<Route>)
    requires Working(env) && MessagesLive(env, s) && L.StateOf(s.rt) == Firing
    requires DistinctKeys(routes) && forall route :: route in routes ==> route in env.rule.routes
    ensures var (t, ok) := Dispatched(env.cfg, env.world, env.rule, env.id, s, Firing, now, routes);
            ok && MessagesLive(env, t) && L.StateOf(t.rt) == Firing
  {
    hide Dispatched, StoredRef, LiveOf, Working;
    FiringKeepsMessages(env, s, now, routes);
  }

  lemma {:induction false} RepeatRoutesMessages(env: Env, s: Slice, now: Instant, routes: seq<Route>)
    requires Working(env) && MessagesLive(env, s) && L.StateOf(s.rt) == Firing
    requires forall route :: route in routes ==> route in env.rule.routes
    ensures MessagesLive(env, RepeatRoutes(env.cfg, env.world, env.rule, env.id, s, now, routes))
    decreases |routes|
  {
    hide Dispatched, MessagesLive, Working;
    if routes != [] {
      RepeatMessages(env, s, now, [routes[0]]);
      var next := if RepeatDue(env.cfg, env.rule, SliceMarks(s), routes[0].key, now)
                  then Dispatched(env.cfg, env.world, env.rule, env.id, s, Firing, now, [routes[0]]).0 else s;
      RepeatRoutesMessages(env, next, now, routes[1..]);
    }
  }

  lemma RepeatedMessages(env: Env, s: Slice, now: Instant)
    requires Working(env) && MessagesLive(env, s) && L.StateOf(s.rt) == Firing
    ensures MessagesLive(env, Repeated(env.cfg, env.world, env.rule, env.id, s, now))
  {
    hide Dispatched, MessagesLive, RepeatRoutes;
    RepeatRoutesMessages(env, s, now, env.rule.routes);
    RepeatMessages(env, s, now, env.rule.routes);
  }

  lemma NothingDecided(env: Env, s: Slice, now: Instant)
    ensures Applied(env.cfg, env.world, env.rule, env.id, s, NO_DECISION, now, false) == (s, true)
  {
  }

  lemma TickMessages(env: Env, s: Slice, now: Instant, before: Time)
    requires ValidRule(env.rule) && Working(env) && Synced(env, s, before) && before <= now && MessagesLive(env, s)
    requires s.rt.Some? ==>
               var d := TickOf(env.rule, s.rt.value, now).decision;
               d.Some? && d.value.state == Resolved ==> Favourable(env)
    ensures var (t, ok) := TickFlow(env.cfg, env.world, env.rule, env.id, s, now);
            ok && MessagesLive(env, t)
  {
    hide TickOf, Applied, Working, MessagesLive, Repeated;
    if s.rt.Some? {
      TickMoves(env, s.rt.value, now, before);
      var r := TickOf(env.rule, s.rt.value, now);
      AppliedMessages(env, s, r.rt, if r.decision.Some? then r.decision.value else NO_DECISION, now, before);
      NothingDecided(env, s.(rt := Some(r.rt)), now);
      TickDecidedSyncs(env, s, now, before);
      var decided := TickDecided(env.cfg, env.world, env.rule, env.id, s, now).0;
      if r.firing {
        RepeatedMessages(env, decided, now);
      }
    }
  }

  lemma ExpiryMessages(env: Env, s: Slice, reason: string, looks: Looks, now: Instant, before: Time)
    requires Favourable(env) && Synced(env, s, before) && MessagesLive(env, s)
    ensures MessagesLive(env, ExpiryFlow(env.cfg, env.world, env.rule, env.id, s, reason, looks, now))
  {
    hide Dispatched, StoredRef, LiveOf;
    if !Ticking(s.tick, looks) && s.card.Some? {
      var expired := ExpiredCard(s.card.value.card, reason, now);
      var stored := s.(tick := None, card := Some(VersionedCard(expired, s.card.value.revision + 1)),
                       rt := SeededRt(s.rt, expired.externalRefs));
      SeedingEqual(s.rt.value.marks.refs);
      assert stored.rt == s.rt;
      ResolvedRemovesMessages(env, stored, now);
      forall route | route in env.rule.routes ensures StoredRef(NO_MARKS, route.key) == None {
        NoMarksNoRefs(route.key);
      }
    }
  }

  lemma DidMessages(env: Env, s: Slice, op: SliceOp, before: Time)
    requires ValidRule(env.rule) && Favourable(env) && (op.Arrive? ==> ValidEvent(op.event))
    requires Synced(env, s, before) && before <= op.at && MessagesLive(env, s)
    ensures var (t, ok) := Did(env, s, op);
            ok && MessagesLive(env, t)
  {
    hide EventFlow, TickFlow, ExpiryFlow, Working, EventStep, TickOf, StoredRef, LiveOf;
    match op
    case Arrive(event, at) => EventMessages(env, s, event, at, before);
    case Tick(at) => TickMessages(env, s, at, before);
    case Evict(at) =>
    case Expire(reason, looks, at) => ExpiryMessages(env, s, reason, looks, at, before);
  }

  /** Main result: over any run, every owned message or issue is live exactly while its alert fires,
      under exactly the reference the engine and the card hold, and was never touched out of turn. */
  lemma {:induction false} MessagesFollowAlerts(env: Env, ops: seq<SliceOp>)
    requires ValidRule(env.rule) && Favourable(env) && WellTimed(ops)
    ensures Synced(env, After(env, ops), LastTime(ops))
    ensures forall route :: route in env.rule.routes && OwnsMessage(route) ==>
              LiveOf(After(env, ops).log, route.key) ==
              if L.StateOf(After(env, ops).rt) == Firing
                then Open(RefAt(After(env, ops).card.value.card.externalRefs, route.key)) else Nothing
    ensures MessagesLive(env, After(env, ops))
  {
    hide Did, Favourable, Stuck;
    if ops != [] {
      var prefix := ops[..|ops| - 1];
      MessagesFollowAlerts(env, prefix);
      DidSyncs(env, After(env, prefix), ops[|ops| - 1], LastTime(prefix));
      DidMessages(env, After(env, prefix), ops[|ops| - 1], LastTime(prefix));
    } else {
      forall route | route in env.rule.routes ensures StoredRef(NO_MARKS, route.key) == None {
        NoMarksNoRefs(route.key);
      }
    }
  }
}
