/** Threads of posts on Mattermost history routes: which post a notification answers. */
module Threads {
  import opened Domain
  import opened EngineSpec
  import opened Cards
  import opened Delivery
  import opened AlertFlow
  import opened AlertRuns
  import opened Messages
  import L = Lifecycle

  predicate ThreadRoute(route: Route) {
    route.channel == Mattermost && route.mode == History
  }

  /** What was delivered on one key, in order. */
  function On(log: seq<Entry>, key: string): seq<TransportOp> {
    if log == [] then []
    else
      var last := |log| - 1;
      On(log[..last], key) + if log[last].Delivered? && log[last].key == key then [log[last].op] else []
  }

  /** The posts of the current episode: the one that opened it, the latest, and how many there are. An opening
      post answers nothing and every other answers the one before it; anything else is `Loose`. */
  datatype Thread = NoThread | Posts(first: string, last: string, count: nat) | Loose

  function ThreadOf(ops: seq<TransportOp>): Thread {
    if ops == [] then NoThread
    else
      var before := ThreadOf(ops[..|ops| - 1]);
      match ops[|ops| - 1]
      case Post(posted, None) => Posts(posted, posted, 1)
      case Post(posted, Some(answered)) =>
        if before.Posts? && answered == before.last then Posts(before.first, posted, before.count + 1) else Loose
      case _ => Loose
  }

  lemma OnAppend(log: seq<Entry>, entry: Entry, key: string)
    ensures On(log + [entry], key) == On(log, key) + if entry.Delivered? && entry.key == key then [entry.op] else []
  {
    assert (log + [entry])[..|log|] == log;
  }

  lemma ThreadAppend(ops: seq<TransportOp>, post: TransportOp)
    requires post.Post?
    ensures var before := ThreadOf(ops);
            ThreadOf(ops + [post]) ==
            if post.replyTo == None then Posts(post.posted, post.posted, 1)
            else if before.Posts? && post.replyTo.value == before.last then Posts(before.first, post.posted, before.count + 1)
            else Loose
  {
    assert (ops + [post])[..|ops|] == ops;
  }

  // ---------------------------------------------------------------------------
  // One notification.

  /** The transport's answer number `j` made this reference. */
  predicate Made(world: World, id: AlertId, ref: string, j: nat) {
    world.reply(id, j).Accepted? && world.reply(id, j).ref == ref
  }

  lemma {:induction false} OthersPost(world: World, id: AlertId, routes: seq<Route>, marks: Marks, state: AlertState,
                                      at: Time, log: seq<Entry>, key: string)
    requires !HasKey(routes, key)
    ensures On(SendAll(world, id, routes, marks, state, at, log).log, key) == On(log, key)
    decreases |routes|
  {
    hide SendOn, Skips;
    if routes != [] {
      var route, rest := routes[0], routes[1..];
      assert forall i :: 0 <= i < |rest| ==> rest[i] == routes[i + 1];
      var sent := SendOn(route, marks, state, world.reply(id, |log|));
      if Skips(marks, route, state) {
        OthersPost(world, id, rest, marks, state, at, log, key);
      } else if sent.None? {
        OnAppend(log, Rejected(route.key, at), key);
      } else {
        OnAppend(log, Delivered(route.key, at, sent.value.0), key);
        OthersPost(world, id, rest, marks, state, at, log + [Delivered(route.key, at, sent.value.0)], key);
      }
    }
  }

  lemma {:induction false} LogGrows(world: World, id: AlertId, routes: seq<Route>, marks: Marks, state: AlertState, at: Time, log: seq<Entry>)
    ensures |SendAll(world, id, routes, marks, state, at, log).log| >= |log|
    decreases |routes|
  {
    hide SendOn, Skips;
    if routes != [] {
      var sent := SendOn(routes[0], marks, state, world.reply(id, |log|));
      if Skips(marks, routes[0], state) {
        LogGrows(world, id, routes[1..], marks, state, at, log);
      } else if sent.Some? {
        LogGrows(world, id, routes[1..], marks, state, at, log + [Delivered(routes[0].key, at, sent.value.0)]);
      }
    }
  }

  lemma PostSend(route: Route, marks: Marks, state: AlertState, reply: Reply, perChannel: bool, kept: Marks, at: Time)
    requires ThreadRoute(route) && reply.Accepted? && (state == Firing || (state == Resolved && StoredRef(marks, route.key).Some?))
    ensures !Skips(marks, route, state) && SendOn(route, marks, state, reply).Some?
    ensures var (op, result) := SendOn(route, marks, state, reply).value;
            && op == Post(reply.ref, StoredRef(marks, route.key))
            && (state == Firing ==> StoredRef(Captured(perChannel, kept, state, at, route, result), route.key) == Some(reply.ref))
  {
  }

  /** A successful notification posts once on the route: an answer to the stored post. */
  lemma {:induction false} RoutePosts(world: World, id: AlertId, routes: seq<Route>, marks: Marks, state: AlertState,
                                      at: Time, log: seq<Entry>, route: Route, perChannel: bool, kept: Marks) returns (j: nat)
    requires Reliable(world) && DistinctKeys(routes) && route in routes && ThreadRoute(route)
    requires state == Firing || (state == Resolved && StoredRef(marks, route.key).Some?)
    requires SendAll(world, id, routes, marks, state, at, log).ok
    ensures var batch := SendAll(world, id, routes, marks, state, at, log);
            && |log| <= j < |batch.log|
            && On(batch.log, route.key) == On(log, route.key) + [Post(world.reply(id, j).ref, StoredRef(marks, route.key))]
            && (state == Firing ==>
                  StoredRef(CapturedAll(perChannel, kept, state, at, batch.results), route.key) == Some(world.reply(id, j).ref))
    decreases |routes|
  {
    hide SendOn, Skips, Captured, On, StoredRef;
    var head, rest := routes[0], routes[1..];
    assert routes == [head] + rest && DistinctKeys(rest);
    var sent := SendOn(head, marks, state, world.reply(id, |log|));
    if head == route {
      assert !HasKey(rest, route.key);
      PostSend(route, marks, state, world.reply(id, |log|), perChannel, kept, at);
      var entry := Delivered(head.key, at, sent.value.0);
      OnAppend(log, entry, route.key);
      var next := Captured(perChannel, kept, state, at, head, sent.value.1);
      OthersPost(world, id, rest, marks, state, at, log + [entry], route.key);
      OtherRoutes(world, id, rest, marks, state, at, log + [entry], route.key, perChannel, next);
      LogGrows(world, id, rest, marks, state, at, log + [entry]);
      j := |log|;
    } else {
      assert head.key != route.key by {
        var i :| 0 <= i < |routes| && routes[i] == route;
      }
      if Skips(marks, head, state) {
        j := RoutePosts(world, id, rest, marks, state, at, log, route, perChannel, kept);
      } else {
        var entry := Delivered(head.key, at, sent.value.0);
        OnAppend(log, entry, route.key);
        var next := Captured(perChannel, kept, state, at, head, sent.value.1);
        j := RoutePosts(world, id, rest, marks, state, at, log + [entry], route, perChannel, next);
      }
    }
  }

  /** The thread of a firing alert: its posts were made in order, and the engine holds the latest. */
  ghost predicate Posted(env: Env, s: Slice, key: string) {
    var thread := ThreadOf(On(s.log, key));
    && thread.Posts? && thread.count >= 1 && StoredRef(SliceMarks(s), key) == Some(thread.last)
    && exists i, j :: 0 <= i <= j < |s.log| && Made(env.world, env.id, thread.first, i) && Made(env.world, env.id, thread.last, j)
                      && (i == j <==> thread.count == 1)
  }

  ghost predicate Threaded(env: Env, s: Slice, key: string) {
    if L.StateOf(s.rt) == Firing then Posted(env, s, key) else StoredRef(SliceMarks(s), key) == None
  }

  /** One more post on the route, in answer to the stored one. */
  ghost predicate Answers(before: Slice, after: Slice, key: string) {
    exists post: Ref :: On(after.log, key) == On(before.log, key) + [Post(post, StoredRef(SliceMarks(before), key))]
  }

  lemma DispatchedLonger(env: Env, s: Slice, state: AlertState, now: Instant, routes: seq<Route>)
    ensures |Dispatched(env.cfg, env.world, env.rule, env.id, s, state, now, routes).0.log| >= |s.log|
  {
    hide SendAll, CapturedAll, WithRefs, RefUpdates;
    LogGrows(env.world, env.id, routes, SliceMarks(s), state, now, s.log);
  }

  /** A firing notification that includes the route posts there; one that does not leaves it alone. */
  lemma FiringPosts(env: Env, s: Slice, now: Instant, routes: seq<Route>, route: Route)
    requires Working(env) && s.rt.Some? && route in env.rule.routes && ThreadRoute(route)
    requires DistinctKeys(routes) && forall r :: r in routes ==> r in env.rule.routes
    requires StoredRef(SliceMarks(s), route.key) == None || Posted(env, s, route.key)
    ensures var t := Dispatched(env.cfg, env.world, env.rule, env.id, s, Firing, now, routes).0;
            if route in routes then Posted(env, t, route.key) && Answers(s, t, route.key)
            else
              && On(t.log, route.key) == On(s.log, route.key)
              && StoredRef(SliceMarks(t), route.key) == StoredRef(SliceMarks(s), route.key)
              && (Posted(env, s, route.key) ==> Posted(env, t, route.key))
  {
    hide SendAll, CapturedAll, On, StoredRef, WithRefs, RefUpdates, ThreadOf;
    var marks, key := SliceMarks(s), route.key;
    FailsIffBlocked(env.world, env.id, routes, marks, Firing, now, s.log);
    DispatchedLonger(env, s, Firing, now, routes);
    var t := Dispatched(env.cfg, env.world, env.rule, env.id, s, Firing, now, routes).0;
    if route in routes {
      var j := RoutePosts(env.world, env.id, routes, marks, Firing, now, s.log, route, env.cfg.repeatPerChannel, marks);
      var post := env.world.reply(env.id, j).ref;
      ThreadAppend(On(s.log, key), Post(post, StoredRef(marks, key)));
      assert Made(env.world, env.id, post, j);
      if Posted(env, s, key) {
        var i, k :| 0 <= i <= k < |s.log| && Made(env.world, env.id, ThreadOf(On(s.log, key)).first, i)
                    && Made(env.world, env.id, ThreadOf(On(s.log, key)).last, k) && (i == k <==> ThreadOf(On(s.log, key)).count == 1);
        assert ThreadOf(On(t.log, key)).first == ThreadOf(On(s.log, key)).first && i < j;
      }
    } else {
      if HasKey(routes, key) {
        var i :| 0 <= i < |routes| && routes[i].key == key;
        SameKeySameRoute(env.rule.routes, routes[i], route);
      }
      OthersPost(env.world, env.id, routes, marks, Firing, now, s.log, key);
      OtherRoutes(env.world, env.id, routes, marks, Firing, now, s.log, key, env.cfg.repeatPerChannel, marks);
    }
  }

  /** The resolved notification of an alert with a thread answers its latest post. */
  lemma ResolvedPosts(env: Env, s: Slice, now: Instant, route: Route)
    requires Working(env) && route in env.rule.routes && ThreadRoute(route) && StoredRef(SliceMarks(s), route.key).Some?
    requires Dispatched(env.cfg, env.world, env.rule, env.id, s, Resolved, now, env.rule.routes).1
    ensures Answers(s, Dispatched(env.cfg, env.world, env.rule, env.id, s, Resolved, now, env.rule.routes).0, route.key)
  {
    hide SendAll, CapturedAll, On, StoredRef, WithRefs, RefUpdates;
    var marks := SliceMarks(s);
    var j := RoutePosts(env.world, env.id, env.rule.routes, marks, Resolved, now, s.log, route, env.cfg.repeatPerChannel, marks);
  }

  // ---------------------------------------------------------------------------
  // One operation.

  /** What an operation does to the thread, and how it ends. */
  ghost predicate Continues(env: Env, s: Slice, t: Slice, key: string) {
    && Threaded(env, t, key)
    && (L.StateOf(s.rt) == Firing && t.rt == None ==> Answers(s, t, key))
  }

  lemma AnnouncedThreads(env: Env, s: Slice, stored: Slice, d: Decision, now: Instant, route: Route)
    requires Working(env) && route in env.rule.routes && ThreadRoute(route) && Threaded(env, s, route.key)
    requires stored.rt.Some? && stored.log == s.log && SliceMarks(stored) == SliceMarks(s) && L.StateOf(s.rt) != Resolved
    requires d.stateChanged && Decides(L.StateOf(s.rt), RaisedAt(s.rt), stored.rt.value, d, now)
    ensures var (t, ok) := Announced(env.cfg, env.world, env.rule, env.id, stored, d, now, true);
            ok ==> Continues(env, s, t, route.key)
  {
    hide Dispatched, StoredRef, On, Working, ThreadOf;
    NoMarksNoRefs(route.key);
    var t := Dispatched(env.cfg, env.world, env.rule, env.id, stored, d.state, now, env.rule.routes).0;
    if d.state == Firing {
      WorkingRoutes(env);
      FiringPosts(env, stored, now, env.rule.routes, route);
      DispatchedKeeps(env, stored, Firing, now, env.rule.routes);
    } else if d.state == Resolved && Dispatched(env.cfg, env.world, env.rule, env.id, stored, Resolved, now, env.rule.routes).1 {
      if L.StateOf(s.rt) == Firing {
        ResolvedPosts(env, stored, now, route);
        assert Answers(s, t, route.key);
        assert Answers(s, Removed(t), route.key);
      }
    }
  }

  lemma WorkingRoutes(env: Env)
    requires Working(env)
    ensures ValidRoutes(env.rule.routes)
  {
  }

  lemma AppliedThreads(env: Env, s: Slice, rt: Rt, d: Decision, now: Instant, before: Time, route: Route)
    requires ValidRule(env.rule) && Favourable(env) && Synced(env, s, before) && before <= now && MessagesLive(env, s)
    requires Moves(env, s.rt, rt, d, now)
    requires route in env.rule.routes && ThreadRoute(route) && Threaded(env, s, route.key)
    ensures var (t, ok) := Applied(env.cfg, env.world, env.rule, env.id, s.(rt := Some(rt)), d, now, false);
            ok && Continues(env, s, t, route.key)
  {
    hide Persisted, Announced, StoredRef, On, Working, MessagesLive, ThreadOf, Made;
    AppliedMessages(env, s, rt, d, now, before);
    var moved := s.(rt := Some(rt));
    assert SliceMarks(moved) == SliceMarks(s);
    var ticked := if d.shouldStore && d.state != Resolved then Refreshed(moved, false, now, ResolveTimeout(env.rule)) else moved;
    assert ticked == moved.(tick := ticked.tick);
    if d.stateChanged {
      PersistedMirrors(env, ticked.(rt := s.rt), rt, d, now);
      assert ticked.(rt := s.rt).(rt := Some(rt)) == ticked;
      PersistedKeepsLog(env, ticked, d, now);
      AnnouncedThreads(env, s, Persisted(env.rule, env.id, ticked, d, now).0, d, now, route);
    } else {
      assert Threaded(env, ticked, route.key);
      if d.shouldStore {
        AnnouncedQuiet(env, ticked, d, now);
      }
    }
  }

  lemma RepeatThreads(env: Env, s: Slice, now: Instant, routes: seq<Route>, route: Route)
    requires Working(env) && route in env.rule.routes && ThreadRoute(route) && Threaded(env, s, route.key) && L.StateOf(s.rt) == Firing
    requires DistinctKeys(routes) && forall r :: r in routes ==> r in env.rule.routes
    ensures var t := Dispatched(env.cfg, env.world, env.rule, env.id, s, Firing, now, routes).0;
            Threaded(env, t, route.key) && L.StateOf(t.rt) == Firing
  {
    hide Dispatched, On, StoredRef, ThreadOf, Made, Working;
    FiringPosts(env, s, now, routes, route);
    DispatchedKeeps(env, s, Firing, now, routes);
  }

  lemma {:induction false} RepeatRoutesThread(env: Env, s: Slice, now: Instant, routes: seq<Route>, route: Route)
    requires Working(env) && route in env.rule.routes && ThreadRoute(route) && Threaded(env, s, route.key) && L.StateOf(s.rt) == Firing
    requires forall r :: r in routes ==> r in env.rule.routes
    ensures var t := RepeatRoutes(env.cfg, env.world, env.rule, env.id, s, now, routes);
            Threaded(env, t, route.key) && L.StateOf(t.rt) == Firing
    decreases |routes|
  {
    hide Dispatched, Threaded, Working, RepeatDue;
    if routes != [] {
      RepeatThreads(env, s, now, [routes[0]], route);
      var next := if RepeatDue(env.cfg, env.rule, SliceMarks(s), routes[0].key, now)
                  then Dispatched(env.cfg, env.world, env.rule, env.id, s, Firing, now, [routes[0]]).0 else s;
      RepeatRoutesThread(env, next, now, routes[1..], route);
    }
  }

  lemma RepeatedThreads(env: Env, s: Slice, now: Instant, route: Route)
    requires Working(env) && route in env.rule.routes && ThreadRoute(route) && Threaded(env, s, route.key) && L.StateOf(s.rt) == Firing
    ensures var t := Repeated(env.cfg, env.world, env.rule, env.id, s, now);
            Threaded(env, t, route.key) && L.StateOf(t.rt) == Firing
  {
    hide Dispatched, Threaded, RepeatRoutes, RepeatDue;
    RepeatRoutesThread(env, s, now, env.rule.routes, route);
    RepeatThreads(env, s, now, env.rule.routes, route);
  }

  lemma DidThreads(env: Env, s: Slice, op: SliceOp, before: Time, route: Route)
    requires ValidRule(env.rule) && Favourable(env) && (op.Arrive? ==> ValidEvent(op.event))
    requires Synced(env, s, before) && before <= op.at && MessagesLive(env, s)
    requires route in env.rule.routes && ThreadRoute(route) && Threaded(env, s, route.key)
    ensures Continues(env, s, Did(env, s, op).0, route.key)
  {
    hide EventFlow, TickFlow, ExpiryFlow, Working, Threaded, Answers, MessagesLive;
    match op
    case Arrive(event, at) => EventThreads(env, s, event, at, before, route);
    case Tick(at) => TickThreads(env, s, at, before, route);
    case Evict(at) => EvictedThreads(env, s, route.key);
    case Expire(reason, looks, at) => ExpiryThreads(env, s, reason, looks, at, before, route);
  }

  lemma EvictedThreads(env: Env, s: Slice, key: string)
    requires Threaded(env, s, key)
    ensures MayEvict(s) ==> L.StateOf(s.rt) != Firing && Threaded(env, Evicted(s), key)
    ensures L.StateOf(s.rt) == Firing ==> s.rt != None
  {
    NoMarksNoRefs(key);
  }

  lemma EventThreads(env: Env, s: Slice, event: Event, now: Instant, before: Time, route: Route)
    requires ValidRule(env.rule) && Favourable(env) && ValidEvent(event) && Synced(env, s, before) && before <= now && MessagesLive(env, s)
    requires route in env.rule.routes && ThreadRoute(route) && Threaded(env, s, route.key)
    ensures Continues(env, s, EventFlow(env.cfg, env.world, env.rule, env.id, s, event, now, false).0, route.key)
  {
    hide EventStep, Applied, Working, MessagesLive, Threaded, Continues;
    EventMoves(env, s.rt, event, now, before);
    var (rt, d) := EventStep(env.rule, s.rt, env.id, event, now);
    AppliedThreads(env, s, rt, d, now, before, route);
  }

  lemma TickThreads(env: Env, s: Slice, now: Instant, before: Time, route: Route)
    requires ValidRule(env.rule) && Favourable(env) && Synced(env, s, before) && before <= now && MessagesLive(env, s)
    requires route in env.rule.routes && ThreadRoute(route) && Threaded(env, s, route.key)
    ensures Continues(env, s, TickFlow(env.cfg, env.world, env.rule, env.id, s, now).0, route.key)
  {
    hide TickOf, Applied, Working, MessagesLive, Threaded, Answers, Repeated;
    if s.rt.Some? {
      TickMoves(env, s.rt.value, now, before);
      var r := TickOf(env.rule, s.rt.value, now);
      var d := if r.decision.Some? then r.decision.value else NO_DECISION;
      AppliedThreads(env, s, r.rt, d, now, before, route);
      NothingDecided(env, s.(rt := Some(r.rt)), now);
      TickDecidedSyncs(env, s, now, before);
      if r.firing {
        RepeatedThreads(env, TickDecided(env.cfg, env.world, env.rule, env.id, s, now).0, now, route);
        FiringIsKnown(Repeated(env.cfg, env.world, env.rule, env.id, TickDecided(env.cfg, env.world, env.rule, env.id, s, now).0, now));
      }
    }
  }

  lemma FiringIsKnown(s: Slice)
    ensures L.StateOf(s.rt) == Firing ==> s.rt.Some?
  {
  }

  lemma ExpiryThreads(env: Env, s: Slice, reason: string, looks: Looks, now: Instant, before: Time, route: Route)
    requires Favourable(env) && Synced(env, s, before) && MessagesLive(env, s)
    requires route in env.rule.routes && ThreadRoute(route) && Threaded(env, s, route.key)
    ensures Continues(env, s, ExpiryFlow(env.cfg, env.world, env.rule, env.id, s, reason, looks, now), route.key)
  {
    hide Dispatched, StoredRef, LiveOf, On, Working, ThreadOf, Made;
    NoMarksNoRefs(route.key);
    if !Ticking(s.tick, looks) && s.card.Some? {
      var expired := ExpiredCard(s.card.value.card, reason, now);
      var stored := s.(tick := None, card := Some(VersionedCard(expired, s.card.value.revision + 1)),
                       rt := SeededRt(s.rt, expired.externalRefs));
      SeedingEqual(s.rt.value.marks.refs);
      assert stored.rt == s.rt;
      forall r | r in env.rule.routes && IsTracker(r.channel) ensures StoredRef(SliceMarks(stored), r.key).Some? {
        assert OwnsMessage(r) && !env.rule.pendingEnabled;
      }
      ResolvedRemovesMessages(env, stored, now);
      if L.StateOf(s.rt) == Firing {
        ResolvedPosts(env, stored, now, route);
        var t := Dispatched(env.cfg, env.world, env.rule, env.id, stored, Resolved, now, env.rule.routes).0;
        assert Answers(s, t, route.key);
        assert Answers(s, Removed(t), route.key);
      }
    }
  }

  // ---------------------------------------------------------------------------
  // Runs.

  lemma {:induction false} RunThreads(env: Env, ops: seq<SliceOp>, route: Route)
    requires ValidRule(env.rule) && Favourable(env) && WellTimed(ops)
    requires route in env.rule.routes && ThreadRoute(route)
    ensures Threaded(env, After(env, ops), route.key)
  {
    hide Did, Working, Threaded, Synced, MessagesLive;
    if ops != [] {
      var prefix := ops[..|ops| - 1];
      MessagesFollowAlerts(env, prefix);
      RunThreads(env, prefix, route);
      DidThreads(env, After(env, prefix), ops[|ops| - 1], LastTime(prefix), route);
    } else {
      NothingThreaded(env, route.key);
    }
  }

  lemma NothingThreaded(env: Env, key: string)
    ensures Threaded(env, NO_SLICE, key)
  {
  }

  /** No two answers of the transports make the same reference. */
  ghost predicate Fresh(env: Env) {
    forall i: nat, j: nat :: i != j ==> env.world.reply(env.id, i) != env.world.reply(env.id, j)
  }

  /** Main result on threads: over any run, the notification that resolves a firing alert is one post that
      answers the latest post of the episode, and that is the opening post exactly when no repeat was posted. */
  lemma ResolvedAnswersOpeningIff(env: Env, ops: seq<SliceOp>, route: Route)
    requires ValidRule(env.rule) && Favourable(env) && Fresh(env) && WellTimed(ops) && ops != []
    requires route in env.rule.routes && ThreadRoute(route)
    requires var prefix := ops[..|ops| - 1];
             L.StateOf(After(env, prefix).rt) == Firing && After(env, ops).rt == None
    ensures var before := After(env, ops[..|ops| - 1]);
            var thread := ThreadOf(On(before.log, route.key));
            && thread.Posts? && StoredRef(SliceMarks(before), route.key) == Some(thread.last)
            && Answers(before, After(env, ops), route.key)
            && (thread.last == thread.first <==> thread.count == 1)
  {
    hide Did, Working, Synced, MessagesLive, Answers, On, ThreadOf, StoredRef;
    var prefix := ops[..|ops| - 1];
    MessagesFollowAlerts(env, prefix);
    RunThreads(env, prefix, route);
    DidThreads(env, After(env, prefix), ops[|ops| - 1], LastTime(prefix), route);
  }
}
