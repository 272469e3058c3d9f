/** Replies on Telegram history routes: a resolved notification answers the first post of its episode. */
module Replies {
  import opened Domain
  import opened EngineSpec
  import opened Cards
  import opened Delivery
  import opened AlertFlow
  import opened AlertRuns
  import opened Messages
  import opened Repeats
  import opened Threads
  import L = Lifecycle

  predicate ReplyRoute(route: Route) {
    route.channel == Telegram && route.mode == History
  }

  function MessageOf(marks: Marks, key: string): Option<string> {
    Lookup(marks.messages, key)
  }

  lemma {:induction false} OnConcat(a: seq<Entry>, b: seq<Entry>, key: string)
    ensures On(a + b, key) == On(a, key) + On(b, key)
    decreases |b|
  {
    if b == [] {
      assert a + b == a;
    } else {
      var last := |b| - 1;
      assert (a + b)[..|a + b| - 1] == a + b[..last];
      OnConcat(a, b[..last], key);
    }
  }

  // ---------------------------------------------------------------------------
  // One notification.

  /** A route without the key neither posts on it nor changes the message remembered for it. */
  lemma {:induction false} OthersRemember(world: World, id: AlertId, routes: seq<Route>, marks: Marks, state: AlertState,
                                          at: Time, log: seq<Entry>, key: string, perChannel: bool, kept: Marks)
    requires !HasKey(routes, key)
    ensures MessageOf(CapturedAll(perChannel, kept, state, at, SendAll(world, id, routes, marks, state, at, log).results), key) == MessageOf(kept, key)
    decreases |routes|
  {
    hide SendOn, Skips;
    if routes != [] {
      var route, rest := routes[0], routes[1..];
      assert forall i :: 0 <= i < |rest| ==> rest[i] == routes[i + 1];
      var sent := SendOn(route, marks, state, world.reply(id, |log|));
      if Skips(marks, route, state) {
        OthersRemember(world, id, rest, marks, state, at, log, key, perChannel, kept);
      } else if sent.Some? {
        var next := Captured(perChannel, kept, state, at, route, sent.value.1);
        OthersRemember(world, id, rest, marks, state, at, log + [Delivered(route.key, at, sent.value.0)], key, perChannel, next);
      }
    }
  }

  lemma ReplySend(route: Route, marks: Marks, state: AlertState, reply: Reply, perChannel: bool, kept: Marks, at: Time)
    requires ReplyRoute(route) && reply.Accepted?
    ensures !Skips(marks, route, state) && SendOn(route, marks, state, reply).Some?
    ensures var (op, result) := SendOn(route, marks, state, reply).value;
            && op == Post(reply.ref, if state == Resolved then MessageOf(marks, route.key) else None)
            && (state != Resolved ==>
                  MessageOf(Captured(perChannel, kept, state, at, route, result), route.key) ==
                  if MessageOf(kept, route.key).Some? then MessageOf(kept, route.key) else Some(reply.ref))
  {
  }

  /** A successful notification posts once on the route; a resolved one answers the remembered message, and the first
      other one is remembered. */
  lemma {:induction false} RouteReplies(world: World, id: AlertId, routes: seq<Route>, marks: Marks, state: AlertState,
                                        at: Time, log: seq<Entry>, route: Route, perChannel: bool, kept: Marks) returns (post: Ref)
    requires Reliable(world) && DistinctKeys(routes) && route in routes && ReplyRoute(route)
    requires SendAll(world, id, routes, marks, state, at, log).ok
    ensures var batch := SendAll(world, id, routes, marks, state, at, log);
            && On(batch.log, route.key) == On(log, route.key) + [Post(post, if state == Resolved then MessageOf(marks, route.key) else None)]
            && (state != Resolved ==>
                  MessageOf(CapturedAll(perChannel, kept, state, at, batch.results), route.key) ==
                  if MessageOf(kept, route.key).Some? then MessageOf(kept, route.key) else Some(post))
    decreases |routes|
  {
    hide SendOn, Skips, Captured, On, MessageOf;
    var head, rest := routes[0], routes[1..];
    assert routes == [head] + rest && DistinctKeys(rest);
    var sent := SendOn(head, marks, state, world.reply(id, |log|));
    if head == route {
      assert !HasKey(rest, route.key);
      ReplySend(route, marks, state, world.reply(id, |log|), perChannel, kept, at);
      var entry := Delivered(head.key, at, sent.value.0);
      OnAppend(log, entry, route.key);
      var next := Captured(perChannel, kept, state, at, head, sent.value.1);
      OthersPost(world, id, rest, marks, state, at, log + [entry], route.key);
      OthersRemember(world, id, rest, marks, state, at, log + [entry], route.key, perChannel, next);
      post := world.reply(id, |log|).ref;
    } else {
      assert head.key != route.key by {
        var i :| 0 <= i < |routes| && routes[i] == route;
      }
      if Skips(marks, head, state) {
        post := RouteReplies(world, id, rest, marks, state, at, log, route, perChannel, kept);
      } else {
        var entry := Delivered(head.key, at, sent.value.0);
        OnAppend(log, entry, route.key);
        OtherRemembers(perChannel, kept, state, at, head, sent.value.1, route.key);
        var next := Captured(perChannel, kept, state, at, head, sent.value.1);
        post := RouteReplies(world, id, rest, marks, state, at, log + [entry], route, perChannel, next);
      }
    }
  }

  lemma OtherRemembers(perChannel: bool, marks: Marks, state: AlertState, at: Time, route: Route, result: SendResult, key: string)
    requires route.key != key
    ensures MessageOf(Captured(perChannel, marks, state, at, route, result), key) == MessageOf(marks, key)
  {
  }

  /** The posts of the episode that began at log position `from`: none before the alert fires, and then the first is
      the one the engine remembers. */
  ghost predicate Remembers(env: Env, s: Slice, from: nat, key: string) {
    && from <= |s.log|
    && var posts := On(s.log[from..], key);
       if L.StateOf(s.rt) == Firing then posts != [] && posts[0].Post? && MessageOf(SliceMarks(s), key) == Some(posts[0].posted)
       else posts == [] && MessageOf(SliceMarks(s), key) == None
  }

  /** One more post on the route, in answer to the first of the episode. */
  ghost predicate AnswersFirst(before: Slice, after: Slice, from: nat, key: string)
    requires from <= |before.log|
  {
    var posts := On(before.log[from..], key);
    && posts != [] && posts[0].Post?
    && exists post: Ref :: On(after.log, key) == On(before.log, key) + [Post(post, Some(posts[0].posted))]
  }

  lemma SuffixOn(log: seq<Entry>, longer: seq<Entry>, from: nat, key: string, more: seq<TransportOp>)
    requires from <= |log| <= |longer| && longer[..|log|] == log && On(longer, key) == On(log, key) + more
    ensures On(longer[from..], key) == On(log[from..], key) + more
  {
    hide On;
    OnConcat(log[..from], log[from..], key);
    OnConcat(longer[..from], longer[from..], key);
    assert log == log[..from] + log[from..] && longer == longer[..from] + longer[from..];
    assert longer[..from] == log[..from];
    var head := On(log[..from], key);
    assert head + On(longer[from..], key) == head + (On(log[from..], key) + more);
    DropHead(head, On(longer[from..], key), On(log[from..], key) + more);
  }

  /** A firing notification that includes the route leaves its first post remembered. */
  lemma FiringRemembers(env: Env, s: Slice, now: Instant, routes: seq<Route>, route: Route, from: nat)
    requires Working(env) && s.rt.Some? && route in env.rule.routes && ReplyRoute(route) && from <= |s.log|
    requires DistinctKeys(routes) && forall r :: r in routes ==> r in env.rule.routes
    requires var posts := On(s.log[from..], route.key);
             if posts == [] then MessageOf(SliceMarks(s), route.key) == None && route in routes
             else posts[0].Post? && MessageOf(SliceMarks(s), route.key) == Some(posts[0].posted)
    ensures var t := Dispatched(env.cfg, env.world, env.rule, env.id, s, Firing, now, routes).0;
            && from <= |t.log|
            && var posts := On(t.log[from..], route.key);
               posts != [] && posts[0].Post? && MessageOf(SliceMarks(t), route.key) == Some(posts[0].posted)
  {
    hide SendAll, CapturedAll, On, MessageOf, WithRefs, RefUpdates;
    var marks, key := SliceMarks(s), route.key;
    FailsIffBlocked(env.world, env.id, routes, marks, Firing, now, s.log);
    DispatchedLog(env, s, Firing, now, routes);
    var t := Dispatched(env.cfg, env.world, env.rule, env.id, s, Firing, now, routes).0;
    if route in routes {
      var post := RouteReplies(env.world, env.id, routes, marks, Firing, now, s.log, route, env.cfg.repeatPerChannel, marks);
      SuffixOn(s.log, t.log, from, key, [Post(post, None)]);
    } else {
      if HasKey(routes, key) {
        var i :| 0 <= i < |routes| && routes[i].key == key;
        SameKeySameRoute(env.rule.routes, routes[i], route);
      }
      OthersPost(env.world, env.id, routes, marks, Firing, now, s.log, key);
      OthersRemember(env.world, env.id, routes, marks, Firing, now, s.log, key, env.cfg.repeatPerChannel, marks);
      assert On(s.log, key) == On(s.log, key) + [];
      SuffixOn(s.log, t.log, from, key, []);
    }
  }

  lemma ResolvedReplies(env: Env, s: Slice, now: Instant, route: Route, from: nat)
    requires Working(env) && route in env.rule.routes && ReplyRoute(route) && from <= |s.log|
    requires var posts := On(s.log[from..], route.key);
             posts != [] && posts[0].Post? && MessageOf(SliceMarks(s), route.key) == Some(posts[0].posted)
    requires Dispatched(env.cfg, env.world, env.rule, env.id, s, Resolved, now, env.rule.routes).1
    ensures AnswersFirst(s, Dispatched(env.cfg, env.world, env.rule, env.id, s, Resolved, now, env.rule.routes).0, from, route.key)
  {
    hide SendAll, CapturedAll, On, MessageOf, WithRefs, RefUpdates;
    var post := RouteReplies(env.world, env.id, env.rule.routes, SliceMarks(s), Resolved, now, s.log, route, env.cfg.repeatPerChannel, SliceMarks(s));
  }

  // ---------------------------------------------------------------------------
  // One operation.

  /** After an operation: the first post is remembered, or the episode is over; a firing alert that closed was answered. */
  ghost predicate GoesOn(env: Env, s: Slice, t: Slice, from: nat, key: string) {
    && from <= |s.log|
    && (if t.rt == None then MessageOf(SliceMarks(t), key) == None else Remembers(env, t, from, key))
    && (L.StateOf(s.rt) == Firing && t.rt == None ==> AnswersFirst(s, t, from, key))
  }

  lemma NoMarksNoMessage(key: string)
    ensures MessageOf(NO_MARKS, key) == None
  {
  }

  lemma AnnouncedReplies(env: Env, s: Slice, stored: Slice, d: Decision, now: Instant, route: Route, from: nat)
    requires Working(env) && route in env.rule.routes && ReplyRoute(route) && Remembers(env, s, from, route.key)
    requires stored.rt.Some? && stored.log == s.log && SliceMarks(stored) == SliceMarks(s) && L.StateOf(s.rt) != Resolved
    requires d.stateChanged && Decides(L.StateOf(s.rt), RaisedAt(s.rt), stored.rt.value, d, now)
    ensures var (t, ok) := Announced(env.cfg, env.world, env.rule, env.id, stored, d, now, true);
            ok ==> GoesOn(env, s, t, from, route.key)
  {
    hide Dispatched, On, Working, MessageOf;
    NoMarksNoMessage(route.key);
    if d.state == Firing {
      WorkingRoutes(env);
      FiringRemembers(env, stored, now, env.rule.routes, route, from);
      DispatchedKeeps(env, stored, Firing, now, env.rule.routes);
    } else if d.state == Resolved && Dispatched(env.cfg, env.world, env.rule, env.id, stored, Resolved, now, env.rule.routes).1 {
      if L.StateOf(s.rt) == Firing {
        ResolvedReplies(env, stored, now, route, from);
        var t := Dispatched(env.cfg, env.world, env.rule, env.id, stored, Resolved, now, env.rule.routes).0;
        assert AnswersFirst(s, t, from, route.key);
        assert AnswersFirst(s, Removed(t), from, route.key);
      }
    }
  }

  lemma AppliedReplies(env: Env, s: Slice, rt: Rt, d: Decision, now: Instant, before: Time, route: Route, from: nat)
    requires ValidRule(env.rule) && Favourable(env) && Synced(env, s, before) && before <= now && MessagesLive(env, s)
    requires Moves(env, s.rt, rt, d, now)
    requires route in env.rule.routes && ReplyRoute(route) && Remembers(env, s, from, route.key)
    ensures var (t, ok) := Applied(env.cfg, env.world, env.rule, env.id, s.(rt := Some(rt)), d, now, false);
            ok && GoesOn(env, s, t, from, route.key)
  {
    hide Persisted, Announced, On, Working, MessagesLive, MessageOf;
    AppliedMessages(env, s, rt, d, now, before);
    var moved := s.(rt := Some(rt));
    assert SliceMarks(moved) == SliceMarks(s);
    var ticked := if d.shouldStore && d.state != Resolved then Refreshed(moved, false, now, ResolveTimeout(env.rule)) else moved;
    assert ticked == moved.(tick := ticked.tick);
    if d.stateChanged {
      PersistedMirrors(env, ticked.(rt := s.rt), rt, d, now);
      assert ticked.(rt := s.rt).(rt := Some(rt)) == ticked;
      PersistedKeepsLog(env, ticked, d, now);
      AnnouncedReplies(env, s, Persisted(env.rule, env.id, ticked, d, now).0, d, now, route, from);
    } else {
      assert Remembers(env, ticked, from, route.key);
      if d.shouldStore {
        AnnouncedQuiet(env, ticked, d, now);
      }
    }
  }

  lemma RepeatReplies(env: Env, s: Slice, now: Instant, routes: seq<Route>, route: Route, from: nat)
    requires Working(env) && route in env.rule.routes && ReplyRoute(route) && Remembers(env, s, from, route.key) && L.StateOf(s.rt) == Firing
    requires DistinctKeys(routes) && forall r :: r in routes ==> r in env.rule.routes
    ensures var t := Dispatched(env.cfg, env.world, env.rule, env.id, s, Firing, now, routes).0;
            Remembers(env, t, from, route.key) && L.StateOf(t.rt) == Firing
  {
    hide Dispatched, On, MessageOf, Working;
    FiringRemembers(env, s, now, routes, route, from);
    DispatchedKeeps(env, s, Firing, now, routes);
  }

  lemma {:induction false} RepeatRoutesReply(env: Env, s: Slice, now: Instant, routes: seq<Route>, route: Route, from: nat)
    requires Working(env) && route in env.rule.routes && ReplyRoute(route) && Remembers(env, s, from, route.key) && L.StateOf(s.rt) == Firing
    requires forall r :: r in routes ==> r in env.rule.routes
    ensures var t := RepeatRoutes(env.cfg, env.world, env.rule, env.id, s, now, routes);
            Remembers(env, t, from, route.key) && L.StateOf(t.rt) == Firing
    decreases |routes|
  {
    hide Dispatched, Remembers, Working, RepeatDue;
    if routes != [] {
      RepeatReplies(env, s, now, [routes[0]], route, from);
      var next := if RepeatDue(env.cfg, env.rule, SliceMarks(s), routes[0].key, now)
                  then Dispatched(env.cfg, env.world, env.rule, env.id, s, Firing, now, [routes[0]]).0 else s;
      RepeatRoutesReply(env, next, now, routes[1..], route, from);
    }
  }

  lemma RepeatedReplies(env: Env, s: Slice, now: Instant, route: Route, from: nat)
    requires Working(env) && route in env.rule.routes && ReplyRoute(route) && Remembers(env, s, from, route.key) && L.StateOf(s.rt) == Firing
    ensures var t := Repeated(env.cfg, env.world, env.rule, env.id, s, now);
            Remembers(env, t, from, route.key) && L.StateOf(t.rt) == Firing
  {
    hide Dispatched, Remembers, RepeatRoutes, RepeatDue;
    RepeatRoutesReply(env, s, now, env.rule.routes, route, from);
    RepeatReplies(env, s, now, env.rule.routes, route, from);
  }

  lemma DidReplies(env: Env, s: Slice, op: SliceOp, before: Time, route: Route, from: nat)
    requires ValidRule(env.rule) && Favourable(env) && Synced(env, s, before) && Timely(op, before) && MessagesLive(env, s)
    requires route in env.rule.routes && ReplyRoute(route) && Remembers(env, s, from, route.key)
    ensures GoesOn(env, s, Did(env, s, op).0, from, route.key)
  {
    hide EventFlow, TickFlow, ExpiryFlow, Working, On, MessageOf, MessagesLive;
    NoMarksNoMessage(route.key);
    match op
    case Arrive(event, at) => EventReplies(env, s, event, at, before, route, from);
    case Tick(at) => TickReplies(env, s, at, before, route, from);
    case Evict(at) =>
    case Expire(reason, looks, at) => ExpiryReplies(env, s, reason, looks, at, before, route, from);
  }

  lemma EventReplies(env: Env, s: Slice, event: Event, now: Instant, before: Time, route: Route, from: nat)
    requires ValidRule(env.rule) && Favourable(env) && ValidEvent(event) && Synced(env, s, before) && before <= now && MessagesLive(env, s)
    requires route in env.rule.routes && ReplyRoute(route) && Remembers(env, s, from, route.key)
    ensures GoesOn(env, s, EventFlow(env.cfg, env.world, env.rule, env.id, s, event, now, false).0, from, route.key)
  {
    hide EventStep, Applied, Working, MessagesLive, Remembers, GoesOn;
    EventMoves(env, s.rt, event, now, before);
    var (rt, d) := EventStep(env.rule, s.rt, env.id, event, now);
    AppliedReplies(env, s, rt, d, now, before, route, from);
  }

  lemma TickReplies(env: Env, s: Slice, now: Instant, before: Time, route: Route, from: nat)
    requires ValidRule(env.rule) && Favourable(env) && Synced(env, s, before) && before <= now && MessagesLive(env, s)
    requires route in env.rule.routes && ReplyRoute(route) && Remembers(env, s, from, route.key)
    ensures GoesOn(env, s, TickFlow(env.cfg, env.world, env.rule, env.id, s, now).0, from, route.key)
  {
    hide TickOf, Applied, Working, MessagesLive, On, MessageOf, Repeated;
    NoMarksNoMessage(route.key);
    if s.rt.Some? {
      TickMoves(env, s.rt.value, now, before);
      var r := TickOf(env.rule, s.rt.value, now);
      var d := if r.decision.Some? then r.decision.value else NO_DECISION;
      AppliedReplies(env, s, r.rt, d, now, before, route, from);
      NothingDecided(env, s.(rt := Some(r.rt)), now);
      TickDecidedSyncs(env, s, now, before);
      if r.firing {
        RepeatedReplies(env, TickDecided(env.cfg, env.world, env.rule, env.id, s, now).0, now, route, from);
      }
    }
  }

  lemma ExpiryReplies(env: Env, s: Slice, reason: string, looks: Looks, now: Instant, before: Time, route: Route, from: nat)
    requires Favourable(env) && Synced(env, s, before) && MessagesLive(env, s)
    requires route in env.rule.routes && ReplyRoute(route) && Remembers(env, s, from, route.key)
    ensures GoesOn(env, s, ExpiryFlow(env.cfg, env.world, env.rule, env.id, s, reason, looks, now), from, route.key)
  {
    hide Dispatched, StoredRef, LiveOf, On, Working, MessageOf;
    NoMarksNoMessage(route.key);
    if !Ticking(s.tick, looks) && s.card.Some? {
      var expired := ExpiredCard(s.card.value.card, reason, now);
      var stored := s.(tick := None, card := Some(VersionedCard(expired, s.card.value.revision + 1)),
                       rt := SeededRt(s.rt, expired.externalRefs));
      SeedingEqual(s.rt.value.marks.refs);
      assert stored.rt == s.rt;
      forall r | r in env.rule.routes && IsTracker(r.channel) ensures StoredRef(SliceMarks(stored), r.key).Some? {
        assert OwnsMessage(r) && !env.rule.pendingEnabled;
      }
      ResolvedRemovesMessages(env, stored, now);
      if L.StateOf(s.rt) == Firing {
        ResolvedReplies(env, stored, now, route, from);
        var t := Dispatched(env.cfg, env.world, env.rule, env.id, stored, Resolved, now, env.rule.routes).0;
        assert AnswersFirst(s, t, from, route.key);
        assert AnswersFirst(s, Removed(t), from, route.key);
      }
    }
  }

  // ---------------------------------------------------------------------------
  // Runs.

  lemma {:induction false} RunReplies(env: Env, ops: seq<SliceOp>, route: Route)
    requires ValidRule(env.rule) && Favourable(env) && WellTimed(ops)
    requires route in env.rule.routes && ReplyRoute(route)
    ensures Remembers(env, After(env, ops), EpisodeStart(env, ops), route.key)
  {
    hide Did, Working, Synced, MessagesLive, On, MessageOf;
    NoMarksNoMessage(route.key);
    if ops != [] {
      var prefix := ops[..|ops| - 1];
      MessagesFollowAlerts(env, prefix);
      RunReplies(env, prefix, route);
      DidReplies(env, After(env, prefix), ops[|ops| - 1], LastTime(prefix), route, EpisodeStart(env, prefix));
    }
    NothingOn(After(env, ops).log, route.key);
  }

  lemma NothingOn(log: seq<Entry>, key: string)
    ensures On(log[|log|..], key) == []
  {
  }

  /** Main result on replies: over any run, the notification that resolves a firing alert is one Telegram post that
      answers the first post of the episode, however many repeats came between. */
  lemma ResolvedAnswersFirst(env: Env, ops: seq<SliceOp>, route: Route)
    requires ValidRule(env.rule) && Favourable(env) && WellTimed(ops) && ops != []
    requires route in env.rule.routes && ReplyRoute(route)
    requires var prefix := ops[..|ops| - 1];
             L.StateOf(After(env, prefix).rt) == Firing && After(env, ops).rt == None
    ensures var prefix := ops[..|ops| - 1];
            && EpisodeStart(env, prefix) <= |After(env, prefix).log|
            && AnswersFirst(After(env, prefix), After(env, ops), EpisodeStart(env, prefix), route.key)
  {
    hide Did, Working, Synced, MessagesLive, AnswersFirst, On, MessageOf;
    var prefix := ops[..|ops| - 1];
    MessagesFollowAlerts(env, prefix);
    RunReplies(env, prefix, route);
    DidReplies(env, After(env, prefix), ops[|ops| - 1], LastTime(prefix), route, EpisodeStart(env, prefix));
  }
}
