/** What the log says was asked of each transport: over any run, whatever the transports answer, each
    entry is what its route's channel asks for, with the answer to that very delivery. */
module Requests {
  import opened Domain
  import opened EngineSpec
  import opened Cards
  import opened OffWindows
  import opened Delivery
  import opened AlertFlow
  import opened AlertRuns

  /** What the n-th delivery may be on a route: a tracker opens or resolves an issue or stays quiet, an owned message is
      created, edited or removed, and a history is posted to. Over HTTP a post answers nothing. */
  predicate Proper(route: Route, op: TransportOp, reply: Reply) {
    if route.channel == Jira || route.channel == YouTrack then
      op == Quiet || (reply.Accepted? && (op == Create(reply.ref) || op.Remove?))
    else
      && reply.Accepted?
      && (if route.mode == ActiveOnly then op == Create(reply.ref) || op.Edit? || op.Remove?
          else op.Post? && op.posted == reply.ref && (route.channel == Http ==> op.replyTo == None))
  }

  /** The entry was made for the route, and answered like this. A rejection is the transport's, or that of a
      tracker without an issue. */
  predicate Records(route: Route, entry: Entry, reply: Reply) {
    && entry.key == route.key
    && (if entry.Delivered? then Proper(route, entry.op, reply)
        else reply.Failed? || route.channel == Jira || route.channel == YouTrack)
  }

  ghost predicate AllProper(env: Env, log: seq<Entry>) {
    forall i :: 0 <= i < |log| ==>
      exists k :: 0 <= k < |env.rule.routes| && Records(env.rule.routes[k], log[i], env.world.reply(env.id, i))
  }

  predicate Among(routes: seq<Route>, all: seq<Route>) {
    forall i :: 0 <= i < |routes| ==> routes[i] in all
  }

  lemma ProperEntry(env: Env, log: seq<Entry>, route: Route, entry: Entry)
    requires AllProper(env, log) && route in env.rule.routes && Records(route, entry, env.world.reply(env.id, |log|))
    ensures AllProper(env, log + [entry])
  {
    hide Records;
    var k :| 0 <= k < |env.rule.routes| && env.rule.routes[k] == route;
    assert Records(env.rule.routes[k], (log + [entry])[|log|], env.world.reply(env.id, |log|));
  }

  lemma SendIsProper(route: Route, marks: Marks, state: AlertState, reply: Reply, at: Time)
    requires !Skips(marks, route, state)
    ensures var sent := SendOn(route, marks, state, reply);
            Records(route, if sent.Some? then Delivered(route.key, at, sent.value.0) else Rejected(route.key, at), reply)
  {
  }

  lemma {:induction false} SendAllIsProper(env: Env, routes: seq<Route>, marks: Marks, state: AlertState, at: Time, log: seq<Entry>)
    requires AllProper(env, log) && Among(routes, env.rule.routes)
    ensures AllProper(env, SendAll(env.world, env.id, routes, marks, state, at, log).log)
    decreases |routes|
  {
    hide SendOn, Skips, AllProper, Records;
    if routes != [] {
      var route, rest := routes[0], routes[1..];
      assert Among(rest, env.rule.routes) by {
        assert forall i :: 0 <= i < |rest| ==> rest[i] == routes[i + 1];
      }
      if Skips(marks, route, state) {
        SendAllIsProper(env, rest, marks, state, at, log);
      } else {
        var sent := SendOn(route, marks, state, env.world.reply(env.id, |log|));
        var entry := if sent.Some? then Delivered(route.key, at, sent.value.0) else Rejected(route.key, at);
        SendIsProper(route, marks, state, env.world.reply(env.id, |log|), at);
        ProperEntry(env, log, route, entry);
        if sent.Some? {
          SendAllIsProper(env, rest, marks, state, at, log + [entry]);
        }
      }
    }
  }

  lemma DispatchedIsProper(env: Env, s: Slice, state: AlertState, now: Instant, routes: seq<Route>)
    requires AllProper(env, s.log) && Among(routes, env.rule.routes)
    ensures AllProper(env, Dispatched(env.cfg, env.world, env.rule, env.id, s, state, now, routes).0.log)
  {
    hide SendAll, CapturedAll, WithRefs, RefUpdates, AllProper, OffActive;
    SendAllIsProper(env, routes, SliceMarks(s), state, now, s.log);
  }

  lemma AppliedIsProper(env: Env, s: Slice, d: Decision, now: Instant)
    requires AllProper(env, s.log)
    ensures AllProper(env, Applied(env.cfg, env.world, env.rule, env.id, s, d, now, false).0.log)
  {
    hide Dispatched, AllProper, NewCard, UpdatedCard, Seeded;
    if (d.shouldStore || d.shouldNotify) && s.rt.Some? {
      var ticked := if d.shouldStore && d.state != Resolved then Refreshed(s, false, now, ResolveTimeout(env.rule)) else s;
      var stored := if d.stateChanged then Persisted(env.rule, env.id, ticked, d, now).0 else ticked;
      DispatchedIsProper(env, stored, d.state, now, env.rule.routes);
    }
  }

  lemma {:induction false} RepeatRoutesAreProper(env: Env, s: Slice, now: Instant, routes: seq<Route>)
    requires AllProper(env, s.log) && Among(routes, env.rule.routes)
    ensures AllProper(env, RepeatRoutes(env.cfg, env.world, env.rule, env.id, s, now, routes).log)
    decreases |routes|
  {
    hide Dispatched, AllProper, RepeatDue;
    if routes != [] {
      assert Among(routes[1..], env.rule.routes) by {
        assert forall i :: 0 <= i < |routes[1..]| ==> routes[1..][i] == routes[i + 1];
      }
      DispatchedIsProper(env, s, Firing, now, [routes[0]]);
      var next := if RepeatDue(env.cfg, env.rule, SliceMarks(s), routes[0].key, now)
                  then Dispatched(env.cfg, env.world, env.rule, env.id, s, Firing, now, [routes[0]]).0 else s;
      RepeatRoutesAreProper(env, next, now, routes[1..]);
    }
  }

  lemma TickIsProper(env: Env, s: Slice, now: Instant)
    requires AllProper(env, s.log)
    ensures AllProper(env, TickFlow(env.cfg, env.world, env.rule, env.id, s, now).0.log)
  {
    hide TickOf, Applied, Dispatched, RepeatRoutes, AllProper, RepeatDue;
    if s.rt.Some? {
      var r := TickOf(env.rule, s.rt.value, now);
      if r.decision.Some? {
        AppliedIsProper(env, s.(rt := Some(r.rt)), r.decision.value, now);
      }
      var decided := TickDecided(env.cfg, env.world, env.rule, env.id, s, now).0;
      RepeatRoutesAreProper(env, decided, now, env.rule.routes);
      DispatchedIsProper(env, decided, Firing, now, env.rule.routes);
    }
  }

  lemma ExpiryIsProper(env: Env, s: Slice, reason: string, looks: Looks, now: Instant)
    requires AllProper(env, s.log)
    ensures AllProper(env, ExpiryFlow(env.cfg, env.world, env.rule, env.id, s, reason, looks, now).log)
  {
    hide Dispatched, AllProper, Seeded;
    if !Ticking(s.tick, looks) && s.card.Some? {
      var expired := ExpiredCard(s.card.value.card, reason, now);
      var stored := s.(tick := None, card := Some(VersionedCard(expired, s.card.value.revision + 1)),
                       rt := SeededRt(s.rt, expired.externalRefs));
      DispatchedIsProper(env, stored, Resolved, now, env.rule.routes);
    }
  }

  lemma {:induction false} RunIsProper(env: Env, ops: seq<SliceOp>)
    ensures AllProper(env, After(env, ops).log)
  {
    hide EventStep, Applied, TickFlow, ExpiryFlow, AllProper;
    if ops == [] {
      NothingAsked(env);
    } else {
      var s, op := After(env, ops[..|ops| - 1]), ops[|ops| - 1];
      RunIsProper(env, ops[..|ops| - 1]);
      match op
      case Arrive(event, at) =>
        var (rt, d) := EventStep(env.rule, s.rt, env.id, event, at);
        AppliedIsProper(env, s.(rt := Some(rt)), d, at);
      case Tick(at) => TickIsProper(env, s, at);
      case Evict(at) =>
      case Expire(reason, looks, at) => ExpiryIsProper(env, s, reason, looks, at);
    }
  }

  lemma NothingAsked(env: Env)
    ensures AllProper(env, [])
  {
  }

  /** Main result on requests: over any run, every delivery on a route is what the route's channel asks for. A history
      route that is no tracker has posted the transport's answer to that very delivery, over HTTP without a message
      to answer, and only a tracker is ever left unasked. */
  lemma EntriesAreRequests(env: Env, ops: seq<SliceOp>, route: Route, i: nat)
    requires route in env.rule.routes && forall other :: other in env.rule.routes && other.key == route.key ==> other == route
    requires i < |After(env, ops).log| && After(env, ops).log[i].key == route.key
    ensures Records(route, After(env, ops).log[i], env.world.reply(env.id, i))
  {
    hide After, Records;
    RunIsProper(env, ops);
    var entry := After(env, ops).log[i];
    var k :| 0 <= k < |env.rule.routes| && Records(env.rule.routes[k], entry, env.world.reply(env.id, i));
    RecordsKey(env.rule.routes[k], entry, env.world.reply(env.id, i));
  }

  lemma RecordsKey(route: Route, entry: Entry, reply: Reply)
    ensures Records(route, entry, reply) ==> entry.key == route.key
  {
  }
}
