/** Repeat notifications: however a run interleaves transitions, repeats and restarts of the
    alert, repeats on one key keep their distance. */
module Repeats {
  import opened Domain
  import opened EngineSpec
  import opened Cards
  import opened Delivery
  import opened AlertFlow
  import opened AlertRuns
  import opened Messages

  function KeyFor(env: Env, key: string): string {
    if env.cfg.repeatPerChannel then key else GLOBAL_KEY
  }

  /** Where the deliveries of the current episode begin: the log's length when the engine last held nothing. */
  ghost function EpisodeStart(env: Env, ops: seq<SliceOp>): nat {
    if ops == [] || After(env, ops).rt.None? then |After(env, ops).log| else EpisodeStart(env, ops[..|ops| - 1])
  }

  ghost predicate AllOk(env: Env, ops: seq<SliceOp>) {
    ops == [] || (var prefix := ops[..|ops| - 1]; AllOk(env, prefix) && Did(env, After(env, prefix), ops[|ops| - 1]).1)
  }

  /** Every delivery of the episode is remembered under its repeat key, or a later one is. */
  ghost predicate Remembered(env: Env, s: Slice, from: nat, now: Time) {
    && from <= |s.log|
    && (forall i :: 0 <= i < |s.log| ==> ZERO_TIME < s.log[i].at <= now)
    && forall i :: from <= i < |s.log| && s.log[i].Delivered? ==>
         var key := KeyFor(env, s.log[i].key);
         key in SliceMarks(s).lastNotified && s.log[i].at <= SliceMarks(s).lastNotified[key]
  }

  /** Two deliveries on one repeat key, the later one made by the repeats that began at `start`;
      without a key per channel all deliveries of one notification count as one. */
  ghost predicate Spaced(env: Env, from: nat, start: nat, log: seq<Entry>) {
    forall i, j :: from <= i < j < |log| && start <= j && log[i].Delivered? && log[j].Delivered?
                   && KeyFor(env, log[i].key) == KeyFor(env, log[j].key) && (env.cfg.repeatPerChannel || i < start) ==>
                     log[j].at - log[i].at >= RepeatEvery(env.cfg, env.rule)
  }

  // ---------------------------------------------------------------------------
  // One notification.

  /** The log of one notification, and the results of a successful one. */
  lemma {:induction false} SentLog(world: World, id: AlertId, routes: seq<Route>, marks: Marks, state: AlertState, at: Time,
                                   log: seq<Entry>)
    ensures var batch := SendAll(world, id, routes, marks, state, at, log);
            && |log| <= |batch.log| <= |log| + |routes| && batch.log[..|log|] == log
            && (forall i :: |log| <= i < |batch.log| ==> batch.log[i].at == at && HasKey(routes, batch.log[i].key))
            && (batch.ok ==>
                  && |batch.log| == |log| + |batch.results|
                  && forall i :: |log| <= i < |batch.log| ==>
                       batch.log[i].Delivered? && batch.log[i].key == batch.results[i - |log|].0.key)
    decreases |routes|
  {
    hide SendOn, Skips;
    if routes != [] {
      var route, rest := routes[0], routes[1..];
      assert forall key :: HasKey(rest, key) ==> HasKey(routes, key) by {
        assert forall i :: 0 <= i < |rest| ==> rest[i] == routes[i + 1];
      }
      assert HasKey(routes, route.key);
      if Skips(marks, route, state) {
        SentLog(world, id, rest, marks, state, at, log);
      } else {
        var sent := SendOn(route, marks, state, world.reply(id, |log|));
        if sent.Some? {
          var longer := log + [Delivered(route.key, at, sent.value.0)];
          SentLog(world, id, rest, marks, state, at, longer);
          var batch := SendAll(world, id, rest, marks, state, at, longer);
          assert batch.log[..|log|] == batch.log[..|longer|][..|log|];
          assert batch.log[|log|] == batch.log[..|longer|][|log|];
        }
      }
    }
  }

  /** A capture moves delivery times only to the instant of the notification, on every key it delivered. */
  lemma {:induction false} CapturedTimes(env: Env, marks: Marks, state: AlertState, at: Time, results: seq<(Route, SendResult)>)
    ensures var after := CapturedAll(env.cfg.repeatPerChannel, marks, state, at, results).lastNotified;
            && (forall key :: key in marks.lastNotified ==> key in after && (after[key] == marks.lastNotified[key] || after[key] == at))
            && (forall i :: 0 <= i < |results| ==> Lookup(after, KeyFor(env, results[i].0.key)) == Some(at))
    decreases |results|
  {
    if results != [] {
      var next := Captured(env.cfg.repeatPerChannel, marks, state, at, results[0].0, results[0].1);
      assert next.lastNotified == marks.lastNotified[KeyFor(env, results[0].0.key) := at];
      hide Captured;
      CapturedTimes(env, next, state, at, results[1..]);
    }
  }

  lemma DispatchedRemembers(env: Env, s: Slice, state: AlertState, now: Instant, routes: seq<Route>, from: nat, before: Time)
    requires Remembered(env, s, from, before) && before <= now && s.rt.Some?
    ensures var (t, ok) := Dispatched(env.cfg, env.world, env.rule, env.id, s, state, now, routes);
            && t.rt.Some? && |s.log| <= |t.log| <= |s.log| + |routes| && t.log[..|s.log|] == s.log
            && (forall i :: |s.log| <= i < |t.log| ==> t.log[i].at == now)
            && (ok ==> Remembered(env, t, from, now)
                       && forall i :: |s.log| <= i < |t.log| ==> HasKey(routes, t.log[i].key))
  {
    hide SendAll, CapturedAll, WithRefs, RefUpdates;
    SentLog(env.world, env.id, routes, SliceMarks(s), state, now, s.log);
    var batch := SendAll(env.world, env.id, routes, SliceMarks(s), state, now, s.log);
    CapturedTimes(env, SliceMarks(s), state, now, batch.results);
    var (t, ok) := Dispatched(env.cfg, env.world, env.rule, env.id, s, state, now, routes);
    assert forall i :: 0 <= i < |s.log| ==> t.log[..|s.log|][i] == t.log[i];
    if ok {
      forall i | |s.log| <= i < |t.log|
        ensures Lookup(SliceMarks(t).lastNotified, KeyFor(env, t.log[i].key)) == Some(now)
      {
        assert batch.log[i].key == batch.results[i - |s.log|].0.key;
      }
    }
  }

  // ---------------------------------------------------------------------------
  // One operation.

  /** After an operation: the episode's deliveries are remembered, or the state is gone. */
  ghost predicate Follows(env: Env, s: Slice, t: Slice, from: nat, now: Time) {
    && |s.log| <= |t.log| && t.log[..|s.log|] == s.log
    && Remembered(env, t, if t.rt.None? then |t.log| else from, now)
  }

  lemma PersistedTimes(env: Env, s: Slice, d: Decision, now: Instant)
    requires s.rt.Some?
    ensures var t := Persisted(env.rule, env.id, s, d, now).0;
            t.log == s.log && t.rt.Some? && SliceMarks(t).lastNotified == SliceMarks(s).lastNotified
  {
    hide NewCard, UpdatedCard, Seeded;
  }

  lemma AnnouncedFollows(env: Env, s: Slice, d: Decision, now: Instant, allow: bool, from: nat, before: Time)
    requires Remembered(env, s, from, before) && before <= now && s.rt.Some?
    ensures var (t, ok) := Announced(env.cfg, env.world, env.rule, env.id, s, d, now, allow);
            ok ==> Follows(env, s, t, from, now)
  {
    hide Dispatched;
    DispatchedRemembers(env, s, d.state, now, env.rule.routes, from, before);
  }

  lemma AppliedFollows(env: Env, s: Slice, rt: Rt, d: Decision, now: Instant, from: nat, before: Time)
    requires Remembered(env, s, from, before) && before <= now && rt.marks == MarksIn(s.rt)
    ensures var (t, ok) := Applied(env.cfg, env.world, env.rule, env.id, s.(rt := Some(rt)), d, now, false);
            ok ==> Follows(env, s, t, from, now)
  {
    hide Announced, Persisted;
    var moved := s.(rt := Some(rt));
    assert SliceMarks(moved) == SliceMarks(s);
    var ticked := if d.shouldStore && d.state != Resolved then Refreshed(moved, false, now, ResolveTimeout(env.rule)) else moved;
    assert ticked == moved.(tick := ticked.tick);
    PersistedTimes(env, ticked, d, now);
    var (stored, allow) := if d.stateChanged then Persisted(env.rule, env.id, ticked, d, now) else (ticked, true);
    AnnouncedFollows(env, stored, d, now, allow, from, before);
  }

  lemma RepeatFollows(env: Env, s: Slice, now: Instant, routes: seq<Route>, from: nat, key: string)
    requires Reliable(env.world) && Remembered(env, s, from, now) && s.rt.Some?
    requires RepeatDue(env.cfg, env.rule, SliceMarks(s), key, now)
    requires key == if env.cfg.repeatPerChannel && |routes| == 1 then routes[0].key else GLOBAL_KEY
    requires env.cfg.repeatPerChannel ==> |routes| == 1
    ensures var t := Dispatched(env.cfg, env.world, env.rule, env.id, s, Firing, now, routes).0;
            && t.rt.Some? && Follows(env, s, t, from, now)
            && Spaced(env, from, |s.log|, t.log)
  {
    hide Dispatched;
    DispatchedRemembers(env, s, Firing, now, routes, from, now);
    RepeatSucceeds(env, s, now, routes);
    var t := Dispatched(env.cfg, env.world, env.rule, env.id, s, Firing, now, routes).0;
    assert forall i :: 0 <= i < |s.log| ==> t.log[..|s.log|][i] == t.log[i];
  }

  lemma RepeatSucceeds(env: Env, s: Slice, now: Instant, routes: seq<Route>)
    requires Reliable(env.world)
    ensures Dispatched(env.cfg, env.world, env.rule, env.id, s, Firing, now, routes).1
  {
    FailsIffBlocked(env.world, env.id, routes, SliceMarks(s), Firing, now, s.log);
  }

  lemma {:induction false} RepeatRoutesFollow(env: Env, s: Slice, now: Instant, routes: seq<Route>, from: nat, start: nat)
    requires Reliable(env.world) && env.cfg.repeatPerChannel
    requires Remembered(env, s, from, now) && s.rt.Some? && start <= |s.log| && Spaced(env, from, start, s.log)
    ensures var t := RepeatRoutes(env.cfg, env.world, env.rule, env.id, s, now, routes);
            && t.rt.Some? && Follows(env, s, t, from, now) && Spaced(env, from, start, t.log)
    decreases |routes|
  {
    hide Dispatched, Remembered, RepeatDue;
    if routes != [] {
      var next := s;
      if RepeatDue(env.cfg, env.rule, SliceMarks(s), routes[0].key, now) {
        RepeatFollows(env, s, now, [routes[0]], from, routes[0].key);
        next := Dispatched(env.cfg, env.world, env.rule, env.id, s, Firing, now, [routes[0]]).0;
        assert forall i :: 0 <= i < |s.log| ==> next.log[..|s.log|][i] == next.log[i];
        assert Spaced(env, from, start, next.log);
      }
      RepeatRoutesFollow(env, next, now, routes[1..], from, start);
      var t := RepeatRoutes(env.cfg, env.world, env.rule, env.id, next, now, routes[1..]);
      assert t.log[..|s.log|] == t.log[..|next.log|][..|s.log|];
    }
  }

  lemma RepeatedFollows(env: Env, s: Slice, now: Instant, from: nat)
    requires Reliable(env.world) && Remembered(env, s, from, now) && s.rt.Some?
    ensures var t := Repeated(env.cfg, env.world, env.rule, env.id, s, now);
            && t.rt.Some? && Follows(env, s, t, from, now) && Spaced(env, from, |s.log|, t.log)
  {
    hide Dispatched, RepeatDue;
    if env.cfg.repeatPerChannel {
      RepeatRoutesFollow(env, s, now, env.rule.routes, from, |s.log|);
    } else if RepeatDue(env.cfg, env.rule, SliceMarks(s), GLOBAL_KEY, now) {
      RepeatFollows(env, s, now, env.rule.routes, from, GLOBAL_KEY);
    }
  }

  lemma TickDecidedFollows(env: Env, s: Slice, now: Instant, from: nat, before: Time)
    requires Remembered(env, s, from, before) && before <= now && (s.rt.None? ==> from == |s.log|)
    ensures var (t, ok) := TickDecided(env.cfg, env.world, env.rule, env.id, s, now);
            ok ==> Follows(env, s, t, from, now)
  {
    hide TickOf, Applied;
    if s.rt.Some? {
      var r := TickOf(env.rule, s.rt.value, now);
      assert r.rt.marks == s.rt.value.marks;
      if r.decision.Some? {
        AppliedFollows(env, s, r.rt, r.decision.value, now, from, before);
      }
    }
  }

  lemma ExpiryFollows(env: Env, s: Slice, reason: string, looks: Looks, now: Instant, from: nat, before: Time)
    requires Remembered(env, s, from, before) && before <= now && (s.rt.None? ==> from == |s.log|)
    ensures Follows(env, s, ExpiryFlow(env.cfg, env.world, env.rule, env.id, s, reason, looks, now), from, now)
  {
    hide Dispatched, Seeded;
    if !Ticking(s.tick, looks) && s.card.Some? && IsActive(s.card.value.card.state) {
      var expired := ExpiredCard(s.card.value.card, reason, now);
      var stored := s.(tick := None, card := Some(VersionedCard(expired, s.card.value.revision + 1)),
                       rt := SeededRt(s.rt, expired.externalRefs));
      DispatchedLog(env, stored, Resolved, now, env.rule.routes);
      var t := Dispatched(env.cfg, env.world, env.rule, env.id, stored, Resolved, now, env.rule.routes).0;
      assert forall i :: 0 <= i < |s.log| ==> t.log[..|s.log|][i] == t.log[i];
    }
  }

  lemma DispatchedLog(env: Env, s: Slice, state: AlertState, now: Instant, routes: seq<Route>)
    ensures var t := Dispatched(env.cfg, env.world, env.rule, env.id, s, state, now, routes).0;
            && |s.log| <= |t.log| && t.log[..|s.log|] == s.log
            && forall i :: |s.log| <= i < |t.log| ==> t.log[i].at == now
  {
    hide SendAll, CapturedAll, WithRefs, RefUpdates;
    SentLog(env.world, env.id, routes, SliceMarks(s), state, now, s.log);
  }

  lemma TickFollows(env: Env, s: Slice, now: Instant, from: nat, before: Time)
    requires Reliable(env.world) && Remembered(env, s, from, before) && before <= now && (s.rt.None? ==> from == |s.log|)
    ensures var (t, ok) := TickFlow(env.cfg, env.world, env.rule, env.id, s, now);
            var decided := TickDecided(env.cfg, env.world, env.rule, env.id, s, now).0;
            ok ==> Follows(env, s, t, from, now) && |decided.log| <= |t.log| && t.log[..|decided.log|] == decided.log
                   && Spaced(env, from, |decided.log|, t.log)
  {
    hide TickDecided, Repeated, TickOf, Remembered;
    TickDecidedFollows(env, s, now, from, before);
    var (decided, ok) := TickDecided(env.cfg, env.world, env.rule, env.id, s, now);
    var repeated := Repeated(env.cfg, env.world, env.rule, env.id, decided, now);
    if ok && decided.rt.Some? {
      RepeatedFollows(env, decided, now, from);
      assert repeated.log[..|s.log|] == repeated.log[..|decided.log|][..|s.log|];
    }
    NothingToRepeat(env, decided, now);
  }

  lemma NothingToRepeat(env: Env, s: Slice, now: Instant)
    ensures s.rt.None? ==> Repeated(env.cfg, env.world, env.rule, env.id, s, now) == s
  {
  }

  lemma DidFollows(env: Env, s: Slice, op: SliceOp, from: nat, before: Time)
    requires Reliable(env.world) && Remembered(env, s, from, before) && before <= op.at && (s.rt.None? ==> from == |s.log|)
    ensures var (t, ok) := Did(env, s, op);
            ok ==> Follows(env, s, t, from, op.at)
  {
    hide EventStep, Applied, TickFlow, ExpiryFlow;
    match op
    case Arrive(event, at) =>
      var (rt, d) := EventStep(env.rule, s.rt, env.id, event, at);
      AppliedFollows(env, s, rt, d, at, from, before);
    case Tick(at) => TickFollows(env, s, at, from, before);
    case Evict(at) =>
    case Expire(reason, looks, at) => ExpiryFollows(env, s, reason, looks, at, from, before);
  }

  lemma NothingRemembered(env: Env)
    ensures Remembered(env, NO_SLICE, 0, ZERO_TIME)
  {
  }

  lemma PrefixTimed(ops: seq<SliceOp>)
    requires WellTimed(ops) && ops != []
    ensures var prefix := ops[..|ops| - 1];
            WellTimed(prefix) && LastTime(prefix) <= ops[|ops| - 1].at
  {
  }

  lemma {:induction false} RunRemembers(env: Env, ops: seq<SliceOp>)
    requires Reliable(env.world) && WellTimed(ops) && AllOk(env, ops)
    ensures Remembered(env, After(env, ops), EpisodeStart(env, ops), LastTime(ops))
  {
    hide Did, Remembered, WellTimed;
    if ops != [] {
      var last := |ops| - 1;
      var prefix := ops[..last];
      PrefixTimed(ops);
      RunRemembers(env, prefix);
      DidFollows(env, After(env, prefix), ops[last], EpisodeStart(env, prefix), LastTime(prefix));
    } else {
      NothingRemembered(env);
    }
  }

  /** Main result: at any tick of any run with successful sends, a repeat on a key comes at least the
      repeat interval after every earlier delivery of the episode on that key, those of the same tick included. */
  lemma RepeatsAreSpaced(env: Env, ops: seq<SliceOp>)
    requires Reliable(env.world) && WellTimed(ops) && AllOk(env, ops) && ops != [] && ops[|ops| - 1].Tick?
    ensures var prefix := ops[..|ops| - 1];
            var decided := TickDecided(env.cfg, env.world, env.rule, env.id, After(env, prefix), ops[|ops| - 1].at).0;
            var t := After(env, ops);
            && |decided.log| <= |t.log| && t.log[..|decided.log|] == decided.log
            && Spaced(env, EpisodeStart(env, prefix), |decided.log|, t.log)
    ensures RepeatEvery(env.cfg, env.rule) > 0
  {
    hide TickFlow, TickDecided, Remembered, WellTimed;
    var last := |ops| - 1;
    var prefix := ops[..last];
    PrefixTimed(ops);
    RunRemembers(env, prefix);
    TickFollows(env, After(env, prefix), ops[last].at, EpisodeStart(env, prefix), LastTime(prefix));
  }
}
