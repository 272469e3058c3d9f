/** The stored tick and the engine's silence timer are two clocks for the same event. */
module Expiry {
  import opened Domain
  import opened EngineSpec
  import opened AlertFlow
  import opened AlertRuns
  import opened Witnesses
  import L = Lifecycle
  import W = SlidingWindow

  /** A tick of the rule at this instant would resolve the alert for silence. */
  predicate TimerResolves(rule: Rule, rt: Rt, at: Instant) {
    TickOf(rule, rt, at).decision.Some?
  }

  /** Of an open alert the stored tick is gone exactly when the engine's timer has run out. */
  ghost predicate ClocksAgree(env: Env) {
    forall ops: seq<SliceOp>, at: Instant ::
      WellTimed(ops) && NeverStuck(env, ops) && IsActive(L.StateOf(After(env, ops).rt)) ==>
        (TickAlive(After(env, ops).tick, at) <==> !TimerResolves(env.rule, After(env, ops).rt.value, at))
  }

  /** The rules whose two clocks agree. */
  predicate SameClocks(rule: Rule) {
    ResolveTimeout(rule) > 0 && EveryEventCounts(rule)
  }

  lemma ClocksAgreeAt(env: Env, ops: seq<SliceOp>, at: Instant)
    requires ValidRule(env.rule) && SameClocks(env.rule)
    requires WellTimed(ops) && NeverStuck(env, ops) && IsActive(L.StateOf(After(env, ops).rt))
    ensures var s := After(env, ops);
            && s.tick == Some(s.rt.value.lastSeen + ResolveTimeout(env.rule))
            && (TickAlive(s.tick, at) <==> !TimerResolves(env.rule, s.rt.value, at))
  {
    hide After;
    RunsStaySynced(env, ops);
  }

  /** With a zero timeout the engine resolves at its next tick, while the stored tick never expires. */
  lemma ZeroTimeoutRun(env: Env) returns (ops: seq<SliceOp>, at: Instant)
    requires ValidRule(env.rule) && env.rule.kind != MissingHeartbeat && ResolveTimeout(env.rule) == 0
    ensures WellTimed(ops) && NeverStuck(env, ops) && IsActive(L.StateOf(After(env, ops).rt))
    ensures TickAlive(After(env, ops).tick, at) && TimerResolves(env.rule, After(env, ops).rt.value, at)
  {
    hide After;
    ops, at := OpeningRun(env);
  }

  /** The first burst fills the window, and one more event after the window has emptied is noted only. */
  lemma WeakEvent(env: Env, late: Instant)
    requires ValidRule(env.rule) && env.rule.kind == CountWindow && env.rule.raiseN >= 2
    requires late == 2 + Seconds(env.rule.windowSec)
    ensures var (rt, d) := EventStep(env.rule, None, env.id, W.SampleEvent(env.rule.raiseN), 1);
            && d.state != Resolved && IsActive(rt.state) && rt.lastSeen == 1
            && forall marks ::
                 var (next, noted) := EventStep(env.rule, Some(rt.(marks := marks)), env.id, W.SampleEvent(1), late);
                 !noted.shouldStore && !noted.shouldNotify && noted.state != Resolved && next.state == rt.state && next.lastSeen == late
  {
    var p, q := WindowPoint(1, env.rule.raiseN), WindowPoint(late, 1);
    var width := Seconds(env.rule.windowSec);
    assert [] + [p] == [p] && [p] + [q] == [p, q] && [p, q][1..] == [q];
    assert PruneWindow([p], 1, width, env.rule.raiseN) == ([p], env.rule.raiseN);
    assert Prune([q], late - width, 1) == ([q], 1);
    assert PruneWindow([p, q], late, width, env.rule.raiseN + 1) == ([q], 1);
    hide PruneWindow;
  }

  /** An event that does not meet the threshold restarts the engine's timer and leaves the stored tick. */
  lemma WeakEventRun(env: Env) returns (ops: seq<SliceOp>, at: Instant)
    requires ValidRule(env.rule) && env.rule.kind == CountWindow && env.rule.raiseN >= 2 && ResolveTimeout(env.rule) > 0
    ensures WellTimed(ops) && NeverStuck(env, ops) && IsActive(L.StateOf(After(env, ops).rt))
    ensures !TickAlive(After(env, ops).tick, at) && !TimerResolves(env.rule, After(env, ops).rt.value, at)
  {
    hide NeverStuck, WellTimed, EventStep, Applied, After;
    var first := Arrive(W.SampleEvent(env.rule.raiseN), 1);
    var weak := Arrive(W.SampleEvent(1), 2 + Seconds(env.rule.windowSec));
    WeakEvent(env, weak.at);
    EmptySynced(env);
    EmptyRun(env);
    EventReaches(env, NO_SLICE, first.event, 1, ZERO_TIME);
    Extended(env, [], first);
    var s := Did(env, NO_SLICE, first).0;
    EventReaches(env, s, weak.event, weak.at, 1);
    NotedKeepsTick(env, s, weak.event, weak.at);
    Extended(env, [] + [first], weak);
    ops := [] + [first] + [weak];
    var timeout := ResolveTimeout(env.rule);
    at := if 1 + timeout > weak.at then 1 + timeout else weak.at;
  }

  lemma NotedKeepsTick(env: Env, s: Slice, event: Event, now: Instant)
    requires var d := EventStep(env.rule, s.rt, env.id, event, now).1;
             !d.shouldStore && !d.shouldNotify
    ensures Did(env, s, Arrive(event, now)).0.tick == s.tick
  {
    hide EventStep;
  }

  /** The two clocks of a count rule agree at every instant of every run exactly when the timeout is
      positive and every event of an open alert meets the threshold. */
  lemma ClocksAgreeIff(env: Env)
    requires ValidRule(env.rule) && env.rule.kind != MissingHeartbeat
    ensures ClocksAgree(env) <==> SameClocks(env.rule)
  {
    hide After, NeverStuck;
    if SameClocks(env.rule) {
      forall ops: seq<SliceOp>, at: Instant |
        WellTimed(ops) && NeverStuck(env, ops) && IsActive(L.StateOf(After(env, ops).rt))
        ensures TickAlive(After(env, ops).tick, at) <==> !TimerResolves(env.rule, After(env, ops).rt.value, at)
      {
        ClocksAgreeAt(env, ops, at);
      }
    } else if ResolveTimeout(env.rule) <= 0 {
      var ops, at := ZeroTimeoutRun(env);
    } else {
      var ops, at := WeakEventRun(env);
    }
  }

  /** Of a window-count alert the stored tick is never later than the engine's timer. */
  lemma WindowTickNeverLate(env: Env, ops: seq<SliceOp>, at: Instant)
    requires ValidRule(env.rule) && env.rule.kind == CountWindow && ResolveTimeout(env.rule) > 0
    requires WellTimed(ops) && NeverStuck(env, ops) && IsActive(L.StateOf(After(env, ops).rt))
    ensures TimerResolves(env.rule, After(env, ops).rt.value, at) ==> !TickAlive(After(env, ops).tick, at)
  {
    hide After;
    RunsStaySynced(env, ops);
  }
}
