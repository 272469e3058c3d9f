/** Heartbeat alerts: recovery, what a tick reports for repeated notifications,
    and safety from idle eviction. */
module Recovery {
  import opened Domain
  import opened EngineSpec
  import opened Lifecycle
  import opened SlidingWindow

  /** A tick at which the last heartbeat is as old as the rule allows, or older. */
  predicate SeesGap(c: Setup, ops: seq<Op>, k: nat)
    requires k < |ops|
  {
    ops[k].Tick? && Slot(c, ops[..k]).Some? && ops[k].at - LastHeard(ops[..k]) >= Seconds(c.rule.missingSec)
  }

  lemma GapIsMissing(c: Setup, ops: seq<Op>, k: nat)
    requires k < |ops|
    ensures var slot := Slot(c, ops[..k]);
            SeesGap(c, ops, k) <==> ops[k].Tick? && slot.Some? && HeartbeatMissing(c.rule, slot.value, ops[k].at)
  {
    LastSeenIsLastHeard(c, ops[..k]);
  }

  /** A heartbeat came at position `j` while the alert was open; the alert stayed open and no
      tick since saw a gap. */
  ghost predicate RecoveryBegan(c: Setup, ops: seq<Op>, j: nat) {
    && j < |ops| && ops[j].Arrive?
    && (forall k :: j <= k < |ops| ==> IsActive(StateOf(Slot(c, ops[..k]))))
    && (forall k :: j < k < |ops| ==> !SeesGap(c, ops, k))
  }

  /** What one step does to the recovery window of an alert that stays open. */
  lemma RecoveryStep(c: Setup, slot: Option<Rt>, op: Op, before: Time)
    requires ValidRule(c.rule) && c.rule.kind == MissingHeartbeat && c.rule.hysteresisSec > 0
    requires SlotInv(c, slot, before) && before <= op.at
    requires IsActive(StateOf(slot)) && slot.value.hysteresisSince == None ==> HeartbeatMissing(c.rule, slot.value, before)
    ensures var next := Step(c, slot, op).0;
            IsActive(StateOf(next)) ==>
              if op.Tick? && slot.Some? && HeartbeatMissing(c.rule, slot.value, op.at) then
                next.value.hysteresisSince == None && HeartbeatMissing(c.rule, next.value, op.at)
              else
                && IsActive(StateOf(slot))
                && (if slot.value.hysteresisSince.Some? then next.value.hysteresisSince == slot.value.hysteresisSince
                    else if op.Arrive? then next.value.hysteresisSince == Some(op.at)
                    else next.value.hysteresisSince == None && HeartbeatMissing(c.rule, next.value, op.at))
  {
  }

  /** An open alert outside a recovery window is still missing its heartbeat. */
  lemma {:induction false} StillMissing(c: Setup, ops: seq<Op>)
    requires ValidRule(c.rule) && c.rule.kind == MissingHeartbeat && c.rule.hysteresisSec > 0 && WellTimed(ops)
    requires IsActive(StateOf(Slot(c, ops))) && Slot(c, ops).value.hysteresisSince == None
    ensures HeartbeatMissing(c.rule, Slot(c, ops).value, LastTime(ops))
  {
    hide Step, RtInv;
    var last := |ops| - 1;
    var prefix := ops[..last];
    var slot := Slot(c, prefix);
    ReachableStates(c, prefix);
    if IsActive(StateOf(slot)) && slot.value.hysteresisSince == None {
      StillMissing(c, prefix);
    }
    RecoveryStep(c, slot, ops[last], LastTime(prefix));
  }

  /** A recovery under way goes on when the alert stays open and the next tick sees no gap. */
  lemma BeganLater(c: Setup, ops: seq<Op>, j: nat)
    requires ops != [] && RecoveryBegan(c, ops[..|ops| - 1], j)
    requires IsActive(StateOf(Slot(c, ops[..|ops| - 1]))) && !SeesGap(c, ops, |ops| - 1)
    ensures RecoveryBegan(c, ops, j)
  {
    hide Slot, LastHeard;
    var prefix := ops[..|ops| - 1];
    forall k | j <= k < |ops| ensures IsActive(StateOf(Slot(c, ops[..k]))) && (j < k ==> !SeesGap(c, ops, k)) {
      assert ops[..k] == prefix[..k];
      if k < |prefix| {
        assert j < k ==> !SeesGap(c, prefix, k);
      } else {
        assert prefix[..k] == prefix;
      }
    }
  }

  /** The start of a recovery window is the time of a real heartbeat, received while the alert
      was open, since which no tick saw a gap. */
  lemma {:induction false} RecoveryOrigin(c: Setup, ops: seq<Op>) returns (j: nat)
    requires ValidRule(c.rule) && c.rule.kind == MissingHeartbeat && c.rule.hysteresisSec > 0 && WellTimed(ops)
    requires IsActive(StateOf(Slot(c, ops))) && Slot(c, ops).value.hysteresisSince.Some?
    ensures RecoveryBegan(c, ops, j) && Slot(c, ops).value.hysteresisSince == Some(ops[j].at)
  {
    hide Step, RtInv;
    var last := |ops| - 1;
    var prefix := ops[..last];
    var slot := Slot(c, prefix);
    ReachableStates(c, prefix);
    if IsActive(StateOf(slot)) && slot.value.hysteresisSince == None {
      StillMissing(c, prefix);
    }
    RecoveryStep(c, slot, ops[last], LastTime(prefix));
    GapIsMissing(c, ops, last);
    if slot.value.hysteresisSince.Some? {
      j := RecoveryOrigin(c, prefix);
      BeganLater(c, ops, j);
    } else {
      j := last;
    }
  }

  lemma ResolvingStep(c: Setup, slot: Option<Rt>, op: Op, before: Time)
    requires ValidRule(c.rule) && c.rule.kind == MissingHeartbeat
    requires SlotInv(c, slot, before) && before <= op.at
    requires var d := Step(c, slot, op).1; Changes(d) && d.value.state == Resolved
    ensures slot.Some? && IsActive(slot.value.state) && !op.Compact?
    ensures op.Tick? ==> !HeartbeatMissing(c.rule, slot.value, op.at)
    ensures c.rule.hysteresisSec == 0 ==> op.Arrive?
    ensures c.rule.hysteresisSec > 0 && slot.value.hysteresisSince.Some? ==>
              op.at - slot.value.hysteresisSince.value >= Seconds(c.rule.hysteresisSec)
    ensures c.rule.hysteresisSec > 0 && op.Arrive? ==> slot.value.hysteresisSince.Some?
  {
  }

  /** Main result: a heartbeat alert with hysteresis resolves only when a heartbeat received
      while it was open is at least the hysteresis old and no tick since saw a gap. A tick that
      sees a gap therefore restarts the wait. */
  lemma ResolvesAfterStableRecovery(c: Setup, ops: seq<Op>, i: nat) returns (j: nat)
    requires ValidRule(c.rule) && c.rule.kind == MissingHeartbeat && c.rule.hysteresisSec > 0 && WellTimed(ops)
    requires i < |ops| && Enters(c, ops, i, Resolved)
    ensures j < i && RecoveryBegan(c, ops[..i], j) && ops[i].at - ops[j].at >= Seconds(c.rule.hysteresisSec)
    ensures !SeesGap(c, ops, i)
  {
    var prefix := ops[..i];
    var slot := Slot(c, prefix);
    ReachableStates(c, prefix);
    ResolvingStep(c, slot, ops[i], LastTime(prefix));
    if slot.value.hysteresisSince == None {
      StillMissing(c, prefix);
    }
    GapIsMissing(c, ops, i);
    j := RecoveryOrigin(c, prefix);
  }

  /** A recovery that began at `j` is the one the engine waits for, or continues an older one. */
  lemma {:induction false} RecoveryRemembered(c: Setup, ops: seq<Op>, j: nat)
    requires ValidRule(c.rule) && c.rule.kind == MissingHeartbeat && c.rule.hysteresisSec > 0 && WellTimed(ops)
    requires RecoveryBegan(c, ops, j) && IsActive(StateOf(Slot(c, ops)))
    ensures Slot(c, ops).value.hysteresisSince.Some? && Slot(c, ops).value.hysteresisSince.value <= ops[j].at
  {
    hide Step, RtInv;
    var last := |ops| - 1;
    var prefix := ops[..last];
    var slot := Slot(c, prefix);
    ReachableStates(c, prefix);
    if IsActive(StateOf(slot)) && slot.value.hysteresisSince == None {
      StillMissing(c, prefix);
    }
    RecoveryStep(c, slot, ops[last], LastTime(prefix));
    GapIsMissing(c, ops, last);
    if j < last {
      BeganBefore(c, ops, j);
      RecoveryRemembered(c, prefix, j);
    } else if slot.value.hysteresisSince.Some? {
      var k := RecoveryOrigin(c, prefix);
    }
  }

  lemma BeganBefore(c: Setup, ops: seq<Op>, j: nat)
    requires ops != [] && j < |ops| - 1 && RecoveryBegan(c, ops, j)
    ensures RecoveryBegan(c, ops[..|ops| - 1], j)
    ensures !SeesGap(c, ops, |ops| - 1)
  {
    hide Slot, LastHeard;
    var prefix := ops[..|ops| - 1];
    forall k | j <= k < |prefix| ensures IsActive(StateOf(Slot(c, prefix[..k]))) && (j < k ==> !SeesGap(c, prefix, k)) {
      assert prefix[..k] == ops[..k];
      assert j < k ==> !SeesGap(c, ops, k);
    }
  }

  lemma RecoveringStep(c: Setup, slot: Option<Rt>, op: Op, before: Time)
    requires ValidRule(c.rule) && c.rule.kind == MissingHeartbeat && c.rule.hysteresisSec > 0
    requires SlotInv(c, slot, before) && before <= op.at
    requires IsActive(StateOf(slot)) && slot.value.hysteresisSince.Some?
    requires op.Arrive? || (op.Tick? && !HeartbeatMissing(c.rule, slot.value, op.at))
    requires op.at - slot.value.hysteresisSince.value >= Seconds(c.rule.hysteresisSec)
    ensures var d := Step(c, slot, op).1;
            Changes(d) && d.value.state == Resolved
  {
  }

  /** The current recovery: its first heartbeat is the earliest one received while the alert was open
      after the last tick that saw a gap. */
  ghost predicate RecoveryStarted(c: Setup, ops: seq<Op>, j: nat) {
    RecoveryBegan(c, ops, j) && forall k :: 0 <= k < j ==> !RecoveryBegan(c, ops, k)
  }

  lemma {:induction false} EarliestRecovery(c: Setup, ops: seq<Op>, j: nat) returns (first: nat)
    requires RecoveryBegan(c, ops, j)
    ensures first <= j && RecoveryStarted(c, ops, first)
  {
    hide RecoveryBegan;
    if k :| 0 <= k < j && RecoveryBegan(c, ops, k) {
      first := EarliestRecovery(c, ops, k);
    } else {
      first := j;
    }
  }

  /** The first heartbeat of the current recovery is at least the hysteresis old at step `i`. */
  ghost predicate Recovered(c: Setup, ops: seq<Op>, i: nat)
    requires i < |ops|
  {
    exists j :: 0 <= j < i && RecoveryStarted(c, ops[..i], j) && ops[i].at - ops[j].at >= Seconds(c.rule.hysteresisSec)
  }

  /** Main result on recovery: with hysteresis an open heartbeat alert resolves exactly at the heartbeats and the
      ticks without a gap at which the first heartbeat of the current recovery is at least the hysteresis old. */
  lemma ResolvesIffRecovered(c: Setup, ops: seq<Op>, i: nat)
    requires ValidRule(c.rule) && c.rule.kind == MissingHeartbeat && c.rule.hysteresisSec > 0 && WellTimed(ops)
    requires i < |ops|
    ensures Enters(c, ops, i, Resolved) <==>
              && IsActive(StateOf(Slot(c, ops[..i])))
              && (ops[i].Arrive? || (ops[i].Tick? && !SeesGap(c, ops, i)))
              && Recovered(c, ops, i)
  {
    hide Step, RtInv, RecoveryBegan;
    var prefix := ops[..i];
    var slot := Slot(c, prefix);
    ReachableStates(c, prefix);
    GapIsMissing(c, ops, i);
    if Enters(c, ops, i, Resolved) {
      ResolvingStep(c, slot, ops[i], LastTime(prefix));
      var j := ResolvesAfterStableRecovery(c, ops, i);
      var first := EarliestRecovery(c, prefix, j);
    }
    if IsActive(StateOf(slot)) && (ops[i].Arrive? || (ops[i].Tick? && !SeesGap(c, ops, i))) && Recovered(c, ops, i) {
      var j :| 0 <= j < i && RecoveryStarted(c, prefix, j) && ops[i].at - ops[j].at >= Seconds(c.rule.hysteresisSec);
      RecoveryRemembered(c, prefix, j);
      RecoveringStep(c, slot, ops[i], LastTime(prefix));
    }
  }

  /** Without hysteresis exactly the first heartbeat of an open alert resolves it. */
  lemma ResolvesAtFirstHeartbeat(c: Setup, ops: seq<Op>, i: nat)
    requires ValidRule(c.rule) && c.rule.kind == MissingHeartbeat && c.rule.hysteresisSec == 0 && WellTimed(ops)
    requires i < |ops|
    ensures Enters(c, ops, i, Resolved) <==> ops[i].Arrive? && IsActive(StateOf(Slot(c, ops[..i])))
  {
    ReachableStates(c, ops[..i]);
    if Enters(c, ops, i, Resolved) {
      ResolvingStep(c, Slot(c, ops[..i]), ops[i], LastTime(ops[..i]));
    }
  }

  // ---------------------------------------------------------------------------
  // What a tick reports.

  /** A tick reports every alert that is firing after it. */
  ghost predicate ReportsAllFiring(c: Setup) {
    forall ops: seq<Op>, at: Instant ::
      WellTimed(ops) && LastTime(ops) <= at && Slot(c, ops).Some?
      && TickStep(c.rule, Slot(c, ops).value, at).rt.state == Firing ==>
        TickStep(c.rule, Slot(c, ops).value, at).firing
  }

  /** The first tick after the silence, and after the pending delay if there is one. */
  lemma SilentHeartbeatFires(c: Setup) returns (ops: seq<Op>, at: Instant)
    requires ValidRule(c.rule) && c.rule.kind == MissingHeartbeat
    ensures WellTimed(ops) && LastTime(ops) <= at && Slot(c, ops).Some?
    ensures var r := TickStep(c.rule, Slot(c, ops).value, at); r.rt.state == Firing && !r.firing
  {
    var first, gap := Arrive(SampleEvent(1), 1), 1 + Seconds(c.rule.missingSec);
    assert [first][..0] == [] && [first, Tick(gap)][..1] == [first];
    assert Slot(c, []) == None && Slot(c, [first]) == Step(c, None, first).0;
    assert StateOf(Slot(c, [first])) == Idle && Slot(c, [first]).value.initialized && Slot(c, [first]).value.lastSeen == 1;
    if c.rule.pendingEnabled {
      ops, at := [first, Tick(gap)], gap + Seconds(c.rule.pendingDelaySec);
      assert Slot(c, ops).value.pendingSince == Some(gap) && Slot(c, ops).value.lastSeen == 1;
    } else {
      ops, at := [first], gap;
    }
  }

  /** Ticks of count rules report every firing alert; a heartbeat alert whose heartbeat is
      missing fires unreported, so it is never notified again. */
  lemma ReportsAllFiringIff(c: Setup)
    requires ValidRule(c.rule)
    ensures ReportsAllFiring(c) <==> c.rule.kind != MissingHeartbeat
  {
    if c.rule.kind == MissingHeartbeat {
      var ops, at := SilentHeartbeatFires(c);
    }
  }

  /** A firing heartbeat alert is reported exactly while it recovers. */
  lemma HeartbeatReportedIff(rule: Rule, rt: Rt, at: Instant)
    requires rule.kind == MissingHeartbeat && rt.initialized
    ensures var r := TickStep(rule, rt, at);
            r.firing <==> r.rt.state == Firing && rule.hysteresisSec > 0 && !HeartbeatMissing(rule, rt, at)
  {
  }

  // ---------------------------------------------------------------------------
  // Compaction right after the tick.

  /** A compaction at the instant of a tick leaves every heartbeat state that the tick left. */
  ghost predicate TickProtects(c: Setup, idleTTL: Time) {
    forall ops: seq<Op>, at: Instant {:trigger Slot(c, ops + [Tick(at)])} ::
      WellTimed(ops) && LastTime(ops) <= at ==>
        Slot(c, ops + [Tick(at)] + [Compact(at, idleTTL)]) == Slot(c, ops + [Tick(at)])
  }

  lemma SlotAppend(c: Setup, ops: seq<Op>, op: Op)
    ensures Slot(c, ops + [op]) == Step(c, Slot(c, ops), op).0
  {
    assert (ops + [op])[..|ops|] == ops;
  }

  /** In the manager every compaction follows a tick of the same instant. With an idle threshold
      of at least the missing time it never evicts a heartbeat state, and a shorter one can. */
  lemma TickProtectsIff(c: Setup, idleTTL: Time)
    requires ValidRule(c.rule) && c.rule.kind == MissingHeartbeat && idleTTL > 0
    ensures TickProtects(c, idleTTL) <==> idleTTL >= Seconds(c.rule.missingSec)
  {
    if idleTTL >= Seconds(c.rule.missingSec) {
      forall ops: seq<Op>, at: Instant | WellTimed(ops) && LastTime(ops) <= at
        ensures Slot(c, ops + [Tick(at)] + [Compact(at, idleTTL)]) == Slot(c, ops + [Tick(at)])
      {
        ReachableStates(c, ops);
        SlotAppend(c, ops, Tick(at));
        SlotAppend(c, ops + [Tick(at)], Compact(at, idleTTL));
        TickLeavesFresh(c, Slot(c, ops), at, LastTime(ops));
      }
    } else {
      var ops, at := [Arrive(SampleEvent(1), 1)], 1 + idleTTL;
      assert ops[..0] == [];
      SlotAppend(c, ops, Tick(at));
      SlotAppend(c, ops + [Tick(at)], Compact(at, idleTTL));
      QuietHeartbeat(c, ops, at);
    }
  }

  lemma QuietHeartbeat(c: Setup, ops: seq<Op>, at: Instant)
    requires ValidRule(c.rule) && c.rule.kind == MissingHeartbeat
    requires ops == [Arrive(SampleEvent(1), 1)] && 1 <= at < 1 + Seconds(c.rule.missingSec)
    ensures WellTimed(ops)
    ensures var next := Step(c, Slot(c, ops), Tick(at)).0;
            next.Some? && next.value.state == Idle && next.value.lastSeen == 1
  {
    assert ops[..0] == [];
  }

  /** After a tick, an inactive heartbeat state was seen less than the missing time ago. */
  lemma TickLeavesFresh(c: Setup, slot: Option<Rt>, at: Instant, before: Time)
    requires ValidRule(c.rule) && c.rule.kind == MissingHeartbeat
    requires SlotInv(c, slot, before) && before <= at
    ensures var next := Step(c, slot, Tick(at)).0;
            next.Some? && next.value.state == Idle ==> at - next.value.lastSeen < Seconds(c.rule.missingSec)
  {
  }
}
