/** Exactly when a history is one of operations that ran one at a time, and what else needs that. */
module OneAtATime {
  import opened Domain
  import opened Cards
  import opened Protocol

  /** More processes can do whatever fewer can. */
  lemma LiftStep(policy: Revisions, s: State, idle: seq<Proc>, a: Action)
    requires Step(policy, s, a).Some?
    ensures var t := Step(policy, s, a).value;
            Step(policy, State(s.log, s.procs + idle), a) == Some(State(t.log, t.procs + idle))
  {
    hide PendingWrite, AfterWrite, AfterConflict, Current, MergedRefs;
    var next := Step(policy, s, a).value.procs[a.p];
    assert (s.procs + idle)[a.p := next] == s.procs[a.p := next] + idle;
  }

  lemma {:induction false} LiftRun(policy: Revisions, fewer: nat, more: nat, actions: seq<Action>)
    requires fewer <= more && Run(policy, fewer, actions).Some?
    ensures var s := Run(policy, fewer, actions).value;
            Run(policy, more, actions) == Some(State(s.log, s.procs + seq(more - fewer, _ => Ready)))
  {
    hide Step;
    var idle := seq(more - fewer, _ => Ready);
    if actions == [] {
      assert seq(fewer, _ => Ready) + idle == seq(more, _ => Ready);
    } else {
      var last := |actions| - 1;
      LiftRun(policy, fewer, more, actions[..last]);
      LiftStep(policy, Run(policy, fewer, actions[..last]).value, idle, actions[last]);
    }
  }

  lemma LiftReachable(policy: Revisions, fewer: nat, more: nat, s: State) returns (lifted: State)
    requires fewer <= more && Reachable(policy, fewer, s)
    ensures Reachable(policy, more, lifted) && lifted.log == s.log
  {
    var actions :| Run(policy, fewer, actions) == Some(s);
    LiftRun(policy, fewer, more, actions);
    lifted := Run(policy, more, actions).value;
  }

  // ---------------------------------------------------------------------------
  // The histories of one process.

  /** The history could have been left by one process, whose operations run one after another. */
  ghost predicate OneByOne(policy: Revisions, log: seq<Entry>) {
    exists s :: Reachable(policy, 1, s) && s.log == log
  }

  /** The latest entry resolved the card. */
  predicate JustResolved(log: seq<Entry>) {
    log != [] && var last := log[|log| - 1]; last.Put? && last.card.state == Resolved && !last.origin.RefMerge?
  }

  /** Entry `i` is what one process alone can add: an atomic write, or the delete right after its own resolve,
      with a revision that the backend assigns. */
  ghost predicate Fits(policy: Revisions, log: seq<Entry>, i: nat)
    requires i < |log|
  {
    && AtomicEntry(log, i)
    && (log[i].Del? ==> JustResolved(log[..i]))
    && (log[i].Put? || policy.NeverReused? ==>
          AssignsRevision(policy, log[..i], log[i].Put? && Current(log[..i]).None?, log[i].rev))
  }

  ghost predicate AllFit(policy: Revisions, log: seq<Entry>) {
    forall i: nat :: i < |log| ==> Fits(policy, log, i)
  }

  lemma FitsAppended(policy: Revisions, log: seq<Entry>, e: Entry)
    requires AllFit(policy, log) && Fits(policy, log + [e], |log|)
    ensures AllFit(policy, log + [e])
  {
    hide AssignsRevision, Current, JustResolved;
    var longer := log + [e];
    forall i: nat | i < |longer| ensures Fits(policy, longer, i) {
      if i < |log| {
        assert longer[..i] == log[..i];
        assert Fits(policy, log, i);
      }
    }
  }

  /** What a process knows about the card when no other process writes. */
  predicate UpToDate(log: seq<Entry>, proc: Proc) {
    match proc
    case Deciding(d, _) => d.state != Idle
    case Creating(d, _) => d.state != Idle && Current(log).None?
    case Updating(d, _, read) => d.state != Idle && Current(log) == Some(read)
    case Reloading(_) => false
    case Decided(d) => d.state == Resolved ==> JustResolved(log)
    case ExpireWriting(_, _, read) => IsActive(read.card.state) && Current(log) == Some(read)
    case Deleting => JustResolved(log)
    case RefsWriting(updates, _, read) =>
      Current(log) == Some(read) && MergedRefs(read.card.externalRefs, updates) != read.card.externalRefs
    case _ => true
  }

  ghost predicate Alone(policy: Revisions, s: State) {
    && |s.procs| <= 1 && AllFit(policy, s.log)
    && forall p :: 0 <= p < |s.procs| ==> UpToDate(s.log, s.procs[p])
  }

  /** What an up-to-date process writes is atomic. */
  lemma WriteFits(log: seq<Entry>, proc: Proc, rev: nat)
    requires UpToDate(log, proc) && PendingWrite(proc).Some?
    ensures var write := PendingWrite(proc).value;
            AtomicEntry(log + [Put(write.0, rev, write.1)], |log|)
  {
    var write := PendingWrite(proc).value;
    assert (log + [Put(write.0, rev, write.1)])[..|log|] == log;
    hide MergedRefs, NewCard, UpdatedCard, ExpiredCard;
  }

  lemma WriteLeavesUpToDate(log: seq<Entry>, proc: Proc, rev: nat)
    requires UpToDate(log, proc) && PendingWrite(proc).Some?
    ensures var write := PendingWrite(proc).value;
            var longer := log + [Put(write.0, rev, write.1)];
            UpToDate(longer, AfterWrite(proc, |longer|))
  {
    hide MergedRefs;
  }

  lemma WriteAlone(policy: Revisions, s: State, rev: nat)
    requires Alone(policy, s) && |s.procs| == 1 && Step(policy, s, WriteCard(0, rev)).Some?
    ensures Alone(policy, Step(policy, s, WriteCard(0, rev)).value)
  {
    var proc := s.procs[0];
    assert s.procs == [proc] && UpToDate(s.log, proc);
    var write := PendingWrite(proc).value;
    assert CasSucceeds(s.log, write.2);
    var log := s.log + [Put(write.0, rev, write.1)];
    assert log[..|s.log|] == s.log;
    WriteFits(s.log, proc, rev);
    WriteLeavesUpToDate(s.log, proc, rev);
    hide Alone, AllFit, PendingWrite, AtomicEntry, UpToDate, AfterWrite;
    FitsAppended(policy, s.log, Put(write.0, rev, write.1));
    assert s.procs[0 := AfterWrite(proc, |log|)] == [AfterWrite(proc, |log|)];
    OneUpToDate(policy, log, AfterWrite(proc, |log|));
  }

  lemma OneUpToDate(policy: Revisions, log: seq<Entry>, proc: Proc)
    requires AllFit(policy, log) && UpToDate(log, proc)
    ensures Alone(policy, State(log, [proc]))
  {
    hide AllFit;
  }

  lemma DeleteAlone(policy: Revisions, s: State, rev: nat)
    requires Alone(policy, s) && |s.procs| == 1 && Step(policy, s, DeleteCard(0, rev)).Some?
    ensures Alone(policy, Step(policy, s, DeleteCard(0, rev)).value)
  {
    hide AllFit;
    var log := s.log + [Del(rev)];
    assert log[..|s.log|] == s.log && log[|s.log|] == Del(rev);
    assert UpToDate(s.log, s.procs[0]);
    FitsAppended(policy, s.log, Del(rev));
    assert s.procs[0 := Ready] == [Ready];
    OneUpToDate(policy, log, Ready);
  }

  lemma StepAlone(policy: Revisions, s: State, a: Action)
    requires Alone(policy, s) && Step(policy, s, a).Some?
    ensures Alone(policy, Step(policy, s, a).value)
  {
    hide AllFit;
    var proc := s.procs[0];
    assert a.p == 0 && s.procs == [proc];
    assert UpToDate(s.log, proc);
    match a
    case WriteCard(_, rev) => WriteAlone(policy, s, rev);
    case DeleteCard(_, rev) => DeleteAlone(policy, s, rev);
    case _ =>
      hide PendingWrite, CasSucceeds, AfterConflict, AfterWrite;
  }

  lemma {:induction false} RunAlone(policy: Revisions, processes: nat, actions: seq<Action>)
    requires processes <= 1 && Run(policy, processes, actions).Some?
    ensures Alone(policy, Run(policy, processes, actions).value)
  {
    hide Step;
    if actions != [] {
      var last := |actions| - 1;
      RunAlone(policy, processes, actions[..last]);
      StepAlone(policy, Run(policy, processes, actions[..last]).value, actions[last]);
    }
  }

  lemma ReachableAlone(policy: Revisions, processes: nat, s: State)
    requires processes <= 1 && Reachable(policy, processes, s)
    ensures AllFit(policy, s.log)
  {
    var actions :| Run(policy, processes, actions) == Some(s);
    RunAlone(policy, processes, actions);
  }

  // ---------------------------------------------------------------------------
  // Every such history is left by some run of one process.

  /** One process, ready for its next operation, or about to delete what it has just resolved. */
  ghost predicate Replayed(policy: Revisions, log: seq<Entry>) {
    && Reachable(policy, 1, State(log, [Ready]))
    && (JustResolved(log) ==> Reachable(policy, 1, State(log, [Deleting])))
  }

  lemma ReplayTransition(policy: Revisions, log: seq<Entry>, card: AlertCard, rev: nat, d: Decision, input: CardInput, grants: bool)
    requires Reachable(policy, 1, State(log, [Ready]))
    requires var e := Put(card, rev, Transition(d, input, grants)); Fits(policy, log + [e], |log|)
    ensures Replayed(policy, log + [Put(card, rev, Transition(d, input, grants))])
  {
    hide Reachable, MergedRefs;
    var e := Put(card, rev, Transition(d, input, grants));
    assert (log + [e])[..|log|] == log;
    var s := Prepare(policy, 1, State(log, [Ready]), 0, d, input);
    s := WriteAccepted(policy, 1, s, 0, rev);
    assert s == State(log + [e], [Decided(d)]);
    var ended := Crashed(policy, 1, s, 0);
    assert ended == State(s.log, [Ready]);
    if d.state == Resolved {
      StepReachable(policy, 1, s, Finish(0));
      assert s.procs[0 := Deleting] == [Deleting];
      assert Step(policy, s, Finish(0)) == Some(State(s.log, [Deleting]));
    }
    WrittenState(d, input, Current(log));
  }

  lemma WrittenState(d: Decision, input: CardInput, before: Option<Stored>)
    ensures NewCard(d, input).state == d.state
    ensures before.Some? ==> UpdatedCard(before.value.card, d, input).state == d.state
  {
  }

  lemma ReplayExpiry(policy: Revisions, log: seq<Entry>, card: AlertCard, rev: nat, reason: string, now: Instant)
    requires Reachable(policy, 1, State(log, [Ready]))
    requires var e := Put(card, rev, Expiry(reason, now)); Fits(policy, log + [e], |log|)
    ensures Replayed(policy, log + [Put(card, rev, Expiry(reason, now))])
  {
    hide Reachable, MergedRefs;
    var e := Put(card, rev, Expiry(reason, now));
    assert (log + [e])[..|log|] == log;
    var s := PrepareExpiry(policy, 1, State(log, [Ready]), 0, reason, now);
    s := WriteAccepted(policy, 1, s, 0, rev);
    assert s == State(log + [e], [Deleting]);
    var ended := Crashed(policy, 1, s, 0);
    assert ended == State(s.log, [Ready]);
  }

  lemma ReplayMerge(policy: Revisions, log: seq<Entry>, card: AlertCard, rev: nat, updates: map<string, string>)
    requires Reachable(policy, 1, State(log, [Ready]))
    requires var e := Put(card, rev, RefMerge(updates)); Fits(policy, log + [e], |log|)
    ensures Replayed(policy, log + [Put(card, rev, RefMerge(updates))])
  {
    hide Reachable, MergedRefs;
    var e := Put(card, rev, RefMerge(updates));
    assert (log + [e])[..|log|] == log;
    var s := PrepareRefs(policy, 1, State(log, [Ready]), 0, updates);
    s := WriteAccepted(policy, 1, s, 0, rev);
    var ended := Crashed(policy, 1, s, 0);
    assert ended == State(log + [e], [Ready]);
  }

  lemma {:induction false} Replay(policy: Revisions, log: seq<Entry>)
    requires AllFit(policy, log)
    ensures Replayed(policy, log)
  {
    hide Reachable, Fits;
    if log == [] {
      StartReachable(policy, 1);
      assert Initial(1) == State([], [Ready]);
    } else {
      var last := |log| - 1;
      var before := log[..last];
      FitsPrefix(policy, log);
      Replay(policy, before);
      assert log == before + [log[last]] && Fits(policy, log, last);
      match log[last]
      case Put(card, rev, Transition(d, input, grants)) => ReplayTransition(policy, before, card, rev, d, input, grants);
      case Put(card, rev, Expiry(reason, now)) => ReplayExpiry(policy, before, card, rev, reason, now);
      case Put(card, rev, RefMerge(updates)) => ReplayMerge(policy, before, card, rev, updates);
      case Del(rev) =>
        DeleteFits(policy, before, rev);
        var s := CommitDelete(policy, 1, State(before, [Deleting]), 0, rev);
        assert s == State(log, [Ready]);
    }
  }

  lemma DeleteFits(policy: Revisions, log: seq<Entry>, rev: nat)
    requires Fits(policy, log + [Del(rev)], |log|)
    ensures JustResolved(log) && (policy.NeverReused? ==> AssignsRevision(policy, log, false, rev))
  {
    assert (log + [Del(rev)])[..|log|] == log;
  }

  lemma FitsPrefix(policy: Revisions, log: seq<Entry>)
    requires AllFit(policy, log) && log != []
    ensures AllFit(policy, log[..|log| - 1])
  {
    hide AssignsRevision, Current, JustResolved;
    var before := log[..|log| - 1];
    forall i: nat | i < |before| ensures Fits(policy, before, i) {
      assert before[..i] == log[..i];
      assert Fits(policy, log, i);
    }
  }

  /** Main result on one process: its histories are exactly those whose writes are atomic, whose deletes each
      follow a resolve at once, and whose revisions the backend assigns. */
  lemma OneByOneIff(policy: Revisions, log: seq<Entry>)
    ensures OneByOne(policy, log) <==> AllFit(policy, log)
  {
    hide Reachable, AllFit;
    if OneByOne(policy, log) {
      var s :| Reachable(policy, 1, s) && s.log == log;
      ReachableAlone(policy, 1, s);
    }
    if AllFit(policy, log) {
      Replay(policy, log);
    }
  }

  /** Main result: every history is one of operations that ran one at a time exactly when at most one process runs,
      whatever the revisions. */
  lemma OneAtATimeIff(policy: Revisions, processes: nat)
    ensures (forall s :: Reachable(policy, processes, s) ==> OneByOne(policy, s.log)) <==> processes <= 1
  {
    hide Reachable, AllFit, DeletesOnlyResolved;
    if processes <= 1 {
      forall s | Reachable(policy, processes, s) ensures OneByOne(policy, s.log) {
        ReachableAlone(policy, processes, s);
        OneByOneIff(policy, s.log);
      }
    } else {
      var s := OpenCardDeleted(policy);
      var lifted := LiftReachable(policy, 2, processes, s);
      OneByOneIff(policy, s.log);
      if AllFit(policy, s.log) {
        FitsDeletes(policy, s.log);
      }
    }
  }

  /** Every write is atomic exactly when revisions are never reused or at most one process runs. */
  lemma AtomicWritesIff(policy: Revisions, processes: nat)
    ensures (forall s :: Reachable(policy, processes, s) ==> AtomicWrites(s.log)) <==> policy.NeverReused? || processes <= 1
  {
    hide AtomicWrites, Reachable, AllFit;
    if policy.NeverReused? {
      forall s | Reachable(policy, processes, s) ensures AtomicWrites(s.log) {
        WritesAreAtomic(processes, s);
      }
    } else if processes <= 1 {
      forall s | Reachable(policy, processes, s) ensures AtomicWrites(s.log) {
        ReachableAlone(policy, processes, s);
        FitsDeletes(policy, s.log);
      }
    } else {
      var s := ReusedRevisionsGrantTwice();
      var lifted := LiftReachable(policy, 2, processes, s);
    }
  }

  // ---------------------------------------------------------------------------
  // What deletes remove.

  /** No delete removes a card that is open. */
  ghost predicate DeletesOnlyResolved(log: seq<Entry>) {
    forall i: nat :: i < |log| && log[i].Del? && Current(log[..i]).Some? ==> !IsActive(Current(log[..i]).value.card.state)
  }

  lemma FitsDeletes(policy: Revisions, log: seq<Entry>)
    requires AllFit(policy, log)
    ensures AtomicWrites(log) && DeletesOnlyResolved(log)
  {
    hide AssignsRevision;
    forall i: nat | i < |log| ensures AtomicEntry(log, i) {
      assert Fits(policy, log, i);
    }
    forall i: nat | i < |log| && log[i].Del? && Current(log[..i]).Some? ensures !IsActive(Current(log[..i]).value.card.state) {
      assert Fits(policy, log, i);
    }
  }

  /** A process that resolved an alert deletes whatever card it finds: here the alert fires again
      between its write and its delete. */
  lemma OpenCardDeleted(policy: Revisions) returns (s: State)
    ensures Reachable(policy, 2, s) && |s.log| == 4
    ensures s.log[3].Del? && s.log[2].Put? && s.log[2].card.state == Firing && Grants(s.log[2])
    ensures !DeletesOnlyResolved(s.log)
  {
    hide Reachable, Step;
    var fire, done := Entered("a", Firing, true), Closed("a", "silence_timeout", false);
    var e0 := OpeningEntry(fire, 1);
    AlertOpened(policy, fire);
    s := Prepare(policy, 2, State([e0], [Ready, Ready]), 1, done, SampleInput(2));
    s := WriteAccepted(policy, 2, s, 1, 2);
    s := ReopenedUnder(policy, s, fire, done);
  }

  /** The resolved card fires again under a process that has yet to delete it. */
  lemma ReopenedUnder(policy: Revisions, before: State, fire: Decision, done: Decision) returns (s: State)
    requires Reachable(policy, 2, before) && before.procs == [Ready, Decided(done)]
    requires fire.state == Firing && done.state == Resolved
    requires |before.log| == 2 && before.log[0].rev == 1 && before.log[1].Put?
    requires before.log[1].rev == 2 && before.log[1].card.state == Resolved
    ensures Reachable(policy, 2, s) && |s.log| == 4
    ensures s.log[3].Del? && s.log[2].Put? && s.log[2].card.state == Firing && Grants(s.log[2])
    ensures !DeletesOnlyResolved(s.log)
  {
    hide Reachable, Step;
    s := Prepare(policy, 2, before, 0, fire, SampleInput(3));
    s := Commit(policy, 2, s, 0, 3);
    assert s.procs == [Ready, Decided(done)] && s.log[2].rev == 3 && s.log[..2] == before.log;
    s := DeletedUnder(policy, s, done);
  }

  /** Process 1 ends its resolve by deleting the card, whatever it is by now. */
  lemma DeletedUnder(policy: Revisions, before: State, done: Decision) returns (s: State)
    requires Reachable(policy, 2, before) && before.procs == [Ready, Decided(done)] && done.state == Resolved
    requires |before.log| == 3 && before.log[2].Put? && IsActive(before.log[2].card.state)
    requires forall e :: e in before.log ==> e.rev < 4
    ensures Reachable(policy, 2, s) && |s.log| == 4 && s.log[..3] == before.log && s.log[3].Del?
    ensures !DeletesOnlyResolved(s.log)
  {
    hide Reachable;
    StepReachable(policy, 2, before, Finish(1));
    s := Step(policy, before, Finish(1)).value;
    s := CommitDelete(policy, 2, s, 1, 4);
    assert Current(s.log[..3]) == Current(before.log);
  }

  /** Deletes are unguarded: an open card can be deleted exactly when there are two processes. */
  lemma DeletesOnlyResolvedIff(policy: Revisions, processes: nat)
    ensures (forall s :: Reachable(policy, processes, s) ==> DeletesOnlyResolved(s.log)) <==> processes <= 1
  {
    hide DeletesOnlyResolved, Reachable, AllFit;
    if processes <= 1 {
      forall s | Reachable(policy, processes, s) ensures DeletesOnlyResolved(s.log) {
        ReachableAlone(policy, processes, s);
        FitsDeletes(policy, s.log);
      }
    } else {
      var s := OpenCardDeleted(policy);
      var lifted := LiftReachable(policy, 2, processes, s);
    }
  }

  /** A notification of the resolve was granted in the lifetime of the card that ends at `i`. */
  ghost predicate ResolveGranted(log: seq<Entry>, i: nat)
    requires i <= |log|
  {
    exists k: nat :: k < i && Grants(log[k]) && log[k].card.state == Resolved && forall m :: k <= m < i ==> log[m].Put?
  }

  /** Every card that is removed had its resolved notification granted. */
  ghost predicate RemovalsGranted(log: seq<Entry>) {
    forall i: nat :: i < |log| && log[i].Del? && Current(log[..i]).Some? ==> ResolveGranted(log, i)
  }

  /** Of atomic writes, the one that made a stored card resolved was granted its notification. */
  lemma {:induction false} ResolvedWasGranted(log: seq<Entry>, i: nat)
    requires AtomicWrites(log) && i <= |log|
    requires Current(log[..i]).Some? && Current(log[..i]).value.card.state == Resolved
    ensures ResolveGranted(log, i)
    decreases i
  {
    hide NewCard, UpdatedCard, ExpiredCard, MergedRefs;
    var last := i - 1;
    assert log[..i][last] == log[last];
    if !Grants(log[last]) {
      if log[last].origin.RefMerge? {
        assert AtomicEntry(log, last);
      } else {
        GrantIffStateChanged(log, last);
      }
      ResolvedWasGranted(log, last);
      var k: nat :| k < last && Grants(log[k]) && log[k].card.state == Resolved && forall m :: k <= m < last ==> log[m].Put?;
      assert forall m :: k <= m < i ==> log[m].Put?;
    }
  }

  lemma FitsRemovals(policy: Revisions, log: seq<Entry>)
    requires AllFit(policy, log)
    ensures RemovalsGranted(log)
  {
    hide AssignsRevision, AtomicWrites, ResolveGranted;
    FitsDeletes(policy, log);
    forall i: nat | i < |log| && log[i].Del? && Current(log[..i]).Some? ensures ResolveGranted(log, i) {
      assert Fits(policy, log, i);
      ResolvedWasGranted(log, i);
    }
  }

  /** A resolve that loses its compare-and-set to a reference write is granted nothing, and its process
      deletes the open card all the same. */
  lemma RemovedUnannounced(policy: Revisions) returns (s: State)
    ensures Reachable(policy, 2, s) && |s.log| == 3 && s.log[2].Del?
    ensures s.log[0].Put? && s.log[0].card.state == Firing && s.log[1].Put? && s.log[1].origin.RefMerge?
    ensures !RemovalsGranted(s.log)
  {
    hide Reachable, Step, MergedRefs;
    var fire, done := Entered("a", Firing, true), Closed("a", "silence_timeout", false);
    var e0 := OpeningEntry(fire, 1);
    AlertOpened(policy, fire);
    s := Prepare(policy, 2, State([e0], [Ready, Ready]), 1, done, SampleInput(2));
    assert s == State([e0], [Ready, Updating(done, SampleInput(2), Stored(e0.card, 1))]);
    s := ReferencesMerged(policy, s, done);
    s := DeletedAfterConflict(policy, s, done);
  }

  /** Process 0 stores a reference while process 1 is about to resolve. */
  lemma ReferencesMerged(policy: Revisions, before: State, done: Decision) returns (s: State)
    requires Reachable(policy, 2, before) && |before.procs| == 2 && before.procs[0] == Ready
    requires |before.log| == 1 && before.log[0].Put? && before.log[0].rev == 1 && before.log[0].card.externalRefs == map[]
    ensures Reachable(policy, 2, s) && s.procs == before.procs
    ensures |s.log| == 2 && s.log[0] == before.log[0] && s.log[1].Put? && s.log[1].rev == 2
    ensures s.log[1].origin.RefMerge? && s.log[1].card.state == before.log[0].card.state
  {
    hide Reachable, Step;
    var updates := map["key" := "ref"];
    assert MergedRefs(map[], updates) != map[] by { assert RefAt(map[], "key") != updates["key"]; }
    hide MergedRefs;
    s := PrepareRefs(policy, 2, before, 0, updates);
    s := WriteAccepted(policy, 2, s, 0, 2);
    s := Crashed(policy, 2, s, 0);
  }

  lemma Crashed(policy: Revisions, processes: nat, s: State, p: nat) returns (next: State)
    requires Reachable(policy, processes, s) && p < |s.procs|
    ensures Reachable(policy, processes, next) && next == s.(procs := s.procs[p := Ready])
  {
    hide Reachable;
    StepReachable(policy, processes, s, Crash(p));
    next := Step(policy, s, Crash(p)).value;
  }

  /** Process 1 loses its compare-and-set, reloads, and deletes. */
  lemma DeletedAfterConflict(policy: Revisions, before: State, done: Decision) returns (s: State)
    requires Reachable(policy, 2, before) && done.state == Resolved
    requires |before.procs| == 2 && before.procs[1].Updating? && before.procs[1].d == done && before.procs[1].read.rev == 1
    requires |before.log| == 2 && before.log[0].Put? && before.log[1].Put? && before.log[0].rev == 1 && before.log[1].rev == 2
    requires before.log[0].card.state == before.log[1].card.state == Firing
    ensures Reachable(policy, 2, s) && |s.log| == 3 && s.log[..2] == before.log && s.log[2].Del?
    ensures !RemovalsGranted(s.log)
  {
    hide Reachable;
    StepReachable(policy, 2, before, WriteCard(1, 3));
    s := Step(policy, before, WriteCard(1, 3)).value;
    assert s == before.(procs := before.procs[1 := Reloading(done)]);
    StepReachable(policy, 2, s, ReadCard(1, 4));
    s := Step(policy, s, ReadCard(1, 4)).value;
    StepReachable(policy, 2, s, Finish(1));
    s := Step(policy, s, Finish(1)).value;
    assert s.procs[1] == Deleting && s.log == before.log;
    s := CommitDelete(policy, 2, s, 1, 3);
    assert s.log[0] == before.log[0] && s.log[1] == before.log[1];
    assert !ResolveGranted(s.log, 2);
  }

  /** Main result on removals: every removed card had its resolved notification granted exactly when at most
      one process runs. */
  lemma RemovalsGrantedIff(policy: Revisions, processes: nat)
    ensures (forall s :: Reachable(policy, processes, s) ==> RemovalsGranted(s.log)) <==> processes <= 1
  {
    hide RemovalsGranted, Reachable, AllFit;
    if processes <= 1 {
      forall s | Reachable(policy, processes, s) ensures RemovalsGranted(s.log) {
        ReachableAlone(policy, processes, s);
        FitsRemovals(policy, s.log);
      }
    } else {
      var s := RemovedUnannounced(policy);
      var lifted := LiftReachable(policy, 2, processes, s);
    }
  }
}
