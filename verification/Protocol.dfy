/** Many instances sharing one card store.

    Each process runs one manager operation at a time and touches the store in
    single atomic steps: read, create, compare-and-set update, delete. An action
    names the process that moves and what the environment chose; a run is any
    sequence of actions. The store is its own history, a log of writes for one
    alert. */
module Protocol {
  import opened Domain
  import opened Cards

  /** What the writer of a log entry was doing. */
  datatype Origin =
    | Transition(d: Decision, input: CardInput, grants: bool)
    | Expiry(reason: string, now: Instant)
    | RefMerge(updates: map<string, string>)

  datatype Entry =
    | Put(card: AlertCard, rev: nat, origin: Origin)
    | Del(rev: nat)

  datatype Stored = Stored(card: AlertCard, rev: nat)

  /** How the backend numbers writes. The key-value bucket never reuses a revision;
      the in-memory store restarts at 1 when a deleted card is created again. */
  datatype Revisions = NeverReused | RestartAtOne

  const MAX_REF_ATTEMPTS := 3

  /** Where an operation stands between two store accesses. */
  datatype Proc =
    | Ready
    | Deciding(d: Decision, input: CardInput)
    | Creating(d: Decision, input: CardInput)
    | Updating(d: Decision, input: CardInput, read: Stored)
    | Reloading(d: Decision)
    | Decided(d: Decision)
    | ExpireReading(reason: string)
    | ExpireWriting(reason: string, now: Instant, read: Stored)
    | Deleting
    | RefsReading(updates: map<string, string>, attempt: nat)
    | RefsWriting(updates: map<string, string>, attempt: nat, read: Stored)
    | RefsReturned(updates: map<string, string>, attempts: nat, outcome: RefsOutcome)

  /** How storing references ended. `Held(at)` is a nil return with the card present;
      `at` is the log position at which the card held every update. */
  datatype RefsOutcome = CardMissing | Held(at: nat) | RetriesExceeded

  datatype State = State(log: seq<Entry>, procs: seq<Proc>)

  function Initial(processes: nat): State {
    State([], seq(processes, _ => Ready))
  }

  function Current(log: seq<Entry>): Option<Stored> {
    if log == [] then None
    else match log[|log| - 1]
         case Put(card, rev, _) => Some(Stored(card, rev))
         case Del(_) => None
  }

  /** One atomic step of process `p`; `rev` is the revision the backend assigns to a write. */
  datatype Action =
    | BeginDecision(p: nat, d: Decision, input: CardInput)
    | BeginExpiry(p: nat, reason: string)
    | BeginRefs(p: nat, updates: map<string, string>)
    | ReadCard(p: nat, now: Instant)
    | WriteCard(p: nat, rev: nat)
    | Finish(p: nat)
    | DeleteCard(p: nat, rev: nat)
    | Crash(p: nat)

  ghost predicate AssignsRevision(policy: Revisions, log: seq<Entry>, creates: bool, rev: nat) {
    match policy
    case NeverReused => forall e :: e in log ==> e.rev < rev
    case RestartAtOne =>
      if creates then rev == 1
      else Current(log).Some? && rev == Current(log).value.rev + 1
  }

  /** The state after `p` read the card. */
  function AfterRead(s: State, p: nat, now: Instant): Option<Proc>
    requires p < |s.procs|
  {
    var current := Current(s.log);
    match s.procs[p]
    case Deciding(d, input) =>
      Some(if current.None? then Creating(d, input) else Updating(d, input, current.value))
    case Reloading(d) => Some(Decided(d))
    case ExpireReading(reason) =>
      Some(if current.None? || !IsActive(current.value.card.state) then Ready
           else ExpireWriting(reason, now, current.value))
    case RefsReading(updates, attempt) =>
      Some(if current.None? then RefsReturned(updates, attempt + 1, CardMissing)
           else if MergedRefs(current.value.card.externalRefs, updates) == current.value.card.externalRefs
           then RefsReturned(updates, attempt + 1, Held(|s.log|))
           else RefsWriting(updates, attempt, current.value))
    case _ => None
  }

  /** What `p` is about to write, and the revision it expects (none for a create). */
  function PendingWrite(proc: Proc): Option<(AlertCard, Origin, Option<nat>)> {
    match proc
    case Creating(d, input) => Some((NewCard(d, input), Transition(d, input, true), None))
    case Updating(d, input, read) =>
      Some((UpdatedCard(read.card, d, input), Transition(d, input, read.card.state != d.state), Some(read.rev)))
    case ExpireWriting(reason, now, read) =>
      Some((ExpiredCard(read.card, reason, now), Expiry(reason, now), Some(read.rev)))
    case RefsWriting(updates, attempt, read) =>
      Some((read.card.(externalRefs := MergedRefs(read.card.externalRefs, updates)), RefMerge(updates), Some(read.rev)))
    case _ => None
  }

  /** Compare-and-set: a create needs no card, an update needs the expected revision. */
  predicate CasSucceeds(log: seq<Entry>, expected: Option<nat>) {
    match expected
    case None => Current(log).None?
    case Some(rev) => Current(log).Some? && Current(log).value.rev == rev
  }

  function AfterWrite(proc: Proc, position: nat): Proc {
    match proc
    case Creating(d, _) => Decided(d)
    case Updating(d, _, _) => Decided(d)
    case ExpireWriting(_, _, _) => Deleting
    case RefsWriting(updates, attempt, _) => RefsReturned(updates, attempt + 1, Held(position))
    case _ => proc
  }

  /** A conflict never retries a transition or an expiry; references retry a bounded number of times. */
  function AfterConflict(proc: Proc): Proc {
    match proc
    case Creating(d, _) => Reloading(d)
    case Updating(d, _, _) => Reloading(d)
    case ExpireWriting(_, _, _) => Ready
    case RefsWriting(updates, attempt, _) =>
      if attempt + 1 < MAX_REF_ATTEMPTS then RefsReading(updates, attempt + 1)
      else RefsReturned(updates, attempt + 1, RetriesExceeded)
    case _ => proc
  }

  /** The state after an action, when the action is enabled. */
  ghost function Step(policy: Revisions, s: State, a: Action): Option<State> {
    if a.p >= |s.procs| then None
    else
      var proc := s.procs[a.p];
      match a
      case BeginDecision(p, d, input) =>
        if proc == Ready && d.state != Idle then Some(s.(procs := s.procs[p := Deciding(d, input)])) else None
      case BeginExpiry(p, reason) =>
        if proc == Ready then Some(s.(procs := s.procs[p := ExpireReading(reason)])) else None
      case BeginRefs(p, updates) =>
        if proc == Ready then Some(s.(procs := s.procs[p := RefsReading(updates, 0)])) else None
      case ReadCard(p, now) =>
        var next := AfterRead(s, p, now);
        if next.Some? then Some(s.(procs := s.procs[p := next.value])) else None
      case WriteCard(p, rev) =>
        var write := PendingWrite(proc);
        if write.None? then None
        else if !CasSucceeds(s.log, write.value.2) then Some(s.(procs := s.procs[p := AfterConflict(proc)]))
        else if !AssignsRevision(policy, s.log, write.value.2.None?, rev) then None
        else
          var log := s.log + [Put(write.value.0, rev, write.value.1)];
          Some(State(log, s.procs[p := AfterWrite(proc, |log|)]))
      case Finish(p) =>
        // The notification was sent: a resolved alert is deleted next. A send that fails
        // ends the operation without the delete, which is what `Crash` does.
        if proc.Decided? then
          Some(s.(procs := s.procs[p := if proc.d.state == Resolved then Deleting else Ready]))
        else if proc.RefsReturned? then Some(s.(procs := s.procs[p := Ready]))
        else None
      case DeleteCard(p, rev) =>
        if proc != Deleting || (policy.NeverReused? && !AssignsRevision(policy, s.log, false, rev)) then None
        else Some(State(s.log + [Del(rev)], s.procs[p := Ready]))
      case Crash(p) => Some(s.(procs := s.procs[p := Ready]))
  }

  /** The state reached by a run, if each of its actions was enabled. */
  ghost function Run(policy: Revisions, processes: nat, actions: seq<Action>): Option<State> {
    if actions == [] then Some(Initial(processes))
    else
      var before := Run(policy, processes, actions[..|actions| - 1]);
      if before.None? then None else Step(policy, before.value, actions[|actions| - 1])
  }

  /** `s` is reached by some run of that many processes. */
  ghost predicate Reachable(policy: Revisions, processes: nat, s: State) {
    exists actions :: Run(policy, processes, actions) == Some(s)
  }

  lemma StartReachable(policy: Revisions, processes: nat)
    ensures Reachable(policy, processes, Initial(processes))
  {
    assert Run(policy, processes, []) == Some(Initial(processes));
  }

  lemma StepReachable(policy: Revisions, processes: nat, s: State, a: Action)
    requires Reachable(policy, processes, s) && Step(policy, s, a).Some?
    ensures Reachable(policy, processes, Step(policy, s, a).value)
  {
    var actions :| Run(policy, processes, actions) == Some(s);
    var longer := actions + [a];
    assert longer[..|longer| - 1] == actions;
    assert Run(policy, processes, longer) == Step(policy, s, a);
  }

  // ---------------------------------------------------------------------------
  // In every interleaving each write is one that an undisturbed operation could have made.

  /** Entry `i`, if it is a write, is what its operation writes on the card stored just before. Deletes are
      not restricted. */
  ghost predicate AtomicEntry(log: seq<Entry>, i: nat)
    requires i < |log|
  {
    var before := Current(log[..i]);
    match log[i]
    case Del(_) => true
    case Put(card, _, Transition(d, input, grants)) =>
      && d.state != Idle
      && if before.None? then card == NewCard(d, input) && grants
         else card == UpdatedCard(before.value.card, d, input) && (grants <==> before.value.card.state != d.state)
    case Put(card, _, Expiry(reason, now)) =>
      && before.Some? && IsActive(before.value.card.state)
      && card == ExpiredCard(before.value.card, reason, now)
    case Put(card, _, RefMerge(updates)) =>
      && before.Some?
      && card == before.value.card.(externalRefs := MergedRefs(before.value.card.externalRefs, updates))
      && card != before.value.card
  }

  ghost predicate AtomicWrites(log: seq<Entry>) {
    forall i: nat :: i < |log| ==> AtomicEntry(log, i)
  }

  ghost predicate IncreasingRevisions(log: seq<Entry>) {
    forall i, j :: 0 <= i < j < |log| ==> log[i].rev < log[j].rev
  }

  ghost predicate WasStored(log: seq<Entry>, read: Stored) {
    exists i :: 0 <= i < |log| && log[i].Put? && log[i].card == read.card && log[i].rev == read.rev
  }

  ghost predicate ProcSound(log: seq<Entry>, proc: Proc) {
    match proc
    case Deciding(d, _) => d.state != Idle
    case Creating(d, _) => d.state != Idle
    case Updating(d, _, read) => d.state != Idle && WasStored(log, read)
    case ExpireWriting(_, _, read) => IsActive(read.card.state) && WasStored(log, read)
    case RefsReading(_, attempt) => attempt < MAX_REF_ATTEMPTS
    case RefsWriting(updates, attempt, read) =>
      && attempt < MAX_REF_ATTEMPTS && WasStored(log, read)
      && MergedRefs(read.card.externalRefs, updates) != read.card.externalRefs
    case RefsReturned(updates, attempts, outcome) =>
      && attempts <= MAX_REF_ATTEMPTS
      && (outcome.Held? ==>
            && outcome.at <= |log| && Current(log[..outcome.at]).Some?
            && HoldsAll(Current(log[..outcome.at]).value.card.externalRefs, updates))
    case _ => true
  }

  ghost predicate Inv(s: State) {
    && AtomicWrites(s.log)
    && IncreasingRevisions(s.log)
    && forall p :: 0 <= p < |s.procs| ==> ProcSound(s.log, s.procs[p])
  }

  /** With revisions that are never reused, a matching revision means the very card that was read. */
  lemma CasSeesWhatWasRead(log: seq<Entry>, read: Stored)
    requires IncreasingRevisions(log) && WasStored(log, read)
    requires CasSucceeds(log, Some(read.rev))
    ensures Current(log) == Some(read)
  {
    var i :| 0 <= i < |log| && log[i].Put? && log[i].card == read.card && log[i].rev == read.rev;
  }

  lemma ProcSoundMonotone(log: seq<Entry>, e: Entry, proc: Proc)
    requires ProcSound(log, proc)
    ensures ProcSound(log + [e], proc)
  {
    var log' := log + [e];
    forall read | WasStored(log, read) ensures WasStored(log', read) {
      var i :| 0 <= i < |log| && log[i].Put? && log[i].card == read.card && log[i].rev == read.rev;
      assert log'[i] == log[i];
    }
    if proc.RefsReturned? && proc.outcome.Held? {
      assert log'[..proc.outcome.at] == log[..proc.outcome.at];
    }
  }

  lemma AppendKeepsAtomic(log: seq<Entry>, e: Entry)
    requires AtomicWrites(log)
    requires AtomicEntry(log + [e], |log|)
    ensures AtomicWrites(log + [e])
  {
    var log' := log + [e];
    forall i: nat | i < |log'| ensures AtomicEntry(log', i) {
      if i < |log| {
        assert log'[..i] == log[..i];
        assert AtomicEntry(log, i);
      }
    }
  }

  /** The write that a process had prepared from what it read is one atomic step of the log. */
  lemma WriteIsAtomic(s: State, p: nat, rev: nat)
    requires Inv(s) && p < |s.procs|
    requires PendingWrite(s.procs[p]).Some?
    requires CasSucceeds(s.log, PendingWrite(s.procs[p]).value.2)
    ensures var write := PendingWrite(s.procs[p]).value;
            AtomicEntry(s.log + [Put(write.0, rev, write.1)], |s.log|)
  {
    var write := PendingWrite(s.procs[p]).value;
    assert (s.log + [Put(write.0, rev, write.1)])[..|s.log|] == s.log;
    if write.2.Some? {
      CasSeesWhatWasRead(s.log, s.procs[p].read);
    }
  }

  lemma ProcMoves(s: State, p: nat, next: Proc)
    requires Inv(s) && p < |s.procs| && ProcSound(s.log, next)
    ensures Inv(s.(procs := s.procs[p := next]))
  {
    hide ProcSound, AtomicWrites, IncreasingRevisions;
  }

  lemma LogGrows(s: State, e: Entry, p: nat, next: Proc)
    requires Inv(s) && p < |s.procs| && ProcSound(s.log + [e], next)
    requires AtomicEntry(s.log + [e], |s.log|) && forall earlier :: earlier in s.log ==> earlier.rev < e.rev
    ensures Inv(State(s.log + [e], s.procs[p := next]))
  {
    hide ProcSound, AtomicEntry;
    AppendKeepsAtomic(s.log, e);
    forall q | 0 <= q < |s.procs| && q != p ensures ProcSound(s.log + [e], s.procs[q]) {
      ProcSoundMonotone(s.log, e, s.procs[q]);
    }
  }

  lemma WriteKeepsProcSound(log: seq<Entry>, proc: Proc, rev: nat)
    requires ProcSound(log, proc) && PendingWrite(proc).Some?
    ensures ProcSound(log, AfterConflict(proc))
    ensures var write := PendingWrite(proc).value;
            var longer := log + [Put(write.0, rev, write.1)];
            ProcSound(longer, AfterWrite(proc, |longer|))
  {
    var write := PendingWrite(proc).value;
    var longer := log + [Put(write.0, rev, write.1)];
    assert longer[..|longer|] == longer;
  }

  lemma WriteKeepsInv(s: State, p: nat, rev: nat)
    requires Inv(s) && p < |s.procs|
    requires PendingWrite(s.procs[p]).Some?
    requires Step(NeverReused, s, WriteCard(p, rev)).Some?
    ensures Inv(Step(NeverReused, s, WriteCard(p, rev)).value)
  {
    hide Inv, AtomicEntry, ProcSound, AfterWrite, AfterConflict;
    var proc := s.procs[p];
    var write := PendingWrite(proc).value;
    ProcOfInv(s, p);
    WriteKeepsProcSound(s.log, proc, rev);
    if CasSucceeds(s.log, write.2) {
      var e := Put(write.0, rev, write.1);
      WriteIsAtomic(s, p, rev);
      LogGrows(s, e, p, AfterWrite(proc, |s.log + [e]|));
    } else {
      ProcMoves(s, p, AfterConflict(proc));
    }
  }

  lemma ProcOfInv(s: State, p: nat)
    requires Inv(s) && p < |s.procs|
    ensures ProcSound(s.log, s.procs[p])
  {
  }

  lemma ReadKeepsInv(s: State, p: nat, now: Instant)
    requires Inv(s) && p < |s.procs| && AfterRead(s, p, now).Some?
    ensures Inv(s.(procs := s.procs[p := AfterRead(s, p, now).value]))
  {
    hide Inv;
    ProcOfInv(s, p);
    if Current(s.log).Some? {
      assert s.log[|s.log| - 1].rev == Current(s.log).value.rev;
      assert WasStored(s.log, Current(s.log).value);
      assert s.log[..|s.log|] == s.log;
    }
    ProcMoves(s, p, AfterRead(s, p, now).value);
  }

  lemma StepKeepsInv(s: State, a: Action)
    requires Inv(s)
    requires Step(NeverReused, s, a).Some?
    ensures Inv(Step(NeverReused, s, a).value)
  {
    hide Inv, AfterRead, PendingWrite, CasSucceeds, AfterWrite, AfterConflict, Current;
    var s' := Step(NeverReused, s, a).value;
    match a
    case WriteCard(p, rev) => WriteKeepsInv(s, p, rev);
    case DeleteCard(p, rev) =>
      assert AtomicEntry(s.log + [Del(rev)], |s.log|);
      LogGrows(s, Del(rev), p, Ready);
    case ReadCard(p, now) => ReadKeepsInv(s, p, now);
    case _ => ProcMoves(s, a.p, s'.procs[a.p]);
  }

  lemma {:induction false} RunKeepsInv(processes: nat, actions: seq<Action>)
    requires Run(NeverReused, processes, actions).Some?
    ensures Inv(Run(NeverReused, processes, actions).value)
  {
    if actions != [] {
      var prefix := actions[..|actions| - 1];
      RunKeepsInv(processes, prefix);
      StepKeepsInv(Run(NeverReused, processes, prefix).value, actions[|actions| - 1]);
    }
  }

  lemma ReachableInv(processes: nat, s: State)
    requires Reachable(NeverReused, processes, s)
    ensures Inv(s)
  {
    var actions :| Run(NeverReused, processes, actions) == Some(s);
    RunKeepsInv(processes, actions);
  }

  /** Main result: whatever the interleaving, every write is one that its operation makes on the card stored
      just before it, as if nothing had come between its read and its write. */
  lemma WritesAreAtomic(processes: nat, s: State)
    requires Reachable(NeverReused, processes, s)
    ensures AtomicWrites(s.log)
  {
    ReachableInv(processes, s);
  }

  // ---------------------------------------------------------------------------
  // Transition notifications.

  /** The write that entitles its process to send the notification of the state it wrote. */
  predicate Grants(e: Entry) {
    e.Put? && (e.origin.Expiry? || (e.origin.Transition? && e.origin.grants))
  }

  /** A notification is granted exactly by the create, or by the write that changed the state. */
  lemma GrantIffStateChanged(log: seq<Entry>, i: nat)
    requires AtomicWrites(log) && i < |log| && log[i].Put?
    ensures Grants(log[i]) <==>
              (Current(log[..i]).None? || Current(log[..i]).value.card.state != log[i].card.state)
  {
    assert AtomicEntry(log, i);
  }

  /** Two notifications of one state are separated by a delete or by a write of another state. */
  lemma GrantsAreSeparated(processes: nat, s: State, i: nat, j: nat) returns (k: nat)
    requires Reachable(NeverReused, processes, s)
    requires i < j < |s.log| && Grants(s.log[i]) && Grants(s.log[j])
    requires s.log[i].card.state == s.log[j].card.state
    ensures i < k < j && (s.log[k].Del? || s.log[k].card.state != s.log[i].card.state)
  {
    ReachableInv(processes, s);
    GrantIffStateChanged(s.log, j);
    assert s.log[..j][j - 1] == s.log[j - 1];
    k := j - 1;
  }

  /** With no reopening in between, a write that resolves again is granted a second resolved
      notification exactly when a late instance creates the deleted card again. */
  lemma RepeatedResolveIsRecreation(processes: nat, s: State, i: nat, j: nat)
    requires Reachable(NeverReused, processes, s)
    requires i < j < |s.log| && Grants(s.log[i]) && s.log[j].Put?
    requires s.log[i].card.state == s.log[j].card.state == Resolved
    requires forall k :: i < k < j && s.log[k].Put? ==> !IsActive(s.log[k].card.state)
    ensures Grants(s.log[j]) <==> s.log[j - 1].Del?
    ensures Grants(s.log[j]) ==> Current(s.log[..j]).None? && s.log[j].origin.Transition?
  {
    ReachableInv(processes, s);
    if s.log[j - 1].Put? {
      StatesAreNeverIdle(s.log, j - 1);
    }
    GrantIffStateChanged(s.log, j);
    assert AtomicEntry(s.log, j);
    assert s.log[..j][j - 1] == s.log[j - 1];
  }

  lemma {:induction false} StatesAreNeverIdle(log: seq<Entry>, i: nat)
    requires AtomicWrites(log) && i < |log| && log[i].Put?
    ensures log[i].card.state != Idle
  {
    assert AtomicEntry(log, i);
    if log[i].origin.RefMerge? {
      assert log[..i][i - 1] == log[i - 1];
      StatesAreNeverIdle(log, i - 1);
    }
  }

  // ---------------------------------------------------------------------------
  // External references.

  /** References are only added during one card lifetime. */
  lemma {:induction false} RefKeysGrow(log: seq<Entry>, i: nat, j: nat)
    requires AtomicWrites(log) && i <= j < |log|
    requires forall k :: i <= k <= j ==> log[k].Put?
    ensures log[i].card.externalRefs.Keys <= log[j].card.externalRefs.Keys
  {
    if i < j {
      RefKeysGrow(log, i, j - 1);
      assert AtomicEntry(log, j);
      assert log[..j][j - 1] == log[j - 1];
    }
  }

  lemma ExternalRefsGrow(processes: nat, s: State, i: nat, j: nat)
    requires Reachable(NeverReused, processes, s)
    requires i <= j < |s.log| && forall k :: i <= k <= j ==> s.log[k].Put?
    ensures s.log[i].card.externalRefs.Keys <= s.log[j].card.externalRefs.Keys
  {
    ReachableInv(processes, s);
    RefKeysGrow(s.log, i, j);
  }

  /** Storing references ends within three attempts; a nil return with the card present
      means the card held every update at one point of its history. */
  lemma RefsReturnIsTrue(processes: nat, s: State, p: nat)
    requires Reachable(NeverReused, processes, s)
    requires p < |s.procs| && s.procs[p].RefsReturned?
    ensures s.procs[p].attempts <= 3
    ensures s.procs[p].outcome.Held? ==>
              var at := s.procs[p].outcome.at;
              && at <= |s.log| && Current(s.log[..at]).Some?
              && HoldsAll(Current(s.log[..at]).value.card.externalRefs, s.procs[p].updates)
  {
    ReachableInv(processes, s);
    assert ProcSound(s.log, s.procs[p]);
  }

  /** A reference write changes no other field, and no other write changes the references of a live card. */
  lemma RefWritesAreIsolated(processes: nat, s: State, i: nat)
    requires Reachable(NeverReused, processes, s)
    requires i < |s.log| && s.log[i].Put? && Current(s.log[..i]).Some?
    ensures var before := Current(s.log[..i]).value.card;
            if s.log[i].origin.RefMerge? then s.log[i].card.(externalRefs := before.externalRefs) == before
            else s.log[i].card.externalRefs == before.externalRefs
  {
    ReachableInv(processes, s);
    assert AtomicEntry(s.log, i);
  }

  // ---------------------------------------------------------------------------
  // Where the guarantees stop.

  function SampleInput(now: Instant): CardInput {
    CardInput("rule/r/v/0", "r", AlertIdentity("v", map[], ""), 1, now)
  }

  /** Process `p` starts a decision and reads the card. */
  lemma Prepare(policy: Revisions, processes: nat, s: State, p: nat, d: Decision, input: CardInput) returns (next: State)
    requires Reachable(policy, processes, s)
    requires p < |s.procs| && s.procs[p] == Ready && d.state != Idle
    ensures Reachable(policy, processes, next)
    ensures next == s.(procs := s.procs[p := if Current(s.log).None? then Creating(d, input)
                                             else Updating(d, input, Current(s.log).value)])
  {
    hide Reachable;
    var begin := BeginDecision(p, d, input);
    StepReachable(policy, processes, s, begin);
    next := Step(policy, s, begin).value;
    StepReachable(policy, processes, next, ReadCard(p, input.now));
    next := Step(policy, next, ReadCard(p, input.now)).value;
  }

  /** The store accepts what process `p` is about to write. */
  lemma WriteAccepted(policy: Revisions, processes: nat, s: State, p: nat, rev: nat) returns (next: State)
    requires Reachable(policy, processes, s)
    requires p < |s.procs| && PendingWrite(s.procs[p]).Some?
    requires var w := PendingWrite(s.procs[p]).value;
             CasSucceeds(s.log, w.2) && AssignsRevision(policy, s.log, w.2.None?, rev)
    ensures Reachable(policy, processes, next)
    ensures var w := PendingWrite(s.procs[p]).value;
            && next.log == s.log + [Put(w.0, rev, w.1)]
            && next.procs == s.procs[p := AfterWrite(s.procs[p], |next.log|)]
  {
    hide Reachable;
    StepReachable(policy, processes, s, WriteCard(p, rev));
    next := Step(policy, s, WriteCard(p, rev)).value;
  }

  /** Process `p`, whose decision the store accepts, writes and ends its operation. */
  lemma Commit(policy: Revisions, processes: nat, s: State, p: nat, rev: nat) returns (next: State)
    requires Reachable(policy, processes, s)
    requires p < |s.procs| && (s.procs[p].Creating? || s.procs[p].Updating?)
    requires var w := PendingWrite(s.procs[p]).value;
             CasSucceeds(s.log, w.2) && AssignsRevision(policy, s.log, w.2.None?, rev)
    ensures Reachable(policy, processes, next)
    ensures var w := PendingWrite(s.procs[p]).value;
            next == State(s.log + [Put(w.0, rev, w.1)], s.procs[p := Ready])
  {
    hide Reachable;
    var written := WriteAccepted(policy, processes, s, p, rev);
    StepReachable(policy, processes, written, Crash(p));
    next := Step(policy, written, Crash(p)).value;
  }

  /** Process `p` starts to expire an active alert. */
  lemma PrepareExpiry(policy: Revisions, processes: nat, s: State, p: nat, reason: string, now: Instant) returns (next: State)
    requires Reachable(policy, processes, s)
    requires p < |s.procs| && s.procs[p] == Ready
    requires Current(s.log).Some? && IsActive(Current(s.log).value.card.state)
    ensures Reachable(policy, processes, next)
    ensures next == s.(procs := s.procs[p := ExpireWriting(reason, now, Current(s.log).value)])
  {
    hide Reachable;
    StepReachable(policy, processes, s, BeginExpiry(p, reason));
    next := Step(policy, s, BeginExpiry(p, reason)).value;
    StepReachable(policy, processes, next, ReadCard(p, now));
    next := Step(policy, next, ReadCard(p, now)).value;
  }

  /** Process `p` reads the card to which it will add references. */
  lemma PrepareRefs(policy: Revisions, processes: nat, s: State, p: nat, updates: map<string, string>) returns (next: State)
    requires Reachable(policy, processes, s)
    requires p < |s.procs| && s.procs[p] == Ready && Current(s.log).Some?
    requires MergedRefs(Current(s.log).value.card.externalRefs, updates) != Current(s.log).value.card.externalRefs
    ensures Reachable(policy, processes, next)
    ensures next == s.(procs := s.procs[p := RefsWriting(updates, 0, Current(s.log).value)])
  {
    hide Reachable, MergedRefs;
    StepReachable(policy, processes, s, BeginRefs(p, updates));
    next := Step(policy, s, BeginRefs(p, updates)).value;
    StepReachable(policy, processes, next, ReadCard(p, 1));
    next := Step(policy, next, ReadCard(p, 1)).value;
  }

  /** Process `p` deletes the card it resolved. */
  lemma CommitDelete(policy: Revisions, processes: nat, s: State, p: nat, rev: nat) returns (next: State)
    requires Reachable(policy, processes, s)
    requires p < |s.procs| && s.procs[p] == Deleting
    requires policy.NeverReused? ==> AssignsRevision(policy, s.log, false, rev)
    ensures Reachable(policy, processes, next)
    ensures next == State(s.log + [Del(rev)], s.procs[p := Ready])
  {
    hide Reachable;
    StepReachable(policy, processes, s, DeleteCard(p, rev));
    next := Step(policy, s, DeleteCard(p, rev)).value;
  }

  function OpeningEntry(d: Decision, now: Instant): Entry {
    Put(NewCard(d, SampleInput(now)), 1, Transition(d, SampleInput(now), true))
  }

  function ExpiryEntry(first: Entry): Entry
    requires first.Put?
  {
    Put(ExpiredCard(first.card, "", 2), 2, Expiry("", 2))
  }

  /** Process 0 of two opens an alert. */
  lemma AlertOpened(policy: Revisions, d: Decision)
    requires IsActive(d.state)
    ensures Reachable(policy, 2, State([OpeningEntry(d, 1)], [Ready, Ready]))
  {
    hide Reachable;
    StartReachable(policy, 2);
    var s := Prepare(policy, 2, Initial(2), 0, d, SampleInput(1));
    s := Commit(policy, 2, s, 0, 1);
    assert s == State([OpeningEntry(d, 1)], [Ready, Ready]);
  }

  /** Process 0 expires the alert it opened, while process 1 stands anywhere. */
  lemma AlertExpired(policy: Revisions, d: Decision, other: Proc)
    requires IsActive(d.state)
    requires Reachable(policy, 2, State([OpeningEntry(d, 1)], [Ready, other]))
    ensures var e := OpeningEntry(d, 1);
            Reachable(policy, 2, State([e, ExpiryEntry(e), Del(3)], [Ready, other]))
  {
    hide Reachable;
    var e := OpeningEntry(d, 1);
    var s := PrepareExpiry(policy, 2, State([e], [Ready, other]), 0, "", 2);
    assert s.procs == [ExpireWriting("", 2, Stored(e.card, 1)), other];
    s := WriteAccepted(policy, 2, s, 0, 2);
    assert s == State([e, ExpiryEntry(e)], [Deleting, other]);
    s := CommitDelete(policy, 2, s, 0, 3);
    assert s == State([e, ExpiryEntry(e), Del(3)], [Ready, other]);
  }

  /** When a recreated card restarts at revision 1, as in the in-memory store, an update
      that was read before the delete succeeds: two firing notifications in a row. */
  lemma ReusedRevisionsGrantTwice() returns (s: State)
    ensures Reachable(RestartAtOne, 2, s)
    ensures |s.log| == 5 && Grants(s.log[3]) && Grants(s.log[4])
    ensures s.log[3].card.state == s.log[4].card.state == Firing
    ensures !AtomicWrites(s.log)
  {
    hide Reachable;
    var pend, fire := Entered("a", Pending, false), Entered("a", Firing, true);
    var e0 := OpeningEntry(pend, 1);
    var held := Updating(fire, SampleInput(2), Stored(e0.card, 1));
    AlertOpened(RestartAtOne, pend);
    s := Prepare(RestartAtOne, 2, State([e0], [Ready, Ready]), 1, fire, SampleInput(2));
    assert s == State([e0], [Ready, held]);
    AlertExpired(RestartAtOne, pend, held);
    s := RecreateUnder(State([e0, ExpiryEntry(e0), Del(3)], [Ready, held]), fire);
  }

  /** The deleted card is created again under a process that still holds revision 1. */
  lemma RecreateUnder(before: State, fire: Decision) returns (s: State)
    requires Reachable(RestartAtOne, 2, before) && fire.state == Firing
    requires |before.procs| == 2 && before.procs[0] == Ready && before.procs[1].Updating?
    requires before.procs[1].d == fire && before.procs[1].read.rev == 1 && before.procs[1].read.card.state == Pending
    requires |before.log| == 3 && before.log[2].Del?
    ensures Reachable(RestartAtOne, 2, s)
    ensures |s.log| == 5 && Grants(s.log[3]) && Grants(s.log[4])
    ensures s.log[3].card.state == s.log[4].card.state == Firing
    ensures !AtomicWrites(s.log)
  {
    hide Reachable;
    s := Prepare(RestartAtOne, 2, before, 0, fire, SampleInput(3));
    s := Commit(RestartAtOne, 2, s, 0, 1);
    s := Commit(RestartAtOne, 2, s, 1, 2);
    assert s.log[..4][3] == s.log[3];
    assert !AtomicEntry(s.log, 4);
  }

  /** Process 1 resolves after the card was deleted. */
  lemma ResolveAfterDelete(before: State) returns (s: State)
    requires Reachable(NeverReused, 2, before)
    requires |before.procs| == 2 && before.procs[1] == Ready
    requires |before.log| == 3 && before.log[2].Del? && forall e :: e in before.log ==> e.rev < 4
    ensures Reachable(NeverReused, 2, s)
    ensures |s.log| == 4 && s.log[..3] == before.log && Grants(s.log[3]) && s.log[3].card.state == Resolved
  {
    hide Reachable;
    s := Prepare(NeverReused, 2, before, 1, Closed("a", "silence_timeout", false), SampleInput(3));
    s := Commit(NeverReused, 2, s, 1, 4);
  }

  /** Even without reuse, a late instance that resolves after the delete creates the card
      again and notifies a second time. */
  lemma LateInstanceResolvesTwice() returns (s: State)
    ensures Reachable(NeverReused, 2, s)
    ensures |s.log| == 4 && Grants(s.log[1]) && Grants(s.log[3])
    ensures s.log[1].card.state == s.log[3].card.state == Resolved
  {
    hide Reachable;
    var fire := Entered("a", Firing, true);
    var e0 := OpeningEntry(fire, 1);
    AlertOpened(NeverReused, fire);
    AlertExpired(NeverReused, fire, Ready);
    var log := [e0, ExpiryEntry(e0), Del(3)];
    s := ResolveAfterDelete(State(log, [Ready, Ready]));
    assert s.log[1] == s.log[..3][1] == log[1];
  }
}
