/** The manager of one instance, delivering directly: it moves the engine, the
    card store and the channels, and each call is proved against the flow of the
    alerts it touches. */
module ManagerModel {
  import opened Domain
  import opened EngineSpec
  import opened EngineModel
  import opened Cards
  import opened OffWindows
  import opened Delivery
  import opened AlertFlow
  import opened MemoryStoreModel
  import opened AlertKey
  import opened Service
  import A = AlertRuns
  import R = ServiceRuns

  type Refreshes = map<AlertId, TickRefresh>

  /** The tick refreshes that a batch has put off; outside a batch there are none. */
  function Deferred(pending: Option<Refreshes>): Refreshes {
    if pending.Some? then pending.value else map[]
  }

  /** What the components hold, alert by alert. */
  ghost function Assembled(states: map<AlertId, Rt>, cards: map<AlertId, VersionedCard>, ticks: map<AlertId, Time>,
                           pending: Refreshes, sent: map<AlertId, seq<Entry>>): Slices
  {
    imap id: AlertId :: Slice(Lookup(states, id), Lookup(cards, id), Lookup(ticks, id), Lookup(pending, id),
                              if id in sent then sent[id] else [])
  }

  // A write to one component changes one field of one slice.

  lemma WriteRt(states: map<AlertId, Rt>, cards: map<AlertId, VersionedCard>, ticks: map<AlertId, Time>,
                put: Refreshes, sent: map<AlertId, seq<Entry>>, id: AlertId, rt: Rt)
    ensures var all := Assembled(states, cards, ticks, put, sent);
            Assembled(states[id := rt], cards, ticks, put, sent) == all[id := all[id].(rt := Some(rt))]
  {
  }

  lemma WriteMarks(states: map<AlertId, Rt>, cards: map<AlertId, VersionedCard>, ticks: map<AlertId, Time>,
                   put: Refreshes, sent: map<AlertId, seq<Entry>>, id: AlertId, marks: Marks)
    ensures var all := Assembled(states, cards, ticks, put, sent);
            Assembled(WithMarks(states, id, marks), cards, ticks, put, sent) ==
            all[id := all[id].(rt := if id in states then Some(states[id].(marks := marks)) else None)]
  {
    if id in states {
      WriteRt(states, cards, ticks, put, sent, id, states[id].(marks := marks));
    }
  }

  lemma WriteCard(states: map<AlertId, Rt>, cards: map<AlertId, VersionedCard>, ticks: map<AlertId, Time>,
                  put: Refreshes, sent: map<AlertId, seq<Entry>>, id: AlertId, card: VersionedCard)
    ensures var all := Assembled(states, cards, ticks, put, sent);
            Assembled(states, cards[id := card], ticks, put, sent) == all[id := all[id].(card := Some(card))]
  {
  }

  lemma WriteTick(states: map<AlertId, Rt>, cards: map<AlertId, VersionedCard>, ticks: map<AlertId, Time>,
                  put: Refreshes, sent: map<AlertId, seq<Entry>>, id: AlertId, tick: Time)
    ensures var all := Assembled(states, cards, ticks, put, sent);
            && Assembled(states, cards, ticks[id := tick], put, sent) == all[id := all[id].(tick := Some(tick))]
            && Assembled(states, cards, ticks - {id}, put, sent) == all[id := all[id].(tick := None)]
  {
  }

  lemma WriteRefresh(states: map<AlertId, Rt>, cards: map<AlertId, VersionedCard>, ticks: map<AlertId, Time>,
                     put: Refreshes, sent: map<AlertId, seq<Entry>>, id: AlertId, refresh: TickRefresh)
    ensures var all := Assembled(states, cards, ticks, put, sent);
            Assembled(states, cards, ticks, put[id := refresh], sent) == all[id := all[id].(deferred := Some(refresh))]
  {
  }

  lemma WriteLog(states: map<AlertId, Rt>, cards: map<AlertId, VersionedCard>, ticks: map<AlertId, Time>,
                 put: Refreshes, sent: map<AlertId, seq<Entry>>, id: AlertId, log: seq<Entry>)
    ensures var all := Assembled(states, cards, ticks, put, sent);
            Assembled(states, cards, ticks, put, sent[id := log]) == all[id := all[id].(log := log)]
  {
  }

  lemma RemoveOne(states: map<AlertId, Rt>, cards: map<AlertId, VersionedCard>, ticks: map<AlertId, Time>,
                  put: Refreshes, sent: map<AlertId, seq<Entry>>, id: AlertId)
    ensures var all := Assembled(states, cards, ticks, put, sent);
            Assembled(states - {id}, cards - {id}, ticks - {id}, put, sent) == all[id := Removed(all[id])]
  {
  }

  lemma ViewBefore(states: map<AlertId, Rt>, cards: map<AlertId, VersionedCard>, ticks: map<AlertId, Time>,
                   put: Refreshes, sent: map<AlertId, seq<Entry>>, id: AlertId)
    ensures Assembled(states, cards, ticks, put, sent)[id].rt == Lookup(states, id)
  {
  }

  lemma SeedNone(refs: map<string, string>, cardRefs: map<string, string>)
    ensures Seeded(refs, cardRefs - cardRefs.Keys) == refs
  {
  }

  lemma SeedStep(refs: map<string, string>, cardRefs: map<string, string>, todo: set<string>, key: string)
    requires key in cardRefs && key in todo
    ensures Seeded(refs, cardRefs - (todo - {key})) ==
            if cardRefs[key] != "" then Seeded(refs, cardRefs - todo)[key := cardRefs[key]] else Seeded(refs, cardRefs - todo)
  {
  }

  lemma WithOwnMarks(states: map<AlertId, Rt>, id: AlertId)
    ensures WithMarks(states, id, MarksOf(states, id)) == states
  {
  }

  lemma SetAgain(states: map<AlertId, Rt>, id: AlertId, a: Marks, b: Marks)
    ensures WithMarks(WithMarks(states, id, a), id, b) == WithMarks(states, id, b)
    ensures id in states ==> MarksOf(WithMarks(states, id, a), id) == a
    ensures id !in states ==> WithMarks(states, id, a) == states
  {
  }

  /** One more mark set on states whose marks of the alert are already `marks`. */
  lemma NextMarks(states: map<AlertId, Rt>, id: AlertId, marks: Marks, key: string, value: string, at: Time)
    ensures var next := WithMarks(states, id, marks);
            var own := MarksOf(next, id);
            && WithMarks(next, id, own.(refs := own.refs[key := value])) == WithMarks(states, id, marks.(refs := marks.refs[key := value]))
            && WithMarks(next, id, own.(lastNotified := own.lastNotified[key := at])) ==
               WithMarks(states, id, marks.(lastNotified := marks.lastNotified[key := at]))
  {
  }

  lemma UnknownAlert(states: map<AlertId, Rt>, id: AlertId, marks: Marks)
    ensures id !in states ==> WithMarks(states, id, marks) == states
  {
  }

  lemma CapturedNone(perChannel: bool, marks: Marks, state: AlertState, at: Time, results: seq<(Route, SendResult)>)
    ensures CapturedAll(perChannel, marks, state, at, results[..0]) == marks
  {
  }

  lemma CapturedNext(perChannel: bool, marks: Marks, state: AlertState, at: Time, results: seq<(Route, SendResult)>, i: nat)
    requires i < |results|
    ensures CapturedAll(perChannel, marks, state, at, results[..i + 1]) ==
            Captured(perChannel, CapturedAll(perChannel, marks, state, at, results[..i]), state, at, results[i].0, results[i].1)
    ensures results[..i + 1][..i] == results[..i] && |results[..i + 1]| - 1 == i
  {
    hide Captured;
    A.CapturedSplit(perChannel, marks, state, at, results[..i + 1], i);
    assert results[..i + 1][..i] == results[..i] && results[..i + 1][i..] == [results[i]];
    var sofar := CapturedAll(perChannel, marks, state, at, results[..i]);
    assert [results[i]][1..] == [];
    assert CapturedAll(perChannel, sofar, state, at, [results[i]]) ==
           CapturedAll(perChannel, Captured(perChannel, sofar, state, at, results[i].0, results[i].1), state, at, []);
  }

  /** The references with every update outside `todo` merged in. */
  function MergedBut(refs: map<string, string>, updates: map<string, string>, todo: set<string>): map<string, string> {
    refs + map key | key in updates && key !in todo && RefAt(refs, key) != updates[key] :: updates[key]
  }

  lemma MergeStart(refs: map<string, string>, updates: map<string, string>)
    ensures MergedBut(refs, updates, updates.Keys) == refs && MergedBut(refs, updates, {}) == MergedRefs(refs, updates)
  {
  }

  lemma MergeStep(refs: map<string, string>, updates: map<string, string>, todo: set<string>, key: string)
    requires key in updates && key in todo
    ensures RefAt(MergedBut(refs, updates, todo), key) == RefAt(refs, key)
    ensures MergedBut(refs, updates, todo - {key}) ==
            if RefAt(refs, key) != updates[key] then MergedBut(refs, updates, todo)[key := updates[key]]
            else MergedBut(refs, updates, todo)
  {
  }

  lemma EmptyMerge(card: Option<VersionedCard>)
    ensures WithRefs(card, map[]) == card
  {
  }

  /** A notification as its steps: sending, remembering, storing references. */
  lemma DispatchedParts(cfg: Config, world: World, rule: Rule, id: AlertId, s: Slice, state: AlertState, now: Instant, routes: seq<Route>)
    ensures var outcome := Dispatched(cfg, world, rule, id, s, state, now, routes);
            if OffActive(rule.off, world.localMinute(now)) then outcome == (s, true)
            else
              var batch := SendAll(world, id, routes, SliceMarks(s), state, now, s.log);
              var sent := s.(log := batch.log);
              if !batch.ok then outcome == (sent, false)
              else
                var marks := CapturedAll(cfg.repeatPerChannel, SliceMarks(s), state, now, batch.results);
                var captured := sent.(rt := if s.rt.Some? then Some(s.rt.value.(marks := marks)) else None);
                outcome == (if state == Resolved then captured
                            else captured.(card := WithRefs(captured.card, RefUpdates(batch.results))), true)
  {
    hide SendAll, CapturedAll, RefUpdates, WithRefs, OffActive;
  }

  /** The card write of a transition and the seeding that follows it. */
  lemma PersistedParts(rule: Rule, id: AlertId, s: Slice, d: Decision, now: Instant)
    requires s.rt.Some?
    ensures var t := Persisted(rule, id, s, d, now).0;
            t.card.Some? && t == s.(card := t.card).(rt := SeededRt(s.rt, t.card.value.card.externalRefs))
  {
    hide NewCard, UpdatedCard, Seeded;
  }

  /** A slice after the stored part of a decision, and whether its notification may be sent. */
  function Recorded(rule: Rule, id: AlertId, s: Slice, d: Decision, now: Instant, batch: bool): (Slice, bool)
    requires s.rt.Some?
  {
    var ticked := if d.shouldStore && d.state != Resolved then Refreshed(s, batch, now, ResolveTimeout(rule)) else s;
    if d.stateChanged then Persisted(rule, id, ticked, d, now) else (ticked, true)
  }

  lemma AppliedParts(cfg: Config, world: World, rule: Rule, id: AlertId, s: Slice, d: Decision, now: Instant, batch: bool)
    ensures Applied(cfg, world, rule, id, s, d, now, batch) ==
            if (!d.shouldStore && !d.shouldNotify) || s.rt.None? then (s, true)
            else
              var (stored, allow) := Recorded(rule, id, s, d, now, batch);
              Announced(cfg, world, rule, id, stored, d, now, allow)
  {
    hide Persisted, Announced;
  }

  lemma RefreshKeeps(s: Slice, batch: bool, now: Time, ttl: Time)
    ensures Refreshed(s, batch, now, ttl).rt == s.rt
  {
  }

  /** Every event of a rule that takes it is a match. */
  lemma EventsMatch(rule: Rule, slot: Option<Rt>, id: AlertId, event: Event, now: Instant)
    ensures EventStep(rule, slot, id, event, now).1.matched
  {
    hide PruneWindow;
  }

  /** An expiry as its steps. */
  lemma ExpiryParts(cfg: Config, world: World, rules: seq<Rule>, id: AlertId, s: Slice, reason: string, looks: Looks, now: Instant)
    ensures var outcome := ExpiryOn(cfg, world, rules, id, s, reason, looks, now);
            var unticked := s.(tick := None);
            if Ticking(s.tick, looks) then outcome == s
            else if s.card.None? || !IsActive(s.card.value.card.state) then outcome == unticked
            else
              var expired := ExpiredCard(s.card.value.card, reason, now);
              var stored := unticked.(card := Some(VersionedCard(expired, s.card.value.revision + 1)));
              var rule := RuleByName(rules, expired.ruleName);
              if rule.None? then outcome == stored
              else
                var seeded := stored.(rt := SeededRt(stored.rt, expired.externalRefs));
                outcome == Removed(Dispatched(cfg, world, rule.value, id, seeded, Resolved, now, rule.value.routes).0)
  {
    hide Dispatched, SeededRt;
  }

  /** The ticks once every put-off refresh outside `todo` is written. */
  function FlushedBut(ticks: map<AlertId, Time>, put: Refreshes, todo: set<AlertId>): map<AlertId, Time> {
    ticks + map id | id in put && id !in todo :: TickExpiry(put[id].lastSeen, put[id].ttl)
  }

  lemma FlushedNone(ticks: map<AlertId, Time>, put: Refreshes)
    ensures FlushedBut(ticks, put, put.Keys) == ticks
  {
  }

  lemma FlushedStep(ticks: map<AlertId, Time>, put: Refreshes, todo: set<AlertId>, id: AlertId)
    requires id in put && id in todo
    ensures FlushedBut(ticks, put, todo - {id}) == FlushedBut(ticks, put, todo)[id := TickExpiry(put[id].lastSeen, put[id].ttl)]
  {
  }

  lemma FlushedEnd(states: map<AlertId, Rt>, cards: map<AlertId, VersionedCard>, ticks: map<AlertId, Time>,
                   put: Refreshes, sent: map<AlertId, seq<Entry>>)
    ensures Assembled(states, cards, FlushedBut(ticks, put, {}), map[], sent) ==
            FlushedAll(Assembled(states, cards, ticks, put, sent))
  {
  }

  // One rule's tick, step by step.

  lemma MovedAll(cfg: Config, world: World, rule: Rule, states: map<AlertId, Rt>, cards: map<AlertId, VersionedCard>,
                 ticks: map<AlertId, Time>, sent: map<AlertId, seq<Entry>>, now: Instant)
    ensures Assembled(TickAll(rule, states, now), cards, ticks, map[], sent) ==
            DecidedBy(cfg, world, rule, Assembled(states, cards, ticks, map[], sent), {}, now)
  {
    hide TickOf, TickDecided;
  }

  lemma DecideNext(cfg: Config, world: World, rule: Rule, before: Slices, done: set<AlertId>, now: Instant, id: AlertId, d: Decision)
    requires id !in done && before[id].rt.Some? && TickOf(rule, before[id].rt.value, now).decision == Some(d)
    ensures var sofar := DecidedBy(cfg, world, rule, before, done, now);
            && Applied(cfg, world, rule, id, sofar[id], d, now, false) == TickDecided(cfg, world, rule, id, before[id], now)
            && DecidedBy(cfg, world, rule, before, done + {id}, now) ==
               sofar[id := TickDecided(cfg, world, rule, id, before[id], now).0]
  {
    hide TickOf, Applied;
  }

  /** An alert without a decision only moves. */
  lemma AllDecided(cfg: Config, world: World, rule: Rule, before: Slices, done: set<AlertId>, now: Instant, id: AlertId)
    requires id !in done && before[id].rt.Some? ==> TickOf(rule, before[id].rt.value, now).decision == None
    ensures DecidedBy(cfg, world, rule, before, done, now)[id] == TickDecided(cfg, world, rule, id, before[id], now).0
    ensures id !in done ==> TickDecided(cfg, world, rule, id, before[id], now).1
  {
    hide TickOf, Applied;
  }

  lemma RepeatNone(cfg: Config, world: World, rule: Rule, before: Slices, decided: Slices, now: Instant)
    requires forall id :: decided[id] == TickDecided(cfg, world, rule, id, before[id], now).0
    ensures decided == RepeatedBy(cfg, world, rule, before, {}, now)
  {
    hide TickDecided, TickFlow;
  }

  lemma RepeatNext(cfg: Config, world: World, rule: Rule, before: Slices, states: map<AlertId, Rt>, done: set<AlertId>,
                   now: Instant, id: AlertId)
    requires forall k :: before[k].rt == Lookup(states, k)
    requires id !in done && TickFires(rule, states, now, id) && TickDecided(cfg, world, rule, id, before[id], now).1
    ensures var sofar := RepeatedBy(cfg, world, rule, before, done, now);
            RepeatedBy(cfg, world, rule, before, done + {id}, now) ==
            sofar[id := Repeated(cfg, world, rule, id, sofar[id], now)]
  {
    hide TickDecided, Repeated, TickOf;
  }

  lemma RepeatEnd(cfg: Config, world: World, rule: Rule, before: Slices, states: map<AlertId, Rt>, done: set<AlertId>, now: Instant)
    requires forall k :: before[k].rt == Lookup(states, k)
    requires forall k :: TickFires(rule, states, now, k) ==> k in done
    requires forall k :: TickDecided(cfg, world, rule, k, before[k], now).1
    ensures RepeatedBy(cfg, world, rule, before, done, now) == TickedBy(cfg, world, rule, before, now)
    ensures forall k :: TickFlow(cfg, world, rule, k, before[k], now).1
  {
    hide TickDecided, Repeated, TickOf;
    forall k ensures RepeatedBy(cfg, world, rule, before, done, now)[k] == TickFlow(cfg, world, rule, k, before[k], now).0
                     && TickFlow(cfg, world, rule, k, before[k], now).1 {
      assert TickDecided(cfg, world, rule, k, before[k], now).1;
      if before[k].rt.Some? {
        assert TickFires(rule, states, now, k) <==> TickOf(rule, before[k].rt.value, now).firing;
      }
    }
  }

  lemma TickNone(cfg: Config, world: World, rules: seq<Rule>, before: Slices, now: Instant)
    ensures before == TickedAll(cfg, world, rules[..0], before, now) && TicksOk(cfg, world, rules[..0], before, now)
  {
  }

  lemma TickNext(cfg: Config, world: World, rules: seq<Rule>, before: Slices, now: Instant, i: nat)
    requires i < |rules| && TicksOk(cfg, world, rules[..i], before, now)
    requires forall id :: TickFlow(cfg, world, rules[i], id, TickedAll(cfg, world, rules[..i], before, now)[id], now).1
    ensures TickedAll(cfg, world, rules[..i + 1], before, now) ==
            TickedBy(cfg, world, rules[i], TickedAll(cfg, world, rules[..i], before, now), now)
    ensures TicksOk(cfg, world, rules[..i + 1], before, now)
  {
    hide TickFlow;
    assert rules[..i + 1][..i] == rules[..i] && rules[..i + 1][i] == rules[i];
    forall id ensures TickSlice(cfg, world, rules[..i + 1], id, before[id], now) ==
                      TickFlow(cfg, world, rules[i], id, TickedAll(cfg, world, rules[..i], before, now)[id], now)
    {
      assert TickSlice(cfg, world, rules[..i], id, before[id], now).1;
    }
  }

  function IdleTTL(cfg: Config): Time {
    if cfg.idleSec <= 0 then 0 else Seconds(cfg.idleSec)
  }

  lemma NothingCompacted(states: map<AlertId, Rt>, now: Instant, idle: Time, cap: int)
    requires idle <= 0 && cap <= 0
    ensures Compacted(states, states, now, idle, cap)
  {
  }

  lemma CompactionOnSlices(cfg: Config, before: map<AlertId, Rt>, after: map<AlertId, Rt>, cards: map<AlertId, VersionedCard>,
                           ticks: map<AlertId, Time>, sent: map<AlertId, seq<Entry>>, now: Instant)
    requires Compacted(before, after, now, IdleTTL(cfg), cfg.maxStates)
    ensures CompactedSlices(cfg, Assembled(before, cards, ticks, map[], sent), Assembled(after, cards, ticks, map[], sent), now)
  {
    hide Compacted, CompactedSlices;
    CompactionByRt(cfg, before, after, Assembled(before, cards, ticks, map[], sent), Assembled(after, cards, ticks, map[], sent), now);
  }

  lemma CompactionByRt(cfg: Config, before: map<AlertId, Rt>, after: map<AlertId, Rt>, a: Slices, b: Slices, now: Instant)
    requires Compacted(before, after, now, IdleTTL(cfg), cfg.maxStates)
    requires forall id :: a[id].rt == Lookup(before, id) && b[id] == a[id].(rt := Lookup(after, id))
    ensures CompactedSlices(cfg, a, b, now)
  {
    hide Stale, Abandoned, Compacted;
    forall id
      ensures b[id] == a[id] || (MayEvict(a[id]) && b[id] == Evicted(a[id]))
      ensures b[id].rt.Some? ==> !Abandoned(cfg, b[id].rt.value, now)
    {
      CompactedAt(before, after, now, IdleTTL(cfg), cfg.maxStates, id);
      if id in after {
        StaleIsAbandoned(cfg, after[id], now);
      }
    }
    CapOnStates(before, after, now, IdleTTL(cfg), cfg.maxStates);
    CapOnSlices(cfg, before, after, a, b, now);
    assert Known(b, after.Keys) && WithinCap(cfg, b, after.Keys) && OldestWent(cfg, a, b, after.Keys, now);
  }

  lemma CapOnSlices(cfg: Config, before: map<AlertId, Rt>, after: map<AlertId, Rt>, a: Slices, b: Slices, now: Instant)
    requires forall id :: a[id].rt == Lookup(before, id) && b[id].rt == Lookup(after, id)
    requires cfg.maxStates > 0 ==> |after.Keys| <= cfg.maxStates || forall id :: id in after ==> after[id].state != Idle
    requires forall id :: id in before && id !in after && !Stale(before[id], now, IdleTTL(cfg)) ==>
               && 0 < cfg.maxStates <= |after.Keys|
               && forall k :: k in after && after[k].state == Idle ==> before[id].lastSeen <= after[k].lastSeen
    ensures Known(b, after.Keys) && WithinCap(cfg, b, after.Keys) && OldestWent(cfg, a, b, after.Keys, now)
  {
    hide Stale, Abandoned;
    forall id | a[id].rt.Some? && id !in after.Keys && !Abandoned(cfg, a[id].rt.value, now)
      ensures 0 < cfg.maxStates <= |after.Keys|
      ensures forall k :: k in after.Keys && b[k].rt.value.state == Idle ==> a[id].rt.value.lastSeen <= b[k].rt.value.lastSeen
    {
      StaleIsAbandoned(cfg, before[id], now);
    }
  }

  lemma StaleIsAbandoned(cfg: Config, rt: Rt, now: Time)
    ensures Stale(rt, now, IdleTTL(cfg)) <==> Abandoned(cfg, rt, now)
  {
  }

  lemma CompactedAt(before: map<AlertId, Rt>, after: map<AlertId, Rt>, now: Time, idle: Time, cap: int, id: AlertId)
    requires Compacted(before, after, now, idle, cap)
    ensures id in after ==> id in before && after[id] == before[id] && !Stale(after[id], now, idle)
    ensures id in before && id !in after ==> before[id].state == Idle
  {
    hide Stale;
  }

  lemma CapOnStates(before: map<AlertId, Rt>, after: map<AlertId, Rt>, now: Time, idle: Time, cap: int)
    requires Compacted(before, after, now, idle, cap)
    ensures cap > 0 ==> |after.Keys| <= cap || forall id :: id in after ==> after[id].state != Idle
    ensures forall id :: id in before && id !in after && !Stale(before[id], now, idle) ==>
              && 0 < cap <= |after.Keys|
              && forall k :: k in after && after[k].state == Idle ==> before[id].lastSeen <= after[k].lastSeen
  {
    hide Stale;
    assert |after.Keys| == |after|;
  }

  /** Writing a slice twice keeps the last. */
  lemma WriteTwice(slices: Slices, id: AlertId, a: Slice, b: Slice)
    ensures slices[id := a][id := b] == slices[id := b] && slices[id := a][id] == a
  {
  }

  /** The notification `whole` has delivered `results` and still has the deliveries of `rest` to do. */
  predicate Resumes(whole: Batch, rest: Batch, results: seq<(Route, SendResult)>) {
    whole == rest.(results := results + rest.results)
  }

  lemma ResumeAll(whole: Batch)
    ensures Resumes(whole, whole, [])
  {
    assert [] + whole.results == whole.results;
  }

  lemma ResumeStep(world: World, id: AlertId, routes: seq<Route>, marks: Marks, state: AlertState, at: Time,
                   log: seq<Entry>, whole: Batch, results: seq<(Route, SendResult)>)
    requires routes != [] && Resumes(whole, SendAll(world, id, routes, marks, state, at, log), results)
    ensures var route, rest := routes[0], routes[1..];
            var outcome := SendVia(route, state, StoredRef(marks, route.key), ReplyTo(marks, route, state), world.reply(id, |log|));
            if Skips(marks, route, state) then Resumes(whole, SendAll(world, id, rest, marks, state, at, log), results)
            else if outcome.None? then !whole.ok && whole.log == log + [Rejected(route.key, at)]
            else
              Resumes(whole, SendAll(world, id, rest, marks, state, at, log + [Delivered(route.key, at, outcome.value.0)]),
                      results + [(route, outcome.value.1)])
  {
    hide SendVia, Skips, ReplyTo, StoredRef;
    var route, rest := routes[0], routes[1..];
    var outcome := SendVia(route, state, StoredRef(marks, route.key), ReplyTo(marks, route, state), world.reply(id, |log|));
    if !Skips(marks, route, state) && outcome.Some? {
      var next := SendAll(world, id, rest, marks, state, at, log + [Delivered(route.key, at, outcome.value.0)]);
      var step := [(route, outcome.value.1)];
      assert (results + step) + next.results == results + (step + next.results);
    }
  }

  lemma ResumeEnd(world: World, id: AlertId, routes: seq<Route>, marks: Marks, state: AlertState, at: Time,
                  log: seq<Entry>, whole: Batch, results: seq<(Route, SendResult)>)
    requires routes == [] && Resumes(whole, SendAll(world, id, routes, marks, state, at, log), results)
    ensures whole == Batch(log, results, true)
  {
    assert results + [] == results;
  }

  class Manager {
    const cfg: Config
    const rules: seq<Rule>
    const engine: Engine
    const store: MemoryStore
    const dispatcher: Dispatcher

    ghost predicate Valid()
      reads engine
    {
      && engine.Valid()
      && forall rule, w :: rule in rules && w in rule.off ==> ValidWindow(w)
    }

    ghost function View(put: Refreshes): Slices
      reads engine, engine.states.Values, store, dispatcher
    {
      Assembled(engine.View(), store.cards, store.ticks, put, dispatcher.sent)
    }

    lemma ViewAt(put: Refreshes, id: AlertId)
      ensures View(put)[id] == Slice(Lookup(engine.View(), id), Lookup(store.cards, id), Lookup(store.ticks, id),
                                     Lookup(put, id), dispatcher.Log(id))
    {
    }

    constructor (cfg: Config, rules: seq<Rule>, world: World)
      requires forall rule, w :: rule in rules && w in rule.off ==> ValidWindow(w)
      ensures this.cfg == cfg && this.rules == rules && dispatcher.world == world
      ensures Valid() && forall id :: View(map[])[id] == NO_SLICE
      ensures fresh(engine) && fresh(store) && fresh(dispatcher) && engine.states == map[]
    {
      this.cfg, this.rules := cfg, rules;
      engine := new Engine();
      store := new MemoryStore();
      dispatcher := new Dispatcher(world);
    }

    // -------------------------------------------------------------------------
    // References and deliveries.

    /** The engine takes over the references of a stored card. */
    method SeedEngine(id: AlertId, refs: map<string, string>)
      requires Valid()
      modifies engine.states.Values
      ensures Valid() && engine.states == old(engine.states)
      ensures var marks := MarksOf(old(engine.View()), id);
              engine.View() == WithMarks(old(engine.View()), id, marks.(refs := Seeded(marks.refs, refs)))
    {
      hide Engine.View, Engine.Valid, Seeded;
      ghost var states := engine.View();
      ghost var marks := MarksOf(states, id);
      var todo := refs.Keys;
      SeedNone(marks.refs, refs);
      WithOwnMarks(states, id);
      while todo != {}
        invariant todo <= refs.Keys
        invariant Valid() && engine.states == old(engine.states)
        invariant engine.View() == WithMarks(states, id, marks.(refs := Seeded(marks.refs, refs - todo)))
        decreases |todo|
      {
        var key :| key in todo;
        SeedStep(marks.refs, refs, todo, key);
        SetAgain(states, id, marks.(refs := Seeded(marks.refs, refs - todo)),
                 marks.(refs := Seeded(marks.refs, refs - (todo - {key}))));
        todo := todo - {key};
        if refs[key] != "" {
          engine.SetChannelExternalRef(id, key, refs[key]);
        }
      }
      assert refs - todo == refs;
    }

    method SeedExternalRefs(id: AlertId, refs: map<string, string>, ghost put: Refreshes)
      requires Valid()
      modifies engine.states.Values
      ensures Valid() && engine.states == old(engine.states)
      ensures View(put) == old(View(put))[id := old(View(put))[id].(rt := SeededRt(old(View(put))[id].rt, refs))]
    {
      hide Engine.View, Engine.Valid, Assembled, Seeded;
      ghost var states, marks := engine.View(), MarksOf(engine.View(), id);
      SeedEngine(id, refs);
      WriteMarks(states, store.cards, store.ticks, put, dispatcher.sent, id, marks.(refs := Seeded(marks.refs, refs)));
      ViewBefore(states, store.cards, store.ticks, put, dispatcher.sent, id);
    }

    /** Sends on each route in order; the first failure ends it and loses the results. */
    method NotifyRoutes(id: AlertId, state: AlertState, routes: seq<Route>, at: Instant, ghost put: Refreshes)
      returns (results: seq<(Route, SendResult)>, ok: bool)
      requires Valid()
      modifies dispatcher
      ensures var marks, log := MarksOf(engine.View(), id), old(View(put))[id].log;
              var batch := SendAll(dispatcher.world, id, routes, marks, state, at, log);
              && ok == batch.ok && (ok ==> results == batch.results)
              && View(put) == old(View(put))[id := old(View(put))[id].(log := batch.log)]
    {
      hide SendAll, SendVia, Skips, ReplyTo, StoredRef, Assembled, Engine.View, Engine.Valid, Resumes;
      ghost var marks, all, log := MarksOf(engine.View(), id), View(put), dispatcher.Log(id);
      ghost var world, whole := dispatcher.world, SendAll(dispatcher.world, id, routes, marks, state, at, log);
      ViewAt(put, id);
      results, ok := [], true;
      WriteTwice(all, id, all[id], all[id]);
      ResumeAll(whole);
      for i := 0 to |routes|
        invariant View(put) == all[id := all[id].(log := dispatcher.Log(id))]
        invariant Resumes(whole, SendAll(world, id, routes[i..], marks, state, at, dispatcher.Log(id)), results)
      {
        var route := routes[i];
        assert routes[i..][0] == route && routes[i..][1..] == routes[i + 1..];
        ghost var sent, sofar := dispatcher.sent, dispatcher.Log(id);
        ResumeStep(world, id, routes[i..], marks, state, at, sofar, whole, results);
        var known := engine.MarksAt(id);
        if !Skips(known, route, state) {
          var result := dispatcher.Send(id, route, state, StoredRef(known, route.key), ReplyTo(known, route, state), at);
          WriteLog(engine.View(), store.cards, store.ticks, put, sent, id, dispatcher.Log(id));
          WriteTwice(all, id, all[id].(log := sofar), all[id].(log := dispatcher.Log(id)));
          if result.None? {
            return [], false;
          }
          results := results + [(route, result.value)];
        }
      }
      ResumeEnd(world, id, routes[|routes|..], marks, state, at, dispatcher.Log(id), whole, results);
    }

    /** What one successful delivery leaves in the engine. */
    method CaptureOne(id: AlertId, state: AlertState, at: Instant, route: Route, result: SendResult)
      requires Valid()
      modifies engine.states.Values
      ensures Valid() && engine.states == old(engine.states)
      ensures engine.View() == WithMarks(old(engine.View()), id,
                Captured(cfg.repeatPerChannel, MarksOf(old(engine.View()), id), state, at, route, result))
    {
      hide Engine.View, Engine.Valid, WithMarks, MarksOf;
      ghost var states, marks := engine.View(), MarksOf(engine.View(), id);
      WithOwnMarks(states, id);
      if state != Resolved && route.channel == Telegram && route.mode != ActiveOnly && result.message.Some? {
        var known := engine.MarksAt(id);
        if route.key !in known.messages {
          engine.SetChannelMessage(id, route.key, result.message.value);
          marks := marks.(messages := marks.messages[route.key := result.message.value]);
        }
      }
      if result.ref.Some? && result.ref.value != "" {
        NextMarks(states, id, marks, route.key, result.ref.value, at);
        engine.SetChannelExternalRef(id, route.key, result.ref.value);
        marks := marks.(refs := marks.refs[route.key := result.ref.value]);
      }
      NextMarks(states, id, marks, RepeatKey(cfg.repeatPerChannel, route), "", at);
      engine.SetLastNotified(id, RepeatKey(cfg.repeatPerChannel, route), at);
    }

    /** What a whole notification leaves in the engine, and the references to store. */
    method CaptureDeliveryEffects(id: AlertId, state: AlertState, results: seq<(Route, SendResult)>, at: Instant)
      returns (updates: map<string, string>)
      requires Valid()
      modifies engine.states.Values
      ensures Valid() && engine.states == old(engine.states)
      ensures engine.View() == WithMarks(old(engine.View()), id,
                CapturedAll(cfg.repeatPerChannel, MarksOf(old(engine.View()), id), state, at, results))
      ensures updates == RefUpdates(results)
    {
      hide Engine.View, Engine.Valid, CapturedAll, Captured, WithMarks;
      ghost var states, marks := engine.View(), MarksOf(engine.View(), id);
      WithOwnMarks(states, id);
      updates := map[];
      CapturedNone(cfg.repeatPerChannel, marks, state, at, results);
      for i := 0 to |results|
        invariant Valid() && engine.states == old(engine.states)
        invariant engine.View() == WithMarks(states, id, CapturedAll(cfg.repeatPerChannel, marks, state, at, results[..i]))
        invariant updates == RefUpdates(results[..i])
      {
        var (route, result) := results[i];
        CapturedNext(cfg.repeatPerChannel, marks, state, at, results, i);
        ghost var sofar := CapturedAll(cfg.repeatPerChannel, marks, state, at, results[..i]);
        SetAgain(states, id, sofar, Captured(cfg.repeatPerChannel, sofar, state, at, route, result));
        UnknownAlert(states, id, Captured(cfg.repeatPerChannel, MarksOf(engine.View(), id), state, at, route, result));
        UnknownAlert(states, id, Captured(cfg.repeatPerChannel, sofar, state, at, route, result));
        CaptureOne(id, state, at, route, result);
        if result.ref.Some? && result.ref.value != "" {
          updates := updates[route.key := result.ref.value];
        }
      }
      assert results[..|results|] == results;
    }

    /** The references of a card with the updates that differ, and whether any did. */
    method MergeRefs(refs: map<string, string>, updates: map<string, string>) returns (merged: map<string, string>, changed: bool)
      ensures merged == MergedRefs(refs, updates)
      ensures changed <==> merged != refs
    {
      hide MergedRefs, MergedBut;
      MergeStart(refs, updates);
      merged, changed := refs, false;
      var todo := updates.Keys;
      while todo != {}
        invariant todo <= updates.Keys
        invariant merged == MergedBut(refs, updates, todo)
        invariant changed <==> exists key :: key in updates && key !in todo && RefAt(refs, key) != updates[key]
        decreases |todo|
      {
        var key :| key in todo;
        MergeStep(refs, updates, todo, key);
        todo := todo - {key};
        if RefAt(merged, key) != updates[key] {
          merged := merged[key := updates[key]];
          changed := true;
        }
      }
      assert changed <==> !HoldsAll(refs, updates);
    }

    /** Stores new references in the card by compare-and-set, three times at most. With one writer
        the first attempt succeeds. */
    method PersistExternalRefs(id: AlertId, updates: map<string, string>, ghost put: Refreshes) returns (ok: bool)
      modifies store
      ensures ok && store.ticks == old(store.ticks)
      ensures View(put) == old(View(put))[id := old(View(put))[id].(card := WithRefs(old(View(put))[id].card, updates))]
    {
      hide Engine.View, MergedRefs, Assembled;
      ghost var all := View(put);
      ViewAt(put, id);
      WriteTwice(all, id, all[id], all[id]);
      ok := true;
      if updates == map[] {
        EmptyMerge(all[id].card);
        return;
      }
      for attempt := 0 to 3
        invariant attempt == 0 && ok && store.cards == old(store.cards) && store.ticks == old(store.ticks)
      {
        var entry := store.GetCard(id);
        if entry.None? {
          return;
        }
        var merged, changed := MergeRefs(entry.value.card.externalRefs, updates);
        if !changed {
          return;
        }
        var card := entry.value.card.(externalRefs := merged);
        WriteCard(engine.View(), store.cards, store.ticks, put, dispatcher.sent, id, VersionedCard(card, entry.value.revision + 1));
        var result := store.UpdateCard(id, entry.value.revision, card);
        if result.Updated? {
          return;
        }
      }
      ok := false;
    }

    /** What came back from a notification is remembered; the references to store are returned. */
    method Remember(id: AlertId, state: AlertState, results: seq<(Route, SendResult)>, now: Instant, ghost put: Refreshes)
      returns (updates: map<string, string>)
      requires Valid()
      modifies engine.states.Values
      ensures Valid() && engine.states == old(engine.states) && updates == RefUpdates(results)
      ensures var s := old(View(put))[id];
              var marks := CapturedAll(cfg.repeatPerChannel, SliceMarks(s), state, now, results);
              View(put) == old(View(put))[id := s.(rt := if s.rt.Some? then Some(s.rt.value.(marks := marks)) else None)]
    {
      hide Engine.View, Engine.Valid, Assembled, CapturedAll, RefUpdates;
      ViewAt(put, id);
      ghost var states := engine.View();
      updates := CaptureDeliveryEffects(id, state, results, now);
      ghost var marks := CapturedAll(cfg.repeatPerChannel, MarksOf(states, id), state, now, results);
      WriteMarks(states, store.cards, store.ticks, put, dispatcher.sent, id, marks);
    }

    /** One notification: nothing while notifications are off; otherwise it is sent on the routes, and
        what came back is remembered unless a send failed. */
    method DispatchNotification(rule: Rule, id: AlertId, state: AlertState, now: Instant, routes: seq<Route>, ghost put: Refreshes)
      returns (ok: bool)
      requires Valid() && rule in rules
      modifies engine.states.Values, store, dispatcher
      ensures Valid() && engine.states == old(engine.states)
      ensures var (t, sent) := Dispatched(cfg, dispatcher.world, rule, id, old(View(put))[id], state, now, routes);
              ok == sent && View(put) == old(View(put))[id := t]
    {
      hide Engine.View, Engine.Valid, Manager.View, SendAll, CapturedAll, RefUpdates, WithRefs, Dispatched, OffActive;
      ghost var all := View(put);
      ghost var s := all[id];
      DispatchedParts(cfg, dispatcher.world, rule, id, s, state, now, routes);
      WriteTwice(all, id, s, s);
      ViewAt(put, id);
      var off := NotifyOffActiveAt(rule.off, dispatcher.world.localMinute(now));
      if off {
        return true;
      }
      var results;
      results, ok := NotifyRoutes(id, state, routes, now, put);
      if !ok {
        return;
      }
      ghost var sent := View(put)[id];
      var updates := Remember(id, state, results, now, put);
      ghost var captured := View(put)[id];
      WriteTwice(all, id, sent, captured);
      if state != Resolved {
        ok := PersistExternalRefs(id, updates, put);
        WriteTwice(all, id, captured, View(put)[id]);
      }
    }

    // -------------------------------------------------------------------------
    // Decisions.

    /** Creates or rewrites the card of a transition; false when another write already announced it. */
    method PersistDecisionCard(rule: Rule, id: AlertId, d: Decision, now: Instant, ghost put: Refreshes)
      returns (stored: AlertCard, allow: bool)
      requires Valid() && id in engine.states
      modifies store`cards
      ensures var (t, allowed) := Persisted(rule, id, old(View(put))[id], d, now);
              && allow == allowed && stored == t.card.value.card
              && View(put) == old(View(put))[id := old(View(put))[id].(card := t.card)]
    {
      hide Engine.View, Engine.Valid, Assembled, NewCard, UpdatedCard, Seeded;
      ViewAt(put, id);
      var rt := engine.StateSnapshot(id);
      var input := InputOf(rule, id, rt.value, now);
      var entry := store.GetCard(id);
      ghost var cards := store.cards;
      if entry.None? {
        stored, allow := NewCard(d, input), true;
        var created := store.CreateCard(id, stored);
        assert created == Some(1);
        WriteCard(engine.View(), cards, store.ticks, put, dispatcher.sent, id, VersionedCard(stored, 1));
      } else {
        allow := entry.value.card.state != d.state;
        stored := UpdatedCard(entry.value.card, d, input);
        var revision := entry.value.revision;
        var result := store.UpdateCard(id, revision, stored);
        assert result.Updated?;
        WriteCard(engine.View(), cards, store.ticks, put, dispatcher.sent, id, VersionedCard(stored, revision + 1));
      }
    }

    /** Refreshes the tick, or puts that off when events come in a batch. */
    method RefreshOrPutOff(id: AlertId, now: Instant, ttl: Time, pending: Option<Refreshes>) returns (next: Option<Refreshes>)
      modifies store`ticks
      ensures next.Some? <==> pending.Some?
      ensures View(Deferred(next)) == old(View(Deferred(pending)))[id := Refreshed(old(View(Deferred(pending)))[id], pending.Some?, now, ttl)]
    {
      hide Engine.View, Assembled;
      ViewAt(Deferred(pending), id);
      ghost var all := View(Deferred(pending));
      WriteTwice(all, id, all[id], all[id]);
      next := pending;
      if pending.None? {
        WriteTick(engine.View(), store.cards, store.ticks, map[], dispatcher.sent, id, TickExpiry(now, ttl));
        store.RefreshTick(id, now, ttl);
      } else if id !in pending.value || pending.value[id].lastSeen < now {
        WriteRefresh(engine.View(), store.cards, store.ticks, pending.value, dispatcher.sent, id, TickRefresh(now, ttl));
        next := Some(pending.value[id := TickRefresh(now, ttl)]);
      }
    }

    /** Removes the card, its tick and the engine state. */
    method Forget(id: AlertId, ghost put: Refreshes)
      requires Valid()
      modifies engine, store
      ensures Valid() && engine.states.Values <= old(engine.states.Values)
      ensures View(put) == old(View(put))[id := Removed(old(View(put))[id])]
    {
      hide Engine.View, Engine.Valid, Assembled;
      RemoveOne(engine.View(), store.cards, store.ticks, put, dispatcher.sent, id);
      store.DeleteCard(id);
      engine.RemoveAlertState(id);
      assert engine.states.Values <= old(engine.states.Values);
    }

    /** The card of a transition, and its references taken over by the engine. */
    method StoreTransition(rule: Rule, id: AlertId, d: Decision, now: Instant, ghost put: Refreshes) returns (allow: bool)
      requires Valid() && id in engine.states
      modifies engine.states.Values, store
      ensures Valid() && engine.states == old(engine.states)
      ensures var (t, allowed) := Persisted(rule, id, old(View(put))[id], d, now);
              allow == allowed && View(put) == old(View(put))[id := t]
    {
      hide Engine.View, Engine.Valid, Assembled, Persisted, Seeded;
      ViewAt(put, id);
      ghost var all := View(put);
      ghost var s := all[id];
      PersistedParts(rule, id, s, d, now);
      ghost var t := Persisted(rule, id, s, d, now).0;
      var card;
      card, allow := PersistDecisionCard(rule, id, d, now, put);
      WriteTwice(all, id, s.(card := t.card), t);
      SeedExternalRefs(id, card.externalRefs, put);
    }

    /** The notification of a decision, and the removal after a resolve. */
    method Announce(rule: Rule, id: AlertId, d: Decision, now: Instant, allow: bool, ghost put: Refreshes) returns (ok: bool)
      requires Valid() && rule in rules
      modifies engine, engine.states.Values, store, dispatcher
      ensures Valid() && engine.states.Values <= old(engine.states.Values)
      ensures var (t, sent) := Announced(cfg, dispatcher.world, rule, id, old(View(put))[id], d, now, allow);
              ok == sent && View(put) == old(View(put))[id := t]
    {
      hide Engine.View, Engine.Valid, Assembled, Dispatched;
      ghost var all := View(put);
      ghost var s := all[id];
      WriteTwice(all, id, s, s);
      ok := true;
      if d.shouldNotify && allow && !(d.state == Pending && !NotifyOnPending(cfg, rule)) {
        ok := DispatchNotification(rule, id, d.state, now, rule.routes, put);
      }
      if ok && d.state == Resolved {
        ghost var sent := View(put)[id];
        WriteTwice(all, id, sent, Removed(sent));
        Forget(id, put);
      }
    }

    /** The stored part of a decision: tick and card. */
    method Record(rule: Rule, id: AlertId, d: Decision, now: Instant, pending: Option<Refreshes>)
      returns (next: Option<Refreshes>, allow: bool)
      requires Valid() && id in engine.states
      modifies engine.states.Values, store
      ensures Valid() && engine.states == old(engine.states) && (next.Some? <==> pending.Some?)
      ensures var s := old(View(Deferred(pending)))[id];
              var (t, allowed) := Recorded(rule, id, s, d, now, pending.Some?);
              allow == allowed && View(Deferred(next)) == old(View(Deferred(pending)))[id := t]
    {
      hide Engine.View, Engine.Valid, Assembled, Persisted, Refreshed;
      ghost var all := View(Deferred(pending));
      ghost var s := all[id];
      WriteTwice(all, id, s, s);
      ViewAt(Deferred(pending), id);
      RefreshKeeps(s, pending.Some?, now, ResolveTimeout(rule));
      next, allow := pending, true;
      if d.shouldStore && d.state != Resolved {
        next := RefreshOrPutOff(id, now, ResolveTimeout(rule), pending);
      }
      ghost var ticked := View(Deferred(next))[id];
      if d.stateChanged {
        allow := StoreTransition(rule, id, d, now, Deferred(next));
        WriteTwice(all, id, ticked, View(Deferred(next))[id]);
      }
    }

    /** Stores and announces one engine decision; the engine has already moved. */
    method ApplyDecision(rule: Rule, id: AlertId, d: Decision, now: Instant, pending: Option<Refreshes>)
      returns (next: Option<Refreshes>, ok: bool)
      requires Valid() && rule in rules
      modifies engine, engine.states.Values, store, dispatcher
      ensures Valid() && engine.states.Values <= old(engine.states.Values) && (next.Some? <==> pending.Some?)
      ensures var (t, sent) := Applied(cfg, dispatcher.world, rule, id, old(View(Deferred(pending)))[id], d, now, pending.Some?);
              ok == sent && View(Deferred(next)) == old(View(Deferred(pending)))[id := t]
    {
      hide Engine.View, Engine.Valid, Assembled, Announced, Applied, Recorded;
      ghost var all := View(Deferred(pending));
      ghost var s := all[id];
      WriteTwice(all, id, s, s);
      ViewAt(Deferred(pending), id);
      AppliedParts(cfg, dispatcher.world, rule, id, s, d, now, pending.Some?);
      next, ok := pending, true;
      if !d.shouldStore && !d.shouldNotify {
        return;
      }
      var known := engine.StateSnapshot(id);
      if known.None? {
        return;
      }
      var allow;
      next, allow := Record(rule, id, d, now, pending);
      ghost var stored := View(Deferred(next))[id];
      ok := Announce(rule, id, d, now, allow, Deferred(next));
      WriteTwice(all, id, stored, View(Deferred(next))[id]);
    }

    // -------------------------------------------------------------------------
    // Events.

    /** One event for one alert of a rule. */
    method HandleEvent(rule: Rule, id: AlertId, event: Event, now: Instant, pending: Option<Refreshes>)
      returns (next: Option<Refreshes>, ok: bool)
      requires Valid() && rule in rules
      modifies engine, engine.states.Values, store, dispatcher
      ensures Valid() && fresh(engine.states.Values - old(engine.states.Values)) && (next.Some? <==> pending.Some?)
      ensures var (t, done) := EventFlow(cfg, dispatcher.world, rule, id, old(View(Deferred(pending)))[id], event, now, pending.Some?);
              ok == done && View(Deferred(next)) == old(View(Deferred(pending)))[id := t]
    {
      hide Engine.View, Engine.Valid, Assembled, Applied, EventStep;
      ghost var put, all := Deferred(pending), View(Deferred(pending));
      ViewAt(put, id);
      ghost var (rt, decided) := EventStep(rule, all[id].rt, id, event, now);
      EventsMatch(rule, all[id].rt, id, event, now);
      WriteRt(engine.View(), store.cards, store.ticks, put, dispatcher.sent, id, rt);
      var d := engine.ProcessEvent(rule, event, id, now);
      assert d.matched;
      next, ok := ApplyDecision(rule, id, d, now, pending);
      WriteTwice(all, id, all[id].(rt := Some(rt)), View(Deferred(next))[id]);
    }

    /** One event under every rule in order, up to the first failure. */
    method ProcessEvent(event: Event, now: Instant, pending: Option<Refreshes>) returns (next: Option<Refreshes>, ok: bool)
      requires Valid()
      modifies engine, engine.states.Values, store, dispatcher
      ensures Valid() && fresh(engine.states.Values - old(engine.states.Values)) && (next.Some? <==> pending.Some?)
      ensures var (t, done) := EventOn(cfg, dispatcher.world, rules, old(View(Deferred(pending))), event, now, pending.Some?);
              ok == done && View(Deferred(next)) == t
    {
      hide Engine.View, Engine.Valid, Assembled, EventFlow, OutOfOrder, Key;
      ghost var world, all := dispatcher.world, View(Deferred(pending));
      next, ok := pending, true;
      for i := 0 to |rules|
        invariant Valid() && fresh(engine.states.Values - old(engine.states.Values)) && (next.Some? <==> pending.Some?)
        invariant EventOn(cfg, world, rules, all, event, now, pending.Some?) ==
                  EventOn(cfg, world, rules[i..], View(Deferred(next)), event, now, pending.Some?)
      {
        var rule := rules[i];
        assert rules[i..][0] == rule && rules[i..][1..] == rules[i + 1..];
        if OutOfOrder(rule, event, now) || !rule.accepts(event) {
          continue;
        }
        var id := BuildAlertKey(dispatcher.world.hash, rule, event);
        if id.None? {
          continue;
        }
        next, ok := HandleEvent(rule, id.value, event, now, next);
        if !ok {
          return;
        }
      }
    }

    /** One event on its own. */
    method Push(event: Event, now: Instant) returns (ok: bool)
      requires Valid()
      modifies engine, engine.states.Values, store, dispatcher
      ensures Valid() && fresh(engine.states.Values - old(engine.states.Values))
      ensures (View(map[]), ok) == EventOn(cfg, dispatcher.world, rules, old(View(map[])), event, now, false)
      ensures ok ==> R.Steps(cfg, dispatcher.world, rules, old(View(map[])), R.PushOp(event, now), View(map[]))
    {
      hide Engine.View, Engine.Valid, Assembled, EventOn;
      var pending;
      pending, ok := ProcessEvent(event, now, None);
    }

    /** Writes every refresh that was put off. */
    method FlushTickRefresh(pending: Refreshes)
      modifies store`ticks
      ensures View(map[]) == FlushedAll(old(View(pending)))
    {
      hide Engine.View, Assembled, FlushedAll, FlushedBut;
      ghost var ticks := store.ticks;
      FlushedNone(ticks, pending);
      var todo := pending.Keys;
      while todo != {}
        invariant todo <= pending.Keys
        invariant store.ticks == FlushedBut(ticks, pending, todo)
        decreases |todo|
      {
        var id :| id in todo;
        FlushedStep(ticks, pending, todo, id);
        todo := todo - {id};
        store.RefreshTick(id, pending[id].lastSeen, pending[id].ttl);
      }
      FlushedEnd(engine.View(), store.cards, ticks, pending, dispatcher.sent);
    }

    /** Events in order with one clock reading each; their refreshes are written at the end, and lost
        when an event fails. */
    method PushBatch(arrivals: seq<Arrival>) returns (ok: bool)
      requires Valid()
      modifies engine, engine.states.Values, store, dispatcher
      ensures Valid() && fresh(engine.states.Values - old(engine.states.Values))
      ensures var (t, done) := EventsOn(cfg, dispatcher.world, rules, old(View(map[])), arrivals, true);
              && ok == done
              && (ok ==> forall at :: R.Steps(cfg, dispatcher.world, rules, old(View(map[])), R.BatchOp(arrivals, at), View(map[])))
              && (!ok ==> forall id :: View(map[])[id] == t[id].(deferred := None))
    {
      hide Engine.View, Engine.Valid, EventOn, FlushedAll;
      ghost var world, all := dispatcher.world, View(map[]);
      var pending: Option<Refreshes> := Some(map[]);
      for i := 0 to |arrivals|
        invariant Valid() && fresh(engine.states.Values - old(engine.states.Values)) && pending.Some?
        invariant EventsOn(cfg, world, rules, all, arrivals, true) ==
                  EventsOn(cfg, world, rules, View(Deferred(pending)), arrivals[i..], true)
      {
        assert arrivals[i..][0] == arrivals[i] && arrivals[i..][1..] == arrivals[i + 1..];
        pending, ok := ProcessEvent(arrivals[i].event, arrivals[i].at, pending);
        if !ok {
          return;
        }
      }
      FlushTickRefresh(pending.value);
      ok := true;
    }

    // -------------------------------------------------------------------------
    // Time.

    method FindRule(name: string) returns (rule: Option<Rule>)
      ensures rule == RuleByName(rules, name) && (rule.Some? ==> rule.value in rules)
    {
      for i := 0 to |rules|
        invariant RuleByName(rules, name) == RuleByName(rules[i..], name)
      {
        if rules[i].name == name {
          return Some(rules[i]);
        }
      }
      rule := None;
    }

    /** Whether the tick is still there, after two looks; an expired one is dropped. */
    method LookForTick(id: AlertId, looks: Looks) returns (alive: bool)
      modifies store`ticks
      ensures alive <==> Ticking(old(View(map[]))[id].tick, looks)
      ensures View(map[]) == if alive then old(View(map[])) else old(View(map[]))[id := old(View(map[]))[id].(tick := None)]
    {
      hide Engine.View, Assembled;
      ViewAt(map[], id);
      WriteTick(engine.View(), store.cards, store.ticks, map[], dispatcher.sent, id, ZERO_TIME);
      alive := store.HasTick(id, looks.first, looks.second);
    }

    /** The resolved card is written over the one that was read. */
    method MarkExpired(id: AlertId, entry: VersionedCard, expired: AlertCard)
      requires Lookup(store.cards, id) == Some(entry)
      modifies store`cards
      ensures View(map[]) == old(View(map[]))[id := old(View(map[]))[id].(card := Some(VersionedCard(expired, entry.revision + 1)))]
    {
      hide Engine.View, Assembled;
      WriteCard(engine.View(), store.cards, store.ticks, map[], dispatcher.sent, id, VersionedCard(expired, entry.revision + 1));
      var written := store.UpdateCard(id, entry.revision, expired);
      assert written.Updated?;
    }

    /** The announcement and the removal of an expired alert; a failing send is only logged. */
    method CloseExpired(rule: Rule, id: AlertId, refs: map<string, string>, now: Instant)
      requires Valid() && rule in rules
      modifies engine, engine.states.Values, store, dispatcher
      ensures Valid() && engine.states.Values <= old(engine.states.Values)
      ensures var s := old(View(map[]))[id];
              var seeded := s.(rt := SeededRt(s.rt, refs));
              View(map[]) == old(View(map[]))[id :=
                Removed(Dispatched(cfg, dispatcher.world, rule, id, seeded, Resolved, now, rule.routes).0)]
    {
      hide Engine.View, Engine.Valid, Assembled, Dispatched, SeededRt;
      ghost var all := View(map[]);
      ghost var s := all[id];
      ghost var seeded := s.(rt := SeededRt(s.rt, refs));
      SeedExternalRefs(id, refs, map[]);
      var ok := DispatchNotification(rule, id, Resolved, now, rule.routes, map[]);
      ghost var sent := View(map[])[id];
      WriteTwice(all, id, seeded, sent);
      Forget(id, map[]);
      WriteTwice(all, id, sent, Removed(sent));
    }

    /** The store reports that an alert's tick is gone. */
    method ResolveByTTL(id: AlertId, reason: string, looks: Looks, now: Instant)
      requires Valid()
      modifies engine, engine.states.Values, store, dispatcher
      ensures Valid() && engine.states.Values <= old(engine.states.Values)
      ensures R.Steps(cfg, dispatcher.world, rules, old(View(map[])), R.ExpireOp(id, reason, looks, now), View(map[]))
    {
      hide Engine.View, Engine.Valid, Manager.View, Dispatched, ExpiredCard, SeededRt, ExpiryOn, Ticking;
      ghost var all := View(map[]);
      ghost var s := all[id];
      WriteTwice(all, id, s, s);
      ExpiryParts(cfg, dispatcher.world, rules, id, s, reason, looks, now);
      var alive := LookForTick(id, looks);
      if alive {
        return;
      }
      ViewAt(map[], id);
      var entry := store.GetCard(id);
      if entry.None? || !IsActive(entry.value.card.state) {
        return;
      }
      var expired := ExpiredCard(entry.value.card, reason, now);
      MarkExpired(id, entry.value, expired);
      ghost var unticked, stored := s.(tick := None), View(map[])[id];
      WriteTwice(all, id, unticked, stored);
      var rule := FindRule(expired.ruleName);
      if rule.None? {
        return;
      }
      CloseExpired(rule.value, id, expired.externalRefs, now);
      WriteTwice(all, id, stored, View(map[])[id]);
    }

    /** The repeats of one alert reported as firing; failures are logged and forgotten. */
    method RepeatAlert(rule: Rule, id: AlertId, now: Instant)
      requires Valid() && rule in rules
      modifies engine.states.Values, store, dispatcher
      ensures Valid() && engine.states == old(engine.states)
      ensures View(map[]) == old(View(map[]))[id := Repeated(cfg, dispatcher.world, rule, id, old(View(map[]))[id], now)]
    {
      hide Engine.View, Engine.Valid, Assembled, Dispatched, RepeatDue;
      ghost var all, world := View(map[]), dispatcher.world;
      ghost var s := all[id];
      WriteTwice(all, id, s, s);
      ViewAt(map[], id);
      if id !in engine.states || !RepeatEnabled(cfg, rule) || rule.routes == [] {
        return;
      }
      if !cfg.repeatPerChannel {
        var marks := engine.MarksAt(id);
        if RepeatDue(cfg, rule, marks, GLOBAL_KEY, now) {
          var _ := DispatchNotification(rule, id, Firing, now, rule.routes, map[]);
        }
        return;
      }
      for i := 0 to |rule.routes|
        invariant Valid() && engine.states == old(engine.states)
        invariant View(map[]) == all[id := View(map[])[id]]
        invariant RepeatRoutes(cfg, world, rule, id, s, now, rule.routes) ==
                  RepeatRoutes(cfg, world, rule, id, View(map[])[id], now, rule.routes[i..])
      {
        var route := rule.routes[i];
        assert rule.routes[i..][0] == route && rule.routes[i..][1..] == rule.routes[i + 1..];
        ghost var sofar := View(map[])[id];
        ViewAt(map[], id);
        var marks := engine.MarksAt(id);
        if RepeatDue(cfg, rule, marks, route.key, now) {
          var _ := DispatchNotification(rule, id, Firing, now, [route], map[]);
          WriteTwice(all, id, sofar, View(map[])[id]);
        }
      }
    }

    /** Applies the decisions of one rule's tick, up to the first failure. */
    method ApplyDecisions(rule: Rule, ds: seq<Decision>, now: Instant, ghost before: Slices, ghost states: map<AlertId, Rt>)
      returns (ok: bool)
      requires Valid() && rule in rules
      requires TickDecisions(rule, states, now, ds) && forall id :: before[id].rt == Lookup(states, id)
      requires View(map[]) == DecidedBy(cfg, dispatcher.world, rule, before, {}, now)
      modifies engine, engine.states.Values, store, dispatcher
      ensures Valid() && engine.states.Values <= old(engine.states.Values)
      ensures ok ==> forall id :: View(map[])[id] == TickDecided(cfg, dispatcher.world, rule, id, before[id], now).0
                                  && TickDecided(cfg, dispatcher.world, rule, id, before[id], now).1
      ensures !ok ==> TickStopped(cfg, dispatcher.world, rule, before, View(map[]), now)
    {
      hide Engine.View, Engine.Valid, Manager.View, TickDecided, Applied, DecidedBy;
      ghost var world, done: set<AlertId> := dispatcher.world, {};
      for i := 0 to |ds|
        invariant Valid() && engine.states.Values <= old(engine.states.Values)
        invariant View(map[]) == DecidedBy(cfg, world, rule, before, done, now)
        invariant forall id :: id in done <==> exists k :: 0 <= k < i && ds[k].alertId == id
        invariant forall id :: id in done ==> TickDecided(cfg, world, rule, id, before[id], now).1
      {
        var id := ds[i].alertId;
        assert TickDecision(rule, states, now, id) == Some(ds[i]);
        assert id !in done;
        DecideNext(cfg, world, rule, before, done, now, id, ds[i]);
        var _, applied := ApplyDecision(rule, id, ds[i], now, None);
        ghost var wasDone := done;
        done := done + {id};
        if !applied {
          assert StoppedAt(cfg, world, rule, before, View(map[]), now, done, id);
          return false;
        }
      }
      ok := true;
      forall id
        ensures View(map[])[id] == TickDecided(cfg, world, rule, id, before[id], now).0
                && TickDecided(cfg, world, rule, id, before[id], now).1
      {
        assert TickDecision(rule, states, now, id).Some? ==> id in done;
        AllDecided(cfg, world, rule, before, done, now, id);
      }
    }

    /** One rule's tick: decisions first, then the repeats of what fires. */
    method TickRule(rule: Rule, now: Instant) returns (ok: bool)
      requires Valid() && rule in rules
      modifies engine, engine.states.Values, store, dispatcher
      ensures Valid() && engine.states.Values <= old(engine.states.Values)
      ensures ok ==> View(map[]) == TickedBy(cfg, dispatcher.world, rule, old(View(map[])), now)
                     && forall id :: TickFlow(cfg, dispatcher.world, rule, id, old(View(map[]))[id], now).1
      ensures !ok ==> TickStopped(cfg, dispatcher.world, rule, old(View(map[])), View(map[]), now)
    {
      hide Engine.View, Engine.Valid, Manager.View, TickDecided, TickFlow, TickDecisions, TickAll, TickFires, RepeatedBy, TickedBy;
      ghost var world, before, states := dispatcher.world, View(map[]), engine.View();
      ViewStates();
      MovedAll(cfg, world, rule, states, store.cards, store.ticks, dispatcher.sent, now);
      var ds, firing := engine.TickRuleWithFiring(rule, now);
      ViewIsAssembled();
      ok := ApplyDecisions(rule, ds, now, before, states);
      if !ok {
        return;
      }
      ghost var done: set<AlertId> := {};
      RepeatNone(cfg, world, rule, before, View(map[]), now);
      for i := 0 to |firing|
        invariant Valid() && engine.states.Values <= old(engine.states.Values)
        invariant View(map[]) == RepeatedBy(cfg, world, rule, before, done, now)
        invariant forall id :: id in done <==> exists k :: 0 <= k < i && firing[k] == id
      {
        assert firing[i] in firing && firing[i] !in done;
        RepeatNext(cfg, world, rule, before, states, done, now, firing[i]);
        RepeatAlert(rule, firing[i], now);
        done := done + {firing[i]};
      }
      RepeatEnd(cfg, world, rule, before, states, done, now);
    }

    lemma ViewStates()
      ensures forall id :: View(map[])[id].rt == Lookup(engine.View(), id)
      ensures View(map[]) == Assembled(engine.View(), store.cards, store.ticks, map[], dispatcher.sent)
    {
    }

    lemma ViewIsAssembled()
      ensures View(map[]) == Assembled(engine.View(), store.cards, store.ticks, map[], dispatcher.sent)
    {
    }

    /** Drops inactive engine states. */
    method Compact(now: Instant)
      requires Valid()
      modifies engine
      ensures Valid() && engine.states.Values <= old(engine.states.Values)
      ensures CompactedSlices(cfg, old(View(map[])), View(map[]), now)
    {
      hide Engine.View, Engine.Valid, Stale;
      ghost var states := engine.View();
      var idle := IdleTTL(cfg);
      if idle > 0 || cfg.maxStates > 0 {
        var _ := engine.CompactStates(now, idle, cfg.maxStates);
        assert engine.states.Values <= old(engine.states.Values);
      } else {
        NothingCompacted(states, now, idle, cfg.maxStates);
      }
      CompactionOnSlices(cfg, states, engine.View(), store.cards, store.ticks, dispatcher.sent, now);
    }

    /** A tick of the service: every rule in order up to the first failure, then compaction. */
    method Tick(now: Instant) returns (ok: bool)
      requires Valid()
      modifies engine, engine.states.Values, store, dispatcher
      ensures Valid() && engine.states.Values <= old(engine.states.Values)
      ensures ok ==> R.Steps(cfg, dispatcher.world, rules, old(View(map[])), R.TickOp(now), View(map[]))
      ensures !ok ==> TickGaveUp(cfg, dispatcher.world, rules, old(View(map[])), View(map[]), now)
    {
      hide Engine.View, Engine.Valid, Manager.View, TicksOk, TickedAll, TickedBy, TickFlow, CompactedSlices, TickStopped;
      ghost var world, before := dispatcher.world, View(map[]);
      TickNone(cfg, world, rules, before, now);
      for i := 0 to |rules|
        invariant Valid() && engine.states.Values <= old(engine.states.Values)
        invariant View(map[]) == TickedAll(cfg, world, rules[..i], before, now)
        invariant TicksOk(cfg, world, rules[..i], before, now)
      {
        ok := TickRule(rules[i], now);
        if !ok {
          assert GaveUpAt(cfg, world, rules, before, View(map[]), now, i);
          return;
        }
        TickNext(cfg, world, rules, before, now, i);
      }
      assert rules[..|rules|] == rules;
      Compact(now);
      ok := true;
    }
  }
}
