/** The manager's work as seen from one alert: engine state, card, tick and
    deliveries, and how each operation moves them together. */
module AlertFlow {
  import opened Domain
  import opened EngineSpec
  import opened Cards
  import opened Delivery
  import opened OffWindows

  /** A tick refresh that a batch has put off. */
  datatype TickRefresh = TickRefresh(lastSeen: Time, ttl: Time)

  /** All the service holds about one alert. A tick's expiry of `ZERO_TIME` means never;
      `deferred` is used only inside a batch. */
  datatype Slice = Slice(
    rt: Option<Rt>,
    card: Option<VersionedCard>,
    tick: Option<Time>,
    deferred: Option<TickRefresh>,
    log: seq<Entry>)

  const NO_SLICE := Slice(None, None, None, None, [])

  /** The service configuration the manager reads. */
  datatype Config = Config(
    repeat: bool,
    repeatEverySec: int,
    repeatPerChannel: bool,
    onPending: bool,
    idleSec: int,
    maxStates: int)

  function RepeatEnabled(cfg: Config, rule: Rule): bool {
    if rule.repeat.Some? then rule.repeat.value else cfg.repeat
  }

  function RepeatEvery(cfg: Config, rule: Rule): Time {
    var seconds := if rule.repeatEverySec > 0 then rule.repeatEverySec else cfg.repeatEverySec;
    Seconds(if seconds <= 0 then 300 else seconds)
  }

  function NotifyOnPending(cfg: Config, rule: Rule): bool {
    if rule.onPending.Some? then rule.onPending.value else cfg.onPending
  }

  function TickExpiry(lastSeen: Time, ttl: Time): Time {
    if ttl > 0 then lastSeen + ttl else ZERO_TIME
  }

  predicate TickAlive(tick: Option<Time>, at: Time) {
    tick.Some? && (tick.value == ZERO_TIME || at < tick.value)
  }

  /** The clock readings at the two looks for a tick. */
  datatype Looks = Looks(first: Instant, second: Instant)

  /** The looks come in order between two other readings of the clock. */
  predicate LooksWithin(looks: Looks, from: Time, to: Time) {
    from <= looks.first <= looks.second <= to
  }

  predicate Ticking(tick: Option<Time>, looks: Looks) {
    TickAlive(tick, looks.first) || TickAlive(tick, looks.second)
  }

  /** A refresh, at once or put off to the end of a batch; a put-off one keeps the latest time. */
  function Refreshed(s: Slice, batch: bool, now: Time, ttl: Time): Slice {
    if !batch then s.(tick := Some(TickExpiry(now, ttl)))
    else if s.deferred.None? || s.deferred.value.lastSeen < now then s.(deferred := Some(TickRefresh(now, ttl)))
    else s
  }

  /** The references of a card that the engine takes over. */
  function Seeded(refs: map<string, string>, cardRefs: map<string, string>): map<string, string> {
    refs + map key | key in cardRefs && cardRefs[key] != "" :: cardRefs[key]
  }

  function SeededRt(rt: Option<Rt>, cardRefs: map<string, string>): Option<Rt> {
    if rt.None? then None
    else Some(rt.value.(marks := rt.value.marks.(refs := Seeded(rt.value.marks.refs, cardRefs))))
  }

  function InputOf(rule: Rule, id: AlertId, rt: Rt, now: Instant): CardInput {
    CardInput(id, rule.name, rt.identity, rt.activeCount, now)
  }

  /** The card write of one transition, and whether its notification may be sent. */
  function Persisted(rule: Rule, id: AlertId, s: Slice, d: Decision, now: Instant): (Slice, bool)
    requires s.rt.Some?
  {
    var input := InputOf(rule, id, s.rt.value, now);
    var stored := if s.card.None? then VersionedCard(NewCard(d, input), 1)
                  else VersionedCard(UpdatedCard(s.card.value.card, d, input), s.card.value.revision + 1);
    (s.(card := Some(stored), rt := SeededRt(s.rt, stored.card.externalRefs)),
     s.card.None? || s.card.value.card.state != d.state)
  }

  /** Storing new references in the card; nothing is written when there is no card or no change. */
  function WithRefs(card: Option<VersionedCard>, updates: map<string, string>): Option<VersionedCard> {
    if card.None? then None
    else
      var merged := MergedRefs(card.value.card.externalRefs, updates);
      if merged == card.value.card.externalRefs then card
      else Some(VersionedCard(card.value.card.(externalRefs := merged), card.value.revision + 1))
  }

  function SliceMarks(s: Slice): Marks {
    if s.rt.Some? then s.rt.value.marks else NO_MARKS
  }

  /** One notification over some routes of the rule, unless notifications are off; false when a
      send failed, and then nothing is remembered. */
  ghost function Dispatched(cfg: Config, world: World, rule: Rule, id: AlertId, s: Slice, state: AlertState, now: Instant,
                            routes: seq<Route>): (Slice, bool)
  {
    if OffActive(rule.off, world.localMinute(now)) then (s, true)
    else
      var batch := SendAll(world, id, routes, SliceMarks(s), state, now, s.log);
      if !batch.ok then (s.(log := batch.log), false)
      else
        var marks := CapturedAll(cfg.repeatPerChannel, SliceMarks(s), state, now, batch.results);
        (s.(log := batch.log,
            rt := if s.rt.Some? then Some(s.rt.value.(marks := marks)) else None,
            card := if state == Resolved then s.card else WithRefs(s.card, RefUpdates(batch.results))),
         true)
  }

  /** Removal of the card, its tick and the engine state. */
  function Removed(s: Slice): Slice {
    s.(card := None, tick := None, rt := None)
  }

  /** The notification part of a decision, and the removal after a resolve. */
  ghost function Announced(cfg: Config, world: World, rule: Rule, id: AlertId, s: Slice, d: Decision, now: Instant,
                           allow: bool): (Slice, bool)
  {
    var notify := d.shouldNotify && allow && !(d.state == Pending && !NotifyOnPending(cfg, rule));
    var (sent, ok) := if notify then Dispatched(cfg, world, rule, id, s, d.state, now, rule.routes) else (s, true);
    (if ok && d.state == Resolved then Removed(sent) else sent, ok)
  }

  /** Persists and announces one engine decision; the engine has already moved. */
  ghost function Applied(cfg: Config, world: World, rule: Rule, id: AlertId, s: Slice, d: Decision, now: Instant,
                         batch: bool): (Slice, bool)
  {
    if (!d.shouldStore && !d.shouldNotify) || s.rt.None? then (s, true)
    else
      var ticked := if d.shouldStore && d.state != Resolved then Refreshed(s, batch, now, ResolveTimeout(rule)) else s;
      var (stored, allow) := if d.stateChanged then Persisted(rule, id, ticked, d, now) else (ticked, true);
      Announced(cfg, world, rule, id, stored, d, now, allow)
  }

  /** One accepted event. */
  ghost function EventFlow(cfg: Config, world: World, rule: Rule, id: AlertId, s: Slice, event: Event, now: Instant,
                           batch: bool): (Slice, bool)
  {
    var (rt, d) := EventStep(rule, s.rt, id, event, now);
    Applied(cfg, world, rule, id, s.(rt := Some(rt)), d, now, batch)
  }

  /** A repeat on one key is due: never delivered, or long enough ago. */
  predicate RepeatDue(cfg: Config, rule: Rule, marks: Marks, key: string, now: Time) {
    var last := if key in marks.lastNotified then marks.lastNotified[key] else ZERO_TIME;
    last == ZERO_TIME || now - last >= RepeatEvery(cfg, rule)
  }

  /** Repeats route by route; a failing route does not stop the others. */
  ghost function RepeatRoutes(cfg: Config, world: World, rule: Rule, id: AlertId, s: Slice, now: Instant,
                              routes: seq<Route>): Slice
    decreases |routes|
  {
    if routes == [] then s
    else
      var next := if RepeatDue(cfg, rule, SliceMarks(s), routes[0].key, now)
                  then Dispatched(cfg, world, rule, id, s, Firing, now, [routes[0]]).0 else s;
      RepeatRoutes(cfg, world, rule, id, next, now, routes[1..])
  }

  /** The repeat notifications of one alert reported as firing. */
  ghost function Repeated(cfg: Config, world: World, rule: Rule, id: AlertId, s: Slice, now: Instant): Slice {
    if s.rt.None? || !RepeatEnabled(cfg, rule) || rule.routes == [] then s
    else if cfg.repeatPerChannel then RepeatRoutes(cfg, world, rule, id, s, now, rule.routes)
    else if RepeatDue(cfg, rule, SliceMarks(s), GLOBAL_KEY, now) then
      Dispatched(cfg, world, rule, id, s, Firing, now, rule.routes).0
    else s
  }

  /** One tick of one rule, without the repeats; also whether the alert is reported as firing. */
  ghost function TickDecided(cfg: Config, world: World, rule: Rule, id: AlertId, s: Slice, now: Instant): (Slice, bool) {
    if s.rt.None? then (s, true)
    else
      var r := TickOf(rule, s.rt.value, now);
      var moved := s.(rt := Some(r.rt));
      if r.decision.None? then (moved, true) else Applied(cfg, world, rule, id, moved, r.decision.value, now, false)
  }

  /** One tick of one rule on one alert. */
  ghost function TickFlow(cfg: Config, world: World, rule: Rule, id: AlertId, s: Slice, now: Instant): (Slice, bool) {
    var (decided, ok) := TickDecided(cfg, world, rule, id, s, now);
    if ok && s.rt.Some? && TickOf(rule, s.rt.value, now).firing then (Repeated(cfg, world, rule, id, decided, now), true)
    else (decided, ok)
  }

  /** The put-off refresh is written. */
  function Flushed(s: Slice): Slice {
    if s.deferred.None? then s
    else s.(tick := Some(TickExpiry(s.deferred.value.lastSeen, s.deferred.value.ttl)), deferred := None)
  }

  /** Compaction drops the state of an inactive alert. */
  predicate MayEvict(s: Slice) {
    s.rt.Some? && s.rt.value.state == Idle
  }

  function Evicted(s: Slice): Slice {
    s.(rt := None)
  }

  /** The alert's tick expired: resolve from the card. The transports' answers do not matter. */
  ghost function ExpiryFlow(cfg: Config, world: World, rule: Rule, id: AlertId, s: Slice, reason: string, looks: Looks, now: Instant): Slice {
    if Ticking(s.tick, looks) then s
    else
      var unticked := s.(tick := None);
      if s.card.None? || !IsActive(s.card.value.card.state) then unticked
      else
        var expired := ExpiredCard(s.card.value.card, reason, now);
        var stored := unticked.(card := Some(VersionedCard(expired, s.card.value.revision + 1)),
                                rt := SeededRt(s.rt, expired.externalRefs));
        Removed(Dispatched(cfg, world, rule, id, stored, Resolved, now, rule.routes).0)
  }
}
