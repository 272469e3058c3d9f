/** The values shared by every component: instants, alert states, events,
    rules, engine decisions and alert cards. */
module Domain {

  datatype Option<+T> = None | Some(value: T)

  /** Instants and durations in nanoseconds. Go's zero `time.Time` is `ZERO_TIME`. */
  type Time = int
  const ZERO_TIME: Time := 0

  /** A clock reading: never the zero time. */
  type Instant = t: Time | ZERO_TIME < t witness 1

  function Seconds(n: int): Time {
    n * 1_000_000_000
  }

  type AlertId = string

  /** `Idle` is the empty string that the engine keeps for an alert that is not open. */
  datatype AlertState = Idle | Pending | Firing | Resolved

  predicate IsActive(state: AlertState) {
    state == Pending || state == Firing
  }

  /** One validated event; `metric` is its value already rendered as text. */
  datatype Event = Event(dt: int, tags: map<string, string>, varName: string, metric: string, aggCnt: int)

  /** What event validation guarantees about the count an event contributes. */
  predicate ValidEvent(event: Event) {
    event.aggCnt >= 1
  }

  datatype AlertType = CountTotal | CountWindow | MissingHeartbeat

  datatype Channel = Telegram | Mattermost | Http | Jira | YouTrack
  datatype RouteMode = History | ActiveOnly

  /** A normalized route: a unique key, a channel and a delivery mode. */
  datatype Route = Route(key: string, channel: Channel, mode: RouteMode)

  /** Off windows already parsed: weekdays 0 (Sunday) to 6, minutes of the day. */
  datatype OffWindow = OffWindow(days: set<int>, from: int, to: int)

  datatype Rule = Rule(
    name: string,
    kind: AlertType,
    fromTags: seq<string>,
    accepts: Event -> bool,
    raiseN: int,
    windowSec: int,
    missingSec: int,
    silenceSec: int,
    hysteresisSec: int,
    pendingEnabled: bool,
    pendingDelaySec: int,
    maxLateMs: int,
    maxFutureSkewMs: int,
    repeat: Option<bool>,
    repeatEverySec: int,
    onPending: Option<bool>,
    routes: seq<Route>,
    off: seq<OffWindow>)

  /** The rule constraints the engine and manager rely on, as configuration validation enforces them. */
  predicate ValidRule(rule: Rule) {
    && (rule.pendingEnabled ==> rule.pendingDelaySec > 0)
    && rule.hysteresisSec >= 0
    && match rule.kind
       case CountTotal => rule.raiseN >= 1 && rule.silenceSec >= 0
       case CountWindow => rule.raiseN >= 1 && rule.windowSec > 0 && rule.silenceSec >= 0
       case MissingHeartbeat => rule.missingSec > 0 && rule.silenceSec == 0
  }

  /** Time after which a silent alert of the rule is resolved; also the TTL of its tick. */
  function ResolveTimeout(rule: Rule): Time {
    match rule.kind
    case CountTotal => Seconds(rule.silenceSec + rule.hysteresisSec)
    case CountWindow => Seconds(rule.silenceSec + rule.hysteresisSec)
    case MissingHeartbeat => Seconds(rule.missingSec + rule.hysteresisSec)
  }

  /** One rule evaluation result and its storage and notification side effects. */
  datatype Decision = Decision(
    matched: bool,
    alertId: AlertId,
    state: AlertState,
    stateChanged: bool,
    shouldStore: bool,
    shouldNotify: bool,
    resolveImmediate: bool,
    cause: string)

  const NO_DECISION := Decision(false, "", Idle, false, false, false, false, "")

  /** The event matched but changed nothing worth storing. */
  function Noted(id: AlertId): Decision {
    NO_DECISION.(matched := true, alertId := id)
  }

  /** The alert stays in an active state: its tick is refreshed, nothing else. */
  function Kept(id: AlertId, state: AlertState): Decision {
    Noted(id).(state := state, shouldStore := true)
  }

  function Entered(id: AlertId, state: AlertState, notify: bool): Decision {
    Kept(id, state).(stateChanged := true, shouldNotify := notify)
  }

  function Closed(id: AlertId, cause: string, immediate: bool): Decision {
    Entered(id, Resolved, true).(resolveImmediate := immediate, cause := cause)
  }

  /** A non-empty reference to an external message or issue. */
  type Ref = s: string | s != "" witness "1"

  /** Alert dimensions carried into cards and notifications. */
  datatype AlertIdentity = AlertIdentity(varName: string, tags: map<string, string>, metric: string)

  /** Persisted alert metadata. */
  datatype AlertCard = AlertCard(
    alertId: AlertId,
    ruleName: string,
    identity: AlertIdentity,
    eventCount: int,
    externalRefs: map<string, string>,
    state: AlertState,
    raisedAt: Time,
    pendingSince: Option<Time>,
    lastSeenAt: Time,
    closedAt: Option<Time>,
    resolveCause: string)

  function Lookup<K, V>(m: map<K, V>, k: K): Option<V> {
    if k in m then Some(m[k]) else None
  }

  lemma DropHead<T>(head: seq<T>, x: seq<T>, y: seq<T>)
    requires head + x == head + y
    ensures x == y
  {
    assert x == (head + x)[|head|..] && y == (head + y)[|head|..];
  }
}
