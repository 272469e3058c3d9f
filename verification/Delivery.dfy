/** Sending one notification over the routes of a rule: what each channel is
    asked to do, and what the alert remembers of it. */
module Delivery {
  import opened Domain
  import opened EngineSpec

  /** What a transport is asked to do. `Create` opens a message or an issue that the alert owns,
      `Remove` deletes the message or resolves the issue, `Post` adds to a history. */
  datatype TransportOp =
    | Post(posted: Ref, replyTo: Option<string>)
    | Create(created: Ref)
    | Edit(edited: string)
    | Remove(removed: string)
    | Quiet

  /** The answer of a transport after all retries; what it creates gets a new reference. */
  datatype Reply = Accepted(ref: Ref) | Failed

  /** One attempted delivery of an alert on a route. */
  datatype Entry =
    | Delivered(key: string, at: Time, op: TransportOp)
    | Rejected(key: string, at: Time)

  /** The metadata of a successful send. */
  datatype SendResult = SendResult(message: Option<Ref>, ref: Option<string>)

  /** Everything outside the service: the local calendar, the hash, and the transports' answers to
      the n-th delivery of each alert. */
  datatype World = World(
    localMinute: Instant -> int,
    hash: string -> string,
    reply: (AlertId, nat) -> Reply)

  predicate IsTracker(channel: Channel) {
    channel == Jira || channel == YouTrack
  }

  /** The route owns one message or issue per open alert. */
  predicate OwnsMessage(route: Route) {
    route.mode == ActiveOnly || IsTracker(route.channel)
  }

  function StoredRef(marks: Marks, key: string): Option<string> {
    if key in marks.refs && marks.refs[key] != "" then Some(marks.refs[key]) else None
  }

  /** A resolved notification is not sent where it needs a reference that was never stored. */
  predicate Skips(marks: Marks, route: Route, state: AlertState) {
    && state == Resolved && StoredRef(marks, route.key) == None
    && (route.mode == ActiveOnly || route.channel == Mattermost)
  }

  /** A resolved history message answers the message that opened the alert. */
  function ReplyTo(marks: Marks, route: Route, state: AlertState): Option<string> {
    if state == Resolved && route.mode != ActiveOnly && route.channel == Telegram then Lookup(marks.messages, route.key)
    else None
  }

  /** An active-only message: created, edited while the alert is open, removed at the end. */
  function SendActiveOnly(state: AlertState, ref: Option<string>, reply: Reply): Option<(TransportOp, SendResult)> {
    if reply.Failed? then None
    else if state == Resolved then
      if ref.None? then None else Some((Remove(ref.value), SendResult(None, None)))
    else if ref.Some? then Some((Edit(ref.value), SendResult(None, ref)))
    else Some((Create(reply.ref), SendResult(None, Some(reply.ref))))
  }

  /** A tracker issue: created by the first firing notification, resolved at the end. */
  function SendTracker(state: AlertState, ref: Option<string>, reply: Reply): Option<(TransportOp, SendResult)> {
    match state
    case Firing =>
      if ref.Some? then Some((Quiet, SendResult(None, ref)))
      else if reply.Failed? then None
      else Some((Create(reply.ref), SendResult(None, Some(reply.ref))))
    case Resolved =>
      if ref.None? || reply.Failed? then None else Some((Remove(ref.value), SendResult(None, ref)))
    case _ => Some((Quiet, SendResult(None, None)))
  }

  /** A history message. A Mattermost post is a thread root or an answer in the stored thread. */
  function SendHistory(channel: Channel, state: AlertState, ref: Option<string>, replyTo: Option<string>, reply: Reply)
    : Option<(TransportOp, SendResult)>
  {
    if reply.Failed? then None
    else
      match channel
      case Telegram => Some((Post(reply.ref, replyTo), SendResult(Some(reply.ref), None)))
      case Mattermost =>
        if state == Resolved && ref.None? then None
        else Some((Post(reply.ref, ref), SendResult(None, if state == Firing then Some(reply.ref) else None)))
      case _ => Some((Post(reply.ref, None), SendResult(None, None)))
  }

  /** What the channel of a route does with a notification and the references it is given. */
  function SendVia(route: Route, state: AlertState, ref: Option<string>, replyTo: Option<string>, reply: Reply)
    : Option<(TransportOp, SendResult)>
  {
    if IsTracker(route.channel) then SendTracker(state, ref, reply)
    else if route.mode == ActiveOnly then SendActiveOnly(state, ref, reply)
    else SendHistory(route.channel, state, ref, replyTo, reply)
  }

  function SendOn(route: Route, marks: Marks, state: AlertState, reply: Reply): Option<(TransportOp, SendResult)> {
    SendVia(route, state, StoredRef(marks, route.key), ReplyTo(marks, route, state), reply)
  }

  /** The deliveries of one notification, in route order, up to the first failure. */
  datatype Batch = Batch(log: seq<Entry>, results: seq<(Route, SendResult)>, ok: bool)

  function SendAll(world: World, id: AlertId, routes: seq<Route>, marks: Marks, state: AlertState, at: Time,
                   log: seq<Entry>): Batch
  {
    if routes == [] then Batch(log, [], true)
    else
      var route := routes[0];
      if Skips(marks, route, state) then SendAll(world, id, routes[1..], marks, state, at, log)
      else
        var sent := SendOn(route, marks, state, world.reply(id, |log|));
        if sent.None? then Batch(log + [Rejected(route.key, at)], [], false)
        else
          var rest := SendAll(world, id, routes[1..], marks, state, at, log + [Delivered(route.key, at, sent.value.0)]);
          rest.(results := [(route, sent.value.1)] + rest.results)
  }

  const GLOBAL_KEY := "global"

  function RepeatKey(perChannel: bool, route: Route): string {
    if perChannel then route.key else GLOBAL_KEY
  }

  /** What the alert remembers of one successful delivery. */
  function Captured(perChannel: bool, marks: Marks, state: AlertState, at: Time, route: Route, result: SendResult): Marks {
    var opens := state != Resolved && route.channel == Telegram && route.mode != ActiveOnly
                 && result.message.Some? && route.key !in marks.messages;
    Marks(marks.lastNotified[RepeatKey(perChannel, route) := at],
          if opens then marks.messages[route.key := result.message.value] else marks.messages,
          if result.ref.Some? && result.ref.value != "" then marks.refs[route.key := result.ref.value] else marks.refs)
  }

  function CapturedAll(perChannel: bool, marks: Marks, state: AlertState, at: Time, results: seq<(Route, SendResult)>): Marks
    decreases |results|
  {
    if results == [] then marks
    else CapturedAll(perChannel, Captured(perChannel, marks, state, at, results[0].0, results[0].1), state, at, results[1..])
  }

  /** The references to store in the card. */
  function RefUpdates(results: seq<(Route, SendResult)>): map<string, string>
    decreases |results|
  {
    if results == [] then map[]
    else
      var last := |results| - 1;
      var (route, result) := results[last];
      var before := RefUpdates(results[..last]);
      if result.ref.Some? && result.ref.value != "" then before[route.key := result.ref.value] else before
  }

  /** The service's side of all channels: what was attempted for each alert, in order. */
  class Dispatcher {
    const world: World
    var sent: map<AlertId, seq<Entry>>

    function Log(id: AlertId): seq<Entry>
      reads this
    {
      if id in sent then sent[id] else []
    }

    constructor (world: World)
      ensures this.world == world && sent == map[]
    {
      this.world := world;
      sent := map[];
    }

    /** One attempt on one route; the transport's answer decides what is recorded. */
    method Send(id: AlertId, route: Route, state: AlertState, ref: Option<string>, replyTo: Option<string>, at: Time)
      returns (result: Option<SendResult>)
      modifies this
      ensures var outcome := SendVia(route, state, ref, replyTo, world.reply(id, |old(Log(id))|));
              && result == (if outcome.Some? then Some(outcome.value.1) else None)
              && sent == old(sent)[id := old(Log(id)) +
                   [if outcome.Some? then Delivered(route.key, at, outcome.value.0) else Rejected(route.key, at)]]
    {
      var outcome := SendVia(route, state, ref, replyTo, world.reply(id, |Log(id)|));
      if outcome.None? {
        sent := sent[id := Log(id) + [Rejected(route.key, at)]];
        return None;
      }
      sent := sent[id := Log(id) + [Delivered(route.key, at, outcome.value.0)]];
      result := Some(outcome.value.1);
    }
  }
}
