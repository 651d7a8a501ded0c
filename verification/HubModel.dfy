/**
  The relay hub of internal/relay/hub.go, one function for each section that runs under the hub's mutex.
  `forward` drops the mutex while a remote relay is called, so it is two of them.
*/
module HubModel {
  import opened Bytes
  import opened ReplayWindows

  const MAX_ID_BYTES := 128
  const TWO_64 := 0x1_0000_0000_0000_0000

  type Id = bytes

  datatype Settings = Settings(
    maxSessions: int,
    maxQueueDepth: int,
    maxFrameBytes: int,
    maxFrames: uint64,
    maxBytes: uint64,
    presenceTtl: int,
    maxReplay: int)

  /** validateConfig, on Go's 64-bit int */
  predicate ValidConfig(c: Settings) {
    && 0 < c.maxSessions
    && 0 < c.maxQueueDepth
    && 0 < c.maxFrameBytes < 0x8000_0000_0000_0000
    && 0 < c.maxFrames
    && 0 < c.maxBytes
    && 0 < c.presenceTtl
    && 0 < c.maxReplay
  }

  /** DefaultConfig */
  const DEFAULTS := Settings(1024, 32, 49152, 0x10_0000, 0x4000_0000, 30_000_000_000, 4096)

  type Config = c: Settings | ValidConfig(c) witness DEFAULTS

  datatype Error =
    | Backpressure | Closed | DeliveryConflict | DuplicateDelivery | FrameTooLarge | InvalidConfig | InvalidId
    | NoRoute | PeerUnavailable | QuotaExceeded | RouteExists | SessionClosed | SessionExists | SessionLimit
    | SessionNotFound

  datatype Answer = Done | Refused(error: Error)

  datatype Frame = Frame(routeId: Id, sender: Id, payload: bytes)

  datatype Delivery = Delivery(stream: uint64, id: Id, digest: bytes)

  /**
    sessionState. `token` stands for the identity of the object and of its handle: a session attached again
    under the same identifier has another token.
  */
  datatype Session = Session(
    token: nat,
    inbox: seq<Frame>,
    frames: uint64,
    bytes: uint64,
    peerId: Id,
    deliveries: Window)

  /** routeEndpoint: [] is the empty identifier, None the nil forwarder. */
  datatype Endpoint = Endpoint(sessionId: Id, forwarder: Option<nat>, peerId: Id)

  datatype Route = Route(left: Endpoint, right: Endpoint)

  datatype Presence = Presence(sessionId: Id, expiresAt: int)

  datatype Federated = Federated(forwarder: Option<nat>, expiresAt: int)

  datatype Stats = Stats(forwardedFrames: uint64, forwardedBytes: uint64, droppedFrames: uint64)

  /** A session object: the identifier it was attached under and its token. */
  datatype Object = Object(id: Id, token: nat)

  /**
    `finished` holds the tokens whose `done` channel is closed. `detached` holds the inboxes of session objects that the
    hub has let go: nothing puts a frame there any more, but a Receive under way still has the channel.
  */
  datatype Hub = Hub(
    closed: bool,
    sessions: map<Id, Session>,
    routes: map<Id, Route>,
    presence: map<Id, Presence>,
    federated: map<Id, Federated>,
    stats: Stats,
    finished: set<nat>,
    nextToken: nat,
    detached: map<Object, seq<Frame>>)

  function NewHub(): Hub {
    Hub(false, map[], map[], map[], map[], Stats(0, 0, 0), {}, 0, map[])
  }

  predicate ValidId(id: Id) { 0 < |id| <= MAX_ID_BYTES }

  function Add64(a: uint64, b: uint64): uint64 { (a + b) % TWO_64 }

  predicate IsOpen(s: Hub, id: Id) {
    id in s.sessions && s.sessions[id].token !in s.finished
  }

  // ---------------------------------------------------------------- sessions and presence

  function Attach(cfg: Config, s: Hub, id: Id): (Hub, Answer) {
    if !ValidId(id) then (s, Refused(InvalidId))
    else if s.closed then (s, Refused(Closed))
    else if id in s.sessions then (s, Refused(SessionExists))
    else if |s.sessions| >= cfg.maxSessions then (s, Refused(SessionLimit))
    else (s.(sessions := s.sessions[id := Session(s.nextToken, [], 0, 0, [], EmptyWindow())], nextToken := s.nextToken + 1), Done)
  }

  function AnnounceFederated(cfg: Config, s: Hub, peerId: Id, forwarder: Option<nat>, now: int): (Hub, Answer) {
    if !ValidId(peerId) then (s, Refused(InvalidId))
    else if forwarder.None? then (s, Refused(InvalidConfig))
    else if s.closed then (s, Refused(Closed))
    else (s.(federated := s.federated[peerId := Federated(forwarder, now + cfg.presenceTtl)]), Done)
  }

  function Announce(cfg: Config, s: Hub, id: Id, peerId: Id, now: int): (Hub, Answer) {
    if !ValidId(peerId) then (s, Refused(InvalidId))
    else if s.closed then (s, Refused(Closed))
    else if !IsOpen(s, id) then (s, Refused(SessionClosed))
    else
      var session := s.sessions[id];
      var kept := if session.peerId != [] && session.peerId != peerId then s.presence - {session.peerId} else s.presence;
      (s.(sessions := s.sessions[id := session.(peerId := peerId)],
          presence := kept[peerId := Presence(id, now + cfg.presenceTtl)]), Done)
  }

  function Heartbeat(cfg: Config, s: Hub, id: Id, now: int): (Hub, Answer) {
    if s.closed then (s, Refused(Closed))
    else if !IsOpen(s, id) then (s, Refused(SessionClosed))
    else if s.sessions[id].peerId == [] then (s, Refused(PeerUnavailable))
    else (s.(presence := s.presence[s.sessions[id].peerId := Presence(id, now + cfg.presenceTtl)]), Done)
  }

  /** lookupLocalLocked, which drops a stale record it meets */
  function LookupLocal(s: Hub, peerId: Id, now: int): (Hub, Option<Presence>) {
    if peerId !in s.presence then (s, None)
    else if s.presence[peerId].expiresAt <= now || !IsOpen(s, s.presence[peerId].sessionId) then
      (s.(presence := s.presence - {peerId}), None)
    else (s, Some(s.presence[peerId]))
  }

  /** lookupFederatedLocked */
  function LookupFederated(s: Hub, peerId: Id, now: int): (Hub, Option<Federated>) {
    if peerId !in s.federated then (s, None)
    else if s.federated[peerId].expiresAt <= now || s.federated[peerId].forwarder.None? then
      (s.(federated := s.federated - {peerId}), None)
    else (s, Some(s.federated[peerId]))
  }

  datatype Sighting = Local(presence: Presence) | Remote(federated: Federated) | Absent

  function Lookup(s: Hub, peerId: Id, now: int): (Hub, Sighting) {
    match LookupLocal(s, peerId, now)
    case (s', Some(presence)) => (s', Local(presence))
    case (s', None) =>
      match LookupFederated(s', peerId, now)
      case (s'', Some(presence)) => (s'', Remote(presence))
      case (s'', None) => (s'', Absent)
  }

  // ---------------------------------------------------------------- routes

  function Pair(s: Hub, routeId: Id, left: Id, right: Id): (Hub, Answer) {
    if !ValidId(routeId) || left == right then (s, Refused(InvalidId))
    else if s.closed then (s, Refused(Closed))
    else if routeId in s.routes then (s, Refused(RouteExists))
    else if left !in s.sessions || right !in s.sessions then (s, Refused(SessionNotFound))
    else
      var route := Route(Endpoint(left, None, s.sessions[left].peerId), Endpoint(right, None, s.sessions[right].peerId));
      (s.(routes := s.routes[routeId := route]), Done)
  }

  function Rendezvous(s: Hub, from: Id, routeId: Id, peerId: Id, now: int): (Hub, Answer) {
    if !ValidId(routeId) || !ValidId(peerId) then (s, Refused(InvalidId))
    else if s.closed then (s, Refused(Closed))
    else if from !in s.sessions then (s, Refused(SessionClosed))
    else if routeId in s.routes then
      if s.routes[routeId].left.sessionId == from && s.routes[routeId].right.peerId == peerId then (s, Done)
      else (s, Refused(RouteExists))
    else
      var left := Endpoint(from, None, s.sessions[from].peerId);
      match Lookup(s, peerId, now)
      case (s', Local(presence)) => (s'.(routes := s'.routes[routeId := Route(left, Endpoint(presence.sessionId, None, peerId))]), Done)
      case (s', Remote(presence)) => (s'.(routes := s'.routes[routeId := Route(left, Endpoint([], presence.forwarder, peerId))]), Done)
      case (s', Absent) => (s', Refused(PeerUnavailable))
  }

  /** routeState.peer */
  function PeerOf(route: Route, id: Id): Option<Endpoint> {
    if id == route.left.sessionId then Some(route.right)
    else if id == route.right.sessionId then Some(route.left)
    else None
  }

  /** localPeerOfFederated */
  function LocalSide(route: Route): Option<Id> {
    if route.left.forwarder.Some? && route.right.sessionId != [] then Some(route.right.sessionId)
    else if route.right.forwarder.Some? && route.left.sessionId != [] then Some(route.left.sessionId)
    else None
  }

  predicate EndpointLive(s: Hub, e: Endpoint, now: int) {
    if e.sessionId != [] then
      && IsOpen(s, e.sessionId)
      && (e.peerId == []
          || (&& e.peerId in s.presence
              && s.presence[e.peerId].sessionId == e.sessionId
              && s.presence[e.peerId].expiresAt > now
              && s.sessions[e.sessionId].peerId == e.peerId))
    else
      && e.forwarder.Some?
      && e.peerId != []
      && e.peerId in s.federated
      && s.federated[e.peerId].forwarder.Some?
      && s.federated[e.peerId].expiresAt > now
  }

  predicate RouteLive(s: Hub, route: Route, now: int) {
    EndpointLive(s, route.left, now) && EndpointLive(s, route.right, now)
  }

  predicate IsFresh(s: Hub, record: Presence, now: int) { record.expiresAt > now && IsOpen(s, record.sessionId) }

  predicate IsBridged(record: Federated, now: int) { record.forwarder.Some? && record.expiresAt > now }

  function FreshPresence(s: Hub, now: int): map<Id, Presence> {
    map p | p in s.presence && IsFresh(s, s.presence[p], now) :: s.presence[p]
  }

  function FreshFederated(s: Hub, now: int): map<Id, Federated> {
    map p | p in s.federated && IsBridged(s.federated[p], now) :: s.federated[p]
  }

  function LiveRoutes(s: Hub, now: int): map<Id, Route> {
    map r | r in s.routes && RouteLive(s, s.routes[r], now) :: s.routes[r]
  }

  function SweepPresence(s: Hub, now: int): Hub {
    s.(presence := FreshPresence(s, now), federated := FreshFederated(s, now))
  }

  /** How many of the large map's keys the small one lacks. */
  function Missing<V>(small: map<Id, V>, large: map<Id, V>): nat { |large.Keys - small.Keys| }

  /** sweepExpiredLocked, with the number of presence records dropped; routes are judged after the records go. */
  function Sweep(s: Hub, now: int): (Hub, nat) {
    var swept := SweepPresence(s, now);
    (swept.(routes := LiveRoutes(swept, now)), Missing(swept.presence, s.presence) + Missing(swept.federated, s.federated))
  }

  // ---------------------------------------------------------------- forwarding

  function KeyOf(session: Session, d: Delivery): Key { Key(session.peerId, d.stream, d.id) }

  function Remember(cfg: Config, session: Session, d: Option<Delivered>): Session {
    match d
    case None => session
    case Some(delivered) =>
      session.(deliveries := Remembered(session.deliveries, cfg.maxReplay, delivered))
  }

  predicate QuotaAdmits(cfg: Config, session: Session, size: uint64) {
    Add64(session.frames, 1) <= cfg.maxFrames && Add64(session.bytes, size) <= cfg.maxBytes
  }

  function Charge(session: Session, size: uint64): Session {
    session.(frames := Add64(session.frames, 1), bytes := Add64(session.bytes, size))
  }

  function CountForwarded(stats: Stats, size: uint64): Stats {
    stats.(forwardedFrames := Add64(stats.forwardedFrames, 1), forwardedBytes := Add64(stats.forwardedBytes, size))
  }

  /** What `forward` carries from its first locked section to its second. */
  datatype Call = Call(from: Id, token: nat, routeId: Id, size: uint64, delivered: Option<Delivered>)

  datatype Begun =
    | NotSent(error: Error)
    | Queued(call: Call, to: nat, frame: Frame)
    | Reserved(call: Call, forwarder: nat, frame: Frame)

  /** The tests of `forward` up to the quota, in its order; Some is the error it returns. */
  function Objection(cfg: Config, s: Hub, from: Id, routeId: Id, payload: bytes, now: int, delivery: Option<Delivery>): Option<Error> {
    if delivery.Some? && !ValidId(delivery.value.id) then Some(InvalidId)
    else if |payload| > cfg.maxFrameBytes then Some(FrameTooLarge)
    else if s.closed then Some(Closed)
    else if !IsOpen(s, from) then Some(SessionClosed)
    else if routeId !in s.routes || PeerOf(s.routes[routeId], from).None? then Some(NoRoute)
    else if !RouteLive(s, s.routes[routeId], now) then Some(PeerUnavailable)
    else
      var source := s.sessions[from];
      if delivery.Some? && KeyOf(source, delivery.value) in source.deliveries.entries then
        if source.deliveries.entries[KeyOf(source, delivery.value)] == delivery.value.digest then Some(DuplicateDelivery)
        else Some(DeliveryConflict)
      else if !QuotaAdmits(cfg, source, |payload|) then Some(QuotaExceeded)
      else None
  }

  /** A frame into an inbox that has room. */
  function Enqueue(s: Hub, to: Id, frame: Frame): Hub
    requires to in s.sessions
  {
    s.(sessions := s.sessions[to := s.sessions[to].(inbox := s.sessions[to].inbox + [frame])])
  }

  function Drop(s: Hub): Hub {
    s.(stats := s.stats.(droppedFrames := Add64(s.stats.droppedFrames, 1)))
  }

  function Forget(s: Hub, routeId: Id): Hub {
    s.(routes := s.routes - {routeId})
  }

  function CallFor(s: Hub, from: Id, routeId: Id, payload: bytes, delivery: Option<Delivery>): Call
    requires from in s.sessions && |payload| < TWO_64
  {
    var source := s.sessions[from];
    Call(from, source.token, routeId, |payload|,
         if delivery.None? then None else Some(Delivered(KeyOf(source, delivery.value), delivery.value.digest)))
  }

  /** Reserve quota, for a frame on its way to a remote relay. */
  function Reserve(s: Hub, call: Call): Hub
    requires call.from in s.sessions
  {
    s.(sessions := s.sessions[call.from := Charge(s.sessions[call.from], call.size)])
  }

  /** Charge the sender of a frame that was queued on this relay. */
  function Settle(cfg: Config, s: Hub, call: Call): Hub
    requires call.from in s.sessions
  {
    s.(sessions := s.sessions[call.from := Charge(Remember(cfg, s.sessions[call.from], call.delivered), call.size)],
       stats := CountForwarded(s.stats, call.size))
  }

  /** The rest of the first locked section, on the other side `to` of a live route. */
  function Dispatch(cfg: Config, s: Hub, call: Call, to: Endpoint, frame: Frame): (Hub, Begun)
    requires call.from in s.sessions
  {
    if to.sessionId != [] then
      if !IsOpen(s, to.sessionId) then (Forget(s, call.routeId), NotSent(SessionClosed))
      else if |s.sessions[to.sessionId].inbox| >= cfg.maxQueueDepth then (Drop(s), NotSent(Backpressure))
      else (Settle(cfg, Enqueue(s, to.sessionId, frame), call), Queued(call, s.sessions[to.sessionId].token, frame))
    else if to.forwarder.None? then (s, NotSent(NoRoute))
    else (Reserve(s, call), Reserved(call, to.forwarder.value, frame))
  }

  /** The first locked section of `forward`. */
  function Begin(cfg: Config, s: Hub, from: Id, routeId: Id, payload: bytes, now: int, delivery: Option<Delivery>): (Hub, Begun) {
    match Objection(cfg, s, from, routeId, payload, now, delivery)
    case Some(error) => (if error == PeerUnavailable then Forget(s, routeId) else s, NotSent(error))
    case None =>
      Dispatch(cfg, s, CallFor(s, from, routeId, payload, delivery), PeerOf(s.routes[routeId], from).value,
               Frame(routeId, s.sessions[from].peerId, payload))
  }

  /** What the remote relay answered: success, an error isRouteFailure recognises, or another error. */
  datatype Outcome = Accepted | RouteFailure | OtherFailure

  /** rollbackUsageLocked, saturating */
  function Refund(session: Session, size: uint64): Session {
    session.(frames := if session.frames > 0 then session.frames - 1 else session.frames,
             bytes := if session.bytes >= size then session.bytes - size else 0)
  }

  /** The session a call was made for, if it is still the one attached under that identifier. */
  predicate StillAttached(s: Hub, call: Call) {
    call.from in s.sessions && s.sessions[call.from].token == call.token
  }

  /** The second locked section of `forward`. */
  function End(cfg: Config, s: Hub, call: Call, outcome: Outcome): Hub {
    if outcome == Accepted then
      var sessions := if StillAttached(s, call) then s.sessions[call.from := Remember(cfg, s.sessions[call.from], call.delivered)] else s.sessions;
      s.(sessions := sessions, stats := CountForwarded(s.stats, call.size))
    else
      var sessions := if StillAttached(s, call) then s.sessions[call.from := Refund(s.sessions[call.from], call.size)] else s.sessions;
      s.(sessions := sessions, routes := if outcome == RouteFailure then s.routes - {call.routeId} else s.routes)
  }

  datatype Injected = NotInjected(error: Error) | Injected(to: nat, frame: Frame)

  /** DeliverFromFederated */
  function Inject(cfg: Config, s: Hub, routeId: Id, payload: bytes, sender: Id): (Hub, Injected) {
    if |payload| > cfg.maxFrameBytes then (s, NotInjected(FrameTooLarge))
    else if s.closed then (s, NotInjected(Closed))
    else if routeId !in s.routes || LocalSide(s.routes[routeId]).None? then (s, NotInjected(NoRoute))
    else
      var to := LocalSide(s.routes[routeId]).value;
      var frame := Frame(routeId, sender, payload);
      if !IsOpen(s, to) then (Forget(s, routeId), NotInjected(SessionClosed))
      else if |s.sessions[to].inbox| >= cfg.maxQueueDepth then (Drop(s), NotInjected(Backpressure))
      else (Enqueue(s, to, frame).(stats := CountForwarded(s.stats, |payload|)), Injected(s.sessions[to].token, frame))
  }

  predicate IsAttached(s: Hub, o: Object) {
    o.id in s.sessions && s.sessions[o.id].token == o.token
  }

  /** The inbox channel of a session object, attached or not. */
  function InboxOf(s: Hub, o: Object): seq<Frame> {
    if IsAttached(s, o) then s.sessions[o.id].inbox else if o in s.detached then s.detached[o] else []
  }

  /** The channel receive of `Receive`. */
  function Take(s: Hub, o: Object): Hub
    requires InboxOf(s, o) != []
  {
    if IsAttached(s, o) then s.(sessions := s.sessions[o.id := s.sessions[o.id].(inbox := s.sessions[o.id].inbox[1..])])
    else s.(detached := s.detached[o := s.detached[o][1..]])
  }

  // ---------------------------------------------------------------- ending

  predicate Touches(route: Route, id: Id) {
    route.left.sessionId == id || route.right.sessionId == id
  }

  function RoutesWithout(routes: map<Id, Route>, id: Id): map<Id, Route> {
    map r | r in routes && !Touches(routes[r], id) :: routes[r]
  }

  function Detach(s: Hub, id: Id): Hub {
    if id !in s.sessions then s
    else
      var session := s.sessions[id];
      s.(finished := s.finished + {session.token},
         presence := if session.peerId != [] then s.presence - {session.peerId} else s.presence,
         sessions := s.sessions - {id},
         detached := s.detached[Object(id, session.token) := session.inbox],
         routes := RoutesWithout(s.routes, id))
  }

  function Tokens(sessions: map<Id, Session>): set<nat> {
    set id | id in sessions :: sessions[id].token
  }

  function Inboxes(sessions: map<Id, Session>): map<Object, seq<Frame>> {
    map id | id in sessions :: Object(id, sessions[id].token) := sessions[id].inbox
  }

  function Close(s: Hub): Hub {
    if s.closed then s
    else s.(closed := true, finished := s.finished + Tokens(s.sessions), detached := s.detached + Inboxes(s.sessions),
            sessions := map[], routes := map[], presence := map[], federated := map[])
  }
}
