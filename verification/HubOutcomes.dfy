/**
  What the sections of the hub that move frames do to its maps, and when they refuse, told in terms of the maps alone. The
  structure that every run keeps makes the account shorter than the code.
*/
module HubOutcomes {
  import opened Bytes
  import opened ReplayWindows
  import opened HubModel
  import opened HubStructure

  /** The error of the first cause that applies. */
  function FirstCause(causes: seq<(bool, Error)>): Option<Error> {
    if causes == [] then None else if causes[0].0 then Some(causes[0].1) else FirstCause(causes[1..])
  }

  /** A frame can go to this side of a route: its session is attached, or its relay was announced, and the record has not run out. */
  predicate Reachable(s: Hub, side: Endpoint, now: int) {
    if side.forwarder.None? then
      && side.sessionId in s.sessions
      && (side.peerId == []
          || (side.peerId in s.presence && s.presence[side.peerId].sessionId == side.sessionId && s.presence[side.peerId].expiresAt > now))
    else side.peerId in s.federated && s.federated[side.peerId].expiresAt > now
  }

  /** In a reachable state that is all there is to a live route. */
  lemma {:induction false} LiveExact(cfg: Config, s: Hub, route: Route, now: int)
    requires Structure(cfg, s) && RouteOk(s, route)
    ensures RouteLive(s, route, now) <==> Reachable(s, route.left, now) && Reachable(s, route.right, now)
  {
  }

  /** This frame, if any, went to the end of that inbox, and no other inbox has changed. */
  ghost predicate Grows(s: Hub, s': Hub, to: Option<Id>, frame: Frame) {
    && s'.sessions.Keys == s.sessions.Keys && s'.detached == s.detached
    && (forall id :: id in s.sessions ==> s'.sessions[id].inbox == if to == Some(id) then s.sessions[id].inbox + [frame] else s.sessions[id].inbox)
  }

  /** The same session, with this charged to it. */
  predicate Pays(session: Session, session': Session, frames: nat, octets: nat) {
    && session'.token == session.token && session'.peerId == session.peerId
    && session'.frames == (session.frames + frames) % TWO_64
    && session'.bytes == (session.bytes + octets) % TWO_64
  }

  /** One frame of this size is charged to that session, if any, and nothing to any other. */
  ghost predicate Charges(s: Hub, s': Hub, from: Option<Id>, size: nat) {
    && s'.sessions.Keys == s.sessions.Keys
    && (forall id :: id in s.sessions ==>
          Pays(s.sessions[id], s'.sessions[id], if from == Some(id) then 1 else 0, if from == Some(id) then size else 0))
  }

  /** So many frames and bytes more were forwarded, and so many frames more were dropped. */
  predicate Counts(s: Hub, s': Hub, frames: nat, octets: nat, dropped: nat) {
    s'.stats == Stats((s.stats.forwardedFrames + frames) % TWO_64, (s.stats.forwardedBytes + octets) % TWO_64, (s.stats.droppedFrames + dropped) % TWO_64)
  }

  /** Neither records nor the hub's own flags have changed. */
  predicate RecordsStay(s: Hub, s': Hub) {
    s'.presence == s.presence && s'.federated == s.federated && s'.closed == s.closed && s'.finished == s.finished && s'.nextToken == s.nextToken
  }

  // ---------------------------------------------------------------- sessions, presence and routes

  predicate IdFits(id: Id) { 0 < |id| <= 128 }

  /** An unexpired record of a session, or of another relay. */
  predicate Seen(s: Hub, peerId: Id, now: int) { peerId in s.presence && s.presence[peerId].expiresAt > now }

  predicate SeenAfar(s: Hub, peerId: Id, now: int) { peerId in s.federated && s.federated[peerId].expiresAt > now }

  /** A new session object, with nothing received, sent or remembered, and an identity that no other ever had. */
  ghost predicate Attaches(cfg: Config, s: Hub, s': Hub, id: Id, answer: Answer) {
    match answer
    case Done =>
      && IdFits(id) && !s.closed && id !in s.sessions && |s.sessions| < cfg.maxSessions
      && s' == s.(sessions := s.sessions[id := Session(s.nextToken, [], 0, 0, [], EmptyWindow())], nextToken := s'.nextToken)
      && s.nextToken < s'.nextToken && s.nextToken !in s.finished && forall other :: other in s.sessions ==> s.sessions[other].token != s.nextToken
    case Refused(error) =>
      && s' == s
      && match error
         case InvalidId => !IdFits(id)
         case Closed => s.closed
         case SessionExists => id in s.sessions
         case SessionLimit => |s.sessions| >= cfg.maxSessions
         case _ => false
  }

  lemma {:induction false} AttachExact(cfg: Config, s: Hub, id: Id)
    requires Structure(cfg, s)
    ensures Attaches(cfg, s, Attach(cfg, s, id).0, id, Attach(cfg, s, id).1)
  {
  }

  /** A route between two attached sessions, each side with the peer its session has announced by then. */
  predicate Pairs(s: Hub, s': Hub, routeId: Id, left: Id, right: Id, answer: Answer) {
    match answer
    case Done =>
      && IdFits(routeId) && left != right && !s.closed && routeId !in s.routes && left in s.sessions && right in s.sessions
      && s' == s.(routes := s.routes[routeId := Route(Endpoint(left, None, s.sessions[left].peerId), Endpoint(right, None, s.sessions[right].peerId))])
    case Refused(error) =>
      && s' == s
      && match error
         case InvalidId => !IdFits(routeId) || left == right
         case Closed => s.closed
         case RouteExists => routeId in s.routes
         case SessionNotFound => left !in s.sessions || right !in s.sessions
         case _ => false
  }

  lemma {:induction false} PairExact(s: Hub, routeId: Id, left: Id, right: Id)
    ensures Pairs(s, Pair(s, routeId, left, right).0, routeId, left, right, Pair(s, routeId, left, right).1)
  {
  }

  /** The record of a remote peer lasts for the time to live from now. */
  predicate AnnouncesAfar(cfg: Config, s: Hub, s': Hub, peerId: Id, forwarder: Option<nat>, now: int, answer: Answer) {
    match answer
    case Done =>
      && IdFits(peerId) && forwarder.Some? && !s.closed
      && s' == s.(federated := s.federated[peerId := Federated(forwarder, now + cfg.presenceTtl)])
    case Refused(error) =>
      && s' == s
      && match error
         case InvalidId => !IdFits(peerId)
         case InvalidConfig => forwarder.None?
         case Closed => s.closed
         case _ => false
  }

  lemma {:induction false} AnnounceFederatedExact(cfg: Config, s: Hub, peerId: Id, forwarder: Option<nat>, now: int)
    ensures var (s', answer) := AnnounceFederated(cfg, s, peerId, forwarder, now); AnnouncesAfar(cfg, s, s', peerId, forwarder, now, answer)
  {
  }

  /**
    The session has this peer, and the record under it is the session's and lasts for the time to live from now. The record
    under its former peer goes, whoever has announced that peer since.
  */
  ghost predicate Announces(cfg: Config, s: Hub, s': Hub, id: Id, peerId: Id, now: int, answer: Answer) {
    match answer
    case Done =>
      && IdFits(peerId) && !s.closed && id in s.sessions
      && s' == s.(sessions := s.sessions[id := s.sessions[id].(peerId := peerId)], presence := s'.presence)
      && peerId in s'.presence && s'.presence[peerId] == Presence(id, now + cfg.presenceTtl)
      && (forall p :: p != peerId ==> (p in s'.presence <==> p in s.presence && p != s.sessions[id].peerId))
      && (forall p :: p != peerId && p in s'.presence ==> s'.presence[p] == s.presence[p])
    case Refused(error) =>
      && s' == s
      && match error
         case InvalidId => !IdFits(peerId)
         case Closed => s.closed
         case SessionClosed => id !in s.sessions
         case _ => false
  }

  lemma {:induction false} AnnounceExact(cfg: Config, s: Hub, id: Id, peerId: Id, now: int)
    requires Structure(cfg, s)
    ensures var (s', answer) := Announce(cfg, s, id, peerId, now); Announces(cfg, s, s', id, peerId, now, answer)
  {
    if Announce(cfg, s, id, peerId, now).1 == Done {
      assert [] !in s.presence;
    }
  }

  /** The record under the session's peer lasts for the time to live from now. */
  predicate Beats(cfg: Config, s: Hub, s': Hub, id: Id, now: int, answer: Answer) {
    match answer
    case Done =>
      && id in s.sessions && s.sessions[id].peerId != []
      && s' == s.(presence := s.presence[s.sessions[id].peerId := Presence(id, now + cfg.presenceTtl)])
    case Refused(error) =>
      && s' == s
      && match error
         case Closed => s.closed
         case SessionClosed => id !in s.sessions
         case PeerUnavailable => id in s.sessions && s.sessions[id].peerId == []
         case _ => false
  }

  lemma {:induction false} HeartbeatExact(cfg: Config, s: Hub, id: Id, now: int)
    requires Structure(cfg, s)
    ensures var (s', answer) := Heartbeat(cfg, s, id, now); Beats(cfg, s, s', id, now, answer)
  {
  }

  /** A local record before one of another relay; what has run out is dropped on the way. */
  ghost predicate Sights(s: Hub, s': Hub, peerId: Id, now: int, sighting: Sighting) {
    && s' == s.(presence := if Seen(s, peerId, now) then s.presence else s.presence - {peerId},
                federated := if Seen(s, peerId, now) || SeenAfar(s, peerId, now) then s.federated else s.federated - {peerId})
    && match sighting
       case Local(record) => Seen(s, peerId, now) && record == s.presence[peerId]
       case Remote(record) => !Seen(s, peerId, now) && SeenAfar(s, peerId, now) && record == s.federated[peerId]
       case Absent => !Seen(s, peerId, now) && !SeenAfar(s, peerId, now)
  }

  lemma {:induction false} LookupLocalExact(cfg: Config, s: Hub, peerId: Id, now: int)
    requires Structure(cfg, s)
    ensures LookupLocal(s, peerId, now) == (s.(presence := if Seen(s, peerId, now) then s.presence else s.presence - {peerId}),
                                            if Seen(s, peerId, now) then Some(s.presence[peerId]) else None)
  {
    if peerId !in s.presence {
      assert s.presence - {peerId} == s.presence;
    } else {
      assert IsOpen(s, s.presence[peerId].sessionId);
    }
  }

  lemma {:induction false} LookupFederatedExact(cfg: Config, s: Hub, peerId: Id, now: int)
    requires Structure(cfg, s)
    ensures LookupFederated(s, peerId, now) == (s.(federated := if SeenAfar(s, peerId, now) then s.federated else s.federated - {peerId}),
                                                if SeenAfar(s, peerId, now) then Some(s.federated[peerId]) else None)
  {
    if peerId !in s.federated {
      assert s.federated - {peerId} == s.federated;
    }
  }

  lemma {:induction false} SweptStructure(cfg: Config, s: Hub, peerId: Id, now: int)
    requires Structure(cfg, s)
    ensures Structure(cfg, LookupLocal(s, peerId, now).0)
  {
    LookupLocalShrinks(s, peerId, now);
    ShrinksKeeps(cfg, s, LookupLocal(s, peerId, now).0);
    hide Structure, LookupLocal, Shrinks;
  }

  lemma {:induction false} LookupExact(cfg: Config, s: Hub, peerId: Id, now: int)
    requires Structure(cfg, s)
    ensures Sights(s, Lookup(s, peerId, now).0, peerId, now, Lookup(s, peerId, now).1)
  {
    LookupLocalExact(cfg, s, peerId, now);
    SweptStructure(cfg, s, peerId, now);
    LookupFederatedExact(cfg, LookupLocal(s, peerId, now).0, peerId, now);
    hide Structure, LookupLocal, LookupFederated;
  }

  /**
    The new route leads from the session that asked to the peer that was looked up: to its session if its local record has
    not run out, and otherwise to the relay that announced it.
  */
  ghost predicate Meets(s: Hub, s': Hub, from: Id, routeId: Id, peerId: Id, now: int, answer: Answer) {
    match answer
    case Done =>
      && IdFits(routeId) && IdFits(peerId) && !s.closed && from in s.sessions
      && (if routeId in s.routes then
            s' == s && s.routes[routeId].left.sessionId == from && s.routes[routeId].right.peerId == peerId
          else
            && (Seen(s, peerId, now) || SeenAfar(s, peerId, now))
            && s'.routes == s.routes[routeId := Route(
                 Endpoint(from, None, s.sessions[from].peerId),
                 if Seen(s, peerId, now) then Endpoint(s.presence[peerId].sessionId, None, peerId)
                 else Endpoint([], s.federated[peerId].forwarder, peerId))])
    case Refused(error) =>
      && s'.routes == s.routes
      && match error
         case InvalidId => !IdFits(routeId) || !IdFits(peerId)
         case Closed => s.closed
         case SessionClosed => from !in s.sessions
         case RouteExists =>
           routeId in s.routes && !(s.routes[routeId].left.sessionId == from && s.routes[routeId].right.peerId == peerId)
         case PeerUnavailable => routeId !in s.routes && !Seen(s, peerId, now) && !SeenAfar(s, peerId, now)
         case _ => false
  }

  lemma {:induction false} RendezvousExact(cfg: Config, s: Hub, from: Id, routeId: Id, peerId: Id, now: int)
    requires Structure(cfg, s)
    ensures var (s', answer) := Rendezvous(s, from, routeId, peerId, now); Meets(s, s', from, routeId, peerId, now, answer)
  {
    if IdFits(routeId) && IdFits(peerId) && !s.closed && from in s.sessions && routeId !in s.routes {
      MeetsAnew(cfg, s, from, routeId, peerId, now);
    }
    hide Structure, Lookup;
  }

  lemma {:induction false} MeetsAnew(cfg: Config, s: Hub, from: Id, routeId: Id, peerId: Id, now: int)
    requires Structure(cfg, s) && IdFits(routeId) && IdFits(peerId) && !s.closed && from in s.sessions && routeId !in s.routes
    ensures var (s', answer) := Rendezvous(s, from, routeId, peerId, now); Meets(s, s', from, routeId, peerId, now, answer)
  {
    LookupExact(cfg, s, peerId, now);
    hide Structure, Lookup;
    var (looked, sighting) := Lookup(s, peerId, now);
    assert looked.routes == s.routes;
  }

  // ---------------------------------------------------------------- forward

  /** The other side of a route: what the left session sends goes right, and what the right session sends goes left. */
  function Across(route: Route, from: Id): Endpoint {
    if from == route.left.sessionId then route.right else route.left
  }

  predicate OnRoute(s: Hub, routeId: Id, from: Id) {
    routeId in s.routes && (from == s.routes[routeId].left.sessionId || from == s.routes[routeId].right.sessionId)
  }

  /** Where the frame is, and who pays for it. */
  ghost predicate Forwards(s: Hub, s': Hub, from: Id, routeId: Id, payload: bytes, begun: Begun) {
    && RecordsStay(s, s')
    && match begun
       case NotSent(error) =>
         && s'.sessions == s.sessions && s'.detached == s.detached
         && Counts(s, s', 0, 0, if error == Backpressure then 1 else 0)
         && s'.routes == if error == PeerUnavailable then s.routes - {routeId} else s.routes
       case Queued(_, to, frame) =>
         && OnRoute(s, routeId, from) && from in s.sessions && frame == Frame(routeId, s.sessions[from].peerId, payload)
         && Across(s.routes[routeId], from).sessionId in s.sessions && s.sessions[Across(s.routes[routeId], from).sessionId].token == to
         && Grows(s, s', Some(Across(s.routes[routeId], from).sessionId), frame)
         && Charges(s, s', Some(from), |payload|) && Counts(s, s', 1, |payload|, 0) && s'.routes == s.routes
       case Reserved(_, forwarder, frame) =>
         && OnRoute(s, routeId, from) && from in s.sessions && frame == Frame(routeId, s.sessions[from].peerId, payload)
         && Across(s.routes[routeId], from).forwarder == Some(forwarder)
         && Grows(s, s', None, frame)
         && Charges(s, s', Some(from), |payload|) && Counts(s, s', 0, 0, 0) && s'.routes == s.routes
  }

  lemma {:induction false} DispatchForwards(cfg: Config, s: Hub, from: Id, routeId: Id, payload: bytes, delivery: Option<Delivery>)
    requires from in s.sessions && |payload| <= cfg.maxFrameBytes && OnRoute(s, routeId, from)
    requires var side := Across(s.routes[routeId], from); if side.sessionId != [] then IsOpen(s, side.sessionId) else side.forwarder.Some?
    ensures var call, frame, side := CallFor(s, from, routeId, payload, delivery), Frame(routeId, s.sessions[from].peerId, payload), Across(s.routes[routeId], from);
            var (s', begun) := Dispatch(cfg, s, call, side, frame);
            && Forwards(s, s', from, routeId, payload, begun) && s'.routes == s.routes
            && (begun.NotSent? <==> side.sessionId != [] && |s.sessions[side.sessionId].inbox| >= cfg.maxQueueDepth)
            && (begun.NotSent? ==> begun.error == Backpressure)
  {
    var call, frame := CallFor(s, from, routeId, payload, delivery), Frame(routeId, s.sessions[from].peerId, payload);
    var side := Across(s.routes[routeId], from);
    if side.sessionId == [] {
      ReserveForwards(s, call, frame);
    } else if |s.sessions[side.sessionId].inbox| < cfg.maxQueueDepth {
      SettleForwards(cfg, s, call, side.sessionId, frame);
    }
    hide Settle, Reserve, Enqueue, Grows, Charges;
  }

  lemma {:induction false} ReserveForwards(s: Hub, call: Call, frame: Frame)
    requires call.from in s.sessions
    ensures var s' := Reserve(s, call);
            && Grows(s, s', None, frame) && Charges(s, s', Some(call.from), call.size) && Counts(s, s', 0, 0, 0)
            && RecordsStay(s, s') && s'.routes == s.routes
  {
  }

  lemma {:induction false} SettleForwards(cfg: Config, s: Hub, call: Call, to: Id, frame: Frame)
    requires call.from in s.sessions && to in s.sessions
    ensures var s' := Settle(cfg, Enqueue(s, to, frame), call);
            && Grows(s, s', Some(to), frame) && Charges(s, s', Some(call.from), call.size) && Counts(s, s', 1, call.size, 0)
            && RecordsStay(s, s') && s'.routes == s.routes
  {
    SettleSessions(cfg, s, call, to, frame);
    assert Counts(s, Settle(cfg, Enqueue(s, to, frame), call), 1, call.size, 0);
    hide Grows, Charges, Counts;
  }

  lemma {:induction false} SettleSessions(cfg: Config, s: Hub, call: Call, to: Id, frame: Frame)
    requires call.from in s.sessions && to in s.sessions
    ensures var s' := Settle(cfg, Enqueue(s, to, frame), call); Grows(s, s', Some(to), frame) && Charges(s, s', Some(call.from), call.size)
  {
    var s' := Settle(cfg, Enqueue(s, to, frame), call);
    assert s'.sessions.Keys == s.sessions.Keys && s'.detached == s.detached;
    hide Settle, Enqueue, Pays;
    forall id | id in s.sessions
      ensures s'.sessions[id].inbox == if id == to then s.sessions[id].inbox + [frame] else s.sessions[id].inbox
      ensures Pays(s.sessions[id], s'.sessions[id], if id == call.from then 1 else 0, if id == call.from then call.size else 0)
    {
      SettledSession(cfg, s, call, to, frame, id);
    }
  }

  lemma {:induction false} NothingAdded(x: uint64)
    ensures (x + 0) % TWO_64 == x
  {
  }

  lemma {:induction false} SettledSession(cfg: Config, s: Hub, call: Call, to: Id, frame: Frame, id: Id)
    requires call.from in s.sessions && to in s.sessions && id in s.sessions
    ensures id in Settle(cfg, Enqueue(s, to, frame), call).sessions
    ensures var session := Settle(cfg, Enqueue(s, to, frame), call).sessions[id];
            && session.inbox == (if id == to then s.sessions[id].inbox + [frame] else s.sessions[id].inbox)
            && Pays(s.sessions[id], session, if id == call.from then 1 else 0, if id == call.from then call.size else 0)
  {
    var queued := if id == to then s.sessions[id].(inbox := s.sessions[id].inbox + [frame]) else s.sessions[id];
    assert Enqueue(s, to, frame).sessions[id] == queued;
    assert id != call.from ==> Settle(cfg, Enqueue(s, to, frame), call).sessions[id] == queued;
    assert id == call.from ==> Settle(cfg, Enqueue(s, to, frame), call).sessions[id] == Charge(Remember(cfg, queued, call.delivered), call.size);
    Remembering(cfg, queued, call.delivered);
    NothingAdded(queued.frames);
    NothingAdded(queued.bytes);
    hide Settle, Enqueue, Remember;
  }

  lemma {:induction false} Remembering(cfg: Config, session: Session, d: Option<Delivered>)
    ensures Remember(cfg, session, d) == session.(deliveries := Remember(cfg, session, d).deliveries)
  {
  }

  /** The tests of forward in their order. The key of a delivery is made of the sender, the stream and the identifier. */
  function ForwardCauses(cfg: Config, s: Hub, from: Id, routeId: Id, payload: bytes, now: int, delivery: Option<Delivery>): seq<(bool, Error)> {
    var side := if OnRoute(s, routeId, from) then Across(s.routes[routeId], from) else Endpoint([], None, []);
    var source := if from in s.sessions then s.sessions[from] else Session(0, [], 0, 0, [], EmptyWindow());
    var key := if delivery.Some? then Key(source.peerId, delivery.value.stream, delivery.value.id) else Key([], 0, []);
    [(delivery.Some? && !(0 < |delivery.value.id| <= 128), InvalidId),
     (|payload| > cfg.maxFrameBytes, FrameTooLarge),
     (s.closed, Closed),
     (from !in s.sessions, SessionClosed),
     (!OnRoute(s, routeId, from), NoRoute),
     (routeId in s.routes && !(Reachable(s, s.routes[routeId].left, now) && Reachable(s, s.routes[routeId].right, now)), PeerUnavailable),
     (delivery.Some? && key in source.deliveries.entries && source.deliveries.entries[key] == delivery.value.digest, DuplicateDelivery),
     (delivery.Some? && key in source.deliveries.entries && source.deliveries.entries[key] != delivery.value.digest, DeliveryConflict),
     ((source.frames + 1) % TWO_64 > cfg.maxFrames || (source.bytes + |payload|) % TWO_64 > cfg.maxBytes, QuotaExceeded),
     (side.sessionId in s.sessions && |s.sessions[side.sessionId].inbox| >= cfg.maxQueueDepth, Backpressure)]
  }

  lemma {:induction false} TenCauses(causes: seq<(bool, Error)>)
    requires |causes| == 10
    ensures FirstCause(causes) == if causes[0].0 then Some(causes[0].1) else if causes[1].0 then Some(causes[1].1)
      else if causes[2].0 then Some(causes[2].1) else if causes[3].0 then Some(causes[3].1) else if causes[4].0 then Some(causes[4].1)
      else if causes[5].0 then Some(causes[5].1) else if causes[6].0 then Some(causes[6].1) else if causes[7].0 then Some(causes[7].1)
      else if causes[8].0 then Some(causes[8].1) else if causes[9].0 then Some(causes[9].1) else None
  {
    Shift(causes, 0);
    Shift(causes, 1);
    Shift(causes, 2);
    Shift(causes, 3);
    Shift(causes, 4);
    Shift(causes, 5);
    Shift(causes, 6);
    Shift(causes, 7);
    Shift(causes, 8);
    Shift(causes, 9);
    assert causes[10..] == [];
    hide FirstCause;
    assert causes[0..] == causes;
  }

  lemma {:induction false} Shift(causes: seq<(bool, Error)>, k: nat)
    requires k < |causes|
    ensures FirstCause(causes[k..]) == if causes[k].0 then Some(causes[k].1) else FirstCause(causes[k + 1..])
  {
    assert causes[k..][1..] == causes[k + 1..];
  }

  /** The same tests as the code has them. */
  lemma {:induction false} CausesAre(cfg: Config, s: Hub, from: Id, routeId: Id, payload: bytes, now: int, delivery: Option<Delivery>)
    requires Structure(cfg, s)
    ensures var causes := ForwardCauses(cfg, s, from, routeId, payload, now, delivery);
            && |causes| == 10
            && causes[..3] == [(delivery.Some? && !ValidId(delivery.value.id), InvalidId), (|payload| > cfg.maxFrameBytes, FrameTooLarge), (s.closed, Closed)]
            && causes[3] == (!IsOpen(s, from), SessionClosed)
            && causes[4] == (routeId !in s.routes || PeerOf(s.routes[routeId], from).None?, NoRoute)
            && causes[5] == (routeId in s.routes && !RouteLive(s, s.routes[routeId], now), PeerUnavailable)
            && causes[9].1 == Backpressure
  {
    assert IsOpen(s, from) <==> from in s.sessions;
    if routeId in s.routes {
      LiveExact(cfg, s, s.routes[routeId], now);
      SidesOf(s, routeId, from);
    }
    hide RouteLive, Reachable, Structure, PeerOf, OnRoute, IsOpen;
  }

  lemma {:induction false} SidesOf(s: Hub, routeId: Id, from: Id)
    requires routeId in s.routes
    ensures PeerOf(s.routes[routeId], from).None? <==> !OnRoute(s, routeId, from)
  {
  }

  lemma {:induction false} LaterCauses(cfg: Config, s: Hub, from: Id, routeId: Id, payload: bytes, now: int, delivery: Option<Delivery>)
    requires from in s.sessions && |payload| < TWO_64
    ensures var causes, source := ForwardCauses(cfg, s, from, routeId, payload, now, delivery), s.sessions[from];
            var known := delivery.Some? && KeyOf(source, delivery.value) in source.deliveries.entries;
            && |causes| == 10
            && causes[6] == (known && source.deliveries.entries[KeyOf(source, delivery.value)] == delivery.value.digest, DuplicateDelivery)
            && causes[7] == (known && source.deliveries.entries[KeyOf(source, delivery.value)] != delivery.value.digest, DeliveryConflict)
            && causes[8] == (!QuotaAdmits(cfg, source, |payload|), QuotaExceeded)
  {
    hide Reachable, OnRoute;
  }

  lemma {:induction false} ObjectionIs(cfg: Config, s: Hub, from: Id, routeId: Id, payload: bytes, now: int, delivery: Option<Delivery>)
    requires Structure(cfg, s)
    ensures var causes := ForwardCauses(cfg, s, from, routeId, payload, now, delivery);
            && |causes| == 10
            && (Objection(cfg, s, from, routeId, payload, now, delivery).Some? ==> FirstCause(causes) == Objection(cfg, s, from, routeId, payload, now, delivery))
            && (Objection(cfg, s, from, routeId, payload, now, delivery).None? ==> FirstCause(causes) == if causes[9].0 then Some(Backpressure) else None)
  {
    var causes := ForwardCauses(cfg, s, from, routeId, payload, now, delivery);
    CausesAre(cfg, s, from, routeId, payload, now, delivery);
    assert causes[0] == causes[..3][0] && causes[1] == causes[..3][1] && causes[2] == causes[..3][2];
    if from in s.sessions && |payload| <= cfg.maxFrameBytes {
      LaterCauses(cfg, s, from, routeId, payload, now, delivery);
    }
    TenCauses(causes);
    hide FirstCause, ForwardCauses, RouteLive, Structure, PeerOf, QuotaAdmits, KeyOf, ValidId;
  }

  lemma {:induction false} Refuses(s: Hub, from: Id, routeId: Id, payload: bytes, error: Error)
    requires error != Backpressure
    ensures Forwards(s, if error == PeerUnavailable then Forget(s, routeId) else s, from, routeId, payload, NotSent(error))
  {
  }

  lemma {:induction false} ForwardDispatches(cfg: Config, s: Hub, from: Id, routeId: Id, payload: bytes, now: int, delivery: Option<Delivery>)
    requires Structure(cfg, s) && Objection(cfg, s, from, routeId, payload, now, delivery).None?
    ensures var (s', begun) := Begin(cfg, s, from, routeId, payload, now, delivery);
            && Forwards(s, s', from, routeId, payload, begun)
            && (begun.NotSent? ==> begun.error == Backpressure)
            && (begun.NotSent? <==> ForwardCauses(cfg, s, from, routeId, payload, now, delivery)[9].0)
  {
    OtherSide(cfg, s, s.routes[routeId], from, now);
    assert PeerOf(s.routes[routeId], from) == Some(Across(s.routes[routeId], from));
    var side := Across(s.routes[routeId], from);
    assert OnRoute(s, routeId, from) && (side.sessionId != [] <==> side.sessionId in s.sessions);
    hide RouteLive, Structure;
    DispatchForwards(cfg, s, from, routeId, payload, delivery);
    hide Dispatch, Forwards, PeerOf, Across;
  }

  /**
    `forward` up to the point where it drops the mutex: it fails exactly if a cause applies, with the error of the first;
    and otherwise the frame is in the inbox of the other side and nowhere else, or on its way to the other side's relay.
  */
  lemma {:induction false} ForwardExact(cfg: Config, s: Hub, from: Id, routeId: Id, payload: bytes, now: int, delivery: Option<Delivery>)
    requires Structure(cfg, s)
    ensures var (s', begun) := Begin(cfg, s, from, routeId, payload, now, delivery);
            && Forwards(s, s', from, routeId, payload, begun)
            && FirstCause(ForwardCauses(cfg, s, from, routeId, payload, now, delivery)) == if begun.NotSent? then Some(begun.error) else None
  {
    var objection := Objection(cfg, s, from, routeId, payload, now, delivery);
    ObjectionIs(cfg, s, from, routeId, payload, now, delivery);
    if objection.None? {
      ForwardDispatches(cfg, s, from, routeId, payload, now, delivery);
    } else {
      assert objection != Some(Backpressure);
      Refuses(s, from, routeId, payload, objection.value);
    }
    hide Objection, ForwardCauses, Forwards, Structure;
    hide FirstCause, Dispatch;
  }

  // ---------------------------------------------------------------- a frame from a remote relay

  /** The frame names the sender it came with, goes to the left session of a route to a remote relay, and is charged to nobody. */
  ghost predicate Delivers(s: Hub, s': Hub, routeId: Id, payload: bytes, sender: Id, injected: Injected) {
    && RecordsStay(s, s') && s'.routes == s.routes
    && match injected
       case NotInjected(error) =>
         && s'.sessions == s.sessions && s'.detached == s.detached && Counts(s, s', 0, 0, if error == Backpressure then 1 else 0)
       case Injected(to, frame) =>
         && frame == Frame(routeId, sender, payload) && routeId in s.routes && s.routes[routeId].right.forwarder.Some?
         && s.routes[routeId].left.sessionId in s.sessions && s.sessions[s.routes[routeId].left.sessionId].token == to
         && Grows(s, s', Some(s.routes[routeId].left.sessionId), frame) && Charges(s, s', None, 0)
         && (forall id :: id in s.sessions ==> s'.sessions[id].deliveries == s.sessions[id].deliveries)
         && Counts(s, s', 1, |payload|, 0)
  }

  function DeliverCauses(cfg: Config, s: Hub, routeId: Id, payload: bytes): seq<(bool, Error)> {
    var to := if routeId in s.routes then s.routes[routeId].left.sessionId else [];
    [(|payload| > cfg.maxFrameBytes, FrameTooLarge),
     (s.closed, Closed),
     (routeId !in s.routes || s.routes[routeId].right.forwarder.None?, NoRoute),
     (to in s.sessions && |s.sessions[to].inbox| >= cfg.maxQueueDepth, Backpressure)]
  }

  lemma {:induction false} FourCauses(causes: seq<(bool, Error)>)
    requires |causes| == 4
    ensures FirstCause(causes) == if causes[0].0 then Some(causes[0].1) else if causes[1].0 then Some(causes[1].1)
      else if causes[2].0 then Some(causes[2].1) else if causes[3].0 then Some(causes[3].1) else None
  {
    Shift(causes, 0);
    Shift(causes, 1);
    Shift(causes, 2);
    Shift(causes, 3);
    assert causes[4..] == [] && causes[0..] == causes;
    hide FirstCause;
  }

  lemma {:induction false} EnqueueGrows(s: Hub, to: Id, frame: Frame, stats: Stats)
    requires to in s.sessions
    ensures var s' := Enqueue(s, to, frame).(stats := stats);
            && Grows(s, s', Some(to), frame) && Charges(s, s', None, 0) && RecordsStay(s, s') && s'.routes == s.routes
            && forall id :: id in s.sessions ==> s'.sessions[id].deliveries == s.sessions[id].deliveries
  {
    var s' := Enqueue(s, to, frame);
    assert s'.sessions.Keys == s.sessions.Keys;
    forall id | id in s.sessions ensures Pays(s.sessions[id], s'.sessions[id], 0, 0) {
      NothingAdded(s.sessions[id].frames);
      NothingAdded(s.sessions[id].bytes);
    }
    hide Pays;
  }

  lemma {:induction false} LocalIs(cfg: Config, s: Hub, route: Route)
    requires Structure(cfg, s) && RouteOk(s, route)
    ensures LocalSide(route) == if route.right.forwarder.Some? then Some(route.left.sessionId) else None
  {
  }

  lemma {:induction false} DeliversOpen(cfg: Config, s: Hub, routeId: Id, payload: bytes, sender: Id, to: Id)
    requires |payload| <= cfg.maxFrameBytes && !s.closed && routeId in s.routes && s.routes[routeId].right.forwarder.Some?
    requires LocalSide(s.routes[routeId]) == Some(to) && to == s.routes[routeId].left.sessionId && IsOpen(s, to)
    ensures var (s', injected) := Inject(cfg, s, routeId, payload, sender);
            && Delivers(s, s', routeId, payload, sender, injected)
            && (injected.NotInjected? <==> |s.sessions[to].inbox| >= cfg.maxQueueDepth) && (injected.NotInjected? ==> injected.error == Backpressure)
  {
    hide LocalSide, Enqueue, Grows, Charges;
    var frame := Frame(routeId, sender, payload);
    EnqueueGrows(s, to, frame, CountForwarded(s.stats, |payload|));
    CountsOne(s, |payload|);
    hide Counts;
  }

  lemma {:induction false} CountsOne(s: Hub, size: nat)
    requires size < TWO_64
    ensures forall s': Hub :: s'.stats == CountForwarded(s.stats, size) ==> Counts(s, s', 1, size, 0)
    ensures Counts(s, s, 0, 0, 0) && Counts(s, Drop(s), 0, 0, 1)
  {
  }

  lemma {:induction false} DeliverRefuses(cfg: Config, s: Hub, routeId: Id, payload: bytes, sender: Id)
    requires |payload| > cfg.maxFrameBytes || s.closed || routeId !in s.routes || LocalSide(s.routes[routeId]).None?
    ensures Inject(cfg, s, routeId, payload, sender)
         == (s, NotInjected(if |payload| > cfg.maxFrameBytes then FrameTooLarge else if s.closed then Closed else NoRoute))
    ensures Delivers(s, s, routeId, payload, sender, Inject(cfg, s, routeId, payload, sender).1)
  {
    hide LocalSide;
  }

  /** DeliverFromFederated fails exactly if a cause applies, with the error of the first. */
  lemma {:induction false} DeliverExact(cfg: Config, s: Hub, routeId: Id, payload: bytes, sender: Id)
    requires Structure(cfg, s)
    ensures var (s', injected) := Inject(cfg, s, routeId, payload, sender);
            && Delivers(s, s', routeId, payload, sender, injected)
            && FirstCause(DeliverCauses(cfg, s, routeId, payload)) == if injected.NotInjected? then Some(injected.error) else None
  {
    FourCauses(DeliverCauses(cfg, s, routeId, payload));
    if routeId in s.routes {
      assert RouteOk(s, s.routes[routeId]) && IsOpen(s, s.routes[routeId].left.sessionId);
      LocalIs(cfg, s, s.routes[routeId]);
    }
    hide FirstCause, Structure, LocalSide, IsOpen, RouteOk;
    if |payload| <= cfg.maxFrameBytes && !s.closed && routeId in s.routes && s.routes[routeId].right.forwarder.Some? {
      DeliversOpen(cfg, s, routeId, payload, sender, s.routes[routeId].left.sessionId);
    } else {
      DeliverRefuses(cfg, s, routeId, payload, sender);
    }
    hide Inject, Delivers;
  }

  // ---------------------------------------------------------------- the end of a call, and of a session

  /**
    The end of a call that went to a remote relay touches nothing but the counters, the route it failed on, and the charge
    and the replay window of the session it was made for.
  */
  ghost predicate Settles(s: Hub, s': Hub, call: Call, outcome: Outcome) {
    && RecordsStay(s, s') && s'.detached == s.detached
    && s'.routes == (if outcome == RouteFailure then s.routes - {call.routeId} else s.routes)
    && Counts(s, s', if outcome == Accepted then 1 else 0, if outcome == Accepted then call.size else 0, 0)
    && s'.sessions.Keys == s.sessions.Keys
    && (forall id :: id in s.sessions ==> (id == call.from && s.sessions[id].token == call.token) || s'.sessions[id] == s.sessions[id])
    && (call.from in s.sessions ==>
          var session, session' := s.sessions[call.from], s'.sessions[call.from];
          && session'.token == session.token && session'.peerId == session.peerId && session'.inbox == session.inbox
          && (outcome == Accepted ==> session'.frames == session.frames && session'.bytes == session.bytes)
          && (outcome != Accepted || call.delivered.None? ==> session'.deliveries == session.deliveries))
  }

  lemma {:induction false} EndExact(cfg: Config, s: Hub, call: Call, outcome: Outcome)
    ensures Settles(s, End(cfg, s, call, outcome), call, outcome)
  {
    NothingAdded(s.stats.forwardedFrames);
    NothingAdded(s.stats.forwardedBytes);
    if call.from in s.sessions {
      Remembering(cfg, s.sessions[call.from], call.delivered);
    }
    hide Remember;
  }

  /** The session's handle is closed and its inbox left behind; its routes go, and the record under its peer. */
  ghost predicate Detaches(s: Hub, s': Hub, id: Id) {
    if id !in s.sessions then s' == s
    else
      var session := s.sessions[id];
      && s' == s.(sessions := s'.sessions, routes := s'.routes, presence := s'.presence, finished := s.finished + {session.token},
                  detached := s.detached[Object(id, session.token) := session.inbox])
      && s'.sessions.Keys == s.sessions.Keys - {id} && (forall other :: other in s'.sessions ==> s'.sessions[other] == s.sessions[other])
      && s'.presence.Keys == s.presence.Keys - {session.peerId} && (forall p :: p in s'.presence ==> s'.presence[p] == s.presence[p])
      && (forall r :: r in s'.routes <==> r in s.routes && s.routes[r].left.sessionId != id && s.routes[r].right.sessionId != id)
      && (forall r :: r in s'.routes ==> s'.routes[r] == s.routes[r])
  }

  lemma {:induction false} DetachExact(cfg: Config, s: Hub, id: Id)
    requires Structure(cfg, s)
    ensures Detaches(s, Detach(s, id), id)
  {
    assert [] !in s.presence;
    hide SessionsOk, RoutesOk;
  }
}
