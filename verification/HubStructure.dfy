/** What every locked section of the hub keeps about its maps, and what a sweep removes. */
module HubStructure {
  import opened Bytes
  import opened ReplayWindows
  import opened HubModel

  /** Attached sessions are open, and each has an identity of its own. */
  ghost predicate IdentitiesOk(s: Hub) {
    && (forall id :: id in s.sessions ==> ValidId(id) && s.sessions[id].token < s.nextToken && s.sessions[id].token !in s.finished)
    && (forall id :: id in s.sessions ==> s.sessions[id].peerId == [] || ValidId(s.sessions[id].peerId))
    && (forall id, other :: id in s.sessions && other in s.sessions && s.sessions[id].token == s.sessions[other].token ==> id == other)
    && (forall token :: token in s.finished ==> token < s.nextToken)
    && (forall o :: o in s.detached ==> o.token in s.finished)
  }

  ghost predicate SessionsOk(cfg: Config, s: Hub) {
    |s.sessions| <= cfg.maxSessions && IdentitiesOk(s)
  }

  /** A presence record names an attached session whose peer is the key, so no session owns two. */
  ghost predicate PresenceOk(s: Hub) {
    && (forall p :: p in s.presence ==> ValidId(p) && s.presence[p].sessionId in s.sessions && s.sessions[s.presence[p].sessionId].peerId == p)
    && (forall p :: p in s.federated ==> ValidId(p) && s.federated[p].forwarder.Some?)
  }

  predicate RouteOk(s: Hub, route: Route) {
    && route.left.forwarder.None?
    && route.left.sessionId in s.sessions
    && (if route.right.forwarder.None? then route.right.sessionId in s.sessions
        else route.right.sessionId == [] && route.right.peerId != [])
  }

  /** The left side of a route is an attached session, the right side exactly one of a session and a forwarder. */
  ghost predicate RoutesOk(s: Hub) {
    forall r :: r in s.routes ==> RouteOk(s, s.routes[r])
  }

  predicate EmptyIfClosed(s: Hub) {
    s.closed ==> s.sessions == map[] && s.routes == map[] && s.presence == map[] && s.federated == map[]
  }

  ghost predicate Structure(cfg: Config, s: Hub) {
    SessionsOk(cfg, s) && PresenceOk(s) && RoutesOk(s) && EmptyIfClosed(s)
  }

  /** A route identifier is not bound to another route while it exists. */
  ghost predicate RoutesFixed(s: Hub, s': Hub) {
    forall r :: r in s.routes && r in s'.routes ==> s'.routes[r] == s.routes[r]
  }

  /** Closing is for good. */
  predicate StaysClosed(s: Hub, s': Hub) {
    (s.closed ==> s'.closed) && s.finished <= s'.finished && s.nextToken <= s'.nextToken
  }

  ghost predicate Keeps(cfg: Config, s: Hub, s': Hub) {
    Structure(cfg, s') && RoutesFixed(s, s') && StaysClosed(s, s')
  }

  lemma {:induction false} NewHubStructure(cfg: Config)
    ensures Structure(cfg, NewHub())
  {
  }

  // ---------------------------------------------------------------- one lemma for each locked section

  ghost predicate Submap<K, V>(small: map<K, V>, large: map<K, V>) {
    forall k :: k in small ==> k in large && small[k] == large[k]
  }

  /** The same sessions under the same keys: only their inboxes, usage and replay windows may differ. */
  ghost predicate SameSessions(s: Hub, s': Hub) {
    && s'.sessions.Keys == s.sessions.Keys
    && (forall id :: id in s.sessions ==> s'.sessions[id].token == s.sessions[id].token && s'.sessions[id].peerId == s.sessions[id].peerId)
    && s'.closed == s.closed && s'.finished == s.finished && s'.nextToken == s.nextToken && s'.detached.Keys == s.detached.Keys
  }

  /** A section that at most drops records and works on the sessions in place. */
  ghost predicate Shrinks(s: Hub, s': Hub) {
    && SameSessions(s, s')
    && Submap(s'.presence, s.presence)
    && Submap(s'.federated, s.federated)
    && Submap(s'.routes, s.routes)
  }

  lemma {:induction false} EmptyMap<K, V>(m: map<K, V>)
    requires m.Keys == {}
    ensures m == map[]
  {
  }

  lemma {:induction false} ShrinksClosed(s: Hub, s': Hub)
    requires EmptyIfClosed(s) && Shrinks(s, s')
    ensures EmptyIfClosed(s')
  {
    if s.closed {
      assert s'.presence.Keys == {} && s'.federated.Keys == {} && s'.routes.Keys == {};
      EmptyMap(s'.sessions);
      EmptyMap(s'.presence);
      EmptyMap(s'.federated);
      EmptyMap(s'.routes);
    }
  }

  lemma {:induction false} ShrinksKeeps(cfg: Config, s: Hub, s': Hub)
    requires Structure(cfg, s) && Shrinks(s, s')
    ensures Keeps(cfg, s, s')
  {
    assert SessionsOk(cfg, s') by {
      assert |s'.sessions| == |s'.sessions.Keys| == |s.sessions.Keys| == |s.sessions|;
    }
    ShrinksClosed(s, s');
  }

  lemma {:induction false} AttachSessions(cfg: Config, s: Hub, id: Id)
    requires SessionsOk(cfg, s) && Attach(cfg, s, id).1 == Done
    ensures SessionsOk(cfg, Attach(cfg, s, id).0)
  {
    var s' := Attach(cfg, s, id).0;
    assert |s'.sessions| <= cfg.maxSessions by {
      assert s'.sessions.Keys == s.sessions.Keys + {id};
    }
    assert IdentitiesOk(s');
  }

  lemma {:induction false} AttachRest(cfg: Config, s: Hub, id: Id)
    requires PresenceOk(s) && RoutesOk(s) && EmptyIfClosed(s)
    ensures PresenceOk(Attach(cfg, s, id).0) && RoutesOk(Attach(cfg, s, id).0) && EmptyIfClosed(Attach(cfg, s, id).0)
  {
  }

  lemma {:induction false} AttachKeeps(cfg: Config, s: Hub, id: Id)
    requires Structure(cfg, s)
    ensures Keeps(cfg, s, Attach(cfg, s, id).0)
  {
    if Attach(cfg, s, id).1 == Done {
      assert SessionsOk(cfg, Attach(cfg, s, id).0) by { AttachSessions(cfg, s, id); }
      AttachRest(cfg, s, id);
    }
  }

  lemma {:induction false} OtherMapsOk(cfg: Config, s: Hub, routes: map<Id, Route>)
    requires SessionsOk(cfg, s) && PresenceOk(s)
    ensures SessionsOk(cfg, s.(routes := routes)) && PresenceOk(s.(routes := routes))
  {
  }

  lemma {:induction false} AddRouteKeeps(cfg: Config, s: Hub, routeId: Id, route: Route)
    requires Structure(cfg, s) && routeId !in s.routes && RouteOk(s, route) && !s.closed
    ensures Keeps(cfg, s, s.(routes := s.routes[routeId := route]))
  {
    OtherMapsOk(cfg, s, s.routes[routeId := route]);
    hide SessionsOk, PresenceOk;
  }

  lemma {:induction false} PairKeeps(cfg: Config, s: Hub, routeId: Id, left: Id, right: Id)
    requires Structure(cfg, s)
    ensures Keeps(cfg, s, Pair(s, routeId, left, right).0)
  {
    if Pair(s, routeId, left, right).1 == Done {
      AddRouteKeeps(cfg, s, routeId, Pair(s, routeId, left, right).0.routes[routeId]);
    }
  }

  lemma {:induction false} AnnounceFederatedKeeps(cfg: Config, s: Hub, peerId: Id, forwarder: Option<nat>, now: int)
    requires Structure(cfg, s)
    ensures Keeps(cfg, s, AnnounceFederated(cfg, s, peerId, forwarder, now).0)
  {
  }

  /** The record a session leaves behind under its former peer is dropped, and there is no other. */
  lemma {:induction false} AnnouncePresenceOk(cfg: Config, s: Hub, id: Id, peerId: Id, now: int)
    requires Structure(cfg, s) && Announce(cfg, s, id, peerId, now).1 == Done
    ensures PresenceOk(Announce(cfg, s, id, peerId, now).0)
  {
    var s' := Announce(cfg, s, id, peerId, now).0;
    forall p | p in s'.presence && p != peerId
      ensures p in s.presence && s'.presence[p] == s.presence[p] && s.presence[p].sessionId != id
    {
      assert ValidId(p);
    }
  }

  lemma {:induction false} AnnounceSessionsOk(cfg: Config, s: Hub, id: Id, peerId: Id, now: int)
    requires SessionsOk(cfg, s) && Announce(cfg, s, id, peerId, now).1 == Done
    ensures var s' := Announce(cfg, s, id, peerId, now).0;
            SessionsOk(cfg, s') && s'.sessions.Keys == s.sessions.Keys && s'.routes == s.routes
  {
    var s' := Announce(cfg, s, id, peerId, now).0;
    assert s'.sessions.Keys == s.sessions.Keys;
    assert |s'.sessions| == |s'.sessions.Keys| == |s.sessions|;
  }

  lemma {:induction false} RoutesStay(s: Hub, s': Hub)
    requires RoutesOk(s) && s'.routes == s.routes && s'.sessions.Keys == s.sessions.Keys
    ensures RoutesOk(s')
  {
  }

  lemma {:induction false} AnnounceKeeps(cfg: Config, s: Hub, id: Id, peerId: Id, now: int)
    requires Structure(cfg, s)
    ensures Keeps(cfg, s, Announce(cfg, s, id, peerId, now).0)
  {
    var s' := Announce(cfg, s, id, peerId, now).0;
    if Announce(cfg, s, id, peerId, now).1 == Done {
      AnnouncePresenceOk(cfg, s, id, peerId, now);
      AnnounceSessionsOk(cfg, s, id, peerId, now);
      RoutesStay(s, s');
      hide SessionsOk, PresenceOk, RoutesOk;
    }
  }

  lemma {:induction false} HeartbeatPresenceOk(cfg: Config, s: Hub, id: Id, now: int)
    requires Structure(cfg, s)
    ensures PresenceOk(Heartbeat(cfg, s, id, now).0)
  {
  }

  lemma {:induction false} HeartbeatKeeps(cfg: Config, s: Hub, id: Id, now: int)
    requires Structure(cfg, s)
    ensures Keeps(cfg, s, Heartbeat(cfg, s, id, now).0)
  {
    assert PresenceOk(Heartbeat(cfg, s, id, now).0) by { HeartbeatPresenceOk(cfg, s, id, now); }
    assert SessionsOk(cfg, Heartbeat(cfg, s, id, now).0) && RoutesOk(Heartbeat(cfg, s, id, now).0);
  }

  lemma {:induction false} Smaller<K, V>(m: map<K, V>, k: K)
    ensures Submap(m - {k}, m) && Submap(m, m)
  {
  }

  lemma {:induction false} RecordsShrink(s: Hub, s': Hub)
    requires s' == s.(presence := s'.presence, federated := s'.federated)
    requires Submap(s'.presence, s.presence) && Submap(s'.federated, s.federated)
    ensures Shrinks(s, s')
  {
    hide Submap;
    assert Submap(s'.routes, s.routes) by { Smaller(s.routes, []); }
  }

  lemma {:induction false} SessionShrinks(s: Hub, s': Hub, id: Id, session: Session)
    requires id in s.sessions && session.token == s.sessions[id].token && session.peerId == s.sessions[id].peerId
    requires s' == s.(sessions := s.sessions[id := session], stats := s'.stats)
    ensures Shrinks(s, s')
  {
    hide Submap;
    Smaller(s.routes, []);
    Smaller(s.presence, []);
    Smaller(s.federated, []);
    assert s'.sessions.Keys == s.sessions.Keys;
  }

  lemma {:induction false} LookupLocalShrinks(s: Hub, peerId: Id, now: int)
    ensures Shrinks(s, LookupLocal(s, peerId, now).0)
    ensures LookupLocal(s, peerId, now).0.sessions == s.sessions && LookupLocal(s, peerId, now).0.routes == s.routes
  {
    hide Submap, Shrinks;
    Smaller(s.presence, peerId);
    Smaller(s.federated, peerId);
    RecordsShrink(s, LookupLocal(s, peerId, now).0);
  }

  lemma {:induction false} LookupFederatedShrinks(s: Hub, peerId: Id, now: int)
    ensures Shrinks(s, LookupFederated(s, peerId, now).0)
    ensures LookupFederated(s, peerId, now).0.sessions == s.sessions && LookupFederated(s, peerId, now).0.routes == s.routes
  {
    hide Submap, Shrinks;
    Smaller(s.presence, peerId);
    Smaller(s.federated, peerId);
    RecordsShrink(s, LookupFederated(s, peerId, now).0);
  }

  lemma {:induction false} LookupShrinks(s: Hub, peerId: Id, now: int)
    ensures Shrinks(s, Lookup(s, peerId, now).0)
    ensures Lookup(s, peerId, now).0.sessions == s.sessions && Lookup(s, peerId, now).0.routes == s.routes
  {
    var s' := LookupLocal(s, peerId, now).0;
    LookupLocalShrinks(s, peerId, now);
    LookupFederatedShrinks(s', peerId, now);
    ShrinksTransitive(s, s', LookupFederated(s', peerId, now).0);
  }

  lemma {:induction false} LookupFinds(s: Hub, peerId: Id, now: int)
    ensures Lookup(s, peerId, now).1.Local? ==> peerId in s.presence && s.presence[peerId] == Lookup(s, peerId, now).1.presence
    ensures Lookup(s, peerId, now).1.Remote? ==> peerId in s.federated && s.federated[peerId] == Lookup(s, peerId, now).1.federated
  {
  }

  /** The right side that a rendezvous gives a new route. */
  lemma {:induction false} RendezvousRoute(cfg: Config, s: Hub, from: Id, routeId: Id, peerId: Id, now: int)
    requires Structure(cfg, s)
    ensures var (s', answer) := Rendezvous(s, from, routeId, peerId, now);
            var looked := Lookup(s, peerId, now).0;
            || s' == s
            || s' == looked
            || exists route :: RouteOk(s, route) && !s.closed && routeId !in s.routes && s' == looked.(routes := looked.routes[routeId := route])
  {
    LookupFinds(s, peerId, now);
    var s' := Rendezvous(s, from, routeId, peerId, now).0;
    if s' != s && Lookup(s, peerId, now).1 != Absent {
      assert RouteOk(s, s'.routes[routeId]);
    }
  }

  lemma {:induction false} RendezvousKeeps(cfg: Config, s: Hub, from: Id, routeId: Id, peerId: Id, now: int)
    requires Structure(cfg, s)
    ensures Keeps(cfg, s, Rendezvous(s, from, routeId, peerId, now).0)
  {
    var s' := Rendezvous(s, from, routeId, peerId, now).0;
    var looked := Lookup(s, peerId, now).0;
    assert Keeps(cfg, s, looked) && looked.closed == s.closed && looked.sessions == s.sessions && looked.routes == s.routes by {
      LookupShrinks(s, peerId, now);
      ShrinksKeeps(cfg, s, looked);
    }
    RendezvousRoute(cfg, s, from, routeId, peerId, now);
    if s' != s && s' != looked {
      var route :| RouteOk(s, route) && routeId !in s.routes && s' == looked.(routes := looked.routes[routeId := route]);
      AddRouteKeeps(cfg, looked, routeId, route);
    }
  }

  lemma {:induction false} SweepKeeps(cfg: Config, s: Hub, now: int)
    requires Structure(cfg, s)
    ensures Keeps(cfg, s, Sweep(s, now).0)
  {
    ShrinksKeeps(cfg, s, Sweep(s, now).0);
  }

  lemma {:induction false} EnqueueShrinks(s: Hub, to: Id, frame: Frame)
    requires to in s.sessions
    ensures Shrinks(s, Enqueue(s, to, frame))
  {
  }

  lemma {:induction false} SettleShrinks(cfg: Config, s: Hub, call: Call)
    requires call.from in s.sessions
    ensures Shrinks(s, Settle(cfg, s, call)) && Shrinks(s, Reserve(s, call))
  {
    hide Shrinks;
    SessionShrinks(s, Settle(cfg, s, call), call.from, Charge(Remember(cfg, s.sessions[call.from], call.delivered), call.size));
    SessionShrinks(s, Reserve(s, call), call.from, Charge(s.sessions[call.from], call.size));
  }

  lemma {:induction false} ShrinksTransitive(a: Hub, b: Hub, c: Hub)
    requires Shrinks(a, b) && Shrinks(b, c)
    ensures Shrinks(a, c)
  {
  }

  lemma {:induction false} ForgetShrinks(s: Hub, routeId: Id)
    ensures Shrinks(s, s) && Shrinks(s, Forget(s, routeId)) && Shrinks(s, Drop(s))
  {
  }

  lemma {:induction false} DispatchShrinks(cfg: Config, s: Hub, call: Call, to: Endpoint, frame: Frame)
    requires call.from in s.sessions
    ensures Shrinks(s, Dispatch(cfg, s, call, to, frame).0)
  {
    ForgetShrinks(s, call.routeId);
    SettleShrinks(cfg, s, call);
    if to.sessionId in s.sessions {
      var queued := Enqueue(s, to.sessionId, frame);
      EnqueueShrinks(s, to.sessionId, frame);
      SettleShrinks(cfg, queued, call);
      ShrinksTransitive(s, queued, Settle(cfg, queued, call));
    }
  }

  lemma {:induction false} BeginShrinks(cfg: Config, s: Hub, from: Id, routeId: Id, payload: bytes, now: int, delivery: Option<Delivery>)
    ensures Shrinks(s, Begin(cfg, s, from, routeId, payload, now, delivery).0)
  {
    ForgetShrinks(s, routeId);
    if Objection(cfg, s, from, routeId, payload, now, delivery).None? {
      DispatchShrinks(cfg, s, CallFor(s, from, routeId, payload, delivery), PeerOf(s.routes[routeId], from).value,
                      Frame(routeId, s.sessions[from].peerId, payload));
    }
  }

  lemma {:induction false} EndShrinks(cfg: Config, s: Hub, call: Call, outcome: Outcome)
    ensures Shrinks(s, End(cfg, s, call, outcome))
  {
  }

  lemma {:induction false} InjectShrinks(cfg: Config, s: Hub, routeId: Id, payload: bytes, sender: Id)
    ensures Shrinks(s, Inject(cfg, s, routeId, payload, sender).0)
  {
    ForgetShrinks(s, routeId);
    var (s', injected) := Inject(cfg, s, routeId, payload, sender);
    if injected.Injected? {
      EnqueueShrinks(s, LocalSide(s.routes[routeId]).value, injected.frame);
    }
  }

  lemma {:induction false} TakeShrinks(s: Hub, o: Object)
    requires InboxOf(s, o) != []
    ensures Shrinks(s, Take(s, o))
  {
    if IsAttached(s, o) {
      var session := s.sessions[o.id];
      hide Shrinks;
      SessionShrinks(s, Take(s, o), o.id, session.(inbox := session.inbox[1..]));
    } else {
      assert Take(s, o).detached.Keys == s.detached.Keys;
    }
  }

  lemma {:induction false} DetachedIdentities(s: Hub, id: Id)
    requires IdentitiesOk(s) && id in s.sessions
    ensures IdentitiesOk(Detach(s, id))
  {
    var s' := Detach(s, id);
    forall other | other in s'.sessions ensures s'.sessions[other].token != s.sessions[id].token {
      assert other in s.sessions && other != id;
    }
  }

  lemma {:induction false} DetachedSessions(cfg: Config, s: Hub, id: Id)
    requires SessionsOk(cfg, s) && id in s.sessions
    ensures SessionsOk(cfg, Detach(s, id))
  {
    var s' := Detach(s, id);
    DetachedIdentities(s, id);
    assert s'.sessions.Keys == s.sessions.Keys - {id};
    assert |s'.sessions| == |s'.sessions.Keys| <= |s.sessions.Keys|;
  }

  lemma {:induction false} DetachedRoutes(cfg: Config, s: Hub, id: Id)
    requires Structure(cfg, s) && id in s.sessions
    ensures RoutesOk(Detach(s, id))
  {
  }

  /** Every record that pointed at the detached session was under its peer, and every route on it is dropped. */
  lemma {:induction false} DetachKeeps(cfg: Config, s: Hub, id: Id)
    requires Structure(cfg, s)
    ensures Keeps(cfg, s, Detach(s, id))
  {
    if id in s.sessions {
      assert SessionsOk(cfg, Detach(s, id)) by { DetachedSessions(cfg, s, id); }
      assert PresenceOk(Detach(s, id)) by { DetachedPresence(cfg, s, id); }
      assert RoutesOk(Detach(s, id)) by { DetachedRoutes(cfg, s, id); }
      assert RoutesFixed(s, Detach(s, id));
    }
  }

  lemma {:induction false} DetachedPresence(cfg: Config, s: Hub, id: Id)
    requires Structure(cfg, s) && id in s.sessions
    ensures forall p :: p in Detach(s, id).presence ==> p in s.presence && Detach(s, id).presence[p] == s.presence[p] && s.presence[p].sessionId != id
  {
    forall p | p in Detach(s, id).presence ensures s.presence[p].sessionId != id {
      assert ValidId(p);
    }
  }

  lemma {:induction false} CloseKeeps(cfg: Config, s: Hub)
    requires Structure(cfg, s)
    ensures Keeps(cfg, s, Close(s)) && Close(s).closed
  {
  }

  // ---------------------------------------------------------------- branches that the structure rules out

  /** The other side of a live route is an open session or a remote relay. */
  lemma {:induction false} OtherSide(cfg: Config, s: Hub, route: Route, from: Id, now: int)
    requires Structure(cfg, s) && RouteOk(s, route) && RouteLive(s, route, now) && PeerOf(route, from).Some?
    ensures var to := PeerOf(route, from).value;
            if to.sessionId != [] then IsOpen(s, to.sessionId) else to.forwarder.Some?
  {
  }

  lemma {:induction false} DispatchErrors(cfg: Config, s: Hub, call: Call, to: Endpoint, frame: Frame)
    requires call.from in s.sessions
    requires if to.sessionId != [] then IsOpen(s, to.sessionId) else to.forwarder.Some?
    ensures var (s', begun) := Dispatch(cfg, s, call, to, frame);
            s'.routes == s.routes && (begun.NotSent? ==> begun.error == Backpressure)
  {
  }

  /**
    `forward` never meets a route whose other side is gone: the only errors after its liveness test are the
    replay answers, the quota and a full inbox.
  */
  lemma {:induction false} ForwardErrors(cfg: Config, s: Hub, from: Id, routeId: Id, payload: bytes, now: int, delivery: Option<Delivery>)
    requires Structure(cfg, s) && Objection(cfg, s, from, routeId, payload, now, delivery).None?
    ensures var (s', begun) := Begin(cfg, s, from, routeId, payload, now, delivery);
            s'.routes == s.routes && (begun.NotSent? ==> begun.error == Backpressure)
  {
    OtherSide(cfg, s, s.routes[routeId], from, now);
    DispatchErrors(cfg, s, CallFor(s, from, routeId, payload, delivery), PeerOf(s.routes[routeId], from).value,
                   Frame(routeId, s.sessions[from].peerId, payload));
  }

  /** An attached session is never closed, and a presence record never outlives its session. */
  lemma {:induction false} PresenceIsOpen(cfg: Config, s: Hub, peerId: Id, now: int)
    requires Structure(cfg, s)
    ensures LookupLocal(s, peerId, now).1.Some? <==> peerId in s.presence && s.presence[peerId].expiresAt > now
    ensures LookupFederated(s, peerId, now).1.Some? <==> peerId in s.federated && s.federated[peerId].expiresAt > now
  {
  }

  // ---------------------------------------------------------------- the sweep as a filter

  lemma {:induction false} SweptEndpoint(cfg: Config, s: Hub, e: Endpoint, now: int)
    requires Structure(cfg, s)
    ensures EndpointLive(SweepPresence(s, now), e, now) <==> EndpointLive(s, e, now)
  {
  }

  /** Dropping expired records first does not change which routes are live. */
  lemma {:induction false} SweptRoutes(cfg: Config, s: Hub, now: int)
    requires Structure(cfg, s)
    ensures LiveRoutes(SweepPresence(s, now), now) == LiveRoutes(s, now)
  {
    forall r | r in s.routes ensures RouteLive(SweepPresence(s, now), s.routes[r], now) <==> RouteLive(s, s.routes[r], now) {
      SweptEndpoint(cfg, s, s.routes[r].left, now);
      SweptEndpoint(cfg, s, s.routes[r].right, now);
    }
  }

  lemma {:induction false} FreshExact(cfg: Config, s: Hub, now: int)
    requires Structure(cfg, s)
    ensures FreshPresence(s, now) == map p | p in s.presence && s.presence[p].expiresAt > now :: s.presence[p]
    ensures FreshFederated(s, now) == map p | p in s.federated && s.federated[p].expiresAt > now :: s.federated[p]
  {
  }

  lemma {:induction false} RemovedCount<V>(small: map<Id, V>, large: map<Id, V>)
    requires small.Keys <= large.Keys
    ensures Missing(small, large) == |large| - |small|
  {
    assert |large.Keys| == |large| && |small.Keys| == |small|;
  }

  /**
    SweepExpired keeps exactly the unexpired records and exactly the routes that are live before it starts,
    and counts the records it drops.
  */
  lemma {:induction false} SweepExact(cfg: Config, s: Hub, now: int)
    requires Structure(cfg, s)
    ensures Sweep(s, now).0 == s.(presence := map p | p in s.presence && s.presence[p].expiresAt > now :: s.presence[p],
                                  federated := map p | p in s.federated && s.federated[p].expiresAt > now :: s.federated[p],
                                  routes := map r | r in s.routes && RouteLive(s, s.routes[r], now) :: s.routes[r])
    ensures |Sweep(s, now).0.presence| + |Sweep(s, now).0.federated| + Sweep(s, now).1 == |s.presence| + |s.federated|
  {
    SweptRoutes(cfg, s, now);
    FreshExact(cfg, s, now);
    RemovedCount(FreshPresence(s, now), s.presence);
    RemovedCount(FreshFederated(s, now), s.federated);
  }

  lemma {:induction false} DeadRoute(cfg: Config, s: Hub, from: Id, routeId: Id, payload: bytes, now: int)
    requires Structure(cfg, s)
    requires from in s.sessions && routeId in s.routes && PeerOf(s.routes[routeId], from).Some? && |payload| <= cfg.maxFrameBytes
    ensures RouteLive(s, s.routes[routeId], now) <==> Objection(cfg, s, from, routeId, payload, now, None) != Some(PeerUnavailable)
  {
  }

  lemma {:induction false} DeadRouteDropped(cfg: Config, s: Hub, from: Id, routeId: Id, payload: bytes, now: int)
    requires Structure(cfg, s) && routeId in s.routes
    ensures routeId in Begin(cfg, s, from, routeId, payload, now, None).0.routes
       <==> Objection(cfg, s, from, routeId, payload, now, None) != Some(PeerUnavailable)
  {
    if Objection(cfg, s, from, routeId, payload, now, None).None? {
      ForwardErrors(cfg, s, from, routeId, payload, now, None);
    }
  }

  /** A route survives the sweep exactly when `forward` would not find it dead at that time, from either side. */
  lemma {:induction false} SweepAgreesWithForward(cfg: Config, s: Hub, from: Id, routeId: Id, payload: bytes, now: int)
    requires Structure(cfg, s)
    requires from in s.sessions && routeId in s.routes && PeerOf(s.routes[routeId], from).Some? && |payload| <= cfg.maxFrameBytes
    ensures routeId in Sweep(s, now).0.routes <==> Objection(cfg, s, from, routeId, payload, now, None) != Some(PeerUnavailable)
    ensures routeId in Sweep(s, now).0.routes <==> routeId in Begin(cfg, s, from, routeId, payload, now, None).0.routes
  {
    assert routeId in Sweep(s, now).0.routes <==> RouteLive(s, s.routes[routeId], now) by { SweptRoutes(cfg, s, now); }
    DeadRoute(cfg, s, from, routeId, payload, now);
    DeadRouteDropped(cfg, s, from, routeId, payload, now);
  }

  lemma {:induction false} FreshTwice(s: Hub, t: Hub, now: int)
    requires t.sessions == s.sessions && t.finished == s.finished
    requires t.presence == FreshPresence(s, now) && t.federated == FreshFederated(s, now)
    ensures FreshPresence(t, now) == t.presence && FreshFederated(t, now) == t.federated
  {
  }

  lemma {:induction false} LiveTwice(s: Hub, t: Hub, now: int)
    requires t == s.(routes := LiveRoutes(s, now))
    ensures LiveRoutes(t, now) == t.routes
  {
    forall r | r in t.routes ensures RouteLive(t, t.routes[r], now) {
      assert RouteLive(s, s.routes[r], now);
    }
  }

  lemma {:induction false} FixedPoint(s: Hub, now: int)
    requires FreshPresence(s, now) == s.presence && FreshFederated(s, now) == s.federated && LiveRoutes(s, now) == s.routes
    ensures Sweep(s, now) == (s, 0)
  {
    assert SweepPresence(s, now) == s;
    RemovedCount(s.presence, s.presence);
    RemovedCount(s.federated, s.federated);
  }

  /** A second sweep at the same time finds nothing. */
  lemma {:induction false} SweepIdempotent(s: Hub, now: int)
    ensures Sweep(Sweep(s, now).0, now) == (Sweep(s, now).0, 0)
  {
    FreshTwice(s, Sweep(s, now).0, now);
    LiveTwice(SweepPresence(s, now), Sweep(s, now).0, now);
    FixedPoint(Sweep(s, now).0, now);
  }
}
