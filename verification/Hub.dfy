/**
  The hub of internal/relay/hub.go as an object whose maps and counters change in place. Its ghost `trace` is the run of
  the system that it has been through, so what is proved of all runs is proved of the object.
*/
module Relay {
  import opened Bytes
  import opened ReplayWindows
  import M = HubModel
  import S = HubSystem
  import O = HubOutcomes
  import HubStructure
  import HubTraffic
  import HubReceive
  import HubReplay

  type Id = M.Id

  class Hub {
    const config: M.Config
    var closed: bool
    var sessions: map<Id, M.Session>
    var routes: map<Id, M.Route>
    var presence: map<Id, M.Presence>
    var federated: map<Id, M.Federated>
    var stats: M.Stats
    var finished: set<nat>
    var nextToken: nat
    var detached: map<M.Object, seq<M.Frame>>
    ghost var trace: seq<S.Op>

    function View(): M.Hub
      reads this
    {
      M.Hub(closed, sessions, routes, presence, federated, stats, finished, nextToken, detached)
    }

    /** The system the hub is part of: calls in flight, receivers, and what became of every frame. */
    ghost function System(): S.System
      reads this
    {
      S.Run(config, trace)
    }

    /** The hub is where its run leads. */
    ghost predicate Valid()
      reads this
    {
      View() == System().hub
    }

    constructor (config: M.Config)
      ensures Valid() && trace == [] && this.config == config
    {
      this.config := config;
      closed, sessions, routes, presence, federated := false, map[], map[], map[], map[];
      stats, finished, nextToken, detached, trace := M.Stats(0, 0, 0), {}, 0, map[], [];
    }

    /** What holds of the hub between any two calls. */
    lemma {:induction false} Promises()
      requires Valid()
      ensures HubStructure.Structure(config, View())
      ensures HubTraffic.QuotaSound(config) ==> HubTraffic.Accounts(config, System())
      ensures HubTraffic.Inboxes(config, System()) && HubTraffic.Counted(System()) && HubTraffic.LogsOk(System())
      ensures HubReceive.Retired(System()) && HubReceive.Receiving(System()) && HubReceive.Handed(System())
      ensures HubReplay.GuardedRun(config, trace) ==> HubReplay.Replay(config, System())
    {
      hide HubStructure.Structure, HubTraffic.Accounts, HubTraffic.Inboxes, HubTraffic.Counted, HubTraffic.LogsOk, HubReceive.Retired, HubReceive.Receiving, HubReceive.Handed, HubReplay.Replay;
      S.RunStructure(config, trace);
      if HubTraffic.QuotaSound(config) {
        HubTraffic.RunAccounts(config, trace);
      }
      HubTraffic.RunInboxes(config, trace);
      HubTraffic.RunCounted(config, trace);
      HubTraffic.RunLogs(config, trace);
      HubReceive.RunReceiving(config, trace);
      HubReceive.RunHanded(config, trace);
      if HubReplay.GuardedRun(config, trace) {
        HubReplay.RunReplay(config, trace);
      }
    }

    /** The locked section that has just ended becomes the last step of the run. */
    ghost method Record(op: S.Op)
      requires View() == S.Step(config, System(), op).hub
      modifies this`trace
      ensures Valid() && trace == old(trace) + [op] && System() == S.Step(config, old(System()), op)
    {
      trace := trace + [op];
      assert trace[..|trace| - 1] == old(trace);
    }

    predicate IsOpen(id: Id)
      reads this
    {
      id in sessions && sessions[id].token !in finished
    }

    // ---------------------------------------------------------------- sessions, presence and routes

    /** The handle comes back with the session attached and open, and the cap on sessions holds. */
    method Attach(id: Id) returns (answer: M.Answer, handle: M.Object)
      requires Valid()
      modifies this
      ensures Valid() && trace == old(trace) + [S.DoAttach(id)]
      ensures (View(), answer) == M.Attach(config, old(View()), id)
      ensures O.Attaches(config, old(View()), View(), id, answer)
      ensures answer == M.Done ==> IsOpen(id) && IsHandle(handle) && handle == M.Object(id, sessions[id].token)
      ensures |sessions| <= config.maxSessions
    {
      hide S.Run, O.Attaches;
      assert O.Attaches(config, View(), M.Attach(config, View(), id).0, id, M.Attach(config, View(), id).1) by {
        hide HubStructure.Structure, M.Attach;
        Promises();
        O.AttachExact(config, View(), id);
      }
      handle := M.Object(id, nextToken);
      if !M.ValidId(id) {
        answer := M.Refused(M.InvalidId);
      } else if closed {
        answer := M.Refused(M.Closed);
      } else if id in sessions {
        answer := M.Refused(M.SessionExists);
      } else if |sessions| >= config.maxSessions {
        answer := M.Refused(M.SessionLimit);
      } else {
        sessions := sessions[id := M.Session(nextToken, [], 0, 0, [], EmptyWindow())];
        nextToken := nextToken + 1;
        answer := M.Done;
      }
      Record(S.DoAttach(id));
      assert HubStructure.SessionsOk(config, View()) && HubTraffic.LogsOk(System()) by { Promises(); }
    }

    method Pair(routeId: Id, left: Id, right: Id) returns (answer: M.Answer)
      requires Valid()
      modifies this
      ensures Valid() && trace == old(trace) + [S.DoPair(routeId, left, right)]
      ensures (View(), answer) == M.Pair(old(View()), routeId, left, right)
      ensures O.Pairs(old(View()), View(), routeId, left, right, answer)
      ensures forall r :: r in old(routes) ==> r in routes && routes[r] == old(routes)[r]
    {
      hide S.Run, O.Pairs;
      O.PairExact(View(), routeId, left, right);
      if !M.ValidId(routeId) || left == right {
        answer := M.Refused(M.InvalidId);
      } else if closed {
        answer := M.Refused(M.Closed);
      } else if routeId in routes {
        answer := M.Refused(M.RouteExists);
      } else if left !in sessions || right !in sessions {
        answer := M.Refused(M.SessionNotFound);
      } else {
        routes := routes[routeId := M.Route(M.Endpoint(left, None, sessions[left].peerId), M.Endpoint(right, None, sessions[right].peerId))];
        answer := M.Done;
      }
      Record(S.DoPair(routeId, left, right));
    }

    method AnnounceFederatedPresence(peerId: Id, forwarder: Option<nat>, now: int) returns (answer: M.Answer)
      requires Valid()
      modifies this
      ensures Valid() && trace == old(trace) + [S.DoAnnounceFederated(peerId, forwarder, now)]
      ensures (View(), answer) == M.AnnounceFederated(config, old(View()), peerId, forwarder, now)
      ensures O.AnnouncesAfar(config, old(View()), View(), peerId, forwarder, now, answer)
    {
      hide S.Run, O.AnnouncesAfar;
      O.AnnounceFederatedExact(config, View(), peerId, forwarder, now);
      if !M.ValidId(peerId) {
        answer := M.Refused(M.InvalidId);
      } else if forwarder.None? {
        answer := M.Refused(M.InvalidConfig);
      } else if closed {
        answer := M.Refused(M.Closed);
      } else {
        federated := federated[peerId := M.Federated(forwarder, now + config.presenceTtl)];
        answer := M.Done;
      }
      Record(S.DoAnnounceFederated(peerId, forwarder, now));
    }

    /** Afterwards the record under `peerId` is the only one that names the session. */
    method AnnouncePresence(id: Id, peerId: Id, now: int) returns (answer: M.Answer)
      requires Valid()
      modifies this
      ensures Valid() && trace == old(trace) + [S.DoAnnounce(id, peerId, now)]
      ensures (View(), answer) == M.Announce(config, old(View()), id, peerId, now)
      ensures O.Announces(config, old(View()), View(), id, peerId, now, answer)
      ensures answer == M.Done ==> peerId in presence && forall p :: p in presence && presence[p].sessionId == id <==> p == peerId
    {
      hide S.Run, O.Announces;
      assert O.Announces(config, View(), M.Announce(config, View(), id, peerId, now).0, id, peerId, now, M.Announce(config, View(), id, peerId, now).1) by {
        hide HubStructure.Structure, M.Announce;
        Promises();
        O.AnnounceExact(config, View(), id, peerId, now);
      }
      if !M.ValidId(peerId) {
        answer := M.Refused(M.InvalidId);
      } else if closed {
        answer := M.Refused(M.Closed);
      } else if !IsOpen(id) {
        answer := M.Refused(M.SessionClosed);
      } else {
        var previous := sessions[id].peerId;
        if previous != [] && previous != peerId {
          presence := presence - {previous};
        }
        sessions := sessions[id := sessions[id].(peerId := peerId)];
        presence := presence[peerId := M.Presence(id, now + config.presenceTtl)];
        answer := M.Done;
      }
      Record(S.DoAnnounce(id, peerId, now));
      assert HubStructure.PresenceOk(View()) by { Promises(); }
    }

    method Heartbeat(id: Id, now: int) returns (answer: M.Answer)
      requires Valid()
      modifies this
      ensures Valid() && trace == old(trace) + [S.DoHeartbeat(id, now)]
      ensures (View(), answer) == M.Heartbeat(config, old(View()), id, now)
      ensures O.Beats(config, old(View()), View(), id, now, answer)
    {
      hide S.Run, O.Beats;
      assert O.Beats(config, View(), M.Heartbeat(config, View(), id, now).0, id, now, M.Heartbeat(config, View(), id, now).1) by {
        hide HubStructure.Structure, M.Heartbeat;
        Promises();
        O.HeartbeatExact(config, View(), id, now);
      }
      if closed {
        answer := M.Refused(M.Closed);
      } else if !IsOpen(id) {
        answer := M.Refused(M.SessionClosed);
      } else if sessions[id].peerId == [] {
        answer := M.Refused(M.PeerUnavailable);
      } else {
        presence := presence[sessions[id].peerId := M.Presence(id, now + config.presenceTtl)];
        answer := M.Done;
      }
      Record(S.DoHeartbeat(id, now));
    }

    method LookupLocalLocked(peerId: Id, now: int) returns (found: Option<M.Presence>)
      modifies this`presence
      ensures (View(), found) == M.LookupLocal(old(View()), peerId, now)
    {
      if peerId !in presence { return None; }
      var record := presence[peerId];
      if record.expiresAt <= now {
        presence := presence - {peerId};
        return None;
      }
      if !IsOpen(record.sessionId) {
        presence := presence - {peerId};
        return None;
      }
      return Some(record);
    }

    method LookupFederatedLocked(peerId: Id, now: int) returns (found: Option<M.Federated>)
      modifies this`federated
      ensures (View(), found) == M.LookupFederated(old(View()), peerId, now)
    {
      if peerId !in federated { return None; }
      var record := federated[peerId];
      if record.expiresAt <= now {
        federated := federated - {peerId};
        return None;
      }
      if record.forwarder.None? {
        federated := federated - {peerId};
        return None;
      }
      return Some(record);
    }

    method LookupLocked(peerId: Id, now: int) returns (sighting: M.Sighting)
      modifies this`presence, this`federated
      ensures (View(), sighting) == M.Lookup(old(View()), peerId, now)
    {
      var near := LookupLocalLocked(peerId, now);
      if near.Some? { return M.Local(near.value); }
      var remote := LookupFederatedLocked(peerId, now);
      if remote.None? { return M.Absent; }
      return M.Remote(remote.value);
    }

    /** A peer is found exactly when its record has not expired: a record never outlives its session. */
    method LookupLocal(peerId: Id, now: int) returns (found: Option<M.Presence>)
      requires Valid()
      modifies this
      ensures Valid() && trace == old(trace) + [S.DoLookupLocal(peerId, now)]
      ensures (View(), found) == M.LookupLocal(old(View()), peerId, now)
      ensures found == if peerId in old(presence) && old(presence)[peerId].expiresAt > now then Some(old(presence)[peerId]) else None
      ensures View() == old(View()).(presence := if found.Some? then old(presence) else old(presence) - {peerId})
    {
      hide S.Run, M.LookupLocal, HubStructure.Structure;
      Promises();
      O.LookupLocalExact(config, View(), peerId, now);
      found := LookupLocalLocked(peerId, now);
      Record(S.DoLookupLocal(peerId, now));
    }

    /** A local record wins over a federated one. */
    method Lookup(peerId: Id, now: int) returns (sighting: M.Sighting)
      requires Valid()
      modifies this
      ensures Valid() && trace == old(trace) + [S.DoLookup(peerId, now)]
      ensures (View(), sighting) == M.Lookup(old(View()), peerId, now)
      ensures O.Sights(old(View()), View(), peerId, now, sighting)
      ensures sighting.Local? <==> peerId in old(presence) && old(presence)[peerId].expiresAt > now
      ensures sighting.Remote? <==> !sighting.Local? && peerId in old(federated) && old(federated)[peerId].expiresAt > now
    {
      hide S.Run, HubStructure.Structure, M.Lookup;
      Promises();
      O.LookupExact(config, View(), peerId, now);
      sighting := LookupLocked(peerId, now);
      Record(S.DoLookup(peerId, now));
    }

    method Rendezvous(from: Id, routeId: Id, peerId: Id, now: int) returns (answer: M.Answer)
      requires Valid()
      modifies this
      ensures Valid() && trace == old(trace) + [S.DoRendezvous(from, routeId, peerId, now)]
      ensures (View(), answer) == M.Rendezvous(old(View()), from, routeId, peerId, now)
      ensures O.Meets(old(View()), View(), from, routeId, peerId, now, answer)
      ensures forall r :: r in old(routes) ==> r in routes && routes[r] == old(routes)[r]
    {
      hide S.Run, O.Meets;
      assert O.Meets(View(), M.Rendezvous(View(), from, routeId, peerId, now).0, from, routeId, peerId, now, M.Rendezvous(View(), from, routeId, peerId, now).1) by {
        hide HubStructure.Structure, M.Rendezvous;
        Promises();
        O.RendezvousExact(config, View(), from, routeId, peerId, now);
      }
      answer := RendezvousLocked(from, routeId, peerId, now);
      HubStructure.LookupShrinks(old(View()), peerId, now);
      Record(S.DoRendezvous(from, routeId, peerId, now));
    }

    method RendezvousLocked(from: Id, routeId: Id, peerId: Id, now: int) returns (answer: M.Answer)
      modifies this`routes, this`presence, this`federated
      ensures (View(), answer) == M.Rendezvous(old(View()), from, routeId, peerId, now)
    {
      if !M.ValidId(routeId) { return M.Refused(M.InvalidId); }
      if !M.ValidId(peerId) { return M.Refused(M.InvalidId); }
      if closed { return M.Refused(M.Closed); }
      if from !in sessions { return M.Refused(M.SessionClosed); }
      if routeId in routes {
        var existing := routes[routeId];
        if existing.left.sessionId == from && existing.right.peerId == peerId { return M.Done; }
        return M.Refused(M.RouteExists);
      }
      var left := M.Endpoint(from, None, sessions[from].peerId);
      var sighting := LookupLocked(peerId, now);
      match sighting
      case Local(record) =>
        routes := routes[routeId := M.Route(left, M.Endpoint(record.sessionId, None, peerId))];
        return M.Done;
      case Remote(record) =>
        routes := routes[routeId := M.Route(left, M.Endpoint([], record.forwarder, peerId))];
        return M.Done;
      case Absent => return M.Refused(M.PeerUnavailable);
    }

    // ---------------------------------------------------------------- the sweep

    static lemma {:induction false} RemoveOne<V>(m: map<Id, V>, p: Id)
      requires p in m
      ensures |m - {p}| + 1 == |m| && (m - {p}).Keys == m.Keys - {p}
    {
      assert (m - {p}).Keys == m.Keys - {p};
    }

    static lemma {:induction false} FreshIs(s: M.Hub, records: map<Id, M.Presence>, now: int)
      requires forall p :: p in records <==> p in s.presence && M.IsFresh(s, s.presence[p], now)
      requires forall p :: p in records ==> records[p] == s.presence[p]
      ensures records == M.FreshPresence(s, now)
    {
    }

    static lemma {:induction false} BridgedIs(s: M.Hub, records: map<Id, M.Federated>, now: int)
      requires forall p :: p in records <==> p in s.federated && M.IsBridged(s.federated[p], now)
      requires forall p :: p in records ==> records[p] == s.federated[p]
      ensures records == M.FreshFederated(s, now)
    {
    }

    static lemma {:induction false} LiveIs(s: M.Hub, kept: map<Id, M.Route>, now: int)
      requires forall r :: r in kept <==> r in s.routes && M.RouteLive(s, s.routes[r], now)
      requires forall r :: r in kept ==> kept[r] == s.routes[r]
      ensures kept == M.LiveRoutes(s, now)
    {
      hide M.RouteLive;
    }

    static lemma {:induction false} SweepParts(before: M.Hub, swept: M.Hub, after: M.Hub, removed: nat, now: int)
      requires swept == M.SweepPresence(before, now) && after == swept.(routes := M.LiveRoutes(swept, now))
      requires removed == M.Missing(swept.presence, before.presence) + M.Missing(swept.federated, before.federated)
      ensures M.Sweep(before, now) == (after, removed)
    {
      assert M.Sweep(before, now).1 == removed;
      assert M.Sweep(before, now).0 == after;
    }

    static lemma {:induction false} FederatedUnaffected(s: M.Hub, t: M.Hub, now: int)
      requires t.federated == s.federated
      ensures M.FreshFederated(t, now) == M.FreshFederated(s, now)
    {
    }

    method SweepPresence(now: int) returns (removed: nat)
      modifies this`presence
      ensures presence == M.FreshPresence(old(View()), now)
      ensures removed == M.Missing(presence, old(presence))
    {
      hide M.FreshPresence, M.Missing;
      ghost var before := View();
      removed := 0;
      var pending := presence.Keys;
      while pending != {}
        invariant pending <= presence.Keys <= before.presence.Keys
        invariant forall p :: p in presence <==> p in before.presence && (p in pending || M.IsFresh(before, before.presence[p], now))
        invariant forall p :: p in presence ==> presence[p] == before.presence[p]
        invariant removed + |presence| == |before.presence|
        decreases |pending|
      {
        var p :| p in pending;
        pending := pending - {p};
        var record := presence[p];
        if !IsOpen(record.sessionId) || record.expiresAt <= now {
          RemoveOne(presence, p);
          presence := presence - {p};
          removed := removed + 1;
        }
      }
      assert removed == M.Missing(presence, before.presence) by { HubStructure.RemovedCount(presence, before.presence); }
      FreshIs(before, presence, now);
    }

    method SweepFederated(now: int) returns (removed: nat)
      modifies this`federated
      ensures federated == M.FreshFederated(old(View()), now)
      ensures removed == M.Missing(federated, old(federated))
    {
      hide M.FreshFederated, M.Missing;
      ghost var before := View();
      removed := 0;
      var pending := federated.Keys;
      while pending != {}
        invariant pending <= federated.Keys <= before.federated.Keys
        invariant forall p :: p in federated <==> p in before.federated && (p in pending || M.IsBridged(before.federated[p], now))
        invariant forall p :: p in federated ==> federated[p] == before.federated[p]
        invariant removed + |federated| == |before.federated|
        decreases |pending|
      {
        var p :| p in pending;
        pending := pending - {p};
        var record := federated[p];
        if record.forwarder.None? || record.expiresAt <= now {
          RemoveOne(federated, p);
          federated := federated - {p};
          removed := removed + 1;
        }
      }
      assert removed == M.Missing(federated, before.federated) by { HubStructure.RemovedCount(federated, before.federated); }
      BridgedIs(before, federated, now);
    }

    method EndpointLive(e: M.Endpoint, now: int) returns (live: bool)
      ensures live == M.EndpointLive(View(), e, now)
    {
      if e.sessionId != [] {
        if !IsOpen(e.sessionId) { return false; }
        if e.peerId == [] { return true; }
        if e.peerId !in presence { return false; }
        var record := presence[e.peerId];
        if record.sessionId != e.sessionId || record.expiresAt <= now { return false; }
        return sessions[e.sessionId].peerId == e.peerId;
      }
      if e.forwarder.None? || e.peerId == [] { return false; }
      if e.peerId !in federated { return false; }
      return federated[e.peerId].forwarder.Some? && federated[e.peerId].expiresAt > now;
    }

    method RouteLive(route: M.Route, now: int) returns (live: bool)
      ensures live == M.RouteLive(View(), route, now)
    {
      live := EndpointLive(route.left, now);
      if live {
        live := EndpointLive(route.right, now);
      }
    }

    lemma {:induction false} LiveUnaffected(s: M.Hub, t: M.Hub, route: M.Route, now: int)
      requires t == s.(routes := t.routes)
      ensures M.RouteLive(t, route, now) == M.RouteLive(s, route, now)
    {
    }

    method SweepRoutes(now: int)
      modifies this`routes
      ensures routes == M.LiveRoutes(old(View()), now)
    {
      hide M.RouteLive, M.LiveRoutes;
      ghost var before := View();
      var pending := routes.Keys;
      while pending != {}
        invariant pending <= routes.Keys
        invariant forall r :: r in routes <==> r in before.routes && (r in pending || M.RouteLive(before, before.routes[r], now))
        invariant forall r :: r in routes ==> routes[r] == before.routes[r]
        decreases |pending|
      {
        var r :| r in pending;
        pending := pending - {r};
        LiveUnaffected(before, View(), routes[r], now);
        var live := RouteLive(routes[r], now);
        if !live {
          routes := routes - {r};
        }
      }
      LiveIs(before, routes, now);
    }

    method SweepRecords(now: int) returns (removed: nat)
      modifies this`presence, this`federated
      ensures View() == M.SweepPresence(old(View()), now)
      ensures removed == M.Missing(presence, old(presence)) + M.Missing(federated, old(federated))
    {
      ghost var before := View();
      var local := SweepPresence(now);
      FederatedUnaffected(before, View(), now);
      var remote := SweepFederated(now);
      return local + remote;
    }

    method SweepLocked(now: int) returns (removed: nat)
      modifies this`presence, this`federated, this`routes
      ensures M.Sweep(old(View()), now) == (View(), removed)
    {
      ghost var before := View();
      removed := SweepRecords(now);
      ghost var swept := View();
      SweepRoutes(now);
      SweepParts(before, swept, View(), removed, now);
    }

    /** A frame can pass either way. */
    static predicate Passable(s: M.Hub, route: M.Route, now: int) {
      O.Reachable(s, route.left, now) && O.Reachable(s, route.right, now)
    }

    static lemma {:induction false} PassableRoutes(config: M.Config, s: M.Hub, now: int)
      requires HubStructure.Structure(config, s)
      ensures (map r | r in s.routes && M.RouteLive(s, s.routes[r], now) :: s.routes[r]) == map r | r in s.routes && Passable(s, s.routes[r], now) :: s.routes[r]
    {
      forall r | r in s.routes ensures M.RouteLive(s, s.routes[r], now) <==> Passable(s, s.routes[r], now) {
        O.LiveExact(config, s, s.routes[r], now);
      }
      hide M.RouteLive, O.Reachable, HubStructure.Structure;
    }

    /** The unexpired records stay and the live routes stay; the count is of the records that went. */
    method SweepExpired(now: int) returns (removed: nat)
      requires Valid()
      modifies this
      ensures Valid() && trace == old(trace) + [S.DoSweep(now)]
      ensures presence == map p | p in old(presence) && old(presence)[p].expiresAt > now :: old(presence)[p]
      ensures federated == map p | p in old(federated) && old(federated)[p].expiresAt > now :: old(federated)[p]
      ensures routes == map r | r in old(routes) && Passable(old(View()), old(routes)[r], now) :: old(routes)[r]
      ensures removed == |old(presence)| + |old(federated)| - |presence| - |federated|
      ensures View() == old(View()).(presence := presence, federated := federated, routes := routes)
    {
      hide S.Run, M.Sweep, HubStructure.Structure, M.RouteLive, Passable;
      Promises();
      HubStructure.SweepExact(config, View(), now);
      PassableRoutes(config, View(), now);
      removed := SweepLocked(now);
      Record(S.DoSweep(now));
    }

    // ---------------------------------------------------------------- forwarding

    method Objection(from: Id, routeId: Id, payload: bytes, now: int, delivery: Option<M.Delivery>) returns (error: Option<M.Error>)
      ensures error == M.Objection(config, View(), from, routeId, payload, now, delivery)
    {
      if delivery.Some? && !M.ValidId(delivery.value.id) { return Some(M.InvalidId); }
      if |payload| > config.maxFrameBytes { return Some(M.FrameTooLarge); }
      if closed { return Some(M.Closed); }
      if !IsOpen(from) { return Some(M.SessionClosed); }
      var source := sessions[from];
      if routeId !in routes || M.PeerOf(routes[routeId], from).None? { return Some(M.NoRoute); }
      var live := RouteLive(routes[routeId], now);
      if !live { return Some(M.PeerUnavailable); }
      if delivery.Some? {
        var key := M.KeyOf(source, delivery.value);
        if key in source.deliveries.entries {
          if source.deliveries.entries[key] == delivery.value.digest { return Some(M.DuplicateDelivery); }
          return Some(M.DeliveryConflict);
        }
      }
      var nextFrames, nextBytes := M.Add64(source.frames, 1), M.Add64(source.bytes, |payload|);
      if nextFrames > config.maxFrames || nextBytes > config.maxBytes { return Some(M.QuotaExceeded); }
      return None;
    }

    method BeginLocked(from: Id, routeId: Id, payload: bytes, now: int, delivery: Option<M.Delivery>) returns (begun: M.Begun)
      modifies this`sessions, this`routes, this`stats
      ensures (View(), begun) == M.Begin(config, old(View()), from, routeId, payload, now, delivery)
    {
      var error := Objection(from, routeId, payload, now, delivery);
      if error.Some? {
        if error.value == M.PeerUnavailable {
          routes := routes - {routeId};
        }
        return M.NotSent(error.value);
      }
      var call := M.CallFor(View(), from, routeId, payload, delivery);
      begun := Dispatch(call, M.PeerOf(routes[routeId], from).value, M.Frame(routeId, sessions[from].peerId, payload));
    }

    /**
      `forward` up to the point where it drops the mutex or returns: an error of one of its tests, or a full inbox, which
      is the only thing that can stop a frame after them. A reserved call is recorded as in flight.
    */
    method ForwardBegin(from: Id, routeId: Id, payload: bytes, now: int, delivery: Option<M.Delivery>) returns (begun: M.Begun)
      requires Valid()
      modifies this
      ensures Valid() && trace == old(trace) + [S.DoBegin(from, routeId, payload, now, delivery)]
      ensures (View(), begun) == M.Begin(config, old(View()), from, routeId, payload, now, delivery)
      ensures O.FirstCause(O.ForwardCauses(config, old(View()), from, routeId, payload, now, delivery)) == if begun.NotSent? then Some(begun.error) else None
      ensures O.Forwards(old(View()), View(), from, routeId, payload, begun)
      ensures !begun.NotSent? ==> routeId in old(routes) && from in old(sessions) && begun.frame == M.Frame(routeId, old(sessions)[from].peerId, payload)
      ensures begun.Queued? && from == old(routes)[routeId].left.sessionId ==> Extended(old(sessions), sessions, old(routes)[routeId].right.sessionId, begun.frame)
      ensures begun.Queued? && from != old(routes)[routeId].left.sessionId ==>
                from == old(routes)[routeId].right.sessionId && Extended(old(sessions), sessions, old(routes)[routeId].left.sessionId, begun.frame)
      ensures begun.Reserved? ==>
                && (if from == old(routes)[routeId].left.sessionId then old(routes)[routeId].right.forwarder == Some(begun.forwarder)
                    else from == old(routes)[routeId].right.sessionId && old(routes)[routeId].left.forwarder == Some(begun.forwarder))
                && sessions.Keys == old(sessions).Keys && forall id :: id in sessions ==> sessions[id].inbox == old(sessions)[id].inbox
      ensures var records := old(System().records);
              System().records == match begun
                case NotSent(_) => records
                case Queued(call, _, _) => records + [S.Record(call, S.Sent)]
                case Reserved(call, _, _) => records + [S.Record(call, S.InFlight)]
    {
      hide S.Run, M.Begin, HubStructure.Structure, O.Forwards, O.ForwardCauses, O.FirstCause;
      ghost var before := View();
      assert HubStructure.Structure(config, before) by { Promises(); }
      O.ForwardExact(config, before, from, routeId, payload, now, delivery);
      begun := BeginLocked(from, routeId, payload, now, delivery);
      if !begun.NotSent? {
        FrameGoesAcross(before, View(), from, routeId, payload, begun);
      }
      Record(S.DoBegin(from, routeId, payload, now, delivery));
    }

    /** The frame is the last of that session's inbox, and no other inbox has changed. */
    static ghost predicate Extended(before: map<Id, M.Session>, after: map<Id, M.Session>, to: Id, frame: M.Frame) {
      && to in before && after.Keys == before.Keys
      && after[to].inbox == before[to].inbox + [frame]
      && forall id :: id in before && id != to ==> after[id].inbox == before[id].inbox
    }

    lemma {:induction false} FrameGoesAcross(s: M.Hub, s': M.Hub, from: Id, routeId: Id, payload: bytes, begun: M.Begun)
      requires O.Forwards(s, s', from, routeId, payload, begun) && !begun.NotSent?
      ensures routeId in s.routes && from in s.sessions && begun.frame == M.Frame(routeId, s.sessions[from].peerId, payload)
      ensures var left, right := s.routes[routeId].left, s.routes[routeId].right;
              && (begun.Queued? ==> if from == left.sessionId then Extended(s.sessions, s'.sessions, right.sessionId, begun.frame)
                                    else from == right.sessionId && Extended(s.sessions, s'.sessions, left.sessionId, begun.frame))
              && (begun.Reserved? ==> if from == left.sessionId then right.forwarder == Some(begun.forwarder)
                                      else from == right.sessionId && left.forwarder == Some(begun.forwarder))
              && (begun.Reserved? ==> s'.sessions.Keys == s.sessions.Keys && forall id :: id in s.sessions ==> s'.sessions[id].inbox == s.sessions[id].inbox)
    {
    }

    method Dispatch(call: M.Call, to: M.Endpoint, frame: M.Frame) returns (begun: M.Begun)
      requires call.from in sessions
      modifies this`sessions, this`routes, this`stats
      ensures (View(), begun) == M.Dispatch(config, old(View()), call, to, frame)
    {
      if to.sessionId != [] {
        if !IsOpen(to.sessionId) {
          routes := routes - {call.routeId};
          return M.NotSent(M.SessionClosed);
        }
        var destination := sessions[to.sessionId];
        if |destination.inbox| >= config.maxQueueDepth {
          stats := stats.(droppedFrames := M.Add64(stats.droppedFrames, 1));
          return M.NotSent(M.Backpressure);
        }
        sessions := sessions[to.sessionId := destination.(inbox := destination.inbox + [frame])];
        var source := sessions[call.from];
        if call.delivered.Some? {
          source := source.(deliveries := Remembered(source.deliveries, config.maxReplay, call.delivered.value));
        }
        sessions := sessions[call.from := M.Charge(source, call.size)];
        stats := M.CountForwarded(stats, call.size);
        return M.Queued(call, destination.token, frame);
      }
      if to.forwarder.None? { return M.NotSent(M.NoRoute); }
      sessions := sessions[call.from := M.Charge(sessions[call.from], call.size)];
      return M.Reserved(call, to.forwarder.value, frame);
    }

    method EndLocked(call: M.Call, outcome: M.Outcome)
      modifies this`sessions, this`routes, this`stats
      ensures View() == M.End(config, old(View()), call, outcome)
    {
      var attached := call.from in sessions && sessions[call.from].token == call.token;
      if outcome != M.Accepted {
        if attached {
          sessions := sessions[call.from := M.Refund(sessions[call.from], call.size)];
        }
        if outcome == M.RouteFailure {
          routes := routes - {call.routeId};
        }
        return;
      }
      if attached && call.delivered.Some? {
        var source := sessions[call.from];
        sessions := sessions[call.from := source.(deliveries := Remembered(source.deliveries, config.maxReplay, call.delivered.value))];
      }
      stats := M.CountForwarded(stats, call.size);
    }

    /**
      `forward` from the point where it takes the mutex again, for the call in flight that is entry `record` of the
      history. A failure gives the reservation back exactly: the counters never saturate.
    */
    method ForwardEnd(call: M.Call, outcome: M.Outcome, ghost record: nat)
      requires Valid()
      requires record < |System().records| && System().records[record] == S.Record(call, S.InFlight)
      modifies this
      ensures Valid() && trace == old(trace) + [S.DoEnd(record, outcome)]
      ensures View() == M.End(config, old(View()), call, outcome)
      ensures O.Settles(old(View()), View(), call, outcome)
      ensures System().records == old(System().records)[record := S.Record(call, if outcome == M.Accepted then S.Sent else S.Failed)]
      ensures HubTraffic.QuotaSound(config) && outcome != M.Accepted && old(M.StillAttached(View(), call)) ==>
                && call.from in sessions
                && sessions[call.from].frames == old(sessions)[call.from].frames - 1
                && sessions[call.from].bytes == old(sessions)[call.from].bytes - call.size
    {
      hide S.Run;
      if HubTraffic.QuotaSound(config) && outcome != M.Accepted && M.StillAttached(View(), call) {
        HubTraffic.RollbackExact(config, trace, record);
      }
      hide HubTraffic.QuotaSound, O.Settles;
      O.EndExact(config, View(), call, outcome);
      EndLocked(call, outcome);
      Record(S.DoEnd(record, outcome));
    }

    method InjectLocked(routeId: Id, payload: bytes, sender: Id) returns (injected: M.Injected)
      modifies this`sessions, this`routes, this`stats
      ensures (View(), injected) == M.Inject(config, old(View()), routeId, payload, sender)
    {
      if |payload| > config.maxFrameBytes { return M.NotInjected(M.FrameTooLarge); }
      if closed { return M.NotInjected(M.Closed); }
      if routeId !in routes { return M.NotInjected(M.NoRoute); }
      var to := M.LocalSide(routes[routeId]);
      if to.None? { return M.NotInjected(M.NoRoute); }
      if !IsOpen(to.value) {
        routes := routes - {routeId};
        return M.NotInjected(M.SessionClosed);
      }
      var destination := sessions[to.value];
      if |destination.inbox| >= config.maxQueueDepth {
        stats := stats.(droppedFrames := M.Add64(stats.droppedFrames, 1));
        return M.NotInjected(M.Backpressure);
      }
      var frame := M.Frame(routeId, sender, payload);
      sessions := sessions[to.value := destination.(inbox := destination.inbox + [frame])];
      stats := M.CountForwarded(stats, |payload|);
      return M.Injected(destination.token, frame);
    }

    /** A frame from a remote relay, which charges nobody. */
    method DeliverFromFederated(routeId: Id, payload: bytes, sender: Id) returns (injected: M.Injected)
      requires Valid()
      modifies this
      ensures Valid() && trace == old(trace) + [S.DoInject(routeId, payload, sender)]
      ensures (View(), injected) == M.Inject(config, old(View()), routeId, payload, sender)
      ensures O.FirstCause(O.DeliverCauses(config, old(View()), routeId, payload)) == if injected.NotInjected? then Some(injected.error) else None
      ensures O.Delivers(old(View()), View(), routeId, payload, sender, injected)
      ensures injected.Injected? ==>
                && routeId in old(routes) && injected.frame == M.Frame(routeId, sender, payload)
                && Extended(old(sessions), sessions, old(routes)[routeId].left.sessionId, injected.frame)
      ensures System().records == old(System().records)
    {
      hide S.Run, M.Inject, HubStructure.Structure, O.DeliverCauses, O.FirstCause;
      ghost var before := View();
      assert HubStructure.Structure(config, before) by { Promises(); }
      O.DeliverExact(config, before, routeId, payload, sender);
      injected := InjectLocked(routeId, payload, sender);
      Record(S.DoInject(routeId, payload, sender));
    }

    // ---------------------------------------------------------------- receiving

    /** A handle that Attach gave out. */
    ghost predicate IsHandle(handle: M.Object)
      reads this
    {
      handle.token < |System().logs| && System().logs[handle.token].id == handle.id
    }

    /** Receive, first test: the handle must be open. The receiver is the last of the history. */
    method ReceiveBegin(handle: M.Object) returns (open: bool)
      requires Valid() && IsHandle(handle)
      modifies this`trace
      ensures Valid() && trace == old(trace) + [S.DoReceive(handle.token)]
      ensures open <==> handle.token !in finished
      ensures System().receivers == old(System().receivers) + if open then [S.Checked(handle.token)] else []
    {
      hide S.Run;
      open := handle.token !in finished;
      Record(S.DoReceive(handle.token));
    }

    /**
      sessionState, for receiver `r`: the session found under the identifier is the handle's own, unless the handle has
      been closed meanwhile.
    */
    method SessionState(handle: M.Object, ghost r: nat) returns (found: Option<M.Object>)
      requires Valid() && IsHandle(handle)
      requires r < |System().receivers| && System().receivers[r] == S.Checked(handle.token)
      modifies this`trace
      ensures Valid() && trace == old(trace) + [S.DoLook(r)]
      ensures found.None? <==> closed || handle.id !in sessions
      ensures System().receivers == old(System().receivers)[r := if found.None? then S.Ended(handle.token) else S.Waiting(handle.token, found.value.token)]
      ensures found.Some? ==> IsHandle(found.value) && found.value.id == handle.id && (found.value == handle || handle.token in finished)
    {
      hide S.Run;
      assert HubStructure.IdentitiesOk(View()) && HubTraffic.LogsOk(System()) && HubReceive.Retired(System()) by {
        Promises();
        hide HubTraffic.LogsOk, HubReceive.Retired, HubStructure.IdentitiesOk;
      }
      found := if closed || !IsOpen(handle.id) then None else Some(M.Object(handle.id, sessions[handle.id].token));
      Record(S.DoLook(r));
    }

    /** The select chooses the inbox of session object `o`: the oldest frame leaves it. */
    method TakeFrame(o: M.Object, ghost r: nat) returns (frame: M.Frame)
      requires Valid() && IsHandle(o) && M.InboxOf(View(), o) != []
      requires r < |System().receivers| && System().receivers[r].Waiting? && System().receivers[r].token == o.token
      modifies this
      ensures Valid() && trace == old(trace) + [S.DoTake(r)]
      ensures old(M.InboxOf(View(), o)) == [frame] + M.InboxOf(View(), o)
      ensures forall other :: other != o ==> M.InboxOf(View(), other) == old(M.InboxOf(View(), other))
      ensures System().receivers == old(System().receivers)[r := S.Took(old(System().receivers[r]).handle, o.token, frame)]
    {
      hide S.Run;
      frame := TakeLocked(o);
      TakeLeaves(old(View()), o);
      Record(S.DoTake(r));
    }

    method TakeLocked(o: M.Object) returns (frame: M.Frame)
      requires M.InboxOf(View(), o) != []
      modifies this`sessions, this`detached
      ensures View() == M.Take(old(View()), o) && frame == old(M.InboxOf(View(), o))[0]
    {
      if o.id in sessions && sessions[o.id].token == o.token {
        var session := sessions[o.id];
        frame := session.inbox[0];
        sessions := sessions[o.id := session.(inbox := session.inbox[1..])];
      } else {
        frame := detached[o][0];
        detached := detached[o := detached[o][1..]];
      }
    }

    static lemma {:induction false} TakeLeaves(s: M.Hub, o: M.Object)
      requires M.InboxOf(s, o) != []
      ensures M.InboxOf(s, o) == [M.InboxOf(s, o)[0]] + M.InboxOf(M.Take(s, o), o)
      ensures forall other :: other != o ==> M.InboxOf(M.Take(s, o), other) == M.InboxOf(s, other)
    {
    }

    /** The second test: the frame is returned if and only if the handle is open, and then it is one of its own session. */
    method ReceiveEnd(handle: M.Object, o: M.Object, frame: M.Frame, ghost r: nat) returns (result: Option<M.Frame>)
      requires Valid()
      requires r < |System().receivers| && System().receivers[r] == S.Took(handle.token, o.token, frame)
      modifies this`trace
      ensures Valid() && trace == old(trace) + [S.DoTest(r)]
      ensures result == if handle.token in finished then None else Some(frame)
      ensures result.Some? ==> handle.token == o.token
    {
      hide S.Run;
      result := if handle.token in finished then None else Some(frame);
      Record(S.DoTest(r));
      assert HubReceive.ReceiverOk(System(), System().receivers[r]) by { Promises(); }
    }

    // ---------------------------------------------------------------- ending

    method DetachLocked(id: Id)
      modifies this`sessions, this`routes, this`presence, this`finished, this`detached
      ensures View() == M.Detach(old(View()), id)
    {
      if id !in sessions { return; }
      var session := sessions[id];
      finished := finished + {session.token};
      if session.peerId != [] {
        presence := presence - {session.peerId};
      }
      sessions := sessions - {id};
      detached := detached[M.Object(id, session.token) := session.inbox];
      DropRoutes(id);
    }

    /** Nothing that names the session is left, but its inbox is not drained. */
    method Detach(id: Id)
      requires Valid()
      modifies this
      ensures Valid() && trace == old(trace) + [S.DoDetach(id)]
      ensures View() == M.Detach(old(View()), id)
      ensures O.Detaches(old(View()), View(), id)
      ensures id !in sessions && forall p :: p in presence ==> presence[p].sessionId != id
      ensures id != [] ==> forall r :: r in routes ==> !M.Touches(routes[r], id)
      ensures HubTraffic.SameInboxes(old(View()), View())
    {
      hide S.Run, HubTraffic.SameInboxes, O.Detaches;
      assert O.Detaches(View(), M.Detach(View(), id), id) by {
        hide HubStructure.Structure, M.Detach;
        Promises();
        O.DetachExact(config, View(), id);
      }
      HubTraffic.DetachInboxes(View(), id);
      DetachLocked(id);
      Record(S.DoDetach(id));
      assert HubStructure.PresenceOk(View()) && HubStructure.RoutesOk(View()) by { Promises(); }
    }

    method DropRoutes(id: Id)
      modifies this`routes
      ensures routes == M.RoutesWithout(old(routes), id)
    {
      var pending := routes.Keys;
      while pending != {}
        invariant pending <= routes.Keys
        invariant routes == map r | r in old(routes) && (r in pending || !M.Touches(old(routes)[r], id)) :: old(routes)[r]
        decreases |pending|
      {
        var r :| r in pending;
        pending := pending - {r};
        if routes[r].left.sessionId == id || routes[r].right.sessionId == id {
          routes := routes - {r};
        }
      }
    }

    method FinishAll()
      modifies this`finished
      ensures finished == old(finished) + M.Tokens(sessions)
    {
      var pending := sessions.Keys;
      while pending != {}
        invariant pending <= sessions.Keys
        invariant finished == old(finished) + set id | id in sessions && id !in pending :: sessions[id].token
        decreases |pending|
      {
        var id :| id in pending;
        ghost var closedSoFar := set other | other in sessions && other !in pending :: sessions[other].token;
        pending := pending - {id};
        finished := finished + {sessions[id].token};
        assert (set other | other in sessions && other !in pending :: sessions[other].token) == closedSoFar + {sessions[id].token};
      }
      assert finished == old(finished) + M.Tokens(sessions);
    }

    method CloseLocked()
      modifies this
      ensures View() == M.Close(old(View())) && trace == old(trace)
    {
      if closed { return; }
      closed := true;
      FinishAll();
      detached := detached + M.Inboxes(sessions);
      sessions, routes, presence, federated := map[], map[], map[], map[];
    }

    static lemma {:induction false} CloseEmpties(config: M.Config, s: M.Hub)
      requires HubStructure.Structure(config, s)
      ensures var s' := M.Close(s);
              s'.closed && s'.sessions == map[] && s'.routes == map[] && s'.presence == map[] && s'.federated == map[]
    {
    }

    static lemma {:induction false} NoneOpen(x: S.System)
      requires HubReceive.Retired(x) && x.hub.sessions == map[]
      ensures forall t :: 0 <= t < |x.logs| ==> t in x.hub.finished
    {
    }

    /** Every handle that was ever given out is closed and the hub is empty, but no inbox is drained. */
    method Close()
      requires Valid()
      modifies this
      ensures Valid() && trace == old(trace) + [S.DoClose]
      ensures View() == M.Close(old(View()))
      ensures closed && sessions == map[] && routes == map[] && presence == map[] && federated == map[]
      ensures forall handle :: IsHandle(handle) ==> handle.token in finished
      ensures HubTraffic.SameInboxes(old(View()), View())
    {
      hide S.Run, M.Close, HubReceive.Retired, HubStructure.Structure, HubTraffic.SameInboxes;
      HubTraffic.CloseInboxes(View());
      Promises();
      CloseEmpties(config, View());
      CloseLocked();
      Record(S.DoClose);
      Promises();
      hide *;
      NoneOpen(System());
    }
  }
}
