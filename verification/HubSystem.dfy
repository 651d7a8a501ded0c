/**
  Runs of the hub: every interleaving of its locked sections with federated calls in flight and receivers
  waiting, together with the history that the promises about traffic are stated over.
*/
module HubSystem {
  import opened Bytes
  import opened ReplayWindows
  import opened HubModel
  import opened HubStructure

  /** InFlight between the two locked sections of `forward`; Sent once the frame was queued or accepted remotely. */
  datatype Status = InFlight | Sent | Failed

  /** One entry for each frame that was charged to a session. */
  datatype Record = Record(call: Call, status: Status)

  /**
    One call of Receive on the handle `handle`: past its first test; waiting on the inbox of session object `token`; with a
    frame in hand and the second test to come; and its ends: a frame, a closed session, or a cancelled context.
  */
  datatype Receiver =
    | Checked(handle: nat)
    | Waiting(handle: nat, token: nat)
    | Took(handle: nat, token: nat, frame: Frame)
    | Returned(handle: nat, token: nat, frame: Frame)
    | Lost(handle: nat, token: nat, frame: Frame)
    | Ended(handle: nat)
    | Cancelled(handle: nat)

  /** What happened to one session object since it was attached. */
  datatype Log = Log(id: Id, accepted: seq<Frame>, taken: seq<Frame>, delivered: seq<Delivered>)

  datatype System = System(hub: Hub, records: seq<Record>, receivers: seq<Receiver>, injected: seq<uint64>, logs: seq<Log>)

  function Init(): System { System(NewHub(), [], [], [], []) }

  datatype Op =
    | DoAttach(id: Id)
    | DoPair(routeId: Id, left: Id, right: Id)
    | DoAnnounceFederated(peerId: Id, forwarder: Option<nat>, now: int)
    | DoAnnounce(id: Id, peerId: Id, now: int)
    | DoHeartbeat(id: Id, now: int)
    | DoLookup(peerId: Id, now: int)
    | DoLookupLocal(peerId: Id, now: int)
    | DoRendezvous(from: Id, routeId: Id, peerId: Id, now: int)
    | DoSweep(now: int)
    | DoBegin(from: Id, routeId: Id, payload: bytes, now: int, delivery: Option<Delivery>)
    | DoEnd(record: nat, outcome: Outcome)
    | DoInject(routeId: Id, payload: bytes, sender: Id)
    | DoReceive(handle: nat)
    | DoLook(receiver: nat)
    | DoTake(receiver: nat)
    | DoTest(receiver: nat)
    | DoDone(receiver: nat)
    | DoCancel(receiver: nat)
    | DoDetach(id: Id)
    | DoClose

  function Accept(logs: seq<Log>, token: nat, frame: Frame): seq<Log> {
    if token < |logs| then logs[token := logs[token].(accepted := logs[token].accepted + [frame])] else logs
  }

  function Deliver(logs: seq<Log>, token: nat, d: Option<Delivered>): seq<Log> {
    if token < |logs| && d.Some? then logs[token := logs[token].(delivered := logs[token].delivered + [d.value])] else logs
  }

  function StepAttach(cfg: Config, x: System, id: Id): System {
    var (hub, answer) := Attach(cfg, x.hub, id);
    x.(hub := hub, logs := if answer == Done then x.logs + [Log(id, [], [], [])] else x.logs)
  }

  function StepBegin(cfg: Config, x: System, from: Id, routeId: Id, payload: bytes, now: int, delivery: Option<Delivery>): System {
    match Begin(cfg, x.hub, from, routeId, payload, now, delivery)
    case (hub, NotSent(_)) => x.(hub := hub)
    case (hub, Queued(call, to, frame)) =>
      x.(hub := hub, records := x.records + [Record(call, Sent)],
         logs := Deliver(Accept(x.logs, to, frame), call.token, call.delivered))
    case (hub, Reserved(call, _, _)) => x.(hub := hub, records := x.records + [Record(call, InFlight)])
  }

  function StepEnd(cfg: Config, x: System, i: nat, outcome: Outcome): System {
    if i < |x.records| && x.records[i].status == InFlight then
      var call := x.records[i].call;
      x.(hub := End(cfg, x.hub, call, outcome),
         records := x.records[i := Record(call, if outcome == Accepted then Sent else Failed)],
         logs := if outcome == Accepted && StillAttached(x.hub, call) then Deliver(x.logs, call.token, call.delivered) else x.logs)
    else x
  }

  function StepInject(cfg: Config, x: System, routeId: Id, payload: bytes, sender: Id): System {
    match Inject(cfg, x.hub, routeId, payload, sender)
    case (hub, NotInjected(_)) => x.(hub := hub)
    case (hub, Injected(to, frame)) =>
      x.(hub := hub, injected := x.injected + [|frame.payload|], logs := Accept(x.logs, to, frame))
  }

  /** Receive: the handle must be open. */
  function StepReceive(x: System, handle: nat): System {
    if handle < |x.logs| && handle !in x.hub.finished then x.(receivers := x.receivers + [Checked(handle)]) else x
  }

  /** sessionState: the session attached under the handle's identifier, which need not be the handle's own. */
  function StepLook(x: System, r: nat): System {
    if r < |x.receivers| && x.receivers[r].Checked? && x.receivers[r].handle < |x.logs| then
      var handle := x.receivers[r].handle;
      var id := x.logs[handle].id;
      var found := if x.hub.closed || !IsOpen(x.hub, id) then Ended(handle) else Waiting(handle, x.hub.sessions[id].token);
      x.(receivers := x.receivers[r := found])
    else x
  }

  function ObjectOf(x: System, token: nat): Object
    requires token < |x.logs|
  {
    Object(x.logs[token].id, token)
  }

  /** The inbox of a session object, which outlives its attachment. */
  function Queue(x: System, token: nat): seq<Frame>
    requires token < |x.logs|
  {
    InboxOf(x.hub, ObjectOf(x, token))
  }

  predicate CanTake(x: System, r: nat) {
    r < |x.receivers| && x.receivers[r].Waiting? && x.receivers[r].token < |x.logs| && Queue(x, x.receivers[r].token) != []
  }

  /**
    The select chooses the inbox, which it may whether or not the handle is closed: the receiver has the oldest frame in
    hand.
  */
  function StepTake(x: System, r: nat): System {
    if CanTake(x, r) then
      var token := x.receivers[r].token;
      var frame := Queue(x, token)[0];
      x.(hub := Take(x.hub, ObjectOf(x, token)), receivers := x.receivers[r := Took(x.receivers[r].handle, token, frame)],
         logs := x.logs[token := x.logs[token].(taken := x.logs[token].taken + [frame])])
    else x
  }

  /** The second test of the handle: the frame is returned or dropped. */
  function StepTest(x: System, r: nat): System {
    if r < |x.receivers| && x.receivers[r].Took? then
      var w := x.receivers[r];
      x.(receivers := x.receivers[r := if w.handle in x.hub.finished then Lost(w.handle, w.token, w.frame) else Returned(w.handle, w.token, w.frame)])
    else x
  }

  /** The select chooses `done`. */
  function StepDone(x: System, r: nat): System {
    if r < |x.receivers| && x.receivers[r].Waiting? && x.receivers[r].handle in x.hub.finished then
      x.(receivers := x.receivers[r := Ended(x.receivers[r].handle)])
    else x
  }

  /** The select chooses the end of the caller's context. */
  function StepCancel(x: System, r: nat): System {
    if r < |x.receivers| && x.receivers[r].Waiting? then x.(receivers := x.receivers[r := Cancelled(x.receivers[r].handle)]) else x
  }

  function Step(cfg: Config, x: System, op: Op): System {
    match op
    case DoAttach(id) => StepAttach(cfg, x, id)
    case DoPair(routeId, left, right) => x.(hub := Pair(x.hub, routeId, left, right).0)
    case DoAnnounceFederated(peerId, forwarder, now) => x.(hub := AnnounceFederated(cfg, x.hub, peerId, forwarder, now).0)
    case DoAnnounce(id, peerId, now) => x.(hub := Announce(cfg, x.hub, id, peerId, now).0)
    case DoHeartbeat(id, now) => x.(hub := Heartbeat(cfg, x.hub, id, now).0)
    case DoLookup(peerId, now) => x.(hub := Lookup(x.hub, peerId, now).0)
    case DoLookupLocal(peerId, now) => x.(hub := LookupLocal(x.hub, peerId, now).0)
    case DoRendezvous(from, routeId, peerId, now) => x.(hub := Rendezvous(x.hub, from, routeId, peerId, now).0)
    case DoSweep(now) => x.(hub := Sweep(x.hub, now).0)
    case DoBegin(from, routeId, payload, now, delivery) => StepBegin(cfg, x, from, routeId, payload, now, delivery)
    case DoEnd(i, outcome) => StepEnd(cfg, x, i, outcome)
    case DoInject(routeId, payload, sender) => StepInject(cfg, x, routeId, payload, sender)
    case DoReceive(handle) => StepReceive(x, handle)
    case DoLook(r) => StepLook(x, r)
    case DoTake(r) => StepTake(x, r)
    case DoTest(r) => StepTest(x, r)
    case DoDone(r) => StepDone(x, r)
    case DoCancel(r) => StepCancel(x, r)
    case DoDetach(id) => x.(hub := Detach(x.hub, id))
    case DoClose => x.(hub := Close(x.hub))
  }

  /** The state after a run of the hub from its creation. */
  function Run(cfg: Config, ops: seq<Op>): System {
    if ops == [] then Init() else Step(cfg, Run(cfg, ops[..|ops| - 1]), ops[|ops| - 1])
  }

  /** A run is a step after the run before it. */
  lemma {:induction false} RunStep(cfg: Config, ops: seq<Op>, k: nat)
    requires k < |ops|
    ensures Run(cfg, ops[..k + 1]) == Step(cfg, Run(cfg, ops[..k]), ops[k])
  {
    assert ops[..k + 1][..k] == ops[..k];
  }

  // ---------------------------------------------------------------- structure over whole runs

  lemma {:induction false} StepKeeps(cfg: Config, x: System, op: Op)
    requires Structure(cfg, x.hub)
    ensures Keeps(cfg, x.hub, Step(cfg, x, op).hub)
  {
    hide Structure, Keeps, StepBegin, StepEnd, StepInject, StepTake, Attach, Pair, Announce, AnnounceFederated, Heartbeat, Rendezvous, Sweep, Detach, Close;
    match op
    case DoAttach(id) => AttachKeeps(cfg, x.hub, id);
    case DoPair(routeId, left, right) => PairKeeps(cfg, x.hub, routeId, left, right);
    case DoAnnounceFederated(peerId, forwarder, now) => AnnounceFederatedKeeps(cfg, x.hub, peerId, forwarder, now);
    case DoAnnounce(id, peerId, now) => AnnounceKeeps(cfg, x.hub, id, peerId, now);
    case DoHeartbeat(id, now) => HeartbeatKeeps(cfg, x.hub, id, now);
    case DoLookup(peerId, now) => LookupShrinks(x.hub, peerId, now); ShrinksKeeps(cfg, x.hub, Step(cfg, x, op).hub);
    case DoLookupLocal(peerId, now) => LookupLocalShrinks(x.hub, peerId, now); ShrinksKeeps(cfg, x.hub, Step(cfg, x, op).hub);
    case DoRendezvous(from, routeId, peerId, now) => RendezvousKeeps(cfg, x.hub, from, routeId, peerId, now);
    case DoSweep(now) => SweepKeeps(cfg, x.hub, now);
    case DoBegin(from, routeId, payload, now, delivery) => StepBeginKeeps(cfg, x, from, routeId, payload, now, delivery);
    case DoEnd(i, outcome) => StepEndKeeps(cfg, x, i, outcome);
    case DoInject(routeId, payload, sender) => StepInjectKeeps(cfg, x, routeId, payload, sender);
    case DoReceive(handle) => SameKeeps(cfg, x.hub);
    case DoLook(r) => SameKeeps(cfg, x.hub);
    case DoTake(r) => StepTakeKeeps(cfg, x, r);
    case DoTest(r) => SameKeeps(cfg, x.hub);
    case DoDone(r) => SameKeeps(cfg, x.hub);
    case DoCancel(r) => SameKeeps(cfg, x.hub);
    case DoDetach(id) => DetachKeeps(cfg, x.hub, id);
    case DoClose => CloseKeeps(cfg, x.hub);
  }

  lemma {:induction false} SameKeeps(cfg: Config, s: Hub)
    requires Structure(cfg, s)
    ensures Keeps(cfg, s, s)
  {
  }

  lemma {:induction false} StepBeginKeeps(cfg: Config, x: System, from: Id, routeId: Id, payload: bytes, now: int, delivery: Option<Delivery>)
    requires Structure(cfg, x.hub)
    ensures Keeps(cfg, x.hub, StepBegin(cfg, x, from, routeId, payload, now, delivery).hub)
  {
    hide Structure, Keeps;
    BeginShrinks(cfg, x.hub, from, routeId, payload, now, delivery);
    ShrinksKeeps(cfg, x.hub, Begin(cfg, x.hub, from, routeId, payload, now, delivery).0);
  }

  lemma {:induction false} StepEndKeeps(cfg: Config, x: System, i: nat, outcome: Outcome)
    requires Structure(cfg, x.hub)
    ensures Keeps(cfg, x.hub, StepEnd(cfg, x, i, outcome).hub)
  {
    hide Structure, Keeps;
    SameKeeps(cfg, x.hub);
    if i < |x.records| {
      EndShrinks(cfg, x.hub, x.records[i].call, outcome);
      ShrinksKeeps(cfg, x.hub, End(cfg, x.hub, x.records[i].call, outcome));
    }
  }

  lemma {:induction false} StepInjectKeeps(cfg: Config, x: System, routeId: Id, payload: bytes, sender: Id)
    requires Structure(cfg, x.hub)
    ensures Keeps(cfg, x.hub, StepInject(cfg, x, routeId, payload, sender).hub)
  {
    hide Structure, Keeps;
    InjectShrinks(cfg, x.hub, routeId, payload, sender);
    ShrinksKeeps(cfg, x.hub, Inject(cfg, x.hub, routeId, payload, sender).0);
  }

  lemma {:induction false} StepTakeKeeps(cfg: Config, x: System, r: nat)
    requires Structure(cfg, x.hub)
    ensures Keeps(cfg, x.hub, StepTake(x, r).hub)
  {
    hide Structure, Keeps;
    SameKeeps(cfg, x.hub);
    if CanTake(x, r) {
      var o := ObjectOf(x, x.receivers[r].token);
      TakeShrinks(x.hub, o);
      ShrinksKeeps(cfg, x.hub, Take(x.hub, o));
    }
  }

  /** The structure holds in every reachable state. */
  lemma {:induction false} RunStructure(cfg: Config, ops: seq<Op>)
    ensures Structure(cfg, Run(cfg, ops).hub)
  {
    hide Structure;
    if ops == [] {
      NewHubStructure(cfg);
    } else {
      RunStructure(cfg, ops[..|ops| - 1]);
      StepKeeps(cfg, Run(cfg, ops[..|ops| - 1]), ops[|ops| - 1]);
    }
  }

  lemma {:induction false} StepStays(cfg: Config, ops: seq<Op>, op: Op)
    ensures Run(cfg, ops + [op]) == Step(cfg, Run(cfg, ops), op)
    ensures Keeps(cfg, Run(cfg, ops).hub, Run(cfg, ops + [op]).hub)
  {
    assert (ops + [op])[..|ops + [op]| - 1] == ops;
    RunStructure(cfg, ops);
    StepKeeps(cfg, Run(cfg, ops), op);
  }

  lemma {:induction false} RunStays(cfg: Config, ops: seq<Op>, more: seq<Op>)
    ensures StaysClosed(Run(cfg, ops).hub, Run(cfg, ops + more).hub)
  {
    if more == [] {
      assert ops + more == ops;
    } else {
      var before, last := ops + more[..|more| - 1], more[|more| - 1];
      RunStays(cfg, ops, more[..|more| - 1]);
      assert ops + more == before + [last];
      assert StaysClosed(Run(cfg, before).hub, Run(cfg, before + [last]).hub) by { StepStays(cfg, before, last); }
    }
  }

  /** Nothing that happens after Close puts anything into the hub again. */
  lemma {:induction false} ClosedForGood(cfg: Config, ops: seq<Op>, more: seq<Op>)
    requires Run(cfg, ops).hub.closed
    ensures var hub := Run(cfg, ops + more).hub;
            hub.closed && hub.sessions == map[] && hub.routes == map[] && hub.presence == map[] && hub.federated == map[]
  {
    RunStays(cfg, ops, more);
    RunStructure(cfg, ops + more);
  }

  /** A route identifier is never rebound while its route exists. */
  lemma {:induction false} RouteNeverRebound(cfg: Config, ops: seq<Op>, op: Op, routeId: Id)
    requires routeId in Run(cfg, ops).hub.routes && routeId in Run(cfg, ops + [op]).hub.routes
    ensures Run(cfg, ops + [op]).hub.routes[routeId] == Run(cfg, ops).hub.routes[routeId]
  {
    StepStays(cfg, ops, op);
  }
}
