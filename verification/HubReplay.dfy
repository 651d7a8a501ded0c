/**
  The replay window over runs in which no delivery is begun while another one of its key is in flight on that session.
  The WebSocket read loop makes such runs, as it begins a delivery only after the one before
  (internal/relay/wss/handler.go:268-287).
*/
module HubReplay {
  import opened Bytes
  import opened ReplayWindows
  import opened HubModel
  import opened HubStructure
  import opened HubSystem
  import opened HubTraffic

  predicate Pending(r: Record, token: nat, key: Key) {
    r.status == InFlight && r.call.delivered.Some? && r.call.token == token && r.call.delivered.value.key == key
  }

  predicate NonePending(records: seq<Record>, token: nat, key: Key) {
    forall i :: 0 <= i < |records| ==> !Pending(records[i], token, key)
  }

  /** No delivery is begun while one of the same session and key is in flight. */
  predicate Guarded(x: System, op: Op) {
    op.DoBegin? && op.delivery.Some? && op.from in x.hub.sessions ==>
      NonePending(x.records, x.hub.sessions[op.from].token, KeyOf(x.hub.sessions[op.from], op.delivery.value))
  }

  predicate GuardedRun(cfg: Config, ops: seq<Op>) {
    ops == [] || (GuardedRun(cfg, ops[..|ops| - 1]) && Guarded(Run(cfg, ops[..|ops| - 1]), ops[|ops| - 1]))
  }

  /** The window of an attached session is the newest part of its history. */
  ghost predicate WindowOk(cfg: Config, session: Session, logs: seq<Log>) {
    session.token < |logs| && Refines(session.deliveries, cfg.maxReplay, logs[session.token].delivered)
  }

  ghost predicate WindowsOk(cfg: Config, s: Hub, logs: seq<Log>) {
    forall id :: id in s.sessions ==> WindowOk(cfg, s.sessions[id], logs)
  }

  ghost predicate AllSpaced(cfg: Config, logs: seq<Log>) {
    forall t :: 0 <= t < |logs| ==> Spaced(logs[t].delivered, cfg.maxReplay)
  }

  ghost predicate OnePending(records: seq<Record>) {
    forall i, j, t, k :: 0 <= i < |records| && 0 <= j < |records| && Pending(records[i], t, k) && Pending(records[j], t, k) ==> i == j
  }

  /** The key of a delivery in flight is not in the window it will go to. */
  ghost predicate PendingNew(s: Hub, records: seq<Record>) {
    forall i :: 0 <= i < |records| && records[i].status == InFlight && records[i].call.delivered.Some? && StillAttached(s, records[i].call) ==>
      records[i].call.delivered.value.key !in s.sessions[records[i].call.from].deliveries.entries
  }

  ghost predicate Replay(cfg: Config, x: System) {
    WindowsOk(cfg, x.hub, x.logs) && AllSpaced(cfg, x.logs) && OnePending(x.records) && PendingNew(x.hub, x.records)
  }

  // ---------------------------------------------------------------- sections that leave the windows alone

  ghost predicate SameWindows(s: Hub, s': Hub) {
    forall id :: id in s'.sessions ==>
      id in s.sessions && s'.sessions[id].token == s.sessions[id].token && s'.sessions[id].deliveries == s.sessions[id].deliveries
  }

  ghost predicate SameDelivered(logs: seq<Log>, logs': seq<Log>) {
    |logs'| == |logs| && forall t :: 0 <= t < |logs| ==> logs'[t].delivered == logs[t].delivered
  }

  lemma {:induction false} SameReplay(cfg: Config, x: System, x': System)
    requires Replay(cfg, x) && x'.records == x.records
    requires SameWindows(x.hub, x'.hub) && SameDelivered(x.logs, x'.logs)
    ensures Replay(cfg, x')
  {
    hide Refines, Spaced;
  }

  lemma {:induction false} QuietReplay(cfg: Config, x: System, op: Op)
    requires Replay(cfg, x) && Quiet(op)
    ensures Replay(cfg, Step(cfg, x, op))
  {
    hide Refines, Spaced;
    QuietUntouched(cfg, x, op);
    SameReplay(cfg, x, Step(cfg, x, op));
  }

  lemma {:induction false} InjectWindows(cfg: Config, s: Hub, routeId: Id, payload: bytes, sender: Id)
    ensures SameWindows(s, Inject(cfg, s, routeId, payload, sender).0)
  {
    InjectEffects(cfg, s, routeId, payload, sender);
  }

  lemma {:induction false} InjectReplay(cfg: Config, x: System, routeId: Id, payload: bytes, sender: Id)
    requires Replay(cfg, x)
    ensures Replay(cfg, StepInject(cfg, x, routeId, payload, sender))
  {
    hide Refines, Spaced;
    InjectWindows(cfg, x.hub, routeId, payload, sender);
    assert SameDelivered(x.logs, StepInject(cfg, x, routeId, payload, sender).logs);
    SameReplay(cfg, x, StepInject(cfg, x, routeId, payload, sender));
  }

  lemma {:induction false} TakeWindows(x: System, r: nat)
    ensures SameWindows(x.hub, StepTake(x, r).hub) && SameDelivered(x.logs, StepTake(x, r).logs) && StepTake(x, r).records == x.records
  {
  }

  lemma {:induction false} TakeReplay(cfg: Config, x: System, r: nat)
    requires Replay(cfg, x)
    ensures Replay(cfg, StepTake(x, r))
  {
    hide Refines, Spaced;
    TakeWindows(x, r);
    SameReplay(cfg, x, StepTake(x, r));
  }

  lemma {:induction false} NewWindow(cfg: Config, session: Session, logs: seq<Log>)
    requires session.token < |logs| && session.deliveries == EmptyWindow() && logs[session.token].delivered == []
    ensures WindowOk(cfg, session, logs)
  {
    EmptyRefines(cfg.maxReplay);
  }

  lemma {:induction false} KeptWindow(cfg: Config, session: Session, logs: seq<Log>, session': Session, logs': seq<Log>)
    requires WindowOk(cfg, session, logs) && session'.token == session.token < |logs'| && session'.deliveries == session.deliveries
    requires logs'[session.token].delivered == logs[session.token].delivered
    ensures WindowOk(cfg, session', logs')
  {
  }

  lemma {:induction false} RememberWindow(cfg: Config, session: Session, logs: seq<Log>, session': Session, logs': seq<Log>, d: Delivered)
    requires WindowOk(cfg, session, logs) && d.key !in session.deliveries.entries
    requires session'.token == session.token < |logs'| && session'.deliveries == Remembered(session.deliveries, cfg.maxReplay, d)
    requires logs'[session.token].delivered == logs[session.token].delivered + [d]
    ensures WindowOk(cfg, session', logs')
  {
    RememberRefines(session.deliveries, cfg.maxReplay, logs[session.token].delivered, d);
  }

  lemma {:induction false} AttachWindows(cfg: Config, x: System, id: Id)
    requires LogsOk(x) && WindowsOk(cfg, x.hub, x.logs)
    ensures WindowsOk(cfg, StepAttach(cfg, x, id).hub, StepAttach(cfg, x, id).logs)
  {
    hide Refines, Spaced;
    var x' := StepAttach(cfg, x, id);
    forall other | other in x'.hub.sessions ensures WindowOk(cfg, x'.hub.sessions[other], x'.logs) {
      if other in x.hub.sessions {
        KeptWindow(cfg, x.hub.sessions[other], x.logs, x'.hub.sessions[other], x'.logs);
      } else {
        NewWindow(cfg, x'.hub.sessions[other], x'.logs);
      }
    }
  }

  lemma {:induction false} AttachPending(cfg: Config, x: System, id: Id)
    requires LogsOk(x) && PendingNew(x.hub, x.records)
    ensures PendingNew(StepAttach(cfg, x, id).hub, x.records)
  {
  }

  lemma {:induction false} AttachReplay(cfg: Config, x: System, id: Id)
    requires LogsOk(x) && Replay(cfg, x)
    ensures Replay(cfg, StepAttach(cfg, x, id))
  {
    hide Refines;
    assert WindowsOk(cfg, StepAttach(cfg, x, id).hub, StepAttach(cfg, x, id).logs) by { AttachWindows(cfg, x, id); }
    AttachPending(cfg, x, id);
  }

  // ---------------------------------------------------------------- remembering a delivery

  /** The session of `call` remembers its delivery; the others keep their windows. */
  ghost predicate Remembers(cfg: Config, s: Hub, s': Hub, call: Call) {
    forall id :: id in s'.sessions ==>
      && id in s.sessions && s'.sessions[id].token == s.sessions[id].token
      && s'.sessions[id].deliveries ==
         if id == call.from && StillAttached(s, call) && call.delivered.Some?
         then Remembered(s.sessions[id].deliveries, cfg.maxReplay, call.delivered.value) else s.sessions[id].deliveries
  }

  lemma {:induction false} RememberSpaced(cfg: Config, s: Hub, logs: seq<Log>, call: Call, d: Delivered)
    requires WindowsOk(cfg, s, logs) && AllSpaced(cfg, logs)
    requires StillAttached(s, call) && d.key !in s.sessions[call.from].deliveries.entries
    ensures AllSpaced(cfg, Deliver(logs, call.token, Some(d)))
  {
    SpacedAppend(s.sessions[call.from].deliveries, cfg.maxReplay, logs[call.token].delivered, d);
  }

  lemma {:induction false} RememberWindows(cfg: Config, s: Hub, logs: seq<Log>, s': Hub, call: Call, d: Delivered)
    requires IdentitiesOk(s) && WindowsOk(cfg, s, logs)
    requires StillAttached(s, call) && call.delivered == Some(d) && d.key !in s.sessions[call.from].deliveries.entries
    requires Remembers(cfg, s, s', call)
    ensures WindowsOk(cfg, s', Deliver(logs, call.token, Some(d)))
  {
    hide Refines, Spaced;
    var logs' := Deliver(logs, call.token, Some(d));
    forall id | id in s'.sessions ensures WindowOk(cfg, s'.sessions[id], logs') {
      assert WindowOk(cfg, s.sessions[id], logs);
      if id == call.from {
        RememberWindow(cfg, s.sessions[id], logs, s'.sessions[id], logs', d);
      } else {
        KeptWindow(cfg, s.sessions[id], logs, s'.sessions[id], logs');
      }
    }
  }

  /** With no other delivery of that session in flight. */
  lemma {:induction false} RememberPending(cfg: Config, s: Hub, s': Hub, records: seq<Record>, call: Call)
    requires IdentitiesOk(s) && PendingNew(s, records) && Remembers(cfg, s, s', call)
    requires call.delivered.Some? && NonePending(records, call.token, call.delivered.value.key)
    ensures PendingNew(s', records)
  {
  }

  lemma {:induction false} SettleRemembers(cfg: Config, s: Hub, call: Call, to: Id, frame: Frame)
    requires call.from in s.sessions && to in s.sessions && StillAttached(s, call)
    ensures Remembers(cfg, s, Settle(cfg, Enqueue(s, to, frame), call), call)
  {
  }

  lemma {:induction false} AddSent(s: Hub, records: seq<Record>, r: Record)
    requires r.status != InFlight
    ensures OnePending(records) ==> OnePending(records + [r])
    ensures PendingNew(s, records) ==> PendingNew(s, records + [r])
  {
  }

  lemma {:induction false} QueuedReplay(cfg: Config, x: System, s': Hub, begun: Begun, to: Id)
    requires IdentitiesOk(x.hub) && Replay(cfg, x) && begun.Queued? && Chargeable(cfg, x.hub, begun.call)
    requires QueuedAt(cfg, x.hub, s', begun.call, to, begun.to, begun.frame)
    requires begun.call.delivered.Some? ==> NonePending(x.records, begun.call.token, begun.call.delivered.value.key)
    ensures WindowsOk(cfg, s', Deliver(x.logs, begun.call.token, begun.call.delivered))
    ensures AllSpaced(cfg, Deliver(x.logs, begun.call.token, begun.call.delivered))
    ensures OnePending(x.records + [RecordOf(begun)]) && PendingNew(s', x.records + [RecordOf(begun)])
  {
    hide Refines, Spaced;
    SettleRemembers(cfg, x.hub, begun.call, to, begun.frame);
    AddSent(s', x.records, RecordOf(begun));
    if begun.call.delivered.Some? {
      RememberWindows(cfg, x.hub, x.logs, s', begun.call, begun.call.delivered.value);
      RememberSpaced(cfg, x.hub, x.logs, begun.call, begun.call.delivered.value);
      RememberPending(cfg, x.hub, s', x.records, begun.call);
    } else {
      assert SameWindows(x.hub, s');
      SameReplay(cfg, x, x.(hub := s'));
    }
  }

  lemma {:induction false} AddPending(records: seq<Record>, r: Record)
    requires OnePending(records) && (r.call.delivered.Some? ==> NonePending(records, r.call.token, r.call.delivered.value.key))
    ensures OnePending(records + [r])
  {
    var longer := records + [r];
    forall i, j, t, k | 0 <= i < |longer| && 0 <= j < |longer| && Pending(longer[i], t, k) && Pending(longer[j], t, k) ensures i == j {
      if i < |records| && j < |records| {
        assert Pending(records[i], t, k) && Pending(records[j], t, k);
      }
    }
  }

  lemma {:induction false} ReservedPending(cfg: Config, s: Hub, records: seq<Record>, begun: Begun)
    requires PendingNew(s, records) && begun.Reserved? && Chargeable(cfg, s, begun.call)
    ensures PendingNew(Reserve(s, begun.call), records + [RecordOf(begun)])
  {
  }

  lemma {:induction false} ReservedReplay(cfg: Config, x: System, s': Hub, begun: Begun)
    requires Replay(cfg, x) && begun.Reserved? && Chargeable(cfg, x.hub, begun.call) && s' == Reserve(x.hub, begun.call)
    requires begun.call.delivered.Some? ==> NonePending(x.records, begun.call.token, begun.call.delivered.value.key)
    ensures Replay(cfg, x.(hub := s', records := x.records + [RecordOf(begun)]))
  {
    hide Refines, Spaced;
    assert WindowsOk(cfg, s', x.logs) by {
      assert SameWindows(x.hub, s');
      SameReplay(cfg, x, x.(hub := s'));
    }
    AddPending(x.records, RecordOf(begun));
    ReservedPending(cfg, x.hub, x.records, begun);
  }

  lemma {:induction false} AcceptDelivered(logs: seq<Log>, to: nat, frame: Frame)
    ensures SameDelivered(logs, Accept(logs, to, frame))
  {
  }

  lemma {:induction false} DeliverSame(logs: seq<Log>, logs': seq<Log>, token: nat, d: Option<Delivered>)
    requires SameDelivered(logs, logs')
    ensures SameDelivered(Deliver(logs, token, d), Deliver(logs', token, d))
  {
  }

  lemma {:induction false} QueuedLogs(cfg: Config, s': Hub, logs: seq<Log>, begun: Begun)
    requires begun.Queued?
    requires WindowsOk(cfg, s', Deliver(logs, begun.call.token, begun.call.delivered))
    requires AllSpaced(cfg, Deliver(logs, begun.call.token, begun.call.delivered))
    ensures WindowsOk(cfg, s', Deliver(Accept(logs, begun.to, begun.frame), begun.call.token, begun.call.delivered))
    ensures AllSpaced(cfg, Deliver(Accept(logs, begun.to, begun.frame), begun.call.token, begun.call.delivered))
  {
    hide Refines, Spaced;
    AcceptDelivered(logs, begun.to, begun.frame);
    DeliverSame(logs, Accept(logs, begun.to, begun.frame), begun.call.token, begun.call.delivered);
  }

  lemma {:induction false} BegunKey(cfg: Config, s: Hub, from: Id, routeId: Id, payload: bytes, now: int, delivery: Option<Delivery>)
    ensures var begun := Begin(cfg, s, from, routeId, payload, now, delivery).1;
            !begun.NotSent? ==>
              && from in s.sessions && begun.call.token == s.sessions[from].token && begun.call.from == from
              && begun.call.delivered == if delivery.Some? then Some(Delivered(KeyOf(s.sessions[from], delivery.value), delivery.value.digest)) else None
  {
  }

  lemma {:induction false} BeginReplay(cfg: Config, x: System, op: Op)
    requires IdentitiesOk(x.hub) && Replay(cfg, x) && op.DoBegin? && Guarded(x, op)
    ensures Replay(cfg, Step(cfg, x, op))
  {
    hide Refines, Spaced;
    var (s', begun) := Begin(cfg, x.hub, op.from, op.routeId, op.payload, op.now, op.delivery);
    assert BeginEffect(cfg, x.hub, s', begun)
        && (!begun.NotSent? ==> begun.call.from == op.from && (begun.call.delivered.Some? <==> op.delivery.Some?)) by {
      BeginEffects(cfg, x.hub, op.from, op.routeId, op.payload, op.now, op.delivery);
    }
    BegunKey(cfg, x.hub, op.from, op.routeId, op.payload, op.now, op.delivery);
    if begun.Queued? {
      var to :| QueuedAt(cfg, x.hub, s', begun.call, to, begun.to, begun.frame);
      QueuedReplay(cfg, x, s', begun, to);
      QueuedLogs(cfg, s', x.logs, begun);
    } else if begun.Reserved? {
      ReservedReplay(cfg, x, s', begun);
    } else {
      SameReplay(cfg, x, x.(hub := s'));
    }
  }

  // ---------------------------------------------------------------- the second section

  lemma {:induction false} FinishRecord(s: Hub, records: seq<Record>, i: nat, r: Record)
    requires i < |records| && r.status != InFlight
    ensures OnePending(records) ==> OnePending(records[i := r])
    ensures PendingNew(s, records) ==> PendingNew(s, records[i := r])
    ensures forall k :: OnePending(records) && Pending(records[i], r.call.token, k) ==> NonePending(records[i := r], r.call.token, k)
  {
  }

  lemma {:induction false} EndRemembers(cfg: Config, s: Hub, call: Call)
    ensures Remembers(cfg, s, End(cfg, s, call, Accepted), call)
  {
  }

  lemma {:induction false} AcceptedReplay(cfg: Config, x: System, i: nat)
    requires IdentitiesOk(x.hub) && LogsOk(x) && Replay(cfg, x) && i < |x.records| && x.records[i].status == InFlight
    requires x.records[i].call.delivered.Some? && StillAttached(x.hub, x.records[i].call)
    ensures Replay(cfg, StepEnd(cfg, x, i, Accepted))
  {
    hide Refines, Spaced;
    var call := x.records[i].call;
    var s', r := End(cfg, x.hub, call, Accepted), Record(call, Sent);
    EndRemembers(cfg, x.hub, call);
    assert Pending(x.records[i], call.token, call.delivered.value.key);
    RememberWindows(cfg, x.hub, x.logs, s', call, call.delivered.value);
    RememberSpaced(cfg, x.hub, x.logs, call, call.delivered.value);
    FinishRecord(x.hub, x.records, i, r);
    RememberPending(cfg, x.hub, s', x.records[i := r], call);
  }

  lemma {:induction false} EndReplay(cfg: Config, x: System, i: nat, outcome: Outcome)
    requires IdentitiesOk(x.hub) && LogsOk(x) && Replay(cfg, x)
    ensures Replay(cfg, StepEnd(cfg, x, i, outcome))
  {
    hide Refines, Spaced;
    if i < |x.records| && x.records[i].status == InFlight {
      var call := x.records[i].call;
      if outcome == Accepted && call.delivered.Some? && StillAttached(x.hub, call) {
        AcceptedReplay(cfg, x, i);
      } else {
        var s' := End(cfg, x.hub, call, outcome);
        assert SameWindows(x.hub, s');
        SameReplay(cfg, x, x.(hub := s'));
        FinishRecord(s', x.records, i, Record(call, if outcome == Accepted then Sent else Failed));
      }
    }
  }

  // ---------------------------------------------------------------- runs

  lemma {:induction false} StepReplay(cfg: Config, x: System, op: Op)
    requires IdentitiesOk(x.hub) && LogsOk(x) && Replay(cfg, x) && Guarded(x, op)
    ensures Replay(cfg, Step(cfg, x, op))
  {
    hide Refines, Spaced;
    match op
    case DoAttach(id) => AttachReplay(cfg, x, id);
    case DoBegin(_, _, _, _, _) => BeginReplay(cfg, x, op);
    case DoEnd(i, outcome) => EndReplay(cfg, x, i, outcome);
    case DoInject(routeId, payload, sender) => InjectReplay(cfg, x, routeId, payload, sender);
    case DoTake(r) => TakeReplay(cfg, x, r);
    case _ => QuietReplay(cfg, x, op);
  }

  /** In every reachable state of a guarded run each window is the newest part of its session's history. */
  lemma {:induction false} RunReplay(cfg: Config, ops: seq<Op>)
    requires GuardedRun(cfg, ops)
    ensures Replay(cfg, Run(cfg, ops))
  {
    hide Refines, Spaced;
    if ops != [] {
      var before := ops[..|ops| - 1];
      RunReplay(cfg, before);
      RunStructure(cfg, before);
      RunLogs(cfg, before);
      StepReplay(cfg, Run(cfg, before), ops[|ops| - 1]);
    }
  }

  /** One key is delivered twice only if at least maxReplay other deliveries of the session came in between. */
  lemma {:induction false} DeliveredApart(cfg: Config, ops: seq<Op>, token: nat, i: nat, j: nat)
    requires GuardedRun(cfg, ops) && token < |Run(cfg, ops).logs|
    requires i < j < |Run(cfg, ops).logs[token].delivered|
    requires Run(cfg, ops).logs[token].delivered[i].key == Run(cfg, ops).logs[token].delivered[j].key
    ensures j - i - 1 >= cfg.maxReplay
  {
    RunReplay(cfg, ops);
    assert Spaced(Run(cfg, ops).logs[token].delivered, cfg.maxReplay);
  }

  /**
    A delivery that passes the tests before the replay window is answered by that history: a duplicate exactly if
    its key and digest are among the newest maxReplay deliveries, a conflict exactly if its key is there with
    another digest.
  */
  lemma {:induction false} ReplayAnswers(cfg: Config, ops: seq<Op>, from: Id, routeId: Id, payload: bytes, now: int, d: Delivery)
    requires GuardedRun(cfg, ops)
    requires var objection := Objection(cfg, Run(cfg, ops).hub, from, routeId, payload, now, None);
             ValidId(d.id) && (objection.None? || objection == Some(QuotaExceeded))
    ensures var x := Run(cfg, ops);
            && from in x.hub.sessions && x.hub.sessions[from].token < |x.logs|
            && var session := x.hub.sessions[from];
               var newest := Newest(x.logs[session.token].delivered, cfg.maxReplay);
               var answer := Objection(cfg, x.hub, from, routeId, payload, now, Some(d));
               && (answer == Some(DuplicateDelivery) <==> Delivered(KeyOf(session, d), d.digest) in newest)
               && (answer == Some(DeliveryConflict) <==>
                     exists e :: e in newest && e.key == KeyOf(session, d) && e.digest != d.digest)
  {
    hide Refines, Spaced;
    RunReplay(cfg, ops);
    var x := Run(cfg, ops);
    var session := x.hub.sessions[from];
    LookupExact(session.deliveries, cfg.maxReplay, x.logs[session.token].delivered, Delivered(KeyOf(session, d), d.digest));
  }

  // ---------------------------------------------------------------- without the guard

  /** The state once the begun delivery and the one in flight as record i have both been accepted. */
  function BothAccepted(cfg: Config, x: System, op: Op, i: nat): System {
    StepEnd(cfg, StepEnd(cfg, Step(cfg, x, op), i, Accepted), |x.records|, Accepted)
  }

  /** Two more deliveries of one key at the end of the history. */
  predicate Doubled(before: seq<Delivered>, after: seq<Delivered>, key: Key) {
    |after| == |before| + 2 && before <= after && after[|before|].key == key && after[|before| + 1].key == key
  }

  lemma {:induction false} DoubledIsClose(before: seq<Delivered>, after: seq<Delivered>, key: Key, capacity: nat)
    requires Doubled(before, after, key) && 0 < capacity
    ensures !Spaced(after, capacity)
  {
    assert after[|before|].key == after[|before| + 1].key;
  }

  /** What accepting a call does to the history of its session. */
  lemma {:induction false} AcceptedLogs(cfg: Config, x: System, i: nat)
    requires i < |x.records| && x.records[i].status == InFlight && StillAttached(x.hub, x.records[i].call)
    ensures var call, x' := x.records[i].call, StepEnd(cfg, x, i, Accepted);
            && x'.logs == Deliver(x.logs, call.token, call.delivered) && x'.records == x.records[i := Record(call, Sent)]
            && forall other: Call :: StillAttached(x.hub, other) ==> StillAttached(x'.hub, other)
  {
  }

  /** What beginning one does: the delivery is in flight, or it is in the history already. */
  lemma {:induction false} BegunLogs(cfg: Config, x: System, from: Id, routeId: Id, payload: bytes, now: int, d: Delivery)
    requires from in x.hub.sessions && !Begin(cfg, x.hub, from, routeId, payload, now, Some(d)).1.NotSent?
    ensures var x' := StepBegin(cfg, x, from, routeId, payload, now, Some(d));
            var call := Begin(cfg, x.hub, from, routeId, payload, now, Some(d)).1.call;
            && |x'.records| == |x.records| + 1 && x'.records[..|x.records|] == x.records && x'.records[|x.records|].call == call
            && SameDelivered(x'.logs, if x'.records[|x.records|].status == InFlight then x.logs else Deliver(x.logs, call.token, call.delivered))
            && x'.records[|x.records|].status != Failed
            && forall other: Call :: StillAttached(x.hub, other) ==> StillAttached(x'.hub, other)
  {
    BeginShrinks(cfg, x.hub, from, routeId, payload, now, Some(d));
    var begun := Begin(cfg, x.hub, from, routeId, payload, now, Some(d)).1;
    if begun.Queued? {
      AcceptDelivered(x.logs, begun.to, begun.frame);
      DeliverSame(x.logs, Accept(x.logs, begun.to, begun.frame), begun.call.token, begun.call.delivered);
    }
  }

  lemma {:induction false} DeliveredOne(logs: seq<Log>, token: nat, d: Delivered)
    requires token < |logs|
    ensures |Deliver(logs, token, Some(d))| == |logs| && Deliver(logs, token, Some(d))[token].delivered == logs[token].delivered + [d]
  {
  }

  lemma {:induction false} TwoMore(before: seq<Delivered>, d: Delivered, e: Delivered, key: Key)
    requires d.key == key && e.key == key
    ensures Doubled(before, (before + [d]) + [e], key)
  {
  }

  /** A delivery begun while its key is in flight is forwarded twice if both are accepted, whatever the window holds. */
  lemma {:induction false} PendingKeyTwice(cfg: Config, x: System, op: Op, i: nat)
    requires LogsOk(x) && op.DoBegin? && op.delivery.Some? && op.from in x.hub.sessions && i < |x.records|
    requires !Begin(cfg, x.hub, op.from, op.routeId, op.payload, op.now, op.delivery).1.NotSent?
    requires Pending(x.records[i], x.hub.sessions[op.from].token, KeyOf(x.hub.sessions[op.from], op.delivery.value))
    ensures var token := x.hub.sessions[op.from].token;
            && token < |x.logs| && token < |BothAccepted(cfg, x, op, i).logs|
            && Doubled(x.logs[token].delivered, BothAccepted(cfg, x, op, i).logs[token].delivered, KeyOf(x.hub.sessions[op.from], op.delivery.value))
  {
    var token, j := x.hub.sessions[op.from].token, |x.records|;
    BegunKey(cfg, x.hub, op.from, op.routeId, op.payload, op.now, op.delivery);
    BegunLogs(cfg, x, op.from, op.routeId, op.payload, op.now, op.delivery.value);
    var call := Begin(cfg, x.hub, op.from, op.routeId, op.payload, op.now, op.delivery).1.call;
    assert StillAttached(x.hub, call) && StillAttached(x.hub, x.records[i].call) && token < |x.logs|;
    var d, e := x.records[i].call.delivered.value, call.delivered.value;
    assert x.records[i].call == Call(x.records[i].call.from, token, x.records[i].call.routeId, x.records[i].call.size, Some(d));
    hide Begin, StepBegin, StepEnd, LogsOk, Deliver, StillAttached, Doubled;
    var x1 := Step(cfg, x, op);
    assert x1.records[i] == x.records[i];
    var x2 := StepEnd(cfg, x1, i, Accepted);
    AcceptedLogs(cfg, x1, i);
    DeliveredOne(x1.logs, token, d);
    if x1.records[j].status == InFlight {
      AcceptedLogs(cfg, x2, j);
      DeliveredOne(x2.logs, token, e);
      TwoMore(x.logs[token].delivered, d, e, d.key);
    } else {
      NotInFlight(cfg, x2, j);
      DeliveredOne(x.logs, token, e);
      TwoMore(x.logs[token].delivered, e, d, d.key);
    }
  }

  lemma {:induction false} NotInFlight(cfg: Config, x: System, j: nat)
    requires j < |x.records| && x.records[j].status != InFlight
    ensures StepEnd(cfg, x, j, Accepted) == x
  {
  }

  lemma {:induction false} RunMore(cfg: Config, ops: seq<Op>, op: Op)
    requires GuardedRun(cfg, ops) && Guarded(Run(cfg, ops), op)
    ensures GuardedRun(cfg, ops + [op]) && Run(cfg, ops + [op]) == Step(cfg, Run(cfg, ops), op)
  {
    assert (ops + [op])[..|ops|] == ops;
  }

  lemma {:induction false} GuardSuffices(cfg: Config, ops: seq<Op>, op: Op, i: nat)
    requires GuardedRun(cfg, ops) && Guarded(Run(cfg, ops), op)
    ensures AllSpaced(cfg, BothAccepted(cfg, Run(cfg, ops), op, i).logs)
  {
    hide GuardedRun, Run, Guarded, Step, StepEnd, AllSpaced, WindowsOk, OnePending, PendingNew;
    var x := Run(cfg, ops);
    var first, second := ops + [op], ops + [op] + [DoEnd(i, Accepted)];
    RunMore(cfg, ops, op);
    EndsGuarded(Run(cfg, first), DoEnd(i, Accepted));
    RunMore(cfg, first, DoEnd(i, Accepted));
    EndsGuarded(Run(cfg, second), DoEnd(|x.records|, Accepted));
    RunMore(cfg, second, DoEnd(|x.records|, Accepted));
    RunReplay(cfg, second + [DoEnd(|x.records|, Accepted)]);
    EndStep(cfg, Run(cfg, first), i);
    EndStep(cfg, Run(cfg, second), |x.records|);
  }

  lemma {:induction false} EndsGuarded(x: System, op: Op)
    requires op.DoEnd?
    ensures Guarded(x, op)
  {
  }

  lemma {:induction false} EndStep(cfg: Config, x: System, i: nat)
    ensures Step(cfg, x, DoEnd(i, Accepted)) == StepEnd(cfg, x, i, Accepted)
  {
  }

  lemma {:induction false} GuardNeeded(cfg: Config, x: System, op: Op) returns (i: nat)
    requires LogsOk(x) && op.DoBegin? && op.delivery.Some? && !Guarded(x, op)
    requires !Begin(cfg, x.hub, op.from, op.routeId, op.payload, op.now, op.delivery).1.NotSent?
    ensures !AllSpaced(cfg, BothAccepted(cfg, x, op, i).logs)
  {
    var token, key := x.hub.sessions[op.from].token, KeyOf(x.hub.sessions[op.from], op.delivery.value);
    i :| i < |x.records| && Pending(x.records[i], token, key);
    PendingKeyTwice(cfg, x, op, i);
    hide Begin, Step, StepEnd, LogsOk, Pending, BothAccepted, Spaced, Doubled;
    DoubledIsClose(x.logs[token].delivered, BothAccepted(cfg, x, op, i).logs[token].delivered, key, cfg.maxReplay);
  }

  /**
    The guard is exact. For a delivery that is begun after a guarded run, none of its session and key is in flight if and
    only if accepting it together with any one call in flight keeps equal keys apart.
  */
  lemma {:induction false} GuardIsExact(cfg: Config, ops: seq<Op>, op: Op)
    requires GuardedRun(cfg, ops) && op.DoBegin? && op.delivery.Some?
    requires !Begin(cfg, Run(cfg, ops).hub, op.from, op.routeId, op.payload, op.now, op.delivery).1.NotSent?
    ensures Guarded(Run(cfg, ops), op) <==> forall i: nat :: AllSpaced(cfg, BothAccepted(cfg, Run(cfg, ops), op, i).logs)
  {
    hide GuardedRun, Run, Guarded, AllSpaced, BothAccepted, Begin;
    if Guarded(Run(cfg, ops), op) {
      forall i: nat ensures AllSpaced(cfg, BothAccepted(cfg, Run(cfg, ops), op, i).logs) {
        GuardSuffices(cfg, ops, op, i);
      }
    } else {
      RunLogs(cfg, ops);
      var i := GuardNeeded(cfg, Run(cfg, ops), op);
    }
  }

  function TwoInFlight(a: Id, peerId: Id, routeId: Id, payload: bytes, d: Delivery): seq<Op> {
    [DoAttach(a), DoAnnounceFederated(peerId, Some(0), 0), DoRendezvous(a, routeId, peerId, 0),
     DoBegin(a, routeId, payload, 0, Some(d)), DoBegin(a, routeId, payload, 0, Some(d)),
     DoEnd(0, Accepted), DoEnd(1, Accepted)]
  }

  function Bridged(cfg: Config, a: Id, peerId: Id, routeId: Id, session: Session, records: seq<Record>): System {
    System(Hub(false, map[a := session], map[routeId := Route(Endpoint(a, None, []), Endpoint([], Some(0), peerId))], map[],
               map[peerId := Federated(Some(0), cfg.presenceTtl)], Stats(0, 0, 0), {}, 1, map[]),
           records, [], [], [Log(a, [], [], [])])
  }

  function Unused(): Session { Session(0, [], 0, 0, [], EmptyWindow()) }

  function BridgedCall(a: Id, routeId: Id, payload: bytes, d: Delivery): Call
    requires |payload| < TWO_64
  {
    Call(a, 0, routeId, |payload|, Some(Delivered(Key([], d.stream, d.id), d.digest)))
  }

  lemma {:induction false} BridgedRun(cfg: Config, a: Id, peerId: Id, routeId: Id, payload: bytes, d: Delivery)
    requires ValidId(a) && ValidId(peerId) && ValidId(routeId)
    ensures Run(cfg, TwoInFlight(a, peerId, routeId, payload, d)[..3])
         == Bridged(cfg, a, peerId, routeId, Unused(), [])
  {
    var ops := TwoInFlight(a, peerId, routeId, payload, d);
    assert ops[..0] == [];
    RunStep(cfg, ops, 0);
    RunStep(cfg, ops, 1);
    RunStep(cfg, ops, 2);
  }

  lemma {:induction false} BridgedBegin(cfg: Config, x: System, a: Id, peerId: Id, routeId: Id, session: Session, payload: bytes, d: Delivery)
    requires ValidId(a) && ValidId(peerId) && ValidId(d.id) && |payload| <= cfg.maxFrameBytes
    requires session.token == 0 && session.peerId == [] && session.deliveries == EmptyWindow() && QuotaAdmits(cfg, session, |payload|)
    requires x == Bridged(cfg, a, peerId, routeId, session, x.records)
    ensures StepBegin(cfg, x, a, routeId, payload, 0, Some(d))
         == Bridged(cfg, a, peerId, routeId, Charge(session, |payload|), x.records + [Record(BridgedCall(a, routeId, payload, d), InFlight)])
  {
    assert Objection(cfg, x.hub, a, routeId, payload, 0, Some(d)) == None;
    assert x.hub.sessions[a := Charge(session, |payload|)] == map[a := Charge(session, |payload|)];
  }

  lemma {:induction false} BridgedEnd(cfg: Config, x: System, i: nat, call: Call, d: Delivered)
    requires i < |x.records| && x.records[i] == Record(call, InFlight) && StillAttached(x.hub, call)
    requires call.token < |x.logs| && call.delivered == Some(d)
    ensures var x' := StepEnd(cfg, x, i, Accepted);
            && x'.logs == Deliver(x.logs, call.token, Some(d)) && StillAttached(x'.hub, call)
            && x'.records == x.records[i := Record(call, Sent)]
  {
  }

  lemma {:induction false} FirstReserved(cfg: Config, a: Id, peerId: Id, routeId: Id, payload: bytes, d: Delivery)
    requires ValidId(a) && ValidId(peerId) && ValidId(routeId) && ValidId(d.id)
    requires |payload| <= cfg.maxFrameBytes && cfg.maxFrames >= 2 && 2 * |payload| <= cfg.maxBytes
    ensures Run(cfg, TwoInFlight(a, peerId, routeId, payload, d)[..4])
         == Bridged(cfg, a, peerId, routeId, Charge(Unused(), |payload|), [Record(BridgedCall(a, routeId, payload, d), InFlight)])
  {
    hide Begin, Run, Objection;
    var ops := TwoInFlight(a, peerId, routeId, payload, d);
    BridgedRun(cfg, a, peerId, routeId, payload, d);
    var x3 := Run(cfg, ops[..3]);
    assert x3 == Bridged(cfg, a, peerId, routeId, Unused(), []) && x3.records == [];
    assert Run(cfg, ops[..4]) == StepBegin(cfg, x3, a, routeId, payload, 0, Some(d)) by { RunStep(cfg, ops, 3); }
    assert [] + [Record(BridgedCall(a, routeId, payload, d), InFlight)] == [Record(BridgedCall(a, routeId, payload, d), InFlight)];
    BridgedBegin(cfg, x3, a, peerId, routeId, Unused(), payload, d);
  }

  lemma {:induction false} BothReserved(cfg: Config, a: Id, peerId: Id, routeId: Id, payload: bytes, d: Delivery)
    requires ValidId(a) && ValidId(peerId) && ValidId(routeId) && ValidId(d.id)
    requires |payload| <= cfg.maxFrameBytes && cfg.maxFrames >= 2 && 2 * |payload| <= cfg.maxBytes
    ensures Run(cfg, TwoInFlight(a, peerId, routeId, payload, d)[..5])
         == Bridged(cfg, a, peerId, routeId, Charge(Charge(Unused(), |payload|), |payload|),
                    [Record(BridgedCall(a, routeId, payload, d), InFlight), Record(BridgedCall(a, routeId, payload, d), InFlight)])
  {
    hide Begin, Run, Objection;
    var ops := TwoInFlight(a, peerId, routeId, payload, d);
    var x4 := Run(cfg, ops[..4]);
    FirstReserved(cfg, a, peerId, routeId, payload, d);
    assert x4.records == [Record(BridgedCall(a, routeId, payload, d), InFlight)];
    assert Run(cfg, ops[..5]) == StepBegin(cfg, x4, a, routeId, payload, 0, Some(d)) by { RunStep(cfg, ops, 4); }
    BridgedBegin(cfg, x4, a, peerId, routeId, Charge(Unused(), |payload|), payload, d);
  }

  /** Two deliveries of one key in flight at once are both delivered, whatever the size of the window. */
  lemma {:induction false} ConcurrentDuplicates(cfg: Config, a: Id, peerId: Id, routeId: Id, payload: bytes, d: Delivery)
    requires ValidId(a) && ValidId(peerId) && ValidId(routeId) && ValidId(d.id)
    requires |payload| <= cfg.maxFrameBytes && cfg.maxFrames >= 2 && 2 * |payload| <= cfg.maxBytes
    ensures var delivered := Delivered(Key([], d.stream, d.id), d.digest);
            Run(cfg, TwoInFlight(a, peerId, routeId, payload, d)).logs == [Log(a, [], [], [delivered, delivered])]
  {
    var ops := TwoInFlight(a, peerId, routeId, payload, d);
    var call := BridgedCall(a, routeId, payload, d);
    var x5, x6 := Run(cfg, ops[..5]), Run(cfg, ops[..6]);
    BothReserved(cfg, a, peerId, routeId, payload, d);
    assert x6 == StepEnd(cfg, x5, 0, Accepted) by { RunStep(cfg, ops, 5); }
    BridgedEnd(cfg, x5, 0, call, call.delivered.value);
    assert Run(cfg, ops) == StepEnd(cfg, x6, 1, Accepted) by {
      RunStep(cfg, ops, 6);
      assert ops[..7] == ops;
    }
    BridgedEnd(cfg, x6, 1, call, call.delivered.value);
    DeliveredTwice(a, call.delivered.value);
  }

  lemma {:induction false} DeliveredTwice(a: Id, d: Delivered)
    ensures Deliver(Deliver([Log(a, [], [], [])], 0, Some(d)), 0, Some(d)) == [Log(a, [], [], [d, d])]
  {
    assert [] + [d] + [d] == [d, d];
  }
}
