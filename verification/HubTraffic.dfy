/**
  The promises of the hub about traffic, over every run: usage is what was sent plus what is in flight, an inbox
  is what was accepted and not yet taken, and the counters are the history.
*/
module HubTraffic {
  import opened Bytes
  import opened ReplayWindows
  import opened HubModel
  import opened HubStructure
  import opened HubSystem

  // ---------------------------------------------------------------- what each section does to the sessions

  /** Sections that neither charge, queue, take nor count. */
  predicate Quiet(op: Op) {
    || op.DoPair? || op.DoAnnounceFederated? || op.DoAnnounce? || op.DoHeartbeat? || op.DoLookup? || op.DoLookupLocal?
    || op.DoRendezvous? || op.DoSweep? || op.DoReceive? || op.DoLook? || op.DoTest? || op.DoDone?
    || op.DoCancel? || op.DoDetach? || op.DoClose?
  }

  predicate SameSession(a: Session, b: Session) {
    a.token == b.token && a.inbox == b.inbox && a.frames == b.frames && a.bytes == b.bytes && a.deliveries == b.deliveries
  }

  ghost predicate Untouched(s: Hub, s': Hub) {
    && s'.nextToken == s.nextToken && s'.stats == s.stats
    && (forall id :: id in s'.sessions ==> id in s.sessions && SameSession(s'.sessions[id], s.sessions[id]))
  }

  lemma {:induction false} SameSessionsUntouched(s: Hub, s': Hub)
    requires s'.sessions == s.sessions && s'.nextToken == s.nextToken && s'.stats == s.stats
    ensures Untouched(s, s')
  {
  }

  lemma {:induction false} RendezvousUntouched(s: Hub, from: Id, routeId: Id, peerId: Id, now: int)
    ensures Untouched(s, Rendezvous(s, from, routeId, peerId, now).0)
  {
    var looked := Lookup(s, peerId, now).0;
    assert looked.sessions == s.sessions && looked.nextToken == s.nextToken && looked.stats == s.stats;
    SameSessionsUntouched(s, Rendezvous(s, from, routeId, peerId, now).0);
  }

  lemma {:induction false} LookupUntouched(s: Hub, peerId: Id, now: int)
    ensures Untouched(s, Lookup(s, peerId, now).0) && Untouched(s, LookupLocal(s, peerId, now).0)
  {
  }

  lemma {:induction false} SweepUntouched(s: Hub, now: int)
    ensures Untouched(s, Sweep(s, now).0)
  {
  }

  lemma {:induction false} EndingUntouched(s: Hub, id: Id)
    ensures Untouched(s, Detach(s, id)) && Untouched(s, Close(s))
  {
  }

  lemma {:induction false} AnnounceUntouched(cfg: Config, s: Hub, id: Id, peerId: Id, now: int)
    ensures Untouched(s, Announce(cfg, s, id, peerId, now).0)
  {
  }

  lemma {:induction false} RecordsUntouched(cfg: Config, s: Hub, id: Id, peerId: Id, forwarder: Option<nat>, now: int)
    ensures Untouched(s, Heartbeat(cfg, s, id, now).0) && Untouched(s, AnnounceFederated(cfg, s, peerId, forwarder, now).0)
  {
  }

  lemma {:induction false} PairUntouched(s: Hub, routeId: Id, left: Id, right: Id)
    ensures Untouched(s, Pair(s, routeId, left, right).0)
  {
  }

  lemma {:induction false} ReceiveUntouched(x: System, r: nat)
    ensures StepReceive(x, r) == x.(receivers := StepReceive(x, r).receivers)
    ensures StepLook(x, r) == x.(receivers := StepLook(x, r).receivers)
    ensures StepTest(x, r) == x.(receivers := StepTest(x, r).receivers)
    ensures StepDone(x, r) == x.(receivers := StepDone(x, r).receivers)
    ensures StepCancel(x, r) == x.(receivers := StepCancel(x, r).receivers)
  {
  }

  lemma {:induction false} QuietUntouched(cfg: Config, x: System, op: Op)
    requires Quiet(op)
    ensures Untouched(x.hub, Step(cfg, x, op).hub)
    ensures Step(cfg, x, op).records == x.records && Step(cfg, x, op).injected == x.injected && Step(cfg, x, op).logs == x.logs
  {
    hide Untouched, Pair, Announce, AnnounceFederated, Heartbeat, Lookup, LookupLocal, Rendezvous, Sweep, Detach, Close, StepReceive, StepLook, StepTest, StepDone, StepCancel;
    SameSessionsUntouched(x.hub, x.hub);
    match op
    case DoPair(routeId, left, right) => PairUntouched(x.hub, routeId, left, right);
    case DoAnnounce(id, peerId, now) => AnnounceUntouched(cfg, x.hub, id, peerId, now);
    case DoHeartbeat(id, now) => RecordsUntouched(cfg, x.hub, id, [], None, now);
    case DoLookup(peerId, now) => LookupUntouched(x.hub, peerId, now);
    case DoLookupLocal(peerId, now) => LookupUntouched(x.hub, peerId, now);
    case DoRendezvous(from, routeId, peerId, now) => RendezvousUntouched(x.hub, from, routeId, peerId, now);
    case DoAnnounceFederated(peerId, forwarder, now) => RecordsUntouched(cfg, x.hub, [], peerId, forwarder, now);
    case DoSweep(now) => SweepUntouched(x.hub, now);
    case DoReceive(handle) => ReceiveUntouched(x, handle);
    case DoLook(r) => ReceiveUntouched(x, r);
    case DoTest(r) => ReceiveUntouched(x, r);
    case DoDone(r) => ReceiveUntouched(x, r);
    case DoCancel(r) => ReceiveUntouched(x, r);
    case DoDetach(id) => EndingUntouched(x.hub, id);
    case DoClose => EndingUntouched(x.hub, []);
  }

  /** A call that the first section may charge: within quota and not in the replay window. */
  predicate Chargeable(cfg: Config, s: Hub, call: Call) {
    && call.from in s.sessions
    && call.token == s.sessions[call.from].token
    && call.size <= cfg.maxFrameBytes
    && QuotaAdmits(cfg, s.sessions[call.from], call.size)
    && (call.delivered.Some? ==> call.delivered.value.key !in s.sessions[call.from].deliveries.entries)
  }

  lemma {:induction false} CallChargeable(cfg: Config, s: Hub, from: Id, routeId: Id, payload: bytes, now: int, delivery: Option<Delivery>)
    requires Objection(cfg, s, from, routeId, payload, now, delivery).None?
    ensures Chargeable(cfg, s, CallFor(s, from, routeId, payload, delivery))
    ensures CallFor(s, from, routeId, payload, delivery).delivered.Some? <==> delivery.Some?
  {
  }

  /** How the first section ends: nothing for the sessions, a frame queued and charged, or quota reserved. */
  ghost predicate BeginEffect(cfg: Config, s: Hub, s': Hub, begun: Begun) {
    match begun
    case NotSent(_) => s'.sessions == s.sessions && s'.stats == s.stats.(droppedFrames := s'.stats.droppedFrames)
    case Queued(call, to, frame) =>
      && Chargeable(cfg, s, call)
      && exists id :: QueuedAt(cfg, s, s', call, id, to, frame)
    case Reserved(call, _, _) => Chargeable(cfg, s, call) && s' == Reserve(s, call)
  }

  ghost predicate QueuedAt(cfg: Config, s: Hub, s': Hub, call: Call, id: Id, to: nat, frame: Frame)
    requires call.from in s.sessions
  {
    && id in s.sessions && s.sessions[id].token == to && |s.sessions[id].inbox| < cfg.maxQueueDepth
    && s' == Settle(cfg, Enqueue(s, id, frame), call)
  }

  lemma {:induction false} DispatchEffect(cfg: Config, s: Hub, call: Call, to: Endpoint, frame: Frame)
    requires Chargeable(cfg, s, call)
    ensures var (s', begun) := Dispatch(cfg, s, call, to, frame);
            BeginEffect(cfg, s, s', begun) && (!begun.NotSent? ==> begun.call == call)
  {
    var (s', begun) := Dispatch(cfg, s, call, to, frame);
    if begun.Queued? {
      assert QueuedAt(cfg, s, s', call, to.sessionId, begun.to, frame);
    }
  }

  lemma {:induction false} BeginEffects(cfg: Config, s: Hub, from: Id, routeId: Id, payload: bytes, now: int, delivery: Option<Delivery>)
    ensures var (s', begun) := Begin(cfg, s, from, routeId, payload, now, delivery);
            && BeginEffect(cfg, s, s', begun) && s'.nextToken == s.nextToken
            && (!begun.NotSent? ==> begun.call.from == from && (begun.call.delivered.Some? <==> delivery.Some?))
  {
    BeginShrinks(cfg, s, from, routeId, payload, now, delivery);
    if Objection(cfg, s, from, routeId, payload, now, delivery).None? {
      CallChargeable(cfg, s, from, routeId, payload, now, delivery);
      DispatchEffect(cfg, s, CallFor(s, from, routeId, payload, delivery), PeerOf(s.routes[routeId], from).value,
                     Frame(routeId, s.sessions[from].peerId, payload));
    }
  }

  /** The first section charges the sender and nobody else. */
  lemma {:induction false} BeginCharges(cfg: Config, s: Hub, s': Hub, begun: Begun, id: Id)
    requires BeginEffect(cfg, s, s', begun) && !begun.NotSent? && id in s'.sessions
    ensures id in s.sessions && s'.sessions[id].token == s.sessions[id].token
    ensures if id == begun.call.from then s'.sessions[id].frames == Add64(s.sessions[id].frames, 1)
                                       && s'.sessions[id].bytes == Add64(s.sessions[id].bytes, begun.call.size)
            else s'.sessions[id].frames == s.sessions[id].frames && s'.sessions[id].bytes == s.sessions[id].bytes
  {
  }

  ghost predicate InjectEffect(cfg: Config, s: Hub, s': Hub, injected: Injected) {
    match injected
    case NotInjected(_) => s'.sessions == s.sessions && s'.stats == s.stats.(droppedFrames := s'.stats.droppedFrames)
    case Injected(to, frame) =>
      && |frame.payload| < TWO_64
      && exists id :: InjectedAt(cfg, s, s', id, to, frame)
  }

  ghost predicate InjectedAt(cfg: Config, s: Hub, s': Hub, id: Id, to: nat, frame: Frame)
    requires |frame.payload| < TWO_64
  {
    && id in s.sessions && s.sessions[id].token == to && |s.sessions[id].inbox| < cfg.maxQueueDepth
    && s' == Enqueue(s, id, frame).(stats := CountForwarded(s.stats, |frame.payload|))
  }

  lemma {:induction false} InjectEffects(cfg: Config, s: Hub, routeId: Id, payload: bytes, sender: Id)
    ensures var (s', injected) := Inject(cfg, s, routeId, payload, sender);
            InjectEffect(cfg, s, s', injected) && s'.nextToken == s.nextToken
  {
    var (s', injected) := Inject(cfg, s, routeId, payload, sender);
    if injected.Injected? {
      assert InjectedAt(cfg, s, s', LocalSide(s.routes[routeId]).value, injected.to, injected.frame);
    }
  }

  // ---------------------------------------------------------------- sums over the history

  function Sum(records: seq<Record>, weight: Record -> nat): nat {
    if records == [] then 0 else Sum(records[..|records| - 1], weight) + weight(records[|records| - 1])
  }

  lemma {:induction false} SumAppend(records: seq<Record>, r: Record, weight: Record -> nat)
    ensures Sum(records + [r], weight) == Sum(records, weight) + weight(r)
  {
    assert (records + [r])[..|records|] == records;
  }

  lemma {:induction false} SumUpdate(records: seq<Record>, i: nat, r: Record, weight: Record -> nat)
    requires i < |records|
    ensures Sum(records[i := r], weight) + weight(records[i]) == Sum(records, weight) + weight(r)
  {
    var n := |records| - 1;
    if i == n {
      assert records[i := r][..n] == records[..n];
    } else {
      SumUpdate(records[..n], i, r, weight);
      assert records[i := r][..n] == records[..n][i := r];
    }
  }

  lemma {:induction false} SumAtLeast(records: seq<Record>, i: nat, weight: Record -> nat)
    requires i < |records|
    ensures Sum(records, weight) >= weight(records[i])
  {
    if i < |records| - 1 {
      SumAtLeast(records[..|records| - 1], i, weight);
    }
  }

  lemma {:induction false} SumZero(records: seq<Record>, weight: Record -> nat)
    requires forall i :: 0 <= i < |records| ==> weight(records[i]) == 0
    ensures Sum(records, weight) == 0
  {
    if records != [] {
      SumZero(records[..|records| - 1], weight);
    }
  }

  predicate Charged(r: Record, token: nat) { r.call.token == token && r.status != Failed }

  /** Frames and bytes of a session that were sent or are in flight. */
  function FramesOf(token: nat): Record -> nat { (r: Record) => if Charged(r, token) then 1 else 0 }

  function BytesOf(token: nat): Record -> nat { (r: Record) => if Charged(r, token) then r.call.size else 0 }

  function SentFrames(): Record -> nat { (r: Record) => if r.status == Sent then 1 else 0 }

  function SentBytes(): Record -> nat { (r: Record) => if r.status == Sent then r.call.size else 0 }

  // ---------------------------------------------------------------- usage

  /** The quotas leave room for one more frame below 2^64. */
  predicate QuotaSound(cfg: Config) {
    cfg.maxFrames + 1 < TWO_64 && cfg.maxBytes + cfg.maxFrameBytes < TWO_64
  }

  /**
    The quota test adds in 64 bits. It is the test of the true sums, for every usage within the quotas and every
    admissible payload, if and only if the quotas leave that room.
  */
  lemma {:induction false} QuotaTestExact(cfg: Config)
    ensures QuotaSound(cfg)
       <==> forall session: Session, size: uint64 ::
              session.frames <= cfg.maxFrames && session.bytes <= cfg.maxBytes && size <= cfg.maxFrameBytes ==>
                (QuotaAdmits(cfg, session, size) <==> session.frames + 1 <= cfg.maxFrames && session.bytes + size <= cfg.maxBytes)
  {
    if cfg.maxFrames + 1 >= TWO_64 {
      var full := Session(0, [], cfg.maxFrames, 0, [], EmptyWindow());
      assert QuotaAdmits(cfg, full, 0) && !(full.frames + 1 <= cfg.maxFrames);
    } else if cfg.maxBytes + cfg.maxFrameBytes >= TWO_64 {
      var full := Session(0, [], 0, cfg.maxBytes, [], EmptyWindow());
      var size: uint64 := TWO_64 - cfg.maxBytes;
      assert QuotaAdmits(cfg, full, size) && !(full.bytes + size <= cfg.maxBytes);
    }
  }

  // A run that uses up a quota of 2^64 - 1 frames, with empty frames to a remote relay.

  function Spend(a: Id, peerId: Id, routeId: Id, n: nat): seq<Op> {
    if n == 0 then [DoAttach(a), DoAnnounceFederated(peerId, Some(0), 0), DoRendezvous(a, routeId, peerId, 0)]
    else Spend(a, peerId, routeId, n - 1) + [DoBegin(a, routeId, [], 0, None)]
  }

  predicate Spent(cfg: Config, s: Hub, a: Id, peerId: Id, routeId: Id, n: uint64) {
    && !s.closed && s.finished == {} && s.sessions == map[a := Session(0, [], n, 0, [], EmptyWindow())]
    && s.routes == map[routeId := Route(Endpoint(a, None, []), Endpoint([], Some(0), peerId))]
    && s.federated == map[peerId := Federated(Some(0), cfg.presenceTtl)]
  }

  lemma {:induction false} SpendReady(cfg: Config, a: Id, peerId: Id, routeId: Id)
    requires ValidId(a) && ValidId(peerId) && ValidId(routeId)
    ensures Spent(cfg, Run(cfg, Spend(a, peerId, routeId, 0)).hub, a, peerId, routeId, 0)
  {
    var ops := Spend(a, peerId, routeId, 0);
    assert ops[..0] == [] && ops[..3] == ops;
    RunStep(cfg, ops, 0);
    RunStep(cfg, ops, 1);
    RunStep(cfg, ops, 2);
  }

  lemma {:induction false} SpendOne(cfg: Config, s: Hub, a: Id, peerId: Id, routeId: Id, n: uint64)
    requires ValidId(a) && ValidId(peerId) && Spent(cfg, s, a, peerId, routeId, n)
    requires Add64(n, 1) <= cfg.maxFrames
    ensures var (s', begun) := Begin(cfg, s, a, routeId, [], 0, None);
            begun.Reserved? && Spent(cfg, s', a, peerId, routeId, Add64(n, 1))
  {
    assert RouteLive(s, s.routes[routeId], 0);
    assert Objection(cfg, s, a, routeId, [], 0, None) == None;
    var charged := Charge(s.sessions[a], 0);
    assert s.sessions[a := charged] == map[a := charged];
  }

  lemma {:induction false} SpendAll(cfg: Config, a: Id, peerId: Id, routeId: Id, n: nat)
    requires ValidId(a) && ValidId(peerId) && ValidId(routeId) && n <= cfg.maxFrames
    ensures Spent(cfg, Run(cfg, Spend(a, peerId, routeId, n)).hub, a, peerId, routeId, n)
  {
    hide Spent, Begin;
    if n == 0 {
      SpendReady(cfg, a, peerId, routeId);
    } else {
      var ops := Spend(a, peerId, routeId, n);
      SpendAll(cfg, a, peerId, routeId, n - 1);
      assert ops[..|ops| - 1] == Spend(a, peerId, routeId, n - 1);
      SpendOne(cfg, Run(cfg, ops[..|ops| - 1]).hub, a, peerId, routeId, n - 1);
    }
  }

  /** With a quota of 2^64 - 1 frames, a run that has used it up can send another, and its count starts again at zero. */
  lemma {:induction false} QuotaWraps(cfg: Config, a: Id, peerId: Id, routeId: Id)
    requires ValidId(a) && ValidId(peerId) && ValidId(routeId) && cfg.maxFrames == TWO_64 - 1
    ensures var hub := Run(cfg, Spend(a, peerId, routeId, cfg.maxFrames)).hub;
            var (after, begun) := Begin(cfg, hub, a, routeId, [], 0, None);
            && a in hub.sessions && hub.sessions[a].frames == cfg.maxFrames
            && begun.Reserved? && a in after.sessions && after.sessions[a].frames == 0
  {
    SpendAll(cfg, a, peerId, routeId, cfg.maxFrames);
    var hub := Run(cfg, Spend(a, peerId, routeId, cfg.maxFrames)).hub;
    hide Begin, Run;
    SpendOne(cfg, hub, a, peerId, routeId, cfg.maxFrames);
  }

  ghost predicate Balanced(cfg: Config, records: seq<Record>, session: Session) {
    && session.frames == Sum(records, FramesOf(session.token))
    && session.bytes == Sum(records, BytesOf(session.token))
    && session.frames <= cfg.maxFrames
    && session.bytes <= cfg.maxBytes
  }

  /** Tokens name log entries, and a call is charged to the session that its token names. */
  ghost predicate LogsOk(x: System) {
    && |x.logs| == x.hub.nextToken
    && (forall id :: id in x.hub.sessions ==> x.hub.sessions[id].token < |x.logs| && x.logs[x.hub.sessions[id].token].id == id)
    && (forall i :: 0 <= i < |x.records| ==> x.records[i].call.token < |x.logs| && x.logs[x.records[i].call.token].id == x.records[i].call.from)
  }

  ghost predicate Accounts(cfg: Config, x: System) {
    && (forall i :: 0 <= i < |x.records| ==> x.records[i].call.size <= cfg.maxFrameBytes)
    && (forall id :: id in x.hub.sessions ==> Balanced(cfg, x.records, x.hub.sessions[id]))
  }

  lemma {:induction false} ChargeBalanced(cfg: Config, records: seq<Record>, session: Session, charged: Session, r: Record)
    requires QuotaSound(cfg) && Balanced(cfg, records, session) && r.call.token == session.token && r.status != Failed
    requires QuotaAdmits(cfg, session, r.call.size) && r.call.size <= cfg.maxFrameBytes
    requires charged.token == session.token
    requires charged.frames == Add64(session.frames, 1) && charged.bytes == Add64(session.bytes, r.call.size)
    ensures Balanced(cfg, records + [r], charged)
  {
    SumAppend(records, r, FramesOf(session.token));
    SumAppend(records, r, BytesOf(session.token));
  }

  lemma {:induction false} OtherBalanced(cfg: Config, records: seq<Record>, session: Session, other: Session, r: Record)
    requires Balanced(cfg, records, session) && r.call.token != session.token
    requires other.token == session.token && other.frames == session.frames && other.bytes == session.bytes
    ensures Balanced(cfg, records + [r], other)
  {
    SumAppend(records, r, FramesOf(session.token));
    SumAppend(records, r, BytesOf(session.token));
  }

  function RecordOf(begun: Begun): Record
    requires !begun.NotSent?
  {
    Record(begun.call, if begun.Queued? then Sent else InFlight)
  }

  lemma {:induction false} BeginRecords(cfg: Config, x: System, from: Id, routeId: Id, payload: bytes, now: int, delivery: Option<Delivery>)
    ensures var (s', begun) := Begin(cfg, x.hub, from, routeId, payload, now, delivery);
            var x' := StepBegin(cfg, x, from, routeId, payload, now, delivery);
            x'.hub == s' && x'.injected == x.injected
            && x'.records == if begun.NotSent? then x.records else x.records + [RecordOf(begun)]
  {
  }

  lemma {:induction false} ChargeAccounts(cfg: Config, x: System, x': System, begun: Begun)
    requires QuotaSound(cfg) && Structure(cfg, x.hub) && Accounts(cfg, x)
    requires BeginEffect(cfg, x.hub, x'.hub, begun) && !begun.NotSent? && x'.records == x.records + [RecordOf(begun)]
    ensures Accounts(cfg, x')
  {
    assert Chargeable(cfg, x.hub, begun.call);
    forall id | id in x'.hub.sessions ensures Balanced(cfg, x'.records, x'.hub.sessions[id]) {
      BeginCharges(cfg, x.hub, x'.hub, begun, id);
      ChargedBalanced(cfg, x, x'.hub, RecordOf(begun), id);
    }
  }

  lemma {:induction false} BeginAccounts(cfg: Config, x: System, from: Id, routeId: Id, payload: bytes, now: int, delivery: Option<Delivery>)
    requires QuotaSound(cfg) && Structure(cfg, x.hub) && Accounts(cfg, x)
    ensures Accounts(cfg, StepBegin(cfg, x, from, routeId, payload, now, delivery))
  {
    var begun := Begin(cfg, x.hub, from, routeId, payload, now, delivery).1;
    BeginEffects(cfg, x.hub, from, routeId, payload, now, delivery);
    BeginRecords(cfg, x, from, routeId, payload, now, delivery);
    if !begun.NotSent? {
      ChargeAccounts(cfg, x, StepBegin(cfg, x, from, routeId, payload, now, delivery), begun);
    }
  }

  lemma {:induction false} ChargedBalanced(cfg: Config, x: System, s': Hub, r: Record, id: Id)
    requires QuotaSound(cfg) && Structure(cfg, x.hub) && Accounts(cfg, x)
    requires Chargeable(cfg, x.hub, r.call) && r.status != Failed && id in s'.sessions
    requires id in x.hub.sessions && s'.sessions[id].token == x.hub.sessions[id].token
    requires if id == r.call.from then s'.sessions[id].frames == Add64(x.hub.sessions[id].frames, 1)
                                    && s'.sessions[id].bytes == Add64(x.hub.sessions[id].bytes, r.call.size)
             else s'.sessions[id].frames == x.hub.sessions[id].frames && s'.sessions[id].bytes == x.hub.sessions[id].bytes
    ensures Balanced(cfg, x.records + [r], s'.sessions[id])
  {
    if id == r.call.from {
      ChargeBalanced(cfg, x.records, x.hub.sessions[id], s'.sessions[id], r);
    } else {
      OtherBalanced(cfg, x.records, x.hub.sessions[id], s'.sessions[id], r);
    }
  }

  /** Taking back a reservation never meets the saturating branches. */
  lemma {:induction false} RefundExact(cfg: Config, x: System, i: nat)
    requires Accounts(cfg, x) && i < |x.records| && x.records[i].status == InFlight && StillAttached(x.hub, x.records[i].call)
    ensures var call := x.records[i].call;
            var session := x.hub.sessions[call.from];
            && session.frames >= 1 && session.bytes >= call.size
            && Refund(session, call.size).frames + 1 == session.frames
            && Refund(session, call.size).bytes + call.size == session.bytes
  {
    var session := x.hub.sessions[x.records[i].call.from];
    assert Balanced(cfg, x.records, session);
    SumAtLeast(x.records, i, FramesOf(session.token));
    SumAtLeast(x.records, i, BytesOf(session.token));
  }

  lemma {:induction false} UpdateBalanced(cfg: Config, records: seq<Record>, i: nat, status: Status, session: Session, session': Session)
    requires Balanced(cfg, records, session) && i < |records| && records[i].status == InFlight
    requires session'.token == session.token
    requires if records[i].call.token == session.token && status == Failed
             then session'.frames + 1 == session.frames && session'.bytes + records[i].call.size == session.bytes
             else session'.frames == session.frames && session'.bytes == session.bytes
    requires status != InFlight
    ensures Balanced(cfg, records[i := Record(records[i].call, status)], session')
  {
    var r := Record(records[i].call, status);
    SumUpdate(records, i, r, FramesOf(session.token));
    SumUpdate(records, i, r, BytesOf(session.token));
  }

  lemma {:induction false} EndAccounts(cfg: Config, x: System, i: nat, outcome: Outcome)
    requires Structure(cfg, x.hub) && LogsOk(x) && Accounts(cfg, x)
    ensures Accounts(cfg, StepEnd(cfg, x, i, outcome))
  {
    var x' := StepEnd(cfg, x, i, outcome);
    if i < |x.records| && x.records[i].status == InFlight {
      var call := x.records[i].call;
      forall id | id in x'.hub.sessions ensures Balanced(cfg, x'.records, x'.hub.sessions[id]) {
        assert id in x.hub.sessions && Balanced(cfg, x.records, x.hub.sessions[id]);
        if StillAttached(x.hub, call) {
          RefundExact(cfg, x, i);
        }
        assert x.hub.sessions[id].token == call.token ==> id == call.from;
        UpdateBalanced(cfg, x.records, i, if outcome == Accepted then Sent else Failed, x.hub.sessions[id], x'.hub.sessions[id]);
      }
    }
  }

  lemma {:induction false} AttachAccounts(cfg: Config, x: System, id: Id)
    requires LogsOk(x) && Accounts(cfg, x)
    ensures Accounts(cfg, StepAttach(cfg, x, id))
  {
    var token := x.hub.nextToken;
    SumZero(x.records, FramesOf(token));
    SumZero(x.records, BytesOf(token));
  }

  /** Sections that leave usage alone. */
  ghost predicate SameUsage(s: Hub, s': Hub) {
    forall id :: id in s'.sessions ==>
      && id in s.sessions && s'.sessions[id].token == s.sessions[id].token
      && s'.sessions[id].frames == s.sessions[id].frames && s'.sessions[id].bytes == s.sessions[id].bytes
  }

  lemma {:induction false} SameUsageAccounts(cfg: Config, x: System, x': System)
    requires Accounts(cfg, x) && x'.records == x.records && SameUsage(x.hub, x'.hub)
    ensures Accounts(cfg, x')
  {
  }

  lemma {:induction false} InjectUsage(cfg: Config, s: Hub, routeId: Id, payload: bytes, sender: Id)
    ensures SameUsage(s, Inject(cfg, s, routeId, payload, sender).0)
  {
    InjectEffects(cfg, s, routeId, payload, sender);
  }

  lemma {:induction false} TakeUsage(x: System, r: nat)
    ensures SameUsage(x.hub, StepTake(x, r).hub) && StepTake(x, r).records == x.records
  {
  }

  lemma {:induction false} QuietAccounts(cfg: Config, x: System, op: Op)
    requires Quiet(op) && Accounts(cfg, x)
    ensures Accounts(cfg, Step(cfg, x, op))
  {
    QuietUntouched(cfg, x, op);
    SameUsageAccounts(cfg, x, Step(cfg, x, op));
  }

  lemma {:induction false} InjectAccounts(cfg: Config, x: System, routeId: Id, payload: bytes, sender: Id)
    requires Accounts(cfg, x)
    ensures Accounts(cfg, StepInject(cfg, x, routeId, payload, sender))
  {
    InjectUsage(cfg, x.hub, routeId, payload, sender);
    SameUsageAccounts(cfg, x, StepInject(cfg, x, routeId, payload, sender));
  }

  lemma {:induction false} TakeAccounts(cfg: Config, x: System, r: nat)
    requires Accounts(cfg, x)
    ensures Accounts(cfg, StepTake(x, r))
  {
    TakeUsage(x, r);
    SameUsageAccounts(cfg, x, StepTake(x, r));
  }

  lemma {:induction false} StepAccounts(cfg: Config, x: System, op: Op)
    requires QuotaSound(cfg) && Structure(cfg, x.hub) && LogsOk(x) && Accounts(cfg, x)
    ensures Accounts(cfg, Step(cfg, x, op))
  {
    hide StepBegin, StepEnd, StepInject, StepTake, StepAttach, Accounts, Structure, LogsOk;
    match op
    case DoAttach(id) => AttachAccounts(cfg, x, id);
    case DoBegin(from, routeId, payload, now, delivery) => BeginAccounts(cfg, x, from, routeId, payload, now, delivery);
    case DoEnd(i, outcome) => EndAccounts(cfg, x, i, outcome);
    case DoInject(routeId, payload, sender) => InjectAccounts(cfg, x, routeId, payload, sender);
    case DoTake(r) => TakeAccounts(cfg, x, r);
    case _ => QuietAccounts(cfg, x, op);
  }

  // ---------------------------------------------------------------- the log

  ghost predicate SameIds(logs: seq<Log>, logs': seq<Log>) {
    |logs'| == |logs| && forall t :: 0 <= t < |logs| ==> logs'[t].id == logs[t].id
  }

  lemma {:induction false} LogIds(logs: seq<Log>, to: nat, frame: Frame, token: nat, d: Option<Delivered>)
    ensures SameIds(logs, Accept(logs, to, frame)) && SameIds(logs, Deliver(logs, token, d))
    ensures SameIds(logs, Deliver(Accept(logs, to, frame), token, d))
  {
  }

  /** The tokens and identifiers of the sessions stay, and at most one record is added, for an attached session. */
  lemma {:induction false} LogsStay(x: System, x': System)
    requires LogsOk(x) && SameIds(x.logs, x'.logs) && SameSessions(x.hub, x'.hub)
    requires forall i :: 0 <= i < |x'.records| ==>
               (i < |x.records| && x'.records[i].call == x.records[i].call) || StillAttached(x.hub, x'.records[i].call)
    ensures LogsOk(x')
  {
  }

  lemma {:induction false} BeginLogs(cfg: Config, x: System, from: Id, routeId: Id, payload: bytes, now: int, delivery: Option<Delivery>)
    requires LogsOk(x)
    ensures LogsOk(StepBegin(cfg, x, from, routeId, payload, now, delivery))
  {
    var x' := StepBegin(cfg, x, from, routeId, payload, now, delivery);
    var (s', begun) := Begin(cfg, x.hub, from, routeId, payload, now, delivery);
    BeginEffects(cfg, x.hub, from, routeId, payload, now, delivery);
    BeginShrinks(cfg, x.hub, from, routeId, payload, now, delivery);
    if begun.Queued? {
      LogIds(x.logs, begun.to, begun.frame, begun.call.token, begun.call.delivered);
    }
    LogsStay(x, x');
  }

  lemma {:induction false} EndLogs(cfg: Config, x: System, i: nat, outcome: Outcome)
    requires LogsOk(x)
    ensures LogsOk(StepEnd(cfg, x, i, outcome))
  {
    if i < |x.records| {
      EndShrinks(cfg, x.hub, x.records[i].call, outcome);
      LogIds(x.logs, 0, Frame([], [], []), x.records[i].call.token, x.records[i].call.delivered);
    }
    LogsStay(x, StepEnd(cfg, x, i, outcome));
  }

  lemma {:induction false} InjectLogs(cfg: Config, x: System, routeId: Id, payload: bytes, sender: Id)
    requires LogsOk(x)
    ensures LogsOk(StepInject(cfg, x, routeId, payload, sender))
  {
    InjectShrinks(cfg, x.hub, routeId, payload, sender);
    var injected := Inject(cfg, x.hub, routeId, payload, sender).1;
    if injected.Injected? {
      LogIds(x.logs, injected.to, injected.frame, 0, None);
    }
    LogsStay(x, StepInject(cfg, x, routeId, payload, sender));
  }

  lemma {:induction false} TakeLogs(x: System, r: nat)
    requires LogsOk(x)
    ensures LogsOk(StepTake(x, r))
  {
    if CanTake(x, r) {
      TakeShrinks(x.hub, ObjectOf(x, x.receivers[r].token));
      hide Take, InboxOf, Queue, LogsOk;
      LogsStay(x, StepTake(x, r));
    }
  }

  lemma {:induction false} QuietLogs(cfg: Config, x: System, op: Op)
    requires LogsOk(x) && Quiet(op)
    ensures LogsOk(Step(cfg, x, op))
  {
    QuietUntouched(cfg, x, op);
  }

  lemma {:induction false} StepLogs(cfg: Config, x: System, op: Op)
    requires LogsOk(x)
    ensures LogsOk(Step(cfg, x, op))
  {
    match op
    case DoAttach(id) =>
    case DoBegin(from, routeId, payload, now, delivery) => BeginLogs(cfg, x, from, routeId, payload, now, delivery);
    case DoEnd(i, outcome) => EndLogs(cfg, x, i, outcome);
    case DoInject(routeId, payload, sender) => InjectLogs(cfg, x, routeId, payload, sender);
    case DoTake(r) => TakeLogs(x, r);
    case _ => QuietLogs(cfg, x, op);
  }

  lemma {:induction false} RunLogs(cfg: Config, ops: seq<Op>)
    ensures LogsOk(Run(cfg, ops))
  {
    if ops != [] {
      RunLogs(cfg, ops[..|ops| - 1]);
      StepLogs(cfg, Run(cfg, ops[..|ops| - 1]), ops[|ops| - 1]);
    }
  }

  /**
    In every reachable state the usage of an attached session is exactly what it sent plus what it has in flight,
    whatever the order of the sections, and stays within the quotas.
  */
  lemma {:induction false} RunAccounts(cfg: Config, ops: seq<Op>)
    requires QuotaSound(cfg)
    ensures Accounts(cfg, Run(cfg, ops))
  {
    if ops != [] {
      RunAccounts(cfg, ops[..|ops| - 1]);
      RunStructure(cfg, ops[..|ops| - 1]);
      RunLogs(cfg, ops[..|ops| - 1]);
      StepAccounts(cfg, Run(cfg, ops[..|ops| - 1]), ops[|ops| - 1]);
    }
  }

  /** So a failed federated call is taken back exactly. */
  lemma {:induction false} RollbackExact(cfg: Config, ops: seq<Op>, i: nat)
    requires QuotaSound(cfg) && i < |Run(cfg, ops).records|
    requires Run(cfg, ops).records[i].status == InFlight && StillAttached(Run(cfg, ops).hub, Run(cfg, ops).records[i].call)
    ensures var call := Run(cfg, ops).records[i].call;
            var session := Run(cfg, ops).hub.sessions[call.from];
            && session.frames >= 1 && session.bytes >= call.size
            && Refund(session, call.size).frames + 1 == session.frames
            && Refund(session, call.size).bytes + call.size == session.bytes
  {
    RunAccounts(cfg, ops);
    RefundExact(cfg, Run(cfg, ops), i);
  }

  // ---------------------------------------------------------------- inboxes

  /**
    What was taken from the inbox of a session object, followed by what is in it, is what was accepted for it, whether
    or not it is still attached.
  */
  predicate Conserved(cfg: Config, log: Log, queue: seq<Frame>) {
    log.taken + queue == log.accepted && |queue| <= cfg.maxQueueDepth
  }

  ghost predicate Inboxes(cfg: Config, x: System) {
    forall t :: 0 <= t < |x.logs| ==> Conserved(cfg, x.logs[t], Queue(x, t))
  }

  /** Sections that neither fill nor empty an inbox, although they may detach its session. */
  ghost predicate SameInboxes(s: Hub, s': Hub) {
    forall o :: InboxOf(s', o) == InboxOf(s, o)
  }

  ghost predicate SameFrames(logs: seq<Log>, logs': seq<Log>) {
    |logs'| == |logs| && forall t :: 0 <= t < |logs| ==>
      logs'[t].id == logs[t].id && logs'[t].accepted == logs[t].accepted && logs'[t].taken == logs[t].taken
  }

  lemma {:induction false} SameConserved(cfg: Config, x: System, x': System)
    requires Inboxes(cfg, x) && SameInboxes(x.hub, x'.hub) && SameFrames(x.logs, x'.logs)
    ensures Inboxes(cfg, x')
  {
    hide InboxOf;
    forall t | 0 <= t < |x'.logs| ensures Conserved(cfg, x'.logs[t], Queue(x', t)) {
      assert Conserved(cfg, x.logs[t], Queue(x, t));
    }
  }

  lemma {:induction false} InPlace(s: Hub, s': Hub)
    requires s'.detached == s.detached && s'.sessions.Keys == s.sessions.Keys
    requires forall id :: id in s.sessions ==> s'.sessions[id].token == s.sessions[id].token && s'.sessions[id].inbox == s.sessions[id].inbox
    ensures SameInboxes(s, s')
  {
  }

  /** An inbox moves with its session object. */
  lemma {:induction false} DetachInboxes(s: Hub, id: Id)
    ensures SameInboxes(s, Detach(s, id))
  {
  }

  lemma {:induction false} InboxMember(sessions: map<Id, Session>, o: Object)
    ensures o in HubModel.Inboxes(sessions) <==> o.id in sessions && sessions[o.id].token == o.token
    ensures o in HubModel.Inboxes(sessions) ==> HubModel.Inboxes(sessions)[o] == sessions[o.id].inbox
  {
    if o.id in sessions && sessions[o.id].token == o.token {
      assert Object(o.id, sessions[o.id].token) == o;
    }
  }

  lemma {:induction false} ClosedQueue(s: Hub, s': Hub, more: map<Object, seq<Frame>>, o: Object)
    requires s'.sessions == map[] && s'.detached == s.detached + more
    requires o in more <==> IsAttached(s, o)
    requires o in more ==> more[o] == s.sessions[o.id].inbox
    ensures InboxOf(s', o) == InboxOf(s, o)
  {
  }

  lemma {:induction false} CloseInboxes(s: Hub)
    ensures SameInboxes(s, Close(s))
  {
    if !s.closed {
      var more := HubModel.Inboxes(s.sessions);
      assert Close(s).sessions == map[] && Close(s).detached == s.detached + more;
      hide InboxOf, Close, HubModel.Inboxes;
      forall o ensures InboxOf(Close(s), o) == InboxOf(s, o) {
        InboxMember(s.sessions, o);
        ClosedQueue(s, Close(s), more, o);
      }
    }
  }

  /** Sections on presence and routes. */
  predicate Plain(op: Op) {
    op.DoPair? || op.DoAnnounceFederated? || op.DoAnnounce? || op.DoHeartbeat? || op.DoLookup? || op.DoLookupLocal? || op.DoRendezvous? || op.DoSweep?
  }

  predicate SameObjects(s: Hub, s': Hub) { s'.sessions == s.sessions && s'.detached == s.detached }

  lemma {:induction false} LookupInPlace(s: Hub, peerId: Id, now: int)
    ensures SameObjects(s, Lookup(s, peerId, now).0) && SameObjects(s, LookupLocal(s, peerId, now).0)
  {
  }

  lemma {:induction false} RendezvousInPlace(s: Hub, from: Id, routeId: Id, peerId: Id, now: int)
    ensures SameObjects(s, Rendezvous(s, from, routeId, peerId, now).0)
  {
    LookupInPlace(s, peerId, now);
    hide Lookup;
  }

  lemma {:induction false} PairInPlace(s: Hub, routeId: Id, left: Id, right: Id)
    ensures SameObjects(s, Pair(s, routeId, left, right).0)
  {
  }

  lemma {:induction false} RecordsInPlace(cfg: Config, s: Hub, id: Id, forwarder: Option<nat>, now: int)
    ensures SameObjects(s, Heartbeat(cfg, s, id, now).0) && SameObjects(s, AnnounceFederated(cfg, s, id, forwarder, now).0)
    ensures SameObjects(s, Sweep(s, now).0)
  {
  }

  lemma {:induction false} PlainInPlace(cfg: Config, x: System, op: Op)
    requires Plain(op) && !op.DoAnnounce?
    ensures SameObjects(x.hub, Step(cfg, x, op).hub)
  {
    hide SameObjects, Pair, AnnounceFederated, Heartbeat, Lookup, LookupLocal, Rendezvous, Sweep;
    match op
    case DoPair(routeId, left, right) => PairInPlace(x.hub, routeId, left, right);
    case DoAnnounceFederated(peerId, forwarder, now) => RecordsInPlace(cfg, x.hub, peerId, forwarder, now);
    case DoHeartbeat(id, now) => RecordsInPlace(cfg, x.hub, id, None, now);
    case DoLookup(peerId, now) => LookupInPlace(x.hub, peerId, now);
    case DoLookupLocal(peerId, now) => LookupInPlace(x.hub, peerId, now);
    case DoRendezvous(from, routeId, peerId, now) => RendezvousInPlace(x.hub, from, routeId, peerId, now);
    case DoSweep(now) => RecordsInPlace(cfg, x.hub, [], None, now);
  }

  lemma {:induction false} AnnounceInPlace(cfg: Config, s: Hub, id: Id, peerId: Id, now: int)
    ensures SameInboxes(s, Announce(cfg, s, id, peerId, now).0)
  {
    var s' := Announce(cfg, s, id, peerId, now).0;
    assert s'.detached == s.detached && s'.sessions.Keys == s.sessions.Keys;
    assert forall k :: k in s.sessions ==> s'.sessions[k].token == s.sessions[k].token && s'.sessions[k].inbox == s.sessions[k].inbox;
    hide SameInboxes, Announce;
    InPlace(s, s');
  }

  lemma {:induction false} NothingMoved(s: Hub)
    ensures SameInboxes(s, s)
  {
  }

  lemma {:induction false} QuietSame(cfg: Config, x: System, op: Op)
    requires Quiet(op)
    ensures SameInboxes(x.hub, Step(cfg, x, op).hub)
  {
    hide SameInboxes, Pair, Announce, AnnounceFederated, Heartbeat, Lookup, LookupLocal, Rendezvous, Sweep, Detach, Close;
    NothingMoved(x.hub);
    match op
    case DoAnnounce(id, peerId, now) => AnnounceInPlace(cfg, x.hub, id, peerId, now);
    case DoDetach(id) => DetachInboxes(x.hub, id);
    case DoClose => CloseInboxes(x.hub);
    case _ =>
      if Plain(op) {
        PlainInPlace(cfg, x, op);
        InPlace(x.hub, Step(cfg, x, op).hub);
      }
  }

  lemma {:induction false} QuietInboxes(cfg: Config, x: System, op: Op)
    requires Inboxes(cfg, x) && Quiet(op)
    ensures Inboxes(cfg, Step(cfg, x, op))
  {
    QuietUntouched(cfg, x, op);
    QuietSame(cfg, x, op);
    hide Inboxes, SameInboxes, Step, Untouched, Quiet;
    SameConserved(cfg, x, Step(cfg, x, op));
  }

  /** One more frame for one attached session object. */
  lemma {:induction false} EnqueueQueues(s: Hub, to: Id, frame: Frame, o: Object)
    requires to in s.sessions
    ensures InboxOf(Enqueue(s, to, frame), o)
         == if o == Object(to, s.sessions[to].token) then InboxOf(s, o) + [frame] else InboxOf(s, o)
  {
  }

  lemma {:induction false} EnqueueInboxes(cfg: Config, x: System, to: Id, frame: Frame)
    requires LogsOk(x) && Inboxes(cfg, x) && to in x.hub.sessions && |x.hub.sessions[to].inbox| < cfg.maxQueueDepth
    ensures Inboxes(cfg, x.(hub := Enqueue(x.hub, to, frame), logs := Accept(x.logs, x.hub.sessions[to].token, frame)))
  {
    var token := x.hub.sessions[to].token;
    var x' := x.(hub := Enqueue(x.hub, to, frame), logs := Accept(x.logs, token, frame));
    forall t | 0 <= t < |x'.logs| ensures Conserved(cfg, x'.logs[t], Queue(x', t)) {
      assert Conserved(cfg, x.logs[t], Queue(x, t));
      EnqueueQueues(x.hub, to, frame, ObjectOf(x, t));
      assert (x.logs[t].taken + Queue(x, t)) + [frame] == x.logs[t].taken + (Queue(x, t) + [frame]);
    }
  }

  lemma {:induction false} SettleSame(cfg: Config, s: Hub, call: Call)
    requires call.from in s.sessions
    ensures SameInboxes(s, Settle(cfg, s, call)) && SameInboxes(s, Reserve(s, call))
  {
    InPlace(s, Settle(cfg, s, call));
    InPlace(s, Reserve(s, call));
  }

  lemma {:induction false} DeliverFrames(logs: seq<Log>, token: nat, d: Option<Delivered>)
    ensures SameFrames(logs, Deliver(logs, token, d))
  {
  }

  lemma {:induction false} DispatchSame(cfg: Config, s: Hub, from: Id, routeId: Id, payload: bytes, now: int, delivery: Option<Delivery>)
    ensures var (s', begun) := Begin(cfg, s, from, routeId, payload, now, delivery);
            begun.NotSent? ==> s'.sessions == s.sessions && s'.detached == s.detached
  {
  }

  lemma {:induction false} BeginInboxes(cfg: Config, x: System, from: Id, routeId: Id, payload: bytes, now: int, delivery: Option<Delivery>)
    requires LogsOk(x) && Inboxes(cfg, x)
    ensures Inboxes(cfg, StepBegin(cfg, x, from, routeId, payload, now, delivery))
  {
    var x' := StepBegin(cfg, x, from, routeId, payload, now, delivery);
    var (s', begun) := Begin(cfg, x.hub, from, routeId, payload, now, delivery);
    BeginEffects(cfg, x.hub, from, routeId, payload, now, delivery);
    hide LogsOk, Inboxes, SameInboxes, Begin, Settle, Reserve, Enqueue, Accept, Deliver, SameFrames;
    if begun.Queued? {
      var to :| QueuedAt(cfg, x.hub, s', begun.call, to, begun.to, begun.frame);
      var queued := x.(hub := Enqueue(x.hub, to, begun.frame), logs := Accept(x.logs, begun.to, begun.frame));
      EnqueueInboxes(cfg, x, to, begun.frame);
      EnqueueKeepsSessions(x.hub, to, begun.frame);
      SettleSame(cfg, queued.hub, begun.call);
      DeliverFrames(queued.logs, begun.call.token, begun.call.delivered);
      SameConserved(cfg, queued, x');
    } else if begun.Reserved? {
      SettleSame(cfg, x.hub, begun.call);
      DeliverFrames(x.logs, 0, None);
      SameLogs(x.logs);
      SameConserved(cfg, x, x');
    } else {
      DispatchSame(cfg, x.hub, from, routeId, payload, now, delivery);
      InPlace(x.hub, s');
      SameLogs(x.logs);
      SameConserved(cfg, x, x');
    }
  }

  lemma {:induction false} EnqueueKeepsSessions(s: Hub, to: Id, frame: Frame)
    requires to in s.sessions
    ensures Enqueue(s, to, frame).sessions.Keys == s.sessions.Keys
  {
  }

  lemma {:induction false} SameLogs(logs: seq<Log>)
    ensures SameFrames(logs, logs)
  {
  }

  lemma {:induction false} InjectInboxes(cfg: Config, x: System, routeId: Id, payload: bytes, sender: Id)
    requires LogsOk(x) && Inboxes(cfg, x)
    ensures Inboxes(cfg, StepInject(cfg, x, routeId, payload, sender))
  {
    var x' := StepInject(cfg, x, routeId, payload, sender);
    var (s', injected) := Inject(cfg, x.hub, routeId, payload, sender);
    InjectEffects(cfg, x.hub, routeId, payload, sender);
    SameLogs(x.logs);
    if injected.Injected? {
      var to :| InjectedAt(cfg, x.hub, s', to, injected.to, injected.frame);
      var queued := x.(hub := Enqueue(x.hub, to, injected.frame), logs := Accept(x.logs, injected.to, injected.frame));
      EnqueueInboxes(cfg, x, to, injected.frame);
      InPlace(queued.hub, s');
      SameLogs(queued.logs);
      SameConserved(cfg, queued, x');
    } else {
      assert s'.detached == x.hub.detached;
      InPlace(x.hub, s');
      SameConserved(cfg, x, x');
    }
  }

  /** One frame less for one session object, attached or not. */
  lemma {:induction false} TakeQueues(s: Hub, taken: Object, o: Object)
    requires InboxOf(s, taken) != []
    ensures InboxOf(Take(s, taken), o) == if o == taken then InboxOf(s, o)[1..] else InboxOf(s, o)
  {
  }

  lemma {:induction false} TakeInboxes(cfg: Config, x: System, r: nat)
    requires Inboxes(cfg, x)
    ensures Inboxes(cfg, StepTake(x, r))
  {
    var x' := StepTake(x, r);
    if CanTake(x, r) {
      var token := x.receivers[r].token;
      forall t | 0 <= t < |x'.logs| ensures Conserved(cfg, x'.logs[t], Queue(x', t)) {
        assert Conserved(cfg, x.logs[t], Queue(x, t));
        TakeQueues(x.hub, ObjectOf(x, token), ObjectOf(x, t));
        if t == token {
          assert x.logs[t].taken + Queue(x, t) == (x.logs[t].taken + [Queue(x, t)[0]]) + Queue(x, t)[1..];
        }
      }
    }
  }

  lemma {:induction false} EndSame(cfg: Config, s: Hub, call: Call, outcome: Outcome)
    ensures SameInboxes(s, End(cfg, s, call, outcome))
  {
    InPlace(s, End(cfg, s, call, outcome));
  }

  lemma {:induction false} EndInboxes(cfg: Config, x: System, i: nat, outcome: Outcome)
    requires Inboxes(cfg, x)
    ensures Inboxes(cfg, StepEnd(cfg, x, i, outcome))
  {
    if i < |x.records| && x.records[i].status == InFlight {
      EndSame(cfg, x.hub, x.records[i].call, outcome);
      hide Inboxes, SameInboxes, End;
      SameConserved(cfg, x, StepEnd(cfg, x, i, outcome));
    }
  }

  lemma {:induction false} AttachInboxes(cfg: Config, x: System, id: Id)
    requires IdentitiesOk(x.hub) && LogsOk(x) && Inboxes(cfg, x)
    ensures Inboxes(cfg, StepAttach(cfg, x, id))
  {
    var x' := StepAttach(cfg, x, id);
    forall t | 0 <= t < |x'.logs| ensures Conserved(cfg, x'.logs[t], Queue(x', t)) {
      if t < |x.logs| {
        assert Conserved(cfg, x.logs[t], Queue(x, t));
      }
    }
  }

  lemma {:induction false} StepInboxes(cfg: Config, x: System, op: Op)
    requires Structure(cfg, x.hub) && LogsOk(x) && Inboxes(cfg, x)
    ensures Inboxes(cfg, Step(cfg, x, op))
  {
    hide StepBegin, StepEnd, StepInject, StepTake, StepAttach, Inboxes, LogsOk, IdentitiesOk, PresenceOk, RoutesOk, EmptyIfClosed;
    match op
    case DoAttach(id) => AttachInboxes(cfg, x, id);
    case DoBegin(from, routeId, payload, now, delivery) => BeginInboxes(cfg, x, from, routeId, payload, now, delivery);
    case DoEnd(i, outcome) => EndInboxes(cfg, x, i, outcome);
    case DoInject(routeId, payload, sender) => InjectInboxes(cfg, x, routeId, payload, sender);
    case DoTake(r) => TakeInboxes(cfg, x, r);
    case _ => QuietInboxes(cfg, x, op);
  }

  /**
    No frame that the hub accepted for a session object is lost before it is taken, repeated or reordered, even once the
    session is detached, and inboxes stay bounded.
  */
  lemma {:induction false} RunInboxes(cfg: Config, ops: seq<Op>)
    ensures Inboxes(cfg, Run(cfg, ops))
  {
    if ops != [] {
      RunInboxes(cfg, ops[..|ops| - 1]);
      RunStructure(cfg, ops[..|ops| - 1]);
      RunLogs(cfg, ops[..|ops| - 1]);
      StepInboxes(cfg, Run(cfg, ops[..|ops| - 1]), ops[|ops| - 1]);
    }
  }

  // ---------------------------------------------------------------- counters

  function Total(sizes: seq<uint64>): nat {
    if sizes == [] then 0 else Total(sizes[..|sizes| - 1]) + sizes[|sizes| - 1]
  }

  /** The counters are the history of successes, modulo 2^64. */
  predicate Counted(x: System) {
    && x.hub.stats.forwardedFrames == (Sum(x.records, SentFrames()) + |x.injected|) % TWO_64
    && x.hub.stats.forwardedBytes == (Sum(x.records, SentBytes()) + Total(x.injected)) % TWO_64
  }

  lemma {:induction false} CountedOnce(stats: Stats, frames: nat, octets: nat, size: uint64)
    requires stats.forwardedFrames == frames % TWO_64 && stats.forwardedBytes == octets % TWO_64
    ensures CountForwarded(stats, size).forwardedFrames == (frames + 1) % TWO_64
    ensures CountForwarded(stats, size).forwardedBytes == (octets + size) % TWO_64
  {
  }

  lemma {:induction false} ChargeCounted(cfg: Config, x: System, x': System, begun: Begun)
    requires Counted(x) && BeginEffect(cfg, x.hub, x'.hub, begun) && !begun.NotSent?
    requires x'.injected == x.injected && x'.records == x.records + [RecordOf(begun)]
    ensures Counted(x')
  {
    SumAppend(x.records, RecordOf(begun), SentFrames());
    SumAppend(x.records, RecordOf(begun), SentBytes());
    if begun.Queued? {
      CountedOnce(x.hub.stats, Sum(x.records, SentFrames()) + |x.injected|, Sum(x.records, SentBytes()) + Total(x.injected), begun.call.size);
    }
  }

  lemma {:induction false} BeginCounted(cfg: Config, x: System, from: Id, routeId: Id, payload: bytes, now: int, delivery: Option<Delivery>)
    requires Counted(x)
    ensures Counted(StepBegin(cfg, x, from, routeId, payload, now, delivery))
  {
    var begun := Begin(cfg, x.hub, from, routeId, payload, now, delivery).1;
    BeginEffects(cfg, x.hub, from, routeId, payload, now, delivery);
    BeginRecords(cfg, x, from, routeId, payload, now, delivery);
    if !begun.NotSent? {
      ChargeCounted(cfg, x, StepBegin(cfg, x, from, routeId, payload, now, delivery), begun);
    }
  }

  lemma {:induction false} EndStats(cfg: Config, x: System, i: nat, outcome: Outcome)
    ensures StepEnd(cfg, x, i, outcome).injected == x.injected
    ensures if i < |x.records| && x.records[i].status == InFlight then
              && StepEnd(cfg, x, i, outcome).records == x.records[i := Record(x.records[i].call, if outcome == Accepted then Sent else Failed)]
              && StepEnd(cfg, x, i, outcome).hub.stats
                 == if outcome == Accepted then CountForwarded(x.hub.stats, x.records[i].call.size) else x.hub.stats
            else StepEnd(cfg, x, i, outcome) == x
  {
    hide Remember, Refund, StillAttached, CountForwarded;
  }

  lemma {:induction false} EndCounted(cfg: Config, x: System, i: nat, outcome: Outcome)
    requires Counted(x)
    ensures Counted(StepEnd(cfg, x, i, outcome))
  {
    EndStats(cfg, x, i, outcome);
    if i < |x.records| && x.records[i].status == InFlight {
      hide Sum, StepEnd, End;
      var r := Record(x.records[i].call, if outcome == Accepted then Sent else Failed);
      SumUpdate(x.records, i, r, SentFrames());
      SumUpdate(x.records, i, r, SentBytes());
      CountedOnce(x.hub.stats, Sum(x.records, SentFrames()) + |x.injected|, Sum(x.records, SentBytes()) + Total(x.injected), r.call.size);
    }
  }

  lemma {:induction false} InjectCounted(cfg: Config, x: System, routeId: Id, payload: bytes, sender: Id)
    requires Counted(x)
    ensures Counted(StepInject(cfg, x, routeId, payload, sender))
  {
    var injected := Inject(cfg, x.hub, routeId, payload, sender).1;
    InjectEffects(cfg, x.hub, routeId, payload, sender);
    if injected.Injected? {
      var size := |injected.frame.payload|;
      assert (x.injected + [size])[..|x.injected|] == x.injected;
      CountedOnce(x.hub.stats, Sum(x.records, SentFrames()) + |x.injected|, Sum(x.records, SentBytes()) + Total(x.injected), size);
    }
  }

  lemma {:induction false} QuietCounted(cfg: Config, x: System, op: Op)
    requires Counted(x) && Quiet(op)
    ensures Counted(Step(cfg, x, op))
  {
    QuietUntouched(cfg, x, op);
    hide Step, Quiet;
  }

  lemma {:induction false} StepCounted(cfg: Config, x: System, op: Op)
    requires Counted(x)
    ensures Counted(Step(cfg, x, op))
  {
    hide StepBegin, StepEnd, StepInject;
    match op
    case DoAttach(id) =>
    case DoBegin(from, routeId, payload, now, delivery) => BeginCounted(cfg, x, from, routeId, payload, now, delivery);
    case DoEnd(i, outcome) => EndCounted(cfg, x, i, outcome);
    case DoInject(routeId, payload, sender) => InjectCounted(cfg, x, routeId, payload, sender);
    case DoTake(r) =>
    case _ => QuietCounted(cfg, x, op);
  }

  /** ForwardedFrames and ForwardedBytes are the successful forwards of the whole run, wrapped at 2^64. */
  lemma {:induction false} RunCounted(cfg: Config, ops: seq<Op>)
    ensures Counted(Run(cfg, ops))
  {
    if ops != [] {
      RunCounted(cfg, ops[..|ops| - 1]);
      StepCounted(cfg, Run(cfg, ops[..|ops| - 1]), ops[|ops| - 1]);
    }
  }
}
