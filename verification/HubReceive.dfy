/** Who gets a frame that Receive takes from an inbox: Receive looks its session up by identifier, not by handle. */
module HubReceive {
  import opened Bytes
  import opened ReplayWindows
  import opened HubModel
  import opened HubStructure
  import opened HubSystem
  import opened HubTraffic

  /** A session object is attached under its own identifier until its handle is closed. */
  ghost predicate Retired(x: System) {
    forall t :: 0 <= t < |x.logs| && t !in x.hub.finished ==>
      x.logs[t].id in x.hub.sessions && x.hub.sessions[x.logs[t].id].token == t
  }

  /** A receiver waits on the session of its handle, or on a later one of that identifier once the handle is closed. */
  predicate ReceiverOk(x: System, r: Receiver) {
    && r.handle < |x.logs|
    && (r.Waiting? || r.Took? || r.Returned? || r.Lost? ==>
          && r.token < |x.logs|
          && x.logs[r.token].id == x.logs[r.handle].id
          && (r.handle != r.token ==> r.handle in x.hub.finished))
    && (r.Lost? ==> r.handle in x.hub.finished)
    && (r.Returned? ==> r.handle == r.token)
  }

  ghost predicate Receiving(x: System) {
    forall i :: 0 <= i < |x.receivers| ==> ReceiverOk(x, x.receivers[i])
  }

  /** Sections that neither attach nor detach. */
  ghost predicate Steady(x: System, x': System) {
    && SameIds(x.logs, x'.logs)
    && x'.hub.finished == x.hub.finished
    && (forall id :: id in x.hub.sessions ==> id in x'.hub.sessions && x'.hub.sessions[id].token == x.hub.sessions[id].token)
  }

  lemma {:induction false} SteadyRetired(x: System, x': System)
    requires Retired(x) && Steady(x, x')
    ensures Retired(x')
  {
  }

  lemma {:induction false} BeginSteady(cfg: Config, x: System, from: Id, routeId: Id, payload: bytes, now: int, delivery: Option<Delivery>)
    ensures Steady(x, StepBegin(cfg, x, from, routeId, payload, now, delivery))
    ensures StepBegin(cfg, x, from, routeId, payload, now, delivery).receivers == x.receivers
  {
    var begun := Begin(cfg, x.hub, from, routeId, payload, now, delivery).1;
    BeginShrinks(cfg, x.hub, from, routeId, payload, now, delivery);
    if begun.Queued? {
      LogIds(x.logs, begun.to, begun.frame, begun.call.token, begun.call.delivered);
    }
  }

  lemma {:induction false} EndSteady(cfg: Config, x: System, i: nat, outcome: Outcome)
    ensures Steady(x, StepEnd(cfg, x, i, outcome)) && StepEnd(cfg, x, i, outcome).receivers == x.receivers
  {
    if i < |x.records| {
      EndShrinks(cfg, x.hub, x.records[i].call, outcome);
    }
  }

  lemma {:induction false} InjectSteady(cfg: Config, x: System, routeId: Id, payload: bytes, sender: Id)
    ensures Steady(x, StepInject(cfg, x, routeId, payload, sender)) && StepInject(cfg, x, routeId, payload, sender).receivers == x.receivers
  {
    InjectShrinks(cfg, x.hub, routeId, payload, sender);
  }

  lemma {:induction false} RendezvousSessions(s: Hub, from: Id, routeId: Id, peerId: Id, now: int)
    ensures Rendezvous(s, from, routeId, peerId, now).0.sessions == s.sessions
    ensures Rendezvous(s, from, routeId, peerId, now).0.finished == s.finished
  {
    LookupShrinks(s, peerId, now);
  }

  lemma {:induction false} PlainSteady(cfg: Config, x: System, op: Op)
    requires Plain(op)
    ensures Steady(x, Step(cfg, x, op)) && Step(cfg, x, op).receivers == x.receivers
  {
    match op
    case DoRendezvous(from, routeId, peerId, now) => RendezvousSessions(x.hub, from, routeId, peerId, now);
    case DoLookup(peerId, now) => LookupShrinks(x.hub, peerId, now);
    case _ =>
  }

  lemma {:induction false} TrafficSteady(cfg: Config, x: System, op: Op)
    requires op.DoBegin? || op.DoEnd? || op.DoInject?
    ensures Steady(x, Step(cfg, x, op)) && Step(cfg, x, op).receivers == x.receivers
  {
    hide StepBegin, StepEnd, StepInject;
    match op
    case DoBegin(from, routeId, payload, now, delivery) => BeginSteady(cfg, x, from, routeId, payload, now, delivery);
    case DoEnd(i, outcome) => EndSteady(cfg, x, i, outcome);
    case DoInject(routeId, payload, sender) => InjectSteady(cfg, x, routeId, payload, sender);
  }

  lemma {:induction false} TakeSteady(x: System, r: nat)
    ensures Steady(x, StepTake(x, r))
  {
    if CanTake(x, r) {
      TakeShrinks(x.hub, ObjectOf(x, x.receivers[r].token));
    }
  }

  lemma {:induction false} AttachRetired(cfg: Config, x: System, id: Id)
    requires LogsOk(x) && Retired(x)
    ensures Retired(StepAttach(cfg, x, id))
  {
  }

  lemma {:induction false} DetachRetired(cfg: Config, x: System, id: Id)
    requires LogsOk(x) && Retired(x)
    ensures Retired(x.(hub := Detach(x.hub, id)))
  {
  }

  lemma {:induction false} CloseRetired(x: System)
    requires Retired(x)
    ensures Retired(x.(hub := Close(x.hub)))
  {
    forall t | 0 <= t < |x.logs| && t !in x.hub.finished ensures t in Tokens(x.hub.sessions) {
      assert x.hub.sessions[x.logs[t].id].token == t;
    }
  }

  lemma {:induction false} SameRetired(x: System, x': System)
    requires Retired(x) && (x' == x || x' == x.(receivers := x'.receivers))
    ensures Retired(x')
  {
  }

  lemma {:induction false} ReceiverRetired(cfg: Config, x: System, op: Op)
    requires Retired(x) && (op.DoReceive? || op.DoLook? || op.DoTest? || op.DoDone? || op.DoCancel?)
    ensures Retired(Step(cfg, x, op))
  {
    ReceiveUntouched(x, if op.DoReceive? then op.handle else op.receiver);
    hide Retired, StepReceive, StepLook, StepTest, StepDone, StepCancel;
    SameRetired(x, Step(cfg, x, op));
  }

  lemma {:induction false} StepRetired(cfg: Config, x: System, op: Op)
    requires LogsOk(x) && Retired(x)
    ensures Retired(Step(cfg, x, op))
  {
    hide Retired, Steady, LogsOk, StepAttach, StepTake, Detach, Close;
    match op
    case DoAttach(id) => AttachRetired(cfg, x, id);
    case DoTake(r) =>
      TakeSteady(x, r);
      SteadyRetired(x, StepTake(x, r));
    case DoDetach(id) => DetachRetired(cfg, x, id);
    case DoClose => CloseRetired(x);
    case _ =>
      if Plain(op) {
        PlainSteady(cfg, x, op);
        SteadyRetired(x, Step(cfg, x, op));
      } else if op.DoBegin? || op.DoEnd? || op.DoInject? {
        TrafficSteady(cfg, x, op);
        SteadyRetired(x, Step(cfg, x, op));
      } else {
        ReceiverRetired(cfg, x, op);
      }
  }

  /** What a receiver's state depends on only grows. */
  ghost predicate Grows(x: System, x': System) {
    && |x.logs| <= |x'.logs|
    && x.hub.finished <= x'.hub.finished
    && (forall t :: 0 <= t < |x.logs| ==> x'.logs[t].id == x.logs[t].id)
  }

  lemma {:induction false} GrowsReceiving(x: System, x': System)
    requires Receiving(x) && Grows(x, x') && x'.receivers == x.receivers
    ensures Receiving(x')
  {
    forall i | 0 <= i < |x.receivers| ensures ReceiverOk(x', x.receivers[i]) {
      assert ReceiverOk(x, x.receivers[i]);
    }
  }

  lemma {:induction false} LookReceiving(x: System, r: nat)
    requires LogsOk(x) && Retired(x) && Receiving(x)
    ensures Receiving(StepLook(x, r))
  {
    if r < |x.receivers| && x.receivers[r].Checked? {
      assert ReceiverOk(x, x.receivers[r]);
    }
  }

  lemma {:induction false} TakeGrows(x: System, r: nat)
    ensures Grows(x, StepTake(x, r))
  {
    if CanTake(x, r) {
      TakeShrinks(x.hub, ObjectOf(x, x.receivers[r].token));
    }
  }

  /** The receivers as they were but for one, which is in order. */
  lemma {:induction false} OneReceiving(x: System, x': System, r: nat, w: Receiver)
    requires Receiving(x) && Grows(x, x') && r < |x.receivers| && x'.receivers == x.receivers[r := w] && ReceiverOk(x', w)
    ensures Receiving(x')
  {
    forall i | 0 <= i < |x'.receivers| ensures ReceiverOk(x', x'.receivers[i]) {
      assert ReceiverOk(x, x.receivers[i]);
    }
  }

  lemma {:induction false} TakeReceiving(x: System, r: nat)
    requires Receiving(x)
    ensures Receiving(StepTake(x, r))
  {
    if CanTake(x, r) {
      TakeGrows(x, r);
      assert ReceiverOk(x, x.receivers[r]);
      OneReceiving(x, StepTake(x, r), r, StepTake(x, r).receivers[r]);
    }
  }

  lemma {:induction false} EndingReceiving(x: System, r: nat)
    requires Receiving(x)
    ensures Receiving(StepTest(x, r)) && Receiving(StepDone(x, r)) && Receiving(StepCancel(x, r))
  {
    if r < |x.receivers| {
      assert ReceiverOk(x, x.receivers[r]);
    }
  }

  lemma {:induction false} TrafficReceiving(cfg: Config, x: System, op: Op)
    requires Receiving(x) && (op.DoBegin? || op.DoEnd? || op.DoInject?)
    ensures Receiving(Step(cfg, x, op))
  {
    TrafficSteady(cfg, x, op);
    hide Step, Receiving;
    GrowsReceiving(x, Step(cfg, x, op));
  }

  lemma {:induction false} PlainReceiving(cfg: Config, x: System, op: Op)
    requires Receiving(x) && Plain(op)
    ensures Receiving(Step(cfg, x, op))
  {
    PlainSteady(cfg, x, op);
    GrowsReceiving(x, Step(cfg, x, op));
  }

  lemma {:induction false} EndsReceiving(cfg: Config, x: System, op: Op)
    requires Receiving(x) && (op.DoAttach? || op.DoDetach? || op.DoClose?)
    ensures Receiving(Step(cfg, x, op))
  {
    GrowsReceiving(x, Step(cfg, x, op));
  }

  lemma {:induction false} StepReceiving(cfg: Config, x: System, op: Op)
    requires LogsOk(x) && Retired(x) && Receiving(x)
    ensures Receiving(Step(cfg, x, op))
  {
    match op
    case DoReceive(handle) =>
    case DoLook(r) => LookReceiving(x, r);
    case DoTake(r) => TakeReceiving(x, r);
    case DoTest(r) => EndingReceiving(x, r);
    case DoDone(r) => EndingReceiving(x, r);
    case DoCancel(r) => EndingReceiving(x, r);
    case _ =>
      if Plain(op) {
        PlainReceiving(cfg, x, op);
      } else if op.DoAttach? || op.DoDetach? || op.DoClose? {
        EndsReceiving(cfg, x, op);
      } else {
        TrafficReceiving(cfg, x, op);
      }
  }

  lemma {:induction false} RunReceiving(cfg: Config, ops: seq<Op>)
    ensures Retired(Run(cfg, ops)) && Receiving(Run(cfg, ops))
  {
    if ops != [] {
      var before := ops[..|ops| - 1];
      RunReceiving(cfg, before);
      RunStructure(cfg, before);
      RunLogs(cfg, before);
      StepRetired(cfg, Run(cfg, before), ops[|ops| - 1]);
      StepReceiving(cfg, Run(cfg, before), ops[|ops| - 1]);
    }
  }

  // ---------------------------------------------------------------- which frames are lost

  /** A call of Receive gets its result at its second test, and the handle is what decides it. */
  lemma {:induction false} TestDecides(cfg: Config, x: System, op: Op, i: nat)
    requires i < |Step(cfg, x, op).receivers| && (Step(cfg, x, op).receivers[i].Lost? || Step(cfg, x, op).receivers[i].Returned?)
    ensures i < |x.receivers|
    ensures var w := Step(cfg, x, op).receivers[i];
            || x.receivers[i] == w
            || (op == DoTest(i) && x.receivers[i] == Took(w.handle, w.token, w.frame) && (w.Lost? <==> w.handle in x.hub.finished))
  {
    match op
    case DoReceive(_) =>
    case DoLook(_) =>
    case DoTake(_) =>
    case DoTest(_) =>
    case DoDone(_) =>
    case DoCancel(_) =>
    case _ => HubReceivers(cfg, x, op);
  }

  lemma {:induction false} HubReceivers(cfg: Config, x: System, op: Op)
    requires !(op.DoReceive? || op.DoLook? || op.DoTake? || op.DoTest? || op.DoDone? || op.DoCancel?)
    ensures Step(cfg, x, op).receivers == x.receivers
  {
    if Plain(op) {
      PlainSteady(cfg, x, op);
    } else if op.DoBegin? || op.DoEnd? || op.DoInject? {
      TrafficSteady(cfg, x, op);
    }
  }

  predicate TestedAt(cfg: Config, ops: seq<Op>, i: nat, w: Receiver, k: nat)
    requires (w.Lost? || w.Returned?) && k < |ops|
  {
    && ops[k] == DoTest(i)
    && i < |Run(cfg, ops[..k]).receivers| && Run(cfg, ops[..k]).receivers[i] == Took(w.handle, w.token, w.frame)
    && (w.Lost? <==> w.handle in Run(cfg, ops[..k]).hub.finished)
  }

  /**
    Over every run: a frame that a receiver took is dropped if and only if the receiver's handle was closed by the time of
    its second test, and is returned otherwise.
  */
  lemma {:induction false} LostExactly(cfg: Config, ops: seq<Op>, i: nat)
    requires i < |Run(cfg, ops).receivers| && (Run(cfg, ops).receivers[i].Lost? || Run(cfg, ops).receivers[i].Returned?)
    ensures exists k :: 0 <= k < |ops| && TestedAt(cfg, ops, i, Run(cfg, ops).receivers[i], k)
  {
    var n := |ops| - 1;
    var before, w := ops[..n], Run(cfg, ops).receivers[i];
    TestDecides(cfg, Run(cfg, before), ops[n], i);
    if Run(cfg, before).receivers[i] == w {
      LostExactly(cfg, before, i);
      var k :| 0 <= k < n && TestedAt(cfg, before, i, w, k);
      assert before[..k] == ops[..k];
      assert TestedAt(cfg, ops, i, w, k);
    } else {
      assert TestedAt(cfg, ops, i, w, n);
    }
  }

  /** What a caller gets is a frame of the very session object that its handle belongs to. */
  lemma {:induction false} ReturnedIsOwn(cfg: Config, ops: seq<Op>, i: nat)
    requires i < |Run(cfg, ops).receivers| && Run(cfg, ops).receivers[i].Returned?
    ensures Run(cfg, ops).receivers[i].handle == Run(cfg, ops).receivers[i].token
  {
    RunReceiving(cfg, ops);
    assert ReceiverOk(Run(cfg, ops), Run(cfg, ops).receivers[i]);
  }

  predicate AttachedOnce(logs: seq<Log>) {
    forall a, b :: 0 <= a < b < |logs| ==> logs[a].id != logs[b].id
  }

  /** If no identifier is attached twice, only frames of a session that was closed meanwhile can be dropped. */
  lemma {:induction false} OpenSessionsLoseNothing(cfg: Config, ops: seq<Op>, i: nat)
    requires i < |Run(cfg, ops).receivers| && Run(cfg, ops).receivers[i].Lost? && AttachedOnce(Run(cfg, ops).logs)
    ensures var w := Run(cfg, ops).receivers[i];
            w.handle == w.token && w.token in Run(cfg, ops).hub.finished
  {
    RunReceiving(cfg, ops);
    var x := Run(cfg, ops);
    var w := x.receivers[i];
    assert ReceiverOk(x, w);
    OnceIsOnce(x.logs, w.handle, w.token);
  }

  lemma {:induction false} OnceIsOnce(logs: seq<Log>, a: nat, b: nat)
    requires AttachedOnce(logs) && a < |logs| && b < |logs| && logs[a].id == logs[b].id
    ensures a == b
  {
  }

  // ---------------------------------------------------------------- every frame has one receiver

  predicate HasFrame(w: Receiver) { w.Took? || w.Returned? || w.Lost? }

  function FrameOf(w: Receiver, token: nat): multiset<Frame> {
    if HasFrame(w) && w.token == token then multiset{w.frame} else multiset{}
  }

  /** The frames of a session object that receivers have in hand, returned or dropped. */
  function HandedOut(receivers: seq<Receiver>, token: nat): multiset<Frame> {
    if receivers == [] then multiset{}
    else HandedOut(receivers[..|receivers| - 1], token) + FrameOf(receivers[|receivers| - 1], token)
  }

  lemma {:induction false} HandedAppend(receivers: seq<Receiver>, w: Receiver, token: nat)
    ensures HandedOut(receivers + [w], token) == HandedOut(receivers, token) + FrameOf(w, token)
  {
    assert (receivers + [w])[..|receivers|] == receivers;
  }

  lemma {:induction false} Exchanged<T>(a: multiset<T>, b: multiset<T>, c: multiset<T>, p: multiset<T>, q: multiset<T>)
    requires a + p == b + q
    ensures (a + c) + p == (b + c) + q
  {
    assert (a + c) + p == (a + p) + c && (b + c) + q == (b + q) + c;
  }

  lemma {:induction false} Cancelled<T>(a: multiset<T>, b: multiset<T>, p: multiset<T>)
    requires a + p == b + p
    ensures a == b
  {
    assert a == (a + p) - p && b == (b + p) - p;
  }

  lemma {:induction false} Swapped<T>(c: multiset<T>, p: multiset<T>, q: multiset<T>)
    ensures (c + q) + p == (c + p) + q
  {
  }

  lemma {:induction false} HandedUpdate(receivers: seq<Receiver>, i: nat, w: Receiver, token: nat)
    requires i < |receivers|
    ensures HandedOut(receivers[i := w], token) + FrameOf(receivers[i], token) == HandedOut(receivers, token) + FrameOf(w, token)
  {
    hide FrameOf;
    var n := |receivers| - 1;
    var front, last := receivers[..n], receivers[n];
    if i == n {
      assert receivers[i := w][..n] == front;
      Swapped(HandedOut(front, token), FrameOf(last, token), FrameOf(w, token));
    } else {
      HandedUpdate(front, i, w, token);
      assert receivers[i := w][..n] == front[i := w];
      Exchanged(HandedOut(front[i := w], token), HandedOut(front, token), FrameOf(last, token), FrameOf(receivers[i], token), FrameOf(w, token));
    }
  }

  ghost predicate Handed(x: System) {
    && (forall i :: 0 <= i < |x.receivers| && (x.receivers[i].Waiting? || HasFrame(x.receivers[i])) ==> x.receivers[i].token < |x.logs|)
    && (forall t :: 0 <= t < |x.logs| ==> multiset(x.logs[t].taken) == HandedOut(x.receivers, t))
  }

  ghost predicate SameTaken(logs: seq<Log>, logs': seq<Log>) {
    |logs'| == |logs| && forall t :: 0 <= t < |logs| ==> logs'[t].taken == logs[t].taken
  }

  lemma {:induction false} SameHanded(x: System, x': System)
    requires Handed(x) && x'.receivers == x.receivers && SameTaken(x.logs, x'.logs)
    ensures Handed(x')
  {
  }

  /** A receiver that moves on without taking a frame. */
  lemma {:induction false} MovedHanded(x: System, x': System, r: nat, w: Receiver)
    requires Handed(x) && r < |x.receivers| && x'.receivers == x.receivers[r := w] && x'.logs == x.logs
    requires (w.Waiting? || HasFrame(w)) ==> w.token < |x.logs|
    requires forall t :: FrameOf(w, t) == FrameOf(x.receivers[r], t)
    ensures Handed(x')
  {
    hide FrameOf, HandedOut;
    forall t | 0 <= t < |x'.logs| ensures multiset(x'.logs[t].taken) == HandedOut(x'.receivers, t) {
      HandedUpdate(x.receivers, r, w, t);
      Cancelled(HandedOut(x'.receivers, t), HandedOut(x.receivers, t), FrameOf(w, t));
    }
  }

  lemma {:induction false} LookToken(x: System, r: nat)
    requires LogsOk(x) && r < |x.receivers| && x.receivers[r].Checked?
    ensures StepLook(x, r).receivers[r].Waiting? ==> StepLook(x, r).receivers[r].token < |x.logs|
  {
  }

  lemma {:induction false} LookHanded(x: System, r: nat)
    requires LogsOk(x) && Handed(x)
    ensures Handed(StepLook(x, r))
  {
    if r < |x.receivers| && x.receivers[r].Checked? && x.receivers[r].handle < |x.logs| {
      LookToken(x, r);
      var x' := StepLook(x, r);
      assert x' == x.(receivers := x.receivers[r := x'.receivers[r]]) && !HasFrame(x'.receivers[r]);
      hide StepLook, LogsOk, HandedOut, Handed;
      MovedHanded(x, x', r, x'.receivers[r]);
    }
  }

  lemma {:induction false} EndingHanded(x: System, r: nat)
    requires Handed(x)
    ensures Handed(StepTest(x, r)) && Handed(StepDone(x, r)) && Handed(StepCancel(x, r))
  {
    if r < |x.receivers| {
      if x.receivers[r].Took? {
        MovedHanded(x, StepTest(x, r), r, StepTest(x, r).receivers[r]);
      } else if x.receivers[r].Waiting? {
        MovedHanded(x, StepDone(x, r), r, StepDone(x, r).receivers[r]);
        MovedHanded(x, StepCancel(x, r), r, StepCancel(x, r).receivers[r]);
      }
    }
  }

  lemma {:induction false} TookOne(taken: seq<Frame>, before: multiset<Frame>, after: multiset<Frame>, frame: Frame)
    requires multiset(taken) == before && after + multiset{} == before + multiset{frame}
    ensures multiset(taken + [frame]) == after
  {
    assert after + multiset{} == after;
  }

  lemma {:induction false} TookAt(log: Log, log': Log, receivers: seq<Receiver>, r: nat, w: Receiver, mine: bool, t: nat)
    requires r < |receivers| && FrameOf(receivers[r], t) == multiset{} && w.Took? && multiset(log.taken) == HandedOut(receivers, t)
    requires FrameOf(w, t) == (if mine then multiset{w.frame} else multiset{})
    requires log'.taken == if mine then log.taken + [w.frame] else log.taken
    ensures multiset(log'.taken) == HandedOut(receivers[r := w], t)
  {
    hide HandedOut, FrameOf;
    HandedUpdate(receivers, r, w, t);
    if mine {
      TookOne(log.taken, HandedOut(receivers, t), HandedOut(receivers[r := w], t), w.frame);
    } else {
      Cancelled(HandedOut(receivers[r := w], t), HandedOut(receivers, t), multiset{});
    }
  }

  lemma {:induction false} TakeHanded(x: System, r: nat)
    requires Handed(x)
    ensures Handed(StepTake(x, r))
  {
    if CanTake(x, r) {
      var x' := StepTake(x, r);
      var token, w := x.receivers[r].token, x'.receivers[r];
      assert x'.receivers == x.receivers[r := w] && w.Took? && w.token == token;
      assert x'.logs == x.logs[token := x.logs[token].(taken := x.logs[token].taken + [w.frame])];
      hide StepTake, CanTake, HandedOut;
      forall t | 0 <= t < |x'.logs| ensures multiset(x'.logs[t].taken) == HandedOut(x'.receivers, t) {
        TookAt(x.logs[t], x'.logs[t], x.receivers, r, w, t == token, t);
      }
    }
  }

  lemma {:induction false} ReceiveHanded(x: System, handle: nat)
    requires Handed(x)
    ensures Handed(StepReceive(x, handle))
  {
    forall t ensures HandedOut(x.receivers + [Checked(handle)], t) == HandedOut(x.receivers, t) {
      HandedAppend(x.receivers, Checked(handle), t);
    }
  }

  lemma {:induction false} NothingHanded(receivers: seq<Receiver>, token: nat)
    requires forall i :: 0 <= i < |receivers| && HasFrame(receivers[i]) ==> receivers[i].token != token
    ensures HandedOut(receivers, token) == multiset{}
  {
    if receivers != [] {
      NothingHanded(receivers[..|receivers| - 1], token);
    }
  }

  lemma {:induction false} AttachHanded(cfg: Config, x: System, id: Id)
    requires Handed(x)
    ensures Handed(StepAttach(cfg, x, id))
  {
    NothingHanded(x.receivers, |x.logs|);
  }

  lemma {:induction false} TrafficTaken(cfg: Config, x: System, op: Op)
    requires op.DoBegin? || op.DoEnd? || op.DoInject?
    ensures SameTaken(x.logs, Step(cfg, x, op).logs)
  {
  }

  lemma {:induction false} StepHanded(cfg: Config, x: System, op: Op)
    requires LogsOk(x) && Handed(x)
    ensures Handed(Step(cfg, x, op))
  {
    hide Handed, LogsOk, StepAttach, StepReceive, StepLook, StepTake, StepTest, StepDone, StepCancel;
    match op
    case DoAttach(id) => AttachHanded(cfg, x, id);
    case DoReceive(handle) => ReceiveHanded(x, handle);
    case DoLook(r) => LookHanded(x, r);
    case DoTake(r) => TakeHanded(x, r);
    case DoTest(r) => EndingHanded(x, r);
    case DoDone(r) => EndingHanded(x, r);
    case DoCancel(r) => EndingHanded(x, r);
    case _ =>
      HubReceivers(cfg, x, op);
      if op.DoBegin? || op.DoEnd? || op.DoInject? {
        TrafficTaken(cfg, x, op);
      } else {
        QuietUntouched(cfg, x, op);
      }
      SameHanded(x, Step(cfg, x, op));
  }

  lemma {:induction false} RunHanded(cfg: Config, ops: seq<Op>)
    ensures Handed(Run(cfg, ops))
  {
    if ops != [] {
      RunHanded(cfg, ops[..|ops| - 1]);
      RunLogs(cfg, ops[..|ops| - 1]);
      StepHanded(cfg, Run(cfg, ops[..|ops| - 1]), ops[|ops| - 1]);
    }
  }

  /**
    Every frame accepted for a session object is in its inbox or went to one receiver, which has it in hand, returned it
    or dropped it: none disappears on the way and none is handed out twice.
  */
  lemma {:induction false} EveryFrameOnce(cfg: Config, ops: seq<Op>, token: nat)
    requires token < |Run(cfg, ops).logs|
    ensures var x := Run(cfg, ops);
            multiset(x.logs[token].accepted) == HandedOut(x.receivers, token) + multiset(Queue(x, token))
  {
    RunHanded(cfg, ops);
    RunInboxes(cfg, ops);
    var x := Run(cfg, ops);
    assert Conserved(cfg, x.logs[token], Queue(x, token));
  }

  // ---------------------------------------------------------------- two runs that drop a frame

  function Fresh(token: nat): Session { Session(token, [], 0, 0, [], EmptyWindow()) }

  function Routed(a: Id, b: Id): Route { Route(Endpoint(a, None, []), Endpoint(b, None, [])) }

  /** The frame is queued for the session object that a receiver waits on. */
  lemma {:induction false} QueuedFor(cfg: Config, x: System, a: Id, b: Id, token: nat, other: nat, routeId: Id, payload: bytes)
    requires ValidId(a) && ValidId(b) && a != b && |payload| <= cfg.maxFrameBytes && |payload| <= cfg.maxBytes
    requires !x.hub.closed && x.hub.sessions == map[a := Fresh(token), b := Fresh(other)] && x.hub.routes == map[routeId := Routed(a, b)]
    requires token !in x.hub.finished && other !in x.hub.finished && token < |x.logs| && x.logs[token] == Log(a, [], [], [])
    ensures var x' := StepBegin(cfg, x, b, routeId, payload, 0, None);
            var frame := Frame(routeId, [], payload);
            && x'.receivers == x.receivers && x'.hub.finished == x.hub.finished && x'.hub.detached == x.hub.detached
            && x'.logs == x.logs[token := Log(a, [frame], [], [])]
            && a in x'.hub.sessions && x'.hub.sessions[a].token == token && x'.hub.sessions[a].inbox == [frame]
  {
    assert Objection(cfg, x.hub, b, routeId, payload, 0, None) == None;
    assert PeerOf(x.hub.routes[routeId], b) == Some(Endpoint(a, None, []));
    var frame := Frame(routeId, [], payload);
    assert [] + [frame] == [frame];
  }

  lemma {:induction false} TakenAndTested(x: System, a: Id, handle: nat, token: nat, frame: Frame)
    requires x.receivers == [Waiting(handle, token)] && handle in x.hub.finished
    requires token < |x.logs| && x.logs[token] == Log(a, [frame], [], []) && Queue(x, token) == [frame]
    ensures var x' := StepTest(StepTake(x, 0), 0);
            x'.receivers == [Lost(handle, token, frame)] && x'.logs == x.logs[token := Log(a, [frame], [frame], [])]
  {
    hide InboxOf, Take;
    assert [] + [frame] == [frame];
    assert StepTake(x, 0).receivers == [Took(handle, token, frame)];
    assert StepTake(x, 0).hub.finished == x.hub.finished by { TakeShrinks(x.hub, ObjectOf(x, token)); }
  }

  /** Every identifier is attached once; the session is detached between the arrival of a frame and the select. */
  function LateClose(a: Id, b: Id, routeId: Id, payload: bytes): seq<Op> {
    [DoAttach(a), DoReceive(0), DoLook(0), DoAttach(b), DoPair(routeId, a, b), DoBegin(b, routeId, payload, 0, None),
     DoDetach(a), DoTake(0), DoTest(0)]
  }

  function Paired(a: Id, b: Id, routeId: Id): System {
    System(Hub(false, map[a := Fresh(0), b := Fresh(1)], map[routeId := Routed(a, b)], map[], map[], Stats(0, 0, 0), {}, 2, map[]),
           [], [Waiting(0, 0)], [], [Log(a, [], [], []), Log(b, [], [], [])])
  }

  function First(a: Id, receivers: seq<Receiver>): System {
    System(Hub(false, map[a := Fresh(0)], map[], map[], map[], Stats(0, 0, 0), {}, 1, map[]), [], receivers, [], [Log(a, [], [], [])])
  }

  lemma {:induction false} AttachedFirst(cfg: Config, a: Id)
    requires ValidId(a)
    ensures StepAttach(cfg, Init(), a) == First(a, [])
  {
  }

  lemma {:induction false} FirstWaits(a: Id)
    ensures StepLook(StepReceive(First(a, []), 0), 0) == First(a, [Waiting(0, 0)])
  {
  }

  lemma {:induction false} SecondPaired(cfg: Config, a: Id, b: Id, routeId: Id)
    requires ValidId(a) && ValidId(b) && ValidId(routeId) && a != b && cfg.maxSessions >= 2
    ensures var x := StepAttach(cfg, First(a, [Waiting(0, 0)]), b); x.(hub := Pair(x.hub, routeId, a, b).0) == Paired(a, b, routeId)
  {
    assert |First(a, []).hub.sessions| == 1;
    assert StepAttach(cfg, First(a, [Waiting(0, 0)]), b).logs == Paired(a, b, routeId).logs;
    assert StepAttach(cfg, First(a, [Waiting(0, 0)]), b).hub.sessions == map[a := Fresh(0), b := Fresh(1)];
  }

  lemma {:induction false} LatePaired(cfg: Config, a: Id, b: Id, routeId: Id, payload: bytes)
    requires ValidId(a) && ValidId(b) && ValidId(routeId) && a != b && cfg.maxSessions >= 2
    ensures Run(cfg, LateClose(a, b, routeId, payload)[..5]) == Paired(a, b, routeId)
  {
    hide StepAttach, StepReceive, StepLook, Pair, First, Paired;
    var ops := LateClose(a, b, routeId, payload);
    assert Run(cfg, ops[..0]) == Init();
    hide Run;
    RunStep(cfg, ops, 0);
    RunStep(cfg, ops, 1);
    RunStep(cfg, ops, 2);
    RunStep(cfg, ops, 3);
    RunStep(cfg, ops, 4);
    AttachedFirst(cfg, a);
    FirstWaits(a);
    SecondPaired(cfg, a, b, routeId);
  }

  lemma {:induction false} DetachedWithFrame(x: System, a: Id, token: nat)
    requires a in x.hub.sessions && x.hub.sessions[a].token == token < |x.logs| && x.logs[token].id == a
    ensures var x' := x.(hub := Detach(x.hub, a)); Queue(x', token) == x.hub.sessions[a].inbox && token in x'.hub.finished
  {
  }

  lemma {:induction false} LateSteps(cfg: Config, a: Id, b: Id, routeId: Id, payload: bytes)
    ensures var ops := LateClose(a, b, routeId, payload);
            var queued := StepBegin(cfg, Run(cfg, ops[..5]), b, routeId, payload, 0, None);
            Run(cfg, ops) == StepTest(StepTake(queued.(hub := Detach(queued.hub, a)), 0), 0)
  {
    hide Run, StepBegin, StepTake, StepTest, Detach;
    var ops := LateClose(a, b, routeId, payload);
    RunStep(cfg, ops, 5);
    RunStep(cfg, ops, 6);
    RunStep(cfg, ops, 7);
    RunStep(cfg, ops, 8);
    assert ops[..9] == ops;
  }

  /** With fresh identifiers throughout, a frame that was accepted for an open session is taken and dropped. */
  lemma {:induction false} LateCloseLoses(cfg: Config, a: Id, b: Id, routeId: Id, payload: bytes)
    requires ValidId(a) && ValidId(b) && ValidId(routeId) && a != b && |payload| <= cfg.maxFrameBytes
    requires cfg.maxSessions >= 2 && |payload| <= cfg.maxBytes
    ensures var x, frame := Run(cfg, LateClose(a, b, routeId, payload)), Frame(routeId, [], payload);
            && AttachedOnce(x.logs) && x.receivers == [Lost(0, 0, frame)]
            && |x.logs| == 2 && x.logs[0] == Log(a, [frame], [frame], [])
  {
    var ops, frame := LateClose(a, b, routeId, payload), Frame(routeId, [], payload);
    LatePaired(cfg, a, b, routeId, payload);
    LateSteps(cfg, a, b, routeId, payload);
    hide Run, StepBegin, StepTake, StepTest, Detach, Queue, InboxOf;
    var x5 := Paired(a, b, routeId);
    QueuedFor(cfg, x5, a, b, 0, 1, routeId, payload);
    var queued := StepBegin(cfg, x5, b, routeId, payload, 0, None);
    DetachedWithFrame(queued, a, 0);
    TakenAndTested(queued.(hub := Detach(queued.hub, a)), a, 0, 0, frame);
  }

  /** A receiver passes its first test, its session is replaced, and it then takes the next frame of the new one. */
  function StaleReceiver(a: Id, b: Id, routeId: Id, payload: bytes): seq<Op> {
    [DoAttach(a), DoReceive(0), DoDetach(a), DoAttach(a), DoLook(0), DoAttach(b), DoPair(routeId, a, b),
     DoBegin(b, routeId, payload, 0, None), DoTake(0), DoTest(0)]
  }

  function Gone(a: Id): map<Object, seq<Frame>> { map[Object(a, 0) := []] }

  function Replaced(a: Id, sessions: map<Id, Session>, routes: map<Id, Route>, next: nat, receivers: seq<Receiver>, logs: seq<Log>): System {
    System(Hub(false, sessions, routes, map[], map[], Stats(0, 0, 0), {0}, next, Gone(a)), [], receivers, [], logs)
  }

  lemma {:induction false} DetachedWhileChecked(a: Id)
    ensures var x := StepReceive(First(a, []), 0);
            x.(hub := Detach(x.hub, a)) == Replaced(a, map[], map[], 1, [Checked(0)], [Log(a, [], [], [])])
  {
    var hub := Detach(First(a, []).hub, a);
    assert hub.routes == map[] && hub.sessions == map[] && hub.presence == map[] && hub.detached == Gone(a);
  }

  lemma {:induction false} ReplacedWhileChecked(cfg: Config, a: Id, b: Id, routeId: Id, payload: bytes)
    requires ValidId(a)
    ensures Run(cfg, StaleReceiver(a, b, routeId, payload)[..3]) == Replaced(a, map[], map[], 1, [Checked(0)], [Log(a, [], [], [])])
  {
    hide StepAttach, StepReceive, Detach, First, Replaced;
    var ops := StaleReceiver(a, b, routeId, payload);
    assert Run(cfg, ops[..0]) == Init();
    hide Run;
    RunStep(cfg, ops, 0);
    RunStep(cfg, ops, 1);
    RunStep(cfg, ops, 2);
    AttachedFirst(cfg, a);
    DetachedWhileChecked(a);
  }

  function Again(a: Id): System {
    Replaced(a, map[a := Fresh(1)], map[], 2, [Waiting(0, 1)], [Log(a, [], [], []), Log(a, [], [], [])])
  }

  lemma {:induction false} AttachedAgain(cfg: Config, a: Id)
    requires ValidId(a)
    ensures StepLook(StepAttach(cfg, Replaced(a, map[], map[], 1, [Checked(0)], [Log(a, [], [], [])]), a), 0) == Again(a)
  {
    assert StepAttach(cfg, Replaced(a, map[], map[], 1, [Checked(0)], [Log(a, [], [], [])]), a)
        == Replaced(a, map[a := Fresh(1)], map[], 2, [Checked(0)], [Log(a, [], [], []), Log(a, [], [], [])]);
  }

  lemma {:induction false} WaitsOnSecond(cfg: Config, a: Id, b: Id, routeId: Id, payload: bytes)
    requires ValidId(a)
    ensures Run(cfg, StaleReceiver(a, b, routeId, payload)[..5]) == Again(a)
  {
    hide Run, StepAttach, StepLook, Again, Replaced;
    var ops := StaleReceiver(a, b, routeId, payload);
    ReplacedWhileChecked(cfg, a, b, routeId, payload);
    RunStep(cfg, ops, 3);
    RunStep(cfg, ops, 4);
    AttachedAgain(cfg, a);
  }

  function StalePair(a: Id, b: Id, routeId: Id): System {
    Replaced(a, map[a := Fresh(1), b := Fresh(2)], map[routeId := Routed(a, b)], 3, [Waiting(0, 1)],
             [Log(a, [], [], []), Log(a, [], [], []), Log(b, [], [], [])])
  }

  lemma {:induction false} PairedSessions(cfg: Config, a: Id, b: Id, routeId: Id)
    requires ValidId(a) && ValidId(b) && ValidId(routeId) && a != b && cfg.maxSessions >= 2
    ensures var x := StepAttach(cfg, Again(a), b); x.(hub := Pair(x.hub, routeId, a, b).0) == StalePair(a, b, routeId)
  {
    assert |Again(a).hub.sessions| == 1;
    assert StepAttach(cfg, Again(a), b).logs == StalePair(a, b, routeId).logs;
    assert StepAttach(cfg, Again(a), b).hub.sessions == map[a := Fresh(1), b := Fresh(2)];
  }

  lemma {:induction false} PairedWithSecond(cfg: Config, a: Id, b: Id, routeId: Id, payload: bytes)
    requires ValidId(a) && ValidId(b) && ValidId(routeId) && a != b && cfg.maxSessions >= 2
    ensures Run(cfg, StaleReceiver(a, b, routeId, payload)[..7]) == StalePair(a, b, routeId)
  {
    hide Run, StepAttach, Pair, Again, StalePair;
    var ops := StaleReceiver(a, b, routeId, payload);
    WaitsOnSecond(cfg, a, b, routeId, payload);
    RunStep(cfg, ops, 5);
    RunStep(cfg, ops, 6);
    PairedSessions(cfg, a, b, routeId);
  }

  lemma {:induction false} StaleSteps(cfg: Config, a: Id, b: Id, routeId: Id, payload: bytes)
    ensures var ops := StaleReceiver(a, b, routeId, payload);
            Run(cfg, ops) == StepTest(StepTake(StepBegin(cfg, Run(cfg, ops[..7]), b, routeId, payload, 0, None), 0), 0)
  {
    hide Run, StepBegin, StepTake, StepTest;
    var ops := StaleReceiver(a, b, routeId, payload);
    RunStep(cfg, ops, 7);
    RunStep(cfg, ops, 8);
    RunStep(cfg, ops, 9);
    assert ops[..10] == ops;
  }

  lemma {:induction false} QueueOfAttached(x: System, a: Id, token: nat)
    requires a in x.hub.sessions && x.hub.sessions[a].token == token < |x.logs| && x.logs[token].id == a
    ensures Queue(x, token) == x.hub.sessions[a].inbox
  {
  }

  /** Attaching one identifier twice drops a frame of a session that is still open: a receiver of the first takes it. */
  lemma {:induction false} StaleReceiverLoses(cfg: Config, a: Id, b: Id, routeId: Id, payload: bytes)
    requires ValidId(a) && ValidId(b) && ValidId(routeId) && a != b && |payload| <= cfg.maxFrameBytes
    requires cfg.maxSessions >= 2 && |payload| <= cfg.maxBytes
    ensures var x, frame := Run(cfg, StaleReceiver(a, b, routeId, payload)), Frame(routeId, [], payload);
            x.receivers == [Lost(0, 1, frame)] && 1 !in x.hub.finished && |x.logs| == 3 && x.logs[1] == Log(a, [frame], [frame], [])
  {
    var frame := Frame(routeId, [], payload);
    PairedWithSecond(cfg, a, b, routeId, payload);
    StaleSteps(cfg, a, b, routeId, payload);
    hide Run, StepBegin, StepTake, StepTest, Queue, InboxOf;
    var x7 := StalePair(a, b, routeId);
    QueuedFor(cfg, x7, a, b, 1, 2, routeId, payload);
    var queued := StepBegin(cfg, x7, b, routeId, payload, 0, None);
    QueueOfAttached(queued, a, 1);
    TakenAndTested(queued, a, 0, 1, frame);
    TestedHub(queued);
  }

  lemma {:induction false} TestedHub(x: System)
    ensures StepTest(StepTake(x, 0), 0).hub.finished == x.hub.finished
  {
    if CanTake(x, 0) {
      TakeShrinks(x.hub, ObjectOf(x, x.receivers[0].token));
    }
  }
}
