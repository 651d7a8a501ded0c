/** RTCDirectSender of pwa/src/connectivity/rtc-data-runtime.ts: a direct attempt ends in one ADMIT or one fallback. */
module RtcDirectSending {
  import opened Bytes

  /** maxRTCDataInFlight */
  const MAX_IN_FLIGHT := 32

  datatype Fate = Waiting | Released | FellBack

  /** A send that returned true, and what became of it. */
  datatype Attempt = Attempt(deliveryId: bytes, fate: Fate)

  /**
    `pending` maps a delivery to its attempt; `armed` are the attempts whose timer has neither fired nor been cancelled;
    `handed` lists the attempts in the order in which they were handed to the WSS path.
  */
  datatype Sender = Sender(pending: map<bytes, nat>, armed: set<nat>, attempts: seq<Attempt>, handed: seq<nat>)

  function Empty(): Sender { Sender(map[], {}, [], []) }

  function Settle(s: Sender, deliveryId: bytes, fate: Fate): Sender
    requires deliveryId in s.pending && s.pending[deliveryId] < |s.attempts|
  {
    var i := s.pending[deliveryId];
    s.(pending := s.pending - {deliveryId}, armed := s.armed - {i}, attempts := s.attempts[i := s.attempts[i].(fate := fate)])
  }

  /** fallback */
  function Fallen(s: Sender, deliveryId: bytes): Sender {
    if deliveryId in s.pending && s.pending[deliveryId] < |s.attempts| then
      Settle(s, deliveryId, FellBack).(handed := s.handed + [s.pending[deliveryId]])
    else s
  }

  function Started(s: Sender, deliveryId: bytes): Sender {
    var i := |s.attempts|;
    Sender(s.pending[deliveryId := i], s.armed + {i}, s.attempts + [Attempt(deliveryId, Waiting)], s.handed)
  }

  /** `send` of a frame of this session; the browser channel may throw. */
  function Sending(s: Sender, deliveryId: bytes, sameSession: bool, encodes: bool, throws: bool): (Sender, bool) {
    if !sameSession || deliveryId in s.pending || |s.pending| >= MAX_IN_FLIGHT || !encodes then (s, false)
    else
      (if throws then Fallen(Started(s, deliveryId), deliveryId) else Started(s, deliveryId), true)
  }

  /** `admit` */
  function Admitting(s: Sender, deliveryId: bytes, sameSession: bool): (Sender, bool) {
    if sameSession && deliveryId in s.pending && s.pending[deliveryId] < |s.attempts| then (Settle(s, deliveryId, Released), true)
    else (s, false)
  }

  /** The timer of one attempt fires. */
  function Fire(s: Sender, i: nat): Sender {
    if i in s.armed && i < |s.attempts| then Fallen(s.(armed := s.armed - {i}), s.attempts[i].deliveryId) else s
  }

  /** `reset` over some order of the pending deliveries */
  function ResetIn(s: Sender, order: seq<bytes>): Sender
    decreases |order|
  {
    if order == [] then s else ResetIn(Fallen(s, order[0]), order[1..])
  }

  // ---------------------------------------------------------------- the invariant

  /** Exactly the waiting attempts are pending and armed, each under its own delivery. */
  ghost predicate Tracked(s: Sender) {
    && (forall d :: d in s.pending ==> s.pending[d] < |s.attempts| && s.attempts[s.pending[d]] == Attempt(d, Waiting))
    && (forall i :: 0 <= i < |s.attempts| && s.attempts[i].fate == Waiting ==>
          s.attempts[i].deliveryId in s.pending && s.pending[s.attempts[i].deliveryId] == i)
    && (forall i: nat :: i in s.armed <==> i < |s.attempts| && s.attempts[i].fate == Waiting)
  }

  /** Exactly the attempts that fell back were handed over, each once. */
  ghost predicate HandedOnce(s: Sender) {
    && (forall i :: 0 <= i < |s.attempts| ==> (s.attempts[i].fate == FellBack <==> i in s.handed))
    && (forall k :: 0 <= k < |s.handed| ==> s.handed[k] < |s.attempts|)
    && (forall k, m :: 0 <= k < m < |s.handed| ==> s.handed[k] != s.handed[m])
  }

  ghost predicate Sound(s: Sender) {
    Tracked(s) && HandedOnce(s) && |s.pending| <= MAX_IN_FLIGHT
  }

  /** What happened to an attempt stays: only a waiting one changes, and none disappears. */
  ghost predicate Continues(s: Sender, s': Sender) {
    && |s.attempts| <= |s'.attempts|
    && s.handed <= s'.handed
    && (forall i :: 0 <= i < |s.attempts| ==>
          s'.attempts[i].deliveryId == s.attempts[i].deliveryId && (s.attempts[i].fate != Waiting ==> s'.attempts[i] == s.attempts[i]))
  }

  lemma {:induction false} RemoveSize<V>(m: map<bytes, V>, k: bytes)
    requires k in m
    ensures |m - {k}| == |m| - 1
  {
    assert (m - {k}).Keys == m.Keys - {k};
  }

  /** A waiting attempt that ends, either way. */
  lemma {:induction false} SettleTracked(s: Sender, deliveryId: bytes, fate: Fate)
    requires Sound(s) && deliveryId in s.pending && fate != Waiting
    ensures Tracked(Settle(s, deliveryId, fate)) && |Settle(s, deliveryId, fate).pending| <= MAX_IN_FLIGHT
  {
    RemoveSize(s.pending, deliveryId);
  }

  lemma {:induction false} FallbackHanded(s: Sender, deliveryId: bytes)
    requires Tracked(s) && HandedOnce(s)
    ensures HandedOnce(Fallen(s, deliveryId)) && Continues(s, Fallen(s, deliveryId))
    ensures Fallen(s, deliveryId).pending == s.pending - {deliveryId}
  {
    if deliveryId in s.pending {
      var s' := Fallen(s, deliveryId);
      assert s.pending[deliveryId] !in s.handed;
      assert s'.handed[|s.handed|] == s.pending[deliveryId];
    }
  }

  lemma {:induction false} FallbackSound(s: Sender, deliveryId: bytes)
    requires Sound(s)
    ensures Sound(Fallen(s, deliveryId)) && Continues(s, Fallen(s, deliveryId))
    ensures Fallen(s, deliveryId).pending == s.pending - {deliveryId}
  {
    FallbackHanded(s, deliveryId);
    if deliveryId in s.pending {
      SettleTracked(s, deliveryId, FellBack);
    }
  }

  lemma {:induction false} StartedTracked(s: Sender, deliveryId: bytes)
    requires Tracked(s) && deliveryId !in s.pending
    ensures Tracked(Started(s, deliveryId)) && Continues(s, Started(s, deliveryId))
  {
  }

  lemma {:induction false} StartedHanded(s: Sender, deliveryId: bytes)
    requires HandedOnce(s)
    ensures HandedOnce(Started(s, deliveryId))
  {
  }

  lemma {:induction false} StartedSound(s: Sender, deliveryId: bytes)
    requires Sound(s) && deliveryId !in s.pending && |s.pending| < MAX_IN_FLIGHT
    ensures Sound(Started(s, deliveryId)) && Continues(s, Started(s, deliveryId))
  {
    StartedTracked(s, deliveryId);
    StartedHanded(s, deliveryId);
    assert |Started(s, deliveryId).pending| == |s.pending| + 1 by {
      assert Started(s, deliveryId).pending.Keys == s.pending.Keys + {deliveryId};
    }
  }

  lemma {:induction false} SendSound(s: Sender, deliveryId: bytes, sameSession: bool, encodes: bool, throws: bool)
    requires Sound(s)
    ensures Sound(Sending(s, deliveryId, sameSession, encodes, throws).0) && Continues(s, Sending(s, deliveryId, sameSession, encodes, throws).0)
  {
    hide Sound, Fallen;
    SameContinues(s);
    if Sending(s, deliveryId, sameSession, encodes, throws).1 {
      StartedSound(s, deliveryId);
      FallbackSound(Started(s, deliveryId), deliveryId);
      ContinuesOn(s, Started(s, deliveryId), Fallen(Started(s, deliveryId), deliveryId));
    }
  }

  lemma {:induction false} AdmitSound(s: Sender, deliveryId: bytes, sameSession: bool)
    requires Sound(s)
    ensures Sound(Admitting(s, deliveryId, sameSession).0) && Continues(s, Admitting(s, deliveryId, sameSession).0)
  {
    if Admitting(s, deliveryId, sameSession).1 {
      SettleTracked(s, deliveryId, Released);
    }
  }

  /** A timer that fires finds its own attempt still pending. */
  lemma {:induction false} FireSound(s: Sender, i: nat)
    requires Sound(s)
    ensures Sound(Fire(s, i)) && Continues(s, Fire(s, i))
    ensures i in s.armed ==> Fire(s, i).attempts[i].fate == FellBack && Fire(s, i).handed == s.handed + [i]
  {
    if i in s.armed {
      FallbackSound(s, s.attempts[i].deliveryId);
      hide Continues, Sound;
      assert Fire(s, i) == Fallen(s, s.attempts[i].deliveryId);
    }
  }

  lemma {:induction false} ContinuesOn(a: Sender, b: Sender, c: Sender)
    requires Continues(a, b) && Continues(b, c)
    ensures Continues(a, c)
  {
  }

  lemma {:induction false} SameContinues(s: Sender)
    ensures Continues(s, s)
  {
  }

  lemma {:induction false} ResetSound(s: Sender, order: seq<bytes>)
    requires Sound(s)
    ensures Sound(ResetIn(s, order)) && Continues(s, ResetIn(s, order))
    ensures ResetIn(s, order).pending == s.pending - set d | d in order
    decreases |order|
  {
    hide Sound, Fallen;
    if order != [] {
      var s' := Fallen(s, order[0]);
      FallbackSound(s, order[0]);
      ResetSound(s', order[1..]);
      ContinuesOn(s, s', ResetIn(s', order[1..]));
      assert (set d | d in order) == {order[0]} + set d | d in order[1..];
    } else {
      SameContinues(s);
    }
  }

  // ---------------------------------------------------------------- runs

  datatype Event =
    | DoSend(deliveryId: bytes, sameSession: bool, encodes: bool, throws: bool)
    | DoAdmit(deliveryId: bytes, sameSession: bool)
    | DoFire(attempt: nat)
    | DoReset(order: seq<bytes>)

  function Step(s: Sender, e: Event): Sender {
    match e
    case DoSend(d, sameSession, encodes, throws) => Sending(s, d, sameSession, encodes, throws).0
    case DoAdmit(d, sameSession) => Admitting(s, d, sameSession).0
    case DoFire(i) => Fire(s, i)
    case DoReset(order) => if (forall d :: d in s.pending ==> d in order) then ResetIn(s, order) else s
  }

  function Run(events: seq<Event>): Sender {
    if events == [] then Empty() else Step(Run(events[..|events| - 1]), events[|events| - 1])
  }

  lemma {:induction false} StepSound(s: Sender, e: Event)
    requires Sound(s)
    ensures Sound(Step(s, e)) && Continues(s, Step(s, e))
  {
    match e
    case DoSend(d, sameSession, encodes, throws) => SendSound(s, d, sameSession, encodes, throws);
    case DoAdmit(d, sameSession) => AdmitSound(s, d, sameSession);
    case DoFire(i) => FireSound(s, i);
    case DoReset(order) => ResetSound(s, order);
  }

  /**
    After any run each send that returned true is in exactly one state: pending and armed, released by an ADMIT, or
    handed once to the WSS path; and at most 32 are pending.
  */
  lemma {:induction false} OneFate(events: seq<Event>, i: nat)
    requires i < |Run(events).attempts|
    ensures var s := Run(events);
            var a := s.attempts[i];
            && |s.pending| <= MAX_IN_FLIGHT
            && (a.fate == Waiting <==> a.deliveryId in s.pending && s.pending[a.deliveryId] == i)
            && (a.fate == Waiting <==> i in s.armed)
            && (a.fate == FellBack <==> multiset(s.handed)[i] == 1)
            && (a.fate != FellBack <==> multiset(s.handed)[i] == 0)
  {
    RunSound(events);
    HandedMultiplicity(Run(events).handed, i);
  }

  lemma {:induction false} HandedMultiplicity(handed: seq<nat>, i: nat)
    requires forall k, m :: 0 <= k < m < |handed| ==> handed[k] != handed[m]
    ensures multiset(handed)[i] == if i in handed then 1 else 0
  {
    if handed != [] {
      var n := |handed| - 1;
      assert handed == handed[..n] + [handed[n]];
      HandedMultiplicity(handed[..n], i);
    }
  }

  lemma {:induction false} RunSound(events: seq<Event>)
    ensures Sound(Run(events))
  {
    if events != [] {
      RunSound(events[..|events| - 1]);
      StepSound(Run(events[..|events| - 1]), events[|events| - 1]);
    }
  }

  /** A fate is final. */
  lemma {:induction false} FateIsFinal(events: seq<Event>, more: seq<Event>)
    ensures Continues(Run(events), Run(events + more))
  {
    hide Sound, Step;
    if more == [] {
      assert events + more == events;
      SameContinues(Run(events));
    } else {
      FateIsFinal(events, more[..|more| - 1]);
      var before := events + more[..|more| - 1];
      assert (events + more)[..|events + more| - 1] == before;
      RunSound(before);
      StepSound(Run(before), more[|more| - 1]);
      ContinuesOn(Run(events), Run(before), Run(events + more));
    }
  }

  /** `reset` leaves nothing pending. */
  lemma {:induction false} ResetEmpties(events: seq<Event>, order: seq<bytes>)
    requires forall d :: d in Run(events).pending ==> d in order
    ensures Run(events + [DoReset(order)]).pending == map[]
  {
    RunSound(events);
    ResetSound(Run(events), order);
    assert (events + [DoReset(order)])[..|events|] == events;
    assert Run(events + [DoReset(order)]).pending.Keys == {};
  }

  /** The sender as it updates its map in place; the history is only reasoned about. */
  class RTCDirectSender {
    var pending: map<bytes, nat>
    var armed: set<nat>
    var started: nat
    ghost var attempts: seq<Attempt>
    ghost var handed: seq<nat>

    ghost function View(): Sender
      reads this
    {
      Sender(pending, armed, attempts, handed)
    }

    ghost predicate Valid()
      reads this
    {
      Sound(View()) && started == |attempts|
    }

    constructor ()
      ensures Valid() && View() == Empty()
    {
      pending, armed, started := map[], {}, 0;
      attempts, handed := [], [];
    }

    /** The attempt for this delivery comes to that end: it is no longer pending and its timer is cancelled. */
    static ghost predicate Ends(s: Sender, s': Sender, deliveryId: bytes, fate: Fate) {
      && deliveryId in s.pending && s.pending[deliveryId] < |s.attempts|
      && s'.pending == s.pending - {deliveryId} && s'.armed == s.armed - {s.pending[deliveryId]}
      && s'.attempts == s.attempts[s.pending[deliveryId] := Attempt(deliveryId, fate)]
    }

    method Fallback(deliveryId: bytes) returns (calls: bool)
      requires Valid()
      modifies this
      ensures Valid() && View() == Fallen(old(View()), deliveryId)
      ensures calls <==> deliveryId in old(pending)
      ensures calls ==> Ends(old(View()), View(), deliveryId, FellBack) && handed == old(handed) + [old(pending)[deliveryId]]
      ensures !calls ==> View() == old(View())
    {
      FallbackSound(View(), deliveryId);
      if deliveryId !in pending {
        return false;
      }
      var i := pending[deliveryId];
      armed := armed - {i};
      pending := pending - {deliveryId};
      attempts := attempts[i := attempts[i].(fate := FellBack)];
      handed := handed + [i];
      return true;
    }

    method Send(deliveryId: bytes, sameSession: bool, encodes: bool, throws: bool) returns (ok: bool)
      requires Valid()
      modifies this
      ensures Valid() && Sending(old(View()), deliveryId, sameSession, encodes, throws) == (View(), ok)
      ensures ok <==> sameSession && deliveryId !in old(pending) && |old(pending)| < 32 && encodes
      ensures !ok ==> View() == old(View())
      ensures ok ==> attempts == old(attempts) + [Attempt(deliveryId, if throws then FellBack else Waiting)]
      ensures ok ==> handed == old(handed) + if throws then [|old(attempts)|] else []
      ensures ok ==> pending == if throws then old(pending) else old(pending)[deliveryId := |old(attempts)|]
      ensures ok ==> armed == if throws then old(armed) else old(armed) + {|old(attempts)|}
    {
      SendSound(View(), deliveryId, sameSession, encodes, false);
      SendExact(View(), deliveryId, sameSession, encodes, throws);
      hide Ends;
      if !sameSession || deliveryId in pending || |pending| >= MAX_IN_FLIGHT {
        return false;
      }
      if !encodes {
        return false;
      }
      armed := armed + {started};
      pending := pending[deliveryId := started];
      attempts := attempts + [Attempt(deliveryId, Waiting)];
      started := started + 1;
      if throws {
        var _ := Fallback(deliveryId);
      }
      return true;
    }

    method Admit(deliveryId: bytes, sameSession: bool) returns (ok: bool)
      requires Valid()
      modifies this
      ensures Valid() && Admitting(old(View()), deliveryId, sameSession) == (View(), ok)
      ensures ok <==> sameSession && deliveryId in old(pending)
      ensures ok ==> Ends(old(View()), View(), deliveryId, Released) && handed == old(handed)
      ensures !ok ==> View() == old(View())
    {
      AdmitSound(View(), deliveryId, sameSession);
      if !sameSession || deliveryId !in pending {
        return false;
      }
      var i := pending[deliveryId];
      armed := armed - {i};
      pending := pending - {deliveryId};
      attempts := attempts[i := attempts[i].(fate := Released)];
      return true;
    }

    method ResetAll() returns (order: seq<bytes>)
      requires Valid()
      modifies this
      ensures Valid() && View() == ResetIn(old(View()), order) && pending == map[]
      ensures armed == {} && |attempts| == |old(attempts)|
      ensures forall i :: 0 <= i < |attempts| ==>
                attempts[i] == if old(attempts)[i].fate == Waiting then old(attempts)[i].(fate := FellBack) else old(attempts)[i]
    {
      hide Sound, Fallen, Ends;
      order := [];
      var keys := pending.Keys;
      while keys != {}
        invariant Valid() && keys == pending.Keys
        invariant View() == ResetIn(old(View()), order)
        invariant OnlyFallen(old(attempts), attempts)
        decreases |keys|
      {
        var d :| d in keys;
        ghost var before := View();
        FallbackSound(before, d);
        ResetNext(old(View()), order, d);
        PendingWaits(before, d);
        var _ := Fallback(d);
        FallsOnly(before, View(), d, old(attempts));
        keys := keys - {d};
        order := order + [d];
      }
      NoneWaiting(View());
    }
  }

  /** Some that were waiting have fallen back; nothing else has changed. */
  ghost predicate OnlyFallen(before: seq<Attempt>, after: seq<Attempt>) {
    && |after| == |before|
    && forall i :: 0 <= i < |before| ==> after[i] == before[i] || (before[i].fate == Waiting && after[i] == before[i].(fate := FellBack))
  }

  lemma {:induction false} PendingWaits(s: Sender, d: bytes)
    requires Sound(s) && d in s.pending
    ensures s.pending[d] < |s.attempts| && s.attempts[s.pending[d]] == Attempt(d, Waiting)
  {
  }

  lemma {:induction false} FallsOnly(s: Sender, s': Sender, d: bytes, before: seq<Attempt>)
    requires RTCDirectSender.Ends(s, s', d, FellBack) && s.attempts[s.pending[d]] == Attempt(d, Waiting) && OnlyFallen(before, s.attempts)
    ensures OnlyFallen(before, s'.attempts)
  {
  }

  lemma {:induction false} NoneWaiting(s: Sender)
    requires Sound(s) && s.pending == map[]
    ensures s.armed == {} && forall i :: 0 <= i < |s.attempts| ==> s.attempts[i].fate != Waiting
  {
    assert forall i: nat :: i in s.armed ==> s.attempts[i].deliveryId in s.pending;
  }

  lemma {:induction false} SendExact(s: Sender, deliveryId: bytes, sameSession: bool, encodes: bool, throws: bool)
    requires Sound(s)
    ensures var (s', ok) := Sending(s, deliveryId, sameSession, encodes, throws);
            && (ok <==> sameSession && deliveryId !in s.pending && |s.pending| < 32 && encodes)
            && (ok ==> s'.attempts == s.attempts + [Attempt(deliveryId, if throws then FellBack else Waiting)])
            && (ok ==> s'.handed == s.handed + if throws then [|s.attempts|] else [])
            && (ok ==> s'.pending == if throws then s.pending else s.pending[deliveryId := |s.attempts|])
            && (ok ==> s'.armed == if throws then s.armed else s.armed + {|s.attempts|})
  {
    var started := Started(s, deliveryId);
    if deliveryId !in s.pending {
      assert started.pending - {deliveryId} == s.pending;
      assert |s.attempts| !in s.armed;
      assert started.armed - {|s.attempts|} == s.armed;
    }
    hide Sound;
  }

  lemma {:induction false} ResetNext(s: Sender, order: seq<bytes>, d: bytes)
    ensures ResetIn(s, order + [d]) == Fallen(ResetIn(s, order), d)
    decreases |order|
  {
    if order == [] {
      assert (order + [d])[1..] == [];
    } else {
      ResetNext(Fallen(s, order[0]), order[1..], d);
      assert (order + [d])[1..] == order[1..] + [d];
    }
  }
}
