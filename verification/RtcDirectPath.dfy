/** Both ends of a direct session: the sender of one peer and the ingress of the other, over a channel that may lose ADMITs. */
module RtcDirectPath {
  import opened Bytes
  import D = RtcDirectSending
  import I = RtcIngress

  datatype Path = Path(sender: D.Sender, ingress: I.Ingress)

  datatype Event = AtSender(e: D.Event) | AtReceiver(r: I.Event)

  /** An ADMIT reaches the sender only after the ingress sent it; it may come late, again, or not at all. */
  predicate Possible(x: Path, e: Event) {
    e.AtSender? && e.e.DoAdmit? ==> e.e.deliveryId in x.ingress.sent
  }

  function Step(session: I.Session, x: Path, e: Event): Path
    requires I.L.Shape(x.ingress.ledger)
  {
    if !Possible(x, e) then x
    else
      match e
      case AtSender(e) => x.(sender := D.Step(x.sender, e))
      case AtReceiver(r) => x.(ingress := I.Step(session, x.ingress, r))
  }

  function Run(session: I.Session, events: seq<Event>): (x: Path)
    ensures I.L.Shape(x.ingress.ledger)
  {
    if events == [] then Path(D.Empty(), I.Start()) else Step(session, Run(session, events[..|events| - 1]), events[|events| - 1])
  }

  // ---------------------------------------------------------------- what the sender releases

  /** Only an ADMIT releases an attempt, and only one of its own delivery. */
  ghost predicate ReleasedBy(s: D.Sender, s': D.Sender, released: Option<bytes>) {
    forall i :: 0 <= i < |s'.attempts| && s'.attempts[i].fate == D.Released ==>
      || (i < |s.attempts| && s.attempts[i] == s'.attempts[i])
      || released == Some(s'.attempts[i].deliveryId)
  }

  lemma {:induction false} FallenReleases(s: D.Sender, d: bytes)
    ensures ReleasedBy(s, D.Fallen(s, d), None)
  {
  }

  lemma {:induction false} ReleasesNothing(a: D.Sender, b: D.Sender, c: D.Sender)
    requires ReleasedBy(a, b, None) && ReleasedBy(b, c, None)
    ensures ReleasedBy(a, c, None)
  {
  }

  lemma {:induction false} ResetReleases(s: D.Sender, order: seq<bytes>)
    ensures ReleasedBy(s, D.ResetIn(s, order), None)
    decreases |order|
  {
    if order != [] {
      FallenReleases(s, order[0]);
      ResetReleases(D.Fallen(s, order[0]), order[1..]);
      ReleasesNothing(s, D.Fallen(s, order[0]), D.ResetIn(s, order));
    }
  }

  lemma {:induction false} SendReleases(s: D.Sender, d: bytes, sameSession: bool, encodes: bool, throws: bool)
    ensures ReleasedBy(s, D.Sending(s, d, sameSession, encodes, throws).0, None)
  {
    FallenReleases(D.Started(s, d), d);
    ReleasesNothing(s, D.Started(s, d), D.Fallen(D.Started(s, d), d));
  }

  lemma {:induction false} FireReleases(s: D.Sender, i: nat)
    ensures ReleasedBy(s, D.Fire(s, i), None)
  {
    if i in s.armed && i < |s.attempts| {
      FallenReleases(s.(armed := s.armed - {i}), s.attempts[i].deliveryId);
    }
  }

  lemma {:induction false} AdmitReleases(s: D.Sender, d: bytes, sameSession: bool)
    requires D.Sound(s)
    ensures ReleasedBy(s, D.Admitting(s, d, sameSession).0, Some(d))
  {
  }

  lemma {:induction false} StepReleases(s: D.Sender, e: D.Event)
    requires D.Sound(s)
    ensures ReleasedBy(s, D.Step(s, e), if e.DoAdmit? then Some(e.deliveryId) else None)
  {
    hide D.Sound, ReleasedBy, D.Sending, D.Admitting, D.Fire, D.ResetIn;
    match e
    case DoSend(d, sameSession, encodes, throws) => SendReleases(s, d, sameSession, encodes, throws);
    case DoAdmit(d, sameSession) => AdmitReleases(s, d, sameSession);
    case DoFire(i) => FireReleases(s, i);
    case DoReset(order) =>
      ResetReleases(s, order);
      NothingReleased(s);
  }

  lemma {:induction false} NothingReleased(s: D.Sender)
    ensures ReleasedBy(s, s, None)
  {
  }

  // ---------------------------------------------------------------- both ends

  /** What was released was accepted at the other end. */
  predicate Arrived(attempts: seq<D.Attempt>, accepted: seq<bytes>) {
    forall i :: 0 <= i < |attempts| && attempts[i].fate == D.Released ==> attempts[i].deliveryId in accepted
  }

  ghost predicate Sound(session: I.Session, x: Path) {
    D.Sound(x.sender) && I.Sound(session, x.ingress) && Arrived(x.sender.attempts, x.ingress.accepted)
  }

  lemma {:induction false} SenderKeeps(session: I.Session, x: Path, e: D.Event)
    requires Sound(session, x) && Possible(x, AtSender(e))
    ensures Sound(session, x.(sender := D.Step(x.sender, e)))
  {
    D.StepSound(x.sender, e);
    StepReleases(x.sender, e);
    SentIsAccepted(session, x.ingress);
    hide D.Sound, D.Step, I.Sound;
  }

  lemma {:induction false} SentIsAccepted(session: I.Session, x: I.Ingress)
    requires I.Sound(session, x)
    ensures forall d :: d in x.sent ==> d in x.accepted
    ensures forall d :: d in x.accepted ==> I.Handed(d) in x.history
  {
  }

  lemma {:induction false} AcceptedStays(session: I.Session, x: I.Ingress, e: I.Event)
    requires I.L.Shape(x.ledger)
    ensures forall d :: d in x.accepted ==> d in I.Step(session, x, e).accepted
  {
  }

  lemma {:induction false} ReceiverKeeps(session: I.Session, x: Path, e: I.Event)
    requires Sound(session, x)
    ensures I.L.Shape(x.ingress.ledger) && Sound(session, x.(ingress := I.Step(session, x.ingress, e)))
  {
    hide I.Sound, D.Sound, I.Step;
    I.SoundLedger(session, x.ingress);
    I.StepKeeps(session, x.ingress, e);
    AcceptedStays(session, x.ingress, e);
  }

  lemma {:induction false} RunSound(session: I.Session, events: seq<Event>)
    ensures Sound(session, Run(session, events))
  {
    hide D.Sound, I.Sound, D.Step, I.Step;
    if events == [] {
      D.RunSound([]);
      I.RunSound(session, []);
    } else {
      var x, e := Run(session, events[..|events| - 1]), events[|events| - 1];
      RunSound(session, events[..|events| - 1]);
      if Possible(x, e) {
        match e
        case AtSender(e) => SenderKeeps(session, x, e);
        case AtReceiver(r) => ReceiverKeeps(session, x, r);
      }
    }
  }

  /**
    No direct send is lost between the two ends: an attempt is still pending, or was handed to the WSS path, once, or
    its delivery was dispatched and accepted by the other peer.
  */
  lemma {:induction false} NothingIsLost(session: I.Session, events: seq<Event>, i: nat)
    requires i < |Run(session, events).sender.attempts|
    ensures var x := Run(session, events);
            var attempt := x.sender.attempts[i];
            match attempt.fate
            case Waiting => attempt.deliveryId in x.sender.pending && x.sender.pending[attempt.deliveryId] == i
            case FellBack => multiset(x.sender.handed)[i] == 1
            case Released => attempt.deliveryId in x.ingress.accepted && I.Handed(attempt.deliveryId) in x.ingress.history
  {
    RunSound(session, events);
    var x := Run(session, events);
    SentIsAccepted(session, x.ingress);
    D.HandedMultiplicity(x.sender.handed, i);
  }
}
