/**
  Two controllers that exchange offers, answers and candidates over a network that may delay, reorder, repeat or lose
  them. Starting a session and answering an offer each wait for the browser half-way, and anything may happen meanwhile.
  Sessions neither expire nor are reset.
*/
module RtcAgreement {
  import opened Bytes
  import opened RtcSessions

  datatype Message = OfferMessage(offer: Offer) | AnswerMessage(answer: Answer) | CandidateMessage(candidate: Candidate)

  /** An offer that is being answered, and the time at which it came. */
  datatype Task = Task(offer: Offer, now: int)

  /**
    One side: its session with the other, if any; everything it ever sent; and the halves still to come of `start`, by the
    time at which it was called, and of receiveOffer.
  */
  datatype Side = Side(session: Option<Session>, sent: set<Message>, starting: multiset<int>, answering: multiset<Task>)

  /** `small` has the smaller peer identifier. */
  datatype Pair = Pair(smallId: bytes, largeId: bytes, small: Side, large: Side)

  function Idle(): Side { Side(None, {}, multiset{}, multiset{}) }

  function Fresh(smallId: bytes, largeId: bytes): Pair { Pair(smallId, largeId, Idle(), Idle()) }

  /**
    `start` is called, and stores its session once the browser has made an offer; a message comes that the other side sent
    at some time; an offer has been answered; a local candidate is found. The session identifier and the descriptions
    come from outside and need not be fresh.
  */
  datatype Event =
    | Start(now: int)
    | Started(now: int, id: bytes, hash: bytes)
    | Receive(message: Message, now: int)
    | Answered(task: Task, hash: bytes)
    | Gather(text: bytes)

  predicate Possible(side: Side, other: Side, e: Event) {
    match e
    case Started(now, _, _) => now in side.starting
    case Receive(message, _) => message in other.sent
    case Answered(task, _) => task in side.answering
    case _ => true
  }

  /** The session that the second half of `start` or of receiveOffer stores, whatever is there by then. */
  function Stored(peer: bytes, e: Event): Option<Session> {
    match e
    case Started(now, id, hash) => Some(OffererSession(peer, id, hash, now))
    case Answered(task, hash) => Some(AnswererSession(peer, task.offer, hash, task.now))
    case _ => None
  }

  function OfferMessageOf(s: Session): Message { OfferMessage(OfferOf(s)) }

  function AnswerMessageOf(s: Session): Message
    requires s.remoteHash.Some?
  {
    AnswerMessage(AnswerOf(s))
  }

  /** `me` and `peer` are identifiers. */
  function React(me: bytes, peer: bytes, side: Side, good: bytes -> bool, e: Event): Side {
    match e
    case Start(now) => if side.session.Some? then side else side.(starting := side.starting + multiset{now})
    case Started(now, _, _) =>
      var s := Stored(peer, e).value;
      side.(session := Some(s), sent := side.sent + {OfferMessageOf(s)}, starting := side.starting - multiset{now})
    case Receive(OfferMessage(offer), now) =>
      var (session, verdict) := OnOffer(me, peer, side.session, offer);
      side.(session := session, answering := if verdict == Accepted then side.answering + multiset{Task(offer, now)} else side.answering)
    case Receive(AnswerMessage(answer), now) => side.(session := OnAnswer(side.session, answer, good, now).0)
    case Receive(CandidateMessage(c), now) => side.(session := OnCandidate(side.session, c, good, now).0)
    case Answered(task, hash) =>
      var s := Stored(peer, e).value;
      side.(session := Some(s), sent := side.sent + {AnswerMessageOf(s)}, answering := side.answering - multiset{task})
    case Gather(text) =>
      if side.session.None? then side
      else
        var s := side.session.value;
        side.(sent := side.sent + {CandidateMessage(Candidate(s.id, s.generation, s.role, s.localHash, text))})
  }

  function Step(x: Pair, good: bytes -> bool, bySmall: bool, e: Event): Pair {
    if bySmall then x.(small := React(x.smallId, x.largeId, x.small, good, e))
    else x.(large := React(x.largeId, x.smallId, x.large, good, e))
  }

  predicate Allowed(x: Pair, bySmall: bool, e: Event) {
    if bySmall then Possible(x.small, x.large, e) else Possible(x.large, x.small, e)
  }

  /** What possible events lead to; the others do nothing. */
  function From(x: Pair, good: bytes -> bool, events: seq<(bool, Event)>): Pair {
    if events == [] then x
    else
      var y := From(x, good, events[..|events| - 1]);
      var (bySmall, e) := events[|events| - 1];
      if Allowed(y, bySmall, e) then Step(y, good, bySmall, e) else y
  }

  /** A run from the state in which neither side has started. */
  function Run(smallId: bytes, largeId: bytes, good: bytes -> bool, events: seq<(bool, Event)>): Pair {
    From(Fresh(smallId, largeId), good, events)
  }

  lemma {:induction false} FromMore(x: Pair, good: bytes -> bool, events: seq<(bool, Event)>, more: seq<(bool, Event)>)
    ensures From(x, good, events + more) == From(From(x, good, events), good, more)
  {
    if more == [] {
      assert events + more == events;
    } else {
      FromMore(x, good, events, more[..|more| - 1]);
      assert (events + more)[..|events + more| - 1] == events + more[..|more| - 1];
    }
  }

  lemma {:induction false} FromOne(x: Pair, good: bytes -> bool, bySmall: bool, e: Event)
    requires Allowed(x, bySmall, e)
    ensures From(x, good, [(bySmall, e)]) == Step(x, good, bySmall, e)
  {
    assert [(bySmall, e)][..0] == [];
    assert From(x, good, [(bySmall, e)][..0]) == x;
  }
  // ---------------------------------------------------------------- agreement and its guard

  /** Same part in the same session, with the same descriptions as far as the role fixes them. */
  predicate SameCore(a: Session, b: Session) {
    && a.role == b.role && a.id == b.id && a.generation == b.generation && a.localHash == b.localHash
    && (a.role == Answerer ==> a.remoteHash == b.remoteHash)
  }

  /** The offer that was answered. */
  function OfferAnswered(answer: Answer): Offer { Offer(answer.id, answer.generation, answer.offerHash) }

  /** A side that holds this offer, or could come to hold it: a `start` of its own is under way or possible. */
  predicate MayHold(side: Side, offer: Offer) {
    side.session.None? || side.starting != multiset{} || (side.session.value.role == Offerer && OfferOf(side.session.value) == offer)
  }

  /**
    A second half that replaces what an answer was given for: on either side the session of an answer whose offer the
    other side may still hold; on the smaller side also an offer, by an answer.
  */
  predicate Replaces(x: Pair, bySmall: bool, e: Event) {
    var side, other, peer := if bySmall then x.small else x.large, if bySmall then x.large else x.small, if bySmall then x.largeId else x.smallId;
    && Stored(peer, e).Some? && side.session.Some? && !SameCore(side.session.value, Stored(peer, e).value)
    && (bySmall ==> e.Answered?)
    && (if side.session.value.role == Offerer then bySmall
        else side.session.value.remoteHash.Some? && MayHold(other, OfferAnswered(AnswerOf(side.session.value))))
  }

  predicate GuardedFrom(x: Pair, good: bytes -> bool, events: seq<(bool, Event)>) {
    events == [] ||
    (var y := From(x, good, events[..|events| - 1]);
     var (bySmall, e) := events[|events| - 1];
     GuardedFrom(x, good, events[..|events| - 1]) && (Allowed(y, bySmall, e) ==> !Replaces(y, bySmall, e)))
  }

  predicate Connected(x: Pair) {
    x.small.session.Some? && x.large.session.Some? && x.small.session.value.remoteHash.Some? && x.large.session.value.remoteHash.Some?
  }

  /** If both sides have a remote description: one session, opposite roles, and each installed what the other described. */
  predicate Agree(x: Pair) {
    Connected(x) ==>
      var s, l := x.small.session.value, x.large.session.value;
      && s.id == l.id && s.generation == l.generation && s.role == Opposite(l.role)
      && s.remoteHash == Some(l.localHash) && l.remoteHash == Some(s.localHash)
  }

  // ---------------------------------------------------------------- the invariant

  predicate NoOffer(side: Side) {
    forall m :: m in side.sent ==> !m.OfferMessage?
  }

  /** Whatever a side works on or answered was said by one of the two; the source numbers only first generations. */
  predicate Grounded(side: Side, other: Side) {
    && (side.session.Some? ==>
          var s := side.session.value;
          if s.role == Offerer then
            && OfferMessageOf(s) in side.sent
            && (s.remoteHash.Some? ==> AnswerMessage(Answer(s.id, s.generation, s.remoteHash.value, s.localHash)) in other.sent)
          else
            && s.remoteHash.Some? && AnswerMessageOf(s) in side.sent
            && OfferMessage(Offer(s.id, s.generation, s.remoteHash.value)) in other.sent)
    && (forall t :: t in side.answering ==> OfferMessage(t.offer) in other.sent)
    && (forall m :: m in side.sent && m.OfferMessage? ==> m.offer.generation == 0)
    && (forall m :: m in side.sent && m.AnswerMessage? ==> OfferMessage(OfferAnswered(m.answer)) in other.sent)
  }

  /** Every answer that was sent is for the session that the side holds, or for an offer that is gone for good. */
  predicate Current(side: Side, other: Side) {
    forall m :: m in side.sent && m.AnswerMessage? && MayHold(other, OfferAnswered(m.answer)) ==>
      side.session.Some? && side.session.value.role == Answerer && side.session.value.remoteHash.Some? && AnswerOf(side.session.value) == m.answer
  }

  /** The smaller side never lets a session go, and while it is the answerer it has offered nothing. */
  predicate SmallOk(side: Side) {
    match side.session
    case None => side.sent == {}
    case Some(s) => s.role == Answerer ==> NoOffer(side)
  }

  predicate Agreement(x: Pair) {
    && Less(x.smallId, x.largeId)
    && Grounded(x.small, x.large) && Grounded(x.large, x.small)
    && SmallOk(x.small) && Current(x.large, x.small)
    && (x.small.session.Some? && x.small.session.value.role == Answerer ==> Current(x.small, x.large))
  }

  lemma {:induction false} LessAsymmetric(a: bytes, b: bytes)
    requires Less(a, b)
    ensures !Less(b, a)
  {
    if Less(b, a) {
      LessTransitive(a, b, a);
      LessIrreflexive(a);
    }
  }

  lemma {:induction false} AgreementAgrees(x: Pair)
    requires Agreement(x)
    ensures Agree(x)
  {
    if Connected(x) {
      var s, l := x.small.session.value, x.large.session.value;
      if s.role == Offerer {
        assert AnswerMessage(Answer(s.id, s.generation, s.remoteHash.value, s.localHash)) in x.large.sent;
      } else if l.role == Offerer {
        assert AnswerMessage(Answer(l.id, l.generation, l.remoteHash.value, l.localHash)) in x.small.sent;
      }
    }
  }

  /** What is grounded stays so as the other side says more. */
  lemma {:induction false} GroundedMore(side: Side, other: Side, more: Side)
    requires Grounded(side, other) && other.sent <= more.sent
    ensures Grounded(side, more)
  {
  }

  lemma {:induction false} StoresGrounded(me: bytes, peer: bytes, side: Side, other: Side, good: bytes -> bool, e: Event)
    requires Grounded(side, other) && Possible(side, other, e) && (e.Started? || e.Answered?)
    ensures Grounded(React(me, peer, side, good, e), other)
  {
  }

  lemma {:induction false} OfferGrounded(me: bytes, peer: bytes, side: Side, other: Side, good: bytes -> bool, offer: Offer, now: int)
    requires Grounded(side, other) && OfferMessage(offer) in other.sent
    ensures Grounded(React(me, peer, side, good, Receive(OfferMessage(offer), now)), other)
  {
  }

  /** The same session, except that an offerer may have installed an answer. */
  predicate Keeps(s: Session, s': Session, e: Event) {
    && s'.role == s.role && s'.id == s.id && s'.generation == s.generation && s'.localHash == s.localHash
    && (s'.remoteHash == s.remoteHash
        || (s.role == Offerer && s.remoteHash.None? && e.Receive? && e.message.AnswerMessage?
            && e.message.answer == Answer(s.id, s.generation, e.message.answer.hash, s.localHash)
            && s'.remoteHash == Some(e.message.answer.hash)))
  }

  /**
    What an event other than a second half does to a session: it keeps it, or drops that of an offerer with the larger
    identifier. It sends no offer and no answer.
  */
  predicate Mild(me: bytes, peer: bytes, side: Side, side': Side, e: Event) {
    && side.sent <= side'.sent && (forall m :: m in side'.sent ==> m in side.sent || m.CandidateMessage?)
    && (side.session.None? ==> side'.session.None? && side'.sent == side.sent)
    && (side.session.Some? && side'.session.Some? ==> Keeps(side.session.value, side'.session.value, e))
    && (side.session.Some? && side'.session.None? ==>
          side.session.value.role == Offerer && !Less(me, peer) && e.Receive? && e.message.OfferMessage?)
  }

  lemma {:induction false} ReactMild(me: bytes, peer: bytes, side: Side, good: bytes -> bool, e: Event)
    requires !e.Started? && !e.Answered?
    ensures Mild(me, peer, side, React(me, peer, side, good, e), e)
  {
  }

  lemma {:induction false} ReactStores(me: bytes, peer: bytes, side: Side, good: bytes -> bool, e: Event)
    requires (e.Started? && e.now in side.starting) || (e.Answered? && e.task in side.answering)
    ensures var side', s := React(me, peer, side, good, e), Stored(peer, e).value;
            && side'.session == Some(s)
            && side'.sent == side.sent + {if s.role == Offerer then OfferMessageOf(s) else AnswerMessageOf(s)}
  {
  }

  lemma {:induction false} ReactGrounded(me: bytes, peer: bytes, side: Side, other: Side, good: bytes -> bool, e: Event)
    requires Grounded(side, other) && Possible(side, other, e)
    ensures Grounded(React(me, peer, side, good, e), other)
  {
    if e.Started? || e.Answered? {
      StoresGrounded(me, peer, side, other, good, e);
    } else if e.Receive? && e.message.OfferMessage? {
      OfferGrounded(me, peer, side, other, good, e.message.offer, e.now);
    } else {
      ReactMild(me, peer, side, good, e);
      assert React(me, peer, side, good, e).answering == side.answering;
      hide React;
    }
  }

  lemma {:induction false} ReactSends(me: bytes, peer: bytes, side: Side, other: Side, good: bytes -> bool, e: Event)
    requires Possible(side, other, e)
    ensures side.sent <= React(me, peer, side, good, e).sent
  {
  }

  /** An offer that a side has given up, with no `start` to come, stays given up; the larger side needs that it gets no offer. */
  lemma {:induction false} GoneStays(me: bytes, peer: bytes, side: Side, other: Side, good: bytes -> bool, e: Event, offer: Offer)
    requires Possible(side, other, e) && Grounded(side, other) && (Less(me, peer) || NoOffer(other))
    requires MayHold(React(me, peer, side, good, e), offer)
    ensures MayHold(side, offer)
  {
    if e.Answered? {
      ReactStores(me, peer, side, good, e);
    } else if !e.Started? {
      ReactMild(me, peer, side, good, e);
    }
  }

  lemma {:induction false} OtherCurrent(x: Pair, good: bytes -> bool, bySmall: bool, e: Event)
    requires Agreement(x) && Allowed(x, bySmall, e) && (!bySmall ==> NoOffer(x.small))
    requires if bySmall then Current(x.large, x.small) else Current(x.small, x.large)
    ensures var y := Step(x, good, bySmall, e); if bySmall then Current(y.large, y.small) else Current(y.small, y.large)
  {
    var y := Step(x, good, bySmall, e);
    var me, peer := if bySmall then x.smallId else x.largeId, if bySmall then x.largeId else x.smallId;
    var side, other := if bySmall then x.small else x.large, if bySmall then x.large else x.small;
    forall offer | MayHold(if bySmall then y.small else y.large, offer) ensures MayHold(side, offer) {
      GoneStays(me, peer, side, other, good, e, offer);
    }
    hide React, Less, MayHold;
  }

  lemma {:induction false} SmallStep(x: Pair, good: bytes -> bool, e: Event)
    requires Agreement(x) && Possible(x.small, x.large, e) && !Replaces(x, true, e)
    ensures var after := React(x.smallId, x.largeId, x.small, good, e);
            SmallOk(after) && (after.session.Some? && after.session.value.role == Answerer ==> Current(after, x.large))
  {
    if e.Started? || e.Answered? {
      ReactStores(x.smallId, x.largeId, x.small, good, e);
    } else {
      ReactMild(x.smallId, x.largeId, x.small, good, e);
    }
    hide React, Less;
  }

  lemma {:induction false} LargeStep(x: Pair, good: bytes -> bool, e: Event)
    requires Agreement(x) && Possible(x.large, x.small, e) && !Replaces(x, false, e)
    ensures Current(React(x.largeId, x.smallId, x.large, good, e), x.small)
  {
    if e.Started? || e.Answered? {
      ReactStores(x.largeId, x.smallId, x.large, good, e);
    } else {
      ReactMild(x.largeId, x.smallId, x.large, good, e);
    }
    hide React, Less;
  }

  lemma {:induction false} AgreementStep(x: Pair, good: bytes -> bool, bySmall: bool, e: Event)
    requires Agreement(x) && Allowed(x, bySmall, e) && !Replaces(x, bySmall, e)
    ensures Agreement(Step(x, good, bySmall, e))
  {
    if bySmall {
      OtherCurrent(x, good, true, e);
    } else if x.small.session.Some? && x.small.session.value.role == Answerer {
      OtherCurrent(x, good, false, e);
    }
    hide Grounded, SmallOk, Current, React, Replaces;
    if bySmall {
      var after := React(x.smallId, x.largeId, x.small, good, e);
      ReactGrounded(x.smallId, x.largeId, x.small, x.large, good, e);
      ReactSends(x.smallId, x.largeId, x.small, x.large, good, e);
      GroundedMore(x.large, x.small, after);
      SmallStep(x, good, e);
    } else {
      var after := React(x.largeId, x.smallId, x.large, good, e);
      ReactGrounded(x.largeId, x.smallId, x.large, x.small, good, e);
      ReactSends(x.largeId, x.smallId, x.large, x.small, good, e);
      GroundedMore(x.small, x.large, after);
      LargeStep(x, good, e);
    }
  }

  lemma {:induction false} AgreementFrom(x: Pair, good: bytes -> bool, events: seq<(bool, Event)>)
    requires Agreement(x) && GuardedFrom(x, good, events)
    ensures Agreement(From(x, good, events))
  {
    hide Agreement, Replaces, Step;
    if events != [] {
      AgreementFrom(x, good, events[..|events| - 1]);
      var y := From(x, good, events[..|events| - 1]);
      var (bySmall, e) := events[|events| - 1];
      if Allowed(y, bySmall, e) {
        AgreementStep(y, good, bySmall, e);
      }
    }
  }

  lemma {:induction false} FreshAgreement(smallId: bytes, largeId: bytes)
    requires Less(smallId, largeId)
    ensures Agreement(Fresh(smallId, largeId))
  {
  }

  /** The invariant over every guarded run. */
  lemma {:induction false} RunAgreement(smallId: bytes, largeId: bytes, good: bytes -> bool, events: seq<(bool, Event)>)
    requires Less(smallId, largeId) && GuardedFrom(Fresh(smallId, largeId), good, events)
    ensures Agreement(Run(smallId, largeId, good, events))
  {
    FreshAgreement(smallId, largeId);
    AgreementFrom(Fresh(smallId, largeId), good, events);
  }

  /** As long as no second half replaces what was answered for, the two sides never disagree. */
  lemma {:induction false} NeverDisagree(smallId: bytes, largeId: bytes, good: bytes -> bool, events: seq<(bool, Event)>)
    requires Less(smallId, largeId) && GuardedFrom(Fresh(smallId, largeId), good, events)
    ensures Agree(Run(smallId, largeId, good, events))
  {
    RunAgreement(smallId, largeId, good, events);
    AgreementAgrees(Run(smallId, largeId, good, events));
  }
  // ---------------------------------------------------------------- single steps

  lemma {:induction false} Starts(me: bytes, peer: bytes, good: bytes -> bool, side: Side, now: int)
    requires side.session.None?
    ensures React(me, peer, side, good, Start(now)) == side.(starting := side.starting + multiset{now})
  {
  }

  lemma {:induction false} Stores(me: bytes, peer: bytes, good: bytes -> bool, side: Side, now: int, offer: Offer)
    requires offer.generation == 0
    ensures React(me, peer, side, good, Started(now, offer.id, offer.hash))
         == side.(session := Some(OffererSession(peer, offer.id, offer.hash, now)), sent := side.sent + {OfferMessage(offer)}, starting := side.starting - multiset{now})
  {
  }

  lemma {:induction false} TakesOffer(me: bytes, peer: bytes, good: bytes -> bool, side: Side, offer: Offer)
    requires !Less(me, peer) && (side.session.Some? ==> side.session.value.role == Offerer)
    ensures React(me, peer, side, good, Receive(OfferMessage(offer), 0)) == side.(session := None, answering := side.answering + multiset{Task(offer, 0)})
  {
  }

  lemma {:induction false} GivesAnswer(me: bytes, peer: bytes, good: bytes -> bool, side: Side, offer: Offer, hash: bytes)
    ensures React(me, peer, side, good, Answered(Task(offer, 0), hash))
         == side.(session := Some(AnswererSession(peer, offer, hash, 0)), sent := side.sent + {AnswerMessage(Answer(offer.id, offer.generation, hash, offer.hash))},
                  answering := side.answering - multiset{Task(offer, 0)})
  {
  }

  lemma {:induction false} TakesAnswer(me: bytes, peer: bytes, good: bytes -> bool, side: Side, offer: Offer, hash: bytes)
    requires offer.generation == 0 && side.session == Some(OffererSession(peer, offer.id, offer.hash, 0))
    ensures var side' := React(me, peer, side, good, Receive(AnswerMessage(Answer(offer.id, 0, hash, offer.hash)), 0));
            && side' == side.(session := side'.session)
            && side'.session.Some? && side'.session.value.role == Offerer && side'.session.value.remoteHash == Some(hash)
  {
  }
  // ---------------------------------------------------------------- the guard is exact

  /** One more possible and harmless event. */
  lemma {:induction false} Next(x: Pair, good: bytes -> bool, events: seq<(bool, Event)>, bySmall: bool, e: Event)
    requires GuardedFrom(x, good, events) && Allowed(From(x, good, events), bySmall, e) && !Replaces(From(x, good, events), bySmall, e)
    ensures GuardedFrom(x, good, events + [(bySmall, e)])
    ensures From(x, good, events + [(bySmall, e)]) == Step(From(x, good, events), good, bySmall, e)
  {
    assert (events + [(bySmall, e)])[..|events|] == events;
  }

  /** The answer of a side that has answered, wherever it is by now, reaches the offerer, or has reached it before. */
  lemma {:induction false} AnswerArrives(x: Pair, good: bytes -> bool, bySmall: bool, answer: Answer)
    requires var side, other := if bySmall then x.small else x.large, if bySmall then x.large else x.small;
             && AnswerMessage(answer) in other.sent
             && side.session.Some? && side.session.value.role == Offerer
             && OfferOf(side.session.value) == OfferAnswered(answer)
             && (side.session.value.remoteHash.Some? ==> side.session.value.remoteHash == Some(answer.hash))
    ensures var e := Receive(AnswerMessage(answer), 0);
            && Allowed(x, bySmall, e) && !Replaces(x, bySmall, e)
            && var y := Step(x, good, bySmall, e);
               var side, side' := if bySmall then x.small else x.large, if bySmall then y.small else y.large;
               && (if bySmall then y == x.(small := y.small) else y == x.(large := y.large))
               && side'.session.Some? && OfferOf(side'.session.value) == OfferOf(side.session.value)
               && side'.session.value.role == Offerer && side'.session.value.remoteHash == Some(answer.hash) && side'.sent == side.sent
  {
  }

  /** The larger side gets an offer and answers it. */
  function AnswerOffer(offer: Offer, hash: bytes): seq<(bool, Event)> {
    [(false, Receive(OfferMessage(offer), 0)), (false, Answered(Task(offer, 0), hash))]
  }

  lemma {:induction false} OneBack<T>(m: multiset<T>, t: T)
    ensures m + multiset{t} - multiset{t} == m
  {
  }

  /** Two events of the larger side, the second of which finds no session. */
  lemma {:induction false} Twice(x: Pair, good: bytes -> bool, first: Event, second: Event)
    requires Allowed(x, false, first) && Stored(x.smallId, first).None?
    requires Allowed(Step(x, good, false, first), false, second) && Step(x, good, false, first).large.session.None?
    ensures GuardedFrom(x, good, [(false, first), (false, second)])
    ensures From(x, good, [(false, first), (false, second)]) == Step(Step(x, good, false, first), good, false, second)
  {
    assert From(x, good, []) == x && GuardedFrom(x, good, []);
    hide From, GuardedFrom, React, Possible, Stored;
    Next(x, good, [], false, first);
    Next(x, good, [] + [(false, first)], false, second);
    assert [] + [(false, first)] + [(false, second)] == [(false, first), (false, second)];
  }

  lemma {:induction false} TakesAndAnswers(me: bytes, peer: bytes, good: bytes -> bool, side: Side, offer: Offer, hash: bytes)
    requires !Less(me, peer) && (side.session.Some? ==> side.session.value.role == Offerer)
    ensures var side' := React(me, peer, side, good, Receive(OfferMessage(offer), 0));
            && side'.session.None? && Task(offer, 0) in side'.answering
            && React(me, peer, side', good, Answered(Task(offer, 0), hash))
            == side.(session := Some(AnswererSession(peer, offer, hash, 0)), sent := side.sent + {AnswerMessage(Answer(offer.id, offer.generation, hash, offer.hash))})
  {
    var side' := React(me, peer, side, good, Receive(OfferMessage(offer), 0));
    TakesOffer(me, peer, good, side, offer);
    GivesAnswer(me, peer, good, side', offer, hash);
    OneBack(side.answering, Task(offer, 0));
    hide React;
  }

  /** As long as it has not answered, it can be made to answer any offer that was sent, with any description. */
  lemma {:induction false} LargeAnswers(x: Pair, good: bytes -> bool, offer: Offer, hash: bytes)
    requires Less(x.smallId, x.largeId) && OfferMessage(offer) in x.small.sent
    requires x.large.session.Some? ==> x.large.session.value.role == Offerer
    ensures GuardedFrom(x, good, AnswerOffer(offer, hash))
    ensures From(x, good, AnswerOffer(offer, hash))
         == x.(large := x.large.(session := Some(AnswererSession(x.smallId, offer, hash, 0)),
                                 sent := x.large.sent + {AnswerMessage(Answer(offer.id, offer.generation, hash, offer.hash))}))
  {
    var receive, answered := Receive(OfferMessage(offer), 0), Answered(Task(offer, 0), hash);
    var y := Step(x, good, false, receive);
    assert !Less(x.largeId, x.smallId) by { LessAsymmetric(x.smallId, x.largeId); }
    TakesAndAnswers(x.largeId, x.smallId, good, x.large, offer, hash);
    hide From, GuardedFrom, React, Less;
    Twice(x, good, receive, answered);
  }

  /** Some other description. */
  function OtherHash(hash: bytes): (other: bytes)
    ensures |other| == 32 && other != hash
  {
    if |hash| > 0 && hash[0] == 0 then seq(32, _ => 1) else seq(32, _ => 0)
  }

  lemma {:induction false} SomeOf<T>(m: multiset<T>) returns (t: T)
    requires m != multiset{}
    ensures t in m
  {
    assert |m| != 0;
    t :| t in m;
  }

  /** A `start` that is under way ends with this offer. */
  lemma {:induction false} StartEnds(x: Pair, good: bytes -> bool, bySmall: bool, now: int, offer: Offer)
    requires var side := if bySmall then x.small else x.large;
             && offer.generation == 0 && now in side.starting
             && (!bySmall && side.session.Some? ==> side.session.value.role == Offerer)
    ensures var e := Started(now, offer.id, offer.hash);
            && Allowed(x, bySmall, e) && !Replaces(x, bySmall, e)
            && var y := Step(x, good, bySmall, e);
               var side, side' := if bySmall then x.small else x.large, if bySmall then y.small else y.large;
               && (if bySmall then y == x.(small := y.small) else y == x.(large := y.large))
               && side'.session.Some? && side'.session.value.role == Offerer && OfferOf(side'.session.value) == offer
               && side'.session.value.remoteHash.None? && side.sent <= side'.sent
  {
    if bySmall {
      Stores(x.smallId, x.largeId, good, x.small, now, offer);
    } else {
      Stores(x.largeId, x.smallId, good, x.large, now, offer);
    }
    hide React;
  }

  /** In this run a side ends a `start` only to hold an offer that it does not hold yet: at once, or after calling it first. */
  predicate ComesBack(side: Side, offer: Offer, events: seq<(bool, Event)>) {
    forall k :: 0 <= k < |events| && events[k].1.Started? ==>
      && (if side.session.None? then k == 1 && events[0].1.Start? else k == 0)
      && !(side.session.Some? && side.session.value.role == Offerer && OfferOf(side.session.value) == offer)
  }

  /** A side comes to hold an offer, by a `start` that ends with it. */
  lemma {:induction false} ComesToHold(x: Pair, good: bytes -> bool, bySmall: bool, offer: Offer) returns (more: seq<(bool, Event)>)
    requires var side := if bySmall then x.small else x.large;
             && offer.generation == 0 && (side.session.None? || side.starting != multiset{})
             && (!bySmall && side.session.Some? ==> side.session.value.role == Offerer)
    ensures GuardedFrom(x, good, more) && forall k :: 0 <= k < |more| ==> more[k].0 == bySmall
    ensures if (if bySmall then x.small else x.large).session.None? then |more| == 2 && more[0].1.Start? else |more| == 1
    ensures var y := From(x, good, more);
            var side, side' := if bySmall then x.small else x.large, if bySmall then y.small else y.large;
            && (if bySmall then y == x.(small := y.small) else y == x.(large := y.large))
            && side'.session.Some? && side'.session.value.role == Offerer && OfferOf(side'.session.value) == offer
            && side'.session.value.remoteHash.None? && side.sent <= side'.sent
  {
    var now, side, y := 0, if bySmall then x.small else x.large, x;
    more := [];
    if side.session.None? {
      Next(x, good, [], bySmall, Start(0));
      more := [] + [(bySmall, Start(0))];
      y := Step(x, good, bySmall, Start(0));
      Starts(if bySmall then x.smallId else x.largeId, if bySmall then x.largeId else x.smallId, good, side, 0);
      assert 0 in side.starting + multiset{0};
    } else {
      now := SomeOf(side.starting);
    }
    assert From(x, good, more) == y && GuardedFrom(x, good, more);
    hide React, GuardedFrom, From, Allowed, Replaces;
    StartEnds(y, good, bySmall, now, offer);
    Next(x, good, more, bySmall, Started(now, offer.id, offer.hash));
    more := more + [(bySmall, Started(now, offer.id, offer.hash))];
  }

  /** A side that may still hold an offer comes to hold the answer to it. */
  lemma {:induction false} ComesToInstall(x: Pair, good: bytes -> bool, bySmall: bool, answer: Answer) returns (more: seq<(bool, Event)>)
    requires var side, other := if bySmall then x.small else x.large, if bySmall then x.large else x.small;
             && answer.generation == 0 && AnswerMessage(answer) in other.sent && MayHold(side, OfferAnswered(answer))
             && (!bySmall && side.session.Some? ==> side.session.value.role == Offerer)
             && (side.session.Some? && side.session.value.role == Offerer && OfferOf(side.session.value) == OfferAnswered(answer) ==>
                   side.session.value.remoteHash.None? || side.session.value.remoteHash == Some(answer.hash))
    ensures GuardedFrom(x, good, more) && forall k :: 0 <= k < |more| ==> more[k].0 == bySmall
    ensures ComesBack(if bySmall then x.small else x.large, OfferAnswered(answer), more)
    ensures var y := From(x, good, more);
            var side, side' := if bySmall then x.small else x.large, if bySmall then y.small else y.large;
            && (if bySmall then y == x.(small := y.small) else y == x.(large := y.large))
            && side'.session.Some? && side'.session.value.role == Offerer && OfferOf(side'.session.value) == OfferAnswered(answer)
            && side'.session.value.remoteHash == Some(answer.hash) && side.sent <= side'.sent
  {
    var side := if bySmall then x.small else x.large;
    more := [];
    if !(side.session.Some? && side.session.value.role == Offerer && OfferOf(side.session.value) == OfferAnswered(answer)) {
      more := ComesToHold(x, good, bySmall, OfferAnswered(answer));
    }
    hide React, GuardedFrom;
    var e := Receive(AnswerMessage(answer), 0);
    AnswerArrives(From(x, good, more), good, bySmall, answer);
    Next(x, good, more, bySmall, e);
    more := more + [(bySmall, e)];
  }

  lemma {:induction false} GuardedMore(x: Pair, good: bytes -> bool, events: seq<(bool, Event)>, more: seq<(bool, Event)>)
    requires GuardedFrom(x, good, events) && GuardedFrom(From(x, good, events), good, more)
    ensures GuardedFrom(x, good, events + more)
  {
    if more == [] {
      assert events + more == events;
    } else {
      var front := more[..|more| - 1];
      GuardedMore(x, good, events, front);
      FromMore(x, good, events, front);
      assert (events + more)[..|events + more| - 1] == events + front;
    }
  }

  lemma {:induction false} ComesBackAndMore(side: Side, offer: Offer, events: seq<(bool, Event)>, more: seq<(bool, Event)>)
    requires ComesBack(side, offer, events) && forall k :: 0 <= k < |more| ==> !more[k].1.Started?
    ensures ComesBack(side, offer, events + more)
  {
    forall k | |events| <= k < |events + more| ensures !(events + more)[k].1.Started? {
      assert (events + more)[k] == more[k - |events|];
    }
  }

  /** A larger side that does not answer, after a run of the smaller one that leaves it with an answer to its offer, gives another answer. */
  lemma {:induction false} AnswersDifferently(y: Pair, good: bytes -> bool, offer: Offer, hash: bytes, events: seq<(bool, Event)>) returns (more: seq<(bool, Event)>)
    requires GuardedFrom(y, good, events) && ComesBack(y.small, offer, events) && forall k :: 0 <= k < |events| ==> events[k].0
    requires var z := From(y, good, events);
             && Less(z.smallId, z.largeId) && OfferMessage(offer) in z.small.sent
             && z.small.session.Some? && z.small.session.value.remoteHash == Some(hash)
             && z.large.session.Some? && z.large.session.value.role == Offerer
    ensures GuardedFrom(y, good, more) && !Agree(From(y, good, more))
    ensures ComesBack(y.small, offer, more) && forall k :: 0 <= k < |more| && more[k].1.Started? ==> more[k].0
  {
    var z, rest := From(y, good, events), AnswerOffer(offer, OtherHash(hash));
    LargeAnswers(z, good, offer, OtherHash(hash));
    ComesBackAndMore(y.small, offer, events, rest);
    hide From, GuardedFrom, ComesBack, Less;
    GuardedMore(y, good, events, rest);
    FromMore(y, good, events, rest);
    more := events + rest;
  }

  /** The larger side has replaced a session in which it answered; the smaller one comes to install that answer. */
  lemma {:induction false} LargeReplaced(x: Pair, good: bytes -> bool, e: Event) returns (more: seq<(bool, Event)>)
    requires Agreement(x) && Allowed(x, false, e) && Replaces(x, false, e)
    ensures GuardedFrom(Step(x, good, false, e), good, more) && !Agree(From(Step(x, good, false, e), good, more))
    ensures ComesBack(x.small, OfferAnswered(AnswerOf(x.large.session.value)), more)
    ensures forall k :: 0 <= k < |more| && more[k].1.Started? ==> more[k].0
  {
    var y, a := Step(x, good, false, e), x.large.session.value;
    var offer := OfferAnswered(AnswerOf(a));
    ReactStores(x.largeId, x.smallId, x.large, good, e);
    hide React, From, GuardedFrom, ComesBack, Less;
    assert OfferMessage(offer) in x.small.sent && offer.generation == 0;
    more := ComesToInstall(y, good, true, AnswerOf(a));
    if e.Started? {
      hide Agree, Agreement;
      more := AnswersDifferently(y, good, offer, a.localHash, more);
    }
  }

  /** The smaller side has replaced an offer by an answer: the larger one has answered, or can still answer, that offer. */
  lemma {:induction false} SmallGaveUp(y: Pair, good: bytes -> bool, offer: Offer) returns (more: seq<(bool, Event)>)
    requires Less(y.smallId, y.largeId) && OfferMessage(offer) in y.small.sent
    requires y.small.session.Some? && y.small.session.value.role == Answerer && y.small.session.value.remoteHash.Some?
    requires y.large.session.Some? && y.large.session.value.role == Answerer ==> y.large.session.value.remoteHash.Some?
    ensures GuardedFrom(y, good, more) && !Agree(From(y, good, more)) && forall k :: 0 <= k < |more| ==> !more[k].1.Started?
  {
    if y.large.session.Some? && y.large.session.value.role == Answerer {
      more := [];
    } else {
      LargeAnswers(y, good, offer, OtherHash([]));
      hide From, GuardedFrom;
      more := AnswerOffer(offer, OtherHash([]));
    }
  }

  /** The smaller side has replaced an offer by an answer, or an answer that the larger one comes to install. */
  lemma {:induction false} SmallReplaced(x: Pair, good: bytes -> bool, e: Event) returns (more: seq<(bool, Event)>)
    requires Agreement(x) && Allowed(x, true, e) && Replaces(x, true, e)
    ensures GuardedFrom(Step(x, good, true, e), good, more) && !Agree(From(Step(x, good, true, e), good, more))
    ensures var s := x.small.session.value;
            if s.role == Answerer then ComesBack(x.large, OfferAnswered(AnswerOf(s)), more) else forall k :: 0 <= k < |more| ==> !more[k].1.Started?
    ensures forall k :: 0 <= k < |more| && more[k].1.Started? ==> !more[k].0
  {
    var y, s := Step(x, good, true, e), x.small.session.value;
    ReactStores(x.smallId, x.largeId, x.small, good, e);
    hide React, From, GuardedFrom, Less;
    if s.role == Answerer {
      assert OfferMessage(OfferAnswered(AnswerOf(s))) in x.large.sent && s.generation == 0;
      more := ComesToInstall(y, good, false, AnswerOf(s));
    } else {
      hide Agree;
      more := SmallGaveUp(y, good, OfferOf(s));
    }
  }

  /** Whatever the guard forbids has a continuation, itself within the guard, in which the two sides disagree. */
  lemma {:induction false} GuardNeeded(x: Pair, good: bytes -> bool, bySmall: bool, e: Event) returns (more: seq<(bool, Event)>)
    requires Agreement(x) && Allowed(x, bySmall, e) && Replaces(x, bySmall, e)
    ensures GuardedFrom(Step(x, good, bySmall, e), good, more) && !Agree(From(Step(x, good, bySmall, e), good, more))
  {
    hide *;
    if bySmall {
      more := SmallReplaced(x, good, e);
    } else {
      more := LargeReplaced(x, good, e);
    }
  }

  /**
    The guard is exact. After a run within it, an event replaces nothing that was answered for if and only if the two sides
    agree after it, however the run goes on within the guard.
  */
  lemma {:induction false} GuardIsExact(smallId: bytes, largeId: bytes, good: bytes -> bool, events: seq<(bool, Event)>, bySmall: bool, e: Event)
    requires Less(smallId, largeId) && GuardedFrom(Fresh(smallId, largeId), good, events)
    requires Allowed(Run(smallId, largeId, good, events), bySmall, e)
    ensures var x := Run(smallId, largeId, good, events);
            var y := Step(x, good, bySmall, e);
            !Replaces(x, bySmall, e) <==> forall more :: GuardedFrom(y, good, more) ==> Agree(From(y, good, more))
  {
    RunAgreement(smallId, largeId, good, events);
    hide Agreement, Agree, Step, Replaces;
    var x := Run(smallId, largeId, good, events);
    var y := Step(x, good, bySmall, e);
    if Replaces(x, bySmall, e) {
      var more := GuardNeeded(x, good, bySmall, e);
    } else {
      AgreementStep(x, good, bySmall, e);
      forall more | GuardedFrom(y, good, more) ensures Agree(From(y, good, more)) {
        AgreementFrom(y, good, more);
        AgreementAgrees(From(y, good, more));
      }
    }
  }

  // ---------------------------------------------------------------- who offers

  /** A second half of the smaller side that replaces its offer, or that offers after it has answered. */
  predicate Unseats(x: Pair, bySmall: bool, e: Event) {
    bySmall && Stored(x.largeId, e).Some? && x.small.session.Some? &&
    (var s, s' := x.small.session.value, Stored(x.largeId, e).value;
     if s.role == Offerer then s'.role == Answerer || OfferOf(s') != OfferOf(s) else s'.role == Offerer)
  }

  predicate OnlyOffer(side: Side, offer: Offer) {
    forall m :: m in side.sent && m.OfferMessage? ==> m.offer == offer
  }

  predicate NoAnswer(side: Side) {
    forall m :: m in side.sent ==> !m.AnswerMessage?
  }

  /** Once the smaller side offered, it stays the offerer of that session, and a session of the larger one with a remote description answers it. */
  predicate SmallerHolds(x: Pair) {
    forall m :: m in x.small.sent && m.OfferMessage? ==>
      && x.small.session.Some? && x.small.session.value.role == Offerer && OfferOf(x.small.session.value) == m.offer
      && (x.large.session.Some? && x.large.session.value.remoteHash.Some? ==>
            x.large.session.value.role == Answerer && x.large.session.value.id == m.offer.id)
  }

  predicate SeatedFrom(x: Pair, good: bytes -> bool, events: seq<(bool, Event)>) {
    events == [] ||
    (var y := From(x, good, events[..|events| - 1]);
     var (bySmall, e) := events[|events| - 1];
     SeatedFrom(x, good, events[..|events| - 1]) && (Allowed(y, bySmall, e) ==> !Unseats(y, bySmall, e)))
  }

  /** The smaller side either offers one session and answers nothing, or answers and offers nothing. */
  predicate SmallSeated(side: Side) {
    match side.session
    case None => side.sent == {}
    case Some(s) => if s.role == Offerer then OnlyOffer(side, OfferOf(s)) && NoAnswer(side) else NoOffer(side)
  }

  predicate Seated(x: Pair) {
    Less(x.smallId, x.largeId) && Grounded(x.small, x.large) && Grounded(x.large, x.small) && SmallSeated(x.small)
  }

  lemma {:induction false} SeatedHolds(x: Pair)
    requires Seated(x)
    ensures SmallerHolds(x)
  {
  }

  lemma {:induction false} SmallSeatedStep(x: Pair, good: bytes -> bool, e: Event)
    requires Seated(x) && Possible(x.small, x.large, e) && !Unseats(x, true, e)
    ensures SmallSeated(React(x.smallId, x.largeId, x.small, good, e))
  {
    if e.Started? || e.Answered? {
      ReactStores(x.smallId, x.largeId, x.small, good, e);
    } else {
      ReactMild(x.smallId, x.largeId, x.small, good, e);
    }
    hide React, Less;
  }

  lemma {:induction false} SeatedStep(x: Pair, good: bytes -> bool, bySmall: bool, e: Event)
    requires Seated(x) && Allowed(x, bySmall, e) && !Unseats(x, bySmall, e)
    ensures Seated(Step(x, good, bySmall, e))
  {
    hide Grounded, SmallSeated, React, Unseats;
    if bySmall {
      ReactGrounded(x.smallId, x.largeId, x.small, x.large, good, e);
      ReactSends(x.smallId, x.largeId, x.small, x.large, good, e);
      GroundedMore(x.large, x.small, React(x.smallId, x.largeId, x.small, good, e));
      SmallSeatedStep(x, good, e);
    } else {
      ReactGrounded(x.largeId, x.smallId, x.large, x.small, good, e);
      ReactSends(x.largeId, x.smallId, x.large, x.small, good, e);
      GroundedMore(x.small, x.large, React(x.largeId, x.smallId, x.large, good, e));
    }
  }

  lemma {:induction false} SeatedRun(x: Pair, good: bytes -> bool, events: seq<(bool, Event)>)
    requires Seated(x) && SeatedFrom(x, good, events)
    ensures Seated(From(x, good, events))
  {
    hide Seated, Unseats, Step;
    if events != [] {
      SeatedRun(x, good, events[..|events| - 1]);
      var y := From(x, good, events[..|events| - 1]);
      var (bySmall, e) := events[|events| - 1];
      if Allowed(y, bySmall, e) {
        SeatedStep(y, good, bySmall, e);
      }
    }
  }

  lemma {:induction false} FreshSeated(smallId: bytes, largeId: bytes)
    requires Less(smallId, largeId)
    ensures Seated(Fresh(smallId, largeId))
  {
  }

  /** Whatever the larger side does. */
  lemma {:induction false} SmallerOffers(smallId: bytes, largeId: bytes, good: bytes -> bool, events: seq<(bool, Event)>)
    requires Less(smallId, largeId) && SeatedFrom(Fresh(smallId, largeId), good, events)
    ensures SmallerHolds(Run(smallId, largeId, good, events))
  {
    FreshSeated(smallId, largeId);
    SeatedRun(Fresh(smallId, largeId), good, events);
    SeatedHolds(Run(smallId, largeId, good, events));
  }

  /** Nothing that the larger side does unseats the smaller one. */
  lemma {:induction false} LargeSeated(x: Pair, good: bytes -> bool, events: seq<(bool, Event)>)
    requires forall k :: 0 <= k < |events| ==> !events[k].0
    ensures SeatedFrom(x, good, events)
  {
    if events != [] {
      LargeSeated(x, good, events[..|events| - 1]);
    }
  }

  /** The larger side lets go of its offer, if it has one, and comes back to the one that the smaller side answered. */
  lemma {:induction false} LargeReturns(x: Pair, good: bytes -> bool, offer: Offer, answer: Answer) returns (more: seq<(bool, Event)>)
    requires Less(x.smallId, x.largeId) && answer.generation == 0
    requires OfferMessage(offer) in x.small.sent && AnswerMessage(answer) in x.small.sent
    requires x.large.session.Some? ==> x.large.session.value.role == Offerer
    ensures SeatedFrom(x, good, more)
    ensures var y := From(x, good, more);
            && y.small == x.small
            && y.large.session.Some? && y.large.session.value.role == Offerer && y.large.session.value.remoteHash.Some?
  {
    var receive := Receive(OfferMessage(offer), 0);
    var first := [(false, receive)];
    LessAsymmetric(x.smallId, x.largeId);
    FromOne(x, good, false, receive);
    TakesOffer(x.largeId, x.smallId, good, x.large, offer);
    hide React, From, GuardedFrom, Less;
    var rest := ComesToInstall(From(x, good, first), good, false, answer);
    FromMore(x, good, first, rest);
    more := first + rest;
    LargeSeated(x, good, more);
  }

  lemma {:induction false} UnseatingBreaks(x: Pair, good: bytes -> bool, bySmall: bool, e: Event) returns (more: seq<(bool, Event)>)
    requires Seated(x) && Allowed(x, bySmall, e) && Unseats(x, bySmall, e)
    ensures SeatedFrom(Step(x, good, bySmall, e), good, more) && !SmallerHolds(From(Step(x, good, bySmall, e), good, more))
  {
    var y, s := Step(x, good, bySmall, e), x.small.session.value;
    ReactStores(x.smallId, x.largeId, x.small, good, e);
    hide React;
    if s.role == Offerer {
      assert OfferMessageOf(s) in y.small.sent;
      more := [];
    } else {
      assert OfferMessage(OfferAnswered(AnswerOf(s))) in x.large.sent;
      more := LargeReturns(y, good, OfferOf(Stored(x.largeId, e).value), AnswerOf(s));
    }
  }

  /**
    And this guard is exact: after a run within it, an event does not unseat the smaller side's offer if and only if the
    smaller side remains the offerer from then on, however the run goes on within the guard.
  */
  lemma {:induction false} SeatIsExact(smallId: bytes, largeId: bytes, good: bytes -> bool, events: seq<(bool, Event)>, bySmall: bool, e: Event)
    requires Less(smallId, largeId) && SeatedFrom(Fresh(smallId, largeId), good, events)
    requires Allowed(Run(smallId, largeId, good, events), bySmall, e)
    ensures var x := Run(smallId, largeId, good, events);
            var y := Step(x, good, bySmall, e);
            !Unseats(x, bySmall, e) <==> forall more :: SeatedFrom(y, good, more) ==> SmallerHolds(From(y, good, more))
  {
    FreshSeated(smallId, largeId);
    SeatedRun(Fresh(smallId, largeId), good, events);
    hide SmallerHolds, Seated, Step, Unseats;
    var x := Run(smallId, largeId, good, events);
    var y := Step(x, good, bySmall, e);
    if Unseats(x, bySmall, e) {
      var more := UnseatingBreaks(x, good, bySmall, e);
    } else {
      SeatedStep(x, good, bySmall, e);
      forall more | SeatedFrom(y, good, more) ensures SmallerHolds(From(y, good, more)) {
        SeatedRun(y, good, more);
        SeatedHolds(From(y, good, more));
      }
    }
  }
  // ---------------------------------------------------------------- runs outside the guard

  /** One event of a run, with the two sides before it. */
  lemma {:induction false} Acts(x: Pair, good: bytes -> bool, events: seq<(bool, Event)>, k: nat, small: Side, large: Side)
    requires k < |events| && From(x, good, events[..k]) == x.(small := small, large := large)
    requires if events[k].0 then Possible(small, large, events[k].1) else Possible(large, small, events[k].1)
    ensures From(x, good, events[..k + 1])
         == if events[k].0 then x.(small := React(x.smallId, x.largeId, small, good, events[k].1), large := large)
            else x.(small := small, large := React(x.largeId, x.smallId, large, good, events[k].1))
  {
    hide React, Possible;
    assert events[..k + 1][..k] == events[..k];
  }

  /** The smaller side starts, and its browser makes this offer. */
  function Begin(offer: Offer): seq<(bool, Event)> {
    [(true, Start(0)), (true, Started(0, offer.id, offer.hash))]
  }

  lemma {:induction false} Begins(x: Pair, good: bytes -> bool, offer: Offer)
    requires x.small == Idle() && offer.generation == 0
    ensures var y := From(x, good, Begin(offer));
            && y == x.(small := y.small) && y.small.answering == multiset{}
            && y.small.session == Some(OffererSession(x.largeId, offer.id, offer.hash, 0)) && OfferMessage(offer) in y.small.sent
  {
    var e := Begin(offer);
    assert e[..0] == [] && e[..2] == e && From(x, good, []) == x.(small := x.small, large := x.large);
    hide From, React;
    var s1 := React(x.smallId, x.largeId, x.small, good, e[0].1);
    Starts(x.smallId, x.largeId, good, x.small, 0);
    Acts(x, good, e, 0, x.small, x.large);
    Stores(x.smallId, x.largeId, good, s1, 0, offer);
    Acts(x, good, e, 1, s1, x.large);
  }

  /** The larger side answers it, and the answer arrives. */
  function Settle(offer: Offer, first: bytes): seq<(bool, Event)> {
    AnswerOffer(offer, first) + [(true, Receive(AnswerMessage(Answer(offer.id, 0, first, offer.hash)), 0))]
  }

  /** Both sides hold what the other described. */
  predicate Settled(x: Pair, offer: Offer, first: bytes) {
    && x.small.session.Some? && x.small.session.value.role == Offerer && x.small.session.value.remoteHash == Some(first)
    && OfferMessage(offer) in x.small.sent && x.large.session == Some(AnswererSession(x.smallId, offer, first, 0))
  }

  lemma {:induction false} Settles(x: Pair, good: bytes -> bool, offer: Offer, first: bytes)
    requires Less(x.smallId, x.largeId) && offer.generation == 0 && x.large.session.None?
    requires x.small.session == Some(OffererSession(x.largeId, offer.id, offer.hash, 0)) && OfferMessage(offer) in x.small.sent
    ensures var y := From(x, good, Settle(offer, first));
            && y.smallId == x.smallId && y.largeId == x.largeId && y.large.starting == x.large.starting
            && Settled(y, offer, first)
  {
    var e := Receive(AnswerMessage(Answer(offer.id, 0, first, offer.hash)), 0);
    LargeAnswers(x, good, offer, first);
    var y := From(x, good, AnswerOffer(offer, first));
    hide AnswerOffer;
    FromMore(x, good, AnswerOffer(offer, first), [(true, e)]);
    FromOne(y, good, true, e);
    TakesAnswer(x.smallId, x.largeId, good, x.small, offer, first);
    hide From, React;
  }

  /** Both sides start; the larger one waits for its own offer while it answers that of the smaller. */
  function AnswerWhileStarting(offer: Offer, first: bytes): seq<(bool, Event)> {
    [(false, Start(0))] + Begin(offer) + Settle(offer, first)
  }

  lemma {:induction false} AnsweredWhileStarting(smallId: bytes, largeId: bytes, good: bytes -> bool, offer: Offer, first: bytes)
    requires Less(smallId, largeId) && offer.generation == 0
    ensures var x := Run(smallId, largeId, good, AnswerWhileStarting(offer, first));
            && x.smallId == smallId && x.largeId == largeId && Settled(x, offer, first) && 0 in x.large.starting
  {
    var x := Fresh(smallId, largeId);
    var waiting := Step(x, good, false, Start(0));
    FromOne(x, good, false, Start(0));
    assert waiting.small == Idle() && waiting.large.session.None? && 0 in waiting.large.starting;
    hide From, React, Less, Begin, Settle, Settled;
    Begins(waiting, good, offer);
    Settles(From(waiting, good, Begin(offer)), good, offer, first);
    FromMore(x, good, [(false, Start(0))], Begin(offer));
    FromMore(x, good, [(false, Start(0))] + Begin(offer), Settle(offer, first));
  }

  /** Its own `start` ends, and it gets the same offer again. */
  function StartOver(offer: Offer, own: Offer, second: bytes): seq<(bool, Event)> {
    [(false, Started(0, own.id, own.hash))] + AnswerOffer(offer, second)
  }

  lemma {:induction false} StartedOverAnswer(x: Pair, good: bytes -> bool, offer: Offer, first: bytes, own: Offer, second: bytes)
    requires Less(x.smallId, x.largeId) && own.generation == 0 && Settled(x, offer, first) && 0 in x.large.starting
    ensures var y := From(x, good, StartOver(offer, own, second));
            y.small == x.small && y.large.session == Some(AnswererSession(x.smallId, offer, second, 0))
  {
    var e := Started(0, own.id, own.hash);
    var y := Step(x, good, false, e);
    FromOne(x, good, false, e);
    Stores(x.largeId, x.smallId, good, x.large, 0, own);
    hide React, AnswerOffer;
    LargeAnswers(y, good, offer, second);
    FromMore(x, good, [(false, e)], AnswerOffer(offer, second));
  }

  /** The two sides agree, and then the smaller one holds the first answer and the larger one has given another. */
  lemma {:induction false} StaleStartDisagrees(smallId: bytes, largeId: bytes, good: bytes -> bool, offer: Offer, first: bytes, own: Offer, second: bytes)
    requires Less(smallId, largeId) && offer.generation == own.generation == 0 && first != second
    ensures Connected(Run(smallId, largeId, good, AnswerWhileStarting(offer, first)))
    ensures var x := Run(smallId, largeId, good, AnswerWhileStarting(offer, first) + StartOver(offer, own, second));
            && Connected(x) && !Agree(x)
            && x.small.session.value.remoteHash == Some(first) && x.large.session.value.localHash == second
  {
    hide From, AnswerWhileStarting, StartOver;
    AnsweredWhileStarting(smallId, largeId, good, offer, first);
    StartedOverAnswer(Run(smallId, largeId, good, AnswerWhileStarting(offer, first)), good, offer, first, own, second);
    FromMore(Fresh(smallId, largeId), good, AnswerWhileStarting(offer, first), StartOver(offer, own, second));
  }

  /** The larger side gets an offer twice. */
  function OfferTwice(offer: Offer): seq<(bool, Event)> {
    [(false, Receive(OfferMessage(offer), 0)), (false, Receive(OfferMessage(offer), 0))]
  }

  /** It answers it twice, and the first answer arrives. */
  function AnswerTwice(offer: Offer, first: bytes, second: bytes): seq<(bool, Event)> {
    [(false, Answered(Task(offer, 0), first)), (true, Receive(AnswerMessage(Answer(offer.id, 0, first, offer.hash)), 0)),
     (false, Answered(Task(offer, 0), second))]
  }

  lemma {:induction false} OfferedTwice(x: Pair, good: bytes -> bool, offer: Offer)
    requires Less(x.smallId, x.largeId) && x.large == Idle() && OfferMessage(offer) in x.small.sent
    ensures var y := From(x, good, OfferTwice(offer));
            y == x.(large := y.large) && y.large.answering == multiset{Task(offer, 0), Task(offer, 0)}
  {
    var e := OfferTwice(offer);
    assert e[..0] == [] && e[..2] == e && From(x, good, []) == x.(small := x.small, large := x.large);
    LessAsymmetric(x.smallId, x.largeId);
    hide From, React, Less;
    var l1 := React(x.largeId, x.smallId, x.large, good, e[0].1);
    TakesOffer(x.largeId, x.smallId, good, x.large, offer);
    Acts(x, good, e, 0, x.small, x.large);
    TakesOffer(x.largeId, x.smallId, good, l1, offer);
    Acts(x, good, e, 1, x.small, l1);
  }

  lemma {:induction false} BothAnswered(x: Pair, good: bytes -> bool, offer: Offer, first: bytes, second: bytes)
    requires offer.generation == 0 && x.small.session == Some(OffererSession(x.largeId, offer.id, offer.hash, 0))
    requires x.large.answering == multiset{Task(offer, 0), Task(offer, 0)}
    ensures var y := From(x, good, AnswerTwice(offer, first, second));
            && y.small.session.Some? && y.small.session.value.remoteHash == Some(first)
            && y.large.session == Some(AnswererSession(x.smallId, offer, second, 0))
  {
    var e := AnswerTwice(offer, first, second);
    assert e[..0] == [] && e[..3] == e && From(x, good, []) == x.(small := x.small, large := x.large);
    hide From, React;
    var l1 := React(x.largeId, x.smallId, x.large, good, e[0].1);
    GivesAnswer(x.largeId, x.smallId, good, x.large, offer, first);
    Acts(x, good, e, 0, x.small, x.large);
    var s2 := React(x.smallId, x.largeId, x.small, good, e[1].1);
    TakesAnswer(x.smallId, x.largeId, good, x.small, offer, first);
    Acts(x, good, e, 1, x.small, l1);
    GivesAnswer(x.largeId, x.smallId, good, l1, offer, second);
    Acts(x, good, e, 2, s2, l1);
  }

  /** An offer that is repeated while it is being answered is enough for the two sides to disagree. */
  lemma {:induction false} RepeatedOfferDisagrees(smallId: bytes, largeId: bytes, good: bytes -> bool, offer: Offer, first: bytes, second: bytes)
    requires Less(smallId, largeId) && offer.generation == 0 && first != second
    ensures var x := Run(smallId, largeId, good, Begin(offer) + OfferTwice(offer) + AnswerTwice(offer, first, second));
            && Connected(x) && !Agree(x)
            && x.small.session.value.remoteHash == Some(first) && x.large.session.value.localHash == second
  {
    hide From, Begin, OfferTwice, AnswerTwice;
    var x := Fresh(smallId, largeId);
    Begins(x, good, offer);
    var y := From(x, good, Begin(offer));
    OfferedTwice(y, good, offer);
    BothAnswered(From(y, good, OfferTwice(offer)), good, offer, first, second);
    FromMore(x, good, Begin(offer), OfferTwice(offer));
    FromMore(x, good, Begin(offer) + OfferTwice(offer), AnswerTwice(offer, first, second));
  }

  // ---------------------------------------------------------------- candidates

  /** Candidates a side holds were sent by the other side for the description it installed. */
  predicate CandidatesFrom(session: Option<Session>, other: Side) {
    session.Some? ==>
      && Sound(session.value)
      && (forall key :: key in session.value.received + session.value.pending ==>
            CandidateMessage(Candidate(session.value.id, session.value.generation, Opposite(session.value.role), key.hash, key.text)) in other.sent)
  }

  predicate Candidates(x: Pair) {
    CandidatesFrom(x.small.session, x.large) && CandidatesFrom(x.large.session, x.small)
  }

  lemma {:induction false} AnswerCandidates(s: Session, other: Side, answer: Answer, good: bytes -> bool, now: int)
    requires CandidatesFrom(Some(s), other)
    ensures CandidatesFrom(OnAnswer(Some(s), answer, good, now).0, other)
  {
    OnAnswerSound(s, answer, good, now);
  }

  lemma {:induction false} CandidateAdds(s: Session, c: Candidate, good: bytes -> bool, now: int)
    ensures var s' := OnCandidate(Some(s), c, good, now).0;
            && s'.Some? && s'.value.id == s.id && s'.value.generation == s.generation && s'.value.role == s.role
            && forall key :: key in s'.value.received + s'.value.pending ==>
                 key in s.received + s.pending
                 || (key == KeyOf(c) && s.id == c.id && s.generation == c.generation && c.direction == Opposite(s.role))
  {
  }

  lemma {:induction false} CandidateCandidates(s: Session, other: Side, c: Candidate, good: bytes -> bool, now: int)
    requires CandidatesFrom(Some(s), other) && CandidateMessage(c) in other.sent
    ensures CandidatesFrom(OnCandidate(Some(s), c, good, now).0, other)
  {
    OnCandidateSound(s, c, good, now);
    CandidateAdds(s, c, good, now);
    hide OnCandidate, Sound;
    var s' := OnCandidate(Some(s), c, good, now).0.value;
    forall key | key in s'.received + s'.pending
      ensures CandidateMessage(Candidate(s'.id, s'.generation, Opposite(s'.role), key.hash, key.text)) in other.sent
    {
      assert key in s.received + s.pending || key == KeyOf(c);
    }
  }

  lemma {:induction false} StoredCandidates(peer: bytes, e: Event, other: Side)
    ensures CandidatesFrom(Stored(peer, e), other)
  {
  }

  lemma {:induction false} ReactCandidates(me: bytes, peer: bytes, side: Side, other: Side, good: bytes -> bool, e: Event)
    requires CandidatesFrom(side.session, other) && Possible(side, other, e)
    ensures CandidatesFrom(React(me, peer, side, good, e).session, other)
  {
    hide OnAnswer, OnCandidate, Sound, Stored;
    StoredCandidates(peer, e, other);
    if side.session.Some? && e.Receive? {
      match e.message
      case AnswerMessage(answer) => AnswerCandidates(side.session.value, other, answer, good, e.now);
      case CandidateMessage(c) => CandidateCandidates(side.session.value, other, c, good, e.now);
      case OfferMessage(_) =>
    } else {
      NothingReceived(me, peer, side, good, e);
    }
  }

  lemma {:induction false} NothingReceived(me: bytes, peer: bytes, side: Side, good: bytes -> bool, e: Event)
    requires !e.Receive? || side.session.None?
    ensures React(me, peer, side, good, e).session == if Stored(peer, e).Some? then Stored(peer, e) else side.session
  {
  }

  /** Every candidate that a side applied was sent by the other side for the description that the side installed. */
  lemma {:induction false} RunCandidates(smallId: bytes, largeId: bytes, good: bytes -> bool, events: seq<(bool, Event)>)
    ensures Candidates(Run(smallId, largeId, good, events))
  {
    if events != [] {
      RunCandidates(smallId, largeId, good, events[..|events| - 1]);
      var x := Run(smallId, largeId, good, events[..|events| - 1]);
      var (bySmall, e) := events[|events| - 1];
      if Allowed(x, bySmall, e) {
        if bySmall {
          ReactCandidates(x.smallId, x.largeId, x.small, x.large, good, e);
          ReactSends(x.smallId, x.largeId, x.small, x.large, good, e);
        } else {
          ReactCandidates(x.largeId, x.smallId, x.large, x.small, good, e);
          ReactSends(x.largeId, x.smallId, x.large, x.small, good, e);
        }
      }
    }
  }
}
