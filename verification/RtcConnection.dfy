/**
  Whether the two controllers of RtcAgreement get connected once every offer and every answer has got through. They do,
  unless an offer has been replaced by another one when it could still be answered.
*/
module RtcConnection {
  import opened Bytes
  import opened RtcSessions
  import opened RtcAgreement

  /** No half is still to come, and nothing that was sent so far would change its receiver any more. */
  ghost predicate Quiet(x: Pair, good: bytes -> bool) {
    && x.small.starting == x.large.starting == multiset{} && x.small.answering == x.large.answering == multiset{}
    && (forall m, now :: m in x.large.sent && !m.CandidateMessage? ==> React(x.smallId, x.largeId, x.small, good, Receive(m, now)) == x.small)
    && (forall m, now :: m in x.small.sent && !m.CandidateMessage? ==> React(x.largeId, x.smallId, x.large, good, Receive(m, now)) == x.large)
  }

  /** If someone has started and nothing is left to react to, both sides are connected, and to each other. */
  ghost predicate Joined(x: Pair, good: bytes -> bool) {
    Quiet(x, good) && (x.small.session.Some? || x.large.session.Some?) ==> Connected(x) && Agree(x)
  }

  predicate Offers(side: Side) { side.session.Some? && side.session.value.role == Offerer }

  predicate Answers(side: Side) { side.session.Some? && side.session.value.role == Answerer && side.session.value.remoteHash.Some? }

  /**
    When the offer of a side is relied upon: on the smaller side, unless an answer of its own is on the way, which is not to
    replace its offer; on the larger side, as long as the smaller one does not offer and is not about to.
  */
  predicate ReliedUpon(x: Pair, bySmall: bool) {
    if bySmall then x.small.answering == multiset{} else !Offers(x.small) && x.small.starting == multiset{}
  }

  /** The end of a `start` that puts another offer in the place of one that is relied upon. */
  predicate Strands(x: Pair, bySmall: bool, e: Event) {
    var side := if bySmall then x.small else x.large;
    e.Started? && Offers(side) && OfferOf(side.session.value) != Offer(e.id, 0, e.hash) && ReliedUpon(x, bySmall)
  }

  predicate CalmFrom(x: Pair, good: bytes -> bool, events: seq<(bool, Event)>) {
    events == [] ||
    (var y := From(x, good, events[..|events| - 1]);
     var (bySmall, e) := events[|events| - 1];
     && CalmFrom(x, good, events[..|events| - 1])
     && (Allowed(y, bySmall, e) ==> !Replaces(y, bySmall, e) && !Strands(y, bySmall, e)))
  }

  // ---------------------------------------------------------------- one offer

  /** A smaller side that offers has made only this offer, unless it is about to answer; and otherwise the larger one has made at most one. */
  predicate OneOffer(x: Pair) {
    && (Offers(x.small) && x.small.answering == multiset{} ==> OnlyOffer(x.small, OfferOf(x.small.session.value)))
    && (!Offers(x.small) && x.small.starting == multiset{} ==>
          match x.large.session
          case None => NoOffer(x.large)
          case Some(l) => l.role == Offerer && OnlyOffer(x.large, OfferOf(l)))
  }

  lemma {:induction false} SmallOneOffer(x: Pair, good: bytes -> bool, e: Event)
    requires Agreement(x) && OneOffer(x) && Possible(x.small, x.large, e) && !Replaces(x, true, e) && !Strands(x, true, e)
    ensures OneOffer(Step(x, good, true, e))
  {
    if e.Started? || e.Answered? {
      ReactStores(x.smallId, x.largeId, x.small, good, e);
    } else {
      ReactMild(x.smallId, x.largeId, x.small, good, e);
    }
    Queues(x.smallId, x.largeId, x.small, good, e);
    hide React, Less;
  }

  lemma {:induction false} LargeOneOffer(x: Pair, good: bytes -> bool, e: Event)
    requires Agreement(x) && OneOffer(x) && Possible(x.large, x.small, e) && !Replaces(x, false, e) && !Strands(x, false, e)
    ensures OneOffer(Step(x, good, false, e))
  {
    if e.Started? || e.Answered? {
      ReactStores(x.largeId, x.smallId, x.large, good, e);
    } else {
      ReactMild(x.largeId, x.smallId, x.large, good, e);
    }
    hide React, Less;
  }

  /** Only `start` and its end change what is starting, and with the smaller identifier an offerer takes no offer. */
  lemma {:induction false} Queues(me: bytes, peer: bytes, side: Side, good: bytes -> bool, e: Event)
    ensures var side' := React(me, peer, side, good, e);
            && (!e.Start? && !e.Started? ==> side'.starting == side.starting)
            && (e.Start? ==> side' == side || (side.session.None? && side'.starting != multiset{}))
            && (!e.Answered? && !e.Receive? ==> side'.answering == side.answering)
            && (e.Receive? && Less(me, peer) && Offers(side) ==> side'.answering == side.answering)
  {
  }

  lemma {:induction false} FreshOneOffer(smallId: bytes, largeId: bytes)
    requires Less(smallId, largeId)
    ensures Agreement(Fresh(smallId, largeId)) && OneOffer(Fresh(smallId, largeId))
  {
    FreshAgreement(smallId, largeId);
  }

  lemma {:induction false} CalmStep(x: Pair, good: bytes -> bool, bySmall: bool, e: Event)
    requires Agreement(x) && OneOffer(x) && Allowed(x, bySmall, e) && !Replaces(x, bySmall, e) && !Strands(x, bySmall, e)
    ensures Agreement(Step(x, good, bySmall, e)) && OneOffer(Step(x, good, bySmall, e))
  {
    hide Agreement, OneOffer, Step, Replaces, Strands;
    AgreementStep(x, good, bySmall, e);
    if bySmall {
      SmallOneOffer(x, good, e);
    } else {
      LargeOneOffer(x, good, e);
    }
  }

  lemma {:induction false} CalmRun(x: Pair, good: bytes -> bool, events: seq<(bool, Event)>)
    requires Agreement(x) && OneOffer(x) && CalmFrom(x, good, events)
    ensures Agreement(From(x, good, events)) && OneOffer(From(x, good, events))
  {
    hide Agreement, OneOffer, Step, Replaces, Strands;
    if events != [] {
      CalmRun(x, good, events[..|events| - 1]);
      var y := From(x, good, events[..|events| - 1]);
      var (bySmall, e) := events[|events| - 1];
      if Allowed(y, bySmall, e) {
        CalmStep(y, good, bySmall, e);
      }
    }
  }

  // ---------------------------------------------------------------- quiet is connected

  lemma {:induction false} OneMore<T>(m: multiset<T>, t: T)
    ensures m + multiset{t} != m
  {
    assert (m + multiset{t})[t] == m[t] + 1;
  }

  lemma {:induction false} OfferReacts(me: bytes, peer: bytes, side: Side, good: bytes -> bool, offer: Offer)
    requires React(me, peer, side, good, Receive(OfferMessage(offer), 0)) == side
    ensures side.session.Some? && (side.session.value.role == Answerer || Less(me, peer))
  {
    OneMore(side.answering, Task(offer, 0));
  }

  lemma {:induction false} AnswerReacts(me: bytes, peer: bytes, side: Side, good: bytes -> bool, answer: Answer)
    requires React(me, peer, side, good, Receive(AnswerMessage(answer), 0)) == side
    requires side.session.Some? && side.session.value.role == Offerer && OfferOf(side.session.value) == OfferAnswered(answer)
    ensures side.session.value.remoteHash.Some?
  {
  }

  lemma {:induction false} QuietConnects(x: Pair, good: bytes -> bool)
    requires Agreement(x) && OneOffer(x)
    ensures Joined(x, good)
  {
    hide React, OnOffer;
    AgreementAgrees(x);
    LessAsymmetric(x.smallId, x.largeId);
    if Quiet(x, good) && (x.small.session.Some? || x.large.session.Some?) {
      match x.small.session
      case None =>
        OfferReacts(x.smallId, x.largeId, x.small, good, OfferOf(x.large.session.value));
      case Some(s) =>
        if s.role == Offerer {
          OfferReacts(x.largeId, x.smallId, x.large, good, OfferOf(s));
          AnswerReacts(x.smallId, x.largeId, x.small, good, AnswerOf(x.large.session.value));
        } else {
          AnswerReacts(x.largeId, x.smallId, x.large, good, AnswerOf(s));
        }
    }
  }

  /** If every offer and answer got through, someone started, and nothing is left to react to, both sides are connected. */
  lemma {:induction false} QuietIsConnected(smallId: bytes, largeId: bytes, good: bytes -> bool, events: seq<(bool, Event)>)
    requires Less(smallId, largeId) && CalmFrom(Fresh(smallId, largeId), good, events)
    ensures Joined(Run(smallId, largeId, good, events), good)
  {
    hide Agreement, OneOffer, CalmFrom, Joined;
    FreshOneOffer(smallId, largeId);
    CalmRun(Fresh(smallId, largeId), good, events);
    QuietConnects(From(Fresh(smallId, largeId), good, events), good);
  }

  // ---------------------------------------------------------------- the guard is exact

  lemma {:induction false} CalmNext(x: Pair, good: bytes -> bool, events: seq<(bool, Event)>, bySmall: bool, e: Event)
    requires CalmFrom(x, good, events) && Allowed(From(x, good, events), bySmall, e)
    requires !Replaces(From(x, good, events), bySmall, e) && !Strands(From(x, good, events), bySmall, e)
    ensures CalmFrom(x, good, events + [(bySmall, e)])
    ensures From(x, good, events + [(bySmall, e)]) == Step(From(x, good, events), good, bySmall, e)
  {
    assert (events + [(bySmall, e)])[..|events|] == events;
  }

  lemma {:induction false} CalmOne(x: Pair, good: bytes -> bool, bySmall: bool, e: Event)
    requires Allowed(x, bySmall, e) && !Replaces(x, bySmall, e) && !Strands(x, bySmall, e)
    ensures CalmFrom(x, good, [(bySmall, e)]) && From(x, good, [(bySmall, e)]) == Step(x, good, bySmall, e)
  {
    CalmNext(x, good, [], bySmall, e);
    assert [] + [(bySmall, e)] == [(bySmall, e)];
  }

  lemma {:induction false} CalmMore(x: Pair, good: bytes -> bool, events: seq<(bool, Event)>, more: seq<(bool, Event)>)
    requires CalmFrom(x, good, events) && CalmFrom(From(x, good, events), good, more)
    ensures CalmFrom(x, good, events + more) && From(x, good, events + more) == From(From(x, good, events), good, more)
  {
    FromMore(x, good, events, more);
    if more == [] {
      assert events + more == events;
    } else {
      var front := more[..|more| - 1];
      CalmMore(x, good, events, front);
      assert (events + more)[..|events + more| - 1] == events + front;
    }
  }

  /** Every `start` of an offering side that is under way ends with the offer it has already made. */
  lemma {:induction false} Restarts(x: Pair, good: bytes -> bool, bySmall: bool) returns (more: seq<(bool, Event)>)
    requires var side := if bySmall then x.small else x.large;
             && Offers(side) && OfferMessageOf(side.session.value) in side.sent
             && side.session.value.generation == 0 && side.session.value.remoteHash.None?
    ensures CalmFrom(x, good, more)
    ensures var y := From(x, good, more);
            var side, side' := if bySmall then x.small else x.large, if bySmall then y.small else y.large;
            && (if bySmall then y == x.(small := y.small) else y == x.(large := y.large))
            && side' == side.(session := side'.session, starting := multiset{})
            && Offers(side') && OfferOf(side'.session.value) == OfferOf(side.session.value) && side'.session.value.remoteHash.None?
    decreases |(if bySmall then x.small else x.large).starting|
  {
    var side := if bySmall then x.small else x.large;
    if side.starting == multiset{} {
      more := [];
    } else {
      var now := SomeOf(side.starting);
      var offer := OfferOf(side.session.value);
      var e := Started(now, offer.id, offer.hash);
      Stores(if bySmall then x.smallId else x.largeId, if bySmall then x.largeId else x.smallId, good, side, now, offer);
      assert side.sent + {OfferMessage(offer)} == side.sent;
      CalmOne(x, good, bySmall, e);
      hide React, CalmFrom, From;
      more := Restarts(Step(x, good, bySmall, e), good, bySmall);
      CalmMore(x, good, [(bySmall, e)], more);
      more := [(bySmall, e)] + more;
    }
  }

  /** A larger side that has to do with another offer than this one. */
  predicate Elsewhere(side: Side, offer: Offer) {
    && (forall m :: m in side.sent && m.AnswerMessage? ==> OfferAnswered(m.answer) != offer)
    && (side.session.Some? && side.session.value.role == Answerer ==> Answers(side) && OfferAnswered(AnswerOf(side.session.value)) != offer)
    && (forall t :: t in side.answering ==> t.offer != offer)
  }

  /** While the smaller side holds an offer, with nothing under way, the larger one may do with others as it likes. */
  lemma {:induction false} LargeIsFree(x: Pair, e: Event)
    requires Offers(x.small) && x.small.starting == multiset{} && Elsewhere(x.large, OfferOf(x.small.session.value))
    ensures !Replaces(x, false, e) && !Strands(x, false, e)
  {
  }

  lemma {:induction false} LargeStops(x: Pair, good: bytes -> bool) returns (more: seq<(bool, Event)>)
    requires Offers(x.small) && x.small.starting == multiset{} && Elsewhere(x.large, OfferOf(x.small.session.value))
    ensures CalmFrom(x, good, more)
    ensures var y := From(x, good, more);
            && y == x.(large := y.large) && Elsewhere(y.large, OfferOf(x.small.session.value))
            && y.large.starting == multiset{} && y.large.answering == x.large.answering
    decreases |x.large.starting|
  {
    if x.large.starting == multiset{} {
      more := [];
    } else {
      var now := SomeOf(x.large.starting);
      var offer := Offer(seq(16, _ => 0), 0, OtherHash([]));
      var e := Started(now, offer.id, offer.hash);
      Stores(x.largeId, x.smallId, good, x.large, now, offer);
      LargeIsFree(x, e);
      CalmOne(x, good, false, e);
      hide React, CalmFrom, From;
      more := LargeStops(Step(x, good, false, e), good);
      CalmMore(x, good, [(false, e)], more);
      more := [(false, e)] + more;
    }
  }

  lemma {:induction false} LargeFinishes(x: Pair, good: bytes -> bool) returns (more: seq<(bool, Event)>)
    requires Offers(x.small) && x.small.starting == multiset{} && Elsewhere(x.large, OfferOf(x.small.session.value))
    requires x.large.starting == multiset{} && (x.large.answering != multiset{} || Answers(x.large))
    ensures CalmFrom(x, good, more)
    ensures var y := From(x, good, more);
            && y == x.(large := y.large) && Elsewhere(y.large, OfferOf(x.small.session.value))
            && y.large.starting == multiset{} && y.large.answering == multiset{} && Answers(y.large)
    decreases |x.large.answering|
  {
    if x.large.answering == multiset{} {
      more := [];
    } else {
      var task := SomeOf(x.large.answering);
      var e := Answered(task, OtherHash([]));
      Answering(x.largeId, x.smallId, good, x.large, task, OtherHash([]));
      LargeIsFree(x, e);
      CalmOne(x, good, false, e);
      hide React, CalmFrom, From;
      more := LargeFinishes(Step(x, good, false, e), good);
      CalmMore(x, good, [(false, e)], more);
      more := [(false, e)] + more;
    }
  }

  lemma {:induction false} Answering(me: bytes, peer: bytes, good: bytes -> bool, side: Side, task: Task, hash: bytes)
    ensures React(me, peer, side, good, Answered(task, hash))
         == side.(session := Some(AnswererSession(peer, task.offer, hash, task.now)),
                  sent := side.sent + {AnswerMessage(Answer(task.offer.id, task.offer.generation, hash, task.offer.hash))},
                  answering := side.answering - multiset{task})
  {
  }

  /** Stuck: the smaller side offers what the larger one has never answered, and that one answers another offer. */
  lemma {:induction false} UnansweredIsQuiet(x: Pair, good: bytes -> bool)
    requires Less(x.smallId, x.largeId)
    requires x.small.starting == x.large.starting == multiset{} && x.small.answering == x.large.answering == multiset{}
    requires Offers(x.small) && x.small.session.value.remoteHash.None?
    requires Answers(x.large) && Elsewhere(x.large, OfferOf(x.small.session.value))
    ensures !Joined(x, good)
  {
    var offer := OfferOf(x.small.session.value);
    forall m, now | m in x.large.sent && !m.CandidateMessage?
      ensures React(x.smallId, x.largeId, x.small, good, Receive(m, now)) == x.small
    {
      if m.AnswerMessage? {
        assert OfferAnswered(m.answer) != offer;
      }
    }
  }

  /** The smaller side has replaced its offer: the larger one brings everything to an end and then answers the old one. */
  lemma {:induction false} SmallStrands(x: Pair, good: bytes -> bool, e: Event) returns (more: seq<(bool, Event)>)
    requires Agreement(x) && OneOffer(x) && Possible(x.small, x.large, e) && Strands(x, true, e)
    ensures CalmFrom(Step(x, good, true, e), good, more) && !Joined(From(Step(x, good, true, e), good, more), good)
  {
    var y, offer := Step(x, good, true, e), OfferOf(x.small.session.value);
    Stores(x.smallId, x.largeId, good, x.small, e.now, Offer(e.id, 0, e.hash));
    assert OnlyOffer(x.small, offer) && OfferMessage(offer) in x.small.sent;
    assert Elsewhere(x.large, Offer(e.id, 0, e.hash));
    hide React, Agreement, OneOffer, CalmFrom, From, Elsewhere;
    more := Restarts(y, good, true);
    var z := From(y, good, more);
    var next := LargeStops(z, good);
    CalmMore(y, good, more, next);
    more, z := more + next, From(z, good, next);
    if z.large.answering == multiset{} && !Answers(z.large) {
      next := TakeAgain(z, good, offer);
      CalmMore(y, good, more, next);
      more, z := more + next, From(z, good, next);
    }
    next := LargeFinishes(z, good);
    CalmMore(y, good, more, next);
    more, z := more + next, From(z, good, next);
    UnansweredIsQuiet(z, good);
  }

  lemma {:induction false} TakeAgain(x: Pair, good: bytes -> bool, offer: Offer) returns (more: seq<(bool, Event)>)
    requires Less(x.smallId, x.largeId) && OfferMessage(offer) in x.small.sent
    requires Offers(x.small) && x.small.starting == multiset{} && Elsewhere(x.large, OfferOf(x.small.session.value))
    requires OfferOf(x.small.session.value) != offer && !Answers(x.large)
    ensures CalmFrom(x, good, more)
    ensures var y := From(x, good, more);
            && y == x.(large := y.large) && Elsewhere(y.large, OfferOf(x.small.session.value))
            && y.large.starting == x.large.starting && y.large.answering != multiset{}
  {
    var e := Receive(OfferMessage(offer), 0);
    LessAsymmetric(x.smallId, x.largeId);
    TakesOffer(x.largeId, x.smallId, good, x.large, offer);
    LargeIsFree(x, e);
    CalmOne(x, good, false, e);
    assert Task(offer, 0) in x.large.answering + multiset{Task(offer, 0)};
    hide React, CalmFrom, From;
    more := [(false, e)];
  }

  // ---------------------------------------------------------------- the larger side's offer

  /** The smaller side answers this offer with this description, or has nothing yet, and no other offer was ever made to it. */
  predicate Answerable(side: Side, offer: Offer, hash: bytes) {
    && NoOffer(side) && side.starting == multiset{}
    && (side.session.Some? ==> Answers(side) && AnswerOf(side.session.value) == Answer(offer.id, offer.generation, hash, offer.hash))
    && (forall t :: t in side.answering ==> t.offer == offer)
    && (forall m :: m in side.sent && m.AnswerMessage? ==> OfferAnswered(m.answer) == offer)
  }

  lemma {:induction false} SmallFinishes(x: Pair, good: bytes -> bool, offer: Offer, hash: bytes) returns (more: seq<(bool, Event)>)
    requires Answerable(x.small, offer, hash) && (x.small.answering != multiset{} || Answers(x.small))
    ensures CalmFrom(x, good, more)
    ensures var y := From(x, good, more);
            && y == x.(small := y.small) && Answerable(y.small, offer, hash)
            && y.small.answering == multiset{} && Answers(y.small)
    decreases |x.small.answering|
  {
    if x.small.answering == multiset{} {
      more := [];
    } else {
      var task := SomeOf(x.small.answering);
      var e := Answered(task, hash);
      Answering(x.smallId, x.largeId, good, x.small, task, hash);
      assert !Replaces(x, true, e);
      CalmOne(x, good, true, e);
      hide React, CalmFrom, From, Replaces;
      more := SmallFinishes(Step(x, good, true, e), good, offer, hash);
      CalmMore(x, good, [(true, e)], more);
      more := [(true, e)] + more;
    }
  }

  /** Stuck the other way round. */
  lemma {:induction false} ReplacedIsQuiet(x: Pair, good: bytes -> bool, offer: Offer, hash: bytes)
    requires x.small.starting == x.large.starting == multiset{} && x.small.answering == x.large.answering == multiset{}
    requires Answerable(x.small, offer, hash) && Answers(x.small)
    requires Offers(x.large) && x.large.session.value.remoteHash.None? && OfferOf(x.large.session.value) != offer
    ensures !Joined(x, good)
  {
    forall m, now | m in x.small.sent && !m.CandidateMessage?
      ensures React(x.largeId, x.smallId, x.large, good, Receive(m, now)) == x.large
    {
      assert OfferAnswered(m.answer) == offer;
    }
  }

  /** The larger side has replaced its offer: the smaller one answers the old one. */
  lemma {:induction false} LargeStrands(x: Pair, good: bytes -> bool, e: Event) returns (more: seq<(bool, Event)>)
    requires Agreement(x) && OneOffer(x) && Possible(x.large, x.small, e) && Strands(x, false, e)
    ensures CalmFrom(Step(x, good, false, e), good, more) && !Joined(From(Step(x, good, false, e), good, more), good)
  {
    var y, offer := Step(x, good, false, e), OfferOf(x.large.session.value);
    var hash := if x.small.session.Some? then x.small.session.value.localHash else OtherHash([]);
    Stores(x.largeId, x.smallId, good, x.large, e.now, Offer(e.id, 0, e.hash));
    NothingToAnswer(x);
    OldOffer(x, offer, hash);
    hide React, Agreement, OneOffer, CalmFrom, From, Answerable, Joined;
    more := Restarts(y, good, false);
    var z := From(y, good, more);
    if z.small.session.None? {
      var next := FirstTask(z, good, offer, hash);
      CalmMore(y, good, more, next);
      more, z := more + next, From(z, good, next);
    }
    var next := SmallFinishes(z, good, offer, hash);
    CalmMore(y, good, more, next);
    more, z := more + next, From(z, good, next);
    ReplacedIsQuiet(z, good, offer, hash);
  }

  lemma {:induction false} NothingToAnswer(x: Pair)
    requires Agreement(x) && !Offers(x.small)
    ensures x.large.answering == multiset{}
  {
    if x.large.answering != multiset{} {
      var t := SomeOf(x.large.answering);
    }
  }

  lemma {:induction false} OldOffer(x: Pair, offer: Offer, hash: bytes)
    requires Agreement(x) && OneOffer(x) && !Offers(x.small) && x.small.starting == multiset{}
    requires Offers(x.large) && OfferOf(x.large.session.value) == offer
    requires x.small.session.Some? ==> x.small.session.value.localHash == hash
    ensures Answerable(x.small, offer, hash) && OfferMessage(offer) in x.large.sent
    ensures x.small.session.None? || Answers(x.small)
  {
    if x.small.session.Some? {
      assert OfferMessage(OfferAnswered(AnswerOf(x.small.session.value))) in x.large.sent;
    }
  }

  lemma {:induction false} FirstTask(x: Pair, good: bytes -> bool, offer: Offer, hash: bytes) returns (more: seq<(bool, Event)>)
    requires Answerable(x.small, offer, hash) && x.small.session.None? && OfferMessage(offer) in x.large.sent
    ensures CalmFrom(x, good, more)
    ensures var y := From(x, good, more); y == x.(small := y.small) && Answerable(y.small, offer, hash) && y.small.answering != multiset{}
  {
    var e := Receive(OfferMessage(offer), 0);
    CalmOne(x, good, true, e);
    assert React(x.smallId, x.largeId, x.small, good, e) == x.small.(answering := x.small.answering + multiset{Task(offer, 0)});
    assert Task(offer, 0) in x.small.answering + multiset{Task(offer, 0)};
    hide React, CalmFrom, From;
    more := [(true, e)];
  }

  // ---------------------------------------------------------------- both guards together

  /** A run within the other guard in which no offer is replaced while it is relied upon. */
  lemma {:induction false} CalmIfGuarded(x: Pair, good: bytes -> bool, more: seq<(bool, Event)>)
    requires GuardedFrom(x, good, more)
    requires forall k :: 0 <= k < |more| ==> !Strands(From(x, good, more[..k]), more[k].0, more[k].1)
    ensures CalmFrom(x, good, more)
  {
    hide Replaces, Strands, Step;
    if more != [] {
      var front := more[..|more| - 1];
      forall k | 0 <= k < |front| ensures !Strands(From(x, good, front[..k]), front[k].0, front[k].1) {
        assert front[..k] == more[..k];
      }
      CalmIfGuarded(x, good, front);
    }
  }

  /** A side that has no other offer to give up may come back to one. */
  lemma {:induction false} ComesBackCalmly(x: Pair, good: bytes -> bool, bySmall: bool, offer: Offer, more: seq<(bool, Event)>)
    requires GuardedFrom(x, good, more) && ComesBack(if bySmall then x.small else x.large, offer, more)
    requires forall k :: 0 <= k < |more| && more[k].1.Started? ==> more[k].0 == bySmall
    requires var side := if bySmall then x.small else x.large; Offers(side) && ReliedUpon(x, bySmall) ==> OfferOf(side.session.value) == offer
    ensures CalmFrom(x, good, more)
  {
    forall k | 0 <= k < |more| ensures !Strands(From(x, good, more[..k]), more[k].0, more[k].1) {
      if more[k].1.Started? {
        if k == 0 {
          assert more[..0] == [];
        } else {
          assert more[..1][..0] == [] && From(x, good, []) == x;
          assert (if more[0].0 then From(x, good, more[..1]).small else From(x, good, more[..1]).large).session.None?
              || more[0].0 != bySmall;
        }
      }
    }
    hide GuardedFrom, From, Strands;
    CalmIfGuarded(x, good, more);
  }
  lemma {:induction false} LargeReplacedCalmly(x: Pair, good: bytes -> bool, e: Event) returns (more: seq<(bool, Event)>)
    requires Agreement(x) && OneOffer(x) && Allowed(x, false, e) && Replaces(x, false, e)
    ensures CalmFrom(Step(x, good, false, e), good, more) && !Agree(From(Step(x, good, false, e), good, more))
  {
    var offer := OfferAnswered(AnswerOf(x.large.session.value));
    assert OfferMessage(offer) in x.small.sent;
    more := LargeReplaced(x, good, e);
    hide React, GuardedFrom, From, Agree, ComesBack, Replaces;
    ComesBackCalmly(Step(x, good, false, e), good, true, offer, more);
  }

  lemma {:induction false} SmallReplacedCalmly(x: Pair, good: bytes -> bool, e: Event) returns (more: seq<(bool, Event)>)
    requires Agreement(x) && OneOffer(x) && Allowed(x, true, e) && Replaces(x, true, e)
    ensures CalmFrom(Step(x, good, true, e), good, more) && !Agree(From(Step(x, good, true, e), good, more))
  {
    var y, s := Step(x, good, true, e), x.small.session.value;
    more := SmallReplaced(x, good, e);
    if s.role == Answerer {
      var offer := OfferAnswered(AnswerOf(s));
      assert OfferMessage(offer) in x.large.sent;
      assert y.small.starting == x.small.starting;
      hide React, GuardedFrom, From, Agree, ComesBack, Replaces;
      ComesBackCalmly(y, good, false, offer, more);
    } else {
      hide React, GuardedFrom, From, Agree, Replaces;
      CalmIfGuarded(y, good, more);
    }
  }

  /** What either guard forbids has a continuation within both that ends badly. */
  lemma {:induction false} GuardsNeeded(x: Pair, good: bytes -> bool, bySmall: bool, e: Event) returns (more: seq<(bool, Event)>)
    requires Agreement(x) && OneOffer(x) && Allowed(x, bySmall, e) && (Replaces(x, bySmall, e) || Strands(x, bySmall, e))
    ensures CalmFrom(Step(x, good, bySmall, e), good, more)
    ensures var z := From(Step(x, good, bySmall, e), good, more); !(Agree(z) && Joined(z, good))
  {
    hide Agreement, OneOffer, Replaces, Strands, CalmFrom, From, Joined, Agree;
    if Replaces(x, bySmall, e) {
      if bySmall {
        more := SmallReplacedCalmly(x, good, e);
      } else {
        more := LargeReplacedCalmly(x, good, e);
      }
    } else if bySmall {
      more := SmallStrands(x, good, e);
    } else {
      more := LargeStrands(x, good, e);
    }
  }

  /**
    Together the guards are exact. After every run within them, an event breaks neither if and only if, however the run goes
    on within them, the two sides agree, and are connected whenever everything has got through.
  */
  lemma {:induction false} QuietIsExact(smallId: bytes, largeId: bytes, good: bytes -> bool, events: seq<(bool, Event)>, bySmall: bool, e: Event)
    requires Less(smallId, largeId) && CalmFrom(Fresh(smallId, largeId), good, events)
    requires Allowed(Run(smallId, largeId, good, events), bySmall, e)
    ensures var x := Run(smallId, largeId, good, events);
            var y := Step(x, good, bySmall, e);
            !Replaces(x, bySmall, e) && !Strands(x, bySmall, e) <==>
              forall more :: CalmFrom(y, good, more) ==> Agree(From(y, good, more)) && Joined(From(y, good, more), good)
  {
    hide Agreement, OneOffer, Joined, Agree, Step, Replaces, Strands;
    FreshOneOffer(smallId, largeId);
    CalmRun(Fresh(smallId, largeId), good, events);
    var x := Run(smallId, largeId, good, events);
    var y := Step(x, good, bySmall, e);
    if Replaces(x, bySmall, e) || Strands(x, bySmall, e) {
      var more := GuardsNeeded(x, good, bySmall, e);
    } else {
      CalmStep(x, good, bySmall, e);
      forall more | CalmFrom(y, good, more) ensures Agree(From(y, good, more)) && Joined(From(y, good, more), good) {
        CalmRun(y, good, more);
        QuietConnects(From(y, good, more), good);
        AgreementAgrees(From(y, good, more));
      }
    }
  }

  // ---------------------------------------------------------------- a run outside the guard

  /** The smaller side starts twice at once; the first offer is answered before the second replaces it. */
  function TwoStarts(first: Offer): seq<(bool, Event)> {
    [(true, Start(0)), (true, Start(0)), (true, Started(0, first.id, first.hash))]
  }

  function SecondStart(first: Offer, second: Offer, hash: bytes): seq<(bool, Event)> {
    AnswerOffer(first, hash) + [(true, Started(0, second.id, second.hash))]
  }

  lemma {:induction false} StartedTwice(x: Pair, good: bytes -> bool, first: Offer)
    requires x.small == Idle() && first.generation == 0
    ensures From(x, good, TwoStarts(first))
         == x.(small := Side(Some(OffererSession(x.largeId, first.id, first.hash, 0)), {OfferMessage(first)}, multiset{0}, multiset{}))
  {
    var e := TwoStarts(first);
    assert e[..0] == [] && e[..3] == e && From(x, good, []) == x.(small := x.small, large := x.large);
    hide From, React;
    var s1 := React(x.smallId, x.largeId, x.small, good, e[0].1);
    Starts(x.smallId, x.largeId, good, x.small, 0);
    Acts(x, good, e, 0, x.small, x.large);
    var s2 := React(x.smallId, x.largeId, s1, good, e[1].1);
    Starts(x.smallId, x.largeId, good, s1, 0);
    Acts(x, good, e, 1, s1, x.large);
    Stores(x.smallId, x.largeId, good, s2, 0, first);
    Acts(x, good, e, 2, s2, x.large);
  }

  lemma {:induction false} SecondStored(x: Pair, good: bytes -> bool, first: Offer, second: Offer, hash: bytes)
    requires Less(x.smallId, x.largeId) && first.generation == second.generation == 0 && x.large == Idle()
    requires x.small.sent == {OfferMessage(first)} && x.small.starting == multiset{0} && x.small.answering == multiset{}
    ensures From(x, good, SecondStart(first, second, hash))
         == x.(small := Side(Some(OffererSession(x.largeId, second.id, second.hash, 0)), {OfferMessage(first), OfferMessage(second)}, multiset{}, multiset{}),
               large := Side(Some(AnswererSession(x.smallId, first, hash, 0)), {AnswerMessage(Answer(first.id, 0, hash, first.hash))}, multiset{}, multiset{}))
  {
    var e := Started(0, second.id, second.hash);
    LargeAnswers(x, good, first, hash);
    hide AnswerOffer;
    var y := From(x, good, AnswerOffer(first, hash));
    FromMore(x, good, AnswerOffer(first, hash), [(true, e)]);
    FromOne(y, good, true, e);
    hide From, React;
    Stores(x.smallId, x.largeId, good, x.small, 0, second);
  }

  /** Nothing is left to react to, and the two sides are stuck in different sessions. */
  lemma {:induction false} TwoStartsGetStuck(smallId: bytes, largeId: bytes, good: bytes -> bool, first: Offer, second: Offer, hash: bytes)
    requires Less(smallId, largeId) && first.generation == second.generation == 0 && first != second
    ensures var x := Run(smallId, largeId, good, TwoStarts(first) + SecondStart(first, second, hash));
            Quiet(x, good) && !Connected(x) && !SmallerHolds(x)
  {
    hide From, TwoStarts, SecondStart, Quiet, Connected, SmallerHolds;
    var x := Fresh(smallId, largeId);
    StartedTwice(x, good, first);
    SecondStored(From(x, good, TwoStarts(first)), good, first, second, hash);
    FromMore(x, good, TwoStarts(first), SecondStart(first, second, hash));
    StuckIsQuiet(From(x, good, TwoStarts(first) + SecondStart(first, second, hash)), good, first, second, hash);
  }

  lemma {:induction false} StuckIsQuiet(x: Pair, good: bytes -> bool, first: Offer, second: Offer, hash: bytes)
    requires first != second && first.generation == second.generation == 0
    requires x.small.session == Some(OffererSession(x.largeId, second.id, second.hash, 0))
    requires x.small.sent == {OfferMessage(first), OfferMessage(second)} && x.small.starting == multiset{} && x.small.answering == multiset{}
    requires x.large == Side(Some(AnswererSession(x.smallId, first, hash, 0)), {AnswerMessage(Answer(first.id, 0, hash, first.hash))}, multiset{}, multiset{})
    ensures Quiet(x, good) && !Connected(x) && !SmallerHolds(x)
  {
    assert OfferOf(x.small.session.value) == second && OfferMessage(first) in x.small.sent;
  }

  // ---------------------------------------------------------------- a run within the guards

  lemma {:induction false} CalmStart(x: Pair, good: bytes -> bool, offer: Offer)
    requires x.small == Idle() && offer.generation == 0
    ensures CalmFrom(x, good, Begin(offer))
    ensures From(x, good, Begin(offer)) == x.(small := Side(Some(OffererSession(x.largeId, offer.id, offer.hash, 0)), {OfferMessage(offer)}, multiset{}, multiset{}))
  {
    var start, started := Start(0), Started(0, offer.id, offer.hash);
    Starts(x.smallId, x.largeId, good, x.small, 0);
    CalmOne(x, good, true, start);
    var y := Step(x, good, true, start);
    Stores(x.smallId, x.largeId, good, y.small, 0, offer);
    CalmOne(y, good, true, started);
    hide React, CalmFrom, From;
    CalmMore(x, good, [(true, start)], [(true, started)]);
    assert Begin(offer) == [(true, start)] + [(true, started)];
  }

  lemma {:induction false} CalmAnswer(x: Pair, good: bytes -> bool, offer: Offer, hash: bytes)
    requires Less(x.smallId, x.largeId) && OfferMessage(offer) in x.small.sent && x.large == Idle()
    ensures CalmFrom(x, good, AnswerOffer(offer, hash))
    ensures From(x, good, AnswerOffer(offer, hash))
         == x.(large := Side(Some(AnswererSession(x.smallId, offer, hash, 0)), {AnswerMessage(Answer(offer.id, offer.generation, hash, offer.hash))}, multiset{}, multiset{}))
  {
    var receive, answered := Receive(OfferMessage(offer), 0), Answered(Task(offer, 0), hash);
    LessAsymmetric(x.smallId, x.largeId);
    TakesOffer(x.largeId, x.smallId, good, x.large, offer);
    CalmOne(x, good, false, receive);
    var y := Step(x, good, false, receive);
    GivesAnswer(x.largeId, x.smallId, good, y.large, offer, hash);
    CalmOne(y, good, false, answered);
    hide React, CalmFrom, From;
    CalmMore(x, good, [(false, receive)], [(false, answered)]);
    assert AnswerOffer(offer, hash) == [(false, receive)] + [(false, answered)];
  }

  lemma {:induction false} CalmArrival(x: Pair, good: bytes -> bool, offer: Offer, hash: bytes)
    requires offer.generation == 0
    requires x.small == Side(Some(OffererSession(x.largeId, offer.id, offer.hash, 0)), {OfferMessage(offer)}, multiset{}, multiset{})
    requires x.large == Side(Some(AnswererSession(x.smallId, offer, hash, 0)), {AnswerMessage(Answer(offer.id, offer.generation, hash, offer.hash))}, multiset{}, multiset{})
    ensures var arrival := [(true, Receive(AnswerMessage(Answer(offer.id, offer.generation, hash, offer.hash)), 0))];
            CalmFrom(x, good, arrival) && Quiet(From(x, good, arrival), good) && Connected(From(x, good, arrival))
  {
    var answer := Answer(offer.id, offer.generation, hash, offer.hash);
    CalmOne(x, good, true, Receive(AnswerMessage(answer), 0));
    AnswerArrives(x, good, true, answer);
    hide CalmFrom, From;
  }

  /** The smaller side starts once, its offer is answered, and the answer arrives: then nothing is left to do, and both are connected. */
  lemma {:induction false} OneStartConnects(smallId: bytes, largeId: bytes, good: bytes -> bool, offer: Offer, hash: bytes)
    requires Less(smallId, largeId) && offer.generation == 0
    ensures var events := Begin(offer) + Settle(offer, hash);
            && CalmFrom(Fresh(smallId, largeId), good, events)
            && Quiet(Run(smallId, largeId, good, events), good) && Connected(Run(smallId, largeId, good, events))
  {
    var x := Fresh(smallId, largeId);
    CalmStart(x, good, offer);
    var y := From(x, good, Begin(offer));
    CalmAnswer(y, good, offer, hash);
    var z := From(y, good, AnswerOffer(offer, hash));
    CalmArrival(z, good, offer, hash);
    hide CalmFrom, From, Begin, AnswerOffer, Quiet, Connected, Less;
    CalmMore(y, good, AnswerOffer(offer, hash), [(true, Receive(AnswerMessage(Answer(offer.id, 0, hash, offer.hash)), 0))]);
    CalmMore(x, good, Begin(offer), Settle(offer, hash));
  }
}
