/** Offer, answer and candidate handling of one peer in pwa/src/connectivity/rtc-session.ts. */
module RtcSessions {
  import opened Bytes
  import Utf8

  const MAX_CANDIDATES := 32
  const MAX_CANDIDATE_BYTES := 1024
  const MAX_GENERATION := 65_535
  const TTL_MS := 60_000

  datatype Role = Offerer | Answerer

  function Opposite(r: Role): Role { if r == Offerer then Answerer else Offerer }

  datatype Offer = Offer(id: bytes, generation: nat, hash: bytes)

  datatype Answer = Answer(id: bytes, generation: nat, hash: bytes, offerHash: bytes)

  datatype Candidate = Candidate(id: bytes, generation: nat, direction: Role, hash: bytes, text: bytes)

  /** validateRtcCandidate; tokens and digests are the bytes they stand for. */
  predicate ValidCandidate(c: Candidate) {
    && |c.id| == 16
    && c.generation <= MAX_GENERATION
    && |c.hash| == 32
    && 0 < |c.text| <= MAX_CANDIDATE_BYTES
    && Utf8.Valid(c.text)
  }

  datatype Cancel = Cancel(id: bytes, generation: nat, hash: bytes)

  /** Candidates are keyed by the description they belong to and their text. */
  datatype Key = Key(hash: bytes, text: bytes)

  datatype Session = Session(
    peerId: bytes,
    id: bytes,
    generation: nat,
    role: Role,
    localHash: bytes,
    remoteHash: Option<bytes>,
    expiresAt: int,
    received: set<Key>,
    pending: set<Key>)

  datatype Verdict = Accepted | Ignored | Duplicate | Rejected

  function OffererSession(peerId: bytes, id: bytes, hash: bytes, now: int): Session {
    Session(peerId, id, 0, Offerer, hash, None, now + TTL_MS, {}, {})
  }

  function AnswererSession(peerId: bytes, offer: Offer, hash: bytes, now: int): Session {
    Session(peerId, offer.id, offer.generation, Answerer, hash, Some(offer.hash), now + TTL_MS, {}, {})
  }

  function OfferOf(s: Session): Offer { Offer(s.id, s.generation, s.localHash) }

  function AnswerOf(s: Session): Answer
    requires s.remoteHash.Some?
  {
    Answer(s.id, s.generation, s.localHash, s.remoteHash.value)
  }

  /**
    receiveOffer up to the point where it waits for the browser: what is left of the session with that peer, and whether
    an answer is on its way.
  */
  function OnOffer(local: bytes, peerId: bytes, existing: Option<Session>, offer: Offer): (Option<Session>, Verdict) {
    if existing.Some? && existing.value.role == Offerer && Less(local, peerId) then (existing, Ignored)
    else if existing.Some? && existing.value.role == Answerer then
      (existing, if existing.value.id == offer.id && existing.value.remoteHash == Some(offer.hash) then Duplicate else Rejected)
    else (None, Accepted)
  }

  /** applyPendingCandidates: those of the installed description that the browser accepts. */
  function Applied(pending: set<Key>, hash: bytes, good: bytes -> bool): set<Key> {
    set key | key in pending && key.hash == hash && good(key.text)
  }

  /** receiveAnswer */
  function OnAnswer(existing: Option<Session>, answer: Answer, good: bytes -> bool, now: int): (Option<Session>, Verdict) {
    if existing.None? then (None, Rejected)
    else
      var s := existing.value;
      if s.role != Offerer || s.id != answer.id || s.generation != answer.generation || s.localHash != answer.offerHash then (existing, Rejected)
      else if s.remoteHash == Some(answer.hash) then (existing, Duplicate)
      else if s.remoteHash.Some? then (existing, Rejected)
      else
        (Some(s.(remoteHash := Some(answer.hash), received := s.received + Applied(s.pending, answer.hash, good), pending := {},
                 expiresAt := now + TTL_MS)), Accepted)
  }

  function KeyOf(c: Candidate): Key { Key(c.hash, c.text) }

  /** receiveCandidate; one that the browser refuses is rejected. */
  function OnCandidate(existing: Option<Session>, c: Candidate, good: bytes -> bool, now: int): (Option<Session>, Verdict) {
    if !ValidCandidate(c) || existing.None? then (existing, Rejected)
    else
      var s := existing.value;
      if s.id != c.id || s.generation != c.generation || c.direction != Opposite(s.role) then (existing, Rejected)
      else if KeyOf(c) in s.received || KeyOf(c) in s.pending then (existing, Duplicate)
      else if |s.received| >= MAX_CANDIDATES then (existing, Rejected)
      else if s.remoteHash.None? then
        if |s.pending| >= MAX_CANDIDATES then (existing, Rejected)
        else (Some(s.(pending := s.pending + {KeyOf(c)})), Accepted)
      else if s.remoteHash != Some(c.hash) || !good(c.text) then (existing, Rejected)
      else (Some(s.(received := s.received + {KeyOf(c)}, expiresAt := now + TTL_MS)), Accepted)
  }

  /** receiveCancel */
  function OnCancel(existing: Option<Session>, cancel: Cancel): (Option<Session>, Verdict) {
    if existing.None? then (None, Rejected)
    else if existing.value.id != cancel.id || existing.value.generation != cancel.generation || existing.value.remoteHash != Some(cancel.hash) then
      (existing, Rejected)
    else (None, Accepted)
  }

  // ---------------------------------------------------------------- the handlers, case by case

  /** An offer gives way to this side's own if this side has the smaller identifier, and only one is answered at a time. */
  ghost predicate OfferJudged(local: bytes, peerId: bytes, s: Session, offer: Offer, verdict: Verdict) {
    match verdict
    case Ignored => s.role == Offerer && Precedes(local, peerId)
    case Accepted => s.role == Offerer && !Precedes(local, peerId)
    case Duplicate => s.role == Answerer && s.id == offer.id && s.remoteHash == Some(offer.hash)
    case Rejected => s.role == Answerer && !(s.id == offer.id && s.remoteHash == Some(offer.hash))
  }

  lemma {:induction false} OnOfferExact(local: bytes, peerId: bytes, s: Session, offer: Offer)
    ensures OfferJudged(local, peerId, s, offer, OnOffer(local, peerId, Some(s), offer).1)
    ensures OnOffer(local, peerId, Some(s), offer).0 == if OnOffer(local, peerId, Some(s), offer).1 == Accepted then None else Some(s)
    ensures OnOffer(local, peerId, None, offer) == (None, Accepted)
  {
    LessExact(local, peerId);
    hide Precedes, Less;
  }

  /** Whether an answer is to this session's offer. */
  predicate AnswersOffer(s: Session, answer: Answer) {
    s.role == Offerer && answer.id == s.id && answer.generation == s.generation && answer.offerHash == s.localHash
  }

  /**
    The first answer to the offer is installed, with the candidates that were waiting for it and that the browser takes;
    the others that waited are gone.
  */
  ghost predicate AnswerTaken(s: Session, s': Session, answer: Answer, good: bytes -> bool, now: int, verdict: Verdict) {
    && (verdict == Accepted <==> AnswersOffer(s, answer) && s.remoteHash.None?)
    && (verdict == Duplicate <==> AnswersOffer(s, answer) && s.remoteHash == Some(answer.hash))
    && (verdict == Rejected <==> !AnswersOffer(s, answer) || (s.remoteHash.Some? && s.remoteHash.value != answer.hash))
    && (verdict != Accepted ==> s' == s)
    && (verdict == Accepted ==>
          && s' == s.(remoteHash := Some(answer.hash), pending := {}, expiresAt := now + 60_000, received := s'.received)
          && (forall key :: key in s'.received <==> key in s.received || (key in s.pending && key.hash == answer.hash && good(key.text))))
  }

  lemma {:induction false} OnAnswerExact(s: Session, answer: Answer, good: bytes -> bool, now: int)
    ensures var (after, verdict) := OnAnswer(Some(s), answer, good, now); after.Some? && AnswerTaken(s, after.value, answer, good, now, verdict)
    ensures OnAnswer(None, answer, good, now) == (None, Rejected)
  {
  }

  /** A well-formed candidate of this session and from the other side. */
  predicate CandidateFits(s: Session, c: Candidate) {
    && |c.id| == 16 && c.generation <= 65_535 && |c.hash| == 32 && 0 < |c.text| <= 1024 && Utf8.Valid(c.text)
    && c.id == s.id && c.generation == s.generation && c.direction != s.role
  }

  /** The session has it already, applied or waiting. */
  predicate CandidateHeld(s: Session, c: Candidate) { Key(c.hash, c.text) in s.received || Key(c.hash, c.text) in s.pending }

  /** It waits for a remote description, or is one for the description there is and the browser takes it; and there is room. */
  predicate CandidateWelcome(s: Session, c: Candidate, good: bytes -> bool) {
    && |s.received| < 32
    && (if s.remoteHash.None? then |s.pending| < 32 else s.remoteHash.value == c.hash && good(c.text))
  }

  /** The verdict on a candidate, for either role, and what is left of the session. */
  ghost predicate CandidateTaken(s: Session, s': Session, c: Candidate, good: bytes -> bool, now: int, verdict: Verdict) {
    && (verdict == Accepted <==> CandidateFits(s, c) && !CandidateHeld(s, c) && CandidateWelcome(s, c, good))
    && (verdict == Duplicate <==> CandidateFits(s, c) && CandidateHeld(s, c))
    && (verdict == Rejected <==> !CandidateFits(s, c) || (!CandidateHeld(s, c) && !CandidateWelcome(s, c, good)))
    && s' == if verdict != Accepted then s
             else if s.remoteHash.None? then s.(pending := s.pending + {Key(c.hash, c.text)})
             else s.(received := s.received + {Key(c.hash, c.text)}, expiresAt := now + 60_000)
  }

  lemma {:induction false} OnCandidateExact(s: Session, c: Candidate, good: bytes -> bool, now: int)
    ensures var (after, verdict) := OnCandidate(Some(s), c, good, now); after.Some? && CandidateTaken(s, after.value, c, good, now, verdict)
    ensures OnCandidate(None, c, good, now) == (None, Rejected)
  {
    hide Utf8.Valid;
  }

  /** A cancel names the session and the description that came from the other side. */
  predicate Cancels(s: Session, cancel: Cancel) {
    cancel.id == s.id && cancel.generation == s.generation && s.remoteHash == Some(cancel.hash)
  }

  lemma {:induction false} OnCancelExact(s: Session, cancel: Cancel)
    ensures OnCancel(Some(s), cancel) == if Cancels(s, cancel) then (None, Accepted) else (Some(s), Rejected)
    ensures OnCancel(None, cancel) == (None, Rejected)
  {
  }

  // ---------------------------------------------------------------- what a session keeps

  /** Candidates wait only while there is no remote description, are applied only to theirs, and are bounded. */
  predicate Sound(s: Session) {
    && |s.received| <= MAX_CANDIDATES
    && |s.pending| <= MAX_CANDIDATES
    && (if s.remoteHash.None? then s.received == {} else s.pending == {})
    && (forall key :: key in s.received ==> s.remoteHash == Some(key.hash))
  }

  lemma {:induction false} SubsetSize<T>(a: set<T>, b: set<T>)
    requires a <= b
    ensures |a| <= |b|
  {
    assert b == a + (b - a);
  }

  lemma {:induction false} OnAnswerSound(s: Session, answer: Answer, good: bytes -> bool, now: int)
    requires Sound(s)
    ensures OnAnswer(Some(s), answer, good, now).0.Some? && Sound(OnAnswer(Some(s), answer, good, now).0.value)
  {
    SubsetSize(Applied(s.pending, answer.hash, good), s.pending);
    if s.remoteHash.None? {
      assert s.received + Applied(s.pending, answer.hash, good) == Applied(s.pending, answer.hash, good);
    }
  }

  lemma {:induction false} OnCandidateSound(s: Session, c: Candidate, good: bytes -> bool, now: int)
    requires Sound(s)
    ensures OnCandidate(Some(s), c, good, now).0.Some? && Sound(OnCandidate(Some(s), c, good, now).0.value)
  {
  }

  /** A candidate and the answer it belongs to, in either order. */
  function AnswerThenCandidate(s: Session, answer: Answer, c: Candidate, good: bytes -> bool, now: int): Option<Session> {
    OnCandidate(OnAnswer(Some(s), answer, good, now).0, c, good, now).0
  }

  function CandidateThenAnswer(s: Session, answer: Answer, c: Candidate, good: bytes -> bool, now: int): Option<Session> {
    OnAnswer(OnCandidate(Some(s), c, good, now).0, answer, good, now).0
  }

  /** The staging area is full of other candidates, yet the answer would leave room for this one. */
  predicate StagingLoses(s: Session, answer: Answer, c: Candidate, good: bytes -> bool) {
    && ValidCandidate(c)
    && s.id == c.id && s.generation == c.generation && c.direction == Answerer
    && KeyOf(c) !in s.pending && |s.pending| >= MAX_CANDIDATES
    && |Applied(s.pending, answer.hash, good)| < MAX_CANDIDATES
    && c.hash == answer.hash && good(c.text)
  }

  lemma {:induction false} AppliedAdd(pending: set<Key>, key: Key, hash: bytes, good: bytes -> bool)
    ensures Applied(pending + {key}, hash, good)
         == if key.hash == hash && good(key.text) then Applied(pending, hash, good) + {key} else Applied(pending, hash, good)
    ensures |Applied(pending, hash, good)| <= |pending|
  {
    SubsetSize(Applied(pending, hash, good), pending);
  }

  function Installed(s: Session, answer: Answer, received: set<Key>, now: int): Session {
    s.(remoteHash := Some(answer.hash), received := received, pending := {}, expiresAt := now + TTL_MS)
  }

  lemma {:induction false} Installs(s: Session, answer: Answer, good: bytes -> bool, now: int)
    requires Sound(s) && s.remoteHash.None? && OnAnswer(Some(s), answer, good, now).1 == Accepted
    ensures OnAnswer(Some(s), answer, good, now).0 == Some(Installed(s, answer, Applied(s.pending, answer.hash, good), now))
  {
    assert s.received + Applied(s.pending, answer.hash, good) == Applied(s.pending, answer.hash, good);
  }

  /** The candidates a session has after the answer, with the candidate before it and after it. */
  lemma {:induction false} ReceivedBefore(s: Session, answer: Answer, c: Candidate, good: bytes -> bool, now: int)
    requires Sound(s) && s.remoteHash.None? && OnAnswer(Some(s), answer, good, now).1 == Accepted
    requires ValidCandidate(c) && s.id == c.id && s.generation == c.generation && c.direction == Answerer && KeyOf(c) !in s.pending
    ensures CandidateThenAnswer(s, answer, c, good, now)
         == Some(Installed(s, answer, Applied(if |s.pending| < MAX_CANDIDATES then s.pending + {KeyOf(c)} else s.pending, answer.hash, good), now))
  {
    hide Applied;
    if |s.pending| < MAX_CANDIDATES {
      Installs(s.(pending := s.pending + {KeyOf(c)}), answer, good, now);
    } else {
      Installs(s, answer, good, now);
    }
  }

  function AfterApplied(pending: set<Key>, hash: bytes, c: Candidate, good: bytes -> bool): set<Key> {
    var applied := Applied(pending, hash, good);
    if |applied| < MAX_CANDIDATES && c.hash == hash && good(c.text) then applied + {KeyOf(c)} else applied
  }

  lemma {:induction false} ReceivedAfter(s: Session, answer: Answer, c: Candidate, good: bytes -> bool, now: int)
    requires Sound(s) && s.remoteHash.None? && OnAnswer(Some(s), answer, good, now).1 == Accepted
    requires ValidCandidate(c) && s.id == c.id && s.generation == c.generation && c.direction == Answerer && KeyOf(c) !in s.pending
    ensures AnswerThenCandidate(s, answer, c, good, now) == Some(Installed(s, answer, AfterApplied(s.pending, answer.hash, c, good), now))
  {
    Installs(s, answer, good, now);
  }

  lemma {:induction false} OtherCandidate(s: Session, answer: Answer, c: Candidate, good: bytes -> bool, now: int)
    requires Sound(s) && s.remoteHash.None? && OnAnswer(Some(s), answer, good, now).1 == Accepted
    requires !ValidCandidate(c) || s.id != c.id || s.generation != c.generation || c.direction != Answerer || KeyOf(c) in s.pending
    ensures CandidateThenAnswer(s, answer, c, good, now) == AnswerThenCandidate(s, answer, c, good, now)
  {
    Installs(s, answer, good, now);
  }

  /**
    Staging hides reordering: for a session that takes the answer, a candidate that overtakes it ends up in the same
    state as one that follows it, unless the staging area was full while some staged candidate was not for this answer.
  */
  lemma {:induction false} StagingHidesReordering(s: Session, answer: Answer, c: Candidate, good: bytes -> bool, now: int)
    requires Sound(s) && s.remoteHash.None? && OnAnswer(Some(s), answer, good, now).1 == Accepted
    ensures CandidateThenAnswer(s, answer, c, good, now) == AnswerThenCandidate(s, answer, c, good, now)
       <==> !StagingLoses(s, answer, c, good)
  {
    if !ValidCandidate(c) || s.id != c.id || s.generation != c.generation || c.direction != Answerer || KeyOf(c) in s.pending {
      OtherCandidate(s, answer, c, good, now);
    } else {
      hide ValidCandidate, Applied, OnAnswer, OnCandidate, CandidateThenAnswer, AnswerThenCandidate;
      ReceivedBefore(s, answer, c, good, now);
      ReceivedAfter(s, answer, c, good, now);
      AppliedAdd(s.pending, KeyOf(c), answer.hash, good);
      var applied := Applied(s.pending, answer.hash, good);
      assert KeyOf(c) !in applied by { AppliedMember(s.pending, KeyOf(c), answer.hash, good); }
      assert applied + {KeyOf(c)} != applied;
    }
  }

  /** A session that receives candidates one after the other. */
  function Received(existing: Option<Session>, cs: seq<Candidate>, good: bytes -> bool, now: int): Option<Session> {
    if cs == [] then existing
    else OnCandidate(Received(existing, cs[..|cs| - 1], good, now), cs[|cs| - 1], good, now).0
  }

  function Zeros(n: nat): bytes { seq(n, _ => 0) }

  /** So many candidates for one description, with different texts. */
  function Flood(id: bytes, hash: bytes, n: nat): seq<Candidate> {
    seq(n, i requires 0 <= i < n => Candidate(id, 0, Answerer, hash, Zeros(i + 1)))
  }

  function FloodKeys(hash: bytes, n: nat): set<Key> {
    if n == 0 then {} else FloodKeys(hash, n - 1) + {Key(hash, Zeros(n))}
  }

  lemma {:induction false} FloodSize(hash: bytes, n: nat)
    ensures |FloodKeys(hash, n)| == n && forall key :: key in FloodKeys(hash, n) ==> key.hash == hash && 1 <= |key.text| <= n
  {
    if n > 0 {
      FloodSize(hash, n - 1);
    }
  }

  lemma {:induction false} FloodValid(id: bytes, hash: bytes, n: nat)
    requires |id| == 16 && |hash| == 32 && 1 <= n <= MAX_CANDIDATES
    ensures ValidCandidate(Candidate(id, 0, Answerer, hash, Zeros(n)))
  {
    Utf8.AsciiIsValid(Zeros(n));
  }

  lemma {:induction false} FloodNext(id: bytes, hash: bytes, n: nat)
    requires n > 0
    ensures var cs := Flood(id, hash, n);
            |cs| == n && cs[..n - 1] == Flood(id, hash, n - 1) && cs[n - 1] == Candidate(id, 0, Answerer, hash, Zeros(n)) && |Zeros(n)| == n
  {
  }

  lemma {:induction false} StagedNext(s: Session, c: Candidate, good: bytes -> bool, now: int)
    requires ValidCandidate(c) && s.generation == c.generation && s.id == c.id && s.role == Offerer && c.direction == Answerer
    requires s.remoteHash.None? && s.received == {} && KeyOf(c) !in s.pending && |s.pending| < MAX_CANDIDATES
    ensures OnCandidate(Some(s), c, good, now) == (Some(s.(pending := s.pending + {KeyOf(c)})), Accepted)
  {
  }

  /** Before the answer comes, every candidate up to the cap is accepted, whatever description it names. */
  lemma {:induction false} FloodStaged(s: Session, hash: bytes, n: nat, good: bytes -> bool, now: int)
    requires |s.id| == 16 && |hash| == 32
    requires s.generation == 0 && s.role == Offerer && s.remoteHash.None? && s.received == {} && s.pending == {}
    requires n <= MAX_CANDIDATES
    ensures Received(Some(s), Flood(s.id, hash, n), good, now) == Some(s.(pending := FloodKeys(hash, n)))
  {
    if n > 0 {
      FloodStaged(s, hash, n - 1, good, now);
      FloodSize(hash, n - 1);
      FloodValid(s.id, hash, n);
      FloodNext(s.id, hash, n);
      hide OnCandidate, ValidCandidate, Flood, Zeros;
      assert Key(hash, Zeros(n)) !in FloodKeys(hash, n - 1);
      StagedNext(s.(pending := FloodKeys(hash, n - 1)), Flood(s.id, hash, n)[n - 1], good, now);
    }
  }

  /**
    An offerer that has accepted as many candidates for some other description as it stages: a good candidate that
    overtakes its answer is lost, and one that follows it is applied.
  */
  lemma {:induction false} FullStagingLoses(peerId: bytes, answer: Answer, other: bytes, text: bytes, good: bytes -> bool, now: int)
    requires answer.generation == 0 && |other| == 32 && other != answer.hash && good(text)
    requires ValidCandidate(Candidate(answer.id, 0, Answerer, answer.hash, text))
    ensures var first := Received(Some(OffererSession(peerId, answer.id, answer.offerHash, now)), Flood(answer.id, other, MAX_CANDIDATES), good, now);
            var c := Candidate(answer.id, 0, Answerer, answer.hash, text);
            && first.Some? && Sound(first.value) && OnAnswer(first, answer, good, now).1 == Accepted
            && StagingLoses(first.value, answer, c, good)
            && CandidateThenAnswer(first.value, answer, c, good, now) == Some(Installed(first.value, answer, {}, now))
            && AnswerThenCandidate(first.value, answer, c, good, now) == Some(Installed(first.value, answer, {KeyOf(c)}, now))
    ensures forall c :: c in Flood(answer.id, other, MAX_CANDIDATES) ==> ValidCandidate(c)
  {
    forall k | 0 <= k < MAX_CANDIDATES ensures ValidCandidate(Flood(answer.id, other, MAX_CANDIDATES)[k]) {
      FloodValid(answer.id, other, k + 1);
    }
    hide ValidCandidate;
    var s := OffererSession(peerId, answer.id, answer.offerHash, now);
    var full := s.(pending := FloodKeys(other, MAX_CANDIDATES));
    FloodStaged(s, other, MAX_CANDIDATES, good, now);
    FloodSize(other, MAX_CANDIDATES);
    hide Received, FloodKeys, OnCandidate;
    assert Applied(full.pending, answer.hash, good) == {};
    var c := Candidate(answer.id, 0, Answerer, answer.hash, text);
    ReceivedBefore(full, answer, c, good, now);
    ReceivedAfter(full, answer, c, good, now);
  }

  lemma {:induction false} AppliedMember(pending: set<Key>, key: Key, hash: bytes, good: bytes -> bool)
    ensures key in Applied(pending, hash, good) <==> key in pending && key.hash == hash && good(key.text)
  {
  }
}
