/**
  RTCSessionController of pwa/src/connectivity/rtc-session.ts: its maps keep the order in which keys were inserted, and
  `start` and receiveOffer are two steps each, with the browser in between.
*/
module RtcControllers {
  import opened Bytes
  import opened RtcSessions
  import opened Selections

  const MAX_SESSIONS := 32
  const MAX_CAPABILITIES := 64

  datatype Capability = Capability(peerId: bytes, expiresAt: int)

  predicate OnePerPeer(sessions: seq<Session>) {
    forall i, j :: 0 <= i < j < |sessions| ==> sessions[i].peerId != sessions[j].peerId
  }

  predicate OneCapability(entries: seq<Capability>) {
    forall i, j :: 0 <= i < j < |entries| ==> entries[i].peerId != entries[j].peerId
  }

  /** #sessions.get */
  function Get(sessions: seq<Session>, peerId: bytes): (s: Option<Session>)
    ensures s.Some? ==> s.value in sessions && s.value.peerId == peerId
    ensures s.None? <==> forall i :: 0 <= i < |sessions| ==> sessions[i].peerId != peerId
  {
    if sessions == [] then None
    else if sessions[0].peerId == peerId then Some(sessions[0])
    else Get(sessions[1..], peerId)
  }

  function Knows(entries: seq<Capability>, peerId: bytes): (known: bool)
    ensures known <==> exists i :: 0 <= i < |entries| && entries[i].peerId == peerId
  {
    entries != [] && (entries[0].peerId == peerId || Knows(entries[1..], peerId))
  }

  /** prune */
  function Live(sessions: seq<Session>, now: int): seq<Session> {
    if sessions == [] then []
    else
      var last := sessions[|sessions| - 1];
      Live(sessions[..|sessions| - 1], now) + (if last.expiresAt > now then [last] else [])
  }

  function LiveCapabilities(entries: seq<Capability>, now: int): seq<Capability> {
    if entries == [] then []
    else
      var last := entries[|entries| - 1];
      LiveCapabilities(entries[..|entries| - 1], now) + (if last.expiresAt > now then [last] else [])
  }

  /** drop */
  function Without(sessions: seq<Session>, peerId: bytes): seq<Session> {
    if sessions == [] then []
    else (if sessions[0].peerId != peerId then [sessions[0]] else []) + Without(sessions[1..], peerId)
  }

  /** makeRoom: the oldest session goes when there are 32. */
  function Room(sessions: seq<Session>): seq<Session> {
    if |sessions| < MAX_SESSIONS then sessions else sessions[1..]
  }

  /** A changed session keeps its place. */
  function Put(sessions: seq<Session>, s: Session): seq<Session> {
    seq(|sessions|, i requires 0 <= i < |sessions| => if sessions[i].peerId == s.peerId then s else sessions[i])
  }

  /** #sessions.set: the session that is there loses its place to the new one, which otherwise goes last. */
  function Store(sessions: seq<Session>, s: Session): seq<Session> {
    if Get(sessions, s.peerId).Some? then Put(sessions, s) else sessions + [s]
  }

  /** What a controller keeps about its sessions. */
  ghost predicate Kept(sessions: seq<Session>) {
    OnePerPeer(sessions) && forall s :: s in sessions ==> Sound(s)
  }

  ghost predicate KeptCapabilities(entries: seq<Capability>) {
    OneCapability(entries) && |entries| <= MAX_CAPABILITIES
  }

  lemma {:induction false} KeptParts(sessions: seq<Session>)
    requires Kept(sessions)
    ensures OnePerPeer(sessions) && forall s :: s in sessions ==> Sound(s)
  {
  }

  lemma {:induction false} OneMore(sessions: seq<Session>, s: Session)
    requires OnePerPeer(sessions) && forall i :: 0 <= i < |sessions| ==> sessions[i].peerId != s.peerId
    ensures OnePerPeer(sessions + [s])
  {
  }

  lemma {:induction false} LiveMembers(sessions: seq<Session>, now: int)
    ensures |Live(sessions, now)| <= |sessions|
    ensures forall s :: s in Live(sessions, now) <==> s in sessions && s.expiresAt > now
    ensures OnePerPeer(sessions) ==> OnePerPeer(Live(sessions, now))
  {
    if sessions != [] {
      var front, last := sessions[..|sessions| - 1], sessions[|sessions| - 1];
      LiveMembers(front, now);
      assert sessions == front + [last];
      var rest := Live(front, now);
      assert Live(sessions, now) == if last.expiresAt > now then rest + [last] else rest;
      if OnePerPeer(sessions) {
        forall i | 0 <= i < |rest| ensures rest[i].peerId != last.peerId {
          assert rest[i] in front;
        }
        OneMore(rest, last);
      }
    }
  }

  lemma {:induction false} LiveKept(sessions: seq<Session>, now: int)
    requires Kept(sessions)
    ensures Kept(Live(sessions, now))
  {
    LiveMembers(sessions, now);
  }

  lemma {:induction false} LiveCapabilityMembers(entries: seq<Capability>, now: int)
    ensures forall e :: e in LiveCapabilities(entries, now) <==> e in entries && e.expiresAt > now
  {
    if entries != [] {
      var front, last := entries[..|entries| - 1], entries[|entries| - 1];
      LiveCapabilityMembers(front, now);
      assert entries == front + [last];
    }
  }

  lemma {:induction false} LiveCapabilitiesKept(entries: seq<Capability>, now: int)
    ensures |LiveCapabilities(entries, now)| <= |entries|
    ensures OneCapability(entries) ==> OneCapability(LiveCapabilities(entries, now))
  {
    if entries != [] {
      var front, last := entries[..|entries| - 1], entries[|entries| - 1];
      LiveCapabilitiesKept(front, now);
      LiveCapabilityMembers(front, now);
      var rest := LiveCapabilities(front, now);
      if OneCapability(entries) {
        forall i | 0 <= i < |rest| ensures rest[i].peerId != last.peerId {
          assert rest[i] in front;
        }
      }
    }
  }

  lemma {:induction false} WithoutMembers(sessions: seq<Session>, peerId: bytes)
    ensures |Without(sessions, peerId)| <= |sessions|
    ensures forall s :: s in Without(sessions, peerId) <==> s in sessions && s.peerId != peerId
    ensures OnePerPeer(sessions) ==> OnePerPeer(Without(sessions, peerId))
  {
    if sessions != [] {
      WithoutMembers(sessions[1..], peerId);
      assert sessions == [sessions[0]] + sessions[1..];
      var rest := Without(sessions[1..], peerId);
      if OnePerPeer(sessions) {
        forall i | 0 <= i < |rest| ensures rest[i].peerId != sessions[0].peerId {
          assert rest[i] in sessions[1..];
        }
      }
    }
  }

  lemma {:induction false} WithoutKept(sessions: seq<Session>, peerId: bytes)
    requires Kept(sessions)
    ensures Kept(Without(sessions, peerId)) && Get(Without(sessions, peerId), peerId) == None
  {
    WithoutMembers(sessions, peerId);
    assert forall i :: 0 <= i < |Without(sessions, peerId)| ==> Without(sessions, peerId)[i] in Without(sessions, peerId);
  }

  lemma {:induction false} WithoutNothing(sessions: seq<Session>, peerId: bytes)
    requires Get(sessions, peerId).None?
    ensures Without(sessions, peerId) == sessions
  {
    if sessions != [] {
      WithoutNothing(sessions[1..], peerId);
    }
  }

  lemma {:induction false} RoomKept(sessions: seq<Session>, peerId: bytes)
    requires Kept(sessions)
    ensures Kept(Room(sessions)) && (Get(sessions, peerId).None? ==> Get(Room(sessions), peerId).None?)
    ensures |Room(sessions)| == if |sessions| < MAX_SESSIONS then |sessions| else |sessions| - 1
  {
    assert forall x :: x in Room(sessions) ==> x in sessions;
  }

  lemma {:induction false} StoreKept(sessions: seq<Session>, s: Session)
    requires Kept(sessions) && Sound(s)
    ensures Kept(Store(sessions, s)) && Get(Store(sessions, s), s.peerId) == Some(s)
    ensures |Store(sessions, s)| == |sessions| + if Get(sessions, s.peerId).Some? then 0 else 1
  {
    if Get(sessions, s.peerId).Some? {
      PutKept(sessions, s);
    } else {
      assert (sessions + [s])[|sessions|] == s;
      GetIs(sessions + [s], s);
    }
  }

  lemma {:induction false} PutKept(sessions: seq<Session>, s: Session)
    requires Kept(sessions) && Get(sessions, s.peerId).Some? && Sound(s)
    ensures Kept(Put(sessions, s)) && Get(Put(sessions, s), s.peerId) == Some(s)
  {
    var i :| 0 <= i < |sessions| && sessions[i].peerId == s.peerId;
    assert Put(sessions, s)[i] == s;
    GetIs(Put(sessions, s), s);
  }

  lemma {:induction false} GetIs(sessions: seq<Session>, s: Session)
    requires OnePerPeer(sessions) && s in sessions
    ensures Get(sessions, s.peerId) == Some(s)
  {
    if sessions[0] != s {
      assert s in sessions[1..];
      GetIs(sessions[1..], s);
    }
  }

  // ---------------------------------------------------------------- what the lists are left with

  /** The sessions that have not expired, in their order. */
  ghost predicate Unexpired(live: seq<Session>, sessions: seq<Session>, now: int) {
    exists keep :: Selected(live, sessions, keep) && Outlasts(keep, now)
  }

  ghost predicate Outlasts(keep: Session -> bool, now: int) {
    forall s :: keep(s) <==> s.expiresAt > now
  }

  /** The sessions with other peers, in their order. */
  ghost predicate Others(rest: seq<Session>, sessions: seq<Session>, peerId: bytes) {
    exists keep :: Selected(rest, sessions, keep) && Spares(keep, peerId)
  }

  ghost predicate Spares(keep: Session -> bool, peerId: bytes) {
    forall s :: keep(s) <==> s.peerId != peerId
  }

  ghost predicate UnexpiredCapabilities(live: seq<Capability>, entries: seq<Capability>, now: int) {
    exists keep :: Selected(live, entries, keep) && CapabilityOutlasts(keep, now)
  }

  ghost predicate CapabilityOutlasts(keep: Capability -> bool, now: int) {
    forall e :: keep(e) <==> e.expiresAt > now
  }

  lemma {:induction false} LiveSelected(sessions: seq<Session>, now: int, keep: Session -> bool)
    requires Outlasts(keep, now)
    ensures Selected(Live(sessions, now), sessions, keep)
  {
    hide Selected;
    if sessions == [] {
      NoneSelected(keep);
    } else {
      var n := |sessions| - 1;
      LiveSelected(sessions[..n], now, keep);
      SelectNext(Live(sessions[..n], now), sessions[..n], sessions[n], keep);
      assert Live(sessions, now) == if keep(sessions[n]) then Live(sessions[..n], now) + [sessions[n]] else Live(sessions[..n], now);
      assert sessions == sessions[..n] + [sessions[n]];
      hide Outlasts;
    }
  }

  lemma {:induction false} LiveExact(sessions: seq<Session>, now: int)
    ensures Unexpired(Live(sessions, now), sessions, now)
  {
    var keep := (s: Session) => s.expiresAt > now;
    LiveSelected(sessions, now, keep);
  }

  lemma {:induction false} WithoutLast(sessions: seq<Session>, s: Session, peerId: bytes)
    ensures Without(sessions + [s], peerId) == Without(sessions, peerId) + if s.peerId != peerId then [s] else []
  {
    if sessions == [] {
      assert sessions + [s] == [s];
    } else {
      WithoutLast(sessions[1..], s, peerId);
      assert (sessions + [s])[1..] == sessions[1..] + [s];
    }
  }

  lemma {:induction false} WithoutSelected(sessions: seq<Session>, peerId: bytes, keep: Session -> bool)
    requires Spares(keep, peerId)
    ensures Selected(Without(sessions, peerId), sessions, keep)
  {
    hide Selected;
    if sessions == [] {
      NoneSelected(keep);
    } else {
      var n := |sessions| - 1;
      WithoutSelected(sessions[..n], peerId, keep);
      WithoutLast(sessions[..n], sessions[n], peerId);
      SelectNext(Without(sessions[..n], peerId), sessions[..n], sessions[n], keep);
      assert Without(sessions[..n] + [sessions[n]], peerId) == if keep(sessions[n]) then Without(sessions[..n], peerId) + [sessions[n]] else Without(sessions[..n], peerId);
      assert sessions == sessions[..n] + [sessions[n]];
      hide Spares, Without;
    }
  }

  lemma {:induction false} WithoutExact(sessions: seq<Session>, peerId: bytes)
    ensures Others(Without(sessions, peerId), sessions, peerId)
  {
    var keep := (s: Session) => s.peerId != peerId;
    WithoutSelected(sessions, peerId, keep);
  }

  lemma {:induction false} LiveCapabilitiesSelected(entries: seq<Capability>, now: int, keep: Capability -> bool)
    requires CapabilityOutlasts(keep, now)
    ensures Selected(LiveCapabilities(entries, now), entries, keep)
  {
    hide Selected;
    if entries == [] {
      NoneSelected(keep);
    } else {
      var n := |entries| - 1;
      LiveCapabilitiesSelected(entries[..n], now, keep);
      SelectNext(LiveCapabilities(entries[..n], now), entries[..n], entries[n], keep);
      assert LiveCapabilities(entries, now) == if keep(entries[n]) then LiveCapabilities(entries[..n], now) + [entries[n]] else LiveCapabilities(entries[..n], now);
      assert entries == entries[..n] + [entries[n]];
      hide CapabilityOutlasts;
    }
  }

  lemma {:induction false} LiveCapabilitiesExact(entries: seq<Capability>, now: int)
    ensures UnexpiredCapabilities(LiveCapabilities(entries, now), entries, now)
  {
    var keep := (e: Capability) => e.expiresAt > now;
    LiveCapabilitiesSelected(entries, now, keep);
  }

  /** With 32 sessions the oldest goes. */
  predicate Roomy(after: seq<Session>, sessions: seq<Session>) {
    after == if |sessions| < 32 then sessions else sessions[1..]
  }

  /** The session of its peer is this one now, in its place or the last; the others are as they were. */
  ghost predicate Stored(after: seq<Session>, sessions: seq<Session>, s: Session) {
    if forall i :: 0 <= i < |sessions| ==> sessions[i].peerId != s.peerId then after == sessions + [s]
    else |after| == |sessions| && forall i :: 0 <= i < |sessions| ==> after[i] == if sessions[i].peerId == s.peerId then s else sessions[i]
  }

  lemma {:induction false} StoreExact(sessions: seq<Session>, s: Session)
    ensures Stored(Store(sessions, s), sessions, s)
  {
  }

  lemma {:induction false} KnownIs(entries: seq<Capability>, peerId: bytes)
    ensures Knows(entries, peerId) <==> exists e :: e in entries && e.peerId == peerId
  {
    if Knows(entries, peerId) {
      var i :| 0 <= i < |entries| && entries[i].peerId == peerId;
      assert entries[i] in entries;
    }
  }

  /** The live session of a peer, which is the only one. */
  lemma {:induction false} LiveOne(sessions: seq<Session>, peerId: bytes, now: int)
    requires OnePerPeer(sessions)
    ensures var found := Get(Live(sessions, now), peerId);
            && (found.None? <==> forall s :: s in sessions && s.peerId == peerId ==> s.expiresAt <= now)
            && (forall s :: s in sessions && s.peerId == peerId && s.expiresAt > now ==> found == Some(s))
  {
    var live := Live(sessions, now);
    LiveMembers(sessions, now);
    forall s | s in sessions && s.peerId == peerId && s.expiresAt > now ensures Get(live, peerId) == Some(s) {
      GetIs(live, s);
    }
    hide Live;
    if forall s :: s in sessions && s.peerId == peerId ==> s.expiresAt <= now {
      forall i | 0 <= i < |live| ensures live[i].peerId != peerId {
        assert live[i] in live;
      }
    }
  }

  /** The candidate is judged by the live session of its peer; the expired sessions go and the others stay. */
  ghost predicate CandidateReceived(before: seq<Session>, after: seq<Session>, peerId: bytes, c: Candidate, good: bytes -> bool, now: int, verdict: Verdict) {
    exists live :: Unexpired(live, before, now) && CandidateApplied(live, after, peerId, c, good, now, verdict)
  }

  ghost predicate CandidateApplied(live: seq<Session>, after: seq<Session>, peerId: bytes, c: Candidate, good: bytes -> bool, now: int, verdict: Verdict) {
    && |after| == |live|
    && (forall i :: 0 <= i < |live| ==>
          if live[i].peerId == peerId then CandidateTaken(live[i], after[i], c, good, now, verdict) else after[i] == live[i])
    && ((forall i :: 0 <= i < |live| ==> live[i].peerId != peerId) ==> verdict == Rejected)
  }

  lemma {:induction false} OnlyOne(sessions: seq<Session>, i: nat)
    requires OnePerPeer(sessions) && i < |sessions|
    ensures Get(sessions, sessions[i].peerId) == Some(sessions[i])
  {
    GetIs(sessions, sessions[i]);
  }

  lemma {:induction false} CandidateLeaves(sessions: seq<Session>, peerId: bytes, c: Candidate, good: bytes -> bool, now: int)
    requires OnePerPeer(sessions)
    ensures var live := Live(sessions, now);
            var (s, verdict) := OnCandidate(Get(live, peerId), c, good, now);
            verdict == Accepted ==> s.Some? && s.value.peerId == peerId
    ensures var live := Live(sessions, now);
            var (s, verdict) := OnCandidate(Get(live, peerId), c, good, now);
            CandidateReceived(sessions, if verdict == Accepted then Put(live, s.value) else live, peerId, c, good, now, verdict)
  {
    var live := Live(sessions, now);
    LiveExact(sessions, now);
    LiveMembers(sessions, now);
    var found := Get(live, peerId);
    var (s, verdict) := OnCandidate(found, c, good, now);
    var after := if verdict == Accepted then Put(live, s.value) else live;
    OnCandidateExact(if found.Some? then found.value else OffererSession([], [], [], 0), c, good, now);
    hide Live, Unexpired, OnCandidate, CandidateTaken;
    forall i | 0 <= i < |live| && live[i].peerId == peerId ensures CandidateTaken(live[i], after[i], c, good, now, verdict) {
      OnlyOne(live, i);
      CandidateUnmoved(live[i], s, c, good, now, verdict);
    }
    assert CandidateApplied(live, after, peerId, c, good, now, verdict);
  }

  lemma {:induction false} CandidateUnmoved(s: Session, after: Option<Session>, c: Candidate, good: bytes -> bool, now: int, verdict: Verdict)
    requires after.Some? && CandidateTaken(s, after.value, c, good, now, verdict)
    ensures after.value.peerId == s.peerId && (verdict != Accepted ==> after.value == s)
  {
  }

  ghost predicate AnswerReceived(before: seq<Session>, after: seq<Session>, peerId: bytes, answer: Answer, good: bytes -> bool, now: int, verdict: Verdict) {
    exists live :: Unexpired(live, before, now) && AnswerApplied(live, after, peerId, answer, good, now, verdict)
  }

  ghost predicate AnswerApplied(live: seq<Session>, after: seq<Session>, peerId: bytes, answer: Answer, good: bytes -> bool, now: int, verdict: Verdict) {
    && |after| == |live|
    && (forall i :: 0 <= i < |live| ==>
          if live[i].peerId == peerId then AnswerTaken(live[i], after[i], answer, good, now, verdict) else after[i] == live[i])
    && ((forall i :: 0 <= i < |live| ==> live[i].peerId != peerId) ==> verdict == Rejected)
  }

  lemma {:induction false} AnswerLeaves(sessions: seq<Session>, peerId: bytes, answer: Answer, good: bytes -> bool, now: int)
    requires OnePerPeer(sessions)
    ensures var live := Live(sessions, now);
            var (s, verdict) := OnAnswer(Get(live, peerId), answer, good, now);
            verdict == Accepted ==> s.Some? && s.value.peerId == peerId
    ensures var live := Live(sessions, now);
            var (s, verdict) := OnAnswer(Get(live, peerId), answer, good, now);
            AnswerReceived(sessions, if verdict == Accepted then Put(live, s.value) else live, peerId, answer, good, now, verdict)
  {
    var live := Live(sessions, now);
    LiveExact(sessions, now);
    LiveMembers(sessions, now);
    var found := Get(live, peerId);
    var (s, verdict) := OnAnswer(found, answer, good, now);
    var after := if verdict == Accepted then Put(live, s.value) else live;
    OnAnswerExact(if found.Some? then found.value else OffererSession([], [], [], 0), answer, good, now);
    hide Live, Unexpired, OnAnswer, AnswerTaken;
    forall i | 0 <= i < |live| && live[i].peerId == peerId ensures AnswerTaken(live[i], after[i], answer, good, now, verdict) {
      OnlyOne(live, i);
      AnswerUnmoved(live[i], s, answer, good, now, verdict);
    }
    assert AnswerApplied(live, after, peerId, answer, good, now, verdict);
  }

  lemma {:induction false} AnswerUnmoved(s: Session, after: Option<Session>, answer: Answer, good: bytes -> bool, now: int, verdict: Verdict)
    requires after.Some? && AnswerTaken(s, after.value, answer, good, now, verdict)
    ensures after.value.peerId == s.peerId && (verdict != Accepted ==> after.value == s)
  {
  }

  /** An accepted offer leaves no session with its peer and room for a new one. */
  ghost predicate OfferReceived(before: seq<Session>, after: seq<Session>, local: bytes, peerId: bytes, offer: Offer, now: int, verdict: Verdict) {
    exists live :: Unexpired(live, before, now) && OfferApplied(live, after, local, peerId, offer, verdict)
  }

  ghost predicate OfferApplied(live: seq<Session>, after: seq<Session>, local: bytes, peerId: bytes, offer: Offer, verdict: Verdict) {
    && (forall s :: s in live && s.peerId == peerId ==> OfferJudged(local, peerId, s, offer, verdict))
    && ((forall s :: s in live ==> s.peerId != peerId) ==> verdict == Accepted)
    && (verdict != Accepted ==> after == live)
    && (verdict == Accepted ==> exists rest :: Others(rest, live, peerId) && Roomy(after, rest))
  }

  lemma {:induction false} OfferLeaves(sessions: seq<Session>, local: bytes, peerId: bytes, offer: Offer, now: int)
    requires OnePerPeer(sessions)
    ensures var live := Live(sessions, now);
            var verdict := OnOffer(local, peerId, Get(live, peerId), offer).1;
            OfferReceived(sessions, if verdict == Accepted then Room(Without(live, peerId)) else live, local, peerId, offer, now, verdict)
  {
    var live := Live(sessions, now);
    LiveExact(sessions, now);
    LiveMembers(sessions, now);
    WithoutExact(live, peerId);
    var found := Get(live, peerId);
    var verdict := OnOffer(local, peerId, found, offer).1;
    OnOfferExact(local, peerId, if found.Some? then found.value else OffererSession([], [], [], 0), offer);
    hide Live, Unexpired, OnOffer, OfferJudged, Without, Others;
    forall s | s in live && s.peerId == peerId ensures OfferJudged(local, peerId, s, offer, verdict) {
      GetIs(live, s);
    }
    assert Roomy(Room(Without(live, peerId)), Without(live, peerId));
    assert OfferApplied(live, if verdict == Accepted then Room(Without(live, peerId)) else live, local, peerId, offer, verdict);
  }

  ghost predicate CancelReceived(before: seq<Session>, after: seq<Session>, peerId: bytes, cancel: Cancel, now: int, verdict: Verdict) {
    exists live :: Unexpired(live, before, now) && CancelApplied(live, after, peerId, cancel, verdict)
  }

  ghost predicate CancelApplied(live: seq<Session>, after: seq<Session>, peerId: bytes, cancel: Cancel, verdict: Verdict) {
    if exists s :: s in live && s.peerId == peerId && Cancels(s, cancel) then verdict == Accepted && Others(after, live, peerId)
    else verdict == Rejected && after == live
  }

  lemma {:induction false} CancelLeaves(sessions: seq<Session>, peerId: bytes, cancel: Cancel, now: int)
    requires OnePerPeer(sessions)
    ensures var live := Live(sessions, now);
            var verdict := OnCancel(Get(live, peerId), cancel).1;
            CancelReceived(sessions, if verdict == Accepted then Without(live, peerId) else live, peerId, cancel, now, verdict)
  {
    var live := Live(sessions, now);
    LiveExact(sessions, now);
    LiveMembers(sessions, now);
    WithoutExact(live, peerId);
    var found := Get(live, peerId);
    OnCancelExact(if found.Some? then found.value else OffererSession([], [], [], 0), cancel);
    hide Live, Unexpired, OnCancel, Cancels, Without, Others;
    forall s | s in live && s.peerId == peerId ensures found == Some(s) {
      GetIs(live, s);
    }
    assert CancelApplied(live, if OnCancel(found, cancel).1 == Accepted then Without(live, peerId) else live, peerId, cancel, OnCancel(found, cancel).1);
  }

  // ---------------------------------------------------------------- the cap on sessions

  /** So many calls of `start` reach the browser one after the other. */
  function Begun(sessions: seq<Session>, n: nat, now: int): seq<Session> {
    if n == 0 then sessions else Room(Live(Begun(sessions, n - 1, now), now))
  }

  /** Then the browser answers all of them. */
  function Finished(sessions: seq<Session>, peers: seq<bytes>, id: bytes, hash: bytes, now: int): seq<Session> {
    if peers == [] then sessions
    else Store(Finished(sessions, peers[..|peers| - 1], id, hash, now), OffererSession(peers[|peers| - 1], id, hash, now))
  }

  lemma {:induction false} AllLive(sessions: seq<Session>, now: int)
    requires forall s :: s in sessions ==> s.expiresAt > now
    ensures Live(sessions, now) == sessions
  {
    if sessions != [] {
      var front, last := sessions[..|sessions| - 1], sessions[|sessions| - 1];
      assert sessions == front + [last];
      AllLive(front, now);
    }
  }

  lemma {:induction false} NothingDropped(sessions: seq<Session>, n: nat, now: int)
    requires |sessions| < MAX_SESSIONS && forall s :: s in sessions ==> s.expiresAt > now
    ensures Begun(sessions, n, now) == sessions
  {
    if n > 0 {
      NothingDropped(sessions, n - 1, now);
      AllLive(sessions, now);
    }
  }

  /** These sessions, and then one for each of the peers. */
  predicate Follow(all: seq<Session>, sessions: seq<Session>, peers: seq<bytes>) {
    |all| == |sessions| + |peers| && all[..|sessions|] == sessions && forall i :: 0 <= i < |peers| ==> all[|sessions| + i].peerId == peers[i]
  }

  lemma {:induction false} FollowNext(all: seq<Session>, sessions: seq<Session>, peers: seq<bytes>, s: Session)
    requires Follow(all, sessions, peers)
    ensures Follow(all + [s], sessions, peers + [s.peerId])
  {
  }

  lemma {:induction false} AllStored(sessions: seq<Session>, peers: seq<bytes>, id: bytes, hash: bytes, now: int)
    requires forall i, j :: 0 <= i < j < |peers| ==> peers[i] != peers[j]
    requires forall i :: 0 <= i < |peers| ==> Get(sessions, peers[i]).None?
    ensures Follow(Finished(sessions, peers, id, hash, now), sessions, peers)
  {
    if peers == [] {
      assert Follow(sessions, sessions, []);
    } else {
      hide Follow, Put;
      var front, last := peers[..|peers| - 1], peers[|peers| - 1];
      AllStored(sessions, front, id, hash, now);
      NotAmong(Finished(sessions, front, id, hash, now), sessions, front, last);
      FollowNext(Finished(sessions, front, id, hash, now), sessions, front, OffererSession(last, id, hash, now));
      assert peers == front + [last];
    }
  }

  lemma {:induction false} NotAmong(all: seq<Session>, sessions: seq<Session>, front: seq<bytes>, last: bytes)
    requires Follow(all, sessions, front) && Get(sessions, last).None? && last !in front
    ensures Get(all, last).None?
  {
    forall k | 0 <= k < |all| ensures all[k].peerId != last {
      if k < |sessions| {
        assert all[k] == all[..|sessions|][k] == sessions[k];
      } else {
        assert all[|sessions| + (k - |sessions|)].peerId == front[k - |sessions|];
      }
    }
  }

  /**
    The cap is tested before the browser is waited for, so with room for one session any number can be started at once,
    and all of them are stored: two are enough for 33.
  */
  lemma {:induction false} CapIsExceeded(sessions: seq<Session>, peers: seq<bytes>, id: bytes, hash: bytes, now: int)
    requires |sessions| < MAX_SESSIONS && forall s :: s in sessions ==> s.expiresAt > now
    requires forall i, j :: 0 <= i < j < |peers| ==> peers[i] != peers[j]
    requires forall i :: 0 <= i < |peers| ==> Get(sessions, peers[i]).None?
    ensures |Finished(Begun(sessions, |peers|, now), peers, id, hash, now)| == |sessions| + |peers|
  {
    NothingDropped(sessions, |peers|, now);
    AllStored(sessions, peers, id, hash, now);
  }

  // ---------------------------------------------------------------- in place

  /** What is still to come of a `start` or a receiveOffer. */
  datatype Half = Starting(peerId: bytes, now: int) | Answering(peerId: bytes, offer: Offer, now: int)

  function Most(a: nat, b: nat): nat { if a < b then b else a }

  class RTCSessionController {
    const localPeerId: bytes
    var sessions: seq<Session>
    var capabilities: seq<Capability>
    ghost var pending: multiset<Half>
    ghost var overlap: nat

    /**
      `overlap` is the largest number of halves that were ever waiting at once. Sessions and waiting halves together stay
      below 32 and that number, so there are never more than 32 sessions as long as no two of them overlap.
    */
    ghost predicate Valid()
      reads this
    {
      && Kept(sessions) && KeptCapabilities(capabilities)
      && |pending| <= overlap && |sessions| + |pending| < MAX_SESSIONS + overlap
    }

    constructor (localPeerId: bytes)
      requires localPeerId != []
      ensures Valid() && sessions == [] && capabilities == [] && this.localPeerId == localPeerId
      ensures pending == multiset{} && overlap == 0
    {
      this.localPeerId := localPeerId;
      sessions, capabilities, pending, overlap := [], [], multiset{}, 0;
    }

    /** The cap, as far as it goes. */
    lemma {:induction false} SessionsCapped()
      requires Valid()
      ensures |sessions| < MAX_SESSIONS + overlap && (overlap <= 1 ==> |sessions| <= MAX_SESSIONS)
    {
    }

    /** A call goes to the browser. */
    ghost method Await(half: Half)
      requires Kept(sessions) && KeptCapabilities(capabilities) && |pending| <= overlap
      requires |sessions| < MAX_SESSIONS || |sessions| + |pending| + 1 < MAX_SESSIONS + overlap
      modifies this`pending, this`overlap
      ensures Valid() && pending == old(pending) + multiset{half} && overlap == Most(old(overlap), |pending|)
    {
      pending := pending + multiset{half};
      overlap := Most(overlap, |pending|);
    }

    method PruneCapabilities(now: int)
      modifies this`capabilities
      ensures capabilities == LiveCapabilities(old(capabilities), now)
    {
      var kept: seq<Capability> := [];
      var i := 0;
      while i < |capabilities|
        invariant 0 <= i <= |capabilities|
        invariant kept == LiveCapabilities(capabilities[..i], now)
      {
        if capabilities[i].expiresAt > now {
          kept := kept + [capabilities[i]];
        }
        assert capabilities[..i + 1][..i] == capabilities[..i];
        i := i + 1;
      }
      assert capabilities[..i] == capabilities;
      capabilities := kept;
    }

    method PruneSessions(now: int)
      modifies this`sessions
      ensures sessions == Live(old(sessions), now)
    {
      var alive: seq<Session> := [];
      var i := 0;
      while i < |sessions|
        invariant 0 <= i <= |sessions|
        invariant alive == Live(sessions[..i], now)
      {
        if sessions[i].expiresAt > now {
          alive := alive + [sessions[i]];
        }
        assert sessions[..i + 1][..i] == sessions[..i];
        i := i + 1;
      }
      assert sessions[..i] == sessions;
      sessions := alive;
    }

    method Prune(now: int)
      requires Valid()
      modifies this
      ensures Valid() && sessions == Live(old(sessions), now) && capabilities == LiveCapabilities(old(capabilities), now)
      ensures Unexpired(sessions, old(sessions), now) && UnexpiredCapabilities(capabilities, old(capabilities), now)
      ensures unchanged(`pending, `overlap)
    {
      hide Unexpired, UnexpiredCapabilities;
      LiveExact(sessions, now);
      LiveCapabilitiesExact(capabilities, now);
      LiveKept(sessions, now);
      LiveMembers(sessions, now);
      LiveCapabilitiesKept(capabilities, now);
      PruneCapabilities(now);
      PruneSessions(now);
    }

    method AcceptCapabilities(peerId: bytes, expiresAt: int, now: int) returns (ok: bool)
      requires Valid()
      modifies this
      ensures Valid() && sessions == Live(old(sessions), now) && unchanged(`pending, `overlap)
      ensures ok <==> peerId != [] && expiresAt > now
      ensures var live := LiveCapabilities(old(capabilities), now);
              && (ok && !Knows(live, peerId) ==>
                    capabilities == (if |live| >= MAX_CAPABILITIES then live[1..] else live) + [Capability(peerId, expiresAt)])
              && (ok && Knows(live, peerId) ==>
                    |capabilities| == |live|
                    && forall i :: 0 <= i < |live| ==>
                         capabilities[i] == if live[i].peerId == peerId then Capability(peerId, expiresAt) else live[i])
      ensures !ok ==> capabilities == LiveCapabilities(old(capabilities), now)
    {
      hide Kept, Live, LiveCapabilities, Knows;
      Prune(now);
      if peerId == [] || expiresAt <= now {
        return false;
      }
      ghost var live := capabilities;
      while |capabilities| >= MAX_CAPABILITIES && !Knows(capabilities, peerId)
        invariant Valid() && sessions == Live(old(sessions), now) && unchanged(`pending, `overlap)
        invariant capabilities == live || (capabilities == live[1..] && |live| == MAX_CAPABILITIES && !Knows(live, peerId))
        decreases |capabilities|
      {
        capabilities := capabilities[1..];
      }
      Remember(peerId, expiresAt);
      return true;
    }

    /** #capabilities.set */
    method Remember(peerId: bytes, expiresAt: int)
      requires OneCapability(capabilities)
      modifies this`capabilities
      ensures OneCapability(capabilities)
      ensures !Knows(old(capabilities), peerId) ==> capabilities == old(capabilities) + [Capability(peerId, expiresAt)]
      ensures Knows(old(capabilities), peerId) ==>
                |capabilities| == |old(capabilities)|
                && forall i :: 0 <= i < |capabilities| ==>
                     capabilities[i] == if old(capabilities)[i].peerId == peerId then Capability(peerId, expiresAt) else old(capabilities)[i]
    {
      if Knows(capabilities, peerId) {
        var i :| 0 <= i < |capabilities| && capabilities[i].peerId == peerId;
        capabilities := capabilities[i := Capability(peerId, expiresAt)];
        assert capabilities[i] in capabilities;
      } else {
        capabilities := capabilities + [Capability(peerId, expiresAt)];
      }
    }

    method MakeRoom()
      modifies this`sessions
      ensures sessions == Room(old(sessions))
    {
      if |sessions| >= MAX_SESSIONS {
        sessions := sessions[1..];
      }
    }

    /**
      `start` up to the browser, unless there is a session already. `channelOk` says whether the browser's channel has the
      required settings.
    */
    method StartBegin(peerId: bytes, channelOk: bool, now: int) returns (ok: bool)
      requires Valid()
      modifies this
      ensures Valid() && capabilities == LiveCapabilities(old(capabilities), now)
      ensures ok <==> peerId != [] && Knows(capabilities, peerId) && Get(Live(old(sessions), now), peerId).None? && channelOk
      ensures ok <==>
                && peerId != [] && (exists e :: e in old(capabilities) && e.peerId == peerId && e.expiresAt > now)
                && (forall s :: s in old(sessions) && s.peerId == peerId ==> s.expiresAt <= now) && channelOk
      ensures ok ==> sessions == Room(Live(old(sessions), now)) && Get(sessions, peerId).None?
      ensures !ok ==> sessions == Live(old(sessions), now) || (!channelOk && sessions == Room(Live(old(sessions), now)))
      ensures exists live :: Unexpired(live, old(sessions), now) && (if ok then Roomy(sessions, live) else sessions == live || (!channelOk && Roomy(sessions, live)))
      ensures pending == old(pending) + if ok then multiset{Starting(peerId, now)} else multiset{}
      ensures overlap == Most(old(overlap), |pending|)
    {
      hide Unexpired, UnexpiredCapabilities, Live, LiveCapabilities;
      LiveExact(sessions, now);
      LiveOne(sessions, peerId, now);
      LiveCapabilityMembers(capabilities, now);
      KnownIs(LiveCapabilities(capabilities, now), peerId);
      Prune(now);
      if peerId == [] || !Knows(capabilities, peerId) {
        return false;
      }
      if Get(sessions, peerId).Some? {
        return false;
      }
      RoomKept(sessions, peerId);
      MakeRoom();
      if !channelOk {
        return false;
      }
      Await(Starting(peerId, now));
      return true;
    }

    /** `start` from the browser's offer on: the session is stored, whatever is there by then. */
    method StartFinish(peerId: bytes, id: bytes, hash: bytes, now: int) returns (offer: Offer)
      requires Valid() && Starting(peerId, now) in pending
      modifies this`sessions, this`pending
      ensures Valid() && pending == old(pending) - multiset{Starting(peerId, now)}
      ensures sessions == Store(old(sessions), OffererSession(peerId, id, hash, now))
      ensures Get(sessions, peerId) == Some(OffererSession(peerId, id, hash, now)) && offer == OfferOf(Get(sessions, peerId).value)
      ensures Stored(sessions, old(sessions), Session(peerId, id, 0, Offerer, hash, None, now + 60_000, {}, {})) && offer == Offer(id, 0, hash)
    {
      StoreExact(sessions, OffererSession(peerId, id, hash, now));
      hide Stored, Store;
      Complete(OffererSession(peerId, id, hash, now), Starting(peerId, now));
      return Offer(id, 0, hash);
    }

    /** A call comes back from the browser and stores its session. */
    method Complete(s: Session, ghost half: Half)
      requires Valid() && half in pending && Sound(s)
      modifies this`sessions, this`pending
      ensures Valid() && pending == old(pending) - multiset{half}
      ensures sessions == Store(old(sessions), s) && Get(sessions, s.peerId) == Some(s)
    {
      StoreKept(sessions, s);
      pending := pending - multiset{half};
      if Get(sessions, s.peerId).Some? {
        var i :| 0 <= i < |sessions| && sessions[i].peerId == s.peerId;
        assert sessions[i := s] == Put(sessions, s);
        sessions := sessions[i := s];
      } else {
        sessions := sessions + [s];
      }
    }

    /** `drop` and makeRoom, for a new session. */
    method Vacate(peerId: bytes)
      requires Kept(sessions)
      modifies this`sessions
      ensures Kept(sessions) && Get(sessions, peerId).None? && sessions == Room(Without(old(sessions), peerId))
      ensures |sessions| < MAX_SESSIONS || |sessions| < |old(sessions)|
    {
      hide Kept, Room, Without;
      var existing := Get(sessions, peerId);
      WithoutKept(sessions, peerId);
      WithoutMembers(sessions, peerId);
      if existing.Some? {
        sessions := Without(sessions, peerId);
      } else {
        WithoutNothing(sessions, peerId);
      }
      RoomKept(sessions, peerId);
      MakeRoom();
    }

    /** `receive` of an offer up to the browser, leaving the session with that peer as OnOffer says. */
    method ReceiveOffer(peerId: bytes, offer: Offer, now: int) returns (verdict: Verdict)
      requires Valid()
      modifies this
      ensures Valid() && capabilities == LiveCapabilities(old(capabilities), now)
      ensures OnOffer(localPeerId, peerId, Get(Live(old(sessions), now), peerId), offer) == (Get(sessions, peerId), verdict)
      ensures sessions == if verdict == Accepted then Room(Without(Live(old(sessions), now), peerId)) else Live(old(sessions), now)
      ensures pending == old(pending) + if verdict == Accepted then multiset{Answering(peerId, offer, now)} else multiset{}
      ensures overlap == Most(old(overlap), |pending|)
      ensures OfferReceived(old(sessions), sessions, localPeerId, peerId, offer, now, verdict)
    {
      OfferLeaves(sessions, localPeerId, peerId, offer, now);
      hide *;
      verdict := AdmitOffer(peerId, offer, now);
    }

    method AdmitOffer(peerId: bytes, offer: Offer, now: int) returns (verdict: Verdict)
      requires Valid()
      modifies this
      ensures Valid() && capabilities == LiveCapabilities(old(capabilities), now)
      ensures OnOffer(localPeerId, peerId, Get(Live(old(sessions), now), peerId), offer) == (Get(sessions, peerId), verdict)
      ensures sessions == if verdict == Accepted then Room(Without(Live(old(sessions), now), peerId)) else Live(old(sessions), now)
      ensures pending == old(pending) + if verdict == Accepted then multiset{Answering(peerId, offer, now)} else multiset{}
      ensures overlap == Most(old(overlap), |pending|)
    {
      hide Unexpired, UnexpiredCapabilities, Kept, KeptCapabilities, Live, LiveCapabilities, Room, Without, Get;
      Prune(now);
      var existing := Get(sessions, peerId);
      if existing.Some? && existing.value.role == Offerer {
        if Less(localPeerId, peerId) {
          return Ignored;
        }
      } else if existing.Some? {
        if existing.value.id == offer.id && existing.value.remoteHash == Some(offer.hash) {
          return Duplicate;
        }
        return Rejected;
      }
      Vacate(peerId);
      Await(Answering(peerId, offer, now));
      return Accepted;
    }

    /** The browser has answered: the session is stored, whatever is there by then. */
    method AnswerReady(peerId: bytes, offer: Offer, hash: bytes, now: int) returns (answer: Answer)
      requires Valid() && Answering(peerId, offer, now) in pending
      modifies this`sessions, this`pending
      ensures Valid() && pending == old(pending) - multiset{Answering(peerId, offer, now)}
      ensures sessions == Store(old(sessions), AnswererSession(peerId, offer, hash, now))
      ensures Get(sessions, peerId) == Some(AnswererSession(peerId, offer, hash, now)) && answer == AnswerOf(Get(sessions, peerId).value)
      ensures Stored(sessions, old(sessions), Session(peerId, offer.id, offer.generation, Answerer, hash, Some(offer.hash), now + 60_000, {}, {}))
      ensures answer == Answer(offer.id, offer.generation, hash, offer.hash)
    {
      StoreExact(sessions, AnswererSession(peerId, offer, hash, now));
      hide Stored, Store;
      Complete(AnswererSession(peerId, offer, hash, now), Answering(peerId, offer, now));
      return Answer(offer.id, offer.generation, hash, offer.hash);
    }

    /** Replace the session with a peer by what one of the handlers made of it. */
    method Update(s: Session)
      requires Valid() && Get(sessions, s.peerId).Some? && Sound(s)
      modifies this`sessions
      ensures Valid() && sessions == Put(old(sessions), s) && Get(sessions, s.peerId) == Some(s)
    {
      PutKept(sessions, s);
      var i :| 0 <= i < |sessions| && sessions[i].peerId == s.peerId;
      assert sessions[i := s] == Put(sessions, s);
      sessions := sessions[i := s];
    }

    /** applyPendingCandidates empties the staging area one candidate at a time. */
    method ApplyPending(s: Session, hash: bytes, good: bytes -> bool) returns (received: set<Key>)
      ensures received == s.received + Applied(s.pending, hash, good)
    {
      received := s.received;
      var pending := s.pending;
      while pending != {}
        invariant pending <= s.pending
        invariant received == s.received + Applied(s.pending - pending, hash, good)
        decreases |pending|
      {
        var key :| key in pending;
        var rest := pending - {key};
        assert s.pending - rest == (s.pending - pending) + {key};
        AppliedAdd(s.pending - pending, key, hash, good);
        if key.hash == hash && good(key.text) {
          received := received + {key};
        }
        pending := rest;
      }
      assert s.pending - {} == s.pending;
    }

    method ReceiveAnswer(peerId: bytes, answer: Answer, good: bytes -> bool, now: int) returns (verdict: Verdict)
      requires Valid()
      modifies this
      ensures Valid() && capabilities == LiveCapabilities(old(capabilities), now) && unchanged(`pending, `overlap)
      ensures OnAnswer(Get(Live(old(sessions), now), peerId), answer, good, now) == (Get(sessions, peerId), verdict)
      ensures verdict != Accepted ==> sessions == Live(old(sessions), now)
      ensures verdict == Accepted ==> Get(sessions, peerId).Some? && sessions == Put(Live(old(sessions), now), Get(sessions, peerId).value)
      ensures AnswerReceived(old(sessions), sessions, peerId, answer, good, now, verdict)
    {
      AnswerLeaves(sessions, peerId, answer, good, now);
      hide *;
      verdict := InstallAnswer(peerId, answer, good, now);
    }

    method InstallAnswer(peerId: bytes, answer: Answer, good: bytes -> bool, now: int) returns (verdict: Verdict)
      requires Valid()
      modifies this
      ensures Valid() && capabilities == LiveCapabilities(old(capabilities), now) && unchanged(`pending, `overlap)
      ensures OnAnswer(Get(Live(old(sessions), now), peerId), answer, good, now) == (Get(sessions, peerId), verdict)
      ensures verdict != Accepted ==> sessions == Live(old(sessions), now)
      ensures verdict == Accepted ==> Get(sessions, peerId).Some? && sessions == Put(Live(old(sessions), now), Get(sessions, peerId).value)
    {
      hide Unexpired, UnexpiredCapabilities, Live, LiveCapabilities;
      Prune(now);
      var existing := Get(sessions, peerId);
      if existing.None? {
        return Rejected;
      }
      var s := existing.value;
      if s.role != Offerer || s.id != answer.id || s.generation != answer.generation || s.localHash != answer.offerHash {
        return Rejected;
      }
      if s.remoteHash == Some(answer.hash) {
        return Duplicate;
      }
      if s.remoteHash.Some? {
        return Rejected;
      }
      OnAnswerSound(s, answer, good, now);
      var received := ApplyPending(s, answer.hash, good);
      Update(s.(remoteHash := Some(answer.hash), received := received, pending := {}, expiresAt := now + TTL_MS));
      return Accepted;
    }

    method ReceiveCandidate(peerId: bytes, c: Candidate, good: bytes -> bool, now: int) returns (verdict: Verdict)
      requires Valid()
      modifies this
      ensures Valid() && capabilities == LiveCapabilities(old(capabilities), now) && unchanged(`pending, `overlap)
      ensures OnCandidate(Get(Live(old(sessions), now), peerId), c, good, now) == (Get(sessions, peerId), verdict)
      ensures verdict != Accepted ==> sessions == Live(old(sessions), now)
      ensures verdict == Accepted ==> Get(sessions, peerId).Some? && sessions == Put(Live(old(sessions), now), Get(sessions, peerId).value)
      ensures CandidateReceived(old(sessions), sessions, peerId, c, good, now, verdict)
    {
      CandidateLeaves(sessions, peerId, c, good, now);
      hide *;
      verdict := TakeCandidate(peerId, c, good, now);
    }

    method TakeCandidate(peerId: bytes, c: Candidate, good: bytes -> bool, now: int) returns (verdict: Verdict)
      requires Valid()
      modifies this
      ensures Valid() && capabilities == LiveCapabilities(old(capabilities), now) && unchanged(`pending, `overlap)
      ensures OnCandidate(Get(Live(old(sessions), now), peerId), c, good, now) == (Get(sessions, peerId), verdict)
      ensures verdict != Accepted ==> sessions == Live(old(sessions), now)
      ensures verdict == Accepted ==> Get(sessions, peerId).Some? && sessions == Put(Live(old(sessions), now), Get(sessions, peerId).value)
    {
      hide Unexpired, UnexpiredCapabilities, Live, LiveCapabilities;
      Prune(now);
      if !ValidCandidate(c) {
        return Rejected;
      }
      var existing := Get(sessions, peerId);
      if existing.None? {
        return Rejected;
      }
      var s := existing.value;
      OnCandidateSound(s, c, good, now);
      if s.id != c.id || s.generation != c.generation || c.direction != Opposite(s.role) {
        return Rejected;
      }
      var key := KeyOf(c);
      if key in s.received || key in s.pending {
        return Duplicate;
      }
      if |s.received| >= MAX_CANDIDATES {
        return Rejected;
      }
      if s.remoteHash.None? {
        if |s.pending| >= MAX_CANDIDATES {
          return Rejected;
        }
        Update(s.(pending := s.pending + {key}));
        return Accepted;
      }
      if s.remoteHash != Some(c.hash) || !good(c.text) {
        return Rejected;
      }
      Update(s.(received := s.received + {key}, expiresAt := now + TTL_MS));
      return Accepted;
    }

    method ReceiveCancel(peerId: bytes, cancel: Cancel, now: int) returns (verdict: Verdict)
      requires Valid()
      modifies this
      ensures Valid() && capabilities == LiveCapabilities(old(capabilities), now) && unchanged(`pending, `overlap)
      ensures OnCancel(Get(Live(old(sessions), now), peerId), cancel) == (Get(sessions, peerId), verdict)
      ensures sessions == if verdict == Accepted then Without(Live(old(sessions), now), peerId) else Live(old(sessions), now)
      ensures CancelReceived(old(sessions), sessions, peerId, cancel, now, verdict)
    {
      CancelLeaves(sessions, peerId, cancel, now);
      hide *;
      verdict := AcceptCancel(peerId, cancel, now);
    }

    method AcceptCancel(peerId: bytes, cancel: Cancel, now: int) returns (verdict: Verdict)
      requires Valid()
      modifies this
      ensures Valid() && capabilities == LiveCapabilities(old(capabilities), now) && unchanged(`pending, `overlap)
      ensures OnCancel(Get(Live(old(sessions), now), peerId), cancel) == (Get(sessions, peerId), verdict)
      ensures sessions == if verdict == Accepted then Without(Live(old(sessions), now), peerId) else Live(old(sessions), now)
    {
      hide Unexpired, UnexpiredCapabilities, Live, LiveCapabilities;
      Prune(now);
      var existing := Get(sessions, peerId);
      if existing.None? || existing.value.id != cancel.id || existing.value.generation != cancel.generation
         || existing.value.remoteHash != Some(cancel.hash) {
        return Rejected;
      }
      WithoutKept(sessions, peerId);
      WithoutMembers(sessions, peerId);
      sessions := Without(sessions, peerId);
      return Accepted;
    }

    /** The sessions go; what the browser is still busy with comes back all the same. */
    method Reset()
      requires Valid()
      modifies this`sessions, this`capabilities
      ensures Valid() && sessions == [] && capabilities == []
    {
      sessions, capabilities := [], [];
    }
  }
}
