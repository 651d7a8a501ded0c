/** RTCDataIngressRuntime of pwa/src/connectivity/rtc-data-runtime.ts: how a DATA frame comes to be dispatched and admitted. */
module RtcIngress {
  import opened Bytes
  import L = RtcAdmission

  /** fixedStreamId */
  const STREAM := 0

  datatype Session = Session(peer: bytes, expiresAt: int)

  datatype Outcome = Admitted | Duplicate | Pending | Conflict | Rejected

  /** Where receiveData is with a frame: opening the envelope, taking the digest, dispatching, or done. */
  datatype Stage = Opening | Hashing | Dispatching | Answered(outcome: Outcome)

  datatype Job = Job(delivery: bytes, fingerprint: bytes, arrivedAt: int, stage: Stage)

  /** A delivery went to `dispatch`; or the session was reset or found past its end. */
  datatype Note = Handed(delivery: bytes) | Over

  /**
    The ledger and the frames on their way. `history`, `accepted` (the deliveries for which `dispatch` said true) and
    `sent` (the ADMITs that went out) are history.
  */
  datatype Ingress = Ingress(ledger: L.Ledger, jobs: seq<Job>, history: seq<Note>, accepted: seq<bytes>, sent: seq<bytes>)

  function Start(): Ingress { Ingress(L.Empty(L.MAX_ENTRIES), [], [], [], []) }

  function KeyOf(session: Session, delivery: bytes): L.Key { L.Key(session.peer, STREAM, delivery) }

  predicate At(x: Ingress, i: nat, stage: Stage) { i < |x.jobs| && x.jobs[i].stage == stage }

  function Move(x: Ingress, i: nat, stage: Stage): Ingress
    requires i < |x.jobs|
  {
    x.(jobs := x.jobs[i := x.jobs[i].(stage := stage)])
  }

  /** sendAdmit; the browser channel may throw. */
  function SendAdmit(x: Ingress, i: nat, ok: bool, outcome: Outcome): Ingress
    requires i < |x.jobs|
  {
    if ok then Move(x, i, Answered(outcome)).(sent := x.sent + [x.jobs[i].delivery]) else Move(x, i, Answered(Rejected))
  }

  /** `receive` up to its first await; None is an ADMIT or anything that it rejects on sight. */
  function Received(session: Session, x: Ingress, now: int, frame: Option<(bytes, bytes)>): Ingress {
    if now >= session.expiresAt then x.(ledger := L.Clear(x.ledger), history := x.history + [Over])
    else
      match frame
      case None => x
      case Some((delivery, fingerprint)) => x.(jobs := x.jobs + [Job(delivery, fingerprint, now, Opening)])
  }

  /** The envelope opens or not; `reserve` prunes by the time of arrival and awaits the digest. */
  function Opened(x: Ingress, i: nat, ok: bool): Ingress
    requires L.Shape(x.ledger)
  {
    if !At(x, i, Opening) then x
    else if ok then Move(x, i, Hashing).(ledger := L.Prune(x.ledger, x.jobs[i].arrivedAt))
    else Move(x, i, Answered(Rejected))
  }

  function StageAfter(answer: L.Reservation, sendOk: bool): Stage {
    match answer
    case First => Dispatching
    case Conflict => Answered(Conflict)
    case DuplicatePending => Answered(Pending)
    case DuplicateAdmitted => Answered(if sendOk then Duplicate else Rejected)
  }

  /** The reservation is decided: only a first one is dispatched, and one that was admitted is admitted again. */
  function Hashed(session: Session, x: Ingress, i: nat, sendOk: bool): Ingress
    requires L.Shape(x.ledger)
  {
    if !At(x, i, Hashing) then x
    else
      var delivery := x.jobs[i].delivery;
      var (ledger, answer) := L.Reserve(x.ledger, KeyOf(session, delivery), x.jobs[i].fingerprint, session.expiresAt);
      Move(x, i, StageAfter(answer, sendOk)).(
        ledger := ledger,
        history := if answer == L.First then x.history + [Handed(delivery)] else x.history,
        sent := if answer == L.DuplicateAdmitted && sendOk then x.sent + [delivery] else x.sent)
  }

  /** `dispatch` returns, or throws, which counts as false. */
  function Dispatched(session: Session, x: Ingress, i: nat, ok: bool, now: int, sendOk: bool): Ingress
    requires L.Shape(x.ledger)
  {
    if !At(x, i, Dispatching) then x
    else if !ok then Move(x, i, Answered(Rejected))
    else
      var (ledger, admitted) := L.Admit(x.ledger, KeyOf(session, x.jobs[i].delivery), now);
      var y := x.(ledger := ledger, accepted := x.accepted + [x.jobs[i].delivery],
                  history := if now >= session.expiresAt then x.history + [Over] else x.history);
      if admitted then SendAdmit(y, i, sendOk, Admitted) else Move(y, i, Answered(Rejected))
  }

  function Stopped(x: Ingress): Ingress { x.(ledger := L.Clear(x.ledger), history := x.history + [Over]) }

  datatype Event =
    | DoReceive(now: int, frame: Option<(bytes, bytes)>)
    | DoOpened(job: nat, ok: bool)
    | DoHashed(job: nat, sendOk: bool)
    | DoDispatched(job: nat, ok: bool, now: int, sendOk: bool)
    | DoReset

  function Step(session: Session, x: Ingress, e: Event): (y: Ingress)
    requires L.Shape(x.ledger)
    ensures L.Shape(y.ledger) && y.ledger.maximum == x.ledger.maximum
  {
    match e
    case DoReceive(now, frame) => Received(session, x, now, frame)
    case DoOpened(i, ok) => Opened(x, i, ok)
    case DoHashed(i, sendOk) => Hashed(session, x, i, sendOk)
    case DoDispatched(i, ok, now, sendOk) => Dispatched(session, x, i, ok, now, sendOk)
    case DoReset => Stopped(x)
  }

  function Run(session: Session, events: seq<Event>): (x: Ingress)
    ensures L.Shape(x.ledger) && x.ledger.maximum == L.MAX_ENTRIES
  {
    if events == [] then Start() else Step(session, Run(session, events[..|events| - 1]), events[|events| - 1])
  }

  // ---------------------------------------------------------------- the ledger's log as the session's history

  function Noted(session: Session, h: L.Happening): seq<Note> {
    match h
    case Reserved(key, _, _) => [Handed(key.delivery)]
    case Pruned(now) => if now >= session.expiresAt then [Over] else []
    case Admitted(_) => []
    case Cleared => [Over]
  }

  function Project(session: Session, log: seq<L.Happening>): seq<Note> {
    if log == [] then [] else Project(session, log[..|log| - 1]) + Noted(session, log[|log| - 1])
  }

  lemma {:induction false} ProjectAppend(session: Session, log: seq<L.Happening>, h: L.Happening)
    ensures Project(session, log + [h]) == Project(session, log) + Noted(session, h)
  {
    assert (log + [h])[..|log|] == log;
  }

  lemma {:induction false} Regroup<T>(a: seq<T>, b: seq<T>, c: seq<T>)
    ensures a + (b + c) == (a + b) + c
  {
  }

  lemma {:induction false} ProjectJoined(session: Session, front: seq<L.Happening>, back: seq<L.Happening>)
    ensures Project(session, front + back) == Project(session, front) + Project(session, back)
  {
    if back == [] {
      assert front + back == front;
    } else {
      hide Project, Noted;
      var body, h := back[..|back| - 1], back[|back| - 1];
      assert back == body + [h];
      ProjectJoined(session, front, body);
      ProjectAppend(session, front + body, h);
      ProjectAppend(session, body, h);
      Regroup(front, body, [h]);
      Regroup(Project(session, front), Project(session, body), Noted(session, h));
    }
  }

  lemma {:induction false} ProjectSplit(session: Session, log: seq<L.Happening>, k: nat)
    requires k <= |log|
    ensures Project(session, log) == Project(session, log[..k]) + Project(session, log[k..])
  {
    ProjectJoined(session, log[..k], log[k..]);
    assert log == log[..k] + log[k..];
  }

  /** The happening behind a note. */
  lemma {:induction false} PlaceOf(session: Session, log: seq<L.Happening>, a: nat) returns (p: nat)
    requires a < |Project(session, log)|
    ensures p < |log| && Noted(session, log[p]) == [Project(session, log)[a]] && |Project(session, log[..p])| == a
  {
    var n := |log| - 1;
    if a < |Project(session, log[..n])| {
      p := PlaceOf(session, log[..n], a);
      assert log[..n][..p] == log[..p];
    } else {
      p := n;
    }
  }

  lemma {:induction false} NotesOf(session: Session, log: seq<L.Happening>)
    ensures forall h :: h in log && Noted(session, h) == [Over] ==> Over in Project(session, log)
    ensures L.Firsts(log) <= |Project(session, log)|
  {
    if log != [] {
      var n := |log| - 1;
      NotesOf(session, log[..n]);
      assert log == log[..n] + [log[n]];
    }
  }

  // ---------------------------------------------------------------- the invariant

  /** Reservations are this peer's, in this stream, and until the end of the session. */
  predicate Ours(session: Session, log: seq<L.Happening>) {
    forall h :: h in log && h.Reserved? ==> h.key == KeyOf(session, h.key.delivery) && h.expiresAt == session.expiresAt
  }

  /** What the ledger marks as admitted, and what an ADMIT went out for, was accepted by `dispatch`. */
  predicate Earned(log: seq<L.Happening>, accepted: seq<bytes>, sent: seq<bytes>) {
    && (forall h :: h in log && h.Admitted? ==> h.key.delivery in accepted)
    && (forall d :: d in sent ==> d in accepted)
  }

  /** Only what was handed over can be accepted. */
  predicate HandedFirst(session: Session, jobs: seq<Job>, accepted: seq<bytes>, history: seq<Note>) {
    && (forall i :: 0 <= i < |jobs| ==> jobs[i].arrivedAt < session.expiresAt)
    && (forall i :: 0 <= i < |jobs| && jobs[i].stage == Dispatching ==> Handed(jobs[i].delivery) in history)
    && (forall d :: d in accepted ==> Handed(d) in history)
  }

  lemma {:induction false} LogGrows(session: Session, log: seq<L.Happening>, h: L.Happening, accepted: seq<bytes>, sent: seq<bytes>)
    requires Ours(session, log) && Earned(log, accepted, sent)
    requires h.Reserved? ==> h.key == KeyOf(session, h.key.delivery) && h.expiresAt == session.expiresAt
    requires h.Admitted? ==> h.key.delivery in accepted
    ensures Ours(session, log + [h]) && Earned(log + [h], accepted, sent)
  {
  }

  lemma {:induction false} AcceptedGrows(log: seq<L.Happening>, accepted: seq<bytes>, sent: seq<bytes>, d: bytes)
    requires Earned(log, accepted, sent)
    ensures Earned(log, accepted + [d], sent)
  {
  }

  lemma {:induction false} SentGrows(log: seq<L.Happening>, accepted: seq<bytes>, sent: seq<bytes>, d: bytes)
    requires Earned(log, accepted, sent) && d in accepted
    ensures Earned(log, accepted, sent + [d])
  {
  }

  lemma {:induction false} HistoryGrows(session: Session, jobs: seq<Job>, accepted: seq<bytes>, history: seq<Note>, note: Note)
    requires HandedFirst(session, jobs, accepted, history)
    ensures HandedFirst(session, jobs, accepted, history + [note])
  {
  }

  lemma {:induction false} JobMoves(session: Session, jobs: seq<Job>, accepted: seq<bytes>, history: seq<Note>, i: nat, stage: Stage)
    requires HandedFirst(session, jobs, accepted, history) && i < |jobs|
    requires stage == Dispatching ==> Handed(jobs[i].delivery) in history
    ensures HandedFirst(session, jobs[i := jobs[i].(stage := stage)], accepted, history)
  {
  }

  lemma {:induction false} JobAccepted(session: Session, jobs: seq<Job>, accepted: seq<bytes>, history: seq<Note>, i: nat)
    requires HandedFirst(session, jobs, accepted, history) && i < |jobs| && jobs[i].stage == Dispatching
    ensures HandedFirst(session, jobs, accepted + [jobs[i].delivery], history)
  {
  }

  ghost predicate LedgerSound(l: L.Ledger) {
    L.Sound(l) && l.maximum == L.MAX_ENTRIES && L.Separate(l.log, l.maximum)
  }

  ghost predicate Sound(session: Session, x: Ingress) {
    && LedgerSound(x.ledger)
    && x.history == Project(session, x.ledger.log) && Ours(session, x.ledger.log)
    && Earned(x.ledger.log, x.accepted, x.sent) && HandedFirst(session, x.jobs, x.accepted, x.history)
  }

  lemma {:induction false} ClearKeeps(session: Session, x: Ingress)
    requires Sound(session, x)
    ensures Sound(session, Stopped(x))
  {
    hide L.Sound, L.Separate, Project, Noted;
    L.StepSound(x.ledger, L.DoClear);
    L.StepSeparate(x.ledger, L.DoClear);
    ProjectAppend(session, x.ledger.log, L.Cleared);
    assert Noted(session, L.Cleared) == [Over] by { NotedOver(session); }
  }

  lemma {:induction false} NotedOver(session: Session)
    ensures Noted(session, L.Cleared) == [Over]
  {
  }

  lemma {:induction false} ReceiveKeeps(session: Session, x: Ingress, now: int, frame: Option<(bytes, bytes)>)
    requires Sound(session, x)
    ensures Sound(session, Received(session, x, now, frame))
  {
    if now >= session.expiresAt {
      ClearKeeps(session, x);
    }
    hide LedgerSound, Project;
  }

  lemma {:induction false} PruneKeeps(session: Session, l: L.Ledger, now: int)
    requires LedgerSound(l)
    ensures LedgerSound(L.Prune(l, now))
    ensures L.Prune(l, now).log == l.log + [L.Pruned(now)]
    ensures Project(session, L.Prune(l, now).log) == Project(session, l.log) + if now >= session.expiresAt then [Over] else []
  {
    hide L.Sound, L.Separate, Project;
    assert L.Shape(l) by { L.SoundShape(l); }
    L.StepSound(l, L.DoPrune(now));
    L.StepSeparate(l, L.DoPrune(now));
    ProjectAppend(session, l.log, L.Pruned(now));
  }

  lemma {:induction false} OpenedKeeps(session: Session, x: Ingress, i: nat, ok: bool)
    requires Sound(session, x)
    ensures Sound(session, Opened(x, i, ok))
  {
    if At(x, i, Opening) {
      var now := x.jobs[i].arrivedAt;
      assert L.Shape(x.ledger) by { SoundLedger(session, x); }
      assert now < session.expiresAt;
      hide LedgerSound, Project, L.Prune, HandedFirst, Ours, Earned;
      if ok {
        PruneKeeps(session, x.ledger, now);
        LogGrows(session, x.ledger.log, L.Pruned(now), x.accepted, x.sent);
        JobMoves(session, x.jobs, x.accepted, x.history, i, Hashing);
      } else {
        JobMoves(session, x.jobs, x.accepted, x.history, i, Answered(Rejected));
      }
    }
  }

  /** What `reserve` does to the log, and that a duplicate is only answered as admitted if it was. */
  lemma {:induction false} ReserveKeeps(session: Session, l: L.Ledger, delivery: bytes, fingerprint: bytes)
    requires LedgerSound(l)
    ensures var (l', answer) := L.Reserve(l, KeyOf(session, delivery), fingerprint, session.expiresAt);
            && LedgerSound(l')
            && (answer == L.First ==> l'.log == l.log + [L.Reserved(KeyOf(session, delivery), fingerprint, session.expiresAt)]
                                      && Project(session, l'.log) == Project(session, l.log) + [Handed(delivery)])
            && (answer != L.First ==> l' == l)
            && (answer == L.DuplicateAdmitted ==> L.Admitted(KeyOf(session, delivery)) in l.log)
  {
    var key := KeyOf(session, delivery);
    DuplicateWasAdmitted(l, key);
    hide L.Sound, L.Separate, Project;
    L.StepSound(l, L.DoReserve(key, fingerprint, session.expiresAt));
    L.StepSeparate(l, L.DoReserve(key, fingerprint, session.expiresAt));
    ProjectAppend(session, l.log, L.Reserved(key, fingerprint, session.expiresAt));
  }

  lemma {:induction false} DuplicateWasAdmitted(l: L.Ledger, key: L.Key)
    requires L.Sound(l)
    ensures var i := L.IndexOf(l.entries, key); i < |l.entries| && l.entries[i].admitted ==> L.Admitted(key) in l.log
  {
    var i := L.IndexOf(l.entries, key);
    if i < |l.entries| && l.entries[i].admitted {
      assert L.Backed(l.log, l.entries[i], l.births[i]);
    }
  }

  lemma {:induction false} HashedKeeps(session: Session, x: Ingress, i: nat, sendOk: bool)
    requires Sound(session, x)
    ensures Sound(session, Hashed(session, x, i, sendOk))
  {
    if At(x, i, Hashing) {
      var job, log := x.jobs[i], x.ledger.log;
      var answer := L.Reserve(x.ledger, KeyOf(session, job.delivery), job.fingerprint, session.expiresAt).1;
      ReserveKeeps(session, x.ledger, job.delivery, job.fingerprint);
      hide LedgerSound, Project, L.Reserve, HandedFirst, Ours, Earned;
      if answer == L.First {
        LogGrows(session, log, L.Reserved(KeyOf(session, job.delivery), job.fingerprint, session.expiresAt), x.accepted, x.sent);
        HistoryGrows(session, x.jobs, x.accepted, x.history, Handed(job.delivery));
        JobMoves(session, x.jobs, x.accepted, x.history + [Handed(job.delivery)], i, Dispatching);
      } else {
        JobMoves(session, x.jobs, x.accepted, x.history, i, Hashed(session, x, i, sendOk).jobs[i].stage);
        if answer == L.DuplicateAdmitted {
          AdmittedIsAccepted(log, x.accepted, x.sent, KeyOf(session, job.delivery));
          SentGrows(log, x.accepted, x.sent, job.delivery);
        }
      }
    }
  }

  lemma {:induction false} AdmittedIsAccepted(log: seq<L.Happening>, accepted: seq<bytes>, sent: seq<bytes>, key: L.Key)
    requires Earned(log, accepted, sent) && L.Admitted(key) in log
    ensures key.delivery in accepted
  {
  }

  lemma {:induction false} AdmitKeeps(session: Session, l: L.Ledger, delivery: bytes, now: int)
    requires LedgerSound(l)
    ensures var (l', ok) := L.Admit(l, KeyOf(session, delivery), now);
            && LedgerSound(l')
            && l'.log == l.log + [L.Pruned(now)] + (if ok then [L.Admitted(KeyOf(session, delivery))] else [])
            && Project(session, l'.log) == Project(session, l.log) + if now >= session.expiresAt then [Over] else []
  {
    var key := KeyOf(session, delivery);
    hide L.Sound, L.Separate, Project;
    assert L.Shape(l) by { L.SoundShape(l); }
    L.StepSound(l, L.DoAdmit(key, now));
    L.StepSeparate(l, L.DoAdmit(key, now));
    ProjectAppend(session, l.log, L.Pruned(now));
    ProjectAppend(session, l.log + [L.Pruned(now)], L.Admitted(key));
  }

  lemma {:induction false} DispatchedKeeps(session: Session, x: Ingress, i: nat, ok: bool, now: int, sendOk: bool)
    requires Sound(session, x)
    ensures Sound(session, Dispatched(session, x, i, ok, now, sendOk))
  {
    if At(x, i, Dispatching) {
      var y := Dispatched(session, x, i, ok, now, sendOk);
      var delivery := x.jobs[i].delivery;
      assert L.Shape(x.ledger) by { SoundLedger(session, x); }
      assert y.jobs == x.jobs[i := x.jobs[i].(stage := y.jobs[i].stage)] && y.jobs[i].stage.Answered?;
      if ok {
        var admitted := L.Admit(x.ledger, KeyOf(session, delivery), now).1;
        var accepted := x.accepted + [delivery];
        AdmitKeeps(session, x.ledger, delivery, now);
        AcceptedGrows(x.ledger.log, x.accepted, x.sent, delivery);
        LogGrows(session, x.ledger.log, L.Pruned(now), accepted, x.sent);
        LogGrows(session, x.ledger.log + [L.Pruned(now)], L.Admitted(KeyOf(session, delivery)), accepted, x.sent);
        SentGrows(y.ledger.log, accepted, x.sent, delivery);
        JobAccepted(session, x.jobs, x.accepted, x.history, i);
        HistoryGrows(session, x.jobs, accepted, x.history, Over);
        hide LedgerSound, Project, L.Admit, HandedFirst, Ours, Earned;
        JobMoves(session, x.jobs, accepted, y.history, i, y.jobs[i].stage);
      } else {
        hide LedgerSound, Project, HandedFirst, Ours, Earned;
        JobMoves(session, x.jobs, x.accepted, x.history, i, Answered(Rejected));
      }
    }
  }

  lemma {:induction false} StepKeeps(session: Session, x: Ingress, e: Event)
    requires Sound(session, x)
    ensures Sound(session, Step(session, x, e))
  {
    hide Sound, Received, Opened, Hashed, Dispatched, Stopped;
    assert L.Shape(x.ledger) by { SoundLedger(session, x); }
    match e
    case DoReceive(now, frame) => ReceiveKeeps(session, x, now, frame);
    case DoOpened(i, ok) => OpenedKeeps(session, x, i, ok);
    case DoHashed(i, sendOk) => HashedKeeps(session, x, i, sendOk);
    case DoDispatched(i, ok, now, sendOk) => DispatchedKeeps(session, x, i, ok, now, sendOk);
    case DoReset => ClearKeeps(session, x);
  }

  lemma {:induction false} SoundLedger(session: Session, x: Ingress)
    requires Sound(session, x)
    ensures L.Shape(x.ledger)
  {
    L.SoundShape(x.ledger);
  }

  lemma {:induction false} Ledgers(session: Session, x: Ingress)
    requires Sound(session, x)
    ensures L.Sound(x.ledger)
  {
  }

  lemma {:induction false} RunSound(session: Session, events: seq<Event>)
    ensures Sound(session, Run(session, events))
  {
    if events == [] {
      L.RunSound(L.MAX_ENTRIES, []);
    } else {
      RunSound(session, events[..|events| - 1]);
      StepKeeps(session, Run(session, events[..|events| - 1]), events[|events| - 1]);
    }
  }

  // ---------------------------------------------------------------- the promises

  /** When the ledger holds an entry for a delivery of this peer. */
  predicate HasEntry(session: Session, x: Ingress, delivery: bytes) {
    exists e :: e in x.ledger.entries && e.key == L.Key(session.peer, 0, delivery)
  }

  lemma {:induction false} ReceivedExact(session: Session, x: Ingress, now: int, frame: Option<(bytes, bytes)>)
    ensures var y := Received(session, x, now, frame);
            && y.accepted == x.accepted && y.sent == x.sent
            && (now >= session.expiresAt ==> y.ledger.entries == [] && y.jobs == x.jobs && y.history == x.history + [Over])
            && (now < session.expiresAt ==> y.ledger == x.ledger && y.history == x.history)
            && (now < session.expiresAt && frame.None? ==> y.jobs == x.jobs)
            && (now < session.expiresAt && frame.Some? ==> y.jobs == x.jobs + [Job(frame.value.0, frame.value.1, now, Opening)])
  {
  }

  /** An envelope that opens goes on to the digest, and one that does not is refused. */
  lemma {:induction false} OpenedExact(x: Ingress, i: nat, ok: bool)
    requires L.Shape(x.ledger) && i < |x.jobs| && x.jobs[i].stage == Opening
    ensures var y := Opened(x, i, ok);
            && y.jobs == x.jobs[i := x.jobs[i].(stage := if ok then Hashing else Answered(Rejected))]
            && y.history == x.history && y.accepted == x.accepted && y.sent == x.sent
            && (if ok then L.Unexpired(y.ledger.entries, x.ledger.entries, x.jobs[i].arrivedAt) else y.ledger == x.ledger)
  {
    L.ValidExact(x.ledger.entries, x.ledger.births, x.jobs[i].arrivedAt);
  }

  /** What an entry for its delivery makes of a frame. */
  function AnsweredBy(e: L.Entry, fingerprint: bytes, sendOk: bool): Outcome {
    if e.fingerprint != fingerprint then Conflict else if !e.admitted then Pending else if sendOk then Duplicate else Rejected
  }

  /** A delivery that the ledger does not hold is dispatched, and one that it holds is answered from its entry. */
  lemma {:induction false} HashedExact(session: Session, x: Ingress, i: nat, sendOk: bool)
    requires L.Shape(x.ledger) && i < |x.jobs| && x.jobs[i].stage == Hashing && L.OneEach(x.ledger.entries)
    ensures var y, d := Hashed(session, x, i, sendOk), x.jobs[i].delivery;
            && y.accepted == x.accepted
            && (!HasEntry(session, x, d) ==>
                  && y.jobs == x.jobs[i := x.jobs[i].(stage := Dispatching)] && y.history == x.history + [Handed(d)] && y.sent == x.sent
                  && HasEntry(session, y, d))
            && (forall e :: e in x.ledger.entries && e.key == L.Key(session.peer, 0, d) ==>
                  && y.jobs == x.jobs[i := x.jobs[i].(stage := Answered(AnsweredBy(e, x.jobs[i].fingerprint, sendOk)))]
                  && y.history == x.history && y.ledger == x.ledger
                  && y.sent == if AnsweredBy(e, x.jobs[i].fingerprint, sendOk) == Duplicate then x.sent + [d] else x.sent)
  {
    var y, d, entries := Hashed(session, x, i, sendOk), x.jobs[i].delivery, x.ledger.entries;
    var place := L.IndexOf(entries, KeyOf(session, d));
    if HasEntry(session, x, d) {
      forall e | e in entries && e.key == L.Key(session.peer, 0, d) ensures place < |entries| && e == entries[place] {
        var p :| 0 <= p < |entries| && entries[p] == e;
        L.IndexIs(entries, p);
      }
    } else {
      assert place == |entries|;
      assert y.ledger.entries[|y.ledger.entries| - 1].key == L.Key(session.peer, 0, d);
    }
  }

  /** Only what `dispatch` accepts is admitted, and only while its entry is there and has not expired. */
  lemma {:induction false} DispatchedExact(session: Session, x: Ingress, i: nat, ok: bool, now: int, sendOk: bool)
    requires L.Shape(x.ledger) && i < |x.jobs| && x.jobs[i].stage == Dispatching
    ensures var y, d := Dispatched(session, x, i, ok, now, sendOk), x.jobs[i].delivery;
            var admits := ok && sendOk && exists e :: e in x.ledger.entries && e.key == L.Key(session.peer, 0, d) && e.expiresAt > now;
            && y.jobs == x.jobs[i := x.jobs[i].(stage := Answered(if admits then Admitted else Rejected))]
            && y.accepted == (if ok then x.accepted + [d] else x.accepted)
            && y.sent == (if admits then x.sent + [d] else x.sent)
            && y.history == (if ok && now >= session.expiresAt then x.history + [Over] else x.history)
            && (!ok ==> y == x.(jobs := y.jobs))
  {
    L.ValidExact(x.ledger.entries, x.ledger.births, now);
    L.UnexpiredMembers(L.Valid(x.ledger.entries, x.ledger.births, now).0, x.ledger.entries, now);
    hide L.Unexpired, L.Valid;
  }

  // ---------------------------------------------------------------- frames over whole runs

  /** The envelope of job i, with this delivery, opens at event k. */
  ghost predicate Opens(session: Session, events: seq<Event>, k: nat, i: nat, d: bytes) {
    && k < |events| && events[k] == DoOpened(i, true)
    && i < |Run(session, events[..k]).jobs| && Run(session, events[..k]).jobs[i].stage == Opening
    && Run(session, events[..k]).jobs[i].delivery == d
  }

  ghost predicate WasOpened(session: Session, events: seq<Event>, i: nat, d: bytes) {
    exists k: nat :: Opens(session, events, k, i, d)
  }

  /** The digest of a frame whose envelope opened is taken, at event n. */
  ghost predicate OpenedAndHashed(session: Session, events: seq<Event>, n: nat, d: bytes) {
    n < |events| && events[n].DoHashed? && WasOpened(session, events[..n], events[n].job, d)
  }

  lemma {:induction false} StillOpened(session: Session, events: seq<Event>, e: Event, i: nat, d: bytes)
    requires WasOpened(session, events, i, d)
    ensures WasOpened(session, events + [e], i, d)
  {
    hide Run;
    var k: nat :| Opens(session, events, k, i, d);
    assert (events + [e])[..k] == events[..k];
    assert Opens(session, events + [e], k, i, d);
  }

  lemma {:induction false} StillHashed(session: Session, events: seq<Event>, e: Event, n: nat, d: bytes)
    requires OpenedAndHashed(session, events, n, d)
    ensures OpenedAndHashed(session, events + [e], n, d)
  {
    hide WasOpened;
    assert (events + [e])[..n] == events[..n];
  }

  /** Past its envelope, and not refused. */
  predicate GoesOn(stage: Stage) { stage == Hashing || stage == Dispatching || (stage.Answered? && stage.outcome != Rejected) }

  /** What one event does to the frames: it moves one, or brings a new one. */
  lemma {:induction false} StepMoves(session: Session, x: Ingress, e: Event)
    requires L.Shape(x.ledger)
    ensures var y := Step(session, x, e);
            && |x.jobs| <= |y.jobs|
            && (forall j :: |x.jobs| <= j < |y.jobs| ==> y.jobs[j].stage == Opening)
            && (forall j :: 0 <= j < |x.jobs| ==> y.jobs[j].delivery == x.jobs[j].delivery)
            && (forall j :: 0 <= j < |x.jobs| && GoesOn(y.jobs[j].stage) ==> GoesOn(x.jobs[j].stage) || (e == DoOpened(j, true) && x.jobs[j].stage == Opening))
            && (forall j :: 0 <= j < |x.jobs| && x.jobs[j].stage.Answered? ==> y.jobs[j] == x.jobs[j])
            && (forall j :: 0 <= j < |x.jobs| && x.jobs[j].stage == Hashing && !(e.DoHashed? && e.job == j) ==> y.jobs[j] == x.jobs[j])
  {
    hide L.Prune, L.Reserve, L.Admit, L.Clear;
  }

  lemma {:induction false} StepHands(session: Session, x: Ingress, e: Event, d: bytes)
    requires L.Shape(x.ledger) && Handed(d) in Step(session, x, e).history && Handed(d) !in x.history
    ensures e.DoHashed? && e.job < |x.jobs| && x.jobs[e.job].stage == Hashing && x.jobs[e.job].delivery == d
  {
    hide L.Prune, L.Reserve, L.Admit, L.Clear;
  }

  lemma {:induction false} RunNext(session: Session, events: seq<Event>, e: Event)
    ensures Run(session, events + [e]) == Step(session, Run(session, events), e)
  {
    assert (events + [e])[..|events|] == events;
  }

  lemma {:induction false} GoesOnOpened(session: Session, events: seq<Event>, i: nat)
    requires i < |Run(session, events).jobs| && GoesOn(Run(session, events).jobs[i].stage)
    ensures WasOpened(session, events, i, Run(session, events).jobs[i].delivery)
  {
    if events != [] {
      var front, e := events[..|events| - 1], events[|events| - 1];
      assert events == front + [e];
      var x := Run(session, front);
      StepMoves(session, x, e);
      hide Step;
      if GoesOn(x.jobs[i].stage) {
        GoesOnOpened(session, front, i);
        StillOpened(session, front, e, i, x.jobs[i].delivery);
      } else {
        assert Opens(session, events, |front|, i, x.jobs[i].delivery);
      }
    }
  }

  /** Whatever was handed to `dispatch` came in an envelope that opened before its digest was taken. */
  lemma {:induction false} HandedWasOpened(session: Session, events: seq<Event>, d: bytes)
    requires Handed(d) in Run(session, events).history
    ensures exists n: nat :: OpenedAndHashed(session, events, n, d)
  {
    if events != [] {
      var front, e := events[..|events| - 1], events[|events| - 1];
      assert events == front + [e];
      var x := Run(session, front);
      hide Step, WasOpened;
      if Handed(d) in x.history {
        HandedWasOpened(session, front, d);
        var n: nat :| OpenedAndHashed(session, front, n, d);
        StillHashed(session, front, e, n, d);
      } else {
        StepHands(session, x, e, d);
        GoesOnOpened(session, front, e.job);
        assert OpenedAndHashed(session, events, |front|, d);
      }
    }
  }

  /** An answer is final. */
  lemma {:induction false} AnsweredForGood(session: Session, events: seq<Event>, more: seq<Event>, i: nat)
    requires i < |Run(session, events).jobs| && Run(session, events).jobs[i].stage.Answered?
    ensures i < |Run(session, events + more).jobs| && Run(session, events + more).jobs[i] == Run(session, events).jobs[i]
  {
    if more == [] {
      assert events + more == events;
    } else {
      var front, e := more[..|more| - 1], more[|more| - 1];
      AnsweredForGood(session, events, front, i);
      assert events + more == (events + front) + [e];
      RunNext(session, events + front, e);
      StepMoves(session, Run(session, events + front), e);
      hide Run, Step;
    }
  }

  /** A frame whose envelope does not open is refused for good. */
  lemma {:induction false} UnopenedIsRefused(session: Session, events: seq<Event>, more: seq<Event>, i: nat)
    requires i < |Run(session, events).jobs| && Run(session, events).jobs[i].stage == Opening
    ensures var x := Run(session, events + [DoOpened(i, false)] + more);
            i < |x.jobs| && x.jobs[i].stage == Answered(Rejected)
    ensures Run(session, events + [DoOpened(i, false)]).history == Run(session, events).history
  {
    RunNext(session, events, DoOpened(i, false));
    OpenedExact(Run(session, events), i, false);
    hide Run, Opened;
    AnsweredForGood(session, events + [DoOpened(i, false)], more, i);
  }

  lemma {:induction false} HashingStays(session: Session, events: seq<Event>, more: seq<Event>, i: nat)
    requires i < |Run(session, events).jobs| && Run(session, events).jobs[i].stage == Hashing
    requires forall e :: e in more ==> !(e.DoHashed? && e.job == i)
    ensures i < |Run(session, events + more).jobs| && Run(session, events + more).jobs[i] == Run(session, events).jobs[i]
  {
    if more == [] {
      assert events + more == events;
    } else {
      var front, e := more[..|more| - 1], more[|more| - 1];
      HashingStays(session, events, front, i);
      assert events + more == (events + front) + [e];
      RunNext(session, events + front, e);
      StepMoves(session, Run(session, events + front), e);
      hide Run, Step;
    }
  }

  /**
    A frame whose envelope opens is dispatched when its digest is taken, whatever happens in between, exactly if the ledger
    holds nothing for its delivery by then.
  */
  lemma {:induction false} OpenedIsDispatched(session: Session, events: seq<Event>, more: seq<Event>, i: nat, sendOk: bool)
    requires i < |Run(session, events).jobs| && Run(session, events).jobs[i].stage == Opening
    requires forall e :: e in more ==> !(e.DoHashed? && e.job == i)
    ensures var d := Run(session, events).jobs[i].delivery;
            var before := events + [DoOpened(i, true)] + more;
            var x, y := Run(session, before), Run(session, before + [DoHashed(i, sendOk)]);
            && i < |y.jobs| && y.jobs[i].delivery == d
            && (!HasEntry(session, x, d) ==> y.history == x.history + [Handed(d)] && y.jobs[i].stage == Dispatching)
            && (HasEntry(session, x, d) ==> y.history == x.history && y.jobs[i].stage.Answered?)
  {
    var unsealed := events + [DoOpened(i, true)];
    var before := unsealed + more;
    RunNext(session, events, DoOpened(i, true));
    OpenedExact(Run(session, events), i, true);
    assert Run(session, unsealed).jobs[i].stage == Hashing;
    HashingStays(session, unsealed, more, i);
    RunNext(session, before, DoHashed(i, sendOk));
    RunSound(session, before);
    OneEntryEach(session, Run(session, before));
    HashedExact(session, Run(session, before), i, sendOk);
    hide Run, Opened, Hashed, Sound, L.Unexpired, L.OneEach;
  }

  lemma {:induction false} OneEntryEach(session: Session, x: Ingress)
    requires Sound(session, x)
    ensures L.Shape(x.ledger) && L.OneEach(x.ledger.entries)
  {
    L.SoundShape(x.ledger);
  }

  /** An ADMIT goes out only for a delivery that was handed to `dispatch` and accepted there. */
  lemma {:induction false} AdmitIsEarned(session: Session, events: seq<Event>, delivery: bytes)
    requires delivery in Run(session, events).sent
    ensures delivery in Run(session, events).accepted && Handed(delivery) in Run(session, events).history
  {
    RunSound(session, events);
  }

  /**
    One delivery is dispatched twice only if the session was reset or ran out in between, or at least 32 other deliveries
    were dispatched in between.
  */
  lemma {:induction false} DispatchedTwice(session: Session, events: seq<Event>, a: nat, b: nat)
    requires a < b < |Run(session, events).history|
    requires Run(session, events).history[a].Handed? && Run(session, events).history[a] == Run(session, events).history[b]
    ensures var history := Run(session, events).history;
            (exists k :: a < k < b && history[k] == Over) || b - a - 1 >= L.MAX_ENTRIES
  {
    RunSound(session, events);
    NotedApart(session, Run(session, events).ledger.log, a, b);
  }

  lemma {:induction false} NotedApart(session: Session, log: seq<L.Happening>, a: nat, b: nat)
    requires Ours(session, log) && L.Separate(log, L.MAX_ENTRIES)
    requires a < b < |Project(session, log)| && Project(session, log)[a].Handed? && Project(session, log)[a] == Project(session, log)[b]
    ensures (exists k :: a < k < b && Project(session, log)[k] == Over) || b - a - 1 >= L.MAX_ENTRIES
  {
    var p := PlaceOf(session, log, a);
    var q := PlaceOf(session, log, b);
    InOrder(session, log, p, q);
    NotesBetween(session, log, p, q, a, b);
    var between := log[p + 1..q];
    NotesOf(session, between);
    Forgotten(session, log, p, q);
    hide Project, L.Separate, Ours, L.Firsts;
    if Over in Project(session, between) {
      var k :| 0 <= k < b - a - 1 && Project(session, log)[a + 1..b][k] == Over;
      assert Project(session, log)[a + 1 + k] == Over;
    }
  }

  /** What comes between two reservations of one delivery. */
  lemma {:induction false} Forgotten(session: Session, log: seq<L.Happening>, p: nat, q: nat)
    requires Ours(session, log) && L.Separate(log, L.MAX_ENTRIES) && p < q < |log|
    requires |Noted(session, log[p])| == 1 && Noted(session, log[p])[0].Handed? && Noted(session, log[p]) == Noted(session, log[q])
    ensures (exists h :: h in log[p + 1..q] && Noted(session, h) == [Over]) || L.Firsts(log[p + 1..q]) >= L.MAX_ENTRIES
  {
    assert log[p] in log && log[q] in log && log[p].key == log[q].key;
    var before := log[..q];
    assert !L.Remembered(before, p, L.MAX_ENTRIES);
    assert before[p + 1..] == log[p + 1..q] && before[p] == log[p];
    if L.Firsts(log[p + 1..q]) < L.MAX_ENTRIES {
      var j :| p < j < |before| && (before[j].Cleared? || (before[j].Pruned? && before[j].now >= before[p].expiresAt));
      assert log[p + 1..q][j - p - 1] == before[j] && Noted(session, before[j]) == [Over];
    }
  }

  lemma {:induction false} InOrder(session: Session, log: seq<L.Happening>, p: nat, q: nat)
    requires p < |log| && q < |log| && |Project(session, log[..p])| < |Project(session, log[..q])|
    ensures p < q
  {
    if q <= p {
      ProjectGrows(session, log, q, p);
    }
  }

  lemma {:induction false} ProjectGrows(session: Session, log: seq<L.Happening>, p: nat, q: nat)
    requires p <= q <= |log|
    ensures |Project(session, log[..p])| <= |Project(session, log[..q])|
  {
    ProjectSplit(session, log[..q], p);
    assert log[..q][..p] == log[..p];
  }

  lemma {:induction false} NotesBetween(session: Session, log: seq<L.Happening>, p: nat, q: nat, a: nat, b: nat)
    requires p < q < |log| && a < b < |Project(session, log)|
    requires |Project(session, log[..p])| == a && |Project(session, log[..q])| == b && |Noted(session, log[p])| == 1
    ensures Project(session, log[p + 1..q]) == Project(session, log)[a + 1..b]
  {
    hide Project, Noted;
    ProjectSplit(session, log, q);
    ProjectSplit(session, log[..q], p + 1);
    assert log[..q][..p + 1] == log[..p] + [log[p]] && log[..q][p + 1..] == log[p + 1..q];
    ProjectAppend(session, log[..p], log[p]);
    Middle(Project(session, log[..p + 1]), Project(session, log[p + 1..q]), Project(session, log[q..]));
  }

  lemma {:induction false} Middle<T>(a: seq<T>, b: seq<T>, c: seq<T>)
    ensures ((a + b) + c)[|a|..|a + b|] == b
  {
  }

  // ---------------------------------------------------------------- in place

  /** The runtime as it updates its ledger; its asynchronous calls are the jobs. */
  class RTCDataIngressRuntime {
    const session: Session
    const ledger: L.RTCAdmissionLedger
    var jobs: seq<Job>
    ghost var history: seq<Note>
    ghost var accepted: seq<bytes>
    ghost var sent: seq<bytes>

    ghost function View(): Ingress
      reads this, ledger
    {
      Ingress(ledger.View(), jobs, history, accepted, sent)
    }

    ghost predicate Valid()
      reads this, ledger
    {
      Sound(session, View())
    }

    constructor (session: Session)
      ensures Valid() && View() == Start() && this.session == session && fresh(ledger)
    {
      this.session := session;
      ledger := new L.RTCAdmissionLedger(L.MAX_ENTRIES);
      jobs, history, accepted, sent := [], [], [], [];
      new;
      RunSound(session, []);
    }

    method Receive(now: int, frame: Option<(bytes, bytes)>)
      requires Valid()
      modifies this, ledger
      ensures Valid() && View() == Received(session, old(View()), now, frame)
      ensures jobs == old(jobs) + if now < session.expiresAt && frame.Some? then [Job(frame.value.0, frame.value.1, now, Opening)] else []
      ensures ledger.entries == if now >= session.expiresAt then [] else old(ledger.entries)
      ensures history == (if now >= session.expiresAt then old(history) + [Over] else old(history)) && sent == old(sent)
    {
      ghost var before := View();
      ReceiveKeeps(session, before, now, frame);
      hide Sound, Project, L.Sound;
      assert ledger.Good() by { Ledgers(session, before); }
      if now >= session.expiresAt {
        ledger.Reset();
        history := history + [Over];
      } else if frame.Some? {
        jobs := jobs + [Job(frame.value.0, frame.value.1, now, Opening)];
      }
    }

    method EnvelopeOpened(i: nat, ok: bool)
      requires Valid() && At(View(), i, Opening)
      modifies this, ledger
      ensures Valid() && View() == Opened(old(View()), i, ok)
      ensures jobs == old(jobs)[i := old(jobs)[i].(stage := if ok then Hashing else Answered(Rejected))]
      ensures history == old(history) && accepted == old(accepted) && sent == old(sent)
      ensures if ok then L.Unexpired(ledger.entries, old(ledger.entries), old(jobs)[i].arrivedAt) else ledger.entries == old(ledger.entries)
    {
      ghost var before := View();
      assert L.Shape(before.ledger) by { SoundLedger(session, before); }
      OpenedExact(before, i, ok);
      OpenedKeeps(session, before, i, ok);
      assert ledger.Good() by { Ledgers(session, before); }
      hide Sound, L.Sound, L.Unexpired, Opened;
      Advance(i, ok);
    }

    method Advance(i: nat, ok: bool)
      requires ledger.Good() && L.Shape(ledger.View()) && At(View(), i, Opening)
      modifies this, ledger
      ensures View() == Opened(old(View()), i, ok)
    {
      hide L.Sound, L.Unexpired, L.Prune;
      if ok {
        ledger.PruneAt(jobs[i].arrivedAt);
      }
      jobs := jobs[i := jobs[i].(stage := if ok then Hashing else Answered(Rejected))];
    }

    method DigestTaken(i: nat, sendOk: bool)
      requires Valid() && At(View(), i, Hashing)
      modifies this, ledger
      ensures Valid() && View() == Hashed(session, old(View()), i, sendOk)
      ensures var d, held := old(jobs)[i].delivery, old(ledger.entries);
              && ((forall e :: e in held ==> e.key != L.Key(session.peer, 0, d)) ==>
                    jobs == old(jobs)[i := old(jobs)[i].(stage := Dispatching)] && history == old(history) + [Handed(d)] && sent == old(sent))
              && (forall e :: e in held && e.key == L.Key(session.peer, 0, d) ==>
                    && jobs == old(jobs)[i := old(jobs)[i].(stage := Answered(AnsweredBy(e, old(jobs)[i].fingerprint, sendOk)))]
                    && history == old(history) && ledger.entries == held
                    && sent == if AnsweredBy(e, old(jobs)[i].fingerprint, sendOk) == Duplicate then old(sent) + [d] else old(sent))
    {
      OneEntryEach(session, View());
      HashedExact(session, View(), i, sendOk);
      SoundLedger(session, View());
      HashedKeeps(session, View(), i, sendOk);
      assert ledger.Good() by { Ledgers(session, View()); }
      hide Sound, L.Sound, Hashed, L.OneEach;
      Decide(i, sendOk);
    }

    method Decide(i: nat, sendOk: bool)
      requires ledger.Good() && L.Shape(ledger.View()) && At(View(), i, Hashing)
      modifies this, ledger
      ensures View() == Hashed(session, old(View()), i, sendOk)
    {
      hide L.Sound, L.Reserve;
      var job := jobs[i];
      var answer := ledger.FinishReserve(KeyOf(session, job.delivery), job.fingerprint, session.expiresAt);
      jobs := jobs[i := job.(stage := StageAfter(answer, sendOk))];
      if answer == L.First {
        history := history + [Handed(job.delivery)];
      }
      if answer == L.DuplicateAdmitted && sendOk {
        sent := sent + [job.delivery];
      }
    }

    method DispatchReturned(i: nat, ok: bool, now: int, sendOk: bool)
      requires Valid() && At(View(), i, Dispatching)
      modifies this, ledger
      ensures Valid() && View() == Dispatched(session, old(View()), i, ok, now, sendOk)
      ensures var d := old(jobs)[i].delivery;
              var admits := ok && sendOk && exists e :: e in old(ledger.entries) && e.key == L.Key(session.peer, 0, d) && e.expiresAt > now;
              && jobs == old(jobs)[i := old(jobs)[i].(stage := Answered(if admits then Admitted else Rejected))]
              && sent == (if admits then old(sent) + [d] else old(sent)) && accepted == (if ok then old(accepted) + [d] else old(accepted))
              && history == if ok && now >= session.expiresAt then old(history) + [Over] else old(history)
    {
      SoundLedger(session, View());
      DispatchedExact(session, View(), i, ok, now, sendOk);
      DispatchedKeeps(session, View(), i, ok, now, sendOk);
      assert ledger.Good() by { Ledgers(session, View()); }
      hide Sound, L.Sound, Dispatched;
      Conclude(i, ok, now, sendOk);
    }

    method Conclude(i: nat, ok: bool, now: int, sendOk: bool)
      requires ledger.Good() && L.Shape(ledger.View()) && At(View(), i, Dispatching)
      modifies this, ledger
      ensures View() == Dispatched(session, old(View()), i, ok, now, sendOk)
    {
      hide L.Sound, L.Admit;
      var job := jobs[i];
      if !ok {
        jobs := jobs[i := job.(stage := Answered(Rejected))];
        return;
      }
      var admitted := ledger.AdmitAt(KeyOf(session, job.delivery), now);
      accepted := accepted + [job.delivery];
      history := if now >= session.expiresAt then history + [Over] else history;
      if admitted && sendOk {
        sent := sent + [job.delivery];
      }
      jobs := jobs[i := job.(stage := Answered(if admitted && sendOk then Admitted else Rejected))];
    }

    method Reset()
      requires Valid()
      modifies this, ledger
      ensures Valid() && View() == Stopped(old(View()))
      ensures ledger.entries == [] && history == old(history) + [Over] && jobs == old(jobs) && accepted == old(accepted) && sent == old(sent)
    {
      ghost var before := View();
      ClearKeeps(session, before);
      hide Sound, L.Sound;
      assert ledger.Good() by { Ledgers(session, before); }
      ledger.Reset();
      history := history + [Over];
    }
  }
}
