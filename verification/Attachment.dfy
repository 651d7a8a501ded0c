/**
  The outbound window of pwa/src/connectivity/attachment-transfer.ts: an asynchronous loop that keeps at most four
  chunks of a transfer outstanding, as the steps between its awaits.
*/
module AttachmentWindow {
  import opened Bytes
  import opened AttachmentGeometry

  /** outboundWindowSize */
  const WINDOW := 4

  /** Where the fill loop is: not running, waiting for a slice of the file, or waiting for a send. */
  datatype Loop = Stopped | Reading(index: nat) | Sending(index: nat)

  /**
    OutboundTransfer. `outstanding` maps delivery identifiers to chunk indices. `sent`, `lost` and `halted` are history:
    the indices handed to the transport, in order; those whose read failed; and whether such a failure ended the loop,
    which has not run since.
  */
  datatype Transfer = Transfer(
    count: nat,
    accepted: bool,
    aborted: bool,
    next: nat,
    outstanding: map<nat, nat>,
    loop: Loop,
    sent: seq<nat>,
    lost: set<nat>,
    halted: bool)

  function Opened(count: nat): Transfer { Transfer(count, false, false, 0, map[], Stopped, [], {}, false) }

  /** The condition of the loop, and the index it takes when it holds. */
  function Turn(t: Transfer): Transfer {
    if |t.outstanding| < WINDOW && t.next < t.count then t.(loop := Reading(t.next), next := t.next + 1, halted := false)
    else t.(loop := Stopped, halted := false)
  }

  /** fillWindow up to its first await; `current` says whether this is still the peer's transfer. */
  function Fill(t: Transfer, current: bool): Transfer {
    if t.loop != Stopped || !current then t else Turn(t)
  }

  /** The slice was read and the registry stored the chunk. */
  function Ready(t: Transfer, delivery: nat): Transfer
    requires t.loop.Reading?
  {
    t.(outstanding := t.outstanding[delivery := t.loop.index], loop := Sending(t.loop.index), sent := t.sent + [t.loop.index])
  }

  /** The read failed: the loop ends by exception, its index stays taken. */
  function ReadFailed(t: Transfer): Transfer
    requires t.loop.Reading?
  {
    t.(loop := Stopped, lost := t.lost + {t.loop.index}, halted := true)
  }

  /** endOutbound, for the transfer itself */
  function Ended(t: Transfer): Transfer {
    t.(outstanding := map[], aborted := true)
  }

  datatype Ending = Accepted | InvalidPayload | SendFailed | Other

  /** All transfers with one peer, in the order in which they were offered, and which is current. */
  datatype Peer = Peer(transfers: seq<Transfer>, current: Option<nat>, endings: seq<(nat, Ending)>)

  function NoTransfer(): Peer { Peer([], None, []) }

  /**
    ReadDone: the chunk has been read, and the registry stores or refuses it. ReadThrows: the read throws, or anything else
    before the chunk is outstanding. SendDone and SendThrows: the transport has the chunk, or refused it.
  */
  datatype Event =
    | Open(count: nat)
    | Decide
    | ReadDone(transfer: nat, delivery: nat, stored: bool)
    | ReadThrows(transfer: nat)
    | SendDone(transfer: nat)
    | SendThrows(transfer: nat)
    | Forwarded(delivery: nat)
    | Stop

  function Put(p: Peer, i: nat, t: Transfer): Peer
    requires i < |p.transfers|
  {
    p.(transfers := p.transfers[i := t])
  }

  predicate IsCurrent(p: Peer, i: nat) { p.current == Some(i) && i < |p.transfers| }

  /** endOutbound(peerId) ends whatever transfer is current. */
  function EndCurrent(p: Peer, ending: Ending): Peer {
    if p.current.None? || p.current.value >= |p.transfers| then p
    else
      var i := p.current.value;
      Put(p, i, Ended(p.transfers[i])).(current := None, endings := p.endings + [(i, ending)])
  }

  /** What can happen: fresh delivery identifiers, and no chunk stored for a transfer that has ended. */
  predicate Possible(p: Peer, e: Event) {
    match e
    case Open(count) => p.current.None? && count > 0
    case Decide => p.current.Some? && p.current.value < |p.transfers| && !p.transfers[p.current.value].accepted
    case ReadDone(i, delivery, stored) =>
      && i < |p.transfers| && p.transfers[i].loop.Reading?
      && (stored ==> !p.transfers[i].aborted && forall t :: t in p.transfers ==> delivery !in t.outstanding)
    case ReadThrows(i) => i < |p.transfers| && p.transfers[i].loop.Reading?
    case SendDone(i) => i < |p.transfers| && p.transfers[i].loop.Sending?
    case SendThrows(i) => i < |p.transfers| && p.transfers[i].loop.Sending?
    case Forwarded(delivery) => p.current.Some? && p.current.value < |p.transfers| && delivery in p.transfers[p.current.value].outstanding
    case Stop => p.current.Some?
  }

  function OnForwarded(p: Peer, i: nat, delivery: nat): Peer
    requires i < |p.transfers| && IsCurrent(p, i)
  {
    var t := p.transfers[i].(outstanding := p.transfers[i].outstanding - {delivery});
    if t.next >= t.count && t.outstanding == map[] then EndCurrent(Put(p, i, t), Accepted)
    else Put(p, i, Fill(t, true))
  }

  function Step(p: Peer, e: Event): Peer
    requires Possible(p, e)
  {
    match e
    case Open(count) => Peer(p.transfers + [Opened(count)], Some(|p.transfers|), p.endings)
    case Decide => Put(p, p.current.value, Fill(p.transfers[p.current.value].(accepted := true), true))
    case ReadDone(i, delivery, stored) =>
      if stored then Put(p, i, Ready(p.transfers[i], delivery))
      else EndCurrent(Put(p, i, p.transfers[i].(loop := Stopped)), InvalidPayload)
    case ReadThrows(i) => Put(p, i, ReadFailed(p.transfers[i]))
    // The loop tests its window and its index, not whether the transfer is still the peer's.
    case SendDone(i) => Put(p, i, Turn(p.transfers[i]))
    case SendThrows(i) => EndCurrent(Put(p, i, p.transfers[i].(loop := Stopped)), SendFailed)
    case Forwarded(delivery) => OnForwarded(p, p.current.value, delivery)
    case Stop => EndCurrent(p, Other)
  }

  function Run(events: seq<Event>): Peer {
    if events == [] then NoTransfer()
    else
      var p := Run(events[..|events| - 1]);
      if Possible(p, events[|events| - 1]) then Step(p, events[|events| - 1]) else p
  }

  // ---------------------------------------------------------------- what every step keeps

  predicate Increasing(s: seq<nat>) {
    forall i, j :: 0 <= i < j < |s| ==> s[i] < s[j]
  }

  /** Each index below `next` was handed to the transport, is being read, was lost, or was refused after the end. */
  predicate Sound(t: Transfer) {
    && t.next <= t.count
    && |t.outstanding| <= WINDOW
    && (t.loop.Reading? ==> |t.outstanding| < WINDOW && t.loop.index + 1 == t.next)
    && Increasing(t.sent)
    && (forall k :: 0 <= k < |t.sent| ==> t.sent[k] < t.next && (t.loop.Reading? ==> t.sent[k] < t.loop.index))
    && (forall d :: d in t.outstanding ==> t.outstanding[d] in t.sent)
    && (forall i :: i in t.lost ==> i < t.next && i !in t.sent && t.loop != Reading(i))
    && (!t.aborted ==> forall i :: 0 <= i < t.next ==> i in t.sent || i in t.lost || t.loop == Reading(i))
    && (!t.accepted ==> t.next == 0 && t.loop == Stopped)
    && (t.halted ==> t.accepted && t.loop == Stopped && |t.outstanding| < WINDOW)
  }

  /** There is room in the window and there are chunks left, but nothing is filling it. */
  predicate Stalled(t: Transfer) {
    t.accepted && !t.aborted && t.loop == Stopped && |t.outstanding| < WINDOW && t.next < t.count
  }

  /** A live transfer stalls exactly if a failed read ended its loop before the last chunk, and the loop has not run since. */
  predicate Moving(t: Transfer) {
    !t.aborted ==> (Stalled(t) <==> t.halted && t.next < t.count)
  }

  ghost predicate Invariant(p: Peer) {
    && (p.current.Some? ==> p.current.value < |p.transfers|)
    && (forall i :: 0 <= i < |p.transfers| ==> Sound(p.transfers[i]) && Moving(p.transfers[i]))
    && (forall i :: 0 <= i < |p.transfers| ==> (p.transfers[i].aborted <==> p.current != Some(i)))
  }

  lemma {:induction false} TurnSound(t: Transfer)
    requires Sound(t) && !t.loop.Reading? && t.accepted
    ensures Sound(Turn(t)) && Moving(Turn(t)) && Turn(t).aborted == t.aborted
  {
  }

  lemma {:induction false} FillSound(t: Transfer)
    requires Sound(t) && t.accepted
    ensures Sound(Fill(t, true)) && Moving(Fill(t, true)) && Fill(t, true).aborted == t.aborted
  {
    if t.loop == Stopped {
      TurnSound(t);
    }
  }

  lemma {:induction false} ReadySize(t: Transfer, delivery: nat)
    requires t.loop.Reading? && |t.outstanding| < WINDOW && delivery !in t.outstanding
    ensures |Ready(t, delivery).outstanding| <= WINDOW
  {
    assert Ready(t, delivery).outstanding.Keys == t.outstanding.Keys + {delivery};
  }

  lemma {:induction false} ReadySent(t: Transfer, delivery: nat)
    requires Sound(t) && t.loop.Reading?
    ensures var t' := Ready(t, delivery);
            && (forall i :: i in t'.sent <==> i in t.sent || i == t.loop.index)
            && Increasing(t'.sent) && (forall k :: 0 <= k < |t'.sent| ==> t'.sent[k] < t'.next)
  {
    var t' := Ready(t, delivery);
    assert t'.sent[|t.sent|] == t.loop.index;
  }

  lemma {:induction false} ReadySound(t: Transfer, delivery: nat)
    requires Sound(t) && t.loop.Reading? && delivery !in t.outstanding
    ensures Sound(Ready(t, delivery)) && Moving(Ready(t, delivery))
  {
    ReadySize(t, delivery);
    ReadySent(t, delivery);
    var t' := Ready(t, delivery);
    forall d | d in t'.outstanding ensures t'.outstanding[d] in t'.sent {
      if d != delivery {
        assert t.outstanding[d] in t.sent;
      }
    }
  }

  lemma {:induction false} ReadFailedSound(t: Transfer)
    requires Sound(t) && t.loop.Reading?
    ensures Sound(ReadFailed(t)) && Moving(ReadFailed(t))
  {
    assert t.loop.index in ReadFailed(t).lost;
  }

  lemma {:induction false} EndedSound(t: Transfer)
    requires Sound(t)
    ensures Sound(Ended(t)) && Moving(Ended(t)) && Ended(t).aborted
    ensures Sound(Ended(t).(loop := Stopped)) && Moving(Ended(t).(loop := Stopped))
  {
  }

  lemma {:induction false} StoppedAfterEnd(t: Transfer)
    requires Sound(t) && t.aborted
    ensures Sound(t.(loop := Stopped)) && Moving(t.(loop := Stopped))
  {
  }

  lemma {:induction false} TakenOff(t: Transfer, delivery: nat)
    requires Sound(t) && delivery in t.outstanding
    ensures Sound(t.(outstanding := t.outstanding - {delivery}))
  {
    assert (t.outstanding - {delivery}).Keys == t.outstanding.Keys - {delivery};
    assert |t.outstanding - {delivery}| <= |t.outstanding|;
  }

  lemma {:induction false} PutInvariant(p: Peer, i: nat, t: Transfer)
    requires Invariant(p) && i < |p.transfers| && Sound(t) && Moving(t) && t.aborted == p.transfers[i].aborted
    ensures Invariant(Put(p, i, t))
  {
  }

  /** Ending the current transfer, whose loop may just have stopped. */
  lemma {:induction false} EndInvariant(p: Peer, ending: Ending)
    requires p.current.Some? ==> p.current.value < |p.transfers|
    requires forall i :: 0 <= i < |p.transfers| && p.current != Some(i) ==> Sound(p.transfers[i]) && Moving(p.transfers[i]) && p.transfers[i].aborted
    requires forall i :: 0 <= i < |p.transfers| && p.current == Some(i) ==> Sound(Ended(p.transfers[i])) && Moving(Ended(p.transfers[i]))
    ensures Invariant(EndCurrent(p, ending))
  {
  }

  lemma {:induction false} StopLoopInvariant(p: Peer, i: nat, ending: Ending)
    requires Invariant(p) && i < |p.transfers|
    ensures Invariant(EndCurrent(Put(p, i, p.transfers[i].(loop := Stopped)), ending))
  {
    forall k | 0 <= k < |p.transfers| ensures Sound(Ended(p.transfers[k])) && Moving(Ended(p.transfers[k])) {
      EndedSound(p.transfers[k]);
    }
    EndedSound(p.transfers[i]);
    if p.current != Some(i) {
      StoppedAfterEnd(p.transfers[i]);
    }
    EndInvariant(Put(p, i, p.transfers[i].(loop := Stopped)), ending);
  }

  lemma {:induction false} AcknowledgedAccepted(t: Transfer, delivery: nat)
    requires Sound(t) && delivery in t.outstanding
    ensures t.accepted
  {
    assert t.outstanding[delivery] in t.sent;
  }

  lemma {:induction false} EndAsInvariant(p: Peer, i: nat, t: Transfer, ending: Ending)
    requires Invariant(p) && IsCurrent(p, i) && Sound(Ended(t)) && Moving(Ended(t))
    ensures Invariant(EndCurrent(Put(p, i, t), ending))
  {
    hide Sound, Moving;
  }

  lemma {:induction false} ForwardedInvariant(p: Peer, delivery: nat)
    requires Invariant(p) && Possible(p, Forwarded(delivery))
    ensures Invariant(Step(p, Forwarded(delivery)))
  {
    hide Sound, Moving;
    var i := p.current.value;
    var t := p.transfers[i].(outstanding := p.transfers[i].outstanding - {delivery});
    TakenOff(p.transfers[i], delivery);
    AcknowledgedAccepted(p.transfers[i], delivery);
    EndedSound(t);
    FillSound(t);
    EndAsInvariant(p, i, t, Accepted);
    PutInvariant(p, i, Fill(t, true));
    hide Invariant, Fill, EndCurrent, Ended, Put;
  }

  lemma {:induction false} OpenInvariant(p: Peer, count: nat)
    requires Invariant(p) && Possible(p, Open(count))
    ensures Invariant(Step(p, Open(count)))
  {
  }

  lemma {:induction false} StepInvariant(p: Peer, e: Event)
    requires Invariant(p) && Possible(p, e)
    ensures Invariant(Step(p, e))
  {
    hide Sound, Moving;
    match e
    case Open(count) => OpenInvariant(p, count);
    case Decide => DecideInvariant(p);
    case ReadDone(i, delivery, stored) =>
      if stored {
        ReadySound(p.transfers[i], delivery);
        PutInvariant(p, i, Ready(p.transfers[i], delivery));
      } else {
        StopLoopInvariant(p, i, InvalidPayload);
      }
    case ReadThrows(i) =>
      ReadFailedSound(p.transfers[i]);
      PutInvariant(p, i, ReadFailed(p.transfers[i]));
    case SendDone(i) =>
      LoopAccepted(p.transfers[i]);
      TurnSound(p.transfers[i]);
      PutInvariant(p, i, Turn(p.transfers[i]));
    case SendThrows(i) => StopLoopInvariant(p, i, SendFailed);
    case Forwarded(delivery) => ForwardedInvariant(p, delivery);
    case Stop => StopInvariant(p);
  }

  lemma {:induction false} LoopAccepted(t: Transfer)
    requires Sound(t) && t.loop != Stopped
    ensures t.accepted
  {
  }

  lemma {:induction false} DecideInvariant(p: Peer)
    requires Invariant(p) && Possible(p, Decide)
    ensures Invariant(Step(p, Decide))
  {
    var t := p.transfers[p.current.value].(accepted := true);
    FillSound(t);
    PutInvariant(p, p.current.value, Fill(t, true));
  }

  lemma {:induction false} StopInvariant(p: Peer)
    requires Invariant(p)
    ensures Invariant(EndCurrent(p, Other))
  {
    forall k | 0 <= k < |p.transfers| ensures Sound(Ended(p.transfers[k])) && Moving(Ended(p.transfers[k])) {
      EndedSound(p.transfers[k]);
    }
    EndInvariant(p, Other);
  }

  lemma {:induction false} RunInvariant(events: seq<Event>)
    ensures Invariant(Run(events))
  {
    if events != [] {
      var p := Run(events[..|events| - 1]);
      RunInvariant(events[..|events| - 1]);
      if Possible(p, events[|events| - 1]) {
        StepInvariant(p, events[|events| - 1]);
      }
    }
  }

  // ---------------------------------------------------------------- the promises

  /** At most four chunks are outstanding, and indices are handed to the transport in order, each once. */
  lemma {:induction false} WindowHolds(events: seq<Event>, i: nat)
    requires i < |Run(events).transfers|
    ensures var t := Run(events).transfers[i];
            && |t.outstanding| <= WINDOW
            && (forall a, b :: 0 <= a < b < |t.sent| ==> t.sent[a] < t.sent[b] < t.count)
            && (forall d :: d in t.outstanding ==> t.outstanding[d] in t.sent)
  {
    RunInvariant(events);
    assert Sound(Run(events).transfers[i]);
  }

  /**
    The loop of transfer i was ended by a failed read and no chunk of the transfer has been acknowledged since.
  */
  predicate Halted(events: seq<Event>, i: nat) {
    if events == [] then false
    else
      var front, e := events[..|events| - 1], events[|events| - 1];
      if !Possible(Run(front), e) then Halted(front, i)
      else if e == ReadThrows(i) then true
      else if e.Forwarded? && Run(front).current == Some(i) then false
      else Halted(front, i)
  }

  lemma {:induction false} StepHalted(p: Peer, e: Event, i: nat)
    requires Invariant(p) && Possible(p, e) && IsCurrent(Step(p, e), i)
    ensures i < |p.transfers| ==> IsCurrent(p, i)
    ensures Step(p, e).transfers[i].halted
         <==> e == ReadThrows(i) || (!(e.Forwarded? && p.current == Some(i)) && i < |p.transfers| && p.transfers[i].halted)
  {
    if i < |p.transfers| {
      HaltedLoop(p.transfers[i]);
    }
    hide Invariant, Sound, Moving;
    match e
    case Forwarded(delivery) => ForwardedHalted(p, delivery, i);
    case _ =>
  }

  lemma {:induction false} HaltedLoop(t: Transfer)
    requires Sound(t)
    ensures t.halted ==> t.accepted && t.loop == Stopped
  {
  }

  lemma {:induction false} ForwardedHalted(p: Peer, delivery: nat, i: nat)
    requires Possible(p, Forwarded(delivery)) && IsCurrent(Step(p, Forwarded(delivery)), i)
    requires i < |p.transfers| && p.transfers[i].halted ==> p.transfers[i].loop == Stopped
    ensures IsCurrent(p, i) && !Step(p, Forwarded(delivery)).transfers[i].halted
  {
  }

  lemma {:induction false} NotOpenedYet(events: seq<Event>, i: nat)
    requires i >= |Run(events).transfers|
    ensures !Halted(events, i)
  {
    if events != [] {
      NotOpenedYet(events[..|events| - 1], i);
    }
  }

  lemma {:induction false} HaltedIs(events: seq<Event>, i: nat)
    requires IsCurrent(Run(events), i)
    ensures Run(events).transfers[i].halted <==> Halted(events, i)
  {
    if events != [] {
      var front, e := events[..|events| - 1], events[|events| - 1];
      if Possible(Run(front), e) {
        RunInvariant(front);
        StepHalted(Run(front), e, i);
        if i < |Run(front).transfers| {
          HaltedIs(front, i);
        } else {
          NotOpenedYet(front, i);
        }
      } else {
        HaltedIs(front, i);
      }
    }
  }

  /**
    When a live transfer that was accepted stalls: exactly if the loop's last step was a failed read of a chunk that is
    not the last, and no acknowledgement has come since. In every other case its loop is running, four chunks are
    outstanding, or every index has been taken.
  */
  lemma {:induction false} NeverStalls(events: seq<Event>, i: nat)
    requires IsCurrent(Run(events), i) && Run(events).transfers[i].accepted
    ensures var t := Run(events).transfers[i];
            t.loop != Stopped || |t.outstanding| == WINDOW || t.next == t.count <==> !(Halted(events, i) && t.next < t.count)
  {
    RunInvariant(events);
    HaltedIs(events, i);
    assert Sound(Run(events).transfers[i]) && Moving(Run(events).transfers[i]);
  }

  lemma {:induction false} StalledStep(p: Peer, e: Event, i: nat)
    requires Invariant(p) && Possible(p, e) && i < |p.transfers| && IsCurrent(Step(p, e), i)
    ensures IsCurrent(p, i)
    ensures Stalled(p.transfers[i]) && p.transfers[i].outstanding == map[] ==> Step(p, e).transfers[i] == p.transfers[i]
  {
  }

  lemma {:induction false} NoneForgotten(events: seq<Event>, more: seq<Event>)
    ensures |Run(events).transfers| <= |Run(events + more).transfers|
  {
    if more == [] {
      assert events + more == events;
    } else {
      NoneForgotten(events, more[..|more| - 1]);
      assert (events + more)[..|events + more| - 1] == events + more[..|more| - 1];
    }
  }

  /** A stalled transfer with nothing outstanding stays as it is until it is ended. */
  lemma {:induction false} StalledForGood(events: seq<Event>, more: seq<Event>, i: nat)
    requires i < |Run(events).transfers| && Stalled(Run(events).transfers[i]) && Run(events).transfers[i].outstanding == map[]
    requires IsCurrent(Run(events + more), i)
    ensures Run(events + more).transfers[i] == Run(events).transfers[i]
  {
    if more == [] {
      assert events + more == events;
    } else {
      var before, e := events + more[..|more| - 1], more[|more| - 1];
      assert (events + more)[..|events + more| - 1] == before && (events + more)[|events + more| - 1] == e;
      NoneForgotten(events, more[..|more| - 1]);
      if Possible(Run(before), e) {
        RunInvariant(before);
        StalledStep(Run(before), e, i);
      }
      StalledForGood(events, more[..|more| - 1], i);
    }
  }

  /** The transfer ends as accepted with this acknowledgement. */
  predicate EndsAccepted(p: Peer, i: nat, delivery: nat) {
    && IsCurrent(p, i) && delivery in p.transfers[i].outstanding
    && p.transfers[i].next >= p.transfers[i].count && p.transfers[i].outstanding - {delivery} == map[]
  }

  /** When a transfer ends as accepted, every chunk was sent if and only if its loop is not still reading one and no read failed. */
  lemma {:induction false} AcceptedExact(events: seq<Event>, i: nat, delivery: nat)
    requires EndsAccepted(Run(events), i, delivery)
    ensures var p := Run(events);
            var t := p.transfers[i];
            && Step(p, Forwarded(delivery)).endings == p.endings + [(i, Accepted)]
            && ((forall k :: 0 <= k < t.count ==> k in t.sent) <==> !t.loop.Reading? && t.lost == {})
  {
    RunInvariant(events);
    var t := Run(events).transfers[i];
    assert Sound(t);
    if t.loop.Reading? {
      assert t.loop.index < t.count && t.loop.index !in t.sent;
    }
    if k :| k in t.lost {
      assert k < t.count && k !in t.sent;
    }
  }

  lemma {:induction false} AtLeastPlace(s: seq<nat>, k: nat)
    requires Increasing(s) && k < |s|
    ensures s[k] >= k
  {
    if k > 0 {
      AtLeastPlace(s, k - 1);
    }
  }

  lemma {:induction false} AtPlace(s: seq<nat>, n: nat, k: nat)
    requires Increasing(s) && k < n && forall i :: 0 <= i < n ==> i in s
    ensures k < |s| && s[k] == k
  {
    assert k in s;
    var j :| 0 <= j < |s| && s[j] == k;
    AtLeastPlace(s, j);
    if k > 0 {
      AtPlace(s, n, k - 1);
      Ordered(s, j, k - 1);
    }
  }

  lemma {:induction false} Ordered(s: seq<nat>, a: nat, b: nat)
    requires Increasing(s) && a < |s| && b < |s|
    ensures a <= b ==> s[a] <= s[b]
  {
  }

  /** An increasing sequence of all indices below n is the count from 0. */
  lemma {:induction false} AllInOrder(s: seq<nat>, n: nat)
    requires Increasing(s) && (forall k :: 0 <= k < |s| ==> s[k] < n) && forall i :: 0 <= i < n ==> i in s
    ensures |s| == n && forall k :: 0 <= k < n ==> s[k] == k
  {
    forall k | 0 <= k < n ensures k < |s| && s[k] == k {
      AtPlace(s, n, k);
    }
    if |s| > 0 {
      AtLeastPlace(s, |s| - 1);
    }
    if n > 0 {
      AtPlace(s, n, n - 1);
    }
  }

  function Payloads(file: bytes, chunkBytes: nat, sent: seq<nat>): seq<bytes> {
    seq(|sent|, k requires 0 <= k < |sent| => Slice(file, chunkBytes, sent[k]))
  }

  /**
    In that case what was sent is the file: each chunk passes the receiver's geometry check and they join to it. The
    transfer's count is that of its manifest.
  */
  lemma {:induction false} AcceptedCarriesFile(events: seq<Event>, i: nat, delivery: nat, m: Manifest, file: bytes)
    requires EndsAccepted(Run(events), i, delivery) && !Run(events).transfers[i].loop.Reading? && Run(events).transfers[i].lost == {}
    requires ValidManifest(m) && |file| == m.byteCount && Run(events).transfers[i].count == m.chunkCount
    ensures var chunks := Payloads(file, m.chunkBytes, Run(events).transfers[i].sent);
            && |chunks| == m.chunkCount && JoinedChunks(chunks) == file
            && forall k :: 0 <= k < |chunks| ==> ChunkFits(m, k, chunks[k])
  {
    var t := Run(events).transfers[i];
    RunInvariant(events);
    assert Sound(t);
    AcceptedExact(events, i, delivery);
    AllInOrder(t.sent, t.count);
    var chunks := Payloads(file, m.chunkBytes, t.sent);
    forall k | 0 <= k < |chunks| ensures ChunkFits(m, k, chunks[k]) {
      SliceFits(m, file, k);
    }
    ReassemblyExact(m, file, chunks);
  }

  // ---------------------------------------------------------------- what the code does not promise

  /** Two chunks; the acknowledgement of the first arrives while the second is still being read. */
  function Early(): seq<Event> {
    [Open(2), Decide, ReadDone(0, 7, true), SendDone(0), Forwarded(7)]
  }

  lemma {:induction false} RunStep(events: seq<Event>, k: nat)
    requires k < |events| && Possible(Run(events[..k]), events[k])
    ensures Run(events[..k + 1]) == Step(Run(events[..k]), events[k])
  {
    assert events[..k + 1][..k] == events[..k];
  }

  function Two(accepted: bool, next: nat, outstanding: map<nat, nat>, loop: Loop, sent: seq<nat>): Transfer {
    Transfer(2, accepted, false, next, outstanding, loop, sent, {}, false)
  }

  lemma {:induction false} FirstOpened()
    ensures Possible(Peer([], None, []), Open(2)) && Step(Peer([], None, []), Open(2)) == Peer([Two(false, 0, map[], Stopped, [])], Some(0), [])
    ensures Possible(Peer([Two(false, 0, map[], Stopped, [])], Some(0), []), Decide)
    ensures Step(Peer([Two(false, 0, map[], Stopped, [])], Some(0), []), Decide) == Peer([Two(true, 1, map[], Reading(0), [])], Some(0), [])
  {
  }

  lemma {:induction false} FirstReady(p: Peer)
    requires p == Peer([Two(true, 1, map[], Reading(0), [])], Some(0), [])
    ensures Possible(p, ReadDone(0, 7, true))
    ensures Step(p, ReadDone(0, 7, true)) == Peer([Two(true, 1, map[7 := 0], Sending(0), [0])], Some(0), [])
  {
    assert Ready(p.transfers[0], 7) == Two(true, 1, map[7 := 0], Sending(0), [0]);
    assert p.transfers[0 := Two(true, 1, map[7 := 0], Sending(0), [0])] == [Two(true, 1, map[7 := 0], Sending(0), [0])];
  }

  /** A transfer can end as accepted with a chunk that was never handed to the transport. */
  lemma {:induction false} AcceptedTooEarly()
    ensures Run(Early()) == Peer([Two(true, 2, map[], Reading(1), [0]).(aborted := true)], None, [(0, Accepted)])
  {
    var e := Early();
    assert e[..0] == [] && Run([]) == Peer([], None, []);
    hide Run, Step;
    FirstOpened();
    RunStep(e, 0);
    RunStep(e, 1);
    FirstReady(Run(e[..2]));
    RunStep(e, 2);
    SecondTurn(Run(e[..3]));
    RunStep(e, 3);
    FirstForwarded(Run(e[..4]));
    RunStep(e, 4);
    assert e[..5] == e;
  }

  lemma {:induction false} SecondTurn(p: Peer)
    requires p == Peer([Two(true, 1, map[7 := 0], Sending(0), [0])], Some(0), [])
    ensures Possible(p, SendDone(0))
    ensures Step(p, SendDone(0)) == Peer([Two(true, 2, map[7 := 0], Reading(1), [0])], Some(0), [])
  {
    assert |map[7 := 0]| == 1;
    assert p.transfers[0 := Two(true, 2, map[7 := 0], Reading(1), [0])] == [Two(true, 2, map[7 := 0], Reading(1), [0])];
  }

  lemma {:induction false} FirstForwarded(p: Peer)
    requires p == Peer([Two(true, 2, map[7 := 0], Reading(1), [0])], Some(0), [])
    ensures Possible(p, Forwarded(7))
    ensures Step(p, Forwarded(7)) == Peer([Two(true, 2, map[], Reading(1), [0]).(aborted := true)], None, [(0, Accepted)])
  {
    assert map[7 := 0] - {7} == map[];
  }

  /** The loop of that transfer then ends the next one, which did nothing wrong. */
  lemma {:induction false} StaleLoopEndsNext(count: nat)
    requires count > 0
    ensures var events := Early() + [Open(count), ReadDone(0, 8, false)];
            Run(events).current == None && Run(events).endings == [(0, Accepted), (1, InvalidPayload)]
  {
    var e := Early() + [Open(count), ReadDone(0, 8, false)];
    AcceptedTooEarly();
    assert e[..5] == Early();
    RunStep(e, 5);
    RunStep(e, 6);
    assert e[..7] == e;
  }

  /** Reading the first of two chunks fails: the transfer is live and accepted, and nothing will ever fill its window. */
  lemma {:induction false} FailedReadStalls()
    ensures var p := Run([Open(2), Decide, ReadThrows(0)]);
            && p.current == Some(0) && p.transfers == [Two(true, 1, map[], Stopped, []).(lost := {0}, halted := true)]
            && Stalled(p.transfers[0])
  {
    var e := [Open(2), Decide, ReadThrows(0)];
    assert e[..0] == [] && Run([]) == Peer([], None, []);
    FirstOpened();
    RunStep(e, 0);
    RunStep(e, 1);
    RunStep(e, 2);
    assert e[..3] == e;
  }

  // ---------------------------------------------------------------- what ends a transfer

  /** How the current transfer ends at an event, if it does. */
  function EndingOf(p: Peer, e: Event): Option<Ending>
    requires p.current.Some? && p.current.value < |p.transfers|
  {
    var t := p.transfers[p.current.value];
    match e
    case ReadDone(_, _, stored) => if stored then None else Some(InvalidPayload)
    case SendThrows(_) => Some(SendFailed)
    case Stop => Some(Other)
    case Forwarded(delivery) => if t.next >= t.count && t.outstanding - {delivery} == map[] then Some(Accepted) else None
    case _ => None
  }

  /**
    In any run: a chunk that is not stored, a send that throws, the last acknowledgement and a stop end whatever transfer is
    current, with that reason, and nothing else ends one or puts another in its place.
  */
  lemma {:induction false} EndsBecause(events: seq<Event>, e: Event)
    requires Possible(Run(events), e)
    ensures var p, q := Run(events), Step(Run(events), e);
            if p.current.None? then e != Stop && q.endings == p.endings && (q.current.Some? <==> e.Open?) && (e.Open? ==> q.current.value == |p.transfers|)
            else
              && Possible(p, Stop)
              && p.current.value < |p.transfers|
              && match EndingOf(p, e)
                 case None => q.endings == p.endings && q.current == p.current
                 case Some(ending) =>
                   && q.endings == p.endings + [(p.current.value, ending)] && q.current == None
                   && q.transfers[p.current.value].aborted && q.transfers[p.current.value].outstanding == map[]
  {
    RunInvariant(events);
    hide Run, Turn;
  }

  // ---------------------------------------------------------------- in place

  /** OutboundTransfer with the steps of its fill loop; the file and the transport are the caller's. */
  class OutboundTransfer {
    const count: nat
    var accepted: bool
    var aborted: bool
    var nextChunkIndex: nat
    var outstanding: map<nat, nat>
    var loop: Loop
    ghost var sent: seq<nat>
    ghost var lost: set<nat>
    ghost var halted: bool

    ghost function View(): Transfer
      reads this
    {
      Transfer(count, accepted, aborted, nextChunkIndex, outstanding, loop, sent, lost, halted)
    }

    ghost predicate Valid()
      reads this
    {
      Sound(View()) && Moving(View())
    }

    constructor (count: nat)
      ensures Valid() && View() == Opened(count)
    {
      this.count := count;
      accepted, aborted, nextChunkIndex, outstanding, loop := false, false, 0, map[], Stopped;
      sent, lost, halted := [], {}, false;
    }

    /** Only the loop and the next index may have changed. */
    static ghost predicate Untouched(t: Transfer, t': Transfer) {
      && t'.count == t.count && t'.accepted == t.accepted && t'.aborted == t.aborted
      && t'.outstanding == t.outstanding && t'.sent == t.sent && t'.lost == t.lost
    }

    /** The condition of the loop, tested on the way in and after each send. */
    method TakeTurn() returns (index: Option<nat>)
      requires Sound(View()) && accepted && !loop.Reading?
      modifies this
      ensures Valid() && View() == Turn(old(View()))
      ensures index == (if |outstanding| < 4 && old(nextChunkIndex) < count then Some(old(nextChunkIndex)) else None)
      ensures nextChunkIndex == old(nextChunkIndex) + (if index.Some? then 1 else 0) && loop == (if index.Some? then Reading(index.value) else Stopped)
      ensures Untouched(old(View()), View())
    {
      TurnSound(View());
      halted := false;
      if |outstanding| < WINDOW && nextChunkIndex < count {
        index := Some(nextChunkIndex);
        nextChunkIndex := nextChunkIndex + 1;
        loop := Reading(index.value);
      } else {
        loop := Stopped;
        index := None;
      }
    }

    /** The index that the loop starts to read, if it starts. */
    method FillWindow() returns (index: Option<nat>)
      requires Sound(View()) && accepted
      modifies this
      ensures Valid() && View() == Fill(old(View()), true) && !Stalled(View())
      ensures index == (if old(loop) == Stopped && |outstanding| < 4 && old(nextChunkIndex) < count then Some(old(nextChunkIndex)) else None)
      ensures nextChunkIndex == old(nextChunkIndex) + if index.Some? then 1 else 0
      ensures loop == if index.Some? then Reading(index.value) else old(loop)
      ensures Untouched(old(View()), View())
    {
      FillSound(View());
      if loop != Stopped {
        return None;
      }
      index := TakeTurn();
    }

    /** The peer accepts the manifest. */
    method Accept() returns (index: Option<nat>)
      requires Valid() && !accepted
      modifies this
      ensures Valid() && View() == Fill(old(View()).(accepted := true), true)
      ensures accepted && Untouched(old(View()).(accepted := true), View())
      ensures index == (if old(loop) == Stopped && |outstanding| < 4 && old(nextChunkIndex) < count then Some(old(nextChunkIndex)) else None)
      ensures nextChunkIndex == old(nextChunkIndex) + if index.Some? then 1 else 0
      ensures loop == if index.Some? then Reading(index.value) else old(loop)
    {
      accepted := true;
      index := FillWindow();
    }

    method ChunkReady(delivery: nat)
      requires Valid() && loop.Reading? && delivery !in outstanding
      modifies this
      ensures Valid() && View() == Ready(old(View()), delivery)
      ensures loop == Sending(old(loop).index) && sent == old(sent) + [old(loop).index] && outstanding == old(outstanding)[delivery := old(loop).index]
      ensures unchanged(`accepted, `aborted, `nextChunkIndex, `lost, `halted)
    {
      ReadySound(View(), delivery);
      var index := loop.index;
      outstanding := outstanding[delivery := index];
      sent := sent + [index];
      loop := Sending(index);
    }

    method ReadFails()
      requires Valid() && loop.Reading?
      modifies this
      ensures Valid() && View() == ReadFailed(old(View()))
      ensures loop == Stopped && halted && lost == old(lost) + {old(loop).index}
      ensures unchanged(`accepted, `aborted, `nextChunkIndex, `outstanding, `sent)
    {
      ReadFailedSound(View());
      lost, halted := lost + {loop.index}, true;
      loop := Stopped;
    }

    method ChunkSent() returns (index: Option<nat>)
      requires Valid() && loop.Sending?
      modifies this
      ensures Valid() && View() == Turn(old(View()))
      ensures index == (if |outstanding| < 4 && old(nextChunkIndex) < count then Some(old(nextChunkIndex)) else None)
      ensures nextChunkIndex == old(nextChunkIndex) + (if index.Some? then 1 else 0) && loop == (if index.Some? then Reading(index.value) else Stopped)
      ensures Untouched(old(View()), View())
    {
      LoopAccepted(View());
      index := TakeTurn();
    }

    method End()
      requires Sound(View())
      modifies this
      ensures Valid() && View() == Ended(old(View()))
      ensures aborted && outstanding == map[] && unchanged(`accepted, `nextChunkIndex, `loop, `sent, `lost, `halted)
    {
      EndedSound(View());
      outstanding, aborted := map[], true;
    }

    method Acknowledge(delivery: nat)
      requires Sound(View()) && delivery in outstanding
      modifies this`outstanding
      ensures View() == old(View()).(outstanding := old(outstanding) - {delivery}) && Sound(View()) && accepted
    {
      hide Sound;
      AcknowledgedAccepted(View(), delivery);
      TakenOff(View(), delivery);
      outstanding := outstanding - {delivery};
    }

    /** Whether the acknowledgement was for a chunk of this transfer, and whether it ends it. */
    method OnForwarded(delivery: nat) returns (known: bool, done: bool, index: Option<nat>)
      requires Valid()
      modifies this
      ensures Valid()
      ensures known <==> delivery in old(outstanding)
      ensures done <==> known && old(nextChunkIndex) >= count && old(outstanding) - {delivery} == map[]
      ensures View() ==
              if !known then old(View())
              else if done then Ended(old(View()))
              else Fill(old(View()).(outstanding := old(outstanding) - {delivery}), true)
      ensures done ==> aborted && outstanding == map[] && unchanged(`nextChunkIndex, `loop, `sent, `lost)
      ensures known && !done ==> Untouched(old(View()).(outstanding := old(outstanding) - {delivery}), View())
      ensures known && !done ==>
                index == (if old(loop) == Stopped && |outstanding| < 4 && old(nextChunkIndex) < count then Some(old(nextChunkIndex)) else None)
                && nextChunkIndex == old(nextChunkIndex) + (if index.Some? then 1 else 0) && loop == if index.Some? then Reading(index.value) else old(loop)
    {
      hide Sound, Moving, Fill;
      if delivery !in outstanding {
        return false, false, None;
      }
      Acknowledge(delivery);
      if nextChunkIndex >= count && |outstanding| == 0 {
        End();
        return true, true, None;
      }
      index := FillWindow();
      return true, false, index;
    }
  }
}
