/**
  When the outbox runtime of pwa/src/connectivity/message-outbox-runtime.ts runs: one timer, one run at a time with two
  awaits in it, and one delivery that the drain waits for. What a run decides is in Outbox; here only whether it sends,
  and which way: seal-and-send.ts tries the direct channel first and the relay only if there is none.
*/
module OutboxRuns {
  import opened Bytes

  /** Where the last run is: over, saving where the delivery belongs, or sealing and sending it. */
  datatype Phase = Idle | Saving(delivery: nat) | Sealing(delivery: nat)

  /** What became of a send: it failed, the direct channel took it, or the relay has it. */
  datatype Sending = Failed | Direct | Relayed

  /**
    `open`: the page is visible and the session attached. `active` is activeDeliveryId. As history: the deliveries that were
    handed to the relay and are tracked, those that the direct sender still waits for, and the next fresh identifier.
  */
  datatype Runtime = Runtime(open: bool, stopped: bool, timer: bool, phase: Phase, active: Option<nat>,
                             inFlight: set<nat>, direct: set<nat>, next: nat)

  /** `start` arms the timer at once. */
  function Started(open: bool): Runtime { Runtime(open, false, true, Idle, None, {}, {}, 0) }

  /** `Admitted` and `FellBack` are the two ends of a direct attempt, `Forwarded` and `Timeout` those of a tracked one. */
  datatype Event =
    | Change
    | Opens
    | Closes
    | Fires(send: bool)
    | Saved(ok: bool)
    | Sealed(how: Sending)
    | Admitted(delivery: nat)
    | FellBack(delivery: nat)
    | Forwarded(delivery: nat)
    | Timeout(delivery: nat)
    | Pong
    | Stop

  predicate Possible(s: Runtime, e: Event) {
    match e
    case Fires(_) => s.timer
    case Saved(_) => s.phase.Saving?
    case Sealed(_) => s.phase.Sealing?
    case Admitted(delivery) => delivery in s.direct
    case FellBack(delivery) => delivery in s.direct
    case Forwarded(delivery) => delivery in s.inFlight
    case Timeout(delivery) => delivery in s.inFlight
    case _ => true
  }

  /** schedule, with whatever delay */
  function Schedule(s: Runtime): Runtime { if s.stopped then s else s.(timer := true) }

  /** stopActiveDrain, and what else ends the wait for one delivery */
  function Release(s: Runtime, delivery: nat): Runtime {
    if s.stopped || s.active != Some(delivery) then s else Schedule(s.(active := None))
  }

  /** The end of a run. Only a send over the relay is tracked, and so only that one has a time limit. */
  function Send(s: Runtime, delivery: nat, how: Sending): Runtime {
    match how
    case Failed => Release(s, delivery)
    case Direct => s.(direct := s.direct + {delivery})
    case Relayed => s.(inFlight := s.inFlight + {delivery})
  }

  function Step(s: Runtime, e: Event): Runtime
    requires Possible(s, e)
  {
    match e
    case Change => Schedule(s)
    case Opens => Schedule(s.(open := true))
    case Closes => s.(open := false)
    // `run`: a run that is under way, a delivery that is waited for or a closed gate make it return with no timer armed.
    case Fires(send) =>
      if s.phase != Idle || s.active.Some? || !s.open then s.(timer := false)
      else if !send then s
      // Storing the attempt changes the outbox, which arms the timer again.
      else s.(active := Some(s.next), phase := Saving(s.next), next := s.next + 1)
    case Saved(ok) => if ok then s.(phase := Sealing(s.phase.delivery)) else Release(s.(phase := Idle), s.phase.delivery)
    case Sealed(how) => Send(s.(phase := Idle), s.phase.delivery, how)
    // RTCDirectSender forgets the attempt, and nobody tells the outbox.
    case Admitted(delivery) => s.(direct := s.direct - {delivery})
    case FellBack(delivery) => s.(direct := s.direct - {delivery}, inFlight := s.inFlight + {delivery})
    case Forwarded(delivery) => Release(s.(inFlight := s.inFlight - {delivery}), delivery)
    case Timeout(delivery) => Release(s.(inFlight := s.inFlight - {delivery}), delivery)
    // The envelope at the relay is abandoned. Neither the run that is sealing one nor the direct sender is asked.
    case Pong =>
      if s.stopped || !s.open || s.active.None? then s
      else Release(s.(inFlight := s.inFlight - {s.active.value}), s.active.value)
    case Stop => s.(stopped := true, active := None, timer := false)
  }

  /** What possible events lead to; the others do nothing. */
  function From(s: Runtime, events: seq<Event>): Runtime {
    if events == [] then s
    else
      var t := From(s, events[..|events| - 1]);
      if Possible(t, events[|events| - 1]) then Step(t, events[|events| - 1]) else t
  }

  /** The delivery is with the relay or with the direct sender, and has a time limit. */
  predicate Outstanding(s: Runtime, d: nat) { d in s.inFlight || d in s.direct }

  // ---------------------------------------------------------------- the promises and the guards

  /**
    Two promises. The runtime never falls asleep: if it could send, a timer is armed, a run is under way, or something will
    still answer the delivery it waits for. And it sends one envelope at a time.
  */
  datatype Promise = StaysAwake | SendsOne

  predicate Keeps(p: Promise, s: Runtime) {
    match p
    case StaysAwake =>
      !s.stopped && s.open ==> s.timer || s.phase != Idle || (s.active.Some? && Outstanding(s, s.active.value))
    case SendsOne => |s.inFlight| <= 1
  }

  /**
    What endangers a promise. Either: a pong while a run is under way. The first: an ADMIT for the delivery that is waited
    for. The second: a pong while the direct sender has that delivery.
  */
  predicate Breaks(p: Promise, s: Runtime, e: Event) {
    && !s.stopped
    && match e
       case Pong => s.open && s.active.Some? && (s.phase != Idle || (p.SendsOne? && s.active.value in s.direct))
       case Admitted(delivery) => p.StaysAwake? && s.active == Some(delivery)
       case _ => false
  }

  predicate GuardedFrom(p: Promise, s: Runtime, events: seq<Event>) {
    events == [] ||
    (var t := From(s, events[..|events| - 1]);
     GuardedFrom(p, s, events[..|events| - 1]) && !Breaks(p, t, events[|events| - 1]))
  }

  /** A busy run works on a new delivery, the one that is waited for; no delivery is in two places. */
  ghost predicate Sound(s: Runtime) {
    && (s.phase != Idle ==>
          && s.phase.delivery < s.next
          && !Outstanding(s, s.phase.delivery)
          && (!s.stopped ==> s.active == Some(s.phase.delivery)))
    && (forall d :: d in s.inFlight || d in s.direct ==> d < s.next)
    && (forall d :: d in s.inFlight ==> d !in s.direct)
    && (s.stopped ==> s.active.None? && !s.timer)
  }

  /** Whatever is waited for will be answered, and while nothing is, a timer is armed. */
  predicate Answered(s: Runtime) {
    && (s.active.Some? && s.phase == Idle ==> Outstanding(s, s.active.value))
    && (!s.stopped && s.open && s.active.None? ==> s.timer)
  }

  /** Nothing is outstanding but what is waited for, and nothing at all while a run is busy. */
  ghost predicate Single(s: Runtime) {
    && (forall d :: d in s.inFlight || d in s.direct ==> s.phase == Idle && (s.stopped || s.active == Some(d)))
    && (forall d: nat, e: nat :: Outstanding(s, d) && Outstanding(s, e) ==> d == e)
  }

  ghost predicate Invariant(p: Promise, s: Runtime) { Sound(s) && if p.StaysAwake? then Answered(s) else Single(s) }

  lemma {:induction false} AtMostOne(a: set<nat>)
    ensures |a| <= 1 <==> forall d, e :: d in a && e in a ==> d == e
  {
    if |a| > 1 {
      var d :| d in a;
      assert a == {d} + (a - {d});
      var e :| e in a - {d};
    }
    forall d, e | |a| <= 1 && d in a && e in a ensures d == e {
      assert {d, e} <= a;
      assert |a - {d, e}| == |a| - |{d, e}|;
    }
  }

  lemma {:induction false} SoundStep(p: Promise, s: Runtime, e: Event)
    requires Sound(s) && Possible(s, e) && !Breaks(p, s, e)
    ensures Sound(Step(s, e))
  {
  }

  lemma {:induction false} AnsweredStep(s: Runtime, e: Event)
    requires Sound(s) && Answered(s) && Possible(s, e) && !Breaks(StaysAwake, s, e)
    ensures Answered(Step(s, e))
  {
  }

  /** What is outstanding afterwards was outstanding before, or is the delivery of the run that just ended. */
  lemma {:induction false} SingleStep(s: Runtime, e: Event)
    requires Sound(s) && Single(s) && Possible(s, e) && !Breaks(SendsOne, s, e)
    ensures Single(Step(s, e))
  {
    var t := Step(s, e);
    forall d: nat | Outstanding(t, d) ensures if e.Sealed? then d == s.phase.delivery else Outstanding(s, d) {}
  }

  lemma {:induction false} InvariantKeeps(p: Promise, s: Runtime)
    requires Invariant(p, s)
    ensures Keeps(p, s)
  {
    AtMostOne(s.inFlight);
    assert forall d :: d in s.inFlight ==> Outstanding(s, d);
  }

  lemma {:induction false} InvariantFrom(p: Promise, s: Runtime, events: seq<Event>)
    requires Invariant(p, s) && GuardedFrom(p, s, events)
    ensures Invariant(p, From(s, events))
  {
    hide Sound, Answered, Single, Breaks, Step;
    if events != [] {
      var front, e := events[..|events| - 1], events[|events| - 1];
      InvariantFrom(p, s, front);
      var t := From(s, front);
      if Possible(t, e) {
        SoundStep(p, t, e);
        if p.StaysAwake? {
          AnsweredStep(t, e);
        } else {
          SingleStep(t, e);
        }
      }
    }
  }

  /** Within the guard of a promise, every run of the runtime keeps it. */
  lemma {:induction false} DrainsOneByOne(p: Promise, open: bool, events: seq<Event>)
    requires GuardedFrom(p, Started(open), events)
    ensures Keeps(p, From(Started(open), events))
  {
    InvariantFrom(p, Started(open), events);
    InvariantKeeps(p, From(Started(open), events));
  }

  // ---------------------------------------------------------------- when a send begins and a wait ends

  /** What ends the wait for a delivery, short of Stop. */
  predicate EndsWait(s: Runtime, e: Event, d: nat) {
    match e
    case Saved(ok) => !ok && s.phase == Saving(d)
    case Sealed(how) => how == Failed && s.phase == Sealing(d)
    case Forwarded(delivery) => delivery == d
    case Timeout(delivery) => delivery == d
    case Pong => s.open
    case _ => false
  }

  lemma {:induction false} StoppedIsQuiet(open: bool, events: seq<Event>)
    ensures var s := From(Started(open), events); s.stopped ==> s.active.None? && !s.timer
  {
    if events != [] {
      StoppedIsQuiet(open, events[..|events| - 1]);
    }
  }

  /**
    In any run: a send begins exactly when the timer fires with something to send, no run under way, nothing waited for and
    the gate open; a wait ends in one of six ways; and the timer is armed exactly by a change, an opening, the end of a
    wait, or because it was and did not go off in vain.
  */
  lemma {:induction false} BeginsAndEnds(open: bool, events: seq<Event>, e: Event)
    requires Possible(From(Started(open), events), e)
    ensures var s, t := From(Started(open), events), Step(From(Started(open), events), e);
            && (t.phase.Saving? && t.phase != s.phase <==> e == Fires(true) && s.phase == Idle && s.active.None? && s.open)
            && (t.active.Some? && t.active != s.active ==> t.active == Some(s.next) && t.phase == Saving(s.next) && t.next == s.next + 1)
            && (s.active.Some? ==> (t.active.None? <==> e == Stop || EndsWait(s, e, s.active.value)))
            && (t.timer <==> !s.stopped && (e == Change || e == Opens || (s.active.Some? && EndsWait(s, e, s.active.value))
                                            || (s.timer && e != Stop && !(e.Fires? && (s.phase != Idle || s.active.Some? || !s.open)))))
  {
    StoppedIsQuiet(open, events);
    hide From;
  }

  // ---------------------------------------------------------------- the guards are exact

  lemma {:induction false} Next(p: Promise, s: Runtime, events: seq<Event>, e: Event)
    requires GuardedFrom(p, s, events) && Possible(From(s, events), e) && !e.Pong? && !e.Admitted?
    ensures GuardedFrom(p, s, events + [e]) && From(s, events + [e]) == Step(From(s, events), e)
  {
    assert (events + [e])[..|events|] == events;
  }

  /** The run under way comes to its end: the relay has its envelope. */
  lemma {:induction false} Finishes(p: Promise, s: Runtime, events: seq<Event>) returns (more: seq<Event>)
    requires GuardedFrom(p, s, events) && From(s, events).phase != Idle
    ensures GuardedFrom(p, s, more)
    ensures var t := From(s, events); From(s, more) == t.(phase := Idle, inFlight := t.inFlight + {t.phase.delivery})
  {
    more := events;
    if From(s, events).phase.Saving? {
      Next(p, s, more, Saved(true));
      more := more + [Saved(true)];
    }
    Next(p, s, more, Sealed(Relayed));
    more := more + [Sealed(Relayed)];
  }

  /** The timer goes off while a run is busy or a delivery is waited for, and nothing arms it again. */
  lemma {:induction false} FallsAsleep(s: Runtime, e: Event) returns (more: seq<Event>)
    requires Sound(s) && Possible(s, e) && Breaks(StaysAwake, s, e)
    ensures GuardedFrom(StaysAwake, Step(s, e), more) && !Keeps(StaysAwake, From(Step(s, e), more))
  {
    var t := Step(s, e);
    Next(StaysAwake, t, [], Opens);
    Next(StaysAwake, t, [] + [Opens], Fires(false));
    more := [] + [Opens] + [Fires(false)];
    if t.phase != Idle {
      more := Finishes(StaysAwake, t, more);
    }
  }

  /** A new run sends another delivery, whatever else is outstanding. */
  lemma {:induction false} SendsAnother(t: Runtime, events: seq<Event>) returns (more: seq<Event>)
    requires GuardedFrom(SendsOne, t, events)
    requires var s := From(t, events); s.open && s.timer && s.phase == Idle && s.active.None?
    ensures GuardedFrom(SendsOne, t, more)
    ensures var s, u := From(t, events), From(t, more); u.inFlight == s.inFlight + {s.next} && u.direct == s.direct
  {
    Next(SendsOne, t, events, Fires(true));
    more := Finishes(SendsOne, t, events + [Fires(true)]);
  }

  /** The run that the pong interrupted ends, or the attempt it left alone falls back; and there is another envelope. */
  lemma {:induction false} SendsTwo(s: Runtime, e: Event) returns (more: seq<Event>)
    requires Sound(s) && Possible(s, e) && Breaks(SendsOne, s, e)
    ensures GuardedFrom(SendsOne, Step(s, e), more) && !Keeps(SendsOne, From(Step(s, e), more))
  {
    var t := Step(s, e);
    var prior := s.active.value;
    if s.phase != Idle {
      more := Finishes(SendsOne, t, []);
      more := SendsAnother(t, more);
    } else {
      more := SendsAnother(t, []);
      Next(SendsOne, t, more, FellBack(prior));
      more := more + [FellBack(prior)];
    }
    AtMostOne(From(t, more).inFlight);
    assert prior in From(t, more).inFlight && s.next in From(t, more).inFlight;
  }

  /**
    Each guard is exact. After a run within the guard of a promise, an event does not break the guard if and only if the
    promise is kept from then on, however the runtime goes on within the guard.
  */
  lemma {:induction false} PongIsExact(p: Promise, open: bool, events: seq<Event>, e: Event)
    requires GuardedFrom(p, Started(open), events) && Possible(From(Started(open), events), e)
    ensures var s := From(Started(open), events);
            !Breaks(p, s, e) <==> forall more :: GuardedFrom(p, Step(s, e), more) ==> Keeps(p, From(Step(s, e), more))
  {
    var s := From(Started(open), events);
    InvariantFrom(p, Started(open), events);
    hide Sound, Answered, Single, Step, Keeps, Breaks;
    var t := Step(s, e);
    if Breaks(p, s, e) {
      if p.StaysAwake? {
        var asleep := FallsAsleep(s, e);
      } else {
        var two := SendsTwo(s, e);
      }
    } else {
      SoundStep(p, s, e);
      if p.StaysAwake? {
        AnsweredStep(s, e);
      } else {
        SingleStep(s, e);
      }
      forall more | GuardedFrom(p, t, more) ensures Keeps(p, From(t, more)) {
        InvariantFrom(p, t, more);
        InvariantKeeps(p, From(t, more));
      }
    }
  }

  // ---------------------------------------------------------------- after an ADMIT

  /** Either stopped, or waiting for a delivery that nothing will answer. */
  predicate Stalled(s: Runtime) {
    s.phase == Idle && (s.stopped || (s.active.Some? && !Outstanding(s, s.active.value)))
  }

  lemma {:induction false} StalledFrom(s: Runtime, more: seq<Event>)
    requires Sound(s) && Stalled(s) && Pong !in more
    ensures Sound(From(s, more)) && Stalled(From(s, more)) && From(s, more).next == s.next
  {
    if more != [] {
      var front, e := more[..|more| - 1], more[|more| - 1];
      StalledFrom(s, front);
      if Possible(From(s, front), e) {
        SoundStep(StaysAwake, From(s, front), e);
      }
    }
  }

  /**
    An ADMIT for the delivery that is waited for stops the drain: after any run within the guard, whatever happens and
    however often the timer goes off, the outbox sends nothing until there is a pong.
  */
  lemma {:induction false} AdmitStalls(open: bool, events: seq<Event>, delivery: nat, more: seq<Event>)
    requires GuardedFrom(StaysAwake, Started(open), events)
    requires Possible(From(Started(open), events), Admitted(delivery))
    requires From(Started(open), events).active == Some(delivery) && Pong !in more
    ensures var s := From(Started(open), events); From(Step(s, Admitted(delivery)), more).next == s.next
  {
    InvariantFrom(StaysAwake, Started(open), events);
    var t := Step(From(Started(open), events), Admitted(delivery));
    StalledFrom(t, more);
  }

  // ---------------------------------------------------------------- runs outside the guards

  lemma {:induction false} Nothing(s: Runtime)
    ensures From(s, []) == s
  {
  }

  lemma {:induction false} Ends(s: Runtime, events: seq<Event>, k: nat)
    requires k < |events|
    ensures var t := From(s, events[..k]);
            From(s, events[..k + 1]) == if Possible(t, events[k]) then Step(t, events[k]) else t
  {
    assert events[..k + 1][..k] == events[..k];
  }

  lemma {:induction false} EndsTwo(s: Runtime, events: seq<Event>, k: nat)
    requires k + 1 < |events|
    ensures var t := From(s, events[..k]);
            Possible(t, events[k]) && Possible(Step(t, events[k]), events[k + 1]) ==>
              From(s, events[..k + 2]) == Step(Step(t, events[k]), events[k + 1])
  {
    hide From, Step, Possible;
    Ends(s, events, k);
    Ends(s, events, k + 1);
  }

  /** A run that falls asleep: a pong and then the timer come while the first envelope is being saved. */
  lemma {:induction false} PongPutsToSleep()
    ensures var s := From(Started(true), [Fires(true), Pong, Fires(false), Saved(true), Sealed(Relayed)]);
            !Keeps(StaysAwake, s) && s.inFlight == {0}
  {
    hide From;
    var s, e := Started(true), [Fires(true), Pong, Fires(false), Saved(true), Sealed(Relayed)];
    Nothing(s);
    EndsTwo(s, e, 0);
    assert e[..0] == [] && From(s, e[..2]) == Runtime(true, false, true, Saving(0), None, {}, {}, 1);
    EndsTwo(s, e, 2);
    assert From(s, e[..4]) == Runtime(true, false, false, Sealing(0), None, {}, {}, 1);
    Ends(s, e, 4);
    assert e[..5] == e;
  }

  /** Another: the peer has admitted the first delivery, and the timer is spent on finding that it is still waited for. */
  lemma {:induction false} AdmitPutsToSleep()
    ensures var s := From(Started(true), [Fires(true), Saved(true), Sealed(Direct), Admitted(0), Fires(false)]);
            !Keeps(StaysAwake, s) && s.active == Some(0) && s.inFlight == {} && s.direct == {}
  {
    hide From;
    var s, e := Started(true), [Fires(true), Saved(true), Sealed(Direct), Admitted(0), Fires(false)];
    Nothing(s);
    EndsTwo(s, e, 0);
    assert e[..0] == [] && From(s, e[..2]) == Runtime(true, false, true, Sealing(0), Some(0), {}, {}, 1);
    EndsTwo(s, e, 2);
    assert From(s, e[..4]) == Runtime(true, false, true, Idle, Some(0), {}, {}, 1);
    Ends(s, e, 4);
    assert e[..5] == e;
  }

  /** Two envelopes: a pong does not recall the direct attempt, which falls back when another delivery is with the relay. */
  lemma {:induction false} PongSendsTwo()
    ensures var e := [Fires(true), Saved(true), Sealed(Direct), Pong, Fires(true), Saved(true), Sealed(Relayed), FellBack(0)];
            From(Started(true), e).inFlight == {0, 1} && !Keeps(SendsOne, From(Started(true), e))
  {
    hide From;
    var s := Started(true);
    var e := [Fires(true), Saved(true), Sealed(Direct), Pong, Fires(true), Saved(true), Sealed(Relayed), FellBack(0)];
    Nothing(s);
    EndsTwo(s, e, 0);
    assert e[..0] == [] && From(s, e[..2]) == Runtime(true, false, true, Sealing(0), Some(0), {}, {}, 1);
    EndsTwo(s, e, 2);
    assert From(s, e[..4]) == Runtime(true, false, true, Idle, None, {}, {0}, 1);
    EndsTwo(s, e, 4);
    assert From(s, e[..6]) == Runtime(true, false, true, Sealing(1), Some(1), {}, {0}, 2);
    EndsTwo(s, e, 6);
    assert e[..8] == e;
  }
}
