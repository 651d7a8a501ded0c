/**
  The worker pool that probes candidate relays (internal/relay/wss/discovered_federation.go, probeFederatedPeer),
  as the interleaved steps of its dispatcher, its workers and its two channels.
*/
module FederationProbe {
  /** maxConcurrentFederationProbes */
  const MAX_PROBES := 3

  /** A worker waits for a job, probes a candidate, holds a result it has yet to send, or has ended. */
  datatype Worker = Idle | Probing(candidate: nat) | Holding(candidate: nat, ok: bool) | Ended

  datatype Result = Result(candidate: nat, ok: bool)

  /** Where the dispatcher is: the first fill, a receive, a refill, or waiting for the workers after closing `jobs`. */
  datatype Dispatcher = Filling | Receiving | Refilling | Waiting(found: bool, winner: nat) | Returned(found: bool, winner: nat)

  /**
    `jobs` is unbuffered, so handing over a job is one step of dispatcher and worker together; it is closed when the
    dispatcher is Waiting. `settled` is the history of results received; `cancelled` is the caller's context.
  */
  datatype Pool = Pool(
    size: nat,
    workers: seq<Worker>,
    results: seq<Result>,
    next: nat,
    inflight: nat,
    dispatcher: Dispatcher,
    cancelled: bool,
    settled: seq<Result>)

  /** min(maxConcurrentFederationProbes, len(eligible)) */
  function Workers(size: nat): nat {
    if size < MAX_PROBES then size else MAX_PROBES
  }

  function Start(size: nat): Pool
    requires size > 0
  {
    Pool(size, seq(Workers(size), _ => Idle), [], 0, 0, Filling, false, [])
  }

  datatype Step =
    | Hand(worker: nat)
    | EndFill
    | Finish(worker: nat, ok: bool)
    | Send(worker: nat)
    | Receive
    | EndReceive
    | Quit(worker: nat)
    | Return
    | Cancel

  predicate Enabled(p: Pool, s: Step) {
    match s
    case Hand(k) =>
      && k < |p.workers| && p.workers[k].Idle?
      && ((p.dispatcher.Filling? && p.next < p.size && p.inflight < Workers(p.size)) || p.dispatcher.Refilling?)
    case EndFill => p.dispatcher.Filling? && !(p.next < p.size && p.inflight < Workers(p.size))
    case Finish(k, _) => k < |p.workers| && p.workers[k].Probing?
    // The buffer of `results` holds one result for each worker.
    case Send(k) => k < |p.workers| && p.workers[k].Holding? && |p.results| < Workers(p.size)
    case Receive => p.dispatcher.Receiving? && p.inflight > 0 && p.results != []
    case EndReceive => p.dispatcher.Receiving? && p.inflight == 0
    case Quit(k) => k < |p.workers| && p.workers[k].Idle? && p.dispatcher.Waiting?
    case Return => p.dispatcher.Waiting? && forall k :: 0 <= k < |p.workers| ==> p.workers[k].Ended?
    case Cancel => !p.cancelled
  }

  function Do(p: Pool, s: Step): Pool
    requires Enabled(p, s)
  {
    match s
    case Hand(k) =>
      p.(workers := p.workers[k := Probing(p.next)], next := p.next + 1, inflight := p.inflight + 1,
         dispatcher := if p.dispatcher.Refilling? then Receiving else Filling)
    case EndFill => p.(dispatcher := Receiving)
    case Finish(k, ok) => p.(workers := p.workers[k := Holding(p.workers[k].candidate, ok)])
    case Send(k) =>
      p.(workers := p.workers[k := Idle], results := p.results + [Result(p.workers[k].candidate, p.workers[k].ok)])
    case Receive =>
      var r := p.results[0];
      p.(results := p.results[1..], inflight := p.inflight - 1, settled := p.settled + [r],
         dispatcher :=
           if r.ok && !p.cancelled then Waiting(true, r.candidate)
           else if p.next < p.size && !p.cancelled then Refilling
           else Receiving)
    case EndReceive => p.(dispatcher := Waiting(false, 0))
    case Quit(k) => p.(workers := p.workers[k := Ended])
    case Return => p.(dispatcher := Returned(p.dispatcher.found, p.dispatcher.winner))
    case Cancel => p.(cancelled := true)
  }

  /** A run takes enabled steps, whatever the scheduler and the probes do. */
  ghost predicate Runs(p: Pool, steps: seq<Step>, q: Pool)
    decreases |steps|
  {
    if steps == [] then p == q else Enabled(p, steps[0]) && Runs(Do(p, steps[0]), steps[1..], q)
  }

  // ---------------------------------------------------------------- what every step keeps

  predicate Busy(w: Worker) { w.Probing? || w.Holding? }

  function CountBusy(workers: seq<Worker>): nat {
    if workers == [] then 0 else CountBusy(workers[..|workers| - 1]) + (if Busy(workers[|workers| - 1]) then 1 else 0)
  }

  lemma {:induction false} CountUpdate(workers: seq<Worker>, k: nat, w: Worker)
    requires k < |workers|
    ensures CountBusy(workers[k := w]) + (if Busy(workers[k]) then 1 else 0) == CountBusy(workers) + (if Busy(w) then 1 else 0)
  {
    var n := |workers| - 1;
    if k == n {
      assert workers[k := w][..n] == workers[..n];
    } else {
      CountUpdate(workers[..n], k, w);
      assert workers[k := w][..n] == workers[..n][k := w];
    }
  }

  lemma {:induction false} CountBounds(workers: seq<Worker>)
    ensures CountBusy(workers) <= |workers|
    ensures CountBusy(workers) == |workers| <==> forall k :: 0 <= k < |workers| ==> Busy(workers[k])
    ensures CountBusy(workers) == 0 <==> forall k :: 0 <= k < |workers| ==> !Busy(workers[k])
  {
    if workers != [] {
      var n := |workers| - 1;
      CountBounds(workers[..n]);
      assert forall k :: 0 <= k < n ==> workers[k] == workers[..n][k];
    }
  }

  /** How many workers, or results, are for candidate i. */
  function With(workers: seq<Worker>, i: nat): nat {
    if workers == [] then 0 else With(workers[..|workers| - 1], i) + Holds(workers[|workers| - 1], i)
  }

  function Holds(w: Worker, i: nat): nat { if Busy(w) && w.candidate == i then 1 else 0 }

  function Among(results: seq<Result>, i: nat): nat {
    if results == [] then 0 else Among(results[..|results| - 1], i) + (if results[|results| - 1].candidate == i then 1 else 0)
  }

  /** The places that candidate i has: with a worker, in the result buffer, or settled. */
  function Places(p: Pool, i: nat): nat {
    With(p.workers, i) + Among(p.results, i) + Among(p.settled, i)
  }

  /** The candidates handed out so far each have one place. */
  ghost predicate Conserved(p: Pool) {
    forall i :: 0 <= i ==> Places(p, i) == if i < p.next then 1 else 0
  }

  predicate Sane(p: Pool) {
    && 0 < p.size
    && |p.workers| == Workers(p.size)
    && p.next <= p.size
    && p.inflight == CountBusy(p.workers) + |p.results| <= Workers(p.size)
  }

  predicate Stage(p: Pool) {
    match p.dispatcher
    case Filling => p.settled == [] && p.inflight == p.next
    case Receiving => p.inflight > 0 || p.next == p.size || p.cancelled
    case Refilling => p.next < p.size && p.inflight < Workers(p.size)
    case Waiting(found, _) => !found ==> p.inflight == 0 && (p.next == p.size || p.cancelled)
    case Returned(found, _) => !found ==> p.inflight == 0 && (p.next == p.size || p.cancelled)
  }

  /** While the dispatcher works no worker ends, and a winner was probed with success. */
  predicate Honest(p: Pool) {
    && (!p.dispatcher.Waiting? && !p.dispatcher.Returned? ==> forall k :: 0 <= k < |p.workers| ==> !p.workers[k].Ended?)
    && (p.dispatcher.Waiting? && p.dispatcher.found ==> Result(p.dispatcher.winner, true) in p.settled)
    && (p.dispatcher.Returned? && p.dispatcher.found ==> Result(p.dispatcher.winner, true) in p.settled)
    && (!(p.dispatcher.Waiting? && p.dispatcher.found) && !(p.dispatcher.Returned? && p.dispatcher.found) && !p.cancelled ==>
          forall k :: 0 <= k < |p.settled| ==> !p.settled[k].ok)
  }

  ghost predicate Invariant(p: Pool) {
    Sane(p) && Stage(p) && Honest(p) && Conserved(p)
  }

  lemma {:induction false} WithUpdate(workers: seq<Worker>, k: nat, w: Worker, i: nat)
    requires k < |workers|
    ensures With(workers[k := w], i) + Holds(workers[k], i) == With(workers, i) + Holds(w, i)
  {
    var n := |workers| - 1;
    if k == n {
      assert workers[k := w][..n] == workers[..n];
    } else {
      WithUpdate(workers[..n], k, w, i);
      assert workers[k := w][..n] == workers[..n][k := w];
    }
  }

  lemma {:induction false} AmongAppend(results: seq<Result>, r: Result, i: nat)
    ensures Among(results + [r], i) == Among(results, i) + (if r.candidate == i then 1 else 0)
  {
    assert (results + [r])[..|results|] == results;
  }

  lemma {:induction false} AmongHead(results: seq<Result>, i: nat)
    requires results != []
    ensures Among(results, i) == Among(results[1..], i) + (if results[0].candidate == i then 1 else 0)
  {
    var n := |results| - 1;
    if n > 0 {
      AmongHead(results[..n], i);
      assert results[1..][..n - 1] == results[..n][1..];
    } else {
      assert results[..n] == [] && results[1..] == [];
    }
  }

  lemma {:induction false} AmongMember(results: seq<Result>, i: nat)
    ensures Among(results, i) > 0 <==> exists k :: 0 <= k < |results| && results[k].candidate == i
  {
    if results != [] {
      var n := |results| - 1;
      AmongMember(results[..n], i);
      assert forall k :: 0 <= k < n ==> results[k] == results[..n][k];
    }
  }

  lemma {:induction false} IdleStart(n: nat, i: nat)
    ensures CountBusy(seq(n, _ => Idle)) == 0 && With(seq(n, _ => Idle), i) == 0
  {
    if n > 0 {
      IdleStart(n - 1, i);
      assert seq(n, _ => Idle)[..n - 1] == seq(n - 1, _ => Idle);
    }
  }

  lemma {:induction false} StartInvariant(size: nat)
    requires size > 0
    ensures Invariant(Start(size))
  {
    forall i | 0 <= i ensures Places(Start(size), i) == 0 {
      IdleStart(Workers(size), i);
    }
    IdleStart(Workers(size), 0);
  }

  lemma {:induction false} StepSane(p: Pool, s: Step)
    requires Sane(p) && Stage(p) && Enabled(p, s)
    ensures Sane(Do(p, s))
  {
    match s
    case Hand(k) => CountUpdate(p.workers, k, Probing(p.next));
    case Finish(k, ok) => CountUpdate(p.workers, k, Holding(p.workers[k].candidate, ok));
    case Send(k) => CountUpdate(p.workers, k, Idle);
    case Quit(k) => CountUpdate(p.workers, k, Ended);
    case _ =>
  }

  lemma {:induction false} StepStage(p: Pool, s: Step)
    requires Sane(p) && Stage(p) && Enabled(p, s)
    ensures Stage(Do(p, s))
  {
  }

  lemma {:induction false} StepHonest(p: Pool, s: Step)
    requires Honest(p) && Enabled(p, s)
    ensures Honest(Do(p, s))
  {
    if s.Receive? {
      var q := Do(p, s);
      assert q.settled[|p.settled|] == p.results[0];
    }
  }

  lemma {:induction false} StepPlaces(p: Pool, s: Step, i: nat)
    requires Enabled(p, s)
    ensures Places(Do(p, s), i) == Places(p, i) + (if s.Hand? && i == p.next then 1 else 0)
  {
    match s
    case Hand(k) => WithUpdate(p.workers, k, Probing(p.next), i);
    case Finish(k, ok) => WithUpdate(p.workers, k, Holding(p.workers[k].candidate, ok), i);
    case Send(k) =>
      WithUpdate(p.workers, k, Idle, i);
      AmongAppend(p.results, Result(p.workers[k].candidate, p.workers[k].ok), i);
    case Quit(k) => WithUpdate(p.workers, k, Ended, i);
    case Receive =>
      AmongHead(p.results, i);
      AmongAppend(p.settled, p.results[0], i);
    case _ =>
  }

  lemma {:induction false} StepConserved(p: Pool, s: Step)
    requires Enabled(p, s) && Conserved(p)
    ensures Conserved(Do(p, s))
  {
    forall i | 0 <= i ensures Places(Do(p, s), i) == if i < Do(p, s).next then 1 else 0 {
      StepPlaces(p, s, i);
    }
  }

  lemma {:induction false} StepInvariant(p: Pool, s: Step)
    requires Invariant(p) && Enabled(p, s)
    ensures Invariant(Do(p, s))
  {
    StepSane(p, s);
    StepStage(p, s);
    StepHonest(p, s);
    StepConserved(p, s);
  }

  /** Every reachable state, for any number of candidates and any schedule. */
  lemma {:induction false} RunInvariant(p: Pool, steps: seq<Step>, q: Pool)
    requires Invariant(p) && Runs(p, steps, q)
    ensures Invariant(q)
    decreases |steps|
  {
    if steps != [] {
      StepInvariant(p, steps[0]);
      RunInvariant(Do(p, steps[0]), steps[1..], q);
    }
  }

  // ---------------------------------------------------------------- the promises

  /** At most three probes run at once. */
  lemma {:induction false} AtMostThree(size: nat, steps: seq<Step>, q: Pool)
    requires size > 0 && Runs(Start(size), steps, q)
    ensures CountBusy(q.workers) <= q.inflight <= 3
  {
    StartInvariant(size);
    RunInvariant(Start(size), steps, q);
  }

  /** Each candidate has at most one place, so it is probed at most once: a job that is handed out had none before. */
  lemma {:induction false} ProbedOnce(size: nat, steps: seq<Step>, q: Pool, i: nat)
    requires size > 0 && Runs(Start(size), steps, q)
    ensures Places(q, i) == if i < q.next then 1 else 0
  {
    StartInvariant(size);
    RunInvariant(Start(size), steps, q);
  }

  /** A worker with a result never waits for room in the buffer, even after the dispatcher has stopped receiving. */
  lemma {:induction false} SendNeverBlocks(size: nat, steps: seq<Step>, q: Pool, k: nat)
    requires size > 0 && Runs(Start(size), steps, q)
    requires k < |q.workers| && q.workers[k].Holding?
    ensures Enabled(q, Send(k))
  {
    StartInvariant(size);
    RunInvariant(Start(size), steps, q);
    CountBounds(q.workers);
  }

  /** Until it returns some step other than the caller's cancellation can be taken. */
  lemma {:induction false} NoDeadlock(size: nat, steps: seq<Step>, q: Pool)
    requires size > 0 && Runs(Start(size), steps, q) && !q.dispatcher.Returned?
    ensures exists s :: s != Cancel && Enabled(q, s)
  {
    StartInvariant(size);
    RunInvariant(Start(size), steps, q);
    CountBounds(q.workers);
    if k :| 0 <= k < |q.workers| && q.workers[k].Probing? {
      assert Enabled(q, Finish(k, false));
    } else if k :| 0 <= k < |q.workers| && q.workers[k].Holding? {
      assert Enabled(q, Send(k));
    } else {
      assert CountBusy(q.workers) == 0;
      match q.dispatcher
      case Filling =>
        if q.next < q.size && q.inflight < Workers(q.size) {
          assert Enabled(q, Hand(0));
        } else {
          assert Enabled(q, EndFill);
        }
      case Receiving => assert Enabled(q, if q.inflight > 0 then Receive else EndReceive);
      case Refilling => assert Enabled(q, Hand(0));
      case Waiting(_, _) =>
        if k :| 0 <= k < |q.workers| && !q.workers[k].Ended? {
          assert Enabled(q, Quit(k));
        } else {
          assert Enabled(q, Return);
        }
    }
  }

  /** The work that is left. */
  function Work(w: Worker): nat {
    match w
    case Probing(_) => 5
    case Holding(_, _) => 4
    case Idle => 1
    case Ended => 0
  }

  function WorkLeft(workers: seq<Worker>): nat {
    if workers == [] then 0 else WorkLeft(workers[..|workers| - 1]) + Work(workers[|workers| - 1])
  }

  function DispatchLeft(d: Dispatcher): nat {
    match d
    case Filling => 4
    case Refilling => 3
    case Receiving => 2
    case Waiting(_, _) => 1
    case Returned(_, _) => 0
  }

  function Measure(p: Pool): int {
    6 * (p.size - p.next) + WorkLeft(p.workers) + 2 * |p.results| + DispatchLeft(p.dispatcher) + (if p.cancelled then 0 else 1)
  }

  lemma {:induction false} WorkUpdate(workers: seq<Worker>, k: nat, w: Worker)
    requires k < |workers|
    ensures WorkLeft(workers[k := w]) + Work(workers[k]) == WorkLeft(workers) + Work(w)
  {
    var n := |workers| - 1;
    if k == n {
      assert workers[k := w][..n] == workers[..n];
    } else {
      WorkUpdate(workers[..n], k, w);
      assert workers[k := w][..n] == workers[..n][k := w];
    }
  }

  /** Every step uses some of it up, so every run returns. */
  lemma {:induction false} StepProgress(p: Pool, s: Step)
    requires Invariant(p) && Enabled(p, s)
    ensures 0 <= Measure(Do(p, s)) < Measure(p)
  {
    StepSane(p, s);
    hide WorkLeft, Honest, Conserved, Stage;
    match s
    case Hand(k) => WorkUpdate(p.workers, k, Probing(p.next));
    case Finish(k, ok) => WorkUpdate(p.workers, k, Holding(p.workers[k].candidate, ok));
    case Send(k) => WorkUpdate(p.workers, k, Idle);
    case Quit(k) => WorkUpdate(p.workers, k, Ended);
    case _ =>
  }

  lemma {:induction false} RunBounded(p: Pool, steps: seq<Step>, q: Pool)
    requires Invariant(p) && Runs(p, steps, q)
    ensures |steps| <= Measure(p) - Measure(q) && 0 <= Measure(q)
    decreases |steps|
  {
    if steps == [] {
      assert p.next <= p.size;
    } else {
      StepInvariant(p, steps[0]);
      StepProgress(p, steps[0]);
      RunBounded(Do(p, steps[0]), steps[1..], q);
    }
  }

  /** No schedule runs longer than six steps a candidate and eight more. */
  lemma {:induction false} Terminates(size: nat, steps: seq<Step>, q: Pool)
    requires size > 0 && Runs(Start(size), steps, q)
    ensures |steps| <= 6 * size + 8
  {
    StartInvariant(size);
    RunBounded(Start(size), steps, q);
    IdleWork(Workers(size));
  }

  lemma {:induction false} IdleWork(n: nat)
    ensures WorkLeft(seq(n, _ => Idle)) == n
  {
    if n > 0 {
      IdleWork(n - 1);
      assert seq(n, _ => Idle)[..n - 1] == seq(n - 1, _ => Idle);
    }
  }

  lemma {:induction false} NoneBusy(workers: seq<Worker>, i: nat)
    requires CountBusy(workers) == 0
    ensures With(workers, i) == 0
  {
    if workers != [] {
      NoneBusy(workers[..|workers| - 1], i);
    }
  }

  // ---------------------------------------------------------------- what was found out comes from a probe

  /** In the course of these steps a worker that was probing the candidate finished with this answer. */
  ghost predicate Answered(p: Pool, steps: seq<Step>, candidate: nat, ok: bool)
    decreases |steps|
  {
    && steps != [] && Enabled(p, steps[0])
    && (|| (exists k: nat :: steps[0] == Finish(k, ok) && k < |p.workers| && p.workers[k] == Probing(candidate))
        || Answered(Do(p, steps[0]), steps[1..], candidate, ok))
  }

  /** The answer is settled, on its way, or with a worker. */
  ghost predicate Known(p: Pool, candidate: nat, ok: bool) {
    || Result(candidate, ok) in p.settled
    || Result(candidate, ok) in p.results
    || exists k :: 0 <= k < |p.workers| && p.workers[k] == Holding(candidate, ok)
  }

  lemma {:induction false} KnownBefore(p: Pool, s: Step, candidate: nat, ok: bool)
    requires Enabled(p, s) && Known(Do(p, s), candidate, ok)
    ensures Known(p, candidate, ok) || exists k: nat :: s == Finish(k, ok) && k < |p.workers| && p.workers[k] == Probing(candidate)
  {
  }

  lemma {:induction false} KnownIsAnswered(p: Pool, steps: seq<Step>, q: Pool, candidate: nat, ok: bool)
    requires Runs(p, steps, q) && Known(q, candidate, ok)
    ensures Known(p, candidate, ok) || Answered(p, steps, candidate, ok)
    decreases |steps|
  {
    if steps != [] {
      KnownIsAnswered(Do(p, steps[0]), steps[1..], q, candidate, ok);
      if Known(Do(p, steps[0]), candidate, ok) {
        KnownBefore(p, steps[0], candidate, ok);
      }
      hide Known, Do;
    }
  }

  /** A settled result is the answer of a probe of that candidate. */
  lemma {:induction false} SettledIsAnswered(size: nat, steps: seq<Step>, q: Pool, candidate: nat, ok: bool)
    requires size > 0 && Runs(Start(size), steps, q) && Result(candidate, ok) in q.settled
    ensures Answered(Start(size), steps, candidate, ok)
  {
    KnownIsAnswered(Start(size), steps, q, candidate, ok);
  }

  // ---------------------------------------------------------------- the end

  /** Whoever returned has waited for every worker. */
  predicate Joined(p: Pool) {
    p.dispatcher.Returned? ==> forall k :: 0 <= k < |p.workers| ==> p.workers[k].Ended?
  }

  lemma {:induction false} StepJoined(p: Pool, s: Step)
    requires Joined(p) && Enabled(p, s)
    ensures Joined(Do(p, s))
  {
  }

  lemma {:induction false} RunJoined(p: Pool, steps: seq<Step>, q: Pool)
    requires Joined(p) && Runs(p, steps, q)
    ensures Joined(q)
    decreases |steps|
  {
    hide Do, Enabled;
    if steps != [] {
      StepJoined(p, steps[0]);
      RunJoined(Do(p, steps[0]), steps[1..], q);
    }
  }

  /** No worker outlives the call. */
  lemma {:induction false} NoneOutlives(size: nat, steps: seq<Step>, q: Pool, k: nat)
    requires size > 0 && Runs(Start(size), steps, q) && q.dispatcher.Returned? && k < |q.workers|
    ensures q.workers[k] == Ended
  {
    RunJoined(Start(size), steps, q);
  }

  /** A run with one candidate, which is found if its probe succeeds, and not found otherwise. */
  function OneProbe(ok: bool): seq<Step> {
    [Hand(0), EndFill, Finish(0, ok), Send(0), Receive] + (if ok then [] else [EndReceive]) + [Quit(0), Return]
  }

  lemma {:induction false} RunsOn(p: Pool, s: Step, rest: seq<Step>, q: Pool)
    requires Enabled(p, s) && Runs(Do(p, s), rest, q)
    ensures Runs(p, [s] + rest, q)
  {
    assert ([s] + rest)[1..] == rest;
  }

  /** After the result was received. */
  function Received(ok: bool): Pool {
    Pool(1, [Idle], [], 1, 0, if ok then Waiting(true, 0) else Receiving, false, [Result(0, ok)])
  }

  lemma {:induction false} ProbeReceived(ok: bool, rest: seq<Step>, q: Pool)
    requires Runs(Received(ok), rest, q)
    ensures Runs(Start(1), [Hand(0)] + ([EndFill] + ([Finish(0, ok)] + ([Send(0)] + ([Receive] + rest)))), q)
  {
    var p1 := Do(Start(1), Hand(0));
    var p2 := Do(p1, EndFill);
    var p3 := Do(p2, Finish(0, ok));
    var p4 := Do(p3, Send(0));
    assert Do(p4, Receive) == Received(ok);
    hide Do;
    RunsOn(p4, Receive, rest, q);
    RunsOn(p3, Send(0), [Receive] + rest, q);
    RunsOn(p2, Finish(0, ok), [Send(0)] + ([Receive] + rest), q);
    RunsOn(p1, EndFill, [Finish(0, ok)] + ([Send(0)] + ([Receive] + rest)), q);
    RunsOn(Start(1), Hand(0), [EndFill] + ([Finish(0, ok)] + ([Send(0)] + ([Receive] + rest))), q);
  }

  lemma {:induction false} OneCandidate(ok: bool) returns (q: Pool)
    ensures Runs(Start(1), OneProbe(ok), q) && q.dispatcher == Returned(ok, 0) && !q.cancelled
  {
    var waiting := if ok then Received(ok) else Do(Received(ok), EndReceive);
    var ended := Do(waiting, Quit(0));
    q := Do(ended, Return);
    hide Do;
    RunsOn(ended, Return, [], q);
    RunsOn(waiting, Quit(0), [Return], q);
    var rest := (if ok then [] else [EndReceive]) + [Quit(0), Return];
    if ok {
      assert rest == [Quit(0), Return];
    } else {
      RunsOn(Received(ok), EndReceive, [Quit(0), Return], q);
    }
    ProbeReceived(ok, rest, q);
    assert OneProbe(ok) == [Hand(0)] + ([EndFill] + ([Finish(0, ok)] + ([Send(0)] + ([Receive] + rest))));
  }

  /** "Not found" without a cancellation means that every candidate was probed and failed. */
  lemma {:induction false} NotFoundMeansAllFailed(size: nat, steps: seq<Step>, q: Pool, i: nat)
    requires size > 0 && Runs(Start(size), steps, q)
    requires q.dispatcher.Returned? && !q.dispatcher.found && !q.cancelled && i < size
    ensures Result(i, false) in q.settled && Answered(Start(size), steps, i, false)
  {
    StartInvariant(size);
    RunInvariant(Start(size), steps, q);
    RunSize(Start(size), steps, q);
    NoneBusy(q.workers, i);
    AmongMember(q.settled, i);
    assert Places(q, i) == 1;
    var k :| 0 <= k < |q.settled| && q.settled[k].candidate == i;
    assert q.settled[k] == Result(i, false);
    SettledIsAnswered(size, steps, q, i, false);
  }

  lemma {:induction false} RunSize(p: Pool, steps: seq<Step>, q: Pool)
    requires Runs(p, steps, q)
    ensures q.size == p.size
    decreases |steps|
  {
    if steps != [] {
      RunSize(Do(p, steps[0]), steps[1..], q);
    }
  }

  /** "Found" names a candidate whose probe succeeded. */
  lemma {:induction false} FoundMeansProbed(size: nat, steps: seq<Step>, q: Pool)
    requires size > 0 && Runs(Start(size), steps, q) && q.dispatcher.Returned? && q.dispatcher.found
    ensures Result(q.dispatcher.winner, true) in q.settled && q.dispatcher.winner < size
    ensures Answered(Start(size), steps, q.dispatcher.winner, true)
  {
    StartInvariant(size);
    RunInvariant(Start(size), steps, q);
    RunSize(Start(size), steps, q);
    var k :| 0 <= k < |q.settled| && q.settled[k] == Result(q.dispatcher.winner, true);
    AmongMember(q.settled, q.dispatcher.winner);
    assert Places(q, q.dispatcher.winner) > 0;
    SettledIsAnswered(size, steps, q, q.dispatcher.winner, true);
  }
}
