/** RTCAdmissionLedger of pwa/src/connectivity/rtc-admission-ledger.ts: which incoming deliveries are dispatched. */
module RtcAdmission {
  import opened Bytes
  import opened Selections

  /** maxRTCAdmissionEntries */
  const MAX_ENTRIES := 32

  /** admissionKey */
  datatype Key = Key(sender: bytes, stream: nat, delivery: bytes)

  datatype Entry = Entry(key: Key, fingerprint: bytes, expiresAt: int, admitted: bool)

  datatype Reservation = First | DuplicateAdmitted | DuplicatePending | Conflict

  /** What happened to the ledger, as its callers see it. */
  datatype Happening =
    | Reserved(key: Key, fingerprint: bytes, expiresAt: int)
    | Pruned(now: int)
    | Admitted(key: Key)
    | Cleared

  /** `entries` in insertion order; `births[i]` is the place in `log` of the reservation that made entries[i]. */
  datatype Ledger = Ledger(maximum: nat, entries: seq<Entry>, births: seq<nat>, log: seq<Happening>)

  function Empty(maximum: nat): Ledger { Ledger(maximum, [], [], []) }

  predicate Shape(l: Ledger) { 0 < l.maximum && |l.births| == |l.entries| }

  /** The entries that are still valid, with their births. */
  function Valid(entries: seq<Entry>, births: seq<nat>, now: int): (r: (seq<Entry>, seq<nat>))
    requires |births| == |entries|
    ensures |r.0| == |r.1| <= |entries|
  {
    if entries == [] then ([], [])
    else
      var n := |entries| - 1;
      var (es, bs) := Valid(entries[..n], births[..n], now);
      if entries[n].expiresAt > now then (es + [entries[n]], bs + [births[n]]) else (es, bs)
  }

  /** What has not expired, in its order, and nothing else. */
  ghost predicate Unexpired(kept: seq<Entry>, entries: seq<Entry>, now: int) {
    exists keep :: Selected(kept, entries, keep) && Outlasts(keep, now)
  }

  ghost predicate Outlasts(keep: Entry -> bool, now: int) {
    forall e :: keep(e) <==> e.expiresAt > now
  }

  lemma {:induction false} ValidExact(entries: seq<Entry>, births: seq<nat>, now: int)
    requires |births| == |entries|
    ensures Unexpired(Valid(entries, births, now).0, entries, now)
  {
    if entries == [] {
      NoneSelected((e: Entry) => e.expiresAt > now);
      assert Outlasts((e: Entry) => e.expiresAt > now, now);
    } else {
      var n := |entries| - 1;
      ValidExact(entries[..n], births[..n], now);
      UnexpiredNext(Valid(entries[..n], births[..n], now).0, entries[..n], entries[n], now);
      assert entries == entries[..n] + [entries[n]];
      hide Unexpired;
    }
  }

  lemma {:induction false} UnexpiredNext(kept: seq<Entry>, entries: seq<Entry>, e: Entry, now: int)
    requires Unexpired(kept, entries, now)
    ensures Unexpired(if e.expiresAt > now then kept + [e] else kept, entries + [e], now)
  {
    var keep :| Selected(kept, entries, keep) && Outlasts(keep, now);
    SelectNext(kept, entries, e, keep);
  }

  lemma {:induction false} UnexpiredMembers(kept: seq<Entry>, entries: seq<Entry>, now: int)
    requires Unexpired(kept, entries, now)
    ensures forall e :: e in kept <==> e in entries && e.expiresAt > now
  {
    var keep :| Selected(kept, entries, keep) && Outlasts(keep, now);
    SelectedMembers(kept, entries, keep);
  }

  function Prune(l: Ledger, now: int): Ledger
    requires Shape(l)
  {
    var (es, bs) := Valid(l.entries, l.births, now);
    Ledger(l.maximum, es, bs, l.log + [Pruned(now)])
  }

  function IndexOf(entries: seq<Entry>, key: Key): (i: nat)
    ensures i <= |entries| && (i < |entries| ==> entries[i].key == key)
    ensures forall j :: 0 <= j < i ==> entries[j].key != key
  {
    if entries == [] then 0 else if entries[0].key == key then 0 else 1 + IndexOf(entries[1..], key)
  }

  /** The part of `reserve` after its await: look up, make room, insert. */
  function Reserve(l: Ledger, key: Key, fingerprint: bytes, expiresAt: int): (Ledger, Reservation)
    requires Shape(l)
  {
    var i := IndexOf(l.entries, key);
    if i < |l.entries| then
      (l, if l.entries[i].fingerprint != fingerprint then Conflict
          else if l.entries[i].admitted then DuplicateAdmitted
          else DuplicatePending)
    else
      var dropped := if |l.entries| >= l.maximum then |l.entries| - l.maximum + 1 else 0;
      (l.(entries := l.entries[dropped..] + [Entry(key, fingerprint, expiresAt, false)],
          births := l.births[dropped..] + [|l.log|],
          log := l.log + [Reserved(key, fingerprint, expiresAt)]), First)
  }

  /** `admit`, which prunes first */
  function Admit(l: Ledger, key: Key, now: int): (Ledger, bool)
    requires Shape(l)
  {
    var p := Prune(l, now);
    var i := IndexOf(p.entries, key);
    if i < |p.entries| && p.entries[i].expiresAt > now then
      (p.(entries := p.entries[i := p.entries[i].(admitted := true)], log := p.log + [Admitted(key)]), true)
    else (p, false)
  }

  function Clear(l: Ledger): Ledger { Ledger(l.maximum, [], [], l.log + [Cleared]) }

  // ---------------------------------------------------------------- the history

  function Firsts(log: seq<Happening>): nat {
    if log == [] then 0 else Firsts(log[..|log| - 1]) + (if log[|log| - 1].Reserved? then 1 else 0)
  }

  /** Since the reservation log[i] its entry has neither expired nor been cleared, and fewer than `maximum` others came. */
  predicate Remembered(log: seq<Happening>, i: nat, maximum: nat)
    requires i < |log|
  {
    && log[i].Reserved?
    && (forall j :: i < j < |log| && log[j].Pruned? ==> log[j].now < log[i].expiresAt)
    && (forall j :: i < j < |log| ==> !log[j].Cleared?)
    && Firsts(log[i + 1..]) < maximum
  }

  /** An entry and the reservation it came from. */
  ghost predicate Backed(log: seq<Happening>, e: Entry, birth: nat) {
    && birth < |log|
    && log[birth] == Reserved(e.key, e.fingerprint, e.expiresAt)
    && (forall j :: birth < j < |log| && log[j].Reserved? ==> log[j].key != e.key)
    && (e.admitted <==> exists j :: birth < j < |log| && log[j] == Admitted(e.key))
  }

  ghost predicate AllBacked(log: seq<Happening>, entries: seq<Entry>, births: seq<nat>) {
    |births| == |entries| && forall p :: 0 <= p < |entries| ==> Backed(log, entries[p], births[p])
  }

  ghost predicate OneEach(entries: seq<Entry>) {
    forall p, q :: 0 <= p < q < |entries| ==> entries[p].key != entries[q].key
  }

  /** An entry has seen at least the reservations of the entries behind it. */
  ghost predicate Aged(log: seq<Happening>, births: seq<nat>) {
    forall p :: 0 <= p < |births| ==> births[p] < |log| && Firsts(log[births[p] + 1..]) >= |births| - 1 - p
  }

  /** Nothing that is remembered has left the ledger. */
  ghost predicate Complete(log: seq<Happening>, births: seq<nat>, maximum: nat) {
    forall i :: 0 <= i < |log| && Remembered(log, i, maximum) ==> i in births
  }

  ghost predicate Sound(l: Ledger) {
    && Shape(l) && |l.entries| <= l.maximum
    && OneEach(l.entries)
    && AllBacked(l.log, l.entries, l.births)
    && Aged(l.log, l.births)
    && Complete(l.log, l.births, l.maximum)
  }

  /** One key was reserved again only when its former reservation was no longer remembered. */
  ghost predicate Separate(log: seq<Happening>, maximum: nat) {
    forall i, j :: 0 <= i < j < |log| && log[i].Reserved? && log[j].Reserved? && log[i].key == log[j].key ==> !Remembered(log[..j], i, maximum)
  }

  lemma {:induction false} FirstsAppend(log: seq<Happening>, h: Happening, i: nat)
    requires i < |log|
    ensures Firsts((log + [h])[i + 1..]) == Firsts(log[i + 1..]) + (if h.Reserved? then 1 else 0)
    ensures Firsts([]) == 0
  {
    assert (log + [h])[i + 1..] == log[i + 1..] + [h];
    assert (log[i + 1..] + [h])[..|log[i + 1..]|] == log[i + 1..];
  }

  /** What is remembered after one more happening was remembered before, unless it just happened. */
  lemma {:induction false} RememberedBefore(log: seq<Happening>, h: Happening, i: nat, maximum: nat)
    requires i < |log| && Remembered(log + [h], i, maximum)
    ensures Remembered(log, i, maximum) && !h.Cleared? && (h.Pruned? ==> h.now < log[i].expiresAt)
    ensures h.Reserved? ==> Firsts(log[i + 1..]) + 1 < maximum
  {
    var longer := log + [h];
    FirstsAppend(log, h, i);
    assert longer[|log|] == h;
    forall j | i < j < |log| ensures longer[j] == log[j] {
    }
  }

  // ---------------------------------------------------------------- pruning

  lemma {:induction false} ValidBacked(log: seq<Happening>, entries: seq<Entry>, births: seq<nat>, now: int)
    requires |births| == |entries| && AllBacked(log, entries, births)
    ensures AllBacked(log, Valid(entries, births, now).0, Valid(entries, births, now).1)
  {
    if entries != [] {
      var n := |entries| - 1;
      ValidBacked(log, entries[..n], births[..n], now);
    }
  }

  /** Which places of a list a prune keeps. */
  lemma {:induction false} ValidMembers(entries: seq<Entry>, births: seq<nat>, now: int)
    requires |births| == |entries|
    ensures var (es, bs) := Valid(entries, births, now);
            && (forall e :: e in es ==> e in entries && e.expiresAt > now)
            && (forall p :: 0 <= p < |entries| && entries[p].expiresAt > now ==> births[p] in bs)
            && (OneEach(entries) ==> OneEach(es))
  {
    if entries != [] {
      var n := |entries| - 1;
      ValidMembers(entries[..n], births[..n], now);
      var before := Valid(entries[..n], births[..n], now).0;
      forall p | 0 <= p < |before| && OneEach(entries) ensures before[p].key != entries[n].key {
        assert before[p] in entries[..n];
      }
      forall p | 0 <= p < |entries| && entries[p].expiresAt > now ensures births[p] in Valid(entries, births, now).1 {
        if p < n {
          assert entries[..n][p].expiresAt > now && births[..n][p] == births[p];
        }
      }
    }
  }

  /** Place p of the kept births was place q, with at least as much behind it. */
  predicate WasAt(births: seq<nat>, kept: seq<nat>, p: nat, q: nat) {
    p < |kept| && p <= q < |births| && births[q] == kept[p] && |kept| - p <= |births| - q
  }

  lemma {:induction false} ValidPlace(entries: seq<Entry>, births: seq<nat>, now: int, p: nat) returns (q: nat)
    requires |births| == |entries| && p < |Valid(entries, births, now).1|
    ensures WasAt(births, Valid(entries, births, now).1, p, q)
  {
    var n := |entries| - 1;
    if p < |Valid(entries[..n], births[..n], now).1| {
      q := ValidPlace(entries[..n], births[..n], now, p);
    } else {
      q := n;
    }
  }

  /** Dropping entries only makes the ages easier to meet. */
  lemma {:induction false} ValidAged(log: seq<Happening>, entries: seq<Entry>, births: seq<nat>, now: int)
    requires |births| == |entries| && Aged(log, births)
    ensures Aged(log, Valid(entries, births, now).1)
  {
    var kept := Valid(entries, births, now).1;
    forall p | 0 <= p < |kept| ensures kept[p] < |log| && Firsts(log[kept[p] + 1..]) >= |kept| - 1 - p {
      var q := ValidPlace(entries, births, now, p);
    }
  }

  lemma {:induction false} QuietBacked(log: seq<Happening>, h: Happening, e: Entry, birth: nat)
    requires Backed(log, e, birth) && (h.Reserved? ==> h.key != e.key) && (h.Admitted? ==> h.key != e.key || e.admitted)
    ensures Backed(log + [h], e, birth)
  {
    var longer := log + [h];
    if e.admitted {
      var j :| birth < j < |log| && log[j] == Admitted(e.key);
      assert longer[j] == Admitted(e.key);
    }
  }

  lemma {:induction false} QuietAged(log: seq<Happening>, h: Happening, births: seq<nat>)
    requires Aged(log, births)
    ensures Aged(log + [h], births)
  {
    forall p | 0 <= p < |births| ensures Firsts((log + [h])[births[p] + 1..]) >= |births| - 1 - p {
      FirstsAppend(log, h, births[p]);
    }
  }

  lemma {:induction false} PruneComplete(l: Ledger, now: int)
    requires Sound(l)
    ensures Complete(l.log + [Pruned(now)], Valid(l.entries, l.births, now).1, l.maximum)
  {
    var log := l.log + [Pruned(now)];
    ValidMembers(l.entries, l.births, now);
    forall i | 0 <= i < |log| && Remembered(log, i, l.maximum) ensures i in Valid(l.entries, l.births, now).1 {
      assert i < |l.log|;
      RememberedBefore(l.log, Pruned(now), i, l.maximum);
      var p :| 0 <= p < |l.births| && l.births[p] == i;
      assert Backed(l.log, l.entries[p], i);
    }
  }

  lemma {:induction false} PruneBacked(l: Ledger, now: int)
    requires Sound(l)
    ensures AllBacked(l.log + [Pruned(now)], Valid(l.entries, l.births, now).0, Valid(l.entries, l.births, now).1)
    ensures OneEach(Valid(l.entries, l.births, now).0)
  {
    var (es, bs) := Valid(l.entries, l.births, now);
    ValidMembers(l.entries, l.births, now);
    ValidBacked(l.log, l.entries, l.births, now);
    forall p | 0 <= p < |es| ensures Backed(l.log + [Pruned(now)], es[p], bs[p]) {
      QuietBacked(l.log, Pruned(now), es[p], bs[p]);
    }
  }

  lemma {:induction false} PruneSound(l: Ledger, now: int)
    requires Sound(l)
    ensures Sound(Prune(l, now))
  {
    hide Valid, AllBacked, Aged, Complete, OneEach;
    PruneBacked(l, now);
    ValidAged(l.log, l.entries, l.births, now);
    QuietAged(l.log, Pruned(now), Valid(l.entries, l.births, now).1);
    PruneComplete(l, now);
  }

  // ---------------------------------------------------------------- reserving

  lemma {:induction false} KeptBacked(l: Ledger, h: Happening, dropped: nat)
    requires Sound(l) && dropped <= |l.entries| && h.Reserved? && IndexOf(l.entries, h.key) == |l.entries|
    ensures AllBacked(l.log + [h], l.entries[dropped..], l.births[dropped..])
  {
    forall p | dropped <= p < |l.entries| ensures Backed(l.log + [h], l.entries[p], l.births[p]) {
      QuietBacked(l.log, h, l.entries[p], l.births[p]);
    }
  }

  lemma {:induction false} NewBacked(log: seq<Happening>, key: Key, fingerprint: bytes, expiresAt: int)
    ensures Backed(log + [Reserved(key, fingerprint, expiresAt)], Entry(key, fingerprint, expiresAt, false), |log|)
  {
  }

  lemma {:induction false} ReserveAged(l: Ledger, h: Happening, dropped: nat)
    requires Sound(l) && h.Reserved? && dropped <= |l.births|
    ensures Aged(l.log + [h], l.births[dropped..] + [|l.log|])
  {
    var log, births := l.log + [h], l.births[dropped..] + [|l.log|];
    forall p | 0 <= p < |births| ensures births[p] < |log| && Firsts(log[births[p] + 1..]) >= |births| - 1 - p {
      if p < |births| - 1 {
        assert births[p] == l.births[dropped + p];
        FirstsAppend(l.log, h, births[p]);
      }
    }
  }

  /** Whatever is dropped to make room has seen `maximum` reservations by then. */
  lemma {:induction false} DroppedForgotten(l: Ledger, h: Happening, dropped: nat, p: nat)
    requires Sound(l) && h.Reserved? && p < |l.births|
    requires dropped == if |l.entries| >= l.maximum then |l.entries| - l.maximum + 1 else 0
    requires l.births[p] < |l.log| && Remembered(l.log + [h], l.births[p], l.maximum)
    ensures p >= dropped
  {
    RememberedBefore(l.log, h, l.births[p], l.maximum);
  }

  lemma {:induction false} ReserveComplete(l: Ledger, h: Happening, dropped: nat)
    requires Sound(l) && h.Reserved?
    requires dropped == if |l.entries| >= l.maximum then |l.entries| - l.maximum + 1 else 0
    ensures Complete(l.log + [h], l.births[dropped..] + [|l.log|], l.maximum)
  {
    hide AllBacked, Aged, Remembered;
    var log, births := l.log + [h], l.births[dropped..] + [|l.log|];
    forall i | 0 <= i < |log| && Remembered(log, i, l.maximum) ensures i in births {
      if i == |l.log| {
        assert births[|births| - 1] == i;
      } else {
        RememberedBefore(l.log, h, i, l.maximum);
        var p :| 0 <= p < |l.births| && l.births[p] == i;
        DroppedForgotten(l, h, dropped, p);
        assert births[p - dropped] == i;
      }
    }
  }

  lemma {:induction false} ReserveSound(l: Ledger, key: Key, fingerprint: bytes, expiresAt: int)
    requires Sound(l)
    ensures Sound(Reserve(l, key, fingerprint, expiresAt).0)
  {
    var (l', answer) := Reserve(l, key, fingerprint, expiresAt);
    if answer == First {
      var h := Reserved(key, fingerprint, expiresAt);
      var dropped := if |l.entries| >= l.maximum then |l.entries| - l.maximum + 1 else 0;
      hide Backed, Remembered, Firsts, IndexOf, Complete, Aged;
      assert AllBacked(l'.log, l'.entries, l'.births) by {
        KeptBacked(l, h, dropped);
        NewBacked(l.log, key, fingerprint, expiresAt);
      }
      ReserveAged(l, h, dropped);
      ReserveComplete(l, h, dropped);
    }
  }

  /** A first reservation comes when no former one of its key is remembered. */
  lemma {:induction false} ReserveSeparate(l: Ledger, key: Key, fingerprint: bytes, expiresAt: int)
    requires Sound(l) && Separate(l.log, l.maximum)
    ensures Separate(Reserve(l, key, fingerprint, expiresAt).0.log, l.maximum)
  {
    var (l', answer) := Reserve(l, key, fingerprint, expiresAt);
    if answer == First {
      var log := l'.log;
      forall i, j | 0 <= i < j < |log| && log[i].Reserved? && log[j].Reserved? && log[i].key == log[j].key
        ensures !Remembered(log[..j], i, l.maximum)
      {
        if j == |l.log| {
          assert log[..j] == l.log;
          Unremembered(l, i);
        } else {
          assert log[..j] == l.log[..j];
        }
      }
    }
  }

  lemma {:induction false} Unremembered(l: Ledger, i: nat)
    requires Sound(l) && i < |l.log| && l.log[i].Reserved? && IndexOf(l.entries, l.log[i].key) == |l.entries|
    ensures !Remembered(l.log, i, l.maximum)
  {
    forall p | 0 <= p < |l.births| ensures l.births[p] != i {
      assert Backed(l.log, l.entries[p], l.births[p]);
    }
  }

  lemma {:induction false} QuietSeparate(log: seq<Happening>, h: Happening, maximum: nat)
    requires Separate(log, maximum) && !h.Reserved?
    ensures Separate(log + [h], maximum)
  {
    forall i, j | 0 <= i < j < |log + [h]| && (log + [h])[i].Reserved? && (log + [h])[j].Reserved? && (log + [h])[i].key == (log + [h])[j].key
      ensures !Remembered((log + [h])[..j], i, maximum)
    {
      assert (log + [h])[..j] == log[..j];
    }
  }

  // ---------------------------------------------------------------- admitting and clearing

  lemma {:induction false} AdmitBacked(log: seq<Happening>, e: Entry, birth: nat)
    requires Backed(log, e, birth)
    ensures Backed(log + [Admitted(e.key)], e.(admitted := true), birth)
  {
    assert (log + [Admitted(e.key)])[|log|] == Admitted(e.key);
  }

  lemma {:induction false} AdmitComplete(log: seq<Happening>, births: seq<nat>, maximum: nat, h: Happening)
    requires Complete(log, births, maximum) && !h.Reserved?
    ensures Complete(log + [h], births, maximum)
  {
    forall i | 0 <= i < |log + [h]| && Remembered(log + [h], i, maximum) ensures i in births {
      assert i < |log|;
      RememberedBefore(log, h, i, maximum);
    }
  }

  lemma {:induction false} SoundShape(l: Ledger)
    requires Sound(l)
    ensures Shape(l) && |l.entries| <= l.maximum && OneEach(l.entries)
  {
  }

  lemma {:induction false} FlagSound(l: Ledger, i: nat)
    requires Sound(l) && i < |l.entries|
    ensures Sound(l.(entries := l.entries[i := l.entries[i].(admitted := true)], log := l.log + [Admitted(l.entries[i].key)]))
  {
    var h := Admitted(l.entries[i].key);
    var entries := l.entries[i := l.entries[i].(admitted := true)];
    forall p | 0 <= p < |entries| ensures Backed(l.log + [h], entries[p], l.births[p]) {
      if p == i {
        AdmitBacked(l.log, l.entries[p], l.births[p]);
      } else {
        assert l.entries[p].key != l.entries[i].key;
        QuietBacked(l.log, h, l.entries[p], l.births[p]);
      }
    }
    QuietAged(l.log, h, l.births);
    AdmitComplete(l.log, l.births, l.maximum, h);
  }

  lemma {:induction false} AdmitSound(l: Ledger, key: Key, now: int)
    requires Sound(l)
    ensures Sound(Admit(l, key, now).0)
  {
    hide Sound;
    SoundShape(l);
    PruneSound(l, now);
    var p := Prune(l, now);
    var i := IndexOf(p.entries, key);
    if Admit(l, key, now).1 {
      FlagSound(p, i);
    }
  }

  lemma {:induction false} ClearSound(l: Ledger)
    requires Sound(l)
    ensures Sound(Clear(l))
  {
    forall i | 0 <= i < |l.log| + 1 ensures !Remembered(l.log + [Cleared], i, l.maximum) {
      assert (l.log + [Cleared])[|l.log|] == Cleared;
    }
  }

  // ---------------------------------------------------------------- runs

  /** `reserve` prunes, awaits a digest, and then decides: two steps, with anything in between. */
  datatype Event =
    | DoPrune(now: int)
    | DoReserve(key: Key, fingerprint: bytes, expiresAt: int)
    | DoAdmit(key: Key, now: int)
    | DoClear

  function Step(l: Ledger, e: Event): Ledger
    requires Shape(l)
    ensures Shape(Step(l, e)) && Step(l, e).maximum == l.maximum
  {
    match e
    case DoPrune(now) => Prune(l, now)
    case DoReserve(key, fingerprint, expiresAt) => Reserve(l, key, fingerprint, expiresAt).0
    case DoAdmit(key, now) => Admit(l, key, now).0
    case DoClear => Clear(l)
  }

  function Run(maximum: nat, events: seq<Event>): (l: Ledger)
    requires 0 < maximum
    ensures Shape(l) && l.maximum == maximum
  {
    if events == [] then Empty(maximum) else Step(Run(maximum, events[..|events| - 1]), events[|events| - 1])
  }

  lemma {:induction false} StepSound(l: Ledger, e: Event)
    requires Sound(l)
    ensures Sound(Step(l, e))
  {
    match e
    case DoPrune(now) => PruneSound(l, now);
    case DoReserve(key, fingerprint, expiresAt) => ReserveSound(l, key, fingerprint, expiresAt);
    case DoAdmit(key, now) => AdmitSound(l, key, now);
    case DoClear => ClearSound(l);
  }

  lemma {:induction false} StepSeparate(l: Ledger, e: Event)
    requires Sound(l) && Separate(l.log, l.maximum)
    ensures Separate(Step(l, e).log, l.maximum)
  {
    hide Sound, Separate;
    match e
    case DoPrune(now) => QuietSeparate(l.log, Pruned(now), l.maximum);
    case DoReserve(key, fingerprint, expiresAt) => ReserveSeparate(l, key, fingerprint, expiresAt);
    case DoAdmit(key, now) =>
      QuietSeparate(l.log, Pruned(now), l.maximum);
      QuietSeparate(l.log + [Pruned(now)], Admitted(key), l.maximum);
    case DoClear => QuietSeparate(l.log, Cleared, l.maximum);
  }

  lemma {:induction false} RunSound(maximum: nat, events: seq<Event>)
    requires 0 < maximum
    ensures Sound(Run(maximum, events)) && Separate(Run(maximum, events).log, maximum)
  {
    if events != [] {
      RunSound(maximum, events[..|events| - 1]);
      StepSound(Run(maximum, events[..|events| - 1]), events[|events| - 1]);
      StepSeparate(Run(maximum, events[..|events| - 1]), events[|events| - 1]);
    }
  }

  /** Never more than `maximum` entries, each for another key. */
  lemma {:induction false} Bounded(maximum: nat, events: seq<Event>)
    requires 0 < maximum
    ensures |Run(maximum, events).entries| <= maximum && OneEach(Run(maximum, events).entries)
  {
    RunSound(maximum, events);
  }

  /**
    One key is dispatched a second time only after a prune past its expiry, a reset, or `maximum` reservations since the
    first time, whatever the calls and however they interleave.
  */
  lemma {:induction false} DispatchedAgain(maximum: nat, events: seq<Event>, i: nat, j: nat)
    requires 0 < maximum && i < j < |Run(maximum, events).log|
    requires var log := Run(maximum, events).log;
             log[i].Reserved? && log[j].Reserved? && log[i].key == log[j].key
    ensures var log := Run(maximum, events).log;
            || (exists k :: i < k < j && log[k].Pruned? && log[k].now >= log[i].expiresAt)
            || (exists k :: i < k < j && log[k].Cleared?)
            || Firsts(log[i + 1..j]) >= maximum
  {
    RunSound(maximum, events);
    var log := Run(maximum, events).log;
    assert !Remembered(log[..j], i, maximum);
    assert log[..j][i + 1..] == log[i + 1..j];
    assert forall k :: 0 <= k < j ==> log[..j][k] == log[k];
  }

  /**
    While a reservation is remembered, its key is answered from it: a conflict exactly for another ciphertext, and
    otherwise a duplicate that is admitted exactly if it was admitted since.
  */
  lemma {:induction false} DuplicateAnswers(maximum: nat, events: seq<Event>, i: nat, fingerprint: bytes, expiresAt: int)
    requires 0 < maximum && i < |Run(maximum, events).log| && Remembered(Run(maximum, events).log, i, maximum)
    ensures var l := Run(maximum, events);
            var key, answer := l.log[i].key, Reserve(l, l.log[i].key, fingerprint, expiresAt).1;
            && answer != First
            && (answer == Conflict <==> l.log[i].fingerprint != fingerprint)
            && (answer == DuplicateAdmitted <==> l.log[i].fingerprint == fingerprint && exists j :: i < j < |l.log| && l.log[j] == Admitted(key))
  {
    RunSound(maximum, events);
    var l := Run(maximum, events);
    var p :| 0 <= p < |l.births| && l.births[p] == i;
    assert Backed(l.log, l.entries[p], i);
    IndexIs(l.entries, p);
  }

  lemma {:induction false} IndexIs(entries: seq<Entry>, p: nat)
    requires OneEach(entries) && p < |entries|
    ensures IndexOf(entries, entries[p].key) == p
  {
  }

  // ---------------------------------------------------------------- in place

  class RTCAdmissionLedger {
    const maximum: nat
    var entries: seq<Entry>
    ghost var births: seq<nat>
    ghost var log: seq<Happening>

    ghost function View(): Ledger
      reads this
    {
      Ledger(maximum, entries, births, log)
    }

    ghost predicate Good()
      reads this
    {
      Sound(View())
    }

    constructor (maximum: nat)
      requires 1 <= maximum <= MAX_ENTRIES
      ensures Good() && View() == Empty(maximum)
    {
      this.maximum := maximum;
      entries, births, log := [], [], [];
    }

    method PruneAt(now: int)
      requires Good()
      modifies this
      ensures Good() && View() == Prune(old(View()), now)
      ensures Unexpired(entries, old(entries), now)
    {
      hide Sound, Unexpired;
      ghost var before := View();
      PruneSound(before, now);
      assert |births| == |entries| by { SoundShape(before); }
      var kept: seq<Entry>, i := [], 0;
      while i < |entries|
        invariant 0 <= i <= |entries| == |births| && View() == before
        invariant kept == Valid(entries[..i], births[..i], now).0
      {
        if entries[i].expiresAt > now {
          kept := kept + [entries[i]];
        }
        assert entries[..i + 1][..i] == entries[..i] && births[..i + 1][..i] == births[..i];
        i := i + 1;
      }
      assert entries[..i] == entries && births[..i] == births;
      ValidExact(entries, births, now);
      births, log := Valid(entries, births, now).1, log + [Pruned(now)];
      entries := kept;
    }

    /** The answer that an entry for this key gives. */
    static predicate Answers(e: Entry, key: Key, fingerprint: bytes, answer: Reservation) {
      && e.key == key
      && (answer == Conflict <==> e.fingerprint != fingerprint)
      && (answer == DuplicateAdmitted <==> e.fingerprint == fingerprint && e.admitted)
    }

    method Find(key: Key) returns (i: nat)
      ensures i == IndexOf(entries, key)
    {
      i := 0;
      while i < |entries| && entries[i].key != key
        invariant 0 <= i <= |entries|
        invariant IndexOf(entries, key) == i + IndexOf(entries[i..], key)
      {
        assert entries[i..][1..] == entries[i + 1..];
        i := i + 1;
      }
    }

    /** `reserve` from its await on */
    method FinishReserve(key: Key, fingerprint: bytes, expiresAt: int) returns (answer: Reservation)
      requires Good()
      modifies this
      ensures Good() && Reserve(old(View()), key, fingerprint, expiresAt) == (View(), answer)
      ensures answer == First <==> forall e :: e in old(entries) ==> e.key != key
      ensures answer == First ==>
                entries == (if |old(entries)| < maximum then old(entries) else old(entries)[1..]) + [Entry(key, fingerprint, expiresAt, false)]
      ensures answer != First ==> entries == old(entries) && exists e :: e in entries && Answers(e, key, fingerprint, answer)
    {
      hide Sound;
      ghost var before := View();
      SoundShape(before);
      ReserveSound(before, key, fingerprint, expiresAt);
      var i := Find(key);
      if i < |entries| {
        if entries[i].fingerprint != fingerprint {
          return Conflict;
        }
        return if entries[i].admitted then DuplicateAdmitted else DuplicatePending;
      }
      ghost var dropped := 0;
      while |entries| >= maximum
        invariant dropped <= |before.entries| && entries == before.entries[dropped..] && births == before.births[dropped..]
        invariant dropped == 0 || |before.entries| - dropped + 1 >= maximum
        invariant log == before.log
        decreases |entries|
      {
        entries, births := entries[1..], births[1..];
        dropped := dropped + 1;
      }
      births, log := births + [|log|], log + [Reserved(key, fingerprint, expiresAt)];
      entries := entries + [Entry(key, fingerprint, expiresAt, false)];
      return First;
    }

    /** The same entries, with the one for this key admitted. */
    static predicate Flagged(after: seq<Entry>, kept: seq<Entry>, key: Key) {
      |after| == |kept| && forall p :: 0 <= p < |kept| ==> after[p] == if kept[p].key == key then kept[p].(admitted := true) else kept[p]
    }

    method AdmitAt(key: Key, now: int) returns (ok: bool)
      requires Good()
      modifies this
      ensures Good() && Admit(old(View()), key, now) == (View(), ok)
      ensures ok <==> exists e :: e in old(entries) && e.key == key && e.expiresAt > now
      ensures exists kept :: Unexpired(kept, old(entries), now) && Flagged(entries, kept, key)
    {
      hide Sound, Unexpired;
      SoundShape(View());
      AdmitSound(View(), key, now);
      PruneAt(now);
      ghost var kept := entries;
      UnexpiredMembers(kept, old(entries), now);
      SoundShape(View());
      var i := Find(key);
      if i == |entries| || entries[i].expiresAt <= now {
        return false;
      }
      entries := entries[i := entries[i].(admitted := true)];
      log := log + [Admitted(key)];
      return true;
    }

    method Reset()
      requires Good()
      modifies this
      ensures Good() && View() == Clear(old(View()))
    {
      ClearSound(View());
      entries, births, log := [], [], log + [Cleared];
    }
  }
}
