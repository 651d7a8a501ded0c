/** The scheduler of pwa/src/connectivity/message-outbox-runtime.ts: which message goes next, and when to look again. */
module Outbox {
  import opened Bytes
  import opened Sorting
  import Selections

  const MAX_AGE_MS := 7 * 24 * 60 * 60 * 1000
  const IDLE_DELAY_MS := 60_000
  const MAX_PAUSED := 128
  const MAX_EXAMINED := 128
  const MAX_STORED := 128

  datatype Entry = Entry(messageId: bytes, contactId: bytes, createdAt: int, nextAttemptAt: int, delivered: bool)

  /** The volatile part of the runtime that the scheduler reads. */
  datatype Runtime = Runtime(preferred: Option<bytes>, paused: map<bytes, int>, awaiting: map<bytes, int>)

  /** compareOutboxEntryOrder */
  function Before(): (Entry, Entry) -> bool {
    (a: Entry, b: Entry) => a.createdAt < b.createdAt || (a.createdAt == b.createdAt && Less(a.messageId, b.messageId))
  }

  predicate DistinctMessages(entries: seq<Entry>) {
    forall i, j :: 0 <= i < j < |entries| ==> entries[i].messageId != entries[j].messageId
  }

  // ---------------------------------------------------------------- what the scheduler should answer

  predicate IsPaused(rt: Runtime, contactId: bytes, now: int) {
    contactId in rt.paused && rt.paused[contactId] > now
  }

  predicate IsAwaiting(rt: Runtime, messageId: bytes, now: int) {
    messageId in rt.awaiting && rt.awaiting[messageId] > now
  }

  /** Delivered, or forwarded and waiting for the peer's receipt: such an entry does not block its contact. */
  predicate Advanced(rt: Runtime, e: Entry, now: int) {
    e.delivered || IsAwaiting(rt, e.messageId, now)
  }

  /** The oldest entry of its contact that is not advanced. */
  ghost predicate Head(entries: seq<Entry>, rt: Runtime, now: int, e: Entry) {
    && e in entries
    && !Advanced(rt, e, now)
    && forall other :: other in entries && other.contactId == e.contactId && !Advanced(rt, other, now) ==> other == e || Before()(e, other)
  }

  ghost predicate Eligible(entries: seq<Entry>, rt: Runtime, now: int, e: Entry) {
    Head(entries, rt, now, e) && e.nextAttemptAt <= now && !IsPaused(rt, e.contactId, now) && !IsAwaiting(rt, e.messageId, now)
  }

  /** A delivered entry whose receipt history has run out. */
  predicate Expired(e: Entry, now: int) {
    e.delivered && now - e.createdAt >= MAX_AGE_MS
  }

  function Max(a: int, b: int): int { if a < b then b else a }

  function Value(m: map<bytes, int>, key: bytes, default_: int): int { if key in m then m[key] else default_ }

  /** The time at which an entry next matters, as nextWakeDelay computes it. */
  function EventAt(rt: Runtime, now: int, e: Entry): int {
    if !Advanced(rt, e, now) then Max(e.nextAttemptAt, Max(Value(rt.paused, e.contactId, 0), Value(rt.awaiting, e.messageId, 0)))
    else if e.delivered then e.createdAt + MAX_AGE_MS
    else Value(rt.awaiting, e.messageId, e.nextAttemptAt)
  }

  ghost predicate Matters(entries: seq<Entry>, rt: Runtime, now: int, e: Entry) {
    e in entries && (Advanced(rt, e, now) || Head(entries, rt, now, e))
  }

  /** The earliest such time. */
  ghost predicate WakeAt(entries: seq<Entry>, rt: Runtime, now: int, wake: int) {
    && (exists e :: Matters(entries, rt, now, e) && EventAt(rt, now, e) == wake)
    && (forall e :: Matters(entries, rt, now, e) ==> wake <= EventAt(rt, now, e))
  }

  // ---------------------------------------------------------------- no spin, nothing missed

  /** Up to the wake time the same entries are advanced. */
  lemma {:induction false} AdvancedUntilWake(entries: seq<Entry>, rt: Runtime, now: int, wake: int, t: int, e: Entry)
    requires WakeAt(entries, rt, now, wake) && now <= t < wake && e in entries
    ensures Advanced(rt, e, t) <==> Advanced(rt, e, now)
  {
    if Advanced(rt, e, now) {
      assert Matters(entries, rt, now, e);
    }
  }

  lemma {:induction false} HeadsUntilWake(entries: seq<Entry>, rt: Runtime, now: int, wake: int, t: int, e: Entry)
    requires WakeAt(entries, rt, now, wake) && now <= t < wake && e in entries
    ensures Head(entries, rt, t, e) <==> Head(entries, rt, now, e)
  {
    forall other | other in entries ensures Advanced(rt, other, t) <==> Advanced(rt, other, now) {
      AdvancedUntilWake(entries, rt, now, wake, t, other);
    }
  }

  /**
    When nothing is eligible and no expired delivered entry is left, the wake time is in the future, and at no earlier
    time does an entry become eligible or expire.
  */
  lemma {:induction false} NothingBeforeWake(entries: seq<Entry>, rt: Runtime, now: int, wake: int)
    requires 0 <= now && WakeAt(entries, rt, now, wake)
    requires forall e :: e in entries ==> !Eligible(entries, rt, now, e) && !Expired(e, now)
    ensures wake > now
    ensures forall t, e :: now <= t < wake && e in entries ==> !Eligible(entries, rt, t, e) && !Expired(e, t)
  {
    var first :| Matters(entries, rt, now, first) && EventAt(rt, now, first) == wake;
    if Head(entries, rt, now, first) {
      assert !Eligible(entries, rt, now, first);
    } else {
      assert !Expired(first, now);
    }
    forall t, e | now <= t < wake && e in entries ensures !Eligible(entries, rt, t, e) && !Expired(e, t) {
      HeadsUntilWake(entries, rt, now, wake, t, e);
      if Head(entries, rt, now, e) || e.delivered {
        assert Matters(entries, rt, now, e);
      }
    }
  }

  /** And at the wake time there is something to do: an entry is eligible, one expires, or a receipt is overdue. */
  lemma {:induction false} WakeHasCause(entries: seq<Entry>, rt: Runtime, now: int, wake: int)
    requires 0 <= now < wake && WakeAt(entries, rt, now, wake)
    ensures (exists e :: e in entries && (Eligible(entries, rt, wake, e) || Expired(e, wake)))
         || (exists e :: e in entries && Advanced(rt, e, now) && !Advanced(rt, e, wake))
  {
    var first :| Matters(entries, rt, now, first) && EventAt(rt, now, first) == wake;
    if forall e :: e in entries && Advanced(rt, e, now) ==> Advanced(rt, e, wake) {
      if Advanced(rt, first, now) {
        assert Expired(first, wake);
      } else {
        forall other | other in entries && !Advanced(rt, other, wake) ensures !Advanced(rt, other, now) {
        }
        assert Head(entries, rt, wake, first);
        assert Eligible(entries, rt, wake, first);
      }
    }
  }

  /**
    While its contact has an entry that was created earlier, or at the same time under a smaller identifier, and that is
    neither delivered nor waiting for a receipt, an entry is never eligible, whatever its own retry time.
  */
  lemma {:induction false} HeadOfLine(entries: seq<Entry>, rt: Runtime, now: int, older: Entry, newer: Entry)
    requires older in entries && older.contactId == newer.contactId
    requires !older.delivered && !(older.messageId in rt.awaiting && rt.awaiting[older.messageId] > now)
    requires older.createdAt < newer.createdAt || (older.createdAt == newer.createdAt && Precedes(older.messageId, newer.messageId))
    ensures !Eligible(entries, rt, now, newer)
  {
    LessExact(older.messageId, newer.messageId);
    hide Precedes;
    if Before()(newer, older) {
      LessTransitive(older.messageId, newer.messageId, older.messageId);
      LessIrreflexive(older.messageId);
    }
    LessIrreflexive(older.messageId);
  }

  /** Eligible entries by what the runtime holds: due, neither paused nor waiting, and the first of their contact that is to go. */
  ghost predicate MayGo(entries: seq<Entry>, paused: map<bytes, int>, awaiting: map<bytes, int>, now: int, e: Entry) {
    && e in entries && Unsent(awaiting, now, e) && e.nextAttemptAt <= now
    && !(e.contactId in paused && paused[e.contactId] > now)
    && forall other :: other in entries && other != e && other.contactId == e.contactId && Unsent(awaiting, now, other) ==>
         e.createdAt < other.createdAt || (e.createdAt == other.createdAt && Precedes(e.messageId, other.messageId))
  }

  predicate Unsent(awaiting: map<bytes, int>, now: int, e: Entry) {
    !e.delivered && !(e.messageId in awaiting && awaiting[e.messageId] > now)
  }

  lemma {:induction false} EligibleExact(entries: seq<Entry>, rt: Runtime, now: int, e: Entry)
    ensures Eligible(entries, rt, now, e) <==> MayGo(entries, rt.paused, rt.awaiting, now, e)
  {
    forall other ensures Before()(e, other) <==> e.createdAt < other.createdAt || (e.createdAt == other.createdAt && Precedes(e.messageId, other.messageId)) {
      LessExact(e.messageId, other.messageId);
    }
    hide Precedes, Less;
  }

  // ---------------------------------------------------------------- the order

  lemma {:induction false} BeforeOrder()
    ensures StrictOrder(Before())
  {
    forall a: Entry ensures !Before()(a, a) {
      LessIrreflexive(a.messageId);
    }
    forall a: Entry, b: Entry, c: Entry | Before()(a, b) && Before()(b, c) ensures Before()(a, c) {
      if a.createdAt == b.createdAt == c.createdAt {
        LessTransitive(a.messageId, b.messageId, c.messageId);
      }
    }
  }

  lemma {:induction false} SortedEntries(entries: seq<Entry>)
    requires DistinctMessages(entries)
    ensures Ascending(Before(), Sort(Before(), entries)) && forall e :: e in Sort(Before(), entries) <==> e in entries
  {
    BeforeOrder();
    forall i, j | 0 <= i < j < |entries| ensures Before()(entries[i], entries[j]) || Before()(entries[j], entries[i]) {
      LessTotal(entries[i].messageId, entries[j].messageId);
    }
    SortAscending(Before(), entries);
    MultisetMembers(Sort(Before(), entries), entries);
  }

  // ---------------------------------------------------------------- the cut

  /** What one run looks at: the oldest entries, up to a number. */
  function Examined(outbox: seq<Entry>): (entries: seq<Entry>) {
    var sorted := Sort(Before(), outbox);
    if |sorted| <= MAX_EXAMINED then sorted else sorted[..MAX_EXAMINED]
  }

  lemma {:induction false} AscendingDistinct(entries: seq<Entry>, outbox: seq<Entry>)
    requires DistinctMessages(outbox) && Ascending(Before(), entries) && forall e :: e in entries ==> e in outbox
    ensures DistinctMessages(entries)
  {
    BeforeOrder();
    forall i, j | 0 <= i < j < |entries| ensures entries[i].messageId != entries[j].messageId {
      assert Before()(entries[i], entries[j]) && entries[i] != entries[j];
      assert entries[i] in outbox && entries[j] in outbox;
    }
  }

  /** What is looked at comes before what is not. */
  lemma {:induction false} ExaminedFirst(outbox: seq<Entry>)
    requires DistinctMessages(outbox)
    ensures DistinctMessages(Examined(outbox)) && Ascending(Before(), Examined(outbox))
    ensures forall e :: e in Examined(outbox) ==> e in outbox
    ensures forall e, later :: e in Examined(outbox) && later in outbox && later !in Examined(outbox) ==> Before()(e, later)
  {
    var sorted := Sort(Before(), outbox);
    SortedEntries(outbox);
    AscendingDistinct(Examined(outbox), outbox);
    forall e, later | e in Examined(outbox) && later in outbox && later !in Examined(outbox) ensures Before()(e, later) {
      var i :| 0 <= i < |Examined(outbox)| && Examined(outbox)[i] == e;
      var j :| 0 <= j < |sorted| && sorted[j] == later;
    }
  }

  /** The entries that are looked at are the oldest, in the order of their age; of two of one age the smaller identifier is first. */
  lemma {:induction false} OldestExamined(outbox: seq<Entry>)
    requires DistinctMessages(outbox)
    ensures |Examined(outbox)| == if |outbox| <= 128 then |outbox| else 128
    ensures DistinctMessages(Examined(outbox)) && forall e :: e in Examined(outbox) ==> e in outbox
    ensures forall i, j :: 0 <= i < j < |Examined(outbox)| ==> Examined(outbox)[i].createdAt <= Examined(outbox)[j].createdAt
    ensures forall e, later :: e in Examined(outbox) && later in outbox && later !in Examined(outbox) ==>
              e.createdAt < later.createdAt || (e.createdAt == later.createdAt && Precedes(e.messageId, later.messageId))
  {
    ExaminedFirst(outbox);
    ExaminedSize(outbox);
    hide Examined, DistinctMessages, Precedes, Less;
    forall i, j | 0 <= i < j < |Examined(outbox)| ensures Examined(outbox)[i].createdAt <= Examined(outbox)[j].createdAt {
      assert Before()(Examined(outbox)[i], Examined(outbox)[j]);
    }
    forall e, later | e in Examined(outbox) && later in outbox && later !in Examined(outbox)
      ensures e.createdAt < later.createdAt || (e.createdAt == later.createdAt && Precedes(e.messageId, later.messageId))
    {
      LessExact(e.messageId, later.messageId);
    }
  }

  lemma {:induction false} ExaminedSize(outbox: seq<Entry>)
    ensures |Examined(outbox)| == if |outbox| <= 128 then |outbox| else 128
  {
  }

  /** The cut takes entries out of consideration and changes nothing for the others. */
  lemma {:induction false} CutExact(outbox: seq<Entry>, rt: Runtime, now: int, e: Entry)
    requires DistinctMessages(outbox)
    ensures Head(Examined(outbox), rt, now, e) <==> Head(outbox, rt, now, e) && e in Examined(outbox)
    ensures Eligible(Examined(outbox), rt, now, e) <==> Eligible(outbox, rt, now, e) && e in Examined(outbox)
  {
    ExaminedFirst(outbox);
  }

  /** The cut takes nothing out exactly if the outbox is no longer than the cut. */
  lemma {:induction false} NothingCut(outbox: seq<Entry>)
    requires DistinctMessages(outbox)
    ensures |outbox| <= MAX_EXAMINED <==> forall e :: e in outbox ==> e in Examined(outbox)
  {
    var sorted := Sort(Before(), outbox);
    SortedEntries(outbox);
    if |outbox| > MAX_EXAMINED {
      BeforeOrder();
      var last := sorted[MAX_EXAMINED];
      assert last in outbox;
      forall i | 0 <= i < MAX_EXAMINED ensures sorted[i] != last {
        assert Before()(sorted[i], last);
      }
    }
  }

  /** pruneAwaitingReceiptRetries */
  function Pruned(rt: Runtime, entries: seq<Entry>): Runtime {
    rt.(awaiting := map m | m in rt.awaiting && (exists e :: e in entries && e.messageId == m) :: rt.awaiting[m])
  }

  lemma {:induction false} PrunedSame(rt: Runtime, entries: seq<Entry>, now: int, e: Entry)
    ensures e in entries ==> (Advanced(Pruned(rt, entries), e, now) <==> Advanced(rt, e, now))
    ensures Eligible(entries, Pruned(rt, entries), now, e) <==> Eligible(entries, rt, now, e)
  {
  }

  // ---------------------------------------------------------------- the runtime

  /** From `now` on, two runtimes pause and await the same. */
  ghost predicate SameFrom(rt: Runtime, rt': Runtime, now: int) {
    && (forall c :: c in rt'.paused ==> c in rt.paused && rt'.paused[c] == rt.paused[c])
    && (forall c :: c in rt.paused && rt.paused[c] > now ==> c in rt'.paused)
    && (forall m :: m in rt'.awaiting ==> m in rt.awaiting && rt'.awaiting[m] == rt.awaiting[m])
    && (forall m :: m in rt.awaiting && rt.awaiting[m] > now ==> m in rt'.awaiting)
  }

  /** Dropping pauses that are over changes no answer, now or later. */
  lemma {:induction false} SameAnswers(entries: seq<Entry>, rt: Runtime, rt': Runtime, now: int, t: int, e: Entry)
    requires SameFrom(rt, rt', now) && now <= t
    ensures Head(entries, rt', t, e) <==> Head(entries, rt, t, e)
    ensures Eligible(entries, rt', t, e) <==> Eligible(entries, rt, t, e)
  {
    forall other ensures Advanced(rt', other, t) <==> Advanced(rt, other, t) {
    }
  }

  // ---------------------------------------------------------------- the minimum that nextWakeDelay computes

  /** The least event time of these entries. */
  ghost predicate Least(rt: Runtime, now: int, wake: Option<int>, among: seq<Entry>) {
    match wake
    case None => among == []
    case Some(w) => (exists e :: e in among && EventAt(rt, now, e) == w) && forall e :: e in among ==> w <= EventAt(rt, now, e)
  }

  lemma {:induction false} LeastNext(rt: Runtime, now: int, wake: Option<int>, among: seq<Entry>, e: Entry)
    requires Least(rt, now, wake, among)
    ensures var at := EventAt(rt, now, e);
            Least(rt, now, if wake.None? || at < wake.value then Some(at) else wake, among + [e])
  {
    assert e in among + [e];
    if wake.Some? {
      var first :| first in among && EventAt(rt, now, first) == wake.value;
      assert first in among + [e];
    }
  }

  /** The advanced entries among these. */
  function Late(rt: Runtime, now: int, entries: seq<Entry>): seq<Entry> {
    if entries == [] then []
    else
      var last := entries[|entries| - 1];
      Late(rt, now, entries[..|entries| - 1]) + (if Advanced(rt, last, now) then [last] else [])
  }

  lemma {:induction false} LateMembers(rt: Runtime, now: int, entries: seq<Entry>, e: Entry)
    ensures e in Late(rt, now, entries) <==> e in entries && Advanced(rt, e, now)
  {
    if entries != [] {
      var n := |entries| - 1;
      assert entries == entries[..n] + [entries[n]];
      LateMembers(rt, now, entries[..n], e);
    }
  }

  lemma {:induction false} OldestHead(entries: seq<Entry>, rt: Runtime, now: int, e: Entry) returns (head: Entry)
    requires DistinctMessages(entries) && e in entries && !Advanced(rt, e, now)
    ensures Head(entries, rt, now, head)
  {
    var sorted := Sort(Before(), entries);
    SortedEntries(entries);
    var i := 0;
    while sorted[i].contactId != e.contactId || Advanced(rt, sorted[i], now)
      invariant 0 <= i < |sorted| && e in sorted[i..]
      invariant forall k :: 0 <= k < i ==> sorted[k].contactId != e.contactId || Advanced(rt, sorted[k], now)
      decreases |sorted| - i
    {
      assert sorted[i] != e && sorted[i..] == [sorted[i]] + sorted[i + 1..];
      i := i + 1;
    }
    head := sorted[i];
    forall other | other in entries && other.contactId == head.contactId && !Advanced(rt, other, now)
      ensures other == head || Before()(head, other)
    {
      var k :| 0 <= k < |sorted| && sorted[k] == other;
      assert k >= i;
    }
  }

  /** Over the heads and the advanced entries that least time is the wake time, and only an empty outbox has none. */
  lemma {:induction false} LeastIsWake(entries: seq<Entry>, heads: seq<Entry>, rt: Runtime, now: int, wake: Option<int>)
    requires DistinctMessages(entries) && Least(rt, now, wake, heads + Late(rt, now, entries))
    requires forall e :: e in heads <==> Head(entries, rt, now, e)
    ensures if wake.None? then entries == [] else entries != [] && WakeAt(entries, rt, now, wake.value)
  {
    var among := heads + Late(rt, now, entries);
    forall e ensures e in among <==> Matters(entries, rt, now, e) {
      LateMembers(rt, now, entries, e);
    }
    if wake.None? && entries != [] {
      if !Advanced(rt, entries[0], now) {
        var head := OldestHead(entries, rt, now, entries[0]);
      } else {
        LateMembers(rt, now, entries, entries[0]);
      }
    }
  }

  lemma {:induction false} SameAdvanced(rt: Runtime, rt': Runtime, now: int, e: Entry)
    requires SameFrom(rt, rt', now)
    ensures Advanced(rt', e, now) <==> Advanced(rt, e, now)
  {
  }

  lemma {:induction false} HeadNotAdvanced(entries: seq<Entry>, rt: Runtime, now: int, e: Entry)
    requires Head(entries, rt, now, e)
    ensures !Advanced(rt, e, now)
  {
  }

  // ---------------------------------------------------------------- the heads in order

  /** Some entry of this contact is not advanced. */
  ghost predicate Seen(sorted: seq<Entry>, rt: Runtime, now: int, c: bytes) {
    exists k :: 0 <= k < |sorted| && sorted[k].contactId == c && !Advanced(rt, sorted[k], now)
  }

  lemma {:induction false} SeenNext(sorted: seq<Entry>, rt: Runtime, now: int, e: Entry, c: bytes)
    ensures Seen(sorted + [e], rt, now, c) <==> Seen(sorted, rt, now, c) || (e.contactId == c && !Advanced(rt, e, now))
  {
    var longer := sorted + [e];
    if Seen(sorted, rt, now, c) {
      var k :| 0 <= k < |sorted| && sorted[k].contactId == c && !Advanced(rt, sorted[k], now);
      assert longer[k] == sorted[k];
    }
    assert longer[|sorted|] == e;
  }

  /** The first entry of each contact that is not advanced. */
  ghost function Pick(sorted: seq<Entry>, rt: Runtime, now: int): seq<Entry> {
    if sorted == [] then []
    else
      var front, e := sorted[..|sorted| - 1], sorted[|sorted| - 1];
      Pick(front, rt, now) + (if !Advanced(rt, e, now) && !Seen(front, rt, now, e.contactId) then [e] else [])
  }

  lemma {:induction false} PickMembers(sorted: seq<Entry>, rt: Runtime, now: int)
    requires Ascending(Before(), sorted)
    ensures Ascending(Before(), Pick(sorted, rt, now))
    ensures forall e :: e in Pick(sorted, rt, now) <==> Head(sorted, rt, now, e)
  {
    if sorted != [] {
      var front, last := sorted[..|sorted| - 1], sorted[|sorted| - 1];
      assert sorted == front + [last];
      PickMembers(front, rt, now);
      forall k | 0 <= k < |Pick(front, rt, now)| ensures Before()(Pick(front, rt, now)[k], last) {
        assert Pick(front, rt, now)[k] in Pick(front, rt, now);
        LastIsLatest(front, last, Pick(front, rt, now)[k]);
      }
      forall e ensures e in Pick(sorted, rt, now) <==> Head(sorted, rt, now, e) {
        HeadNext(front, last, rt, now, e);
      }
    }
  }

  lemma {:induction false} LastIsLatest(front: seq<Entry>, last: Entry, e: Entry)
    requires Ascending(Before(), front + [last]) && e in front
    ensures Before()(e, last) && !Before()(last, e) && e != last
  {
    BeforeOrder();
    var k :| 0 <= k < |front| && front[k] == e;
    assert (front + [last])[k] == e && (front + [last])[|front|] == last;
  }

  /** One more entry behind all others is a head exactly if its contact was not seen, and changes no other head. */
  lemma {:induction false} HeadNext(front: seq<Entry>, last: Entry, rt: Runtime, now: int, e: Entry)
    requires Ascending(Before(), front + [last])
    ensures Head(front + [last], rt, now, e)
       <==> Head(front, rt, now, e) || (e == last && !Advanced(rt, last, now) && !Seen(front, rt, now, last.contactId))
  {
    if e in front {
      LastIsLatest(front, last, e);
    }
    if Seen(front, rt, now, last.contactId) {
      var k :| 0 <= k < |front| && front[k].contactId == last.contactId && !Advanced(rt, front[k], now);
      LastIsLatest(front, last, front[k]);
      assert front[k] in front + [last];
    }
    assert last in front + [last];
  }

  lemma {:induction false} SameHeads(entries: seq<Entry>, sorted: seq<Entry>, rt: Runtime, now: int, e: Entry)
    requires forall x :: x in sorted <==> x in entries
    ensures Head(sorted, rt, now, e) <==> Head(entries, rt, now, e)
  {
  }

  function ExpiredEntries(entries: seq<Entry>, now: int): (expired: seq<Entry>)
    ensures forall e :: e in expired <==> e in entries && Expired(e, now)
  {
    if entries == [] then []
    else
      var front, last := entries[..|entries| - 1], entries[|entries| - 1];
      assert entries == front + [last];
      ExpiredEntries(front, now) + if Expired(last, now) then [last] else []
  }

  /** A Map's keys, in order, after one of them is deleted. */
  function Without(keys: seq<bytes>, key: bytes): seq<bytes> {
    if keys == [] then [] else if keys[0] == key then keys[1..] else [keys[0]] + Without(keys[1..], key)
  }

  lemma {:induction false} NoDuplicatesFront(key: bytes, keys: seq<bytes>)
    requires NoDuplicates(keys) && key !in keys
    ensures NoDuplicates([key] + keys)
  {
  }

  lemma {:induction false} WithoutMembers(keys: seq<bytes>, key: bytes)
    requires NoDuplicates(keys)
    ensures NoDuplicates(Without(keys, key)) && forall k :: k in Without(keys, key) <==> k in keys && k != key
  {
    if keys != [] {
      var rest := keys[1..];
      WithoutMembers(rest, key);
      assert keys == [keys[0]] + rest && keys[0] !in rest;
      if keys[0] != key {
        NoDuplicatesFront(keys[0], Without(rest, key));
      }
    }
  }

  // ---------------------------------------------------------------- the stored outbox

  /** The message outbox of the application state, oldest write first. */
  class OutboxStore {
    var outbox: seq<Entry>

    /** It is never longer than what one run looks at. */
    predicate Valid()
      reads this
    {
      |outbox| <= MAX_STORED && DistinctMessages(outbox)
    }

    /** hydrateOutbox: the last entries of what was stored under distinct identifiers. */
    constructor (entries: seq<Entry>)
      requires DistinctMessages(entries)
      ensures Valid() && outbox == if |entries| <= MAX_STORED then entries else entries[|entries| - MAX_STORED..]
    {
      outbox := if |entries| <= MAX_STORED then entries else entries[|entries| - MAX_STORED..];
    }

    /** settleOutboxMessage */
    method Settle(messageId: bytes)
      requires Valid()
      modifies this
      ensures Valid() && outbox == Others(old(outbox), messageId)
      ensures Remaining(outbox, old(outbox), messageId)
    {
      OthersExact(outbox, messageId);
      hide Remaining;
      OthersDistinct(outbox, messageId);
      outbox := Others(outbox, messageId);
    }

    /** markOutboxMessageDelivered: the entry stays, in its place, until it is settled. */
    method MarkDelivered(messageId: bytes)
      requires Valid()
      modifies this
      ensures Valid() && |outbox| == old(|outbox|)
      ensures forall i :: 0 <= i < |outbox| ==>
                outbox[i] == if old(outbox)[i].messageId == messageId then old(outbox)[i].(delivered := true) else old(outbox)[i]
    {
      var before := outbox;
      outbox := seq(|before|, i requires 0 <= i < |before| =>
        if before[i].messageId == messageId then before[i].(delivered := true) else before[i]);
    }

    /** queueMessage: the entry goes last, and the entries written longest ago are evicted from a full outbox. */
    method Queue(entry: Entry) returns (evicted: seq<Entry>)
      requires Valid()
      modifies this
      ensures Valid() && outbox != [] && outbox[|outbox| - 1] == entry
      ensures evicted + outbox == Others(old(outbox), entry.messageId) + [entry]
      ensures exists rest :: Remaining(rest, old(outbox), entry.messageId) && evicted + outbox == rest + [entry]
      ensures evicted != [] ==> |outbox| == MAX_STORED
    {
      OthersDistinct(outbox, entry.messageId);
      OthersExact(outbox, entry.messageId);
      var next := Others(outbox, entry.messageId) + [entry];
      hide Others, DistinctMessages, Remaining;
      ghost var all := next;
      evicted := [];
      while |next| > MAX_STORED
        invariant |evicted| < |all| && evicted == all[..|evicted|] && next == all[|evicted|..]
        invariant evicted != [] ==> |next| >= MAX_STORED
      {
        evicted := evicted + [next[0]];
        next := next[1..];
      }
      TailDistinct(all, |evicted|);
      outbox := next;
    }

    /** Every stored entry is looked at in every run. */
    lemma {:induction false} AllExamined()
      requires Valid()
      ensures forall e :: e in outbox <==> e in Examined(outbox)
    {
      NothingCut(outbox);
      ExaminedFirst(outbox);
    }
  }

  lemma {:induction false} TailDistinct(entries: seq<Entry>, k: nat)
    requires k <= |entries| && DistinctMessages(entries)
    ensures DistinctMessages(entries[k..])
  {
  }

  function Others(outbox: seq<Entry>, messageId: bytes): (others: seq<Entry>)
    ensures forall e :: e in others <==> e in outbox && e.messageId != messageId
    ensures |others| <= |outbox|
  {
    if outbox == [] then []
    else
      var front, last := outbox[..|outbox| - 1], outbox[|outbox| - 1];
      assert outbox == front + [last];
      Others(front, messageId) + if last.messageId != messageId then [last] else []
  }

  /** The other entries, in their order. */
  ghost predicate Remaining(rest: seq<Entry>, outbox: seq<Entry>, messageId: bytes) {
    exists keep :: Selections.Selected(rest, outbox, keep) && Spares(keep, messageId)
  }

  ghost predicate Spares(keep: Entry -> bool, messageId: bytes) {
    forall e :: keep(e) <==> e.messageId != messageId
  }

  lemma {:induction false} OthersNext(front: seq<Entry>, last: Entry, messageId: bytes)
    ensures Others(front + [last], messageId) == if last.messageId != messageId then Others(front, messageId) + [last] else Others(front, messageId)
    ensures Others([], messageId) == []
  {
    assert (front + [last])[..|front|] == front;
  }

  lemma {:induction false} OthersSelected(outbox: seq<Entry>, messageId: bytes, keep: Entry -> bool)
    requires Spares(keep, messageId)
    ensures Selections.Selected(Others(outbox, messageId), outbox, keep)
  {
    hide Selections.Selected, Others;
    if outbox == [] {
      Selections.NoneSelected(keep);
      OthersNext([], Entry([], [], 0, 0, false), messageId);
    } else {
      var front, last := outbox[..|outbox| - 1], outbox[|outbox| - 1];
      OthersSelected(front, messageId, keep);
      Selections.SelectNext(Others(front, messageId), front, last, keep);
      OthersNext(front, last, messageId);
      assert keep(last) <==> last.messageId != messageId;
      hide Spares;
      assert outbox == front + [last];
    }
  }

  lemma {:induction false} OthersExact(outbox: seq<Entry>, messageId: bytes)
    ensures Remaining(Others(outbox, messageId), outbox, messageId)
  {
    var keep := (e: Entry) => e.messageId != messageId;
    OthersSelected(outbox, messageId, keep);
  }

  lemma {:induction false} OthersDistinct(outbox: seq<Entry>, messageId: bytes)
    requires DistinctMessages(outbox)
    ensures DistinctMessages(Others(outbox, messageId))
  {
    if outbox != [] {
      var front, last := outbox[..|outbox| - 1], outbox[|outbox| - 1];
      OthersDistinct(front, messageId);
      forall e | e in Others(front, messageId) ensures e.messageId != last.messageId {
        assert e in front;
      }
    }
  }

  // ---------------------------------------------------------------- in place

  class OutboxRuntime {
    var preferredContactId: Option<bytes>
    var pausedUntil: map<bytes, int>
    var pauseOrder: seq<bytes>
    var awaitingRetryAt: map<bytes, int>

    function View(): Runtime
      reads this
    {
      Runtime(preferredContactId, pausedUntil, awaitingRetryAt)
    }

    /** The paused contacts in the order in which they were entered, which is the order of the Map's keys. */
    ghost predicate Ordered()
      reads this
    {
      NoDuplicates(pauseOrder) && forall c :: c in pauseOrder <==> c in pausedUntil
    }

    constructor ()
      ensures View() == Runtime(None, map[], map[]) && Ordered()
    {
      preferredContactId, pausedUntil, pauseOrder, awaitingRetryAt := None, map[], [], map[];
    }

    method IsContactDrainPaused(contactId: bytes, now: int) returns (paused: bool)
      requires Ordered()
      modifies this`pausedUntil, this`pauseOrder
      ensures Ordered() && paused == IsPaused(old(View()), contactId, now) && SameFrom(old(View()), View(), now)
    {
      if contactId !in pausedUntil {
        return false;
      }
      if pausedUntil[contactId] > now {
        return true;
      }
      WithoutMembers(pauseOrder, contactId);
      pausedUntil := pausedUntil - {contactId};
      pauseOrder := Without(pauseOrder, contactId);
      return false;
    }

    method IsAwaitingReceiptRetry(messageId: bytes, now: int) returns (awaiting: bool)
      modifies this`awaitingRetryAt
      ensures awaiting == IsAwaiting(old(View()), messageId, now) && SameFrom(old(View()), View(), now)
    {
      if messageId !in awaitingRetryAt {
        return false;
      }
      if awaitingRetryAt[messageId] > now {
        return true;
      }
      awaitingRetryAt := awaitingRetryAt - {messageId};
      return false;
    }

    static lemma {:induction false} SameOn(a: Runtime, b: Runtime, c: Runtime, now: int)
      requires SameFrom(a, b, now) && SameFrom(b, c, now)
      ensures SameFrom(a, c, now)
    {
    }

    /** advancedOutboxMessageIds */
    method AdvancedMessageIds(entries: seq<Entry>, now: int) returns (ids: set<bytes>)
      requires DistinctMessages(entries)
      modifies this`awaitingRetryAt
      ensures SameFrom(old(View()), View(), now)
      ensures forall e :: e in entries ==> (e.messageId in ids <==> Advanced(old(View()), e, now))
    {
      ids := {};
      var i := 0;
      while i < |entries|
        invariant 0 <= i <= |entries| && SameFrom(old(View()), View(), now)
        invariant forall k :: 0 <= k < i ==> (entries[k].messageId in ids <==> Advanced(old(View()), entries[k], now))
        invariant forall m :: m in ids ==> exists k :: 0 <= k < i && entries[k].messageId == m
      {
        ghost var before := View();
        if entries[i].delivered {
          ids := ids + {entries[i].messageId};
        } else {
          var awaiting := IsAwaitingReceiptRetry(entries[i].messageId, now);
          SameOn(old(View()), before, View(), now);
          if awaiting {
            ids := ids + {entries[i].messageId};
          }
        }
        i := i + 1;
      }
    }

    /** contactOutboxHeads: walk the entries in order and keep the first that is not advanced for each contact. */
    static method ContactHeads(entries: seq<Entry>, advanced: set<bytes>, ghost rt: Runtime, ghost now: int) returns (heads: seq<Entry>)
      requires DistinctMessages(entries)
      requires forall e :: e in entries ==> (e.messageId in advanced <==> Advanced(rt, e, now))
      ensures Ascending(Before(), heads) && forall e :: e in heads <==> Head(entries, rt, now, e)
    {
      hide Head, Seen, Advanced, Pick, Sort;
      var sorted := Sort(Before(), entries);
      SortedEntries(entries);
      heads := [];
      var seen: set<bytes>, i := {}, 0;
      NonePicked(rt, now);
      while i < |sorted|
        invariant 0 <= i <= |sorted|
        invariant heads == Pick(sorted[..i], rt, now)
        invariant forall c :: c in seen <==> Seen(sorted[..i], rt, now, c)
      {
        var e := sorted[i];
        assert e in entries && sorted[..i + 1] == sorted[..i] + [e];
        forall c ensures Seen(sorted[..i + 1], rt, now, c) <==> Seen(sorted[..i], rt, now, c) || (e.contactId == c && !Advanced(rt, e, now)) {
          SeenNext(sorted[..i], rt, now, e, c);
        }
        PickNext(sorted[..i], rt, now, e);
        if e.messageId !in advanced && e.contactId !in seen {
          heads := heads + [e];
        }
        if e.messageId !in advanced {
          seen := seen + {e.contactId};
        }
        i := i + 1;
      }
      assert sorted[..i] == sorted;
      PickMembers(sorted, rt, now);
      forall e ensures e in heads <==> Head(entries, rt, now, e) {
        SameHeads(entries, sorted, rt, now, e);
      }
    }

    static lemma {:induction false} NonePicked(rt: Runtime, now: int)
      ensures Pick([], rt, now) == [] && forall c :: !Seen([], rt, now, c)
    {
    }

    static lemma {:induction false} PickNext(front: seq<Entry>, rt: Runtime, now: int, e: Entry)
      ensures Pick(front + [e], rt, now) == Pick(front, rt, now) + if !Advanced(rt, e, now) && !Seen(front, rt, now, e.contactId) then [e] else []
    {
      assert (front + [e])[..|front|] == front;
    }

    /**
      nextEligibleEntry: an entry of the preferred contact if one is eligible, and otherwise the oldest eligible entry
      of all.
    */
    method NextEligibleEntry(entries: seq<Entry>, now: int) returns (due: Option<Entry>)
      requires DistinctMessages(entries) && Ordered()
      modifies this
      ensures Ordered() && SameFrom(old(View()), View(), now)
      ensures due.None? <==> forall e :: !Eligible(entries, old(View()), now, e)
      ensures due.Some? ==> Eligible(entries, old(View()), now, due.value)
      ensures due.Some? ==>
                if exists e :: Eligible(entries, old(View()), now, e) && old(preferredContactId) == Some(e.contactId)
                then old(preferredContactId) == Some(due.value.contactId)
                else forall e :: Eligible(entries, old(View()), now, e) ==> e == due.value || Before()(due.value, e)
      ensures due.None? <==> forall e :: !MayGo(entries, old(pausedUntil), old(awaitingRetryAt), now, e)
      ensures due.Some? ==> MayGo(entries, old(pausedUntil), old(awaitingRetryAt), now, due.value)
      ensures preferredContactId == if due.Some? && Some(due.value.contactId) == old(preferredContactId) then old(preferredContactId) else None
      ensures due.Some? && old(preferredContactId) != Some(due.value.contactId) ==>
                forall e :: MayGo(entries, old(pausedUntil), old(awaitingRetryAt), now, e) ==>
                  && old(preferredContactId) != Some(e.contactId)
                  && (e == due.value || due.value.createdAt < e.createdAt
                      || (due.value.createdAt == e.createdAt && Precedes(due.value.messageId, e.messageId)))
    {
      hide Head, MayGo, Precedes, Less;
      ghost var rt := View();
      forall e ensures Eligible(entries, rt, now, e) <==> MayGo(entries, pausedUntil, awaitingRetryAt, now, e) {
        EligibleExact(entries, rt, now, e);
      }
      forall a: Entry, b: Entry ensures Before()(a, b) ==> a.createdAt < b.createdAt || (a.createdAt == b.createdAt && Precedes(a.messageId, b.messageId)) {
        LessExact(a.messageId, b.messageId);
      }
      var advanced := AdvancedMessageIds(entries, now);
      var heads := ContactHeads(entries, advanced, rt, now);
      var eligible := EligibleHeads(entries, heads, rt, now);
      if preferredContactId.Some? {
        var k := 0;
        while k < |eligible|
          invariant 0 <= k <= |eligible|
          invariant forall m :: 0 <= m < k ==> Some(eligible[m].contactId) != preferredContactId
        {
          if eligible[k].contactId == preferredContactId.value {
            assert eligible[k] in eligible;
            return Some(eligible[k]);
          }
          k := k + 1;
        }
        preferredContactId := None;
      }
      if eligible == [] {
        return None;
      }
      assert eligible[0] in eligible;
      return Some(eligible[0]);
    }

    /** The heads that may be sent now. */
    method EligibleHeads(entries: seq<Entry>, heads: seq<Entry>, ghost rt: Runtime, now: int) returns (eligible: seq<Entry>)
      requires SameFrom(rt, View(), now) && Ordered()
      requires Ascending(Before(), heads) && forall e :: e in heads <==> Head(entries, rt, now, e)
      modifies this`pausedUntil, this`pauseOrder, this`awaitingRetryAt
      ensures Ordered() && SameFrom(rt, View(), now)
      ensures Ascending(Before(), eligible) && forall e :: e in eligible <==> Eligible(entries, rt, now, e)
    {
      hide Head;
      eligible := [];
      var i := 0;
      while i < |heads|
        invariant 0 <= i <= |heads| && SameFrom(rt, View(), now) && Ordered()
        invariant Ascending(Before(), eligible)
        invariant forall e :: e in eligible ==> e in heads[..i] && Eligible(entries, rt, now, e)
        invariant forall k :: 0 <= k < i && Eligible(entries, rt, now, heads[k]) ==> heads[k] in eligible
      {
        var e := heads[i];
        ghost var before := View();
        var paused := true;
        if e.nextAttemptAt <= now {
          paused := IsContactDrainPaused(e.contactId, now);
          SameOn(rt, before, View(), now);
          if !paused {
            before := View();
            paused := IsAwaitingReceiptRetry(e.messageId, now);
            SameOn(rt, before, View(), now);
          }
        }
        assert paused <==> !Eligible(entries, rt, now, e) by {
          assert e in heads;
        }
        if !paused {
          forall k | 0 <= k < |eligible| ensures Before()(eligible[k], e) {
            assert eligible[k] in heads[..i];
          }
          eligible := eligible + [e];
        }
        i := i + 1;
      }
      assert heads[..i] == heads;
      forall e ensures e in eligible <==> Eligible(entries, rt, now, e) {
        if Eligible(entries, rt, now, e) {
          assert e in heads;
        }
      }
    }

    method HeadsWake(heads: seq<Entry>, now: int) returns (wake: Option<int>)
      requires forall e :: e in heads ==> !Advanced(View(), e, now)
      ensures Least(View(), now, wake, heads)
    {
      wake := None;
      var i := 0;
      while i < |heads|
        invariant 0 <= i <= |heads|
        invariant Least(View(), now, wake, heads[..i])
      {
        var e := heads[i];
        assert e in heads && heads[..i + 1] == heads[..i] + [e];
        var pause := if e.contactId in pausedUntil then pausedUntil[e.contactId] else 0;
        var retry := if e.messageId in awaitingRetryAt then awaitingRetryAt[e.messageId] else 0;
        var at := Max(e.nextAttemptAt, Max(pause, retry));
        LeastNext(View(), now, wake, heads[..i], e);
        if wake.None? || at < wake.value {
          wake := Some(at);
        }
        i := i + 1;
      }
      assert heads[..i] == heads;
    }

    method LateWake(entries: seq<Entry>, advanced: set<bytes>, now: int, first: Option<int>, ghost heads: seq<Entry>) returns (wake: Option<int>)
      requires forall e :: e in entries ==> (e.messageId in advanced <==> Advanced(View(), e, now))
      requires Least(View(), now, first, heads)
      ensures Least(View(), now, wake, heads + Late(View(), now, entries))
    {
      hide Least;
      wake := first;
      var i := 0;
      assert heads + Late(View(), now, entries[..0]) == heads;
      while i < |entries|
        invariant 0 <= i <= |entries|
        invariant Least(View(), now, wake, heads + Late(View(), now, entries[..i]))
      {
        var e := entries[i];
        ghost var before, after := heads + Late(View(), now, entries[..i]), heads + Late(View(), now, entries[..i + 1]);
        assert entries[..i + 1][..i] == entries[..i];
        if e.messageId in advanced {
          var at := if e.delivered then e.createdAt + MAX_AGE_MS
                    else if e.messageId in awaitingRetryAt then awaitingRetryAt[e.messageId]
                    else e.nextAttemptAt;
          assert after == before + [e];
          LeastNext(View(), now, wake, before, e);
          if wake.None? || at < wake.value {
            wake := Some(at);
          }
        } else {
          assert after == before;
        }
        i := i + 1;
      }
      assert entries[..i] == entries;
    }

    /** nextWakeDelay */
    method NextWakeDelay(entries: seq<Entry>, now: int) returns (delay: int)
      requires DistinctMessages(entries)
      modifies this`awaitingRetryAt
      ensures SameFrom(old(View()), View(), now)
      ensures if entries == [] then delay == IDLE_DELAY_MS
              else exists wake :: WakeAt(entries, View(), now, wake) && delay == Max(0, wake - now)
    {
      hide Head, Least;
      ghost var before := View();
      var advanced := AdvancedMessageIds(entries, now);
      ghost var rt := View();
      forall e | e in entries ensures e.messageId in advanced <==> Advanced(rt, e, now) {
        SameAdvanced(before, rt, now, e);
      }
      var heads := ContactHeads(entries, advanced, rt, now);
      forall e | e in heads ensures !Advanced(rt, e, now) {
        HeadNotAdvanced(entries, rt, now, e);
      }
      var wake := HeadsWake(heads, now);
      wake := LateWake(entries, advanced, now, wake, heads);
      LeastIsWake(entries, heads, rt, now, wake);
      return if wake.None? then IDLE_DELAY_MS else Max(0, wake.value - now);
    }

    /**
      An entry to send, or a delay. The delay neither spins nor sleeps past a time at which an entry is eligible or
      expires, as long as nothing else happens.
    */
    method DueOrDelay(entries: seq<Entry>, now: int) returns (due: Option<Entry>, delay: int)
      requires 0 <= now && DistinctMessages(entries) && Ordered()
      requires forall e :: e in entries ==> !Expired(e, now)
      modifies this
      ensures Ordered()
      ensures due.None? <==> forall e :: !Eligible(entries, old(View()), now, e)
      ensures due.Some? ==> Eligible(entries, old(View()), now, due.value)
      ensures due.None? ==> delay > 0
      ensures due.None? ==> forall t, e :: now <= t < now + delay && e in entries ==> !Eligible(entries, View(), t, e) && !Expired(e, t)
    {
      hide Head, Eligible, WakeAt;
      ghost var before := View();
      due := NextEligibleEntry(entries, now);
      delay := 0;
      if due.None? {
        ghost var middle := View();
        delay := NextWakeDelay(entries, now);
        SameOn(before, middle, View(), now);
        forall e ensures !Eligible(entries, View(), now, e) {
          SameAnswers(entries, before, View(), now, now, e);
        }
        if entries != [] {
          ghost var wake :| WakeAt(entries, View(), now, wake) && delay == Max(0, wake - now);
          NothingBeforeWake(entries, View(), now, wake);
        }
      }
    }

    /** pruneAwaitingReceiptRetries: a loop over the keys that drops those of no entry. */
    method PruneAwaitingReceiptRetries(entries: seq<Entry>)
      modifies this`awaitingRetryAt
      ensures View() == Pruned(old(View()), entries)
    {
      var pending := awaitingRetryAt.Keys;
      while pending != {}
        invariant pending <= awaitingRetryAt.Keys
        invariant forall m :: m in awaitingRetryAt <==> m in old(awaitingRetryAt) && (m in pending || exists e :: e in entries && e.messageId == m)
        invariant forall m :: m in awaitingRetryAt ==> awaitingRetryAt[m] == old(awaitingRetryAt)[m]
        decreases |pending|
      {
        var m :| m in pending;
        pending := pending - {m};
        if forall e :: e in entries ==> e.messageId != m {
          awaitingRetryAt := awaitingRetryAt - {m};
        }
      }
    }

    /**
      `run` up to sending, on the stored outbox: delivered entries to settle, or an entry to send, or a delay. Only the
      oldest entries are looked at; among them nothing is missed.
    */
    method Look(outbox: seq<Entry>, now: int) returns (expired: seq<Entry>, due: Option<Entry>, delay: int)
      requires 0 <= now && DistinctMessages(outbox) && Ordered()
      modifies this
      ensures Ordered()
      ensures forall e :: e in expired <==> e in Examined(outbox) && Expired(e, now)
      ensures forall e :: e in expired <==> e in Examined(outbox) && e.delivered && now - e.createdAt >= 604_800_000
      ensures due.Some? ==> MayGo(outbox, old(pausedUntil), old(awaitingRetryAt), now, due.value)
      ensures due.None? && expired == [] ==> forall e :: e in Examined(outbox) ==> !MayGo(outbox, old(pausedUntil), old(awaitingRetryAt), now, e)
      ensures due.Some? ==> expired == [] && Eligible(outbox, old(View()), now, due.value)
      ensures due.None? && expired == [] ==> forall e :: e in Examined(outbox) ==> !Eligible(outbox, old(View()), now, e)
      ensures due.None? && expired == [] ==> delay > 0
      ensures due.None? && expired == [] ==>
                forall t, e :: now <= t < now + delay && e in Examined(outbox) ==> !Eligible(outbox, View(), t, e) && !Expired(e, t)
    {
      hide Eligible, Examined, MayGo;
      var entries := Examined(outbox);
      forall e ensures Eligible(outbox, View(), now, e) <==> MayGo(outbox, pausedUntil, awaitingRetryAt, now, e) {
        EligibleExact(outbox, View(), now, e);
      }
      ghost var before := View();
      ExaminedFirst(outbox);
      PruneAwaitingReceiptRetries(entries);
      ghost var pruned := View();
      expired, due, delay := ExpiredEntries(entries, now), None, 0;
      if expired == [] {
        due, delay := DueOrDelay(entries, now);
        forall e ensures Eligible(entries, pruned, now, e) <==> e in entries && Eligible(outbox, before, now, e) {
          PrunedSame(before, entries, now, e);
          CutExact(outbox, before, now, e);
        }
        forall t, e | e in entries ensures Eligible(entries, View(), t, e) <==> Eligible(outbox, View(), t, e) {
          CutExact(outbox, View(), t, e);
        }
      }
    }

    /**
      pauseContactDrain. A contact that is paused already keeps its place; when the table is full, the contact that was
      entered first makes room.
    */
    method PauseContactDrain(contactId: bytes, retryAt: int)
      requires Ordered()
      modifies this`pausedUntil, this`pauseOrder
      ensures Ordered() && contactId in pausedUntil && pausedUntil[contactId] == retryAt
      ensures old(|pauseOrder|) <= MAX_PAUSED ==> |pauseOrder| <= MAX_PAUSED
      ensures pauseOrder == if contactId in old(pausedUntil) then old(pauseOrder)
                            else (if old(|pauseOrder|) < MAX_PAUSED then old(pauseOrder) else old(pauseOrder)[1..]) + [contactId]
      ensures forall c :: c in pauseOrder && c != contactId ==> c in old(pausedUntil) && pausedUntil[c] == old(pausedUntil)[c]
    {
      if contactId !in pausedUntil {
        if |pauseOrder| >= MAX_PAUSED {
          var oldest := pauseOrder[0];
          assert pauseOrder == [oldest] + pauseOrder[1..];
          pausedUntil := pausedUntil - {oldest};
          pauseOrder := pauseOrder[1..];
        }
        pauseOrder := pauseOrder + [contactId];
      }
      pausedUntil := pausedUntil[contactId := retryAt];
    }
  }
}
