/** The bounded replay window of internal/relay/hub.go: a digest table and a ring of keys, evicted together. */
module ReplayWindows {
  import opened Bytes

  datatype Key = Key(sender: bytes, stream: uint64, id: bytes)

  datatype Delivered = Delivered(key: Key, digest: bytes)

  /** deliveryWindow: `order` is a ring of at most `capacity` keys and `next` its oldest position once full. */
  datatype Window = Window(entries: map<Key, bytes>, order: seq<Key>, next: nat)

  function EmptyWindow(): Window { Window(map[], [], 0) }

  /** deliveryWindow.remember; Shape excludes the last branch, where Go would index out of range. */
  function Remembered(w: Window, capacity: nat, d: Delivered): Window {
    if |w.order| < capacity then
      Window(w.entries[d.key := d.digest], w.order + [d.key], w.next)
    else if w.next < |w.order| then
      Window((w.entries - {w.order[w.next]})[d.key := d.digest], w.order[w.next := d.key], (w.next + 1) % |w.order|)
    else w
  }

  /** The shape that makes `remember` well defined. */
  predicate Shape(w: Window, capacity: nat) {
    && 0 < capacity
    && |w.order| <= capacity
    && (if |w.order| < capacity then w.next == 0 else w.next < capacity)
  }

  /** What the window stands for: the newest `capacity` deliveries, oldest first. */
  function Newest(history: seq<Delivered>, capacity: nat): seq<Delivered> {
    if |history| <= capacity then history else history[|history| - capacity..]
  }

  function Keys(history: seq<Delivered>): seq<Key> {
    seq(|history|, i requires 0 <= i < |history| => history[i].key)
  }

  predicate DistinctKeys(history: seq<Delivered>) {
    forall i, j :: 0 <= i < j < |history| ==> history[i].key != history[j].key
  }

  /** The window holds the newest deliveries, in ring order, under distinct keys and with their digests. */
  ghost predicate Refines(w: Window, capacity: nat, history: seq<Delivered>) {
    var newest := Newest(history, capacity);
    && Shape(w, capacity)
    && w.order[w.next..] + w.order[..w.next] == Keys(newest)
    && DistinctKeys(newest)
    && Tabulates(w.entries, newest)
  }

  predicate HasKey(history: seq<Delivered>, key: Key) {
    exists i :: 0 <= i < |history| && history[i].key == key
  }

  /** The table holds the digest of each of these deliveries and nothing else. */
  ghost predicate Tabulates(entries: map<Key, bytes>, history: seq<Delivered>) {
    && (forall key :: key in entries <==> HasKey(history, key))
    && (forall i :: 0 <= i < |history| ==> history[i].key in entries && entries[history[i].key] == history[i].digest)
  }

  lemma {:induction false} EmptyRefines(capacity: nat)
    requires 0 < capacity
    ensures Refines(EmptyWindow(), capacity, [])
  {
  }

  lemma {:induction false} NewestAppend(history: seq<Delivered>, capacity: nat, d: Delivered)
    requires 0 < capacity
    ensures Newest(history + [d], capacity)
         == (if |history| < capacity then history else Newest(history, capacity)[1..]) + [d]
  {
  }

  lemma {:induction false} Wrap(k: nat, n: nat)
    requires 0 < k <= n
    ensures k % n == if k == n then 0 else k
  {
  }

  lemma {:induction false} RingAppend(order: seq<Key>, next: nat, key: Key)
    requires next < |order|
    ensures var order' := order[next := key];
            var next' := (next + 1) % |order|;
            next' < |order| && order'[next'..] + order'[..next'] == (order[next..] + order[..next])[1..] + [key]
  {
    Wrap(next + 1, |order|);
  }

  lemma {:induction false} KeysAppend(history: seq<Delivered>, d: Delivered)
    ensures Keys(history + [d]) == Keys(history) + [d.key]
    ensures history != [] ==> Keys(history[1..]) == Keys(history)[1..]
  {
  }

  lemma {:induction false} RememberOrder(w: Window, capacity: nat, history: seq<Delivered>, d: Delivered)
    requires Refines(w, capacity, history)
    ensures var w' := Remembered(w, capacity, d);
            Shape(w', capacity) && w'.order[w'.next..] + w'.order[..w'.next] == Keys(Newest(history + [d], capacity))
  {
    var before := Newest(history, capacity);
    NewestAppend(history, capacity, d);
    assert |w.order| == |before| by {
      assert |w.order| == |w.order[w.next..] + w.order[..w.next]|;
    }
    if |w.order| < capacity {
      KeysAppend(history, d);
      assert w.order[0..] + w.order[..0] == w.order;
      assert (w.order + [d.key])[0..] + (w.order + [d.key])[..0] == w.order + [d.key];
    } else {
      RingAppend(w.order, w.next, d.key);
      KeysAppend(before, d);
      KeysAppend(before[1..], d);
    }
  }

  lemma {:induction false} TabulatesAppend(entries: map<Key, bytes>, history: seq<Delivered>, d: Delivered)
    requires Tabulates(entries, history) && DistinctKeys(history) && d.key !in entries
    ensures Tabulates(entries[d.key := d.digest], history + [d]) && DistinctKeys(history + [d])
  {
    var longer := history + [d];
    forall key ensures key in entries[d.key := d.digest] <==> HasKey(longer, key) {
      if key == d.key {
        assert longer[|history|].key == key;
      } else if HasKey(history, key) {
        var i :| 0 <= i < |history| && history[i].key == key;
        assert longer[i].key == key;
      }
    }
  }

  lemma {:induction false} TabulatesDrop(entries: map<Key, bytes>, history: seq<Delivered>)
    requires Tabulates(entries, history) && DistinctKeys(history) && history != []
    ensures Tabulates(entries - {history[0].key}, history[1..]) && DistinctKeys(history[1..])
  {
    forall key ensures key in entries - {history[0].key} <==> HasKey(history[1..], key) {
      if HasKey(history, key) && key != history[0].key {
        var i :| 0 <= i < |history| && history[i].key == key;
        assert history[1..][i - 1].key == key;
      }
    }
  }

  /** The key is not held, or only by the delivery that this one evicts. */
  predicate Evicts(w: Window, capacity: nat, key: Key) {
    key !in w.entries || (|w.order| == capacity && w.next < |w.order| && w.order[w.next] == key)
  }

  lemma {:induction false} RememberEntries(w: Window, capacity: nat, history: seq<Delivered>, d: Delivered)
    requires Refines(w, capacity, history) && Evicts(w, capacity, d.key)
    ensures var newest := Newest(history + [d], capacity);
            DistinctKeys(newest) && Tabulates(Remembered(w, capacity, d).entries, newest)
  {
    NewestAppend(history, capacity, d);
    var before := Newest(history, capacity);
    assert |w.order| == |w.order[w.next..] + w.order[..w.next]| == |before|;
    if |w.order| < capacity {
      TabulatesAppend(w.entries, before, d);
    } else {
      assert w.order[w.next] == (w.order[w.next..] + w.order[..w.next])[0] == before[0].key;
      TabulatesDrop(w.entries, before);
      TabulatesAppend(w.entries - {before[0].key}, before[1..], d);
    }
  }

  lemma {:induction false} RememberRepeats(w: Window, capacity: nat, history: seq<Delivered>, d: Delivered)
    requires Refines(w, capacity, history) && !Evicts(w, capacity, d.key)
    ensures !DistinctKeys(Newest(history + [d], capacity))
  {
    var before, after := Newest(history, capacity), Newest(history + [d], capacity);
    NewestAppend(history, capacity, d);
    assert |w.order| == |w.order[w.next..] + w.order[..w.next]| == |before|;
    assert w.order != [] && |w.order| == capacity ==> w.order[w.next] == (w.order[w.next..] + w.order[..w.next])[0] == before[0].key;
    var i :| 0 <= i < |before| && before[i].key == d.key;
    if |history| < capacity {
      assert after[i] == before[i] && after[|before|] == d;
    } else {
      assert after[i - 1] == before[i] && after[|before| - 1] == d;
    }
  }

  /**
    Remembering a delivery keeps the window the newest deliveries if and only if the window does not hold its key, or
    holds it only for the delivery that is evicted.
  */
  lemma {:induction false} RememberRefines(w: Window, capacity: nat, history: seq<Delivered>, d: Delivered)
    requires Refines(w, capacity, history)
    ensures Refines(Remembered(w, capacity, d), capacity, history + [d]) <==> Evicts(w, capacity, d.key)
  {
    if Evicts(w, capacity, d.key) {
      RememberOrder(w, capacity, history, d);
      RememberEntries(w, capacity, history, d);
    } else {
      RememberRepeats(w, capacity, history, d);
    }
  }

  /** Lookups answer for the newest deliveries and for nothing else. */
  lemma {:induction false} LookupExact(w: Window, capacity: nat, history: seq<Delivered>, d: Delivered)
    requires Refines(w, capacity, history)
    ensures (d.key in w.entries && w.entries[d.key] == d.digest) <==> d in Newest(history, capacity)
    ensures (d.key in w.entries && w.entries[d.key] != d.digest)
       <==> exists e :: e in Newest(history, capacity) && e.key == d.key && e.digest != d.digest
  {
    var newest := Newest(history, capacity);
    if d.key in w.entries {
      var i :| 0 <= i < |newest| && newest[i].key == d.key;
      assert newest[i] in newest;
    }
  }

  /** Between two deliveries of one key there are at least `capacity` others. */
  ghost predicate Spaced(history: seq<Delivered>, capacity: nat) {
    forall i, j :: 0 <= i < j < |history| && history[i].key == history[j].key ==> j - i > capacity
  }

  lemma {:induction false} SpacedAppend(w: Window, capacity: nat, history: seq<Delivered>, d: Delivered)
    requires Refines(w, capacity, history) && d.key !in w.entries && Spaced(history, capacity)
    ensures Spaced(history + [d], capacity)
  {
    var newest := Newest(history, capacity);
    forall i | 0 <= i < |history| && |history| - i <= capacity ensures history[i].key != d.key {
      assert newest[i - (|history| - |newest|)] == history[i];
    }
  }

  /**
    Without the refinement the spacing fails. Remembering one key twice puts it in the ring twice; evicting the
    older copy then forgets the digest while the newer copy is still in the ring, so the key is admitted again
    after fewer than `capacity` others.
  */
  lemma {:induction false} RepeatedKeyIsForgotten(a: Delivered, b: Delivered)
    requires a.key != b.key
    ensures var w := Remembered(Remembered(Remembered(EmptyWindow(), 2, a), 2, a), 2, b);
            a.key !in w.entries && a.key in w.order
  {
    var once := Remembered(EmptyWindow(), 2, a);
    var twice := Remembered(once, 2, a);
    assert once.order == [a.key] && twice.order == [a.key, a.key];
    assert Remembered(twice, 2, b).order == [b.key, a.key];
  }

  /** The window as the hub keeps it, updated in place. */
  class ReplayWindow {
    const capacity: nat
    var entries: map<Key, bytes>
    var order: seq<Key>
    var next: nat

    function View(): Window
      reads this
    {
      Window(entries, order, next)
    }

    constructor (capacity: nat)
      requires 0 < capacity
      ensures View() == EmptyWindow() && this.capacity == capacity && Shape(View(), capacity)
    {
      this.capacity := capacity;
      entries, order, next := map[], [], 0;
    }

    method Remember(d: Delivered)
      requires Shape(View(), capacity)
      modifies this
      ensures View() == Remembered(old(View()), capacity, d)
      ensures Shape(View(), capacity)
    {
      if |order| < capacity {
        order := order + [d.key];
      } else {
        entries := entries - {order[next]};
        order := order[next := d.key];
        next := (next + 1) % |order|;
      }
      entries := entries[d.key := d.digest];
    }
  }
}
