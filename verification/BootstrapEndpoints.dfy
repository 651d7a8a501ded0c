/** The relay endpoints of a bootstrap beacon, written in order and read back. */
module BootstrapEndpoints {
  import opened Bytes
  import opened Sorting
  import opened Cbor
  import opened CborParse
  import opened CborTheorems
  import opened CborFields
  import opened CborNested
  import opened BootstrapLists
  import Utf8

  datatype Endpoint = Endpoint(transport: bytes, uri: bytes, priority: uint64)

  function Wss(): bytes { Lit("wss") }

  predicate Lower(c: byte) { 97 <= c <= 122 }

  /** transportPattern: a lower-case letter, then letters, digits, dots, plus and minus signs. */
  predicate TransportOk(t: bytes) {
    && 0 < |t| <= MAX_TRANSPORT_BYTES
    && Lower(t[0])
    && forall i :: 1 <= i < |t| ==> Lower(t[i]) || 48 <= t[i] <= 57 || t[i] == 46 || t[i] == 43 || t[i] == 45
  }

  predicate EndpointOk(e: Endpoint, wssOk: bytes -> bool) {
    TransportOk(e.transport) && 0 < |e.uri| <= MAX_URI_BYTES && (e.transport == Wss() ==> wssOk(e.uri))
  }

  /** The key under which duplicates are found; transports hold no NUL, so transport, NUL and URI determine both. */
  function KeyOf(e: Endpoint): (bytes, bytes) { (e.transport, e.uri) }

  predicate DistinctEndpoints(es: seq<Endpoint>) {
    forall i, j :: 0 <= i < j < |es| ==> KeyOf(es[i]) != KeyOf(es[j])
  }

  predicate HasWss(es: seq<Endpoint>) {
    exists i :: 0 <= i < |es| && es[i].transport == Wss()
  }

  predicate EndpointsOk(es: seq<Endpoint>, wssOk: bytes -> bool) {
    && 0 < |es| <= MAX_ENDPOINTS
    && (forall i :: 0 <= i < |es| ==> EndpointOk(es[i], wssOk))
    && DistinctEndpoints(es)
    && HasWss(es)
  }

  function EndpointLess(): (Endpoint, Endpoint) -> bool {
    (a: Endpoint, b: Endpoint) =>
      a.priority < b.priority
      || (a.priority == b.priority && (Less(a.transport, b.transport) || (a.transport == b.transport && Less(a.uri, b.uri))))
  }

  /** normalizeBootstrapEndpoints */
  function NormalizeEndpoints(es: seq<Endpoint>, wssOk: bytes -> bool): Option<seq<Endpoint>> {
    if EndpointsOk(es, wssOk) then Some(Sort(EndpointLess(), es)) else None
  }

  lemma {:induction false} EndpointOrder()
    ensures StrictOrder(EndpointLess())
  {
    forall a: Endpoint ensures !EndpointLess()(a, a) {
      LessIrreflexive(a.transport);
      LessIrreflexive(a.uri);
    }
    forall a: Endpoint, b: Endpoint, c: Endpoint | EndpointLess()(a, b) && EndpointLess()(b, c) ensures EndpointLess()(a, c) {
      if a.priority == b.priority == c.priority {
        if Less(a.transport, b.transport) && Less(b.transport, c.transport) {
          LessTransitive(a.transport, b.transport, c.transport);
        } else if a.transport == b.transport == c.transport {
          LessTransitive(a.uri, b.uri, c.uri);
        }
      }
    }
  }

  lemma {:induction false} SortedEndpoints(es: seq<Endpoint>)
    requires DistinctEndpoints(es)
    ensures Ascending(EndpointLess(), Sort(EndpointLess(), es))
    ensures forall e :: e in Sort(EndpointLess(), es) <==> e in es
  {
    EndpointOrder();
    forall i, j | 0 <= i < j < |es| ensures EndpointLess()(es[i], es[j]) || EndpointLess()(es[j], es[i]) {
      LessTotal(es[i].transport, es[j].transport);
      LessTotal(es[i].uri, es[j].uri);
    }
    SortAscending(EndpointLess(), es);
    MultisetMembers(Sort(EndpointLess(), es), es);
  }

  function Keys(es: seq<Endpoint>): seq<(bytes, bytes)> {
    seq(|es|, i requires 0 <= i < |es| => KeyOf(es[i]))
  }

  /** Permuting the endpoints changes none of the conditions. */
  lemma {:induction false} DistinctEndpointsPermuted(a: seq<Endpoint>, b: seq<Endpoint>)
    requires multiset(a) == multiset(b) && DistinctEndpoints(a)
    ensures DistinctEndpoints(b)
  {
    NoDuplicatesPermutation(a, b);
    MultisetMembers(a, b);
    forall i, j | 0 <= i < j < |b| ensures KeyOf(b[i]) != KeyOf(b[j]) {
      assert b[i] in a && b[j] in a;
    }
  }

  lemma {:induction false} EndpointsOkPermuted(a: seq<Endpoint>, b: seq<Endpoint>, wssOk: bytes -> bool)
    requires multiset(a) == multiset(b)
    ensures EndpointsOk(a, wssOk) ==> EndpointsOk(b, wssOk)
  {
    if EndpointsOk(a, wssOk) {
      MultisetMembers(a, b);
      assert |a| == |multiset(a)| && |b| == |multiset(b)|;
      DistinctEndpointsPermuted(a, b);
      forall i | 0 <= i < |b| ensures EndpointOk(b[i], wssOk) {
        assert b[i] in a;
      }
      var k :| 0 <= k < |a| && a[k].transport == Wss();
      assert a[k] in b;
    }
  }

  method NormalizeBootstrapEndpoints(es: seq<Endpoint>, wssOk: bytes -> bool) returns (ordered: Option<seq<Endpoint>>)
    ensures ordered == NormalizeEndpoints(es, wssOk)
  {
    if |es| == 0 || |es| > MAX_ENDPOINTS {
      return None;
    }
    var sorted := Sort(EndpointLess(), es);
    EndpointsOkPermuted(es, sorted, wssOk);
    EndpointsOkPermuted(sorted, es, wssOk);
    var ok := CheckEndpoints(sorted, wssOk);
    return if ok then Some(sorted) else None;
  }

  /** The loop of normalizeBootstrapEndpoints over the sorted copy. */
  method CheckEndpoints(sorted: seq<Endpoint>, wssOk: bytes -> bool) returns (ok: bool)
    requires 0 < |sorted| <= MAX_ENDPOINTS
    ensures ok == EndpointsOk(sorted, wssOk)
  {
    hide TransportOk;
    var seen: set<(bytes, bytes)>, wssCount, i := {}, 0, 0;
    while i < |sorted|
      invariant 0 <= i <= |sorted|
      invariant forall k :: 0 <= k < i ==> EndpointOk(sorted[k], wssOk) && KeyOf(sorted[k]) in seen
      invariant forall key :: key in seen ==> exists k :: 0 <= k < i && KeyOf(sorted[k]) == key
      invariant DistinctEndpoints(sorted[..i])
      invariant wssCount > 0 <==> exists k :: 0 <= k < i && sorted[k].transport == Wss()
    {
      var e := sorted[i];
      if !TransportOk(e.transport) || |e.uri| == 0 || |e.uri| > MAX_URI_BYTES {
        return false;
      }
      if KeyOf(e) in seen {
        return false;
      }
      seen := seen + {KeyOf(e)};
      if e.transport == Wss() {
        if !wssOk(e.uri) {
          return false;
        }
        wssCount := wssCount + 1;
      }
      i := i + 1;
    }
    assert sorted[..i] == sorted;
    return wssCount > 0;
  }

  // ---------------------------------------------------------------- on the wire

  function EndpointFields(e: Endpoint): seq<Entry> {
    [Entry(Lit("transport"), Text(e.transport)), Entry(Lit("uri"), Text(e.uri)), Entry(Lit("priority"), Uint(e.priority))]
  }

  function EndpointNames(): seq<bytes> { [Lit("transport"), Lit("uri"), Lit("priority")] }

  /** endpointArrayValue */
  function EndpointArray(es: seq<Endpoint>): Value {
    Array(seq(|es|, i requires 0 <= i < |es| => Map(EndpointFields(es[i]))))
  }

  /** The part of readBootstrapRelayEndpoints that looks at one item alone. */
  function ReadEndpoint(v: Value): Option<Endpoint> {
    match v
    case Map(entries) =>
      if !AllKnown(entries, EndpointNames()) then None
      else (
        match (ReadText(entries, Lit("transport")), ReadText(entries, Lit("uri")), ReadUint(entries, Lit("priority")))
        case (Some(transport), Some(uri), Some(priority)) =>
          if TransportOk(transport) && |uri| <= MAX_URI_BYTES then Some(Endpoint(transport, uri, priority)) else None
        case _ => None)
    case _ => None
  }

  predicate AllReadable(items: seq<Value>) {
    forall i :: 0 <= i < |items| ==> ReadEndpoint(items[i]).Some?
  }

  function EndpointsOf(items: seq<Value>): seq<Endpoint>
    requires AllReadable(items)
  {
    seq(|items|, i requires 0 <= i < |items| => ReadEndpoint(items[i]).value)
  }

  predicate PriorityOrder(es: seq<Endpoint>) {
    forall i :: 0 < i < |es| ==> es[i - 1].priority <= es[i].priority
  }

  /** readBootstrapRelayEndpoints */
  function ReadEndpoints(v: Option<Value>, wssOk: bytes -> bool): Option<seq<Endpoint>> {
    match v
    case Some(Array(items)) =>
      if 0 < |items| <= MAX_ENDPOINTS && AllReadable(items) && PriorityOrder(EndpointsOf(items)) && EndpointsOk(EndpointsOf(items), wssOk)
      then Some(EndpointsOf(items)) else None
    case _ => None
  }

  /** The loop of readBootstrapRelayEndpoints, with its running priority and its set of keys seen. */
  method ReadRelayEndpoints(v: Option<Value>, wssOk: bytes -> bool) returns (endpoints: Option<seq<Endpoint>>)
    ensures endpoints == ReadEndpoints(v, wssOk)
  {
    hide ReadEndpoint, TransportOk, HasWss, HasKey, EndpointOk, DistinctEndpoints, PriorityOrder;
    HasWssAppend([], Endpoint([], [], 0));
    NothingYet();
    if !(v.Some? && v.value.Array?) {
      return None;
    }
    var items := v.value.items;
    if |items| == 0 || |items| > MAX_ENDPOINTS {
      return None;
    }
    var es: seq<Endpoint>, seen: set<(bytes, bytes)>, previous: nat, i := [], {}, 0, 0;
    var wss := false;
    while i < |items|
      invariant 0 <= i <= |items| && |es| == i
      invariant forall k :: 0 <= k < i ==> ReadEndpoint(items[k]) == Some(es[k]) && EndpointOk(es[k], wssOk)
      invariant forall key :: key in seen <==> HasKey(es, key)
      invariant DistinctEndpoints(es) && PriorityOrder(es)
      invariant i > 0 ==> previous == es[i - 1].priority
      invariant wss <==> HasWss(es)
    {
      var read := ReadEndpoint(items[i]);
      if read.None? {
        return None;
      }
      var e := read.value;
      if (i > 0 && e.priority < previous) || KeyOf(e) in seen || (e.transport == Wss() && !wssOk(e.uri)) {
        Unacceptable(items, es, e, i, wssOk);
        return None;
      }
      ReadEndpointOk(items[i], e, wssOk);
      OneMoreEndpoint(es, e);
      previous := e.priority;
      seen := seen + {KeyOf(e)};
      HasWssAppend(es, e);
      wss := wss || e.transport == Wss();
      es := es + [e];
      i := i + 1;
    }
    assert es == EndpointsOf(items);
    return if wss then Some(es) else None;
  }

  lemma {:induction false} HasWssAppend(es: seq<Endpoint>, e: Endpoint)
    ensures HasWss(es + [e]) <==> HasWss(es) || e.transport == Wss()
    ensures !HasWss([])
  {
    assert (es + [e])[|es|] == e;
    assert forall i :: 0 <= i < |es| ==> (es + [e])[i] == es[i];
  }

  predicate HasKey(es: seq<Endpoint>, key: (bytes, bytes)) {
    exists k :: 0 <= k < |es| && KeyOf(es[k]) == key
  }

  lemma {:induction false} NothingYet()
    ensures DistinctEndpoints([]) && PriorityOrder([]) && forall key :: !HasKey([], key)
  {
  }

  lemma {:induction false} OneMoreEndpoint(es: seq<Endpoint>, e: Endpoint)
    requires DistinctEndpoints(es) && PriorityOrder(es) && !HasKey(es, KeyOf(e)) && (es != [] ==> es[|es| - 1].priority <= e.priority)
    ensures DistinctEndpoints(es + [e]) && PriorityOrder(es + [e])
    ensures forall key :: HasKey(es + [e], key) <==> HasKey(es, key) || key == KeyOf(e)
  {
    assert (es + [e])[|es|] == e;
    forall key ensures HasKey(es + [e], key) <==> HasKey(es, key) || key == KeyOf(e) {
      if HasKey(es, key) {
        var k :| 0 <= k < |es| && KeyOf(es[k]) == key;
        assert (es + [e])[k] == es[k];
      }
    }
  }

  lemma {:induction false} ReadEndpointOk(v: Value, e: Endpoint, wssOk: bytes -> bool)
    requires ReadEndpoint(v) == Some(e) && (e.transport == Wss() ==> wssOk(e.uri))
    ensures EndpointOk(e, wssOk)
  {
  }

  lemma {:induction false} Unacceptable(items: seq<Value>, es: seq<Endpoint>, e: Endpoint, i: nat, wssOk: bytes -> bool)
    requires i < |items| && |es| == i && ReadEndpoint(items[i]) == Some(e)
    requires forall k :: 0 <= k < i ==> ReadEndpoint(items[k]) == Some(es[k])
    requires (i > 0 && e.priority < es[i - 1].priority) || HasKey(es, KeyOf(e)) || (e.transport == Wss() && !wssOk(e.uri))
    ensures !(AllReadable(items) && PriorityOrder(EndpointsOf(items)) && EndpointsOk(EndpointsOf(items), wssOk))
  {
    hide ReadEndpoint;
    if AllReadable(items) {
      var all := EndpointsOf(items);
      assert all[i] == e && forall k :: 0 <= k < i ==> all[k] == es[k];
      if k :| 0 <= k < i && KeyOf(es[k]) == KeyOf(e) {
        assert KeyOf(all[k]) == KeyOf(all[i]);
      }
    }
  }

  // ---------------------------------------------------------------- there and back

  lemma {:induction false} EndpointFieldsDistinct(e: Endpoint)
    ensures DistinctKeys(EndpointFields(e)) && Flat(EndpointFields(e))
  {
  }

  ghost predicate Holds(entries: seq<Entry>, e: Endpoint) {
    && Find(entries, Lit("transport")) == Some(Text(e.transport))
    && Find(entries, Lit("uri")) == Some(Text(e.uri))
    && Find(entries, Lit("priority")) == Some(Uint(e.priority))
  }

  lemma {:induction false} EndpointFieldsHold(e: Endpoint)
    ensures Holds(EndpointFields(e), e)
  {
    var fields := EndpointFields(e);
    EndpointFieldsDistinct(e);
    FindMember(fields, fields[0]);
    FindMember(fields, fields[1]);
    FindMember(fields, fields[2]);
  }

  lemma {:induction false} SortedFieldsHold(e: Endpoint, fields: seq<Entry>, entries: seq<Entry>)
    requires fields == EndpointFields(e) && entries == Sort(KeyLess(), fields)
    ensures AllKnown(entries, EndpointNames()) && Holds(entries, e)
  {
    hide Sort, Find;
    EndpointFieldsDistinct(e);
    EndpointFieldsHold(e);
    assert AllKnown(entries, EndpointNames()) by { NamesKnown(entries, fields, EndpointNames()); }
    FindPermutation(fields, entries, Lit("transport"));
    FindPermutation(fields, entries, Lit("uri"));
    FindPermutation(fields, entries, Lit("priority"));
  }

  lemma {:induction false} ReadFrom(entries: seq<Entry>, e: Endpoint, wssOk: bytes -> bool)
    requires AllKnown(entries, EndpointNames()) && Holds(entries, e) && EndpointOk(e, wssOk)
    ensures ReadEndpoint(Map(entries)) == if e.priority <= MAX_TIMESTAMP then Some(e) else None
  {
    hide AllKnown, Find;
  }

  /** One endpoint is read back exactly if its priority is a number that readers admit. */
  lemma {:induction false} EndpointReadBack(e: Endpoint, wssOk: bytes -> bool)
    requires EndpointOk(e, wssOk)
    ensures ReadEndpoint(Normalize(Map(EndpointFields(e)))) == if e.priority <= MAX_TIMESTAMP then Some(e) else None
  {
    hide Holds, AllKnown, EndpointOk, ReadEndpoint, Sort, EndpointFields, Normalize;
    EndpointFieldsDistinct(e);
    FlatNormalize(EndpointFields(e));
    SortedFieldsHold(e, EndpointFields(e), Sort(KeyLess(), EndpointFields(e)));
    ReadFrom(Sort(KeyLess(), EndpointFields(e)), e, wssOk);
  }

  predicate SmallPriorities(es: seq<Endpoint>) {
    forall e :: e in es ==> e.priority <= MAX_TIMESTAMP
  }

  lemma {:induction false} ItemReadBack(es: seq<Endpoint>, wssOk: bytes -> bool, i: nat)
    requires i < |es| && EndpointOk(es[i], wssOk)
    ensures i < |NormalizeItems(EndpointArray(es).items)| == |es|
    ensures ReadEndpoint(NormalizeItems(EndpointArray(es).items)[i]) == if es[i].priority <= MAX_TIMESTAMP then Some(es[i]) else None
  {
    EndpointReadBack(es[i], wssOk);
  }

  lemma {:induction false} AscendingPriorities(es: seq<Endpoint>)
    requires Ascending(EndpointLess(), es)
    ensures PriorityOrder(es)
  {
    forall i | 0 < i < |es| ensures es[i - 1].priority <= es[i].priority {
      assert EndpointLess()(es[i - 1], es[i]);
    }
  }

  lemma {:induction false} AllReadBack(items: seq<Value>, sorted: seq<Endpoint>)
    requires |items| == |sorted| && forall i :: 0 <= i < |items| ==> ReadEndpoint(items[i]) == Some(sorted[i])
    ensures AllReadable(items) && EndpointsOf(items) == sorted
  {
    hide ReadEndpoint;
  }

  lemma {:induction false} ArrayReadBack(sorted: seq<Endpoint>, wssOk: bytes -> bool)
    requires EndpointsOk(sorted, wssOk) && PriorityOrder(sorted)
    ensures ReadEndpoints(Some(Normalize(EndpointArray(sorted))), wssOk) == if SmallPriorities(sorted) then Some(sorted) else None
  {
    hide ReadEndpoint, EndpointOk, DistinctEndpoints, HasWss, PriorityOrder, EndpointFields;
    var items := NormalizeItems(EndpointArray(sorted).items);
    forall i | 0 <= i < |items| ensures ReadEndpoint(items[i]) == if sorted[i].priority <= MAX_TIMESTAMP then Some(sorted[i]) else None {
      ItemReadBack(sorted, wssOk, i);
    }
    if SmallPriorities(sorted) {
      forall i | 0 <= i < |items| ensures ReadEndpoint(items[i]) == Some(sorted[i]) {
        assert sorted[i] in sorted;
      }
      AllReadBack(items, sorted);
    } else {
      var e :| e in sorted && e.priority > MAX_TIMESTAMP;
      var i :| 0 <= i < |sorted| && sorted[i] == e;
      assert ReadEndpoint(items[i]) == None;
    }
  }

  /** Normalised endpoints are read back as they are, exactly if their priorities are numbers that readers admit. */
  lemma {:induction false} EndpointsReadBack(es: seq<Endpoint>, wssOk: bytes -> bool)
    requires NormalizeEndpoints(es, wssOk).Some?
    ensures ReadEndpoints(Some(Normalize(EndpointArray(NormalizeEndpoints(es, wssOk).value))), wssOk)
         == if SmallPriorities(es) then NormalizeEndpoints(es, wssOk) else None
  {
    var sorted := Sort(EndpointLess(), es);
    SortedEndpoints(es);
    EndpointsOkPermuted(es, sorted, wssOk);
    AscendingPriorities(sorted);
    ArrayReadBack(sorted, wssOk);
  }

  lemma {:induction false} TransportIsUtf8(t: bytes)
    requires TransportOk(t)
    ensures Utf8.Valid(t)
  {
    Utf8.AsciiIsValid(t);
  }

  lemma {:induction false} EndpointKeysInLimits(e: Endpoint)
    ensures forall i :: 0 <= i < 3 ==> TextInLimits(EndpointFields(e)[i].key, Wire(MAX_STRING_BYTES))
  {
    var fields := EndpointFields(e);
    forall i | 0 <= i < 3 ensures TextInLimits(fields[i].key, Wire(MAX_STRING_BYTES)) {
      AsciiInLimits(fields[i].key);
    }
  }

  lemma {:induction false} EndpointInLimits(e: Endpoint, wssOk: bytes -> bool)
    requires EndpointOk(e, wssOk)
    ensures InLimits(Map(EndpointFields(e)), 2, Wire(MAX_STRING_BYTES)) <==> Utf8.Valid(e.uri)
  {
    EndpointFieldsDistinct(e);
    TransportIsUtf8(e.transport);
    var fields := EndpointFields(e);
    EndpointKeysInLimits(e);
    assert InLimits(fields[1].value, 3, Wire(MAX_STRING_BYTES)) <==> Utf8.Valid(e.uri);
    assert InLimits(fields[0].value, 3, Wire(MAX_STRING_BYTES)) && InLimits(fields[2].value, 3, Wire(MAX_STRING_BYTES));
  }

  lemma {:induction false} EndpointArrayInLimits(es: seq<Endpoint>, wssOk: bytes -> bool)
    requires EndpointsOk(es, wssOk)
    ensures InLimits(EndpointArray(es), 1, Wire(MAX_STRING_BYTES)) <==> forall e :: e in es ==> Utf8.Valid(e.uri)
  {
    hide EndpointOk;
    var items := EndpointArray(es).items;
    forall i | 0 <= i < |es| ensures InLimits(items[i], 2, Wire(MAX_STRING_BYTES)) <==> Utf8.Valid(es[i].uri) {
      EndpointInLimits(es[i], wssOk);
    }
    if forall e :: e in es ==> Utf8.Valid(e.uri) {
      forall i | 0 <= i < |items| ensures InLimits(items[i], 2, Wire(MAX_STRING_BYTES)) {
        assert es[i] in es;
      }
    }
  }

  lemma {:induction false} EndpointSize(e: Endpoint, wssOk: bytes -> bool)
    requires EndpointOk(e, wssOk)
    ensures Encode(Map(EndpointFields(e))).Some? && Size(Map(EndpointFields(e))) <= 630
  {
    var fields := EndpointFields(e);
    EndpointFieldsDistinct(e);
    FlatLength(fields);
    TotalLengthOf3(fields);
    EndpointFieldSizes(e, fields);
  }

  lemma {:induction false} EndpointFieldSizes(e: Endpoint, fields: seq<Entry>)
    requires |e.transport| <= MAX_TRANSPORT_BYTES && |e.uri| <= MAX_URI_BYTES && fields == EndpointFields(e)
    ensures EncodedLength(fields[0]) <= 53 && EncodedLength(fields[1]) <= 533 && EncodedLength(fields[2]) <= 27
  {
    HeaderSize(3, |e.transport|);
    HeaderSize(3, |e.uri|);
    HeaderSize(0, e.priority);
  }

  lemma {:induction false} TotalLengthOf3(fields: seq<Entry>)
    requires |fields| == 3
    ensures TotalLength(fields) == EncodedLength(fields[0]) + EncodedLength(fields[1]) + EncodedLength(fields[2])
  {
    TotalLengthCons(fields[2], []);
    TotalLengthCons(fields[1], fields[2..]);
    TotalLengthCons(fields[0], fields[1..]);
    assert fields[2..] == [fields[2]] + [] && fields[1..] == [fields[1]] + fields[2..] && fields == [fields[0]] + fields[1..];
  }

  lemma {:induction false} EndpointArraySize(es: seq<Endpoint>, wssOk: bytes -> bool)
    requires EndpointsOk(es, wssOk)
    ensures Encode(EndpointArray(es)).Some? && Size(EndpointArray(es)) <= 5049
  {
    hide EndpointOk;
    var items := EndpointArray(es).items;
    forall i | 0 <= i < |items| ensures Encode(items[i]).Some? && Size(items[i]) <= 630 {
      EndpointSize(es[i], wssOk);
    }
    ArraySize(items, 630);
  }
}
