/**
  The value model and encoder of protocol/v0/bootstrap_beacon.go: deterministic CBOR,
  RFC 8949 sections 3 (heads) and 4.2.1 (core deterministic encoding).
  Text is kept as its bytes, which is what Go's string holds. Shifts and masks are written as
  division, remainder and addition.
*/
module Cbor {
  import opened Bytes
  import opened Sorting

  datatype Value =
    | Bool(flag: bool)
    | Uint(number: uint64)
    | Text(text: bytes)
    | Blob(data: bytes)
    | Array(items: seq<Value>)
    | Map(entries: seq<Entry>)

  datatype Entry = Entry(key: bytes, value: Value)

  datatype EncodedEntry = EncodedEntry(key: bytes, value: bytes)

  // ---------------------------------------------------------------- heads

  function BigEndian(value: nat, size: nat): (s: bytes)
    ensures |s| == size
  {
    if size == 0 then [] else BigEndian(value / 0x100, size - 1) + [value % 0x100]
  }

  function FromBigEndian(s: bytes): nat {
    if s == [] then 0 else FromBigEndian(s[..|s| - 1]) * 0x100 + s[|s| - 1]
  }

  function Power256(k: nat): nat {
    if k == 0 then 1 else 0x100 * Power256(k - 1)
  }

  lemma {:induction false} FromBigEndianInverse(value: nat, size: nat)
    requires value < Power256(size)
    ensures FromBigEndian(BigEndian(value, size)) == value
  {
    if size > 0 {
      FromBigEndianInverse(value / 0x100, size - 1);
      assert BigEndian(value, size)[..size - 1] == BigEndian(value / 0x100, size - 1);
    }
  }

  lemma {:induction false} BigEndianInverse(s: bytes)
    ensures FromBigEndian(s) < Power256(|s|)
    ensures BigEndian(FromBigEndian(s), |s|) == s
  {
    if s != [] {
      BigEndianInverse(s[..|s| - 1]);
      assert s == s[..|s| - 1] + [s[|s| - 1]];
    }
  }

  /** encodeCborHeader: the shortest head for a major type and an argument. */
  function Header(major: nat, value: nat): (h: bytes)
    requires major < 8
    ensures h != [] && h[0] / 0x20 == major
  {
    var prefix := major * 0x20;
    if value < 24 then [prefix + value]
    else if value <= 0xff then [prefix + 24] + BigEndian(value, 1)
    else if value <= 0xffff then [prefix + 25] + BigEndian(value, 2)
    else if value <= 0xffff_ffff then [prefix + 26] + BigEndian(value, 4)
    else [prefix + 27] + BigEndian(value, 8)
  }

  /** encodeCborBytes */
  function EncodeString(major: nat, data: bytes): bytes
    requires major < 8
  {
    Header(major, |data|) + data
  }

  function EncodedKey(key: bytes): bytes {
    EncodeString(3, key)
  }

  /** The first byte of a head fixes its length, so no key's encoding is another key's. */
  lemma {:induction false} EncodedKeyInjective(a: bytes, b: bytes)
    requires EncodedKey(a) == EncodedKey(b)
    ensures a == b
  {
    var ha, hb := Header(3, |a|), Header(3, |b|);
    assert EncodedKey(a)[0] == ha[0] && EncodedKey(b)[0] == hb[0];
    assert |ha| == |hb|;
    assert a == EncodedKey(a)[|ha|..] && b == EncodedKey(b)[|hb|..];
  }

  // ---------------------------------------------------------------- values

  predicate DistinctKeys(entries: seq<Entry>) {
    forall i, j :: 0 <= i < j < |entries| ==> entries[i].key != entries[j].key
  }

  function EncodedLess(): (EncodedEntry, EncodedEntry) -> bool {
    (a: EncodedEntry, b: EncodedEntry) => Less(a.key, b.key)
  }

  function KeyLess(): (Entry, Entry) -> bool {
    (a: Entry, b: Entry) => Less(EncodedKey(a.key), EncodedKey(b.key))
  }

  function Join(encoded: seq<EncodedEntry>): bytes {
    if encoded == [] then [] else encoded[0].key + encoded[0].value + Join(encoded[1..])
  }

  /** encodeCbor: None stands for the error returned on a map that repeats a key. */
  function Encode(v: Value): Option<bytes>
    decreases v, 1
  {
    match v
    case Bool(flag) => Some([if flag then 0xf5 else 0xf4])
    case Uint(number) => Some(Header(0, number))
    case Text(text) => Some(EncodeString(3, text))
    case Blob(data) => Some(EncodeString(2, data))
    case Array(items) => (
      match EncodeItems(items)
      case None => None
      case Some(body) => Some(Header(4, |items|) + body))
    case Map(entries) =>
      if DistinctKeys(entries) then AssembleMap(EncodeEntries(entries)) else None
  }

  function AssembleMap(entries: Option<seq<EncodedEntry>>): Option<bytes> {
    match entries
    case None => None
    case Some(encoded) => Some(Header(5, |encoded|) + Join(Sort(EncodedLess(), encoded)))
  }

  function EncodeItems(items: seq<Value>): Option<bytes>
    decreases items, 0
  {
    if items == [] then Some([])
    else
      match (Encode(items[0]), EncodeItems(items[1..]))
      case (Some(head), Some(tail)) => Some(head + tail)
      case _ => None
  }

  function EncodeEntries(entries: seq<Entry>): (r: Option<seq<EncodedEntry>>)
    ensures r.Some? ==> |r.value| == |entries|
    ensures r.Some? ==> forall i :: 0 <= i < |entries| ==> r.value[i].key == EncodedKey(entries[i].key)
    decreases entries, 0
  {
    if entries == [] then Some([])
    else
      match (Encode(entries[0].value), EncodeEntries(entries[1..]))
      case (Some(head), Some(tail)) => Some([EncodedEntry(EncodedKey(entries[0].key), head)] + tail)
      case _ => None
  }

  lemma {:induction false} EncodeEntriesCons(e: Entry, tail: seq<Entry>)
    requires Encode(e.value).Some? && EncodeEntries(tail).Some?
    ensures EncodeEntries([e] + tail).Some?
    ensures Join(EncodeEntries([e] + tail).value)
         == EncodedKey(e.key) + (Encode(e.value).value + Join(EncodeEntries(tail).value))
  {
    assert ([e] + tail)[1..] == tail;
    var encoded := EncodeEntries([e] + tail).value;
    assert encoded[1..] == EncodeEntries(tail).value;
    assert Join(encoded) == (EncodedKey(e.key) + Encode(e.value).value) + Join(encoded[1..]);
  }

  // ---------------------------------------------------------------- order of map entries

  lemma {:induction false} EncodedLessOrder()
    ensures StrictOrder(EncodedLess())
  {
    forall x: EncodedEntry ensures !EncodedLess()(x, x) { LessIrreflexive(x.key); }
    forall x: EncodedEntry, y: EncodedEntry, z: EncodedEntry | EncodedLess()(x, y) && EncodedLess()(y, z)
      ensures EncodedLess()(x, z)
    {
      LessTransitive(x.key, y.key, z.key);
    }
  }

  lemma {:induction false} KeyLessOrder()
    ensures StrictOrder(KeyLess())
  {
    forall x: Entry ensures !KeyLess()(x, x) { LessIrreflexive(EncodedKey(x.key)); }
    forall x: Entry, y: Entry, z: Entry | KeyLess()(x, y) && KeyLess()(y, z)
      ensures KeyLess()(x, z)
    {
      LessTransitive(EncodedKey(x.key), EncodedKey(y.key), EncodedKey(z.key));
    }
  }

  lemma {:induction false} DistinctComparable(entries: seq<Entry>)
    requires DistinctKeys(entries)
    ensures Comparable(KeyLess(), entries)
  {
    forall i, j | 0 <= i < j < |entries|
      ensures KeyLess()(entries[i], entries[j]) || KeyLess()(entries[j], entries[i])
    {
      LessTotal(EncodedKey(entries[i].key), EncodedKey(entries[j].key));
      if EncodedKey(entries[i].key) == EncodedKey(entries[j].key) {
        EncodedKeyInjective(entries[i].key, entries[j].key);
      }
    }
  }

  lemma {:induction false} AscendingDistinct(entries: seq<Entry>)
    requires Ascending(KeyLess(), entries)
    ensures DistinctKeys(entries)
  {
    forall i, j | 0 <= i < j < |entries| ensures entries[i].key != entries[j].key {
      assert KeyLess()(entries[i], entries[j]);
      LessIrreflexive(EncodedKey(entries[i].key));
    }
  }

  lemma {:induction false} DistinctPermutation(a: seq<Entry>, b: seq<Entry>)
    requires DistinctKeys(a) && multiset(a) == multiset(b)
    ensures DistinctKeys(b)
  {
    MultisetMembers(a, b);
    forall i, j | 0 <= i < j < |b| ensures b[i].key != b[j].key {
      assert b[i] in a && b[j] in a;
      if b[i] == b[j] {
        assert b == b[..j] + [b[j]] + b[j + 1..];
        assert multiset(b)[b[i]] >= 2 by { assert b[i] in b[..j]; }
        NoDuplicatesMultiplicity(a, b[i]);
        assert false;
      }
    }
  }

  /** Entries are kept in ascending order of encoded key at every level. */
  ghost predicate Normal(v: Value) {
    match v
    case Array(items) => forall i :: 0 <= i < |items| ==> Normal(items[i])
    case Map(entries) =>
      && Ascending(KeyLess(), entries)
      && forall i :: 0 <= i < |entries| ==> Normal(entries[i].value)
    case _ => true
  }

  /** The value with the entries of every map sorted by encoded key. */
  function Normalize(v: Value): Value
    decreases v, 1
  {
    match v
    case Array(items) => Array(NormalizeItems(items))
    case Map(entries) => Map(Sort(KeyLess(), NormalizeEntries(entries)))
    case _ => v
  }

  function NormalizeItems(items: seq<Value>): (r: seq<Value>)
    ensures |r| == |items| && forall i :: 0 <= i < |items| ==> r[i] == Normalize(items[i])
    decreases items, 0
  {
    if items == [] then [] else [Normalize(items[0])] + NormalizeItems(items[1..])
  }

  function NormalizeEntries(entries: seq<Entry>): (r: seq<Entry>)
    ensures |r| == |entries|
    ensures forall i :: 0 <= i < |entries| ==> r[i] == Entry(entries[i].key, Normalize(entries[i].value))
    decreases entries, 0
  {
    if entries == [] then []
    else [Entry(entries[0].key, Normalize(entries[0].value))] + NormalizeEntries(entries[1..])
  }

  // ---------------------------------------------------------------- the encoding does not depend on entry order

  lemma {:induction false} EncodeEntriesSome(entries: seq<Entry>)
    ensures EncodeEntries(entries).Some? <==> forall i :: 0 <= i < |entries| ==> Encode(entries[i].value).Some?
  {
    if entries != [] {
      EncodeEntriesSome(entries[1..]);
      hide Encode;
      assert entries == [entries[0]] + entries[1..];
      if forall i :: 0 <= i < |entries| ==> Encode(entries[i].value).Some? {
        assert Encode(entries[0].value).Some?;
        forall i | 0 <= i < |entries[1..]| ensures Encode(entries[1..][i].value).Some? {
          assert entries[1..][i] == entries[i + 1];
        }
      }
    }
  }

  lemma {:induction false} InsertEncodes(e: Entry, s: seq<Entry>)
    requires Encode(e.value).Some? && EncodeEntries(s).Some?
    ensures EncodeEntries(Insert(KeyLess(), e, s)).Some?
    ensures multiset(EncodeEntries(Insert(KeyLess(), e, s)).value)
         == multiset{EncodedEntry(EncodedKey(e.key), Encode(e.value).value)} + multiset(EncodeEntries(s).value)
  {
    if s == [] || KeyLess()(e, s[0]) {
      assert ([e] + s)[1..] == s;
    } else {
      InsertEncodes(e, s[1..]);
      var rest := Insert(KeyLess(), e, s[1..]);
      assert ([s[0]] + rest)[1..] == rest;
    }
  }

  lemma {:induction false} SortEncodes(s: seq<Entry>)
    requires EncodeEntries(s).Some?
    ensures EncodeEntries(Sort(KeyLess(), s)).Some?
    ensures multiset(EncodeEntries(Sort(KeyLess(), s)).value) == multiset(EncodeEntries(s).value)
  {
    if s != [] {
      SortEncodes(s[1..]);
      InsertEncodes(s[0], Sort(KeyLess(), s[1..]));
    }
  }

  lemma {:induction false} EncodedComparable(entries: seq<Entry>)
    requires DistinctKeys(entries) && EncodeEntries(entries).Some?
    ensures Comparable(EncodedLess(), EncodeEntries(entries).value)
  {
    DistinctComparable(entries);
    var encoded := EncodeEntries(entries).value;
    forall i, j | 0 <= i < j < |encoded|
      ensures EncodedLess()(encoded[i], encoded[j]) || EncodedLess()(encoded[j], encoded[i])
    {
      assert KeyLess()(entries[i], entries[j]) || KeyLess()(entries[j], entries[i]);
    }
  }

  lemma {:induction false} EncodedAscending(entries: seq<Entry>)
    requires Ascending(KeyLess(), entries) && EncodeEntries(entries).Some?
    ensures Ascending(EncodedLess(), EncodeEntries(entries).value)
    ensures Sort(EncodedLess(), EncodeEntries(entries).value) == EncodeEntries(entries).value
  {
    var encoded := EncodeEntries(entries).value;
    forall i, j | 0 <= i < j < |encoded| ensures EncodedLess()(encoded[i], encoded[j]) {
      assert KeyLess()(entries[i], entries[j]);
    }
    EncodedLessOrder();
    SortOfAscending(EncodedLess(), encoded);
  }

  lemma {:induction false} SortedEncodings(entries: seq<Entry>, sorted: seq<Entry>)
    requires DistinctKeys(entries) && DistinctKeys(sorted)
    requires EncodeEntries(entries).Some? && EncodeEntries(sorted).Some?
    requires multiset(EncodeEntries(sorted).value) == multiset(EncodeEntries(entries).value)
    ensures Sort(EncodedLess(), EncodeEntries(sorted).value) == Sort(EncodedLess(), EncodeEntries(entries).value)
  {
    EncodedComparable(entries);
    EncodedComparable(sorted);
    EncodedLessOrder();
    SortOfPermutation(EncodedLess(), EncodeEntries(entries).value, EncodeEntries(sorted).value);
  }

  lemma {:induction false} SameEncodability(a: seq<Entry>, b: seq<Entry>)
    requires multiset(a) == multiset(b)
    ensures EncodeEntries(a).Some? <==> EncodeEntries(b).Some?
  {
    MultisetMembers(a, b);
    EncodeEntriesSome(a);
    EncodeEntriesSome(b);
    if EncodeEntries(a).Some? {
      forall i | 0 <= i < |b| ensures Encode(b[i].value).Some? {
        assert b[i] in a;
      }
    }
    if EncodeEntries(b).Some? {
      forall i | 0 <= i < |a| ensures Encode(a[i].value).Some? {
        assert a[i] in b;
      }
    }
  }

  lemma {:induction false} EncodeMapIs(entries: seq<Entry>)
    requires DistinctKeys(entries)
    ensures Encode(Map(entries)) == AssembleMap(EncodeEntries(entries))
  {
  }

  lemma {:induction false} EncodeAscending(entries: seq<Entry>)
    requires Ascending(KeyLess(), entries) && EncodeEntries(entries).Some?
    ensures Encode(Map(entries)) == Some(Header(5, |entries|) + Join(EncodeEntries(entries).value))
  {
    AscendingDistinct(entries);
    EncodedAscending(entries);
    EncodeMapIs(entries);
  }

  /** The bytes of a map whose entries stand in this order: every encoded key comes before the next. */
  ghost predicate Arranged(entries: seq<Entry>, order: seq<Entry>, s: bytes) {
    && multiset(order) == multiset(entries)
    && (forall i, j :: 0 <= i < j < |order| ==> Precedes(EncodedKey(order[i].key), EncodedKey(order[j].key)))
    && EncodeEntries(order).Some?
    && s == Header(5, |order|) + Join(EncodeEntries(order).value)
  }

  /** A map encodes exactly if its keys differ and its values encode, and then with the smaller encoded key first. */
  lemma {:induction false} MapArranged(entries: seq<Entry>)
    ensures Encode(Map(entries)).Some? <==> DistinctKeys(entries) && forall i :: 0 <= i < |entries| ==> Encode(entries[i].value).Some?
    ensures Encode(Map(entries)).Some? ==> Arranged(entries, Sort(KeyLess(), entries), Encode(Map(entries)).value)
  {
    EncodeEntriesSome(entries);
    if DistinctKeys(entries) {
      EncodeMapIs(entries);
      if EncodeEntries(entries).Some? {
        var order := Sort(KeyLess(), entries);
        KeyLessOrder();
        DistinctComparable(entries);
        SortAscending(KeyLess(), entries);
        SortEncodes(entries);
        EncodeAscending(order);
        EncodeSorted(entries);
        forall i, j | 0 <= i < j < |order| ensures Precedes(EncodedKey(order[i].key), EncodedKey(order[j].key)) {
          LessExact(EncodedKey(order[i].key), EncodedKey(order[j].key));
        }
      }
    }
  }

  /** Sorting the entries first and encoding them afterwards gives the encoder's bytes. */
  lemma {:induction false} EncodeSorted(entries: seq<Entry>)
    requires DistinctKeys(entries)
    ensures Encode(Map(Sort(KeyLess(), entries))) == Encode(Map(entries))
  {
    var sorted := Sort(KeyLess(), entries);
    DistinctPermutation(entries, sorted);
    SameEncodability(entries, sorted);
    if EncodeEntries(entries).Some? {
      SortEncodes(entries);
      SortedEncodings(entries, sorted);
    }
    EncodeMapIs(entries);
    EncodeMapIs(sorted);
  }

  /** Keys that repeat before sorting repeat after it, and are refused either way. */
  lemma {:induction false} EncodeSortedAny(entries: seq<Entry>)
    ensures Encode(Map(Sort(KeyLess(), entries))) == Encode(Map(entries))
  {
    hide Sort, Join, AssembleMap, EncodeEntries;
    var sorted := Sort(KeyLess(), entries);
    if DistinctKeys(entries) {
      EncodeSorted(entries);
    } else if DistinctKeys(sorted) {
      DistinctPermutation(sorted, entries);
    }
  }

  /** Permuting the entries of a map does not change its encoding. */
  lemma {:induction false} EncodePermutation(a: seq<Entry>, b: seq<Entry>)
    requires DistinctKeys(a) && multiset(a) == multiset(b)
    ensures Encode(Map(a)) == Encode(Map(b))
  {
    DistinctPermutation(a, b);
    EncodeSorted(a);
    EncodeSorted(b);
    DistinctComparable(a);
    DistinctComparable(b);
    KeyLessOrder();
    SortOfPermutation(KeyLess(), a, b);
  }

  /** Encoding cannot see the order of entries at any level. */
  lemma {:induction false} EncodeNormalize(v: Value)
    ensures Encode(Normalize(v)) == Encode(v)
    decreases v, 1
  {
    match v
    case Array(items) => EncodeNormalizeItems(items);
    case Map(entries) =>
      EncodeNormalizeEntries(entries);
      var normal := NormalizeEntries(entries);
      assert DistinctKeys(entries) <==> DistinctKeys(normal);
      EncodeSortedAny(normal);
      hide Sort;
    case _ =>
  }

  lemma {:induction false} EncodeNormalizeItems(items: seq<Value>)
    ensures EncodeItems(NormalizeItems(items)) == EncodeItems(items)
    decreases items, 0
  {
    if items != [] {
      EncodeNormalize(items[0]);
      EncodeNormalizeItems(items[1..]);
      assert NormalizeItems(items)[1..] == NormalizeItems(items[1..]);
    }
  }

  lemma {:induction false} EncodeNormalizeEntries(entries: seq<Entry>)
    ensures EncodeEntries(NormalizeEntries(entries)) == EncodeEntries(entries)
    decreases entries, 0
  {
    if entries != [] {
      EncodeNormalize(entries[0].value);
      EncodeNormalizeEntries(entries[1..]);
      assert NormalizeEntries(entries)[1..] == NormalizeEntries(entries[1..]);
    }
  }

  lemma {:induction false} EncodeMapParts(entries: seq<Entry>)
    requires Encode(Map(entries)).Some?
    ensures DistinctKeys(entries)
    ensures forall i :: 0 <= i < |entries| ==> Encode(entries[i].value).Some?
  {
    EncodeEntriesSome(entries);
  }

  lemma {:induction false} SortIsNormal(entries: seq<Entry>)
    requires DistinctKeys(entries)
    requires forall i :: 0 <= i < |entries| ==> Normal(entries[i].value)
    ensures Normal(Map(Sort(KeyLess(), entries)))
  {
    var sorted := Sort(KeyLess(), entries);
    assert Ascending(KeyLess(), sorted) by {
      KeyLessOrder();
      DistinctComparable(entries);
      SortAscending(KeyLess(), entries);
    }
    assert forall e :: e in sorted ==> Normal(e.value) by {
      MultisetMembers(sorted, entries);
    }
  }

  /** Values that encode at all have normal forms that are in order at every level. */
  lemma {:induction false} NormalizeIsNormal(v: Value)
    requires Encode(v).Some?
    ensures Normal(Normalize(v))
  {
    match v
    case Array(items) =>
      forall i | 0 <= i < |items| ensures Normal(NormalizeItems(items)[i]) {
        EncodeItemsSome(items, i);
        NormalizeIsNormal(items[i]);
      }
    case Map(entries) =>
      EncodeMapParts(entries);
      var normal := NormalizeEntries(entries);
      forall i | 0 <= i < |entries| ensures Normal(normal[i].value) {
        NormalizeIsNormal(entries[i].value);
      }
      SortIsNormal(normal);
    case _ =>
  }

  lemma {:induction false} EncodeItemsSome(items: seq<Value>, i: nat)
    requires EncodeItems(items).Some? && i < |items|
    ensures Encode(items[i]).Some?
  {
    if i > 0 {
      EncodeItemsSome(items[1..], i - 1);
    }
  }

  /** Normal values are their own normal form. */
  lemma {:induction false} NormalizeNormal(v: Value)
    requires Normal(v)
    ensures Normalize(v) == v
  {
    match v
    case Array(items) =>
      forall i | 0 <= i < |items| ensures NormalizeItems(items)[i] == items[i] {
        NormalizeNormal(items[i]);
      }
      assert NormalizeItems(items) == items;
    case Map(entries) =>
      forall i | 0 <= i < |entries| ensures NormalizeEntries(entries)[i] == entries[i] {
        NormalizeNormal(entries[i].value);
      }
      assert NormalizeEntries(entries) == entries;
      KeyLessOrder();
      SortOfAscending(KeyLess(), entries);
    case _ =>
  }
}
