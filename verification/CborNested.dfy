/** Reading back records whose fields may be arrays and maps, and the sizes of their encodings. */
module CborNested {
  import opened Bytes
  import opened Sorting
  import opened Cbor
  import opened CborParse
  import opened CborTheorems
  import opened CborFields

  /** What a reader finds under a key once the record went over the wire. */
  function NormalFind(fields: seq<Entry>, key: bytes): Option<Value> {
    match Find(fields, key)
    case None => None
    case Some(v) => Some(Normalize(v))
  }

  lemma {:induction false} FindNormalized(fields: seq<Entry>, key: bytes)
    ensures Find(NormalizeEntries(fields), key) == NormalFind(fields, key)
  {
    if fields != [] && fields[0].key != key {
      assert NormalizeEntries(fields)[1..] == NormalizeEntries(fields[1..]);
      FindNormalized(fields[1..], key);
    }
  }

  lemma {:induction false} NormalizedDistinct(fields: seq<Entry>)
    requires DistinctKeys(fields)
    ensures DistinctKeys(NormalizeEntries(fields))
  {
  }

  lemma {:induction false} KnownSorted(fields: seq<Entry>, names: seq<bytes>)
    requires |names| == |fields| && forall i :: 0 <= i < |fields| ==> fields[i].key == names[i]
    ensures AllKnown(Sort(KeyLess(), NormalizeEntries(fields)), names)
  {
    var normal := NormalizeEntries(fields);
    var sorted := Sort(KeyLess(), normal);
    MultisetMembers(sorted, normal);
    forall i | 0 <= i < |sorted| ensures sorted[i].key in names {
      assert sorted[i] in normal;
      var k :| 0 <= k < |normal| && normal[k] == sorted[i];
      assert names[k] == sorted[i].key;
    }
  }

  /** More names are no obstacle. */
  lemma {:induction false} KnownMore(entries: seq<Entry>, names: seq<bytes>, more: seq<bytes>)
    requires AllKnown(entries, names) && forall n :: n in names ==> n in more
    ensures AllKnown(entries, more)
  {
  }

  /**
    A record is read back, with each field sorted inside, exactly if it is within the decoder's limits and its encoding
    within the envelope's.
  */
  lemma {:induction false} RecordReadBack(fields: seq<Entry>, input: bytes)
    requires Representable(Map(fields)) && Encode(Map(fields)) == Some(input)
    ensures DecodeMap(input).Some? <==> InLimits(Map(fields), 0, Wire(MAX_STRING_BYTES)) && |input| <= MAX_ENVELOPE_BYTES
    ensures DecodeMap(input).Some? ==> DecodeMap(input).value == Sort(KeyLess(), NormalizeEntries(fields))
    ensures DecodeMap(input).Some? ==> forall key :: Find(DecodeMap(input).value, key) == NormalFind(fields, key)
  {
    DecodeOfEncoding(Map(fields), MAX_STRING_BYTES);
    assert DistinctKeys(fields);
    var normal := NormalizeEntries(fields);
    NormalizedDistinct(fields);
    forall key ensures Find(Sort(KeyLess(), normal), key) == NormalFind(fields, key) {
      FindPermutation(normal, Sort(KeyLess(), normal), key);
      FindNormalized(fields, key);
    }
  }

  lemma {:induction false} MapEncodes(fields: seq<Entry>)
    requires DistinctKeys(fields) && forall i :: 0 <= i < |fields| ==> Encode(fields[i].value).Some?
    ensures Encode(Map(fields)).Some?
  {
    EncodeEntriesSome(fields);
    EncodeMapIs(fields);
  }

  // ---------------------------------------------------------------- sizes

  function Size(v: Value): nat {
    match Encode(v)
    case Some(encoded) => |encoded|
    case None => 0
  }

  function EntrySize(e: Entry): nat { |EncodedKey(e.key)| + Size(e.value) }

  function Sizes(fields: seq<Entry>): nat {
    if fields == [] then 0 else EntrySize(fields[0]) + Sizes(fields[1..])
  }

  lemma {:induction false} JoinSizes(fields: seq<Entry>)
    requires EncodeEntries(fields).Some?
    ensures |Join(EncodeEntries(fields).value)| == Sizes(fields)
  {
    if fields != [] {
      JoinSizes(fields[1..]);
      EncodeEntriesCons(fields[0], fields[1..]);
      assert fields == [fields[0]] + fields[1..];
    }
  }

  lemma {:induction false} HeaderSize(major: nat, value: nat)
    requires major < 8
    ensures |Header(major, value)| <= 9
  {
  }

  lemma {:induction false} MapSize(fields: seq<Entry>)
    requires DistinctKeys(fields) && forall i :: 0 <= i < |fields| ==> Encode(fields[i].value).Some?
    ensures Encode(Map(fields)).Some? && Sizes(fields) <= Size(Map(fields)) <= 9 + Sizes(fields)
  {
    hide Sort, Join, EncodeEntries, Sizes, Header;
    EncodeEntriesSome(fields);
    EncodeMapIs(fields);
    JoinSort(EncodeEntries(fields).value);
    JoinSizes(fields);
    HeaderSize(5, |fields|);
  }

  lemma {:induction false} OneMore(n: nat, bound: nat)
    ensures (n + 1) * bound == n * bound + bound
  {
  }

  lemma {:induction false} SizesAtMost(fields: seq<Entry>, bound: nat)
    requires forall i :: 0 <= i < |fields| ==> EntrySize(fields[i]) <= bound
    ensures Sizes(fields) <= |fields| * bound
  {
    hide EntrySize;
    if fields != [] {
      SizesAtMost(fields[1..], bound);
      OneMore(|fields| - 1, bound);
    }
  }

  lemma {:induction false} SizesAppend(a: seq<Entry>, b: seq<Entry>)
    ensures Sizes(a + b) == Sizes(a) + Sizes(b)
  {
    hide EntrySize;
    if a == [] {
      assert a + b == b;
    } else {
      SizesAppend(a[1..], b);
      assert (a + b)[1..] == a[1..] + b;
    }
  }

  lemma {:induction false} ItemsSize(items: seq<Value>, bound: nat)
    requires forall i :: 0 <= i < |items| ==> Encode(items[i]).Some? && Size(items[i]) <= bound
    ensures EncodeItems(items).Some? && |EncodeItems(items).value| <= |items| * bound
  {
    if items != [] {
      ItemsSize(items[1..], bound);
      OneMore(|items| - 1, bound);
    }
  }

  lemma {:induction false} ArraySize(items: seq<Value>, bound: nat)
    requires forall i :: 0 <= i < |items| ==> Encode(items[i]).Some? && Size(items[i]) <= bound
    ensures Encode(Array(items)).Some? && Size(Array(items)) <= 9 + |items| * bound
  {
    ItemsSize(items, bound);
  }

  /** Nothing inside a record is longer than the record. */
  lemma {:induction false} FieldWithin(fields: seq<Entry>, i: nat)
    requires i < |fields|
    ensures Size(fields[i].value) <= Sizes(fields)
  {
    if i > 0 {
      FieldWithin(fields[1..], i - 1);
    }
  }

  lemma {:induction false} ItemsAtLeast(items: seq<Value>)
    requires EncodeItems(items).Some?
    ensures |items| <= |EncodeItems(items).value|
  {
    if items != [] {
      EncodingNotEmpty(items[0]);
      ItemsAtLeast(items[1..]);
    }
  }

  lemma {:induction false} ArrayAtLeast(items: seq<Value>)
    requires Encode(Array(items)).Some?
    ensures |items| <= Size(Array(items))
  {
    ItemsAtLeast(items);
  }
}
