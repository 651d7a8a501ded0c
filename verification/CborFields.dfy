/** The typed field readers of protocol/v0/cbor_decode.go, and records as maps of scalars. */
module CborFields {
  import opened Bytes
  import opened Sorting
  import opened Cbor
  import opened CborParse
  import opened CborTheorems
  import Utf8

  const MAX_TIMESTAMP: nat := 0x1f_ffff_ffff_ffff

  /** cborRequired: the value of the first entry with this key. */
  function Find(entries: seq<Entry>, key: bytes): Option<Value> {
    if entries == [] then None
    else if entries[0].key == key then Some(entries[0].value)
    else Find(entries[1..], key)
  }

  /** cborRejectUnknown */
  predicate AllKnown(entries: seq<Entry>, names: seq<bytes>) {
    forall i :: 0 <= i < |entries| ==> entries[i].key in names
  }

  /** cborText */
  function ReadText(entries: seq<Entry>, key: bytes): Option<bytes> {
    match Find(entries, key)
    case Some(Text(text)) => if text == [] || |text| > MAX_STRING_BYTES then None else Some(text)
    case _ => None
  }

  /** cborUint */
  function ReadUint(entries: seq<Entry>, key: bytes): Option<uint64> {
    match Find(entries, key)
    case Some(Uint(number)) => if number > MAX_TIMESTAMP then None else Some(number)
    case _ => None
  }

  /** cborBool */
  function ReadBool(entries: seq<Entry>, key: bytes): Option<bool> {
    match Find(entries, key)
    case Some(Bool(flag)) => Some(flag)
    case _ => None
  }

  /** cborBytes; size 0 asks for any length. */
  function ReadBlob(entries: seq<Entry>, key: bytes, size: nat): Option<bytes> {
    match Find(entries, key)
    case Some(Blob(data)) =>
      if data == [] || |data| > MAX_BYTES || (size > 0 && |data| != size) then None else Some(data)
    case _ => None
  }

  /** decodeDeterministicCBOR followed by cborMap */
  function DecodeMap(input: bytes): Option<seq<Entry>> {
    match Decode(input, MAX_STRING_BYTES)
    case Success(Map(entries)) => Some(entries)
    case _ => None
  }

  // ---------------------------------------------------------------- lookups do not depend on order

  lemma {:induction false} FindMember(entries: seq<Entry>, e: Entry)
    requires DistinctKeys(entries) && e in entries
    ensures Find(entries, e.key) == Some(e.value)
  {
    if entries[0] != e {
      var i :| 0 <= i < |entries| && entries[i] == e;
      assert entries[1..][i - 1] == e;
      FindMember(entries[1..], e);
    }
  }

  lemma {:induction false} FindFound(entries: seq<Entry>, key: bytes)
    requires Find(entries, key).Some?
    ensures Entry(key, Find(entries, key).value) in entries
  {
    if entries[0].key != key {
      FindFound(entries[1..], key);
    }
  }

  lemma {:induction false} FindPermutation(a: seq<Entry>, b: seq<Entry>, key: bytes)
    requires DistinctKeys(a) && multiset(a) == multiset(b)
    ensures Find(a, key) == Find(b, key)
  {
    DistinctPermutation(a, b);
    MultisetMembers(a, b);
    if Find(a, key).Some? {
      FindFound(a, key);
      FindMember(b, Entry(key, Find(a, key).value));
    } else if Find(b, key).Some? {
      FindFound(b, key);
      FindMember(a, Entry(key, Find(b, key).value));
    }
  }

  /** The entries hold the given fields and nothing else. */
  ghost predicate HoldsExactly(entries: seq<Entry>, fields: seq<Entry>) {
    && (forall e :: e in entries ==> exists f :: f in fields && f.key == e.key)
    && (forall f :: f in fields ==> Find(entries, f.key) == Some(f.value))
  }

  /** Entries that hold exactly the fields of a record are a permutation of it. */
  lemma {:induction false} SameRecord(entries: seq<Entry>, fields: seq<Entry>)
    requires DistinctKeys(entries) && DistinctKeys(fields)
    requires HoldsExactly(entries, fields)
    ensures multiset(entries) == multiset(fields)
  {
    forall e ensures e in entries <==> e in fields {
      if e in entries {
        FindMember(entries, e);
      }
      if e in fields {
        FindFound(entries, e.key);
      }
    }
    SameMembers(entries, fields);
  }

  // ---------------------------------------------------------------- records of scalars

  predicate Scalar(v: Value) {
    !v.Array? && !v.Map?
  }

  predicate Flat(fields: seq<Entry>) {
    forall i :: 0 <= i < |fields| ==> Scalar(fields[i].value)
  }

  lemma {:induction false} FlatNormalize(fields: seq<Entry>)
    requires Flat(fields)
    ensures Normalize(Map(fields)) == Map(Sort(KeyLess(), fields))
  {
    assert NormalizeEntries(fields) == fields;
  }

  lemma {:induction false} FlatEncodes(fields: seq<Entry>)
    requires Flat(fields) && DistinctKeys(fields)
    ensures Encode(Map(fields)).Some?
  {
    EncodeEntriesSome(fields);
    EncodeMapIs(fields);
  }

  /** A record in limits is read back as some permutation of its fields. */
  lemma {:induction false} FlatRoundTrip(fields: seq<Entry>) returns (entries: seq<Entry>)
    requires Flat(fields) && InLimits(Map(fields), 0, Wire(MAX_STRING_BYTES))
    requires Encode(Map(fields)).Some? ==> |Encode(Map(fields)).value| <= MAX_ENVELOPE_BYTES
    ensures Encode(Map(fields)).Some?
    ensures DecodeMap(Encode(Map(fields)).value) == Some(entries)
    ensures multiset(entries) == multiset(fields) && DistinctKeys(entries)
    ensures forall key :: Find(entries, key) == Find(fields, key)
  {
    EncodeThenDecode(Map(fields), MAX_STRING_BYTES);
    FlatNormalize(fields);
    entries := Sort(KeyLess(), fields);
    DistinctPermutation(fields, entries);
    forall key ensures Find(entries, key) == Find(fields, key) {
      FindPermutation(fields, entries, key);
    }
  }

  /** If the fields read from an accepted input are all it holds, their encoding is that input. */
  lemma {:induction false} Reencodes(input: bytes, fields: seq<Entry>)
    requires DecodeMap(input).Some? && DistinctKeys(fields)
    requires HoldsExactly(DecodeMap(input).value, fields)
    ensures Encode(Map(fields)) == Some(input)
    ensures InLimits(Map(fields), 0, Wire(MAX_STRING_BYTES))
  {
    DecodeSound(input, MAX_STRING_BYTES);
    var entries := DecodeMap(input).value;
    SameRecord(entries, fields);
    EncodePermutation(entries, fields);
    MultisetMembers(entries, fields);
    assert |entries| == |multiset(entries)| && |fields| == |multiset(fields)|;
    forall i | 0 <= i < |fields| ensures TextInLimits(fields[i].key, Wire(MAX_STRING_BYTES)) && InLimits(fields[i].value, 1, Wire(MAX_STRING_BYTES)) {
      assert fields[i] in entries;
    }
  }

  /** Records with the same encoding have the same fields. */
  lemma {:induction false} FlatInjective(a: seq<Entry>, b: seq<Entry>)
    requires Flat(a) && Flat(b) && DistinctKeys(a) && DistinctKeys(b)
    requires Representable(Map(a)) && Representable(Map(b))
    requires Encode(Map(a)) == Encode(Map(b))
    ensures forall key :: Find(a, key) == Find(b, key)
  {
    FlatEncodes(a);
    EncodeInjective(Map(a), Map(b));
    FlatNormalize(a);
    FlatNormalize(b);
    forall key ensures Find(a, key) == Find(b, key) {
      FindPermutation(a, Sort(KeyLess(), a), key);
      FindPermutation(b, Sort(KeyLess(), b), key);
    }
  }

  /** A field that the decoder's limits admit at depth one. */
  predicate FieldFits(e: Entry) {
    && TextInLimits(e.key, Wire(MAX_STRING_BYTES))
    && match e.value
       case Text(text) => TextInLimits(text, Wire(MAX_STRING_BYTES))
       case Blob(data) => |data| <= MAX_BYTES
       case Bool(_) => true
       case Uint(_) => true
       case _ => false
  }

  lemma {:induction false} FlatInLimits(fields: seq<Entry>)
    requires DistinctKeys(fields) && |fields| <= MAX_ENTRIES
    requires forall i :: 0 <= i < |fields| ==> FieldFits(fields[i])
    ensures Flat(fields) && InLimits(Map(fields), 0, Wire(MAX_STRING_BYTES))
  {
    forall i | 0 <= i < |fields|
      ensures Scalar(fields[i].value) && TextInLimits(fields[i].key, Wire(MAX_STRING_BYTES))
      ensures InLimits(fields[i].value, 1, Wire(MAX_STRING_BYTES))
    {
      assert FieldFits(fields[i]);
    }
  }

  lemma {:induction false} TextFieldIsUtf8(fields: seq<Entry>, e: Entry)
    requires e in fields && e.value.Text?
    requires InLimits(Map(fields), 0, Wire(MAX_STRING_BYTES))
    ensures Utf8.Valid(e.value.text)
  {
    var i :| 0 <= i < |fields| && fields[i] == e;
    assert InLimits(fields[i].value, 1, Wire(MAX_STRING_BYTES));
  }

  lemma {:induction false} NamesKnown(entries: seq<Entry>, fields: seq<Entry>, names: seq<bytes>)
    requires multiset(entries) == multiset(fields)
    requires |names| == |fields| && forall i :: 0 <= i < |fields| ==> fields[i].key == names[i]
    ensures AllKnown(entries, names)
  {
    MultisetMembers(entries, fields);
    forall i | 0 <= i < |entries| ensures entries[i].key in names {
      assert entries[i] in fields;
    }
  }

  lemma {:induction false} NamesCovered(entries: seq<Entry>, fields: seq<Entry>, names: seq<bytes>)
    requires AllKnown(entries, names)
    requires |names| == |fields| && forall i :: 0 <= i < |fields| ==> fields[i].key == names[i]
    requires forall f :: f in fields ==> Find(entries, f.key) == Some(f.value)
    ensures HoldsExactly(entries, fields)
  {
    forall e | e in entries ensures exists f :: f in fields && f.key == e.key {
      var i :| 0 <= i < |names| && names[i] == e.key;
      assert fields[i] in fields;
    }
  }

  // ---------------------------------------------------------------- constants

  lemma {:induction false} KeysDiffer(a: string, b: string)
    requires forall i :: 0 <= i < |a| ==> a[i] < 128 as char
    requires forall i :: 0 <= i < |b| ==> b[i] < 128 as char
    requires |a| != |b| || (|a| > 0 && a[0] != b[0])
    ensures Lit(a) != Lit(b)
  {
    if |a| == |b| {
      assert Lit(a)[0] == a[0] as int && Lit(b)[0] == b[0] as int;
    }
  }

  lemma {:induction false} AppendDistinct(fields: seq<Entry>, e: Entry)
    requires DistinctKeys(fields) && Flat(fields) && Scalar(e.value)
    requires forall i :: 0 <= i < |fields| ==> fields[i].key != e.key
    ensures DistinctKeys(fields + [e]) && Flat(fields + [e])
  {
  }

  lemma {:induction false} AsciiInLimits(s: bytes)
    requires forall i :: 0 <= i < |s| ==> s[i] < 0x80
    requires 0 < |s| <= MAX_STRING_BYTES
    ensures TextInLimits(s, Wire(MAX_STRING_BYTES))
  {
    Utf8.AsciiIsValid(s);
  }

  // ---------------------------------------------------------------- sizes

  function ScalarLength(v: Value): nat {
    match v
    case Uint(number) => |Header(0, number)|
    case Text(text) => |Header(3, |text|)| + |text|
    case Blob(data) => |Header(2, |data|)| + |data|
    case _ => 1
  }

  lemma {:induction false} ScalarLengthIs(v: Value)
    requires Scalar(v)
    ensures Encode(v).Some? && |Encode(v).value| == ScalarLength(v)
  {
  }

  function EncodedLength(e: Entry): nat {
    |Header(3, |e.key|)| + |e.key| + ScalarLength(e.value)
  }

  lemma {:induction false} JoinInsert(x: EncodedEntry, s: seq<EncodedEntry>)
    ensures |Join(Insert(EncodedLess(), x, s))| == |x.key| + |x.value| + |Join(s)|
  {
    if s == [] || EncodedLess()(x, s[0]) {
      assert ([x] + s)[1..] == s;
    } else {
      JoinInsert(x, s[1..]);
      var rest := Insert(EncodedLess(), x, s[1..]);
      assert ([s[0]] + rest)[1..] == rest;
    }
  }

  lemma {:induction false} JoinSort(s: seq<EncodedEntry>)
    ensures |Join(Sort(EncodedLess(), s))| == |Join(s)|
  {
    if s != [] {
      JoinSort(s[1..]);
      JoinInsert(s[0], Sort(EncodedLess(), s[1..]));
    }
  }

  function TotalLength(fields: seq<Entry>): nat {
    if fields == [] then 0 else EncodedLength(fields[0]) + TotalLength(fields[1..])
  }

  lemma {:induction false} JoinLength(fields: seq<Entry>)
    requires Flat(fields) && EncodeEntries(fields).Some?
    ensures |Join(EncodeEntries(fields).value)| == TotalLength(fields)
  {
    if fields != [] {
      JoinLength(fields[1..]);
      ScalarLengthIs(fields[0].value);
      EncodeEntriesCons(fields[0], fields[1..]);
      assert fields == [fields[0]] + fields[1..];
    }
  }

  lemma {:induction false} FlatLength(fields: seq<Entry>)
    requires Flat(fields) && DistinctKeys(fields)
    ensures Encode(Map(fields)).Some?
    ensures |Encode(Map(fields)).value| == |Header(5, |fields|)| + TotalLength(fields)
  {
    FlatEncodes(fields);
    EncodeMapIs(fields);
    JoinSort(EncodeEntries(fields).value);
    JoinLength(fields);
  }

  lemma {:induction false} TotalLengthCons(e: Entry, tail: seq<Entry>)
    ensures TotalLength([e] + tail) == EncodedLength(e) + TotalLength(tail)
  {
    assert ([e] + tail)[1..] == tail;
  }

  lemma {:induction false} TotalLengthOf4(fields: seq<Entry>)
    requires |fields| == 4
    ensures TotalLength(fields)
         == EncodedLength(fields[0]) + EncodedLength(fields[1]) + EncodedLength(fields[2]) + EncodedLength(fields[3])
  {
    TotalLengthCons(fields[3], []);
    TotalLengthCons(fields[2], fields[3..]);
    TotalLengthCons(fields[1], fields[2..]);
    TotalLengthCons(fields[0], fields[1..]);
    assert fields[3..] == [fields[3]] + [] && fields[2..] == [fields[2]] + fields[3..];
    assert fields[1..] == [fields[1]] + fields[2..] && fields == [fields[0]] + fields[1..];
  }

  lemma {:induction false} TotalLengthSplit(fields: seq<Entry>, k: nat)
    requires k <= |fields|
    ensures TotalLength(fields) == TotalLength(fields[..k]) + TotalLength(fields[k..])
    decreases k
  {
    if k == 0 {
      assert fields[..0] == [] && fields[0..] == fields;
    } else {
      TotalLengthSplit(fields[1..], k - 1);
      assert fields[1..][..k - 1] == fields[..k][1..] && fields[1..][k - 1..] == fields[k..];
    }
  }

  lemma {:induction false} TotalLengthOf9(fields: seq<Entry>)
    requires |fields| == 9
    ensures TotalLength(fields)
         == EncodedLength(fields[0]) + EncodedLength(fields[1]) + EncodedLength(fields[2]) + EncodedLength(fields[3])
          + EncodedLength(fields[4]) + EncodedLength(fields[5]) + EncodedLength(fields[6]) + EncodedLength(fields[7])
          + EncodedLength(fields[8])
  {
    TotalLengthSplit(fields, 4);
    TotalLengthOf4(fields[..4]);
    TotalLengthCons(fields[4], fields[5..]);
    TotalLengthOf4(fields[5..]);
    assert fields[4..] == [fields[4]] + fields[5..];
  }
}
