/**
  The decoder of protocol/v0/cbor_decode.go as it runs: an offset that advances through the input,
  and loops that fill arrays, entries, the set of seen keys and the previous encoded key.
*/
module CborDecoding {
  import opened Bytes
  import opened Cbor
  import opened CborParse
  import Sorting
  import Utf8

  /** Does a step result agree with the specification, and is the rest of the input what it leaves? */
  ghost predicate Agrees<T>(spec: Parsed<T>, r: Decoded<T>, rest: bytes) {
    match spec
    case Ok(value, after) => r == Success(value) && rest == after
    case Fail(error) => r == Failure(error)
  }

  ghost function Prepend<T>(done: seq<T>, tail: Parsed<seq<T>>): Parsed<seq<T>> {
    match tail
    case Ok(values, rest) => Ok(done + values, rest)
    case Fail(error) => Fail(error)
  }

  /** What readMap returns once it has these entries and has still to read `count` more. */
  ghost function Remaining(entries: seq<Entry>, s: bytes, count: nat, depth: nat, lim: Limits, seen: set<bytes>, previous: Option<bytes>): Parsed<seq<Entry>> {
    Prepend(entries, ParseEntries(s, count, depth, lim, seen, previous))
  }

  lemma {:induction false} MapStart(s: bytes, count: nat, depth: nat, lim: Limits)
    ensures Remaining([], s, count, depth, lim, {}, None) == ParseEntries(s, count, depth, lim, {}, None)
  {
    var spec := ParseEntries(s, count, depth, lim, {}, None);
    assert spec.Ok? ==> [] + spec.value == spec.value;
  }

  lemma {:induction false} MapDone(entries: seq<Entry>, s: bytes, depth: nat, lim: Limits, seen: set<bytes>, previous: Option<bytes>)
    ensures Remaining(entries, s, 0, depth, lim, seen, previous) == Ok(entries, s)
  {
    assert entries + [] == entries;
  }

  lemma {:induction false} MapAdvance(before: bytes, count: nat, depth: nat, lim: Limits, seen: set<bytes>, previous: Option<bytes>, entries: seq<Entry>)
    requires count > 0
    ensures Remaining(entries, before, count, depth, lim, seen, previous) ==
            match ParseKey(before, depth, lim, seen, previous)
            case Fail(error) => Fail(error)
            case Ok(key, afterKey) =>
              match ParseValue(afterKey, depth, lim)
              case Fail(error) => Fail(error)
              case Ok(value, rest) =>
                Remaining(entries + [Entry(key, value)], rest, count - 1, depth, lim, seen + {key}, Some(before[..|before| - |afterKey|]))
  {
    var key := ParseKey(before, depth, lim, seen, previous);
    if key.Ok? {
      var value := ParseValue(key.rest, depth, lim);
      if value.Ok? {
        var tail := ParseEntries(value.rest, count - 1, depth, lim, seen + {key.value}, Some(before[..|before| - |key.rest|]));
        if tail.Ok? {
          assert entries + ([Entry(key.value, value.value)] + tail.value) == (entries + [Entry(key.value, value.value)]) + tail.value;
        }
      }
    }
  }

  class CborDecoder {
    const input: bytes
    const maxTextBytes: nat
    var offset: nat

    ghost predicate Valid()
      reads this
    {
      offset <= |input|
    }

    ghost function Rest(): bytes
      reads this
      requires Valid()
    {
      input[offset..]
    }

    constructor (input: bytes, maxTextBytes: nat)
      ensures Valid() && this.input == input && this.maxTextBytes == maxTextBytes && offset == 0
    {
      this.input := input;
      this.maxTextBytes := maxTextBytes;
      this.offset := 0;
    }

    method ReadBytes(size: nat) returns (r: Decoded<bytes>)
      requires Valid()
      modifies this
      ensures Valid() && offset >= old(offset)
      ensures Agrees(ParseBytes(old(Rest()), size), r, Rest())
    {
      if size > |input| - offset {
        return Failure(Invalid);
      }
      var start := offset;
      offset := offset + size;
      assert input[start..][..size] == input[start..offset];
      return Success(input[start..offset]);
    }

    method ReadUint(size: nat) returns (r: Decoded<nat>)
      requires Valid()
      modifies this
      ensures Valid() && offset >= old(offset)
      ensures match ParseBytes(old(Rest()), size)
              case Ok(data, after) => r == Success(FromBigEndian(data)) && Rest() == after
              case Fail(error) => r == Failure(error)
    {
      var data := ReadBytes(size);
      if data.Failure? {
        return Failure(data.error);
      }
      var value: nat := 0;
      for i := 0 to |data.value|
        invariant value == FromBigEndian(data.value[..i])
      {
        assert data.value[..i + 1][..i] == data.value[..i];
        value := value * 0x100 + data.value[i];
      }
      assert data.value[..|data.value|] == data.value;
      return Success(value);
    }

    method ReadWide(size: nat, tooSmall: nat) returns (r: Decoded<nat>)
      requires Valid()
      modifies this
      ensures Valid() && offset >= old(offset)
      ensures Agrees(ParseWide(old(Rest()), size, tooSmall), r, Rest())
    {
      r := ReadUint(size);
      if r.Success? && r.value <= tooSmall {
        r := Failure(NonCanonical);
      }
    }

    method ReadArgument(additional: nat) returns (r: Decoded<uint64>)
      requires Valid()
      modifies this
      ensures Valid() && offset >= old(offset)
      ensures Agrees(ParseArgument(old(Rest()), additional), r, Rest())
    {
      Power256Values();
      if additional < 24 {
        return Success(additional);
      } else if additional == 24 {
        r := ReadWide(1, 23);
      } else if additional == 25 {
        r := ReadWide(2, 0xff);
      } else if additional == 26 {
        r := ReadWide(4, 0xffff);
      } else if additional == 27 {
        r := ReadWide(8, 0xffff_ffff);
      } else {
        return Failure(Invalid);
      }
    }

    method ReadByteString(size: nat) returns (r: Decoded<Value>)
      requires Valid()
      modifies this
      ensures Valid() && offset >= old(offset)
      ensures Agrees(ParseBlob(old(Rest()), size, Wire(maxTextBytes)), r, Rest())
    {
      if size > MAX_BYTES {
        return Failure(Invalid);
      }
      var data := ReadBytes(size);
      if data.Failure? {
        return Failure(data.error);
      }
      return Success(Blob(data.value));
    }

    method ReadTextString(size: nat) returns (r: Decoded<Value>)
      requires Valid()
      modifies this
      ensures Valid() && offset >= old(offset)
      ensures Agrees(ParseText(old(Rest()), size, Wire(maxTextBytes)), r, Rest())
    {
      if size == 0 || size > maxTextBytes {
        return Failure(Invalid);
      }
      var data := ReadBytes(size);
      if data.Failure? {
        return Failure(data.error);
      }
      if !Utf8.Valid(data.value) {
        return Failure(Invalid);
      }
      return Success(Text(data.value));
    }

    method ReadValue(nestingDepth: nat) returns (r: Decoded<Value>)
      requires Valid()
      modifies this
      ensures Valid() && offset >= old(offset)
      ensures Agrees(ParseValue(old(Rest()), nestingDepth, Wire(maxTextBytes)), r, Rest())
      decreases MAX_DEPTH - nestingDepth, 2
    {
      var initial := ReadBytes(1);
      if initial.Failure? {
        return Failure(initial.error);
      }
      var major, additional := initial.value[0] / 0x20, initial.value[0] % 0x20;
      if major == 7 {
        if additional == 20 {
          return Success(Bool(false));
        } else if additional == 21 {
          return Success(Bool(true));
        }
        return Failure(Invalid);
      }
      var argument := ReadArgument(additional);
      if argument.Failure? {
        return Failure(argument.error);
      }
      r := ReadBody(major, argument.value, nestingDepth);
    }

    method ReadBody(major: nat, argument: uint64, nestingDepth: nat) returns (r: Decoded<Value>)
      requires Valid()
      modifies this
      ensures Valid() && offset >= old(offset)
      ensures Agrees(ParseBody(old(Rest()), major, argument, nestingDepth, Wire(maxTextBytes)), r, Rest())
      decreases MAX_DEPTH - nestingDepth, 1
    {
      if major == 0 {
        return Success(Uint(argument));
      } else if major == 2 {
        r := ReadByteString(argument);
      } else if major == 3 {
        r := ReadTextString(argument);
      } else if major == 4 {
        if nestingDepth >= MAX_DEPTH {
          return Failure(Invalid);
        }
        r := ReadArray(argument, nestingDepth + 1);
      } else if major == 5 {
        if nestingDepth >= MAX_DEPTH {
          return Failure(Invalid);
        }
        r := ReadMap(argument, nestingDepth + 1);
      } else {
        return Failure(Invalid);
      }
    }

    method ReadArray(size: nat, nestingDepth: nat) returns (r: Decoded<Value>)
      requires Valid()
      modifies this
      ensures Valid() && offset >= old(offset)
      ensures size > MAX_ENTRIES ==> r == Failure(Invalid)
      ensures size <= MAX_ENTRIES ==>
                match ParseItems(old(Rest()), size, nestingDepth, Wire(maxTextBytes))
                case Ok(items, after) => r == Success(Array(items)) && Rest() == after
                case Fail(error) => r == Failure(error)
      decreases MAX_DEPTH - nestingDepth, 4
    {
      if size > MAX_ENTRIES {
        return Failure(Invalid);
      }
      var values: seq<Value> := [];
      ghost var spec := ParseItems(Rest(), size, nestingDepth, Wire(maxTextBytes));
      assert spec.Ok? ==> [] + spec.value == spec.value;
      for i := 0 to size
        invariant Valid() && offset >= old(offset)
        invariant spec == Prepend(values, ParseItems(Rest(), size - i, nestingDepth, Wire(maxTextBytes)))
      {
        ghost var before := Rest();
        var value := ReadValue(nestingDepth);
        if value.Failure? {
          return Failure(value.error);
        }
        ghost var tail := ParseItems(Rest(), size - i - 1, nestingDepth, Wire(maxTextBytes));
        if tail.Ok? {
          assert values + ([value.value] + tail.value) == (values + [value.value]) + tail.value;
        }
        values := values + [value.value];
      }
      assert values + [] == values;
      return Success(Array(values));
    }

    /** The key half of one entry: its text and the bytes that encode it. */
    method ReadKey(seen: set<bytes>, previousKey: Option<bytes>, nestingDepth: nat) returns (r: Decoded<(bytes, bytes)>)
      requires Valid()
      modifies this
      ensures Valid() && offset >= old(offset)
      ensures match ParseKey(old(Rest()), nestingDepth, Wire(maxTextBytes), seen, previousKey)
              case Ok(key, after) =>
                r == Success((key, old(Rest())[..|old(Rest())| - |after|])) && Rest() == after
              case Fail(error) => r == Failure(error)
      decreases MAX_DEPTH - nestingDepth, 3
    {
      var keyOffset := offset;
      var keyValue := ReadValue(nestingDepth);
      if keyValue.Failure? {
        return Failure(keyValue.error);
      }
      if !keyValue.value.Text? || keyValue.value.text in seen {
        return Failure(Invalid);
      }
      var encodedKey := input[keyOffset..offset];
      assert encodedKey == old(Rest())[..|old(Rest())| - |Rest()|];
      if previousKey.Some? && !Less(previousKey.value, encodedKey) {
        return Failure(NonCanonical);
      }
      return Success((keyValue.value.text, encodedKey));
    }

    /** One turn of the loop of readMap: the entry and the bytes that encode its key. */
    method ReadEntry(seen: set<bytes>, previousKey: Option<bytes>, nestingDepth: nat) returns (r: Decoded<(Entry, bytes)>)
      requires Valid()
      modifies this
      ensures Valid() && offset >= old(offset)
      ensures match ParseKey(old(Rest()), nestingDepth, Wire(maxTextBytes), seen, previousKey)
              case Fail(error) => r == Failure(error)
              case Ok(key, afterKey) =>
                match ParseValue(afterKey, nestingDepth, Wire(maxTextBytes))
                case Fail(error) => r == Failure(error)
                case Ok(value, after) =>
                  r == Success((Entry(key, value), old(Rest())[..|old(Rest())| - |afterKey|])) && Rest() == after
      decreases MAX_DEPTH - nestingDepth, 4
    {
      var key := ReadKey(seen, previousKey, nestingDepth);
      if key.Failure? {
        return Failure(key.error);
      }
      var value := ReadValue(nestingDepth);
      if value.Failure? {
        return Failure(value.error);
      }
      return Success((Entry(key.value.0, value.value), key.value.1));
    }

    method ReadMap(size: nat, nestingDepth: nat) returns (r: Decoded<Value>)
      requires Valid()
      modifies this
      ensures Valid() && offset >= old(offset)
      ensures size > MAX_ENTRIES ==> r == Failure(Invalid)
      ensures size <= MAX_ENTRIES ==>
                match ParseEntries(old(Rest()), size, nestingDepth, Wire(maxTextBytes), {}, None)
                case Ok(entries, after) => r == Success(Map(entries)) && Rest() == after
                case Fail(error) => r == Failure(error)
      decreases MAX_DEPTH - nestingDepth, 5
    {
      if size > MAX_ENTRIES {
        return Failure(Invalid);
      }
      var entries: seq<Entry> := [];
      var seen: set<bytes> := {};
      var previousKey: Option<bytes> := None;
      hide Remaining, ParseKey, ParseValue, ParseEntries;
      ghost var spec := Remaining([], Rest(), size, nestingDepth, Wire(maxTextBytes), {}, None);
      MapStart(Rest(), size, nestingDepth, Wire(maxTextBytes));
      for i := 0 to size
        invariant Valid() && offset >= old(offset)
        invariant spec == Remaining(entries, Rest(), size - i, nestingDepth, Wire(maxTextBytes), seen, previousKey)
      {
        MapAdvance(Rest(), size - i, nestingDepth, Wire(maxTextBytes), seen, previousKey, entries);
        var entry := ReadEntry(seen, previousKey, nestingDepth);
        if entry.Failure? {
          return Failure(entry.error);
        }
        seen := seen + {entry.value.0.key};
        previousKey := Some(entry.value.1);
        entries := entries + [entry.value.0];
      }
      MapDone(entries, Rest(), nestingDepth, Wire(maxTextBytes), seen, previousKey);
      return Success(Map(entries));
    }
  }

  /** decodeDeterministicCBORWithTextLimit */
  method DecodeDeterministic(input: bytes, maxTextBytes: int) returns (r: Decoded<Value>)
    ensures r == Decode(input, maxTextBytes)
  {
    if input == [] || |input| > MAX_ENVELOPE_BYTES {
      return Failure(Invalid);
    }
    if maxTextBytes <= 0 || maxTextBytes > MAX_BYTES {
      return Failure(Invalid);
    }
    var decoder := new CborDecoder(input, maxTextBytes);
    assert decoder.Rest() == input;
    var value := decoder.ReadValue(0);
    if value.Failure? {
      return value;
    }
    if decoder.offset != |input| {
      return Failure(Invalid);
    }
    var encoded := EncodeCbor(value.value);
    if encoded.None? {
      return Failure(Invalid);
    }
    if encoded.value != input {
      return Failure(NonCanonical);
    }
    return value;
  }

  /** encodeCbor */
  method EncodeCbor(value: Value) returns (r: Option<bytes>)
    ensures r == Encode(value)
    decreases value, 1
  {
    match value
    case Bool(flag) => return Some([if flag then 0xf5 else 0xf4]);
    case Uint(number) => return Some(Header(0, number));
    case Text(text) => return Some(EncodeString(3, text));
    case Blob(data) => return Some(EncodeString(2, data));
    case Map(entries) => r := EncodeCborMap(entries);
    case Array(items) =>
      var body: bytes := [];
      assert items[0..] == items && (EncodeItems(items).Some? ==> [] + EncodeItems(items).value == EncodeItems(items).value);
      for i := 0 to |items|
        invariant EncodeItems(items) == PrependBytes(body, EncodeItems(items[i..]))
      {
        var encoded := EncodeCbor(items[i]);
        if encoded.None? {
          return None;
        }
        assert items[i..][1..] == items[i + 1..];
        ghost var tail := EncodeItems(items[i + 1..]);
        if tail.Some? {
          assert body + (encoded.value + tail.value) == (body + encoded.value) + tail.value;
        }
        body := body + encoded.value;
      }
      assert body + [] == body;
      return Some(Header(4, |items|) + body);
  }

  ghost function PrependBytes(done: bytes, tail: Option<bytes>): Option<bytes> {
    match tail
    case Some(bytes) => Some(done + bytes)
    case None => None
  }

  /** The encodings of the first entries, one by one. */
  ghost predicate EncodedSoFar(entries: seq<Entry>, encoded: seq<EncodedEntry>) {
    && |encoded| <= |entries|
    && forall j :: 0 <= j < |encoded| ==>
         encoded[j].key == EncodedKey(entries[j].key) && Encode(entries[j].value) == Some(encoded[j].value)
  }

  lemma {:induction false} EncodedAll(entries: seq<Entry>, encoded: seq<EncodedEntry>)
    requires EncodedSoFar(entries, encoded) && |encoded| == |entries|
    ensures EncodeEntries(entries) == Some(encoded)
  {
    if entries != [] {
      forall j | 0 <= j < |encoded| - 1
        ensures encoded[1..][j].key == EncodedKey(entries[1..][j].key) && Encode(entries[1..][j].value) == Some(encoded[1..][j].value)
      {
        assert encoded[1..][j] == encoded[j + 1] && entries[1..][j] == entries[j + 1];
      }
      EncodedAll(entries[1..], encoded[1..]);
      assert encoded == [EncodedEntry(EncodedKey(entries[0].key), encoded[0].value)] + encoded[1..];
    }
  }

  lemma {:induction false} EncodingFails(entries: seq<Entry>, i: nat)
    requires i < |entries| && Encode(entries[i].value).None?
    ensures EncodeEntries(entries).None?
  {
    EncodeEntriesSome(entries);
  }

  /** encodeCborMap: encode every entry, refusing a repeated key, then sort by encoded key and join. */
  method EncodeCborMap(entries: seq<Entry>) returns (r: Option<bytes>)
    ensures r == Encode(Map(entries))
    ensures r.Some? <==> DistinctKeys(entries) && forall i :: 0 <= i < |entries| ==> Encode(entries[i].value).Some?
    ensures r.Some? ==> exists order :: Arranged(entries, order, r.value)
    decreases entries, 1
  {
    MapArranged(entries);
    var entered := EncodeMapEntries(entries);
    if DistinctKeys(entries) {
      EncodeMapIs(entries);
    }
    if entered.None? {
      return None;
    }
    var encoded := Sorting.Sort(EncodedLess(), entered.value);
    var body := JoinEncoded(encoded);
    return Some(Header(5, |encoded|) + body);
  }

  /** bytes.Join over the sorted entries. */
  method JoinEncoded(encoded: seq<EncodedEntry>) returns (body: bytes)
    ensures body == Join(encoded)
  {
    body := [];
    for i := 0 to |encoded|
      invariant Join(encoded) == body + Join(encoded[i..])
    {
      assert encoded[i..][1..] == encoded[i + 1..];
      body := body + encoded[i].key + encoded[i].value;
    }
  }

  /** The first i keys are distinct, and they are the ones seen. */
  ghost predicate SeenExactly(seen: set<bytes>, entries: seq<Entry>, i: nat)
    requires i <= |entries|
  {
    && (forall j :: 0 <= j < i ==> entries[j].key in seen)
    && (forall k :: k in seen ==> exists j :: 0 <= j < i && entries[j].key == k)
    && (forall j, k :: 0 <= j < k < i ==> entries[j].key != entries[k].key)
  }

  lemma {:induction false} SeenAdvance(seen: set<bytes>, entries: seq<Entry>, i: nat)
    requires i < |entries| && SeenExactly(seen, entries, i)
    ensures if entries[i].key in seen then !DistinctKeys(entries) else SeenExactly(seen + {entries[i].key}, entries, i + 1)
  {
  }

  /** The first loop of encodeCborMap, with its set of seen keys. */
  method EncodeMapEntries(entries: seq<Entry>) returns (r: Option<seq<EncodedEntry>>)
    ensures r == if DistinctKeys(entries) then EncodeEntries(entries) else None
    decreases entries, 0
  {
    var encoded: seq<EncodedEntry> := [];
    var seen: set<bytes> := {};
    for i := 0 to |entries|
      invariant |encoded| == i && EncodedSoFar(entries, encoded)
      invariant SeenExactly(seen, entries, i)
    {
      SeenAdvance(seen, entries, i);
      if entries[i].key in seen {
        return None;
      }
      seen := seen + {entries[i].key};
      var value := EncodeCbor(entries[i].value);
      if value.None? {
        EncodingFails(entries, i);
        return None;
      }
      encoded := encoded + [EncodedEntry(EncodedKey(entries[i].key), value.value)];
    }
    EncodedAll(entries, encoded);
    return Some(encoded);
  }
}
