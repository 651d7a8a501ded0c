/**
  What protocol/v0/cbor_decode.go accepts, as a function from a byte string to a value and the
  bytes after it, with the two directions of its agreement with the encoder.
*/
module CborParse {
  import opened Bytes
  import opened Sorting
  import opened Cbor
  import Utf8

  const MAX_ENTRIES := 64
  const MAX_BYTES := 48 * 1024
  const MAX_DEPTH := 8
  const MAX_ENVELOPE_BYTES := 64 * 1024
  const MAX_STRING_BYTES := 1024

  /** errInvalidCBOR and errNonCanonicalCBOR */
  datatype Error = Invalid | NonCanonical

  datatype Parsed<+T> = Ok(value: T, rest: bytes) | Fail(error: Error)

  datatype Decoded<+T> = Success(value: T) | Failure(error: Error)

  /**
    The bounds a reader applies. The decoder of this repository uses those of Wire; wider bounds serve
    only to reason about values that it would refuse.
  */
  datatype Limits = Limits(maxText: nat, maxBytes: nat, maxEntries: nat, maxDepth: nat, textOnly: bool)

  /** Every length a reader admits fits the argument of a head. */
  predicate Sane(lim: Limits) {
    && lim.maxText < 0x1_0000_0000_0000_0000
    && lim.maxBytes < 0x1_0000_0000_0000_0000
    && lim.maxEntries < 0x1_0000_0000_0000_0000
  }

  function Wire(maxText: nat): Limits {
    Limits(maxText, MAX_BYTES, MAX_ENTRIES, MAX_DEPTH, true)
  }

  function ParseBytes(s: bytes, size: nat): (r: Parsed<bytes>)
    ensures r.Ok? ==> |r.value| == size && s == r.value + r.rest
  {
    if size > |s| then Fail(Invalid) else Ok(s[..size], s[size..])
  }

  /** readUint followed by the minimality test of its width. */
  function ParseWide(s: bytes, size: nat, tooSmall: nat): (r: Parsed<nat>)
    ensures r.Ok? ==> |r.rest| <= |s| && r.value < Power256(size)
  {
    match ParseBytes(s, size)
    case Fail(error) => Fail(error)
    case Ok(data, rest) =>
      BigEndianInverse(data);
      if FromBigEndian(data) <= tooSmall then Fail(NonCanonical) else Ok(FromBigEndian(data), rest)
  }

  lemma {:induction false} Power256Values()
    ensures Power256(1) == 0x100 && Power256(2) == 0x1_0000 && Power256(4) == 0x1_0000_0000
    ensures Power256(8) == 0x1_0000_0000_0000_0000
  {
    assert Power256(0) == 1;
    assert Power256(3) == 0x100 * Power256(2);
    assert Power256(4) == 0x100 * Power256(3);
    assert Power256(5) == 0x100 * Power256(4);
    assert Power256(6) == 0x100 * Power256(5);
    assert Power256(7) == 0x100 * Power256(6);
  }

  function ParseArgument(s: bytes, additional: nat): (r: Parsed<uint64>)
    ensures r.Ok? ==> |r.rest| <= |s|
  {
    Power256Values();
    if additional < 24 then Ok(additional, s)
    else if additional == 24 then ParseWide(s, 1, 23)
    else if additional == 25 then ParseWide(s, 2, 0xff)
    else if additional == 26 then ParseWide(s, 4, 0xffff)
    else if additional == 27 then ParseWide(s, 8, 0xffff_ffff)
    else Fail(Invalid)
  }

  function ParseText(s: bytes, size: nat, lim: Limits): (r: Parsed<Value>)
    ensures r.Ok? ==> |r.rest| <= |s|
  {
    if (size == 0 && lim.textOnly) || size > lim.maxText then Fail(Invalid)
    else
      match ParseBytes(s, size)
      case Fail(error) => Fail(error)
      case Ok(data, rest) => if !lim.textOnly || Utf8.Valid(data) then Ok(Text(data), rest) else Fail(Invalid)
  }

  function ParseBlob(s: bytes, size: nat, lim: Limits): (r: Parsed<Value>)
    ensures r.Ok? ==> |r.rest| <= |s|
  {
    if size > lim.maxBytes then Fail(Invalid)
    else
      match ParseBytes(s, size)
      case Fail(error) => Fail(error)
      case Ok(data, rest) => Ok(Blob(data), rest)
  }

  function ParseValue(s: bytes, depth: nat, lim: Limits): (r: Parsed<Value>)
    ensures r.Ok? ==> |r.rest| < |s|
    decreases lim.maxDepth - depth, 2
  {
    if s == [] then Fail(Invalid)
    else
      var major, additional := s[0] / 0x20, s[0] % 0x20;
      if major == 7 then
        if additional == 20 then Ok(Bool(false), s[1..])
        else if additional == 21 then Ok(Bool(true), s[1..])
        else Fail(Invalid)
      else
        match ParseArgument(s[1..], additional)
        case Fail(error) => Fail(error)
        case Ok(argument, rest) => ParseBody(rest, major, argument, depth, lim)
  }

  /** What follows a head. */
  function ParseBody(s: bytes, major: nat, argument: uint64, depth: nat, lim: Limits): (r: Parsed<Value>)
    ensures r.Ok? ==> |r.rest| <= |s|
    decreases lim.maxDepth - depth, 1
  {
    if major == 0 then Ok(Uint(argument), s)
    else if major == 2 then ParseBlob(s, argument, lim)
    else if major == 3 then ParseText(s, argument, lim)
    else if major == 4 then ParseArray(s, argument, depth, lim)
    else if major == 5 then ParseMap(s, argument, depth, lim)
    else Fail(Invalid)
  }

  function ParseArray(s: bytes, count: nat, depth: nat, lim: Limits): (r: Parsed<Value>)
    ensures r.Ok? ==> |r.rest| <= |s|
    decreases lim.maxDepth - depth, 0
  {
    if depth >= lim.maxDepth || count > lim.maxEntries then Fail(Invalid)
    else
      match ParseItems(s, count, depth + 1, lim)
      case Fail(error) => Fail(error)
      case Ok(items, rest) => Ok(Array(items), rest)
  }

  function ParseMap(s: bytes, count: nat, depth: nat, lim: Limits): (r: Parsed<Value>)
    ensures r.Ok? ==> |r.rest| <= |s|
    decreases lim.maxDepth - depth, 0
  {
    if depth >= lim.maxDepth || count > lim.maxEntries then Fail(Invalid)
    else
      match ParseEntries(s, count, depth + 1, lim, {}, None)
      case Fail(error) => Fail(error)
      case Ok(entries, rest) => Ok(Map(entries), rest)
  }

  function ParseItems(s: bytes, count: nat, depth: nat, lim: Limits): (r: Parsed<seq<Value>>)
    ensures r.Ok? ==> |r.rest| <= |s| && |r.value| == count
    decreases lim.maxDepth - depth, 3, count
  {
    if count == 0 then Ok([], s)
    else
      match ParseValue(s, depth, lim)
      case Fail(error) => Fail(error)
      case Ok(item, rest) =>
        match ParseItems(rest, count - 1, depth, lim)
        case Fail(error) => Fail(error)
        case Ok(items, rest') => Ok([item] + items, rest')
  }

  /** One key, with the duplicate test before the order test. */
  function ParseKey(s: bytes, depth: nat, lim: Limits, seen: set<bytes>, previous: Option<bytes>): (r: Parsed<bytes>)
    ensures r.Ok? ==> |r.rest| < |s|
    decreases lim.maxDepth - depth, 3, 0
  {
    match ParseValue(s, depth, lim)
    case Fail(error) => Fail(error)
    case Ok(key, rest) =>
      if !key.Text? || key.text in seen then Fail(Invalid)
      else if previous.Some? && !Less(previous.value, s[..|s| - |rest|]) then Fail(NonCanonical)
      else Ok(key.text, rest)
  }

  function ParseEntries(s: bytes, count: nat, depth: nat, lim: Limits, seen: set<bytes>, previous: Option<bytes>)
    : (r: Parsed<seq<Entry>>)
    ensures r.Ok? ==> |r.rest| <= |s| && |r.value| == count
    decreases lim.maxDepth - depth, 3, count
  {
    if count == 0 then Ok([], s)
    else
      match ParseKey(s, depth, lim, seen, previous)
      case Fail(error) => Fail(error)
      case Ok(key, afterKey) =>
        match ParseValue(afterKey, depth, lim)
        case Fail(error) => Fail(error)
        case Ok(value, rest) =>
          match ParseEntries(rest, count - 1, depth, lim, seen + {key}, Some(s[..|s| - |afterKey|]))
          case Fail(error) => Fail(error)
          case Ok(entries, rest') => Ok([Entry(key, value)] + entries, rest')
  }

  /** decodeDeterministicCBORWithTextLimit */
  function Decode(input: bytes, maxText: int): Decoded<Value> {
    if input == [] || |input| > MAX_ENVELOPE_BYTES then Failure(Invalid)
    else if maxText <= 0 || maxText > MAX_BYTES then Failure(Invalid)
    else
      match ParseValue(input, 0, Wire(maxText))
      case Fail(error) => Failure(error)
      case Ok(value, rest) =>
        if rest != [] then Failure(Invalid)
        else
          match Encode(value)
          case None => Failure(Invalid)
          case Some(encoded) => if encoded != input then Failure(NonCanonical) else Success(value)
  }

  // ---------------------------------------------------------------- the limits

  predicate TextInLimits(text: bytes, lim: Limits) {
    |text| <= lim.maxText && (lim.textOnly ==> text != [] && Utf8.Valid(text))
  }

  /** The bounds a value must keep to be readable below `depth` enclosing containers. */
  predicate InLimits(v: Value, depth: nat, lim: Limits) {
    match v
    case Bool(_) => true
    case Uint(_) => true
    case Text(text) => TextInLimits(text, lim)
    case Blob(data) => |data| <= lim.maxBytes
    case Array(items) =>
      && depth < lim.maxDepth
      && |items| <= lim.maxEntries
      && forall i :: 0 <= i < |items| ==> InLimits(items[i], depth + 1, lim)
    case Map(entries) =>
      && depth < lim.maxDepth
      && |entries| <= lim.maxEntries
      && DistinctKeys(entries)
      && forall i :: 0 <= i < |entries| ==>
           TextInLimits(entries[i].key, lim) && InLimits(entries[i].value, depth + 1, lim)
  }

  // ---------------------------------------------------------------- heads

  lemma {:induction false} BigEndianWide(value: nat, size: nat, suffix: bytes, tooSmall: nat)
    requires tooSmall < value < Power256(size)
    ensures ParseWide(BigEndian(value, size) + suffix, size, tooSmall) == Ok(value, suffix)
  {
    var s := BigEndian(value, size) + suffix;
    assert s[..size] == BigEndian(value, size) && s[size..] == suffix;
    FromBigEndianInverse(value, size);
  }

  lemma {:induction false} HeaderComplete(major: nat, value: uint64, suffix: bytes)
    requires major < 8
    ensures var s := Header(major, value) + suffix;
            s[0] / 0x20 == major && ParseArgument(s[1..], s[0] % 0x20) == Ok(value, suffix)
  {
    Power256Values();
    var header := Header(major, value);
    assert (header + suffix)[1..] == header[1..] + suffix;
    if value < 24 {
    } else if value <= 0xff {
      BigEndianWide(value, 1, suffix, 23);
    } else if value <= 0xffff {
      BigEndianWide(value, 2, suffix, 0xff);
    } else if value <= 0xffff_ffff {
      BigEndianWide(value, 4, suffix, 0xffff);
    } else {
      BigEndianWide(value, 8, suffix, 0xffff_ffff);
    }
  }

  lemma {:induction false} WideSound(s: bytes, size: nat, tooSmall: nat)
    requires ParseWide(s, size, tooSmall).Ok?
    ensures var r := ParseWide(s, size, tooSmall);
            tooSmall < r.value < Power256(size) && s == BigEndian(r.value, size) + r.rest
  {
    BigEndianInverse(ParseBytes(s, size).value);
  }

  lemma {:induction false} HeaderSound(s: bytes)
    requires s != [] && ParseArgument(s[1..], s[0] % 0x20).Ok?
    ensures var r := ParseArgument(s[1..], s[0] % 0x20);
            s == Header(s[0] / 0x20, r.value) + r.rest
  {
    var additional, rest := s[0] % 0x20, s[1..];
    assert s == [s[0]] + rest;
    var r := ParseArgument(rest, additional);
    if additional >= 24 {
      var size := if additional == 24 then 1 else if additional == 25 then 2 else if additional == 26 then 4 else 8;
      var tooSmall := if additional == 24 then 23 else if additional == 25 then 0xff else if additional == 26 then 0xffff else 0xffff_ffff;
      WideSound(rest, size, tooSmall);
      Power256Values();
      assert Header(s[0] / 0x20, r.value) == [s[0]] + BigEndian(r.value, size);
      assert s == ([s[0]] + BigEndian(r.value, size)) + r.rest;
    }
  }

  // ---------------------------------------------------------------- soundness

  /** Whatever the parser reads is the encoding of what it returns, within the limits and in order. */
  ghost predicate ReadsValue(s: bytes, v: Value, rest: bytes, depth: nat, lim: Limits) {
    && InLimits(v, depth, lim)
    && Normal(v)
    && Encode(v).Some?
    && s == Encode(v).value + rest
  }

  lemma {:induction false} ReadsString(s: bytes, major: nat, r: Parsed<bytes>, size: nat, head: bytes, depth: nat, lim: Limits)
    requires major == 2 || major == 3
    requires s == Header(major, size) + head && r == ParseBytes(head, size) && r.Ok?
    requires if major == 2 then size <= lim.maxBytes else TextInLimits(r.value, lim)
    ensures ReadsValue(s, if major == 2 then Blob(r.value) else Text(r.value), r.rest, depth, lim)
  {
    assert s == (Header(major, size) + r.value) + r.rest;
  }

  lemma {:induction false} ReadsArray(s: bytes, items: seq<Value>, head: bytes, rest: bytes, depth: nat, lim: Limits)
    requires depth < lim.maxDepth && |items| <= lim.maxEntries
    requires s == Header(4, |items|) + head
    requires EncodeItems(items).Some? && head == EncodeItems(items).value + rest
    requires forall i :: 0 <= i < |items| ==> InLimits(items[i], depth + 1, lim) && Normal(items[i])
    ensures ReadsValue(s, Array(items), rest, depth, lim)
  {
    assert s == (Header(4, |items|) + EncodeItems(items).value) + rest;
  }

  lemma {:induction false} ReadsMap(s: bytes, entries: seq<Entry>, head: bytes, rest: bytes, depth: nat, lim: Limits)
    requires depth < lim.maxDepth && |entries| <= lim.maxEntries
    requires s == Header(5, |entries|) + head
    requires ReadsEntries(head, entries, rest, depth + 1, lim, None)
    ensures ReadsValue(s, Map(entries), rest, depth, lim)
  {
    assert s == (Header(5, |entries|) + Join(EncodeEntries(entries).value)) + rest;
    EncodeAscending(entries);
    MapReadable(entries, depth, lim);
  }

  lemma {:induction false} MapReadable(entries: seq<Entry>, depth: nat, lim: Limits)
    requires depth < lim.maxDepth && |entries| <= lim.maxEntries && Ascending(KeyLess(), entries)
    requires forall i :: 0 <= i < |entries| ==> EntryReadable(entries[i], depth + 1, lim)
    ensures InLimits(Map(entries), depth, lim) && Normal(Map(entries))
  {
    AscendingDistinct(entries);
  }

  lemma {:induction false} ParseSound(s: bytes, depth: nat, lim: Limits)
    requires ParseValue(s, depth, lim).Ok?
    ensures var r := ParseValue(s, depth, lim);
            ReadsValue(s, r.value, r.rest, depth, lim)
    decreases lim.maxDepth - depth, 2
  {
    var major := s[0] / 0x20;
    if major == 7 {
      assert s == [s[0]] + s[1..];
    } else {
      HeaderSound(s);
      var r := ParseArgument(s[1..], s[0] % 0x20);
      assert ParseValue(s, depth, lim) == ParseBody(r.rest, major, r.value, depth, lim);
      if major == 2 || major == 3 {
        ReadsString(s, major, ParseBytes(r.rest, r.value), r.value, r.rest, depth, lim);
      } else if major == 4 {
        assert ParseBody(r.rest, 4, r.value, depth, lim) == ParseArray(r.rest, r.value, depth, lim);
        ItemsSound(r.rest, r.value, depth + 1, lim);
        var items := ParseItems(r.rest, r.value, depth + 1, lim);
        ReadsArray(s, items.value, r.rest, items.rest, depth, lim);
      } else if major == 5 {
        assert ParseBody(r.rest, 5, r.value, depth, lim) == ParseMap(r.rest, r.value, depth, lim);
        EntriesSound(r.rest, r.value, depth + 1, lim, {}, None);
        var entries := ParseEntries(r.rest, r.value, depth + 1, lim, {}, None);
        ReadsMap(s, entries.value, r.rest, entries.rest, depth, lim);
      }
    }
  }

  lemma {:induction false} ItemsSound(s: bytes, count: nat, depth: nat, lim: Limits)
    requires ParseItems(s, count, depth, lim).Ok?
    ensures var r := ParseItems(s, count, depth, lim);
            && EncodeItems(r.value).Some?
            && s == EncodeItems(r.value).value + r.rest
            && forall i :: 0 <= i < count ==> InLimits(r.value[i], depth, lim) && Normal(r.value[i])
    decreases lim.maxDepth - depth, 3, count
  {
    if count > 0 {
      var head := ParseValue(s, depth, lim);
      var tail := ParseItems(head.rest, count - 1, depth, lim);
      ParseSound(s, depth, lim);
      ItemsSound(head.rest, count - 1, depth, lim);
      ItemsConsSound(s, head.value, head.rest, tail.value, tail.rest);
    }
  }

  lemma {:induction false} ItemsConsSound(s: bytes, item: Value, afterItem: bytes, tail: seq<Value>, rest: bytes)
    requires Encode(item).Some? && s == Encode(item).value + afterItem
    requires EncodeItems(tail).Some? && afterItem == EncodeItems(tail).value + rest
    ensures EncodeItems([item] + tail).Some? && s == EncodeItems([item] + tail).value + rest
  {
    assert ([item] + tail)[1..] == tail;
    assert s == (Encode(item).value + EncodeItems(tail).value) + rest;
  }

  ghost predicate ReadsEntries(s: bytes, entries: seq<Entry>, rest: bytes, depth: nat, lim: Limits, previous: Option<bytes>) {
    && EncodeEntries(entries).Some?
    && s == Join(EncodeEntries(entries).value) + rest
    && Ascending(KeyLess(), entries)
    && (entries != [] && previous.Some? ==> Less(previous.value, EncodedKey(entries[0].key)))
    && (forall i :: 0 <= i < |entries| ==> EntryReadable(entries[i], depth, lim))
  }

  ghost predicate EntryReadable(e: Entry, depth: nat, lim: Limits) {
    TextInLimits(e.key, lim) && InLimits(e.value, depth, lim) && Normal(e.value)
  }

  lemma {:induction false} EntriesSound(s: bytes, count: nat, depth: nat, lim: Limits, seen: set<bytes>, previous: Option<bytes>)
    requires ParseEntries(s, count, depth, lim, seen, previous).Ok?
    ensures var r := ParseEntries(s, count, depth, lim, seen, previous);
            ReadsEntries(s, r.value, r.rest, depth, lim, previous)
    decreases lim.maxDepth - depth, 3, count
  {
    if count > 0 {
      var r := ParseEntries(s, count, depth, lim, seen, previous);
      var key := ParseKey(s, depth, lim, seen, previous);
      var value := ParseValue(key.rest, depth, lim);
      KeySound(s, depth, lim, seen, previous);
      ParseSound(key.rest, depth, lim);
      var tail := ParseEntries(value.rest, count - 1, depth, lim, seen + {key.value}, Some(EncodedKey(key.value)));
      assert tail.Ok? && r.value == [Entry(key.value, value.value)] + tail.value && r.rest == tail.rest;
      EntriesSound(value.rest, count - 1, depth, lim, seen + {key.value}, Some(EncodedKey(key.value)));
      EntriesConsSound(s, Entry(key.value, value.value), key.rest, value.rest, tail.value, tail.rest, depth, lim, previous);
    }
  }

  lemma {:induction false} KeySound(s: bytes, depth: nat, lim: Limits, seen: set<bytes>, previous: Option<bytes>)
    requires ParseKey(s, depth, lim, seen, previous).Ok?
    ensures var key := ParseKey(s, depth, lim, seen, previous);
            && TextInLimits(key.value, lim)
            && s == EncodedKey(key.value) + key.rest
            && s[..|s| - |key.rest|] == EncodedKey(key.value)
            && (previous.Some? ==> Less(previous.value, EncodedKey(key.value)))
    decreases lim.maxDepth - depth, 3, 0
  {
    ParseSound(s, depth, lim);
  }

  lemma {:induction false} EntriesConsSound(s: bytes, e: Entry, afterKey: bytes, afterValue: bytes, tail: seq<Entry>, rest: bytes,
                                            depth: nat, lim: Limits, previous: Option<bytes>)
    requires EntryReadable(e, depth, lim) && Encode(e.value).Some?
    requires previous.Some? ==> Less(previous.value, EncodedKey(e.key))
    requires s == EncodedKey(e.key) + afterKey && afterKey == Encode(e.value).value + afterValue
    requires ReadsEntries(afterValue, tail, rest, depth, lim, Some(EncodedKey(e.key)))
    ensures ReadsEntries(s, [e] + tail, rest, depth, lim, previous)
  {
    hide Encode, Join, EncodeEntries, EncodedKey;
    assert EncodeEntries([e] + tail).Some? && s == Join(EncodeEntries([e] + tail).value) + rest by {
      EncodeEntriesCons(e, tail);
    }
    assert Ascending(KeyLess(), [e] + tail) by {
      AscendingCons(e, tail);
    }
  }

  lemma {:induction false} AscendingCons(e: Entry, tail: seq<Entry>)
    requires Ascending(KeyLess(), tail) && (tail != [] ==> KeyLess()(e, tail[0]))
    ensures Ascending(KeyLess(), [e] + tail)
  {
    KeyLessOrder();
    forall j | 0 <= j < |tail| ensures KeyLess()(e, tail[j]) {
      assert KeyLess()(e, tail[0]);
    }
  }

  // ---------------------------------------------------------------- completeness

  lemma {:induction false} ArrayComplete(items: seq<Value>, body: bytes, depth: nat, lim: Limits, suffix: bytes)
    requires depth < lim.maxDepth && |items| <= lim.maxEntries && Sane(lim)
    requires ParseItems(body + suffix, |items|, depth + 1, lim) == Ok(items, suffix)
    ensures ParseValue((Header(4, |items|) + body) + suffix, depth, lim) == Ok(Array(items), suffix)
  {
    HeaderComplete(4, |items|, body + suffix);
    assert (Header(4, |items|) + body) + suffix == Header(4, |items|) + (body + suffix);
    assert ParseBody(body + suffix, 4, |items|, depth, lim) == ParseArray(body + suffix, |items|, depth, lim);
  }

  lemma {:induction false} MapComplete(entries: seq<Entry>, body: bytes, depth: nat, lim: Limits, suffix: bytes)
    requires depth < lim.maxDepth && |entries| <= lim.maxEntries && Sane(lim)
    requires ParseEntries(body + suffix, |entries|, depth + 1, lim, {}, None) == Ok(entries, suffix)
    ensures ParseValue((Header(5, |entries|) + body) + suffix, depth, lim) == Ok(Map(entries), suffix)
  {
    HeaderComplete(5, |entries|, body + suffix);
    assert (Header(5, |entries|) + body) + suffix == Header(5, |entries|) + (body + suffix);
    assert ParseBody(body + suffix, 5, |entries|, depth, lim) == ParseMap(body + suffix, |entries|, depth, lim);
  }

  /** Every normal value within the limits is read back from its encoding, up to any bytes that follow. */
  lemma {:induction false} ParseComplete(v: Value, depth: nat, lim: Limits, suffix: bytes)
    requires InLimits(v, depth, lim) && Normal(v) && Sane(lim)
    ensures Encode(v).Some?
    ensures ParseValue(Encode(v).value + suffix, depth, lim) == Ok(v, suffix)
    decreases v, 1
  {
    match v
    case Bool(_) =>
      assert (Encode(v).value + suffix)[1..] == suffix;
    case Uint(number) => HeaderComplete(0, number, suffix);
    case Text(text) => StringComplete(3, text, suffix);
    case Blob(data) => StringComplete(2, data, suffix);
    case Array(items) =>
      ItemsComplete(items, depth + 1, lim, suffix);
      ArrayComplete(items, EncodeItems(items).value, depth, lim, suffix);
    case Map(entries) =>
      EntriesComplete(entries, depth + 1, lim, {}, None, suffix);
      EncodeAscending(entries);
      MapComplete(entries, Join(EncodeEntries(entries).value), depth, lim, suffix);
  }

  lemma {:induction false} StringComplete(major: nat, data: bytes, suffix: bytes)
    requires major < 8 && |data| < 0x1_0000_0000_0000_0000
    ensures var s := EncodeString(major, data) + suffix;
            && s[0] / 0x20 == major
            && ParseArgument(s[1..], s[0] % 0x20) == Ok(|data|, data + suffix)
            && ParseBytes(data + suffix, |data|) == Ok(data, suffix)
  {
    HeaderComplete(major, |data|, data + suffix);
    assert EncodeString(major, data) + suffix == Header(major, |data|) + (data + suffix);
  }

  lemma {:induction false} ItemsComplete(items: seq<Value>, depth: nat, lim: Limits, suffix: bytes)
    requires Sane(lim)
    requires forall i :: 0 <= i < |items| ==> InLimits(items[i], depth, lim) && Normal(items[i])
    ensures EncodeItems(items).Some?
    ensures ParseItems(EncodeItems(items).value + suffix, |items|, depth, lim) == Ok(items, suffix)
    decreases items, 0
  {
    if items == [] {
      assert EncodeItems(items).value + suffix == suffix;
    } else {
      hide ParseValue, ParseItems, InLimits, Normal, Encode;
      ItemsComplete(items[1..], depth, lim, suffix);
      var tail := EncodeItems(items[1..]).value;
      ParseComplete(items[0], depth, lim, tail + suffix);
      assert EncodeItems(items).value + suffix == Encode(items[0]).value + (tail + suffix);
      ItemsStep(EncodeItems(items).value + suffix, items[0], tail + suffix, items[1..], depth, lim, suffix);
      assert items == [items[0]] + items[1..];
    }
  }

  lemma {:induction false} ItemsStep(s: bytes, item: Value, rest: bytes, tail: seq<Value>, depth: nat, lim: Limits, suffix: bytes)
    requires ParseValue(s, depth, lim) == Ok(item, rest)
    requires ParseItems(rest, |tail|, depth, lim) == Ok(tail, suffix)
    ensures ParseItems(s, |tail| + 1, depth, lim) == Ok([item] + tail, suffix)
  {
    hide ParseValue;
  }

  lemma {:induction false} EntriesComplete(entries: seq<Entry>, depth: nat, lim: Limits, seen: set<bytes>, previous: Option<bytes>, suffix: bytes)
    requires Sane(lim)
    requires forall i :: 0 <= i < |entries| ==> EntryReadable(entries[i], depth, lim)
    requires Ascending(KeyLess(), entries)
    requires forall i :: 0 <= i < |entries| ==> entries[i].key !in seen
    requires entries != [] && previous.Some? ==> Less(previous.value, EncodedKey(entries[0].key))
    ensures EncodeEntries(entries).Some?
    ensures ParseEntries(Join(EncodeEntries(entries).value) + suffix, |entries|, depth, lim, seen, previous) == Ok(entries, suffix)
    decreases entries, 0
  {
    if entries == [] {
      assert Join(EncodeEntries(entries).value) + suffix == suffix;
    } else {
      var e, tail := entries[0], entries[1..];
      AscendingDistinct(entries);
      assert tail != [] ==> KeyLess()(e, tail[0]);
      assert EntryReadable(e, depth, lim);
      hide ParseValue, ParseKey, ParseEntries, InLimits, Normal, Encode, Join;
      EntriesComplete(tail, depth, lim, seen + {e.key}, Some(EncodedKey(e.key)), suffix);
      ParseComplete(e.value, depth, lim, Join(EncodeEntries(tail).value) + suffix);
      EntriesConsComplete(e, tail, Join(EncodeEntries(tail).value) + suffix, depth, lim, seen, previous, suffix);
      assert entries == [e] + tail;
    }
  }

  lemma {:induction false} EntriesConsComplete(e: Entry, tail: seq<Entry>, rest: bytes, depth: nat, lim: Limits, seen: set<bytes>, previous: Option<bytes>, suffix: bytes)
    requires Sane(lim) && TextInLimits(e.key, lim) && e.key !in seen
    requires previous.Some? ==> Less(previous.value, EncodedKey(e.key))
    requires Encode(e.value).Some? && EncodeEntries(tail).Some?
    requires rest == Join(EncodeEntries(tail).value) + suffix
    requires ParseEntries(rest, |tail|, depth, lim, seen + {e.key}, Some(EncodedKey(e.key))) == Ok(tail, suffix)
    requires ParseValue(Encode(e.value).value + rest, depth, lim) == Ok(e.value, rest)
    ensures EncodeEntries([e] + tail).Some?
    ensures ParseEntries(Join(EncodeEntries([e] + tail).value) + suffix, |tail| + 1, depth, lim, seen, previous) == Ok([e] + tail, suffix)
  {
    var afterKey := Encode(e.value).value + rest;
    KeyComplete(e.key, depth, lim, seen, previous, afterKey);
    EntriesStep(EncodedKey(e.key) + afterKey, e, afterKey, rest, tail, depth, lim, seen, previous, suffix);
    EncodeEntriesCons(e, tail);
    Regroup(EncodedKey(e.key), Encode(e.value).value, Join(EncodeEntries(tail).value), suffix);
  }

  lemma {:induction false} EntriesStep(s: bytes, e: Entry, afterKey: bytes, rest: bytes, tail: seq<Entry>, depth: nat, lim: Limits,
                                       seen: set<bytes>, previous: Option<bytes>, suffix: bytes)
    requires ParseKey(s, depth, lim, seen, previous) == Ok(e.key, afterKey)
    requires s[..|s| - |afterKey|] == EncodedKey(e.key)
    requires ParseValue(afterKey, depth, lim) == Ok(e.value, rest)
    requires ParseEntries(rest, |tail|, depth, lim, seen + {e.key}, Some(EncodedKey(e.key))) == Ok(tail, suffix)
    ensures ParseEntries(s, |tail| + 1, depth, lim, seen, previous) == Ok([e] + tail, suffix)
  {
  }

  lemma {:induction false} KeyComplete(key: bytes, depth: nat, lim: Limits, seen: set<bytes>, previous: Option<bytes>, suffix: bytes)
    requires TextInLimits(key, lim) && Sane(lim) && key !in seen
    requires previous.Some? ==> Less(previous.value, EncodedKey(key))
    ensures ParseKey(EncodedKey(key) + suffix, depth, lim, seen, previous) == Ok(key, suffix)
    ensures var s := EncodedKey(key) + suffix; s[..|s| - |suffix|] == EncodedKey(key)
  {
    StringComplete(3, key, suffix);
    assert ParseBody(key + suffix, 3, |key|, depth, lim) == ParseText(key + suffix, |key|, lim);
    assert ParseValue(EncodedKey(key) + suffix, depth, lim) == Ok(Text(key), suffix);
  }

  lemma {:induction false} Regroup(a: bytes, b: bytes, c: bytes, d: bytes)
    ensures (a + (b + c)) + d == a + (b + (c + d))
  {
  }
}
