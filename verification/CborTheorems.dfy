/** What the deterministic-CBOR codec guarantees as a whole. */
module CborTheorems {
  import opened Bytes
  import opened Sorting
  import opened Cbor
  import opened CborParse

  /** Sorting the entries of every map leaves a value inside its limits. */
  lemma {:induction false} NormalizeInLimits(v: Value, depth: nat, lim: Limits)
    requires InLimits(v, depth, lim)
    ensures InLimits(Normalize(v), depth, lim)
    ensures Encode(v).Some? && Normal(Normalize(v))
  {
    match v
    case Array(items) =>
      forall i | 0 <= i < |items| ensures InLimits(NormalizeItems(items)[i], depth + 1, lim) && Encode(items[i]).Some? {
        NormalizeInLimits(items[i], depth + 1, lim);
      }
      EncodeItemsAll(items);
      NormalizeIsNormal(v);
    case Map(entries) =>
      var normal := NormalizeEntries(entries);
      forall i | 0 <= i < |entries| ensures InLimits(normal[i].value, depth + 1, lim) && Encode(entries[i].value).Some? {
        NormalizeInLimits(entries[i].value, depth + 1, lim);
      }
      EncodeEntriesSome(entries);
      SortInLimits(normal, depth, lim);
      EncodeMapIs(entries);
      NormalizeIsNormal(v);
    case _ =>
  }

  lemma {:induction false} SortInLimits(entries: seq<Entry>, depth: nat, lim: Limits)
    requires InLimits(Map(entries), depth, lim)
    ensures InLimits(Map(Sort(KeyLess(), entries)), depth, lim)
  {
    var sorted := Sort(KeyLess(), entries);
    DistinctPermutation(entries, sorted);
    assert forall e :: e in sorted ==> TextInLimits(e.key, lim) && InLimits(e.value, depth + 1, lim) by {
      MultisetMembers(sorted, entries);
    }
  }

  lemma {:induction false} EncodeItemsAll(items: seq<Value>)
    requires forall i :: 0 <= i < |items| ==> Encode(items[i]).Some?
    ensures EncodeItems(items).Some?
  {
    if items != [] {
      EncodeItemsAll(items[1..]);
      assert Encode(items[0]).Some?;
    }
  }

  /** The parser reads v from the front of s exactly when s starts with the encoding of v and v is normal and in limits. */
  lemma {:induction false} ParsesExactlyEncodings(s: bytes, v: Value, rest: bytes, depth: nat, lim: Limits)
    requires Sane(lim)
    ensures ParseValue(s, depth, lim) == Ok(v, rest) <==> ReadsValue(s, v, rest, depth, lim)
  {
    if ParseValue(s, depth, lim) == Ok(v, rest) {
      ParseSound(s, depth, lim);
    }
    if ReadsValue(s, v, rest, depth, lim) {
      ParseComplete(v, depth, lim, rest);
    }
  }

  /** The comparison with the re-encoded value at the end of the decoder never rejects anything. */
  lemma {:induction false} ReencodingCheckIsRedundant(input: bytes, maxText: nat)
    requires 0 < |input| <= MAX_ENVELOPE_BYTES && 0 < maxText <= MAX_BYTES
    ensures Decode(input, maxText) ==
            match ParseValue(input, 0, Wire(maxText))
            case Fail(error) => Failure(error)
            case Ok(value, rest) => if rest == [] then Success(value) else Failure(Invalid)
  {
    var r := ParseValue(input, 0, Wire(maxText));
    if r.Ok? {
      ParseSound(input, 0, Wire(maxText));
      assert r.rest == [] ==> Encode(r.value).value + [] == Encode(r.value).value;
    }
  }

  /** An accepted input is the encoding of the value it decodes to, and that value is normal and in limits. */
  lemma {:induction false} DecodeSound(input: bytes, maxText: int)
    requires Decode(input, maxText).Success?
    ensures var v := Decode(input, maxText).value;
            && 0 < maxText <= MAX_BYTES
            && 0 < |input| <= MAX_ENVELOPE_BYTES
            && Encode(v) == Some(input)
            && InLimits(v, 0, Wire(maxText))
            && Normal(v)
  {
    ParseSound(input, 0, Wire(maxText));
  }

  /** Two accepted inputs that decode to the same value are the same bytes. */
  lemma {:induction false} DecodeInjective(a: bytes, b: bytes, maxText: int)
    requires Decode(a, maxText).Success? && Decode(a, maxText) == Decode(b, maxText)
    ensures a == b
  {
    DecodeSound(a, maxText);
    DecodeSound(b, maxText);
  }

  /** A value in limits, followed by anything, is read back with its entries sorted, and nothing more is consumed. */
  lemma {:induction false} EncodeThenParse(v: Value, depth: nat, lim: Limits, suffix: bytes)
    requires InLimits(v, depth, lim) && Sane(lim)
    ensures Encode(v).Some?
    ensures ParseValue(Encode(v).value + suffix, depth, lim) == Ok(Normalize(v), suffix)
  {
    NormalizeInLimits(v, depth, lim);
    EncodeNormalize(v);
    ParseComplete(Normalize(v), depth, lim, suffix);
  }

  lemma {:induction false} EncodingNotEmpty(v: Value)
    requires Encode(v).Some?
    ensures Encode(v).value != []
  {
  }

  /** decode . encode sorts the entries of every map and changes nothing else. */
  lemma {:induction false} EncodeThenDecode(v: Value, maxText: nat)
    requires InLimits(v, 0, Wire(maxText)) && 0 < maxText <= MAX_BYTES
    requires Encode(v).Some? ==> |Encode(v).value| <= MAX_ENVELOPE_BYTES
    ensures Encode(v).Some?
    ensures Decode(Encode(v).value, maxText) == Success(Normalize(v))
  {
    EncodeThenParse(v, 0, Wire(maxText), []);
    var encoded := Encode(v).value;
    assert encoded + [] == encoded;
    EncodingNotEmpty(v);
    ReencodingCheckIsRedundant(encoded, maxText);
  }

  /** The accepted inputs are exactly the encodings, of at most 64 KiB, of values in limits. */
  lemma {:induction false} AcceptedInputs(input: bytes, maxText: nat)
    requires 0 < maxText <= MAX_BYTES
    ensures Decode(input, maxText).Success?
        <==> |input| <= MAX_ENVELOPE_BYTES && exists v :: InLimits(v, 0, Wire(maxText)) && Encode(v) == Some(input)
  {
    if Decode(input, maxText).Success? {
      DecodeSound(input, maxText);
    }
    if |input| <= MAX_ENVELOPE_BYTES && exists v :: InLimits(v, 0, Wire(maxText)) && Encode(v) == Some(input) {
      var v :| InLimits(v, 0, Wire(maxText)) && Encode(v) == Some(input);
      EncodeThenDecode(v, maxText);
    }
  }

  /** No encoding is a proper prefix of another, and equal encodings differ at most in entry order. */
  lemma {:induction false} PrefixFree(v: Value, w: Value, a: bytes, b: bytes, depth: nat, lim: Limits)
    requires InLimits(v, depth, lim) && InLimits(w, depth, lim) && Sane(lim)
    requires Encode(v).Some? && Encode(w).Some? && Encode(v).value + a == Encode(w).value + b
    ensures Normalize(v) == Normalize(w) && a == b
  {
    EncodeThenParse(v, depth, lim, a);
    EncodeThenParse(w, depth, lim, b);
  }

  // ---------------------------------------------------------------- values outside the limits

  /** Lengths a Go program can hold. */
  predicate Representable(v: Value) {
    match v
    case Text(text) => |text| < 0x1_0000_0000_0000_0000
    case Blob(data) => |data| < 0x1_0000_0000_0000_0000
    case Array(items) =>
      && |items| < 0x1_0000_0000_0000_0000
      && forall i :: 0 <= i < |items| ==> Representable(items[i])
    case Map(entries) =>
      && |entries| < 0x1_0000_0000_0000_0000
      && forall i :: 0 <= i < |entries| ==> |entries[i].key| < 0x1_0000_0000_0000_0000 && Representable(entries[i].value)
    case _ => true
  }

  function Nesting(v: Value): nat
    decreases v, 1
  {
    match v
    case Array(items) => 1 + NestingOfItems(items)
    case Map(entries) => 1 + NestingOfEntries(entries)
    case _ => 0
  }

  function NestingOfItems(items: seq<Value>): (n: nat)
    ensures forall i :: 0 <= i < |items| ==> Nesting(items[i]) <= n
    decreases items, 0
  {
    if items == [] then 0
    else
      var head, tail := Nesting(items[0]), NestingOfItems(items[1..]);
      assert items == [items[0]] + items[1..];
      if head > tail then head else tail
  }

  function NestingOfEntries(entries: seq<Entry>): (n: nat)
    ensures forall i :: 0 <= i < |entries| ==> Nesting(entries[i].value) <= n
    decreases entries, 0
  {
    if entries == [] then 0
    else
      var head, tail := Nesting(entries[0].value), NestingOfEntries(entries[1..]);
      assert entries == [entries[0]] + entries[1..];
      if head > tail then head else tail
  }

  /** Bounds wide enough for any value of the given nesting, with no condition on text. */
  function Relaxed(depth: nat): Limits {
    Limits(0xffff_ffff_ffff_ffff, 0xffff_ffff_ffff_ffff, 0xffff_ffff_ffff_ffff, depth, false)
  }

  lemma {:induction false} RelaxedSuffices(v: Value, depth: nat, bound: nat)
    requires Representable(v) && Encode(v).Some? && depth + Nesting(v) <= bound
    ensures InLimits(v, depth, Relaxed(bound))
  {
    match v
    case Array(items) =>
      forall i | 0 <= i < |items| ensures InLimits(items[i], depth + 1, Relaxed(bound)) {
        EncodeItemsSome(items, i);
        RelaxedSuffices(items[i], depth + 1, bound);
      }
    case Map(entries) =>
      EncodeMapParts(entries);
      forall i | 0 <= i < |entries| ensures InLimits(entries[i].value, depth + 1, Relaxed(bound)) {
        RelaxedSuffices(entries[i].value, depth + 1, bound);
      }
    case _ =>
  }

  /** Whatever their size and nesting, values with the same encoding differ at most in entry order. */
  lemma {:induction false} EncodeInjective(v: Value, w: Value)
    requires Representable(v) && Representable(w)
    requires Encode(v).Some? && Encode(v) == Encode(w)
    ensures Normalize(v) == Normalize(w)
  {
    var bound := Nesting(v) + Nesting(w);
    RelaxedSuffices(v, 0, bound);
    RelaxedSuffices(w, 0, bound);
    PrefixFree(v, w, [], [], 0, Relaxed(bound));
  }

  lemma {:induction false} NormalizeReflectsLimits(v: Value, depth: nat, lim: Limits)
    requires Encode(v).Some? && InLimits(Normalize(v), depth, lim)
    ensures InLimits(v, depth, lim)
    decreases v, 1
  {
    match v
    case Array(items) => ItemsReflectLimits(items, depth, lim);
    case Map(entries) =>
      EncodeMapParts(entries);
      SortReflectsLimits(NormalizeEntries(entries), depth, lim);
      EntriesReflectLimits(entries, depth, lim);
    case _ =>
  }

  lemma {:induction false} ItemsReflectLimits(items: seq<Value>, depth: nat, lim: Limits)
    requires EncodeItems(items).Some?
    requires forall i :: 0 <= i < |items| ==> InLimits(NormalizeItems(items)[i], depth + 1, lim)
    ensures forall i :: 0 <= i < |items| ==> InLimits(items[i], depth + 1, lim)
    decreases items, 0
  {
    forall i | 0 <= i < |items| ensures InLimits(items[i], depth + 1, lim) {
      EncodeItemsSome(items, i);
      assert InLimits(NormalizeItems(items)[i], depth + 1, lim);
      NormalizeReflectsLimits(items[i], depth + 1, lim);
    }
  }

  lemma {:induction false} EntriesReflectLimits(entries: seq<Entry>, depth: nat, lim: Limits)
    requires forall i :: 0 <= i < |entries| ==> Encode(entries[i].value).Some?
    requires forall i :: 0 <= i < |entries| ==> InLimits(NormalizeEntries(entries)[i].value, depth + 1, lim)
    ensures forall i :: 0 <= i < |entries| ==> InLimits(entries[i].value, depth + 1, lim)
    decreases entries, 0
  {
    forall i | 0 <= i < |entries| ensures InLimits(entries[i].value, depth + 1, lim) {
      assert InLimits(NormalizeEntries(entries)[i].value, depth + 1, lim);
      NormalizeReflectsLimits(entries[i].value, depth + 1, lim);
    }
  }

  lemma {:induction false} SortReflectsLimits(entries: seq<Entry>, depth: nat, lim: Limits)
    requires InLimits(Map(Sort(KeyLess(), entries)), depth, lim)
    ensures forall i :: 0 <= i < |entries| ==> InLimits(entries[i].value, depth + 1, lim)
    ensures forall i :: 0 <= i < |entries| ==> TextInLimits(entries[i].key, lim)
    ensures depth < lim.maxDepth && |entries| <= lim.maxEntries
  {
    var sorted := Sort(KeyLess(), entries);
    MultisetMembers(sorted, entries);
    forall i | 0 <= i < |entries| ensures TextInLimits(entries[i].key, lim) && InLimits(entries[i].value, depth + 1, lim) {
      assert entries[i] in sorted;
    }
  }

  lemma {:induction false} InLimitsRepresentable(v: Value, depth: nat, lim: Limits)
    requires InLimits(v, depth, lim) && Sane(lim)
    ensures Representable(v)
  {
    match v
    case Array(items) =>
      forall i | 0 <= i < |items| ensures Representable(items[i]) {
        InLimitsRepresentable(items[i], depth + 1, lim);
      }
    case Map(entries) =>
      forall i | 0 <= i < |entries| ensures Representable(entries[i].value) {
        InLimitsRepresentable(entries[i].value, depth + 1, lim);
      }
    case _ =>
  }

  /**
    For any value at all: its encoding is accepted exactly when the value is in limits and the encoding is
    no longer than 64 KiB, and then it decodes to the sorted value.
  */
  lemma {:induction false} DecodeOfEncoding(v: Value, maxText: nat)
    requires Representable(v) && Encode(v).Some? && 0 < maxText <= MAX_BYTES
    ensures Decode(Encode(v).value, maxText).Success?
        <==> InLimits(v, 0, Wire(maxText)) && |Encode(v).value| <= MAX_ENVELOPE_BYTES
    ensures Decode(Encode(v).value, maxText).Success? ==> Decode(Encode(v).value, maxText).value == Normalize(v)
  {
    if InLimits(v, 0, Wire(maxText)) && |Encode(v).value| <= MAX_ENVELOPE_BYTES {
      EncodeThenDecode(v, maxText);
    }
    if Decode(Encode(v).value, maxText).Success? {
      DecodeSound(Encode(v).value, maxText);
      var w := Decode(Encode(v).value, maxText).value;
      InLimitsRepresentable(w, 0, Wire(maxText));
      EncodeInjective(v, w);
      NormalizeNormal(w);
      NormalizeReflectsLimits(v, 0, Wire(maxText));
    }
  }
}
