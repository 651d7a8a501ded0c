/** The bytes of the codec, told without the codec: heads, kinds and order as RFC 8949, sections 3 and 4.2.1, have them. */
module CborWire {
  import opened Bytes
  import opened Cbor
  import opened CborParse
  import opened CborTheorems
  import Sorting
  import Utf8

  /** Network byte order. */
  predicate IsTwo(s: bytes, v: nat) { |s| == 2 && v == s[0] as int * 0x100 + s[1] }

  predicate IsFour(s: bytes, v: nat) { |s| == 4 && v == s[0] as int * 0x100_0000 + s[1] as int * 0x1_0000 + s[2] as int * 0x100 + s[3] }

  predicate IsEight(s: bytes, v: nat) {
    && |s| == 8
    && v == s[0] as int * 0x100_0000_0000_0000 + s[1] as int * 0x1_0000_0000_0000 + s[2] as int * 0x100_0000_0000
            + s[3] as int * 0x1_0000_0000 + s[4] as int * 0x100_0000 + s[5] as int * 0x1_0000 + s[6] as int * 0x100 + s[7]
  }

  lemma {:induction false} Octets(s: bytes)
    requires s != []
    ensures FromBigEndian(s) == FromBigEndian(s[..|s| - 1]) * 0x100 + s[|s| - 1]
    ensures |s| == 1 ==> FromBigEndian(s) == s[0]
  {
    assert |s| == 1 ==> s[..0] == [];
  }

  lemma {:induction false} TwoOctets(s: bytes)
    requires |s| == 2
    ensures IsTwo(s, FromBigEndian(s))
  {
    Octets(s);
    Octets(s[..1]);
  }

  lemma {:induction false} FourOctets(s: bytes)
    requires |s| == 4
    ensures IsFour(s, FromBigEndian(s))
  {
    Octets(s);
    Octets(s[..3]);
    TwoOctets(s[..2]);
    assert s[..3][..2] == s[..2];
  }

  lemma {:induction false} EightOctets(s: bytes)
    requires |s| == 8
    ensures IsEight(s, FromBigEndian(s))
  {
    Octets(s);
    Octets(s[..7]);
    Octets(s[..6]);
    Octets(s[..5]);
    FourOctets(s[..4]);
    assert s[..7][..6] == s[..6] && s[..6][..5] == s[..5] && s[..5][..4] == s[..4];
  }

  /** A head is the major type with the shortest argument that holds the value, high octets first. */
  lemma {:induction false} HeadIs(major: nat, value: uint64)
    requires major < 8
    ensures var h := Header(major, value);
            if value < 24 then h == [major * 32 + value]
            else if value < 0x100 then h == [major * 32 + 24, value]
            else if value < 0x1_0000 then h[0] == major * 32 + 25 && IsTwo(h[1..], value)
            else if value < 0x1_0000_0000 then h[0] == major * 32 + 26 && IsFour(h[1..], value)
            else h[0] == major * 32 + 27 && IsEight(h[1..], value)
  {
    Power256Values();
    if 24 <= value {
      var size := if value < 0x100 then 1 else if value < 0x1_0000 then 2 else if value < 0x1_0000_0000 then 4 else 8;
      var s := BigEndian(value, size);
      FromBigEndianInverse(value, size);
      assert Header(major, value)[1..] == s;
      if size == 1 {
        Octets(s);
      } else if size == 2 {
        TwoOctets(s);
      } else if size == 4 {
        FourOctets(s);
      } else {
        EightOctets(s);
      }
    }
  }

  /** Which head each kind of value has, and what follows it. */
  lemma {:induction false} KindsAre(v: Value)
    requires Encode(v).Some?
    ensures var s := Encode(v).value;
            match v
            case Bool(flag) => s == [if flag then 0xf5 else 0xf4]
            case Uint(number) => s == Header(0, number)
            case Blob(data) => s == Header(2, |data|) + data
            case Text(text) => s == Header(3, |text|) + text
            case Array(items) => Header(4, |items|) <= s
            case Map(entries) => Header(5, |entries|) <= s
  {
  }

  /** The items of an array follow each other in order. */
  lemma {:induction false} ItemsInOrder(items: seq<Value>, i: nat)
    requires i < |items| && EncodeItems(items).Some?
    ensures EncodeItems(items[..i]).Some? && Encode(items[i]).Some?
    ensures EncodeItems(items[..i]).value + Encode(items[i]).value <= EncodeItems(items).value
  {
    hide Encode;
    if i > 0 {
      ItemsInOrder(items[1..], i - 1);
      assert items[..i][1..] == items[1..][..i - 1] && items[1..][i - 1] == items[i];
    }
  }

  // ---------------------------------------------------------------- the examples of appendix A

  function A(): bytes { [0x61] }

  function B(): bytes { [0x62] }

  lemma {:induction false} OneDigit(n: byte)
    ensures BigEndian(n, 1) == [n]
  {
    assert BigEndian(n / 0x100, 0) == [];
  }

  /** Numbers, simple values and strings. */
  lemma {:induction false} ScalarExamples()
    ensures Encode(Uint(0)) == Some([0x00]) && Encode(Uint(10)) == Some([0x0a]) && Encode(Uint(23)) == Some([0x17])
    ensures Encode(Uint(24)) == Some([0x18, 0x18]) && Encode(Uint(100)) == Some([0x18, 0x64])
    ensures Encode(Bool(false)) == Some([0xf4]) && Encode(Bool(true)) == Some([0xf5])
    ensures Encode(Blob([])) == Some([0x40]) && Encode(Blob([1, 2, 3, 4])) == Some([0x44, 1, 2, 3, 4])
    ensures Encode(Text([])) == Some([0x60]) && Encode(Text(A())) == Some([0x61, 0x61])
  {
    OneDigit(24);
    OneDigit(100);
    assert Header(0, 0) == [0x00] && Header(0, 10) == [0x0a] && Header(0, 23) == [0x17];
    assert Header(0, 24) == [0x18, 0x18] && Header(0, 100) == [0x18, 0x64];
    assert Header(2, 0) + [] == [0x40] && Header(2, 4) + [1, 2, 3, 4] == [0x44, 1, 2, 3, 4];
    assert Header(3, 0) + [] == [0x60] && Header(3, 1) + A() == [0x61, 0x61];
  }

  lemma {:induction false} TwoExample()
    ensures Header(0, 1000) == [0x19, 0x03, 0xe8]
  {
    BigEndianInverse([0x03, 0xe8]);
    TwoOctets([0x03, 0xe8]);
    hide BigEndian, FromBigEndian;
  }

  lemma {:induction false} FourExample()
    ensures Header(0, 1_000_000) == [0x1a, 0x00, 0x0f, 0x42, 0x40]
  {
    BigEndianInverse([0x00, 0x0f, 0x42, 0x40]);
    FourOctets([0x00, 0x0f, 0x42, 0x40]);
    hide BigEndian, FromBigEndian;
  }

  lemma {:induction false} EightExample()
    ensures Header(0, 1_000_000_000_000) == [0x1b, 0x00, 0x00, 0x00, 0xe8, 0xd4, 0xa5, 0x10, 0x00]
  {
    BigEndianInverse([0x00, 0x00, 0x00, 0xe8, 0xd4, 0xa5, 0x10, 0x00]);
    EightOctets([0x00, 0x00, 0x00, 0xe8, 0xd4, 0xa5, 0x10, 0x00]);
    hide BigEndian, FromBigEndian;
  }

  lemma {:induction false} WideExamples()
    ensures Encode(Uint(1000)) == Some([0x19, 0x03, 0xe8])
    ensures Encode(Uint(1_000_000)) == Some([0x1a, 0x00, 0x0f, 0x42, 0x40])
    ensures Encode(Uint(1_000_000_000_000)) == Some([0x1b, 0x00, 0x00, 0x00, 0xe8, 0xd4, 0xa5, 0x10, 0x00])
  {
    TwoExample();
    FourExample();
    EightExample();
    hide Header;
  }

  lemma {:induction false} OneItem(a: byte, items: seq<Value>, tail: bytes)
    requires a < 24 && EncodeItems(items) == Some(tail)
    ensures EncodeItems([Uint(a)] + items) == Some([a] + tail)
  {
    assert Header(0, a) == [a] && ([Uint(a)] + items)[1..] == items;
    assert Encode(Uint(a)) == Some([a]);
  }

  lemma {:induction false} Two(a: byte, b: byte)
    requires a < 24 && b < 24
    ensures EncodeItems([Uint(a), Uint(b)]) == Some([a, b])
  {
    assert EncodeItems([]) == Some([]);
    OneItem(b, [], []);
    OneItem(a, [Uint(b)] + [], [b] + []);
    assert [Uint(a)] + ([Uint(b)] + []) == [Uint(a), Uint(b)] && [a] + ([b] + []) == [a, b];
  }

  /** Arrays keep their order; a map does not, and the smaller key comes first. */
  lemma {:induction false} NestedExamples()
    ensures Encode(Array([])) == Some([0x80]) && Encode(Map([])) == Some([0xa0])
    ensures Encode(Array([Uint(1), Uint(2), Uint(3)])) == Some([0x83, 1, 2, 3])
    ensures Encode(Map([Entry(B(), Array([Uint(2), Uint(3)])), Entry(A(), Uint(1))])) == Some([0xa2, 0x61, 0x61, 0x01, 0x61, 0x62, 0x82, 0x02, 0x03])
  {
    Empties();
    ThreeItems();
    TwoEntries();
    hide Encode;
  }

  lemma {:induction false} Empties()
    ensures Encode(Array([])) == Some([0x80]) && Encode(Map([])) == Some([0xa0])
  {
    assert EncodeItems([]) == Some([]) && EncodeEntries([]) == Some([]) && Join([]) == [] && Sorting.Sort(EncodedLess(), []) == [];
    EncodeMapIs([]);
    assert Header(4, 0) + [] == [0x80] && Header(5, 0) + [] == [0xa0];
  }

  lemma {:induction false} ThreeItems()
    ensures Encode(Array([Uint(1), Uint(2), Uint(3)])) == Some([0x83, 1, 2, 3])
  {
    Two(2, 3);
    OneItem(1, [Uint(2), Uint(3)], [2, 3]);
    hide EncodeItems;
    assert [Uint(1)] + [Uint(2), Uint(3)] == [Uint(1), Uint(2), Uint(3)];
    assert Header(4, 3) + ([1] + [2, 3]) == [0x83, 1, 2, 3];
  }

  lemma {:induction false} TwoKeys()
    ensures EncodedKey(A()) == [0x61, 0x61] && EncodedKey(B()) == [0x61, 0x62] && Less(EncodedKey(A()), EncodedKey(B()))
  {
    assert EncodedKey(A()) == [0x61, 0x61] && EncodedKey(B()) == [0x61, 0x62];
    assert [0x61, 0x61][1..] == [0x61] && [0x61, 0x62][1..] == [0x62];
  }

  /** Of two entries the one with the smaller key comes first, wherever it stood. */
  lemma {:induction false} SmallerFirst(a: Entry, b: Entry, va: bytes, vb: bytes)
    requires Precedes(EncodedKey(a.key), EncodedKey(b.key)) && Encode(a.value) == Some(va) && Encode(b.value) == Some(vb)
    ensures Encode(Map([a, b])) == Some(Header(5, 2) + (EncodedKey(a.key) + (va + (EncodedKey(b.key) + (vb + [])))))
    ensures Encode(Map([b, a])) == Encode(Map([a, b]))
  {
    LessExact(EncodedKey(a.key), EncodedKey(b.key));
    BothEncode(a, b, va, vb);
    hide Encode, EncodeEntries, EncodedKey, Header, Join, Less, Precedes;
    EncodeAscending([a, b]);
    EncodePermutation([a, b], [b, a]);
  }

  lemma {:induction false} BothEncode(a: Entry, b: Entry, va: bytes, vb: bytes)
    requires Encode(a.value) == Some(va) && Encode(b.value) == Some(vb)
    ensures EncodeEntries([a, b]).Some?
    ensures EncodeEntries([a, b]).Some? ==> Join(EncodeEntries([a, b]).value) == EncodedKey(a.key) + (va + (EncodedKey(b.key) + (vb + [])))
  {
    assert EncodeEntries([]) == Some([]) && Join([]) == [];
    EncodeEntriesCons(b, []);
    EncodeEntriesCons(a, [b] + []);
    assert [a] + ([b] + []) == [a, b];
    hide Encode, EncodeEntries, EncodedKey;
  }

  lemma {:induction false} TwoEntries()
    ensures Encode(Map([Entry(B(), Array([Uint(2), Uint(3)])), Entry(A(), Uint(1))])) == Some([0xa2, 0x61, 0x61, 0x01, 0x61, 0x62, 0x82, 0x02, 0x03])
  {
    var list := Array([Uint(2), Uint(3)]);
    assert Encode(list) == Some([0x82, 2, 3]) by {
      Two(2, 3);
      assert Header(4, 2) + [2, 3] == [0x82, 2, 3];
    }
    assert Encode(Uint(1)) == Some([1]) by { assert Header(0, 1) == [1]; }
    assert Header(5, 2) == [0xa2];
    TwoKeys();
    hide Encode, EncodedKey, Header, Less, A, B;
    SmallerFirst(Entry(A(), Uint(1)), Entry(B(), list), [1], [0x82, 2, 3]);
    assert [0xa2] + ([0x61, 0x61] + ([1] + ([0x61, 0x62] + ([0x82, 2, 3] + [])))) == [0xa2, 0x61, 0x61, 0x01, 0x61, 0x62, 0x82, 0x02, 0x03];
  }

  // ---------------------------------------------------------------- what the decoder says to the rest

  /** How many octets of argument the low bits of a head announce; 28 to 31 announce nothing that is known here. */
  function Width(additional: nat): nat {
    if additional == 24 then 1 else if additional == 25 then 2 else if additional == 26 then 4 else if additional == 27 then 8 else 0
  }

  /** An argument is invalid exactly if it is cut short or of an unknown width, and not canonical exactly if a shorter head would do. */
  lemma {:induction false} ArgumentErrors(s: bytes, additional: nat)
    ensures ParseArgument(s, additional) == Fail(Invalid) <==> additional >= 28 || |s| < Width(additional)
    ensures ParseArgument(s, additional) == Fail(NonCanonical) <==>
              && 24 <= additional < 28 && |s| >= Width(additional)
              && |Header(0, FromBigEndian(s[..Width(additional)]))| < 1 + Width(additional)
  {
    Power256Values();
    if 24 <= additional < 28 && |s| >= Width(additional) {
      BigEndianInverse(s[..Width(additional)]);
    }
  }

  /** A key is invalid exactly if it is no text or a repeated one, and not canonical exactly if it does not come after the one before. */
  lemma {:induction false} KeyErrors(s: bytes, depth: nat, lim: Limits, seen: set<bytes>, previous: Option<bytes>)
    requires ParseValue(s, depth, lim).Ok?
    ensures var key := ParseValue(s, depth, lim);
            var read := s[..|s| - |key.rest|];
            && (ParseKey(s, depth, lim, seen, previous) == Fail(Invalid) <==> !key.value.Text? || key.value.text in seen)
            && (ParseKey(s, depth, lim, seen, previous) == Fail(NonCanonical) <==>
                  key.value.Text? && key.value.text !in seen && previous.Some? && !Precedes(previous.value, read))
  {
    if previous.Some? {
      LessExact(previous.value, s[..|s| - |ParseValue(s, depth, lim).rest|]);
    }
  }

  /** What decodes to a map has its keys in order, the smaller one first. */
  lemma {:induction false} DecodedInOrder(input: bytes, maxText: int, i: nat, j: nat)
    requires Decode(input, maxText).Success? && Decode(input, maxText).value.Map?
    requires i < j < |Decode(input, maxText).value.entries|
    ensures var entries := Decode(input, maxText).value.entries;
            Precedes(EncodedKey(entries[i].key), EncodedKey(entries[j].key))
  {
    DecodeSound(input, maxText);
    var entries := Decode(input, maxText).value.entries;
    assert KeyLess()(entries[i], entries[j]);
    LessExact(EncodedKey(entries[i].key), EncodedKey(entries[j].key));
  }

  // ---------------------------------------------------------------- the bounds of the decoder

  /** How many arrays and maps are inside one another. */
  function Levels(v: Value): nat
    decreases v
  {
    match v
    case Array(items) => 1 + LevelsOf(items)
    case Map(entries) => 1 + LevelsIn(entries)
    case _ => 0
  }

  function LevelsOf(items: seq<Value>): nat
    decreases items
  {
    if items == [] then 0
    else
      var rest := LevelsOf(items[1..]);
      if Levels(items[0]) > rest then Levels(items[0]) else rest
  }

  function LevelsIn(entries: seq<Entry>): nat
    decreases entries
  {
    if entries == [] then 0
    else
      var rest := LevelsIn(entries[1..]);
      if Levels(entries[0].value) > rest then Levels(entries[0].value) else rest
  }

  /** A text that is not empty, not too long, and UTF-8. */
  predicate PlainText(text: bytes, maxText: nat) { 0 < |text| <= maxText && Utf8.Valid(text) }

  /** Everywhere in a value: plain texts, at most 48 KiB of bytes, at most 64 items or entries, and no key twice. */
  predicate PlainParts(v: Value, maxText: nat)
    decreases v
  {
    match v
    case Uint(_) => true
    case Bool(_) => true
    case Text(text) => PlainText(text, maxText)
    case Blob(data) => |data| <= 49_152
    case Array(items) => |items| <= 64 && forall i :: 0 <= i < |items| ==> PlainParts(items[i], maxText)
    case Map(entries) =>
      && |entries| <= 64 && (forall i, j :: 0 <= i < j < |entries| ==> entries[i].key != entries[j].key)
      && forall i :: 0 <= i < |entries| ==> PlainText(entries[i].key, maxText) && PlainParts(entries[i].value, maxText)
  }

  lemma {:induction false} HighestItem(items: seq<Value>, limit: nat)
    ensures (forall i :: 0 <= i < |items| ==> Levels(items[i]) <= limit) <==> LevelsOf(items) <= limit
  {
    if items != [] {
      HighestItem(items[1..], limit);
      if forall i :: 0 <= i < |items[1..]| ==> Levels(items[1..][i]) <= limit {
        assert forall i :: 0 < i < |items| ==> items[i] == items[1..][i - 1];
      }
      hide Levels;
    }
  }

  lemma {:induction false} HighestEntry(entries: seq<Entry>, limit: nat)
    ensures (forall i :: 0 <= i < |entries| ==> Levels(entries[i].value) <= limit) <==> LevelsIn(entries) <= limit
  {
    if entries != [] {
      HighestEntry(entries[1..], limit);
      if forall i :: 0 <= i < |entries[1..]| ==> Levels(entries[1..][i].value) <= limit {
        assert forall i :: 0 < i < |entries| ==> entries[i] == entries[1..][i - 1];
      }
      hide Levels;
    }
  }

  lemma {:induction false} BoundsExact(v: Value, depth: nat, maxText: nat)
    ensures InLimits(v, depth, Wire(maxText)) <==> (depth + Levels(v) <= 8 || Levels(v) == 0) && PlainParts(v, maxText)
    decreases v
  {
    match v
    case Array(items) =>
      if depth < 8 {
        HighestItem(items, 7 - depth);
      }
      forall i | 0 <= i < |items|
        ensures InLimits(items[i], depth + 1, Wire(maxText)) <==> (depth + 1 + Levels(items[i]) <= 8 || Levels(items[i]) == 0) && PlainParts(items[i], maxText)
      {
        BoundsExact(items[i], depth + 1, maxText);
      }
    case Map(entries) =>
      if depth < 8 {
        HighestEntry(entries, 7 - depth);
      }
      forall i | 0 <= i < |entries|
        ensures InLimits(entries[i].value, depth + 1, Wire(maxText))
           <==> (depth + 1 + Levels(entries[i].value) <= 8 || Levels(entries[i].value) == 0) && PlainParts(entries[i].value, maxText)
      {
        BoundsExact(entries[i].value, depth + 1, maxText);
      }
    case _ =>
  }

  /** An input decodes exactly if it is, in at most 64 KiB, the encoding of a value of plain parts and at most eight levels. */
  lemma {:induction false} DecodesExactly(input: bytes, maxText: nat)
    requires 0 < maxText <= 49_152
    ensures Decode(input, maxText).Success? <==> |input| <= 65_536 && exists v :: Encode(v) == Some(input) && Levels(v) <= 8 && PlainParts(v, maxText)
  {
    AcceptedInputs(input, maxText);
    forall v ensures InLimits(v, 0, Wire(maxText)) <==> Levels(v) <= 8 && PlainParts(v, maxText) {
      BoundsExact(v, 0, maxText);
    }
    hide InLimits, Encode, Decode, Levels, PlainParts;
  }
}
