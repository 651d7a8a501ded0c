/** base64.RawURLEncoding of Go: section 5 of RFC 4648 without padding. Line breaks, which Go's decoder skips, are not digits here. */
module Base64Url {
  import opened Bytes

  function Digit(v: int): (c: byte)
    requires 0 <= v < 64
    ensures Value(c) == Some(v)
  {
    if v < 26 then 65 + v
    else if v < 52 then 71 + v
    else if v < 62 then v - 4
    else if v == 62 then 45
    else 95
  }

  function Value(c: byte): (v: Option<int>)
    ensures v.Some? ==> 0 <= v.value < 64
  {
    if 65 <= c <= 90 then Some(c - 65)
    else if 97 <= c <= 122 then Some(c - 71)
    else if 48 <= c <= 57 then Some(c + 4)
    else if c == 45 then Some(62)
    else if c == 95 then Some(63)
    else None
  }

  predicate IsDigit(c: byte) {
    65 <= c <= 90 || 97 <= c <= 122 || 48 <= c <= 57 || c == 45 || c == 95
  }

  lemma {:induction false} DigitIs(c: byte)
    ensures IsDigit(c) <==> Value(c).Some?
    ensures IsDigit(c) ==> Digit(Value(c).value) == c
  {
  }

  type Sextet = v: int | 0 <= v < 64

  // The four digits of three bytes, and the three bytes of four digits.

  function First(a: byte): Sextet { a / 4 }

  function Second(a: byte, b: byte): Sextet { a % 4 * 16 + b / 16 }

  function Third(b: byte, c: byte): Sextet { b % 16 * 4 + c / 64 }

  function Fourth(c: byte): Sextet { c % 64 }

  function ByteOne(p: Sextet, q: Sextet): byte { p * 4 + q / 16 }

  function ByteTwo(q: Sextet, r: Sextet): byte { q % 16 * 16 + r / 4 }

  function ByteThree(r: Sextet, s: Sextet): byte { r % 4 * 64 + s }

  lemma {:induction false} By4(x: nat, y: nat)
    requires y < 4
    ensures (x * 4 + y) / 4 == x && (x * 4 + y) % 4 == y
  {
  }

  lemma {:induction false} By16(x: nat, y: nat)
    requires y < 16
    ensures (x * 16 + y) / 16 == x && (x * 16 + y) % 16 == y
  {
  }

  lemma {:induction false} ByteOneBack(a: byte, b: byte)
    ensures ByteOne(First(a), Second(a, b)) == a
  {
    By16(a % 4, b / 16);
  }

  lemma {:induction false} ByteTwoBack(a: byte, b: byte, c: byte)
    ensures ByteTwo(Second(a, b), Third(b, c)) == b
  {
    By16(a % 4, b / 16);
    By4(b % 16, c / 64);
  }

  lemma {:induction false} ByteThreeBack(b: byte, c: byte)
    ensures ByteThree(Third(b, c), Fourth(c)) == c
  {
  }

  lemma {:induction false} FirstBack(p: Sextet, q: Sextet)
    ensures First(ByteOne(p, q)) == p
  {
  }

  lemma {:induction false} SecondBack(p: Sextet, q: Sextet, r: Sextet)
    ensures Second(ByteOne(p, q), ByteTwo(q, r)) == q
  {
    By4(p, q / 16);
    By16(q % 16, r / 4);
  }

  lemma {:induction false} ThirdBack(q: Sextet, r: Sextet, s: Sextet)
    ensures Third(ByteTwo(q, r), ByteThree(r, s)) == r && Fourth(ByteThree(r, s)) == s
  {
  }

  lemma {:induction false} LastBits(p: Sextet, q: Sextet, r: Sextet)
    ensures Second(ByteOne(p, q), 0) == q <==> q % 16 == 0
    ensures Third(ByteTwo(q, r), 0) == r <==> r % 4 == 0
  {
  }

  function EncodeOne(a: byte): bytes { [Digit(First(a)), Digit(Second(a, 0))] }

  function EncodeTwo(a: byte, b: byte): bytes { [Digit(First(a)), Digit(Second(a, b)), Digit(Third(b, 0))] }

  function EncodeThree(a: byte, b: byte, c: byte): bytes {
    [Digit(First(a)), Digit(Second(a, b)), Digit(Third(b, c)), Digit(Fourth(c))]
  }

  /** EncodeToString */
  function Encode(data: bytes): bytes {
    if data == [] then []
    else if |data| == 1 then EncodeOne(data[0])
    else if |data| == 2 then EncodeTwo(data[0], data[1])
    else EncodeThree(data[0], data[1], data[2]) + Encode(data[3..])
  }

  function DecodeTwo(x: byte, y: byte): Option<bytes> {
    match (Value(x), Value(y))
    case (Some(p), Some(q)) => Some([ByteOne(p, q)])
    case _ => None
  }

  function DecodeThree(x: byte, y: byte, z: byte): Option<bytes> {
    match (Value(x), Value(y), Value(z))
    case (Some(p), Some(q), Some(r)) => Some([ByteOne(p, q), ByteTwo(q, r)])
    case _ => None
  }

  function DecodeFour(x: byte, y: byte, z: byte, w: byte): Option<bytes> {
    match (Value(x), Value(y), Value(z), Value(w))
    case (Some(p), Some(q), Some(r), Some(s)) => Some([ByteOne(p, q), ByteTwo(q, r), ByteThree(r, s)])
    case _ => None
  }

  /** DecodeString: the bits that the last digit has too many are ignored. */
  function Decode(text: bytes): Option<bytes> {
    if text == [] then Some([])
    else if |text| == 1 then None
    else if |text| == 2 then DecodeTwo(text[0], text[1])
    else if |text| == 3 then DecodeThree(text[0], text[1], text[2])
    else
      match (DecodeFour(text[0], text[1], text[2], text[3]), Decode(text[4..]))
      case (Some(front), Some(rest)) => Some(front + rest)
      case _ => None
  }

  lemma {:induction false} EncodeLength(data: bytes)
    ensures |Encode(data)| == (4 * |data| + 2) / 3
  {
    if |data| >= 3 {
      EncodeLength(data[3..]);
    }
  }

  lemma {:induction false} EncodeDigits(data: bytes)
    ensures forall i :: 0 <= i < |Encode(data)| ==> IsDigit(Encode(data)[i])
  {
    if |data| >= 3 {
      EncodeDigits(data[3..]);
    }
  }

  lemma {:induction false} OneBack(a: byte)
    ensures Decode(EncodeOne(a)) == Some([a])
  {
    ByteOneBack(a, 0);
    hide Digit, Value, First, Second, ByteOne;
  }

  lemma {:induction false} PairBack(a: byte, b: byte)
    ensures Decode(EncodeTwo(a, b)) == Some([a, b])
  {
    ByteOneBack(a, b);
    ByteTwoBack(a, b, 0);
    hide Digit, Value, First, Second, Third, ByteOne, ByteTwo, DecodeTwo, DecodeFour;
    assert |EncodeTwo(a, b)| == 3;
  }

  lemma {:induction false} TripleBack(a: byte, b: byte, c: byte, rest: bytes)
    requires Decode(rest).Some?
    ensures Decode(EncodeThree(a, b, c) + rest) == Some([a, b, c] + Decode(rest).value)
  {
    ByteOneBack(a, b);
    ByteTwoBack(a, b, c);
    ByteThreeBack(b, c);
    hide Digit, Value, First, Second, Third, Fourth, ByteOne, ByteTwo, ByteThree;
    assert (EncodeThree(a, b, c) + rest)[4..] == rest;
  }

  lemma {:induction false} DecodeOfEncode(data: bytes)
    ensures Decode(Encode(data)) == Some(data)
  {
    hide Decode, EncodeOne, EncodeTwo, EncodeThree;
    if data == [] {
      NothingBack();
    } else if |data| == 1 {
      OneBack(data[0]);
      assert data == [data[0]];
    } else if |data| == 2 {
      PairBack(data[0], data[1]);
      assert data == [data[0], data[1]];
    } else {
      DecodeOfEncode(data[3..]);
      TripleBack(data[0], data[1], data[2], Encode(data[3..]));
      assert data == [data[0], data[1], data[2]] + data[3..];
    }
  }

  lemma {:induction false} NothingBack()
    ensures Decode([]) == Some([])
  {
  }

  /** The unused bits of the last digit are zero. */
  predicate Canonical(text: bytes) {
    |text| % 4 != 1
    && (|text| % 4 == 2 ==> Value(text[|text| - 1]).Some? && Value(text[|text| - 1]).value % 16 == 0)
    && (|text| % 4 == 3 ==> Value(text[|text| - 1]).Some? && Value(text[|text| - 1]).value % 4 == 0)
  }

  lemma {:induction false} FourBack(x: byte, y: byte, z: byte, w: byte)
    requires DecodeFour(x, y, z, w).Some?
    ensures var d := DecodeFour(x, y, z, w).value;
            |d| == 3 && EncodeThree(d[0], d[1], d[2]) == [x, y, z, w]
  {
    DigitIs(x);
    DigitIs(y);
    DigitIs(z);
    DigitIs(w);
    var p, q, r, s := Value(x).value, Value(y).value, Value(z).value, Value(w).value;
    FirstBack(p, q);
    SecondBack(p, q, r);
    ThirdBack(q, r, s);
    hide Digit, Value, First, Second, Third, Fourth, ByteOne, ByteTwo, ByteThree;
  }

  lemma {:induction false} DigitInjective(v: Sextet, w: Sextet)
    ensures Digit(v) == Digit(w) <==> v == w
  {
  }

  lemma {:induction false} ThreeBack(x: byte, y: byte, z: byte)
    requires DecodeThree(x, y, z).Some?
    ensures var d := DecodeThree(x, y, z).value;
            |d| == 2 && (EncodeTwo(d[0], d[1]) == [x, y, z] <==> Value(z).value % 4 == 0)
  {
    DigitIs(x);
    DigitIs(y);
    DigitIs(z);
    var p, q, r := Value(x).value, Value(y).value, Value(z).value;
    FirstBack(p, q);
    SecondBack(p, q, r);
    LastBits(p, q, r);
    DigitInjective(Third(ByteTwo(q, r), 0), r);
    hide Digit, Value, First, Second, Third, ByteOne, ByteTwo;
  }

  lemma {:induction false} TwoBack(x: byte, y: byte)
    requires DecodeTwo(x, y).Some?
    ensures var d := DecodeTwo(x, y).value;
            |d| == 1 && (EncodeOne(d[0]) == [x, y] <==> Value(y).value % 16 == 0)
  {
    DigitIs(x);
    DigitIs(y);
    var p, q := Value(x).value, Value(y).value;
    FirstBack(p, q);
    LastBits(p, q, 0);
    DigitInjective(Second(ByteOne(p, q), 0), q);
    hide Digit, Value, First, Second, ByteOne;
  }

  /** A text that decodes is what encoding gives back if and only if it is canonical; other texts decode to the same data. */
  lemma {:induction false} EncodeOfDecode(text: bytes)
    requires Decode(text).Some?
    ensures Encode(Decode(text).value) == text <==> Canonical(text)
  {
    hide Value, Digit, EncodeOne, EncodeTwo, EncodeThree, DecodeTwo, DecodeThree, DecodeFour;
    if |text| == 2 {
      TwoBack(text[0], text[1]);
      assert text == [text[0], text[1]];
      LastTwo(text[0], text[1]);
    } else if |text| == 3 {
      ThreeBack(text[0], text[1], text[2]);
      assert text == [text[0], text[1], text[2]];
      LastThree(text[0], text[1], text[2]);
    } else if |text| >= 4 {
      EncodeOfDecode(text[4..]);
      CanonicalTail(text);
      hide Canonical;
      FourMore(text);
    }
  }

  lemma {:induction false} LastTwo(x: byte, y: byte)
    requires DecodeTwo(x, y).Some?
    ensures Value(y).Some?
  {
  }

  lemma {:induction false} LastThree(x: byte, y: byte, z: byte)
    requires DecodeThree(x, y, z).Some?
    ensures Value(z).Some?
  {
  }

  lemma {:induction false} FourMore(text: bytes)
    requires |text| >= 4 && Decode(text).Some?
    ensures Decode(text[4..]).Some?
    ensures Encode(Decode(text).value) == text <==> Encode(Decode(text[4..]).value) == text[4..]
  {
    var front, rest := DecodeFour(text[0], text[1], text[2], text[3]).value, Decode(text[4..]).value;
    FourBack(text[0], text[1], text[2], text[3]);
    hide Value, Digit, EncodeThree, DecodeFour;
    assert (front + rest)[3..] == rest;
    assert text == [text[0], text[1], text[2], text[3]] + text[4..];
    SameFront([text[0], text[1], text[2], text[3]], Encode(rest), text[4..]);
  }

  lemma {:induction false} TwoDigits(x: byte, y: byte)
    ensures Decode([x, y]) == DecodeTwo(x, y)
  {
    hide DecodeTwo, DecodeThree, DecodeFour;
  }

  lemma {:induction false} LowDigits(x: byte, y: byte)
    requires x == 65 && 65 <= y <= 80
    ensures DecodeTwo(x, y) == Some([0])
  {
  }

  /** After the digit A, the digits A to P all stand for a zero byte. */
  lemma {:induction false} LooseBits(y: byte)
    requires 65 <= y <= 80
    ensures Decode([65, y]) == Some([0])
  {
    TwoDigits(65, y);
    LowDigits(65, y);
    hide Decode, DecodeTwo;
  }

  lemma {:induction false} CanonicalTail(text: bytes)
    requires |text| >= 4
    ensures Canonical(text) <==> Canonical(text[4..])
  {
    assert |text[4..]| % 4 == |text| % 4;
    if |text| > 4 {
      assert text[4..][|text| - 5] == text[|text| - 1];
    }
  }

  lemma {:induction false} SameFront(front: bytes, a: bytes, b: bytes)
    ensures front + a == front + b <==> a == b
  {
    assert (front + a)[|front|..] == a && (front + b)[|front|..] == b;
  }

  lemma {:induction false} Foo()
    ensures EncodeThree(102, 111, 111) == [90, 109, 57, 118]
  {
  }

  lemma {:induction false} Bar()
    ensures EncodeThree(98, 97, 114) == [89, 109, 70, 121]
  {
  }

  /** The examples of section 10, "f" to "foo" and "foobar", and two digits of the URL alphabet. */
  lemma {:induction false} Examples()
    ensures Encode(Lit("f")) == Lit("Zg") && Encode(Lit("fo")) == Lit("Zm8") && Encode(Lit("foo")) == Lit("Zm9v")
    ensures Encode(Lit("foobar")) == Lit("Zm9vYmFy") && Encode([0xfb, 0xff]) == Lit("-_8")
  {
    Foo();
    Bar();
    assert Lit("f") == [102] && Lit("fo") == [102, 111] && Lit("foo") == [102, 111, 111] && Lit("foobar") == [102, 111, 111, 98, 97, 114];
    assert Lit("Zg") == [90, 103] && Lit("Zm8") == [90, 109, 56] && Lit("Zm9v") == [90, 109, 57, 118];
    assert Lit("Zm9vYmFy") == [90, 109, 57, 118, 89, 109, 70, 121] && Lit("-_8") == [45, 95, 56];
    hide Lit;
    assert [102, 111, 111][3..] == [] && [102, 111, 111, 98, 97, 114][3..] == [98, 97, 114] && [98, 97, 114][3..] == [];
    assert Encode([]) == [];
    assert Encode([102, 111, 111]) == [90, 109, 57, 118] + [];
    assert Encode([98, 97, 114]) == [89, 109, 70, 121] + [];
  }
}
