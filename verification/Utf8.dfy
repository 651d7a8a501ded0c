/** Go's utf8.Valid: well-formed UTF-8, section 4 of RFC 3629. */
module Utf8 {
  import opened Bytes

  predicate Continuation(b: byte) {
    0x80 <= b <= 0xBF
  }

  /** Length of the well-formed character at the front of s, 0 if there is none. */
  function RuneLength(s: bytes): (n: nat)
    ensures n <= |s|
  {
    if s == [] then 0
    else if s[0] < 0x80 then 1
    else if |s| < 2 then 0
    else if 0xC2 <= s[0] <= 0xDF then (if Continuation(s[1]) then 2 else 0)
    else if |s| < 3 || !Continuation(s[2]) then 0
    else if s[0] == 0xE0 then (if 0xA0 <= s[1] <= 0xBF then 3 else 0)
    else if s[0] == 0xED then (if 0x80 <= s[1] <= 0x9F then 3 else 0)
    else if 0xE1 <= s[0] <= 0xEF then (if Continuation(s[1]) then 3 else 0)
    else if |s| < 4 || !Continuation(s[3]) then 0
    else if s[0] == 0xF0 then (if 0x90 <= s[1] <= 0xBF then 4 else 0)
    else if s[0] == 0xF4 then (if 0x80 <= s[1] <= 0x8F then 4 else 0)
    else if 0xF1 <= s[0] <= 0xF3 then (if Continuation(s[1]) then 4 else 0)
    else 0
  }

  predicate Valid(s: bytes)
    decreases |s|
  {
    s == [] || (RuneLength(s) > 0 && Valid(s[RuneLength(s)..]))
  }

  lemma {:induction false} AsciiIsValid(s: bytes)
    requires forall i :: 0 <= i < |s| ==> s[i] < 0x80
    ensures Valid(s)
  {
    if s != [] {
      AsciiIsValid(s[1..]);
    }
  }

  // ---------------------------------------------------------------- the characters it stands for

  /** A Unicode scalar value: no surrogate. */
  type Scalar = c: int | 0 <= c < 0xD800 || 0xE000 <= c < 0x11_0000

  /** The table of section 3. */
  function Encoded(c: Scalar): bytes {
    if c < 0x80 then [c]
    else if c < 0x800 then [0xC0 + c / 0x40, 0x80 + c % 0x40]
    else if c < 0x1_0000 then [0xE0 + c / 0x1000, 0x80 + c / 0x40 % 0x40, 0x80 + c % 0x40]
    else [0xF0 + c / 0x4_0000, 0x80 + c / 0x1000 % 0x40, 0x80 + c / 0x40 % 0x40, 0x80 + c % 0x40]
  }

  function Spelled(text: seq<Scalar>): bytes {
    if text == [] then [] else Encoded(text[0]) + Spelled(text[1..])
  }

  lemma {:induction false} Digits(high: int, low: int)
    requires 0 <= low < 0x40
    ensures (high * 0x40 + low) / 0x40 == high && (high * 0x40 + low) % 0x40 == low
  {
  }

  lemma {:induction false} Thousands(c: nat)
    ensures c / 0x40 / 0x40 == c / 0x1000 && c / 0x1000 / 0x40 == c / 0x4_0000
  {
  }

  /** The character at the front of a text. */
  lemma {:induction false} FrontRune(c: Scalar, rest: bytes)
    ensures RuneLength(Encoded(c) + rest) == |Encoded(c)|
  {
    var s := Encoded(c) + rest;
    Thousands(c);
  }

  lemma {:induction false} ThreeIs(s: bytes) returns (c: Scalar)
    requires RuneLength(s) == 3
    ensures Encoded(c) == s[..3]
  {
    var high := (s[0] as int - 0xE0) * 0x40 + (s[1] as int - 0x80);
    Digits(s[0] as int - 0xE0, s[1] as int - 0x80);
    Digits(high, s[2] as int - 0x80);
    c := high * 0x40 + (s[2] as int - 0x80);
    Thousands(c);
  }

  lemma {:induction false} FourIs(s: bytes) returns (c: Scalar)
    requires RuneLength(s) == 4
    ensures Encoded(c) == s[..4]
  {
    var top := (s[0] as int - 0xF0) * 0x40 + (s[1] as int - 0x80);
    var high := top * 0x40 + (s[2] as int - 0x80);
    Digits(s[0] as int - 0xF0, s[1] as int - 0x80);
    Digits(top, s[2] as int - 0x80);
    Digits(high, s[3] as int - 0x80);
    c := high * 0x40 + (s[3] as int - 0x80);
    Thousands(c);
  }

  /** And every well-formed front is one. */
  lemma {:induction false} RuneIs(s: bytes) returns (c: Scalar)
    requires RuneLength(s) > 0
    ensures Encoded(c) == s[..RuneLength(s)]
  {
    var n := RuneLength(s);
    if n == 1 {
      c := s[0];
    } else if n == 2 {
      c := (s[0] as int - 0xC0) * 0x40 + (s[1] as int - 0x80);
      Digits(s[0] as int - 0xC0, s[1] as int - 0x80);
    } else if n == 3 {
      c := ThreeIs(s);
    } else {
      c := FourIs(s);
    }
  }

  lemma {:induction false} SpelledIsValid(text: seq<Scalar>)
    ensures Valid(Spelled(text))
  {
    if text != [] {
      var rest := Spelled(text[1..]);
      SpelledIsValid(text[1..]);
      FrontRune(text[0], rest);
      assert (Encoded(text[0]) + rest)[|Encoded(text[0])|..] == rest;
    }
  }

  lemma {:induction false} ValidIsSpelled(s: bytes) returns (text: seq<Scalar>)
    requires Valid(s)
    ensures Spelled(text) == s
    decreases |s|
  {
    if s == [] {
      text := [];
    } else {
      var c := RuneIs(s);
      var rest := ValidIsSpelled(s[RuneLength(s)..]);
      text := [c] + rest;
      assert text[1..] == rest && s == s[..RuneLength(s)] + s[RuneLength(s)..];
    }
  }

  /** The valid texts are exactly the spellings of sequences of scalar values. */
  lemma {:induction false} ValidExact(s: bytes)
    ensures Valid(s) <==> exists text :: Spelled(text) == s
  {
    if Valid(s) {
      var text := ValidIsSpelled(s);
    }
    if text :| Spelled(text) == s {
      SpelledIsValid(text);
    }
  }
}
