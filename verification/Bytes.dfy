/** Octets, byte strings and the order that Go's bytes.Compare and strings.Compare share. */
module Bytes {
  type byte = x: int | 0 <= x < 0x100
  type bytes = seq<byte>

  type uint64 = x: int | 0 <= x < 0x1_0000_0000_0000_0000

  datatype Option<+T> = None | Some(value: T)

  /** Lexicographic order; a proper prefix comes first. */
  predicate Less(a: bytes, b: bytes) {
    b != [] && (a == [] || a[0] < b[0] || (a[0] == b[0] && Less(a[1..], b[1..])))
  }

  lemma {:induction false} LessIrreflexive(a: bytes)
    ensures !Less(a, a)
  {
    if a != [] {
      LessIrreflexive(a[1..]);
    }
  }

  lemma {:induction false} LessTransitive(a: bytes, b: bytes, c: bytes)
    requires Less(a, b) && Less(b, c)
    ensures Less(a, c)
  {
    if a != [] && a[0] == b[0] == c[0] {
      LessTransitive(a[1..], b[1..], c[1..]);
    }
  }

  lemma {:induction false} LessTotal(a: bytes, b: bytes)
    ensures a == b || Less(a, b) || Less(b, a)
  {
    if a != [] && b != [] && a[0] == b[0] {
      LessTotal(a[1..], b[1..]);
      assert a == [a[0]] + a[1..] && b == [b[0]] + b[1..];
    }
  }

  /** The first place at which both go on, and differ. */
  predicate DifferAt(a: bytes, b: bytes, i: nat) {
    i < |a| && i < |b| && a[..i] == b[..i] && a[i] != b[i]
  }

  /** a is a proper prefix of b, or smaller at the first difference. */
  ghost predicate Precedes(a: bytes, b: bytes) {
    a < b || exists i: nat :: DifferAt(a, b, i) && a[i] < b[i]
  }

  /** Which way the order runs. */
  lemma {:induction false} LessExact(a: bytes, b: bytes)
    ensures Less(a, b) <==> Precedes(a, b)
  {
    if a != [] && b != [] {
      if a[0] == b[0] {
        LessExact(a[1..], b[1..]);
        PrecedesTail(a, b);
      } else {
        assert DifferAt(a, b, 0);
        if i: nat :| DifferAt(a, b, i) && a[i] < b[i] {
          SameStart(a, b, i);
        }
      }
    }
  }

  lemma {:induction false} SameStart(a: bytes, b: bytes, i: nat)
    requires DifferAt(a, b, i)
    ensures i > 0 ==> a[0] == b[0]
  {
    if i > 0 {
      assert a[..i][0] == a[0] && b[..i][0] == b[0];
    }
  }

  lemma {:induction false} PrecedesTail(a: bytes, b: bytes)
    requires a != [] && b != [] && a[0] == b[0]
    ensures Precedes(a, b) <==> Precedes(a[1..], b[1..])
  {
    assert a == [a[0]] + a[1..] && b == [b[0]] + b[1..];
    assert a < b <==> a[1..] < b[1..] by {
      if a[1..] < b[1..] {
        assert b[..|a|] == [b[0]] + b[1..][..|a| - 1];
      }
    }
    if i: nat :| DifferAt(a, b, i) && a[i] < b[i] {
      assert a[1..][..i - 1] == a[..i][1..] && b[1..][..i - 1] == b[..i][1..];
      assert DifferAt(a[1..], b[1..], i - 1);
    }
    if i: nat :| DifferAt(a[1..], b[1..], i) && a[1..][i] < b[1..][i] {
      assert a[..i + 1] == [a[0]] + a[1..][..i] && b[..i + 1] == [b[0]] + b[1..][..i];
      assert DifferAt(a, b, i + 1);
    }
  }

  /** The bytes of a Go string constant, which is ASCII throughout this repository. */
  function Lit(s: string): (b: bytes)
    requires forall i :: 0 <= i < |s| ==> s[i] < 128 as char
    ensures |b| == |s|
    ensures forall i :: 0 <= i < |s| ==> b[i] == s[i] as int
    ensures forall i :: 0 <= i < |b| ==> b[i] < 128
  {
    seq(|s|, i requires 0 <= i < |s| => s[i] as int)
  }
}
