/** Big-endian integers and the lexicographic order of byte strings. */
module Bytes {
  import opened Prelude

  type ByteString = seq<byte>

  function Pow256(width: nat): (p: nat)
    ensures p >= 1
  {
    if width == 0 then 1 else 256 * Pow256(width - 1)
  }

  /** The `width` low-order bytes of n, most significant first. */
  function BigEndian(n: nat, width: nat): (s: ByteString)
    ensures |s| == width
  {
    if width == 0 then [] else BigEndian(n / 256, width - 1) + [n % 256]
  }

  function FromBigEndian(s: ByteString): (n: nat)
    ensures n < Pow256(|s|)
  {
    if s == [] then 0 else FromBigEndian(s[..|s| - 1]) * 256 + s[|s| - 1]
  }

  lemma {:induction false} DecodeEncode(n: nat, width: nat)
    requires n < Pow256(width)
    ensures FromBigEndian(BigEndian(n, width)) == n
  {
    if width == 0 {
    } else {
      DecodeEncode(n / 256, width - 1);
      var s := BigEndian(n, width);
      assert s[..|s| - 1] == BigEndian(n / 256, width - 1);
    }
  }

  lemma {:induction false} EncodeDecode(s: ByteString)
    ensures BigEndian(FromBigEndian(s), |s|) == s
  {
    if s != [] {
      hide BigEndian, FromBigEndian;
      var before, b := s[..|s| - 1], s[|s| - 1];
      EncodeDecode(before);
      DecodeLast(s);
      EncodeLast(FromBigEndian(before), b, |s|);
      assert s == before + [b];
    }
  }

  lemma {:induction false} DecodeLast(s: ByteString)
    requires s != []
    ensures FromBigEndian(s) == FromBigEndian(s[..|s| - 1]) * 256 + s[|s| - 1]
  {
  }

  lemma {:induction false} EncodeLast(n: nat, b: byte, width: nat)
    requires width > 0
    ensures BigEndian(n * 256 + b, width) == BigEndian(n, width - 1) + [b]
  {
    assert (n * 256 + b) / 256 == n && (n * 256 + b) % 256 == b;
  }

  lemma {:induction false} Pow256Of8()
    ensures Pow256(8) == TWO_64
  {
    assert Pow256(4) == 0x1_0000_0000;
    assert Pow256(5) == 0x100_0000_0000;
    assert Pow256(6) == 0x1_0000_0000_0000;
    assert Pow256(7) == 0x100_0000_0000_0000;
  }

  /** binary.BigEndian.PutUint64 into an 8-byte slice. */
  function Encode64(n: uint64): (s: ByteString)
    ensures |s| == 8
  {
    BigEndian(n, 8)
  }

  /** binary.BigEndian.Uint64 of an 8-byte slice. */
  function Decode64(s: ByteString): (n: uint64)
    requires |s| == 8
  {
    Pow256Of8();
    FromBigEndian(s)
  }

  lemma {:induction false} Decode64Encode64(n: uint64)
    ensures Decode64(Encode64(n)) == n
  {
    Pow256Of8();
    DecodeEncode(n, 8);
  }

  lemma {:induction false} Encode64Decode64(s: ByteString)
    requires |s| == 8
    ensures Encode64(Decode64(s)) == s
  {
    EncodeDecode(s);
  }

  // ---- Lexicographic order, as bytes.Compare and Badger use it ----

  predicate Less(a: ByteString, b: ByteString) {
    b != [] && (a == [] || a[0] < b[0] || (a[0] == b[0] && Less(a[1..], b[1..])))
  }

  predicate AtMost(a: ByteString, b: ByteString) {
    a == b || Less(a, b)
  }

  predicate HasPrefix(s: ByteString, prefix: ByteString) {
    prefix <= s
  }

  lemma {:induction false} LessIrreflexive(a: ByteString)
    ensures !Less(a, a)
  {
    if a != [] {
      LessIrreflexive(a[1..]);
    }
  }

  lemma {:induction false} LessTransitive(a: ByteString, b: ByteString, c: ByteString)
    requires Less(a, b) && Less(b, c)
    ensures Less(a, c)
  {
    if a != [] && a[0] == b[0] && b[0] == c[0] {
      LessTransitive(a[1..], b[1..], c[1..]);
    }
  }

  lemma {:induction false} LessTotal(a: ByteString, b: ByteString)
    ensures Less(a, b) || a == b || Less(b, a)
  {
    if a != [] && b != [] && a[0] == b[0] {
      LessTotal(a[1..], b[1..]);
      assert a == [a[0]] + a[1..] && b == [b[0]] + b[1..];
    }
  }

  lemma {:induction false} AtMostTransitive(a: ByteString, b: ByteString, c: ByteString)
    requires AtMost(a, b) && AtMost(b, c)
    ensures AtMost(a, c)
  {
    if a != b && b != c {
      LessTransitive(a, b, c);
    }
  }

  lemma {:induction false} AtMostAntisymmetric(a: ByteString, b: ByteString)
    requires AtMost(a, b) && AtMost(b, a)
    ensures a == b
  {
    if a != b {
      LessTransitive(a, b, a);
      LessIrreflexive(a);
    }
  }

  lemma {:induction false} LessUnderPrefix(p: ByteString, a: ByteString, b: ByteString)
    ensures Less(p + a, p + b) <==> Less(a, b)
  {
    if p == [] {
      assert p + a == a && p + b == b;
    } else {
      LessUnderPrefix(p[1..], a, b);
      assert (p + a)[1..] == p[1..] + a && (p + b)[1..] == p[1..] + b;
    }
  }

  /** Strings between two strings that share a prefix share it too. */
  lemma {:induction false} PrefixIsConvex(p: ByteString, a: ByteString, m: ByteString, b: ByteString)
    requires HasPrefix(a, p) && HasPrefix(b, p) && AtMost(a, m) && AtMost(m, b)
    ensures HasPrefix(m, p)
  {
    if p != [] && a != m && m != b {
      assert a[0] == p[0] == b[0] == m[0];
      assert HasPrefix(a[1..], p[1..]) && HasPrefix(b[1..], p[1..]);
      PrefixIsConvex(p[1..], a[1..], m[1..], b[1..]);
      assert m == [m[0]] + m[1..] && p == [p[0]] + p[1..];
    }
  }

  lemma {:induction false} LessOnLastByte(a: ByteString, x: byte, b: ByteString, y: byte)
    requires |a| == |b|
    ensures Less(a + [x], b + [y]) <==> Less(a, b) || (a == b && x < y)
  {
    if a == [] {
    } else {
      LessOnLastByte(a[1..], x, b[1..], y);
      assert (a + [x])[1..] == a[1..] + [x] && (b + [y])[1..] == b[1..] + [y];
      assert a == b <==> a[0] == b[0] && a[1..] == b[1..];
      if a[0] == b[0] && a[1..] == b[1..] {
        LessIrreflexive(a[1..]);
      }
    }
  }

  /** On strings of one length the lexicographic order is the numeric order. */
  lemma {:induction false} LessIsNumeric(a: ByteString, b: ByteString)
    requires |a| == |b|
    ensures Less(a, b) <==> FromBigEndian(a) < FromBigEndian(b)
    decreases |a|
  {
    if a == [] {
    } else {
      var a', b' := a[..|a| - 1], b[..|b| - 1];
      var x, y := a[|a| - 1], b[|b| - 1];
      LessIsNumeric(a', b');
      LessIsNumeric(b', a');
      LessTotal(a', b');
      assert a == a' + [x] && b == b' + [y];
      LessOnLastByte(a', x, b', y);
    }
  }

  lemma {:induction false} Less64IsNumeric(m: uint64, n: uint64)
    ensures Less(Encode64(m), Encode64(n)) <==> m < n
    ensures AtMost(Encode64(m), Encode64(n)) <==> m <= n
    ensures Encode64(m) == Encode64(n) <==> m == n
  {
    Decode64Encode64(m);
    Decode64Encode64(n);
    LessIsNumeric(Encode64(m), Encode64(n));
  }
}
