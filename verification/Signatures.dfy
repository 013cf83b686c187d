/** Converting ECDSA signatures between Flow's fixed-width format and DER. */
module Signatures {
  import opened Prelude
  import opened Bytes

  /** The order of the secp256k1 group. */
  const CURVE_ORDER: nat := 0xFFFFFFFF_FFFFFFFF_FFFFFFFF_FFFFFFFE_BAAEDCE6_AF48A03B_BFD25E8C_D0364141

  /** Panic stands for an index out of range. */
  datatype Conversion = Converted(text: string) | Invalid | Panic

  // ---- Hex ----

  function HexChar(n: nat): char
    requires n < 16
  {
    if n < 10 then ('0' as int + n) as char else ('a' as int + n - 10) as char
  }

  function Nibble(c: char): Option<nat> {
    if '0' <= c <= '9' then Some(c as int - '0' as int)
    else if 'a' <= c <= 'f' then Some(c as int - 'a' as int + 10)
    else if 'A' <= c <= 'F' then Some(c as int - 'A' as int + 10)
    else None
  }

  function EncodeHex(s: ByteString): (t: string)
    ensures |t| == 2 * |s|
  {
    if s == [] then []
    else EncodeHex(s[..|s| - 1]) + [HexChar(s[|s| - 1] / 16), HexChar(s[|s| - 1] % 16)]
  }

  /** hex.DecodeString: both cases, no odd length. */
  function DecodeHex(t: string): (s: Option<ByteString>)
    ensures s.Some? ==> |t| == 2 * |s.value|
  {
    if t == [] then Some([])
    else if |t| == 1 then None
    else
      var before, hi, lo := DecodeHex(t[..|t| - 2]), Nibble(t[|t| - 2]), Nibble(t[|t| - 1]);
      if before.None? || hi.None? || lo.None? || hi.value >= 16 || lo.value >= 16 then None
      else Some(before.value + [hi.value * 16 + lo.value])
  }

  lemma {:induction false} HexRoundTrip(s: ByteString)
    ensures DecodeHex(EncodeHex(s)) == Some(s)
  {
    hide EncodeHex, DecodeHex, HexChar, Nibble;
    if s == [] {
      EmptyHex();
    } else {
      var before, b := s[..|s| - 1], s[|s| - 1];
      var hi, lo := HexChar(b / 16), HexChar(b % 16);
      assert s == before + [b];
      HexRoundTrip(before);
      EncodeLast(s);
      DecodeLast(EncodeHex(before), hi, lo);
      NibbleOf(b / 16);
      NibbleOf(b % 16);
    }
  }

  lemma {:induction false} EmptyHex()
    ensures DecodeHex(EncodeHex([])) == Some([])
  {
  }

  lemma {:induction false} NibbleOf(n: nat)
    requires n < 16
    ensures Nibble(HexChar(n)) == Some(n)
  {
  }

  lemma {:induction false} EncodeLast(s: ByteString)
    requires s != []
    ensures EncodeHex(s) == EncodeHex(s[..|s| - 1]) + [HexChar(s[|s| - 1] / 16), HexChar(s[|s| - 1] % 16)]
  {
  }

  lemma {:induction false} DecodeLast(t: string, hi: char, lo: char)
    ensures var before, h, l := DecodeHex(t), Nibble(hi), Nibble(lo);
            before.Some? && h.Some? && l.Some? && h.value < 16 && l.value < 16 ==>
              DecodeHex(t + [hi, lo]) == Some(before.value + [h.value * 16 + l.value])
  {
    assert (t + [hi, lo])[..|t|] == t;
  }

  // ---- Integers ----

  /** The loop that drops redundant leading zero bytes but keeps the sign bit clear. */
  function StripSign(r: ByteString): ByteString {
    if |r| > 1 && r[0] == 0 && r[1] < 128 then StripSign(r[1..]) else r
  }

  /** The loop that drops all leading zero bytes. */
  function StripZeros(r: ByteString): ByteString {
    if |r| > 0 && r[0] == 0 then StripZeros(r[1..]) else r
  }

  /** Section 8.3.2 of ITU-T X.690: the shortest two's complement encoding; and
      the sign bit is clear, so the integer is v itself. */
  predicate IsDerInteger(m: ByteString, v: nat) {
    && m != [] && FromBigEndian(m) == v
    && m[0] < 128
    && (|m| > 1 ==> !(m[0] == 0 && m[1] < 128))
  }

  lemma {:induction false} ZeroPrefix(r: ByteString)
    requires r != [] && r[0] == 0
    ensures FromBigEndian(r) == FromBigEndian(r[1..])
  {
    if |r| == 1 {
      assert r[..0] == [] && r[1..] == [];
    } else {
      var shorter := r[..|r| - 1];
      ZeroPrefix(shorter);
      assert r[1..][..|r| - 2] == shorter[1..];
    }
  }

  lemma {:induction false} StripSignIsMinimal(r: ByteString)
    requires r != [] && r[0] < 128
    ensures IsDerInteger(StripSign(r), FromBigEndian(r))
    ensures |StripSign(r)| <= |r|
  {
    if |r| > 1 && r[0] == 0 && r[1] < 128 {
      ZeroPrefix(r);
      StripSignIsMinimal(r[1..]);
    }
  }

  lemma {:induction false} StripZerosKeepsValue(r: ByteString)
    ensures FromBigEndian(StripZeros(r)) == FromBigEndian(r)
    ensures StripZeros(r) == [] || StripZeros(r)[0] > 0
    ensures |StripZeros(r)| <= |r|
  {
    if |r| > 0 && r[0] == 0 {
      ZeroPrefix(r);
      StripZerosKeepsValue(r[1..]);
    }
  }

  /** The leading byte fixes the magnitude. */
  lemma {:induction false} LeadingByte(r: ByteString)
    requires r != []
    ensures r[0] * Pow256(|r| - 1) <= FromBigEndian(r) < (r[0] + 1) * Pow256(|r| - 1)
  {
    if |r| == 1 {
      assert r[..0] == [];
    } else {
      var shorter := r[..|r| - 1];
      LeadingByte(shorter);
      var p := Pow256(|r| - 2);
      assert Pow256(|r| - 1) == 256 * p;
      Scale(r[0], p, FromBigEndian(shorter), r[|r| - 1]);
    }
  }

  lemma {:induction false} Scale(d: nat, p: nat, v: nat, x: nat)
    requires d * p <= v < (d + 1) * p && x < 256
    ensures d * (256 * p) <= v * 256 + x < (d + 1) * (256 * p)
  {
    assert d * (256 * p) == 256 * (d * p);
    assert (d + 1) * (256 * p) == 256 * ((d + 1) * p);
  }

  lemma {:induction false} Pow256Monotone(m: nat, n: nat)
    requires m <= n
    ensures Pow256(m) <= Pow256(n)
  {
    if m < n {
      Pow256Monotone(m, n - 1);
    }
  }

  lemma {:induction false} ScaleMonotone(d: nat, e: nat, p: nat)
    requires d <= e
    ensures d * p <= e * p
  {
    assert e * p == d * p + (e - d) * p;
  }

  /** Bytes of a value below 256^width, without leading zeros, fit the width. */
  lemma {:induction false} StrippedFits(r: ByteString, width: nat)
    requires FromBigEndian(r) < Pow256(width)
    ensures |StripZeros(r)| <= width
  {
    StripZerosKeepsValue(r);
    var m := StripZeros(r);
    if |m| > width {
      LeadingByte(m);
      Pow256Monotone(width, |m| - 1);
      ScaleMonotone(1, m[0], Pow256(|m| - 1));
    }
  }

  lemma {:induction false} MinimalSize(m: ByteString, v: nat)
    requires IsDerInteger(m, v)
    ensures v < 128 * Pow256(|m| - 1)
    ensures |m| > 1 ==> v >= 128 * Pow256(|m| - 2)
  {
    LeadingByte(m);
    ScaleMonotone(m[0] + 1, 128, Pow256(|m| - 1));
    if |m| > 1 {
      var q := Pow256(|m| - 2);
      if m[0] == 0 {
        ZeroPrefix(m);
        var rest := m[1..];
        LeadingByte(rest);
        ScaleMonotone(128, rest[0], q);
      } else {
        ScaleMonotone(1, m[0], 256 * q);
      }
    }
  }

  /** A value has one minimal encoding. */
  lemma {:induction false} DerIntegerIsUnique(m: ByteString, m': ByteString, v: nat)
    requires IsDerInteger(m, v) && IsDerInteger(m', v)
    ensures m == m'
  {
    if |m| == |m'| {
      EncodeDecode(m);
      EncodeDecode(m');
    } else {
      var (short, long) := if |m| < |m'| then (m, m') else (m', m);
      MinimalSize(short, v);
      MinimalSize(long, v);
      Pow256Monotone(|short| - 1, |long| - 2);
    }
  }

  // ---- The converters ----

  /** 0x30 <length> 0x02 <length of r> <r> 0x02 <length of s> <s>. */
  function Der(r: ByteString, s: ByteString): ByteString
    requires |r| <= 33 && |s| <= 33
  {
    [0x30, 4 + |r| + |s|, 0x02, |r|] + r + [0x02, |s|] + s
  }

  /** What ConvertFlowSignature computes. */
  function FlowToDer(sig: string): Conversion {
    if |sig| != 128 then Invalid
    else
      var raw := DecodeHex(sig);
      if raw.None? then Invalid
      else
        var r, s := StripSign([0] + raw.value[..32]), StripSign([0] + raw.value[32..]);
        if |r| > 33 || |s| > 33 then Panic else Converted(EncodeHex(Der(r, s)))
  }

  function Fixed(r: nat, s: nat): ByteString {
    BigEndian(r, 32) + BigEndian(s, 32)
  }

  /** One INTEGER of the DER parser, at `offset`: its scalar and the offset after it. */
  datatype Parsed = Scalar(value: nat, next: nat) | BadScalar | OutOfRange

  /** Tag, length, the two sign checks (which read the hex text `sig`, not the
      bytes), body, zero stripping, range. */
  function ParseInteger(raw: ByteString, sig: string, offset: nat): Parsed
    requires |sig| == 2 * |raw|
  {
    if offset >= |raw| then OutOfRange
    else if raw[offset] != 0x02 then BadScalar
    else if offset + 1 >= |raw| then OutOfRange
    else
      var len, body := raw[offset + 1], offset + 2;
      if len == 0 || len > 33 then BadScalar
      else if body + 1 >= |sig| then OutOfRange
      else if sig[body] as int >= 128 then BadScalar
      else if len > 1 && sig[body] as int == 0 && (sig[body + 1] as int) < 128 then BadScalar
      else if body + len > |raw| then BadScalar
      else
        var stripped := StripZeros(raw[body..body + len]);
        if |stripped| > 32 then BadScalar
        else
          var v := FromBigEndian(stripped);
          if v >= CURVE_ORDER || v == 0 then BadScalar else Scalar(v, body + len)
  }

  /** What ConvertDERSignature computes. */
  function DerToFlow(sig: string): Conversion {
    if |sig| < 16 || |sig| > 144 then Invalid
    else
      var raw := DecodeHex(sig);
      if raw.None? then Invalid
      else
        var b := raw.value;
        if b[0] != 0x30 || b[1] != |b| - 2 then Invalid
        else
          match ParseInteger(b, sig, 2)
          case BadScalar => Invalid
          case OutOfRange => Panic
          case Scalar(r, next) =>
            match ParseInteger(b, sig, next)
            case BadScalar => Invalid
            case OutOfRange => Panic
            case Scalar(s, _) => Converted(EncodeHex(Fixed(r, s)))
  }

  // ---- Round trips ----

  lemma {:induction false} FixedHalves(r: nat, s: nat)
    ensures |Fixed(r, s)| == 64 && Fixed(r, s)[..32] == BigEndian(r, 32) && Fixed(r, s)[32..] == BigEndian(s, 32)
  {
  }

  lemma {:induction false} OrderFits()
    ensures CURVE_ORDER < Pow256(32)
  {
    hide Pow256;
    Pow256Of8();
    Pow256Sum(8, 8);
    Pow256Sum(16, 16);
  }

  lemma {:induction false} Regroup(x: nat, y: nat)
    ensures x * (256 * y) == 256 * (x * y)
  {
  }

  lemma {:induction false} Pow256Sum(m: nat, n: nat)
    ensures Pow256(m + n) == Pow256(m) * Pow256(n)
  {
    if n > 0 {
      Pow256Sum(m, n - 1);
      assert Pow256(m + n) == 256 * Pow256(m + n - 1) && Pow256(n) == 256 * Pow256(n - 1);
      hide Pow256;
      Regroup(Pow256(m), Pow256(n - 1));
    }
  }

  /** A zero byte before a fixed-width integer strips to its minimal encoding. */
  lemma {:induction false} FixedStrips(v: nat)
    requires v < Pow256(32)
    ensures var m := StripSign([0] + BigEndian(v, 32)); IsDerInteger(m, v) && |m| <= 33
  {
    var padded := [0] + BigEndian(v, 32);
    StripSignIsMinimal(padded);
    ZeroPrefix(padded);
    assert padded[1..] == BigEndian(v, 32);
    DecodeEncode(v, 32);
  }

  /** Flow to DER accepts every 128-digit hex text, in either case and whatever
      its halves are, and yields the one canonical structure that holds them as
      minimal non-negative integers. */
  lemma {:induction false} FlowToDerIsCanonical(sig: string, raw: ByteString, m: ByteString, n: ByteString)
    requires |sig| == 128 && DecodeHex(sig) == Some(raw)
    requires IsDerInteger(m, FromBigEndian(raw[..32])) && IsDerInteger(n, FromBigEndian(raw[32..]))
    ensures |m| <= 33 && |n| <= 33
    ensures FlowToDer(sig) == Converted(EncodeHex(Der(m, n)))
  {
    HalfStrips(raw[..32], m);
    HalfStrips(raw[32..], n);
  }

  lemma {:induction false} HalfStrips(half: ByteString, m: ByteString)
    requires |half| == 32 && IsDerInteger(m, FromBigEndian(half))
    ensures StripSign([0] + half) == m && |m| <= 33
  {
    EncodeDecode(half);
    FixedStrips(FromBigEndian(half));
    DerIntegerIsUnique(m, StripSign([0] + half), FromBigEndian(half));
  }

  lemma {:induction false} HalfFits(half: ByteString)
    requires |half| == 32
    ensures |StripSign([0] + half)| <= 33
  {
    StripSignIsMinimal([0] + half);
  }

  /** The two bad inputs are the only errors, and no input panics. */
  lemma {:induction false} FlowToDerTotal(sig: string)
    ensures FlowToDer(sig).Converted? <==> |sig| == 128 && DecodeHex(sig).Some?
    ensures !FlowToDer(sig).Panic?
  {
    if |sig| == 128 && DecodeHex(sig).Some? {
      var raw := DecodeHex(sig).value;
      HalfFits(raw[..32]);
      HalfFits(raw[32..]);
    }
  }

  lemma {:induction false} FixedReads(r: nat, s: nat)
    requires r < Pow256(32) && s < Pow256(32)
    ensures DecodeHex(EncodeHex(Fixed(r, s))) == Some(Fixed(r, s))
    ensures FromBigEndian(Fixed(r, s)[..32]) == r && FromBigEndian(Fixed(r, s)[32..]) == s
  {
    FixedHalves(r, s);
    HexRoundTrip(Fixed(r, s));
    DecodeEncode(r, 32);
    DecodeEncode(s, 32);
  }

  lemma {:induction false} HexIsAscii(s: ByteString, i: nat)
    requires i < 2 * |s|
    ensures 0 < EncodeHex(s)[i] as int < 128
  {
    if i < 2 * (|s| - 1) {
      HexIsAscii(s[..|s| - 1], i);
    }
  }

  /** A canonical integer inside a hex-encoded DER string parses to its value. */
  lemma {:induction false} ParsesCanonical(raw: ByteString, offset: nat, m: ByteString, v: nat)
    requires IsDerInteger(m, v) && |m| <= 33 && 0 < v < CURVE_ORDER
    requires offset + 2 + |m| <= |raw| && 2 * offset + 5 < 2 * |raw|
    requires raw[offset] == 0x02 && raw[offset + 1] == |m| && raw[offset + 2..offset + 2 + |m|] == m
    ensures ParseInteger(raw, EncodeHex(raw), offset) == Scalar(v, offset + 2 + |m|)
  {
    hide EncodeHex, DecodeHex, Pow256, FromBigEndian, StripZeros;
    HexIsAscii(raw, offset + 2);
    HexIsAscii(raw, offset + 3);
    OrderFits();
    StripZerosKeepsValue(m);
    StrippedFits(m, 32);
  }

  lemma {:induction false} DerParts(m: ByteString, n: ByteString)
    requires 0 < |m| <= 33 && 0 < |n| <= 33
    ensures var raw, next := Der(m, n), 4 + |m|;
            && |raw| == 6 + |m| + |n| && raw[0] == 0x30 && raw[1] == |raw| - 2
            && raw[2] == 0x02 && raw[3] == |m| && raw[4..4 + |m|] == m
            && raw[next] == 0x02 && raw[next + 1] == |n| && raw[next + 2..next + 2 + |n|] == n
  {
  }

  /** DER to Flow of the canonical encoding gives back the two scalars. */
  lemma {:induction false} DerToFlowReads(r: nat, s: nat, m: ByteString, n: ByteString)
    requires 0 < r < CURVE_ORDER && 0 < s < CURVE_ORDER
    requires IsDerInteger(m, r) && IsDerInteger(n, s) && |m| <= 33 && |n| <= 33
    ensures DerToFlow(EncodeHex(Der(m, n))) == Converted(EncodeHex(Fixed(r, s)))
  {
    hide EncodeHex, DecodeHex, ParseInteger, Fixed, FromBigEndian, Der;
    var raw := Der(m, n);
    HexRoundTrip(raw);
    DerParts(m, n);
    ParsesCanonical(raw, 2, m, r);
    ParsesCanonical(raw, 4 + |m|, n, s);
  }

  /** Flow to DER to Flow is the identity on every pair of scalars. */
  lemma {:induction false} FlowRoundTrip(r: nat, s: nat)
    requires 0 < r < CURVE_ORDER && 0 < s < CURVE_ORDER
    ensures var sig := EncodeHex(Fixed(r, s));
            FlowToDer(sig).Converted? && DerToFlow(FlowToDer(sig).text) == Converted(sig)
  {
    OrderFits();
    FixedStrips(r);
    FixedStrips(s);
    var m, n := StripSign([0] + BigEndian(r, 32)), StripSign([0] + BigEndian(s, 32));
    FixedReads(r, s);
    FlowToDerIsCanonical(EncodeHex(Fixed(r, s)), Fixed(r, s), m, n);
    DerToFlowReads(r, s, m, n);
  }

  /** DER to Flow to DER is the identity on every canonical DER signature. */
  lemma {:induction false} DerRoundTrip(r: nat, s: nat, m: ByteString, n: ByteString)
    requires 0 < r < CURVE_ORDER && 0 < s < CURVE_ORDER
    requires IsDerInteger(m, r) && IsDerInteger(n, s) && |m| <= 33 && |n| <= 33
    ensures var sig := EncodeHex(Der(m, n));
            DerToFlow(sig).Converted? && FlowToDer(DerToFlow(sig).text) == Converted(sig)
  {
    OrderFits();
    DerToFlowReads(r, s, m, n);
    FixedReads(r, s);
    FlowToDerIsCanonical(EncodeHex(Fixed(r, s)), Fixed(r, s), m, n);
  }

  // ---- The loops of the source ----

  /** The loop that the source writes once for r and once for s. */
  method Strip(padded: ByteString) returns (r: ByteString)
    ensures r == StripSign(padded) && |r| <= |padded|
  {
    r := padded;
    while |r| > 1 && r[0] == 0 && r[1] < 128
      invariant |r| <= |padded| && StripSign(r) == StripSign(padded)
    {
      r := r[1..];
    }
  }

  method ConvertFlowSignature(sig: string) returns (c: Conversion)
    ensures c == FlowToDer(sig)
  {
    hide StripSign, DecodeHex, EncodeHex;
    if |sig| != 128 {
      return Invalid;
    }
    var decoded := DecodeHex(sig);
    if decoded.None? {
      return Invalid;
    }
    var raw := decoded.value;
    var r := Strip([0] + raw[..32]);
    var s := Strip([0] + raw[32..]);
    var size := 6 + |r| + |s|;
    var b := [0x30];
    b := b + [size - 2];
    b := b + [0x02];
    b := b + [|r|];
    b := b + r;
    b := b + [0x02];
    b := b + [|s|];
    b := b + s;
    assert b == Der(r, s);
    c := Converted(EncodeHex(b));
  }

  /** The block that the source writes once for r and once for s. */
  method ReadInteger(raw: ByteString, sig: string, start: nat) returns (p: Parsed)
    requires |sig| == 2 * |raw|
    ensures p == ParseInteger(raw, sig, start)
  {
    var offset := start;
    if offset >= |raw| {
      return OutOfRange;
    }
    if raw[offset] != 0x02 {
      return BadScalar;
    }
    offset := offset + 1;
    if offset >= |raw| {
      return OutOfRange;
    }
    var len := raw[offset];
    if len == 0 || len > 33 {
      return BadScalar;
    }
    offset := offset + 1;
    if offset + 1 >= |sig| {
      return OutOfRange;
    }
    if sig[offset] as int >= 128 {
      return BadScalar;
    }
    if len > 1 && sig[offset] as int == 0 && (sig[offset + 1] as int) < 128 {
      return BadScalar;
    }
    if offset + len > |raw| {
      return BadScalar;
    }
    var scalar := raw[offset..offset + len];
    while |scalar| > 0 && scalar[0] == 0
      invariant StripZeros(scalar) == StripZeros(raw[offset..offset + len])
    {
      scalar := scalar[1..];
    }
    if |scalar| > 32 {
      return BadScalar;
    }
    var v := FromBigEndian(scalar);
    if v >= CURVE_ORDER || v == 0 {
      return BadScalar;
    }
    p := Scalar(v, offset + len);
  }

  method ConvertDerSignature(sig: string) returns (c: Conversion)
    ensures c == DerToFlow(sig)
  {
    if |sig| < 16 || |sig| > 144 {
      return Invalid;
    }
    var decoded := DecodeHex(sig);
    if decoded.None? {
      return Invalid;
    }
    var raw := decoded.value;
    if raw[0] != 0x30 || raw[1] != |raw| - 2 {
      return Invalid;
    }
    var r := ReadInteger(raw, sig, 2);
    if r.BadScalar? {
      return Invalid;
    }
    if r.OutOfRange? {
      return Panic;
    }
    var s := ReadInteger(raw, sig, r.next);
    if s.BadScalar? {
      return Invalid;
    }
    if s.OutOfRange? {
      return Panic;
    }
    c := Converted(EncodeHex(Fixed(r.value, s.value)));
  }
}
