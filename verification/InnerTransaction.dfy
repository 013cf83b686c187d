/** The offline half of a proxy transfer: the 33-byte inner transaction, the
    bytes its owner signs, and the signed form that is handed back. */
module InnerTransaction {
  import opened Prelude
  import opened Bytes
  import opened Model
  import Signatures

  const TXN_TYPE_FLOW: byte := 1
  const TXN_TYPE_INNER: byte := 2

  const DOMAIN: string := "FLOW-V0.0-user"

  /** The tag the server hashes: written out with its padding. */
  const USER_TAG: ByteString :=
    [70, 76, 79, 87, 45, 86, 48, 46, 48, 45, 117, 115, 101, 114,
     0, 0, 0, 0, 0, 0, 0, 0, 0, 0, 0, 0, 0, 0, 0, 0, 0, 0]

  // ---- What the contract verifies ----

  predicate IsAscii(s: string) {
    forall i :: 0 <= i < |s| ==> s[i] as int < 128
  }

  /** A domain separation tag, padded with null bytes to 32 bytes. */
  function PaddedTag(tag: string): ByteString
    requires IsAscii(tag) && |tag| <= 32
  {
    seq(32, i requires 0 <= i => if i < |tag| && (tag[i] as int) < 128 then tag[i] as int else 0)
  }

  /** The message of Vault.transfer; an Int64 is written in two's complement. */
  function ContractMessage(receiver: Address, amount: uint64, nonce: int64): (m: ByteString)
    ensures |m| == 24
  {
    receiver + Encode64(amount) + Encode64(ToUint64(nonce))
  }

  function VerifiedBytes(receiver: Address, amount: uint64, nonce: int64): ByteString {
    PaddedTag(DOMAIN) + ContractMessage(receiver, amount, nonce)
  }

  lemma {:induction false} TagsAgree()
    ensures USER_TAG == PaddedTag(DOMAIN)
  {
    var padded := PaddedTag(DOMAIN);
    assert |padded| == 32 && |USER_TAG| == 32 && |DOMAIN| == 14;
    assert padded[..14] == USER_TAG[..14];
    assert padded[14..] == USER_TAG[14..];
    assert padded == padded[..14] + padded[14..] && USER_TAG == USER_TAG[..14] + USER_TAG[14..];
  }

  /** What a signer signs: the tag, then receiver, amount and nonce, eight bytes each. */
  lemma {:induction false} VerifiedLayout(receiver: Address, amount: uint64, nonce: int64)
    ensures var m := VerifiedBytes(receiver, amount, nonce);
            && |m| == 56 && m[..32] == USER_TAG && m[32..40] == receiver
            && Decode64(m[40..48]) == amount && ToInt64(Decode64(m[48..])) == nonce
  {
    TagsAgree();
    var m, x, y := VerifiedBytes(receiver, amount, nonce), Encode64(amount), Encode64(ToUint64(nonce));
    hide PaddedTag, Encode64;
    assert m == USER_TAG + (receiver + x + y);
    assert m[32..40] == receiver && m[40..48] == x && m[48..] == y;
    Decode64Encode64(amount);
    Decode64Encode64(ToUint64(nonce));
    ReinterpretRoundTrip(nonce);
  }

  /** A signature covers one receiver, one amount and one nonce. */
  lemma {:induction false} VerifiedBytesAreInjective(
      r: Address, v: uint64, n: int64, r': Address, v': uint64, n': int64)
    requires VerifiedBytes(r, v, n) == VerifiedBytes(r', v', n')
    ensures r == r' && v == v' && n == n'
  {
    var m, m' := ContractMessage(r, v, n), ContractMessage(r', v', n');
    assert m == VerifiedBytes(r, v, n)[32..] && m' == VerifiedBytes(r', v', n')[32..];
    assert r == m[..8] && r' == m'[..8];
    assert Encode64(v) == m[8..16] && Encode64(v') == m'[8..16];
    assert Encode64(ToUint64(n)) == m[16..] && Encode64(ToUint64(n')) == m'[16..];
    Decode64Encode64(v);
    Decode64Encode64(v');
    Decode64Encode64(ToUint64(n));
    Decode64Encode64(ToUint64(n'));
    ReinterpretRoundTrip(n);
    ReinterpretRoundTrip(n');
  }

  // ---- Payloads ----

  function Encoded(sender: Address, receiver: Address, amount: uint64, nonce: uint64): (enc: ByteString)
    ensures |enc| == 33
  {
    [TXN_TYPE_INNER] + Encode64(amount) + Encode64(nonce) + receiver + sender
  }

  /** `copy(buf[offset:], data)` where the data fits. */
  method Put(buf: array<byte>, offset: nat, data: ByteString)
    requires offset + |data| <= buf.Length
    modifies buf
    ensures buf[..offset + |data|] == old(buf[..offset]) + data
    ensures buf[offset + |data|..] == old(buf[offset + |data|..])
  {
    for i := 0 to |data|
      invariant buf[..offset] == old(buf[..offset])
      invariant buf[offset..offset + i] == data[..i]
      invariant buf[offset + |data|..] == old(buf[offset + |data|..])
    {
      buf[offset + i] := data[i];
      assert buf[offset..offset + i + 1] == buf[offset..offset + i] + [data[i]];
    }
    assert buf[..offset + |data|] == buf[..offset] + buf[offset..offset + |data|];
  }

  datatype Payloads =
    | Payloads(unsigned: string, hashed: ByteString) // `hashed` is what SHA3-256 is applied to
    | InvalidSequence

  /** The inner branch of /construction/payloads: the unsigned transaction, and
      the very bytes the contract will verify. */
  method MakePayloads(sender: Address, receiver: Address, amount: uint64, sequence: int64) returns (p: Payloads)
    ensures p.InvalidSequence? <==> sequence < 0
    ensures p.Payloads? ==> p.unsigned == Signatures.EncodeHex(Encoded(sender, receiver, amount, sequence))
    ensures p.Payloads? ==> p.hashed == VerifiedBytes(receiver, amount, sequence)
  {
    if sequence < 0 {
      return InvalidSequence;
    }
    var enc := new byte[33](_ => 0);
    enc[0] := TXN_TYPE_INNER;
    assert enc[..1] == [TXN_TYPE_INNER];
    Put(enc, 1, Encode64(amount));
    Put(enc, 9, Encode64(ToUint64(sequence)));
    Put(enc, 17, receiver);
    Put(enc, 25, sender);
    assert enc[..] == enc[..33];
    var hashed := USER_TAG;
    hashed := hashed + receiver;
    hashed := hashed + enc[1..17];
    HashedBytes(sender, receiver, amount, sequence);
    p := Payloads(Signatures.EncodeHex(enc[..]), hashed);
  }

  /** The hashed slice of the buffer, after tag and receiver, is the contract's message. */
  lemma {:induction false} HashedBytes(sender: Address, receiver: Address, amount: uint64, nonce: int64)
    requires nonce >= 0
    ensures USER_TAG + receiver + Encoded(sender, receiver, amount, nonce)[1..17] ==
            VerifiedBytes(receiver, amount, nonce)
  {
    TagsAgree();
    assert Encoded(sender, receiver, amount, nonce)[1..17] == Encode64(amount) + Encode64(nonce);
    var tag := PaddedTag(DOMAIN);
    assert tag + receiver + (Encode64(amount) + Encode64(nonce)) ==
           tag + (receiver + Encode64(amount) + Encode64(nonce));
  }

  // ---- Decoding and combining ----

  /** strings.Split at colons. */
  function Split(s: string): (parts: seq<string>)
    ensures |parts| >= 1
  {
    if s == [] then [[]]
    else
      var parts, c := Split(s[..|s| - 1]), s[|s| - 1];
      if c == ':' then parts + [[]] else parts[..|parts| - 1] + [parts[|parts| - 1] + [c]]
  }

  datatype Decoded =
    | Inner(raw: ByteString, amount: uint64, nonce: uint64, receiver: Address, sender: Address)
    | Flow(message: ByteString) // the protobuf form of an ordinary transaction
    | Rejected

  function Payload(src: string): string {
    var parts := Split(src);
    if |parts| == 2 then parts[0] else src
  }

  function Decode(src: string, signed: bool): Decoded {
    var raw := Signatures.DecodeHex(Payload(src));
    if raw.None? || raw.value == [] then Rejected
    else
      var b := raw.value;
      if b[0] == TXN_TYPE_FLOW then Flow(b[1..])
      else if b[0] != TXN_TYPE_INNER then Rejected
      else if |b| != (if signed then 97 else 33) then Rejected
      else Inner(b, Decode64(b[1..9]), Decode64(b[9..17]), b[17..25], b[25..33])
  }

  datatype Combined = Combined(signed: string) | NotInner | BadRequest | Panic

  /** /construction/combine with one signature; shorter than 64 bytes, the slice
      expression panics. */
  function Combine(unsigned: string, signature: ByteString): Combined {
    var d := Decode(unsigned, false);
    if d.Rejected? then BadRequest
    else if |signature| < 64 then Panic
    else if d.Flow? then NotInner
    else Combined(Signatures.EncodeHex(d.raw + signature[..64]))
  }

  lemma {:induction false} HexHasNoColon(s: ByteString)
    ensures Split(Signatures.EncodeHex(s)) == [Signatures.EncodeHex(s)]
  {
    if s != [] {
      var before := Signatures.EncodeHex(s[..|s| - 1]);
      HexHasNoColon(s[..|s| - 1]);
      var hi, lo := Signatures.HexChar(s[|s| - 1] / 16), Signatures.HexChar(s[|s| - 1] % 16);
      SplitAppend(before, hi);
      SplitAppend(before + [hi], lo);
      assert before + [hi] + [lo] == Signatures.EncodeHex(s);
    }
  }

  lemma {:induction false} SplitAppend(s: string, c: char)
    requires c != ':' && Split(s) == [s]
    ensures Split(s + [c]) == [s + [c]]
  {
    assert (s + [c])[..|s|] == s;
  }

  lemma {:induction false} DecodesRaw(raw: ByteString, signed: bool)
    requires |raw| == (if signed then 97 else 33) && raw[0] == TXN_TYPE_INNER
    ensures Decode(Signatures.EncodeHex(raw), signed) ==
            Inner(raw, Decode64(raw[1..9]), Decode64(raw[9..17]), raw[17..25], raw[25..33])
  {
    HexHasNoColon(raw);
    Signatures.HexRoundTrip(raw);
  }

  lemma {:induction false} FieldsOfEncoded(
      sender: Address, receiver: Address, amount: uint64, nonce: uint64, rest: ByteString)
    ensures var raw := Encoded(sender, receiver, amount, nonce) + rest;
            && raw[0] == TXN_TYPE_INNER && raw[33..] == rest
            && Decode64(raw[1..9]) == amount && Decode64(raw[9..17]) == nonce
            && raw[17..25] == receiver && raw[25..33] == sender
  {
    var raw := Encoded(sender, receiver, amount, nonce) + rest;
    assert raw[1..9] == Encode64(amount) && raw[9..17] == Encode64(nonce);
    Decode64Encode64(amount);
    Decode64Encode64(nonce);
  }

  /** Payloads, combine, decode: every field and the first 64 bytes of the
      signature come back, before and after signing. */
  lemma {:induction false} InnerRoundTrip(
      sender: Address, receiver: Address, amount: uint64, nonce: uint64, signature: ByteString)
    requires |signature| >= 64
    ensures var enc := Encoded(sender, receiver, amount, nonce);
            var unsigned := Signatures.EncodeHex(enc);
            && Decode(unsigned, false) == Inner(enc, amount, nonce, receiver, sender)
            && Combine(unsigned, signature).Combined?
            && Decode(Combine(unsigned, signature).signed, true) ==
               Inner(enc + signature[..64], amount, nonce, receiver, sender)
            && (enc + signature[..64])[33..] == signature[..64]
  {
    var enc := Encoded(sender, receiver, amount, nonce);
    FieldsOfEncoded(sender, receiver, amount, nonce, []);
    assert enc + [] == enc;
    DecodesRaw(enc, false);
    FieldsOfEncoded(sender, receiver, amount, nonce, signature[..64]);
    DecodesRaw(enc + signature[..64], true);
  }

  /** Nothing else decodes: an inner transaction is the encoding of its fields,
      followed by the signature if it is signed. */
  lemma {:induction false} DecodedIsEncoded(src: string, signed: bool)
    requires Decode(src, signed).Inner?
    ensures var d := Decode(src, signed);
            && d.raw[..33] == Encoded(d.sender, d.receiver, d.amount, d.nonce)
            && |d.raw| == (if signed then 97 else 33)
  {
    hide Decode, Encoded, Decode64, Encode64;
    var d := Decode(src, signed);
    DecodedFields(src, signed);
    Encode64Decode64(d.raw[1..9]);
    Encode64Decode64(d.raw[9..17]);
    FieldsInOrder(d.raw, d.raw[1..9], d.raw[9..17], d.raw[17..25], d.raw[25..33]);
    EncodedInOrder(d.sender, d.receiver, d.amount, d.nonce);
  }

  lemma {:induction false} DecodedFields(src: string, signed: bool)
    requires Decode(src, signed).Inner?
    ensures var d := Decode(src, signed);
            && |d.raw| == (if signed then 97 else 33) && d.raw[0] == TXN_TYPE_INNER
            && d.amount == Decode64(d.raw[1..9]) && d.nonce == Decode64(d.raw[9..17])
            && d.receiver == d.raw[17..25] && d.sender == d.raw[25..33]
  {
  }

  lemma {:induction false} FieldsInOrder(
      raw: ByteString, amount: ByteString, nonce: ByteString, receiver: ByteString, sender: ByteString)
    requires |raw| >= 33
    requires amount == raw[1..9] && nonce == raw[9..17] && receiver == raw[17..25] && sender == raw[25..33]
    ensures raw[..33] == [raw[0]] + amount + nonce + receiver + sender
  {
    assert raw[..9] == [raw[0]] + amount;
    assert raw[..17] == raw[..9] + nonce;
    assert raw[..25] == raw[..17] + receiver;
    assert raw[..33] == raw[..25] + sender;
  }

  lemma {:induction false} EncodedInOrder(sender: Address, receiver: Address, amount: uint64, nonce: uint64)
    ensures Encoded(sender, receiver, amount, nonce) ==
            [TXN_TYPE_INNER] + Encode64(amount) + Encode64(nonce) + receiver + sender
  {
  }
}
