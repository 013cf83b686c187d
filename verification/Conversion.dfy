/** Converting indexed operations to Rosetta operations, and reading them back. */
module Conversion {
  import opened Prelude
  import opened Model
  import Signatures

  datatype RosettaType = CreateAccountOp | CreateProxyAccountOp | FeeOp | TransferOp | ProxyTransferOp

  /** A Rosetta operation; the amount is the integer its decimal string denotes, and
      the key stands in the metadata. */
  datatype RosettaOp = RosettaOp(
      index: nat, account: Address, amount: Option<int>, related: Option<nat>, typ: RosettaType,
      publicKey: Option<string> := None)

  /** strconv.FormatInt(-int64(amount)). */
  function Debit(amount: uint64): int64 {
    var n: int := ToInt64(amount);
    ToInt64(-n)
  }

  lemma {:induction false} DebitIsNegation(amount: uint64)
    ensures Congruent(Debit(amount), 0 - amount)
    ensures amount < TWO_63 ==> Debit(amount) == 0 - amount
  {
    CongruentNegation(ToInt64(amount), amount);
  }

  /** The Rosetta operations of one indexed operation, numbered from `start`. */
  function Converted(op: Operation, start: nat): seq<RosettaOp> {
    match op
    case CreateAccount(account, key) =>
      if |key| > 0 then
        [RosettaOp(start, account, None, None, CreateProxyAccountOp, Some(Signatures.EncodeHex(key)))]
      else [RosettaOp(start, account, None, None, CreateAccountOp)]
    case Move(kind, sender, amount, receiver) =>
      if kind == Fee then
        // The source converts the Account field unconditionally; a fee always has one.
        if sender.None? then [] else [RosettaOp(start, sender.value, Some(Debit(amount)), None, FeeOp)]
      else
        var typ := if kind == ProxyTransfer then ProxyTransferOp else TransferOp;
        var debits := if sender.None? then [] else [RosettaOp(start, sender.value, Some(Debit(amount)), None, typ)];
        var related := if sender.None? then None else Some(start);
        var credits := if receiver.None? then []
                       else [RosettaOp(start + |debits|, receiver.value, Some(amount), related, typ)];
        debits + credits
  }

  function ConvertedAll(ops: seq<Operation>): seq<RosettaOp> {
    if ops == [] then []
    else
      var before := ConvertedAll(ops[..|ops| - 1]);
      before + Converted(ops[|ops| - 1], |before|)
  }

  /** The total of the signed amounts for one account, as a Rosetta client adds them up. */
  function SignedTotal(ops: seq<RosettaOp>, a: Address): int {
    if ops == [] then 0
    else
      var op := ops[|ops| - 1];
      SignedTotal(ops[..|ops| - 1], a) + (if op.account == a && op.amount.Some? then op.amount.value else 0)
  }

  lemma {:induction false} SignedTotalOfConcat(x: seq<RosettaOp>, y: seq<RosettaOp>, a: Address)
    ensures SignedTotal(x + y, a) == SignedTotal(x, a) + SignedTotal(y, a)
  {
    if y == [] {
      assert x + y == x;
    } else {
      SignedTotalOfConcat(x, y[..|y| - 1], a);
      assert (x + y)[..|x + y| - 1] == x + y[..|y| - 1];
    }
  }

  predicate FeesHaveNoReceiver(ops: seq<Operation>) {
    forall op :: op in ops && op.Move? && op.kind == Fee ==> op.receiver.None?
  }

  predicate SmallAmounts(ops: seq<Operation>) {
    forall op :: op in ops && op.Move? ==> op.amount < TWO_63
  }

  lemma {:induction false} SignedTotalOfOne(op: RosettaOp, a: Address)
    ensures SignedTotal([op], a) == if op.account == a && op.amount.Some? then op.amount.value else 0
  {
    assert [op][..0] == [];
  }

  lemma {:induction false} ConvertedTotal(op: Operation, start: nat, a: Address)
    requires op.Move? && (op.kind == Fee ==> op.receiver.None?)
    ensures SignedTotal(Converted(op, start), a) ==
            (if op.sender == Some(a) then Debit(op.amount) else 0) + (if op.receiver == Some(a) then op.amount else 0)
  {
    var ops := Converted(op, start);
    if |ops| == 2 {
      assert ops == [ops[0]] + [ops[1]];
      SignedTotalOfConcat([ops[0]], [ops[1]], a);
      SignedTotalOfOne(ops[0], a);
      SignedTotalOfOne(ops[1], a);
    } else if |ops| == 1 {
      SignedTotalOfOne(ops[0], a);
      assert ops == [ops[0]];
    }
  }

  lemma {:induction false} ConvertedEffect(op: Operation, start: nat, a: Address)
    requires op.Move? && op.kind == Fee ==> op.receiver.None?
    ensures Congruent(SignedTotal(Converted(op, start), a), OpEffect(op, a))
    ensures op.Move? && op.amount < TWO_63 ==> SignedTotal(Converted(op, start), a) == OpEffect(op, a)
    ensures op.CreateAccount? ==> SignedTotal(Converted(op, start), a) == 0
  {
    if op.Move? {
      ConvertedTotal(op, start, a);
      DebitIsNegation(op.amount);
      var debit: int := if op.sender == Some(a) then Debit(op.amount) else 0;
      var spent: int := if op.sender == Some(a) then 0 - op.amount else 0;
      var credit: int := if op.receiver == Some(a) then op.amount else 0;
      CongruentTotals(debit, credit, SignedTotal(Converted(op, start), a), spent, credit, OpEffect(op, a));
    } else {
      SignedTotalOfOne(Converted(op, start)[0], a);
    }
  }

  /** The converted operations carry the transaction's ledger effect. */
  lemma {:induction false} ConversionKeepsEffect(ops: seq<Operation>, a: Address)
    requires FeesHaveNoReceiver(ops)
    ensures Congruent(SignedTotal(ConvertedAll(ops), a), Effect(ops, a))
    ensures SmallAmounts(ops) ==> SignedTotal(ConvertedAll(ops), a) == Effect(ops, a)
  {
    if ops != [] {
      var before, op := ops[..|ops| - 1], ops[|ops| - 1];
      assert op in ops && forall x :: x in before ==> x in ops;
      ConversionKeepsEffect(before, a);
      var start := |ConvertedAll(before)|;
      ConvertedEffect(op, start, a);
      SignedTotalOfConcat(ConvertedAll(before), Converted(op, start), a);
      CongruentTotals(SignedTotal(ConvertedAll(before), a), SignedTotal(Converted(op, start), a),
                      SignedTotal(ConvertedAll(ops), a),
                      Effect(before, a), OpEffect(op, a), Effect(ops, a));
    }
  }

  /** Numbered from `start`, with a related credit right after its debit. */
  ghost predicate Numbered(ops: seq<RosettaOp>, start: nat) {
    forall i :: 0 <= i < |ops| ==> NumberedAt(ops, start, i)
  }

  predicate NumberedAt(ops: seq<RosettaOp>, start: nat, i: nat)
    requires i < |ops|
  {
    && ops[i].index == start + i
    && (ops[i].related.Some? ==> i > 0 && ops[i].related.value == start + i - 1 && ops[i - 1].typ == ops[i].typ)
  }

  /** Operations are numbered consecutively, and a credit related to a debit
      follows it directly. */
  lemma {:induction false} ConversionIsNumbered(ops: seq<Operation>)
    ensures Numbered(ConvertedAll(ops), 0)
  {
    if ops != [] {
      ConversionIsNumbered(ops[..|ops| - 1]);
      var before := ConvertedAll(ops[..|ops| - 1]);
      var more := Converted(ops[|ops| - 1], |before|);
      NumberedConversion(ops[|ops| - 1], |before|);
      NumberedConcat(before, more);
    }
  }

  lemma {:induction false} NumberedConversion(op: Operation, start: nat)
    ensures Numbered(Converted(op, start), start)
  {
  }

  lemma {:induction false} NumberedConcat(x: seq<RosettaOp>, y: seq<RosettaOp>)
    requires Numbered(x, 0) && Numbered(y, |x|)
    ensures Numbered(x + y, 0)
  {
    var ops := x + y;
    forall i | 0 <= i < |ops| ensures NumberedAt(ops, 0, i) {
      if i < |x| {
        assert NumberedAt(x, 0, i);
      } else {
        assert NumberedAt(y, |x|, i - |x|);
      }
    }
  }

  // ---- Reading an answer back ----

  function KindOf(typ: RosettaType): MoveKind {
    match typ
    case FeeOp => Fee
    case ProxyTransferOp => ProxyTransfer
    case _ => Transfer
  }

  function Value(op: RosettaOp): int {
    if op.amount.Some? then op.amount.value else 0
  }

  /** What an operation means on its own; a transfer's direction is the sign of its amount. */
  function ReadOne(op: RosettaOp): Operation {
    match op.typ
    case CreateAccountOp => CreateAccount(op.account, [])
    case CreateProxyAccountOp =>
      var key := if op.publicKey.Some? then Signatures.DecodeHex(op.publicKey.value) else None;
      CreateAccount(op.account, if key.Some? then key.value else [])
    case _ =>
      if op.typ == FeeOp || Value(op) < 0 then
        Move(KindOf(op.typ), Some(op.account), ToUint64(-Value(op)), None)
      else Move(KindOf(op.typ), None, ToUint64(Value(op)), Some(op.account))
  }

  /** What a debit and the credit related to it mean together. */
  function ReadPair(debit: RosettaOp, credit: RosettaOp): Operation {
    Move(KindOf(debit.typ), Some(debit.account), ToUint64(Value(credit)), Some(credit.account))
  }

  /** The operations that a client reads from an answer. */
  function ReadBack(ops: seq<RosettaOp>): seq<Operation> {
    if ops == [] then []
    else
      var n := |ops| - 1;
      if n > 0 && ops[n].related == Some(ops[n - 1].index) then
        ReadBack(ops[..n - 1]) + [ReadPair(ops[n - 1], ops[n])]
      else ReadBack(ops[..n]) + [ReadOne(ops[n])]
  }

  /** A fee has a sender only; another move has a side; and if it is only a debit, its
      signed amount is negative. */
  predicate Readable(op: Operation) {
    match op
    case CreateAccount(_, _) => true
    case Move(kind, sender, amount, receiver) =>
      if kind == Fee then sender.Some? && receiver.None?
      else receiver.Some? || (sender.Some? && 0 < amount <= TWO_63)
  }

  predicate AllReadable(ops: seq<Operation>) {
    forall op :: op in ops ==> Readable(op)
  }

  lemma {:induction false} DebitReadsBack(amount: uint64)
    ensures Debit(amount) < 0 <==> 0 < amount <= TWO_63
    ensures ToUint64(0 - Debit(amount)) == amount && ToUint64(amount) == amount
  {
    var d: int := Debit(amount);
    DebitIsNegation(amount);
    CongruentNegation(d, 0 - amount);
    CongruentIsEqual(-d, amount);
  }

  lemma {:induction false} ReadBackOfConcat(op: Operation, x: seq<RosettaOp>, start: nat)
    ensures var one := ReadBack(Converted(op, start));
            |one| <= 1 && ReadBack(x + Converted(op, start)) == ReadBack(x) + one
  {
    hide Debit, ReadOne, ReadPair, Signatures.EncodeHex;
    var ys := Converted(op, start);
    assert x + [] == x && ReadBack([]) == [];
    if ys != [] {
      assert (x + ys)[..|x|] == x && ys[..0] == [];
    }
  }

  lemma {:induction false} ReadBackOfOne(op: RosettaOp)
    ensures ReadBack([op]) == [ReadOne(op)] && ReadBack([]) == []
  {
    assert [op][..0] == [] && ReadBack([]) == [];
  }

  lemma {:induction false} ReadBackOfPair(debit: RosettaOp, credit: RosettaOp)
    requires credit.related == Some(debit.index)
    ensures ReadBack([debit] + [credit]) == [ReadPair(debit, credit)]
  {
    assert ([debit] + [credit])[..0] == [] && ReadBack([]) == [];
  }

  lemma {:induction false} DebitIsRead(op: RosettaOp, amount: uint64)
    requires op.amount == Some(Debit(amount)) && (op.typ == FeeOp || op.typ == TransferOp || op.typ == ProxyTransferOp)
    ensures ReadOne(op) == Move(KindOf(op.typ), Some(op.account), amount, None) <==>
            op.typ == FeeOp || 0 < amount <= TWO_63
  {
    DebitReadsBack(amount);
    var d: int := Debit(amount);
    hide Debit, ToUint64;
    assert -d == 0 - Debit(amount);
  }

  /** An operation is read back from its entries if and only if it is readable. */
  lemma {:induction false} OneReadsBack(op: Operation, start: nat)
    ensures ReadBack(Converted(op, start)) == [op] <==> Readable(op)
  {
    hide Debit, ReadBack, Signatures.EncodeHex, Signatures.DecodeHex;
    var ys := Converted(op, start);
    if |ys| == 2 {
      ReadBackOfPair(ys[0], ys[1]);
      DebitReadsBack(op.amount);
    } else if |ys| == 1 {
      ReadBackOfOne(ys[0]);
      assert ys == [ys[0]];
      MoveIsRead(op, ys[0]);
    } else {
      ReadBackOfOne(RosettaOp(0, ZERO_ADDRESS, None, None, FeeOp));
    }
  }

  lemma {:induction false} MoveIsRead(op: Operation, y: RosettaOp)
    requires Converted(op, y.index) == [y]
    ensures ReadOne(y) == op <==> Readable(op)
  {
    hide Debit, Signatures.EncodeHex, Signatures.DecodeHex, ToUint64;
    assert y == Converted(op, y.index)[0];
    if op.CreateAccount? {
      Signatures.HexRoundTrip(op.proxyPublicKey);
    } else if op.sender.Some? {
      DebitIsRead(y, op.amount);
    } else {
      DebitReadsBack(op.amount);
    }
  }

  lemma {:induction false} SplitEqual<T>(x: seq<T>, one: seq<T>, y: seq<T>, op: T)
    requires |x| <= |y| && |one| <= 1
    ensures x + one == y + [op] <==> x == y && one == [op]
  {
    if x + one == y + [op] {
      assert |x| == |y| && (x + one)[..|x|] == x && (y + [op])[..|y|] == y;
      assert (x + one)[|x|] == one[0] && (y + [op])[|y|] == op;
    }
  }

  /** The answer determines the indexed operations, with kinds, both sides, amounts
      and keys, if and only if each of them is readable. */
  lemma {:induction false} AnswerReadsBack(ops: seq<Operation>)
    ensures |ReadBack(ConvertedAll(ops))| <= |ops|
    ensures ReadBack(ConvertedAll(ops)) == ops <==> AllReadable(ops)
  {
    hide ReadBack, Converted, Readable;
    if ops == [] {
      ReadBackOfOne(RosettaOp(0, ZERO_ADDRESS, None, None, FeeOp));
    } else {
      var before, op := ops[..|ops| - 1], ops[|ops| - 1];
      var entries := ConvertedAll(before);
      AnswerReadsBack(before);
      ReadBackOfConcat(op, entries, |entries|);
      OneReadsBack(op, |entries|);
      SplitEqual(ReadBack(entries), ReadBack(Converted(op, |entries|)), before, op);
      OneMoreReadable(before, op);
      assert ops == before + [op];
      hide ConvertedAll, AllReadable;
    }
  }

  lemma {:induction false} OneMoreReadable(ops: seq<Operation>, op: Operation)
    ensures AllReadable(ops + [op]) <==> AllReadable(ops) && Readable(op)
  {
    hide Readable;
    assert forall x :: x in ops + [op] <==> x in ops || x == op;
  }

  lemma {:induction false} ConvertedOneMore(ops: seq<Operation>, i: nat)
    requires i < |ops|
    ensures var before := ConvertedAll(ops[..i]); ConvertedAll(ops[..i + 1]) == before + Converted(ops[i], |before|)
  {
    assert ops[..i + 1][..i] == ops[..i];
  }

  /** One turn of convertTransaction's loop. */
  method AppendConverted(op: Operation, sofar: seq<RosettaOp>) returns (out: seq<RosettaOp>)
    ensures out == sofar + Converted(op, |sofar|)
  {
    out := sofar;
    match op {
      case CreateAccount(account, key) =>
        var created := RosettaOp(|out|, account, None, None, CreateAccountOp);
        if |key| > 0 {
          created := created.(publicKey := Some(Signatures.EncodeHex(key)), typ := CreateProxyAccountOp);
        }
        out := out + [created];
      case Move(kind, sender, amount, receiver) =>
        if kind == Fee {
          if sender.Some? {
            out := out + [RosettaOp(|out|, sender.value, Some(Debit(amount)), None, FeeOp)];
          }
        } else {
          var typ := if kind == ProxyTransfer then ProxyTransferOp else TransferOp;
          if sender.Some? {
            out := out + [RosettaOp(|out|, sender.value, Some(Debit(amount)), None, typ)];
          }
          if receiver.Some? {
            var related := if sender.Some? then Some(|out| - 1) else None;
            var credit := RosettaOp(|out|, receiver.value, Some(amount), related, typ);
            assert out + [credit] == sofar + (out[|sofar|..] + [credit]);
            out := out + [credit];
          }
        }
    }
  }

  /** convertTransaction's loop over the operations. */
  method ConvertTransaction(ops: seq<Operation>) returns (out: seq<RosettaOp>)
    ensures out == ConvertedAll(ops)
    ensures ReadBack(out) == ops <==> AllReadable(ops)
  {
    AnswerReadsBack(ops);
    out := [];
    for i := 0 to |ops|
      invariant out == ConvertedAll(ops[..i])
    {
      ConvertedOneMore(ops, i);
      out := AppendConverted(ops[i], out);
    }
    assert ops[..|ops|] == ops;
  }
}
