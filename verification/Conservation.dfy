/** Conservation: what operations credit and debit is what balances gain and lose. */
module Conservation {
  import opened Prelude
  import opened Model
  import opened IndexSpec
  import opened IndexTxn

  function OpCredit(op: Operation): int {
    if op.Move? && op.receiver.Some? then op.amount else 0
  }

  function OpDebit(op: Operation): int {
    if op.Move? && op.sender.Some? then op.amount else 0
  }

  function Credited(ops: seq<Operation>): int {
    if ops == [] then 0 else Credited(ops[..|ops| - 1]) + OpCredit(ops[|ops| - 1])
  }

  function Debited(ops: seq<Operation>): int {
    if ops == [] then 0 else Debited(ops[..|ops| - 1]) + OpDebit(ops[|ops| - 1])
  }

  ghost predicate NoRepeats(accts: seq<Address>) {
    forall i, j :: 0 <= i < j < |accts| ==> accts[i] != accts[j]
  }

  function TotalEffect(ops: seq<Operation>, accts: seq<Address>): int {
    if accts == [] then 0 else TotalEffect(ops, accts[..|accts| - 1]) + Effect(ops, accts[|accts| - 1])
  }

  function TotalBalance(history: History, accts: seq<Address>): int {
    if accts == [] then 0 else TotalBalance(history, accts[..|accts| - 1]) + Balance(history, accts[|accts| - 1])
  }

  lemma {:induction false} TotalOfOne(op: Operation, accts: seq<Address>)
    requires NoRepeats(accts)
    ensures TotalEffect([op], accts) ==
            (if op.Move? && op.receiver.Some? && op.receiver.value in accts then op.amount else 0) -
            (if op.Move? && op.sender.Some? && op.sender.value in accts then op.amount else 0)
  {
    if accts != [] {
      var shorter, a := accts[..|accts| - 1], accts[|accts| - 1];
      assert accts == shorter + [a] && a !in shorter;
      TotalOfOne(op, shorter);
      EffectOfOne(op, a);
    }
  }

  lemma {:induction false} TotalOfConcat(x: seq<Operation>, y: seq<Operation>, accts: seq<Address>)
    ensures TotalEffect(x + y, accts) == TotalEffect(x, accts) + TotalEffect(y, accts)
  {
    if accts != [] {
      TotalOfConcat(x, y, accts[..|accts| - 1]);
      EffectOfConcat(x, y, accts[|accts| - 1]);
    }
  }

  lemma {:induction false} NothingHasNoEffect(accts: seq<Address>)
    ensures TotalEffect([], accts) == 0
  {
    if accts != [] {
      NothingHasNoEffect(accts[..|accts| - 1]);
    }
  }

  /** Over any set of accounts that includes all those touched, the net effects
      add up to credits minus debits. */
  lemma {:induction false} EffectsAddUp(ops: seq<Operation>, accts: seq<Address>)
    requires NoRepeats(accts) && forall a: Address :: Touches(ops, a) ==> a in accts
    ensures TotalEffect(ops, accts) == Credited(ops) - Debited(ops)
  {
    if ops == [] {
      NothingHasNoEffect(accts);
    } else {
      var before, op := ops[..|ops| - 1], ops[|ops| - 1];
      assert ops == before + [op];
      forall a: Address ensures Touches(ops, a) <==> Touches(before, a) || OpTouches(op, a) {
        TouchesOneMore(before, op, a);
      }
      EffectsAddUp(before, accts);
      TotalOfConcat(before, [op], accts);
      TotalOfOne(op, accts);
    }
  }

  lemma {:induction false} TotalGrows(history: History, e: Entry, accts: seq<Address>)
    ensures TotalBalance(history + [e], accts) == TotalBalance(history, accts) + TotalEffect(EntryOps(e), accts)
  {
    if accts != [] {
      TotalGrows(history, e, accts[..|accts| - 1]);
      assert (history + [e])[..|history|] == history;
    }
  }

  /** Over true balances, a block moves the total by what it credits minus what it debits. */
  lemma {:induction false} TrueTotalMoves(history: History, e: Entry, accts: seq<Address>)
    requires NoRepeats(accts) && forall a: Address :: Touches(EntryOps(e), a) ==> a in accts
    ensures TotalBalance(history + [e], accts) - TotalBalance(history, accts) ==
            Credited(EntryOps(e)) - Debited(EntryOps(e))
  {
    TotalGrows(history, e, accts);
    EffectsAddUp(EntryOps(e), accts);
  }

  // ---- What the store holds ----

  /** The number stored for, and answered about, account a after the history. */
  function Stored(history: History, a: Address): uint64 {
    ToUint64(Balance(history, a))
  }

  function StoredTotal(history: History, accts: seq<Address>): int {
    if accts == [] then 0 else StoredTotal(history, accts[..|accts| - 1]) + Stored(history, accts[|accts| - 1])
  }

  /** The block does not carry the stored balance of a out of the uint64 range. */
  predicate StaysInRange(history: History, e: Entry, a: Address) {
    0 <= Stored(history, a) + Effect(EntryOps(e), a) < TWO_64
  }

  /** A stored balance moves by the block's effect modulo 2^64, and exactly if and
      only if the sum is a uint64. */
  lemma {:induction false} StoredMoves(history: History, e: Entry, a: Address)
    ensures Stored(history + [e], a) == ToUint64(Stored(history, a) + Effect(EntryOps(e), a))
    ensures Stored(history + [e], a) == Stored(history, a) + Effect(EntryOps(e), a) <==> StaysInRange(history, e, a)
  {
    assert (history + [e])[..|history|] == history;
    WrappedSum(Balance(history, a), Effect(EntryOps(e), a));
  }

  lemma {:induction false} StoredIsCongruent(history: History, accts: seq<Address>)
    ensures Congruent(StoredTotal(history, accts), TotalBalance(history, accts))
  {
    if accts != [] {
      var before, a := accts[..|accts| - 1], accts[|accts| - 1];
      StoredIsCongruent(history, before);
      CongruentTotals(StoredTotal(history, before), Stored(history, a), StoredTotal(history, accts),
                      TotalBalance(history, before), Balance(history, a), TotalBalance(history, accts));
    }
  }

  lemma {:induction false} StoredTotalMoves(history: History, e: Entry, accts: seq<Address>)
    requires forall a :: a in accts ==> StaysInRange(history, e, a)
    ensures StoredTotal(history + [e], accts) == StoredTotal(history, accts) + TotalEffect(EntryOps(e), accts)
  {
    if accts != [] {
      var a := accts[|accts| - 1];
      assert a in accts;
      StoredMoves(history, e, a);
      StoredTotalMoves(history, e, accts[..|accts| - 1]);
    }
  }

  /** Conservation: the total of the stored balances moves by what the block
      credits minus what it debits; always modulo 2^64, and exactly if no stored
      balance leaves the range. */
  lemma {:induction false} IndexConserves(history: History, e: Entry, accts: seq<Address>)
    requires NoRepeats(accts) && forall a: Address :: Touches(EntryOps(e), a) ==> a in accts
    ensures Congruent(StoredTotal(history + [e], accts) - StoredTotal(history, accts),
                      Credited(EntryOps(e)) - Debited(EntryOps(e)))
    ensures (forall a :: a in accts ==> StaysInRange(history, e, a)) ==>
              StoredTotal(history + [e], accts) - StoredTotal(history, accts) ==
              Credited(EntryOps(e)) - Debited(EntryOps(e))
  {
    hide StoredTotal, TotalBalance, TotalEffect, Credited, Debited, Touches;
    TrueTotalMoves(history, e, accts);
    StoredIsCongruent(history, accts);
    StoredIsCongruent(history + [e], accts);
    CongruentSum(StoredTotal(history + [e], accts), StoredTotal(history, accts),
                 TotalBalance(history + [e], accts), TotalBalance(history, accts));
    if forall a :: a in accts ==> StaysInRange(history, e, a) {
      StoredTotalMoves(history, e, accts);
      EffectsAddUp(EntryOps(e), accts);
    }
  }

  /** How far a stored balance is from the exact one: a multiple of 2^64. */
  function Carry(history: History, e: Entry, a: Address): int {
    (Stored(history, a) + Effect(EntryOps(e), a)) / TWO_64
  }

  function TotalCarry(history: History, e: Entry, accts: seq<Address>): int {
    if accts == [] then 0 else TotalCarry(history, e, accts[..|accts| - 1]) + Carry(history, e, accts[|accts| - 1])
  }

  /** The total is exact if and only if the carries of the accounts cancel. */
  lemma {:induction false} TotalIsExactIff(history: History, e: Entry, accts: seq<Address>)
    requires NoRepeats(accts) && forall a: Address :: Touches(EntryOps(e), a) ==> a in accts
    ensures (StoredTotal(history + [e], accts) - StoredTotal(history, accts) ==
             Credited(EntryOps(e)) - Debited(EntryOps(e)))
            <==> TotalCarry(history, e, accts) == 0
  {
    CarriesAddUp(history, e, accts);
    EffectsAddUp(EntryOps(e), accts);
  }

  lemma {:induction false} CarriesAddUp(history: History, e: Entry, accts: seq<Address>)
    ensures StoredTotal(history + [e], accts) ==
            StoredTotal(history, accts) + TotalEffect(EntryOps(e), accts) - TotalCarry(history, e, accts) * TWO_64
  {
    if accts != [] {
      var a := accts[|accts| - 1];
      CarriesAddUp(history, e, accts[..|accts| - 1]);
      StoredMoves(history, e, a);
      CarryIsQuotient(Stored(history, a) + Effect(EntryOps(e), a));
    }
  }

  lemma {:induction false} CarryIsQuotient(x: int)
    ensures ToUint64(x) == x - x / TWO_64 * TWO_64
  {
  }

  /** A credit of 2^62 to one account, and a block of four such transactions. */
  function QuarterCredit(a: Address): Operation {
    Move(Transfer, None, 0x4000_0000_0000_0000, Some(a))
  }

  function QuarterTxns(a: Address, n: nat): seq<IndexedTransaction>
    requires n <= 4
  {
    if n == 0 then [] else QuarterTxns(a, n - 1) + [IndexedTransaction([n], [QuarterCredit(a)], false)]
  }

  function WrappingBlock(a: Address): Entry {
    Entry([], IndexedBlock(0, QuarterTxns(a, 4)))
  }

  lemma {:induction false} QuarterOneMore(a: Address, n: nat)
    requires n <= 4
    ensures Operations(QuarterTxns(a, n)) ==
            if n == 0 then [] else Operations(QuarterTxns(a, n - 1)) + [QuarterCredit(a)]
  {
    if n > 0 {
      assert QuarterTxns(a, n)[..|QuarterTxns(a, n)| - 1] == QuarterTxns(a, n - 1);
    }
  }

  lemma {:induction false} QuarterTotals(a: Address, n: nat)
    requires n <= 4
    ensures var ops := Operations(QuarterTxns(a, n));
            Effect(ops, a) == Credited(ops) == n * 0x4000_0000_0000_0000 && Debited(ops) == 0
  {
    hide Effect, Credited, Debited, QuarterTxns, Operations;
    QuarterOneMore(a, n);
    NoTotals(a);
    if n > 0 {
      var before, credit := Operations(QuarterTxns(a, n - 1)), QuarterCredit(a);
      QuarterTotals(a, n - 1);
      EffectOfOne(credit, a);
      EffectOfConcat(before, [credit], a);
      CreditedOfConcat(before, [credit]);
      assert [credit][0] == credit;
    }
  }

  lemma {:induction false} NoTotals(a: Address)
    ensures Effect([], a) == Credited([]) == Debited([]) == 0
  {
  }

  lemma {:induction false} OnlyQuarters(a: Address, n: nat)
    requires n <= 4
    ensures forall op :: op in Operations(QuarterTxns(a, n)) ==> op == QuarterCredit(a)
  {
    QuarterOneMore(a, n);
    if n > 0 {
      OnlyQuarters(a, n - 1);
    }
  }

  lemma {:induction false} BalanceOfOne(e: Entry, a: Address)
    ensures Balance([], a) == 0 && Balance([e], a) == Effect(EntryOps(e), a)
  {
    assert [e][..0] == [];
  }

  /** A failing input: on a fresh account Index accepts the wrapping block, whose
      amounts are all below 2^63, credits 2^64 and leaves the stored balance at 0. */
  lemma {:induction false} WrappingBlockIsLost(a: Address)
    ensures NonNegative([WrappingBlock(a)], a) && !StaysInRange([], WrappingBlock(a), a)
    ensures Stored([], a) == 0 && Stored([WrappingBlock(a)], a) == 0
    ensures Credited(EntryOps(WrappingBlock(a))) == TWO_64 && Debited(EntryOps(WrappingBlock(a))) == 0
  {
    hide Effect, Credited, Debited, Operations, Balance, QuarterTxns;
    QuarterTotals(a, 4);
    BalanceOfOne(WrappingBlock(a), a);
  }

  lemma {:induction false} CreditedOfConcat(x: seq<Operation>, y: seq<Operation>)
    ensures Credited(x + y) == Credited(x) + Credited(y) && Debited(x + y) == Debited(x) + Debited(y)
    ensures |y| == 1 ==> Credited(y) == OpCredit(y[0]) && Debited(y) == OpDebit(y[0])
  {
    if y == [] {
      assert x + y == x;
    } else {
      CreditedOfConcat(x, y[..|y| - 1]);
      assert (x + y)[..|x + y| - 1] == x + y[..|y| - 1];
    }
  }

  /** The balance check of Index read on true balances: it accepts every balance
      in [0, 2^63), refuses every one in [-2^63, 0) and in [2^63, 2^64), and the
      number stored is then the true balance. */
  lemma {:induction false} IndexArithmetic(history: History, a: Address)
    ensures var b := Balance(history, a);
            && (0 <= b < TWO_63 ==> NonNegative(history, a) && ToUint64(b) == b)
            && (-TWO_63 <= b < 0 || TWO_63 <= b < TWO_64 ==> !NonNegative(history, a))
            && (NonNegative(history, a) ==> 0 <= ToUint64(b) < TWO_63 && Congruent(ToUint64(b), b))
  {
  }
}
