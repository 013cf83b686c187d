/** The reconciliation tool: it walks an account's blocks and compares the amounts
    in each answer with the change of the answered balance. */
module Reconciler {
  import opened Prelude
  import opened Model
  import opened IndexSpec
  import opened IndexDb
  import opened Conservation
  import opened Translate
  import opened Ledger
  import opened Conversion
  import opened BlockApi

  datatype Verdict =
    | Matched(inferred: int64)
    | Mismatched
    | Unparsable // strconv.ParseInt fails on an amount of 2^63 or more

  predicate Parses(amount: int) {
    -TWO_63 <= amount < TWO_63
  }

  predicate AllParse(ops: seq<RosettaOp>, a: Address) {
    forall op :: op in ops && op.account == a && op.amount.Some? ==> Parses(op.amount.value)
  }

  /** Every amount of account a in the answer parses. */
  ghost predicate AnswerParses(txns: seq<IndexedTransaction>, a: Address) {
    forall x :: x in txns ==> AllParse(ConvertedAll(x.operations), a)
  }

  /** The inner loop over a transaction's operations, in int64 arithmetic. */
  method AddAmounts(ops: seq<RosettaOp>, a: Address, inferred: int64) returns (ok: bool, inferred': int64)
    ensures ok <==> AllParse(ops, a)
    ensures ok ==> inferred' == ToInt64(inferred + SignedTotal(ops, a))
  {
    hide SignedTotal, ToInt64, Congruent, AllParse;
    NothingAdded(a, inferred);
    assert ops[..0] == [];
    ok, inferred' := true, inferred;
    for i := 0 to |ops|
      invariant AllParse(ops[..i], a)
      invariant inferred' == ToInt64(inferred + SignedTotal(ops[..i], a))
    {
      AmountsOneMore(ops, i, a);
      if ops[i].account != a || ops[i].amount.None? {
        continue;
      }
      if !Parses(ops[i].amount.value) {
        return false, inferred';
      }
      WrappedStep(inferred + SignedTotal(ops[..i], a), ops[i].amount.value);
      inferred' := ToInt64(inferred' + ops[i].amount.value);
    }
    assert ops[..|ops|] == ops;
  }

  lemma {:induction false} NothingAdded(a: Address, inferred: int64)
    ensures AllParse([], a) && ToInt64(inferred + SignedTotal([], a)) == inferred
  {
  }

  lemma {:induction false} AmountsOneMore(ops: seq<RosettaOp>, i: nat, a: Address)
    requires i < |ops|
    ensures var counts := ops[i].account == a && ops[i].amount.Some?;
            && SignedTotal(ops[..i + 1], a) == SignedTotal(ops[..i], a) + (if counts then ops[i].amount.value else 0)
            && (AllParse(ops[..i + 1], a) <==> AllParse(ops[..i], a) && (counts ==> Parses(ops[i].amount.value)))
            && (counts && !Parses(ops[i].amount.value) ==> !AllParse(ops, a))
  {
    assert ops[..i + 1][..i] == ops[..i] && ops[..i + 1] == ops[..i] + [ops[i]];
    assert ops[i] in ops && ops[i] in ops[..i + 1];
  }

  lemma {:induction false} WrappedStep(x: int, y: int)
    ensures ToInt64(ToInt64(x) + y) == ToInt64(x + y)
  {
    CongruentSum(ToInt64(x), y, x, y);
    CongruentIsEqual(ToInt64(x) + y, x + y);
  }

  /** The loop over an answer's transactions. */
  method AddAnswer(txns: seq<IndexedTransaction>, a: Address, inferred: int64) returns (ok: bool, inferred': int64)
    ensures ok <==> AnswerParses(txns, a)
    ensures ok ==> inferred' == ToInt64(inferred + AnswerTotal(txns, a))
  {
    hide ConvertedAll, SignedTotal, ToInt64, Congruent, AnswerTotal, AnswerParses, AllParse;
    EmptyAnswer(a, inferred);
    ok, inferred' := true, inferred;
    assert txns[..0] == [];
    for i := 0 to |txns|
      invariant AnswerParses(txns[..i], a)
      invariant inferred' == ToInt64(inferred + AnswerTotal(txns[..i], a))
    {
      AnswerOneMore(txns, i, a);
      var ops := ConvertTransaction(txns[i].operations);
      WrappedStep(inferred + AnswerTotal(txns[..i], a), SignedTotal(ops, a));
      ok, inferred' := AddAmounts(ops, a, inferred');
      if !ok {
        return;
      }
    }
    assert txns[..|txns|] == txns;
  }

  lemma {:induction false} EmptyAnswer(a: Address, inferred: int64)
    ensures AnswerParses([], a) && ToInt64(inferred + AnswerTotal([], a)) == inferred
  {
  }

  lemma {:induction false} AnswerOneMore(txns: seq<IndexedTransaction>, i: nat, a: Address)
    requires i < |txns|
    ensures AnswerTotal(txns[..i + 1], a) == AnswerTotal(txns[..i], a) +
            SignedTotal(ConvertedAll(txns[i].operations), a)
    ensures AnswerParses(txns[..i + 1], a) <==>
              AnswerParses(txns[..i], a) && AllParse(ConvertedAll(txns[i].operations), a)
    ensures !AllParse(ConvertedAll(txns[i].operations), a) ==> !AnswerParses(txns, a)
  {
    hide ConvertedAll, SignedTotal, AllParse;
    assert txns[..i + 1][..i] == txns[..i] && txns[..i + 1] == txns[..i] + [txns[i]];
    assert txns[i] in txns && txns[i] in txns[..i + 1];
  }

  /** One round of the tool at an indexed height above genesis. It gives up exactly if
      an answered amount or the balance is 2^63 or more, and otherwise complains
      exactly if the operations that deduplication dropped change the balance, modulo
      2^64: a wrapped balance does not disturb it. */
  method Reconcile(store: Store, a: Address, height: uint64, inferred: int64)
    returns (verdict: Verdict, ghost unique: seq<IndexedTransaction>, ghost dropped: seq<Operation>)
    requires store.Valid() && store.genesis.Some? && Above(store.root, store.history, height)
    requires FeesHaveNoReceiver(EntryOps(EntryAt(store.root, store.history, height)))
    requires inferred == ToInt64(BalanceAt(store.root, store.history, a, height - 1))
    ensures var txns := EntryAt(store.root, store.history, height).block.transactions;
            && Deduplicates(txns, unique) && Accounts(txns, unique, dropped)
            && (dropped == [] <==> OneWithOperations(txns))
    ensures verdict == Unparsable <==>
            !AnswerParses(unique, a) || !Parses(ToUint64(BalanceAt(store.root, store.history, a, height)))
    ensures verdict == Mismatched <==> verdict != Unparsable && !Congruent(Effect(dropped, a), 0)
    ensures verdict == Mismatched ==> !OneWithOperations(EntryAt(store.root, store.history, height).block.transactions)
    ensures verdict.Matched? ==> verdict.inferred == ToInt64(BalanceAt(store.root, store.history, a, height))
  {
    hide Store.Valid, BalanceAt, Effect, AnswerParses, FeesHaveNoReceiver, Accounts, Deduplicates, ToInt64;
    hide OneWithOperations, Congruent, AnswerTotal;
    var block := store.BlockByHeight(height);
    var kept, lost := Deduplicate(block.value.block.transactions);
    unique, dropped := kept, lost;
    NoEffect(a);
    var ok, inferred' := AddAnswer(kept, a, inferred);
    if !ok {
      return Unparsable, kept, lost;
    }
    var data := store.BalanceByHeight(a, height);
    if !Parses(data.value.balance) {
      return Unparsable, kept, lost;
    }
    ToolAgrees(store.root, store.history, height, unique, dropped, a);
    verdict := if inferred' == data.value.balance then Matched(inferred') else Mismatched;
  }

  lemma {:induction false} NoEffect(a: Address)
    ensures Congruent(Effect([], a), 0)
  {
  }

  /** Wrapped as the tool wraps it, the comparison succeeds exactly if what was
      dropped leaves the account as it was, modulo 2^64. */
  lemma {:induction false} ToolAgrees(root: BlockMeta, history: History, h: int,
                                      unique: seq<IndexedTransaction>, dropped: seq<Operation>, a: Address)
    requires Above(root, history, h)
    requires var txns := EntryAt(root, history, h).block.transactions;
             Accounts(txns, unique, dropped) && FeesHaveNoReceiver(Operations(txns))
    ensures var before, now := BalanceAt(root, history, a, h - 1), BalanceAt(root, history, a, h);
            ToInt64(ToInt64(before) + AnswerTotal(unique, a)) == ToInt64(now) <==> Congruent(Effect(dropped, a), 0)
    ensures var now := BalanceAt(root, history, a, h);
            Parses(ToUint64(now)) ==> ToInt64(now) == ToUint64(now)
  {
    hide AnswerTotal, BalanceAt, Effect, Operations, Accounts, FeesHaveNoReceiver, SmallAmounts;
    var before, now := BalanceAt(root, history, a, h - 1), BalanceAt(root, history, a, h);
    var txns := EntryAt(root, history, h).block.transactions;
    BalanceMoves(root, history, h, a);
    AnswerReconciles(txns, unique, dropped, a);
    WrappedStep(before, AnswerTotal(unique, a));
    WrappedCompare(before, now, AnswerTotal(unique, a), Effect(dropped, a));
  }

  lemma {:induction false} WrappedCompare(before: int, now: int, total: int, lost: int)
    requires Congruent(total + lost, now - before)
    ensures ToInt64(before + total) == ToInt64(now) <==> Congruent(lost, 0)
  {
    hide Congruent, ToInt64;
    CongruentReflexive(before);
    CongruentSum(total + lost, before, now - before, before);
    var sum := before + total;
    assert Congruent(sum + lost, now) by {
      assert total + lost + before == sum + lost && now - before + before == now;
    }
    SameInt64(sum, now);
    CongruentReflexive(sum);
    CongruentReflexive(lost);
    if Congruent(lost, 0) {
      CongruentSum(sum, lost, sum, 0);
      assert Congruent(sum + lost, sum);
      CongruentSymmetric(sum + lost, sum);
      CongruentTransitive(sum, sum + lost, now);
    }
    if Congruent(sum, now) {
      CongruentSum(sum + lost, sum, now, now);
      assert sum + lost - sum == lost && now - now == 0;
    }
  }

  lemma {:induction false} CongruentReflexive(x: int)
    ensures Congruent(x, x)
  {
  }

  lemma {:induction false} CongruentSymmetric(x: int, y: int)
    requires Congruent(x, y)
    ensures Congruent(y, x)
  {
  }

  lemma {:induction false} SameInt64(x: int, y: int)
    ensures ToInt64(x) == ToInt64(y) <==> Congruent(x, y)
  {
    if Congruent(x, y) {
      CongruentIsEqual(x, y);
    }
  }

  // ---- A failing input for exact totals ----

  /** On a fresh account, the wrapping block is answered with credits of 2^64 in
      all, every one below 2^63, while the answered balance stays at 0. */
  lemma {:induction false} WrappingAnswer(root: BlockMeta, a: Address)
    ensures var e := WrappingBlock(a);
            && SmallAmounts(EntryOps(e)) && OneWithOperations(e.block.transactions)
            && AnswerTotal(e.block.transactions, a) == TWO_64
            && ToUint64(BalanceAt(root, [e], a, root.height)) == 0
            && ToUint64(BalanceAt(root, [e], a, root.height + 1)) == 0
  {
    hide Effect, Operations, AnswerTotal, QuarterTxns, Balance, Credited, Debited, OneWithOperations;
    var e := WrappingBlock(a);
    QuarterTotals(a, 4);
    OnlyQuarters(a, 4);
    QuarterHashes(a, 4);
    AnswerCarriesEffect(e.block.transactions, a);
    BalanceOfOne(e, a);
  }

  lemma {:induction false} QuarterHashes(a: Address, n: nat)
    requires n <= 4
    ensures var txns := QuarterTxns(a, n);
            |txns| == n && forall i :: 0 <= i < n ==> txns[i] == IndexedTransaction([i + 1], [QuarterCredit(a)], false)
    ensures OneWithOperations(QuarterTxns(a, n))
  {
    if n > 0 {
      QuarterHashes(a, n - 1);
    }
  }

  /** The deposit events behind it; the account is a followed originator. */
  function QuarterChain(a: Address): Chain {
    [ChainBlock([], 0, seq(4, i requires 0 <= i < 4 => QuarterTxn(a, i)))]
  }

  function QuarterTxn(a: Address, i: nat): ChainTxn
    requires i < 4
  {
    ChainTxn([i + 1], a, [TokensDeposited(0x4000_0000_0000_0000, Some(a))], false)
  }

  lemma {:induction false} QuarterPasses(a: Address, t: Tracker, d: Event)
    requires t == Tracker(map[], {a}, {}) && d == TokensDeposited(0x4000_0000_0000_0000, Some(a))
    ensures First(t, a, [d], map[]) == FirstPass(true, map[], [], map[], map[], [])
    ensures Second(t, map[], [d]) == SecondPass(map[a := 0x4000_0000_0000_0000], map[], 0)
  {
    assert [d][..0] == [];
  }

  lemma {:induction false} QuarterTranslates(a: Address)
    ensures var t, events := Tracker(map[], {a}, {}), [TokensDeposited(0x4000_0000_0000_0000, Some(a))];
            Translates(t, a, events, map[], [QuarterCredit(a)]) && First(t, a, events, map[]).news == map[]
  {
    hide First, Second, IsTail;
    var t, d := Tracker(map[], {a}, {}), TokensDeposited(0x4000_0000_0000_0000, Some(a));
    QuarterPasses(a, t, d);
    var rem: Amounts := map[a := 0x4000_0000_0000_0000];
    var n := Net(t, a, [d], map[]);
    assert n == Netting(true, [], rem, map[], map[]);
    assert Positive(rem) + Positive(map[]) == rem && Positive(map[]) == map[];
    QuarterTail(a, rem);
    assert [QuarterCredit(a)][|n.ops|..] == [QuarterCredit(a)];
  }

  lemma {:induction false} QuarterTail(a: Address, rem: Amounts)
    requires rem == map[a := 0x4000_0000_0000_0000]
    ensures IsTail([QuarterCredit(a)], rem, map[])
  {
    var d, w: seq<Address> := [a], [];
    assert IsOrder(d, rem) && IsOrder(w, map[]);
    assert d[..0] == [] && DepositOps(d, rem) == [QuarterCredit(a)];
    assert [QuarterCredit(a)] == DepositOps(d, rem) + WithdrawalOps(w, map[]);
  }

  lemma {:induction false} QuarterNews(a: Address, n: nat)
    requires n <= 4
    ensures NewsAfter(Tracker(map[], {a}, {}), QuarterChain(a)[0].txns[..n]) == map[]
  {
    if n > 0 {
      hide First;
      var txns := QuarterChain(a)[0].txns;
      QuarterNews(a, n - 1);
      QuarterTranslates(a);
      assert txns[..n][..n - 1] == txns[..n - 1] && txns[..n][n - 1] == QuarterTxn(a, n - 1);
    }
  }

  /** The wrapping block is what the indexer makes of those events. */
  lemma {:induction false} WrappingIsIndexed(a: Address)
    ensures Indexes(Config({a}, {}), QuarterChain(a), [WrappingBlock(a)])
  {
    hide QuarterTxns, Translates, NewsAfter, First;
    var cfg, chain, e := Config({a}, {}), QuarterChain(a), WrappingBlock(a);
    QuarterHashes(a, 4);
    QuarterTranslates(a);
    assert chain[..0] == [] && AcctsAfter(cfg, []) == map[];
    forall k | 0 <= k < 4 ensures TxnTranslates(TrackerOf(cfg, map[]), chain[0].txns, k, e.block.transactions[k]) {
      QuarterNews(a, k);
      assert chain[0].txns[k] == QuarterTxn(a, k);
    }
  }
}
