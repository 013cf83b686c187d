/** The /block endpoint: deduplication, conversion to Rosetta operations, and
    reconciliation of its answer with the indexed balances. */
module BlockApi {
  import opened Prelude
  import opened Bytes
  import opened Model
  import opened IndexSpec
  import opened IndexDb
  import opened Translate
  import opened Ledger
  import opened Restart
  import opened Conversion
  import Signatures

  // ---- Deduplication ----

  /** The transaction that stands for a hash: the last one with operations, or
      the first one if none has any. */
  function Chosen(txns: seq<IndexedTransaction>, hash: ByteString): Option<IndexedTransaction> {
    if txns == [] then None
    else
      var earlier, x := Chosen(txns[..|txns| - 1], hash), txns[|txns| - 1];
      if x.hash == hash && (earlier.None? || x.operations != []) then Some(x) else earlier
  }

  /** No two transactions with one hash both have operations. */
  ghost predicate OneWithOperations(txns: seq<IndexedTransaction>) {
    forall i, j :: 0 <= i < j < |txns| && txns[i].hash == txns[j].hash ==>
      txns[i].operations == [] || txns[j].operations == []
  }

  /** The first transaction with one hash comes before any with the other. */
  ghost predicate Before(txns: seq<IndexedTransaction>, hash: ByteString, later: ByteString) {
    exists k :: 0 <= k < |txns| && txns[k].hash == hash && forall m :: 0 <= m <= k ==> txns[m].hash != later
  }

  /** The k-th transaction stands for its hash: it is the last with operations, or
      none has any and it is the first. */
  ghost predicate StandsAt(txns: seq<IndexedTransaction>, k: nat)
    requires k < |txns|
  {
    forall m :: 0 <= m < |txns| && m != k && txns[m].hash == txns[k].hash ==>
      if txns[k].operations != [] then m > k ==> txns[m].operations == []
      else m > k && txns[m].operations == []
  }

  /** One transaction per hash, each the chosen one, in order of first occurrence. */
  ghost predicate Deduplicates(txns: seq<IndexedTransaction>, unique: seq<IndexedTransaction>) {
    && (forall i, j :: 0 <= i < j < |unique| ==> unique[i].hash != unique[j].hash)
    && (forall i, j :: 0 <= i < j < |unique| ==> Before(txns, unique[i].hash, unique[j].hash))
    && (forall i :: 0 <= i < |unique| ==> Chosen(txns, unique[i].hash) == Some(unique[i]))
    && (forall x :: x in txns ==> exists i :: 0 <= i < |unique| && unique[i].hash == x.hash)
  }

  /** Operations kept and operations lost add up to those of the block. */
  ghost predicate Accounts(txns: seq<IndexedTransaction>, unique: seq<IndexedTransaction>, dropped: seq<Operation>) {
    && multiset(Operations(unique)) + multiset(dropped) == multiset(Operations(txns))
    && forall a: Address :: Effect(Operations(unique), a) + Effect(dropped, a) == Effect(Operations(txns), a)
  }

  lemma {:induction false} ReplaceOperations(txns: seq<IndexedTransaction>, i: nat, x: IndexedTransaction)
    requires i < |txns|
    ensures multiset(Operations(txns[i := x])) + multiset(txns[i].operations) ==
            multiset(Operations(txns)) + multiset(x.operations)
  {
    hide Operations;
    var n := |txns| - 1;
    var before, last := txns[..n], txns[n];
    assert txns == before + [last];
    LastOperations(before, last);
    if i == n {
      assert txns[i := x] == before + [x];
      LastOperations(before, x);
    } else {
      ReplaceOperations(before, i, x);
      assert txns[i := x] == before[i := x] + [last];
      LastOperations(before[i := x], last);
      SwapSummands(multiset(Operations(before[i := x])), multiset(last.operations), multiset(txns[i].operations),
                   multiset(Operations(before)), multiset(x.operations));
    }
  }

  lemma {:induction false} LastOperations(before: seq<IndexedTransaction>, last: IndexedTransaction)
    ensures multiset(Operations(before + [last])) == multiset(Operations(before)) + multiset(last.operations)
  {
    assert (before + [last])[..|before|] == before;
  }

  lemma {:induction false} SwapSummands<T>(
      a: multiset<T>, l: multiset<T>, i: multiset<T>, b: multiset<T>, x: multiset<T>)
    requires a + i == b + x
    ensures (a + l) + i == (b + l) + x
  {
    assert (a + l) + i == (a + i) + l;
    assert (b + l) + x == (b + x) + l;
  }

  lemma {:induction false} ReplaceEffect(txns: seq<IndexedTransaction>, i: nat, x: IndexedTransaction, a: Address)
    requires i < |txns|
    ensures Effect(Operations(txns[i := x]), a) + Effect(txns[i].operations, a) ==
            Effect(Operations(txns), a) + Effect(x.operations, a)
  {
    var n := |txns| - 1;
    var before, last := txns[..n], txns[n];
    EffectOfConcat(Operations(before), last.operations, a);
    if i == n {
      assert txns[i := x][..n] == before;
      EffectOfConcat(Operations(before), x.operations, a);
    } else {
      ReplaceEffect(before, i, x, a);
      assert txns[i := x][..n] == before[i := x];
      EffectOfConcat(Operations(before[i := x]), last.operations, a);
    }
  }

  lemma {:induction false} AppendOperations(txns: seq<IndexedTransaction>, x: IndexedTransaction)
    ensures Operations(txns + [x]) == Operations(txns) + x.operations
    ensures forall a: Address ::
              Effect(Operations(txns + [x]), a) == Effect(Operations(txns), a) + Effect(x.operations, a)
  {
    assert (txns + [x])[..|txns|] == txns;
    forall a: Address ensures Effect(Operations(txns + [x]), a) ==
        Effect(Operations(txns), a) + Effect(x.operations, a) {
      EffectOfConcat(Operations(txns), x.operations, a);
    }
  }

  /** A chosen transaction has operations exactly if some transaction with its hash does. */
  lemma {:induction false} ChosenHasOperations(txns: seq<IndexedTransaction>, hash: ByteString)
    ensures Chosen(txns, hash).Some? <==> exists i :: 0 <= i < |txns| && txns[i].hash == hash
    ensures Chosen(txns, hash).Some? ==> Chosen(txns, hash).value in txns && Chosen(txns, hash).value.hash == hash
    ensures Chosen(txns, hash).Some? && Chosen(txns, hash).value.operations == [] ==>
              forall i :: 0 <= i < |txns| && txns[i].hash == hash ==> txns[i].operations == []
  {
    if txns != [] {
      var n := |txns| - 1;
      ChosenHasOperations(txns[..n], hash);
      if txns[n].hash == hash {
        assert 0 <= n < |txns| && txns[n].hash == hash;
      }
    }
  }

  lemma {:induction false} OneMoreTransaction(txns: seq<IndexedTransaction>, x: IndexedTransaction)
    ensures OneWithOperations(txns + [x]) <==>
            OneWithOperations(txns) &&
            (x.operations == [] || forall i :: 0 <= i < |txns| && txns[i].hash == x.hash ==> txns[i].operations == [])
  {
    var longer := txns + [x];
    assert forall i :: 0 <= i < |txns| ==> longer[i] == txns[i];
    if OneWithOperations(longer) {
      forall i, j | 0 <= i < j < |txns| && txns[i].hash == txns[j].hash
        ensures txns[i].operations == [] || txns[j].operations == []
      {
        assert longer[i].hash == longer[j].hash;
      }
      forall i | 0 <= i < |txns| && txns[i].hash == x.hash ensures x.operations == [] || txns[i].operations == [] {
        assert longer[i].hash == longer[|txns|].hash;
      }
    }
  }

  lemma {:induction false} ChosenStands(txns: seq<IndexedTransaction>, hash: ByteString)
    requires Chosen(txns, hash).Some?
    ensures exists k :: 0 <= k < |txns| && txns[k] == Chosen(txns, hash).value && StandsAt(txns, k)
  {
    var n := |txns| - 1;
    var before, x := txns[..n], txns[n];
    ChosenHasOperations(before, hash);
    if x.hash == hash && (Chosen(before, hash).None? || x.operations != []) {
      assert StandsAt(txns, n);
    } else {
      ChosenStands(before, hash);
      var k :| 0 <= k < |before| && before[k] == Chosen(before, hash).value && StandsAt(before, k);
      assert txns[k] == before[k] && forall m :: 0 <= m < n ==> txns[m] == before[m];
      assert StandsAt(txns, k);
    }
  }

  /** Choices after one more transaction. */
  lemma {:induction false} ChosenOneMore(txns: seq<IndexedTransaction>, x: IndexedTransaction, hash: ByteString)
    ensures var earlier := Chosen(txns, hash);
            Chosen(txns + [x], hash) ==
            if x.hash == hash && (earlier.None? || x.operations != []) then Some(x) else earlier
  {
    assert (txns + [x])[..|txns|] == txns;
  }

  // ---- One iteration of the loop ----

  lemma {:induction false} AccountsReplace(
      txns: seq<IndexedTransaction>, unique: seq<IndexedTransaction>, dropped: seq<Operation>, i: nat,
      x: IndexedTransaction)
    requires Accounts(txns, unique, dropped) && i < |unique|
    ensures Accounts(txns + [x], unique[i := x], dropped + unique[i].operations)
  {
    hide Operations, Effect;
    assert multiset(dropped + unique[i].operations) == multiset(dropped) + multiset(unique[i].operations);
    LastOperations(txns, x);
    ReplaceOperations(unique, i, x);
    Replaced(multiset(Operations(unique)), multiset(Operations(unique[i := x])), multiset(unique[i].operations),
             multiset(x.operations), multiset(dropped));
    AppendOperations(txns, x);
    forall a: Address
      ensures Effect(Operations(unique[i := x]), a) + Effect(dropped + unique[i].operations, a) ==
              Effect(Operations(txns + [x]), a)
    {
      ReplaceEffect(unique, i, x, a);
      EffectOfConcat(dropped, unique[i].operations, a);
    }
  }

  lemma {:induction false} Replaced<T>(
      before: multiset<T>, after: multiset<T>, gone: multiset<T>, added: multiset<T>, dropped: multiset<T>)
    requires after + gone == before + added
    ensures after + (dropped + gone) == (before + dropped) + added
  {
    assert after + (dropped + gone) == (after + gone) + dropped;
    assert (before + dropped) + added == (before + added) + dropped;
  }

  lemma {:induction false} AccountsAppend(
      txns: seq<IndexedTransaction>, unique: seq<IndexedTransaction>, dropped: seq<Operation>, x: IndexedTransaction)
    requires Accounts(txns, unique, dropped)
    ensures Accounts(txns + [x], unique + [x], dropped)
    ensures x.operations == [] ==> Accounts(txns + [x], unique, dropped)
  {
    AppendOperations(txns, x);
    AppendOperations(unique, x);
  }

  lemma {:induction false} StillBefore(
      txns: seq<IndexedTransaction>, x: IndexedTransaction, hash: ByteString, later: ByteString)
    ensures Before(txns, hash, later) ==> Before(txns + [x], hash, later)
    ensures (exists k :: 0 <= k < |txns| && txns[k].hash == hash) && (forall y :: y in txns ==> y.hash != later) ==>
              Before(txns, hash, later)
  {
    if Before(txns, hash, later) {
      var k :| 0 <= k < |txns| && txns[k].hash == hash && forall m :: 0 <= m <= k ==> txns[m].hash != later;
      var longer := txns + [x];
      assert longer[k].hash == hash && forall m :: 0 <= m <= k ==> longer[m] == txns[m];
    }
  }

  lemma {:induction false} BeforeNext(
      txns: seq<IndexedTransaction>, unique: seq<IndexedTransaction>, unique': seq<IndexedTransaction>,
      x: IndexedTransaction, i: nat, j: nat, k: nat)
    requires Deduplicates(txns, unique) && j < k < |unique'| && i <= |unique|
    requires i == |unique| ==> unique' == unique + [x] && forall y :: y in txns ==> y.hash != x.hash
    requires i < |unique| ==> unique[i].hash == x.hash && (unique' == unique || unique' == unique[i := x])
    ensures Before(txns + [x], unique'[j].hash, unique'[k].hash)
  {
    hide Before;
    assert unique'[j].hash == unique[j].hash && (k < |unique| ==> unique'[k].hash == unique[k].hash);
    ChosenHasOperations(txns, unique[j].hash);
    StillBefore(txns, x, unique'[j].hash, unique'[k].hash);
  }

  lemma {:induction false} DeduplicatesNext(
      txns: seq<IndexedTransaction>, unique: seq<IndexedTransaction>, x: IndexedTransaction, i: nat)
    requires Deduplicates(txns, unique)
    requires i <= |unique| && (i < |unique| ==> unique[i].hash == x.hash)
    requires i == |unique| ==> forall j :: 0 <= j < |unique| ==> unique[j].hash != x.hash
    ensures i == |unique| ==> Deduplicates(txns + [x], unique + [x])
    ensures i < |unique| ==> Deduplicates(txns + [x], if x.operations == [] then unique else unique[i := x])
  {
    hide Before, Chosen;
    var unique' := if i == |unique| then unique + [x] else if x.operations == [] then unique else unique[i := x];
    forall y | y in txns ensures i == |unique| ==> y.hash != x.hash {
      var j :| 0 <= j < |unique| && unique[j].hash == y.hash;
    }
    forall j | 0 <= j < |unique'| ensures Chosen(txns + [x], unique'[j].hash) == Some(unique'[j]) {
      ChosenOneMore(txns, x, unique'[j].hash);
      ChosenHasOperations(txns, unique'[j].hash);
    }
    forall j, k | 0 <= j < k < |unique'| ensures Before(txns + [x], unique'[j].hash, unique'[k].hash) {
      BeforeNext(txns, unique, unique', x, i, j, k);
    }
    forall y | y in txns + [x] ensures exists j :: 0 <= j < |unique'| && unique'[j].hash == y.hash {
      if y in txns {
        var j :| 0 <= j < |unique| && unique[j].hash == y.hash;
        assert unique'[j].hash == y.hash;
      } else {
        assert unique'[i].hash == y.hash;
      }
    }
  }

  /** Replacing loses operations exactly if the transaction replaced had some. */
  lemma {:induction false} DroppedNext(
      txns: seq<IndexedTransaction>, unique: seq<IndexedTransaction>, dropped: seq<Operation>, i: nat,
      x: IndexedTransaction)
    requires Deduplicates(txns, unique) && i < |unique| && unique[i].hash == x.hash && x.operations != []
    requires dropped == [] <==> OneWithOperations(txns)
    ensures dropped + unique[i].operations == [] <==> OneWithOperations(txns + [x])
  {
    OneMoreTransaction(txns, x);
    ChosenHasOperations(txns, x.hash);
    if unique[i].operations != [] {
      var k :| 0 <= k < |txns| && txns[k] == unique[i];
    }
  }

  lemma {:induction false} KeptNext(
      txns: seq<IndexedTransaction>, unique: seq<IndexedTransaction>, dropped: seq<Operation>, x: IndexedTransaction)
    requires Deduplicates(txns, unique)
    requires dropped == [] <==> OneWithOperations(txns)
    requires x.operations == [] || forall j :: 0 <= j < |unique| ==> unique[j].hash != x.hash
    ensures dropped == [] <==> OneWithOperations(txns + [x])
  {
    OneMoreTransaction(txns, x);
    if x.operations != [] {
      forall k | 0 <= k < |txns| ensures txns[k].hash != x.hash {
        assert txns[k] in txns;
      }
    }
  }

  /** The `seen` map gives each hash its position. */
  ghost predicate SeenMatches(seen: map<ByteString, nat>, unique: seq<IndexedTransaction>) {
    && (forall h :: h in seen ==> seen[h] < |unique| && unique[seen[h]].hash == h)
    && (forall j :: 0 <= j < |unique| ==> unique[j].hash in seen && seen[unique[j].hash] == j)
  }

  lemma {:induction false} SeenNext(seen: map<ByteString, nat>, unique: seq<IndexedTransaction>, x: IndexedTransaction)
    requires SeenMatches(seen, unique)
    ensures x.hash in seen ==>
              && seen[x.hash] < |unique| && unique[seen[x.hash]].hash == x.hash
              && SeenMatches(seen, unique[seen[x.hash] := x])
    ensures x.hash !in seen ==>
              && SeenMatches(seen[x.hash := |unique|], unique + [x])
              && forall j :: 0 <= j < |unique| ==> unique[j].hash != x.hash
  {
  }

  lemma {:induction false} SeenAtStart()
    ensures SeenMatches(map[], [])
    ensures Progress([], [], [])
  {
  }

  ghost predicate Progress(txns: seq<IndexedTransaction>, unique: seq<IndexedTransaction>, dropped: seq<Operation>) {
    && Deduplicates(txns, unique) && Accounts(txns, unique, dropped)
    && (dropped == [] <==> OneWithOperations(txns))
  }

  lemma {:induction false} ReplaceNext(
      txns: seq<IndexedTransaction>, unique: seq<IndexedTransaction>, dropped: seq<Operation>, i: nat,
      x: IndexedTransaction)
    requires Progress(txns, unique, dropped) && i < |unique| && unique[i].hash == x.hash && x.operations != []
    ensures Progress(txns + [x], unique[i := x], dropped + unique[i].operations)
  {
    hide Deduplicates, Accounts, OneWithOperations;
    DeduplicatesNext(txns, unique, x, i);
    AccountsReplace(txns, unique, dropped, i, x);
    DroppedNext(txns, unique, dropped, i, x);
  }

  lemma {:induction false} SkipNext(
      txns: seq<IndexedTransaction>, unique: seq<IndexedTransaction>, dropped: seq<Operation>, i: nat,
      x: IndexedTransaction)
    requires Progress(txns, unique, dropped) && i < |unique| && unique[i].hash == x.hash && x.operations == []
    ensures Progress(txns + [x], unique, dropped)
  {
    hide Deduplicates, Accounts, OneWithOperations;
    DeduplicatesNext(txns, unique, x, i);
    AccountsAppend(txns, unique, dropped, x);
    KeptNext(txns, unique, dropped, x);
  }

  lemma {:induction false} AppendNext(
      txns: seq<IndexedTransaction>, unique: seq<IndexedTransaction>, dropped: seq<Operation>, x: IndexedTransaction)
    requires Progress(txns, unique, dropped) && forall j :: 0 <= j < |unique| ==> unique[j].hash != x.hash
    ensures Progress(txns + [x], unique + [x], dropped)
  {
    hide Deduplicates, Accounts, OneWithOperations;
    DeduplicatesNext(txns, unique, x, |unique|);
    AccountsAppend(txns, unique, dropped, x);
    KeptNext(txns, unique, dropped, x);
  }

  /** getBlock's loop. What it drops is empty exactly if no hash has two
      transactions with operations. */
  method Deduplicate(
      txns: seq<IndexedTransaction>) returns (unique: seq<IndexedTransaction>, ghost dropped: seq<Operation>)
    ensures Deduplicates(txns, unique)
    ensures Accounts(txns, unique, dropped)
    ensures dropped == [] <==> OneWithOperations(txns)
    ensures forall i :: 0 <= i < |unique| ==>
              exists k :: 0 <= k < |txns| && txns[k] == unique[i] && StandsAt(txns, k)
  {
    hide Progress, SeenMatches;
    SeenAtStart();
    assert txns[..0] == [];
    var seen: map<ByteString, nat> := map[];
    unique, dropped := [], [];
    for i := 0 to |txns|
      invariant SeenMatches(seen, unique)
      invariant Progress(txns[..i], unique, dropped)
    {
      var x := txns[i];
      assert txns[..i + 1] == txns[..i] + [x];
      SeenNext(seen, unique, x);
      if x.hash in seen {
        var idx := seen[x.hash];
        if |x.operations| > 0 {
          ReplaceNext(txns[..i], unique, dropped, idx, x);
          dropped := dropped + unique[idx].operations;
          unique := unique[idx := x];
        } else {
          SkipNext(txns[..i], unique, dropped, idx, x);
        }
      } else {
        AppendNext(txns[..i], unique, dropped, x);
        seen := seen[x.hash := |unique|];
        unique := unique + [x];
      }
    }
    assert txns[..|txns|] == txns;
    Completed(txns, unique, dropped);
    forall i | 0 <= i < |unique| ensures exists k :: 0 <= k < |txns| && txns[k] == unique[i] && StandsAt(txns, k) {
      ChosenStands(txns, unique[i].hash);
    }
  }

  lemma {:induction false} Completed(
      txns: seq<IndexedTransaction>, unique: seq<IndexedTransaction>, dropped: seq<Operation>)
    requires Progress(txns, unique, dropped)
    ensures Deduplicates(txns, unique) && Accounts(txns, unique, dropped)
    ensures dropped == [] <==> OneWithOperations(txns)
  {
  }

  // ---- Reconciliation ----

  /** The signed total over all transactions of a /block answer. */
  function AnswerTotal(txns: seq<IndexedTransaction>, a: Address): int {
    if txns == [] then 0
    else AnswerTotal(txns[..|txns| - 1], a) + SignedTotal(ConvertedAll(txns[|txns| - 1].operations), a)
  }

  lemma {:induction false} AnswerCarriesEffect(txns: seq<IndexedTransaction>, a: Address)
    requires FeesHaveNoReceiver(Operations(txns))
    ensures Congruent(AnswerTotal(txns, a), Effect(Operations(txns), a))
    ensures SmallAmounts(Operations(txns)) ==> AnswerTotal(txns, a) == Effect(Operations(txns), a)
  {
    if txns != [] {
      var before, x := txns[..|txns| - 1], txns[|txns| - 1];
      AnswerCarriesEffect(before, a);
      ConversionKeepsEffect(x.operations, a);
      EffectOfConcat(Operations(before), x.operations, a);
      CongruentTotals(AnswerTotal(before, a), SignedTotal(ConvertedAll(x.operations), a), AnswerTotal(txns, a),
                      Effect(Operations(before), a), Effect(x.operations, a), Effect(Operations(txns), a));
    }
  }

  /** Reconciliation: whatever deduplication dropped, the amounts in the /block
      answer for a height and the dropped operations carry the change of the
      answered balance; and if nothing was dropped, the amounts are exactly that
      change if and only if they keep the balance in the uint64 range. */
  lemma {:induction false} Reconciliation(root: BlockMeta, history: History, h: int,
                                          unique: seq<IndexedTransaction>, dropped: seq<Operation>, a: Address)
    requires Above(root, history, h)
    requires var txns := EntryAt(root, history, h).block.transactions;
             Accounts(txns, unique, dropped) && FeesHaveNoReceiver(Operations(txns))
    ensures var before, now := ToUint64(BalanceAt(root, history, a, h - 1)), ToUint64(BalanceAt(root, history, a, h));
            && Congruent(AnswerTotal(unique, a) + Effect(dropped, a), now - before)
            && (dropped == [] ==> (AnswerTotal(unique, a) == now - before <==>
                                   0 <= before + AnswerTotal(unique, a) < TWO_64))
  {
    hide AnswerTotal, BalanceAt, Effect, Operations, Accounts, FeesHaveNoReceiver, Congruent, ToUint64, SmallAmounts;
    var txns := EntryAt(root, history, h).block.transactions;
    BalanceMoves(root, history, h, a);
    AnswerReconciles(txns, unique, dropped, a);
    if dropped == [] {
      NoOperations(a);
    }
    AnsweredChange(BalanceAt(root, history, a, h - 1), BalanceAt(root, history, a, h), AnswerTotal(unique, a) +
                   Effect(dropped, a));
  }

  lemma {:induction false} NoOperations(a: Address)
    ensures Effect([], a) == 0
  {
  }

  lemma {:induction false} AnsweredChange(before: int, now: int, change: int)
    requires Congruent(change, now - before)
    ensures Congruent(change, ToUint64(now) - ToUint64(before))
    ensures change == ToUint64(now) - ToUint64(before) <==> 0 <= ToUint64(before) + change < TWO_64
  {
    CongruentSum(ToUint64(now), ToUint64(before), now, before);
    CongruentTransitive(change, now - before, ToUint64(now) - ToUint64(before));
    CongruentSum(change, ToUint64(before), ToUint64(now) - ToUint64(before), ToUint64(before));
    CongruentIsEqual(change + ToUint64(before), ToUint64(now));
  }

  /** Amounts below 2^63 are answered with their true sign, so the total is the
      true effect of the operations kept. */
  lemma {:induction false} AnswerReconciles(txns: seq<IndexedTransaction>, unique: seq<IndexedTransaction>,
                                            dropped: seq<Operation>, a: Address)
    requires Accounts(txns, unique, dropped) && FeesHaveNoReceiver(Operations(txns))
    ensures Congruent(AnswerTotal(unique, a) + Effect(dropped, a), Effect(Operations(txns), a))
    ensures SmallAmounts(Operations(txns)) ==>
              AnswerTotal(unique, a) + Effect(dropped, a) == Effect(Operations(txns), a)
  {
    hide AnswerTotal, Effect, Operations, Congruent;
    SameOperations(txns, unique, dropped);
    AnswerCarriesEffect(unique, a);
    CongruentTotals(AnswerTotal(unique, a), Effect(dropped, a), AnswerTotal(unique, a) + Effect(dropped, a),
                    Effect(Operations(unique), a), Effect(dropped, a), Effect(Operations(txns), a));
  }

  lemma {:induction false} BalanceMoves(root: BlockMeta, history: History, h: int, a: Address)
    requires Above(root, history, h)
    ensures BalanceAt(root, history, a, h) - BalanceAt(root, history, a, h - 1) ==
            Effect(Operations(EntryAt(root, history, h).block.transactions), a)
  {
    var now, before := UpTo(root, history, h), UpTo(root, history, h - 1);
    assert now[..|now| - 1] == before && now[|now| - 1] == EntryAt(root, history, h);
  }

  // ---- Translated fees have no receiver ----

  lemma {:induction false} MatchedFees(t: Tracker, news: map<Address, bool>, n: Netting, moves: seq<ProxyMove>)
    requires FeesHaveNoReceiver(n.ops)
    ensures FeesHaveNoReceiver(MatchMoves(t, news, n, moves).ops)
  {
    if moves != [] {
      MatchedFees(t, news, n, moves[..|moves| - 1]);
    }
  }

  lemma {:induction false} RemainingFees(order: seq<Address>, rem: Amounts)
    ensures FeesHaveNoReceiver(DepositOps(order, rem)) && FeesHaveNoReceiver(WithdrawalOps(order, rem))
  {
    if order != [] {
      RemainingFees(order[..|order| - 1], rem);
    }
  }

  lemma {:induction false} TranslatedFees(
      t: Tracker, payer: Address, events: seq<Event>, news: map<Address, bool>, ops: seq<Operation>)
    requires Translates(t, payer, events, news, ops)
    ensures FeesHaveNoReceiver(ops)
  {
    hide First, Second, CreateOps, MatchMoves, IsTail;
    var first := First(t, payer, events, news);
    var second := Second(t, first.news, events);
    var creates := CreateOps(first.keys, first.addrs);
    forall op | op in creates ensures op.CreateAccount? {
      CreateOpsAre(first.keys, first.addrs, op);
    }
    var n0 := Netting(first.ok, creates, second.deposits, first.proxyDeposits, second.withdrawals);
    MatchedFees(t, first.news, ChargeFee(t, payer, first.news, second.fees, n0), first.moves);
    var n := Net(t, payer, events, news);
    TailFees(ops[|n.ops|..], Positive(n.deposits) + Positive(n.proxyDeposits), Positive(n.withdrawals));
    assert ops == n.ops + ops[|n.ops|..];
  }

  lemma {:induction false} TailFees(tail: seq<Operation>, remDeposits: Amounts, remWithdrawals: Amounts)
    requires IsTail(tail, remDeposits, remWithdrawals)
    ensures FeesHaveNoReceiver(tail)
  {
    if !OneToOne(remDeposits, remWithdrawals) {
      var d, w :| IsOrder(d, remDeposits) && IsOrder(w, remWithdrawals) &&
        tail == DepositOps(d, remDeposits) + WithdrawalOps(w, remWithdrawals);
      RemainingFees(d, remDeposits);
      RemainingFees(w, remWithdrawals);
    }
  }

  /** In every index of a chain, fee operations have no receiver. */
  lemma {:induction false} IndexedFees(cfg: Config, chain: Chain, history: History, n: nat)
    requires Indexes(cfg, chain, history) && n < |history|
    ensures FeesHaveNoReceiver(EntryOps(history[n]))
  {
    hide Translates;
    assert EntryMatches(cfg, chain, n, history[n]);
    var indexed := history[n].block.transactions;
    forall op | op in Operations(indexed) && op.Move? && op.kind == Fee ensures op.receiver.None? {
      OperationsOf(indexed, op);
      var k :| 0 <= k < |indexed| && op in indexed[k].operations;
      var t := TrackerOf(cfg, AcctsAfter(cfg, chain[..n]));
      assert TxnTranslates(t, chain[n].txns, k, indexed[k]);
      TranslatedFees(t, chain[n].txns[k].payer, chain[n].txns[k].events, NewsAfter(t, chain[n].txns[..k]),
                     indexed[k].operations);
    }
  }

  lemma {:induction false} SameOperations(
      txns: seq<IndexedTransaction>, unique: seq<IndexedTransaction>, dropped: seq<Operation>)
    requires Accounts(txns, unique, dropped)
    ensures FeesHaveNoReceiver(Operations(txns)) ==> FeesHaveNoReceiver(Operations(unique))
    ensures SmallAmounts(Operations(txns)) ==> SmallAmounts(Operations(unique))
  {
    hide Operations, Effect;
    forall op | op in Operations(unique) ensures op in Operations(txns) {
      assert op in multiset(Operations(unique));
      assert op in multiset(Operations(unique)) + multiset(dropped);
      assert op in multiset(Operations(txns));
    }
  }

  // ---- The lookup ----

  datatype BlockError = InvalidIdentifier | InvalidIndex | InvalidHash | NotIndexed

  datatype BlockAnswer = Answer(data: BlockData) | Refused(error: BlockError)

  /** The hash that a request's text stands for: 64 hexadecimal digits. */
  function HashOfText(text: string): Option<ByteString> {
    if |text| != 64 then None else Signatures.DecodeHex(text)
  }

  /** getBlockData: by index first, then by hash; genesis is answered from memory. */
  method GetBlockData(
      store: Store, genesis: BlockMeta, index: Option<int64>, hash: Option<string>) returns (answer: BlockAnswer)
    requires store.Valid() && store.genesis.Some? && genesis == store.root
    requires genesis.height < TWO_63
    ensures index.Some? ==>
              answer == if index.value < genesis.height then Refused(InvalidIndex)
                        else if index.value > genesis.height + |store.history| then Refused(NotIndexed)
                        else Answer(DataOf(store.root, store.history, index.value))
    ensures index.None? && hash.None? ==> answer == Refused(InvalidIdentifier)
    ensures answer.Answer? ==>
              var h, parentHeight := answer.data.height, answer.data.parentHeight;
              && genesis.height <= h <= genesis.height + |store.history|
              && parentHeight == (if h == genesis.height then h else h - 1)
              && answer.data.hash == HashOf(store.root, store.history, h)
              && answer.data.parentHash == HashOf(store.root, store.history, parentHeight)
    ensures index.None? && hash.Some? ==> (answer == Refused(InvalidHash) <==> HashOfText(hash.value).None?)
    ensures index.None? && hash.Some? && HashOfText(hash.value).Some? && DistinctHashes(store.root, store.history) ==>
              var asked := HashOfText(hash.value).value;
              match answer
              case Answer(data) =>
                && genesis.height <= data.height <= genesis.height + |store.history|
                && data == DataOf(store.root, store.history, data.height) && data.hash == asked
              case Refused(error) =>
                error == NotIndexed &&
                forall h :: genesis.height <= h <= genesis.height + |store.history| ==>
                    HashOf(store.root, store.history, h) != asked
  {
    var genesisBlock := BlockData(IndexedBlock(genesis.timestamp, []), genesis.hash, genesis.height, genesis.hash,
                                  genesis.height);
    if index.Some? {
      var height: int := index.value;
      if height < ToInt64(genesis.height) {
        return Refused(InvalidIndex);
      }
      if height == ToInt64(genesis.height) {
        return Answer(genesisBlock);
      }
      var data := store.BlockByHeight(ToUint64(height));
      return if data.None? then Refused(NotIndexed) else Answer(data.value);
    }
    if hash.Some? {
      if |hash.value| != 64 {
        return Refused(InvalidHash);
      }
      var asked := Signatures.DecodeHex(hash.value);
      if asked.None? {
        return Refused(InvalidHash);
      }
      if asked.value == genesis.hash {
        return Answer(genesisBlock);
      }
      var data := store.BlockByHash(asked.value);
      return if data.None? then Refused(NotIndexed) else Answer(data.value);
    }
    answer := Refused(InvalidIdentifier);
  }
}
