/** From chain events to looked-up balances. */
module EndToEnd {
  import opened Prelude
  import opened Model
  import opened IndexSpec
  import opened Translate
  import opened Flows
  import opened Ledger

  // ---- Sums over blocks ----

  function TxnsFlow(txns: seq<ChainTxn>, a: Address, proxy: bool): int {
    if txns == [] then 0
    else TxnsFlow(txns[..|txns| - 1], a, proxy) + EventFlow(txns[|txns| - 1].events, a, proxy)
  }

  /** All of an account's own events so far: deposits minus withdrawals. */
  function ChainFlow(chain: Chain, a: Address, proxy: bool): int {
    if chain == [] then 0
    else ChainFlow(chain[..|chain| - 1], a, proxy) + TxnsFlow(chain[|chain| - 1].txns, a, proxy)
  }

  function CountedInTxns(t: Tracker, txns: seq<ChainTxn>, a: Address): int {
    if txns == [] then 0
    else
      var before, x := txns[..|txns| - 1], txns[|txns| - 1];
      CountedInTxns(t, before, a) + Counted(t, x.payer, x.events, NewsAfter(t, before), a)
  }

  function CountedInChain(cfg: Config, chain: Chain, a: Address): int {
    if chain == [] then 0
    else
      var before := chain[..|chain| - 1];
      CountedInChain(cfg, before, a) +
      CountedInTxns(TrackerOf(cfg, AcctsAfter(cfg, before)), chain[|chain| - 1].txns, a)
  }

  // ---- Unmentioned accounts have no events ----

  lemma {:induction false} UnmentionedEvents(events: seq<Event>, a: Address, proxy: bool)
    requires forall e :: e in events ==> !EventMentions(e, a)
    ensures EventFlow(events, a, proxy) == 0
  {
    if events != [] {
      assert events[|events| - 1] in events;
      UnmentionedEvents(events[..|events| - 1], a, proxy);
    }
  }

  lemma {:induction false} UnmentionedTxns(txns: seq<ChainTxn>, a: Address, proxy: bool)
    requires !TxnsMention(txns, a)
    ensures TxnsFlow(txns, a, proxy) == 0
  {
    if txns != [] {
      var shorter, x := txns[..|txns| - 1], txns[|txns| - 1];
      assert x in txns && forall y :: y in shorter ==> y in txns;
      assert !TxnMentions(x, a);
      UnmentionedTxns(shorter, a, proxy);
      UnmentionedEvents(x.events, a, proxy);
    }
  }

  lemma {:induction false} UnmentionedChain(chain: Chain, a: Address, proxy: bool)
    requires !ChainMentions(chain, a)
    ensures ChainFlow(chain, a, proxy) == 0
  {
    if chain != [] {
      var shorter, b := chain[..|chain| - 1], chain[|chain| - 1];
      assert b in chain && forall y :: y in shorter ==> y in chain;
      UnmentionedChain(shorter, a, proxy);
      UnmentionedTxns(b.txns, a, proxy);
    }
  }

  // ---- The run counts all events of the accounts it follows ----

  /** All transactions of block n were accepted by the first pass. */
  ghost predicate FirstsOk(t: Tracker, txns: seq<ChainTxn>) {
    forall k :: 0 <= k < |txns| ==> First(t, txns[k].payer, txns[k].events, NewsAfter(t, txns[..k])).ok
  }

  /** The counted total is the account's event total if it is followed, else zero. */
  ghost predicate CountsAll(
      t: Tracker, news: map<Address, bool>, a: Address, counted: int, proxyFlow: int, tokenFlow: int) {
    counted == if !t.IsTracked(a, news) then 0 else if t.IsProxy(a, news) then proxyFlow else tokenFlow
  }

  lemma {:induction false} BlockCountsAll(cfg: Config, chain: Chain, n: nat, k: nat, a: Address)
    requires Sane(chain) && n < |chain| && k <= |chain[n].txns| && a !in cfg.feeAddrs
    requires var t := TrackerOf(cfg, AcctsAfter(cfg, chain[..n]));
             && FirstsOk(t, chain[n].txns)
             && CountsAll(t, map[], a, CountedInChain(cfg, chain[..n], a),
                          ChainFlow(chain[..n], a, true), ChainFlow(chain[..n], a, false))
    ensures var t := TrackerOf(cfg, AcctsAfter(cfg, chain[..n]));
            var txns := chain[n].txns[..k];
            CountsAll(t, NewsAfter(t, txns), a, CountedInChain(cfg, chain[..n], a) + CountedInTxns(t, txns, a),
                      ChainFlow(chain[..n], a, true) + TxnsFlow(txns, a, true),
                      ChainFlow(chain[..n], a, false) + TxnsFlow(txns, a, false))
  {
    hide First, Counted, EventFlow, EventsCreate, ChainFlow, CountedInChain, AcctsAfter, SaneEvents, CountsAll;
    hide FirstsOk, Sane;
    if k == 0 {
      assert chain[n].txns[..0] == [];
    } else {
      hide NewsAfter, TxnsFlow, CountedInTxns;
      var accts := AcctsAfter(cfg, chain[..n]);
      var t := TrackerOf(cfg, accts);
      var txns, x := chain[n].txns[..k - 1], chain[n].txns[k - 1];
      assert chain[n].txns[..k] == txns + [x];
      BlockCountsAll(cfg, chain, n, k - 1, a);
      TxnFirstOk(t, chain[n].txns, k - 1);
      SaneAt(chain, n, k - 1);
      if EventsCreate(x.events, a) {
        CreatedIsUnknown(cfg, chain, n, k - 1, a);
        UnmentionedChain(chain[..n], a, true);
        UnmentionedChain(chain[..n], a, false);
        UnmentionedTxns(txns, a, true);
        UnmentionedTxns(txns, a, false);
      }
      TxnCountsNext(t, txns, x, a, CountedInChain(cfg, chain[..n], a), ChainFlow(chain[..n], a, true),
                    ChainFlow(chain[..n], a, false));
    }
  }

  lemma {:induction false} TxnFirstOk(t: Tracker, txns: seq<ChainTxn>, k: nat)
    requires FirstsOk(t, txns) && k < |txns|
    ensures First(t, txns[k].payer, txns[k].events, NewsAfter(t, txns[..k])).ok
  {
  }

  lemma {:induction false} SaneAt(chain: Chain, n: nat, k: nat)
    requires Sane(chain) && n < |chain| && k < |chain[n].txns|
    ensures SaneEvents(chain[n].txns[k].events)
    ensures forall a: Address :: EventsCreate(chain[n].txns[k].events, a) ==>
              !ChainMentions(chain[..n], a) && !TxnsMention(chain[n].txns[..k], a)
  {
    assert SaneTxn(chain, n, k);
  }

  /** One more transaction is counted, by what it makes of the account. */
  lemma {:induction false} TxnCountsNext(
      t: Tracker, txns: seq<ChainTxn>, x: ChainTxn, a: Address, counted: int, proxyFlow: int, tokenFlow: int)
    requires SaneEvents(x.events) && a !in t.feeAddrs && First(t, x.payer, x.events, NewsAfter(t, txns)).ok
    requires CountsAll(t, NewsAfter(t, txns), a, counted + CountedInTxns(t, txns, a),
                       proxyFlow + TxnsFlow(txns, a, true), tokenFlow + TxnsFlow(txns, a, false))
    requires EventsCreate(x.events, a) ==>
               && a !in t.accts && a !in NewsAfter(t, txns)
               && proxyFlow == tokenFlow == TxnsFlow(txns, a, true) == TxnsFlow(txns, a, false) == 0
    ensures CountsAll(t, NewsAfter(t, txns + [x]), a, counted + CountedInTxns(t, txns + [x], a),
                      proxyFlow + TxnsFlow(txns + [x], a, true), tokenFlow + TxnsFlow(txns + [x], a, false))
  {
    hide First, Counted, EventsCreate, SaneEvents, NewsAfter, TxnsFlow, CountedInTxns, PlainProxyFlow, PlainTokenFlow;
    LastTxn(t, txns, x, a);
    TxnCountsAll(t, x.payer, x.events, NewsAfter(t, txns), a);
  }

  lemma {:induction false} LastTxn(t: Tracker, txns: seq<ChainTxn>, x: ChainTxn, a: Address)
    ensures NewsAfter(t, txns + [x]) == First(t, x.payer, x.events, NewsAfter(t, txns)).news
    ensures CountedInTxns(t, txns + [x], a) == CountedInTxns(t, txns, a) +
            Counted(t, x.payer, x.events, NewsAfter(t, txns), a)
    ensures TxnsFlow(txns + [x], a, true) == TxnsFlow(txns, a, true) + EventFlow(x.events, a, true)
    ensures TxnsFlow(txns + [x], a, false) == TxnsFlow(txns, a, false) + EventFlow(x.events, a, false)
  {
    assert (txns + [x])[..|txns|] == txns;
  }

  lemma {:induction false} ChainCountsAll(cfg: Config, chain: Chain, a: Address)
    requires Sane(chain) && a !in cfg.feeAddrs
    requires forall n :: 0 <= n < |chain| ==> FirstsOk(TrackerOf(cfg, AcctsAfter(cfg, chain[..n])), chain[n].txns)
    ensures CountsAll(TrackerOf(cfg, AcctsAfter(cfg, chain)), map[], a, CountedInChain(cfg, chain, a),
                      ChainFlow(chain, a, true), ChainFlow(chain, a, false))
  {
    hide FirstsOk, Sane, TxnsFlow, CountedInTxns, NewsAfter, ChainFlow, CountedInChain, AcctsAfter, CountsAll;
    if chain == [] {
      NothingCounted(cfg, a);
    } else {
      var n := |chain| - 1;
      var shorter := chain[..n];
      SanePrefix(chain, n);
      forall m | 0 <= m < n ensures FirstsOk(TrackerOf(cfg, AcctsAfter(cfg, shorter[..m])), shorter[m].txns) {
        assert shorter[..m] == chain[..m];
      }
      ChainCountsAll(cfg, shorter, a);
      FullBlockCountsAll(cfg, chain, n, a);
      NewsAreDisjoint(cfg, chain, n, a);
      ChainCountsNext(cfg, chain, a);
    }
  }

  lemma {:induction false} FullBlockCountsAll(cfg: Config, chain: Chain, n: nat, a: Address)
    requires Sane(chain) && n < |chain| && a !in cfg.feeAddrs
    requires var t := TrackerOf(cfg, AcctsAfter(cfg, chain[..n]));
             && FirstsOk(t, chain[n].txns)
             && CountsAll(t, map[], a, CountedInChain(cfg, chain[..n], a),
                          ChainFlow(chain[..n], a, true), ChainFlow(chain[..n], a, false))
    ensures var t := TrackerOf(cfg, AcctsAfter(cfg, chain[..n]));
            var txns := chain[n].txns;
            CountsAll(t, NewsAfter(t, txns), a, CountedInChain(cfg, chain[..n], a) + CountedInTxns(t, txns, a),
                      ChainFlow(chain[..n], a, true) + TxnsFlow(txns, a, true),
                      ChainFlow(chain[..n], a, false) + TxnsFlow(txns, a, false))
  {
    hide FirstsOk, Sane, TxnsFlow, CountedInTxns, NewsAfter, ChainFlow, CountedInChain, AcctsAfter, CountsAll;
    var txns := chain[n].txns;
    assert txns[..|txns|] == txns;
    BlockCountsAll(cfg, chain, n, |txns|, a);
  }

  /** The new accounts of a block that was counted become followed. */
  lemma {:induction false} ChainCountsNext(cfg: Config, chain: Chain, a: Address)
    requires chain != []
    requires var before, txns := chain[..|chain| - 1], chain[|chain| - 1].txns;
             var t := TrackerOf(cfg, AcctsAfter(cfg, before));
             && (a in t.accts ==> a !in NewsAfter(t, txns))
             && CountsAll(t, NewsAfter(t, txns), a, CountedInChain(cfg, before, a) + CountedInTxns(t, txns, a),
                          ChainFlow(before, a, true) + TxnsFlow(txns, a, true),
                          ChainFlow(before, a, false) + TxnsFlow(txns, a, false))
    ensures CountsAll(TrackerOf(cfg, AcctsAfter(cfg, chain)), map[], a, CountedInChain(cfg, chain, a),
                      ChainFlow(chain, a, true), ChainFlow(chain, a, false))
  {
    hide TxnsFlow, CountedInTxns, NewsAfter, ChainFlow, CountedInChain, AcctsAfter;
    LastBlock(cfg, chain, a);
  }

  lemma {:induction false} NothingCounted(cfg: Config, a: Address)
    ensures CountsAll(TrackerOf(cfg, AcctsAfter(cfg, [])), map[], a, CountedInChain(cfg, [], a), ChainFlow([], a, true),
                      ChainFlow([], a, false))
  {
  }

  /** Totals and account map before and after the last block. */
  lemma {:induction false} LastBlock(cfg: Config, chain: Chain, a: Address)
    requires chain != []
    ensures var before, b := chain[..|chain| - 1], chain[|chain| - 1];
            var t := TrackerOf(cfg, AcctsAfter(cfg, before));
            && AcctsAfter(cfg, chain) == AcctsAfter(cfg, before) + NewsAfter(t, b.txns)
            && CountedInChain(cfg, chain, a) == CountedInChain(cfg, before, a) + CountedInTxns(t, b.txns, a)
            && ChainFlow(chain, a, true) == ChainFlow(before, a, true) + TxnsFlow(b.txns, a, true)
            && ChainFlow(chain, a, false) == ChainFlow(before, a, false) + TxnsFlow(b.txns, a, false)
  {
  }

  /** New accounts of a block were not followed before it. */
  lemma {:induction false} NewsAreDisjoint(cfg: Config, chain: Chain, n: nat, a: Address)
    requires Sane(chain) && n < |chain|
    ensures var accts := AcctsAfter(cfg, chain[..n]);
            a in accts ==> a !in NewsAfter(TrackerOf(cfg, accts), chain[n].txns)
  {
    var accts := AcctsAfter(cfg, chain[..n]);
    var t := TrackerOf(cfg, accts);
    if a in NewsAfter(t, chain[n].txns) {
      NewsAreCreated(t, chain[n].txns, a);
      var x :| x in chain[n].txns && EventsCreate(x.events, a);
      var k :| 0 <= k < |chain[n].txns| && chain[n].txns[k] == x;
      CreatedIsUnknown(cfg, chain, n, k, a);
    }
  }

  // ---- The index holds the counted totals ----

  lemma {:induction false} BlockEffectIsCounted(
      t: Tracker, txns: seq<ChainTxn>, indexed: seq<IndexedTransaction>, a: Address)
    requires BlockTranslates(t, txns, indexed)
    requires forall k :: 0 <= k < |txns| ==> NoDemotion(t, txns[k].payer, txns[k].events, NewsAfter(t, txns[..k]))
    ensures Congruent(Effect(Operations(indexed), a), CountedInTxns(t, txns, a))
  {
    if txns != [] {
      var n := |txns| - 1;
      var before := txns[..n];
      forall k | 0 <= k < n
        ensures TxnTranslates(t, before, k, indexed[..n][k])
        ensures NoDemotion(t, before[k].payer, before[k].events, NewsAfter(t, before[..k]))
      {
        assert before[..k] == txns[..k];
        assert TxnTranslates(t, txns, k, indexed[k]);
      }
      BlockEffectIsCounted(t, before, indexed[..n], a);
      assert TxnTranslates(t, txns, n, indexed[n]);
      var x, news := txns[n], NewsAfter(t, before);
      TransactionIsNetted(t, x.payer, x.events, news, indexed[n].operations, a);
      assert NoDemotion(t, txns[n].payer, txns[n].events, NewsAfter(t, txns[..n]));
      NoDemotionLosesNothing(t, x.payer, x.events, news, a);
      EffectOfConcat(Operations(indexed[..n]), indexed[n].operations, a);
      CongruentTotals(Effect(Operations(indexed[..n]), a), Effect(indexed[n].operations, a),
                      Effect(Operations(indexed), a),
                      CountedInTxns(t, before, a), Counted(t, x.payer, x.events, news, a), CountedInTxns(t, txns, a));
    }
  }

  lemma {:induction false} SaneBlockIsNoDemotion(cfg: Config, chain: Chain, n: nat)
    requires Sane(chain) && n < |chain|
    ensures var t := TrackerOf(cfg, AcctsAfter(cfg, chain[..n]));
            var txns := chain[n].txns;
            forall k :: 0 <= k < |txns| ==> NoDemotion(t, txns[k].payer, txns[k].events, NewsAfter(t, txns[..k]))
  {
    var t := TrackerOf(cfg, AcctsAfter(cfg, chain[..n]));
    var txns := chain[n].txns;
    forall k | 0 <= k < |txns| ensures NoDemotion(t, txns[k].payer, txns[k].events, NewsAfter(t, txns[..k])) {
      assert SaneTxn(chain, n, k);
      forall a: Address | EventsCreate(txns[k].events, a) ensures a !in NewsAfter(t, txns[..k]) {
        CreatedIsUnknown(cfg, chain, n, k, a);
      }
      SaneIsNoDemotion(t, txns[k].payer, txns[k].events, NewsAfter(t, txns[..k]));
    }
  }

  lemma {:induction false} IndexesPrefix(cfg: Config, chain: Chain, history: History, n: nat)
    requires Indexes(cfg, chain, history) && n <= |chain|
    ensures Indexes(cfg, chain[..n], history[..n])
  {
    forall m | 0 <= m < n ensures EntryMatches(cfg, chain[..n], m, history[..n][m]) {
      assert chain[..n][..m] == chain[..m];
      assert EntryMatches(cfg, chain, m, history[m]);
    }
  }

  lemma {:induction false} BalanceIsCounted(cfg: Config, chain: Chain, history: History, a: Address)
    requires Sane(chain) && Indexes(cfg, chain, history)
    ensures Congruent(Balance(history, a), CountedInChain(cfg, chain, a))
  {
    if chain != [] {
      var n := |chain| - 1;
      SanePrefix(chain, n);
      IndexesPrefix(cfg, chain, history, n);
      BalanceIsCounted(cfg, chain[..n], history[..n], a);
      var t := TrackerOf(cfg, AcctsAfter(cfg, chain[..n]));
      assert EntryMatches(cfg, chain, n, history[n]);
      SaneBlockIsNoDemotion(cfg, chain, n);
      BlockEffectIsCounted(t, chain[n].txns, history[n].block.transactions, a);
      CongruentTotals(Balance(history[..n], a), Effect(EntryOps(history[n]), a), Balance(history, a),
                      CountedInChain(cfg, chain[..n], a), CountedInTxns(t, chain[n].txns, a), CountedInChain(cfg, chain,
                                                                                                             a));
    }
  }

  lemma {:induction false} IndexedBlocksAreOk(cfg: Config, chain: Chain, history: History)
    requires Indexes(cfg, chain, history)
    ensures forall n :: 0 <= n < |chain| ==> FirstsOk(TrackerOf(cfg, AcctsAfter(cfg, chain[..n])), chain[n].txns)
  {
    forall n | 0 <= n < |chain| ensures FirstsOk(TrackerOf(cfg, AcctsAfter(cfg, chain[..n])), chain[n].txns) {
      var t, txns := TrackerOf(cfg, AcctsAfter(cfg, chain[..n])), chain[n].txns;
      assert EntryMatches(cfg, chain, n, history[n]);
      forall k | 0 <= k < |txns| ensures First(t, txns[k].payer, txns[k].events, NewsAfter(t, txns[..k])).ok {
        assert TxnTranslates(t, txns, k, history[n].block.transactions[k]);
        NetFirstOk(t, txns[k].payer, txns[k].events, NewsAfter(t, txns[..k]));
      }
    }
  }

  /** Ledger refinement: after any run of accepted blocks the folded balance of
      a followed account is the sum of its own events, and of any other account zero. */
  lemma {:induction false} LedgerRefinement(cfg: Config, chain: Chain, history: History, a: Address)
    requires Sane(chain) && Indexes(cfg, chain, history) && a !in cfg.feeAddrs
    ensures var t := TrackerOf(cfg, AcctsAfter(cfg, chain));
            Congruent(Balance(history, a),
                      if t.IsTracked(a, map[]) then ChainFlow(chain, a, t.IsProxy(a, map[])) else 0)
  {
    BalanceIsCounted(cfg, chain, history, a);
    IndexedBlocksAreOk(cfg, chain, history);
    ChainCountsAll(cfg, chain, a);
  }

  /** The same at every indexed height, for the number a balance lookup returns. */
  lemma {:induction false} LookupRefinesLedger(
      cfg: Config, root: BlockMeta, chain: Chain, history: History, a: Address, h: int)
    requires Sane(chain) && Indexes(cfg, chain, history) && a !in cfg.feeAddrs
    requires root.height <= h <= root.height + |chain|
    ensures var prefix := chain[..h - root.height];
            var t := TrackerOf(cfg, AcctsAfter(cfg, prefix));
            var flow := ChainFlow(prefix, a, t.IsProxy(a, map[]));
            t.IsTracked(a, map[]) && 0 <= flow < TWO_63 ==> ToUint64(BalanceAt(root, history, a, h)) == flow
  {
    var n := h - root.height;
    SanePrefix(chain, n);
    IndexesPrefix(cfg, chain, history, n);
    LedgerRefinement(cfg, chain[..n], history[..n], a);
    assert UpTo(root, history, h) == history[..n];
    var t := TrackerOf(cfg, AcctsAfter(cfg, chain[..n]));
    if t.IsTracked(a, map[]) {
      CongruentIsEqual(Balance(history[..n], a), ChainFlow(chain[..n], a, t.IsProxy(a, map[])));
    }
  }
}
