/** Which accounts are proxies after a restart, on any chain, also one that creates
    an address again. */
module Demotion {
  import opened Prelude
  import opened Model
  import opened IndexSpec
  import opened Translate
  import opened Flows
  import opened Ledger
  import opened EndToEnd
  import opened Restart
  import opened Purge

  // ---- What the store flags ----

  /** Transaction k of the block records a proxy key for account a. */
  ghost predicate TxnMakesProxy(t: Tracker, txns: seq<ChainTxn>, k: nat, a: Address)
    requires k < |txns|
  {
    var keys := First(t, txns[k].payer, txns[k].events, NewsAfter(t, txns[..k])).keys;
    a in keys && keys[a].Some?
  }

  ghost predicate TxnsMakeProxy(t: Tracker, txns: seq<ChainTxn>, a: Address) {
    exists k :: 0 <= k < |txns| && TxnMakesProxy(t, txns, k, a)
  }

  ghost predicate BlockMakesProxy(cfg: Config, chain: Chain, n: nat, a: Address)
    requires n < |chain|
  {
    TxnsMakeProxy(TrackerOf(cfg, AcctsAfter(cfg, chain[..n])), chain[n].txns, a)
  }

  /** Some transaction of the chain made the account a proxy. */
  ghost predicate ChainMakesProxy(cfg: Config, chain: Chain, a: Address) {
    exists n :: 0 <= n < |chain| && BlockMakesProxy(cfg, chain, n, a)
  }

  lemma {:induction false} TranslationMakesProxy(
      t: Tracker, txns: seq<ChainTxn>, indexed: seq<IndexedTransaction>, n: nat, a: Address)
    requires BlockTranslates(t, txns, indexed) && n <= |txns|
    ensures CreatesProxy(Operations(indexed[..n]), a) <==> exists k :: 0 <= k < n && TxnMakesProxy(t, txns, k, a)
  {
    hide Translates, First, NewsAfter, CreatesProxy, Operations, TxnMakesProxy;
    if n == 0 {
      NothingCreated(a);
      assert indexed[..0] == [];
    } else {
      var k := n - 1;
      TranslationMakesProxy(t, txns, indexed, k, a);
      assert TxnTranslates(t, txns, k, indexed[k]);
      assert indexed[..n] == indexed[..k] + [indexed[k]];
      OneMoreTxn(t, txns[..k], txns[k], indexed[..k], indexed[k], a);
      TxnProxies(t, txns, indexed, k, a);
    }
  }

  lemma {:induction false} NothingCreated(a: Address)
    ensures !CreatesProxy(Operations([]), a)
  {
  }

  lemma {:induction false} TxnProxies(
      t: Tracker, txns: seq<ChainTxn>, indexed: seq<IndexedTransaction>, k: nat, a: Address)
    requires k < |txns| == |indexed| && TxnTranslates(t, txns, k, indexed[k])
    ensures CreatesProxy(indexed[k].operations, a) <==> TxnMakesProxy(t, txns, k, a)
  {
    hide Translates, First, NewsAfter, CreatesProxy;
    OperationsNameInvolved(t, txns[k].payer, txns[k].events, NewsAfter(t, txns[..k]), indexed[k].operations, a);
  }

  /** The store flags exactly the accounts that were ever made proxies. */
  lemma {:induction false} StoreFlagsMadeProxies(cfg: Config, chain: Chain, history: History, a: Address)
    requires Indexes(cfg, chain, history)
    ensures HistoryCreatesProxy(history, a) <==> ChainMakesProxy(cfg, chain, a)
  {
    hide BlockTranslates, CreatesProxy, BlockMakesProxy;
    forall n | 0 <= n < |chain| ensures CreatesProxy(EntryOps(history[n]), a) <==> BlockMakesProxy(cfg, chain, n, a) {
      assert EntryMatches(cfg, chain, n, history[n]);
      BlockFlags(cfg, chain, n, history[n], a);
    }
  }

  lemma {:induction false} BlockFlags(cfg: Config, chain: Chain, n: nat, e: Entry, a: Address)
    requires n < |chain| && EntryMatches(cfg, chain, n, e)
    ensures CreatesProxy(EntryOps(e), a) <==> BlockMakesProxy(cfg, chain, n, a)
  {
    hide BlockTranslates, CreatesProxy, TxnMakesProxy;
    var t := TrackerOf(cfg, AcctsAfter(cfg, chain[..n]));
    FullBlock(t, chain[n].txns, e.block.transactions);
    TranslationMakesProxy(t, chain[n].txns, e.block.transactions, |chain[n].txns|, a);
  }

  // ---- What the live map flags ----

  /** Whether the last transaction of the block that records a creation of the
      account records a proxy key; None if there is no such transaction. */
  function LastInBlock(t: Tracker, txns: seq<ChainTxn>, a: Address): Option<bool> {
    if txns == [] then None
    else
      var before, x := txns[..|txns| - 1], txns[|txns| - 1];
      var keys := First(t, x.payer, x.events, NewsAfter(t, before)).keys;
      if a in keys then Some(keys[a].Some?) else LastInBlock(t, before, a)
  }

  /** The same for a chain. */
  function LastCreation(cfg: Config, chain: Chain, a: Address): Option<bool> {
    if chain == [] then None
    else
      var before, b := chain[..|chain| - 1], chain[|chain| - 1];
      var last := LastInBlock(TrackerOf(cfg, AcctsAfter(cfg, before)), b.txns, a);
      if last.Some? then last else LastCreation(cfg, before, a)
  }

  function Flag(accts: map<Address, bool>, a: Address): Option<bool> {
    if a in accts then Some(accts[a]) else None
  }

  lemma {:induction false} NewsAreLast(t: Tracker, txns: seq<ChainTxn>, a: Address)
    ensures Flag(NewsAfter(t, txns), a) == LastInBlock(t, txns, a)
  {
    if txns != [] {
      var before, x := txns[..|txns| - 1], txns[|txns| - 1];
      NewsAreLast(t, before, a);
      FirstCreates(t, x.payer, x.events, NewsAfter(t, before), a);
    }
  }

  /** The live map flags an account as its last recorded creation does. */
  lemma {:induction false} LiveIsLast(cfg: Config, chain: Chain, a: Address)
    ensures Flag(AcctsAfter(cfg, chain), a) == LastCreation(cfg, chain, a)
  {
    if chain != [] {
      var before, b := chain[..|chain| - 1], chain[|chain| - 1];
      LiveIsLast(cfg, before, a);
      NewsAreLast(TrackerOf(cfg, AcctsAfter(cfg, before)), b.txns, a);
    }
  }

  lemma {:induction false} LastInBlockMakes(t: Tracker, txns: seq<ChainTxn>, a: Address)
    requires LastInBlock(t, txns, a) == Some(true)
    ensures TxnsMakeProxy(t, txns, a)
  {
    hide First, NewsAfter;
    var n := |txns| - 1;
    if !TxnMakesProxy(t, txns, n, a) {
      var before := txns[..n];
      LastInBlockMakes(t, before, a);
      var k :| 0 <= k < |before| && TxnMakesProxy(t, before, k, a);
      assert before[..k] == txns[..k] && TxnMakesProxy(t, txns, k, a);
    }
  }

  lemma {:induction false} LastCreationMakes(cfg: Config, chain: Chain, a: Address)
    requires LastCreation(cfg, chain, a) == Some(true)
    ensures ChainMakesProxy(cfg, chain, a)
  {
    hide AcctsAfter, LastInBlock, TxnsMakeProxy;
    var n := |chain| - 1;
    var before := chain[..n];
    if LastInBlock(TrackerOf(cfg, AcctsAfter(cfg, before)), chain[n].txns, a) == Some(true) {
      LastInBlockMakes(TrackerOf(cfg, AcctsAfter(cfg, before)), chain[n].txns, a);
      assert BlockMakesProxy(cfg, chain, n, a);
    } else {
      LastCreationMakes(cfg, before, a);
      var m :| 0 <= m < |before| && BlockMakesProxy(cfg, before, m, a);
      assert before[..m] == chain[..m];
      assert BlockMakesProxy(cfg, chain, m, a);
    }
  }

  /** An account known from earlier blocks keeps its classification through the next
      block, whatever that block creates; only then does the map change. */
  lemma {:induction false} KnownThroughBlock(cfg: Config, chain: Chain, b: ChainBlock, a: Address)
    requires a in AcctsAfter(cfg, chain)
    ensures var t := TrackerOf(cfg, AcctsAfter(cfg, chain));
            && t.IsProxy(a, NewsAfter(t, b.txns)) == t.IsProxy(a, map[]) && t.IsTracked(a, NewsAfter(t, b.txns))
            && (LastInBlock(t, b.txns, a).Some? ==>
                  Flag(AcctsAfter(cfg, chain + [b]), a) == LastInBlock(t, b.txns, a))
  {
    hide NewsAfter;
    assert (chain + [b])[..|chain|] == chain;
    NewsAreLast(TrackerOf(cfg, AcctsAfter(cfg, chain)), b.txns, a);
  }

  // ---- Both ----

  /** Restart equivalence, proxies, on any chain: the live map calls an account a proxy
      if its last recorded creation has a key, the rebuilt one if any has. So every
      live proxy stays one, and the answers are equal if and only if a creation with
      a key is never followed by one without. */
  lemma {:induction false} RestartProxies(
      cfg: Config, chain: Chain, history: History, accts: map<Address, bool>, a: Address)
    requires Indexes(cfg, chain, history) && IsStoreAccts(history, accts)
    ensures var rebuilt, live := TrackerOf(cfg, accts), TrackerOf(cfg, AcctsAfter(cfg, chain));
            && (live.IsProxy(a, map[]) <==> LastCreation(cfg, chain, a) == Some(true))
            && (rebuilt.IsProxy(a, map[]) <==> ChainMakesProxy(cfg, chain, a))
            && (live.IsProxy(a, map[]) ==> rebuilt.IsProxy(a, map[]))
            && (rebuilt.IsProxy(a, map[]) == live.IsProxy(a, map[]) <==>
                (ChainMakesProxy(cfg, chain, a) ==> LastCreation(cfg, chain, a) == Some(true)))
  {
    hide Indexes, AcctsAfter, ChainMakesProxy, LastCreation;
    StoreFlagsMadeProxies(cfg, chain, history, a);
    CreatesIsTouched(history, a);
    LiveIsLast(cfg, chain, a);
    if LastCreation(cfg, chain, a) == Some(true) {
      LastCreationMakes(cfg, chain, a);
    }
  }

  lemma {:induction false} CreatesIsTouched(history: History, a: Address)
    ensures HistoryCreatesProxy(history, a) ==> HistoryTouches(history, a)
  {
    hide Operations;
    if HistoryCreatesProxy(history, a) {
      var n :| 0 <= n < |history| && CreatesProxy(EntryOps(history[n]), a);
      var op :| op in EntryOps(history[n]) && OpCreatesProxy(op, a);
      assert OpTouches(op, a);
    }
  }

  // ---- A failing input ----

  function FirstTxn(payer: Address, a: Address, key: PublicKey): ChainTxn {
    ChainTxn([], payer, [AccountCreated(a), ProxyCreated(a, Some(key))], false)
  }

  function SecondTxn(payer: Address, a: Address): ChainTxn {
    ChainTxn([], payer, [AccountCreated(a)], false)
  }

  /** A chain that makes an account a proxy and later creates it again, and its index. */
  function DemotingChain(payer: Address, a: Address, key: PublicKey): Chain {
    [ChainBlock([1], 0, [FirstTxn(payer, a, key)]), ChainBlock([2], 0, [SecondTxn(payer, a)])]
  }

  function DemotingHistory(a: Address, key: PublicKey): History {
    [Entry([1], IndexedBlock(0, [IndexedTransaction([], [CreateAccount(a, key)], false)])),
     Entry([2], IndexedBlock(0, [IndexedTransaction([], [CreateAccount(a, [])], false)]))]
  }

  /** Events that only create accounts become create operations. */
  lemma {:induction false} CreationTranslates(t: Tracker, payer: Address, events: seq<Event>, ops: seq<Operation>)
    requires var first := First(t, payer, events, map[]);
             first.ok && first.proxyDeposits == map[] && first.moves == [] && ops == CreateOps(first.keys, first.addrs)
    requires Second(t, First(t, payer, events, map[]).news, events) == SecondPass(map[], map[], 0)
    ensures Translates(t, payer, events, map[], ops)
  {
    hide First, Second, CreateOps;
    var n := Net(t, payer, events, map[]);
    assert n == Netting(true, ops, map[], map[], map[]) && Positive(map[]) == map[];
    NothingLeft();
    assert ops[|n.ops|..] == [] && Positive(map[]) + Positive(map[]) == map[];
  }

  lemma {:induction false} NothingLeft()
    ensures IsTail([], map[], map[])
  {
    assert IsOrder([], map[]) && [] == DepositOps([], map[]) + WithdrawalOps([], map[]);
  }

  lemma {:induction false} FirstTxnTranslates(t: Tracker, payer: Address, a: Address, key: PublicKey)
    requires payer in t.originators
    ensures var events := FirstTxn(payer, a, key).events;
            && First(t, payer, events, map[]).news == map[a := true]
            && Translates(t, payer, events, map[], [CreateAccount(a, key)])
  {
    var c, p := AccountCreated(a), ProxyCreated(a, Some(key));
    var news: map<Address, bool> := map[a := true];
    assert [c, p] == [] + [c] + [p];
    PassesAppend(t, payer, [], c, map[], news);
    PassesAppend(t, payer, [] + [c], p, map[], news);
    var first := First(t, payer, [c, p], map[]);
    assert first.keys == map[a := Some(key)] && first.news == news;
    OneCreation(first.keys, a);
    CreationTranslates(t, payer, [c, p], [CreateAccount(a, key)]);
  }

  lemma {:induction false} SecondTxnTranslates(t: Tracker, payer: Address, a: Address)
    requires payer in t.originators
    ensures var events := SecondTxn(payer, a).events;
            && First(t, payer, events, map[]).news == map[a := false]
            && Translates(t, payer, events, map[], [CreateAccount(a, [])])
  {
    var c := AccountCreated(a);
    assert [c] == [] + [c];
    PassesAppend(t, payer, [], c, map[], map[a := false]);
    OneCreation(First(t, payer, [c], map[]).keys, a);
    CreationTranslates(t, payer, [c], [CreateAccount(a, [])]);
  }

  lemma {:induction false} OneCreation(keys: map<Address, Option<PublicKey>>, a: Address)
    ensures CreateOps(keys, [a]) == [CreateOp(keys, a)]
  {
    assert [a][..0] == [] && CreateOps(keys, []) == [];
  }

  lemma {:induction false} OneTxnBlock(t: Tracker, x: ChainTxn, ops: seq<Operation>)
    requires Translates(t, x.payer, x.events, map[], ops)
    ensures BlockTranslates(t, [x], [IndexedTransaction(x.hash, ops, x.failed)])
    ensures NewsAfter(t, [x]) == First(t, x.payer, x.events, map[]).news
  {
    hide Translates, First;
    assert [x][..0] == [] && NewsAfter(t, []) == map[];
  }

  /** A failing input: the chain is indexed, after it the live indexer calls the
      account ordinary, and an indexer restarted from the store calls it a proxy. */
  lemma {:induction false} DemotionChangesRestart(
      payer: Address, a: Address, key: PublicKey, accts: map<Address, bool>)
    requires IsStoreAccts(DemotingHistory(a, key), accts)
    ensures var cfg, chain := Config({payer}, {}), DemotingChain(payer, a, key);
            && Indexes(cfg, chain, DemotingHistory(a, key)) && AcctsAfter(cfg, chain) == map[a := false]
            && !TrackerOf(cfg, AcctsAfter(cfg, chain)).IsProxy(a, map[])
            && TrackerOf(cfg, accts).IsProxy(a, map[])
  {
    DemotionIsIndexed(payer, a, key);
    hide AcctsAfter, Indexes;
    var history := DemotingHistory(a, key);
    var op := CreateAccount(a, key);
    OperationsOfOne(history[0].block.transactions[0]);
    assert op in EntryOps(history[0]) && OpCreatesProxy(op, a);
    assert HistoryCreatesProxy(history, a);
    CreatesIsTouched(history, a);
  }

  lemma {:induction false} OperationsOfOne(x: IndexedTransaction)
    ensures Operations([x]) == x.operations
  {
    assert [x][..0] == [] && [] + x.operations == x.operations;
  }

  lemma {:induction false} DemotionIsIndexed(payer: Address, a: Address, key: PublicKey)
    ensures var cfg, chain := Config({payer}, {}), DemotingChain(payer, a, key);
            Indexes(cfg, chain, DemotingHistory(a, key)) && AcctsAfter(cfg, chain) == map[a := false]
  {
    hide Translates, First, BlockTranslates, NewsAfter;
    var cfg, chain := Config({payer}, {}), DemotingChain(payer, a, key);
    var t, u := TrackerOf(cfg, map[]), TrackerOf(cfg, map[a := true]);
    FirstTxnTranslates(t, payer, a, key);
    OneTxnBlock(t, FirstTxn(payer, a, key), [CreateAccount(a, key)]);
    SecondTxnTranslates(u, payer, a);
    OneTxnBlock(u, SecondTxn(payer, a), [CreateAccount(a, [])]);
    assert chain[..0] == [] && chain[..1][..0] == [];
    assert AcctsAfter(cfg, chain[..0]) == map[];
    assert AcctsAfter(cfg, chain[..1]) == map[a := true];
    assert EntryMatches(cfg, chain, 0, DemotingHistory(a, key)[0]);
    assert EntryMatches(cfg, chain, 1, DemotingHistory(a, key)[1]);
  }

  // ---- Another one, for the purge ----

  /** A chain that makes an account a proxy twice, and its index. */
  function TwiceChain(payer: Address, a: Address, key: PublicKey): Chain {
    [ChainBlock([1], 0, [FirstTxn(payer, a, key)]), ChainBlock([2], 0, [FirstTxn(payer, a, key)])]
  }

  function TwiceHistory(a: Address, key: PublicKey): History {
    [Entry([1], IndexedBlock(0, [IndexedTransaction([], [CreateAccount(a, key)], false)])),
     Entry([2], IndexedBlock(0, [IndexedTransaction([], [CreateAccount(a, key)], false)]))]
  }

  /** A failing input: the chain is indexed, and on its store Accounts fails after a
      purge, since the address is made a proxy at two heights. */
  lemma {:induction false} SecondCreationBreaksPurge(root: BlockMeta, payer: Address, a: Address, key: PublicKey)
    ensures Indexes(Config({payer}, {}), TwiceChain(payer, a, key), TwiceHistory(a, key))
    ensures !CreatedOnce(root, TwiceHistory(a, key))
  {
    hide Translates, First, BlockTranslates, NewsAfter;
    var cfg, chain, history := Config({payer}, {}), TwiceChain(payer, a, key), TwiceHistory(a, key);
    var t, u := TrackerOf(cfg, map[]), TrackerOf(cfg, map[a := true]);
    FirstTxnTranslates(t, payer, a, key);
    OneTxnBlock(t, FirstTxn(payer, a, key), [CreateAccount(a, key)]);
    FirstTxnTranslates(u, payer, a, key);
    OneTxnBlock(u, FirstTxn(payer, a, key), [CreateAccount(a, key)]);
    assert chain[..0] == [] && chain[..1][..0] == [];
    assert AcctsAfter(cfg, chain[..0]) == map[];
    assert AcctsAfter(cfg, chain[..1]) == map[a := true];
    assert EntryMatches(cfg, chain, 0, history[0]);
    assert EntryMatches(cfg, chain, 1, history[1]);
    TwiceCreated(root, a, key);
  }

  lemma {:induction false} TwiceCreated(root: BlockMeta, a: Address, key: PublicKey)
    ensures !CreatedOnce(root, TwiceHistory(a, key))
  {
    var history, h := TwiceHistory(a, key), root.height + 1;
    OperationsOfOne(history[0].block.transactions[0]);
    OperationsOfOne(history[1].block.transactions[0]);
    var op := CreateAccount(a, key);
    assert op in EntryOps(history[0]) && op in EntryOps(history[1]) && OpCreatesProxy(op, a);
    assert ProxyCreatedAt(root, history, a, h) && ProxyCreatedAt(root, history, a, h + 1);
  }
}
