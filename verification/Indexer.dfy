/** The indexer object: processBlock from fetched data to committed block, state
    rebuilt on start-up, and the resync entry point. */
module Indexer {
  import opened Prelude
  import opened Bytes
  import opened Model
  import opened IndexSpec
  import opened IndexTxn
  import opened IndexDb
  import opened Rollback
  import opened Translate
  import opened Processor
  import opened Ledger
  import opened EndToEnd
  import opened Restart
  import opened SameIndex

  // ---- The seal gate ----

  datatype SporkInfo = SporkInfo(rootBlock: uint64, hasPrev: bool, nextRoot: Option<uint64>)

  datatype FetchedTxn = FetchedTxn(txn: ChainTxn, ownBlock: bool)

  /** What the fetches for one block returned, and what was derived from it. */
  datatype Fetched = Fetched(
    timestamp: uint64,
    txns: seq<FetchedTxn>,
    skip: bool,                       // the block is configured to skip integrity checks
    eventsMatch: bool,                // every chunk's event hash matches the fetched events
    derivedResult: Option<ByteString>) // None: the execution result does not convert

  datatype Verdict = Pass | Again | Fatal

  /** Whether a block may be indexed, given the seals seen so far. */
  function SealGate(spork: SporkInfo, tolerance: uint64, height: uint64, hash: ByteString, f: Fetched,
                    sealedResults: map<ByteString, ByteString>): Verdict {
    if f.skip then Pass
    else if !f.eventsMatch || f.derivedResult.None? then Again
    else if spork.hasPrev && height == spork.rootBlock then Pass // self-sealed root block
    else if hash in sealedResults then
      if sealedResults[hash] == f.derivedResult.value then Pass else Again
    else if spork.nextRoot.None? then Fatal
    else if height >= ToUint64(spork.nextRoot.value - tolerance) then Pass // unsealed, within tolerance
    else Fatal
  }

  /** The transactions whose results name this block. */
  function OwnTxns(txns: seq<FetchedTxn>): seq<ChainTxn> {
    if txns == [] then []
    else
      var last := txns[|txns| - 1];
      OwnTxns(txns[..|txns| - 1]) + (if last.ownBlock then [last.txn] else [])
  }

  // ---- When an attempt succeeds ----

  predicate AllOwn(f: Fetched) {
    f.skip || forall k :: 0 <= k < |f.txns| ==> f.txns[k].ownBlock
  }

  /** Every transaction nets, with the new accounts of those before it. */
  ghost predicate AllNet(t: Tracker, txns: seq<ChainTxn>) {
    forall k :: 0 <= k < |txns| ==> Net(t, txns[k].payer, txns[k].events, NewsAfter(t, txns[..k])).ok
  }

  ghost predicate Translatable(t: Tracker, f: Fetched) {
    AllOwn(f) && AllNet(t, OwnTxns(f.txns))
  }

  /** Unless integrity checks are skipped, a committed block has all fetched transactions,
      in order, with their hashes and outcomes. */
  ghost predicate FromFetched(f: Fetched, txns: seq<ChainTxn>, indexed: seq<IndexedTransaction>) {
    !f.skip ==>
      && |f.txns| == |txns| == |indexed|
      && (forall k :: 0 <= k < |f.txns| ==> f.txns[k].ownBlock && txns[k] == f.txns[k].txn)
      && (forall k :: 0 <= k < |f.txns| ==>
            indexed[k].hash == f.txns[k].txn.hash && indexed[k].failed == f.txns[k].txn.failed)
  }

  lemma {:induction false} AllFromFetched(t: Tracker, f: Fetched, indexed: seq<IndexedTransaction>)
    requires Translatable(t, f) && BlockTranslates(t, OwnTxns(f.txns), indexed)
    ensures FromFetched(f, OwnTxns(f.txns), indexed)
  {
    hide Translates, NewsAfter;
    if !f.skip {
      AllOwnTxns(f.txns);
      forall k | 0 <= k < |f.txns|
        ensures indexed[k].hash == f.txns[k].txn.hash && indexed[k].failed == f.txns[k].txn.failed
      {
        assert TxnTranslates(t, OwnTxns(f.txns), k, indexed[k]);
      }
    }
  }

  /** The store takes the block: no touched balance reads as negative. */
  ghost predicate Storable(t: Tracker, history: History, hash: ByteString, timestamp: uint64, txns: seq<ChainTxn>) {
    exists indexed ::
      && BlockTranslates(t, txns, indexed)
      && NoneNegative(history, Entry(hash, IndexedBlock(timestamp, indexed)))
  }

  /** One translation of the block decides, whatever the map order. */
  lemma {:induction false} StorableIsDetermined(
      t: Tracker, history: History, hash: ByteString, timestamp: uint64, txns: seq<ChainTxn>,
      indexed: seq<IndexedTransaction>)
    requires BlockTranslates(t, txns, indexed)
    ensures Storable(t, history, hash, timestamp, txns) <==>
            NoneNegative(history, Entry(hash, IndexedBlock(timestamp, indexed)))
  {
    hide BlockTranslates, NoneNegative;
    if Storable(t, history, hash, timestamp, txns) {
      var other :|
        BlockTranslates(t, txns, other) && NoneNegative(history, Entry(hash, IndexedBlock(timestamp, other)));
      BlockIsDetermined(t, txns, indexed, other);
      SameVerdict(history, history, Entry(hash, IndexedBlock(timestamp, indexed)),
                  Entry(hash, IndexedBlock(timestamp, other)));
    }
  }

  lemma {:induction false} TranslatedNets(t: Tracker, txns: seq<ChainTxn>, indexed: seq<IndexedTransaction>)
    requires BlockTranslates(t, txns, indexed)
    ensures AllNet(t, txns)
  {
    hide Net, NewsAfter;
    forall k | 0 <= k < |txns| ensures Net(t, txns[k].payer, txns[k].events, NewsAfter(t, txns[..k])).ok {
      assert TxnTranslates(t, txns, k, indexed[k]);
    }
  }

  lemma {:induction false} OwnPrefix(txns: seq<FetchedTxn>, i: nat)
    requires i < |txns| && txns[i].ownBlock
    ensures OwnTxns(txns[..i]) + [txns[i].txn] <= OwnTxns(txns)
  {
    if i == |txns| - 1 {
      assert txns[..i] == txns[..|txns| - 1];
    } else {
      var shorter := txns[..|txns| - 1];
      OwnPrefix(shorter, i);
      assert shorter[..i] == txns[..i];
    }
  }

  /** The positions of the block's own transactions. */
  function OwnPositions(txns: seq<FetchedTxn>): set<nat> {
    set k: nat | k < |txns| && txns[k].ownBlock
  }

  lemma {:induction false} OwnCount(txns: seq<FetchedTxn>)
    ensures |OwnTxns(txns)| == |OwnPositions(txns)|
  {
    if txns != [] {
      var n := |txns| - 1;
      OwnCount(txns[..n]);
      assert OwnPositions(txns) == OwnPositions(txns[..n]) + (if txns[n].ownBlock then {n as nat} else {});
    }
  }

  /** The own transactions in their order, and no others: one with j own ones before
      it is the j-th, and there are as many as own positions. */
  lemma {:induction false} OwnTxnsAre(txns: seq<FetchedTxn>, k: nat)
    ensures |OwnTxns(txns)| == |OwnPositions(txns)|
    ensures k < |txns| && txns[k].ownBlock ==>
              var j := |OwnPositions(txns[..k])|;
              j < |OwnTxns(txns)| && OwnTxns(txns)[j] == txns[k].txn
  {
    OwnCount(txns);
    if k < |txns| && txns[k].ownBlock {
      OwnCount(txns[..k]);
      OwnPrefix(txns, k);
    }
  }

  lemma {:induction false} AllOwnTxns(txns: seq<FetchedTxn>)
    requires forall k :: 0 <= k < |txns| ==> txns[k].ownBlock
    ensures |OwnTxns(txns)| == |txns| && forall k :: 0 <= k < |txns| ==> OwnTxns(txns)[k] == txns[k].txn
  {
    if txns != [] {
      AllOwnTxns(txns[..|txns| - 1]);
    }
  }

  lemma {:induction false} UnnettedFails(t: Tracker, txns: seq<FetchedTxn>, i: nat)
    requires i < |txns| && txns[i].ownBlock
    requires !Net(t, txns[i].txn.payer, txns[i].txn.events, NewsAfter(t, OwnTxns(txns[..i]))).ok
    ensures !AllNet(t, OwnTxns(txns))
  {
    hide Net, NewsAfter;
    OwnPrefix(txns, i);
    var own, k := OwnTxns(txns), |OwnTxns(txns[..i])|;
    assert own[..k] == OwnTxns(txns[..i]) && own[k] == txns[i].txn;
  }

  datatype Outcome =
    | Restarted // `continue outer`: fetch again
    | Fataled   // log.Fatalf
    | Starved   // Store.Index keeps returning an error
    | Committed

  lemma {:induction false} IndexesOneMore(cfg: Config, chain: Chain, history: History, b: ChainBlock, e: Entry)
    requires Indexes(cfg, chain, history)
    requires e.hash == b.hash && e.block.timestamp == b.timestamp
    requires BlockTranslates(TrackerOf(cfg, AcctsAfter(cfg, chain)), b.txns, e.block.transactions)
    ensures Indexes(cfg, chain + [b], history + [e])
  {
    hide Translates, AcctsAfter, NewsAfter, BlockTranslates;
    var longer := chain + [b];
    forall n | 0 <= n < |longer| ensures EntryMatches(cfg, longer, n, (history + [e])[n]) {
      if n < |chain| {
        assert longer[..n] == chain[..n];
        assert EntryMatches(cfg, chain, n, history[n]);
      } else {
        assert longer[..n] == chain;
      }
    }
  }

  /** Every sane stretch of the chain is indexed by the same stretch of the history. */
  ghost predicate Faithful(cfg: Config, chain: Chain, history: History) {
    && |chain| == |history|
    && forall m :: 0 <= m <= |chain| && Sane(chain[..m]) ==> Indexes(cfg, chain[..m], history[..m])
  }

  lemma {:induction false} FaithfulPrefix(cfg: Config, chain: Chain, history: History, n: nat)
    requires Faithful(cfg, chain, history) && n <= |chain|
    ensures Faithful(cfg, chain[..n], history[..n])
  {
    hide Sane, Indexes;
    forall m | 0 <= m <= n && Sane(chain[..n][..m]) ensures Indexes(cfg, chain[..n][..m], history[..n][..m]) {
      assert chain[..n][..m] == chain[..m] && history[..n][..m] == history[..m];
    }
  }

  lemma {:induction false} FaithfulOneMore(cfg: Config, chain: Chain, history: History, b: ChainBlock, e: Entry)
    requires Faithful(cfg, chain, history)
    requires Sane(chain + [b]) ==> Indexes(cfg, chain + [b], history + [e])
    ensures Faithful(cfg, chain + [b], history + [e])
  {
    hide Sane, Indexes;
    var longer, further := chain + [b], history + [e];
    forall m | 0 <= m <= |longer| && Sane(longer[..m]) ensures Indexes(cfg, longer[..m], further[..m]) {
      if m <= |chain| {
        assert longer[..m] == chain[..m] && further[..m] == history[..m];
      } else {
        assert longer[..m] == longer && further[..m] == further;
      }
    }
  }

  /** The store's answer to Accounts is the account map of its history. */
  lemma {:induction false} StoreAcctsMatch(root: BlockMeta, history: History, accts: map<Address, bool>)
    requires forall a: Address :: a in accts <==> exists h :: TouchedAt(root, history, a, h)
    requires forall a: Address :: a in accts ==> (accts[a] <==> exists h :: ProxyCreatedAt(root, history, a, h))
    ensures IsStoreAccts(history, accts)
  {
    hide Touches, CreatesProxy;
    forall a: Address
      ensures (exists h :: TouchedAt(root, history, a, h)) <==> HistoryTouches(history, a)
      ensures (exists h :: ProxyCreatedAt(root, history, a, h)) <==> HistoryCreatesProxy(history, a)
    {
      if HistoryTouches(history, a) {
        var n :| 0 <= n < |history| && Touches(EntryOps(history[n]), a);
        assert TouchedAt(root, history, a, root.height + n + 1);
      }
      if HistoryCreatesProxy(history, a) {
        var n :| 0 <= n < |history| && CreatesProxy(EntryOps(history[n]), a);
        assert ProxyCreatedAt(root, history, a, root.height + n + 1);
      }
    }
  }

  /** A committed block keeps the index faithful and the account map in agreement. */
  lemma {:induction false} CommitAgrees(
      cfg: Config, chain: Chain, history: History, accts: map<Address, bool>, b: ChainBlock, e: Entry)
    requires Faithful(cfg, chain, history)
    requires Sane(chain) ==> Agrees(cfg, chain, accts, AcctsAfter(cfg, chain))
    requires e.hash == b.hash && e.block.timestamp == b.timestamp
    requires BlockTranslates(TrackerOf(cfg, accts), b.txns, e.block.transactions)
    ensures Faithful(cfg, chain + [b], history + [e])
    ensures Sane(chain + [b]) ==>
              Agrees(cfg, chain + [b], accts + NewsAfter(TrackerOf(cfg, accts), b.txns), AcctsAfter(cfg, chain + [b]))
  {
    hide Indexes, BlockTranslates, Agrees, AcctsAfter, NewsAfter, Sane;
    if Sane(chain + [b]) {
      SanePrefix(chain + [b], |chain|);
      assert (chain + [b])[..|chain|] == chain && chain[..|chain|] == chain && history[..|history|] == history;
      ReprocessingAgrees(cfg, chain, b, accts, e.block.transactions);
      IndexesOneMore(cfg, chain, history, b, e);
    }
    FaithfulOneMore(cfg, chain, history, b, e);
  }

  /** How many blocks of the chain a resync keeps; zero stands for no resync. */
  function KeptLength(chain: Chain, root: BlockMeta, resyncFrom: uint64): int {
    if resyncFrom == 0 || |chain| < resyncFrom - root.height then |chain| else resyncFrom - root.height
  }

  class Indexer {
    const cfg: Config
    const store: Store
    var accts: map<Address, bool>
    var lastIndexed: BlockMeta
    var sealedResults: map<ByteString, ByteString>
    /** The chain blocks behind the store's history. */
    ghost var chain: Chain

    /** The store is intact, its history is an index of the chain, and the account
        map answers like that of an uninterrupted run, as long as the chain is sane. */
    ghost predicate Valid()
      reads this, store
    {
      && store.Valid() && store.latest == Some(lastIndexed) && store.genesis.Some?
      && Faithful(cfg, chain, store.history)
      && (Sane(chain) ==> Agrees(cfg, chain, accts, AcctsAfter(cfg, chain)))
    }

    /** initStore on an empty database: the first spork's root block becomes genesis. */
    constructor Start(cfg: Config, genesis: BlockMeta)
      ensures Valid() && fresh(store) && chain == [] && store.root == genesis && lastIndexed == genesis
      ensures this.cfg == cfg && sealedResults == map[]
    {
      this.cfg := cfg;
      store := new Store.Create(genesis);
      accts, lastIndexed, sealedResults := map[], genesis, map[];
      chain := [];
    }

    /** initStore, handleResyncFrom and initState on an existing database. A
        resync height below genesis is a fatal configuration error. */
    constructor Resume(cfg: Config, stored: Db, resyncFrom: uint64,
                       ghost root: BlockMeta, ghost history: History, ghost chain: Chain)
      requires Represents(stored, root, history) && Faithful(cfg, chain, history)
      requires resyncFrom != 0 ==> root.height <= resyncFrom && UnsharedHashes(root, history, resyncFrom)
      ensures Valid() && fresh(store) && store.root == root && this.cfg == cfg && sealedResults == map[]
      ensures var kept := KeptLength(chain, root, resyncFrom);
              this.chain == chain[..kept] && store.history == history[..kept]
    {
      hide Represents, Sane, Indexes, Agrees, IsStoreAccts, AcctsAfter, UnsharedHashes;
      this.cfg := cfg;
      var s := new Store.Open(stored, root, history);
      var g := s.Genesis();
      var tip := s.Latest();
      ghost var kept := KeptLength(chain, root, resyncFrom);
      assert history[..|history|] == history && chain[..|chain|] == chain;
      if resyncFrom != 0 {
        s.ResetTo(resyncFrom);
        tip := s.Latest();
      }
      assert s.history == history[..kept];
      var found := s.Accounts();
      store := s;
      accts, lastIndexed, sealedResults := found.value, tip, map[];
      this.chain := chain[..kept];
      StoreAcctsMatch(root, history[..kept], found.value);
      FaithfulPrefix(cfg, chain, history, kept);
      if Sane(chain[..kept]) {
        assert chain[..kept][..kept] == chain[..kept] && history[..kept][..kept] == history[..kept];
        RestartAgrees(cfg, chain[..kept], history[..kept], found.value);
      }
    }

    /** The transaction loop of processBlock. */
    method TranslateBlock(f: Fetched) returns (ok: bool, indexed: seq<IndexedTransaction>, news: map<Address, bool>)
      requires Valid()
      ensures ok <==> Translatable(TrackerOf(cfg, accts), f)
      ensures ok ==>
                && BlockTranslates(TrackerOf(cfg, accts), OwnTxns(f.txns), indexed)
                && news == NewsAfter(TrackerOf(cfg, accts), OwnTxns(f.txns))
    {
      hide Valid, Translates, First, Net, BlockTranslates, NewsAfter, AllNet;
      var t := TrackerOf(cfg, accts);
      ok, indexed, news := false, [], map[];
      assert f.txns[..0] == [];
      NothingTranslated(t);
      for i := 0 to |f.txns|
        invariant f.skip || forall k :: 0 <= k < i ==> f.txns[k].ownBlock
        invariant BlockTranslates(t, OwnTxns(f.txns[..i]), indexed)
        invariant news == NewsAfter(t, OwnTxns(f.txns[..i]))
      {
        assert f.txns[..i + 1][..i] == f.txns[..i];
        if !f.txns[i].ownBlock {
          if f.skip {
            assert OwnTxns(f.txns[..i + 1]) == OwnTxns(f.txns[..i]);
            continue;
          }
          return;
        }
        var x := f.txns[i].txn;
        assert OwnTxns(f.txns[..i + 1]) == OwnTxns(f.txns[..i]) + [x];
        var accepted, ops, news' := TranslateTransaction(t, x.payer, x.events, news);
        if !accepted {
          UnnettedFails(t, f.txns, i);
          return;
        }
        BlockOneMore(t, OwnTxns(f.txns[..i]), x, indexed, IndexedTransaction(x.hash, ops, x.failed));
        indexed := indexed + [IndexedTransaction(x.hash, ops, x.failed)];
        news := news';
      }
      assert f.txns[..|f.txns|] == f.txns;
      TranslatedNets(t, OwnTxns(f.txns), indexed);
      ok := true;
    }

    /** The end of processBlock: the store first, then the indexer's own fields. */
    method Commit(
        height: uint64, hash: ByteString, block: IndexedBlock, news: map<Address, bool>, ghost txns: seq<ChainTxn>)
      returns (ok: bool)
      requires Valid() && height == lastIndexed.height + 1
      requires BlockTranslates(TrackerOf(cfg, accts), txns, block.transactions) &&
               news == NewsAfter(TrackerOf(cfg, accts), txns)
      modifies this, store
      ensures Valid() && store.root == old(store.root)
      ensures ok <==> NoneNegative(old(store.history), Entry(hash, block))
      ensures ok ==>
                && chain == old(chain) + [ChainBlock(hash, block.timestamp, txns)]
                && store.history == old(store.history) + [Entry(hash, block)] && accts == old(accts) + news
                && lastIndexed.height == height && lastIndexed.hash == hash
                && sealedResults == old(sealedResults) - {hash}
      ensures !ok ==>
                && chain == old(chain) && accts == old(accts) && store.db == old(store.db)
                && store.history == old(store.history) && lastIndexed == old(lastIndexed)
                && sealedResults == old(sealedResults)
    {
      store.LatestIsTip();
      hide Represents, Sane, Indexes, Agrees, AcctsAfter, BlockTranslates, NewsAfter, Faithful, NoneNegative,
        HashOf, BlockOf;
      ghost var b := ChainBlock(hash, block.timestamp, txns);
      CommitAgrees(cfg, chain, store.history, accts, b, Entry(hash, block));
      var result := store.Index(height, hash, block);
      assert result == Indexed || result == Rejected; // the height is neither known nor beyond a gap
      if result != Indexed {
        return false;
      }
      accts := accts + news;
      lastIndexed := store.latest.value;
      sealedResults := sealedResults - {hash};
      chain := chain + [b];
      ok := true;
    }

    /** The attempt with this data would commit. */
    ghost predicate Accepts(spork: SporkInfo, tolerance: uint64, height: uint64, hash: ByteString, f: Fetched)
      reads this, store
    {
      var t := TrackerOf(cfg, accts);
      && SealGate(spork, tolerance, height, hash, f, sealedResults) == Pass && Translatable(t, f)
      && Storable(t, store.history, hash, f.timestamp, OwnTxns(f.txns))
    }

    /** The attempt with this data would be given up and the data fetched again. */
    ghost predicate Retries(spork: SporkInfo, tolerance: uint64, height: uint64, hash: ByteString, f: Fetched)
      reads this
    {
      var gate := SealGate(spork, tolerance, height, hash, f, sealedResults);
      gate == Again || (gate == Pass && !Translatable(TrackerOf(cfg, accts), f))
    }

    /** One attempt of processBlock at the next height, once the data has been fetched. */
    method ProcessBlock(
        spork: SporkInfo, tolerance: uint64, height: uint64, hash: ByteString, f: Fetched) returns (outcome: Outcome)
      requires Valid() && height == lastIndexed.height + 1
      modifies this, store
      ensures Valid() && store.root == old(store.root)
      ensures outcome == Committed <==> old(Accepts(spork, tolerance, height, hash, f))
      ensures outcome == Restarted <==> old(Retries(spork, tolerance, height, hash, f))
      ensures outcome == Fataled <==> SealGate(spork, tolerance, height, hash, f, old(sealedResults)) == Fatal
      ensures outcome == Committed ==>
                && chain == old(chain) + [ChainBlock(hash, f.timestamp, OwnTxns(f.txns))]
                && |store.history| == |old(store.history)| + 1 && old(store.history) <= store.history
                && BlockTranslates(old(TrackerOf(cfg, accts)), OwnTxns(f.txns),
                                   store.history[|old(store.history)|].block.transactions)
                && accts == old(accts) + NewsAfter(old(TrackerOf(cfg, accts)), OwnTxns(f.txns))
                && lastIndexed.height == height && lastIndexed.hash == hash
                && sealedResults == old(sealedResults) - {hash}
      ensures outcome == Committed ==>
                FromFetched(f, chain[|chain| - 1].txns, store.history[|store.history| - 1].block.transactions)
      ensures outcome == Committed ==>
                var e := store.history[|store.history| - 1];
                e.hash == hash && e.block.timestamp == f.timestamp
      ensures outcome != Committed ==>
                && chain == old(chain) && accts == old(accts) && store.db == old(store.db)
                && store.history == old(store.history) && lastIndexed == old(lastIndexed)
                && sealedResults == old(sealedResults)
    {
      store.LatestIsTip();
      hide Represents, Sane, Indexes, Agrees, AcctsAfter, BlockTranslates, NewsAfter, SealGate, Faithful, OwnTxns;
      hide Translatable, Storable, NoneNegative, FromFetched;
      var verdict := SealGate(spork, tolerance, height, hash, f, sealedResults);
      if verdict != Pass {
        return if verdict == Fatal then Fataled else Restarted;
      }
      var ok, indexed, news := TranslateBlock(f);
      if !ok {
        return Restarted;
      }
      AllFromFetched(TrackerOf(cfg, accts), f, indexed);
      StorableIsDetermined(TrackerOf(cfg, accts), store.history, hash, f.timestamp, OwnTxns(f.txns), indexed);
      var committed := Commit(height, hash, IndexedBlock(f.timestamp, indexed), news, OwnTxns(f.txns));
      outcome := if committed then Committed else Starved;
    }

    /** The balance endpoint: on a sane chain, the sum of the account's own events. */
    method BalanceOf(a: Address, height: uint64) returns (balance: uint64)
      requires Valid() && store.root.height <= height <= lastIndexed.height
      ensures Sane(chain) && a !in cfg.feeAddrs ==>
                var prefix := chain[..height - store.root.height];
                var t := TrackerOf(cfg, AcctsAfter(cfg, prefix));
                var flow := ChainFlow(prefix, a, t.IsProxy(a, map[]));
                t.IsTracked(a, map[]) && 0 <= flow < TWO_63 ==> balance == flow
    {
      hide Represents, Sane, Agrees, AcctsAfter, ChainFlow, BalanceAt, Faithful, ToUint64, HashOf, BlockOf;
      store.LatestIsTip();
      balance := store.LookupBalance(a, height);
      SameLengths(cfg, chain, store.history);
      LookupIsFlow(cfg, store.root, chain, store.history, a, height);
    }
  }

  lemma {:induction false} SameLengths(cfg: Config, chain: Chain, history: History)
    requires Faithful(cfg, chain, history)
    ensures |chain| == |history|
  {
  }

  lemma {:induction false} LookupIsFlow(
      cfg: Config, root: BlockMeta, chain: Chain, history: History, a: Address, h: int)
    requires Faithful(cfg, chain, history) && root.height <= h <= root.height + |chain|
    ensures Sane(chain) && a !in cfg.feeAddrs ==>
              var prefix := chain[..h - root.height];
              var t := TrackerOf(cfg, AcctsAfter(cfg, prefix));
              var flow := ChainFlow(prefix, a, t.IsProxy(a, map[]));
              t.IsTracked(a, map[]) && 0 <= flow < TWO_63 ==> ToUint64(BalanceAt(root, history, a, h)) == flow
  {
    hide Sane, AcctsAfter, ChainFlow, BalanceAt, ToUint64;
    if Sane(chain) && a !in cfg.feeAddrs {
      FaithfulIsIndex(cfg, chain, history);
      LookupRefinesLedger(cfg, root, chain, history, a, h);
    }
  }

  /** However two indexers came to stand at the end of one sane chain (from an empty
      store, resumed, resynced and reprocessed, with maps iterated in any order),
      they hold the same index, and follow the same accounts and proxies. */
  lemma {:induction false} SameChainSameIndex(x: Indexer, y: Indexer)
    requires x.Valid() && y.Valid() && x.cfg == y.cfg && x.store.root == y.store.root
    requires x.chain == y.chain && Sane(x.chain)
    ensures SameHistory(x.store.history, y.store.history) && SameStore(x.store.db, y.store.db)
    ensures forall a: Address, height ::
              BalanceAt(x.store.root, x.store.history, a, height) == BalanceAt(y.store.root, y.store.history, a, height)
    ensures forall a: Address ::
              var t, u := TrackerOf(x.cfg, x.accts), TrackerOf(y.cfg, y.accts);
              t.IsTracked(a, map[]) == u.IsTracked(a, map[]) && t.IsProxy(a, map[]) == u.IsProxy(a, map[])
  {
    hide Represents, Sane, Indexes, AcctsAfter, SameStore, SameHistory, BalanceAt, ChainMentions;
    var chain := x.chain;
    FaithfulIsIndex(x.cfg, chain, x.store.history);
    FaithfulIsIndex(y.cfg, chain, y.store.history);
    IndexIsDetermined(x.cfg, chain, x.store.history, y.store.history);
    ChainDeterminesStore(x.cfg, chain, x.store.db, y.store.db, x.store.root, x.store.history, y.store.history);
    forall a: Address
      ensures TrackerOf(x.cfg, x.accts).IsTracked(a, map[]) == TrackerOf(y.cfg, y.accts).IsTracked(a, map[])
      ensures TrackerOf(x.cfg, x.accts).IsProxy(a, map[]) == TrackerOf(y.cfg, y.accts).IsProxy(a, map[])
    {
      AnswersAgree(x.cfg, chain, x.accts, AcctsAfter(x.cfg, chain), map[], a);
      AnswersAgree(x.cfg, chain, y.accts, AcctsAfter(x.cfg, chain), map[], a);
    }
  }

  /** Two such indexers also take the same next block: what a resumed or resynced
      indexer is given again, it accepts exactly if the live one accepted it. */
  lemma {:induction false} SameChainSameVerdict(
      x: Indexer, y: Indexer, spork: SporkInfo, tolerance: uint64, height: uint64, hash: ByteString, f: Fetched)
    requires x.Valid() && y.Valid() && x.cfg == y.cfg && x.store.root == y.store.root && x.chain == y.chain
    requires Sane(x.chain + [ChainBlock(hash, f.timestamp, OwnTxns(f.txns))])
    requires SealGate(spork, tolerance, height, hash, f, x.sealedResults) ==
             SealGate(spork, tolerance, height, hash, f, y.sealedResults)
    ensures x.Accepts(spork, tolerance, height, hash, f) == y.Accepts(spork, tolerance, height, hash, f)
  {
    hide Represents, Sane, Indexes, AcctsAfter, SameStore, SameHistory, BalanceAt, SealGate, Storable, OwnTxns;
    hide BlockTranslates, AllNet, Agrees, Faithful;
    var chain, b := x.chain, ChainBlock(hash, f.timestamp, OwnTxns(f.txns));
    SanePrefix(chain + [b], |chain|);
    assert (chain + [b])[..|chain|] == chain;
    SameChainSameIndex(x, y);
    SameNets(x.cfg, chain, b, x.accts);
    SameNets(y.cfg, chain, b, y.accts);
    SameStorable(x.cfg, chain, b, x.accts, y.accts, x.store.history, y.store.history);
  }

  lemma {:induction false} SameNets(cfg: Config, chain: Chain, b: ChainBlock, accts: map<Address, bool>)
    requires Sane(chain + [b]) && Agrees(cfg, chain, accts, AcctsAfter(cfg, chain))
    ensures AllNet(TrackerOf(cfg, accts), b.txns) <==> AllNet(TrackerOf(cfg, AcctsAfter(cfg, chain)), b.txns)
  {
    hide Sane, Agrees, AcctsAfter, NewsAfter, Net, Undisturbed;
    var live := AcctsAfter(cfg, chain);
    var t, u := TrackerOf(cfg, accts), TrackerOf(cfg, live);
    forall k | 0 <= k < |b.txns|
      ensures Net(t, b.txns[k].payer, b.txns[k].events, NewsAfter(t, b.txns[..k])) ==
              Net(u, b.txns[k].payer, b.txns[k].events, NewsAfter(u, b.txns[..k]))
    {
      NewsAgree(cfg, chain, b, accts, k);
      NextBlockUndisturbed(cfg, chain, b, accts, k);
      NetAgrees(cfg, chain, accts, live, b.txns[k].payer, b.txns[k].events, NewsAfter(u, b.txns[..k]));
    }
  }

  lemma {:induction false} SameStorable(
      cfg: Config, chain: Chain, b: ChainBlock, accts: map<Address, bool>, accts': map<Address, bool>, h: History,
      h': History)
    requires Sane(chain + [b]) && SameHistory(h, h')
    requires Agrees(cfg, chain, accts, AcctsAfter(cfg, chain)) && Agrees(cfg, chain, accts', AcctsAfter(cfg, chain))
    ensures Storable(TrackerOf(cfg, accts), h, b.hash, b.timestamp, b.txns) <==>
            Storable(TrackerOf(cfg, accts'), h', b.hash, b.timestamp, b.txns)
  {
    hide Sane, Agrees, AcctsAfter, BlockTranslates, NoneNegative, SameHistory, NewsAfter;
    forall indexed: seq<IndexedTransaction>
      ensures BlockTranslates(TrackerOf(cfg, accts), b.txns, indexed) <==>
              BlockTranslates(TrackerOf(cfg, accts'), b.txns, indexed)
      ensures NoneNegative(h, Entry(b.hash, IndexedBlock(b.timestamp, indexed))) <==>
              NoneNegative(h', Entry(b.hash, IndexedBlock(b.timestamp, indexed)))
    {
      ReprocessingAgrees(cfg, chain, b, accts, indexed);
      ReprocessingAgrees(cfg, chain, b, accts', indexed);
      SameVerdict(h, h', Entry(b.hash, IndexedBlock(b.timestamp, indexed)),
                  Entry(b.hash, IndexedBlock(b.timestamp, indexed)));
    }
  }

  lemma {:induction false} FaithfulIsIndex(cfg: Config, chain: Chain, history: History)
    requires Faithful(cfg, chain, history) && Sane(chain)
    ensures Indexes(cfg, chain, history)
  {
    assert chain[..|chain|] == chain && history[..|history|] == history;
  }

  lemma {:induction false} NothingTranslated(t: Tracker)
    ensures BlockTranslates(t, [], []) && NewsAfter(t, []) == map[]
  {
  }

  lemma {:induction false} BlockOneMore(
      t: Tracker, txns: seq<ChainTxn>, x: ChainTxn, indexed: seq<IndexedTransaction>, last: IndexedTransaction)
    requires BlockTranslates(t, txns, indexed)
    requires last.hash == x.hash && last.failed == x.failed
    requires Translates(t, x.payer, x.events, NewsAfter(t, txns), last.operations)
    ensures BlockTranslates(t, txns + [x], indexed + [last])
    ensures NewsAfter(t, txns + [x]) == First(t, x.payer, x.events, NewsAfter(t, txns)).news
  {
    hide Translates, First;
    var longer := txns + [x];
    assert longer[..|txns|] == txns;
    forall k | 0 <= k < |longer| ensures TxnTranslates(t, longer, k, (indexed + [last])[k]) {
      if k < |txns| {
        assert longer[..k] == txns[..k];
        assert TxnTranslates(t, txns, k, indexed[k]);
      }
    }
  }
}
