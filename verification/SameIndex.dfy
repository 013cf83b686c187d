/** Two runs over one chain, whatever interrupted them and in whatever order maps
    were iterated, leave the same index: the same keys and values, and under the
    block keys the same transactions up to the order of their operations. */
module SameIndex {
  import opened Prelude
  import opened Bytes
  import opened Badger
  import opened Model
  import opened IndexSpec
  import opened IndexTxn
  import opened Translate
  import opened Ledger

  // ---- Equal up to the order of operations ----

  predicate SameTxn(x: IndexedTransaction, y: IndexedTransaction) {
    x.hash == y.hash && x.failed == y.failed && multiset(x.operations) == multiset(y.operations)
  }

  predicate SameTxns(xs: seq<IndexedTransaction>, ys: seq<IndexedTransaction>) {
    |xs| == |ys| && forall k :: 0 <= k < |xs| ==> SameTxn(xs[k], ys[k])
  }

  predicate SameBlock(b: IndexedBlock, c: IndexedBlock) {
    b.timestamp == c.timestamp && SameTxns(b.transactions, c.transactions)
  }

  predicate SameEntry(e: Entry, f: Entry) {
    e.hash == f.hash && SameBlock(e.block, f.block)
  }

  predicate SameHistory(h: History, h': History) {
    |h| == |h'| && forall n :: 0 <= n < |h| ==> SameEntry(h[n], h'[n])
  }

  // ---- The chain determines the index ----

  lemma {:induction false} BlockIsDetermined(
      t: Tracker, txns: seq<ChainTxn>, xs: seq<IndexedTransaction>, ys: seq<IndexedTransaction>)
    requires BlockTranslates(t, txns, xs) && BlockTranslates(t, txns, ys)
    ensures SameTxns(xs, ys)
  {
    hide Translates, NewsAfter;
    forall k | 0 <= k < |txns| ensures SameTxn(xs[k], ys[k]) {
      assert TxnTranslates(t, txns, k, xs[k]) && TxnTranslates(t, txns, k, ys[k]);
      OrderDoesNotMatter(t, txns[k].payer, txns[k].events, NewsAfter(t, txns[..k]), xs[k].operations, ys[k].operations);
    }
  }

  /** Reprocessing the same blocks rebuilds the same index. */
  lemma {:induction false} IndexIsDetermined(cfg: Config, chain: Chain, h: History, h': History)
    requires Indexes(cfg, chain, h) && Indexes(cfg, chain, h')
    ensures SameHistory(h, h')
  {
    hide BlockTranslates, AcctsAfter;
    forall n | 0 <= n < |chain| ensures SameEntry(h[n], h'[n]) {
      assert EntryMatches(cfg, chain, n, h[n]) && EntryMatches(cfg, chain, n, h'[n]);
      BlockIsDetermined(TrackerOf(cfg, AcctsAfter(cfg, chain[..n])), chain[n].txns,
                        h[n].block.transactions, h'[n].block.transactions);
    }
  }

  // ---- The order of operations does not reach the balances ----

  lemma {:induction false} EffectOfMultiset(x: seq<Operation>, y: seq<Operation>, a: Address)
    requires multiset(x) == multiset(y)
    ensures Effect(x, a) == Effect(y, a)
  {
    if x == [] {
      assert |multiset(y)| == 0;
    } else {
      var before, op := x[..|x| - 1], x[|x| - 1];
      assert x == before + [op];
      assert op in multiset(x);
      var j :| 0 <= j < |y| && y[j] == op;
      Removed(y, j);
      var rest := y[..j] + y[j + 1..];
      assert multiset(before) == multiset(x) - multiset{op};
      EffectOfMultiset(before, rest, a);
      RemovedEffect(y, j, a);
    }
  }

  lemma {:induction false} Removed(y: seq<Operation>, j: nat)
    requires j < |y|
    ensures multiset(y[..j] + y[j + 1..]) == multiset(y) - multiset{y[j]}
  {
    assert y == y[..j] + [y[j]] + y[j + 1..];
  }

  lemma {:induction false} RemovedEffect(y: seq<Operation>, j: nat, a: Address)
    requires j < |y|
    ensures Effect(y, a) == Effect(y[..j] + y[j + 1..], a) + OpEffect(y[j], a)
  {
    assert y == (y[..j] + [y[j]]) + y[j + 1..];
    EffectOfConcat(y[..j] + [y[j]], y[j + 1..], a);
    EffectOfConcat(y[..j], [y[j]], a);
    EffectOfConcat(y[..j], y[j + 1..], a);
    EffectOfOne(y[j], a);
  }

  lemma {:induction false} SameMembers(x: seq<Operation>, y: seq<Operation>, a: Address)
    requires multiset(x) == multiset(y)
    ensures Touches(x, a) == Touches(y, a) && CreatesProxy(x, a) == CreatesProxy(y, a)
  {
    assert forall op :: op in x <==> op in multiset(x);
    assert forall op :: op in y <==> op in multiset(y);
  }

  lemma {:induction false} SameOps(xs: seq<IndexedTransaction>, ys: seq<IndexedTransaction>)
    requires SameTxns(xs, ys)
    ensures multiset(Operations(xs)) == multiset(Operations(ys))
  {
    if xs != [] {
      SameOps(xs[..|xs| - 1], ys[..|ys| - 1]);
      assert SameTxn(xs[|xs| - 1], ys[|ys| - 1]);
    }
  }

  /** Equal entries have equal effects on every account. */
  lemma {:induction false} SameEffects(e: Entry, f: Entry, a: Address)
    requires SameEntry(e, f)
    ensures Effect(EntryOps(e), a) == Effect(EntryOps(f), a)
    ensures Touches(EntryOps(e), a) == Touches(EntryOps(f), a)
    ensures CreatesProxy(EntryOps(e), a) == CreatesProxy(EntryOps(f), a)
  {
    hide Effect, Touches, CreatesProxy, Operations;
    SameOps(e.block.transactions, f.block.transactions);
    EffectOfMultiset(EntryOps(e), EntryOps(f), a);
    SameMembers(EntryOps(e), EntryOps(f), a);
  }

  lemma {:induction false} SameStretch(h: History, h': History, n: nat)
    requires SameHistory(h, h') && n <= |h|
    ensures SameHistory(h[..n], h'[..n])
  {
  }

  lemma {:induction false} SameBalance(h: History, h': History, a: Address)
    requires SameHistory(h, h')
    ensures Balance(h, a) == Balance(h', a)
  {
    if h != [] {
      var n := |h| - 1;
      SameStretch(h, h', n);
      SameBalance(h[..n], h'[..n], a);
      SameEffects(h[n], h'[n], a);
    }
  }

  lemma {:induction false} SameExtended(h: History, h': History, e: Entry, f: Entry)
    requires SameHistory(h, h') && SameEntry(e, f)
    ensures SameHistory(h + [e], h' + [f])
  {
    hide SameEntry;
  }

  /** Whether the store takes the next block does not depend on the order of operations. */
  lemma {:induction false} SameVerdict(h: History, h': History, e: Entry, f: Entry)
    requires SameHistory(h, h') && SameEntry(e, f)
    ensures NoneNegative(h, e) == NoneNegative(h', f)
  {
    hide SameHistory, SameEntry, Balance, Touches, Operations, ToInt64;
    SameExtended(h, h', e, f);
    forall a: Address
      ensures Touches(EntryOps(e), a) == Touches(EntryOps(f), a) && NonNegative(h + [e], a) == NonNegative(h' + [f], a)
    {
      SameEffects(e, f, a);
      SameBalance(h + [e], h' + [f], a);
    }
  }

  lemma {:induction false} SameAccount(root: BlockMeta, h: History, h': History, a: Address, height: int)
    requires SameHistory(h, h')
    ensures BalanceAt(root, h, a, height) == BalanceAt(root, h', a, height)
    ensures TouchedAt(root, h, a, height) == TouchedAt(root, h', a, height)
    ensures ProxyCreatedAt(root, h, a, height) == ProxyCreatedAt(root, h', a, height)
  {
    hide Balance, Touches, CreatesProxy, Operations, SameEntry;
    if root.height < height < root.height + |h| {
      SameStretch(h, h', height - root.height);
    }
    assert SameHistory(UpTo(root, h, height), UpTo(root, h', height));
    SameBalance(UpTo(root, h, height), UpTo(root, h', height), a);
    if Above(root, h, height) {
      SameEffects(EntryAt(root, h, height), EntryAt(root, h', height), a);
    }
  }

  lemma {:induction false} SameHeight(root: BlockMeta, h: History, h': History, hash: ByteString)
    requires SameHistory(h, h') && InBounds(root, h)
    ensures HeightOfHash(root, h, hash) == HeightOfHash(root, h', hash)
  {
    if h != [] {
      var n := |h| - 1;
      SameStretch(h, h', n);
      SameHeight(root, h[..n], h'[..n], hash);
      assert SameEntry(h[n], h'[n]);
    }
  }

  lemma {:induction false} SameHash(root: BlockMeta, h: History, h': History, height: int)
    requires SameHistory(h, h') && root.height <= height <= root.height + |h|
    ensures HashOf(root, h, height) == HashOf(root, h', height)
    ensures SameBlock(BlockOf(root, h, height), BlockOf(root, h', height))
  {
    if height > root.height {
      assert SameEntry(h[height - root.height - 1], h'[height - root.height - 1]);
    }
  }

  // ---- The same store ----

  predicate IsBlockKey(k: Key) {
    k != [] && k[0] == BLOCK_PREFIX
  }

  ghost predicate SameValue(k: Key, v: Option<Value>, w: Option<Value>) {
    if IsBlockKey(k) && v.Some? && v.value.Block? then
      w.Some? && w.value.Block? && SameBlock(v.value.block, w.value.block)
    else v == w
  }

  /** Key by key, two indexes of one chain hold the same. */
  lemma {:induction false} SameExpected(root: BlockMeta, h: History, h': History, k: Key)
    requires SameHistory(h, h') && InBounds(root, h)
    ensures SameValue(k, Expected(root, h, k), Expected(root, h', k))
  {
    hide SameHistory, BalanceAt, TouchedAt, ProxyCreatedAt, HeightOfHash, SameBlock, HashOf, BlockOf;
    hide ToUint64, Encode64;
    if |k| == 17 {
      SameAccount(root, h, h', k[1..9], Decode64(k[9..]));
    } else if IsHeightKey(root, h, k) {
      SameHash(root, h, h', Decode64(k[1..]));
    }
    if k != [] {
      SameHeight(root, h, h', k[1..]);
    }
    SameLength(h, h');
  }

  lemma {:induction false} SameLength(h: History, h': History)
    requires SameHistory(h, h')
    ensures |h| == |h'|
  {
  }

  /** The metadata of the last indexed block, less the parent a genesis tip may carry. */
  function TipOf(db: Db): Option<Value> {
    match Get(db, LATEST_KEY)
    case Some(Meta(meta)) => Some(Meta(meta.(parent := [])))
    case other => other
  }

  ghost predicate SameStore(db: Db, db': Db) {
    && (forall k :: k != LATEST_KEY ==> SameValue(k, Get(db, k), Get(db', k)))
    && TipOf(db) == TipOf(db')
  }

  lemma {:induction false} SameHistorySameStore(db: Db, db': Db, root: BlockMeta, h: History, h': History)
    requires Represents(db, root, h) && Represents(db', root, h') && SameHistory(h, h')
    ensures SameStore(db, db')
    ensures h != [] ==> db[LATEST_KEY] == db'[LATEST_KEY]
  {
    hide SameHistory, SameValue, Expected, SameBlock;
    SameLength(h, h');
    forall k | k != LATEST_KEY ensures SameValue(k, Get(db, k), Get(db', k)) {
      SameExpected(root, h, h', k);
      assert Get(db, k) == Expected(root, h, k) && Get(db', k) == Expected(root, h', k);
    }
    SameHash(root, h, h', root.height + |h|);
  }

  /** Two stores that index one chain from one genesis are the same store, with
      the same balances, accounts and proxies at every height. */
  lemma {:induction false} ChainDeterminesStore(
      cfg: Config, chain: Chain, db: Db, db': Db, root: BlockMeta, h: History, h': History)
    requires Indexes(cfg, chain, h) && Indexes(cfg, chain, h')
    requires Represents(db, root, h) && Represents(db', root, h')
    ensures SameStore(db, db') && (chain != [] ==> db[LATEST_KEY] == db'[LATEST_KEY])
    ensures forall a: Address, height ::
              && BalanceAt(root, h, a, height) == BalanceAt(root, h', a, height)
              && TouchedAt(root, h, a, height) == TouchedAt(root, h', a, height)
              && ProxyCreatedAt(root, h, a, height) == ProxyCreatedAt(root, h', a, height)
  {
    assert |h| == |chain|;
    assert LATEST_KEY in db && LATEST_KEY in db';
    hide Indexes, Represents, SameStore, SameHistory, BalanceAt, TouchedAt, ProxyCreatedAt;
    IndexIsDetermined(cfg, chain, h, h');
    SameHistorySameStore(db, db', root, h, h');
    forall a: Address, height
      ensures BalanceAt(root, h, a, height) == BalanceAt(root, h', a, height)
      ensures TouchedAt(root, h, a, height) == TouchedAt(root, h', a, height)
      ensures ProxyCreatedAt(root, h, a, height) == ProxyCreatedAt(root, h', a, height)
    {
      SameAccount(root, h, h', a, height);
    }
  }
}
