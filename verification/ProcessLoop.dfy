/** One block: the attempts of processBlock, when they lead to a commit, and what the
    indexer has made of the block then. */
module ProcessLoop {
  import opened Prelude
  import opened Bytes
  import opened Model
  import opened IndexSpec
  import opened IndexDb
  import opened Ledger
  import opened Indexer

  /** The history holds this block at this height. */
  ghost predicate HasHash(root: BlockMeta, history: History, height: int, hash: ByteString) {
    root.height <= height <= root.height + |history| && HashOf(root, history, height) == hash
  }

  lemma {:induction false} LongerHasHash(
      root: BlockMeta, before: History, after: History, height: int, hash: ByteString)
    requires before <= after && HasHash(root, before, height, hash)
    ensures HasHash(root, after, height, hash)
  {
  }

  /** Some attempt would be accepted, and every one before it given up. */
  ghost predicate Leads(
      ix: Indexer, spork: SporkInfo, tolerance: uint64, height: uint64, hash: ByteString, attempts: seq<Fetched>)
    reads ix, ix.store
  {
    exists i :: 0 <= i < |attempts| && LeadsAt(ix, spork, tolerance, height, hash, attempts, i)
  }

  ghost predicate LeadsAt(
      ix: Indexer, spork: SporkInfo, tolerance: uint64, height: uint64, hash: ByteString, attempts: seq<Fetched>,
      i: nat)
    requires i < |attempts|
    reads ix, ix.store
  {
    && ix.Accepts(spork, tolerance, height, hash, attempts[i])
    && forall j :: 0 <= j < i ==> ix.Retries(spork, tolerance, height, hash, attempts[j])
  }

  /** The chain block behind a committed fetch. */
  function Fetches(hash: ByteString, f: Fetched): ChainBlock {
    ChainBlock(hash, f.timestamp, OwnTxns(f.txns))
  }

  // ---- What the indexer makes of a block ----

  /** The block is translated and stored. */
  ghost predicate Takes(
      cfg: Config, accts: map<Address, bool>, history: History, hash: ByteString, f: Fetched)
  {
    var t := TrackerOf(cfg, accts);
    Translatable(t, f) && Storable(t, history, hash, f.timestamp, OwnTxns(f.txns))
  }

  /** The account map and the history after a block was committed from this data. */
  ghost predicate Extends(
      cfg: Config, accts: map<Address, bool>, history: History, accts': map<Address, bool>, history': History,
      hash: ByteString, f: Fetched)
  {
    var t := TrackerOf(cfg, accts);
    && |history'| == |history| + 1 && history <= history'
    && history'[|history|].hash == hash && history'[|history|].block.timestamp == f.timestamp
    && BlockTranslates(t, OwnTxns(f.txns), history'[|history|].block.transactions)
    && accts' == accts + NewsAfter(t, OwnTxns(f.txns))
  }

  /** From the n-th block on, these blocks can be indexed one after the other from
      this data, with whatever map order. */
  ghost predicate Digestible(
      cfg: Config, accts: map<Address, bool>, history: History, hashes: seq<ByteString>, data: seq<Fetched>, n: nat)
    decreases if n < |data| then |data| - n else 0
  {
    n < |data| && n < |hashes| ==>
      && Takes(cfg, accts, history, hashes[n], data[n])
      && forall accts', history' :: Extends(cfg, accts, history, accts', history', hashes[n], data[n]) ==>
           Digestible(cfg, accts', history', hashes, data, n + 1)
  }

  // ---- The retry loop ----

  /** An attempt that the gate lets through and the indexer takes, after some that the
      gate sends back, is where the attempts lead. */
  lemma {:induction false} LeadsTo(
      ix: Indexer, spork: SporkInfo, tolerance: uint64, height: uint64, hash: ByteString, attempts: seq<Fetched>,
      i: nat)
    requires i < |attempts| && SealGate(spork, tolerance, height, hash, attempts[i], ix.sealedResults) == Pass
    requires Takes(ix.cfg, ix.accts, ix.store.history, hash, attempts[i])
    requires forall j :: 0 <= j < i ==>
               SealGate(spork, tolerance, height, hash, attempts[j], ix.sealedResults) == Again
    ensures LeadsAt(ix, spork, tolerance, height, hash, attempts, i)
    ensures forall k :: 0 <= k < |attempts| && LeadsAt(ix, spork, tolerance, height, hash, attempts, k) ==> k == i
  {
    hide SealGate, Translatable, Storable, OwnTxns;
    assert !ix.Retries(spork, tolerance, height, hash, attempts[i]);
  }

  /** The gate sends attempts back until it lets this one through. */
  ghost predicate Gated(
      spork: SporkInfo, tolerance: uint64, height: uint64, hash: ByteString, results: map<ByteString, ByteString>,
      attempts: seq<Fetched>, d: Fetched)
  {
    exists i :: 0 <= i < |attempts| && attempts[i] == d &&
      SealGate(spork, tolerance, height, hash, d, results) == Pass &&
      forall j :: 0 <= j < i ==> SealGate(spork, tolerance, height, hash, attempts[j], results) == Again
  }

  lemma {:induction false} GatedLeads(
      ix: Indexer, spork: SporkInfo, tolerance: uint64, height: uint64, hash: ByteString, attempts: seq<Fetched>,
      d: Fetched)
    ensures (&& Gated(spork, tolerance, height, hash, ix.sealedResults, attempts, d)
             && Takes(ix.cfg, ix.accts, ix.store.history, hash, d)) ==>
              && Leads(ix, spork, tolerance, height, hash, attempts)
              && forall k :: 0 <= k < |attempts| && LeadsAt(ix, spork, tolerance, height, hash, attempts, k) ==>
                   attempts[k] == d
  {
    hide SealGate, Takes, LeadsAt;
    if && Gated(spork, tolerance, height, hash, ix.sealedResults, attempts, d)
       && Takes(ix.cfg, ix.accts, ix.store.history, hash, d)
    {
      var i :| 0 <= i < |attempts| && attempts[i] == d &&
        SealGate(spork, tolerance, height, hash, d, ix.sealedResults) == Pass &&
        forall j :: 0 <= j < i ==> SealGate(spork, tolerance, height, hash, attempts[j], ix.sealedResults) == Again;
      LeadsTo(ix, spork, tolerance, height, hash, attempts, i);
    }
  }

  /** The retry loop of processBlock. It commits exactly if the attempts lead there:
      one that is fatal ends it, one that the store rejects is tried for ever, and
      the end of the script is a cancelled context. */
  method ProcessUntil(
      ix: Indexer, spork: SporkInfo, tolerance: uint64, height: uint64, hash: ByteString, attempts: seq<Fetched>)
    returns (committed: bool, f: Fetched)
    requires ix.Valid() && height == ix.lastIndexed.height + 1
    modifies ix, ix.store
    ensures ix.Valid() && ix.store.root == old(ix.store.root) && old(ix.store.history) <= ix.store.history
    ensures committed <==> old(Leads(ix, spork, tolerance, height, hash, attempts))
    ensures committed ==>
              && SealGate(spork, tolerance, height, hash, f, old(ix.sealedResults)) == Pass
              && (exists i :: 0 <= i < |attempts| && f == attempts[i] &&
                    old(LeadsAt(ix, spork, tolerance, height, hash, attempts, i)))
              && Extends(ix.cfg, old(ix.accts), old(ix.store.history), ix.accts, ix.store.history, hash, f)
              && ix.chain == old(ix.chain) + [Fetches(hash, f)]
              && |ix.store.history| == |old(ix.store.history)| + 1
              && ix.lastIndexed.height == height && ix.lastIndexed.hash == hash
              && HasHash(ix.store.root, ix.store.history, height, hash)
              && ix.sealedResults == old(ix.sealedResults) - {hash}
    ensures !committed ==>
              && !Leads(ix, spork, tolerance, height, hash, attempts)
              && ix.chain == old(ix.chain) && ix.accts == old(ix.accts)
              && ix.store.history == old(ix.store.history) && ix.lastIndexed == old(ix.lastIndexed)
              && ix.sealedResults == old(ix.sealedResults)
  {
    hide Indexer.Valid, SealGate, Translatable, Storable, OwnTxns, BlockTranslates, NewsAfter;
    committed, f := false, Fetched(0, [], false, false, None);
    for i := 0 to |attempts|
      invariant ix.Valid() && ix.store.root == old(ix.store.root) && ix.chain == old(ix.chain)
      invariant ix.store.history == old(ix.store.history) && ix.lastIndexed == old(ix.lastIndexed)
      invariant ix.sealedResults == old(ix.sealedResults) && ix.accts == old(ix.accts)
      invariant forall j :: 0 <= j < i ==> old(ix.Retries(spork, tolerance, height, hash, attempts[j]))
    {
      f := attempts[i];
      assert ix.Accepts(spork, tolerance, height, hash, f) == old(ix.Accepts(spork, tolerance, height, hash, f));
      assert ix.Retries(spork, tolerance, height, hash, f) == old(ix.Retries(spork, tolerance, height, hash, f));
      var outcome := ix.ProcessBlock(spork, tolerance, height, hash, f);
      if outcome == Committed {
        committed := true;
        TipHasHash(ix, height, hash);
        assert old(LeadsAt(ix, spork, tolerance, height, hash, attempts, i));
        return;
      }
      if outcome != Restarted {
        break;
      }
    }
    forall i | 0 <= i < |attempts|
      ensures LeadsAt(ix, spork, tolerance, height, hash, attempts, i) ==
              old(LeadsAt(ix, spork, tolerance, height, hash, attempts, i))
    {
    }
  }

  lemma {:induction false} StoreIsOpen(ix: Indexer)
    requires ix.Valid()
    ensures ix.store.Valid() && ix.store.genesis.Some?
  {
    hide Represents, Faithful, Sane;
  }

  lemma {:induction false} TipHasHash(ix: Indexer, height: uint64, hash: ByteString)
    requires ix.Valid() && ix.lastIndexed.height == height && ix.lastIndexed.hash == hash
    ensures HasHash(ix.store.root, ix.store.history, height, hash)
  {
    ix.store.LatestIsTip();
  }

  method RecordResults(ix: Indexer, results: map<ByteString, ByteString>)
    requires ix.Valid()
    modifies ix`sealedResults
    ensures ix.Valid() && ix.sealedResults == results
  {
    hide Represents, Faithful, Sane;
    ix.sealedResults := results;
  }
}
