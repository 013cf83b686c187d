/** The index database: a class over the key/value store, proved against the
    reference definition of IndexSpec. */
module IndexDb {
  import opened Prelude
  import opened Bytes
  import opened Badger
  import opened Model
  import opened IndexSpec
  import opened IndexTxn
  import opened Rollback
  import opened Scans

  datatype IndexOutcome =
    | Skipped   // the height is already indexed
    | Halted    // log.Fatalf: the height leaves a gap
    | Rejected  // an error is returned and nothing is written
    | Indexed

  datatype BalanceData = BalanceData(balance: uint64, hash: ByteString, height: uint64)

  datatype BlockData = BlockData(block: IndexedBlock, hash: ByteString, height: uint64,
                                 parentHash: ByteString, parentHeight: uint64)

  datatype AccountInfo = AccountInfo(changes: seq<(uint64, uint64)>, proxy: bool)

  class Store {
    var db: Db
    var genesis: Option<BlockMeta>
    var latest: Option<BlockMeta>
    ghost var root: BlockMeta
    ghost var history: History

    /** The store holds exactly the indexed history; the two cached fields, once
        loaded, agree with it. */
    ghost predicate Valid()
      reads this
    {
      && Represents(db, root, history)
      && (genesis.Some? ==> genesis.value == root)
      && (latest.Some? ==> db[LATEST_KEY] == Meta(latest.value))
    }

    /** indexdb.New on a directory that already holds a store. */
    constructor Open(stored: Db, ghost root: BlockMeta, ghost history: History)
      requires Represents(stored, root, history)
      ensures Valid() && db == stored && this.root == root && this.history == history
      ensures genesis == None && latest == None
    {
      db, genesis, latest := stored, None, None;
      this.root, this.history := root, history;
    }

    /** indexdb.New on an empty directory, followed by SetGenesis. */
    constructor Create(val: BlockMeta)
      ensures Valid() && root == val && history == []
      ensures genesis == Some(val) && latest == Some(val)
    {
      var blockKey, hashKey, heightKey := BlockKey(val.height), HashToHeightKey(val.hash), HeightToHashKey(val.height);
      db := map[GENESIS_KEY := Meta(val)]
        [blockKey := Block(IndexedBlock(val.timestamp, []))]
        [hashKey := Bytes(Encode64(val.height))]
        [heightKey := Bytes(val.hash)]
        [LATEST_KEY := Meta(val)];
      genesis, latest := Some(val), Some(val);
      root, history := val, [];
      new;
      hide FromBigEndian, HasPrefix;
      forall k | k != LATEST_KEY ensures Get(db, k) == Expected(val, [], k) {
        HeightKeyParts(val.height);
        if |k| == 9 {
          HeightKeyFromParts(k);
        }
        if k != [] {
          assert k == [k[0]] + k[1..];
        }
        assert GENESIS_KEY[0] == 103;
      }
    }

    method Genesis() returns (meta: BlockMeta)
      requires Valid()
      modifies this`genesis
      ensures Valid() && meta == root && genesis == Some(root)
    {
      if genesis.Some? {
        return genesis.value;
      }
      assert Get(db, GENESIS_KEY) == Expected(root, history, GENESIS_KEY);
      meta := db[GENESIS_KEY].meta;
      genesis := Some(meta);
    }

    method Latest() returns (meta: BlockMeta)
      requires Valid()
      modifies this`latest
      ensures Valid() && latest == Some(meta) && db[LATEST_KEY] == Meta(meta)
      ensures IsTip(root, history, meta)
    {
      if latest.Some? {
        return latest.value;
      }
      meta := db[LATEST_KEY].meta;
      latest := Some(meta);
    }

    lemma {:induction false} LatestIsTip()
      requires Valid() && latest.Some?
      ensures IsTip(root, history, latest.value)
    {
    }

    // ---- Lookups ----

    /** balanceByHeight: one reverse seek finds the folded balance. */
    method LookupBalance(a: Address, height: uint64) returns (balance: uint64)
      requires Valid()
      ensures balance == ToUint64(BalanceAt(root, history, a, height))
    {
      RepresentedIsWellKeyed(db, root, history);
      ghost var at;
      balance, at := SeekBalance(db, a, height);
      if at.None? {
        NoEntryMeansZero(db, root, history, a, height);
      } else {
        LastEntryHoldsBalance(db, root, history, a, height, at.value);
        Decode64Encode64(balance);
        Decode64Encode64(ToUint64(BalanceAt(root, history, a, height)));
      }
    }

    /** HasBalance: some block at or below the height touched the account. */
    method HasBalance(a: Address, height: uint64) returns (ok: bool)
      requires Valid()
      ensures ok <==> exists h :: h <= height && TouchedAt(root, history, a, h)
    {
      assert InBounds(root, history);
      hide Represents, TouchedAt, AccountKey, Decode64, WellKeyed, Less;
      RepresentedIsWellKeyed(db, root, history);
      var found := ReverseSeek(db, AccountKey(a, height));
      SeekAccount(db, a, height, found);
      ok := found.Some? && HasPrefix(found.value, [ACCOUNT_PREFIX] + a);
      if ok {
        ghost var h := Decode64(found.value[9..]);
        AccountEntry(db, root, history, a, h);
        assert h <= height && TouchedAt(root, history, a, h);
      } else {
        forall h | h <= height ensures !TouchedAt(root, history, a, h) {
          UntouchedWithoutKey(db, root, history, a, h);
        }
      }
    }

    method HashForHeight(height: uint64) returns (hash: Option<ByteString>)
      requires Valid()
      ensures hash == if root.height <= height <= root.height + |history|
                      then Some(HashOf(root, history, height)) else None
    {
      HeightEntries(db, root, history, height);
      var key := HeightToHashKey(height);
      hash := if key in db then Some(db[key].bytes) else None;
    }

    method HeightForHash(hash: ByteString) returns (height: Option<uint64>)
      requires Valid()
      ensures height == HeightOfHash(root, history, hash)
    {
      HashEntry(db, root, history, hash);
      var key := HashToHeightKey(hash);
      if key !in db {
        return None;
      }
      Decode64Encode64(HeightOfHash(root, history, hash).value);
      height := Some(Decode64(db[key].bytes));
    }

    method BalanceByHeight(a: Address, height: uint64) returns (data: Option<BalanceData>)
      requires Valid()
      ensures data == if root.height <= height <= root.height + |history|
                      then Some(BalanceData(ToUint64(BalanceAt(root, history, a, height)),
                                            HashOf(root, history, height), height))
                      else None
    {
      var balance := LookupBalance(a, height);
      var hash := HashForHeight(height);
      data := if hash.None? then None else Some(BalanceData(balance, hash.value, height));
    }

    /** blockByHeight followed by withParentInfo. */
    method BlockByHeight(height: uint64) returns (data: Option<BlockData>)
      requires Valid() && genesis.Some?
      ensures data == if root.height <= height <= root.height + |history|
                      then Some(DataOf(root, history, height)) else None
      ensures height == root.height ==>
                data == Some(BlockData(IndexedBlock(root.timestamp, []), root.hash, height, root.hash, height))
      ensures root.height < height <= root.height + |history| ==>
                var e := EntryAt(root, history, height);
                data == Some(BlockData(e.block, e.hash, height, HashOf(root, history, height - 1), height - 1))
    {
      var hash := HashForHeight(height);
      if hash.None? {
        return None;
      }
      HeightEntries(db, root, history, height);
      var block := db[BlockKey(height)].block;
      var parentHash, parentHeight := hash.value, height;
      if height != genesis.value.height {
        parentHeight := height - 1;
        var found := HashForHeight(parentHeight);
        parentHash := found.value;
      }
      data := Some(BlockData(block, hash.value, height, parentHash, parentHeight));
    }

    method BlockByHash(hash: ByteString) returns (data: Option<BlockData>)
      requires Valid() && genesis.Some?
      ensures data.Some? <==> exists h ::
                root.height <= h <= root.height + |history| && HashOf(root, history, h) == hash
      ensures data.Some? ==>
                && root.height <= data.value.height <= root.height + |history|
                && data.value == DataOf(root, history, data.value.height) && data.value.hash == hash
      ensures data.Some? ==>
                var h, parentHeight := data.value.height, data.value.parentHeight;
                && parentHeight == (if h == root.height then h else h - 1)
                && data.value.parentHash == HashOf(root, history, parentHeight)
    {
      HeightOfHashFinds(root, history, hash);
      var height := HeightForHash(hash);
      if height.None? {
        return None;
      }
      data := BlockByHeight(height.value);
      assert HashOf(root, history, height.value) == hash;
    }

    // ---- Full scans ----

    /** The addresses of all indexed accounts, and whether each is a proxy. The
        orphan error (None) is unreachable on a valid store. */
    method Accounts() returns (accts: Option<map<Address, bool>>)
      requires Valid()
      ensures accts.Some?
      ensures forall a: Address :: a in accts.value <==> exists h :: TouchedAt(root, history, a, h)
      ensures forall a: Address :: a in accts.value ==>
                (accts.value[a] <==> exists h :: ProxyCreatedAt(root, history, a, h))
    {
      hide Represents, TouchedAt, ProxyCreatedAt, HasAccountKey, HasProxyKey;
      KeysAreShaped();
      forall a: Address
        ensures HasAccountKey(db, a) <==> exists h :: TouchedAt(root, history, a, h)
        ensures HasProxyKey(db, a) <==> exists h :: ProxyCreatedAt(root, history, a, h)
        ensures HasProxyKey(db, a) ==> HasAccountKey(db, a)
      {
        KeyedAccounts(a);
      }
      accts := ScanAccounts(db);
    }

    lemma {:induction false} KeysAreShaped()
      requires Valid()
      ensures KeyShapes(db)
    {
      forall k | k in db && k != [] && (k[0] == ACCOUNT_PREFIX || k[0] == PROXY_PREFIX) ensures |k| == 17 {
        assert Get(db, k) == Expected(root, history, k);
      }
    }

    /** The keys of an account tell what the history does with it. */
    lemma {:induction false} KeyedAccounts(a: Address)
      requires Valid()
      ensures HasAccountKey(db, a) <==> exists h :: TouchedAt(root, history, a, h)
      ensures HasProxyKey(db, a) <==> exists h :: ProxyCreatedAt(root, history, a, h)
      ensures HasProxyKey(db, a) ==> HasAccountKey(db, a)
    {
      KeyedInHistory(db, root, history, a);
      hide TouchedAt, ProxyCreatedAt;
      if h: uint64 :| ProxyKey(a, h) in db {
        ProxyKeyParts(a, h);
        ProxyHasAccount(ProxyKey(a, h));
      }
    }

    lemma {:induction false} AccountKeysAreWellFormed(keys: seq<Key>)
      requires Valid()
      requires forall k :: k in keys <==> k in db && HasPrefix(k, [ACCOUNT_PREFIX])
      ensures forall k :: k in keys ==>
                |k| == 17 && k[0] == ACCOUNT_PREFIX && k in db && db[k].Bytes? && |db[k].bytes| == 8
    {
      RepresentedIsWellKeyed(db, root, history);
      forall k | k in keys ensures k[0] == ACCOUNT_PREFIX {
      }
    }

    /** Every proxy key has an account key at the same height. */
    lemma {:induction false} ProxyHasAccount(k: Key)
      requires Valid() && k in db && HasPrefix(k, [PROXY_PREFIX])
      ensures |k| == 17 && TouchedAt(root, history, k[1..9], Decode64(k[9..]))
      ensures AccountKey(k[1..9], Decode64(k[9..])) in db
    {
      assert k[0] == PROXY_PREFIX;
      assert Get(db, k) == Expected(root, history, k);
      var a: Address, h := k[1..9], Decode64(k[9..]);
      var ops := EntryOps(EntryAt(root, history, h));
      var op :| op in ops && OpCreatesProxy(op, a);
      assert OpTouches(op, a);
      AccountEntry(db, root, history, a, h);
    }

    /** The first scan of AccountsInfo: every account's balance changes in height order. */
    method AllChanges() returns (changes: map<Address, seq<(uint64, uint64)>>)
      requires Valid()
      ensures forall a: Address :: a in changes <==> HasAccountKey(db, a)
      ensures forall a: Address :: a in changes ==> ChangesMatch(root, history, a, changes[a])
    {
      hide Represents, TouchedAt, ProxyCreatedAt, Names, ChangesMatch, ChangesIn, HasPrefix, Ascending;
      hide HasAccountKey, HasProxyKey, KeyShapes;
      var keys := Scan(db, [ACCOUNT_PREFIX]);
      AccountKeysAreWellFormed(keys);
      changes := CollectChanges(db, keys);
      KeysAreShaped();
      forall a: Address ensures Names(keys, a) <==> HasAccountKey(db, a) {
        AccountNames(db, keys, a);
      }
      forall a: Address | a in changes ensures ChangesMatch(root, history, a, changes[a]) {
        ScannedChanges(keys, a);
      }
    }

    /** Every account's balance changes in height order, and its proxy flag. */
    method AccountsInfo() returns (data: map<Address, AccountInfo>)
      requires Valid()
      ensures forall a: Address :: a in data <==> exists h :: TouchedAt(root, history, a, h)
      ensures forall a: Address :: a in data ==>
                && ChangesMatch(root, history, a, data[a].changes)
                && (data[a].proxy <==> exists h :: ProxyCreatedAt(root, history, a, h))
    {
      hide Represents, TouchedAt, ProxyCreatedAt, ChangesMatch, HasAccountKey, HasProxyKey, KeyShapes;
      KeysAreShaped();
      forall a: Address
        ensures HasAccountKey(db, a) <==> exists h :: TouchedAt(root, history, a, h)
        ensures HasProxyKey(db, a) <==> exists h :: ProxyCreatedAt(root, history, a, h)
        ensures HasProxyKey(db, a) ==> HasAccountKey(db, a)
      {
        KeyedAccounts(a);
      }
      var changes := AllChanges();
      var proxies := MarkProxies(db, map a | a in changes :: false);
      data := map a | a in changes :: AccountInfo(changes[a], proxies.value[a]);
    }

    lemma {:induction false} ScannedChanges(keys: seq<Key>, a: Address)
      requires Valid() && Ascending(keys)
      requires forall k :: k in keys <==> k in db && HasPrefix(k, [ACCOUNT_PREFIX])
      ensures ChangesMatch(root, history, a, ChangesIn(db, keys, a))
    {
      AccountKeysAreWellFormed(keys);
      RepresentedIsWellKeyed(db, root, history);
      ChangesAscend(db, keys, a);
      forall h: uint64, b: uint64
        ensures (h, b) in ChangesIn(db, keys, a) <==>
                TouchedAt(root, history, a, h) && b == ToUint64(BalanceAt(root, history, a, h))
      {
        ChangesMember(db, keys, a, h, b);
        AccountEntry(db, root, history, a, h);
        AccountKeyParts(a, h);
        assert HasPrefix(AccountKey(a, h), [ACCOUNT_PREFIX]);
        Less64IsNumeric(b, ToUint64(BalanceAt(root, history, a, h)));
      }
    }

    // ---- Updates ----

    method PurgeProxyAccounts()
      requires Valid()
      modifies this`db
      ensures PurgeMatches(old(db), db, root, history)
      ensures forall k :: k in db ==> k in old(db) && db[k] == old(db)[k]
    {
      hide Represents, TouchedAt, ProxyCreatedAt, Names, KeyShapes, HasAccountKey, HasProxyKey, PurgeMatches, LastNamed;
      hide IsProxyIn, Ascending;
      KeysAreShaped();
      var keys := Scan(db, [PROXY_PREFIX]);
      ShapedKeys(db, keys, PROXY_PREFIX);
      var accts := LastKeyPerAccount(keys);
      forall a: Address ensures a in accts <==> IsProxyIn(root, history, a) {
        ProxyNames(db, keys, a);
        IsProxyByKey(a);
      }
      var balances := Scan(db, [ACCOUNT_PREFIX]);
      ShapedKeys(db, balances, ACCOUNT_PREFIX);
      var doomed := KeysOfAccounts(balances, accts.Keys);
      var creations := set a | a in accts :: accts[a];
      PurgedStore(db, db - (creations + doomed), root, history, keys, accts, balances, doomed);
      db := db - (creations + doomed);
    }

    lemma {:induction false} IsProxyByKey(a: Address)
      requires Valid()
      ensures HasProxyKey(db, a) <==> IsProxyIn(root, history, a)
    {
      KeyedInHistory(db, root, history, a);
    }

    lemma {:induction false} GetOfKept(gone: set<Key>, tip: Value, k: Key)
      ensures k != LATEST_KEY ==> Get((db - gone)[LATEST_KEY := tip], k) == if k in gone then None else Get(db, k)
    {
    }

    /** The deletions of ResetTo and the tip it writes back. */
    method KeptUpTo(base: uint64) returns (kept: Db, newTip: BlockMeta)
      requires Valid() && root.height <= base < root.height + |history|
      ensures forall k :: k != LATEST_KEY ==>
                Get(kept, k) == if Dropped(root, history, base, k) then None else Get(db, k)
      ensures Get(kept, LATEST_KEY) == Some(Meta(newTip))
      ensures newTip == BlockMeta(HashOf(root, history, base), base, [], BlockOf(root, history, base).timestamp)
    {
      hide Represents, Dropped, UnsharedHashes, StaleBlockKey, BlockKey, HeightToHashKey, HashOf, BlockOf;
      hide Decode64, FromBigEndian, Expected, HasPrefix;
      var stale := StaleEntries(ACCOUNT_PREFIX, base);
      var staleProxies := StaleEntries(PROXY_PREFIX, base);
      var staleBlocks, last := StaleBlocks(base);
      HeightEntries(db, root, history, last);
      var block, hash := db[BlockKey(last)].block, db[HeightToHashKey(last)].bytes;
      newTip := BlockMeta(hash, last, [], block.timestamp);
      var gone := stale + staleProxies + staleBlocks;
      kept := db - gone;
      kept := kept[LATEST_KEY := Meta(newTip)];
      forall k | k != LATEST_KEY
        ensures Get(kept, k) == if Dropped(root, history, base, k) then None else Get(db, k)
      {
        StaleIsDropped(stale, staleProxies, staleBlocks, base, k);
        GetOfKept(gone, Meta(newTip), k);
        hide Get, StaleBlocksMatch;
      }
      assert Get(kept, LATEST_KEY) == Some(Meta(newTip));
      hide Get;
    }

    /** Drop all indexed data above the given height. The single caller has
        checked that the height is not below genesis. */
    method ResetTo(base: uint64)
      requires Valid() && root.height <= base
      modifies this
      ensures root == old(root) && genesis == old(genesis) && latest.Some?
      ensures base >= old(root.height + |history|) ==> Valid() && db == old(db) && history == old(history)
      ensures base < old(root.height + |history|) ==>
                && history == UpTo(root, old(history), base)
                && (Valid() <==> UnsharedHashes(root, old(history), base))
      ensures latest.value.height == if base < old(root.height + |history|) then base else old(root.height + |history|)
    {
      var tip := Latest();
      if tip.height <= base {
        return;
      }
      var kept, newTip := KeptUpTo(base);
      RollbackRepresents(db, kept, root, history, base, newTip);
      db := kept;
      latest := Some(newTip);
      history := UpTo(root, history, base);
    }

    /** The first two scans of ResetTo: keys whose trailing height exceeds the base. */
    method StaleEntries(prefix: byte, base: uint64) returns (stale: set<Key>)
      requires Valid() && (prefix == ACCOUNT_PREFIX || prefix == PROXY_PREFIX)
      ensures forall k :: k in stale <==> k in db && |k| == 17 && k[0] == prefix && Decode64(k[9..]) > base
    {
      hide Represents, Decode64;
      stale := {};
      var keys := Scan(db, [prefix]);
      forall k | k in keys ensures |k| == 17 {
        StoredKeyShape(db, root, history, k);
      }
      for i := 0 to |keys|
        invariant forall k :: k in stale <==> k in keys[..i] && |k| == 17 && Decode64(k[9..]) > base
      {
        assert keys[i] in keys;
        if Decode64(keys[i][9..]) > base {
          stale := stale + {keys[i]};
        }
        assert keys[..i + 1] == keys[..i] + [keys[i]];
      }
      assert keys[..|keys|] == keys;
    }

    /** The third scan of ResetTo: the three keys of every block above the base,
        and the last height at or below it. */
    method StaleBlocks(base: uint64) returns (stale: set<Key>, last: uint64)
      requires Valid() && root.height <= base < root.height + |history|
      ensures last == base
      ensures StaleBlocksMatch(root, history, base, root.height + |history|, stale)
    {
      assert InBounds(root, history);
      hide Represents, StaleBlocksMatch, HasPrefix;
      NothingStale(root, history, base);
      stale, last := {}, 0;
      var keys := Scan(db, [HEIGHT_TO_HASH_PREFIX]);
      HeightScan(keys);
      for i := 0 to |keys|
        invariant StaleBlocksMatch(root, history, base, root.height + i - 1, stale)
        invariant i > 0 ==> last == if root.height + i - 1 <= base then root.height + i - 1 else base
      {
        var height;
        height, stale := StaleTurn(keys[i], root.height + i, base, stale);
        if height <= base {
          last := height;
        }
      }
    }

    /** One turn of that scan: the keys of a block above the base. */
    method StaleTurn(
        key: Key, ghost h: uint64, base: uint64, stale: set<Key>) returns (height: uint64, stale': set<Key>)
      requires Valid() && root.height <= h <= root.height + |history| && key == HeightToHashKey(h)
      requires StaleBlocksMatch(root, history, base, h - 1, stale)
      ensures height == h && StaleBlocksMatch(root, history, base, h, stale')
    {
      HeightKeyLength(h);
      HeightKeyParts(h);
      HeightEntries(db, root, history, h);
      StaleOneMore(root, history, base, h, stale);
      hide Represents, StaleBlocksMatch, HashOf, BlockOf, Decode64, HeightToHashKey, BlockKey, HashToHeightKey;
      height, stale' := Decode64(key[1..]), stale;
      if height > base {
        var hash := db[key].bytes;
        stale' := stale' + {key, BlockKey(height), HashToHeightKey(hash)};
      }
    }

    /** A scan of the height keys visits genesis..latest without gaps. */
    lemma {:induction false} HeightScan(keys: seq<Key>)
      requires Valid()
      requires Ascending(keys)
      requires forall k :: k in keys <==> k in db && HasPrefix(k, [HEIGHT_TO_HASH_PREFIX])
      ensures |keys| == |history| + 1
      ensures forall i :: 0 <= i < |keys| ==> keys[i] == HeightToHashKey(root.height + i)
    {
      assert InBounds(root, history);
      hide Represents, Less, HasPrefix, HeightToHashKey, Decode64;
      forall i | 0 <= i < |keys| ensures |keys[i]| == 9 {
        assert keys[i] in keys;
        HeightKeyIn(db, root, history, keys[i]);
      }
      HeightsCover(db, root, history, keys);
      AscendingRange(HeightsOf(keys), root.height, root.height + |history|);
      forall i | 0 <= i < |keys| ensures keys[i] == HeightToHashKey(root.height + i) {
        assert keys[i] in keys && HeightsOf(keys)[i] == root.height + i;
        HeightKeyIn(db, root, history, keys[i]);
      }
    }

    /** The keys collected by the three scans are the dropped keys of the store. */
    lemma {:induction false} StaleIsDropped(
        stale: set<Key>, staleProxies: set<Key>, staleBlocks: set<Key>, base: uint64, k: Key)
      requires Valid() && root.height <= base < root.height + |history|
      requires k in stale <==> k in db && |k| == 17 && k[0] == ACCOUNT_PREFIX && Decode64(k[9..]) > base
      requires k in staleProxies <==> k in db && |k| == 17 && k[0] == PROXY_PREFIX && Decode64(k[9..]) > base
      requires k in staleBlocks <==> StaleBlockKey(root, history, base, root.height + |history|, k)
      ensures k in stale + staleProxies + staleBlocks ==> Dropped(root, history, base, k)
      ensures Dropped(root, history, base, k) && k in db && k != LATEST_KEY ==> k in stale + staleProxies + staleBlocks
    {
      assert InBounds(root, history);
      StoredKeyShape(db, root, history, k);
      hide Represents, Expected, FromBigEndian, BigEndian, HashOf;
      if h :| base < h <= root.height + |history| && BlockKeysOf(root, history, h, k) {
        BlockKeyIsDropped(root, history, base, h, k);
      }
      if Dropped(root, history, base, k) && k in db {
        DroppedIsBlockKey(root, history, base, k);
      }
    }

    /** Index one block, all or nothing. */
    method Index(height: uint64, hash: ByteString, block: IndexedBlock) returns (outcome: IndexOutcome)
      requires Valid() && latest.Some?
      modifies this
      ensures Valid() && latest.Some? && root == old(root) && genesis == old(genesis)
      ensures outcome == Skipped <==> height <= old(root.height + |history|)
      ensures outcome == Halted <==> height > old(root.height + |history|) + 1
      ensures height == old(root.height + |history|) + 1 ==>
                (outcome == Indexed <==> NoneNegative(old(history), Entry(hash, block)))
      ensures outcome == Indexed ==>
                && history == old(history) + [Entry(hash, block)]
                && latest == Some(BlockMeta(hash, height, [], block.timestamp))
      ensures outcome != Indexed ==> db == old(db) && history == old(history) && latest == old(latest)
    {
      var tip := latest.value;
      if tip.height >= height {
        return Skipped;
      }
      if height != tip.height + 1 {
        return Halted;
      }
      var ok := IndexNext(height, hash, block);
      outcome := if ok then Indexed else Rejected;
    }

    /** The update transaction: nothing is written unless every balance is. */
    method IndexNext(height: uint64, hash: ByteString, block: IndexedBlock) returns (ok: bool)
      requires Valid() && latest.Some? && height == root.height + |history| + 1
      modifies this
      ensures Valid() && latest.Some? && root == old(root) && genesis == old(genesis)
      ensures ok <==> NoneNegative(old(history), Entry(hash, block))
      ensures ok ==>
                && history == old(history) + [Entry(hash, block)]
                && latest == Some(BlockMeta(hash, height, [], block.timestamp))
      ensures !ok ==> db == old(db) && history == old(history) && latest == old(latest)
    {
      ghost var entry := Entry(hash, block);
      var committed;
      committed, ok := Update(height, hash, block);
      if ok {
        db := committed;
        latest := Some(BlockMeta(hash, height, [], block.timestamp));
        history := history + [entry];
      }
    }

    method Update(height: uint64, hash: ByteString, block: IndexedBlock) returns (committed: Db, ok: bool)
      requires Valid() && height == root.height + |history| + 1
      ensures ok <==> NoneNegative(history, Entry(hash, block))
      ensures ok ==>
                && Represents(committed, root, history + [Entry(hash, block)])
                && LATEST_KEY in committed && committed[LATEST_KEY] ==
                    Meta(BlockMeta(hash, height, [], block.timestamp))
    {
      hide Represents, Operations, Balance, PendingMatches, DiffsMatch, ProxiesMatch, NoneNegative,
        Commits, Get;
      ghost var entry := Entry(hash, block);
      committed := db;
      var diffs, proxies := CollectDiffs(block.transactions, height);
      var pending;
      pending, ok := WriteBalances(diffs, height, entry);
      if ok {
        committed := Commit(pending, proxies, height, hash, block);
        CommitsTip(pending, committed, proxies, height, hash, block);
        CommitExtends(db, pending, committed, diffs, proxies, root, history, entry);
      }
    }

    /** The account writes inside Index's update transaction. */
    method WriteBalances(diffs: map<Address, int64>, height: uint64, ghost entry: Entry)
      returns (pending: Db, ok: bool)
      requires Valid() && height == root.height + |history| + 1
      requires DiffsMatch(diffs, EntryOps(entry))
      ensures ok <==> NoneNegative(history, entry)
      ensures ok ==> PendingMatches(db, pending, height, history + [entry], diffs.Keys)
    {
      pending, ok := db, true;
      var rest := diffs.Keys;
      ghost var done: set<Address> := {};
      while rest != {}
        invariant rest !! done && rest + done == diffs.Keys
        invariant forall a: Address :: a in done ==> NonNegative(history + [entry], a)
        invariant PendingMatches(db, pending, height, history + [entry], done)
        decreases rest
      {
        var a :| a in rest;
        assert Congruent(DiffOf(diffs, a), Effect(EntryOps(entry), a));
        pending, ok := WriteBalance(pending, a, diffs[a], height, entry, done);
        if !ok {
          return;
        }
        rest, done := rest - {a}, done + {a};
      }
      assert done == diffs.Keys;
    }

    /** One iteration: read the previous balance, add the diff, refuse a negative result. */
    method WriteBalance(
        pending: Db, a: Address, diff: int64, height: uint64, ghost entry: Entry, ghost done: set<Address>)
      returns (pending': Db, ok: bool)
      requires Valid() && height == root.height + |history| + 1
      requires PendingMatches(db, pending, height, history + [entry], done) && a !in done
      requires Congruent(diff, Effect(EntryOps(entry), a))
      ensures ok <==> NonNegative(history + [entry], a)
      ensures ok ==> PendingMatches(db, pending', height, history + [entry], done + {a})
    {
      pending' := pending;
      RepresentedIsWellKeyed(db, root, history);
      PendingIsWellKeyed(db, pending, height, history + [entry], done);
      forall h: uint64 ensures Get(pending, AccountKey(a, h)) == Get(db, AccountKey(a, h)) {
        AccountKeyParts(a, h);
      }
      var cur := CurrentBalance(pending, a, height);
      var val := ToInt64(cur + diff);
      NewBalance(history, entry, a, cur, diff);
      ok := val >= 0;
      if ok {
        pending' := SetBalance(pending, a, height, val, db, history + [entry], done);
      }
    }

    /** The seek for the account's previous entry, which must skip the entry being written. */
    method CurrentBalance(pending: Db, a: Address, height: uint64) returns (cur: int64)
      requires Valid() && height == root.height + |history| + 1
      requires WellKeyed(pending)
      requires forall h: uint64 :: Get(pending, AccountKey(a, h)) == Get(db, AccountKey(a, h))
      ensures cur == ToInt64(Balance(history, a))
    {
      assert UpTo(root, history, height) == history && InBounds(root, history);
      assert !Above(root, history, height);
      hide Represents, AccountKey, Decode64, Encode64, WellKeyed, Less, Balance, ToInt64, ToUint64, UpTo, HasPrefix;
      cur := 0;
      var key := AccountKey(a, height);
      var found := ReverseSeek(pending, key);
      SeekAccount(pending, a, height, found);
      forall h: uint64 ensures AccountKey(a, h) in pending <==> AccountKey(a, h) in db {
        assert Get(pending, AccountKey(a, h)) == Get(db, AccountKey(a, h));
      }
      if found.Some? && HasPrefix(found.value, [ACCOUNT_PREFIX] + a) {
        ghost var h := Decode64(found.value[9..]);
        assert Get(pending, AccountKey(a, h)) == Get(db, AccountKey(a, h));
        AccountEntry(db, root, history, a, height);
        if found.value == key {
          assert false; // no account key lies above the latest height
        } else {
          LastEntryHoldsBalance(db, root, history, a, height, h);
          cur := ToInt64(Decode64(pending[found.value].bytes));
          Decode64Encode64(ToUint64(Balance(history, a)));
          ReinterpretRoundTrip(Balance(history, a));
        }
      } else {
        NoEntryMeansZero(db, root, history, a, height);
      }
    }
  }

  /** The answer of both block lookups at an indexed height. */
  function DataOf(root: BlockMeta, history: History, h: uint64): BlockData
    requires root.height <= h <= root.height + |history|
  {
    var parent := if h == root.height then h else h - 1;
    BlockData(BlockOf(root, history, h), HashOf(root, history, h), h, HashOf(root, history, parent), parent)
  }
}
