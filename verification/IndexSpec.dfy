/** What the index database must contain: a key-by-key reference definition of
    the store in terms of the list of blocks indexed so far. */
module IndexSpec {
  import opened Prelude
  import opened Bytes
  import opened Badger
  import opened Model

  // ---- Keys and values ----

  const ACCOUNT_PREFIX: byte := 97        // 'a'
  const BLOCK_PREFIX: byte := 98          // 'b'
  const HASH_TO_HEIGHT_PREFIX: byte := 99 // 'c'
  const HEIGHT_TO_HASH_PREFIX: byte := 100 // 'd'
  const PROXY_PREFIX: byte := 112         // 'p'
  const GENESIS_KEY: Key := [103, 101, 110, 101, 115, 105, 115] // "genesis"
  const LATEST_KEY: Key := [108, 97, 116, 101, 115, 116]        // "latest"
  const ONE: Value := Bytes([49])                               // "1"

  /** Stored values: raw bytes, or one of the two protobuf messages. */
  datatype Value = Bytes(bytes: ByteString) | Block(block: IndexedBlock) | Meta(meta: BlockMeta)

  type Db = map<Key, Value>

  function AccountKey(a: Address, height: uint64): Key {
    [ACCOUNT_PREFIX] + a + Encode64(height)
  }

  function ProxyKey(a: Address, height: uint64): Key {
    [PROXY_PREFIX] + a + Encode64(height)
  }

  function BlockKey(height: uint64): Key {
    [BLOCK_PREFIX] + Encode64(height)
  }

  function HashToHeightKey(hash: ByteString): Key {
    [HASH_TO_HEIGHT_PREFIX] + hash
  }

  function HeightToHashKey(height: uint64): Key {
    [HEIGHT_TO_HASH_PREFIX] + Encode64(height)
  }

  function Get(db: Db, k: Key): Option<Value> {
    if k in db then Some(db[k]) else None
  }

  // ---- History ----

  /** One indexed block above genesis. */
  datatype Entry = Entry(hash: ByteString, block: IndexedBlock)

  type History = seq<Entry>

  function EntryOps(e: Entry): seq<Operation> {
    Operations(e.block.transactions)
  }

  predicate InBounds(root: BlockMeta, history: History) {
    root.height + |history| < TWO_64
  }

  /** Heights of the blocks indexed above genesis. */
  predicate Above(root: BlockMeta, history: History, h: int) {
    root.height < h <= root.height + |history|
  }

  function EntryAt(root: BlockMeta, history: History, h: int): Entry
    requires Above(root, history, h)
  {
    history[h - root.height - 1]
  }

  predicate TouchedAt(root: BlockMeta, history: History, a: Address, h: int) {
    Above(root, history, h) && Touches(EntryOps(EntryAt(root, history, h)), a)
  }

  predicate ProxyCreatedAt(root: BlockMeta, history: History, a: Address, h: int) {
    Above(root, history, h) && CreatesProxy(EntryOps(EntryAt(root, history, h)), a)
  }

  /** The fold the database speeds up: all operations so far, in unbounded integers. */
  function Balance(history: History, a: Address): int {
    if history == [] then 0
    else Balance(history[..|history| - 1], a) + Effect(EntryOps(history[|history| - 1]), a)
  }

  /** The blocks of the history at or below height h. */
  function UpTo(root: BlockMeta, history: History, h: int): History {
    if h <= root.height then []
    else if h - root.height >= |history| then history
    else history[..h - root.height]
  }

  function BalanceAt(root: BlockMeta, history: History, a: Address, h: int): int {
    Balance(UpTo(root, history, h), a)
  }

  /** The last height at which a block with this hash was indexed. */
  function HeightOfHash(root: BlockMeta, history: History, hash: ByteString): Option<uint64>
    requires InBounds(root, history)
  {
    if history == [] then
      if root.hash == hash then Some(root.height) else None
    else if history[|history| - 1].hash == hash then Some(root.height + |history|)
    else HeightOfHash(root, history[..|history| - 1], hash)
  }

  function HashOf(root: BlockMeta, history: History, h: int): ByteString
    requires root.height <= h <= root.height + |history|
  {
    if h == root.height then root.hash else EntryAt(root, history, h).hash
  }

  function BlockOf(root: BlockMeta, history: History, h: int): IndexedBlock
    requires root.height <= h <= root.height + |history|
  {
    if h == root.height then IndexedBlock(root.timestamp, []) else EntryAt(root, history, h).block
  }

  /** No block above genesis repeats an earlier hash. */
  predicate DistinctHashes(root: BlockMeta, history: History) {
    forall i, j :: root.height <= i < j <= root.height + |history| ==>
      HashOf(root, history, i) != HashOf(root, history, j)
  }

  // ---- The reference store ----

  function ExpectedAccount(root: BlockMeta, history: History, k: Key): Option<Value> {
    if |k| != 17 then None
    else
      var a: Address, h := k[1..9], Decode64(k[9..]);
      if TouchedAt(root, history, a, h)
      then Some(Bytes(Encode64(ToUint64(BalanceAt(root, history, a, h)))))
      else None
  }

  function ExpectedProxy(root: BlockMeta, history: History, k: Key): Option<Value> {
    if |k| == 17 && ProxyCreatedAt(root, history, k[1..9], Decode64(k[9..])) then Some(ONE) else None
  }

  predicate IsHeightKey(root: BlockMeta, history: History, k: Key) {
    |k| == 9 && root.height <= Decode64(k[1..]) <= root.height + |history|
  }

  /** The value the store must hold under any key other than "latest". */
  function Expected(root: BlockMeta, history: History, k: Key): Option<Value>
    requires InBounds(root, history)
  {
    if k == [] then None
    else if k == GENESIS_KEY then Some(Meta(root))
    else if k[0] == ACCOUNT_PREFIX then ExpectedAccount(root, history, k)
    else if k[0] == PROXY_PREFIX then ExpectedProxy(root, history, k)
    else if k[0] == BLOCK_PREFIX then
      if IsHeightKey(root, history, k) then Some(Block(BlockOf(root, history, Decode64(k[1..])))) else None
    else if k[0] == HEIGHT_TO_HASH_PREFIX then
      if IsHeightKey(root, history, k) then Some(Bytes(HashOf(root, history, Decode64(k[1..])))) else None
    else if k[0] == HASH_TO_HEIGHT_PREFIX then
      match HeightOfHash(root, history, k[1..])
      case None => None
      case Some(h) => Some(Bytes(Encode64(h)))
    else None
  }

  /** The metadata of the last indexed block. Index and ResetTo leave Parent
      unset, so only a store still at its initial genesis can carry one. */
  predicate IsTip(root: BlockMeta, history: History, tip: BlockMeta) {
    var top := root.height + |history|;
    && tip.height == top
    && tip.hash == HashOf(root, history, top)
    && tip.timestamp == BlockOf(root, history, top).timestamp
    && (tip.parent == [] || (history == [] && tip.parent == root.parent))
  }

  ghost predicate Represents(db: Db, root: BlockMeta, history: History) {
    && InBounds(root, history)
    && (forall k {:trigger Expected(root, history, k)} :: k != LATEST_KEY ==> Get(db, k) == Expected(root, history, k))
    && LATEST_KEY in db && db[LATEST_KEY].Meta?
    && IsTip(root, history, db[LATEST_KEY].meta)
  }

  /** A history determines the store, up to the Parent of a genesis tip. */
  lemma {:induction false} StoreIsDetermined(db: Db, db': Db, root: BlockMeta, history: History)
    requires Represents(db, root, history) && Represents(db', root, history)
    ensures db - {LATEST_KEY} == db' - {LATEST_KEY}
    ensures history != [] ==> db == db'
    ensures db[LATEST_KEY].meta.(parent := []) == db'[LATEST_KEY].meta.(parent := [])
  {
    forall k | k != LATEST_KEY ensures Get(db, k) == Get(db', k) {
      assert Get(db, k) == Expected(root, history, k);
    }
    assert forall k :: k in db - {LATEST_KEY} <==> Get(db, k).Some? && k != LATEST_KEY;
    assert forall k :: k in db' - {LATEST_KEY} <==> Get(db', k).Some? && k != LATEST_KEY;
    if history != [] {
      assert Get(db, LATEST_KEY) == Get(db', LATEST_KEY);
      assert forall k :: Get(db, k) == Get(db', k);
      assert forall k :: k in db <==> Get(db, k).Some?;
      assert forall k :: k in db' <==> Get(db', k).Some?;
      assert db == db';
    }
  }

  // ---- Keys decode to what was encoded ----

  lemma {:induction false} AccountKeyParts(a: Address, h: uint64)
    ensures var k := AccountKey(a, h);
            |k| == 17 && k[0] == ACCOUNT_PREFIX && k[1..9] == a && Decode64(k[9..]) == h
  {
    var k := AccountKey(a, h);
    assert k[1..9] == a && k[9..] == Encode64(h);
    Decode64Encode64(h);
  }

  lemma {:induction false} ProxyKeyParts(a: Address, h: uint64)
    ensures var k := ProxyKey(a, h);
            |k| == 17 && k[0] == PROXY_PREFIX && k[1..9] == a && Decode64(k[9..]) == h
  {
    var k := ProxyKey(a, h);
    assert k[1..9] == a && k[9..] == Encode64(h);
    Decode64Encode64(h);
  }

  lemma {:induction false} HeightKeyParts(h: uint64)
    ensures Decode64(BlockKey(h)[1..]) == h && Decode64(HeightToHashKey(h)[1..]) == h
  {
    assert BlockKey(h)[1..] == Encode64(h) == HeightToHashKey(h)[1..];
    Decode64Encode64(h);
  }

  lemma {:induction false} AccountKeyFromParts(k: Key)
    requires |k| == 17 && k[0] == ACCOUNT_PREFIX
    ensures k == AccountKey(k[1..9], Decode64(k[9..]))
  {
    Encode64Decode64(k[9..]);
    assert k == [k[0]] + k[1..9] + k[9..];
  }

  lemma {:induction false} ProxyKeyFromParts(k: Key)
    requires |k| == 17 && k[0] == PROXY_PREFIX
    ensures k == ProxyKey(k[1..9], Decode64(k[9..]))
  {
    Encode64Decode64(k[9..]);
    assert k == [k[0]] + k[1..9] + k[9..];
  }

  lemma {:induction false} HeightKeyFromParts(k: Key)
    requires |k| == 9
    ensures k[0] == BLOCK_PREFIX ==> k == BlockKey(Decode64(k[1..]))
    ensures k[0] == HEIGHT_TO_HASH_PREFIX ==> k == HeightToHashKey(Decode64(k[1..]))
  {
    Encode64Decode64(k[1..]);
    assert k == [k[0]] + k[1..];
  }

  /** Account entries sit exactly at the heights that touch the account. */
  lemma {:induction false} AccountEntry(db: Db, root: BlockMeta, history: History, a: Address, h: uint64)
    requires Represents(db, root, history)
    ensures AccountKey(a, h) in db <==> TouchedAt(root, history, a, h)
    ensures AccountKey(a, h) in db ==>
              db[AccountKey(a, h)] == Bytes(Encode64(ToUint64(BalanceAt(root, history, a, h))))
  {
    AccountKeyParts(a, h);
    assert Get(db, AccountKey(a, h)) == Expected(root, history, AccountKey(a, h));
  }

  lemma {:induction false} UntouchedWithoutKey(db: Db, root: BlockMeta, history: History, a: Address, h: int)
    requires Represents(db, root, history)
    requires 0 <= h < TWO_64 ==> AccountKey(a, h) !in db
    ensures !TouchedAt(root, history, a, h)
  {
    if 0 <= h < TWO_64 {
      AccountEntry(db, root, history, a, h);
    }
  }

  lemma {:induction false} ProxyEntry(db: Db, root: BlockMeta, history: History, a: Address, h: uint64)
    requires Represents(db, root, history)
    ensures ProxyKey(a, h) in db <==> ProxyCreatedAt(root, history, a, h)
  {
    ProxyKeyParts(a, h);
    assert Get(db, ProxyKey(a, h)) == Expected(root, history, ProxyKey(a, h));
  }

  lemma {:induction false} HeightEntries(db: Db, root: BlockMeta, history: History, h: uint64)
    requires Represents(db, root, history)
    ensures root.height <= h <= root.height + |history| ==>
              && Get(db, BlockKey(h)) == Some(Block(BlockOf(root, history, h)))
              && Get(db, HeightToHashKey(h)) == Some(Bytes(HashOf(root, history, h)))
    ensures !(root.height <= h <= root.height + |history|) ==>
              BlockKey(h) !in db && HeightToHashKey(h) !in db
  {
    HeightKeyParts(h);
    assert Get(db, BlockKey(h)) == Expected(root, history, BlockKey(h));
    assert Get(db, HeightToHashKey(h)) == Expected(root, history, HeightToHashKey(h));
  }

  lemma {:induction false} HashEntry(db: Db, root: BlockMeta, history: History, hash: ByteString)
    requires Represents(db, root, history)
    ensures match HeightOfHash(root, history, hash)
            case None => HashToHeightKey(hash) !in db
            case Some(h) => Get(db, HashToHeightKey(hash)) == Some(Bytes(Encode64(h)))
  {
    assert HashToHeightKey(hash)[1..] == hash;
    assert Get(db, HashToHeightKey(hash)) == Expected(root, history, HashToHeightKey(hash));
  }

  // ---- Reverse seek over one account ----

  /** Every stored key under the account prefix is a 17-byte account key. */
  ghost predicate WellKeyed(db: Db) {
    forall k :: k in db && k != [] && k[0] == ACCOUNT_PREFIX ==>
      |k| == 17 && db[k].Bytes? && |db[k].bytes| == 8
  }

  lemma {:induction false} RepresentedIsWellKeyed(db: Db, root: BlockMeta, history: History)
    requires Represents(db, root, history)
    ensures WellKeyed(db)
  {
    forall k | k in db && k != [] && k[0] == ACCOUNT_PREFIX
      ensures |k| == 17 && db[k].Bytes? && |db[k].bytes| == 8
    {
      assert Get(db, k) == Expected(root, history, k);
    }
  }

  /** On one account, key order is height order. */
  lemma {:induction false} AccountKeyOrder(a: Address, m: uint64, n: uint64)
    ensures AtMost(AccountKey(a, m), AccountKey(a, n)) <==> m <= n
    ensures HasPrefix(AccountKey(a, m), [ACCOUNT_PREFIX] + a)
  {
    var p := [ACCOUNT_PREFIX] + a;
    LessUnderPrefix(p, Encode64(m), Encode64(n));
    Less64IsNumeric(m, n);
    AccountKeyParts(a, m);
    AccountKeyParts(a, n);
  }

  /** h is the greatest height at or below `bound` with an entry for a. */
  ghost predicate LastEntry(db: Db, a: Address, bound: int, h: uint64) {
    && h <= bound && AccountKey(a, h) in db
    && forall h': uint64 :: h < h' <= bound ==> AccountKey(a, h') !in db
  }

  /** What a reverse seek at AccountKey(a, bound) lands on. */
  lemma {:induction false} SeekAccount(db: Db, a: Address, bound: uint64, found: Option<Key>)
    requires WellKeyed(db)
    requires found.None? ==> forall k :: k in db ==> !AtMost(k, AccountKey(a, bound))
    requires found.Some? ==> found.value in db && AtMost(found.value, AccountKey(a, bound))
    requires found.Some? ==>
               forall k :: k in db && AtMost(k, AccountKey(a, bound)) ==> AtMost(k, found.value)
    ensures found.Some? && HasPrefix(found.value, [ACCOUNT_PREFIX] + a) ==>
              |found.value| == 17 && found.value == AccountKey(a, Decode64(found.value[9..])) &&
              LastEntry(db, a, bound, Decode64(found.value[9..]))
    ensures !(found.Some? && HasPrefix(found.value, [ACCOUNT_PREFIX] + a)) ==>
              forall h: uint64 :: h <= bound ==> AccountKey(a, h) !in db
  {
    var prefix := [ACCOUNT_PREFIX] + a;
    forall h: uint64 | h <= bound && AccountKey(a, h) in db
      ensures found.Some? && HasPrefix(found.value, prefix) && AtMost(AccountKey(a, h), found.value)
    {
      AccountKeyOrder(a, h, bound);
      AccountKeyOrder(a, bound, bound);
      PrefixIsConvex(prefix, AccountKey(a, h), found.value, AccountKey(a, bound));
    }
    if found.Some? && HasPrefix(found.value, prefix) {
      var k := found.value;
      assert k[0] == ACCOUNT_PREFIX && k[1..9] == a;
      AccountKeyFromParts(k);
      var h := Decode64(k[9..]);
      AccountKeyOrder(a, h, bound);
      forall h': uint64 | h < h' <= bound ensures AccountKey(a, h') !in db {
        AccountKeyOrder(a, h', h);
      }
    }
  }

  // ---- Balances between entries ----

  lemma {:induction false} BalanceSteady(root: BlockMeta, history: History, a: Address, lo: int, hi: int)
    requires lo <= hi
    requires forall h :: lo < h <= hi ==> !TouchedAt(root, history, a, h)
    ensures BalanceAt(root, history, a, hi) == BalanceAt(root, history, a, lo)
    decreases hi - lo
  {
    if lo < hi {
      BalanceSteady(root, history, a, lo, hi - 1);
      var now, before := UpTo(root, history, hi), UpTo(root, history, hi - 1);
      if Above(root, history, hi) {
        assert !TouchedAt(root, history, a, hi);
        assert now[..|now| - 1] == before && now[|now| - 1] == EntryAt(root, history, hi);
        UntouchedHasNoEffect(EntryOps(EntryAt(root, history, hi)), a);
      } else {
        assert now == before;
      }
    }
  }

  /** The last entry at or below a height holds the folded balance at that height. */
  lemma {:induction false} LastEntryHoldsBalance(
      db: Db, root: BlockMeta, history: History, a: Address, bound: uint64, h: uint64)
    requires Represents(db, root, history) && LastEntry(db, a, bound, h)
    ensures db[AccountKey(a, h)] == Bytes(Encode64(ToUint64(BalanceAt(root, history, a, bound))))
  {
    AccountEntry(db, root, history, a, h);
    forall h' | h < h' <= bound ensures !TouchedAt(root, history, a, h') {
      AccountEntry(db, root, history, a, h');
    }
    BalanceSteady(root, history, a, h, bound);
  }

  lemma {:induction false} NoEntryMeansZero(db: Db, root: BlockMeta, history: History, a: Address, bound: uint64)
    requires Represents(db, root, history)
    requires forall h: uint64 :: h <= bound ==> AccountKey(a, h) !in db
    ensures BalanceAt(root, history, a, bound) == 0
  {
    forall h: int | -1 < h <= bound ensures !TouchedAt(root, history, a, h) {
      AccountEntry(db, root, history, a, h);
    }
    BalanceSteady(root, history, a, -1, bound);
  }

  // ---- One more block ----

  predicate WritesAccount(root: BlockMeta, history: History, entry: Entry, k: Key) {
    |k| == 17 && k[0] == ACCOUNT_PREFIX && Decode64(k[9..]) == root.height + |history| + 1 &&
    Touches(EntryOps(entry), k[1..9])
  }

  predicate WritesProxy(root: BlockMeta, history: History, entry: Entry, k: Key) {
    |k| == 17 && k[0] == PROXY_PREFIX && Decode64(k[9..]) == root.height + |history| + 1 &&
    CreatesProxy(EntryOps(entry), k[1..9])
  }

  /** What the key holds once the next block's transaction has committed. */
  function Written(root: BlockMeta, history: History, entry: Entry, k: Key, before: Option<Value>): Option<Value>
    requires InBounds(root, history + [entry])
  {
    var height := root.height + |history| + 1;
    if k == LATEST_KEY then Some(Meta(BlockMeta(entry.hash, height, [], entry.block.timestamp)))
    else if k == HeightToHashKey(height) then Some(Bytes(entry.hash))
    else if k == HashToHeightKey(entry.hash) then Some(Bytes(Encode64(height)))
    else if k == BlockKey(height) then Some(Block(entry.block))
    else if WritesProxy(root, history, entry, k) then Some(ONE)
    else if WritesAccount(root, history, entry, k) then
      Some(Bytes(Encode64(ToUint64(Balance(history + [entry], k[1..9])))))
    else before
  }

  lemma {:induction false} ExtendKeepsOlder(root: BlockMeta, history: History, entry: Entry, a: Address, h: int)
    requires h <= root.height + |history|
    ensures TouchedAt(root, history + [entry], a, h) == TouchedAt(root, history, a, h)
    ensures ProxyCreatedAt(root, history + [entry], a, h) == ProxyCreatedAt(root, history, a, h)
    ensures BalanceAt(root, history + [entry], a, h) == BalanceAt(root, history, a, h)
    ensures root.height <= h ==>
              && HashOf(root, history + [entry], h) == HashOf(root, history, h)
              && BlockOf(root, history + [entry], h) == BlockOf(root, history, h)
  {
    assert UpTo(root, history + [entry], h) == UpTo(root, history, h);
  }

  lemma {:induction false} WrittenAccount(root: BlockMeta, history: History, entry: Entry, k: Key)
    requires InBounds(root, history + [entry])
    requires k != [] && k[0] == ACCOUNT_PREFIX
    ensures Written(root, history, entry, k, ExpectedAccount(root, history, k)) ==
            ExpectedAccount(root, history + [entry], k)
  {
    if |k| == 17 {
      var a: Address, h := k[1..9], Decode64(k[9..]);
      var top := root.height + |history| + 1;
      if h == top {
        assert UpTo(root, history + [entry], h) == history + [entry];
      } else if h < top {
        ExtendKeepsOlder(root, history, entry, a, h);
      }
    }
  }

  lemma {:induction false} WrittenProxy(root: BlockMeta, history: History, entry: Entry, k: Key)
    requires InBounds(root, history + [entry])
    requires k != [] && k[0] == PROXY_PREFIX
    ensures Written(root, history, entry, k, ExpectedProxy(root, history, k)) ==
            ExpectedProxy(root, history + [entry], k)
  {
    if |k| == 17 && Decode64(k[9..]) <= root.height + |history| {
      ExtendKeepsOlder(root, history, entry, k[1..9], Decode64(k[9..]));
    }
  }

  lemma {:induction false} NewestBlock(root: BlockMeta, history: History, entry: Entry)
    ensures var h := root.height + |history| + 1;
            HashOf(root, history + [entry], h) == entry.hash && BlockOf(root, history + [entry], h) == entry.block
  {
  }

  lemma {:induction false} WrittenHeight(root: BlockMeta, history: History, entry: Entry, k: Key)
    requires InBounds(root, history + [entry])
    requires k != [] && (k[0] == BLOCK_PREFIX || k[0] == HEIGHT_TO_HASH_PREFIX)
    ensures Written(root, history, entry, k, Expected(root, history, k)) ==
            Expected(root, history + [entry], k)
  {
    hide FromBigEndian, BigEndian, BalanceAt, TouchedAt, ProxyCreatedAt, HeightOfHash, HashOf, BlockOf;
    var height := root.height + |history| + 1;
    HeightKeyParts(height);
    NewestBlock(root, history, entry);
    if |k| == 9 {
      HeightKeyFromParts(k);
      var h := Decode64(k[1..]);
      if h < height {
        ExtendKeepsOlder(root, history, entry, ZERO_ADDRESS, h);
      }
    }
  }

  lemma {:induction false} WrittenIsExpected(root: BlockMeta, history: History, entry: Entry, k: Key)
    requires InBounds(root, history + [entry])
    requires k != LATEST_KEY
    ensures Written(root, history, entry, k, Expected(root, history, k)) ==
            Expected(root, history + [entry], k)
  {
    if k == [] {
    } else if k == GENESIS_KEY {
      assert k[0] == 103;
    } else if k[0] == ACCOUNT_PREFIX {
      WrittenAccount(root, history, entry, k);
    } else if k[0] == PROXY_PREFIX {
      WrittenProxy(root, history, entry, k);
    } else if k[0] == BLOCK_PREFIX || k[0] == HEIGHT_TO_HASH_PREFIX {
      WrittenHeight(root, history, entry, k);
    } else if k[0] == HASH_TO_HEIGHT_PREFIX {
      assert (history + [entry])[..|history|] == history;
      assert k == [k[0]] + k[1..];
    }
  }

  /** The transaction Index commits takes a represented history one block further. */
  lemma {:induction false} IndexExtends(db: Db, db': Db, root: BlockMeta, history: History, entry: Entry)
    requires Represents(db, root, history) && InBounds(root, history + [entry])
    requires forall k :: Get(db', k) == Written(root, history, entry, k, Get(db, k))
    ensures Represents(db', root, history + [entry])
  {
    forall k | k != LATEST_KEY ensures Get(db', k) == Expected(root, history + [entry], k) {
      WrittenIsExpected(root, history, entry, k);
    }
    assert Get(db', LATEST_KEY) == Written(root, history, entry, LATEST_KEY, Get(db, LATEST_KEY));
  }
}
