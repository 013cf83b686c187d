/** Rolling the store back to a height, key by key. */
module Rollback {
  import opened Prelude
  import opened Bytes
  import opened Badger
  import opened Model
  import opened IndexSpec

  // ---- Rollback, key by key ----

  /** No hash above `base` also occurs at or below it. */
  ghost predicate UnsharedHashes(root: BlockMeta, history: History, base: int) {
    forall i, j :: root.height <= i <= base < j <= root.height + |history| ==>
      HashOf(root, history, i) != HashOf(root, history, j)
  }

  ghost predicate HashAbove(root: BlockMeta, history: History, base: int, hash: ByteString) {
    exists h :: root.height <= base < h <= root.height + |history| && HashOf(root, history, h) == hash
  }

  /** The keys a rollback to `base` deletes. */
  ghost predicate Dropped(root: BlockMeta, history: History, base: int, k: Key) {
    && k != []
    && ((k[0] == ACCOUNT_PREFIX || k[0] == PROXY_PREFIX) ==> |k| == 17 && Decode64(k[9..]) > base)
    && ((k[0] == BLOCK_PREFIX || k[0] == HEIGHT_TO_HASH_PREFIX) ==> |k| == 9 && Decode64(k[1..]) > base)
    && (k[0] == HASH_TO_HEIGHT_PREFIX ==> HashAbove(root, history, base, k[1..]))
    && k[0] in {ACCOUNT_PREFIX, PROXY_PREFIX, BLOCK_PREFIX, HEIGHT_TO_HASH_PREFIX, HASH_TO_HEIGHT_PREFIX}
  }

  lemma {:induction false} UpToKeepsOlder(root: BlockMeta, history: History, base: int, a: Address, h: int)
    requires root.height <= base <= root.height + |history|
    ensures var kept := UpTo(root, history, base);
            && |kept| == base - root.height
            && TouchedAt(root, kept, a, h) == (h <= base && TouchedAt(root, history, a, h))
            && ProxyCreatedAt(root, kept, a, h) == (h <= base && ProxyCreatedAt(root, history, a, h))
            && (h <= base ==> BalanceAt(root, kept, a, h) == BalanceAt(root, history, a, h))
            && (root.height <= h <= base ==>
                  && HashOf(root, kept, h) == HashOf(root, history, h)
                  && BlockOf(root, kept, h) == BlockOf(root, history, h))
  {
    var kept := UpTo(root, history, base);
    if h <= base {
      assert UpTo(root, kept, h) == UpTo(root, history, h);
    }
  }

  lemma {:induction false} HeightOfHashFinds(root: BlockMeta, history: History, hash: ByteString)
    requires InBounds(root, history)
    ensures match HeightOfHash(root, history, hash)
            case None => forall h :: root.height <= h <= root.height + |history| ==> HashOf(root, history, h) != hash
            case Some(h) =>
              && root.height <= h <= root.height + |history| && HashOf(root, history, h) == hash
              && forall h' :: h < h' <= root.height + |history| ==> HashOf(root, history, h') != hash
  {
    if history == [] {
    } else {
      var shorter := history[..|history| - 1];
      HeightOfHashFinds(root, shorter, hash);
      assert forall h :: root.height <= h <= root.height + |shorter| ==>
          HashOf(root, shorter, h) == HashOf(root, history, h);
    }
  }

  /** After the deletions, every key holds what a store that stopped at `base`
      holds, provided no dropped hash is shared with a kept block. */
  lemma {:induction false} RollbackKey(root: BlockMeta, history: History, base: uint64, k: Key)
    requires InBounds(root, history)
    requires root.height <= base < root.height + |history|
    requires UnsharedHashes(root, history, base)
    requires k != LATEST_KEY
    ensures Expected(root, UpTo(root, history, base), k) ==
            if Dropped(root, history, base, k) then None else Expected(root, history, k)
  {
    var kept := UpTo(root, history, base);
    if k == [] {
    } else if k == GENESIS_KEY {
      assert k[0] == 103;
    } else if k[0] == ACCOUNT_PREFIX || k[0] == PROXY_PREFIX {
      if |k| == 17 {
        UpToKeepsOlder(root, history, base, k[1..9], Decode64(k[9..]));
      }
    } else if k[0] == BLOCK_PREFIX || k[0] == HEIGHT_TO_HASH_PREFIX {
      if |k| == 9 {
        UpToKeepsOlder(root, history, base, ZERO_ADDRESS, Decode64(k[1..]));
      }
    } else if k[0] == HASH_TO_HEIGHT_PREFIX {
      RollbackHash(root, history, base, k[1..]);
    }
  }

  lemma {:induction false} RollbackHash(root: BlockMeta, history: History, base: uint64, hash: ByteString)
    requires InBounds(root, history)
    requires root.height <= base < root.height + |history|
    requires UnsharedHashes(root, history, base)
    ensures HeightOfHash(root, UpTo(root, history, base), hash) ==
            if HashAbove(root, history, base, hash) then None else HeightOfHash(root, history, hash)
  {
    var kept := UpTo(root, history, base);
    HeightOfHashFinds(root, history, hash);
    HeightOfHashFinds(root, kept, hash);
    assert forall h :: root.height <= h <= base ==> HashOf(root, kept, h) == HashOf(root, history, h);
  }

  /** The condition is exact: a shared hash makes the rollback lose a kept block's hash key. */
  lemma {:induction false} SharedHashBreaksRollback(db: Db, root: BlockMeta, history: History, base: uint64)
    requires InBounds(root, history)
    requires root.height <= base < root.height + |history|
    requires forall k :: Dropped(root, history, base, k) ==> k !in db
    requires !UnsharedHashes(root, history, base)
    ensures !Represents(db, root, UpTo(root, history, base))
  {
    var kept := UpTo(root, history, base);
    var i, j :| root.height <= i <= base < j <= root.height + |history| &&
      HashOf(root, history, i) == HashOf(root, history, j);
    var hash := HashOf(root, history, i);
    var k := HashToHeightKey(hash);
    assert k[1..] == hash && HashAbove(root, history, base, hash);
    assert Dropped(root, history, base, k);
    HeightOfHashFinds(root, kept, hash);
    assert HashOf(root, kept, i) == hash;
    assert Expected(root, kept, k).Some?;
    assert Get(db, k) != Expected(root, kept, k);
  }

  /** The three keys of the block at height h. */
  ghost predicate BlockKeysOf(root: BlockMeta, history: History, h: int, k: Key) {
    && root.height <= h <= root.height + |history| && h < TWO_64
    && k in {HeightToHashKey(h), BlockKey(h), HashToHeightKey(HashOf(root, history, h))}
  }

  ghost predicate StaleBlockKey(root: BlockMeta, history: History, base: int, top: int, k: Key) {
    exists h :: base < h <= top && BlockKeysOf(root, history, h, k)
  }

  ghost predicate StaleBlocksMatch(root: BlockMeta, history: History, base: int, top: int, stale: set<Key>) {
    forall k :: k in stale <==> StaleBlockKey(root, history, base, top, k)
  }

  lemma {:induction false} StaleOneMore(root: BlockMeta, history: History, base: int, h: uint64, stale: set<Key>)
    requires root.height <= h <= root.height + |history|
    requires StaleBlocksMatch(root, history, base, h - 1, stale)
    ensures h <= base ==> StaleBlocksMatch(root, history, base, h, stale)
    ensures h > base ==>
              StaleBlocksMatch(root, history, base, h,
                stale + {HeightToHashKey(h), BlockKey(h), HashToHeightKey(HashOf(root, history, h))})
  {
    forall k ensures StaleBlockKey(root, history, base, h, k) <==>
                     StaleBlockKey(root, history, base, h - 1, k) || (h > base && BlockKeysOf(root, history, h, k))
    {
      if StaleBlockKey(root, history, base, h - 1, k) {
        var h' :| base < h' <= h - 1 && BlockKeysOf(root, history, h', k);
        assert base < h' <= h && BlockKeysOf(root, history, h', k);
      }
    }
  }

  ghost predicate Covers(hs: seq<int>, lo: int, hi: int) {
    && (forall i, j :: 0 <= i < j < |hs| ==> hs[i] < hs[j])
    && (forall h :: h in hs <==> lo <= h <= hi)
  }

  /** The index of a covered height, and the bounds of an indexed one. */
  lemma {:induction false} Covered(hs: seq<int>, lo: int, hi: int, h: int) returns (j: nat)
    requires Covers(hs, lo, hi) && lo <= h <= hi
    ensures j < |hs| && hs[j] == h
  {
    assert h in hs;
    j :| 0 <= j < |hs| && hs[j] == h;
  }

  lemma {:induction false} CoveredBounds(hs: seq<int>, lo: int, hi: int, i: nat, j: nat)
    requires Covers(hs, lo, hi) && i <= j < |hs|
    ensures lo <= hs[i] <= hs[j] <= hi && (i < j ==> hs[i] < hs[j])
  {
    assert hs[i] in hs && hs[j] in hs;
  }

  /** Heights in ascending order that cover a range have no gaps. */
  lemma {:induction false} AscendingAt(hs: seq<int>, lo: int, hi: int, i: nat)
    requires Covers(hs, lo, hi) && i < |hs|
    ensures hs[i] == lo + i
  {
    hide Covers;
    CoveredBounds(hs, lo, hi, i, i);
    if i > 0 {
      AscendingAt(hs, lo, hi, i - 1);
      CoveredBounds(hs, lo, hi, i - 1, i);
    }
    var j := Covered(hs, lo, hi, lo + i);
    if j < i {
      AscendingAt(hs, lo, hi, j);
    } else {
      CoveredBounds(hs, lo, hi, i, j);
    }
  }

  lemma {:induction false} AscendingRange(hs: seq<int>, lo: int, hi: int)
    requires lo <= hi && Covers(hs, lo, hi)
    ensures |hs| == hi - lo + 1
    ensures forall i :: 0 <= i < |hs| ==> hs[i] == lo + i
  {
    hide Covers;
    var j := Covered(hs, lo, hi, hi);
    AscendingAt(hs, lo, hi, j);
    CoveredBounds(hs, lo, hi, j, |hs| - 1);
    AscendingAt(hs, lo, hi, |hs| - 1);
    forall i | 0 <= i < |hs| ensures hs[i] == lo + i {
      AscendingAt(hs, lo, hi, i);
    }
  }

  lemma {:induction false} NothingStale(root: BlockMeta, history: History, base: int)
    requires root.height <= base
    ensures StaleBlocksMatch(root, history, base, root.height - 1, {})
  {
  }

  lemma {:induction false} HeightKeyLength(h: uint64)
    ensures |HeightToHashKey(h)| == 9
  {
  }

  /** Stored keys under the five prefixes have the shape the program writes. */
  lemma {:induction false} StoredKeyShape(db: Db, root: BlockMeta, history: History, k: Key)
    requires Represents(db, root, history)
    ensures k in db && HasPrefix(k, [ACCOUNT_PREFIX]) ==> |k| == 17 && k[0] == ACCOUNT_PREFIX
    ensures k in db && HasPrefix(k, [PROXY_PREFIX]) ==> |k| == 17 && k[0] == PROXY_PREFIX
    ensures k in db && k != [] && (k[0] == BLOCK_PREFIX || k[0] == HEIGHT_TO_HASH_PREFIX) ==>
              |k| == 9 && Decode64(k[1..]) <= root.height + |history|
  {
    hide FromBigEndian, BigEndian, HeightOfHash, HashOf, BlockOf, TouchedAt, ProxyCreatedAt, BalanceAt;
    assert LATEST_KEY[0] == 108 && GENESIS_KEY[0] == 103;
    if k != LATEST_KEY {
      assert Get(db, k) == Expected(root, history, k);
    }
  }

  lemma {:induction false} BlockKeyIsDropped(root: BlockMeta, history: History, base: int, h: int, k: Key)
    requires root.height <= base < h <= root.height + |history| && BlockKeysOf(root, history, h, k)
    ensures Dropped(root, history, base, k)
  {
    hide Decode64, Encode64, HashOf;
    HeightKeyParts(h);
    assert HashToHeightKey(HashOf(root, history, h))[1..] == HashOf(root, history, h);
  }

  lemma {:induction false} DroppedIsBlockKey(root: BlockMeta, history: History, base: int, k: Key)
    requires InBounds(root, history) && root.height <= base && Dropped(root, history, base, k)
    requires (k[0] == BLOCK_PREFIX || k[0] == HEIGHT_TO_HASH_PREFIX) ==>
               |k| == 9 && Decode64(k[1..]) <= root.height + |history|
    ensures k[0] != ACCOUNT_PREFIX && k[0] != PROXY_PREFIX ==>
              StaleBlockKey(root, history, base, root.height + |history|, k)
  {
    hide Decode64, Encode64, HashOf;
    if k[0] == BLOCK_PREFIX || k[0] == HEIGHT_TO_HASH_PREFIX {
      HeightKeyFromParts(k);
      assert BlockKeysOf(root, history, Decode64(k[1..]), k);
    } else if k[0] == HASH_TO_HEIGHT_PREFIX {
      var h :| root.height <= base < h <= root.height + |history| && HashOf(root, history, h) == k[1..];
      assert k == [k[0]] + k[1..];
      assert BlockKeysOf(root, history, h, k);
    }
  }

  // ---- The scan of the height keys ----

  predicate NineBytes(keys: seq<Key>) {
    forall i :: 0 <= i < |keys| ==> |keys[i]| == 9
  }

  function HeightsOf(keys: seq<Key>): (hs: seq<int>)
    requires NineBytes(keys)
    ensures |hs| == |keys|
  {
    seq(|keys|, i requires 0 <= i < |keys| => Decode64(keys[i][1..]))
  }

  /** A stored key under the height prefix is the key of an indexed height. */
  lemma {:induction false} HeightKeyIn(db: Db, root: BlockMeta, history: History, k: Key)
    requires Represents(db, root, history) && k in db && HasPrefix(k, [HEIGHT_TO_HASH_PREFIX])
    ensures |k| == 9 && k == HeightToHashKey(Decode64(k[1..]))
    ensures root.height <= Decode64(k[1..]) <= root.height + |history|
  {
    hide FromBigEndian, BigEndian, HeightOfHash, HashOf, BlockOf;
    assert k[0] == HEIGHT_TO_HASH_PREFIX;
    assert Get(db, k) == Expected(root, history, k);
    HeightKeyFromParts(k);
  }

  lemma {:induction false} HeightIsScanned(
      db: Db, root: BlockMeta, history: History, keys: seq<Key>, h: uint64) returns (i: nat)
    requires Represents(db, root, history) && NineBytes(keys) && root.height <= h <= root.height + |history|
    requires forall k :: k in keys <==> k in db && HasPrefix(k, [HEIGHT_TO_HASH_PREFIX])
    ensures i < |keys| && HeightsOf(keys)[i] == h
  {
    HeightEntries(db, root, history, h);
    hide Represents, HashOf, BlockOf, Decode64, Encode64;
    HeightKeyParts(h);
    var k := HeightToHashKey(h);
    assert k in db && HasPrefix(k, [HEIGHT_TO_HASH_PREFIX]);
    i :| 0 <= i < |keys| && keys[i] == k;
  }

  lemma {:induction false} HeightKeysAscend(h: uint64, h': uint64)
    requires Less(HeightToHashKey(h), HeightToHashKey(h'))
    ensures h < h'
  {
    hide Less, Encode64;
    LessUnderPrefix([HEIGHT_TO_HASH_PREFIX], Encode64(h), Encode64(h'));
    Less64IsNumeric(h, h');
  }

  lemma {:induction false} HeightsCover(db: Db, root: BlockMeta, history: History, keys: seq<Key>)
    requires Represents(db, root, history) && Ascending(keys) && NineBytes(keys)
    requires forall k :: k in keys <==> k in db && HasPrefix(k, [HEIGHT_TO_HASH_PREFIX])
    ensures Covers(HeightsOf(keys), root.height, root.height + |history|)
  {
    hide Represents, HasPrefix, Less, HeightsOf, NineBytes, Ascending;
    var hs := HeightsOf(keys);
    forall i, j | 0 <= i < j < |hs| ensures hs[i] < hs[j] {
      HeightsAscend(db, root, history, keys, i, j);
    }
    forall h ensures h in hs <==> root.height <= h <= root.height + |history| {
      HeightsExact(db, root, history, keys, h);
    }
  }

  lemma {:induction false} HeightsAscend(db: Db, root: BlockMeta, history: History, keys: seq<Key>, i: nat, j: nat)
    requires Represents(db, root, history) && Ascending(keys) && NineBytes(keys) && i < j < |keys|
    requires forall k :: k in keys <==> k in db && HasPrefix(k, [HEIGHT_TO_HASH_PREFIX])
    ensures HeightsOf(keys)[i] < HeightsOf(keys)[j]
  {
    hide Represents, HasPrefix, Less, HeightToHashKey, Decode64;
    assert keys[i] in keys && keys[j] in keys;
    HeightKeyIn(db, root, history, keys[i]);
    HeightKeyIn(db, root, history, keys[j]);
    HeightKeysAscend(HeightsOf(keys)[i], HeightsOf(keys)[j]);
  }

  lemma {:induction false} HeightsExact(db: Db, root: BlockMeta, history: History, keys: seq<Key>, h: int)
    requires Represents(db, root, history) && NineBytes(keys)
    requires forall k :: k in keys <==> k in db && HasPrefix(k, [HEIGHT_TO_HASH_PREFIX])
    ensures h in HeightsOf(keys) <==> root.height <= h <= root.height + |history|
  {
    assert InBounds(root, history);
    hide Represents, HasPrefix, HeightToHashKey, Decode64;
    if h in HeightsOf(keys) {
      var i :| 0 <= i < |keys| && HeightsOf(keys)[i] == h;
      assert keys[i] in keys;
      HeightKeyIn(db, root, history, keys[i]);
    }
    if root.height <= h <= root.height + |history| {
      var i := HeightIsScanned(db, root, history, keys, h);
      assert HeightsOf(keys)[i] in HeightsOf(keys);
    }
  }

  lemma {:induction false} RollbackRepresents(
      db: Db, kept: Db, root: BlockMeta, history: History, base: uint64, tip: BlockMeta)
    requires Represents(db, root, history)
    requires root.height <= base < root.height + |history|
    requires forall k :: k != LATEST_KEY ==>
               Get(kept, k) == if Dropped(root, history, base, k) then None else Get(db, k)
    requires Get(kept, LATEST_KEY) == Some(Meta(tip))
    requires tip == BlockMeta(HashOf(root, history, base), base, [], BlockOf(root, history, base).timestamp)
    ensures Represents(kept, root, UpTo(root, history, base)) <==> UnsharedHashes(root, history, base)
  {
    UpToKeepsOlder(root, history, base, ZERO_ADDRESS, base);
    if UnsharedHashes(root, history, base) {
      forall k | k != LATEST_KEY ensures Get(kept, k) == Expected(root, UpTo(root, history, base), k) {
        assert Get(db, k) == Expected(root, history, k);
        RollbackKey(root, history, base, k);
      }
    } else {
      assert LATEST_KEY[0] == 108;
      forall k | Dropped(root, history, base, k) ensures k !in kept {
        assert Get(kept, k) == None;
      }
      SharedHashBreaksRollback(kept, root, history, base);
    }
  }
}
