/** Seeks and scans over the account and proxy keys. */
module Scans {
  import opened Prelude
  import opened Bytes
  import opened Badger
  import opened Model
  import opened IndexSpec

  // ---- Reading one account ----

  /** The entry a balance lookup reads (ghost), and its value; zero without an entry. */
  method SeekBalance(db: Db, a: Address, height: uint64) returns (balance: uint64, ghost at: Option<uint64>)
    requires WellKeyed(db)
    ensures at.None? ==> balance == 0 && forall h: uint64 :: h <= height ==> AccountKey(a, h) !in db
    ensures at.Some? ==> LastEntry(db, a, height, at.value) && db[AccountKey(a, at.value)] == Bytes(Encode64(balance))
  {
    balance, at := 0, None;
    var found := ReverseSeek(db, AccountKey(a, height));
    SeekAccount(db, a, height, found);
    if found.Some? && HasPrefix(found.value, [ACCOUNT_PREFIX] + a) {
      balance := Decode64(db[found.value].bytes);
      Encode64Decode64(db[found.value].bytes);
      at := Some(Decode64(found.value[9..]));
    }
  }

  // ---- Addresses named by scanned keys ----

  ghost predicate Names(keys: seq<Key>, a: Address) {
    exists k :: k in keys && |k| == 17 && k[1..9] == a
  }

  lemma {:induction false} NothingNamed()
    ensures forall a: Address :: !Names([], a)
  {
  }

  lemma {:induction false} NamesOneMore(keys: seq<Key>, i: nat)
    requires i < |keys| && |keys[i]| == 17
    ensures forall a: Address :: Names(keys[..i + 1], a) <==> Names(keys[..i], a) || a == keys[i][1..9]
  {
    assert keys[..i + 1] == keys[..i] + [keys[i]];
    forall a: Address ensures Names(keys[..i + 1], a) <==> Names(keys[..i], a) || a == keys[i][1..9] {
      if Names(keys[..i], a) {
        var k :| k in keys[..i] && |k| == 17 && k[1..9] == a;
        assert k in keys[..i + 1];
      }
      assert keys[i] in keys[..i + 1];
    }
  }

  /** The first scan of Accounts: the accounts that have an entry. */
  method CollectAccounts(keys: seq<Key>) returns (found: set<Address>)
    requires forall k :: k in keys ==> |k| == 17
    ensures forall a: Address :: a in found <==> Names(keys, a)
  {
    found := {};
    for i := 0 to |keys|
      invariant forall a: Address :: a in found <==> Names(keys[..i], a)
    {
      assert keys[i] in keys;
      found := found + {keys[i][1..9]};
      NamesOneMore(keys, i);
    }
    assert keys[..|keys|] == keys;
  }

  // ---- The account map of a store ----

  /** Account and proxy keys hold a prefix, an address and a height. */
  ghost predicate KeyShapes(db: Db) {
    forall k :: k in db && k != [] && (k[0] == ACCOUNT_PREFIX || k[0] == PROXY_PREFIX) ==> |k| == 17
  }

  ghost predicate HasAccountKey(db: Db, a: Address) {
    exists h: uint64 :: AccountKey(a, h) in db
  }

  ghost predicate HasProxyKey(db: Db, a: Address) {
    exists h: uint64 :: ProxyKey(a, h) in db
  }

  lemma {:induction false} AccountNames(db: Db, keys: seq<Key>, a: Address)
    requires KeyShapes(db) && forall k :: k in keys <==> k in db && HasPrefix(k, [ACCOUNT_PREFIX])
    ensures Names(keys, a) <==> HasAccountKey(db, a)
  {
    if Names(keys, a) {
      var k :| k in keys && |k| == 17 && k[1..9] == a;
      AccountKeyFromParts(k);
    }
    if h: uint64 :| AccountKey(a, h) in db {
      AccountKeyParts(a, h);
      assert HasPrefix(AccountKey(a, h), [ACCOUNT_PREFIX]);
      assert AccountKey(a, h) in keys;
    }
  }

  lemma {:induction false} ProxyNames(db: Db, keys: seq<Key>, a: Address)
    requires KeyShapes(db) && forall k :: k in keys <==> k in db && HasPrefix(k, [PROXY_PREFIX])
    ensures Names(keys, a) <==> HasProxyKey(db, a)
  {
    if Names(keys, a) {
      var k :| k in keys && |k| == 17 && k[1..9] == a;
      ProxyKeyFromParts(k);
    }
    if h: uint64 :| ProxyKey(a, h) in db {
      ProxyKeyParts(a, h);
      assert HasPrefix(ProxyKey(a, h), [PROXY_PREFIX]);
      assert ProxyKey(a, h) in keys;
    }
  }

  lemma {:induction false} KeyedInHistory(db: Db, root: BlockMeta, history: History, a: Address)
    requires Represents(db, root, history)
    ensures HasAccountKey(db, a) <==> exists h :: TouchedAt(root, history, a, h)
    ensures HasProxyKey(db, a) <==> exists h :: ProxyCreatedAt(root, history, a, h)
  {
    hide Represents;
    if h: uint64 :| AccountKey(a, h) in db {
      AccountEntry(db, root, history, a, h);
    }
    if h :| TouchedAt(root, history, a, h) {
      TouchedInRange(db, root, history, a, h);
      AccountEntry(db, root, history, a, h);
    }
    if h: uint64 :| ProxyKey(a, h) in db {
      ProxyEntry(db, root, history, a, h);
    }
    if h :| ProxyCreatedAt(root, history, a, h) {
      TouchedInRange(db, root, history, a, h);
      ProxyEntry(db, root, history, a, h);
    }
  }

  lemma {:induction false} TouchedInRange(db: Db, root: BlockMeta, history: History, a: Address, h: int)
    requires Represents(db, root, history)
    ensures TouchedAt(root, history, a, h) || ProxyCreatedAt(root, history, a, h) ==> 0 <= h < TWO_64
  {
  }

  lemma {:induction false} ShapedKeys(db: Db, keys: seq<Key>, prefix: byte)
    requires KeyShapes(db) && (prefix == ACCOUNT_PREFIX || prefix == PROXY_PREFIX)
    requires forall k :: k in keys <==> k in db && HasPrefix(k, [prefix])
    ensures forall k :: k in keys ==> |k| == 17 && k[0] == prefix && k in db
  {
  }

  /** The second scan of Accounts: flag the proxies, failing on one without an entry. */
  method MarkProxies(db: Db, found: map<Address, bool>) returns (accts: Option<map<Address, bool>>)
    requires KeyShapes(db) && forall a :: a in found ==> !found[a]
    ensures accts.None? <==> exists a: Address :: HasProxyKey(db, a) && a !in found
    ensures accts.Some? ==>
              accts.value.Keys == found.Keys && forall a: Address :: a in found ==>
                (accts.value[a] <==> HasProxyKey(db, a))
  {
    hide Names, HasProxyKey, HasPrefix, KeyShapes;
    var marked := found;
    var keys := Scan(db, [PROXY_PREFIX]);
    ShapedKeys(db, keys, PROXY_PREFIX);
    forall a: Address ensures Names(keys, a) <==> HasProxyKey(db, a) {
      ProxyNames(db, keys, a);
    }
    NothingNamed();
    assert keys[..0] == [];
    for i := 0 to |keys|
      invariant marked.Keys == found.Keys
      invariant forall a: Address :: Names(keys[..i], a) ==> a in found
      invariant forall a: Address :: a in marked ==> (marked[a] <==> Names(keys[..i], a))
    {
      assert keys[i] in keys;
      var a: Address := keys[i][1..9];
      NamesOneMore(keys, i);
      if a !in marked {
        NamesItself(keys, i);
        return None;
      }
      marked := marked[a := true];
    }
    assert keys[..|keys|] == keys;
    accts := Some(marked);
  }

  lemma {:induction false} NamesItself(keys: seq<Key>, i: nat)
    requires i < |keys| && |keys[i]| == 17
    ensures Names(keys, keys[i][1..9])
  {
  }

  /** Accounts, on any store with keys of the right shape: it fails exactly on an
      orphaned proxy key, and otherwise finds the accounts with an entry and flags
      those with a proxy key. */
  method ScanAccounts(db: Db) returns (accts: Option<map<Address, bool>>)
    requires KeyShapes(db)
    ensures accts.None? <==> exists a: Address :: HasProxyKey(db, a) && !HasAccountKey(db, a)
    ensures accts.Some? ==> forall a: Address :: a in accts.value <==> HasAccountKey(db, a)
    ensures accts.Some? ==> forall a: Address :: a in accts.value ==> (accts.value[a] <==> HasProxyKey(db, a))
  {
    hide Names, HasAccountKey, HasProxyKey, HasPrefix, KeyShapes;
    var keys := Scan(db, [ACCOUNT_PREFIX]);
    ShapedKeys(db, keys, ACCOUNT_PREFIX);
    var found := CollectAccounts(keys);
    forall a: Address ensures Names(keys, a) <==> HasAccountKey(db, a) {
      AccountNames(db, keys, a);
    }
    accts := MarkProxies(db, map a | a in found :: false);
  }

  // ---- Account changes ----

  /** The (height, balance) pairs that the scanned keys hold for one account. */
  function ChangesIn(db: Db, keys: seq<Key>, a: Address): seq<(uint64, uint64)> {
    if keys == [] then []
    else
      var rest := ChangesIn(db, keys[..|keys| - 1], a);
      var k := keys[|keys| - 1];
      if |k| == 17 && k[1..9] == a && k in db && db[k].Bytes? && |db[k].bytes| == 8
      then rest + [(Decode64(k[9..]), Decode64(db[k].bytes))]
      else rest
  }

  /** One pair for each height that touches the account, in height order. */
  ghost predicate ChangesMatch(root: BlockMeta, history: History, a: Address, changes: seq<(uint64, uint64)>) {
    && (forall i, j :: 0 <= i < j < |changes| ==> changes[i].0 < changes[j].0)
    && (forall h: uint64, b: uint64 :: (h, b) in changes <==>
          TouchedAt(root, history, a, h) && b == ToUint64(BalanceAt(root, history, a, h)))
  }

  lemma {:induction false} ChangesMember(db: Db, keys: seq<Key>, a: Address, h: uint64, b: uint64)
    requires WellKeyed(db)
    requires forall k :: k in keys ==> |k| == 17 && k[0] == ACCOUNT_PREFIX && k in db
    ensures (h, b) in ChangesIn(db, keys, a) <==>
            AccountKey(a, h) in keys && db[AccountKey(a, h)] == Bytes(Encode64(b))
  {
    if keys == [] {
    } else {
      var rest, k := keys[..|keys| - 1], keys[|keys| - 1];
      assert k in keys && keys == rest + [k];
      ChangesMember(db, rest, a, h, b);
      AccountKeyParts(a, h);
      AccountKeyFromParts(k);
      Encode64Decode64(db[k].bytes);
      Decode64Encode64(b);
    }
  }

  lemma {:induction false} EarlierIsLower(db: Db, rest: seq<Key>, k: Key, a: Address, h': uint64, b': uint64)
    requires WellKeyed(db) && |k| == 17 && k[0] == ACCOUNT_PREFIX && k[1..9] == a
    requires forall x :: x in rest ==> |x| == 17 && x[0] == ACCOUNT_PREFIX && x in db && Less(x, k)
    requires (h', b') in ChangesIn(db, rest, a)
    ensures h' < Decode64(k[9..])
  {
    ChangesMember(db, rest, a, h', b');
    hide ChangesIn, WellKeyed;
    var h := Decode64(k[9..]);
    AccountKeyFromParts(k);
    AccountKeyOrder(a, h, h');
    if h <= h' {
      AtMostAntisymmetric(k, AccountKey(a, h'));
      LessIrreflexive(k);
    }
  }

  lemma {:induction false} ChangesAscend(db: Db, keys: seq<Key>, a: Address)
    requires WellKeyed(db) && Ascending(keys)
    requires forall k :: k in keys ==> |k| == 17 && k[0] == ACCOUNT_PREFIX && k in db
    ensures forall i, j :: 0 <= i < j < |ChangesIn(db, keys, a)| ==>
              ChangesIn(db, keys, a)[i].0 < ChangesIn(db, keys, a)[j].0
  {
    if keys != [] {
      var rest, k := keys[..|keys| - 1], keys[|keys| - 1];
      assert k in keys && keys == rest + [k];
      ChangesAscend(db, rest, a);
      var changes := ChangesIn(db, rest, a);
      if k[1..9] == a {
        var h := Decode64(k[9..]);
        forall i | 0 <= i < |changes| ensures changes[i].0 < h {
          assert changes[i] in changes;
          EarlierIsLower(db, rest, k, a, changes[i].0, changes[i].1);
        }
        assert ChangesIn(db, keys, a) == changes + [(h, Decode64(db[k].bytes))];
        hide ChangesIn, Ascending;
      }
    }
  }

  lemma {:induction false} NoChangeBetween(changes: seq<(uint64, uint64)>, h: uint64, i: int, change: (uint64, uint64))
    requires forall j, k :: 0 <= j < k < |changes| ==> changes[j].0 < changes[k].0
    requires -1 <= i < |changes| && (i + 1 < |changes| ==> h < changes[i + 1].0)
    requires change.0 <= h && (0 <= i ==> changes[i].0 < change.0)
    ensures change !in changes
  {
    forall j | 0 <= j < |changes| ensures changes[j] != change {
      assert 0 <= j < i ==> changes[j].0 < changes[i].0;
      assert i + 1 < j ==> changes[i + 1].0 < changes[j].0;
    }
  }

  /** A balance lookup answers with the last reported change at or below the height. */
  lemma {:induction false} LookupIsLastChange(
      root: BlockMeta, history: History, a: Address, changes: seq<(uint64, uint64)>, h: uint64, i: int)
    requires InBounds(root, history) && ChangesMatch(root, history, a, changes)
    requires -1 <= i < |changes|
    requires 0 <= i ==> changes[i].0 <= h
    requires i + 1 < |changes| ==> h < changes[i + 1].0
    ensures ToUint64(BalanceAt(root, history, a, h)) == if i < 0 then 0 else changes[i].1
  {
    assert BalanceAt(root, history, a, -1) == 0;
    hide TouchedAt, BalanceAt;
    var start: int := if i < 0 then -1 else changes[i].0;
    forall h' | start < h' <= h ensures !TouchedAt(root, history, a, h') {
      NoChangeBetween(changes, h, i, (h', ToUint64(BalanceAt(root, history, a, h'))));
      assert TouchedAt(root, history, a, h') ==> (h', ToUint64(BalanceAt(root, history, a, h'))) in changes;
    }
    BalanceSteady(root, history, a, start, h);
    if 0 <= i {
      var (h', b') := changes[i];
      assert (h', b') in changes;
    }
  }

  lemma {:induction false} ChangesOneMore(db: Db, keys: seq<Key>, i: nat, a: Address)
    requires i < |keys|
    requires var k := keys[i]; |k| == 17 && k in db && db[k].Bytes? && |db[k].bytes| == 8
    ensures var k := keys[i];
            ChangesIn(db, keys[..i + 1], a) ==
            if k[1..9] == a then ChangesIn(db, keys[..i], a) + [(Decode64(k[9..]), Decode64(db[k].bytes))]
            else ChangesIn(db, keys[..i], a)
  {
    assert keys[..i + 1][..i] == keys[..i] && keys[..i + 1][i] == keys[i];
  }

  /** What the scan has gathered about account a from these keys. */
  ghost predicate CollectedFor(db: Db, keys: seq<Key>, data: map<Address, seq<(uint64, uint64)>>, a: Address)
    requires forall k :: k in keys ==> |k| == 17 && k in db && db[k].Bytes? && |db[k].bytes| == 8
  {
    (a in data <==> Names(keys, a)) && ChangesIn(db, keys, a) == if a in data then data[a] else []
  }

  ghost predicate Collected(db: Db, keys: seq<Key>, data: map<Address, seq<(uint64, uint64)>>)
    requires forall k :: k in keys ==> |k| == 17 && k in db && db[k].Bytes? && |db[k].bytes| == 8
  {
    forall a: Address :: CollectedFor(db, keys, data, a)
  }

  lemma {:induction false} CollectedOneMore(db: Db, keys: seq<Key>, i: nat, data: map<Address, seq<(uint64, uint64)>>)
    requires forall k :: k in keys ==> |k| == 17 && k in db && db[k].Bytes? && |db[k].bytes| == 8
    requires i < |keys| && Collected(db, keys[..i], data)
    ensures var key := keys[i];
            var a: Address := key[1..9];
            var change := (Decode64(key[9..]), Decode64(db[key].bytes));
            Collected(db, keys[..i + 1], data[a := (if a in data then data[a] else []) + [change]])
  {
    hide CollectedFor, Decode64;
    var key := keys[i];
    assert key in keys;
    var b: Address := key[1..9];
    var change := (Decode64(key[9..]), Decode64(db[key].bytes));
    var data' := data[b := (if b in data then data[b] else []) + [change]];
    var longer := keys[..i + 1];
    forall a: Address ensures CollectedFor(db, longer, data', a) {
      assert CollectedFor(db, keys[..i], data, a);
      CollectedForOneMore(db, keys, i, data, a);
    }
  }

  lemma {:induction false} CollectedForOneMore(
      db: Db, keys: seq<Key>, i: nat, data: map<Address, seq<(uint64, uint64)>>, a: Address)
    requires forall k :: k in keys ==> |k| == 17 && k in db && db[k].Bytes? && |db[k].bytes| == 8
    requires i < |keys| && CollectedFor(db, keys[..i], data, a)
    ensures var key := keys[i];
            var b: Address := key[1..9];
            var change := (Decode64(key[9..]), Decode64(db[key].bytes));
            CollectedFor(db, keys[..i + 1], data[b := (if b in data then data[b] else []) + [change]], a)
  {
    hide ChangesIn, Names, Decode64;
    assert keys[i] in keys;
    NamesOneMore(keys, i);
    ChangesOneMore(db, keys, i, a);
  }

  /** The first scan of AccountsInfo: append each entry to its account's changes. */
  method CollectChanges(db: Db, keys: seq<Key>) returns (data: map<Address, seq<(uint64, uint64)>>)
    requires forall k :: k in keys ==> |k| == 17 && k in db && db[k].Bytes? && |db[k].bytes| == 8
    ensures forall a: Address :: a in data <==> Names(keys, a)
    ensures forall a: Address :: a in data ==> data[a] == ChangesIn(db, keys, a)
  {
    hide Collected, Decode64;
    NothingCollected(db);
    assert keys[..0] == [];
    data := map[];
    for i := 0 to |keys|
      invariant Collected(db, keys[..i], data)
    {
      var key := keys[i];
      assert key in keys;
      var a: Address := key[1..9];
      var change := (Decode64(key[9..]), Decode64(db[key].bytes));
      CollectedOneMore(db, keys, i, data);
      data := data[a := (if a in data then data[a] else []) + [change]];
    }
    assert keys[..|keys|] == keys;
    AllCollected(db, keys, data);
  }

  lemma {:induction false} NothingCollected(db: Db)
    ensures Collected(db, [], map[])
  {
  }

  lemma {:induction false} AllCollected(db: Db, keys: seq<Key>, data: map<Address, seq<(uint64, uint64)>>)
    requires forall k :: k in keys ==> |k| == 17 && k in db && db[k].Bytes? && |db[k].bytes| == 8
    requires Collected(db, keys, data)
    ensures forall a: Address :: a in data <==> Names(keys, a)
    ensures forall a: Address :: a in data ==> data[a] == ChangesIn(db, keys, a)
  {
    hide Names, ChangesIn;
    forall a: Address
      ensures a in data <==> Names(keys, a)
      ensures a in data ==> data[a] == ChangesIn(db, keys, a)
    {
      assert CollectedFor(db, keys, data, a);
    }
  }

  // ---- Purge ----

  ghost predicate IsProxyIn(root: BlockMeta, history: History, a: Address) {
    exists h :: ProxyCreatedAt(root, history, a, h)
  }

  /** A purge removes the balances of every proxy account and, of its creation
      keys, the one at the greatest height; nothing else changes. */
  ghost predicate PurgeMatches(before: Db, after: Db, root: BlockMeta, history: History) {
    && (forall a: Address, h: uint64 ::
          Get(after, AccountKey(a, h)) == if IsProxyIn(root, history, a) then None else Get(before, AccountKey(a, h)))
    && (forall a: Address, h: uint64 ::
          ProxyKey(a, h) in after <==> ProxyCreatedAt(root, history, a, h) && CreatedLater(root, history, a, h))
    && (forall k :: k == [] || (k[0] != ACCOUNT_PREFIX && k[0] != PROXY_PREFIX) ==> Get(after, k) == Get(before, k))
  }

  ghost predicate CreatedLater(root: BlockMeta, history: History, a: Address, h: int) {
    exists h' :: h' > h && ProxyCreatedAt(root, history, a, h')
  }

  ghost predicate LastNamed(keys: seq<Key>, a: Address, k: Key) {
    && k in keys && |k| == 17 && k[1..9] == a
    && forall k' :: k' in keys && |k'| == 17 && k'[1..9] == a ==> AtMost(k', k)
  }

  lemma {:induction false} LastNamedOneMore(keys: seq<Key>, i: nat, accts: map<Address, Key>)
    requires i < |keys| && Ascending(keys) && |keys[i]| == 17
    requires forall a :: a in accts ==> LastNamed(keys[..i], a, accts[a])
    ensures var accts' := accts[keys[i][1..9] := keys[i]];
            forall a :: a in accts' ==> LastNamed(keys[..i + 1], a, accts'[a])
  {
    assert keys[..i + 1] == keys[..i] + [keys[i]];
    forall k' | k' in keys[..i] ensures AtMost(k', keys[i]) {
      var j :| 0 <= j < i && keys[j] == k';
    }
  }

  lemma {:induction false} ProxyKeyOrder(a: Address, m: uint64, n: uint64)
    ensures AtMost(ProxyKey(a, m), ProxyKey(a, n)) <==> m <= n
  {
    LessUnderPrefix([PROXY_PREFIX] + a, Encode64(m), Encode64(n));
    Less64IsNumeric(m, n);
    ProxyKeyParts(a, m);
    ProxyKeyParts(a, n);
  }

  lemma {:induction false} PurgedAccountKey(keys: seq<Key>, accts: map<Address, Key>, a: Address, h: uint64)
    requires forall k :: k in keys ==> |k| == 17 && k[0] == PROXY_PREFIX
    requires forall a' :: a' in accts ==> LastNamed(keys, a', accts[a'])
    ensures AccountKey(a, h) !in set a' | a' in accts :: accts[a']
    ensures |AccountKey(a, h)| == 17 && AccountKey(a, h)[1..9] == a
  {
    AccountKeyParts(a, h);
  }

  lemma {:induction false} PurgedProxyKey(
      db: Db, keys: seq<Key>, accts: map<Address, Key>, root: BlockMeta, history: History, a: Address, h: uint64)
    requires Represents(db, root, history)
    requires forall k :: k in keys <==> k in db && HasPrefix(k, [PROXY_PREFIX])
    requires a in accts <==> IsProxyIn(root, history, a)
    requires forall a' :: a' in accts ==> LastNamed(keys, a', accts[a'])
    ensures ProxyCreatedAt(root, history, a, h) ==>
              (ProxyKey(a, h) in (set a' | a' in accts :: accts[a']) <==> !CreatedLater(root, history, a, h))
    ensures ProxyKey(a, h)[0] == PROXY_PREFIX
    ensures ProxyKey(a, h) in db <==> ProxyCreatedAt(root, history, a, h)
  {
    ProxyEntry(db, root, history, a, h);
    ProxyKeyParts(a, h);
    if ProxyCreatedAt(root, history, a, h) {
      assert HasPrefix(ProxyKey(a, h), [PROXY_PREFIX]);
      assert ProxyKey(a, h) in (set a' | a' in accts :: accts[a']) <==> a in accts && accts[a] == ProxyKey(a, h);
      var last := accts[a];
      assert last[0] == PROXY_PREFIX;
      ProxyKeyFromParts(last);
      var top := Decode64(last[9..]);
      ProxyEntry(db, root, history, a, top);
      ProxyKeyOrder(a, h, top);
      if h == top {
        forall h' | h' > h && ProxyCreatedAt(root, history, a, h') ensures false {
          ProxyEntry(db, root, history, a, h');
          ProxyKeyParts(a, h');
          assert HasPrefix(ProxyKey(a, h'), [PROXY_PREFIX]);
          ProxyKeyOrder(a, h', top);
        }
      } else {
        ProxyKeyParts(a, top);
        assert top > h && ProxyCreatedAt(root, history, a, top);
      }
    }
  }

  /** What remains once the collected keys are deleted. */
  lemma {:induction false} PurgedStore(before: Db, after: Db, root: BlockMeta, history: History,
                    proxies: seq<Key>, accts: map<Address, Key>, balances: seq<Key>, doomed: set<Key>)
    requires Represents(before, root, history)
    requires after == before - ((set a | a in accts :: accts[a]) + doomed)
    requires forall k :: k in proxies <==> k in before && HasPrefix(k, [PROXY_PREFIX])
    requires forall k :: k in proxies ==> |k| == 17 && k[0] == PROXY_PREFIX
    requires forall k :: k in balances <==> k in before && HasPrefix(k, [ACCOUNT_PREFIX])
    requires forall a: Address :: a in accts <==> IsProxyIn(root, history, a)
    requires forall a :: a in accts ==> LastNamed(proxies, a, accts[a])
    requires forall k :: k in doomed <==> k in balances && |k| == 17 && k[1..9] in accts
    ensures PurgeMatches(before, after, root, history)
  {
    var creations := set a | a in accts :: accts[a];
    forall a: Address, h: uint64
      ensures Get(after, AccountKey(a, h)) == if IsProxyIn(root, history, a) then None
              else Get(before, AccountKey(a, h))
    {
      PurgedAccountKey(proxies, accts, a, h);
      assert HasPrefix(AccountKey(a, h), [ACCOUNT_PREFIX]);
    }
    forall a: Address, h: uint64
      ensures ProxyKey(a, h) in after <==> ProxyCreatedAt(root, history, a, h) && CreatedLater(root, history, a, h)
    {
      PurgedProxyKey(before, proxies, accts, root, history, a, h);
      assert ProxyKey(a, h) !in doomed;
    }
    forall k | k == [] || (k[0] != ACCOUNT_PREFIX && k[0] != PROXY_PREFIX) ensures Get(after, k) == Get(before, k) {
      assert k !in creations && k !in doomed;
    }
  }

  /** The first scan of PurgeProxyAccounts: later keys overwrite earlier ones. */
  method LastKeyPerAccount(keys: seq<Key>) returns (accts: map<Address, Key>)
    requires Ascending(keys) && forall k :: k in keys ==> |k| == 17
    ensures forall a: Address :: a in accts <==> Names(keys, a)
    ensures forall a :: a in accts ==> LastNamed(keys, a, accts[a])
  {
    accts := map[];
    for i := 0 to |keys|
      invariant forall a: Address :: a in accts <==> Names(keys[..i], a)
      invariant forall a :: a in accts ==> LastNamed(keys[..i], a, accts[a])
    {
      assert keys[i] in keys;
      LastNamedOneMore(keys, i, accts);
      accts := accts[keys[i][1..9] := keys[i]];
      NamesOneMore(keys, i);
    }
    assert keys[..|keys|] == keys;
  }

  /** The second scan of PurgeProxyAccounts: the entries of the given accounts. */
  method KeysOfAccounts(keys: seq<Key>, accts: set<Address>) returns (doomed: set<Key>)
    requires forall k :: k in keys ==> |k| == 17
    ensures forall k :: k in doomed <==> k in keys && |k| == 17 && k[1..9] in accts
  {
    doomed := {};
    for i := 0 to |keys|
      invariant forall k :: k in doomed <==> k in keys[..i] && |k| == 17 && k[1..9] in accts
    {
      assert keys[i] in keys;
      if keys[i][1..9] in accts {
        doomed := doomed + {keys[i]};
      }
      assert keys[..i + 1] == keys[..i] + [keys[i]];
    }
    assert keys[..|keys|] == keys;
  }
}
