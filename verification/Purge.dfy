/** What a store answers after its proxy accounts have been purged. */
module Purge {
  import opened Prelude
  import opened Bytes
  import opened Model
  import opened IndexSpec
  import opened Scans

  /** No address is made a proxy account at two heights. */
  ghost predicate CreatedOnce(root: BlockMeta, history: History) {
    forall a: Address, h, h' :: ProxyCreatedAt(root, history, a, h) && ProxyCreatedAt(root, history, a, h') ==> h == h'
  }

  /** Purging leaves no proxy key exactly if no address was made a proxy twice:
      only the last creation key of each address is deleted. */
  lemma {:induction false} PurgeClearsProxies(before: Db, after: Db, root: BlockMeta, history: History)
    requires Represents(before, root, history) && PurgeMatches(before, after, root, history)
    ensures (forall a: Address, h: uint64 :: ProxyKey(a, h) !in after) <==> CreatedOnce(root, history)
  {
    hide Represents, ProxyCreatedAt, ProxyKey;
    if CreatedOnce(root, history) {
      forall a: Address, h: uint64 ensures ProxyKey(a, h) !in after {
        assert CreatedLater(root, history, a, h) && ProxyCreatedAt(root, history, a, h) ==> false;
      }
    }
    if forall a: Address, h: uint64 :: ProxyKey(a, h) !in after {
      forall a: Address, h, h' | ProxyCreatedAt(root, history, a, h) && ProxyCreatedAt(root, history, a, h')
        ensures h == h'
      {
        NotBothKept(before, after, root, history, a, h, h');
        NotBothKept(before, after, root, history, a, h', h);
      }
    }
  }

  lemma {:induction false} NotBothKept(
      before: Db, after: Db, root: BlockMeta, history: History, a: Address, h: int, h': int)
    requires Represents(before, root, history) && PurgeMatches(before, after, root, history)
    requires ProxyCreatedAt(root, history, a, h) && ProxyCreatedAt(root, history, a, h')
    ensures h < h' ==> 0 <= h < TWO_64 && ProxyKey(a, h) in after
  {
    if h < h' {
      assert CreatedLater(root, history, a, h);
    }
  }

  lemma {:induction false} PurgedIsWellKeyed(before: Db, after: Db, root: BlockMeta, history: History)
    requires Represents(before, root, history) && PurgeMatches(before, after, root, history)
    requires forall k :: k in after ==> k in before && after[k] == before[k]
    ensures WellKeyed(after)
  {
    RepresentedIsWellKeyed(before, root, history);
  }

  lemma {:induction false} PurgedShapes(before: Db, after: Db, root: BlockMeta, history: History)
    requires Represents(before, root, history) && forall k :: k in after ==> k in before && after[k] == before[k]
    ensures KeyShapes(after)
  {
    forall k | k in after && k != [] && (k[0] == ACCOUNT_PREFIX || k[0] == PROXY_PREFIX) ensures |k| == 17 {
      assert Get(before, k) == Expected(root, history, k);
    }
  }

  /** The keys a purge leaves to an account. */
  lemma {:induction false} PurgedKeys(before: Db, after: Db, root: BlockMeta, history: History, a: Address)
    requires Represents(before, root, history) && PurgeMatches(before, after, root, history)
    ensures HasAccountKey(after, a) <==> (exists h :: TouchedAt(root, history, a, h)) && !IsProxyIn(root, history, a)
    ensures HasProxyKey(after, a) ==> IsProxyIn(root, history, a)
  {
    hide Represents, ProxyCreatedAt, ProxyKey, AccountKey, TouchedAt;
    KeyedInHistory(before, root, history, a);
    if h: uint64 :| AccountKey(a, h) in after {
      assert Get(after, AccountKey(a, h)) == Get(before, AccountKey(a, h));
    }
    if HasAccountKey(before, a) && !IsProxyIn(root, history, a) {
      var h: uint64 :| AccountKey(a, h) in before;
      assert Get(after, AccountKey(a, h)) == Get(before, AccountKey(a, h));
    }
  }

  /** Accounts on the purged store, as start-up calls it: it fails exactly if some
      address was made a proxy at two heights, whose earlier key has lost its
      account; otherwise it finds the ordinary accounts, all unflagged. */
  method PurgedAccounts(ghost before: Db, after: Db, ghost root: BlockMeta, ghost history: History)
    returns (accts: Option<map<Address, bool>>)
    requires Represents(before, root, history) && PurgeMatches(before, after, root, history)
    requires forall k :: k in after ==> k in before && after[k] == before[k]
    ensures accts.None? <==> !CreatedOnce(root, history)
    ensures accts.Some? ==> forall a: Address ::
              a in accts.value <==> (exists h :: TouchedAt(root, history, a, h)) && !IsProxyIn(root, history, a)
    ensures accts.Some? ==> forall a: Address :: a in accts.value ==> !accts.value[a]
  {
    hide Represents, PurgeMatches, TouchedAt, IsProxyIn, CreatedOnce, ProxyKey, HasAccountKey;
    PurgedShapes(before, after, root, history);
    PurgeClearsProxies(before, after, root, history);
    forall a: Address
      ensures HasAccountKey(after, a) <==> (exists h :: TouchedAt(root, history, a, h)) && !IsProxyIn(root, history, a)
      ensures HasProxyKey(after, a) ==> IsProxyIn(root, history, a)
    {
      PurgedKeys(before, after, root, history, a);
    }
    if !CreatedOnce(root, history) {
      ghost var a: Address, h: uint64 :| ProxyKey(a, h) in after;
      assert HasProxyKey(after, a);
    }
    accts := ScanAccounts(after);
  }

  /** balanceByHeight on the purged store: zero for the purged accounts, and for
      every other account the balance it had, at every height. */
  method PurgedLookup(
      ghost before: Db, after: Db, ghost root: BlockMeta, ghost history: History, a: Address, height: uint64)
    returns (balance: uint64)
    requires Represents(before, root, history) && PurgeMatches(before, after, root, history)
    requires forall k :: k in after ==> k in before && after[k] == before[k]
    ensures balance == if IsProxyIn(root, history, a) then 0 else ToUint64(BalanceAt(root, history, a, height))
  {
    hide Represents, BalanceAt, AccountKey, WellKeyed, ToUint64, Encode64, Decode64;
    PurgedIsWellKeyed(before, after, root, history);
    ghost var at;
    balance, at := SeekBalance(after, a, height);
    if !IsProxyIn(root, history, a) {
      if at.None? {
        NoEntryMeansZero(before, root, history, a, height);
      } else {
        LastEntryHoldsBalance(before, root, history, a, height, at.value);
        Decode64Encode64(balance);
        Decode64Encode64(ToUint64(BalanceAt(root, history, a, height)));
      }
    }
  }
}
