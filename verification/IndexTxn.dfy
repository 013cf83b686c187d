/** The update transaction of Index: the net changes of a block and its writes. */
module IndexTxn {
  import opened Prelude
  import opened Bytes
  import opened Badger
  import opened Model
  import opened IndexSpec

  // ---- Net changes of one block ----

  function DiffOf(diffs: map<Address, int64>, a: Address): int64 {
    if a in diffs then diffs[a] else 0
  }

  ghost predicate DiffsMatch(diffs: map<Address, int64>, ops: seq<Operation>) {
    && (forall a: Address :: a in diffs <==> Touches(ops, a))
    && (forall a: Address :: Congruent(DiffOf(diffs, a), Effect(ops, a)))
  }

  ghost predicate ProxiesMatch(proxies: set<Key>, height: uint64, ops: seq<Operation>) {
    forall k :: k in proxies <==>
      |k| == 17 && k[0] == PROXY_PREFIX && Decode64(k[9..]) == height && CreatesProxy(ops, k[1..9])
  }

  function Bump(diffs: map<Address, int64>, who: Option<Address>, delta: int): map<Address, int64> {
    if who.None? then diffs else diffs[who.value := ToInt64(DiffOf(diffs, who.value) + delta)]
  }

  /** One operation's entry in the switch of Index. */
  function AddOperation(diffs: map<Address, int64>, op: Operation): map<Address, int64> {
    match op
    case CreateAccount(account, _) => if account in diffs then diffs else diffs[account := 0]
    case Move(_, sender, amount, receiver) =>
      var d: int := ToInt64(amount);
      Bump(Bump(diffs, sender, -d), receiver, d)
  }

  lemma {:induction false} AddOperationMatches(diffs: map<Address, int64>, op: Operation, ops: seq<Operation>)
    requires DiffsMatch(diffs, ops)
    ensures DiffsMatch(AddOperation(diffs, op), ops + [op])
  {
    var diffs' := AddOperation(diffs, op);
    forall a: Address ensures a in diffs' <==> Touches(ops + [op], a) {
      TouchesOneMore(ops, op, a);
    }
    forall a: Address ensures Congruent(DiffOf(diffs', a), Effect(ops + [op], a)) {
      EffectOfConcat(ops, [op], a);
      EffectOfOne(op, a);
      assert Congruent(DiffOf(diffs, a), Effect(ops, a));
      if op.Move? {
        MoveDiff(diffs, op, a, Effect(ops, a));
      }
    }
  }

  lemma {:induction false} BumpDiff(
      diffs: map<Address, int64>, who: Option<Address>, d: int, amount: int, a: Address, effect: int)
    requires Congruent(d, amount) && Congruent(DiffOf(diffs, a), effect)
    ensures Congruent(DiffOf(Bump(diffs, who, d), a), effect + (if who == Some(a) then amount else 0))
  {
    if who == Some(a) {
      DiffAfter(DiffOf(diffs, a), effect, d, amount);
    }
  }

  lemma {:induction false} MoveDiff(diffs: map<Address, int64>, op: Operation, a: Address, effect: int)
    requires op.Move? && Congruent(DiffOf(diffs, a), effect)
    ensures var d: int := ToInt64(op.amount);
            var diffs' := Bump(Bump(diffs, op.sender, -d), op.receiver, d);
            Congruent(DiffOf(diffs', a), effect + OpEffect(op, a))
  {
    var d: int, amount: int := ToInt64(op.amount), op.amount;
    var mid := Bump(diffs, op.sender, -d);
    CongruentNegation(d, amount);
    BumpDiff(diffs, op.sender, -d, -amount, a, effect);
    BumpDiff(mid, op.receiver, d, amount, a, effect - (if op.sender == Some(a) then amount else 0));
  }

  lemma {:induction false} DiffAfter(x: int, y: int, d: int, e: int)
    requires Congruent(x, y) && Congruent(d, e)
    ensures Congruent(ToInt64(x + d), y + e)
  {
    CongruentSum(x, d, y, e);
    CongruentTransitive(ToInt64(x + d), x + d, y + e);
  }

  lemma {:induction false} TouchesOneMore(ops: seq<Operation>, op: Operation, a: Address)
    ensures Touches(ops + [op], a) <==> Touches(ops, a) || OpTouches(op, a)
    ensures CreatesProxy(ops + [op], a) <==> CreatesProxy(ops, a) || OpCreatesProxy(op, a)
  {
    assert forall o :: o in ops + [op] <==> o in ops || o == op;
    if Touches(ops, a) {
      var o :| o in ops && OpTouches(o, a);
      assert o in ops + [op];
    }
    if CreatesProxy(ops, a) {
      var o :| o in ops && OpCreatesProxy(o, a);
      assert o in ops + [op];
    }
    assert op in ops + [op];
  }

  method AddProxy(proxies: set<Key>, height: uint64, op: Operation, ghost ops: seq<Operation>)
    returns (proxies': set<Key>)
    requires ProxiesMatch(proxies, height, ops)
    ensures ProxiesMatch(proxies', height, ops + [op])
  {
    proxies' := proxies;
    if op.CreateAccount? && |op.proxyPublicKey| > 0 {
      proxies' := proxies + {ProxyKey(op.account, height)};
      ProxyKeyParts(op.account, height);
    }
    forall k ensures k in proxies' <==>
      |k| == 17 && k[0] == PROXY_PREFIX && Decode64(k[9..]) == height && CreatesProxy(ops + [op], k[1..9])
    {
      if |k| == 17 && k[0] == PROXY_PREFIX {
        TouchesOneMore(ops, op, k[1..9]);
        ProxyKeyFromParts(k);
      }
    }
  }

  /** The two nested loops that fold a block into account diffs and proxy keys. */
  method CollectDiffs(txns: seq<IndexedTransaction>, height: uint64)
    returns (diffs: map<Address, int64>, proxies: set<Key>)
    ensures DiffsMatch(diffs, Operations(txns))
    ensures ProxiesMatch(proxies, height, Operations(txns))
  {
    diffs, proxies := map[], {};
    assert DiffsMatch(diffs, []);
    for i := 0 to |txns|
      invariant DiffsMatch(diffs, Operations(txns[..i]))
      invariant ProxiesMatch(proxies, height, Operations(txns[..i]))
    {
      var ops := txns[i].operations;
      ghost var before := Operations(txns[..i]);
      assert before + ops[..0] == before;
      for j := 0 to |ops|
        invariant DiffsMatch(diffs, before + ops[..j])
        invariant ProxiesMatch(proxies, height, before + ops[..j])
      {
        AddOperationMatches(diffs, ops[j], before + ops[..j]);
        diffs := AddOperation(diffs, ops[j]);
        proxies := AddProxy(proxies, height, ops[j], before + ops[..j]);
        assert before + ops[..j] + [ops[j]] == before + ops[..j + 1];
      }
      assert ops[..|ops|] == ops && txns[..i + 1][..i] == txns[..i];
    }
    assert txns[..|txns|] == txns;
  }

  // ---- The pending transaction of Index ----

  /** The check `val < 0` of Index: the balance read as an int64. */
  predicate NonNegative(history: History, a: Address) {
    0 <= ToInt64(Balance(history, a))
  }

  /** Every balance the next block touches passes that check. */
  ghost predicate NoneNegative(history: History, entry: Entry) {
    forall a: Address :: Touches(EntryOps(entry), a) ==> NonNegative(history + [entry], a)
  }

  function PendingValue(
      height: uint64, history: History, done: set<Address>, k: Key, before: Option<Value>): Option<Value> {
    if |k| == 17 && k[0] == ACCOUNT_PREFIX && Decode64(k[9..]) == height && k[1..9] in done
    then Some(Bytes(Encode64(ToUint64(Balance(history, k[1..9])))))
    else before
  }

  ghost predicate PendingMatches(db: Db, pending: Db, height: uint64, history: History, done: set<Address>) {
    forall k :: Get(pending, k) == PendingValue(height, history, done, k, Get(db, k))
  }

  lemma {:induction false} PendingIsWellKeyed(db: Db, pending: Db, height: uint64, history: History, done: set<Address>)
    requires WellKeyed(db) && PendingMatches(db, pending, height, history, done)
    ensures WellKeyed(pending)
  {
    forall k | k in pending && k != [] && k[0] == ACCOUNT_PREFIX
      ensures |k| == 17 && pending[k].Bytes? && |pending[k].bytes| == 8
    {
      assert Get(pending, k) == PendingValue(height, history, done, k, Get(db, k));
    }
  }

  method SetBalance(pending: Db, a: Address, height: uint64, val: int64,
                    ghost db: Db, ghost history: History, ghost done: set<Address>)
    returns (pending': Db)
    requires PendingMatches(db, pending, height, history, done)
    requires 0 <= val && val == ToInt64(Balance(history, a))
    ensures PendingMatches(db, pending', height, history, done + {a})
  {
    var key := AccountKey(a, height);
    pending' := pending[key := Bytes(Encode64(ToUint64(val)))];
    ReinterpretRoundTrip(Balance(history, a));
    AccountKeyParts(a, height);
    forall k ensures Get(pending', k) == PendingValue(height, history, done + {a}, k, Get(db, k)) {
      assert Get(pending, k) == PendingValue(height, history, done, k, Get(db, k));
      if |k| == 17 && k[0] == ACCOUNT_PREFIX {
        AccountKeyFromParts(k);
      }
    }
  }

  /** The writes of Index's transaction other than the account balances. */
  method Commit(db: Db, proxies: set<Key>, height: uint64, hash: ByteString, block: IndexedBlock) returns (db': Db)
    ensures Commits(db, db', proxies, height, hash, block)
  {
    db' := db + map k | k in proxies :: ONE;
    db' := db'[BlockKey(height) := Block(block)];
    db' := db'[HashToHeightKey(hash) := Bytes(Encode64(height))];
    db' := db'[HeightToHashKey(height) := Bytes(hash)];
    db' := db'[LATEST_KEY := Meta(BlockMeta(hash, height, [], block.timestamp))];
  }

  ghost predicate Commits(db: Db, db': Db, proxies: set<Key>, height: uint64, hash: ByteString, block: IndexedBlock) {
    forall k :: Get(db', k) == CommitValue(proxies, height, hash, block, k, Get(db, k))
  }

  /** What a key holds after Commit. */
  function CommitValue(
      proxies: set<Key>, height: uint64, hash: ByteString, block: IndexedBlock, k: Key,
      before: Option<Value>): Option<Value> {
    if k == LATEST_KEY then Some(Meta(BlockMeta(hash, height, [], block.timestamp)))
    else if k == HeightToHashKey(height) then Some(Bytes(hash))
    else if k == HashToHeightKey(hash) then Some(Bytes(Encode64(height)))
    else if k == BlockKey(height) then Some(Block(block))
    else if k in proxies then Some(ONE)
    else before
  }

  lemma {:induction false} CommittedKey(
      root: BlockMeta, history: History, entry: Entry, proxies: set<Key>, done: set<Address>, k: Key,
      before: Option<Value>)
    requires InBounds(root, history + [entry])
    requires k in proxies <==> WritesProxy(root, history, entry, k)
    requires |k| == 17 ==> (k[1..9] in done <==> Touches(EntryOps(entry), k[1..9]))
    ensures var height := root.height + |history| + 1;
            CommitValue(proxies, height, entry.hash, entry.block, k,
                        PendingValue(height, history + [entry], done, k, before)) ==
            Written(root, history, entry, k, before)
  {
  }

  lemma {:induction false} CommitsTip(
      db: Db, db': Db, proxies: set<Key>, height: uint64, hash: ByteString, block: IndexedBlock)
    requires Commits(db, db', proxies, height, hash, block)
    ensures LATEST_KEY in db' && db'[LATEST_KEY] == Meta(BlockMeta(hash, height, [], block.timestamp))
  {
    assert Get(db', LATEST_KEY) == Some(Meta(BlockMeta(hash, height, [], block.timestamp)));
  }

  lemma {:induction false} CommitExtends(db: Db, pending: Db, db': Db, diffs: map<Address, int64>, proxies: set<Key>,
                      root: BlockMeta, history: History, entry: Entry)
    requires Represents(db, root, history) && InBounds(root, history + [entry])
    requires PendingMatches(db, pending, root.height + |history| + 1, history + [entry], diffs.Keys)
    requires DiffsMatch(diffs, EntryOps(entry))
    requires ProxiesMatch(proxies, root.height + |history| + 1, EntryOps(entry))
    requires Commits(pending, db', proxies, root.height + |history| + 1, entry.hash, entry.block)
    ensures Represents(db', root, history + [entry])
  {
    forall k ensures Get(db', k) == Written(root, history, entry, k, Get(db, k)) {
      assert Get(pending, k) == PendingValue(root.height + |history| + 1, history + [entry], diffs.Keys, k, Get(db, k));
      CommittedKey(root, history, entry, proxies, diffs.Keys, k, Get(db, k));
    }
    IndexExtends(db, db', root, history, entry);
  }

  lemma {:induction false} NewBalance(history: History, entry: Entry, a: Address, cur: int64, diff: int64)
    requires cur == ToInt64(Balance(history, a))
    requires Congruent(diff, Effect(EntryOps(entry), a))
    ensures ToInt64(cur + diff) == ToInt64(Balance(history + [entry], a))
  {
    assert (history + [entry])[..|history|] == history;
    CongruentSum(cur, diff, Balance(history, a), Effect(EntryOps(entry), a));
    CongruentIsEqual(cur + diff, Balance(history + [entry], a));
  }
}
