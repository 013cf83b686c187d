/** Restarting the indexer from its store: the account map rebuilt from the
    database answers like the live one and translates further blocks alike. */
module Restart {
  import opened Prelude
  import opened Model
  import opened IndexSpec
  import opened Translate
  import opened Flows
  import opened Ledger
  import opened EndToEnd

  // ---- Which accounts a transaction's operations name ----

  predicate OnlyMoves(ops: seq<Operation>) {
    forall op :: op in ops ==> op.Move?
  }

  /** Every account the operations touch is one of these. */
  predicate Within(ops: seq<Operation>, known: set<Address>) {
    forall op :: op in ops ==> OpWithin(op, known)
  }

  predicate OpWithin(op: Operation, known: set<Address>) {
    match op
    case CreateAccount(account, _) => account in known
    case Move(_, sender, _, receiver) =>
      (sender.Some? ==> sender.value in known) && (receiver.Some? ==> receiver.value in known)
  }

  function MoveAccounts(moves: seq<ProxyMove>): set<Address> {
    (set m | m in moves :: m.sender) + (set m | m in moves && m.receiver.Some? :: m.receiver.value)
  }

  /** The accounts that the two passes collect. */
  function Involved(t: Tracker, payer: Address, events: seq<Event>, news: map<Address, bool>): set<Address> {
    var first := First(t, payer, events, news);
    var second := Second(t, first.news, events);
    first.keys.Keys + first.proxyDeposits.Keys + MoveAccounts(first.moves) +
    second.deposits.Keys + second.withdrawals.Keys + (if t.IsTracked(payer, first.news) then {payer} else {})
  }

  lemma {:induction false} CreateOpsAre(keys: map<Address, Option<PublicKey>>, addrs: seq<Address>, op: Operation)
    ensures op in CreateOps(keys, addrs) <==> exists a :: a in addrs && op == CreateOp(keys, a)
  {
    if addrs != [] {
      var shorter, a := addrs[..|addrs| - 1], addrs[|addrs| - 1];
      assert addrs == shorter + [a];
      CreateOpsAre(keys, shorter, op);
    }
  }

  /** Matching adds only moves, between known accounts, and never a new open amount. */
  lemma {:induction false} MatchMovesWithin(
      t: Tracker, news: map<Address, bool>, n: Netting, moves: seq<ProxyMove>, known: set<Address>)
    requires Within(n.ops, known) && MoveAccounts(moves) <= known
    requires n.deposits.Keys + n.proxyDeposits.Keys + n.withdrawals.Keys <= known
    ensures var n' := MatchMoves(t, news, n, moves);
            && Within(n'.ops, known)
            && n.ops <= n'.ops && OnlyMoves(n'.ops[|n.ops|..])
            && n'.deposits.Keys + n'.proxyDeposits.Keys + n'.withdrawals.Keys <= known
  {
    if moves != [] {
      var shorter, m := moves[..|moves| - 1], moves[|moves| - 1];
      assert m in moves && forall x :: x in shorter ==> x in moves;
      assert MoveAccounts(shorter) <= MoveAccounts(moves);
      assert m.sender in MoveAccounts(moves) && (m.receiver.Some? ==> m.receiver.value in MoveAccounts(moves));
      MatchMovesWithin(t, news, n, shorter, known);
      MatchMoveWithin(t, news, MatchMoves(t, news, n, shorter), m, known, |n.ops|);
    }
  }

  lemma {:induction false} MatchMoveWithin(
      t: Tracker, news: map<Address, bool>, n: Netting, m: ProxyMove, known: set<Address>, start: nat)
    requires Within(n.ops, known) && m.sender in known && (m.receiver.Some? ==> m.receiver.value in known)
    requires n.deposits.Keys + n.proxyDeposits.Keys + n.withdrawals.Keys <= known
    requires start <= |n.ops| && OnlyMoves(n.ops[start..])
    ensures var n' := MatchMove(t, news, n, m);
            && Within(n'.ops, known) && n.ops <= n'.ops && OnlyMoves(n'.ops[start..])
            && n'.deposits.Keys + n'.proxyDeposits.Keys + n'.withdrawals.Keys <= known
  {
    hide Within, OnlyMoves, At, Minus;
    MoveWithin(n.ops, m, known, start);
    if m.receiver.Some? {
      MinusKeys(n.deposits, m.receiver.value, m.amount);
      MinusKeys(n.proxyDeposits, m.receiver.value, m.amount);
    }
  }

  lemma {:induction false} MoveWithin(ops: seq<Operation>, m: ProxyMove, known: set<Address>, start: nat)
    requires Within(ops, known) && m.sender in known && (m.receiver.Some? ==> m.receiver.value in known)
    requires start <= |ops| && OnlyMoves(ops[start..])
    ensures Within(ops + [MoveOp(m)], known) && OnlyMoves((ops + [MoveOp(m)])[start..])
  {
    assert (ops + [MoveOp(m)])[start..] == ops[start..] + [MoveOp(m)];
  }

  lemma {:induction false} MinusKeys(m: Amounts, b: Address, amount: uint64)
    ensures 0 < amount <= At(m, b) ==> Minus(m, b, amount).Keys == m.Keys
  {
  }

  lemma {:induction false} CreateOpsWithin(
      keys: map<Address, Option<PublicKey>>, addrs: seq<Address>, known: set<Address>)
    requires forall a :: a in addrs ==> a in known
    ensures Within(CreateOps(keys, addrs), known)
  {
    forall op | op in CreateOps(keys, addrs) ensures OpWithin(op, known) {
      CreateOpsAre(keys, addrs, op);
    }
  }

  lemma {:induction false} ChargeFeeWithin(
      t: Tracker, payer: Address, news: map<Address, bool>, fees: uint64, n: Netting, known: set<Address>)
    requires Within(n.ops, known) && (t.IsTracked(payer, news) ==> payer in known)
    requires n.deposits.Keys + n.proxyDeposits.Keys + n.withdrawals.Keys <= known
    ensures var n' := ChargeFee(t, payer, news, fees, n);
            && Within(n'.ops, known)
            && n.ops <= n'.ops && OnlyMoves(n'.ops[|n.ops|..])
            && n'.deposits.Keys + n'.proxyDeposits.Keys + n'.withdrawals.Keys <= known
  {
  }

  lemma {:induction false} NetWithin(t: Tracker, payer: Address, events: seq<Event>, news: map<Address, bool>)
    ensures var n := Net(t, payer, events, news);
            var first := First(t, payer, events, news);
            var creates := CreateOps(first.keys, first.addrs);
            var known := Involved(t, payer, events, news);
            && Within(n.ops, known)
            && creates <= n.ops && OnlyMoves(n.ops[|creates|..])
            && n.deposits.Keys + n.proxyDeposits.Keys + n.withdrawals.Keys <= known
  {
    var first := First(t, payer, events, news);
    var second := Second(t, first.news, events);
    var creates := CreateOps(first.keys, first.addrs);
    var known := Involved(t, payer, events, news);
    forall a | a in first.addrs ensures a in known {
      FirstCreates(t, payer, events, news, a);
    }
    CreateOpsWithin(first.keys, first.addrs, known);
    var n0 := Netting(first.ok, creates, second.deposits, first.proxyDeposits, second.withdrawals);
    ChargeFeeWithin(t, payer, first.news, second.fees, n0, known);
    var n1 := ChargeFee(t, payer, first.news, second.fees, n0);
    MatchMovesWithin(t, first.news, n1, first.moves, known);
    OnlyMovesChain(creates, n1.ops, MatchMoves(t, first.news, n1, first.moves).ops);
  }

  lemma {:induction false} OnlyMovesChain(x: seq<Operation>, y: seq<Operation>, z: seq<Operation>)
    requires x <= y && OnlyMoves(y[|x|..]) && y <= z && OnlyMoves(z[|y|..])
    ensures x <= z && OnlyMoves(z[|x|..])
  {
    assert z[|x|..] == y[|x|..] + z[|y|..];
  }

  lemma {:induction false} DepositsWithin(order: seq<Address>, rem: Amounts, known: set<Address>)
    requires forall a :: a in order ==> a in known
    ensures Within(DepositOps(order, rem), known) && OnlyMoves(DepositOps(order, rem))
  {
    if order != [] {
      assert order[|order| - 1] in order;
      DepositsWithin(order[..|order| - 1], rem, known);
    }
  }

  lemma {:induction false} WithdrawalsWithin(order: seq<Address>, rem: Amounts, known: set<Address>)
    requires forall a :: a in order ==> a in known
    ensures Within(WithdrawalOps(order, rem), known) && OnlyMoves(WithdrawalOps(order, rem))
  {
    if order != [] {
      assert order[|order| - 1] in order;
      WithdrawalsWithin(order[..|order| - 1], rem, known);
    }
  }

  lemma {:induction false} TailWithin(tail: seq<Operation>, remDeposits: Amounts, remWithdrawals: Amounts)
    requires IsTail(tail, remDeposits, remWithdrawals)
    ensures Within(tail, remDeposits.Keys + remWithdrawals.Keys) && OnlyMoves(tail)
  {
    var known := remDeposits.Keys + remWithdrawals.Keys;
    if OneToOne(remDeposits, remWithdrawals) {
      var r, s :| r in remDeposits && s in remWithdrawals && tail == [Move(Transfer, Some(s), remDeposits[r], Some(r))];
    } else {
      var d, w :| IsOrder(d, remDeposits) && IsOrder(w, remWithdrawals) &&
        tail == DepositOps(d, remDeposits) + WithdrawalOps(w, remWithdrawals);
      DepositsWithin(d, remDeposits, known);
      WithdrawalsWithin(w, remWithdrawals, known);
    }
  }

  lemma {:induction false} SplitOperations(
      t: Tracker, payer: Address, events: seq<Event>, news: map<Address, bool>, ops: seq<Operation>)
    requires Translates(t, payer, events, news, ops)
    ensures var first := First(t, payer, events, news);
            var creates := CreateOps(first.keys, first.addrs);
            && creates <= ops && OnlyMoves(ops[|creates|..])
            && Within(ops, Involved(t, payer, events, news))
  {
    hide First, Second, Net, CreateOps, MatchMoves, ChargeFee, IsTail, Involved;
    var n := Net(t, payer, events, news);
    var first := First(t, payer, events, news);
    var creates := CreateOps(first.keys, first.addrs);
    NetWithin(t, payer, events, news);
    var tail := ops[|n.ops|..];
    TailWithin(tail, Positive(n.deposits) + Positive(n.proxyDeposits), Positive(n.withdrawals));
    OnlyMovesChain(creates, n.ops, ops);
    WithinWider(tail, (Positive(n.deposits) + Positive(n.proxyDeposits)).Keys + Positive(n.withdrawals).Keys,
                Involved(t, payer, events, news));
    assert ops == n.ops + tail;
  }

  lemma {:induction false} WithinWider(ops: seq<Operation>, known: set<Address>, wider: set<Address>)
    requires Within(ops, known) && known <= wider
    ensures Within(ops, wider)
  {
  }

  lemma {:induction false} CreationsAre(
      keys: map<Address, Option<PublicKey>>, addrs: seq<Address>, ops: seq<Operation>, a: Address)
    requires var creates := CreateOps(keys, addrs); creates <= ops && OnlyMoves(ops[|creates|..])
    requires a in keys <==> a in addrs
    ensures a in keys ==> Touches(ops, a)
    ensures CreatesProxy(ops, a) <==> a in keys && keys[a].Some?
  {
    var creates := CreateOps(keys, addrs);
    assert ops == creates + ops[|creates|..];
    CreateOpsAre(keys, addrs, CreateOp(keys, a));
    if a in keys {
      assert CreateOp(keys, a) in ops && OpTouches(CreateOp(keys, a), a);
    }
    if CreatesProxy(ops, a) {
      var op :| op in ops && OpCreatesProxy(op, a);
      CreateOpsAre(keys, addrs, op);
    } else if a in keys && keys[a].Some? {
      assert OpCreatesProxy(CreateOp(keys, a), a);
    }
  }

  /** The creations among an accepted transaction's operations are exactly its
      created accounts, and all other accounts come from the passes. */
  lemma {:induction false} OperationsNameInvolved(
      t: Tracker, payer: Address, events: seq<Event>, news: map<Address, bool>, ops: seq<Operation>, a: Address)
    requires Translates(t, payer, events, news, ops)
    ensures var keys := First(t, payer, events, news).keys;
            && (Touches(ops, a) ==> a in Involved(t, payer, events, news))
            && (a in keys ==> Touches(ops, a))
            && (CreatesProxy(ops, a) <==> a in keys && keys[a].Some?)
  {
    var first := First(t, payer, events, news);
    SplitOperations(t, payer, events, news, ops);
    FirstCreates(t, payer, events, news, a);
    CreationsAre(first.keys, first.addrs, ops, a);
  }

  /** Involved accounts are followed once the transaction is read, and appear in it. */
  lemma {:induction false} InvolvedIsFollowed(
      t: Tracker, payer: Address, events: seq<Event>, news: map<Address, bool>, a: Address)
    requires a in Involved(t, payer, events, news)
    ensures t.IsTracked(a, First(t, payer, events, news).news)
    ensures payer == a || exists e :: e in events && EventMentions(e, a)
  {
    var first := First(t, payer, events, news);
    FirstInvolves(t, payer, events, news, a);
    SecondInvolves(t, first.news, events, a);
  }

  lemma {:induction false} FirstInvolves(
      t: Tracker, payer: Address, events: seq<Event>, news: map<Address, bool>, a: Address)
    ensures var s := First(t, payer, events, news);
            (a in s.keys || a in s.proxyDeposits || a in MoveAccounts(s.moves)) ==>
              t.IsTracked(a, s.news) && exists e :: e in events && EventMentions(e, a)
    ensures t.IsTracked(a, news) ==> t.IsTracked(a, First(t, payer, events, news).news)
  {
    if events != [] {
      var shorter, e := events[..|events| - 1], events[|events| - 1];
      assert events == shorter + [e];
      FirstInvolves(t, payer, shorter, news, a);
      var s, s' := First(t, payer, shorter, news), First(t, payer, events, news);
      FirstStepInvolves(t, payer, s, e, a);
      if a in s.keys || a in s.proxyDeposits || a in MoveAccounts(s.moves) {
        var x :| x in shorter && EventMentions(x, a);
        assert x in events;
      } else if a in s'.keys || a in s'.proxyDeposits || a in MoveAccounts(s'.moves) {
        assert e in events && EventMentions(e, a);
      }
    }
  }

  lemma {:induction false} FirstStepInvolves(t: Tracker, payer: Address, s: FirstPass, e: Event, a: Address)
    ensures var s' := FirstStep(t, payer, s, e);
            && (t.IsTracked(a, s.news) ==> t.IsTracked(a, s'.news))
            && (a in s'.keys ==> a in s.keys || (t.IsTracked(a, s'.news) && EventMentions(e, a)))
            && (a in s'.proxyDeposits ==> a in s.proxyDeposits || (t.IsTracked(a, s'.news) && EventMentions(e, a)))
            && (a in MoveAccounts(s'.moves) ==>
                  a in MoveAccounts(s.moves) || (t.IsTracked(a, s'.news) && EventMentions(e, a)))
  {
  }

  lemma {:induction false} SecondInvolves(t: Tracker, news: map<Address, bool>, events: seq<Event>, a: Address)
    ensures var s := Second(t, news, events);
            (a in s.deposits || a in s.withdrawals) ==>
              t.IsTracked(a, news) && exists e :: e in events && EventMentions(e, a)
  {
    if events != [] {
      var shorter, e := events[..|events| - 1], events[|events| - 1];
      assert events == shorter + [e];
      SecondInvolves(t, news, shorter, a);
      var s, s' := Second(t, news, shorter), Second(t, news, events);
      if a in s.deposits || a in s.withdrawals {
        var x :| x in shorter && EventMentions(x, a);
        assert x in events;
      } else if a in s'.deposits || a in s'.withdrawals {
        assert e in events && EventMentions(e, a);
      }
    }
  }

  // ---- Blocks and histories ----

  lemma {:induction false} OperationsOf(indexed: seq<IndexedTransaction>, op: Operation)
    ensures op in Operations(indexed) <==> exists k :: 0 <= k < |indexed| && op in indexed[k].operations
  {
    if indexed != [] {
      var n := |indexed| - 1;
      OperationsOf(indexed[..n], op);
      if op in indexed[n].operations {
        assert exists k :: 0 <= k < |indexed| && op in indexed[k].operations;
      }
    }
  }

  ghost predicate HistoryTouches(history: History, a: Address) {
    exists n :: 0 <= n < |history| && Touches(EntryOps(history[n]), a)
  }

  ghost predicate HistoryCreatesProxy(history: History, a: Address) {
    exists n :: 0 <= n < |history| && CreatesProxy(EntryOps(history[n]), a)
  }

  /** Operations touch only followed accounts, and all new ones. */
  ghost predicate BlockFollows(t: Tracker, txns: seq<ChainTxn>, indexed: seq<IndexedTransaction>, a: Address) {
    var news := NewsAfter(t, txns);
    && (Touches(Operations(indexed), a) ==> t.IsTracked(a, news) && TxnsMention(txns, a))
    && (a in news ==> Touches(Operations(indexed), a))
  }

  ghost predicate BlockProxies(t: Tracker, txns: seq<ChainTxn>, indexed: seq<IndexedTransaction>, a: Address) {
    var news := NewsAfter(t, txns);
    CreatesProxy(Operations(indexed), a) <==> a in news && news[a]
  }

  /** Created accounts are new to the block, transaction by transaction. */
  ghost predicate FreshTxns(t: Tracker, txns: seq<ChainTxn>) {
    forall k, a: Address :: 0 <= k < |txns| && EventsCreate(txns[k].events, a) ==>
      a !in t.accts && a !in NewsAfter(t, txns[..k])
  }

  lemma {:induction false} BlockFollowing(
      t: Tracker, txns: seq<ChainTxn>, indexed: seq<IndexedTransaction>, n: nat, a: Address)
    requires BlockTranslates(t, txns, indexed) && n <= |txns|
    ensures BlockFollows(t, txns[..n], indexed[..n], a)
  {
    hide Translates, BlockFollows, NewsAfter;
    if n == 0 {
      EmptyBlock(t, a);
      assert txns[..0] == [] && indexed[..0] == [];
    } else {
      var k := n - 1;
      BlockFollowing(t, txns, indexed, k, a);
      assert TxnTranslates(t, txns, k, indexed[k]);
      BlockFollowingStep(t, txns[..k], txns[k], indexed[..k], indexed[k], a);
      assert indexed[..k] + [indexed[k]] == indexed[..n] && txns[..k] + [txns[k]] == txns[..n];
    }
  }

  lemma {:induction false} EmptyBlock(t: Tracker, a: Address)
    ensures BlockFollows(t, [], [], a) && BlockProxies(t, [], [], a)
  {
  }

  /** The block's operations and new accounts after one more transaction. */
  lemma {:induction false} OneMoreTxn(t: Tracker, before: seq<ChainTxn>, x: ChainTxn,
                                      indexed: seq<IndexedTransaction>, last: IndexedTransaction, a: Address)
    ensures NewsAfter(t, before + [x]) == First(t, x.payer, x.events, NewsAfter(t, before)).news
    ensures var ops, ops' := Operations(indexed), Operations(indexed + [last]);
            && (Touches(ops', a) <==> Touches(ops, a) || Touches(last.operations, a))
            && (CreatesProxy(ops', a) <==> CreatesProxy(ops, a) || CreatesProxy(last.operations, a))
    ensures TxnsMention(before + [x], a) <==> TxnsMention(before, a) || TxnMentions(x, a)
  {
    assert (before + [x])[..|before|] == before && (indexed + [last])[..|indexed|] == indexed;
    ConcatTouches(Operations(indexed), last.operations, a);
    assert forall y :: y in before + [x] <==> y in before || y == x;
  }

  lemma {:induction false} BlockFollowingStep(t: Tracker, before: seq<ChainTxn>, x: ChainTxn,
                                              indexed: seq<IndexedTransaction>, last: IndexedTransaction, a: Address)
    requires BlockFollows(t, before, indexed, a)
    requires Translates(t, x.payer, x.events, NewsAfter(t, before), last.operations)
    ensures BlockFollows(t, before + [x], indexed + [last], a)
  {
    hide Translates, First, Touches, CreatesProxy, Operations, NewsAfter, TxnsMention, Involved;
    var news := NewsAfter(t, before);
    OneMoreTxn(t, before, x, indexed, last, a);
    OperationsNameInvolved(t, x.payer, x.events, news, last.operations, a);
    FirstCreates(t, x.payer, x.events, news, a);
    FirstInvolves(t, x.payer, x.events, news, a);
    if Touches(last.operations, a) {
      InvolvedIsFollowed(t, x.payer, x.events, news, a);
    }
  }

  lemma {:induction false} BlockProxyAgreement(
      t: Tracker, txns: seq<ChainTxn>, indexed: seq<IndexedTransaction>, n: nat, a: Address)
    requires BlockTranslates(t, txns, indexed) && FreshTxns(t, txns) && n <= |txns|
    ensures BlockProxies(t, txns[..n], indexed[..n], a)
  {
    hide Translates, BlockProxies, NewsAfter, FreshTxns;
    if n == 0 {
      EmptyBlock(t, a);
      assert txns[..0] == [] && indexed[..0] == [];
    } else {
      var k := n - 1;
      BlockProxyAgreement(t, txns, indexed, k, a);
      assert TxnTranslates(t, txns, k, indexed[k]);
      CreatedHereIsNew(t, txns, k, a);
      BlockProxyStep(t, txns[..k], txns[k], indexed[..k], indexed[k], a);
      assert indexed[..k] + [indexed[k]] == indexed[..n] && txns[..k] + [txns[k]] == txns[..n];
    }
  }

  lemma {:induction false} CreatedHereIsNew(t: Tracker, txns: seq<ChainTxn>, k: nat, a: Address)
    requires FreshTxns(t, txns) && k < |txns|
    ensures EventsCreate(txns[k].events, a) ==> a !in t.accts && a !in NewsAfter(t, txns[..k])
  {
  }

  lemma {:induction false} BlockProxyStep(t: Tracker, before: seq<ChainTxn>, x: ChainTxn,
                                          indexed: seq<IndexedTransaction>, last: IndexedTransaction, a: Address)
    requires BlockProxies(t, before, indexed, a)
    requires Translates(t, x.payer, x.events, NewsAfter(t, before), last.operations)
    requires EventsCreate(x.events, a) ==> a !in t.accts && a !in NewsAfter(t, before)
    ensures BlockProxies(t, before + [x], indexed + [last], a)
  {
    hide Translates, First, Touches, CreatesProxy, Operations, NewsAfter, TxnsMention, EventsCreate;
    var news := NewsAfter(t, before);
    OneMoreTxn(t, before, x, indexed, last, a);
    OperationsNameInvolved(t, x.payer, x.events, news, last.operations, a);
    FirstCreates(t, x.payer, x.events, news, a);
    if a in First(t, x.payer, x.events, news).keys {
      KeysAreCreated(t, x.payer, x.events, news, a);
    }
  }

  lemma {:induction false} ConcatTouches(ops: seq<Operation>, ops': seq<Operation>, a: Address)
    ensures Touches(ops + ops', a) <==> Touches(ops, a) || Touches(ops', a)
    ensures CreatesProxy(ops + ops', a) <==> CreatesProxy(ops, a) || CreatesProxy(ops', a)
  {
    assert forall op :: op in ops + ops' <==> op in ops || op in ops';
  }

  // ---- The store's account map against the live one ----

  /** What Store.Accounts returns on a store that holds this history. */
  ghost predicate IsStoreAccts(history: History, accts: map<Address, bool>) {
    && (forall a: Address :: a in accts <==> HistoryTouches(history, a))
    && (forall a: Address :: a in accts ==> (accts[a] <==> HistoryCreatesProxy(history, a)))
  }

  /** A map that may also know originators the live one has never created. */
  ghost predicate Agrees(cfg: Config, chain: Chain, accts: map<Address, bool>, live: map<Address, bool>) {
    && (forall a: Address :: a in live ==> a in accts && accts[a] == live[a])
    && (forall a: Address :: a in accts && a !in live ==>
          !accts[a] && a in cfg.originators && ChainMentions(chain, a))
  }

  /** Touched accounts are followed and mentioned, and followed ones are touched. */
  ghost predicate HistoryFollows(cfg: Config, chain: Chain, history: History, a: Address) {
    var live := AcctsAfter(cfg, chain);
    && (HistoryTouches(history, a) ==> (a in live || a in cfg.originators) && ChainMentions(chain, a))
    && (a in live ==> HistoryTouches(history, a))
  }

  ghost predicate HistoryProxies(cfg: Config, chain: Chain, history: History, a: Address) {
    var live := AcctsAfter(cfg, chain);
    HistoryCreatesProxy(history, a) <==> a in live && live[a]
  }

  lemma {:induction false} SaneIsFresh(cfg: Config, chain: Chain, n: nat)
    requires Sane(chain) && n < |chain|
    ensures FreshTxns(TrackerOf(cfg, AcctsAfter(cfg, chain[..n])), chain[n].txns)
  {
    forall k, a: Address | 0 <= k < |chain[n].txns| && EventsCreate(chain[n].txns[k].events, a)
      ensures a !in AcctsAfter(cfg, chain[..n])
      ensures a !in NewsAfter(TrackerOf(cfg, AcctsAfter(cfg, chain[..n])), chain[n].txns[..k])
    {
      CreatedIsUnknown(cfg, chain, n, k, a);
    }
  }

  /** On every indexed chain, the store's accounts are the followed ones. */
  lemma {:induction false} HistoryFollowing(cfg: Config, chain: Chain, history: History, a: Address)
    requires Indexes(cfg, chain, history)
    ensures HistoryFollows(cfg, chain, history, a)
  {
    hide Translates, Touches, CreatesProxy, NewsAfter, BlockTranslates;
    if chain != [] {
      var n := |chain| - 1;
      IndexesPrefix(cfg, chain, history, n);
      HistoryFollowing(cfg, chain[..n], history[..n], a);
      var t := TrackerOf(cfg, AcctsAfter(cfg, chain[..n]));
      assert EntryMatches(cfg, chain, n, history[n]);
      var txns, indexed := chain[n].txns, history[n].block.transactions;
      FullBlock(t, txns, indexed);
      BlockFollowing(t, txns, indexed, |txns|, a);
      assert history == history[..n] + [history[n]];
      HistoryGrows(history[..n], history[n], a);
      assert chain[n] in chain && forall b :: b in chain[..n] ==> b in chain;
    }
  }

  lemma {:induction false} FullBlock(t: Tracker, txns: seq<ChainTxn>, indexed: seq<IndexedTransaction>)
    requires BlockTranslates(t, txns, indexed)
    ensures txns[..|txns|] == txns && |indexed| == |txns| && indexed[..|txns|] == indexed
  {
  }

  /** On a chain that creates addresses once, its proxies are the live ones. */
  lemma {:induction false} HistoryProxyAgreement(cfg: Config, chain: Chain, history: History, a: Address)
    requires Sane(chain) && Indexes(cfg, chain, history)
    ensures HistoryProxies(cfg, chain, history, a)
  {
    hide Translates, Sane, Touches, CreatesProxy, NewsAfter, BlockTranslates;
    if chain != [] {
      var n := |chain| - 1;
      SanePrefix(chain, n);
      IndexesPrefix(cfg, chain, history, n);
      HistoryProxyAgreement(cfg, chain[..n], history[..n], a);
      var t := TrackerOf(cfg, AcctsAfter(cfg, chain[..n]));
      assert EntryMatches(cfg, chain, n, history[n]);
      SaneIsFresh(cfg, chain, n);
      var txns, indexed := chain[n].txns, history[n].block.transactions;
      FullBlock(t, txns, indexed);
      BlockProxyAgreement(t, txns, indexed, |txns|, a);
      NewsAreDisjoint(cfg, chain, n, a);
      assert history == history[..n] + [history[n]];
      HistoryGrows(history[..n], history[n], a);
    }
  }

  lemma {:induction false} HistoryGrows(history: History, e: Entry, a: Address)
    ensures HistoryTouches(history + [e], a) <==> HistoryTouches(history, a) || Touches(EntryOps(e), a)
    ensures HistoryCreatesProxy(history + [e], a) <==> HistoryCreatesProxy(history, a) || CreatesProxy(EntryOps(e), a)
  {
    var longer := history + [e];
    assert longer[|history|] == e;
    if HistoryTouches(history, a) {
      var n :| 0 <= n < |history| && Touches(EntryOps(history[n]), a);
      assert longer[n] == history[n];
    }
    if HistoryCreatesProxy(history, a) {
      var n :| 0 <= n < |history| && CreatesProxy(EntryOps(history[n]), a);
      assert longer[n] == history[n];
    }
  }

  /** The two maps give the same answers while no account they differ on is new. */
  lemma {:induction false} AnswersAgree(
      cfg: Config, chain: Chain, accts: map<Address, bool>, live: map<Address, bool>, news: map<Address, bool>,
      a: Address)
    requires Agrees(cfg, chain, accts, live)
    requires a in news ==> a !in accts || a in live
    ensures var t, u := TrackerOf(cfg, accts), TrackerOf(cfg, live);
            t.IsTracked(a, news) == u.IsTracked(a, news) && t.IsProxy(a, news) == u.IsProxy(a, news)
  {
  }

  /** Restart equivalence, followed accounts: after any run over any chain, the map
      rebuilt from the store follows the addresses the live indexer follows. */
  lemma {:induction false} RestartTracks(
      cfg: Config, chain: Chain, history: History, accts: map<Address, bool>, a: Address)
    requires Indexes(cfg, chain, history) && IsStoreAccts(history, accts)
    ensures TrackerOf(cfg, accts).IsTracked(a, map[]) == TrackerOf(cfg, AcctsAfter(cfg, chain)).IsTracked(a, map[])
  {
    HistoryFollowing(cfg, chain, history, a);
  }

  /** Restart equivalence: after any run over a chain that creates addresses once,
      the rebuilt map answers every question as the live indexer does. */
  lemma {:induction false} RestartAgrees(cfg: Config, chain: Chain, history: History, accts: map<Address, bool>)
    requires Sane(chain) && Indexes(cfg, chain, history) && IsStoreAccts(history, accts)
    ensures Agrees(cfg, chain, accts, AcctsAfter(cfg, chain))
    ensures forall a: Address ::
              var rebuilt, live := TrackerOf(cfg, accts), TrackerOf(cfg, AcctsAfter(cfg, chain));
              && rebuilt.IsTracked(a, map[]) == live.IsTracked(a, map[])
              && rebuilt.IsProxy(a, map[]) == live.IsProxy(a, map[])
  {
    hide Sane, Indexes, AcctsAfter, HistoryTouches, HistoryCreatesProxy, ChainMentions;
    var live := AcctsAfter(cfg, chain);
    forall a: Address
      ensures a in live ==> a in accts && accts[a] == live[a]
      ensures a in accts && a !in live ==> !accts[a] && a in cfg.originators && ChainMentions(chain, a)
    {
      HistoryFollowing(cfg, chain, history, a);
      HistoryProxyAgreement(cfg, chain, history, a);
    }
    forall a: Address
      ensures TrackerOf(cfg, accts).IsTracked(a, map[]) == TrackerOf(cfg, live).IsTracked(a, map[])
      ensures TrackerOf(cfg, accts).IsProxy(a, map[]) == TrackerOf(cfg, live).IsProxy(a, map[])
    {
      AnswersAgree(cfg, chain, accts, live, map[], a);
    }
  }

  // ---- Further blocks translate alike ----

  /** Accounts on which the maps differ are not created by these events. */
  ghost predicate Undisturbed(
      accts: map<Address, bool>, live: map<Address, bool>, events: seq<Event>, news: map<Address, bool>) {
    forall a: Address :: a in accts && a !in live ==> a !in news && !EventsCreate(events, a)
  }

  lemma {:induction false} FirstAgrees(cfg: Config, chain: Chain, accts: map<Address, bool>, live: map<Address, bool>,
                                       payer: Address, events: seq<Event>, news: map<Address, bool>)
    requires Agrees(cfg, chain, accts, live) && Undisturbed(accts, live, events, news)
    ensures First(TrackerOf(cfg, accts), payer, events, news) == First(TrackerOf(cfg, live), payer, events, news)
  {
    if events != [] {
      var shorter, e := events[..|events| - 1], events[|events| - 1];
      assert forall x :: x in shorter ==> x in events;
      FirstAgrees(cfg, chain, accts, live, payer, shorter, news);
      var t, u := TrackerOf(cfg, accts), TrackerOf(cfg, live);
      var s := First(u, payer, shorter, news);
      forall a: Address
        ensures t.IsTracked(a, s.news) == u.IsTracked(a, s.news) && t.IsProxy(a, s.news) == u.IsProxy(a, s.news)
      {
        FirstCreates(u, payer, shorter, news, a);
        if a in s.keys {
          KeysAreCreated(u, payer, shorter, news, a);
          assert EventsCreate(events, a);
        }
        AnswersAgree(cfg, chain, accts, live, s.news, a);
      }
      FirstStepAgrees(t, u, payer, s, e);
    }
  }

  lemma {:induction false} FirstStepAgrees(t: Tracker, u: Tracker, payer: Address, s: FirstPass, e: Event)
    requires t.originators == u.originators
    requires forall a: Address ::
              t.IsTracked(a, s.news) == u.IsTracked(a, s.news) && t.IsProxy(a, s.news) == u.IsProxy(a, s.news)
    ensures FirstStep(t, payer, s, e) == FirstStep(u, payer, s, e)
  {
  }

  lemma {:induction false} SecondAgrees(t: Tracker, u: Tracker, news: map<Address, bool>, events: seq<Event>)
    requires t.feeAddrs == u.feeAddrs
    requires forall a: Address ::
              t.IsTracked(a, news) == u.IsTracked(a, news) && t.IsProxy(a, news) == u.IsProxy(a, news)
    ensures Second(t, news, events) == Second(u, news, events)
  {
    if events != [] {
      SecondAgrees(t, u, news, events[..|events| - 1]);
    }
  }

  lemma {:induction false} MatchAgrees(
      t: Tracker, u: Tracker, news: map<Address, bool>, n: Netting, moves: seq<ProxyMove>)
    requires forall a: Address :: t.IsProxy(a, news) == u.IsProxy(a, news)
    ensures MatchMoves(t, news, n, moves) == MatchMoves(u, news, n, moves)
  {
    if moves != [] {
      MatchAgrees(t, u, news, n, moves[..|moves| - 1]);
    }
  }

  lemma {:induction false} NetAgrees(cfg: Config, chain: Chain, accts: map<Address, bool>, live: map<Address, bool>,
                                     payer: Address, events: seq<Event>, news: map<Address, bool>)
    requires Agrees(cfg, chain, accts, live) && Undisturbed(accts, live, events, news)
    ensures Net(TrackerOf(cfg, accts), payer, events, news) == Net(TrackerOf(cfg, live), payer, events, news)
  {
    var t, u := TrackerOf(cfg, accts), TrackerOf(cfg, live);
    FirstAgrees(cfg, chain, accts, live, payer, events, news);
    var first := First(u, payer, events, news);
    forall a: Address
      ensures t.IsTracked(a, first.news) == u.IsTracked(a, first.news) &&
              t.IsProxy(a, first.news) == u.IsProxy(a, first.news)
    {
      FirstCreates(u, payer, events, news, a);
      if a in first.keys {
        KeysAreCreated(u, payer, events, news, a);
      }
      AnswersAgree(cfg, chain, accts, live, first.news, a);
    }
    SecondAgrees(t, u, first.news, events);
    var second := Second(u, first.news, events);
    var n := Netting(first.ok, CreateOps(first.keys, first.addrs), second.deposits, first.proxyDeposits,
                     second.withdrawals);
    MatchAgrees(t, u, first.news, ChargeFee(u, payer, first.news, second.fees, n), first.moves);
  }

  /** The addresses the next block creates are mentioned nowhere before it. */
  lemma {:induction false} NextBlockUndisturbed(
      cfg: Config, chain: Chain, b: ChainBlock, accts: map<Address, bool>, k: nat)
    requires Sane(chain + [b]) && Agrees(cfg, chain, accts, AcctsAfter(cfg, chain)) && k < |b.txns|
    ensures Undisturbed(accts, AcctsAfter(cfg, chain), b.txns[k].events,
                        NewsAfter(TrackerOf(cfg, AcctsAfter(cfg, chain)), b.txns[..k]))
  {
    var longer := chain + [b];
    var live := AcctsAfter(cfg, chain);
    assert longer[..|chain|] == chain && longer[|chain|] == b;
    forall a: Address | a in accts && a !in live
      ensures a !in NewsAfter(TrackerOf(cfg, live), b.txns[..k]) && !EventsCreate(b.txns[k].events, a)
    {
      assert ChainMentions(chain, a);
      assert SaneTxn(longer, |chain|, k);
      forall x | x in b.txns[..k] ensures !EventsCreate(x.events, a) {
        var j :| 0 <= j < k && b.txns[j] == x;
        assert SaneTxn(longer, |chain|, j);
      }
      if a in NewsAfter(TrackerOf(cfg, live), b.txns[..k]) {
        NewsAreCreated(TrackerOf(cfg, live), b.txns[..k], a);
      }
    }
  }

  lemma {:induction false} NewsAgree(cfg: Config, chain: Chain, b: ChainBlock, accts: map<Address, bool>, k: nat)
    requires Sane(chain + [b]) && Agrees(cfg, chain, accts, AcctsAfter(cfg, chain)) && k <= |b.txns|
    ensures NewsAfter(TrackerOf(cfg, accts), b.txns[..k]) ==
            NewsAfter(TrackerOf(cfg, AcctsAfter(cfg, chain)), b.txns[..k])
  {
    if k > 0 {
      var live := AcctsAfter(cfg, chain);
      var x := b.txns[k - 1];
      assert b.txns[..k][..k - 1] == b.txns[..k - 1];
      NewsAgree(cfg, chain, b, accts, k - 1);
      NextBlockUndisturbed(cfg, chain, b, accts, k - 1);
      FirstAgrees(cfg, chain, accts, live, x.payer, x.events, NewsAfter(TrackerOf(cfg, live), b.txns[..k - 1]));
    }
  }

  /** Resync equivalence: a restarted indexer accepts the next block with exactly
      the results the live one would have accepted, and keeps agreeing with it. */
  lemma {:induction false} ReprocessingAgrees(
      cfg: Config, chain: Chain, b: ChainBlock, accts: map<Address, bool>, indexed: seq<IndexedTransaction>)
    requires Sane(chain + [b]) && Agrees(cfg, chain, accts, AcctsAfter(cfg, chain))
    ensures BlockTranslates(TrackerOf(cfg, accts), b.txns, indexed) <==>
            BlockTranslates(TrackerOf(cfg, AcctsAfter(cfg, chain)), b.txns, indexed)
    ensures Agrees(cfg, chain + [b], accts + NewsAfter(TrackerOf(cfg, accts), b.txns), AcctsAfter(cfg, chain + [b]))
  {
    var live := AcctsAfter(cfg, chain);
    var t, u := TrackerOf(cfg, accts), TrackerOf(cfg, live);
    forall k, ops: seq<Operation> | 0 <= k < |b.txns|
      ensures Translates(t, b.txns[k].payer, b.txns[k].events, NewsAfter(t, b.txns[..k]), ops) <==>
              Translates(u, b.txns[k].payer, b.txns[k].events, NewsAfter(u, b.txns[..k]), ops)
    {
      NewsAgree(cfg, chain, b, accts, k);
      NextBlockUndisturbed(cfg, chain, b, accts, k);
      NetAgrees(cfg, chain, accts, live, b.txns[k].payer, b.txns[k].events, NewsAfter(u, b.txns[..k]));
    }
    if |indexed| == |b.txns| {
      forall k | 0 <= k < |b.txns| ensures TxnTranslates(t, b.txns, k, indexed[k]) <==>
          TxnTranslates(u, b.txns, k, indexed[k]) {
      }
    }
    assert b.txns[..|b.txns|] == b.txns;
    NewsAgree(cfg, chain, b, accts, |b.txns|);
    assert (chain + [b])[..|chain|] == chain;
    forall a: Address | ChainMentions(chain, a) ensures ChainMentions(chain + [b], a) {
      var c :| c in chain && TxnsMention(c.txns, a);
      assert c in chain + [b];
    }
  }
}
