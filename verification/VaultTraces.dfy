/** The indexer on the contract's own traces: proxy transfers always find their
    deposits, and the indexed balance of a proxy account is its vault's. */
module VaultTraces {
  import opened Prelude
  import opened Bytes
  import opened Model
  import opened IndexSpec
  import opened Translate
  import opened Flows
  import opened Ledger
  import opened EndToEnd
  import opened ColdStorage
  import opened VaultChains

  // ---- Deposits in a trace ----

  function VaultInflow(events: seq<Event>, a: Address): nat {
    if events == [] then 0
    else
      var e := events[|events| - 1];
      VaultInflow(events[..|events| - 1], a) + (if e.ProxyDeposited? && e.account == a then e.amount else 0)
  }

  function TokensIn(events: seq<Event>, a: Address): nat {
    if events == [] then 0 else TokensIn(events[..|events| - 1], a) + TokenIn(events[|events| - 1], a)
  }

  /** No account is sent 2^64 units or more within the transaction. */
  ghost predicate Bounded(events: seq<Event>) {
    forall a: Address :: VaultInflow(events, a) < TWO_64 && TokensIn(events, a) < TWO_64
  }

  lemma {:induction false} Appended(
      t: Tracker, payer: Address, events: seq<Event>, e: Event, news: map<Address, bool>, a: Address)
    ensures var s := First(t, payer, events, news);
            && First(t, payer, events + [e], news) == FirstStep(t, payer, s, e)
            && VaultCredits(t, payer, events + [e], news, a) == VaultCredits(t, payer, events, news, a) +
               (if t.IsProxy(a, s.news) then VaultIn(e, a) else 0)
            && TransfersTo(t, payer, events + [e], news, a) == TransfersTo(t, payer, events, news, a) +
               (if e.ProxyTransferred? && t.IsProxy(SenderOf(e.source), s.news) && e.receiver == a &&
                   t.IsTracked(a, s.news) then e.amount else 0)
    ensures TokensIn(events + [e], a) == TokensIn(events, a) + TokenIn(e, a)
  {
    assert (events + [e])[..|events|] == events;
  }

  /** What holds of address r between two calls. The amounts are unbounded here. */
  ghost predicate Covered(
      t: Tracker, payer: Address, events: seq<Event>, news: map<Address, bool>, st: State, r: Address)
  {
    var s := First(t, payer, events, news);
    && s.ok
    && (TransfersTo(t, payer, events, news, r) > 0 ==> t.IsTracked(r, s.news) && st.Exists(r))
    && (t.IsProxy(r, s.news) ==>
          r in st.vaults && TransfersTo(t, payer, events, news, r) <= VaultCredits(t, payer, events, news, r))
    && (!t.IsProxy(r, s.news) ==> TransfersTo(t, payer, events, news, r) <= TokensIn(events, r))
  }

  ghost predicate ProxiesHaveVaults(t: Tracker, news: map<Address, bool>, st: State) {
    forall a: Address :: t.IsProxy(a, news) ==> a in st.vaults
  }

  lemma {:induction false} CoveredByTokens(
      t: Tracker, payer: Address, events: seq<Event>, e: Event, news: map<Address, bool>, st: State, r: Address)
    requires e.TokensDeposited? || e.TokensWithdrawn? || e.Irrelevant?
    requires Covered(t, payer, events, news, st, r)
    ensures First(t, payer, events + [e], news) == First(t, payer, events, news)
    ensures Covered(t, payer, events + [e], news, st, r)
    ensures VaultCredits(t, payer, events + [e], news, r) == VaultCredits(t, payer, events, news, r)
    ensures TransfersTo(t, payer, events + [e], news, r) == TransfersTo(t, payer, events, news, r)
    ensures TokensIn(events + [e], r) == TokensIn(events, r) + TokenIn(e, r)
  {
    Appended(t, payer, events, e, news, r);
  }

  /** A deposit covers a later transfer of its amount. */
  lemma {:induction false} CoveredByDeposit(
      t: Tracker, payer: Address, events: seq<Event>, owner: Address, amount: uint64, news: map<Address, bool>,
      st: State, r: Address)
    requires Covered(t, payer, events, news, st, r)
    ensures var events' := events + [ProxyDeposited(owner, amount)];
            var s, s' := First(t, payer, events, news), First(t, payer, events', news);
            && s'.news == s.news && TransfersTo(t, payer, events', news, r) == TransfersTo(t, payer, events, news, r)
            && Covered(t, payer, events', news, st, r) && TokensIn(events', r) == TokensIn(events, r)
            && VaultCredits(t, payer, events', news, r) == VaultCredits(t, payer, events, news, r) +
                (if owner == r && t.IsProxy(r, s.news) then amount else 0)
  {
    Appended(t, payer, events, ProxyDeposited(owner, amount), news, r);
    hide First, TransfersTo, VaultCredits, TokensIn;
  }

  /** The events of a deposit to an account, vault or not, leave room for a
      transfer of its amount. */
  ghost predicate Room(
      t: Tracker, payer: Address, events: seq<Event>, news: map<Address, bool>, r: Address, amount: int)
  {
    var s := First(t, payer, events, news);
    TransfersTo(t, payer, events, news, r) + amount <=
    if t.IsProxy(r, s.news) then VaultCredits(t, payer, events, news, r) else TokensIn(events, r)
  }

  lemma {:induction false} CoveredByReceive(
      t: Tracker, payer: Address, events: seq<Event>, news: map<Address, bool>, st: State, receiver: Address,
      amount: uint64, r: Address)
    requires Covered(t, payer, events, news, st, r) && Receive(st, receiver, amount).Done?
    ensures var o := Receive(st, receiver, amount);
            var events' := events + o.events;
            var s, s' := First(t, payer, events, news), First(t, payer, events', news);
            && s'.news == s.news && TransfersTo(t, payer, events', news, r) == TransfersTo(t, payer, events, news, r)
            && Covered(t, payer, events', news, o.state, r)
            && (receiver == r ==> Room(t, payer, events', news, r, amount))
  {
    hide First, TransfersTo, VaultCredits, TokensIn;
    var d, k := ProxyDeposited(receiver, amount), TokensDeposited(amount, Some(receiver));
    if receiver in st.vaults {
      assert events + [d, k] == events + [d] + [k];
      CoveredByDeposit(t, payer, events, receiver, amount, news, st, r);
      CoveredByTokens(t, payer, events + [d], k, news, st, r);
    } else {
      CoveredByTokens(t, payer, events, k, news, st, r);
    }
  }

  lemma {:induction false} CoveredByTransferred(
      t: Tracker, payer: Address, events: seq<Event>, news: map<Address, bool>, st: State, owner: Address,
      receiver: Address, amount: uint64, r: Address)
    requires Covered(t, payer, events, news, st, r)
    requires receiver == r ==> Room(t, payer, events, news, r, amount) && st.Exists(r)
    ensures var events' := events + [ProxyTransferred(Some(owner), receiver, amount)];
            && First(t, payer, events', news).news == First(t, payer, events, news).news
            && Covered(t, payer, events', news, st, r)
  {
    hide First, TransfersTo, VaultCredits, TokensIn;
    Appended(t, payer, events, ProxyTransferred(Some(owner), receiver, amount), news, r);
  }

  lemma {:induction false} CoveredByCreation(
      t: Tracker, payer: Address, events: seq<Event>, news: map<Address, bool>, st: State, st': State, account: Address,
      r: Address)
    requires Covered(t, payer, events, news, st, r) && !st.Exists(account) && st'.Exists(account)
    requires forall a: Address :: a != account ==>
               (a in st.vaults <==> a in st'.vaults) && (a in st.holders <==> a in st'.holders)
    ensures var s' := First(t, payer, events + [AccountCreated(account)], news);
            && Covered(t, payer, events + [AccountCreated(account)], news, st', r)
            && (account in s'.keys || !t.IsTracked(payer, s'.news))
            && TransfersTo(t, payer, events + [AccountCreated(account)], news, r) ==
               TransfersTo(t, payer, events, news, r)
  {
    hide First, TransfersTo, VaultCredits, TokensIn;
    Appended(t, payer, events, AccountCreated(account), news, r);
  }

  lemma {:induction false} CoveredBySetUp(
      t: Tracker, payer: Address, events: seq<Event>, news: map<Address, bool>, st: State, account: Address,
      key: PublicKey, r: Address)
    requires Covered(t, payer, events, news, st, r) && Found(st, account, key).Done?
    ensures var o := Found(st, account, key); Covered(t, payer, events + o.events, news, o.state, r)
  {
    hide First, TransfersTo, VaultCredits, TokensIn;
    var o := Found(st, account, key);
    var c, p := AccountCreated(account), ProxyCreated(account, Some(key));
    assert events + [c, p] == events + [c] + [p];
    CoveredByCreation(t, payer, events, news, st, o.state, account, r);
    CoveredByVault(t, payer, events + [c], news, o.state, account, key, r);
  }

  lemma {:induction false} CoveredByVault(
      t: Tracker, payer: Address, events: seq<Event>, news: map<Address, bool>, st: State, account: Address,
      key: PublicKey, r: Address)
    requires Covered(t, payer, events, news, st, r) && account in st.vaults
    requires var s := First(t, payer, events, news);
             && (account in s.keys || !t.IsTracked(payer, s.news))
             && (r == account ==> TransfersTo(t, payer, events, news, r) == 0)
    ensures Covered(t, payer, events + [ProxyCreated(account, Some(key))], news, st, r)
  {
    hide First, TransfersTo, VaultCredits, TokensIn;
    Appended(t, payer, events, ProxyCreated(account, Some(key)), news, r);
  }

  lemma {:induction false} CoveredBySend(
      t: Tracker, payer: Address, events: seq<Event>, news: map<Address, bool>, verify: Verifier, st: State,
      owner: Address, receiver: Address, amount: uint64, nonce: int64, sig: ByteString, r: Address)
    requires Covered(t, payer, events, news, st, r)
    requires Send(verify, st, owner, receiver, amount, nonce, sig).Done?
    ensures var o := Send(verify, st, owner, receiver, amount, nonce, sig);
            Covered(t, payer, events + o.events, news, o.state, r)
  {
    hide Send, Receive, Credit, First, Covered, TransfersTo, VaultCredits, TokensIn;
    var o := Send(verify, st, owner, receiver, amount, nonce, sig);
    var debited := SendParts(verify, st, owner, receiver, amount, nonce, sig);
    var paid := Receive(debited, receiver, amount);
    var w, x := TokensWithdrawn(amount, Some(owner)), ProxyTransferred(Some(owner), receiver, amount);
    var withdrawn, received := events + [w], events + [w] + paid.events;
    assert events + o.events == received + [x];
    CoveredByTokens(t, payer, events, w, news, st, r);
    CoveredInSimilar(t, payer, withdrawn, news, st, debited, r);
    CoveredByReceive(t, payer, withdrawn, news, debited, receiver, amount, r);
    CoveredByTransferred(t, payer, received, news, paid.state, owner, receiver, amount, r);
    CoveredInSimilar(t, payer, received + [x], news, paid.state, o.state, r);
  }

  /** A transfer is a withdrawal, the receiver's deposit, and the closing event. */
  lemma {:induction false} SendParts(
      verify: Verifier, st: State, owner: Address, receiver: Address, amount: uint64, nonce: int64, sig: ByteString)
    returns (debited: State)
    requires Send(verify, st, owner, receiver, amount, nonce, sig).Done?
    ensures debited.vaults.Keys == st.vaults.Keys && debited.holders == st.holders
    ensures Receive(debited, receiver, amount).Done?
    ensures var o, paid := Send(verify, st, owner, receiver, amount, nonce, sig), Receive(debited, receiver, amount);
            && o.state.vaults.Keys == paid.state.vaults.Keys && o.state.holders == paid.state.holders
            && paid.state.Exists(receiver)
            && o.events == [TokensWithdrawn(amount, Some(owner))] + paid.events +
                [ProxyTransferred(Some(owner), receiver, amount)]
  {
    var v := st.vaults[owner];
    debited := st.(vaults := st.vaults[owner := v.(balance := v.balance - amount)]);
  }

  /** Balances and nonces do not matter here. */
  lemma {:induction false} CoveredInSimilar(
      t: Tracker, payer: Address, events: seq<Event>, news: map<Address, bool>, st: State, st': State, r: Address)
    requires Covered(t, payer, events, news, st, r) && st.vaults.Keys == st'.vaults.Keys && st.holders == st'.holders
    ensures Covered(t, payer, events, news, st', r)
  {
  }

  lemma {:induction false} CoveredByStep(
      t: Tracker, payer: Address, events: seq<Event>, news: map<Address, bool>, verify: Verifier, st: State, c: Call,
      r: Address)
    requires Covered(t, payer, events, news, st, r) && Step(verify, st, c).Done?
    ensures var o := Step(verify, st, c); Covered(t, payer, events + o.events, news, o.state, r)
  {
    hide Covered;
    match c
    case SetUp(account, key) =>
      CoveredBySetUp(t, payer, events, news, st, account, key, r);
    case Deposit(owner, amount) =>
      CoveredByReceive(t, payer, events, news, st, owner, amount, r);
    case Transfer(owner, receiver, amount, nonce, sig) =>
      CoveredBySend(t, payer, events, news, verify, st, owner, receiver, amount, nonce, sig, r);
    case NewAccount(account) =>
      CoveredByCreation(t, payer, events, news, st, Step(verify, st, c).state, account, r);
    case Tokens(event) =>
      CoveredByTokens(t, payer, events, event, news, st, r);
  }

  /** In any transaction of contract calls, every proxy transfer to a followed account
      has its deposit, and every followed proxy account has its vault. */
  lemma {:induction false} CoveredByRun(
      t: Tracker, payer: Address, news: map<Address, bool>, verify: Verifier, st: State, calls: seq<Call>, r: Address)
    requires ProxiesHaveVaults(t, news, st) && Run(verify, st, calls).Done?
    ensures var o := Run(verify, st, calls); Covered(t, payer, o.events, news, o.state, r)
  {
    if calls != [] {
      var before, c := Run(verify, st, calls[..|calls| - 1]), calls[|calls| - 1];
      CoveredByRun(t, payer, news, verify, st, calls[..|calls| - 1], r);
      CoveredByStep(t, payer, before.events, news, verify, before.state, c, r);
    }
  }

  // ---- The events of contract calls decode ----

  /** Events that neither create nor fail to decode. */
  predicate IsPlain(e: Event) {
    !e.AccountCreated? && !e.ProxyCreated? && !e.Undecodable?
  }

  lemma {:induction false} PlainEvents(
      t: Tracker, payer: Address, events: seq<Event>, more: seq<Event>, news: map<Address, bool>)
    requires forall e :: e in more ==> IsPlain(e)
    ensures var s, s' := First(t, payer, events, news), First(t, payer, events + more, news);
            s'.ok == s.ok && s'.news == s.news && s'.keys == s.keys
  {
    if more == [] {
      assert events + more == events;
    } else {
      hide FirstStep;
      var shorter, e := more[..|more| - 1], more[|more| - 1];
      assert e in more && events + more == (events + shorter) + [e];
      PlainEvents(t, payer, events, shorter, news);
      PassesAppend(t, payer, events + shorter, e, news, news);
      hide First;
      PlainStep(t, payer, First(t, payer, events + shorter, news), e);
    }
  }

  lemma {:induction false} PlainStep(t: Tracker, payer: Address, s: FirstPass, e: Event)
    requires IsPlain(e)
    ensures var s' := FirstStep(t, payer, s, e); s'.ok == s.ok && s'.news == s.news && s'.keys == s.keys
  {
  }

  lemma {:induction false} PlainTransfers(
      t: Tracker, payer: Address, events: seq<Event>, more: seq<Event>, news: map<Address, bool>, r: Address)
    requires forall e :: e in more ==> !e.ProxyTransferred?
    ensures TransfersTo(t, payer, events + more, news, r) == TransfersTo(t, payer, events, news, r)
  {
    if more == [] {
      assert events + more == events;
    } else {
      hide First, TransfersTo;
      var shorter, e := more[..|more| - 1], more[|more| - 1];
      assert e in more && events + more == (events + shorter) + [e];
      PlainTransfers(t, payer, events, shorter, news, r);
      Appended(t, payer, events + shorter, e, news, r);
    }
  }

  lemma {:induction false} CreationEvents(
      t: Tracker, payer: Address, events: seq<Event>, account: Address, key: PublicKey, news: map<Address, bool>)
    ensures var s := First(t, payer, events, news);
            var created := events + [AccountCreated(account)];
            var founded := events + [AccountCreated(account), ProxyCreated(account, Some(key))];
            && First(t, payer, created, news).ok == First(t, payer, founded, news).ok == s.ok
            && (s.ok && t.IsTracked(payer, s.news) ==>
                  First(t, payer, founded, news).news == s.news[account := true])
  {
    var c, p := AccountCreated(account), ProxyCreated(account, Some(key));
    assert events + [c, p] == events + [c] + [p];
    PassesAppend(t, payer, events, c, news, news);
    PassesAppend(t, payer, events + [c], p, news, news);
    hide First;
  }

  lemma {:induction false} RunDecodes(
      t: Tracker, payer: Address, news: map<Address, bool>, verify: Verifier, st: State, calls: seq<Call>)
    requires Run(verify, st, calls).Done?
    ensures First(t, payer, Run(verify, st, calls).events, news).ok
  {
    if calls != [] {
      hide First, Step;
      var before, c := Run(verify, st, calls[..|calls| - 1]), calls[|calls| - 1];
      RunDecodes(t, payer, news, verify, st, calls[..|calls| - 1]);
      StepDecodes(t, payer, before.events, news, verify, before.state, c);
    }
  }

  lemma {:induction false} StepDecodes(
      t: Tracker, payer: Address, events: seq<Event>, news: map<Address, bool>, verify: Verifier, st: State, c: Call)
    requires First(t, payer, events, news).ok && Step(verify, st, c).Done?
    ensures First(t, payer, events + Step(verify, st, c).events, news).ok
  {
    hide First, Send, Credit;
    if c.SetUp? {
      CreationEvents(t, payer, events, c.account, c.publicKey, news);
    } else if c.NewAccount? {
      CreationEvents(t, payer, events, c.account, seq(33, _ => 0), news);
    } else {
      StepIsPlain(verify, st, c);
      PlainEvents(t, payer, events, Step(verify, st, c).events, news);
    }
  }

  lemma {:induction false} StepIsPlain(verify: Verifier, st: State, c: Call)
    requires Step(verify, st, c).Done? && !c.SetUp? && !c.NewAccount?
    ensures forall e :: e in Step(verify, st, c).events ==> IsPlain(e)
  {
    if c.Transfer? {
      var debited := SendParts(verify, st, c.owner, c.receiver, c.amount, c.nonce, c.sig);
    }
  }

  // ---- When the indexer accepts a transaction of contract calls ----

  /** Exactly when its fee is paid and no account is sent more by proxies than its
      uint64 counter of deposits holds, whatever the indexer follows. */
  lemma {:induction false} VaultTraceIsAccepted(
      t: Tracker, payer: Address, news: map<Address, bool>, verify: Verifier, st: State, calls: seq<Call>)
    requires Run(verify, st, calls).Done?
    ensures var o := Run(verify, st, calls);
            Net(t, payer, o.events, news).ok <==>
            FeeIsPaid(t, payer, o.events, news) && TransfersAreCovered(t, payer, o.events, news)
  {
    RunDecodes(t, payer, news, verify, st, calls);
    AcceptanceIsExact(t, payer, Run(verify, st, calls).events, news);
  }

  /** The deposits are there, so only two things can hide them from the matching: a
      counter that wraps, and a fee account, whose deposits are counted as fees. */
  ghost predicate NothingHidden(t: Tracker, payer: Address, events: seq<Event>, news: map<Address, bool>) {
    && Bounded(events)
    && forall a :: a in t.feeAddrs ==> !CountsTokens(t, First(t, payer, events, news).news, a)
  }

  lemma {:induction false} UnwrappedCredits(
      t: Tracker, payer: Address, events: seq<Event>, news: map<Address, bool>, a: Address)
    ensures VaultCredits(t, payer, events, news, a) <= VaultInflow(events, a)
    ensures a !in t.feeAddrs ==> TokenCredits(t, events, a) == TokensIn(events, a)
  {
    if events != [] {
      UnwrappedCredits(t, payer, events[..|events| - 1], news, a);
    }
  }

  lemma {:induction false} CoveredIsDeposited(
      t: Tracker, payer: Address, events: seq<Event>, news: map<Address, bool>, st: State, r: Address)
    requires Covered(t, payer, events, news, st, r) && NothingHidden(t, payer, events, news)
    ensures TransfersTo(t, payer, events, news, r) <= Deposited(t, payer, events, news, r)
  {
    hide First, TransfersTo, VaultCredits, TokenCredits, VaultInflow, TokensIn;
    UnwrappedCredits(t, payer, events, news, r);
    assert VaultInflow(events, r) < TWO_64 && TokensIn(events, r) < TWO_64;
  }

  /** Then it is accepted exactly when its fee is paid. */
  lemma {:induction false} PlainVaultTraceIsAccepted(
      t: Tracker, payer: Address, news: map<Address, bool>, verify: Verifier, st: State, calls: seq<Call>)
    requires ProxiesHaveVaults(t, news, st) && Run(verify, st, calls).Done?
    requires NothingHidden(t, payer, Run(verify, st, calls).events, news)
    ensures var o := Run(verify, st, calls);
            Net(t, payer, o.events, news).ok <==> FeeIsPaid(t, payer, o.events, news)
  {
    hide First, Second, Net, FeeIsPaid, NothingHidden, Deposited, Covered;
    var o := Run(verify, st, calls);
    VaultTraceIsAccepted(t, payer, news, verify, st, calls);
    forall r: Address ensures TransfersTo(t, payer, o.events, news, r) <= Deposited(t, payer, o.events, news, r) {
      CoveredByRun(t, payer, news, verify, st, calls, r);
      CoveredIsDeposited(t, payer, o.events, news, o.state, r);
    }
  }

  // ---- Chains of contract calls ----

  lemma {:induction false} BlockBalance(verify: Verifier, st: State, txns: seq<ChainTxn>, st': State, a: Address)
    requires BlockRuns(verify, st, txns, st')
    ensures Held(st', a) == Held(st, a) + TxnsFlow(txns, a, true)
  {
    if txns != [] {
      var before, x := txns[..|txns| - 1], txns[|txns| - 1];
      var mid :| BlockRuns(verify, st, before, mid) && TxnRuns(verify, mid, x, st');
      var calls :| Run(verify, mid, calls) == Done(st', x.events);
      BlockBalance(verify, st, before, mid, a);
      RunBalance(verify, mid, calls, a);
    }
  }

  lemma {:induction false} ChainBalance(verify: Verifier, holders: set<Address>, chain: Chain, st: State, a: Address)
    requires ChainRuns(verify, holders, chain, st)
    ensures Held(st, a) == ChainFlow(chain, a, true)
  {
    if chain != [] {
      var before, b := chain[..|chain| - 1], chain[|chain| - 1];
      var mid :| ChainRuns(verify, holders, before, mid) && BlockRuns(verify, mid, b.txns, st);
      ChainBalance(verify, holders, before, mid, a);
      BlockBalance(verify, mid, b.txns, st, a);
    }
  }

  /** The indexed balance of a proxy account is the balance its vault holds on
      chain, in full 64-bit range. */
  lemma {:induction false} IndexedBalanceIsHeld(
      cfg: Config, verify: Verifier, holders: set<Address>, chain: Chain, st: State, history: History, a: Address)
    requires ChainRuns(verify, holders, chain, st) && Indexes(cfg, chain, history)
    requires a !in cfg.feeAddrs && TrackerOf(cfg, AcctsAfter(cfg, chain)).IsProxy(a, map[])
    ensures ToUint64(Balance(history, a)) == Held(st, a)
  {
    ChainIsSane(verify, holders, chain, st);
    LedgerRefinement(cfg, chain, history, a);
    ChainBalance(verify, holders, chain, st, a);
    CongruentIsEqual(Balance(history, a), Held(st, a));
  }

  // ---- Over whole chains ----

  lemma {:induction false} BlockKeepsVaults(t: Tracker, verify: Verifier, st: State, txns: seq<ChainTxn>, st': State)
    requires BlockRuns(verify, st, txns, st') && ProxiesHaveVaults(t, map[], st)
    ensures ProxiesHaveVaults(t, NewsAfter(t, txns), st')
  {
    if txns != [] {
      var before, x := txns[..|txns| - 1], txns[|txns| - 1];
      var mid :| BlockRuns(verify, st, before, mid) && TxnRuns(verify, mid, x, st');
      var calls :| Run(verify, mid, calls) == Done(st', x.events);
      BlockKeepsVaults(t, verify, st, before, mid);
      forall a: Address ensures t.IsProxy(a, NewsAfter(t, txns)) ==> a in st'.vaults {
        CoveredByRun(t, x.payer, NewsAfter(t, before), verify, mid, calls, a);
      }
    }
  }

  /** Every proxy account the indexer follows has a vault on chain. */
  lemma {:induction false} ChainKeepsVaults(
      cfg: Config, verify: Verifier, holders: set<Address>, chain: Chain, st: State)
    requires ChainRuns(verify, holders, chain, st)
    ensures ProxiesHaveVaults(TrackerOf(cfg, AcctsAfter(cfg, chain)), map[], st)
  {
    if chain != [] {
      var n := |chain| - 1;
      var before, b := chain[..n], chain[n];
      var mid :| ChainRuns(verify, holders, before, mid) && BlockRuns(verify, mid, b.txns, st);
      ChainIsSane(verify, holders, chain, st);
      ChainKeepsVaults(cfg, verify, holders, before, mid);
      var t := TrackerOf(cfg, AcctsAfter(cfg, before));
      BlockKeepsVaults(t, verify, mid, b.txns, st);
      forall a: Address | TrackerOf(cfg, AcctsAfter(cfg, chain)).IsProxy(a, map[]) ensures a in st.vaults {
        NewsAreDisjoint(cfg, chain, n, a);
        assert t.IsProxy(a, NewsAfter(t, b.txns));
      }
    }
  }

  /** Where the indexer stands after a chain of contract calls and part of a block. */
  ghost predicate Reached(
      cfg: Config, verify: Verifier, holders: set<Address>, chain: Chain, txns: seq<ChainTxn>, st: State, t: Tracker,
      news: map<Address, bool>)
  {
    && t == TrackerOf(cfg, AcctsAfter(cfg, chain)) && news == NewsAfter(t, txns)
    && exists start :: ChainRuns(verify, holders, chain, start) && BlockRuns(verify, start, txns, st)
  }

  lemma {:induction false} ReachedHasVaults(
      cfg: Config, verify: Verifier, holders: set<Address>, chain: Chain, txns: seq<ChainTxn>, st: State, t: Tracker,
      news: map<Address, bool>)
    requires Reached(cfg, verify, holders, chain, txns, st, t, news)
    ensures ProxiesHaveVaults(t, news, st)
  {
    hide ChainRuns, BlockRuns, AcctsAfter, NewsAfter, ProxiesHaveVaults;
    var start :| ChainRuns(verify, holders, chain, start) && BlockRuns(verify, start, txns, st);
    ChainKeepsVaults(cfg, verify, holders, chain, start);
    BlockKeepsVaults(t, verify, start, txns, st);
  }

  /** Wherever in a chain of contract calls the indexer stands, every proxy transfer of
      the next such transaction to a followed account has its deposit: to the vault if
      the account is a proxy, and among its tokens if not. The transaction is accepted
      exactly when its fee is paid and the counters of those deposits show them; and
      they do if none of them wraps and no fee account is followed as an ordinary one. */
  lemma {:induction false} VaultTracesNeverTrip(
      cfg: Config, verify: Verifier, holders: set<Address>, chain: Chain, txns: seq<ChainTxn>, st: State,
      t: Tracker, news: map<Address, bool>, payer: Address, calls: seq<Call>)
    requires Reached(cfg, verify, holders, chain, txns, st, t, news) && Run(verify, st, calls).Done?
    ensures var events := Run(verify, st, calls).events;
            var known := First(t, payer, events, news).news;
            && (forall r: Address :: TransfersTo(t, payer, events, news, r) <=
                  if t.IsProxy(r, known) then VaultCredits(t, payer, events, news, r) else TokensIn(events, r))
            && (Net(t, payer, events, news).ok <==>
                FeeIsPaid(t, payer, events, news) && TransfersAreCovered(t, payer, events, news))
            && (NothingHidden(t, payer, events, news) ==>
                  (Net(t, payer, events, news).ok <==> FeeIsPaid(t, payer, events, news)))
  {
    hide First, TransfersTo, VaultCredits, TokensIn, Net, FeeIsPaid, TransfersAreCovered, NothingHidden, Reached;
    hide Run;
    ReachedHasVaults(cfg, verify, holders, chain, txns, st, t, news);
    var events := Run(verify, st, calls).events;
    forall r: Address
      ensures TransfersTo(t, payer, events, news, r) <=
              if t.IsProxy(r, First(t, payer, events, news).news) then VaultCredits(t, payer, events, news, r)
              else TokensIn(events, r)
    {
      CoveredByRun(t, payer, news, verify, st, calls, r);
    }
    VaultTraceIsAccepted(t, payer, news, verify, st, calls);
    if NothingHidden(t, payer, events, news) {
      PlainVaultTraceIsAccepted(t, payer, news, verify, st, calls);
    }
  }
}
