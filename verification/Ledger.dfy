/** Whole runs of the indexer: which accounts it follows after each block, and
    the end-to-end theorem that indexed balances are the sums of chain events. */
module Ledger {
  import opened Prelude
  import opened Bytes
  import opened Model
  import opened IndexSpec
  import opened Translate
  import opened Flows

  datatype ChainTxn = ChainTxn(hash: ByteString, payer: Address, events: seq<Event>, failed: bool)

  datatype ChainBlock = ChainBlock(hash: ByteString, timestamp: uint64, txns: seq<ChainTxn>)

  type Chain = seq<ChainBlock>

  datatype Config = Config(originators: set<Address>, feeAddrs: set<Address>)

  function TrackerOf(cfg: Config, accts: map<Address, bool>): Tracker {
    Tracker(accts, cfg.originators, cfg.feeAddrs)
  }

  // ---- Runs ----

  /** The new accounts of a block after some of its transactions. */
  function NewsAfter(t: Tracker, txns: seq<ChainTxn>): map<Address, bool> {
    if txns == [] then map[]
    else
      var x := txns[|txns| - 1];
      First(t, x.payer, x.events, NewsAfter(t, txns[..|txns| - 1])).news
  }

  /** The indexer's account map after indexing the chain from an empty store. */
  function AcctsAfter(cfg: Config, chain: Chain): map<Address, bool> {
    if chain == [] then map[]
    else
      var accts := AcctsAfter(cfg, chain[..|chain| - 1]);
      accts + NewsAfter(TrackerOf(cfg, accts), chain[|chain| - 1].txns)
  }

  ghost predicate TxnTranslates(t: Tracker, txns: seq<ChainTxn>, k: nat, indexed: IndexedTransaction)
    requires k < |txns|
  {
    && indexed.hash == txns[k].hash && indexed.failed == txns[k].failed
    && Translates(t, txns[k].payer, txns[k].events, NewsAfter(t, txns[..k]), indexed.operations)
  }

  /** The block's transactions are all accepted, with these results. */
  ghost predicate BlockTranslates(t: Tracker, txns: seq<ChainTxn>, indexed: seq<IndexedTransaction>) {
    && |indexed| == |txns|
    && forall k :: 0 <= k < |txns| ==> TxnTranslates(t, txns, k, indexed[k])
  }

  ghost predicate EntryMatches(cfg: Config, chain: Chain, n: nat, entry: Entry)
    requires n < |chain|
  {
    && entry.hash == chain[n].hash && entry.block.timestamp == chain[n].timestamp
    && BlockTranslates(TrackerOf(cfg, AcctsAfter(cfg, chain[..n])), chain[n].txns, entry.block.transactions)
  }

  /** The history is an index of the chain. */
  ghost predicate Indexes(cfg: Config, chain: Chain, history: History) {
    && |history| == |chain|
    && forall n :: 0 <= n < |chain| ==> EntryMatches(cfg, chain, n, history[n])
  }

  // ---- What the chain guarantees ----

  predicate EventMentions(e: Event, a: Address) {
    match e
    case AccountCreated(addr) => addr == a
    case ProxyCreated(account, _) => account == a
    case ProxyDeposited(account, _) => account == a
    case ProxyTransferred(source, receiver, _) => SenderOf(source) == a || receiver == a
    case TokensDeposited(_, target) => target == Some(a)
    case TokensWithdrawn(_, source) => source == Some(a)
    case _ => false
  }

  predicate TxnMentions(x: ChainTxn, a: Address) {
    x.payer == a || exists e :: e in x.events && EventMentions(e, a)
  }

  predicate TxnsMention(txns: seq<ChainTxn>, a: Address) {
    exists x :: x in txns && TxnMentions(x, a)
  }

  predicate ChainMentions(chain: Chain, a: Address) {
    exists b :: b in chain && TxnsMention(b.txns, a)
  }

  predicate EventsCreate(events: seq<Event>, a: Address) {
    exists e :: e in events && e == AccountCreated(a)
  }

  predicate IsProxyFlow(e: Event, a: Address) {
    (e.ProxyDeposited? && e.account == a) || (e.ProxyTransferred? && SenderOf(e.source) == a)
  }

  /** Within a transaction an address is created at most once, and a vault moves
      nothing before the event that announces it. */
  predicate SaneEvents(events: seq<Event>) {
    && (forall i, j :: 0 <= i < j < |events| && events[i].AccountCreated? && events[j].AccountCreated? ==>
          events[i].address != events[j].address)
    && (forall i, j :: 0 <= i < j < |events| && events[j].ProxyCreated? ==>
          !IsProxyFlow(events[i], events[j].account))
  }

  ghost predicate SaneTxn(chain: Chain, n: nat, k: nat)
    requires n < |chain| && k < |chain[n].txns|
  {
    && SaneEvents(chain[n].txns[k].events)
    && forall a: Address :: EventsCreate(chain[n].txns[k].events, a) ==>
         !ChainMentions(chain[..n], a) && !TxnsMention(chain[n].txns[..k], a)
  }

  /** Addresses are created once, before any other mention of them. */
  ghost predicate Sane(chain: Chain) {
    forall n, k :: 0 <= n < |chain| && 0 <= k < |chain[n].txns| ==> SaneTxn(chain, n, k)
  }

  lemma {:induction false} SanePrefix(chain: Chain, n: nat)
    requires Sane(chain) && n <= |chain|
    ensures Sane(chain[..n])
  {
    forall m, k | 0 <= m < n && 0 <= k < |chain[..n][m].txns| ensures SaneTxn(chain[..n], m, k) {
      assert chain[..n][..m] == chain[..m];
      assert SaneTxn(chain, m, k);
    }
  }

  // ---- Followed accounts were created on chain ----

  lemma {:induction false} NewsAreCreated(t: Tracker, txns: seq<ChainTxn>, a: Address)
    requires a in NewsAfter(t, txns)
    ensures exists x :: x in txns && EventsCreate(x.events, a)
  {
    var shorter, x := txns[..|txns| - 1], txns[|txns| - 1];
    assert x in txns;
    FirstCreates(t, x.payer, x.events, NewsAfter(t, shorter), a);
    if a in First(t, x.payer, x.events, NewsAfter(t, shorter)).keys {
      KeysAreCreated(t, x.payer, x.events, NewsAfter(t, shorter), a);
    } else {
      NewsAreCreated(t, shorter, a);
      var y :| y in shorter && EventsCreate(y.events, a);
      assert y in txns;
    }
  }

  lemma {:induction false} KeysAreCreated(
      t: Tracker, payer: Address, events: seq<Event>, news: map<Address, bool>, a: Address)
    requires a in First(t, payer, events, news).keys
    ensures EventsCreate(events, a)
  {
    var shorter, e := events[..|events| - 1], events[|events| - 1];
    assert e in events;
    if a in First(t, payer, shorter, news).keys {
      KeysAreCreated(t, payer, shorter, news, a);
      var e' :| e' in shorter && e' == AccountCreated(a);
      assert e' in events;
    } else {
      assert e == AccountCreated(a);
    }
  }

  lemma {:induction false} CreatedIsMentioned(txns: seq<ChainTxn>, x: ChainTxn, a: Address)
    requires x in txns && EventsCreate(x.events, a)
    ensures TxnsMention(txns, a)
  {
    var e :| e in x.events && e == AccountCreated(a);
    assert EventMentions(e, a);
    assert TxnMentions(x, a);
  }

  lemma {:induction false} AcctsAreMentioned(cfg: Config, chain: Chain, a: Address)
    requires a in AcctsAfter(cfg, chain)
    ensures ChainMentions(chain, a)
  {
    var shorter, b := chain[..|chain| - 1], chain[|chain| - 1];
    assert b in chain;
    if a in AcctsAfter(cfg, shorter) {
      AcctsAreMentioned(cfg, shorter, a);
      var b' :| b' in shorter && TxnsMention(b'.txns, a);
      assert b' in chain;
    } else {
      var t := TrackerOf(cfg, AcctsAfter(cfg, shorter));
      NewsAreCreated(t, b.txns, a);
      var x :| x in b.txns && EventsCreate(x.events, a);
      CreatedIsMentioned(b.txns, x, a);
    }
  }

  /** An address about to be created is unknown to the indexer. */
  lemma {:induction false} CreatedIsUnknown(cfg: Config, chain: Chain, n: nat, k: nat, a: Address)
    requires Sane(chain) && n < |chain| && k < |chain[n].txns|
    requires EventsCreate(chain[n].txns[k].events, a)
    ensures a !in AcctsAfter(cfg, chain[..n])
    ensures a !in NewsAfter(TrackerOf(cfg, AcctsAfter(cfg, chain[..n])), chain[n].txns[..k])
  {
    assert SaneTxn(chain, n, k);
    if a in AcctsAfter(cfg, chain[..n]) {
      AcctsAreMentioned(cfg, chain[..n], a);
    }
    var t := TrackerOf(cfg, AcctsAfter(cfg, chain[..n]));
    var earlier := chain[n].txns[..k];
    if a in NewsAfter(t, earlier) {
      NewsAreMentioned(t, earlier, a);
    }
  }

  lemma {:induction false} NewsAreMentioned(t: Tracker, txns: seq<ChainTxn>, a: Address)
    requires a in NewsAfter(t, txns)
    ensures TxnsMention(txns, a)
  {
    NewsAreCreated(t, txns, a);
    var x :| x in txns && EventsCreate(x.events, a);
    CreatedIsMentioned(txns, x, a);
  }

  // ---- One transaction counts all of an account's events ----

  function PlainTokenFlow(events: seq<Event>, a: Address): int {
    if events == [] then 0
    else
      var e := events[|events| - 1];
      PlainTokenFlow(events[..|events| - 1], a) + TokenIn(e, a) - TokenOut(e, a)
  }

  function PlainProxyFlow(events: seq<Event>, a: Address): int {
    if events == [] then 0
    else PlainProxyFlow(events[..|events| - 1], a) + ProxyFlow(events[|events| - 1], a)
  }

  /** An account's own events: those of its vault if it is a proxy, of its
      ordinary token vault otherwise. */
  function EventFlow(events: seq<Event>, a: Address, proxy: bool): int {
    if proxy then PlainProxyFlow(events, a) else PlainTokenFlow(events, a)
  }

  lemma {:induction false} NoFlowBefore(events: seq<Event>, a: Address)
    requires forall e :: e in events ==> !IsProxyFlow(e, a)
    ensures PlainProxyFlow(events, a) == 0
  {
    if events != [] {
      assert events[|events| - 1] in events;
      NoFlowBefore(events[..|events| - 1], a);
    }
  }

  lemma {:induction false} TokenFlowIsPlain(t: Tracker, events: seq<Event>, a: Address)
    requires a !in t.feeAddrs
    ensures TokenFlow(t, events, a) == PlainTokenFlow(events, a)
  {
    if events != [] {
      TokenFlowIsPlain(t, events[..|events| - 1], a);
    }
  }

  /** A created account is not yet known when its creation event is reached. */
  ghost predicate Fresh(t: Tracker, events: seq<Event>, news: map<Address, bool>, a: Address) {
    EventsCreate(events, a) ==> a !in t.accts && a !in news
  }

  lemma {:induction false} SaneEventsPrefix(events: seq<Event>, i: nat)
    requires SaneEvents(events) && i <= |events|
    ensures SaneEvents(events[..i])
  {
  }

  /** Only creation events change whether an account is a proxy. */
  lemma {:induction false} ProxyStep(t: Tracker, payer: Address, s: FirstPass, e: Event, a: Address)
    ensures var s' := FirstStep(t, payer, s, e);
            t.IsProxy(a, s'.news) != t.IsProxy(a, s.news) ==>
              e == AccountCreated(a) || (e.ProxyCreated? && e.account == a && t.IsTracked(payer, s.news))
  {
  }

  lemma {:induction false} NoFlowBeforeCreation(events: seq<Event>, a: Address)
    requires SaneEvents(events) && events != []
    requires events[|events| - 1].ProxyCreated? && events[|events| - 1].account == a
    ensures PlainProxyFlow(events[..|events| - 1], a) == 0
  {
    var shorter := events[..|events| - 1];
    forall x | x in shorter ensures !IsProxyFlow(x, a) {
      var i :| 0 <= i < |shorter| && shorter[i] == x;
      assert !IsProxyFlow(events[i], events[|events| - 1].account);
    }
    NoFlowBefore(shorter, a);
  }

  lemma {:induction false} NotCreatedBefore(
      t: Tracker, payer: Address, events: seq<Event>, news: map<Address, bool>, i: nat)
    requires SaneEvents(events) && i < |events| && events[i].AccountCreated?
    ensures events[i].address !in First(t, payer, events[..i], news).keys
  {
    var a := events[i].address;
    forall e | e in events[..i] ensures e != AccountCreated(a) {
      var j :| 0 <= j < i && events[j] == e;
    }
    if a in First(t, payer, events[..i], news).keys {
      KeysAreCreated(t, payer, events[..i], news, a);
    }
  }

  lemma {:induction false} ProxyCountedAll(
      t: Tracker, payer: Address, events: seq<Event>, news: map<Address, bool>, a: Address)
    requires SaneEvents(events) && Fresh(t, events, news, a)
    requires First(t, payer, events, news).ok
    ensures CountedProxyFlow(t, payer, events, news, a) ==
            if t.IsProxy(a, First(t, payer, events, news).news) then PlainProxyFlow(events, a) else 0
  {
    if events != [] {
      hide First, FirstStep, VaultCredits, VaultDebits, PlainProxyFlow, VaultIn, VaultOut, SaneEvents, IsProxyFlow;
      hide Fresh;
      var shorter, e := events[..|events| - 1], events[|events| - 1];
      StaysFresh(t, events, news, a);
      SaneEventsPrefix(events, |events| - 1);
      FirstOk(t, payer, events, news);
      ProxyCountedAll(t, payer, shorter, news, a);
      LastEvent(t, payer, events, news, a);
      LastProxyFlow(events, a);
      var s := First(t, payer, shorter, news);
      FirstCreates(t, payer, shorter, news, a);
      ProxyStep(t, payer, s, e, a);
      if e == AccountCreated(a) {
        NotCreatedBefore(t, payer, events, news, |events| - 1);
      } else if e.ProxyCreated? && e.account == a && t.IsTracked(payer, s.news) {
        NoFlowBeforeCreation(events, a);
      }
    }
  }

  lemma {:induction false} StaysFresh(t: Tracker, events: seq<Event>, news: map<Address, bool>, a: Address)
    requires events != [] && Fresh(t, events, news, a)
    ensures Fresh(t, events[..|events| - 1], news, a)
    ensures events[|events| - 1] == AccountCreated(a) ==> a !in t.accts && a !in news
  {
    var shorter, last := events[..|events| - 1], events[|events| - 1];
    assert last in events;
    if EventsCreate(shorter, a) {
      var e :| e in shorter && e == AccountCreated(a);
      assert e in events;
    }
    if last == AccountCreated(a) {
      assert EventsCreate(events, a);
    }
  }

  lemma {:induction false} LastProxyFlow(events: seq<Event>, a: Address)
    requires events != []
    ensures var e := events[|events| - 1];
            && PlainProxyFlow(events, a) == PlainProxyFlow(events[..|events| - 1], a) + VaultIn(e, a) - VaultOut(e, a)
            && (e.AccountCreated? || e.ProxyCreated? ==> VaultIn(e, a) == VaultOut(e, a) == 0)
  {
  }

  /** The classification of an account once a transaction has been read. */
  lemma {:induction false} TxnCountsAll(
      t: Tracker, payer: Address, events: seq<Event>, news: map<Address, bool>, a: Address)
    requires SaneEvents(events) && Fresh(t, events, news, a)
    requires First(t, payer, events, news).ok && a !in t.feeAddrs
    ensures var news' := First(t, payer, events, news).news;
            Counted(t, payer, events, news, a) ==
            if t.IsTracked(a, news') then EventFlow(events, a, t.IsProxy(a, news')) else 0
    ensures var news' := First(t, payer, events, news).news;
            !EventsCreate(events, a) ==>
              t.IsTracked(a, news') == t.IsTracked(a, news) && t.IsProxy(a, news') == t.IsProxy(a, news)
  {
    ProxyCountedAll(t, payer, events, news, a);
    TokenFlowIsPlain(t, events, a);
    FirstCreates(t, payer, events, news, a);
    if a in First(t, payer, events, news).keys {
      KeysAreCreated(t, payer, events, news, a);
    }
  }

  lemma {:induction false} SaneIsNoDemotion(t: Tracker, payer: Address, events: seq<Event>, news: map<Address, bool>)
    requires SaneEvents(events)
    requires forall a: Address :: EventsCreate(events, a) ==> a !in news
    ensures NoDemotion(t, payer, events, news)
  {
    forall i | 0 <= i < |events| && events[i].AccountCreated?
      ensures events[i].address !in First(t, payer, events[..i], news).news
    {
      var a := events[i].address;
      assert events[i] in events;
      assert EventsCreate(events, a);
      FirstCreates(t, payer, events[..i], news, a);
      NotCreatedBefore(t, payer, events, news, i);
    }
  }
}
