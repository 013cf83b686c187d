/** What the two event passes count, stated over the events themselves, and the
    theorem that an accepted transaction's operations carry exactly that. */
module Flows {
  import opened Prelude
  import opened Model
  import opened Translate
  import opened Matching

  // ---- Flows of single events ----

  function TokenIn(e: Event, a: Address): nat {
    if e.TokensDeposited? && e.target == Some(a) then e.amount else 0
  }

  function TokenOut(e: Event, a: Address): nat {
    if e.TokensWithdrawn? && e.source == Some(a) then e.amount else 0
  }

  function VaultIn(e: Event, a: Address): nat {
    if e.ProxyDeposited? && e.account == a then e.amount else 0
  }

  function VaultOut(e: Event, a: Address): nat {
    if e.ProxyTransferred? && SenderOf(e.source) == a then e.amount else 0
  }

  function ProxyFlow(e: Event, a: Address): int {
    VaultIn(e, a) - VaultOut(e, a)
  }

  // ---- Totals of a transaction ----

  /** Tokens into a's ordinary vault; deposits to a fee account are fees instead. */
  function TokenCredits(t: Tracker, events: seq<Event>, a: Address): nat {
    if events == [] then 0
    else TokenCredits(t, events[..|events| - 1], a) + (if a in t.feeAddrs then 0 else TokenIn(events[|events| - 1], a))
  }

  function TokenDebits(events: seq<Event>, a: Address): nat {
    if events == [] then 0 else TokenDebits(events[..|events| - 1], a) + TokenOut(events[|events| - 1], a)
  }

  /** Tokens into a's cold-storage vault, while the indexer knows it as a proxy. */
  function VaultCredits(t: Tracker, payer: Address, events: seq<Event>, news: map<Address, bool>, a: Address): nat {
    if events == [] then 0
    else
      var before := events[..|events| - 1];
      VaultCredits(t, payer, before, news, a) +
      (if t.IsProxy(a, First(t, payer, before, news).news) then VaultIn(events[|events| - 1], a) else 0)
  }

  /** Tokens out of it, likewise. */
  function VaultDebits(t: Tracker, payer: Address, events: seq<Event>, news: map<Address, bool>, a: Address): nat {
    if events == [] then 0
    else
      var before := events[..|events| - 1];
      VaultDebits(t, payer, before, news, a) +
      (if t.IsProxy(a, First(t, payer, before, news).news) then VaultOut(events[|events| - 1], a) else 0)
  }

  /** Proxy transfers to account a while the indexer follows it, out of known proxies. */
  function TransfersTo(t: Tracker, payer: Address, events: seq<Event>, news: map<Address, bool>, a: Address): nat {
    if events == [] then 0
    else
      var before, e := events[..|events| - 1], events[|events| - 1];
      var known := First(t, payer, before, news).news;
      TransfersTo(t, payer, before, news, a) +
      (if e.ProxyTransferred? && t.IsProxy(SenderOf(e.source), known) && e.receiver == a && t.IsTracked(a, known)
       then e.amount else 0)
  }

  /** Tokens deposited with fee accounts. */
  function FeesIn(t: Tracker, events: seq<Event>): nat {
    if events == [] then 0
    else
      var e := events[|events| - 1];
      FeesIn(t, events[..|events| - 1]) +
      (if e.TokensDeposited? && e.target.Some? && e.target.value in t.feeAddrs then e.amount else 0)
  }

  function TokenFlow(t: Tracker, events: seq<Event>, a: Address): int {
    TokenCredits(t, events, a) - TokenDebits(events, a)
  }

  function CountedProxyFlow(t: Tracker, payer: Address, events: seq<Event>, news: map<Address, bool>, a: Address): int {
    VaultCredits(t, payer, events, news, a) - VaultDebits(t, payer, events, news, a)
  }

  /** The counted inflow minus outflow of account a in one transaction. */
  function Counted(t: Tracker, payer: Address, events: seq<Event>, news: map<Address, bool>, a: Address): int {
    (if CountsTokens(t, First(t, payer, events, news).news, a) then TokenFlow(t, events, a) else 0) +
    CountedProxyFlow(t, payer, events, news, a)
  }

  /** How often the uint64 counters of account a wrapped, debits against credits. */
  function Wraps(t: Tracker, payer: Address, events: seq<Event>, news: map<Address, bool>, a: Address): int {
    VaultCredits(t, payer, events, news, a) / TWO_64 +
    (if CountsTokens(t, First(t, payer, events, news).news, a)
     then TokenCredits(t, events, a) / TWO_64 - TokenDebits(events, a) / TWO_64 else 0)
  }

  // ---- The passes compute these totals, in uint64 ----

  lemma {:induction false} FirstOk(t: Tracker, payer: Address, events: seq<Event>, news: map<Address, bool>)
    requires events != [] && First(t, payer, events, news).ok
    ensures First(t, payer, events[..|events| - 1], news).ok
  {
  }

  /** The first pass: wrapped deposits, and the exact list of transfers. */
  lemma {:induction false} FirstCounts(
      t: Tracker, payer: Address, events: seq<Event>, news: map<Address, bool>, a: Address)
    requires First(t, payer, events, news).ok
    ensures var s := First(t, payer, events, news);
            && At(s.proxyDeposits, a) == ToUint64(VaultCredits(t, payer, events, news, a))
            && Sent(s.moves, a) == VaultDebits(t, payer, events, news, a)
            && Received(s.moves, a) == TransfersTo(t, payer, events, news, a)
  {
    if events != [] {
      FirstOk(t, payer, events, news);
      FirstCounts(t, payer, events[..|events| - 1], news, a);
      hide First, FirstStep, VaultCredits, VaultDebits, VaultIn, VaultOut, Sent, At, ToUint64, Congruent;
      hide Received, TransfersTo;
      FirstCountsNext(t, payer, events, news, a);
    }
  }

  lemma {:induction false} FirstCountsNext(
      t: Tracker, payer: Address, events: seq<Event>, news: map<Address, bool>, a: Address)
    requires events != [] && First(t, payer, events, news).ok
    requires var before := events[..|events| - 1];
             var s := First(t, payer, before, news);
             && s.ok
             && At(s.proxyDeposits, a) == ToUint64(VaultCredits(t, payer, before, news, a))
             && Sent(s.moves, a) == VaultDebits(t, payer, before, news, a)
             && Received(s.moves, a) == TransfersTo(t, payer, before, news, a)
    ensures var s := First(t, payer, events, news);
            && At(s.proxyDeposits, a) == ToUint64(VaultCredits(t, payer, events, news, a))
            && Sent(s.moves, a) == VaultDebits(t, payer, events, news, a)
            && Received(s.moves, a) == TransfersTo(t, payer, events, news, a)
  {
    hide First, FirstStep, VaultCredits, VaultDebits, VaultIn, VaultOut, Sent, At, ToUint64, Congruent;
    hide Received, TransfersTo;
    var before, e := events[..|events| - 1], events[|events| - 1];
    var s := First(t, payer, before, news);
    LastEvent(t, payer, events, news, a);
    FirstStepCounts(t, payer, s, e, a);
    WrappedSum(VaultCredits(t, payer, before, news, a), if t.IsProxy(a, s.news) then VaultIn(e, a) else 0);
  }

  lemma {:induction false} LastEvent(
      t: Tracker, payer: Address, events: seq<Event>, news: map<Address, bool>, a: Address)
    requires events != []
    ensures var before, e := events[..|events| - 1], events[|events| - 1];
            var s := First(t, payer, before, news);
            && First(t, payer, events, news) == FirstStep(t, payer, s, e)
            && VaultCredits(t, payer, events, news, a) ==
               VaultCredits(t, payer, before, news, a) + (if t.IsProxy(a, s.news) then VaultIn(e, a) else 0)
            && VaultDebits(t, payer, events, news, a) ==
               VaultDebits(t, payer, before, news, a) + (if t.IsProxy(a, s.news) then VaultOut(e, a) else 0)
            && TransfersTo(t, payer, events, news, a) == TransfersTo(t, payer, before, news, a) +
               (if e.ProxyTransferred? && t.IsProxy(SenderOf(e.source), s.news) && e.receiver == a &&
                   t.IsTracked(a, s.news) then e.amount else 0)
  {
  }

  lemma {:induction false} FirstStepCounts(t: Tracker, payer: Address, s: FirstPass, e: Event, a: Address)
    requires s.ok && FirstStep(t, payer, s, e).ok
    ensures var s' := FirstStep(t, payer, s, e);
            && At(s'.proxyDeposits, a) == ToUint64(At(s.proxyDeposits, a) +
                                                   (if t.IsProxy(a, s.news) then VaultIn(e, a) else 0))
            && Sent(s'.moves, a) == Sent(s.moves, a) + (if t.IsProxy(a, s.news) then VaultOut(e, a) else 0)
            && Received(s'.moves, a) == Received(s.moves, a) +
               (if e.ProxyTransferred? && t.IsProxy(SenderOf(e.source), s.news) && e.receiver == a &&
                   t.IsTracked(a, s.news) then e.amount else 0)
  {
    hide Sent, Received, ToUint64, Congruent;
    IdleWrap(At(s.proxyDeposits, a));
    if e.ProxyTransferred? && t.IsProxy(SenderOf(e.source), s.news) {
      var target := if t.IsTracked(e.receiver, s.news) then Some(e.receiver) else None;
      SentAppend(s.moves, ProxyMove(SenderOf(e.source), e.amount, target), a);
      ReceivedAppend(s.moves, ProxyMove(SenderOf(e.source), e.amount, target), a);
    }
  }

  lemma {:induction false} SentAppend(moves: seq<ProxyMove>, m: ProxyMove, a: Address)
    ensures Sent(moves + [m], a) == Sent(moves, a) + (if m.sender == a then m.amount else 0)
  {
    assert (moves + [m])[..|moves|] == moves;
  }

  lemma {:induction false} ReceivedAppend(moves: seq<ProxyMove>, m: ProxyMove, r: Address)
    ensures Received(moves + [m], r) == Received(moves, r) + (if m.receiver == Some(r) then m.amount else 0)
  {
    assert (moves + [m])[..|moves|] == moves;
  }

  /** The second pass counts the fees, wrapped. */
  lemma {:induction false} SecondFees(t: Tracker, news: map<Address, bool>, events: seq<Event>)
    ensures Second(t, news, events).fees == ToUint64(FeesIn(t, events))
  {
    if events != [] {
      var before, e := events[..|events| - 1], events[|events| - 1];
      SecondFees(t, news, before);
      IdleWrap(Second(t, news, before).fees);
      WrappedSum(FeesIn(t, before), FeesIn(t, events) - FeesIn(t, before));
      hide Plus, ToUint64;
    }
  }

  /** The second pass: wrapped credits and debits of counted accounts only. */
  lemma {:induction false} SecondCounts(t: Tracker, news: map<Address, bool>, events: seq<Event>, a: Address)
    ensures var s := Second(t, news, events);
            if CountsTokens(t, news, a) then
              && At(s.deposits, a) == ToUint64(TokenCredits(t, events, a))
              && At(s.withdrawals, a) == ToUint64(TokenDebits(events, a))
            else a !in s.deposits && a !in s.withdrawals
  {
    if events != [] {
      SecondCounts(t, news, events[..|events| - 1], a);
      hide Second, SecondStep, TokenCredits, TokenDebits, TokenIn, TokenOut, At, ToUint64, Congruent;
      SecondCountsNext(t, news, events, a);
    }
  }

  ghost predicate SecondMatches(t: Tracker, news: map<Address, bool>, events: seq<Event>, a: Address) {
    var s := Second(t, news, events);
    if CountsTokens(t, news, a) then
      && At(s.deposits, a) == ToUint64(TokenCredits(t, events, a))
      && At(s.withdrawals, a) == ToUint64(TokenDebits(events, a))
    else a !in s.deposits && a !in s.withdrawals
  }

  lemma {:induction false} SecondCountsNext(t: Tracker, news: map<Address, bool>, events: seq<Event>, a: Address)
    requires events != [] && SecondMatches(t, news, events[..|events| - 1], a)
    ensures SecondMatches(t, news, events, a)
  {
    hide Second, SecondStep, TokenCredits, TokenDebits, TokenIn, TokenOut, At, ToUint64, Congruent;
    var before, e := events[..|events| - 1], events[|events| - 1];
    LastTokens(t, news, events, a);
    SecondStepCounts(t, news, Second(t, news, before), e, a);
    WrappedSum(TokenCredits(t, before, a), if a in t.feeAddrs then 0 else TokenIn(e, a));
    WrappedSum(TokenDebits(before, a), TokenOut(e, a));
  }

  lemma {:induction false} LastTokens(t: Tracker, news: map<Address, bool>, events: seq<Event>, a: Address)
    requires events != []
    ensures var before, e := events[..|events| - 1], events[|events| - 1];
            && Second(t, news, events) == SecondStep(t, news, Second(t, news, before), e)
            && TokenCredits(t, events, a) == TokenCredits(t, before, a) + (if a in t.feeAddrs then 0 else TokenIn(e, a))
            && TokenDebits(events, a) == TokenDebits(before, a) + TokenOut(e, a)
  {
  }

  lemma {:induction false} SecondStepCounts(t: Tracker, news: map<Address, bool>, s: SecondPass, e: Event, a: Address)
    ensures var s' := SecondStep(t, news, s, e);
            if CountsTokens(t, news, a) then
              && At(s'.deposits, a) == ToUint64(At(s.deposits, a) + (if a in t.feeAddrs then 0 else TokenIn(e, a)))
              && At(s'.withdrawals, a) == ToUint64(At(s.withdrawals, a) + TokenOut(e, a))
            else
              (a in s'.deposits ==> a in s.deposits) && (a in s'.withdrawals ==> a in s.withdrawals)
  {
    IdleWrap(At(s.deposits, a));
    IdleWrap(At(s.withdrawals, a));
    hide ToUint64, Congruent;
  }

  lemma {:induction false} IdleWrap(x: uint64)
    ensures ToUint64(x) == x && ToUint64(x + 0) == x
  {
  }

  // ---- Created accounts ----

  /** The created accounts of a transaction are its keys, its new accounts and
      its create operations alike. */
  lemma {:induction false} FirstCreates(
      t: Tracker, payer: Address, events: seq<Event>, news: map<Address, bool>, a: Address)
    ensures var s := First(t, payer, events, news);
            && (a in s.keys <==> a in s.addrs)
            && (a in s.keys ==> a in s.news && (s.news[a] <==> s.keys[a].Some?))
            && (a !in s.keys ==> (a in s.news <==> a in news) && (a in news ==> s.news[a] == news[a]))
  {
    if events != [] {
      var before := events[..|events| - 1];
      FirstCreates(t, payer, before, news, a);
      assert First(t, payer, events, news) == FirstStep(t, payer, First(t, payer, before, news), events[|events| - 1]);
      hide First, FirstStep;
      FirstStepCreates(t, payer, First(t, payer, before, news), events[|events| - 1], a);
    }
  }

  lemma {:induction false} FirstStepCreates(t: Tracker, payer: Address, s: FirstPass, e: Event, a: Address)
    requires a in s.keys <==> a in s.addrs
    requires a in s.keys ==> a in s.news && (s.news[a] <==> s.keys[a].Some?)
    ensures var s' := FirstStep(t, payer, s, e);
            && (a in s'.keys <==> a in s'.addrs)
            && (a in s'.keys ==> a in s'.news && (s'.news[a] <==> s'.keys[a].Some?))
            && (a !in s'.keys ==>
                  a !in s.keys && (a in s'.news <==> a in s.news) && (a in s.news ==> s'.news[a] == s.news[a]))
  {
  }

  /** No account is created again while the block already knows it as a proxy. */
  ghost predicate NoDemotion(t: Tracker, payer: Address, events: seq<Event>, news: map<Address, bool>) {
    forall i :: 0 <= i < |events| && events[i].AccountCreated? ==>
      var known := First(t, payer, events[..i], news).news;
      !(events[i].address in known && known[events[i].address])
  }

  lemma {:induction false} ProxyStaysProxy(
      t: Tracker, payer: Address, events: seq<Event>, news: map<Address, bool>, i: nat, a: Address)
    requires i <= |events| && NoDemotion(t, payer, events, news)
    requires t.IsProxy(a, First(t, payer, events[..i], news).news)
    ensures t.IsProxy(a, First(t, payer, events, news).news)
    decreases |events| - i
  {
    if i == |events| {
      assert events[..i] == events;
    } else {
      assert events[..i + 1][..i] == events[..i];
      ProxyStaysProxy(t, payer, events, news, i + 1, a);
    }
  }

  /** Accounts with proxy deposits are proxies when the second pass runs. */
  lemma {:induction false} ProxyDepositsAreToProxies(
      t: Tracker, payer: Address, events: seq<Event>, news: map<Address, bool>, i: nat, a: Address)
    requires i <= |events| && NoDemotion(t, payer, events, news)
    requires a in First(t, payer, events[..i], news).proxyDeposits
    ensures t.IsProxy(a, First(t, payer, events, news).news)
  {
    if i > 0 {
      assert events[..i][..i - 1] == events[..i - 1];
      if a in First(t, payer, events[..i - 1], news).proxyDeposits {
        ProxyDepositsAreToProxies(t, payer, events, news, i - 1, a);
      } else {
        ProxyStaysProxy(t, payer, events, news, i - 1, a);
      }
    }
  }

  // ---- What the netting loses ----

  /** The merge overwrites the plain deposits left to an account that also has
      proxy deposits. That takes an account that was a proxy when the first pass
      saw deposits to its vault, and no longer is one in the second pass. */
  function Lost(t: Tracker, payer: Address, events: seq<Event>, news: map<Address, bool>, a: Address): uint64 {
    var first := First(t, payer, events, news);
    var deposits, received := At(Second(t, first.news, events).deposits, a), Received(first.moves, a);
    if t.IsProxy(a, first.news) || At(first.proxyDeposits, a) == 0 || deposits <= received then 0
    else deposits - received
  }

  lemma {:induction false} LeftAfterMatching(
      t: Tracker, payer: Address, events: seq<Event>, news: map<Address, bool>, a: Address)
    requires Net(t, payer, events, news).ok
    ensures var first := First(t, payer, events, news);
            var deposits, n := At(Second(t, first.news, events).deposits, a), Net(t, payer, events, news);
            if t.IsProxy(a, first.news) then At(n.deposits, a) == deposits
            else
              && At(n.deposits, a) == deposits - Received(first.moves, a)
              && At(n.proxyDeposits, a) == At(first.proxyDeposits, a)
  {
    var first := First(t, payer, events, news);
    var second := Second(t, first.news, events);
    var n0 := Netting(first.ok, CreateOps(first.keys, first.addrs), second.deposits, first.proxyDeposits,
                      second.withdrawals);
    var n1 := ChargeFee(t, payer, first.news, second.fees, n0);
    assert n1.deposits == n0.deposits && n1.proxyDeposits == n0.proxyDeposits;
    hide First, Second, MatchMoves, ChargeFee, CreateOps, Received;
    MatchingUsesUp(t, first.news, n1, first.moves, a);
    MatchingKeepsOther(t, first.news, n1, first.moves, a);
  }

  /** Per account, the operations of an accepted transaction carry exactly what
      the passes collected, less what the merge overwrites. */
  lemma {:induction false} NettingLoses(t: Tracker, payer: Address, events: seq<Event>, news: map<Address, bool>,
                                        ops: seq<Operation>, a: Address)
    requires Translates(t, payer, events, news, ops)
    ensures Effect(ops, a) == Open(t, payer, events, news, a) - Lost(t, payer, events, news, a)
  {
    var first := First(t, payer, events, news);
    NettingIsExact(t, payer, events, news, ops, a);
    SecondCounts(t, first.news, events, a);
    hide First, Second, Net, Open, Effect, Received;
    LeftAfterMatching(t, payer, events, news, a);
  }

  /** Nothing is lost if and only if the account is a proxy at the end, or has no
      proxy deposits, or was sent its plain deposits by proxy transfers. */
  lemma {:induction false} NettingLosesNothing(t: Tracker, payer: Address, events: seq<Event>, news: map<Address, bool>,
                                               ops: seq<Operation>, a: Address)
    requires Translates(t, payer, events, news, ops)
    ensures var first := First(t, payer, events, news);
            Effect(ops, a) == Open(t, payer, events, news, a) <==>
            t.IsProxy(a, first.news) || At(first.proxyDeposits, a) == 0 ||
            At(Second(t, first.news, events).deposits, a) <= Received(first.moves, a)
  {
    NettingLoses(t, payer, events, news, ops, a);
    hide First, Second, Translates, Open, Effect, Received;
  }

  /** On the events: no account is created again while known as a proxy. */
  lemma {:induction false} NoDemotionLosesNothing(
      t: Tracker, payer: Address, events: seq<Event>, news: map<Address, bool>, a: Address)
    requires NoDemotion(t, payer, events, news)
    ensures Lost(t, payer, events, news, a) == 0
  {
    if a in First(t, payer, events, news).proxyDeposits {
      assert events[..|events|] == events;
      ProxyDepositsAreToProxies(t, payer, events, news, |events|, a);
    }
  }

  /** No account ends up with both kinds of deposit. */
  lemma {:induction false} DepositsAreDisjoint(
      t: Tracker, payer: Address, events: seq<Event>, news: map<Address, bool>, a: Address)
    requires Net(t, payer, events, news).ok && NoDemotion(t, payer, events, news)
    ensures var first := First(t, payer, events, news);
            a !in Second(t, first.news, events).deposits || a !in first.proxyDeposits
    ensures var n := Net(t, payer, events, news);
            At(n.proxyDeposits, a) == 0 || At(n.deposits, a) == 0
  {
    var first := First(t, payer, events, news);
    SecondCounts(t, first.news, events, a);
    if a in first.proxyDeposits {
      assert events[..|events|] == events;
      ProxyDepositsAreToProxies(t, payer, events, news, |events|, a);
    }
    hide First, Second, Net;
    LeftAfterMatching(t, payer, events, news, a);
  }

  /** The collected amounts are the counted flow, less whole wraps of the counters. */
  lemma {:induction false} OpenIsCounted(
      t: Tracker, payer: Address, events: seq<Event>, news: map<Address, bool>, a: Address)
    requires First(t, payer, events, news).ok
    ensures Open(t, payer, events, news, a) ==
            Counted(t, payer, events, news, a) - Wraps(t, payer, events, news, a) * TWO_64
  {
    var first := First(t, payer, events, news);
    FirstCounts(t, payer, events, news, a);
    SecondCounts(t, first.news, events, a);
    hide First, Second, TokenCredits, TokenDebits, VaultCredits, VaultDebits, Sent;
    Unwrap(VaultCredits(t, payer, events, news, a));
    Unwrap(TokenCredits(t, events, a));
    Unwrap(TokenDebits(events, a));
  }

  lemma {:induction false} Unwrap(x: nat)
    ensures ToUint64(x) == x - x / TWO_64 * TWO_64
  {
  }

  /** Per-transaction netting: whatever the order in which the maps were iterated,
      the operations of an accepted transaction change each account by its counted
      inflow minus outflow, less what the merge overwrites and less whole wraps. */
  lemma {:induction false} TransactionIsNetted(t: Tracker, payer: Address, events: seq<Event>, news: map<Address, bool>,
                                               ops: seq<Operation>, a: Address)
    requires Translates(t, payer, events, news, ops)
    ensures Effect(ops, a) == Counted(t, payer, events, news, a) - Lost(t, payer, events, news, a)
                              - Wraps(t, payer, events, news, a) * TWO_64
    ensures Congruent(Effect(ops, a), Counted(t, payer, events, news, a)) <==> Lost(t, payer, events, news, a) == 0
  {
    NettingLoses(t, payer, events, news, ops, a);
    NetFirstOk(t, payer, events, news);
    OpenIsCounted(t, payer, events, news, a);
    hide Effect, Counted, Lost, Wraps, Open, Translates, Congruent;
    WholeWraps(Effect(ops, a), Counted(t, payer, events, news, a), Lost(t, payer, events, news, a),
               Wraps(t, payer, events, news, a));
  }

  lemma {:induction false} WholeWraps(x: int, y: int, lost: uint64, wraps: int)
    requires x == y - lost - wraps * TWO_64
    ensures Congruent(x, y) <==> lost == 0
  {
    Shifted(y - lost, -wraps);
    if Congruent(x, y) {
      CongruentSum(y, x, y, y);
      assert Congruent(lost + wraps * TWO_64, 0);
      Shifted(lost, wraps);
    }
  }

  lemma {:induction false} NetFirstOk(t: Tracker, payer: Address, events: seq<Event>, news: map<Address, bool>)
    requires Net(t, payer, events, news).ok
    ensures First(t, payer, events, news).ok
  {
    var first := First(t, payer, events, news);
    var second := Second(t, first.news, events);
    var n := Netting(first.ok, CreateOps(first.keys, first.addrs), second.deposits, first.proxyDeposits,
                     second.withdrawals);
    MatchMovesNeedOk(t, first.news, ChargeFee(t, payer, first.news, second.fees, n), first.moves);
  }

  // ---- When a transaction is accepted ----

  /** A followed payer's own withdrawals, which count unless it is a proxy, cover what
      the fee accounts received, both in the uint64 counters. */
  predicate FeeIsPaid(t: Tracker, payer: Address, events: seq<Event>, news: map<Address, bool>) {
    var news' := First(t, payer, events, news).news;
    t.IsTracked(payer, news') ==>
      ToUint64(FeesIn(t, events)) <= if t.IsProxy(payer, news') then 0 else ToUint64(TokenDebits(events, payer))
  }

  /** The deposits that proxy transfers to r are matched with, in the uint64 counters. */
  function Deposited(t: Tracker, payer: Address, events: seq<Event>, news: map<Address, bool>, r: Address): uint64 {
    var news' := First(t, payer, events, news).news;
    if t.IsProxy(r, news') then ToUint64(VaultCredits(t, payer, events, news, r))
    else if t.IsTracked(r, news') then ToUint64(TokenCredits(t, events, r))
    else 0
  }

  /** Every proxy transfer to a followed account finds its deposit. */
  ghost predicate TransfersAreCovered(t: Tracker, payer: Address, events: seq<Event>, news: map<Address, bool>) {
    forall r: Address :: TransfersTo(t, payer, events, news, r) <= Deposited(t, payer, events, news, r)
  }

  /** Any transaction is accepted exactly if its events decode and name their keys,
      its fee is paid, and no account is sent more by proxies than its wrapped
      counter of deposits holds. */
  lemma {:induction false} AcceptanceIsExact(
      t: Tracker, payer: Address, events: seq<Event>, news: map<Address, bool>)
    ensures Net(t, payer, events, news).ok <==>
            && First(t, payer, events, news).ok && FeeIsPaid(t, payer, events, news)
            && TransfersAreCovered(t, payer, events, news)
  {
    hide First, Second, MatchMoves, CreateOps, Received, TransfersTo, VaultCredits, TokenCredits, TokenDebits, FeesIn;
    hide ToUint64, Congruent;
    var first := First(t, payer, events, news);
    var second := Second(t, first.news, events);
    var n := Netting(first.ok, CreateOps(first.keys, first.addrs), second.deposits, first.proxyDeposits,
                     second.withdrawals);
    var charged := ChargeFee(t, payer, first.news, second.fees, n);
    SecondFees(t, first.news, events);
    SecondCounts(t, first.news, events, payer);
    assert charged.ok <==> first.ok && FeeIsPaid(t, payer, events, news);
    assert charged.deposits == n.deposits && charged.proxyDeposits == n.proxyDeposits;
    MatchingIsExact(t, first.news, charged, first.moves);
    if first.ok {
      forall r: Address
        ensures Available(t, first.news, charged, r) == Deposited(t, payer, events, news, r)
        ensures Received(first.moves, r) == TransfersTo(t, payer, events, news, r)
      {
        FirstCounts(t, payer, events, news, r);
        SecondCounts(t, first.news, events, r);
      }
    }
  }

  lemma {:induction false} FeesAreNoCredits(t: Tracker, events: seq<Event>, a: Address)
    requires a in t.feeAddrs
    ensures TokenCredits(t, events, a) == 0
  {
    if events != [] {
      FeesAreNoCredits(t, events[..|events| - 1], a);
    }
  }

  /** Two families that are refused for good, paid or not: proxy transfers of 2^64
      units or more to one followed account, and any to a fee account that is
      followed as an ordinary one. */
  lemma {:induction false} HiddenDepositsTrip(
      t: Tracker, payer: Address, events: seq<Event>, news: map<Address, bool>, r: Address)
    requires var sent := TransfersTo(t, payer, events, news, r);
             || sent >= TWO_64
             || (r in t.feeAddrs && CountsTokens(t, First(t, payer, events, news).news, r) && sent > 0)
    ensures !Net(t, payer, events, news).ok
  {
    hide First, TransfersTo, VaultCredits, TokenCredits, Net, FeeIsPaid;
    AcceptanceIsExact(t, payer, events, news);
    if r in t.feeAddrs {
      FeesAreNoCredits(t, events, r);
    }
    assert Deposited(t, payer, events, news, r) < TWO_64;
  }

  // ---- Why addresses must be created once ----

  /** A proxy account is set up, receives 5, is created once more as an ordinary
      account, and receives 7 as such. */
  function Recreation(a: Address, key: PublicKey): seq<Event> {
    [AccountCreated(a), ProxyCreated(a, Some(key)), ProxyDeposited(a, 5), AccountCreated(a),
     TokensDeposited(7, Some(a))]
  }

  lemma {:induction false} RecreationPasses(payer: Address, a: Address, key: PublicKey)
    requires payer != a
    ensures var t, events := Tracker(map[], {payer}, {}), Recreation(a, key);
            var first := First(t, payer, events, map[]);
            && first.ok && first.news == map[a := false] && first.proxyDeposits == map[a := 5] && first.moves == []
            && Second(t, first.news, events) == SecondPass(map[a := 7], map[], 0)
  {
    var t, events := Tracker(map[], {payer}, {}), Recreation(a, key);
    var p1 := [events[0]];
    var p2, p3, p4 := p1 + [events[1]], p1 + [events[1]] + [events[2]], p1 + [events[1]] + [events[2]] + [events[3]];
    assert events == p4 + [events[4]] && p1 == [] + [events[0]];
    var news: map<Address, bool> := map[a := false];
    PassesAppend(t, payer, [], events[0], map[], news);
    assert First(t, payer, p1, map[]).keys == map[a := None];
    PassesAppend(t, payer, p1, events[1], map[], news);
    assert First(t, payer, p2, map[]).news == map[a := true];
    PassesAppend(t, payer, p2, events[2], map[], news);
    PassesAppend(t, payer, p3, events[3], map[], news);
    PassesAppend(t, payer, p4, events[4], map[], news);
  }

  lemma {:induction false} PassesAppend(
      t: Tracker, payer: Address, events: seq<Event>, e: Event, news: map<Address, bool>, news': map<Address, bool>)
    ensures First(t, payer, events + [e], news) == FirstStep(t, payer, First(t, payer, events, news), e)
    ensures Second(t, news', events + [e]) == SecondStep(t, news', Second(t, news', events), e)
  {
    assert (events + [e])[..|events|] == events;
  }

  /** A failing input: here the transaction is accepted, whatever the
      iteration order, with operations that credit 5 of the 12 units counted. */
  lemma {:induction false} RecreationLosesDeposit(payer: Address, a: Address, key: PublicKey, ops: seq<Operation>)
    requires payer != a
    ensures var t, events := Tracker(map[], {payer}, {}), Recreation(a, key);
            && Net(t, payer, events, map[]).ok && Open(t, payer, events, map[], a) == 12 &&
                Lost(t, payer, events, map[], a) == 7
            && (Translates(t, payer, events, map[], ops) ==> Effect(ops, a) == 5)
  {
    hide First, Second, Recreation, Effect, IsTail, CreateOps;
    var t, events := Tracker(map[], {payer}, {}), Recreation(a, key);
    RecreationPasses(payer, a, key);
    assert Net(t, payer, events, map[]).ok;
    if Translates(t, payer, events, map[], ops) {
      hide Translates, Net;
      NettingLoses(t, payer, events, map[], ops, a);
    }
  }
}
