/** What a transaction becomes, stated on its events: which accounts it makes the
    indexer follow, and every operation of it, with kinds, sides, amounts and keys. */
module OperationSpec {
  import opened Prelude
  import opened Bytes
  import opened Model
  import opened Translate
  import opened Matching
  import opened Flows
  import opened Conversion

  // ---- Creations ----

  /** A creation is recorded if the payer is followed or the account is an originator. */
  predicate IsRecorded(t: Tracker, followed: bool, a: Address) {
    followed || a in t.originators
  }

  ghost predicate CreatedIn(t: Tracker, followed: bool, events: seq<Event>, a: Address) {
    AccountCreated(a) in events && IsRecorded(t, followed, a)
  }

  /** The key that a followed payer gave the account since its last creation, if any. */
  function LastKey(followed: bool, events: seq<Event>, a: Address): ByteString {
    if events == [] then []
    else
      var before, e := events[..|events| - 1], events[|events| - 1];
      if e == AccountCreated(a) then []
      else if followed && e.ProxyCreated? && e.account == a && e.publicKey.Some? then e.publicKey.value
      else LastKey(followed, before, a)
  }

  /** One operation per recorded creation, in order, with the account's final key. */
  function Creations(t: Tracker, followed: bool, events: seq<Event>, all: seq<Event>): seq<Operation> {
    if events == [] then []
    else
      var e := events[|events| - 1];
      Creations(t, followed, events[..|events| - 1], all) +
      (if e.AccountCreated? && IsRecorded(t, followed, e.address)
       then [CreateAccount(e.address, LastKey(followed, all, e.address))] else [])
  }

  /** A transaction does not change whether its payer is followed. */
  lemma {:induction false} PayerStays(t: Tracker, payer: Address, events: seq<Event>, news: map<Address, bool>)
    ensures t.IsTracked(payer, First(t, payer, events, news).news) == t.IsTracked(payer, news)
  {
    if events != [] {
      PayerStays(t, payer, events[..|events| - 1], news);
    }
  }

  lemma {:induction false} KeysAreLast(
      t: Tracker, payer: Address, events: seq<Event>, news: map<Address, bool>, a: Address)
    requires First(t, payer, events, news).ok
    ensures var keys := First(t, payer, events, news).keys;
            && CreateOp(keys, a) == CreateAccount(a, LastKey(t.IsTracked(payer, news), events, a))
            && (a in keys <==> CreatedIn(t, t.IsTracked(payer, news), events, a))
  {
    if events != [] {
      hide First, FirstStep;
      var before, e := events[..|events| - 1], events[|events| - 1];
      FirstLast(t, payer, events, news);
      KeysAreLast(t, payer, before, news, a);
      PayerStays(t, payer, before, news);
      KeyStep(t, payer, First(t, payer, before, news), e, a);
      assert events == before + [e];
      hide CreateOp;
    }
  }

  lemma {:induction false} FirstLast(t: Tracker, payer: Address, events: seq<Event>, news: map<Address, bool>)
    requires events != [] && First(t, payer, events, news).ok
    ensures var s := First(t, payer, events[..|events| - 1], news);
            s.ok && First(t, payer, events, news) == FirstStep(t, payer, s, events[|events| - 1])
  {
  }

  lemma {:induction false} KeyStep(t: Tracker, payer: Address, s: FirstPass, e: Event, a: Address)
    requires s.ok && FirstStep(t, payer, s, e).ok
    ensures var keys, followed := FirstStep(t, payer, s, e).keys, t.IsTracked(payer, s.news);
            && (a in keys <==> a in s.keys || (e == AccountCreated(a) && IsRecorded(t, followed, a)))
            && (e == AccountCreated(a) && (a in s.keys ==> IsRecorded(t, followed, a)) ==>
                  CreateOp(keys, a) == CreateAccount(a, []))
            && (followed && e.ProxyCreated? && e.account == a ==>
                  e.publicKey.Some? && CreateOp(keys, a) == CreateAccount(a, e.publicKey.value))
            && (e != AccountCreated(a) && !(followed && e.ProxyCreated? && e.account == a) ==>
                  CreateOp(keys, a) == CreateOp(s.keys, a))
  {
  }

  /** What a transaction leaves in the block's new accounts: its recorded creations,
      each a proxy exactly if it has a key, and all else as it was. */
  lemma {:induction false} NewsAreCreated(
      t: Tracker, payer: Address, events: seq<Event>, news: map<Address, bool>, a: Address)
    requires First(t, payer, events, news).ok
    ensures var followed, news' := t.IsTracked(payer, news), First(t, payer, events, news).news;
            if CreatedIn(t, followed, events, a) then a in news' && (news'[a] <==> LastKey(followed, events, a) != [])
            else (a in news' <==> a in news) && (a in news ==> news'[a] == news[a])
  {
    hide First;
    FirstCreates(t, payer, events, news, a);
    KeysAreLast(t, payer, events, news, a);
  }

  lemma {:induction false} CreationsAreOps(
      t: Tracker, payer: Address, events: seq<Event>, news: map<Address, bool>,
      keys: map<Address, Option<PublicKey>>, all: seq<Event>)
    requires First(t, payer, events, news).ok
    requires forall a: Address :: CreateOp(keys, a) == CreateAccount(a, LastKey(t.IsTracked(payer, news), all, a))
    ensures CreateOps(keys, First(t, payer, events, news).addrs) ==
            Creations(t, t.IsTracked(payer, news), events, all)
  {
    if events != [] {
      hide First, FirstStep, LastKey, CreateOp;
      var before, e := events[..|events| - 1], events[|events| - 1];
      FirstLast(t, payer, events, news);
      CreationsAreOps(t, payer, before, news, keys, all);
      PayerStays(t, payer, before, news);
      var s := First(t, payer, before, news);
      AddrStep(t, payer, s, e);
      if e.AccountCreated? {
        CreateOpsAppend(keys, s.addrs, e.address);
      }
      hide CreateOps;
    } else {
      assert CreateOps(keys, []) == [];
    }
  }

  lemma {:induction false} AddrStep(t: Tracker, payer: Address, s: FirstPass, e: Event)
    requires s.ok && FirstStep(t, payer, s, e).ok
    ensures FirstStep(t, payer, s, e).addrs ==
            if e.AccountCreated? && IsRecorded(t, t.IsTracked(payer, s.news), e.address) then s.addrs + [e.address]
            else s.addrs
  {
  }

  lemma {:induction false} CreateOpsAppend(
      keys: map<Address, Option<PublicKey>>, addrs: seq<Address>, a: Address)
    ensures CreateOps(keys, addrs + [a]) == CreateOps(keys, addrs) + [CreateOp(keys, a)]
  {
    assert (addrs + [a])[..|addrs|] == addrs;
  }

  // ---- When the first pass succeeds ----

  /** The i-th event decodes; a followed payer's proxy account has a key, and was
      created earlier in the transaction. */
  ghost predicate DecodesAt(followed: bool, events: seq<Event>, i: nat)
    requires i < |events|
  {
    var e := events[i];
    && e != Undecodable
    && (followed && e.ProxyCreated? ==> e.publicKey.Some? && AccountCreated(e.account) in events[..i])
  }

  ghost predicate Decodes(followed: bool, events: seq<Event>) {
    forall i :: 0 <= i < |events| ==> DecodesAt(followed, events, i)
  }

  lemma {:induction false} DecodesOneMore(followed: bool, events: seq<Event>)
    requires events != []
    ensures Decodes(followed, events) <==>
            Decodes(followed, events[..|events| - 1]) && DecodesAt(followed, events, |events| - 1)
  {
    var before := events[..|events| - 1];
    forall i | 0 <= i < |before| ensures DecodesAt(followed, events, i) <==> DecodesAt(followed, before, i) {
      assert events[..i] == before[..i];
    }
  }

  lemma {:induction false} FirstIsOkIff(t: Tracker, payer: Address, events: seq<Event>, news: map<Address, bool>)
    ensures First(t, payer, events, news).ok <==> Decodes(t.IsTracked(payer, news), events)
  {
    if events != [] {
      hide First, FirstStep, Decodes;
      var before, e := events[..|events| - 1], events[|events| - 1];
      var followed := t.IsTracked(payer, news);
      FirstIsOkIff(t, payer, before, news);
      DecodesOneMore(followed, events);
      PassesAppend(t, payer, before, e, news, news);
      assert events == before + [e];
      var s := First(t, payer, before, news);
      if s.ok {
        PayerStays(t, payer, before, news);
        OkStep(t, payer, s, e);
        if e.ProxyCreated? {
          KeysAreLast(t, payer, before, news, e.account);
        }
      } else {
        FailedStep(t, payer, s, e);
      }
    }
  }

  lemma {:induction false} OkStep(t: Tracker, payer: Address, s: FirstPass, e: Event)
    requires s.ok
    ensures FirstStep(t, payer, s, e).ok <==>
            && e != Undecodable
            && (t.IsTracked(payer, s.news) && e.ProxyCreated? ==> e.publicKey.Some? && e.account in s.keys)
  {
  }

  lemma {:induction false} FailedStep(t: Tracker, payer: Address, s: FirstPass, e: Event)
    requires !s.ok
    ensures !FirstStep(t, payer, s, e).ok
  {
  }

  /** Acceptance, stated on the events alone. */
  lemma {:induction false} AcceptanceOnEvents(t: Tracker, payer: Address, events: seq<Event>, news: map<Address, bool>)
    ensures Net(t, payer, events, news).ok <==>
            && Decodes(t.IsTracked(payer, news), events) && FeeIsPaid(t, payer, events, news)
            && TransfersAreCovered(t, payer, events, news)
  {
    hide First, Net, Decodes, FeeIsPaid, TransfersAreCovered;
    FirstIsOkIff(t, payer, events, news);
    AcceptanceIsExact(t, payer, events, news);
  }

  // ---- The fee ----

  /** The fee that a followed payer is charged. */
  function Charged(t: Tracker, payer: Address, events: seq<Event>, news: map<Address, bool>): uint64 {
    if t.IsTracked(payer, news) then ToUint64(FeesIn(t, events)) else 0
  }

  function FeeOps(t: Tracker, payer: Address, events: seq<Event>, news: map<Address, bool>): seq<Operation> {
    var fee := Charged(t, payer, events, news);
    if fee > 0 then [Move(Fee, Some(payer), fee, None)] else []
  }

  // ---- Proxy transfers ----

  /** One operation per proxy transfer of a positive amount out of a known proxy, in
      order; its receiver is named if it is followed. */
  function ProxyOps(t: Tracker, payer: Address, events: seq<Event>, news: map<Address, bool>): seq<Operation> {
    if events == [] then []
    else
      var before, e := events[..|events| - 1], events[|events| - 1];
      var known := First(t, payer, before, news).news;
      ProxyOps(t, payer, before, news) +
      (if e.ProxyTransferred? && t.IsProxy(SenderOf(e.source), known) && e.amount > 0
       then [Move(ProxyTransfer, Some(SenderOf(e.source)), e.amount,
                  if t.IsTracked(e.receiver, known) then Some(e.receiver) else None)]
       else [])
  }

  function Emitted(moves: seq<ProxyMove>): seq<Operation> {
    if moves == [] then []
    else
      var m := moves[|moves| - 1];
      Emitted(moves[..|moves| - 1]) + (if m.amount > 0 then [MoveOp(m)] else [])
  }

  lemma {:induction false} MovesAreOps(t: Tracker, payer: Address, events: seq<Event>, news: map<Address, bool>)
    requires First(t, payer, events, news).ok
    ensures Emitted(First(t, payer, events, news).moves) == ProxyOps(t, payer, events, news)
  {
    if events == [] {
      assert Emitted([]) == [];
    } else {
      hide First, FirstStep;
      var before, e := events[..|events| - 1], events[|events| - 1];
      FirstLast(t, payer, events, news);
      MovesAreOps(t, payer, before, news);
      MoveStep(t, payer, First(t, payer, before, news), e);
      hide Emitted;
    }
  }

  lemma {:induction false} MoveStep(t: Tracker, payer: Address, s: FirstPass, e: Event)
    requires s.ok && FirstStep(t, payer, s, e).ok
    ensures Emitted(FirstStep(t, payer, s, e).moves) == Emitted(s.moves) +
            (if e.ProxyTransferred? && t.IsProxy(SenderOf(e.source), s.news) && e.amount > 0
             then [Move(ProxyTransfer, Some(SenderOf(e.source)), e.amount,
                        if t.IsTracked(e.receiver, s.news) then Some(e.receiver) else None)]
             else [])
  {
    hide Emitted, Plus;
    if e.ProxyTransferred? && t.IsProxy(SenderOf(e.source), s.news) {
      var target := if t.IsTracked(e.receiver, s.news) then Some(e.receiver) else None;
      EmittedAppend(s.moves, ProxyMove(SenderOf(e.source), e.amount, target));
    } else {
      assert FirstStep(t, payer, s, e).moves == s.moves;
    }
  }

  lemma {:induction false} EmittedAppend(moves: seq<ProxyMove>, m: ProxyMove)
    ensures Emitted(moves + [m]) == Emitted(moves) + (if m.amount > 0 then [MoveOp(m)] else [])
  {
    assert (moves + [m])[..|moves|] == moves;
  }

  lemma {:induction false} MatchingEmits(t: Tracker, news: map<Address, bool>, n: Netting, moves: seq<ProxyMove>)
    requires MatchMoves(t, news, n, moves).ok
    ensures var n' := MatchMoves(t, news, n, moves);
            n'.ops == n.ops + Emitted(moves) && n'.withdrawals == n.withdrawals
  {
    if moves != [] {
      var before, m := moves[..|moves| - 1], moves[|moves| - 1];
      MatchingEmits(t, news, n, before);
      MatchMoveParts(t, news, MatchMoves(t, news, n, before), m, ZERO_ADDRESS);
      hide MatchMove;
    }
  }

  // ---- What is left ----

  /** The deposits of an account that no proxy transfer explains: those to its vault,
      or, if none are left there, those among its tokens. */
  function LeftTo(t: Tracker, payer: Address, events: seq<Event>, news: map<Address, bool>, a: Address): int {
    var known, sent := First(t, payer, events, news).news, TransfersTo(t, payer, events, news, a);
    var vault := ToUint64(VaultCredits(t, payer, events, news, a)) - (if t.IsProxy(a, known) then sent else 0);
    if vault > 0 then vault
    else if CountsTokens(t, known, a) then ToUint64(TokenCredits(t, events, a)) - sent
    else 0
  }

  /** The withdrawals of an account that the fee does not explain. */
  function LeftFrom(t: Tracker, payer: Address, events: seq<Event>, news: map<Address, bool>, a: Address): int {
    if CountsTokens(t, First(t, payer, events, news).news, a)
    then ToUint64(TokenDebits(events, a)) - (if a == payer then Charged(t, payer, events, news) else 0)
    else 0
  }

  /** Exactly one account has deposits left and exactly one withdrawals, of one amount. */
  ghost predicate Pairs(
      t: Tracker, payer: Address, events: seq<Event>, news: map<Address, bool>, r: Address, s: Address)
  {
    && LeftTo(t, payer, events, news, r) == LeftFrom(t, payer, events, news, s) > 0
    && (forall a: Address :: a != r ==> LeftTo(t, payer, events, news, a) == 0)
    && (forall a: Address :: a != s ==> LeftFrom(t, payer, events, news, a) == 0)
  }

  /** A one-sided transfer of all that is left to or from an account. */
  predicate TakesRest(t: Tracker, payer: Address, events: seq<Event>, news: map<Address, bool>, op: Operation) {
    && op.Move? && op.kind == Transfer && op.amount > 0
    && match (op.sender, op.receiver)
       case (None, Some(a)) => op.amount == LeftTo(t, payer, events, news, a)
       case (Some(a), None) => op.amount == LeftFrom(t, payer, events, news, a)
       case _ => false
  }

  /** The closing operations: one transfer between the two accounts of a pair, or else
      one one-sided transfer for each rest, and nothing more. */
  ghost predicate Closes(
      t: Tracker, payer: Address, events: seq<Event>, news: map<Address, bool>, tail: seq<Operation>)
  {
    && (forall r: Address, s: Address :: Pairs(t, payer, events, news, r, s) ==>
          |tail| == 1 && tail[0].Move? && tail[0].amount == LeftTo(t, payer, events, news, r) &&
          tail == [Move(Transfer, Some(s), tail[0].amount, Some(r))])
    && ((forall r: Address, s: Address :: !Pairs(t, payer, events, news, r, s)) ==>
          forall op :: multiset(tail)[op] == if TakesRest(t, payer, events, news, op) then 1 else 0)
  }

  // ---- The same on the maps ----

  predicate AllPositive(m: Amounts) {
    forall a :: a in m ==> m[a] > 0
  }

  ghost predicate PairsIn(d: Amounts, w: Amounts, r: Address, s: Address) {
    && At(d, r) == At(w, s) > 0
    && (forall a: Address :: a != r ==> At(d, a) == 0) && (forall a: Address :: a != s ==> At(w, a) == 0)
  }

  lemma {:induction false} OneToOneIsPair(d: Amounts, w: Amounts)
    requires AllPositive(d) && AllPositive(w)
    ensures OneToOne(d, w) <==> exists r: Address, s: Address :: PairsIn(d, w, r, s)
    ensures forall r: Address, s: Address :: PairsIn(d, w, r, s) ==> d.Keys == {r} && w.Keys == {s}
  {
    if OneToOne(d, w) {
      var r, s :| r in d && s in w && d[r] == w[s];
      forall a: Address ensures (a in d ==> a == r) && (a in w ==> a == s) {
        if a in d {
          SingletonMap(d, r, a);
        }
        if a in w {
          SingletonMap(w, s, a);
        }
      }
      assert PairsIn(d, w, r, s);
    }
    forall r: Address, s: Address | PairsIn(d, w, r, s) ensures d.Keys == {r} && w.Keys == {s} && OneToOne(d, w) {
      forall a | a in d ensures a == r {
        assert At(d, a) > 0;
      }
      forall a | a in w ensures a == s {
        assert At(w, a) > 0;
      }
      assert d.Keys == {r} && w.Keys == {s};
      assert |d| == |d.Keys| == 1 && |w| == |w.Keys| == 1;
    }
  }

  lemma {:induction false} TailCounts(tail: seq<Operation>, d: Amounts, w: Amounts, op: Operation)
    requires IsTail(tail, d, w) && !OneToOne(d, w)
    ensures multiset(tail)[op] ==
            (if op.Move? && op.receiver.Some? && op == DepositOp(op.receiver.value, At(d, op.receiver.value)) &&
                op.receiver.value in d then 1 else 0) +
            (if op.Move? && op.sender.Some? && op == WithdrawalOp(op.sender.value, At(w, op.sender.value)) &&
                op.sender.value in w then 1 else 0)
  {
    var x, y :| IsOrder(x, d) && IsOrder(y, w) && tail == DepositOps(x, d) + WithdrawalOps(y, w);
    DepositsMultiset(x, d, op);
    WithdrawalsMultiset(y, w, op);
    hide DepositOps, WithdrawalOps;
  }

  // ---- The maps hold what is left ----

  lemma {:induction false} RestIsPositive(x: Amounts, y: Amounts)
    ensures AllPositive(Positive(x) + Positive(y)) && AllPositive(Positive(x))
  {
  }

  lemma {:induction false} NetIsMatched(t: Tracker, payer: Address, events: seq<Event>, news: map<Address, bool>)
    requires Net(t, payer, events, news).ok
    ensures var first, n := First(t, payer, events, news), Net(t, payer, events, news);
            var second := Second(t, first.news, events);
            && first.ok
            && n.ops == CreateOps(first.keys, first.addrs) + FeeOps(t, payer, events, news) + Emitted(first.moves)
            && forall a: Address :: At(n.withdrawals, a) == At(second.withdrawals, a) -
                 (if a == payer then Charged(t, payer, events, news) else 0)
  {
    hide First, Second, MatchMoves, CreateOps, FeesIn, ToUint64, Congruent;
    var first := First(t, payer, events, news);
    var second := Second(t, first.news, events);
    var n0 := Netting(first.ok, CreateOps(first.keys, first.addrs), second.deposits, first.proxyDeposits,
                      second.withdrawals);
    var n1 := ChargeFee(t, payer, first.news, second.fees, n0);
    MatchMovesNeedOk(t, first.news, n1, first.moves);
    MatchingEmits(t, first.news, n1, first.moves);
    PayerStays(t, payer, events, news);
    SecondFees(t, first.news, events);
    assert n1.ops == n0.ops + FeeOps(t, payer, events, news);
  }

  lemma {:induction false} RestIsLeft(
      t: Tracker, payer: Address, events: seq<Event>, news: map<Address, bool>, a: Address)
    requires Net(t, payer, events, news).ok
    ensures var n := Net(t, payer, events, news);
            && At(Positive(n.deposits) + Positive(n.proxyDeposits), a) == LeftTo(t, payer, events, news, a)
            && At(Positive(n.withdrawals), a) == LeftFrom(t, payer, events, news, a)
  {
    hide First, Second, Net, CreateOps, FeesIn, VaultCredits, TokenCredits, TokenDebits, TransfersTo, ToUint64;
    hide Congruent, Received, Charged;
    var first := First(t, payer, events, news);
    NetIsMatched(t, payer, events, news);
    FirstCounts(t, payer, events, news, a);
    SecondCounts(t, first.news, events, a);
    LeftAfterMatching(t, payer, events, news, a);
    ProxyLeftAfterMatching(t, payer, events, news, a);
    var n := Net(t, payer, events, news);
    PositiveKeepsAmounts(n.deposits, n.proxyDeposits, a);
    PositiveKeepsAmounts(n.withdrawals, map[], a);
    hide Positive, At;
  }

  lemma {:induction false} ProxyLeftAfterMatching(
      t: Tracker, payer: Address, events: seq<Event>, news: map<Address, bool>, a: Address)
    requires Net(t, payer, events, news).ok
    ensures var first := First(t, payer, events, news);
            t.IsProxy(a, first.news) ==>
              At(Net(t, payer, events, news).proxyDeposits, a) == At(first.proxyDeposits, a) - Received(first.moves, a)
  {
    hide First, Second, MatchMoves, CreateOps, Received;
    var first := First(t, payer, events, news);
    var second := Second(t, first.news, events);
    var n0 := Netting(first.ok, CreateOps(first.keys, first.addrs), second.deposits, first.proxyDeposits,
                      second.withdrawals);
    var n1 := ChargeFee(t, payer, first.news, second.fees, n0);
    assert n1.proxyDeposits == n0.proxyDeposits;
    MatchingUsesUp(t, first.news, n1, first.moves, a);
  }

  ghost predicate HoldsRest(
      t: Tracker, payer: Address, events: seq<Event>, news: map<Address, bool>, d: Amounts, w: Amounts)
  {
    && AllPositive(d) && AllPositive(w)
    && (forall a: Address :: At(d, a) == LeftTo(t, payer, events, news, a))
    && (forall a: Address :: At(w, a) == LeftFrom(t, payer, events, news, a))
  }

  lemma {:induction false} TailCloses(
      t: Tracker, payer: Address, events: seq<Event>, news: map<Address, bool>, d: Amounts, w: Amounts,
      tail: seq<Operation>)
    requires HoldsRest(t, payer, events, news, d, w) && IsTail(tail, d, w)
    ensures Closes(t, payer, events, news, tail)
  {
    hide LeftTo, LeftFrom, OneToOne, PairsIn, Pairs, TakesRest, IsOrder, DepositOps, WithdrawalOps, AllPositive, At;
    OneToOneIsPair(d, w);
    forall r: Address, s: Address ensures Pairs(t, payer, events, news, r, s) <==> PairsIn(d, w, r, s) {
      SamePairs(t, payer, events, news, d, w, r, s);
    }
    if OneToOne(d, w) {
      var r, s :| r in d && s in w && tail == [Move(Transfer, Some(s), d[r], Some(r))];
      PairCloses(t, payer, events, news, d, w, r, s);
    } else {
      hide IsTail;
      forall op ensures multiset(tail)[op] == if TakesRest(t, payer, events, news, op) then 1 else 0 {
        TailCounts(tail, d, w, op);
        RestCounts(t, payer, events, news, d, w, op);
      }
    }
  }

  lemma {:induction false} SamePairs(
      t: Tracker, payer: Address, events: seq<Event>, news: map<Address, bool>, d: Amounts, w: Amounts,
      r: Address, s: Address)
    requires HoldsRest(t, payer, events, news, d, w)
    ensures Pairs(t, payer, events, news, r, s) <==> PairsIn(d, w, r, s)
  {
    hide LeftTo, LeftFrom, At, AllPositive;
  }

  lemma {:induction false} PairCloses(
      t: Tracker, payer: Address, events: seq<Event>, news: map<Address, bool>, d: Amounts, w: Amounts,
      r: Address, s: Address)
    requires HoldsRest(t, payer, events, news, d, w) && r in d && s in w
    ensures forall r': Address, s': Address :: Pairs(t, payer, events, news, r', s') ==>
              r' == r && s' == s && d[r] == LeftTo(t, payer, events, news, r)
  {
    hide LeftTo, LeftFrom;
    forall r': Address, s': Address | Pairs(t, payer, events, news, r', s') ensures r' == r && s' == s {
      assert At(d, r) > 0 && At(w, s) > 0;
    }
    assert At(d, r) == d[r];
  }

  lemma {:induction false} RestCounts(
      t: Tracker, payer: Address, events: seq<Event>, news: map<Address, bool>, d: Amounts, w: Amounts, op: Operation)
    requires HoldsRest(t, payer, events, news, d, w)
    ensures (if op.Move? && op.receiver.Some? && op == DepositOp(op.receiver.value, At(d, op.receiver.value)) &&
                op.receiver.value in d then 1 else 0) +
            (if op.Move? && op.sender.Some? && op == WithdrawalOp(op.sender.value, At(w, op.sender.value)) &&
                op.sender.value in w then 1 else 0) ==
            if TakesRest(t, payer, events, news, op) then 1 else 0
  {
    hide LeftTo, LeftFrom;
  }

  // ---- The whole translation ----

  /** The operations of a transaction up to the closing ones. */
  function Explained(t: Tracker, payer: Address, events: seq<Event>, news: map<Address, bool>): seq<Operation> {
    Creations(t, t.IsTracked(payer, news), events, events) + FeeOps(t, payer, events, news) +
    ProxyOps(t, payer, events, news)
  }

  lemma {:induction false} NetIsExplained(t: Tracker, payer: Address, events: seq<Event>, news: map<Address, bool>)
    requires Net(t, payer, events, news).ok
    ensures Net(t, payer, events, news).ops == Explained(t, payer, events, news)
  {
    hide First, Net, CreateOps, CreateOp, LastKey, Creations, ProxyOps, FeeOps, Emitted;
    var first := First(t, payer, events, news);
    NetIsMatched(t, payer, events, news);
    forall a: Address
      ensures CreateOp(first.keys, a) == CreateAccount(a, LastKey(t.IsTracked(payer, news), events, a))
    {
      KeysAreLast(t, payer, events, news, a);
    }
    CreationsAreOps(t, payer, events, news, first.keys, events);
    MovesAreOps(t, payer, events, news);
  }

  /** An accepted transaction becomes, whatever the iteration order: a creation with
      its key for each recorded AccountCreated event; one fee operation if a followed
      payer is charged; a proxy transfer for each of those events; and the closing
      transfers. */
  lemma {:induction false} TranslationIsExact(
      t: Tracker, payer: Address, events: seq<Event>, news: map<Address, bool>, ops: seq<Operation>)
    requires Translates(t, payer, events, news, ops)
    ensures var explained := Explained(t, payer, events, news);
            explained <= ops && Closes(t, payer, events, news, ops[|explained|..])
  {
    hide Net, IsTail, LeftTo, LeftFrom, Explained, Closes, Positive, At;
    NetIsExplained(t, payer, events, news);
    var n := Net(t, payer, events, news);
    var d, w := Positive(n.deposits) + Positive(n.proxyDeposits), Positive(n.withdrawals);
    RestIsPositive(n.deposits, n.proxyDeposits);
    RestIsPositive(n.withdrawals, map[]);
    forall a: Address
      ensures At(d, a) == LeftTo(t, payer, events, news, a) && At(w, a) == LeftFrom(t, payer, events, news, a)
    {
      RestIsLeft(t, payer, events, news, a);
    }
    TailCloses(t, payer, events, news, d, w, ops[|n.ops|..]);
  }

  // ---- What follows for the operations ----

  /** The shape of an operation of an accepted transaction. */
  predicate IsShaped(op: Operation) {
    op.Move? ==>
      && op.amount > 0 && (op.kind == Fee ==> op.sender.Some? && op.receiver.None?)
      && (op.kind == ProxyTransfer ==> op.sender.Some?) && (op.sender.Some? || op.receiver.Some?)
  }

  lemma {:induction false} CreationsOnly(t: Tracker, followed: bool, events: seq<Event>, all: seq<Event>)
    ensures forall op :: op in Creations(t, followed, events, all) ==> op.CreateAccount?
  {
    if events != [] {
      CreationsOnly(t, followed, events[..|events| - 1], all);
    }
  }

  lemma {:induction false} ProxyOpsOnly(t: Tracker, payer: Address, events: seq<Event>, news: map<Address, bool>)
    ensures forall op :: op in ProxyOps(t, payer, events, news) ==>
              op.Move? && op.kind == ProxyTransfer && op.sender.Some? && op.amount > 0
  {
    if events != [] {
      hide First;
      ProxyOpsOnly(t, payer, events[..|events| - 1], news);
    }
  }

  lemma {:induction false} ClosingOnly(
      t: Tracker, payer: Address, events: seq<Event>, news: map<Address, bool>, tail: seq<Operation>, op: Operation)
    requires Closes(t, payer, events, news, tail) && op in tail
    ensures op.Move? && op.kind == Transfer && op.amount > 0 && IsShaped(op)
  {
    hide LeftTo, LeftFrom;
    if r: Address, s: Address :| Pairs(t, payer, events, news, r, s) {
      assert op == tail[0];
    } else {
      assert multiset(tail)[op] > 0;
    }
  }

  function FeesOf(ops: seq<Operation>): seq<Operation> {
    if ops == [] then []
    else
      var op := ops[|ops| - 1];
      FeesOf(ops[..|ops| - 1]) + (if op.Move? && op.kind == Fee then [op] else [])
  }

  lemma {:induction false} FeesOfConcat(x: seq<Operation>, y: seq<Operation>)
    ensures FeesOf(x + y) == FeesOf(x) + FeesOf(y)
  {
    if y == [] {
      assert x + y == x;
    } else {
      var shorter := y[..|y| - 1];
      FeesOfConcat(x, shorter);
      assert (x + y)[..|x + y| - 1] == x + shorter;
    }
  }

  lemma {:induction false} NoFeesIn(ops: seq<Operation>)
    requires forall op :: op in ops ==> op.CreateAccount? || op.kind != Fee
    ensures FeesOf(ops) == []
  {
    if ops != [] {
      NoFeesIn(ops[..|ops| - 1]);
    }
  }

  lemma {:induction false} FeesOfFee(t: Tracker, payer: Address, events: seq<Event>, news: map<Address, bool>)
    ensures FeesOf(FeeOps(t, payer, events, news)) == FeeOps(t, payer, events, news)
  {
    hide Charged;
    var fees := FeeOps(t, payer, events, news);
    assert FeesOf([]) == [];
    if fees != [] {
      assert fees[..0] == [];
    }
  }

  /** An accepted transaction has one fee operation if its payer is followed and fee
      accounts received something, by the payer and of that amount, and none if not. */
  lemma {:induction false} FeeIsCharged(
      t: Tracker, payer: Address, events: seq<Event>, news: map<Address, bool>, ops: seq<Operation>)
    requires Translates(t, payer, events, news, ops)
    ensures var fee := ToUint64(FeesIn(t, events));
            FeesOf(ops) == if t.IsTracked(payer, news) && fee > 0 then [Move(Fee, Some(payer), fee, None)] else []
  {
    hide Translates, Creations, ProxyOps, Closes, FeesOf, FeesIn, ToUint64;
    TranslationIsExact(t, payer, events, news, ops);
    var creations := Creations(t, t.IsTracked(payer, news), events, events);
    var fees, moves := FeeOps(t, payer, events, news), ProxyOps(t, payer, events, news);
    var tail := ops[|creations + fees + moves|..];
    assert ops == creations + fees + moves + tail;
    CreationsOnly(t, t.IsTracked(payer, news), events, events);
    ProxyOpsOnly(t, payer, events, news);
    forall op | op in tail ensures op.Move? && op.kind == Transfer {
      ClosingOnly(t, payer, events, news, tail, op);
    }
    FeesOfConcat(creations + fees + moves, tail);
    FeesOfConcat(creations + fees, moves);
    FeesOfConcat(creations, fees);
    NoFeesIn(creations);
    NoFeesIn(moves);
    NoFeesIn(tail);
    FeesOfFee(t, payer, events, news);
  }

  /** Its operations name a side and move something. */
  lemma {:induction false} TranslatedIsShaped(
      t: Tracker, payer: Address, events: seq<Event>, news: map<Address, bool>, ops: seq<Operation>)
    requires Translates(t, payer, events, news, ops)
    ensures forall op :: op in ops ==> IsShaped(op)
  {
    hide Translates, Creations, ProxyOps, Closes, Charged;
    TranslationIsExact(t, payer, events, news, ops);
    var creations := Creations(t, t.IsTracked(payer, news), events, events);
    var fees, moves := FeeOps(t, payer, events, news), ProxyOps(t, payer, events, news);
    var tail := ops[|creations + fees + moves|..];
    assert ops == creations + fees + moves + tail;
    CreationsOnly(t, t.IsTracked(payer, news), events, events);
    ProxyOpsOnly(t, payer, events, news);
    forall op | op in tail ensures IsShaped(op) {
      ClosingOnly(t, payer, events, news, tail, op);
    }
    forall op | op in ops ensures op in creations || op in fees || op in moves || op in tail {
    }
  }

  /** So the answer for an indexed transaction can be read back, as long as no account
      is only debited by more than 2^63. */
  lemma {:induction false} IndexedReadsBack(
      t: Tracker, payer: Address, events: seq<Event>, news: map<Address, bool>, ops: seq<Operation>)
    requires Translates(t, payer, events, news, ops)
    ensures ReadBack(ConvertedAll(ops)) == ops <==>
            forall op :: op in ops && op.Move? && op.kind != Fee && op.receiver.None? ==> op.amount <= TWO_63
  {
    hide Translates, ReadBack, ConvertedAll;
    TranslatedIsShaped(t, payer, events, news, ops);
    AnswerReadsBack(ops);
  }
}
