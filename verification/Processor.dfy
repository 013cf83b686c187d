/** The loops of processBlock that turn one transaction's events into operations. */
module Processor {
  import opened Prelude
  import opened Model
  import opened Translate

  lemma {:induction false} FirstStaysFailed(
      t: Tracker, payer: Address, events: seq<Event>, news: map<Address, bool>, i: nat)
    requires i <= |events| && !First(t, payer, events[..i], news).ok
    ensures !First(t, payer, events, news).ok
    decreases |events| - i
  {
    if i == |events| {
      assert events[..i] == events;
    } else {
      assert events[..i + 1][..i] == events[..i];
      FirstStaysFailed(t, payer, events, news, i + 1);
    }
  }

  /** One turn of evtloop. */
  method FirstTurn(t: Tracker, payer: Address, s: FirstPass, e: Event) returns (s': FirstPass)
    requires s.ok
    ensures s' == FirstStep(t, payer, s, e)
  {
    s' := s;
    match e {
      case AccountCreated(addr) =>
        if addr in t.originators || t.IsTracked(payer, s.news) {
          s' := s'.(keys := s'.keys[addr := None]);
          s' := s'.(addrs := s'.addrs + [addr]);
          s' := s'.(news := s'.news[addr := false]);
        }
      case ProxyCreated(account, key) =>
        if t.IsTracked(payer, s.news) {
          if account !in s.keys || key.None? {
            return s.(ok := false);
          }
          s' := s'.(keys := s'.keys[account := key]);
          s' := s'.(news := s'.news[account := true]);
        }
      case ProxyDeposited(account, amount) =>
        if t.IsProxy(account, s.news) {
          s' := s'.(proxyDeposits := Plus(s'.proxyDeposits, account, amount));
        }
      case ProxyTransferred(source, receiver, amount) =>
        var sender := SenderOf(source);
        if t.IsProxy(sender, s.news) {
          var target := if t.IsTracked(receiver, s.news) then Some(receiver) else None;
          s' := s'.(moves := s'.moves + [ProxyMove(sender, amount, target)]);
        }
      case Undecodable =>
        s' := s.(ok := false);
      case _ =>
    }
  }

  /** evtloop: creations and proxy events. A false result restarts the block. */
  method FirstLoop(t: Tracker, payer: Address, events: seq<Event>, news: map<Address, bool>) returns (s: FirstPass)
    ensures s.ok == First(t, payer, events, news).ok
    ensures s.ok ==> s == First(t, payer, events, news)
  {
    hide FirstStep;
    s := FirstPass(true, map[], [], news, map[], []);
    for i := 0 to |events|
      invariant s.ok && s == First(t, payer, events[..i], news)
    {
      assert events[..i + 1][..i] == events[..i];
      s := FirstTurn(t, payer, s, events[i]);
      if !s.ok {
        FirstStaysFailed(t, payer, events, news, i + 1);
        return;
      }
    }
    assert events[..|events|] == events;
  }

  /** evtloop2: token events, classified with the final new accounts. */
  method SecondLoop(t: Tracker, news: map<Address, bool>, events: seq<Event>) returns (s: SecondPass)
    ensures s == Second(t, news, events)
  {
    var deposits: Amounts, withdrawals: Amounts, fees: uint64 := map[], map[], 0;
    for i := 0 to |events|
      invariant SecondPass(deposits, withdrawals, fees) == Second(t, news, events[..i])
    {
      assert events[..i + 1][..i] == events[..i];
      match events[i] {
        case TokensDeposited(amount, target) =>
          if target.Some? {
            var receiver := target.value;
            if receiver in t.feeAddrs {
              fees := ToUint64(fees + amount);
            } else if t.IsTracked(receiver, news) && !t.IsProxy(receiver, news) {
              deposits := Plus(deposits, receiver, amount);
            }
          }
        case TokensWithdrawn(amount, source) =>
          if source.Some? {
            var sender := source.value;
            if t.IsTracked(sender, news) && !t.IsProxy(sender, news) {
              withdrawals := Plus(withdrawals, sender, amount);
            }
          }
        case _ =>
      }
    }
    assert events[..|events|] == events;
    s := SecondPass(deposits, withdrawals, fees);
  }

  method CreateLoop(keys: map<Address, Option<PublicKey>>, addrs: seq<Address>) returns (ops: seq<Operation>)
    ensures ops == CreateOps(keys, addrs)
  {
    ops := [];
    for i := 0 to |addrs|
      invariant ops == CreateOps(keys, addrs[..i])
    {
      assert addrs[..i + 1][..i] == addrs[..i];
      ops := ops + [CreateOp(keys, addrs[i])];
    }
    assert addrs[..|addrs|] == addrs;
  }

  lemma {:induction false} MatchStaysFailed(
      t: Tracker, news: map<Address, bool>, n: Netting, moves: seq<ProxyMove>, i: nat)
    requires i <= |moves| && !MatchMoves(t, news, n, moves[..i]).ok
    ensures !MatchMoves(t, news, n, moves).ok
    decreases |moves| - i
  {
    if i == |moves| {
      assert moves[..i] == moves;
    } else {
      assert moves[..i + 1][..i] == moves[..i];
      MatchStaysFailed(t, news, n, moves, i + 1);
    }
  }

  /** One turn of the loop over the proxy transfers. Neither subtraction underflows. */
  method MatchTurn(t: Tracker, news: map<Address, bool>, n: Netting, m: ProxyMove) returns (n': Netting)
    requires n.ok
    ensures n' == MatchMove(t, news, n, m)
  {
    hide At, Minus;
    n' := n;
    if m.amount == 0 {
      return;
    }
    if m.receiver.Some? {
      var r := m.receiver.value;
      if t.IsProxy(r, news) {
        if m.amount > At(n'.proxyDeposits, r) {
          return n.(ok := false);
        }
        n' := n'.(proxyDeposits := Minus(n'.proxyDeposits, r, m.amount));
      } else {
        if m.amount > At(n'.deposits, r) {
          return n.(ok := false);
        }
        n' := n'.(deposits := Minus(n'.deposits, r, m.amount));
      }
    }
    n' := n'.(ops := n'.ops + [MoveOp(m)]);
  }

  /** Match every proxy transfer with the deposit it caused. */
  method MatchLoop(t: Tracker, news: map<Address, bool>, n: Netting, moves: seq<ProxyMove>) returns (n': Netting)
    requires n.ok
    ensures n'.ok == MatchMoves(t, news, n, moves).ok
    ensures n'.ok ==> n' == MatchMoves(t, news, n, moves)
  {
    hide MatchMove;
    n' := n;
    for i := 0 to |moves|
      invariant n'.ok && n' == MatchMoves(t, news, n, moves[..i])
    {
      assert moves[..i + 1][..i] == moves[..i];
      n' := MatchTurn(t, news, n', moves[i]);
      if !n'.ok {
        MatchStaysFailed(t, news, n, moves, i + 1);
        return;
      }
    }
    assert moves[..|moves|] == moves;
  }

  /** The range loops over the remaining maps, in whatever order Go picks. */
  method DepositLoop(rem: Amounts) returns (ops: seq<Operation>, ghost order: seq<Address>)
    ensures IsOrder(order, rem) && ops == DepositOps(order, rem)
  {
    ops, order := [], [];
    var rest := rem.Keys;
    while rest != {}
      invariant forall i, j :: 0 <= i < j < |order| ==> order[i] != order[j]
      invariant rest <= rem.Keys && forall a :: a in order <==> a in rem && a !in rest
      invariant ops == DepositOps(order, rem)
      decreases rest
    {
      var a :| a in rest;
      rest := rest - {a};
      ops := ops + [DepositOp(a, rem[a])];
      order := order + [a];
      assert order[..|order| - 1] + [a] == order;
    }
  }

  method WithdrawalLoop(rem: Amounts) returns (ops: seq<Operation>, ghost order: seq<Address>)
    ensures IsOrder(order, rem) && ops == WithdrawalOps(order, rem)
  {
    ops, order := [], [];
    var rest := rem.Keys;
    while rest != {}
      invariant forall i, j :: 0 <= i < j < |order| ==> order[i] != order[j]
      invariant rest <= rem.Keys && forall a :: a in order <==> a in rem && a !in rest
      invariant ops == WithdrawalOps(order, rem)
      decreases rest
    {
      var a :| a in rest;
      rest := rest - {a};
      ops := ops + [WithdrawalOp(a, rem[a])];
      order := order + [a];
      assert order[..|order| - 1] + [a] == order;
    }
  }

  /** A loop that copies a map's positive amounts over those collected so far. */
  function Visited(m: Amounts, rest: set<Address>): Amounts {
    map a | a in m && a !in rest :: m[a]
  }

  lemma {:induction false} PositiveOneMore(m: Amounts, rest: set<Address>, a: Address)
    requires a in rest && a in m
    ensures Positive(Visited(m, rest - {a})) ==
            (var before := Positive(Visited(m, rest)); if m[a] > 0 then before[a := m[a]] else before)
  {
  }

  method KeepPositive(m: Amounts, rem: Amounts) returns (rem': Amounts)
    ensures rem' == rem + Positive(m)
  {
    rem' := rem;
    var rest := m.Keys;
    while rest != {}
      invariant rest <= m.Keys
      invariant rem' == rem + Positive(Visited(m, rest))
      decreases rest
    {
      var a :| a in rest;
      PositiveOneMore(m, rest, a);
      rest := rest - {a};
      hide Positive, Visited;
      if m[a] > 0 {
        rem' := rem'[a := m[a]];
      }
    }
    assert Visited(m, {}) == m;
  }

  /** Merge what remains: one matched transfer, or single-sided operations. */
  method MergeRemaining(deposits: Amounts, proxyDeposits: Amounts, withdrawals: Amounts) returns (tail: seq<Operation>)
    ensures IsTail(tail, Positive(deposits) + Positive(proxyDeposits), Positive(withdrawals))
  {
    hide IsTail;
    var remDeposits := KeepPositive(deposits, map[]);
    remDeposits := KeepPositive(proxyDeposits, remDeposits);
    var remWithdrawals := KeepPositive(withdrawals, map[]);
    tail := EmitRemaining(remDeposits, remWithdrawals);
    assert map[] + Positive(deposits) == Positive(deposits) && map[] + Positive(withdrawals) == Positive(withdrawals);
  }

  method EmitRemaining(remDeposits: Amounts, remWithdrawals: Amounts) returns (tail: seq<Operation>)
    ensures IsTail(tail, remDeposits, remWithdrawals)
  {
    if |remDeposits| == 1 && |remWithdrawals| == 1 {
      assert remDeposits.Keys != {} && remWithdrawals.Keys != {};
      var receiver :| receiver in remDeposits;
      var sender :| sender in remWithdrawals;
      if remDeposits[receiver] == remWithdrawals[sender] {
        return [Move(Transfer, Some(sender), remDeposits[receiver], Some(receiver))];
      }
      forall r, s | r in remDeposits && s in remWithdrawals ensures remDeposits[r] != remWithdrawals[s] {
        SingletonMap(remDeposits, receiver, r);
        SingletonMap(remWithdrawals, sender, s);
      }
    }
    assert !OneToOne(remDeposits, remWithdrawals);
    var d, dOrder := DepositLoop(remDeposits);
    var w, wOrder := WithdrawalLoop(remWithdrawals);
    tail := d + w;
  }

  /** One transaction of processBlock: its operations and the updated new accounts. */
  method TranslateTransaction(t: Tracker, payer: Address, events: seq<Event>, news: map<Address, bool>)
    returns (ok: bool, ops: seq<Operation>, news': map<Address, bool>)
    ensures ok == Net(t, payer, events, news).ok
    ensures ok ==> Translates(t, payer, events, news, ops) && news' == First(t, payer, events, news).news
  {
    ok, ops, news' := false, [], news;
    var first := FirstLoop(t, payer, events, news);
    if !first.ok {
      FailedFirstFails(t, payer, events, news);
      return;
    }
    var second := SecondLoop(t, first.news, events);
    var creates := CreateLoop(first.keys, first.addrs);
    var n := Netting(true, creates, second.deposits, first.proxyDeposits, second.withdrawals);
    var charged := ChargeFee(t, payer, first.news, second.fees, n);
    if !charged.ok {
      FailedMatchFails(t, first.news, charged, first.moves);
      return;
    }
    var matched := MatchLoop(t, first.news, charged, first.moves);
    if !matched.ok {
      return;
    }
    var tail := MergeRemaining(matched.deposits, matched.proxyDeposits, matched.withdrawals);
    ok, ops, news' := true, matched.ops + tail, first.news;
    assert ops[|matched.ops|..] == tail;
  }

  lemma {:induction false} FailedMatchFails(t: Tracker, news: map<Address, bool>, n: Netting, moves: seq<ProxyMove>)
    requires !n.ok
    ensures !MatchMoves(t, news, n, moves).ok
  {
    assert moves[..0] == [];
    MatchStaysFailed(t, news, n, moves, 0);
  }

  lemma {:induction false} FailedFirstFails(t: Tracker, payer: Address, events: seq<Event>, news: map<Address, bool>)
    requires !First(t, payer, events, news).ok
    ensures !Net(t, payer, events, news).ok
  {
    var first := First(t, payer, events, news);
    var second := Second(t, first.news, events);
    var n := Netting(first.ok, CreateOps(first.keys, first.addrs), second.deposits, first.proxyDeposits,
                     second.withdrawals);
    FailedMatchFails(t, first.news, ChargeFee(t, payer, first.news, second.fees, n), first.moves);
  }
}
