/** Translating the events of a transaction into operations: the two event
    passes, the netting that follows them, and the conservation law it obeys. */
module Translate {
  import opened Prelude
  import opened Bytes
  import opened Model

  type PublicKey = s: ByteString | |s| == 33 witness seq(33, _ => 0)

  /** A decoded event. */
  datatype Event =
    | AccountCreated(address: Address)
    | ProxyCreated(account: Address, publicKey: Option<PublicKey>) // None: the fields do not yield a key
    | ProxyDeposited(account: Address, amount: uint64)
    | ProxyTransferred(source: Option<Address>, receiver: Address, amount: uint64)
    | TokensDeposited(amount: uint64, target: Option<Address>)
    | TokensWithdrawn(amount: uint64, source: Option<Address>)
    | Undecodable // of one of the types above, but with a bad payload
    | Irrelevant

  /** The accounts the indexer follows. */
  datatype Tracker = Tracker(accts: map<Address, bool>, originators: set<Address>, feeAddrs: set<Address>) {
    predicate IsProxy(a: Address, news: map<Address, bool>) {
      if a in accts then accts[a] else a in news && news[a]
    }

    predicate IsTracked(a: Address, news: map<Address, bool>) {
      a in accts || a in news || a in originators
    }
  }

  type Amounts = map<Address, uint64>

  function At(m: Amounts, a: Address): uint64 {
    if a in m then m[a] else 0
  }

  /** `m[a] += amount` on a Go map of uint64. */
  function Plus(m: Amounts, a: Address, amount: uint64): Amounts {
    m[a := ToUint64(At(m, a) + amount)]
  }

  // ---- First pass: creations and proxy events ----

  datatype ProxyMove = ProxyMove(sender: Address, amount: uint64, receiver: Option<Address>)

  datatype FirstPass = FirstPass(
    ok: bool,
    keys: map<Address, Option<PublicKey>>,
    addrs: seq<Address>,
    news: map<Address, bool>,
    proxyDeposits: Amounts,
    moves: seq<ProxyMove>)

  /** A nil `from` leaves the zero address in the sender variable. */
  function SenderOf(source: Option<Address>): Address {
    if source.Some? then source.value else ZERO_ADDRESS
  }

  function FirstStep(t: Tracker, payer: Address, s: FirstPass, e: Event): FirstPass {
    if !s.ok then s else
    match e
    case AccountCreated(addr) =>
      if addr in t.originators || t.IsTracked(payer, s.news) then
        s.(keys := s.keys[addr := None], addrs := s.addrs + [addr], news := s.news[addr := false])
      else s
    case ProxyCreated(account, key) =>
      if !t.IsTracked(payer, s.news) then s
      else if account !in s.keys || key.None? then s.(ok := false)
      else s.(keys := s.keys[account := key], news := s.news[account := true])
    case ProxyDeposited(account, amount) =>
      if t.IsProxy(account, s.news) then s.(proxyDeposits := Plus(s.proxyDeposits, account, amount)) else s
    case ProxyTransferred(source, receiver, amount) =>
      var sender := SenderOf(source);
      if t.IsProxy(sender, s.news) then
        var target := if t.IsTracked(receiver, s.news) then Some(receiver) else None;
        s.(moves := s.moves + [ProxyMove(sender, amount, target)])
      else s
    case Undecodable => s.(ok := false)
    case _ => s
  }

  function First(t: Tracker, payer: Address, events: seq<Event>, news: map<Address, bool>): FirstPass {
    if events == [] then FirstPass(true, map[], [], news, map[], [])
    else FirstStep(t, payer, First(t, payer, events[..|events| - 1], news), events[|events| - 1])
  }

  // ---- Second pass: token events ----

  datatype SecondPass = SecondPass(deposits: Amounts, withdrawals: Amounts, fees: uint64)

  /** Token movements count for tracked accounts that are not proxies. */
  predicate CountsTokens(t: Tracker, news: map<Address, bool>, a: Address) {
    t.IsTracked(a, news) && !t.IsProxy(a, news)
  }

  function SecondStep(t: Tracker, news: map<Address, bool>, s: SecondPass, e: Event): SecondPass {
    match e
    case TokensDeposited(amount, Some(receiver)) =>
      if receiver in t.feeAddrs then s.(fees := ToUint64(s.fees + amount))
      else if CountsTokens(t, news, receiver) then s.(deposits := Plus(s.deposits, receiver, amount))
      else s
    case TokensWithdrawn(amount, Some(sender)) =>
      if CountsTokens(t, news, sender) then s.(withdrawals := Plus(s.withdrawals, sender, amount)) else s
    case _ => s
  }

  function Second(t: Tracker, news: map<Address, bool>, events: seq<Event>): SecondPass {
    if events == [] then SecondPass(map[], map[], 0)
    else SecondStep(t, news, Second(t, news, events[..|events| - 1]), events[|events| - 1])
  }

  // ---- Netting ----

  /** The operations emitted so far and the amounts still to be explained. */
  datatype Netting = Netting(
      ok: bool, ops: seq<Operation>, deposits: Amounts, proxyDeposits: Amounts, withdrawals: Amounts)

  function CreateOp(keys: map<Address, Option<PublicKey>>, a: Address): Operation {
    CreateAccount(a, if a in keys && keys[a].Some? then keys[a].value else [])
  }

  function CreateOps(keys: map<Address, Option<PublicKey>>, addrs: seq<Address>): seq<Operation> {
    if addrs == [] then []
    else CreateOps(keys, addrs[..|addrs| - 1]) + [CreateOp(keys, addrs[|addrs| - 1])]
  }

  function ChargeFee(t: Tracker, payer: Address, news: map<Address, bool>, fees: uint64, n: Netting): Netting {
    if !n.ok || !t.IsTracked(payer, news) || fees == 0 then n
    else if fees > At(n.withdrawals, payer) then n.(ok := false)
    else Netting(true, n.ops + [Move(Fee, Some(payer), fees, None)], n.deposits, n.proxyDeposits,
                 Minus(n.withdrawals, payer, fees))
  }

  function Minus(m: Amounts, a: Address, amount: uint64): Amounts
    requires amount <= At(m, a)
  {
    m[a := At(m, a) - amount]
  }

  function MoveOp(m: ProxyMove): Operation {
    Move(ProxyTransfer, Some(m.sender), m.amount, m.receiver)
  }

  function MatchMove(t: Tracker, news: map<Address, bool>, n: Netting, m: ProxyMove): Netting {
    if !n.ok || m.amount == 0 then n
    else if m.receiver.None? then Netting(true, n.ops + [MoveOp(m)], n.deposits, n.proxyDeposits, n.withdrawals)
    else
      var r := m.receiver.value;
      if t.IsProxy(r, news) then
        if m.amount > At(n.proxyDeposits, r) then n.(ok := false)
        else Netting(true, n.ops + [MoveOp(m)], n.deposits, Minus(n.proxyDeposits, r, m.amount), n.withdrawals)
      else
        if m.amount > At(n.deposits, r) then n.(ok := false)
        else Netting(true, n.ops + [MoveOp(m)], Minus(n.deposits, r, m.amount), n.proxyDeposits, n.withdrawals)
  }

  function MatchMoves(t: Tracker, news: map<Address, bool>, n: Netting, moves: seq<ProxyMove>): Netting {
    if moves == [] then n
    else MatchMove(t, news, MatchMoves(t, news, n, moves[..|moves| - 1]), moves[|moves| - 1])
  }

  /** Everything up to the merge of the remaining deposits and withdrawals. */
  function Net(t: Tracker, payer: Address, events: seq<Event>, news: map<Address, bool>): Netting {
    var first := First(t, payer, events, news);
    var second := Second(t, first.news, events);
    var n := Netting(first.ok, CreateOps(first.keys, first.addrs), second.deposits, first.proxyDeposits,
                     second.withdrawals);
    MatchMoves(t, first.news, ChargeFee(t, payer, first.news, second.fees, n), first.moves)
  }

  function Positive(m: Amounts): Amounts {
    map a | a in m && m[a] > 0 :: m[a]
  }

  function DepositOp(a: Address, amount: uint64): Operation {
    Move(Transfer, None, amount, Some(a))
  }

  function WithdrawalOp(a: Address, amount: uint64): Operation {
    Move(Transfer, Some(a), amount, None)
  }

  /** One possible iteration order of a Go map. */
  ghost predicate IsOrder(order: seq<Address>, m: Amounts) {
    && (forall i, j :: 0 <= i < j < |order| ==> order[i] != order[j])
    && (forall a :: a in order <==> a in m)
  }

  function DepositOps(order: seq<Address>, rem: Amounts): seq<Operation> {
    if order == [] then []
    else DepositOps(order[..|order| - 1], rem) + [DepositOp(order[|order| - 1], At(rem, order[|order| - 1]))]
  }

  function WithdrawalOps(order: seq<Address>, rem: Amounts): seq<Operation> {
    if order == [] then []
    else WithdrawalOps(order[..|order| - 1], rem) + [WithdrawalOp(order[|order| - 1], At(rem, order[|order| - 1]))]
  }

  /** A single sender and a single receiver of equal amounts become one transfer. */
  ghost predicate OneToOne(remDeposits: Amounts, remWithdrawals: Amounts) {
    |remDeposits| == 1 && |remWithdrawals| == 1 &&
    exists r, s :: r in remDeposits && s in remWithdrawals && remDeposits[r] == remWithdrawals[s]
  }

  /** The final operations, for some iteration order of the Go maps. */
  ghost predicate IsTail(tail: seq<Operation>, remDeposits: Amounts, remWithdrawals: Amounts) {
    if OneToOne(remDeposits, remWithdrawals) then
      exists r, s :: r in remDeposits && s in remWithdrawals &&
        tail == [Move(Transfer, Some(s), remDeposits[r], Some(r))]
    else
      exists d, w :: IsOrder(d, remDeposits) && IsOrder(w, remWithdrawals) &&
        tail == DepositOps(d, remDeposits) + WithdrawalOps(w, remWithdrawals)
  }

  /** The transaction is accepted with these operations. */
  ghost predicate Translates(
      t: Tracker, payer: Address, events: seq<Event>, news: map<Address, bool>, ops: seq<Operation>) {
    var n := Net(t, payer, events, news);
    n.ok && n.ops <= ops &&
    IsTail(ops[|n.ops|..], Positive(n.deposits) + Positive(n.proxyDeposits), Positive(n.withdrawals))
  }

  // ---- Conservation through the netting ----

  /** What the emitted operations and the open amounts together do to account a. */
  function Worth(n: Netting, a: Address): int {
    Effect(n.ops, a) + At(n.deposits, a) + At(n.proxyDeposits, a) - At(n.withdrawals, a)
  }

  /** The total of the proxy moves out of account a. */
  function Sent(moves: seq<ProxyMove>, a: Address): int {
    if moves == [] then 0
    else Sent(moves[..|moves| - 1], a) + (if moves[|moves| - 1].sender == a then moves[|moves| - 1].amount else 0)
  }

  lemma {:induction false} EffectOfAppend(ops: seq<Operation>, op: Operation, a: Address)
    ensures Effect(ops + [op], a) == Effect(ops, a) + OpEffect(op, a)
  {
    assert (ops + [op])[..|ops|] == ops;
  }

  lemma {:induction false} CreateOpsHaveNoEffect(keys: map<Address, Option<PublicKey>>, addrs: seq<Address>, a: Address)
    ensures Effect(CreateOps(keys, addrs), a) == 0
  {
    if addrs != [] {
      CreateOpsHaveNoEffect(keys, addrs[..|addrs| - 1], a);
      EffectOfAppend(CreateOps(keys, addrs[..|addrs| - 1]), CreateOp(keys, addrs[|addrs| - 1]), a);
    }
  }

  /** Splitting off the fee keeps every account's worth. */
  lemma {:induction false} ChargeFeeConserves(
      t: Tracker, payer: Address, news: map<Address, bool>, fees: uint64, n: Netting, a: Address)
    requires ChargeFee(t, payer, news, fees, n).ok
    ensures Worth(ChargeFee(t, payer, news, fees, n), a) == Worth(n, a)
  {
    hide Effect, At, Minus;
    EffectOfAppend(n.ops, Move(Fee, Some(payer), fees, None), a);
    MinusAt(n.withdrawals, payer, fees, a);
  }

  lemma {:induction false} MinusAt(m: Amounts, b: Address, amount: uint64, a: Address)
    ensures amount <= At(m, b) ==> At(Minus(m, b, amount), a) == At(m, a) - (if a == b then amount else 0)
  {
  }

  lemma {:induction false} MatchMoveConserves(
      t: Tracker, news: map<Address, bool>, n: Netting, m: ProxyMove, a: Address)
    requires MatchMove(t, news, n, m).ok
    ensures Worth(MatchMove(t, news, n, m), a) == Worth(n, a) - (if m.sender == a then m.amount else 0)
  {
    hide Effect, At, Minus, MatchMove;
    MatchMoveParts(t, news, n, m, a);
    EffectOfAppend(n.ops, MoveOp(m), a);
  }

  /** A matched move is emitted and taken from what is open to its receiver. */
  lemma {:induction false} MatchMoveParts(t: Tracker, news: map<Address, bool>, n: Netting, m: ProxyMove, a: Address)
    requires MatchMove(t, news, n, m).ok
    ensures var n' := MatchMove(t, news, n, m);
            && n'.ops == (if m.amount == 0 then n.ops else n.ops + [MoveOp(m)]) && n'.withdrawals == n.withdrawals
            && At(n'.deposits, a) + At(n'.proxyDeposits, a) ==
               At(n.deposits, a) + At(n.proxyDeposits, a) - (if m.receiver == Some(a) then m.amount else 0)
  {
    hide At, Minus;
    if m.receiver.Some? {
      MinusAt(n.deposits, m.receiver.value, m.amount, a);
      MinusAt(n.proxyDeposits, m.receiver.value, m.amount, a);
    }
  }

  lemma {:induction false} MatchMovesConserves(
      t: Tracker, news: map<Address, bool>, n: Netting, moves: seq<ProxyMove>, a: Address)
    requires MatchMoves(t, news, n, moves).ok
    ensures Worth(MatchMoves(t, news, n, moves), a) == Worth(n, a) - Sent(moves, a)
  {
    if moves != [] {
      var m := moves[|moves| - 1];
      MatchMoveConserves(t, news, MatchMoves(t, news, n, moves[..|moves| - 1]), m, a);
      MatchMovesConserves(t, news, n, moves[..|moves| - 1], a);
    }
  }

  lemma {:induction false} DepositsEffect(order: seq<Address>, rem: Amounts, a: Address)
    requires forall i, j :: 0 <= i < j < |order| ==> order[i] != order[j]
    ensures Effect(DepositOps(order, rem), a) == if a in order then At(rem, a) else 0
  {
    if order != [] {
      var shorter, b := order[..|order| - 1], order[|order| - 1];
      assert order == shorter + [b] && b !in shorter;
      DepositsEffect(shorter, rem, a);
      EffectOfAppend(DepositOps(shorter, rem), DepositOp(b, At(rem, b)), a);
    }
  }

  lemma {:induction false} WithdrawalsEffect(order: seq<Address>, rem: Amounts, a: Address)
    requires forall i, j :: 0 <= i < j < |order| ==> order[i] != order[j]
    ensures Effect(WithdrawalOps(order, rem), a) == if a in order then 0 - At(rem, a) else 0
  {
    if order != [] {
      var shorter, b := order[..|order| - 1], order[|order| - 1];
      assert order == shorter + [b] && b !in shorter;
      WithdrawalsEffect(shorter, rem, a);
      EffectOfAppend(WithdrawalOps(shorter, rem), WithdrawalOp(b, At(rem, b)), a);
    }
  }

  lemma {:induction false} SingletonMap(m: Amounts, k: Address, a: Address)
    requires |m| == 1 && k in m && a in m
    ensures a == k
  {
    assert |m.Keys - {k}| == 0;
    assert a != k ==> a in m.Keys - {k};
  }

  /** Whatever the iteration order, the tail explains exactly what remains. */
  lemma {:induction false} TailEffect(tail: seq<Operation>, remDeposits: Amounts, remWithdrawals: Amounts, a: Address)
    requires IsTail(tail, remDeposits, remWithdrawals)
    ensures Effect(tail, a) == At(remDeposits, a) - At(remWithdrawals, a)
  {
    if OneToOne(remDeposits, remWithdrawals) {
      var r, s :| r in remDeposits && s in remWithdrawals && tail == [Move(Transfer, Some(s), remDeposits[r], Some(r))];
      var r', s' :| r' in remDeposits && s' in remWithdrawals && remDeposits[r'] == remWithdrawals[s'];
      SingletonMap(remDeposits, r, r');
      SingletonMap(remWithdrawals, s, s');
      if a in remDeposits {
        SingletonMap(remDeposits, r, a);
      }
      if a in remWithdrawals {
        SingletonMap(remWithdrawals, s, a);
      }
      EffectOfOne(tail[0], a);
    } else {
      var d, w :| IsOrder(d, remDeposits) && IsOrder(w, remWithdrawals) &&
        tail == DepositOps(d, remDeposits) + WithdrawalOps(w, remWithdrawals);
      DepositsEffect(d, remDeposits, a);
      WithdrawalsEffect(w, remWithdrawals, a);
      EffectOfConcat(DepositOps(d, remDeposits), WithdrawalOps(w, remWithdrawals), a);
    }
  }

  /** What the two passes leave to be explained for account a. */
  function Open(t: Tracker, payer: Address, events: seq<Event>, news: map<Address, bool>, a: Address): int {
    var first := First(t, payer, events, news);
    var second := Second(t, first.news, events);
    At(second.deposits, a) + At(first.proxyDeposits, a) - At(second.withdrawals, a) - Sent(first.moves, a)
  }

  lemma {:induction false} NetConserves(
      t: Tracker, payer: Address, events: seq<Event>, news: map<Address, bool>, a: Address)
    requires Net(t, payer, events, news).ok
    ensures Worth(Net(t, payer, events, news), a) == Open(t, payer, events, news, a)
  {
    var first := First(t, payer, events, news);
    var second := Second(t, first.news, events);
    var n0 := Netting(first.ok, CreateOps(first.keys, first.addrs), second.deposits, first.proxyDeposits,
                      second.withdrawals);
    var n1 := ChargeFee(t, payer, first.news, second.fees, n0);
    MatchMovesNeedOk(t, first.news, n1, first.moves);
    MatchMovesConserves(t, first.news, n1, first.moves, a);
    ChargeFeeConserves(t, payer, first.news, second.fees, n0, a);
    CreateOpsHaveNoEffect(first.keys, first.addrs, a);
  }

  lemma {:induction false} PositiveKeepsAmounts(m: Amounts, m': Amounts, a: Address)
    ensures At(Positive(m) + Positive(m'), a) == if At(m', a) > 0 then At(m', a) else At(m, a)
    ensures At(Positive(m), a) == At(m, a)
  {
  }

  /** The merge of the two kinds of deposit overwrites, so it loses exactly the
      plain deposits of an account that still has proxy deposits as well. */
  lemma {:induction false} NettingIsExact(
      t: Tracker, payer: Address, events: seq<Event>, news: map<Address, bool>, ops: seq<Operation>, a: Address)
    requires Translates(t, payer, events, news, ops)
    ensures var n := Net(t, payer, events, news);
            Effect(ops, a) ==
            Open(t, payer, events, news, a) - (if At(n.proxyDeposits, a) > 0 then At(n.deposits, a) else 0)
  {
    var n := Net(t, payer, events, news);
    NetConserves(t, payer, events, news, a);
    var tail := ops[|n.ops|..];
    assert ops == n.ops + tail;
    EffectOfConcat(n.ops, tail, a);
    TailEffect(tail, Positive(n.deposits) + Positive(n.proxyDeposits), Positive(n.withdrawals), a);
    PositiveKeepsAmounts(n.deposits, n.proxyDeposits, a);
    PositiveKeepsAmounts(n.withdrawals, map[], a);
  }

  lemma {:induction false} MatchMovesNeedOk(t: Tracker, news: map<Address, bool>, n: Netting, moves: seq<ProxyMove>)
    ensures MatchMoves(t, news, n, moves).ok ==> n.ok
  {
    if moves != [] {
      MatchMovesNeedOk(t, news, n, moves[..|moves| - 1]);
    }
  }

  // ---- Iteration order ----

  lemma {:induction false} DepositsMultiset(order: seq<Address>, rem: Amounts, op: Operation)
    requires forall i, j :: 0 <= i < j < |order| ==> order[i] != order[j]
    ensures multiset(DepositOps(order, rem))[op] ==
            if op.Move? && op.receiver.Some? && op.receiver.value in order &&
               op == DepositOp(op.receiver.value, At(rem, op.receiver.value)) then 1 else 0
  {
    if order != [] {
      var shorter, b := order[..|order| - 1], order[|order| - 1];
      assert order == shorter + [b] && b !in shorter;
      DepositsMultiset(shorter, rem, op);
    }
  }

  lemma {:induction false} WithdrawalsMultiset(order: seq<Address>, rem: Amounts, op: Operation)
    requires forall i, j :: 0 <= i < j < |order| ==> order[i] != order[j]
    ensures multiset(WithdrawalOps(order, rem))[op] ==
            if op.Move? && op.sender.Some? && op.sender.value in order &&
               op == WithdrawalOp(op.sender.value, At(rem, op.sender.value)) then 1 else 0
  {
    if order != [] {
      var shorter, b := order[..|order| - 1], order[|order| - 1];
      assert order == shorter + [b] && b !in shorter;
      WithdrawalsMultiset(shorter, rem, op);
    }
  }

  lemma {:induction false} TailMultiset(
      tail: seq<Operation>, tail': seq<Operation>, remDeposits: Amounts, remWithdrawals: Amounts)
    requires IsTail(tail, remDeposits, remWithdrawals) && IsTail(tail', remDeposits, remWithdrawals)
    ensures multiset(tail) == multiset(tail')
  {
    if OneToOne(remDeposits, remWithdrawals) {
      var r, s :| r in remDeposits && s in remWithdrawals && tail == [Move(Transfer, Some(s), remDeposits[r], Some(r))];
      var r', s' :| r' in remDeposits && s' in remWithdrawals &&
          tail' == [Move(Transfer, Some(s'), remDeposits[r'], Some(r'))];
      SingletonMap(remDeposits, r, r');
      SingletonMap(remWithdrawals, s, s');
    } else {
      var d, w :| IsOrder(d, remDeposits) && IsOrder(w, remWithdrawals) &&
        tail == DepositOps(d, remDeposits) + WithdrawalOps(w, remWithdrawals);
      var d', w' :| IsOrder(d', remDeposits) && IsOrder(w', remWithdrawals) &&
        tail' == DepositOps(d', remDeposits) + WithdrawalOps(w', remWithdrawals);
      SameOrders(d, d', w, w', remDeposits, remWithdrawals);
    }
  }

  lemma {:induction false} SameOrders(d: seq<Address>, d': seq<Address>, w: seq<Address>, w': seq<Address>,
                                      remDeposits: Amounts, remWithdrawals: Amounts)
    requires IsOrder(d, remDeposits) && IsOrder(d', remDeposits) && IsOrder(w, remWithdrawals) &&
             IsOrder(w', remWithdrawals)
    ensures multiset(DepositOps(d, remDeposits) + WithdrawalOps(w, remWithdrawals)) ==
            multiset(DepositOps(d', remDeposits) + WithdrawalOps(w', remWithdrawals))
  {
    hide DepositOps, WithdrawalOps, At;
    forall op ensures multiset(DepositOps(d, remDeposits))[op] == multiset(DepositOps(d', remDeposits))[op] {
      DepositsMultiset(d, remDeposits, op);
      DepositsMultiset(d', remDeposits, op);
    }
    forall op ensures multiset(WithdrawalOps(w, remWithdrawals))[op] ==
        multiset(WithdrawalOps(w', remWithdrawals))[op] {
      WithdrawalsMultiset(w, remWithdrawals, op);
      WithdrawalsMultiset(w', remWithdrawals, op);
    }
  }

  /** Map iteration order changes at most the order of the emitted operations. */
  lemma {:induction false} OrderDoesNotMatter(t: Tracker, payer: Address, events: seq<Event>, news: map<Address, bool>,
                                              ops: seq<Operation>, ops': seq<Operation>)
    requires Translates(t, payer, events, news, ops) && Translates(t, payer, events, news, ops')
    ensures multiset(ops) == multiset(ops')
  {
    hide Net, IsTail;
    var n := Net(t, payer, events, news);
    SamePrefix(n.ops, ops, ops', Positive(n.deposits) + Positive(n.proxyDeposits), Positive(n.withdrawals));
  }

  lemma {:induction false} SamePrefix(fixed: seq<Operation>, ops: seq<Operation>, ops': seq<Operation>,
                                      remDeposits: Amounts, remWithdrawals: Amounts)
    requires fixed <= ops && IsTail(ops[|fixed|..], remDeposits, remWithdrawals)
    requires fixed <= ops' && IsTail(ops'[|fixed|..], remDeposits, remWithdrawals)
    ensures multiset(ops) == multiset(ops')
  {
    hide IsTail;
    TailMultiset(ops[|fixed|..], ops'[|fixed|..], remDeposits, remWithdrawals);
    assert ops == fixed + ops[|fixed|..] && ops' == fixed + ops'[|fixed|..];
  }
}
