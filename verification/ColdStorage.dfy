/** The FlowColdStorageProxy contract: vaults that pay out only against
    consecutively numbered signed messages, and the events they emit. */
module ColdStorage {
  import opened Prelude
  import opened Bytes
  import opened Model
  import opened Translate
  import opened Flows
  import opened Ledger
  import opened InnerTransaction
  import Signatures

  /** Whether a signature of these bytes is valid under a key. */
  type Verifier = (PublicKey, ByteString, ByteString) -> bool

  datatype Vault = Vault(lastNonce: int64, balance: uint64, publicKey: PublicKey)

  /** The vaults by owner, and the other accounts that can receive tokens. */
  datatype State = State(vaults: map<Address, Vault>, holders: set<Address>) {
    predicate Exists(a: Address) {
      a in vaults || a in holders
    }
  }

  /** What a transaction can do, the last two without the contract. */
  datatype Call =
    | SetUp(account: Address, publicKey: PublicKey)
    | Deposit(owner: Address, amount: uint64)
    | Transfer(owner: Address, receiver: Address, amount: uint64, nonce: int64, sig: ByteString)
    | NewAccount(account: Address)
    | Tokens(event: Event)

  datatype Outcome = Reverted | Done(state: State, events: seq<Event>)

  /** setup: a new account whose default receiver is a new vault. */
  function Found(st: State, account: Address, key: PublicKey): Outcome {
    if st.Exists(account) then Reverted
    else Done(st.(vaults := st.vaults[account := Vault(-1, 0, key)]),
              [AccountCreated(account), ProxyCreated(account, Some(key))])
  }

  /** Vault.deposit; UFix64 addition aborts on overflow. */
  function Credit(st: State, owner: Address, amount: uint64): Outcome {
    if owner !in st.vaults || st.vaults[owner].balance + amount >= TWO_64 then Reverted
    else
      var v := st.vaults[owner];
      Done(st.(vaults := st.vaults[owner := v.(balance := v.balance + amount)]),
           [ProxyDeposited(owner, amount), TokensDeposited(amount, Some(owner))])
  }

  /** A deposit through the account's default receiver, which is the vault if there is one. */
  function Receive(st: State, receiver: Address, amount: uint64): Outcome {
    if receiver in st.vaults then Credit(st, receiver, amount)
    else if receiver in st.holders then Done(st, [TokensDeposited(amount, Some(receiver))])
    else Reverted
  }

  /** The nonce check; Int64 addition aborts on overflow. */
  predicate NonceFollows(v: Vault, nonce: int64) {
    v.lastNonce < TWO_63 - 1 && nonce == v.lastNonce + 1
  }

  /** The withdrawal, the receiver's deposit (which does not call back), the new nonce. */
  function Pay(st: State, owner: Address, receiver: Address, amount: uint64, nonce: int64): Outcome
    requires owner in st.vaults && amount <= st.vaults[owner].balance
  {
    var v := st.vaults[owner];
    var paid := Receive(st.(vaults := st.vaults[owner := v.(balance := v.balance - amount)]), receiver, amount);
    if paid.Reverted? || owner !in paid.state.vaults then Reverted
    else
      var w := paid.state.vaults[owner];
      Done(paid.state.(vaults := paid.state.vaults[owner := w.(lastNonce := nonce)]),
           [TokensWithdrawn(amount, Some(owner))] + paid.events + [ProxyTransferred(Some(owner), receiver, amount)])
  }

  /** Vault.transfer. */
  function Send(
      verify: Verifier, st: State, owner: Address, receiver: Address, amount: uint64, nonce: int64,
      sig: ByteString): Outcome {
    if owner !in st.vaults then Reverted
    else
      var v := st.vaults[owner];
      if !NonceFollows(v, nonce) || !verify(v.publicKey, sig, VerifiedBytes(receiver, amount, nonce))
         || !st.Exists(receiver) || amount > v.balance
      then Reverted
      else Pay(st, owner, receiver, amount, nonce)
  }

  /** A movement of tokens of existing accounts, or an event of some other contract. */
  predicate TokensOf(st: State, e: Event) {
    match e
    case TokensDeposited(_, target) => target.Some? ==> st.Exists(target.value)
    case TokensWithdrawn(_, source) => source.Some? ==> st.Exists(source.value)
    case Irrelevant => true
    case _ => false
  }

  function Step(verify: Verifier, st: State, c: Call): Outcome {
    match c
    case SetUp(account, key) => Found(st, account, key)
    case Deposit(owner, amount) => Credit(st, owner, amount)
    case Transfer(owner, receiver, amount, nonce, sig) => Send(verify, st, owner, receiver, amount, nonce, sig)
    case NewAccount(account) =>
      if st.Exists(account) then Reverted
      else Done(st.(holders := st.holders + {account}), [AccountCreated(account)])
    case Tokens(event) => if TokensOf(st, event) then Done(st, [event]) else Reverted
  }

  /** A transaction: its calls in order, all or nothing. */
  function Run(verify: Verifier, st: State, calls: seq<Call>): Outcome {
    if calls == [] then Done(st, [])
    else
      var before := Run(verify, st, calls[..|calls| - 1]);
      if before.Reverted? then Reverted
      else
        var last := Step(verify, before.state, calls[|calls| - 1]);
        if last.Reverted? then Reverted else Done(last.state, before.events + last.events)
  }

  // ---- The contract's own form ----

  class Contract {
    var vaults: map<Address, Vault>
    var holders: set<Address>
    var log: seq<Event>

    ghost function Current(): State
      reads this
    {
      State(vaults, holders)
    }

    /** The account is fresh: the runtime has just created it. */
    method SetUpVault(account: Address, publicKey: PublicKey)
      requires !Current().Exists(account)
      modifies this
      ensures old(log) <= log && Found(old(Current()), account, publicKey) == Done(Current(), log[|old(log)|..])
    {
      vaults := vaults[account := Vault(-1, 0, publicKey)];
      log := log + [AccountCreated(account), ProxyCreated(account, Some(publicKey))];
    }

    method DepositTo(owner: Address, amount: uint64) returns (ok: bool)
      modifies this
      ensures ok ==> old(log) <= log && Credit(old(Current()), owner, amount) == Done(Current(), log[|old(log)|..])
      ensures !ok ==>
                Credit(old(Current()), owner, amount) == Reverted && Current() == old(Current()) && log == old(log)
    {
      if owner !in vaults || vaults[owner].balance + amount >= TWO_64 {
        return false;
      }
      log := log + [ProxyDeposited(owner, amount)];
      vaults := vaults[owner := vaults[owner].(balance := vaults[owner].balance + amount)];
      log := log + [TokensDeposited(amount, Some(owner))];
      ok := true;
    }

    /** The deposit through the receiver that the account publishes. */
    method DepositAt(receiver: Address, amount: uint64) returns (ok: bool)
      modifies this
      ensures ok ==> old(log) <= log && Receive(old(Current()), receiver, amount) == Done(Current(), log[|old(log)|..])
      ensures ok ==> vaults.Keys == old(vaults.Keys)
      ensures ok ==> forall a :: a in vaults ==> vaults[a].lastNonce == old(vaults)[a].lastNonce
      ensures !ok ==>
                Receive(old(Current()), receiver, amount) == Reverted && Current() == old(Current()) && log == old(log)
    {
      if receiver in vaults {
        ok := DepositTo(receiver, amount);
      } else if receiver in holders {
        log := log + [TokensDeposited(amount, Some(receiver))];
        ok := true;
      } else {
        ok := false;
      }
    }

    /** A panic, wherever it occurs, undoes the whole call. */
    method TransferFrom(
        verify: Verifier, owner: Address, receiver: Address, amount: uint64, nonce: int64, sig: ByteString)
      returns (ok: bool)
      modifies this
      ensures ok ==>
                && old(log) <= log
                && Send(verify, old(Current()), owner, receiver, amount, nonce, sig) ==
                   Done(Current(), log[|old(log)|..])
      ensures !ok ==>
                && Send(verify, old(Current()), owner, receiver, amount, nonce, sig) == Reverted
                && Current() == old(Current()) && log == old(log)
      ensures ok ==> owner in old(vaults) && verify(old(vaults)[owner].publicKey, sig,
                                                    VerifiedBytes(receiver, amount, nonce))
    {
      hide VerifiedBytes, Pay;
      if owner !in vaults || !NonceFollows(vaults[owner], nonce) {
        return false;
      }
      if !verify(vaults[owner].publicKey, sig, VerifiedBytes(receiver, amount, nonce)) {
        return false;
      }
      if receiver !in vaults && receiver !in holders {
        return false;
      }
      if amount > vaults[owner].balance {
        return false;
      }
      ok := PayOut(owner, receiver, amount, nonce);
    }

    method PayOut(owner: Address, receiver: Address, amount: uint64, nonce: int64) returns (ok: bool)
      requires owner in vaults && NonceFollows(vaults[owner], nonce) && amount <= vaults[owner].balance
      modifies this
      ensures ok ==>
                && old(log) <= log
                && Pay(old(Current()), owner, receiver, amount, nonce) == Done(Current(), log[|old(log)|..])
      ensures !ok ==>
                && Pay(old(Current()), owner, receiver, amount, nonce) == Reverted
                && Current() == old(Current()) && log == old(log)
    {
      hide Receive;
      var savedVaults, savedLog := vaults, log;
      vaults := vaults[owner := vaults[owner].(balance := vaults[owner].balance - amount)];
      log := log + [TokensWithdrawn(amount, Some(owner))];
      ok := DepositAt(receiver, amount);
      if !ok {
        vaults, log := savedVaults, savedLog;
        return;
      }
      ghost var receipt := log[|savedLog| + 1..];
      vaults := vaults[owner := vaults[owner].(lastNonce := vaults[owner].lastNonce + 1)];
      log := log + [ProxyTransferred(Some(owner), receiver, amount)];
      assert log[|savedLog|..] == [TokensWithdrawn(amount, Some(owner))] + receipt +
             [ProxyTransferred(Some(owner), receiver, amount)];
    }
  }

  // ---- Balances ----

  function Held(st: State, a: Address): uint64 {
    if a in st.vaults then st.vaults[a].balance else 0
  }

  lemma {:induction false} ProxyFlowOfConcat(x: seq<Event>, y: seq<Event>, a: Address)
    ensures PlainProxyFlow(x + y, a) == PlainProxyFlow(x, a) + PlainProxyFlow(y, a)
  {
    if y == [] {
      assert x + y == x;
    } else {
      ProxyFlowOfConcat(x, y[..|y| - 1], a);
      assert (x + y)[..|x + y| - 1] == x + y[..|y| - 1];
    }
  }

  lemma {:induction false} ProxyFlowOfOne(e: Event, a: Address)
    ensures PlainProxyFlow([e], a) == ProxyFlow(e, a)
  {
    assert [e][..0] == [];
  }

  lemma {:induction false} CreditBalance(st: State, owner: Address, amount: uint64, a: Address)
    requires Credit(st, owner, amount).Done?
    ensures var o := Credit(st, owner, amount);
            && PlainProxyFlow(o.events, a) == (if owner == a then amount else 0)
            && Held(o.state, a) == Held(st, a) + PlainProxyFlow(o.events, a)
  {
    var d, t := ProxyDeposited(owner, amount), TokensDeposited(amount, Some(owner));
    assert [d, t] == [d] + [t];
    ProxyFlowOfConcat([d], [t], a);
    ProxyFlowOfOne(d, a);
    ProxyFlowOfOne(t, a);
  }

  lemma {:induction false} ReceiveBalance(st: State, receiver: Address, amount: uint64, a: Address)
    requires Receive(st, receiver, amount).Done?
    ensures var o := Receive(st, receiver, amount);
            && Held(o.state, a) == Held(st, a) + PlainProxyFlow(o.events, a)
            && o.state.vaults.Keys == st.vaults.Keys
            && forall b :: b in st.vaults ==> o.state.vaults[b].lastNonce == st.vaults[b].lastNonce
  {
    if receiver in st.vaults {
      CreditBalance(st, receiver, amount, a);
    } else {
      ProxyFlowOfOne(TokensDeposited(amount, Some(receiver)), a);
    }
  }

  lemma {:induction false} SendBalance(
      verify: Verifier, st: State, owner: Address, receiver: Address, amount: uint64, nonce: int64, sig: ByteString,
      a: Address)
    requires Send(verify, st, owner, receiver, amount, nonce, sig).Done?
    ensures var o := Send(verify, st, owner, receiver, amount, nonce, sig);
            Held(o.state, a) == Held(st, a) + PlainProxyFlow(o.events, a)
  {
    hide PlainProxyFlow, Receive, VerifiedBytes;
    var v := st.vaults[owner];
    var debited := st.(vaults := st.vaults[owner := v.(balance := v.balance - amount)]);
    var paid := Receive(debited, receiver, amount);
    ReceiveBalance(debited, receiver, amount, a);
    var w, x := TokensWithdrawn(amount, Some(owner)), ProxyTransferred(Some(owner), receiver, amount);
    ProxyFlowOfConcat([w] + paid.events, [x], a);
    ProxyFlowOfConcat([w], paid.events, a);
    ProxyFlowOfOne(w, a);
    ProxyFlowOfOne(x, a);
  }

  lemma {:induction false} StepBalance(verify: Verifier, st: State, c: Call, a: Address)
    requires Step(verify, st, c).Done?
    ensures var o := Step(verify, st, c);
            Held(o.state, a) == Held(st, a) + PlainProxyFlow(o.events, a)
  {
    match c
    case SetUp(account, key) =>
      var e, f := AccountCreated(account), ProxyCreated(account, Some(key));
      assert [e, f] == [e] + [f];
      ProxyFlowOfConcat([e], [f], a);
      ProxyFlowOfOne(e, a);
      ProxyFlowOfOne(f, a);
    case Deposit(owner, amount) =>
      CreditBalance(st, owner, amount, a);
    case Transfer(owner, receiver, amount, nonce, sig) =>
      SendBalance(verify, st, owner, receiver, amount, nonce, sig, a);
    case NewAccount(account) =>
      ProxyFlowOfOne(AccountCreated(account), a);
    case Tokens(event) =>
      ProxyFlowOfOne(event, a);
  }

  /** A vault's balance moves by its Deposited minus its Transferred events. */
  lemma {:induction false} RunBalance(verify: Verifier, st: State, calls: seq<Call>, a: Address)
    requires Run(verify, st, calls).Done?
    ensures var o := Run(verify, st, calls);
            Held(o.state, a) == Held(st, a) + PlainProxyFlow(o.events, a)
  {
    if calls != [] {
      var before := Run(verify, st, calls[..|calls| - 1]);
      var last := Step(verify, before.state, calls[|calls| - 1]);
      RunBalance(verify, st, calls[..|calls| - 1], a);
      StepBalance(verify, before.state, calls[|calls| - 1], a);
      ProxyFlowOfConcat(before.events, last.events, a);
    }
  }

  // ---- Nonces ----

  /** The nonce the owner's vault expects next. */
  function NextNonce(st: State, a: Address): int {
    if a in st.vaults then st.vaults[a].lastNonce + 1 else 0
  }

  /** The nonces of the transfers out of a's vault. */
  function Nonces(calls: seq<Call>, a: Address): seq<int64> {
    if calls == [] then []
    else
      var c := calls[|calls| - 1];
      Nonces(calls[..|calls| - 1], a) + (if c.Transfer? && c.owner == a then [c.nonce] else [])
  }

  lemma {:induction false} StepNonce(verify: Verifier, st: State, c: Call, a: Address)
    requires Step(verify, st, c).Done?
    ensures var next := NextNonce(Step(verify, st, c).state, a);
            if c.Transfer? && c.owner == a then c.nonce == NextNonce(st, a) && next == c.nonce + 1
            else next == NextNonce(st, a)
  {
    if c.Transfer? {
      var v := st.vaults[c.owner];
      var debited := st.(vaults := st.vaults[c.owner := v.(balance := v.balance - c.amount)]);
      ReceiveBalance(debited, c.receiver, c.amount, a);
    }
  }

  /** A vault accepts consecutive nonces, each once, whatever else the transactions do. */
  lemma {:induction false} RunNonces(verify: Verifier, st: State, calls: seq<Call>, a: Address)
    requires Run(verify, st, calls).Done?
    ensures var o := Run(verify, st, calls);
            && |Nonces(calls, a)| == NextNonce(o.state, a) - NextNonce(st, a)
            && forall i :: 0 <= i < |Nonces(calls, a)| ==> Nonces(calls, a)[i] == NextNonce(st, a) + i
  {
    if calls != [] {
      var before := Run(verify, st, calls[..|calls| - 1]);
      RunNonces(verify, st, calls[..|calls| - 1], a);
      StepNonce(verify, before.state, calls[|calls| - 1], a);
    }
  }

  // ---- All runs ----

  /** The state after some submitted transactions, the calls that took effect and their events. */
  datatype World = World(state: State, calls: seq<Call>, events: seq<Event>)

  function Execute(verify: Verifier, holders: set<Address>, submitted: seq<seq<Call>>): World {
    if submitted == [] then World(State(map[], holders), [], [])
    else
      var w, calls := Execute(verify, holders, submitted[..|submitted| - 1]), submitted[|submitted| - 1];
      var o := Run(verify, w.state, calls);
      if o.Reverted? then w else World(o.state, w.calls + calls, w.events + o.events)
  }

  lemma {:induction false} RunOfConcat(verify: Verifier, st: State, x: seq<Call>, y: seq<Call>)
    requires Run(verify, st, x).Done? && Run(verify, Run(verify, st, x).state, y).Done?
    ensures var o, p := Run(verify, st, x), Run(verify, Run(verify, st, x).state, y);
            Run(verify, st, x + y) == Done(p.state, o.events + p.events)
  {
    hide Step;
    var o := Run(verify, st, x);
    if y == [] {
      assert x + y == x && o.events + [] == o.events;
    } else {
      var before, c := y[..|y| - 1], y[|y| - 1];
      assert x + y == (x + before) + [c] && y == before + [c];
      RunLast(verify, o.state, before, c);
      hide Run;
      RunOfConcat(verify, st, x, before);
      RunLast(verify, st, x + before, c);
      var p := Run(verify, o.state, before);
      var last := Step(verify, p.state, c);
      assert o.events + (p.events + last.events) == (o.events + p.events) + last.events;
    }
  }

  lemma {:induction false} RunLast(verify: Verifier, st: State, calls: seq<Call>, c: Call)
    ensures var before := Run(verify, st, calls);
            Run(verify, st, calls + [c]) ==
            if before.Reverted? then Reverted
            else
              var last := Step(verify, before.state, c);
              if last.Reverted? then Reverted else Done(last.state, before.events + last.events)
  {
    assert (calls + [c])[..|calls|] == calls;
  }

  /** Reverted transactions leave nothing: a history is one run of the calls that took effect. */
  lemma {:induction false} ExecuteIsRun(verify: Verifier, holders: set<Address>, submitted: seq<seq<Call>>)
    ensures var w := Execute(verify, holders, submitted);
            Run(verify, State(map[], holders), w.calls) == Done(w.state, w.events)
  {
    if submitted != [] {
      var w, calls := Execute(verify, holders, submitted[..|submitted| - 1]), submitted[|submitted| - 1];
      ExecuteIsRun(verify, holders, submitted[..|submitted| - 1]);
      if Run(verify, w.state, calls).Done? {
        RunOfConcat(verify, State(map[], holders), w.calls, calls);
      }
    }
  }

  /** In every reachable state, the nonces a vault has accepted are 0, 1, 2, ...
      without repeats, up to its last one, and its balance is what its own
      events add up to. */
  lemma {:induction false} VaultSafety(verify: Verifier, holders: set<Address>, submitted: seq<seq<Call>>, a: Address)
    ensures var w := Execute(verify, holders, submitted);
            && Nonces(w.calls, a) == seq(|Nonces(w.calls, a)|, i => i)
            && (a in w.state.vaults ==> w.state.vaults[a].lastNonce == |Nonces(w.calls, a)| - 1)
            && (a !in w.state.vaults ==> Nonces(w.calls, a) == [])
            && Held(w.state, a) == PlainProxyFlow(w.events, a)
  {
    var w := Execute(verify, holders, submitted);
    ExecuteIsRun(verify, holders, submitted);
    hide Execute, Run, Nonces, PlainProxyFlow;
    RunNonces(verify, State(map[], holders), w.calls, a);
    RunBalance(verify, State(map[], holders), w.calls, a);
  }

  // ---- One signature, one payment ----

  lemma {:induction false} NonceIsListed(calls: seq<Call>, i: nat)
    requires i < |calls| && calls[i].Transfer?
    ensures exists k :: 0 <= k < |Nonces(calls, calls[i].owner)| && Nonces(calls, calls[i].owner)[k] == calls[i].nonce
  {
    var a := calls[i].owner;
    if i == |calls| - 1 {
      assert Nonces(calls, a)[|Nonces(calls, a)| - 1] == calls[i].nonce;
    } else {
      var shorter := calls[..|calls| - 1];
      NonceIsListed(shorter, i);
      var k :| 0 <= k < |Nonces(shorter, a)| && Nonces(shorter, a)[k] == shorter[i].nonce;
      assert Nonces(calls, a)[k] == calls[i].nonce;
    }
  }

  /** No two payments of one vault, in any history, were made against the same signed bytes. */
  lemma {:induction false} NoReplay(verify: Verifier, holders: set<Address>, submitted: seq<seq<Call>>, i: nat, j: nat)
    requires var calls := Execute(verify, holders, submitted).calls;
             && i < j < |calls| && calls[i].Transfer? && calls[j].Transfer? && calls[i].owner == calls[j].owner
    ensures var calls := Execute(verify, holders, submitted).calls;
            VerifiedBytes(calls[i].receiver, calls[i].amount, calls[i].nonce) !=
            VerifiedBytes(calls[j].receiver, calls[j].amount, calls[j].nonce)
  {
    hide Execute, Run, VerifiedBytes;
    var calls := Execute(verify, holders, submitted).calls;
    var x, y := calls[i], calls[j];
    ExecuteIsRun(verify, holders, submitted);
    NoncesGrow(verify, holders, calls, i, j);
    if VerifiedBytes(x.receiver, x.amount, x.nonce) == VerifiedBytes(y.receiver, y.amount, y.nonce) {
      VerifiedBytesAreInjective(x.receiver, x.amount, x.nonce, y.receiver, y.amount, y.nonce);
    }
  }

  lemma {:induction false} NoncesGrow(verify: Verifier, holders: set<Address>, calls: seq<Call>, i: nat, j: nat)
    requires Run(verify, State(map[], holders), calls).Done?
    requires i < j < |calls| && calls[i].Transfer? && calls[j].Transfer? && calls[i].owner == calls[j].owner
    ensures calls[i].nonce < calls[j].nonce
  {
    hide Run, Step, Nonces;
    var st, owner := State(map[], holders), calls[j].owner;
    RunPrefix(verify, st, calls, j);
    RunPrefix(verify, st, calls, j + 1);
    assert calls[..j + 1] == calls[..j] + [calls[j]] && calls[..j][i] == calls[i];
    RunLast(verify, st, calls[..j], calls[j]);
    StepNonce(verify, Run(verify, st, calls[..j]).state, calls[j], owner);
    RunNonces(verify, st, calls[..j], owner);
    NonceIsListed(calls[..j], i);
  }

  lemma {:induction false} RunPrefix(verify: Verifier, st: State, calls: seq<Call>, n: nat)
    requires Run(verify, st, calls).Done? && n <= |calls|
    ensures Run(verify, st, calls[..n]).Done?
  {
    if n < |calls| {
      RunPrefix(verify, st, calls[..|calls| - 1], n);
      assert calls[..|calls| - 1][..n] == calls[..n];
    } else {
      assert calls[..n] == calls;
    }
  }

  // ---- No payment without a signature ----

  /** A vault's key is the one its SetUp call gave, and never changes. */
  lemma {:induction false} StepKeys(verify: Verifier, st: State, c: Call, a: Address)
    requires Step(verify, st, c).Done?
    ensures var vaults := Step(verify, st, c).state.vaults;
            && (a in vaults <==> a in st.vaults || (c.SetUp? && c.account == a))
            && (a in st.vaults ==>
                  vaults[a].publicKey == st.vaults[a].publicKey && !(c.SetUp? && c.account == a))
            && (a in vaults && a !in st.vaults ==> c == SetUp(a, vaults[a].publicKey))
  {
    if c.Transfer? {
      var v := st.vaults[c.owner];
      var debited := st.(vaults := st.vaults[c.owner := v.(balance := v.balance - c.amount)]);
      assert Receive(debited, c.receiver, c.amount).Done?;
    }
  }

  /** The only SetUp call for the account among these calls is the i-th, with this key. */
  ghost predicate SetUpAt(calls: seq<Call>, i: nat, a: Address, key: PublicKey) {
    && i < |calls| && calls[i] == SetUp(a, key)
    && forall j :: 0 <= j < |calls| && calls[j].SetUp? && calls[j].account == a ==> j == i
  }

  /** A vault exists exactly if it was set up, once, with the key it has. */
  lemma {:induction false} RunKeys(verify: Verifier, holders: set<Address>, calls: seq<Call>, a: Address)
    requires Run(verify, State(map[], holders), calls).Done?
    ensures var vaults := Run(verify, State(map[], holders), calls).state.vaults;
            if a in vaults then exists i :: SetUpAt(calls, i, a, vaults[a].publicKey)
            else forall j :: 0 <= j < |calls| && calls[j].SetUp? ==> calls[j].account != a
  {
    if calls != [] {
      var shorter, c := calls[..|calls| - 1], calls[|calls| - 1];
      var before := Run(verify, State(map[], holders), shorter);
      RunKeys(verify, holders, shorter, a);
      StepKeys(verify, before.state, c, a);
      hide Run, Step;
      if a in before.state.vaults {
        var key := before.state.vaults[a].publicKey;
        var i :| SetUpAt(shorter, i, a, key);
        assert SetUpAt(calls, i, a, key);
      } else if c.SetUp? && c.account == a {
        assert SetUpAt(calls, |shorter|, a, c.publicKey);
      }
    }
  }

  /** Every payment of every history was signed, over its own receiver, amount and
      nonce, under the key that the owner's one SetUp call gave before it. */
  lemma {:induction false} PaymentsAreSigned(
      verify: Verifier, holders: set<Address>, submitted: seq<seq<Call>>, i: nat)
    returns (setUp: nat, key: PublicKey)
    requires var calls := Execute(verify, holders, submitted).calls; i < |calls| && calls[i].Transfer?
    ensures var calls := Execute(verify, holders, submitted).calls;
            && setUp < i && SetUpAt(calls, setUp, calls[i].owner, key)
            && verify(key, calls[i].sig, VerifiedBytes(calls[i].receiver, calls[i].amount, calls[i].nonce))
  {
    hide Execute, VerifiedBytes;
    var st, calls := State(map[], holders), Execute(verify, holders, submitted).calls;
    ExecuteIsRun(verify, holders, submitted);
    setUp, key := RunIsSigned(verify, holders, calls, i);
  }

  lemma {:induction false} RunIsSigned(verify: Verifier, holders: set<Address>, calls: seq<Call>, i: nat)
    returns (setUp: nat, key: PublicKey)
    requires Run(verify, State(map[], holders), calls).Done? && i < |calls| && calls[i].Transfer?
    ensures setUp < i && SetUpAt(calls, setUp, calls[i].owner, key)
    ensures verify(key, calls[i].sig, VerifiedBytes(calls[i].receiver, calls[i].amount, calls[i].nonce))
  {
    hide VerifiedBytes;
    var st, c := State(map[], holders), calls[i];
    RunPrefix(verify, st, calls, i);
    RunPrefix(verify, st, calls, i + 1);
    assert calls[..i + 1] == calls[..i] + [c];
    RunLast(verify, st, calls[..i], c);
    var before := Run(verify, st, calls[..i]).state;
    assert Step(verify, before, c).Done?;
    hide Run;
    key := before.vaults[c.owner].publicKey;
    RunKeys(verify, holders, calls[..i], c.owner);
    setUp :| SetUpAt(calls[..i], setUp, c.owner, key);
    RunKeys(verify, holders, calls, c.owner);
    assert calls[setUp] == SetUp(c.owner, key);
  }

  /** A submitted transaction with a transfer whose signature does not verify under
      the owner's key leaves the world as it was. */
  lemma {:induction false} UnsignedChangesNothing(
      verify: Verifier, holders: set<Address>, submitted: seq<seq<Call>>, calls: seq<Call>, i: nat)
    requires i < |calls| && calls[i].Transfer?
    requires forall key :: SetUp(calls[i].owner, key) in Execute(verify, holders, submitted).calls + calls[..i] ==>
               !verify(key, calls[i].sig, VerifiedBytes(calls[i].receiver, calls[i].amount, calls[i].nonce))
    ensures Execute(verify, holders, submitted + [calls]) == Execute(verify, holders, submitted)
  {
    hide VerifiedBytes, Run;
    assert (submitted + [calls])[..|submitted|] == submitted;
    var w, w' := Execute(verify, holders, submitted), Execute(verify, holders, submitted + [calls]);
    if Run(verify, w.state, calls).Done? {
      var k := |w.calls| + i;
      assert w'.calls == w.calls + calls && w'.calls[k] == calls[i];
      var setUp, key := PaymentsAreSigned(verify, holders, submitted + [calls], k);
      assert false; // the SetUp call stands before the transfer, and its key does not verify
    }
  }

  /** A transfer signed offline through the API pays out: with the arguments the
      server decodes from the signed inner transaction, the contract accepts it
      whenever the signature is one of the bytes the server asked to be signed. */
  lemma {:induction false} SignedTransferPays(
      verify: Verifier, st: State, owner: Address, receiver: Address, amount: uint64, nonce: int64,
      signature: ByteString)
    requires nonce >= 0 && |signature| >= 64
    requires owner in st.vaults && NonceFollows(st.vaults[owner], nonce) && amount <= st.vaults[owner].balance
    requires verify(st.vaults[owner].publicKey, signature[..64], VerifiedBytes(receiver, amount, nonce))
    requires st.Exists(receiver) && Held(st, receiver) + amount < TWO_64
    ensures var unsigned := Signatures.EncodeHex(Encoded(owner, receiver, amount, nonce));
            && Combine(unsigned, signature).Combined?
            && var d := Decode(Combine(unsigned, signature).signed, true);
            && d.Inner?
            && Step(verify, st, Call.Transfer(d.sender, d.receiver, d.amount, ToInt64(d.nonce), d.raw[33..])).Done?
  {
    hide Decode, Combine, Encoded, Signatures.EncodeHex, Send, VerifiedBytes;
    InnerRoundTrip(owner, receiver, amount, nonce, signature);
    var d := Decode(Combine(Signatures.EncodeHex(Encoded(owner, receiver, amount, nonce)), signature).signed, true);
    assert ToInt64(d.nonce) == nonce;
    TransferPaysIff(verify, st, owner, receiver, amount, nonce, d.raw[33..]);
  }

  /** Exactly when a transfer is accepted. */
  lemma {:induction false} TransferPaysIff(
      verify: Verifier, st: State, owner: Address, receiver: Address, amount: uint64, nonce: int64, sig: ByteString)
    ensures Send(verify, st, owner, receiver, amount, nonce, sig).Done? <==>
            && owner in st.vaults && NonceFollows(st.vaults[owner], nonce) && amount <= st.vaults[owner].balance
            && verify(st.vaults[owner].publicKey, sig, VerifiedBytes(receiver, amount, nonce))
            && st.Exists(receiver) && (receiver != owner ==> Held(st, receiver) + amount < TWO_64)
  {
  }
}
