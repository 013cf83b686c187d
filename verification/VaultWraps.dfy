/** Why the counters matter: a chain of contract calls after which a transaction
    moves 2^64 units to one vault, each of them covered by a deposit, and is refused. */
module VaultWraps {
  import opened Prelude
  import opened Bytes
  import opened Model
  import opened Translate
  import opened Flows
  import opened Ledger
  import opened ColdStorage
  import opened VaultChains
  import opened VaultTraces


  lemma {:induction false} RunAppend(verify: Verifier, st: State, calls: seq<Call>, c: Call)
    requires Run(verify, st, calls).Done?
    ensures var before := Run(verify, st, calls);
            var last := Step(verify, before.state, c);
            Run(verify, st, calls + [c]) ==
            if last.Reverted? then Reverted else Done(last.state, before.events + last.events)
  {
    assert (calls + [c])[..|calls|] == calls;
  }

  /** A transfer between followed accounts, out of a proxy, is a move to its receiver. */
  lemma {:induction false} TransferIsReceived(
      t: Tracker, payer: Address, events: seq<Event>, news: map<Address, bool>, verify: Verifier, st: State,
      owner: Address, receiver: Address, amount: uint64, nonce: int64, sig: ByteString, r: Address)
    requires Send(verify, st, owner, receiver, amount, nonce, sig).Done?
    requires var s := First(t, payer, events, news);
             s.ok && t.IsProxy(owner, s.news) && t.IsTracked(receiver, s.news)
    ensures var s := First(t, payer, events, news);
            var s' := First(t, payer, events + Send(verify, st, owner, receiver, amount, nonce, sig).events, news);
            s'.ok && s'.news == s.news
    ensures TransfersTo(t, payer, events + Send(verify, st, owner, receiver, amount, nonce, sig).events, news, r) ==
            TransfersTo(t, payer, events, news, r) + (if receiver == r then amount else 0)
  {
    hide Send, First, TransfersTo;
    var o := Send(verify, st, owner, receiver, amount, nonce, sig);
    var debited := SendParts(verify, st, owner, receiver, amount, nonce, sig);
    var moved := [TokensWithdrawn(amount, Some(owner))] + Receive(debited, receiver, amount).events;
    var x := ProxyTransferred(Some(owner), receiver, amount);
    assert events + o.events == events + moved + [x];
    PlainEvents(t, payer, events, moved, news);
    PlainTransfers(t, payer, events, moved, news, r);
    Appended(t, payer, events + moved, x, news, r);
  }

  lemma {:induction false} NoFeesWithoutFeeAccounts(t: Tracker, events: seq<Event>)
    requires t.feeAddrs == {}
    ensures FeesIn(t, events) == 0
  {
    if events != [] {
      NoFeesWithoutFeeAccounts(t, events[..|events| - 1]);
    }
  }

  predicate AnySignature(key: PublicKey, sig: ByteString, message: ByteString) {
    true
  }

  const HALF: uint64 := TWO_63

  /** Two vaults, one of them holding 2^63 units. */
  function Founding(a: Address, b: Address, key: PublicKey): seq<Call> {
    [SetUp(a, key), SetUp(b, key), Deposit(a, HALF)]
  }

  function FoundedState(payer: Address, a: Address, b: Address, key: PublicKey): State {
    State(map[a := Vault(-1, HALF, key), b := Vault(-1, 0, key)], {payer})
  }

  /** The units go to b, back, and to b again. */
  function BackAndForth(a: Address, b: Address, sig: ByteString): seq<Call> {
    [Call.Transfer(a, b, HALF, 0, sig), Call.Transfer(b, a, HALF, 0, sig), Call.Transfer(a, b, HALF, 1, sig)]
  }

  function FoundingTxn(payer: Address, a: Address, b: Address, key: PublicKey): ChainTxn {
    ChainTxn([], payer, [AccountCreated(a), ProxyCreated(a, Some(key)), AccountCreated(b), ProxyCreated(b, Some(key)),
                         ProxyDeposited(a, HALF), TokensDeposited(HALF, Some(a))], false)
  }

  lemma {:induction false} FoundingRuns(payer: Address, a: Address, b: Address, key: PublicKey)
    requires payer != a && payer != b && a != b
    ensures Run(AnySignature, State(map[], {payer}), Founding(a, b, key)) ==
            Done(FoundedState(payer, a, b, key), FoundingTxn(payer, a, b, key).events)
  {
    var st, calls := State(map[], {payer}), Founding(a, b, key);
    RunAppend(AnySignature, st, [], calls[0]);
    RunAppend(AnySignature, st, [] + [calls[0]], calls[1]);
    RunAppend(AnySignature, st, [] + [calls[0]] + [calls[1]], calls[2]);
    assert calls == [] + [calls[0]] + [calls[1]] + [calls[2]];
  }

  function FoundingChain(payer: Address, a: Address, b: Address, key: PublicKey): Chain {
    [ChainBlock([], 0, [FoundingTxn(payer, a, b, key)])]
  }

  lemma {:induction false} FoundingNews(payer: Address, a: Address, b: Address, key: PublicKey)
    requires payer != a && payer != b && a != b
    ensures First(Tracker(map[], {payer}, {}), payer, FoundingTxn(payer, a, b, key).events, map[]).news ==
            map[a := true, b := true]
  {
    var t, x := Tracker(map[], {payer}, {}), FoundingTxn(payer, a, b, key);
    assert First(t, payer, [], map[]) == FirstPass(true, map[], [], map[], map[], []);
    hide First;
    var p1 := [] + [AccountCreated(a), ProxyCreated(a, Some(key))];
    var p2 := p1 + [AccountCreated(b), ProxyCreated(b, Some(key))];
    var rest := [ProxyDeposited(a, HALF), TokensDeposited(HALF, Some(a))];
    assert x.events == p2 + rest;
    CreationEvents(t, payer, [], a, key, map[]);
    CreationEvents(t, payer, p1, b, key, map[]);
    PlainEvents(t, payer, p2, rest, map[]);
  }

  lemma {:induction false} FoundingIsFollowed(payer: Address, a: Address, b: Address, key: PublicKey)
    requires payer != a && payer != b && a != b
    ensures AcctsAfter(Config({payer}, {}), FoundingChain(payer, a, b, key)) == map[a := true, b := true]
  {
    hide First;
    var t, x := Tracker(map[], {payer}, {}), FoundingTxn(payer, a, b, key);
    FoundingNews(payer, a, b, key);
    var chain := FoundingChain(payer, a, b, key);
    assert chain[..0] == [] && [x][..0] == [];
    assert NewsAfter(t, []) == map[];
    assert NewsAfter(t, [x]) == map[a := true, b := true];
  }

  lemma {:induction false} FoundingIsReached(payer: Address, a: Address, b: Address, key: PublicKey)
    requires payer != a && payer != b && a != b
    ensures Reached(Config({payer}, {}), AnySignature, {payer}, FoundingChain(payer, a, b, key), [],
                    FoundedState(payer, a, b, key), Tracker(map[a := true, b := true], {payer}, {}), map[])
  {
    hide Run, AcctsAfter;
    FoundingRuns(payer, a, b, key);
    FoundingIsFollowed(payer, a, b, key);
    var x, chain := FoundingTxn(payer, a, b, key), FoundingChain(payer, a, b, key);
    var st0, st := State(map[], {payer}), FoundedState(payer, a, b, key);
    assert TxnRuns(AnySignature, st0, x, st);
    assert [x][..0] == [] && BlockRuns(AnySignature, st0, [], st0);
    assert BlockRuns(AnySignature, st0, [x], st);
    assert chain[..0] == [] && ChainRuns(AnySignature, {payer}, [], st0);
    assert ChainRuns(AnySignature, {payer}, chain, st) && BlockRuns(AnySignature, st, [], st);
  }

  /** The state after the owner's whole 2^63 units went to an empty vault. */
  function Emptied(st: State, owner: Address, receiver: Address, nonce: int64): State
    requires owner in st.vaults && receiver in st.vaults
  {
    st.(vaults := st.vaults[owner := Vault(nonce, 0, st.vaults[owner].publicKey)]
                           [receiver := st.vaults[receiver].(balance := HALF)])
  }

  lemma {:induction false} SendEmpties(st: State, owner: Address, receiver: Address, nonce: int64, sig: ByteString)
    requires owner in st.vaults && receiver in st.vaults && owner != receiver
    requires st.vaults[owner].balance == HALF && st.vaults[receiver].balance == 0
    requires st.vaults[owner].lastNonce == nonce - 1
    ensures Send(AnySignature, st, owner, receiver, HALF, nonce, sig).Done?
    ensures Send(AnySignature, st, owner, receiver, HALF, nonce, sig).state == Emptied(st, owner, receiver, nonce)
  {
    var v := st.vaults[owner];
    var debited := st.(vaults := st.vaults[owner := v.(balance := 0)]);
    assert Receive(debited, receiver, HALF).Done?;
  }

  lemma {:induction false} OneTransfer(
      t: Tracker, payer: Address, b: Address, st0: State, calls: seq<Call>, st: State, owner: Address,
      receiver: Address, nonce: int64, sig: ByteString)
    requires Run(AnySignature, st0, calls).Done? && Run(AnySignature, st0, calls).state == st
    requires owner in st.vaults && receiver in st.vaults && owner != receiver
    requires st.vaults[owner].balance == HALF && st.vaults[receiver].balance == 0
    requires st.vaults[owner].lastNonce == nonce - 1
    requires owner in t.accts && t.accts[owner] && receiver in t.accts
    ensures var before, o := Run(AnySignature, st0, calls),
                             Run(AnySignature, st0, calls + [Call.Transfer(owner, receiver, HALF, nonce, sig)]);
            && o.Done? && o.state == Emptied(st, owner, receiver, nonce)
            && TransfersTo(t, payer, o.events, map[], b) ==
               TransfersTo(t, payer, before.events, map[], b) + (if receiver == b then HALF else 0)
  {
    hide First, TransfersTo, Send, Emptied, Run;
    var before := Run(AnySignature, st0, calls);
    RunDecodes(t, payer, map[], AnySignature, st0, calls);
    SendEmpties(st, owner, receiver, nonce, sig);
    RunAppend(AnySignature, st0, calls, Call.Transfer(owner, receiver, HALF, nonce, sig));
    TransferIsReceived(t, payer, before.events, map[], AnySignature, st, owner, receiver, HALF, nonce, sig, b);
  }

  lemma {:induction false} BackAndForthRuns(
      payer: Address, a: Address, b: Address, key: PublicKey, sig: ByteString, t: Tracker)
    requires a != b && t == Tracker(map[a := true, b := true], {payer}, {})
    ensures var o := Run(AnySignature, FoundedState(payer, a, b, key), BackAndForth(a, b, sig));
            o.Done? && TransfersTo(t, payer, o.events, map[], b) == TWO_64
  {
    var st, calls := FoundedState(payer, a, b, key), BackAndForth(a, b, sig);
    assert Run(AnySignature, st, []) == Done(st, []) && TransfersTo(t, payer, [], map[], b) == 0;
    hide First, TransfersTo, Run;
    var p1 := [] + [calls[0]];
    var p2 := p1 + [calls[1]];
    var st1 := Emptied(st, a, b, 0);
    var st2 := Emptied(st1, b, a, 0);
    OneTransfer(t, payer, b, st, [], st, a, b, 0, sig);
    OneTransfer(t, payer, b, st, p1, st1, b, a, 0, sig);
    OneTransfer(t, payer, b, st, p2, st2, a, b, 1, sig);
    assert calls == p2 + [calls[2]];
  }

  /** The chain founds the vaults; then a transaction of three signed transfers that
      the contract accepts, and whose fee is paid, is refused for good: the uint64
      counter of the deposits to b wraps. */
  lemma {:induction false} WrappedCounterTrips(
      payer: Address, a: Address, b: Address, key: PublicKey, sig: ByteString)
    requires payer != a && payer != b && a != b
    ensures var t, st := Tracker(map[a := true, b := true], {payer}, {}), FoundedState(payer, a, b, key);
            var o := Run(AnySignature, st, BackAndForth(a, b, sig));
            && Reached(Config({payer}, {}), AnySignature, {payer}, FoundingChain(payer, a, b, key), [], st, t, map[])
            && o.Done? && FeeIsPaid(t, payer, o.events, map[]) && !Net(t, payer, o.events, map[]).ok
  {
    hide First, TransfersTo, FeesIn, TokenDebits, Run, Net, Reached, FoundedState, BackAndForth;
    var t, st := Tracker(map[a := true, b := true], {payer}, {}), FoundedState(payer, a, b, key);
    FoundingIsReached(payer, a, b, key);
    BackAndForthRuns(payer, a, b, key, sig, t);
    var events := Run(AnySignature, st, BackAndForth(a, b, sig)).events;
    NoFeesWithoutFeeAccounts(t, events);
    HiddenDepositsTrip(t, payer, events, map[], b);
  }
}
