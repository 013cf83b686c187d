/** Chains whose transactions are contract calls: they create addresses once, and
    mention none before its creation. */
module VaultChains {
  import opened Prelude
  import opened Model
  import opened Translate
  import opened Ledger
  import opened ColdStorage

  // ---- Chains of contract calls ----

  /** An existing account pays, and the events are those of contract calls leading from st to st'. */
  ghost predicate TxnRuns(verify: Verifier, st: State, x: ChainTxn, st': State) {
    st.Exists(x.payer) && exists calls :: Run(verify, st, calls) == Done(st', x.events)
  }

  ghost predicate BlockRuns(verify: Verifier, st: State, txns: seq<ChainTxn>, st': State) {
    if txns == [] then st' == st
    else
      var before, x := txns[..|txns| - 1], txns[|txns| - 1];
      exists mid :: BlockRuns(verify, st, before, mid) && TxnRuns(verify, mid, x, st')
  }

  /** The same for a chain, from a state without vaults. */
  ghost predicate ChainRuns(verify: Verifier, holders: set<Address>, chain: Chain, st: State) {
    if chain == [] then st == State(map[], holders)
    else
      var before, b := chain[..|chain| - 1], chain[|chain| - 1];
      exists mid :: ChainRuns(verify, holders, before, mid) && BlockRuns(verify, mid, b.txns, st)
  }

  // ---- What a transaction mentions exists ----

  predicate Announces(e: Event, a: Address) {
    (e.AccountCreated? && e.address == a) || (e.ProxyCreated? && e.account == a)
  }

  /** The events announce only new accounts, and mention only accounts that exist afterwards. */
  ghost predicate Grows(st: State, events: seq<Event>, st': State) {
    && (forall a: Address :: st.Exists(a) ==> st'.Exists(a))
    && (forall e, a: Address :: e in events && EventMentions(e, a) ==> st'.Exists(a))
    && (forall e, a: Address :: e in events && Announces(e, a) ==> !st.Exists(a))
  }

  lemma {:induction false} ReceiveGrows(st: State, receiver: Address, amount: uint64)
    requires Receive(st, receiver, amount).Done?
    ensures var o := Receive(st, receiver, amount);
            o.state.vaults.Keys == st.vaults.Keys && o.state.holders == st.holders && Grows(st, o.events, o.state)
  {
  }

  lemma {:induction false} SendGrows(verify: Verifier, st: State, owner: Address, receiver: Address,
                                     amount: uint64, nonce: int64, sig: seq<byte>)
    requires Send(verify, st, owner, receiver, amount, nonce, sig).Done?
    ensures var o := Send(verify, st, owner, receiver, amount, nonce, sig);
            Grows(st, o.events, o.state) && SaneEvents(o.events)
  {
    var v := st.vaults[owner];
    var debited := st.(vaults := st.vaults[owner := v.(balance := v.balance - amount)]);
    ReceiveGrows(debited, receiver, amount);
  }

  lemma {:induction false} StepGrows(verify: Verifier, st: State, c: Call)
    requires Step(verify, st, c).Done?
    ensures var o := Step(verify, st, c); Grows(st, o.events, o.state) && SaneEvents(o.events)
  {
    if c.Transfer? {
      SendGrows(verify, st, c.owner, c.receiver, c.amount, c.nonce, c.sig);
    }
  }

  lemma {:induction false} GrowsOn(st: State, x: seq<Event>, mid: State, y: seq<Event>, st': State)
    requires Grows(st, x, mid) && Grows(mid, y, st') && SaneEvents(x) && SaneEvents(y)
    ensures Grows(st, x + y, st') && SaneEvents(x + y)
  {
    var events := x + y;
    forall i, j | 0 <= i < |x| <= j < |events|
      ensures events[i].AccountCreated? && events[j].AccountCreated? ==> events[i].address != events[j].address
      ensures events[j].ProxyCreated? ==> !IsProxyFlow(events[i], events[j].account)
    {
      assert events[i] == x[i] && events[i] in x && events[j] == y[j - |x|] && events[j] in y;
      if events[j].AccountCreated? {
        assert Announces(events[j], events[j].address);
      } else if events[j].ProxyCreated? {
        assert Announces(events[j], events[j].account);
      }
    }
    SaneConcat(x, y);
  }

  lemma {:induction false} SaneConcat(x: seq<Event>, y: seq<Event>)
    requires SaneEvents(x) && SaneEvents(y)
    requires forall i, j :: 0 <= i < |x| <= j < |x + y| ==>
               && ((x + y)[i].AccountCreated? && (x + y)[j].AccountCreated? ==>
                     (x + y)[i].address != (x + y)[j].address)
               && ((x + y)[j].ProxyCreated? ==> !IsProxyFlow((x + y)[i], (x + y)[j].account))
    ensures SaneEvents(x + y)
  {
    var n := |x|;
    assert forall i :: 0 <= i < |x + y| ==> (x + y)[i] == if i < n then x[i] else y[i - n];
  }

  lemma {:induction false} RunGrows(verify: Verifier, st: State, calls: seq<Call>)
    requires Run(verify, st, calls).Done?
    ensures var o := Run(verify, st, calls); Grows(st, o.events, o.state) && SaneEvents(o.events)
  {
    if calls != [] {
      var before, c := Run(verify, st, calls[..|calls| - 1]), calls[|calls| - 1];
      var last := Step(verify, before.state, c);
      RunGrows(verify, st, calls[..|calls| - 1]);
      StepGrows(verify, before.state, c);
      GrowsOn(st, before.events, before.state, last.events, last.state);
    }
  }

  // ---- Blocks and chains ----

  ghost predicate TxnIsSane(st: State, txns: seq<ChainTxn>, k: nat)
    requires k < |txns|
  {
    && SaneEvents(txns[k].events)
    && forall a: Address :: EventsCreate(txns[k].events, a) ==> !st.Exists(a) && !TxnsMention(txns[..k], a)
  }

  lemma {:induction false} TxnGrows(verify: Verifier, st: State, x: ChainTxn, st': State)
    requires TxnRuns(verify, st, x, st')
    ensures Grows(st, x.events, st') && SaneEvents(x.events)
    ensures forall a: Address :: TxnMentions(x, a) ==> st'.Exists(a)
    ensures forall a: Address :: EventsCreate(x.events, a) ==> !st.Exists(a)
  {
    var calls :| Run(verify, st, calls) == Done(st', x.events);
    RunGrows(verify, st, calls);
    forall a: Address | EventsCreate(x.events, a) ensures !st.Exists(a) {
      var e :| e in x.events && e == AccountCreated(a);
      assert Announces(e, a);
    }
  }

  lemma {:induction false} BlockIsSane(verify: Verifier, st: State, txns: seq<ChainTxn>, st': State)
    requires BlockRuns(verify, st, txns, st')
    ensures forall a: Address :: st.Exists(a) || TxnsMention(txns, a) ==> st'.Exists(a)
    ensures forall k :: 0 <= k < |txns| ==> TxnIsSane(st, txns, k)
  {
    if txns != [] {
      var n := |txns| - 1;
      var before, x := txns[..n], txns[n];
      var mid :| BlockRuns(verify, st, before, mid) && TxnRuns(verify, mid, x, st');
      hide TxnRuns, BlockRuns, TxnIsSane, TxnsMention, TxnMentions, EventsCreate, SaneEvents, Grows;
      BlockIsSane(verify, st, before, mid);
      TxnGrows(verify, mid, x, st');
      assert txns == before + [x];
      BlockGrows(st, before, mid, x, st');
    }
  }

  lemma {:induction false} BlockGrows(st: State, before: seq<ChainTxn>, mid: State, x: ChainTxn, st': State)
    requires forall a: Address :: st.Exists(a) || TxnsMention(before, a) ==> mid.Exists(a)
    requires forall k :: 0 <= k < |before| ==> TxnIsSane(st, before, k)
    requires Grows(mid, x.events, st') && SaneEvents(x.events)
    requires forall a: Address :: TxnMentions(x, a) ==> st'.Exists(a)
    requires forall a: Address :: EventsCreate(x.events, a) ==> !mid.Exists(a)
    ensures forall a: Address :: st.Exists(a) || TxnsMention(before + [x], a) ==> st'.Exists(a)
    ensures forall k :: 0 <= k < |before + [x]| ==> TxnIsSane(st, before + [x], k)
  {
    hide SaneEvents, TxnMentions, EventsCreate;
    var txns := before + [x];
    forall a: Address | st.Exists(a) || TxnsMention(txns, a) ensures st'.Exists(a) {
      MentionsOneMore(before, x, a);
    }
    forall k | 0 <= k < |txns| ensures TxnIsSane(st, txns, k) {
      assert txns[..k] == before[..k];
      if k < |before| {
        assert TxnIsSane(st, before, k) && txns[k] == before[k];
      } else {
        assert before[..k] == before;
      }
    }
  }

  lemma {:induction false} MentionsOneMore(before: seq<ChainTxn>, x: ChainTxn, a: Address)
    ensures TxnsMention(before + [x], a) <==> TxnsMention(before, a) || TxnMentions(x, a)
  {
    assert forall y :: y in before + [x] <==> y in before || y == x;
  }

  /** Chains of contract calls create every address once, before any other mention of it. */
  lemma {:induction false} ChainIsSane(verify: Verifier, holders: set<Address>, chain: Chain, st: State)
    requires ChainRuns(verify, holders, chain, st)
    ensures Sane(chain) && forall a: Address :: ChainMentions(chain, a) ==> st.Exists(a)
  {
    if chain != [] {
      var n := |chain| - 1;
      var before, b := chain[..n], chain[n];
      var mid :| ChainRuns(verify, holders, before, mid) && BlockRuns(verify, mid, b.txns, st);
      ChainIsSane(verify, holders, before, mid);
      BlockIsSane(verify, mid, b.txns, st);
      assert chain == before + [b];
      forall k | 0 <= k < |b.txns| ensures SaneTxn(chain, n, k) {
        assert TxnIsSane(mid, b.txns, k);
      }
      SaneOneMore(chain, n);
    }
  }

  lemma {:induction false} SaneOneMore(chain: Chain, n: nat)
    requires |chain| == n + 1 && Sane(chain[..n])
    requires forall k :: 0 <= k < |chain[n].txns| ==> SaneTxn(chain, n, k)
    ensures Sane(chain)
  {
    var before := chain[..n];
    forall m, k | 0 <= m < |chain| && 0 <= k < |chain[m].txns| ensures SaneTxn(chain, m, k) {
      if m < n {
        assert SaneTxn(before, m, k) && before[..m] == chain[..m];
      }
    }
  }
}
