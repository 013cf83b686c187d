/** Matching proxy transfers with the deposits they caused: when it succeeds, and
    what it leaves. */
module Matching {
  import opened Prelude
  import opened Model
  import opened Translate

  // ---- When matching proxy transfers succeeds ----

  /** The total of the proxy transfers to a tracked receiver. */
  function Received(moves: seq<ProxyMove>, r: Address): nat {
    if moves == [] then 0
    else
      var m := moves[|moves| - 1];
      Received(moves[..|moves| - 1], r) + (if m.receiver == Some(r) then m.amount else 0)
  }

  /** The deposits that transfers to r are matched against. */
  function Available(t: Tracker, news: map<Address, bool>, n: Netting, r: Address): uint64 {
    if t.IsProxy(r, news) then At(n.proxyDeposits, r) else At(n.deposits, r)
  }

  lemma {:induction false} MatchingUsesUp(
      t: Tracker, news: map<Address, bool>, n: Netting, moves: seq<ProxyMove>, r: Address)
    requires MatchMoves(t, news, n, moves).ok
    ensures n.ok && Available(t, news, MatchMoves(t, news, n, moves), r) ==
            Available(t, news, n, r) - Received(moves, r)
  {
    if moves != [] {
      var before := moves[..|moves| - 1];
      MatchingUsesUp(t, news, n, before, r);
      MatchUsesUp(t, news, MatchMoves(t, news, n, before), moves[|moves| - 1], r);
    }
  }

  lemma {:induction false} MatchUsesUp(t: Tracker, news: map<Address, bool>, n: Netting, m: ProxyMove, r: Address)
    requires MatchMove(t, news, n, m).ok
    ensures n.ok && Available(t, news, MatchMove(t, news, n, m), r) ==
                    Available(t, news, n, r) - (if m.receiver == Some(r) then m.amount else 0)
  {
  }

  lemma {:induction false} MatchingSucceeds(t: Tracker, news: map<Address, bool>, n: Netting, moves: seq<ProxyMove>)
    requires n.ok && forall r: Address :: Received(moves, r) <= Available(t, news, n, r)
    ensures MatchMoves(t, news, n, moves).ok
  {
    if moves != [] {
      var before, m := moves[..|moves| - 1], moves[|moves| - 1];
      forall r: Address ensures Received(before, r) <= Available(t, news, n, r) {
        assert Received(before, r) <= Received(moves, r);
      }
      MatchingSucceeds(t, news, n, before);
      if m.receiver.Some? {
        MatchingUsesUp(t, news, n, before, m.receiver.value);
      }
    }
  }

  /** No step of the matching runs short exactly when no receiver's total does. */
  lemma {:induction false} MatchingIsExact(t: Tracker, news: map<Address, bool>, n: Netting, moves: seq<ProxyMove>)
    ensures MatchMoves(t, news, n, moves).ok <==>
            n.ok && forall r: Address :: Received(moves, r) <= Available(t, news, n, r)
  {
    if MatchMoves(t, news, n, moves).ok {
      forall r: Address ensures n.ok && Received(moves, r) <= Available(t, news, n, r) {
        MatchingUsesUp(t, news, n, moves, r);
      }
      MatchingUsesUp(t, news, n, moves, ZERO_ADDRESS);
    } else if n.ok && forall r: Address :: Received(moves, r) <= Available(t, news, n, r) {
      MatchingSucceeds(t, news, n, moves);
    }
  }

  /** Transfers to a proxy leave its plain deposits alone, and the other way round. */
  lemma {:induction false} MatchingKeepsOther(
      t: Tracker, news: map<Address, bool>, n: Netting, moves: seq<ProxyMove>, r: Address)
    ensures var n' := MatchMoves(t, news, n, moves);
            if t.IsProxy(r, news) then At(n'.deposits, r) == At(n.deposits, r)
            else At(n'.proxyDeposits, r) == At(n.proxyDeposits, r)
  {
    if moves != [] {
      MatchingKeepsOther(t, news, n, moves[..|moves| - 1], r);
    }
  }
}
