/** The live-spork loop driving the indexer: each turn of it, what stops it, and that
    honest data gets every sealed block indexed. */
module LiveLoop {
  import opened Prelude
  import opened Bytes
  import opened Model
  import opened IndexSpec
  import opened IndexDb
  import opened Ledger
  import opened Indexer
  import opened LiveSpork
  import opened ProcessLoop

  /** What the next fetch of the loop comes to: an error, or data; for a seal, the
      attempts at the block it seals. */
  datatype Turn = Fails | Delivers(attempts: seq<Fetched>)

  /** A call of processBlock is due: for the root block, or for the one a seal is for. */
  ghost predicate Due(u: Setup, s: State)
    requires WellFormed(u.chain)
  {
    || (s.phase == Fetching && s.pos == 0)
    || (AtSeal(u, s) && u.chain.blocks[s.pos].seals[s.phase.k].blockId in s.blocks)
  }

  ghost function DueHash(u: Setup, s: State): ByteString
    requires WellFormed(u.chain) && Due(u, s)
  {
    if s.pos == 0 then u.chain.blocks[0].id else u.chain.blocks[s.pos].seals[s.phase.k].blockId
  }

  /** The seals on record when the due block is processed. */
  ghost function DueResults(u: Setup, s: State): map<Hash, Hash>
    requires WellFormed(u.chain) && Due(u, s)
  {
    if s.pos == 0 then s.sealedResults
    else s.sealedResults[DueHash(u, s) := u.chain.blocks[s.pos].seals[s.phase.k].resultId]
  }

  /** The state after a turn; a due block is committed with this data. */
  ghost function Taken(u: Setup, s: State, turn: Turn, f: Fetched): State
    requires WellFormed(u.chain) && Inv(u, s)
  {
    var blocks := u.chain.blocks;
    if turn == Fails && s.phase == Fetching then s
    else if turn == Fails && Due(u, s) then s.(phase := Fetching)
    else if Due(u, s) then
      var hash := DueHash(u, s);
      var s' := s.(sealedResults := DueResults(u, s) - {hash},
                   indexed := s.indexed + [RecordOf(u.chain.root + |s.indexed|, hash, f, s.pos)]);
      if s.pos == 0 then s'.(pos := 1, parent := hash, got := 1)
      else s'.(blocks := s.blocks - {hash}, phase := Sealing(s.phase.k + 1))
    else if s.phase == Fetching then
      if s.pos == |blocks| then s
      else s.(blocks := s.blocks[blocks[s.pos].id := s.pos], phase := Sealing(0), got := s.pos + 1)
    else if AtSeal(u, s) then s.(phase := Sealing(s.phase.k + 1))
    else s.(pos := s.pos + 1, parent := blocks[s.pos].id, phase := Fetching)
  }

  ghost predicate TurnTaken(u: Setup, s: State, s': State, turn: Turn)
    requires WellFormed(u.chain) && Inv(u, s)
  {
    exists f :: s' == Taken(u, s, turn, f) && (turn.Delivers? && Due(u, s) ==> f in turn.attempts)
  }

  /** The loop does not get past the due block: its attempts do not lead to a commit. */
  ghost predicate Stuck(u: Setup, s: State, ix: Indexer, turn: Turn)
    requires WellFormed(u.chain) && Inv(u, s)
    reads ix, ix.store
  {
    && turn.Delivers? && Due(u, s) && ix.sealedResults == DueResults(u, s)
    && !Leads(ix, SporkOf(u), u.tolerance, u.chain.root + |s.indexed|, DueHash(u, s), turn.attempts)
  }

  // ---- Honest turns ----

  /** The data of the due block is sound; of a self-sealed root any result is. */
  ghost predicate SoundFor(u: Setup, s: State, f: Fetched)
    requires WellFormed(u.chain) && Due(u, s)
  {
    if s.pos == 0 then f.skip || (f.eventsMatch && f.derivedResult.Some?)
    else Sound(f, u.chain.blocks[s.pos].seals[s.phase.k].resultId)
  }

  /** If a block is due and the turn delivers, its attempts come to this sound data,
      after some that are not sound. */
  ghost predicate HonestTurn(u: Setup, s: State, turn: Turn, d: Fetched)
    requires WellFormed(u.chain)
  {
    turn.Delivers? && Due(u, s) ==>
      && (s.pos == 0 ==> u.hasPrev)
      && exists i :: 0 <= i < |turn.attempts| && turn.attempts[i] == d && SoundFor(u, s, d) &&
           forall j :: 0 <= j < i ==> !SoundFor(u, s, turn.attempts[j])
  }

  lemma {:induction false} SoundPasses(u: Setup, s: State, f: Fetched)
    requires WellFormed(u.chain) && Inv(u, s) && Due(u, s) && (s.pos == 0 ==> u.hasPrev)
    ensures |s.indexed| < |u.chain.blocks| && DueHash(u, s) == u.chain.blocks[|s.indexed|].id
    ensures SealGate(SporkOf(u), u.tolerance, u.chain.root + |s.indexed|, DueHash(u, s), f, DueResults(u, s)) ==
            if SoundFor(u, s, f) then Pass else Again
  {
    hide Recorded, SealInOrder, NextSealed;
    if s.pos > 0 {
      SealIsForNext(u, s);
      WaitingId(u, s, DueHash(u, s));
    }
  }

  lemma {:induction false} HonestIsGated(u: Setup, s: State, turn: Turn, d: Fetched)
    requires WellFormed(u.chain) && Inv(u, s) && Due(u, s) && turn.Delivers? && HonestTurn(u, s, turn, d)
    ensures |s.indexed| < |u.chain.blocks|
    ensures Gated(SporkOf(u), u.tolerance, u.chain.root + |s.indexed|, DueHash(u, s), DueResults(u, s), turn.attempts,
                  d)
  {
    hide Inv, SealGate, SoundFor;
    SoundPasses(u, s, d);
    var i :| 0 <= i < |turn.attempts| && turn.attempts[i] == d && SoundFor(u, s, d) &&
      forall j :: 0 <= j < i ==> !SoundFor(u, s, turn.attempts[j]);
    forall j | 0 <= j < i
      ensures SealGate(SporkOf(u), u.tolerance, u.chain.root + |s.indexed|, DueHash(u, s), turn.attempts[j],
                       DueResults(u, s)) == Again
    {
      SoundPasses(u, s, turn.attempts[j]);
    }
  }

  /** The loop's state and the indexer's are those of one run: the records are the
      blocks stored from the spork root up, and the next height follows them. */
  ghost predicate Tied(u: Setup, s: State, ix: Indexer)
    requires WellFormed(u.chain)
    reads ix, ix.store
  {
    && ix.Valid() && ix.sealedResults == s.sealedResults && |s.indexed| <= |u.chain.blocks|
    && ix.lastIndexed.height + 1 == u.chain.root + |s.indexed|
    && forall m :: 0 <= m < |s.indexed| ==>
         HasHash(ix.store.root, ix.store.history, u.chain.root + m, u.chain.blocks[m].id)
  }

  /** Committing the block at the next position extends the tie by its record. */
  lemma {:induction false} TiedNext(u: Setup, s: State, s': State, ix: Indexer, before: History)
    requires WellFormed(u.chain) && |s.indexed| < |u.chain.blocks|
    requires ix.Valid() && ix.sealedResults == s'.sealedResults && |s'.indexed| == |s.indexed| + 1
    requires before <= ix.store.history && ix.lastIndexed.height == u.chain.root + |s.indexed|
    requires HasHash(ix.store.root, ix.store.history, u.chain.root + |s.indexed|, u.chain.blocks[|s.indexed|].id)
    requires forall m :: 0 <= m < |s.indexed| ==> HasHash(ix.store.root, before, u.chain.root + m, u.chain.blocks[m].id)
    ensures Tied(u, s', ix)
  {
    forall m | 0 <= m < |s'.indexed|
      ensures HasHash(ix.store.root, ix.store.history, u.chain.root + m, u.chain.blocks[m].id)
    {
      if m < |s.indexed| {
        LongerHasHash(ix.store.root, before, ix.store.history, u.chain.root + m, u.chain.blocks[m].id);
      }
    }
  }

  /** Processing the root block, or the block a seal is for: one step of the run. */
  method CommitNext(
      u: Setup, s: State, ix: Indexer, hash: ByteString, attempts: seq<Fetched>, ghost d: Fetched)
    returns (committed: bool, f: Fetched)
    requires WellFormed(u.chain) && |s.indexed| < |u.chain.blocks| && hash == u.chain.blocks[|s.indexed|].id
    requires Tied(u, s, ix)
    modifies ix, ix.store
    ensures ix.Valid() && ix.store.root == old(ix.store.root) && old(ix.store.history) <= ix.store.history
    ensures committed ==>
              && f in attempts && Processes(u, u.chain.root + |s.indexed|, hash, s.sealedResults, f)
              && Tied(u, s.(sealedResults := s.sealedResults - {hash},
                            indexed := s.indexed + [RecordOf(u.chain.root + |s.indexed|, hash, f, s.pos)]), ix)
    ensures committed ==>
              Extends(ix.cfg, old(ix.accts), old(ix.store.history), ix.accts, ix.store.history, hash, f)
    ensures !committed ==>
              && Tied(u, s, ix) && !Leads(ix, SporkOf(u), u.tolerance, u.chain.root + |s.indexed|, hash, attempts)
              && ix.accts == old(ix.accts) && ix.store.history == old(ix.store.history)
    ensures (&& Gated(SporkOf(u), u.tolerance, u.chain.root + |s.indexed|, hash, s.sealedResults, attempts, d)
             && Takes(ix.cfg, old(ix.accts), old(ix.store.history), hash, d)) ==> committed && f == d
  {
    hide Indexer.Valid, Leads, LeadsAt, Gated, Takes, Extends, HasHash, SealGate, OwnTxns, SealInOrder;
    ghost var before := ix.store.history;
    var height := u.chain.root + |s.indexed|;
    GatedLeads(ix, SporkOf(u), u.tolerance, height, hash, attempts, d);
    committed, f := ProcessUntil(ix, SporkOf(u), u.tolerance, height, hash, attempts);
    if committed {
      ghost var s' := s.(sealedResults := s.sealedResults - {hash},
                         indexed := s.indexed + [RecordOf(height, hash, f, s.pos)]);
      TiedNext(u, s, s', ix, before);
    }
  }

  /** What a turn does to the account map and the history. */
  ghost predicate TurnExtends(
      cfg: Config, accts: map<Address, bool>, history: History, accts': map<Address, bool>, history': History,
      u: Setup, s: State, turn: Turn, f: Fetched)
    requires WellFormed(u.chain)
  {
    if turn.Delivers? && Due(u, s) then Extends(cfg, accts, history, accts', history', DueHash(u, s), f)
    else accts' == accts && history' == history
  }

  /** The turn is honest about this data, and the indexer takes it. */
  ghost predicate TurnTakes(
      cfg: Config, accts: map<Address, bool>, history: History, u: Setup, s: State, turn: Turn, d: Fetched)
    requires WellFormed(u.chain)
  {
    && HonestTurn(u, s, turn, d)
    && (turn.Delivers? && Due(u, s) ==> Takes(cfg, accts, history, DueHash(u, s), d))
  }

  /** The seal of a waiting block is recorded and the block processed. */
  method SealNext(u: Setup, s: State, ix: Indexer, attempts: seq<Fetched>, ghost d: Fetched)
    returns (s': State, ok: bool, ghost f: Fetched)
    requires WellFormed(u.chain) && Inv(u, s) && Tied(u, s, ix)
    requires AtSeal(u, s) && u.chain.blocks[s.pos].seals[s.phase.k].blockId in s.blocks
    modifies ix, ix.store
    ensures Step(u, s, s') && Tied(u, s', ix)
    ensures ix.store.root == old(ix.store.root) && old(ix.store.history) <= ix.store.history
    ensures ok ==>
              && f in attempts && s' == Taken(u, s, Delivers(attempts), f)
              && TurnExtends(ix.cfg, old(ix.accts), old(ix.store.history), ix.accts, ix.store.history, u, s,
                             Delivers(attempts), f)
    ensures !ok ==> Stuck(u, s, ix, Delivers(attempts)) && s'.indexed == s.indexed
    ensures TurnTakes(ix.cfg, old(ix.accts), old(ix.store.history), u, s, Delivers(attempts), d) ==> ok && f == d
  {
    hide Indexer.Valid, NextSealed, Recorded, SealInOrder, HasHash, Leads, GoodRecord, Gated, Takes, Extends;
    hide HonestTurn, OwnTxns, SealGate, LeadsAt, Processes;
    if HonestTurn(u, s, Delivers(attempts), d) {
      HonestIsGated(u, s, Delivers(attempts), d);
    }
    var seal := u.chain.blocks[s.pos].seals[s.phase.k];
    SealIsForNext(u, s);
    WaitingId(u, s, seal.blockId);
    s' := s.(sealedResults := s.sealedResults[seal.blockId := seal.resultId]);
    assert RecordSeal(u, s, s');
    RecordResults(ix, ix.sealedResults[seal.blockId := seal.resultId]);
    var found;
    ok, found := CommitNext(u, s', ix, seal.blockId, attempts, d);
    f := found;
    if ok {
      var height := u.chain.root + |s.indexed|;
      s' := s.(sealedResults := s'.sealedResults - {seal.blockId},
               blocks := s.blocks - {seal.blockId},
               indexed := s.indexed + [RecordOf(height, seal.blockId, found, s.pos)],
               phase := Sealing(s.phase.k + 1));
      assert ProcessSeal(u, s, s', f);
      assert s' == Taken(u, s, Delivers(attempts), f);
    }
  }

  lemma {:induction false} WaitingId(u: Setup, s: State, id: ByteString)
    requires Waiting(u, s) && id in s.blocks
    ensures s.blocks[id] < |u.chain.blocks| && u.chain.blocks[s.blocks[id]].id == id
  {
  }

  /** One turn of the loop. It goes on unless the block that is due is not committed. */
  method Next(u: Setup, s: State, ix: Indexer, turn: Turn, ghost d: Fetched)
    returns (s': State, ok: bool, ghost f: Fetched)
    requires WellFormed(u.chain) && Inv(u, s) && Tied(u, s, ix)
    modifies ix, ix.store
    ensures Step(u, s, s') && Tied(u, s', ix)
    ensures ix.store.root == old(ix.store.root) && old(ix.store.history) <= ix.store.history
    ensures ok ==>
              && (turn.Delivers? && Due(u, s) ==> f in turn.attempts) && s' == Taken(u, s, turn, f)
              && TurnExtends(ix.cfg, old(ix.accts), old(ix.store.history), ix.accts, ix.store.history, u, s, turn, f)
    ensures !ok ==> Stuck(u, s, ix, turn) && s'.indexed == s.indexed
    ensures TurnTakes(ix.cfg, old(ix.accts), old(ix.store.history), u, s, turn, d) ==>
              ok && (turn.Delivers? && Due(u, s) ==> f == d)
  {
    hide Indexer.Valid, HasHash, NextSealed, Recorded, Leads, Gated, Takes, Extends, HonestTurn;
    hide OwnTxns, SealGate, LeadsAt, Processes, SealInOrder, GoodRecord;
    s', ok, f := s, true, d;
    if s.phase == Fetching {
      if turn == Fails || s.pos >= |u.chain.blocks| {
        return;
      }
      if s.pos == 0 {
        if HonestTurn(u, s, turn, d) {
          HonestIsGated(u, s, turn, d);
        }
        var committed, found := CommitNext(u, s, ix, u.chain.blocks[0].id, turn.attempts, d);
        f := found;
        if !committed {
          return s, false, f;
        }
        s' := s.(pos := 1, parent := u.chain.blocks[0].id, sealedResults := s.sealedResults - {u.chain.blocks[0].id},
                 indexed := s.indexed + [RecordOf(u.chain.root, u.chain.blocks[0].id, found, 0)], got := 1);
        assert IndexRoot(u, s, s', f);
        assert s' == Taken(u, s, turn, f);
      } else {
        var block := u.chain.blocks[s.pos];
        if block.parentId != s.parent {
          return;
        }
        s' := s.(blocks := s.blocks[block.id := s.pos], phase := Sealing(0), got := s.pos + 1);
        assert Retrieve(u, s, s');
      }
    } else if s.phase.k == |u.chain.blocks[s.pos].seals| {
      s' := s.(pos := s.pos + 1, parent := u.chain.blocks[s.pos].id, phase := Fetching);
      assert Advance(u, s, s');
    } else {
      var seal := u.chain.blocks[s.pos].seals[s.phase.k];
      if seal.blockId !in s.blocks {
        s' := s.(phase := Sealing(s.phase.k + 1));
        assert SkipSeal(u, s, s');
      } else if turn == Fails {
        s' := s.(phase := Fetching);
        assert SealFails(u, s, s');
      } else {
        s', ok, f := SealNext(u, s, ix, turn.attempts, d);
      }
    }
  }

  lemma {:induction false} RunOneMore(u: Setup, run: seq<State>, s: State)
    requires WellFormed(u.chain) && IsRun(u, run) && Step(u, run[|run| - 1], s)
    ensures IsRun(u, run + [s])
  {
    var longer := run + [s];
    forall i | 0 <= i < |longer| - 1 ensures Step(u, longer[i], longer[i + 1]) {
      if i < |run| - 1 {
        assert Step(u, run[i], run[i + 1]);
      }
    }
  }

  /** From this state of the run on, the k-th next one comes from the one before by
      the k-th turn. */
  ghost predicate TookTurn(u: Setup, run: seq<State>, from: nat, script: seq<Turn>, k: nat)
    requires WellFormed(u.chain)
  {
    && k < |script| && 1 <= from + k < |run|
    && Inv(u, run[from + k - 1]) && TurnTaken(u, run[from + k - 1], run[from + k], script[k])
  }

  lemma {:induction false} StillTook(u: Setup, run: seq<State>, s: State, from: nat, script: seq<Turn>, n: nat)
    requires WellFormed(u.chain) && forall k :: 0 <= k < n ==> TookTurn(u, run, from, script, k)
    ensures forall k :: 0 <= k < n ==> TookTurn(u, run + [s], from, script, k)
  {
    hide TurnTaken, Inv;
    forall k | 0 <= k < n ensures TookTurn(u, run + [s], from, script, k) {
      assert TookTurn(u, run, from, script, k);
    }
  }

  /** The loop took every turn, or it is stuck at the block due in the last one. */
  ghost predicate LiveTurns(u: Setup, run: seq<State>, from: nat, script: seq<Turn>, stuck: bool, ix: Indexer)
    requires WellFormed(u.chain)
    reads ix, ix.store
  {
    var n := |run| - from - (if stuck then 1 else 0);
    && 0 <= n <= |script| && (!stuck ==> n == |script|)
    && (forall k :: 0 <= k < n ==> TookTurn(u, run, from, script, k))
    && (stuck ==>
          && n < |script| && 0 < from + n && Inv(u, run[from + n - 1])
          && Stuck(u, run[from + n - 1], ix, script[n]))
  }

  // ---- Honest scripts ----

  /** A turn that is honest is a step of the loop, so it keeps the invariant. */
  lemma {:induction false} HonestStep(u: Setup, s: State, turn: Turn, d: Fetched)
    requires WellFormed(u.chain) && Inv(u, s) && HonestTurn(u, s, turn, d)
    ensures Step(u, s, Taken(u, s, turn, d)) && Inv(u, Taken(u, s, turn, d))
  {
    hide NextSealed, Recorded, SealInOrder, GoodRecord, SealGate, SoundFor;
    var s' := Taken(u, s, turn, d);
    if turn.Delivers? && Due(u, s) {
      SoundPasses(u, s, d);
      if s.pos == 0 {
        assert IndexRoot(u, s, s', d);
      } else {
        SealIsForNext(u, s);
        assert ProcessSeal(u, s, s', d);
      }
    } else if s.phase == Fetching && turn.Delivers? && s.pos < |u.chain.blocks| {
      assert Retrieve(u, s, s');
    } else if AtSeal(u, s) {
      assert SkipSeal(u, s, s') || SealFails(u, s, s');
    } else if s.phase.Sealing? {
      assert Advance(u, s, s');
    }
    hide Inv;
    StepInv(u, s, s');
  }

  function DataAt(data: seq<Fetched>, n: nat): Fetched {
    if n < |data| then data[n] else Fetched(0, [], true, true, None)
  }

  /** Every turn is honest about the data of the block that is then due. */
  ghost predicate HonestScript(u: Setup, s: State, script: seq<Turn>, data: seq<Fetched>)
    requires WellFormed(u.chain) && Inv(u, s)
    decreases |script|
  {
    script != [] ==>
      var d := DataAt(data, |s.indexed|);
      && HonestTurn(u, s, script[0], d) && (script[0].Delivers? && Due(u, s) ==> |s.indexed| < |data|)
      && (HonestStep(u, s, script[0], d); HonestScript(u, Taken(u, s, script[0], d), script[1..], data))
  }

  /** Where such a script takes the loop. */
  ghost function Arrival(u: Setup, s: State, script: seq<Turn>, data: seq<Fetched>): State
    requires WellFormed(u.chain) && Inv(u, s) && HonestScript(u, s, script, data)
    decreases |script|
  {
    if script == [] then s
    else
      var d := DataAt(data, |s.indexed|);
      HonestStep(u, s, script[0], d);
      Arrival(u, Taken(u, s, script[0], d), script[1..], data)
  }

  // ---- How many turns it takes ----

  /** The turns for the blocks from the i-th on: retrieving each, its seals, moving on. */
  function WorkFrom(c: LiveChain, i: nat): nat
    decreases |c.blocks| - i
  {
    if i >= |c.blocks| then 0 else 2 + |c.blocks[i].seals| + WorkFrom(c, i + 1)
  }

  ghost function Work(u: Setup, s: State): int {
    var c := u.chain;
    if s.pos == 0 then 1 + WorkFrom(c, 1)
    else if s.pos >= |c.blocks| then 0
    else if s.phase == Fetching then WorkFrom(c, s.pos)
    else |c.blocks[s.pos].seals| - s.phase.k + 1 + WorkFrom(c, s.pos + 1)
  }

  function TotalWork(u: Setup): nat {
    1 + WorkFrom(u.chain, 1)
  }

  lemma {:induction false} WorkFromShrinks(c: LiveChain, i: nat, j: nat)
    requires i <= j
    ensures WorkFrom(c, j) <= WorkFrom(c, i)
    decreases j - i
  {
    if i < j {
      WorkFromShrinks(c, i + 1, j);
    }
  }

  lemma {:induction false} WorkBounds(u: Setup, s: State)
    requires WellFormed(u.chain) && Inv(u, s)
    ensures 0 <= Work(u, s) <= TotalWork(u) && (Work(u, s) == 0 <==> s.pos == |u.chain.blocks|)
  {
    hide Recorded, Waiting, NextSealed, SealInOrder;
    if s.pos >= 1 {
      WorkFromShrinks(u.chain, 1, s.pos);
    }
  }

  /** A turn that delivers is one turn less to go. */
  lemma {:induction false} DeliveryWorks(u: Setup, s: State, turn: Turn, d: Fetched)
    requires WellFormed(u.chain) && Inv(u, s) && turn.Delivers? && s.pos < |u.chain.blocks|
    ensures Work(u, Taken(u, s, turn, d)) == Work(u, s) - 1
  {
    hide Recorded, Waiting, NextSealed, SealInOrder;
  }

  lemma {:induction false} NothingMore(u: Setup, s: State, turn: Turn, d: Fetched)
    requires WellFormed(u.chain) && Inv(u, s) && s.pos == |u.chain.blocks|
    ensures Taken(u, s, turn, d) == s
  {
    hide Recorded, Waiting, NextSealed, SealInOrder;
  }

  /** The last turns all deliver, and are enough for the whole chain. */
  ghost predicate DeliversAtEnd(u: Setup, script: seq<Turn>) {
    |script| >= TotalWork(u) && forall k :: |script| - TotalWork(u) <= k < |script| ==> script[k].Delivers?
  }

  lemma {:induction false} DeliveriesArrive(u: Setup, s: State, script: seq<Turn>, data: seq<Fetched>)
    requires WellFormed(u.chain) && Inv(u, s) && HonestScript(u, s, script, data)
    requires |script| >= Work(u, s) && forall k :: 0 <= k < |script| ==> script[k].Delivers?
    ensures Inv(u, Arrival(u, s, script, data)) && Arrival(u, s, script, data).pos == |u.chain.blocks|
    decreases |script|
  {
    hide Inv, Taken, HonestTurn, Work;
    WorkBounds(u, s);
    if script != [] {
      var d := DataAt(data, |s.indexed|);
      HonestStep(u, s, script[0], d);
      if s.pos < |u.chain.blocks| {
        DeliveryWorks(u, s, script[0], d);
      } else {
        AtTheEnd(u, s);
        NothingMore(u, s, script[0], d);
      }
      DeliveriesArrive(u, Taken(u, s, script[0], d), script[1..], data);
    }
  }

  lemma {:induction false} AtTheEnd(u: Setup, s: State)
    requires WellFormed(u.chain) && Inv(u, s)
    ensures s.pos <= |u.chain.blocks|
  {
  }

  /** Whatever failed before, the loop then gets through the whole chain. */
  lemma {:induction false} ScriptArrives(u: Setup, s: State, script: seq<Turn>, data: seq<Fetched>)
    requires WellFormed(u.chain) && Inv(u, s) && HonestScript(u, s, script, data) && DeliversAtEnd(u, script)
    ensures Inv(u, Arrival(u, s, script, data)) && Arrival(u, s, script, data).pos == |u.chain.blocks|
    decreases |script|
  {
    hide Inv, Taken, HonestTurn, Work;
    WorkBounds(u, s);
    if |script| == TotalWork(u) {
      DeliveriesArrive(u, s, script, data);
    } else {
      var d := DataAt(data, |s.indexed|);
      HonestStep(u, s, script[0], d);
      ScriptArrives(u, Taken(u, s, script[0], d), script[1..], data);
    }
  }

  /** The store holds every block that a block of the chain seals. */
  ghost predicate HoldsSealed(u: Setup, root: BlockMeta, history: History) {
    forall i: nat, k: nat, j: nat :: Seals(u.chain, i, k, j) ==>
      HasHash(root, history, u.chain.root + j, u.chain.blocks[j].id)
  }

  lemma {:induction false} ArrivedHoldsSealed(u: Setup, s: State, ix: Indexer)
    requires WellFormed(u.chain) && Inv(u, s) && Tied(u, s, ix) && s.pos == |u.chain.blocks|
    ensures HoldsSealed(u, ix.store.root, ix.store.history)
  {
    hide Indexer.Valid, Inv, HasHash;
    forall i: nat, k: nat, j: nat | Seals(u.chain, i, k, j)
      ensures HasHash(ix.store.root, ix.store.history, u.chain.root + j, u.chain.blocks[j].id)
    {
      SealedIsIndexed(u, s, i, k, j);
    }
  }

  // ---- The loop ----

  function Ids(c: LiveChain): seq<Hash> {
    seq(|c.blocks|, i requires 0 <= i < |c.blocks| => c.blocks[i].id)
  }

  /** From this state on, every turn is honest about data that the indexer can take. */
  ghost predicate Honest(
      u: Setup, s: State, script: seq<Turn>, data: seq<Fetched>, cfg: Config, accts: map<Address, bool>,
      history: History)
    requires WellFormed(u.chain)
  {
    Inv(u, s) && HonestScript(u, s, script, data) && Digestible(cfg, accts, history, Ids(u.chain), data, |s.indexed|)
  }

  lemma {:induction false} HonestNow(
      u: Setup, s: State, script: seq<Turn>, data: seq<Fetched>, cfg: Config, accts: map<Address, bool>,
      history: History)
    requires WellFormed(u.chain) && Honest(u, s, script, data, cfg, accts, history) && script != []
    ensures TurnTakes(cfg, accts, history, u, s, script[0], DataAt(data, |s.indexed|))
  {
    hide Inv, Takes, Extends, HonestTurn, Taken;
    if script[0].Delivers? && Due(u, s) {
      DueIsNext(u, s);
    }
  }

  lemma {:induction false} DueIsNext(u: Setup, s: State)
    requires WellFormed(u.chain) && Inv(u, s) && Due(u, s)
    ensures |s.indexed| < |u.chain.blocks| && DueHash(u, s) == u.chain.blocks[|s.indexed|].id
  {
    hide Recorded, SealInOrder, NextSealed;
    if s.pos > 0 {
      SealIsForNext(u, s);
      WaitingId(u, s, DueHash(u, s));
    }
  }

  lemma {:induction false} HonestNext(
      u: Setup, s: State, script: seq<Turn>, data: seq<Fetched>, cfg: Config, accts: map<Address, bool>,
      history: History, accts': map<Address, bool>, history': History, f: Fetched)
    requires WellFormed(u.chain) && Honest(u, s, script, data, cfg, accts, history) && script != []
    requires script[0].Delivers? && Due(u, s) ==> f == DataAt(data, |s.indexed|)
    requires TurnExtends(cfg, accts, history, accts', history', u, s, script[0], f)
    ensures var s' := Taken(u, s, script[0], f);
            && Honest(u, s', script[1..], data, cfg, accts', history')
            && Arrival(u, s, script, data) == Arrival(u, s', script[1..], data)
  {
    hide Inv, Takes, Extends, HonestTurn;
    var d := DataAt(data, |s.indexed|);
    HonestStep(u, s, script[0], d);
    assert Taken(u, s, script[0], f) == Taken(u, s, script[0], d);
    if script[0].Delivers? && Due(u, s) {
      DueIsNext(u, s);
    }
  }

  /** indexLiveSpork, from the state a start or a restart finds, through one turn
      after another. Every state it passes through belongs to a run of the state
      machine; every block it hands to processBlock is the next one, so the store
      never skips it or finds a gap; it stops only at a block whose attempts do not
      lead to a commit; and at the end the store holds, from the spork root to its
      tip, exactly the blocks of the chain. On honest data it does not stop, and once
      enough turns have delivered it holds every block that the chain seals. */
  method IndexLiveSpork(
      u: Setup, ix: Indexer, stored: seq<Record>, script: seq<Turn>, ghost before: seq<State>, ghost data: seq<Fetched>)
    returns (stuck: bool, ghost run: seq<State>)
    requires WellFormed(u.chain) && IsRun(u, before)
    requires before[|before| - 1] == Resumed(u, stored, ix.sealedResults)
    requires Tied(u, Resumed(u, stored, ix.sealedResults), ix)
    modifies ix, ix.store
    ensures IsRun(u, run) && before <= run && Tied(u, run[|run| - 1], ix)
    ensures LiveTurns(u, run, |before|, script, stuck, ix)
    ensures ix.store.root == old(ix.store.root) && old(ix.store.history) <= ix.store.history
    ensures ix.lastIndexed.height < u.chain.root + |u.chain.blocks|
    ensures forall m :: 0 <= m < |u.chain.blocks| && u.chain.root + m <= ix.lastIndexed.height ==>
              HasHash(ix.store.root, ix.store.history, u.chain.root + m, u.chain.blocks[m].id)
    ensures var s := Resumed(u, stored, old(ix.sealedResults));
            Honest(u, s, script, data, ix.cfg, old(ix.accts), old(ix.store.history)) ==>
              && !stuck && run[|run| - 1] == Arrival(u, s, script, data)
              && (DeliversAtEnd(u, script) ==> HoldsSealed(u, ix.store.root, ix.store.history))
  {
    hide Indexer.Valid, Step, Inv, Recorded, Waiting, HasHash, SealInOrder, Stuck, Taken, TurnTakes, TurnExtends;
    hide HonestScript, Digestible, HoldsSealed, DeliversAtEnd, Ids;
    run, stuck := before, false;
    var s := Resumed(u, stored, ix.sealedResults);
    ghost var s0 := s;
    ghost var honest := Honest(u, s, script, data, ix.cfg, ix.accts, ix.store.history);
    assert script[0..] == script;
    for i := 0 to |script|
      invariant IsRun(u, run) && before <= run && run[|run| - 1] == s && Tied(u, s, ix)
      invariant ix.store.root == old(ix.store.root) && old(ix.store.history) <= ix.store.history
      invariant |run| == |before| + i
      invariant forall k :: 0 <= k < i ==> TookTurn(u, run, |before|, script, k)
      invariant honest ==>
                  && Honest(u, s0, script, data, ix.cfg, old(ix.accts), old(ix.store.history))
                  && Honest(u, s, script[i..], data, ix.cfg, ix.accts, ix.store.history)
                  && Arrival(u, s, script[i..], data) == Arrival(u, s0, script, data)
    {
      LiveSporkSafety(u, run, |run| - 1);
      ghost var d := DataAt(data, |s.indexed|);
      if honest {
        assert script[i..][0] == script[i] && script[i..][1..] == script[i + 1..];
        HonestNow(u, s, script[i..], data, ix.cfg, ix.accts, ix.store.history);
      }
      ghost var accts, history := ix.accts, ix.store.history;
      ghost var f;
      var s', ok;
      s', ok, f := Next(u, s, ix, script[i], d);
      if honest {
        HonestNext(u, s, script[i..], data, ix.cfg, accts, history, ix.accts, ix.store.history, f);
      }
      RunOneMore(u, run, s');
      StillTook(u, run, s', |before|, script, i);
      run := run + [s'];
      assert run[|before| + i - 1] == s && run[|before| + i] == s';
      s := s';
      if !ok {
        stuck := true;
        return;
      }
    }
    if honest && DeliversAtEnd(u, script) {
      ScriptArrives(u, s0, script, data);
      ArrivedHoldsSealed(u, s, ix);
    }
  }

  /** What is answered for a block of the live spork above its root: the parent is the
      one that the block names. */
  method LiveBlockData(u: Setup, ix: Indexer, ghost s: State, m: nat) returns (data: BlockData)
    requires WellFormed(u.chain) && Tied(u, s, ix) && 0 < m < |s.indexed|
    ensures data.height == u.chain.root + m && data.hash == u.chain.blocks[m].id
    ensures data.parentHeight == u.chain.root + m - 1 && data.parentHash == u.chain.blocks[m].parentId
  {
    ghost var root, history := ix.store.root, ix.store.history;
    assert HasHash(root, history, u.chain.root + m, u.chain.blocks[m].id);
    assert HasHash(root, history, u.chain.root + (m - 1), u.chain.blocks[m - 1].id);
    var found := ix.store.BlockByHeight(u.chain.root + m);
    data := found.value;
  }
}
