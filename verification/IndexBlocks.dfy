/** indexBlocks: the passes over the past sporks and then the live loop. */
module IndexBlocks {
  import opened Prelude
  import opened Bytes
  import opened Model
  import opened IndexSpec
  import opened IndexDb
  import opened Ledger
  import opened Indexer
  import opened Sporks
  import opened LiveSpork
  import opened ProcessLoop
  import opened PastLoop
  import opened LiveLoop

  /** indexBlocks: passes over the past sporks until the next height belongs to the
      live spork, then its loop, with the seals that the passes left on record. What
      is stored of the live spork at the start belongs to a run of the loop. */
  method IndexAllBlocks(
      u: Setup, ix: Indexer, sporks: seq<Spork>, liveRoot: BlockMeta, passes: seq<PassScript>, script: seq<Turn>,
      stored: seq<Record>, ghost before: seq<State>, ghost pastData: seq<Fetched>, ghost liveData: seq<Fetched>)
    returns (live: bool, stuck: bool, ghost walks: seq<seq<ByteString>>, ghost plan: seq<Planned>,
             ghost fs: seq<Fetched>, ghost run: seq<State>, ghost start: (map<Address, bool>, History))
    requires ix.Valid() && Linked(sporks) && sporks[0].rootBlock <= ix.lastIndexed.height
    requires WellFormed(u.chain) && u.hasPrev == (|sporks| > 1)
    requires liveRoot.height == u.chain.root == sporks[|sporks| - 1].rootBlock
    requires liveRoot.hash == u.chain.blocks[0].id
    requires u.chain.root <= ix.lastIndexed.height ==>
               && IsRun(u, before) && before[|before| - 1] == Resumed(u, stored, ix.sealedResults)
               && Tied(u, Resumed(u, stored, ix.sealedResults), ix)
    modifies ix, ix.store
    ensures ix.Valid() && ix.store.root == old(ix.store.root) && old(ix.store.history) <= ix.store.history
    ensures live <==> u.chain.root <= old(ix.lastIndexed.height) + 1 || (plan != [] && |fs| == |plan|)
    ensures live ==>
              && IsRun(u, run) && Tied(u, run[|run| - 1], ix)
              && (forall m :: 0 <= m < |u.chain.blocks| && u.chain.root + m <= ix.lastIndexed.height ==>
                    HasHash(ix.store.root, ix.store.history, u.chain.root + m, u.chain.blocks[m].id))
    ensures live ==>
              var from := if u.chain.root <= old(ix.lastIndexed.height) then |before| else 1;
              && LiveTurns(u, run, from, script, stuck, ix) && 0 < from <= |run|
              && (Honest(u, run[from - 1], script, liveData, ix.cfg, start.0, start.1) ==>
                    && !stuck && run[|run| - 1] == Arrival(u, run[from - 1], script, liveData)
                    && (DeliversAtEnd(u, script) ==> HoldsSealed(u, ix.store.root, ix.store.history)))
    ensures (&& plan != [] && old(ix.lastIndexed.height) + 1 < u.chain.root
             && HonestPass(sporks, u.tolerance, liveRoot, old(ix.sealedResults), passes, walks, plan, pastData)
             && Digestible(ix.cfg, old(ix.accts), old(ix.store.history), PlanHashes(plan), pastData, 0)) ==> live
    ensures old(ix.lastIndexed.height) + 1 < u.chain.root ==>
              && PassesDid(sporks, u.tolerance, liveRoot, old(ix.lastIndexed), old(ix.sealedResults), passes, walks,
                           plan, fs)
              && Holds(ix.store.root, ix.store.history, plan[..|fs|])
              && (live ==> run[0] == Resumed(u, [StoredRoot(u)],
                                             OnRecordAfter(old(ix.sealedResults), liveRoot, passes, walks) -
                                             HashesOf(plan)))
              && (!live ==>
                    && ix.lastIndexed.height == old(ix.lastIndexed.height) + |fs| < u.chain.root
                    && (plan != [] ==> StuckPlanned(ix, sporks, u.tolerance, liveRoot, passes[|walks| - 1],
                                                    plan[|fs|], |fs|)))
  {
    hide Indexer.Valid, HasHash, Holds, OnRecordAfter, LiveTurns, StuckPlanned, HashesOf, Additions;
    hide AllCommittedFrom, NoChain, ReportedParent, Honest, HonestPass, Digestible, PlanHashes, DeliversAtEnd;
    hide HoldsSealed;
    live, stuck, walks, plan, fs, run, start := true, false, [], [], [], before, (ix.accts, ix.store.history);
    var known := stored;
    var j := SporkFor(sporks, ix.lastIndexed.height + 1);
    LiveIsLast(sporks, j.value, ix.lastIndexed.height + 1);
    if j.value < |sporks| - 1 {
      live, plan, walks, fs := RepeatPasses(ix, sporks, u.tolerance, liveRoot, passes, pastData);
      if !live {
        return;
      }
      known := [StoredRoot(u)];
      assert plan[..|fs|] == plan;
    } else if ix.lastIndexed.height + 1 == u.chain.root {
      known := [];
    }
    ghost var history := ix.store.history;
    if ix.lastIndexed.height < u.chain.root || j.value < |sporks| - 1 {
      run := [Resumed(u, known, ix.sealedResults)];
      FreshTied(u, known, ix);
    }
    start := (ix.accts, ix.store.history);
    stuck, run := IndexLiveSpork(u, ix, known, script, run, liveData);
    StillHolds(ix.store.root, history, ix.store.history, plan[..|fs|]);
  }

  lemma {:induction false} LiveIsLast(sporks: seq<Spork>, j: nat, height: uint64)
    requires Linked(sporks) && Contains(sporks, j, height)
    ensures j == |sporks| - 1 <==> sporks[|sporks| - 1].rootBlock <= height
  {
    if sporks[|sporks| - 1].rootBlock <= height {
      SporkIsUnique(sporks, j, |sporks| - 1, height);
    }
  }

  /** At the root of the live spork, stored or next, its loop starts afresh. */
  lemma {:induction false} FreshTied(u: Setup, start: seq<Record>, ix: Indexer)
    requires WellFormed(u.chain) && ix.Valid()
    requires (start == [] && ix.lastIndexed.height + 1 == u.chain.root) ||
             (start == [StoredRoot(u)] && ix.lastIndexed.height == u.chain.root &&
              ix.lastIndexed.hash == u.chain.blocks[0].id)
    ensures Tied(u, Resumed(u, start, ix.sealedResults), ix)
    ensures IsRun(u, [Resumed(u, start, ix.sealedResults)])
  {
    hide Indexer.Valid, HasHash;
    TipHasHash(ix, ix.lastIndexed.height, ix.lastIndexed.hash);
  }

  lemma {:induction false} StillHolds(root: BlockMeta, before: History, after: History, plan: seq<Planned>)
    requires before <= after
    ensures Holds(root, before, plan) ==> Holds(root, after, plan)
  {
    if Holds(root, before, plan) {
      forall k | 0 <= k < |plan| ensures HasHash(root, after, plan[k].height, plan[k].hash) {
        LongerHasHash(root, before, after, plan[k].height, plan[k].hash);
      }
    }
  }
}
