/** The passes over the past sporks driving the indexer: which blocks they commit and
    why, and that a pass over honest data completes. */
module PastLoop {
  import opened Prelude
  import opened Bytes
  import opened Model
  import opened IndexSpec
  import opened IndexDb
  import opened Ledger
  import opened Indexer
  import opened Sporks
  import opened ProcessLoop

  /** What a pass over the past sporks works with. */
  datatype PastPass = PastPass(sporks: seq<Spork>, tolerance: uint64, liveRoot: BlockMeta, reporter: Reporter)

  function SporkInfoOf(sporks: seq<Spork>, i: nat): SporkInfo
    requires i < |sporks|
  {
    SporkInfo(sporks[i].rootBlock, i > 0, if i + 1 < |sporks| then Some(sporks[i + 1].rootBlock) else None)
  }

  // ---- The gate, on the configuration and the data ----

  /** The root block of a later spork seals itself. */
  predicate SelfSealed(c: PastPass, j: nat, p: Planned)
    requires j < |c.sporks|
  {
    j > 0 && p.height == c.sporks[j].rootBlock
  }

  predicate WithinTolerance(c: PastPass, j: nat, p: Planned)
    requires j < |c.sporks|
  {
    j + 1 < |c.sporks| && p.height >= ToUint64(c.sporks[j + 1].rootBlock - c.tolerance)
  }

  /** The result of the block is beyond doubt: the block is a self-sealed root, or it is
      the result on record, or the block is unsealed within the tolerance. */
  predicate Settled(c: PastPass, j: nat, results: Results, p: Planned, result: ByteString)
    requires j < |c.sporks|
  {
    || SelfSealed(c, j, p)
    || (if p.hash in results then results[p.hash] == result else WithinTolerance(c, j, p))
  }

  /** This data for the block is let through. */
  predicate SoundPlanned(c: PastPass, j: nat, results: Results, p: Planned, f: Fetched)
    requires j < |c.sporks|
  {
    f.skip || (f.eventsMatch && f.derivedResult.Some? && Settled(c, j, results, p, f.derivedResult.value))
  }

  /** No result is known for a block that needs one. */
  predicate Unsettled(c: PastPass, j: nat, results: Results, p: Planned, f: Fetched)
    requires j < |c.sporks|
  {
    && !f.skip && f.eventsMatch && f.derivedResult.Some?
    && !SelfSealed(c, j, p) && p.hash !in results && !WithinTolerance(c, j, p)
  }

  lemma {:induction false} PlannedGate(c: PastPass, j: nat, results: Results, p: Planned, f: Fetched)
    requires j < |c.sporks|
    ensures SealGate(SporkInfoOf(c.sporks, j), c.tolerance, p.height, p.hash, f, results) ==
            if SoundPlanned(c, j, results, p, f) then Pass
            else if Unsettled(c, j, results, p, f) then Fatal
            else Again
  {
    hide ToUint64;
  }

  // ---- Why a block is committed ----

  /** A block of the plan carries this seal. */
  ghost predicate SealedIn(c: PastPass, plan: seq<Planned>, seal: Seal) {
    exists j :: 0 <= j < |plan| && seal in SealsOf(c.liveRoot, c.reporter, plan[j])
  }

  /** Neither was a result for this hash on record before, nor does a walked block seal it. */
  ghost predicate Unsealed(c: PastPass, plan: seq<Planned>, before: Results, hash: ByteString) {
    hash !in before && forall result :: !SealedIn(c, plan, Seal(hash, result))
  }

  /** Why a block was committed: it is configured to be skipped, is a self-sealed
      root, carries the result that was on record before or that a walked block
      seals, or is unsealed within the tolerance before the next root (or an earlier
      block with its hash, now gone, used up the seal). */
  ghost predicate Justified(
      c: PastPass, plan: seq<Planned>, before: Results, gone: set<ByteString>, spork: SporkInfo, p: Planned,
      f: Fetched)
  {
    || f.skip
    || (f.eventsMatch && f.derivedResult.Some? &&
        var result := f.derivedResult.value;
        || (spork.hasPrev && p.height == spork.rootBlock)
        || (p.hash in before && before[p.hash] == result)
        || SealedIn(c, plan, Seal(p.hash, result))
        || (&& spork.nextRoot.Some? && p.height >= ToUint64(spork.nextRoot.value - c.tolerance)
            && (p.hash in gone || Unsealed(c, plan, before, p.hash))))
  }

  lemma {:induction false} TurnedSealedIn(
      c: PastPass, start: uint64, walked: seq<ByteString>, plan: seq<Planned>, seal: Seal)
    requires start + |walked| == c.liveRoot.height + 1 && Turned(start, walked, plan)
    requires seal in WalkedSeals(c.liveRoot, c.reporter, walked)
    ensures SealedIn(c, plan, seal)
  {
    var j := WalkedSealIsInBlock(c.liveRoot, c.reporter, walked, seal);
    assert plan[|walked| - 1 - j] == Planned(c.liveRoot.height - j, walked[j]);
  }

  /** What the gate lets through, given the seals the walk recorded, is justified. */
  lemma {:induction false} PassIsJustified(
      c: PastPass, plan: seq<Planned>, before: Results, start: uint64, walked: seq<ByteString>, gone: set<ByteString>,
      spork: SporkInfo, p: Planned, f: Fetched)
    requires start + |walked| == c.liveRoot.height + 1 && Turned(start, walked, plan)
    requires SealGate(spork, c.tolerance, p.height, p.hash, f,
                      OnRecord(before, WalkedSeals(c.liveRoot, c.reporter, walked)) - gone) == Pass
    ensures Justified(c, plan, before, gone, spork, p, f)
  {
    hide Turned, SealedIn, OnRecord, WalkedSeals;
    var seals := WalkedSeals(c.liveRoot, c.reporter, walked);
    var results := OnRecord(before, seals);
    if !f.skip && p.hash in results {
      RecordedFrom(before, seals, p.hash);
      var seal := Seal(p.hash, results[p.hash]);
      if seal in seals {
        TurnedSealedIn(c, start, walked, plan, seal);
      }
    }
    if p.hash !in results {
      UnrecordedIsUnsealed(c, start, walked, plan, before, p.hash);
    }
  }

  lemma {:induction false} UnrecordedIsUnsealed(
      c: PastPass, start: uint64, walked: seq<ByteString>, plan: seq<Planned>, before: Results, hash: ByteString)
    requires start + |walked| == c.liveRoot.height + 1 && Turned(start, walked, plan)
    requires hash !in OnRecord(before, WalkedSeals(c.liveRoot, c.reporter, walked))
    ensures Unsealed(c, plan, before, hash)
  {
    hide Turned, SealedIn, OnRecord, WalkedSeals;
    var seals := WalkedSeals(c.liveRoot, c.reporter, walked);
    if hash in before {
      AllRecorded(before, seals, hash);
    }
    forall result | SealedIn(c, plan, Seal(hash, result)) ensures false {
      SealedInIsWalked(c, start, walked, plan, Seal(hash, result));
      AllRecorded(before, seals, hash);
    }
  }

  lemma {:induction false} SealedInIsWalked(
      c: PastPass, start: uint64, walked: seq<ByteString>, plan: seq<Planned>, seal: Seal)
    requires start + |walked| == c.liveRoot.height + 1 && Turned(start, walked, plan)
    requires SealedIn(c, plan, seal)
    ensures seal in WalkedSeals(c.liveRoot, c.reporter, walked)
  {
    hide WalkedSeals, SealsOf;
    var j :| 0 <= j < |plan| && seal in SealsOf(c.liveRoot, c.reporter, plan[j]);
    BlockSealIsWalked(c.liveRoot, c.reporter, walked, |walked| - 1 - j, seal);
  }

  function HashesOf(plan: seq<Planned>): set<ByteString> {
    set p | p in plan :: p.hash
  }

  /** The pass does not die for want of a seal: where a walked block seals the next
      one of the plan, and no earlier one has its hash, the gate is not fatal. */
  lemma {:induction false} SealedIsNotFatal(
      c: PastPass, plan: seq<Planned>, before: Results, start: uint64, walked: seq<ByteString>, k: nat, seal: Seal,
      spork: SporkInfo, f: Fetched)
    requires start + |walked| == c.liveRoot.height + 1 && Turned(start, walked, plan) && k < |plan|
    requires SealedIn(c, plan, seal) && seal.blockId == plan[k].hash
    requires forall i :: 0 <= i < k ==> plan[i].hash != plan[k].hash
    ensures var results := OnRecord(before, WalkedSeals(c.liveRoot, c.reporter, walked)) - HashesOf(plan[..k]);
            SealGate(spork, c.tolerance, plan[k].height, plan[k].hash, f, results) != Fatal
  {
    hide OnRecord, WalkedSeals, SealedIn;
    SealedInIsWalked(c, start, walked, plan, seal);
    AllRecorded(before, WalkedSeals(c.liveRoot, c.reporter, walked), seal.blockId);
  }

  /** The blocks that a pass adds to the chain. */
  function Additions(plan: seq<Planned>, fs: seq<Fetched>): Chain
    requires |fs| <= |plan|
  {
    if fs == [] then []
    else
      var n := |fs| - 1;
      Additions(plan, fs[..n]) + [Fetches(plan[n].hash, fs[n])]
  }

  /** The data of a committed block came from its attempts and justifies it. */
  ghost predicate CommittedFrom(
      c: PastPass, plan: seq<Planned>, before: Results, gone: set<ByteString>, p: Planned, attempts: seq<Fetched>,
      f: Fetched)
  {
    && f in attempts
    && exists j :: Contains(c.sporks, j, p.height) && Justified(c, plan, before, gone, SporkInfoOf(c.sporks, j), p, f)
  }

  ghost predicate AllCommittedFrom(
      c: PastPass, plan: seq<Planned>, before: Results, script: seq<seq<Fetched>>, fs: seq<Fetched>)
  {
    && |fs| <= |plan| && |fs| <= |script|
    && forall k :: 0 <= k < |fs| ==> CommittedFrom(c, plan, before, HashesOf(plan[..k]), plan[k], script[k], fs[k])
  }

  /** The history holds every one of these blocks. */
  ghost predicate Holds(root: BlockMeta, history: History, plan: seq<Planned>) {
    forall k :: 0 <= k < |plan| ==> HasHash(root, history, plan[k].height, plan[k].hash)
  }

  lemma {:induction false} HoldsOneMore(root: BlockMeta, before: History, after: History, plan: seq<Planned>, i: nat)
    requires before <= after && i < |plan| && Holds(root, before, plan[..i])
    requires HasHash(root, after, plan[i].height, plan[i].hash)
    ensures Holds(root, after, plan[..i + 1])
  {
    forall k | 0 <= k < i + 1 ensures HasHash(root, after, plan[k].height, plan[k].hash) {
      if k < i {
        assert plan[..i][k] == plan[k];
        LongerHasHash(root, before, after, plan[k].height, plan[k].hash);
      }
    }
  }

  /** The attempts at this block of the plan lead to a commit. */
  ghost predicate LeadsPlanned(ix: Indexer, c: PastPass, p: Planned, attempts: seq<Fetched>)
    reads ix, ix.store
  {
    exists j :: Contains(c.sporks, j, p.height) &&
      Leads(ix, SporkInfoOf(c.sporks, j), c.tolerance, p.height, p.hash, attempts)
  }

  lemma {:induction false} OnlySpork(sporks: seq<Spork>, i: nat, height: uint64)
    requires Linked(sporks) && Contains(sporks, i, height)
    ensures forall j :: Contains(sporks, j, height) ==> j == i
  {
    forall j | Contains(sporks, j, height) ensures j == i {
      SporkIsUnique(sporks, i, j, height);
    }
  }

  // ---- Honest passes ----

  /** The seals on record when the k-th block of the plan is processed. */
  ghost function ResultsAt(
      c: PastPass, plan: seq<Planned>, before: Results, walked: seq<ByteString>, k: nat): Results
    requires |walked| <= c.liveRoot.height + 1 && k <= |plan|
  {
    OnRecord(before, WalkedSeals(c.liveRoot, c.reporter, walked)) - HashesOf(plan[..k])
  }

  /** The attempts at a block come to this sound data, after some that are sent back. */
  ghost predicate HonestAttempts(c: PastPass, results: Results, p: Planned, attempts: seq<Fetched>, d: Fetched) {
    exists j, i :: Contains(c.sporks, j, p.height) && 0 <= i < |attempts| && attempts[i] == d &&
      SoundPlanned(c, j, results, p, d) &&
      forall l :: 0 <= l < i ==>
        !SoundPlanned(c, j, results, p, attempts[l]) && !Unsettled(c, j, results, p, attempts[l])
  }

  ghost predicate HonestPlan(
      c: PastPass, plan: seq<Planned>, before: Results, walked: seq<ByteString>, script: seq<seq<Fetched>>,
      data: seq<Fetched>)
    requires |walked| <= c.liveRoot.height + 1
  {
    && |data| == |plan| <= |script|
    && forall k :: 0 <= k < |plan| ==>
         HonestAttempts(c, ResultsAt(c, plan, before, walked, k), plan[k], script[k], data[k])
  }

  lemma {:induction false} HonestPlannedIsGated(
      c: PastPass, j: nat, results: Results, p: Planned, attempts: seq<Fetched>, d: Fetched)
    requires Linked(c.sporks) && Contains(c.sporks, j, p.height) && HonestAttempts(c, results, p, attempts, d)
    ensures Gated(SporkInfoOf(c.sporks, j), c.tolerance, p.height, p.hash, results, attempts, d)
  {
    hide SealGate, SoundPlanned, Unsettled, Linked, SporkInfoOf;
    OnlySpork(c.sporks, j, p.height);
    var j', i :| Contains(c.sporks, j', p.height) && 0 <= i < |attempts| && attempts[i] == d &&
      SoundPlanned(c, j', results, p, d) &&
      forall l :: 0 <= l < i ==>
        !SoundPlanned(c, j', results, p, attempts[l]) && !Unsettled(c, j', results, p, attempts[l]);
    PlannedGate(c, j, results, p, d);
    forall l | 0 <= l < i
      ensures SealGate(SporkInfoOf(c.sporks, j), c.tolerance, p.height, p.hash, attempts[l], results) == Again
    {
      PlannedGate(c, j, results, p, attempts[l]);
    }
  }

  function PlanHashes(plan: seq<Planned>): seq<ByteString> {
    seq(|plan|, k requires 0 <= k < |plan| => plan[k].hash)
  }

  /** One call of processBlock by the pass. */
  method IndexPlanned(
      ix: Indexer, c: PastPass, plan: seq<Planned>, p: Planned, attempts: seq<Fetched>, ghost before: Results,
      ghost start: uint64, ghost walked: seq<ByteString>, ghost gone: set<ByteString>, ghost d: Fetched)
    returns (committed: bool, f: Fetched)
    requires ix.Valid() && Linked(c.sporks) && c.sporks[0].rootBlock <= p.height == ix.lastIndexed.height + 1
    requires start + |walked| == c.liveRoot.height + 1 && Turned(start, walked, plan)
    requires ix.sealedResults == OnRecord(before, WalkedSeals(c.liveRoot, c.reporter, walked)) - gone
    modifies ix, ix.store
    ensures ix.Valid() && ix.store.root == old(ix.store.root) && old(ix.store.history) <= ix.store.history
    ensures committed <==> old(LeadsPlanned(ix, c, p, attempts))
    ensures !committed ==>
              && !LeadsPlanned(ix, c, p, attempts) && ix.chain == old(ix.chain) && ix.accts == old(ix.accts)
              && ix.store.history == old(ix.store.history) && ix.lastIndexed == old(ix.lastIndexed)
              && ix.sealedResults == old(ix.sealedResults)
    ensures committed ==>
              && CommittedFrom(c, plan, before, gone, p, attempts, f)
              && ix.chain == old(ix.chain) + [Fetches(p.hash, f)]
              && ix.lastIndexed.height == p.height && ix.lastIndexed.hash == p.hash
              && HasHash(ix.store.root, ix.store.history, p.height, p.hash)
              && ix.sealedResults == old(ix.sealedResults) - {p.hash}
              && Extends(ix.cfg, old(ix.accts), old(ix.store.history), ix.accts, ix.store.history, p.hash, f)
    ensures (&& HonestAttempts(c, old(ix.sealedResults), p, attempts, d)
             && Takes(ix.cfg, old(ix.accts), old(ix.store.history), p.hash, d)) ==> committed && f == d
  {
    hide Indexer.Valid, HasHash, Leads, LeadsAt, Justified, OnRecord, WalkedSeals, Fetches, SealGate, Turned, Linked;
    hide HonestAttempts, Gated, Takes, Extends;
    var j := SporkFor(c.sporks, p.height);
    OnlySpork(c.sporks, j.value, p.height);
    var spork := SporkInfoOf(c.sporks, j.value);
    if HonestAttempts(c, ix.sealedResults, p, attempts, d) {
      HonestPlannedIsGated(c, j.value, ix.sealedResults, p, attempts, d);
    }
    GatedLeads(ix, spork, c.tolerance, p.height, p.hash, attempts, d);
    committed, f := ProcessUntil(ix, spork, c.tolerance, p.height, p.hash, attempts);
    if committed {
      PassIsJustified(c, plan, before, start, walked, gone, spork, p, f);
    }
  }

  /** The second half of indexPastSporks: the planned blocks, up to the first whose
      attempts do not lead to a commit. */
  method IndexPlan(
      ix: Indexer, c: PastPass, plan: seq<Planned>, script: seq<seq<Fetched>>, ghost before: Results,
      ghost walked: seq<ByteString>, ghost data: seq<Fetched>)
    returns (ghost fs: seq<Fetched>)
    requires ix.Valid() && Linked(c.sporks) && c.sporks[0].rootBlock <= ix.lastIndexed.height
    requires ix.lastIndexed.height + |walked| == c.liveRoot.height < TWO_64 - 1
    requires Turned(ix.lastIndexed.height + 1, walked, plan)
    requires ix.sealedResults == OnRecord(before, WalkedSeals(c.liveRoot, c.reporter, walked))
    modifies ix, ix.store
    ensures ix.Valid() && ix.store.root == old(ix.store.root) && old(ix.store.history) <= ix.store.history
    ensures AllCommittedFrom(c, plan, before, script, fs) && Holds(ix.store.root, ix.store.history, plan[..|fs|])
    ensures ix.lastIndexed.height == old(ix.lastIndexed.height) + |fs|
    ensures if fs == [] then ix.lastIndexed == old(ix.lastIndexed) else ix.lastIndexed.hash == plan[|fs| - 1].hash
    ensures ix.chain == old(ix.chain) + Additions(plan, fs)
    ensures ix.sealedResults == old(ix.sealedResults) - HashesOf(plan[..|fs|])
    ensures |fs| < |plan| && |fs| < |script| ==> !LeadsPlanned(ix, c, plan[|fs|], script[|fs|])
    ensures (&& HonestPlan(c, plan, before, walked, script, data)
             && Digestible(ix.cfg, old(ix.accts), old(ix.store.history), PlanHashes(plan), data, 0)) ==>
              |fs| == |plan|
  {
    hide Indexer.Valid, HasHash, LeadsPlanned, OnRecord, WalkedSeals, Linked, HonestPlan, HonestAttempts, Digestible;
    hide HashesOf, AllCommittedFrom, CommittedFrom, Additions, Fetches, Holds, Takes, Extends;
    hide HonestFrom, ResultsAt, Turned;
    ghost var honest := HonestFrom(c, plan, before, walked, script, data, ix.cfg, ix.accts, ix.store.history, 0);
    HonestBegins(c, plan, before, walked, script, data, ix.cfg, ix.accts, ix.store.history);
    fs := [];
    ghost var start := ix.lastIndexed;
    PlanBegins(c, plan, before, ix.sealedResults, script, ix.store.root, ix.store.history);
    for i := 0 to |plan|
      invariant ix.Valid() && ix.store.root == old(ix.store.root) && old(ix.store.history) <= ix.store.history
      invariant |fs| == i && ix.lastIndexed.height == start.height + i
      invariant if i == 0 then ix.lastIndexed == start else ix.lastIndexed.hash == plan[i - 1].hash
      invariant ix.chain == old(ix.chain) + Additions(plan, fs)
      invariant ix.sealedResults == old(ix.sealedResults) - HashesOf(plan[..i])
      invariant AllCommittedFrom(c, plan, before, script, fs) && Holds(ix.store.root, ix.store.history, plan[..i])
      invariant honest ==>
                  HonestFrom(c, plan, before, walked, script, data, ix.cfg, ix.accts, ix.store.history, i)
    {
      ghost var d := if i < |data| then data[i] else Fetched(0, [], false, false, None);
      if honest {
        HonestNow(c, plan, before, walked, script, data, ix.cfg, ix.accts, ix.store.history, i);
      }
      if i >= |script| {
        return;
      }
      TurnedAt(start.height + 1, walked, plan, i);
      ghost var earlier, accts := ix.store.history, ix.accts;
      var committed, f := IndexPlanned(ix, c, plan, plan[i], script[i], before, start.height + 1, walked,
                                       HashesOf(plan[..i]), d);
      if !committed {
        return;
      }
      HoldsOneMore(ix.store.root, earlier, ix.store.history, plan, i);
      if honest {
        HonestNext(c, plan, before, walked, script, data, ix.cfg, accts, earlier, ix.accts, ix.store.history, i);
      }
      PlanOneMore(c, plan, before, old(ix.sealedResults), script, fs, f);
      fs := fs + [f];
    }
  }

  /** The plan is honest, and its blocks can be indexed from the k-th on. */
  ghost predicate HonestFrom(
      c: PastPass, plan: seq<Planned>, before: Results, walked: seq<ByteString>, script: seq<seq<Fetched>>,
      data: seq<Fetched>, cfg: Config, accts: map<Address, bool>, history: History, k: nat)
    requires |walked| <= c.liveRoot.height + 1
  {
    HonestPlan(c, plan, before, walked, script, data) && Digestible(cfg, accts, history, PlanHashes(plan), data, k)
  }

  lemma {:induction false} HonestBegins(
      c: PastPass, plan: seq<Planned>, before: Results, walked: seq<ByteString>, script: seq<seq<Fetched>>,
      data: seq<Fetched>, cfg: Config, accts: map<Address, bool>, history: History)
    requires |walked| <= c.liveRoot.height + 1
    ensures HonestFrom(c, plan, before, walked, script, data, cfg, accts, history, 0) <==>
            HonestPlan(c, plan, before, walked, script, data) &&
            Digestible(cfg, accts, history, PlanHashes(plan), data, 0)
  {
    hide HonestPlan, Digestible, PlanHashes;
  }

  lemma {:induction false} HonestNow(
      c: PastPass, plan: seq<Planned>, before: Results, walked: seq<ByteString>, script: seq<seq<Fetched>>,
      data: seq<Fetched>, cfg: Config, accts: map<Address, bool>, history: History, k: nat)
    requires |walked| <= c.liveRoot.height + 1 && k < |plan|
    requires HonestFrom(c, plan, before, walked, script, data, cfg, accts, history, k)
    ensures |data| == |plan| <= |script| && Takes(cfg, accts, history, plan[k].hash, data[k])
    ensures HonestAttempts(c, OnRecord(before, WalkedSeals(c.liveRoot, c.reporter, walked)) - HashesOf(plan[..k]),
                           plan[k], script[k], data[k])
  {
    hide HonestAttempts, OnRecord, WalkedSeals, HashesOf, Takes, Extends;
    assert HonestAttempts(c, ResultsAt(c, plan, before, walked, k), plan[k], script[k], data[k]);
  }

  lemma {:induction false} HonestNext(
      c: PastPass, plan: seq<Planned>, before: Results, walked: seq<ByteString>, script: seq<seq<Fetched>>,
      data: seq<Fetched>, cfg: Config, accts: map<Address, bool>, history: History, accts': map<Address, bool>,
      history': History, k: nat)
    requires |walked| <= c.liveRoot.height + 1 && k < |plan|
    requires HonestFrom(c, plan, before, walked, script, data, cfg, accts, history, k) && k < |data|
    requires Extends(cfg, accts, history, accts', history', plan[k].hash, data[k])
    ensures HonestFrom(c, plan, before, walked, script, data, cfg, accts', history', k + 1)
  {
    hide HonestPlan, Takes, Extends;
  }

  lemma {:induction false} TurnedAt(start: uint64, walked: seq<ByteString>, plan: seq<Planned>, i: nat)
    requires Turned(start, walked, plan) && i < |plan|
    ensures plan[i].height == start + i
  {
  }

  lemma {:induction false} PlanBegins(
      c: PastPass, plan: seq<Planned>, before: Results, results: Results, script: seq<seq<Fetched>>, root: BlockMeta,
      history: History)
    ensures results - HashesOf(plan[..0]) == results && Additions(plan, []) == []
    ensures AllCommittedFrom(c, plan, before, script, []) && Holds(root, history, plan[..0])
  {
  }

  lemma {:induction false} PlanOneMore(
      c: PastPass, plan: seq<Planned>, before: Results, results: Results, script: seq<seq<Fetched>>, fs: seq<Fetched>,
      f: Fetched)
    requires |fs| < |plan| && |fs| < |script| && AllCommittedFrom(c, plan, before, script, fs)
    requires CommittedFrom(c, plan, before, HashesOf(plan[..|fs|]), plan[|fs|], script[|fs|], f)
    ensures AllCommittedFrom(c, plan, before, script, fs + [f])
    ensures Additions(plan, fs + [f]) == Additions(plan, fs) + [Fetches(plan[|fs|].hash, f)]
    ensures results - HashesOf(plan[..|fs|]) - {plan[|fs|].hash} == results - HashesOf(plan[..|fs| + 1])
  {
    hide CommittedFrom, Fetches;
    assert plan[..|fs| + 1] == plan[..|fs|] + [plan[|fs|]];
    assert HashesOf(plan[..|fs| + 1]) == HashesOf(plan[..|fs|]) + {plan[|fs|].hash};
    assert (fs + [f])[..|fs|] == fs;
  }

  /** No chain of reported parents leads from the live root to this block. */
  ghost predicate NoChain(liveRoot: BlockMeta, reporter: Reporter, last: BlockMeta)
    requires last.height < liveRoot.height
  {
    forall p: seq<Planned> :: IsHashChain(liveRoot, reporter, last.height + 1, p) ==>
      ReportedParent(liveRoot, reporter, p[0]) != Some(last.hash)
  }

  /** One pass of indexPastSporks. The walk records the seals it sees, also if it
      fails; then the hash chain from the last indexed block to the live root is
      indexed, block by block, each with a justified result, up to the first block
      whose attempts do not lead to a commit. If the pass completes, the next start
      height belongs to the live spork. */
  method IndexPastSporks(ix: Indexer, c: PastPass, script: seq<seq<Fetched>>, ghost data: seq<Fetched>)
    returns (done: bool, plan: seq<Planned>, ghost walked: seq<ByteString>, ghost fs: seq<Fetched>)
    requires ix.Valid() && Linked(c.sporks)
    requires c.sporks[0].rootBlock <= ix.lastIndexed.height < c.liveRoot.height < TWO_64 - 1
    requires c.liveRoot.height == c.sporks[|c.sporks| - 1].rootBlock
    modifies ix, ix.store
    ensures ix.Valid() && ix.store.root == old(ix.store.root) && old(ix.store.history) <= ix.store.history
    ensures |walked| <= c.liveRoot.height
    ensures plan != [] ==>
              && IsHashChain(c.liveRoot, c.reporter, old(ix.lastIndexed.height) + 1, plan)
              && ReportedParent(c.liveRoot, c.reporter, plan[0]) == Some(old(ix.lastIndexed.hash))
              && Turned(old(ix.lastIndexed.height) + 1, walked, plan)
    ensures plan == [] ==> NoChain(c.liveRoot, c.reporter, old(ix.lastIndexed))
    ensures AllCommittedFrom(c, plan, old(ix.sealedResults), script, fs)
    ensures Holds(ix.store.root, ix.store.history, plan[..|fs|]) && ix.chain == old(ix.chain) + Additions(plan, fs)
    ensures ix.lastIndexed.height == old(ix.lastIndexed.height) + |fs|
    ensures fs == [] ==> ix.lastIndexed == old(ix.lastIndexed)
    ensures plan == [] ==> ix.accts == old(ix.accts) && ix.store.history == old(ix.store.history)
    ensures ix.sealedResults ==
            OnRecord(old(ix.sealedResults), WalkedSeals(c.liveRoot, c.reporter, walked)) - HashesOf(plan[..|fs|])
    ensures |fs| < |plan| && |fs| < |script| ==> !LeadsPlanned(ix, c, plan[|fs|], script[|fs|])
    ensures done <==> plan != [] && |fs| == |plan|
    ensures done ==>
              && ix.lastIndexed.height == c.liveRoot.height && ix.lastIndexed.hash == c.liveRoot.hash
              && Contains(c.sporks, |c.sporks| - 1, ix.lastIndexed.height + 1)
    ensures HasHash(ix.store.root, ix.store.history, old(ix.lastIndexed.height), old(ix.lastIndexed.hash))
    ensures (&& plan != [] && HonestPlan(c, plan, old(ix.sealedResults), walked, script, data)
             && Digestible(ix.cfg, old(ix.accts), old(ix.store.history), PlanHashes(plan), data, 0)) ==> done
  {
    hide Indexer.Valid, HasHash, OnRecord, WalkedSeals, Fetches, ReportedParent, CommittedFrom, Holds, LeadsPlanned;
    hide HonestPlan, Digestible, PlanHashes;
    done, fs := false, [];
    ghost var history := ix.store.history;
    TipHasHash(ix, ix.lastIndexed.height, ix.lastIndexed.hash);
    ghost var last := ix.lastIndexed;
    ghost var before := ix.sealedResults;
    var results;
    plan, results, walked := PlanPastSporks(c.liveRoot, ix.lastIndexed, c.reporter, ix.sealedResults);
    RecordResults(ix, results);
    if plan == [] {
      NothingPlanned(ix.store.root, ix.store.history, results);
      return;
    }
    fs := IndexPlan(ix, c, plan, script, before, walked, data);
    LongerHasHash(ix.store.root, history, ix.store.history, last.height, last.hash);
    done := ix.lastIndexed.height == c.liveRoot.height;
  }

  lemma {:induction false} NothingPlanned(root: BlockMeta, history: History, results: Results)
    ensures Holds(root, history, []) && results - HashesOf([]) == results
  {
  }

  /** What the fetches of one pass return: for the walk, and for each planned block. */
  datatype PassScript = PassScript(reporter: Reporter, blocks: seq<seq<Fetched>>)

  /** The seals on record after these walks. */
  ghost function OnRecordAfter(
      before: Results, liveRoot: BlockMeta, passes: seq<PassScript>, walks: seq<seq<ByteString>>): Results
    requires |walks| <= |passes| && forall i :: 0 <= i < |walks| ==> |walks[i]| <= liveRoot.height
  {
    if walks == [] then before
    else
      var n := |walks| - 1;
      OnRecord(OnRecordAfter(before, liveRoot, passes, walks[..n]), WalkedSeals(liveRoot, passes[n].reporter, walks[n]))
  }

  lemma {:induction false} OneMoreWalk(
      before: Results, liveRoot: BlockMeta, passes: seq<PassScript>, walks: seq<seq<ByteString>>,
      walked: seq<ByteString>)
    requires |walks| < |passes| && |walked| <= liveRoot.height
    requires forall i :: 0 <= i < |walks| ==> |walks[i]| <= liveRoot.height
    ensures OnRecordAfter(before, liveRoot, passes, walks + [walked]) ==
            OnRecord(OnRecordAfter(before, liveRoot, passes, walks),
                     WalkedSeals(liveRoot, passes[|walks|].reporter, walked))
  {
    hide OnRecord, WalkedSeals;
    assert (walks + [walked])[..|walks|] == walks;
  }

  /** What the passes did: those that found no chain to the last indexed block recorded
      seals and no more; the last one, if it found one, committed these blocks of it. */
  ghost predicate PassesDid(
      sporks: seq<Spork>, tolerance: uint64, liveRoot: BlockMeta, last: BlockMeta, before: Results,
      passes: seq<PassScript>, walks: seq<seq<ByteString>>, plan: seq<Planned>, fs: seq<Fetched>)
    requires last.height < liveRoot.height
  {
    && |walks| <= |passes| && |fs| <= |plan| && (plan != [] ==> walks != [])
    && (forall i :: 0 <= i < |walks| ==> |walks[i]| <= liveRoot.height)
    && (forall i :: 0 <= i < |walks| - 1 ==> NoChain(liveRoot, passes[i].reporter, last))
    && (plan == [] ==>
          |walks| == |passes| && (walks != [] ==> NoChain(liveRoot, passes[|walks| - 1].reporter, last)))
    && (plan != [] ==>
          var n := |walks| - 1;
          var c := PastPass(sporks, tolerance, liveRoot, passes[n].reporter);
          && IsHashChain(liveRoot, c.reporter, last.height + 1, plan)
          && ReportedParent(liveRoot, c.reporter, plan[0]) == Some(last.hash)
          && AllCommittedFrom(c, plan, OnRecordAfter(before, liveRoot, passes, walks[..n]), passes[n].blocks, fs))
  }

  /** The last pass is honest about this data, with the seals of all passes. */
  ghost predicate HonestPass(
      sporks: seq<Spork>, tolerance: uint64, liveRoot: BlockMeta, before: Results, passes: seq<PassScript>,
      walks: seq<seq<ByteString>>, plan: seq<Planned>, data: seq<Fetched>)
  {
    && 0 < |walks| <= |passes| && (forall i :: 0 <= i < |walks| ==> |walks[i]| <= liveRoot.height)
    && var n := |walks| - 1;
       HonestPlan(PastPass(sporks, tolerance, liveRoot, passes[n].reporter), plan,
                  OnRecordAfter(before, liveRoot, passes, walks[..n]), walks[n], passes[n].blocks, data)
  }

  /** The pass stopped at this block, whose attempts do not lead to a commit. */
  ghost predicate StuckPlanned(
      ix: Indexer, sporks: seq<Spork>, tolerance: uint64, liveRoot: BlockMeta, pass: PassScript, p: Planned, k: nat)
    reads ix, ix.store
  {
    k < |pass.blocks| ==> !LeadsPlanned(ix, PastPass(sporks, tolerance, liveRoot, pass.reporter), p, pass.blocks[k])
  }

  /** The turns of indexBlocks on the past sporks. A pass that finds no chain to the
      last indexed block only records seals, and the next one starts over; the first
      pass that finds one is the last. */
  method RepeatPasses(
      ix: Indexer, sporks: seq<Spork>, tolerance: uint64, liveRoot: BlockMeta, passes: seq<PassScript>,
      ghost data: seq<Fetched>)
    returns (done: bool, ghost plan: seq<Planned>, ghost walks: seq<seq<ByteString>>, ghost fs: seq<Fetched>)
    requires ix.Valid() && Linked(sporks)
    requires sporks[0].rootBlock <= ix.lastIndexed.height < liveRoot.height < TWO_64 - 1
    requires liveRoot.height == sporks[|sporks| - 1].rootBlock
    modifies ix, ix.store
    ensures ix.Valid() && ix.store.root == old(ix.store.root) && old(ix.store.history) <= ix.store.history
    ensures PassesDid(sporks, tolerance, liveRoot, old(ix.lastIndexed), old(ix.sealedResults), passes, walks, plan, fs)
    ensures ix.sealedResults ==
            OnRecordAfter(old(ix.sealedResults), liveRoot, passes, walks) - HashesOf(plan[..|fs|])
    ensures ix.chain == old(ix.chain) + Additions(plan, fs) && Holds(ix.store.root, ix.store.history, plan[..|fs|])
    ensures ix.lastIndexed.height == old(ix.lastIndexed.height) + |fs|
    ensures |fs| < |plan| ==> StuckPlanned(ix, sporks, tolerance, liveRoot, passes[|walks| - 1], plan[|fs|], |fs|)
    ensures done <==> plan != [] && |fs| == |plan|
    ensures done ==> ix.lastIndexed.height == liveRoot.height && ix.lastIndexed.hash == liveRoot.hash
    ensures (&& plan != [] && HonestPass(sporks, tolerance, liveRoot, old(ix.sealedResults), passes, walks, plan, data)
             && Digestible(ix.cfg, old(ix.accts), old(ix.store.history), PlanHashes(plan), data, 0)) ==> done
  {
    hide HonestPlan, Digestible, PlanHashes;
    hide Indexer.Valid, HasHash, OnRecord, WalkedSeals, OnRecordAfter, Additions, Holds, LeadsPlanned;
    hide ReportedParent, CommittedFrom, NoChain, IsHashChain, HashesOf, Linked, Contains;
    done, plan, walks, fs := false, [], [], [];
    NoWalk(ix.store.root, ix.store.history, ix.sealedResults, liveRoot, passes);
    for i := 0 to |passes|
      invariant ix.Valid() && ix.store.root == old(ix.store.root) && old(ix.store.history) <= ix.store.history
      invariant |walks| == i && forall k :: 0 <= k < i ==> |walks[k]| <= liveRoot.height
      invariant forall k :: 0 <= k < i ==> NoChain(liveRoot, passes[k].reporter, old(ix.lastIndexed))
      invariant plan == [] && fs == [] && !done && Holds(ix.store.root, ix.store.history, plan[..0])
      invariant ix.chain == old(ix.chain) + Additions(plan, fs) && ix.lastIndexed == old(ix.lastIndexed)
      invariant ix.accts == old(ix.accts) && ix.store.history == old(ix.store.history)
      invariant ix.sealedResults ==
                OnRecordAfter(old(ix.sealedResults), liveRoot, passes, walks) - HashesOf(plan[..0])
    {
      ghost var before := ix.sealedResults;
      NoWalk(ix.store.root, ix.store.history, OnRecordAfter(old(ix.sealedResults), liveRoot, passes, walks), liveRoot,
             passes);
      var found;
      ghost var walked;
      done, found, walked, fs := IndexPastSporks(
        ix, PastPass(sporks, tolerance, liveRoot, passes[i].reporter), passes[i].blocks, data);
      OneMoreWalk(old(ix.sealedResults), liveRoot, passes, walks, walked);
      assert (walks + [walked])[..i] == walks;
      plan, walks := found, walks + [walked];
      if found != [] {
        return;
      }
    }
  }

  lemma {:induction false} NoWalk(
      root: BlockMeta, history: History, results: Results, liveRoot: BlockMeta, passes: seq<PassScript>)
    ensures Holds(root, history, []) && Additions([], []) == []
    ensures OnRecordAfter(results, liveRoot, passes, []) == results && results - HashesOf([]) == results
  {
  }

  /** What is answered for a block that a pass committed: the parent is the one that was
      reported for it. */
  method PastBlockData(
      ix: Indexer, ghost c: PastPass, plan: seq<Planned>, ghost last: BlockMeta, ghost n: nat, i: nat)
    returns (data: BlockData)
    requires ix.Valid() && last.height < c.liveRoot.height && IsHashChain(c.liveRoot, c.reporter, last.height + 1, plan)
    requires ReportedParent(c.liveRoot, c.reporter, plan[0]) == Some(last.hash)
    requires i < n <= |plan| && Holds(ix.store.root, ix.store.history, plan[..n])
    requires HasHash(ix.store.root, ix.store.history, last.height, last.hash)
    ensures data.height == plan[i].height && data.hash == plan[i].hash && data.parentHeight == plan[i].height - 1
    ensures Some(data.parentHash) == ReportedParent(c.liveRoot, c.reporter, plan[i])
  {
    hide Indexer.Valid, Store.Valid, ReportedParent;
    StoreIsOpen(ix);
    ghost var root, history := ix.store.root, ix.store.history;
    assert HasHash(root, history, plan[..n][i].height, plan[..n][i].hash);
    if i > 0 {
      assert HasHash(root, history, plan[..n][i - 1].height, plan[..n][i - 1].hash);
      assert ReportedParent(c.liveRoot, c.reporter, plan[(i - 1) + 1]) == Some(plan[i - 1].hash);
    }
    var found := ix.store.BlockByHeight(plan[i].height);
    data := found.value;
  }
}
