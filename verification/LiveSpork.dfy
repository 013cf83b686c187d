/** The live-spork loop as a state machine over a fixed chain: fetches fail or
    succeed, a seal may fail midway through a block, and the process may restart
    or resync at any point. */
module LiveSpork {
  import opened Prelude
  import opened Bytes
  import opened Model
  import Indexer

  type Hash = ByteString

  datatype LiveBlock = LiveBlock(id: Hash, parentId: Hash, seals: seq<Seal>)

  /** The blocks of the live spork; index 0 is its root block, at height `root`. */
  datatype LiveChain = LiveChain(root: uint64, blocks: seq<LiveBlock>)

  // ---- What the chain guarantees ----

  /** The block expected to be sealed next, before seal k of block i. */
  function NextSealed(c: LiveChain, i: nat, k: nat): nat
    requires 1 <= i < |c.blocks| && k <= |c.blocks[i].seals|
    decreases i, k
  {
    if k == 0 then
      if i == 1 then 1 else NextSealed(c, i - 1, |c.blocks[i - 1].seals|)
    else
      var n := NextSealed(c, i, k - 1);
      if n < |c.blocks| && c.blocks[i].seals[k - 1].blockId == c.blocks[n].id then n + 1 else n
  }

  /** A seal never skips ahead of the next unsealed block, and seals only ancestors. */
  ghost predicate SealInOrder(c: LiveChain, i: nat, k: nat)
    requires 1 <= i < |c.blocks| && k < |c.blocks[i].seals|
  {
    var n := NextSealed(c, i, k);
    forall j :: n <= j < |c.blocks| && c.blocks[j].id == c.blocks[i].seals[k].blockId ==> j == n < i
  }

  ghost predicate WellFormed(c: LiveChain) {
    && c.blocks != [] && c.root + |c.blocks| < TWO_64
    && (forall i, j :: 0 <= i < j < |c.blocks| ==> c.blocks[i].id != c.blocks[j].id)
    && (forall i :: 0 < i < |c.blocks| ==> c.blocks[i].parentId == c.blocks[i - 1].id)
    && (forall i, k :: 1 <= i < |c.blocks| && 0 <= k < |c.blocks[i].seals| ==> SealInOrder(c, i, k))
  }

  // ---- States and steps ----

  /** A call of processBlock that committed, while the block at position `sealer`
      had been retrieved and its seals were being read (0 for the root block). */
  datatype Record = Record(height: uint64, id: Hash, derived: Option<Hash>, skipped: bool, sealer: nat)

  datatype Phase = Fetching | Sealing(k: nat)

  /** `pos` is the height of the loop relative to the spork root; `got` (a history
      variable) counts the blocks retrieved since the root. */
  datatype State = State(
    pos: nat,
    parent: Hash,
    blocks: map<Hash, nat>,
    sealedResults: map<Hash, Hash>,
    phase: Phase,
    indexed: seq<Record>,
    got: nat)

  /** The configuration of the live spork and what precedes it. */
  datatype Setup = Setup(chain: LiveChain, hasPrev: bool, tolerance: uint64)

  function SporkOf(u: Setup): Indexer.SporkInfo {
    Indexer.SporkInfo(u.chain.root, u.hasPrev, None)
  }

  /** Start of indexLiveSpork from the last indexed block in the store, with whatever
      seals are on record. */
  function Resumed(u: Setup, indexed: seq<Record>, sealedResults: map<Hash, Hash>): State
    requires u.chain.blocks != []
  {
    var parent := if indexed == [] then u.chain.blocks[0].parentId else indexed[|indexed| - 1].id;
    State(|indexed|, parent, map[], sealedResults, Fetching, indexed, |indexed|)
  }

  /** processBlock passes its seal gate with this fetched data and commits. */
  predicate Processes(u: Setup, height: uint64, id: Hash, sealedResults: map<Hash, Hash>, f: Indexer.Fetched) {
    Indexer.SealGate(SporkOf(u), u.tolerance, height, id, f, sealedResults).Pass?
  }

  function RecordOf(height: uint64, id: Hash, f: Indexer.Fetched, sealer: nat): Record {
    Record(height, id, f.derivedResult, f.skip, sealer)
  }

  /** The self-sealed root block, processed before the loop. */
  ghost predicate IndexRoot(u: Setup, s: State, s': State, f: Indexer.Fetched)
    requires WellFormed(u.chain)
  {
    var root := u.chain.blocks[0];
    && s.pos == 0 && s.phase == Fetching
    && Processes(u, u.chain.root, root.id, s.sealedResults, f)
    && s' == s.(pos := 1, parent := root.id, sealedResults := s.sealedResults - {root.id},
                indexed := s.indexed + [RecordOf(u.chain.root, root.id, f, 0)], got := 1)
  }

  /** Header and block fetched, with the expected parent. */
  ghost predicate Retrieve(u: Setup, s: State, s': State)
    requires WellFormed(u.chain)
  {
    && s.phase == Fetching && 1 <= s.pos < |u.chain.blocks|
    && var block := u.chain.blocks[s.pos];
       && block.parentId == s.parent
       && s' == s.(blocks := s.blocks[block.id := s.pos], phase := Sealing(0), got := s.pos + 1)
  }

  ghost predicate AtSeal(u: Setup, s: State)
    requires WellFormed(u.chain)
  {
    s.phase.Sealing? && 1 <= s.pos < |u.chain.blocks| && s.phase.k < |u.chain.blocks[s.pos].seals|
  }

  ghost predicate SkipSeal(u: Setup, s: State, s': State)
    requires WellFormed(u.chain)
  {
    && AtSeal(u, s)
    && u.chain.blocks[s.pos].seals[s.phase.k].blockId !in s.blocks
    && s' == s.(phase := Sealing(s.phase.k + 1))
  }

  /** A consensus lookup fails: `continue inner`. */
  ghost predicate SealFails(u: Setup, s: State, s': State)
    requires WellFormed(u.chain)
  {
    AtSeal(u, s) && s' == s.(phase := Fetching)
  }

  /** The seal is recorded, and processBlock is still at its attempts. */
  ghost predicate RecordSeal(u: Setup, s: State, s': State)
    requires WellFormed(u.chain)
  {
    && AtSeal(u, s)
    && var seal := u.chain.blocks[s.pos].seals[s.phase.k];
       && seal.blockId in s.blocks
       && s' == s.(sealedResults := s.sealedResults[seal.blockId := seal.resultId])
  }

  ghost predicate ProcessSeal(u: Setup, s: State, s': State, f: Indexer.Fetched)
    requires WellFormed(u.chain)
  {
    && AtSeal(u, s)
    && var seal := u.chain.blocks[s.pos].seals[s.phase.k];
       && seal.blockId in s.blocks
       && var sealedResults := s.sealedResults[seal.blockId := seal.resultId];
          var height := u.chain.root + s.blocks[seal.blockId];
          && height < TWO_64
          && Processes(u, height, seal.blockId, sealedResults, f)
          && s' == s.(sealedResults := sealedResults - {seal.blockId},
                      blocks := s.blocks - {seal.blockId},
                      indexed := s.indexed + [RecordOf(height, seal.blockId, f, s.pos)],
                      phase := Sealing(s.phase.k + 1))
  }

  ghost predicate Advance(u: Setup, s: State, s': State)
    requires WellFormed(u.chain)
  {
    && 1 <= s.pos < |u.chain.blocks| && s.phase == Sealing(|u.chain.blocks[s.pos].seals|)
    && s' == s.(pos := s.pos + 1, parent := u.chain.blocks[s.pos].id, phase := Fetching)
  }

  /** The process stops and resumes, possibly after resyncing to an earlier height. */
  ghost predicate Restarts(u: Setup, s: State, s': State)
    requires WellFormed(u.chain)
  {
    exists kept :: 0 <= kept <= |s.indexed| && s' == Resumed(u, s.indexed[..kept], s'.sealedResults)
  }

  /** Any step: a failed fetch or a restarted processBlock leaves the state as it is. */
  ghost predicate Step(u: Setup, s: State, s': State)
    requires WellFormed(u.chain)
  {
    || s' == s
    || (exists f :: IndexRoot(u, s, s', f))
    || Retrieve(u, s, s')
    || SkipSeal(u, s, s')
    || SealFails(u, s, s')
    || RecordSeal(u, s, s')
    || (exists f :: ProcessSeal(u, s, s', f))
    || Advance(u, s, s')
    || Restarts(u, s, s')
  }

  /** The record of a root block that was stored before the loop began: as genesis,
      or by the pass over the past sporks. */
  function StoredRoot(u: Setup): Record
    requires u.chain.blocks != []
  {
    Record(u.chain.root, u.chain.blocks[0].id, None, false, 0)
  }

  predicate Starts(u: Setup, s: State)
    requires u.chain.blocks != []
  {
    s == Resumed(u, [], s.sealedResults) || s == Resumed(u, [StoredRoot(u)], s.sealedResults)
  }

  ghost predicate IsRun(u: Setup, run: seq<State>)
    requires WellFormed(u.chain)
  {
    && run != [] && Starts(u, run[0])
    && forall i :: 0 <= i < |run| - 1 ==> Step(u, run[i], run[i + 1])
  }

  // ---- The invariant ----

  /** The record of the block at position m: its height and hash are the chain's,
      and its derived result is the one a retrieved descendant sealed it with. */
  ghost predicate GoodRecord(u: Setup, m: nat, r: Record) {
    && m < |u.chain.blocks|
    && r.height == u.chain.root + m && r.id == u.chain.blocks[m].id
    && (m > 0 ==>
          && m < r.sealer < |u.chain.blocks|
          && (!r.skipped ==> r.derived.Some? && Seal(r.id, r.derived.value) in u.chain.blocks[r.sealer].seals))
  }

  /** One record for each height from the root up, in order and without gaps. */
  ghost predicate Recorded(u: Setup, s: State)
    requires WellFormed(u.chain)
  {
    forall m :: 0 <= m < |s.indexed| ==> GoodRecord(u, m, s.indexed[m])
  }

  /** `blocks` holds exactly the retrieved but unindexed blocks. */
  ghost predicate Waiting(u: Setup, s: State) {
    var c, n := u.chain, |s.indexed|;
    && n <= s.pos <= s.got <= |c.blocks|
    && (forall id :: id in s.blocks ==> n <= s.blocks[id] < s.got && c.blocks[s.blocks[id]].id == id)
    && (forall j :: n <= j < s.got ==> c.blocks[j].id in s.blocks)
  }

  /** Where the loop stands, and that it has not overtaken the seals. */
  ghost predicate InStep(u: Setup, s: State)
    requires WellFormed(u.chain)
  {
    var c, n := u.chain, |s.indexed|;
    && s.pos <= |c.blocks| && s.got <= s.pos + 1
    && (s.pos == 0 ==> n == 0 && s.phase == Fetching && s.got == 0)
    && (s.pos >= 1 ==>
          && n >= 1
          && s.parent == c.blocks[s.pos - 1].id
          && (s.pos < |c.blocks| ==>
                && (s.phase == Fetching ==> NextSealed(c, s.pos, 0) <= n)
                && (s.phase.Sealing? ==>
                      && s.got == s.pos + 1
                      && s.phase.k <= |c.blocks[s.pos].seals|
                      && NextSealed(c, s.pos, s.phase.k) <= n))
          && (s.pos == |c.blocks| ==>
                s.phase == Fetching && (s.pos > 1 ==> NextSealed(c, s.pos - 1, |c.blocks[s.pos - 1].seals|) <= n)))
  }

  ghost predicate Inv(u: Setup, s: State)
    requires WellFormed(u.chain)
  {
    Recorded(u, s) && Waiting(u, s) && InStep(u, s)
  }

  lemma {:induction false} NextSealedBound(c: LiveChain, i: nat, k: nat)
    requires WellFormed(c) && 1 <= i < |c.blocks| && k <= |c.blocks[i].seals|
    ensures NextSealed(c, i, k) <= i
    ensures NextSealed(c, i, 0) <= NextSealed(c, i, k)
    decreases i, k
  {
    if k == 0 {
      if i > 1 {
        NextSealedBound(c, i - 1, |c.blocks[i - 1].seals|);
      }
    } else {
      NextSealedBound(c, i, k - 1);
      assert SealInOrder(c, i, k - 1);
    }
  }

  lemma {:induction false} ResumedInv(u: Setup, indexed: seq<Record>, sealedResults: map<Hash, Hash>)
    requires WellFormed(u.chain) && |indexed| <= |u.chain.blocks|
    requires forall m :: 0 <= m < |indexed| ==> GoodRecord(u, m, indexed[m])
    ensures Inv(u, Resumed(u, indexed, sealedResults))
  {
    hide GoodRecord;
    var n := |indexed|;
    if 1 <= n {
      assert GoodRecord(u, n - 1, indexed[n - 1]) by { }
      LastRecordId(u, n - 1, indexed[n - 1]);
      if n < |u.chain.blocks| {
        NextSealedBound(u.chain, n, 0);
      } else if n > 1 {
        NextSealedBound(u.chain, n - 1, |u.chain.blocks[n - 1].seals|);
      }
    }
  }

  lemma {:induction false} LastRecordId(u: Setup, m: nat, r: Record)
    requires GoodRecord(u, m, r)
    ensures m < |u.chain.blocks| && r.id == u.chain.blocks[m].id
  {
  }

  /** Processing a seal commits the block right after the last indexed one, with
      the sealed result. */
  lemma {:induction false} SealIsForNext(u: Setup, s: State)
    requires WellFormed(u.chain) && Inv(u, s) && AtSeal(u, s)
    ensures var seal := u.chain.blocks[s.pos].seals[s.phase.k];
            seal.blockId in s.blocks ==>
              && s.blocks[seal.blockId] == |s.indexed| < s.pos
              && NextSealed(u.chain, s.pos, s.phase.k) == |s.indexed|
    ensures NextSealed(u.chain, s.pos, s.phase.k + 1) <=
            |s.indexed| + (if u.chain.blocks[s.pos].seals[s.phase.k].blockId in s.blocks then 1 else 0)
  {
    var c, k := u.chain, s.phase.k;
    var seal := c.blocks[s.pos].seals[k];
    assert SealInOrder(c, s.pos, k);
    var n := NextSealed(c, s.pos, k);
    assert n < s.got && n == |s.indexed| ==> c.blocks[n].id in s.blocks;
    if seal.blockId in s.blocks {
      var j := s.blocks[seal.blockId];
      assert c.blocks[j].id == seal.blockId && n <= j;
    }
  }

  lemma {:induction false} ProcessSealRecord(u: Setup, s: State, s': State, f: Indexer.Fetched)
    requires WellFormed(u.chain) && Inv(u, s) && ProcessSeal(u, s, s', f)
    ensures GoodRecord(u, |s.indexed|, s'.indexed[|s.indexed|])
  {
    SealIsForNext(u, s);
    var c, n := u.chain, |s.indexed|;
    var seal := c.blocks[s.pos].seals[s.phase.k];
    assert c.blocks[s.blocks[seal.blockId]].id == seal.blockId;
    if n > 0 && !f.skip {
      assert c.blocks[s.pos].seals[s.phase.k] == Seal(c.blocks[n].id, f.derivedResult.value);
    }
  }

  lemma {:induction false} ProcessSealInv(u: Setup, s: State, s': State, f: Indexer.Fetched)
    requires WellFormed(u.chain) && Inv(u, s) && ProcessSeal(u, s, s', f)
    ensures Inv(u, s')
  {
    hide GoodRecord, Processes, SealInOrder, NextSealed, Waiting;
    SealIsForNext(u, s);
    ProcessSealRecord(u, s, s', f);
    ProcessSealWaiting(u, s, s', f);
    var n := |s.indexed|;
    forall m | 0 <= m < |s'.indexed| ensures GoodRecord(u, m, s'.indexed[m]) {
      assert m < n ==> s'.indexed[m] == s.indexed[m];
    }
  }

  lemma {:induction false} ProcessSealWaiting(u: Setup, s: State, s': State, f: Indexer.Fetched)
    requires WellFormed(u.chain) && Inv(u, s) && ProcessSeal(u, s, s', f)
    ensures Waiting(u, s') && |s'.indexed| <= s'.pos
  {
    hide Recorded, InStep, Processes, SealInOrder, NextSealed;
    SealIsForNext(u, s);
    var c, n := u.chain, |s.indexed|;
    var seal := c.blocks[s.pos].seals[s.phase.k];
    assert seal.blockId == c.blocks[n].id;
    forall id | id in s'.blocks ensures n + 1 <= s'.blocks[id] < s'.got && c.blocks[s'.blocks[id]].id == id {
      assert id in s.blocks && s'.blocks[id] == s.blocks[id];
      assert s.blocks[id] == n ==> id == seal.blockId;
    }
    forall j | n + 1 <= j < s'.got ensures c.blocks[j].id in s'.blocks {
      assert c.blocks[j].id in s.blocks && c.blocks[n].id != c.blocks[j].id;
    }
  }

  lemma {:induction false} IndexRootInv(u: Setup, s: State, s': State, f: Indexer.Fetched)
    requires WellFormed(u.chain) && Inv(u, s) && IndexRoot(u, s, s', f)
    ensures Inv(u, s')
  {
    hide Processes, SealInOrder;
    assert GoodRecord(u, 0, s'.indexed[0]);
  }

  lemma {:induction false} RetrieveInv(u: Setup, s: State, s': State)
    requires WellFormed(u.chain) && Inv(u, s) && Retrieve(u, s, s')
    ensures Inv(u, s')
  {
    hide GoodRecord, SealInOrder;
  }

  lemma {:induction false} SkipSealInv(u: Setup, s: State, s': State)
    requires WellFormed(u.chain) && Inv(u, s) && SkipSeal(u, s, s')
    ensures Inv(u, s')
  {
    SealIsForNext(u, s);
    hide GoodRecord, SealInOrder, NextSealed;
  }

  lemma {:induction false} SealFailsInv(u: Setup, s: State, s': State)
    requires WellFormed(u.chain) && Inv(u, s) && SealFails(u, s, s')
    ensures Inv(u, s')
  {
    NextSealedBound(u.chain, s.pos, s.phase.k);
    hide GoodRecord, SealInOrder, NextSealed;
  }

  lemma {:induction false} RecordSealInv(u: Setup, s: State, s': State)
    requires WellFormed(u.chain) && Inv(u, s) && RecordSeal(u, s, s')
    ensures Inv(u, s')
  {
    hide GoodRecord, SealInOrder, NextSealed;
  }

  lemma {:induction false} AdvanceInv(u: Setup, s: State, s': State)
    requires WellFormed(u.chain) && Inv(u, s) && Advance(u, s, s')
    ensures Inv(u, s')
  {
    hide GoodRecord, SealInOrder;
  }

  lemma {:induction false} StepInv(u: Setup, s: State, s': State)
    requires WellFormed(u.chain) && Inv(u, s) && Step(u, s, s')
    ensures Inv(u, s')
  {
    hide Inv, WellFormed, IndexRoot, Retrieve, SkipSeal, SealFails, RecordSeal, ProcessSeal, Advance;
    if s' == s {
    } else if f :| IndexRoot(u, s, s', f) {
      IndexRootInv(u, s, s', f);
    } else if Retrieve(u, s, s') {
      RetrieveInv(u, s, s');
    } else if SkipSeal(u, s, s') {
      SkipSealInv(u, s, s');
    } else if SealFails(u, s, s') {
      SealFailsInv(u, s, s');
    } else if RecordSeal(u, s, s') {
      RecordSealInv(u, s, s');
    } else if f :| ProcessSeal(u, s, s', f) {
      ProcessSealInv(u, s, s', f);
    } else if Advance(u, s, s') {
      AdvanceInv(u, s, s');
    } else {
      RestartsInv(u, s, s');
    }
  }

  lemma {:induction false} RestartsInv(u: Setup, s: State, s': State)
    requires WellFormed(u.chain) && Inv(u, s) && Restarts(u, s, s')
    ensures Inv(u, s')
  {
    var kept :| 0 <= kept <= |s.indexed| && s' == Resumed(u, s.indexed[..kept], s'.sealedResults);
    hide GoodRecord, SealInOrder, NextSealed;
    ResumedInv(u, s.indexed[..kept], s'.sealedResults);
  }

  /** Live-spork safety: in every state of every run the store holds exactly one
      record for each height from the root up, in order and without gaps; the
      waiting map holds exactly the retrieved but unindexed blocks; and every
      block above the root that was not configured to be skipped carries the
      result some descendant sealed. */
  lemma {:induction false} LiveSporkSafety(u: Setup, run: seq<State>, i: nat)
    requires WellFormed(u.chain) && IsRun(u, run) && i < |run|
    ensures Recorded(u, run[i]) && Waiting(u, run[i]) && Inv(u, run[i])
  {
    if i == 0 {
      ResumedInv(u, [], run[0].sealedResults);
      ResumedInv(u, [StoredRoot(u)], run[0].sealedResults);
    } else {
      LiveSporkSafety(u, run, i - 1);
      assert Step(u, run[i - 1], run[i - 1 + 1]);
      StepInv(u, run[i - 1], run[i]);
    }
  }

  // ---- Sealed blocks ----

  lemma {:induction false} NextSealedGrows(c: LiveChain, i: nat, k: nat, k': nat)
    requires WellFormed(c) && 1 <= i < |c.blocks| && k <= k' <= |c.blocks[i].seals|
    ensures 1 <= NextSealed(c, i, k) <= NextSealed(c, i, k')
    decreases i, k'
  {
    if k < k' {
      NextSealedGrows(c, i, k, k' - 1);
    } else if k > 0 {
      NextSealedGrows(c, i, k - 1, k - 1);
    } else if i > 1 {
      NextSealedGrows(c, i - 1, |c.blocks[i - 1].seals|, |c.blocks[i - 1].seals|);
    }
  }

  lemma {:induction false} NextSealedGrowsOn(c: LiveChain, i: nat, k: nat, i': nat)
    requires WellFormed(c) && 1 <= i <= i' < |c.blocks| && k <= |c.blocks[i].seals|
    ensures NextSealed(c, i, k) <= NextSealed(c, i', |c.blocks[i'].seals|)
  {
    NextSealedGrows(c, i', 0, |c.blocks[i'].seals|);
    if i == i' {
      NextSealedGrows(c, i, k, |c.blocks[i].seals|);
    } else {
      NextSealedGrowsOn(c, i, k, i' - 1);
    }
  }

  /** Seal k of block i is for block j. */
  predicate Seals(c: LiveChain, i: nat, k: nat, j: nat) {
    1 <= i < |c.blocks| && k < |c.blocks[i].seals| && j < |c.blocks| &&
    c.blocks[i].seals[k].blockId == c.blocks[j].id
  }

  /** Every block sealed by a block that the loop has finished with is indexed. */
  lemma {:induction false} SealedIsIndexed(u: Setup, s: State, i: nat, k: nat, j: nat)
    requires WellFormed(u.chain) && Inv(u, s) && i < s.pos && Seals(u.chain, i, k, j)
    ensures j < |s.indexed|
  {
    hide Recorded, Waiting, SealInOrder;
    var c := u.chain;
    SealedIsBelow(c, i, k, j);
    NextSealedGrowsOn(c, i, k + 1, s.pos - 1);
    if s.pos < |c.blocks| {
      assert NextSealed(c, s.pos, 0) == NextSealed(c, s.pos - 1, |c.blocks[s.pos - 1].seals|);
      if s.phase.Sealing? {
        NextSealedGrows(c, s.pos, 0, s.phase.k);
      }
    }
  }

  lemma {:induction false} SealedIsBelow(c: LiveChain, i: nat, k: nat, j: nat)
    requires WellFormed(c) && Seals(c, i, k, j)
    ensures j < NextSealed(c, i, k + 1)
  {
    assert SealInOrder(c, i, k);
    NextSealedGrows(c, i, k, k + 1);
  }

  /** The data of a due block is sound: its events match and its result is the sealed one. */
  predicate Sound(f: Indexer.Fetched, result: Hash) {
    f.skip || (f.eventsMatch && f.derivedResult == Some(result))
  }

  /** The seal of a waiting block is the only way to it: sound data is committed, and
      unsound data sent back. */
  lemma {:induction false} SoundProceeds(u: Setup, s: State, f: Indexer.Fetched)
    requires WellFormed(u.chain) && Inv(u, s) && AtSeal(u, s)
    requires u.chain.blocks[s.pos].seals[s.phase.k].blockId in s.blocks
    ensures var seal := u.chain.blocks[s.pos].seals[s.phase.k];
            && (Sound(f, seal.resultId) <==> exists s' :: ProcessSeal(u, s, s', f))
            && (!Sound(f, seal.resultId) ==>
                  Indexer.SealGate(SporkOf(u), u.tolerance, u.chain.root + |s.indexed|, seal.blockId, f,
                                   s.sealedResults[seal.blockId := seal.resultId]).Again?)
  {
    hide Recorded, SealInOrder, NextSealed;
    SealIsForNext(u, s);
    var seal := u.chain.blocks[s.pos].seals[s.phase.k];
    var sealedResults := s.sealedResults[seal.blockId := seal.resultId];
    var height := u.chain.root + s.blocks[seal.blockId];
    if Sound(f, seal.resultId) {
      var s' := s.(sealedResults := sealedResults - {seal.blockId},
                   blocks := s.blocks - {seal.blockId},
                   indexed := s.indexed + [RecordOf(height, seal.blockId, f, s.pos)],
                   phase := Sealing(s.phase.k + 1));
      assert ProcessSeal(u, s, s', f);
    }
  }

  /** On an honest chain the loop is never stuck: the parent check passes whenever
      a block is fetched, and the gate never dies for want of a seal. */
  lemma {:induction false} NeverStuck(u: Setup, s: State, f: Indexer.Fetched)
    requires WellFormed(u.chain) && Inv(u, s)
    ensures s.phase == Fetching && 1 <= s.pos < |u.chain.blocks| ==> exists s' :: Retrieve(u, s, s')
    ensures AtSeal(u, s) ==>
              var seal := u.chain.blocks[s.pos].seals[s.phase.k];
              seal.blockId in s.blocks ==>
                && u.chain.root + s.blocks[seal.blockId] == u.chain.root + |s.indexed| < TWO_64
                && !Indexer.SealGate(SporkOf(u), u.tolerance, u.chain.root + |s.indexed|, seal.blockId, f,
                                     s.sealedResults[seal.blockId := seal.resultId]).Fatal?
  {
    if s.phase == Fetching && 1 <= s.pos < |u.chain.blocks| {
      var block := u.chain.blocks[s.pos];
      var s' := s.(blocks := s.blocks[block.id := s.pos], phase := Sealing(0), got := s.pos + 1);
      assert Retrieve(u, s, s');
    }
    if AtSeal(u, s) {
      SealIsForNext(u, s);
    }
  }
}
