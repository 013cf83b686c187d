/** The configured sporks, the lookup by height, and the hash-chain walk over past sporks. */
module Sporks {
  import opened Prelude
  import opened Bytes
  import opened Model

  /** Sporks in configuration order; the Next link of one is the element after it. */
  datatype Spork = Spork(id: nat, rootBlock: uint64)

  /** What configuration loading has checked: consecutive IDs and growing roots. */
  ghost predicate Linked(sporks: seq<Spork>) {
    && sporks != []
    && (forall i :: 0 <= i < |sporks| ==> sporks[i].id == sporks[0].id + i)
    && (forall i, j :: 0 <= i < j < |sporks| ==> sporks[i].rootBlock < sporks[j].rootBlock)
  }

  // ---- Configuration ----

  datatype SporkConfig = SporkConfig(rootBlock: uint64, version: nat, accessNodes: nat)

  predicate Usable(c: SporkConfig) {
    c.accessNodes > 0 && 1 <= c.version <= 8
  }

  /** Usable sporks, one for every ID between the first and the last, with growing roots. */
  ghost predicate Acceptable(config: map<nat, SporkConfig>) {
    && config != map[]
    && (forall id :: id in config ==> Usable(config[id]))
    && (forall lo, id, hi :: lo in config && hi in config && lo <= id <= hi ==> id in config)
    && (forall i, j :: i in config && j in config && i < j ==> config[i].rootBlock < config[j].rootBlock)
  }

  predicate Increasing(ids: seq<nat>) {
    forall i, j :: 0 <= i < j < |ids| ==> ids[i] < ids[j]
  }

  method Least(ids: set<nat>) returns (least: nat)
    requires ids != {}
    ensures least in ids && forall id :: id in ids ==> least <= id
  {
    least :| least in ids;
    var rest := ids - {least};
    while rest != {}
      invariant rest <= ids && least in ids
      invariant forall id :: id in ids && id !in rest ==> least <= id
      decreases rest
    {
      var id :| id in rest;
      if id < least {
        least := id;
      }
      rest := rest - {id};
    }
  }

  /** The range over the map and the sort. */
  method SortedIds(config: map<nat, SporkConfig>) returns (ids: seq<nat>)
    ensures Increasing(ids) && forall id :: id in ids <==> id in config
  {
    ids := [];
    var rest := config.Keys;
    while rest != {}
      invariant rest <= config.Keys && Increasing(ids)
      invariant forall id :: id in config <==> id in rest || id in ids
      invariant forall i, id :: 0 <= i < |ids| && id in rest ==> ids[i] < id
      decreases rest
    {
      var least := Least(rest);
      ids := ids + [least];
      rest := rest - {least};
    }
  }

  /** parseAndValidateSporks: None stands for a fatal configuration error. */
  method LoadSporks(config: map<nat, SporkConfig>) returns (loaded: Option<seq<Spork>>)
    ensures loaded.Some? <==> Acceptable(config)
    ensures loaded.Some? ==> Linked(loaded.value)
    ensures loaded.Some? ==>
              forall s :: s in loaded.value <==> s.id in config && s.rootBlock == config[s.id].rootBlock
  {
    if config == map[] {
      return None;
    }
    var ids := SortedIds(config);
    var sporks: seq<Spork> := [];
    assert Loading(config, ids, sporks);
    hide Loading, Acceptable, Linked, Increasing;
    for i := 0 to |ids|
      invariant |sporks| == i && Loading(config, ids, sporks)
    {
      var id := ids[i];
      assert id in ids;
      if !Usable(config[id]) {
        UnusableIsRefused(config, id);
        return None;
      }
      if i > 0 {
        var prev := sporks[i - 1];
        LastLoaded(config, ids, sporks);
        if id != prev.id + 1 {
          GapIsRefused(config, ids, i);
          return None;
        }
        if config[id].rootBlock <= prev.rootBlock {
          FallIsRefused(config, prev.id, id);
          return None;
        }
      }
      LoadOneMore(config, ids, sporks);
      sporks := sporks + [Spork(id, config[id].rootBlock)];
    }
    LoadedIsAcceptable(config, ids, sporks);
    LoadedIsLinked(config, ids, sporks);
    forall s ensures s in sporks <==> s.id in config && s.rootBlock == config[s.id].rootBlock {
      LoadedHolds(config, ids, sporks, s);
    }
    loaded := Some(sporks);
  }

  /** The sporks linked so far. */
  ghost predicate Loading(config: map<nat, SporkConfig>, ids: seq<nat>, sporks: seq<Spork>) {
    && |sporks| <= |ids|
    && (forall k :: 0 <= k < |sporks| ==>
          && ids[k] in config && Usable(config[ids[k]]) && ids[k] == ids[0] + k
          && sporks[k] == Spork(ids[k], config[ids[k]].rootBlock))
    && (forall j, k :: 0 <= j < k < |sporks| ==> sporks[j].rootBlock < sporks[k].rootBlock)
  }

  lemma {:induction false} LastLoaded(config: map<nat, SporkConfig>, ids: seq<nat>, sporks: seq<Spork>)
    requires Loading(config, ids, sporks) && sporks != []
    ensures var k := |sporks| - 1; ids[k] in config && sporks[k] == Spork(ids[k], config[ids[k]].rootBlock)
  {
  }

  lemma {:induction false} LoadOneMore(config: map<nat, SporkConfig>, ids: seq<nat>, sporks: seq<Spork>)
    requires Loading(config, ids, sporks) && |sporks| < |ids|
    requires var id := ids[|sporks|];
             && id in config && Usable(config[id])
             && (sporks != [] ==>
                   var prev := sporks[|sporks| - 1]; id == prev.id + 1 && config[id].rootBlock > prev.rootBlock)
    ensures var id := ids[|sporks|]; Loading(config, ids, sporks + [Spork(id, config[id].rootBlock)])
  {
    var n := |sporks|;
    var sporks' := sporks + [Spork(ids[n], config[ids[n]].rootBlock)];
    forall j | 0 <= j < n ensures sporks'[j].rootBlock < sporks'[n].rootBlock {
      assert j < n - 1 ==> sporks[j].rootBlock < sporks[n - 1].rootBlock;
    }
  }

  /** The loaded IDs are an interval, and each is at its place. */
  lemma {:induction false} LoadedAt(config: map<nat, SporkConfig>, ids: seq<nat>, sporks: seq<Spork>, id: nat)
    requires forall id :: id in ids <==> id in config
    requires Loading(config, ids, sporks) && |sporks| == |ids| > 0
    ensures id in config <==> ids[0] <= id < ids[0] + |ids|
    ensures id in config ==> Usable(config[id]) && sporks[id - ids[0]] == Spork(id, config[id].rootBlock)
  {
    assert id in config <==> id in ids;
    if ids[0] <= id < ids[0] + |ids| {
      assert ids[id - ids[0]] == id;
    }
  }

  lemma {:induction false} LoadedIsAcceptable(config: map<nat, SporkConfig>, ids: seq<nat>, sporks: seq<Spork>)
    requires config != map[] && forall id :: id in ids <==> id in config
    requires Loading(config, ids, sporks) && |sporks| == |ids|
    ensures Acceptable(config) && ids != []
  {
    var first :| first in config;
    assert first in ids;
    forall id | id in config ensures Usable(config[id]) {
      LoadedAt(config, ids, sporks, id);
    }
    forall lo, id, hi | lo in config && hi in config && lo <= id <= hi ensures id in config {
      LoadedAt(config, ids, sporks, lo);
      LoadedAt(config, ids, sporks, id);
      LoadedAt(config, ids, sporks, hi);
    }
    forall i, j | i in config && j in config && i < j ensures config[i].rootBlock < config[j].rootBlock {
      LoadedAt(config, ids, sporks, i);
      LoadedAt(config, ids, sporks, j);
      assert sporks[i - ids[0]].rootBlock < sporks[j - ids[0]].rootBlock;
    }
  }

  lemma {:induction false} LoadedIsLinked(config: map<nat, SporkConfig>, ids: seq<nat>, sporks: seq<Spork>)
    requires Loading(config, ids, sporks) && |sporks| == |ids| > 0
    ensures Linked(sporks)
  {
    forall k | 0 <= k < |sporks| ensures sporks[k].id == sporks[0].id + k {
      assert ids[k] == ids[0] + k;
    }
  }

  lemma {:induction false} LoadedHolds(config: map<nat, SporkConfig>, ids: seq<nat>, sporks: seq<Spork>, s: Spork)
    requires forall id :: id in ids <==> id in config
    requires Loading(config, ids, sporks) && |sporks| == |ids| > 0
    ensures s in sporks <==> s.id in config && s.rootBlock == config[s.id].rootBlock
  {
    LoadedAt(config, ids, sporks, s.id);
  }

  lemma {:induction false} UnusableIsRefused(config: map<nat, SporkConfig>, id: nat)
    requires id in config && !Usable(config[id])
    ensures !Acceptable(config)
  {
  }

  lemma {:induction false} FallIsRefused(config: map<nat, SporkConfig>, i: nat, j: nat)
    requires i in config && j in config && i < j && config[j].rootBlock <= config[i].rootBlock
    ensures !Acceptable(config)
  {
  }

  lemma {:induction false} GapIsRefused(config: map<nat, SporkConfig>, ids: seq<nat>, i: nat)
    requires Increasing(ids) && (forall id :: id in ids <==> id in config)
    requires 0 < i < |ids| && ids[i] != ids[i - 1] + 1
    ensures !Acceptable(config)
  {
    var missing := ids[i - 1] + 1;
    forall k | 0 <= k < |ids| ensures ids[k] != missing {
      assert k < i - 1 ==> ids[k] < ids[i - 1];
      assert k > i ==> ids[i] < ids[k];
    }
    assert missing !in config;
    assert ids[i - 1] in config && ids[i] in config && ids[i - 1] <= missing <= ids[i];
  }

  // ---- Lookup ----

  /** The spork of a height: the walk along the Next links. None below the first root. */
  method SporkFor(sporks: seq<Spork>, height: uint64) returns (found: Option<nat>)
    requires Linked(sporks)
    ensures found.None? <==> height < sporks[0].rootBlock
    ensures found.Some? ==> Contains(sporks, found.value, height)
  {
    var cur := 0;
    if height < sporks[cur].rootBlock {
      return None;
    }
    while cur + 1 < |sporks| && height >= sporks[cur + 1].rootBlock
      invariant cur < |sporks| && sporks[cur].rootBlock <= height
    {
      cur := cur + 1;
    }
    found := Some(cur);
  }

  predicate Contains(sporks: seq<Spork>, i: nat, height: uint64) {
    && i < |sporks| && sporks[i].rootBlock <= height
    && (i + 1 < |sporks| ==> height < sporks[i + 1].rootBlock)
  }

  lemma {:induction false} RootsAscend(sporks: seq<Spork>, i: nat, j: nat)
    requires Linked(sporks)
    ensures i <= j < |sporks| ==> sporks[i].rootBlock <= sporks[j].rootBlock
  {
    if i < j < |sporks| {
      RootsAscend(sporks, i, j - 1);
    }
  }

  /** Every height has one spork, and heights past the last root are live. */
  lemma {:induction false} SporkIsUnique(sporks: seq<Spork>, i: nat, j: nat, height: uint64)
    requires Linked(sporks) && Contains(sporks, i, height) && Contains(sporks, j, height)
    ensures i == j
    ensures height >= sporks[|sporks| - 1].rootBlock ==> i == |sporks| - 1
  {
    var last := |sporks| - 1;
    RootsAscend(sporks, i + 1, j);
    RootsAscend(sporks, j + 1, i);
    RootsAscend(sporks, i + 1, last);
  }

  // ---- Past sporks ----

  /** One block handed to processBlock. */
  datatype Planned = Planned(height: uint64, hash: ByteString)

  /** A verified block: its parent, and the seals it carries. */
  datatype Report = Report(parent: ByteString, seals: seq<Seal>)

  /** What getVerifiedParent finds; None when the context is cancelled. */
  type Reporter = (ByteString, uint64) -> Option<Report>

  /** The parent reported for a planned block: the live root's comes from its own metadata. */
  function ReportedParent(liveRoot: BlockMeta, reporter: Reporter, p: Planned): Option<ByteString> {
    if p.height == liveRoot.height then Some(liveRoot.parent)
    else
      var found := reporter(p.hash, p.height);
      if found.None? then None else Some(found.value.parent)
  }

  /** The seals in a walked block; the live root is not fetched by the walk. */
  function SealsOf(liveRoot: BlockMeta, reporter: Reporter, p: Planned): seq<Seal> {
    if p.height == liveRoot.height then []
    else
      var found := reporter(p.hash, p.height);
      if found.None? then [] else found.value.seals
  }

  /** The blocks startHeight..liveRoot in order, each the reported parent of the next. */
  ghost predicate IsHashChain(liveRoot: BlockMeta, reporter: Reporter, startHeight: uint64, plan: seq<Planned>) {
    && |plan| == liveRoot.height - startHeight + 1 && plan != []
    && (forall i :: 0 <= i < |plan| ==> plan[i].height == startHeight + i)
    && plan[|plan| - 1].hash == liveRoot.hash
    && (forall i :: 0 <= i < |plan| - 1 ==> ReportedParent(liveRoot, reporter, plan[i + 1]) == Some(plan[i].hash))
  }

  lemma {:induction false} ParentIsReported(
      liveRoot: BlockMeta, reporter: Reporter, startHeight: uint64, plan: seq<Planned>, i: nat)
    requires IsHashChain(liveRoot, reporter, startHeight, plan) && i < |plan|
    ensures i > 0 ==> ReportedParent(liveRoot, reporter, plan[i]).Some?
  {
    if i > 0 {
      assert ReportedParent(liveRoot, reporter, plan[(i - 1) + 1]) == Some(plan[i - 1].hash);
    }
  }

  /** Any hash chain from the live root agrees with the hashes walked so far. */
  lemma {:induction false} ChainFollowsWalk(
      liveRoot: BlockMeta, reporter: Reporter, startHeight: uint64, plan: seq<Planned>,
                                            hashes: seq<ByteString>, j: nat)
    requires IsHashChain(liveRoot, reporter, startHeight, plan)
    requires j < |hashes| <= |plan| && hashes[0] == liveRoot.hash
    requires forall i :: 0 <= i < |hashes| - 1 ==>
               ReportedParent(liveRoot, reporter, Planned(liveRoot.height - i, hashes[i])) == Some(hashes[i + 1])
    ensures plan[|plan| - 1 - j] == Planned(liveRoot.height - j, hashes[j])
  {
    if j > 0 {
      ChainFollowsWalk(liveRoot, reporter, startHeight, plan, hashes, j - 1);
      assert ReportedParent(liveRoot, reporter, plan[|plan| - 1 - j + 1]) == Some(plan[|plan| - 1 - j].hash);
    }
  }

  // ---- Recorded seals ----

  type Results = map<ByteString, ByteString>

  /** The loop that records a block's seals; later ones overwrite. */
  function OnRecord(results: Results, seals: seq<Seal>): Results {
    if seals == [] then results
    else
      var seal := seals[|seals| - 1];
      OnRecord(results, seals[..|seals| - 1])[seal.blockId := seal.resultId]
  }

  method RecordSeals(results: Results, seals: seq<Seal>) returns (results': Results)
    ensures results' == OnRecord(results, seals)
  {
    results' := results;
    for i := 0 to |seals|
      invariant results' == OnRecord(results, seals[..i])
    {
      assert seals[..i + 1][..i] == seals[..i];
      results' := results'[seals[i].blockId := seals[i].resultId];
    }
    assert seals[..|seals|] == seals;
  }

  lemma {:induction false} RecordedTwice(results: Results, x: seq<Seal>, y: seq<Seal>)
    ensures OnRecord(OnRecord(results, x), y) == OnRecord(results, x + y)
  {
    if y == [] {
      assert x + y == x;
    } else {
      RecordedTwice(results, x, y[..|y| - 1]);
      assert (x + y)[..|x + y| - 1] == x + y[..|y| - 1];
    }
  }

  /** What is on record was there before or is one of the seals. */
  lemma {:induction false} RecordedFrom(results: Results, seals: seq<Seal>, id: ByteString)
    requires id in OnRecord(results, seals)
    ensures var result := OnRecord(results, seals)[id];
            (id in results && results[id] == result) || Seal(id, result) in seals
  {
    if seals != [] && seals[|seals| - 1].blockId != id {
      RecordedFrom(results, seals[..|seals| - 1], id);
    }
  }

  /** Of several seals of a block, the last one walked stays on record. */
  lemma {:induction false} LastSealWins(results: Results, seals: seq<Seal>, i: nat)
    requires i < |seals| && forall j :: i < j < |seals| ==> seals[j].blockId != seals[i].blockId
    ensures var recorded := OnRecord(results, seals);
            seals[i].blockId in recorded && recorded[seals[i].blockId] == seals[i].resultId
  {
    if i < |seals| - 1 {
      LastSealWins(results, seals[..|seals| - 1], i);
    }
  }

  /** Every seal leaves its block on record. */
  lemma {:induction false} AllRecorded(results: Results, seals: seq<Seal>, id: ByteString)
    requires id in results || exists seal :: seal in seals && seal.blockId == id
    ensures id in OnRecord(results, seals)
  {
    if seals != [] && seals[|seals| - 1].blockId != id {
      AllRecorded(results, seals[..|seals| - 1], id);
    }
  }

  /** The seals of the walked blocks, from the top down. */
  function WalkedSeals(liveRoot: BlockMeta, reporter: Reporter, hashes: seq<ByteString>): seq<Seal>
    requires |hashes| <= liveRoot.height + 1
  {
    if hashes == [] then []
    else
      var n := |hashes| - 1;
      var p := Planned(liveRoot.height - n, hashes[n]);
      WalkedSeals(liveRoot, reporter, hashes[..n]) + SealsOf(liveRoot, reporter, p)
  }

  lemma {:induction false} WalkedSealIsInBlock(
      liveRoot: BlockMeta, reporter: Reporter, hashes: seq<ByteString>, seal: Seal) returns (j: nat)
    requires |hashes| <= liveRoot.height + 1 && seal in WalkedSeals(liveRoot, reporter, hashes)
    ensures j < |hashes| && seal in SealsOf(liveRoot, reporter, Planned(liveRoot.height - j, hashes[j]))
  {
    var n := |hashes| - 1;
    if seal in WalkedSeals(liveRoot, reporter, hashes[..n]) {
      j := WalkedSealIsInBlock(liveRoot, reporter, hashes[..n], seal);
    } else {
      j := n;
    }
  }

  lemma {:induction false} BlockSealIsWalked(
      liveRoot: BlockMeta, reporter: Reporter, hashes: seq<ByteString>, j: nat, seal: Seal)
    requires j < |hashes| <= liveRoot.height + 1
    requires seal in SealsOf(liveRoot, reporter, Planned(liveRoot.height - j, hashes[j]))
    ensures seal in WalkedSeals(liveRoot, reporter, hashes)
  {
    if j < |hashes| - 1 {
      BlockSealIsWalked(liveRoot, reporter, hashes[..|hashes| - 1], j, seal);
    }
  }

  // ---- The walk ----

  /** The hashes walked so far, and the parent the last of them reported. */
  ghost predicate Walked(liveRoot: BlockMeta, reporter: Reporter, hashes: seq<ByteString>, parent: ByteString) {
    && 0 < |hashes| <= liveRoot.height + 1
    && hashes[0] == liveRoot.hash
    && (forall j :: 0 <= j < |hashes| - 1 ==>
          ReportedParent(liveRoot, reporter, Planned(liveRoot.height - j, hashes[j])) == Some(hashes[j + 1]))
    && ReportedParent(liveRoot, reporter, Planned(liveRoot.height - |hashes| + 1, hashes[|hashes| - 1])) == Some(parent)
  }

  lemma {:induction false} WalkedOneMore(
      liveRoot: BlockMeta, reporter: Reporter, hashes: seq<ByteString>, parent: ByteString, found: Report)
    requires Walked(liveRoot, reporter, hashes, parent) && |hashes| <= liveRoot.height
    requires reporter(parent, liveRoot.height - |hashes|) == Some(found)
    ensures Walked(liveRoot, reporter, hashes + [parent], found.parent)
    ensures WalkedSeals(liveRoot, reporter, hashes + [parent]) == WalkedSeals(liveRoot, reporter, hashes) + found.seals
  {
    var longer := hashes + [parent];
    assert longer[..|hashes|] == hashes;
    forall j | 0 <= j < |longer| - 1
      ensures ReportedParent(liveRoot, reporter, Planned(liveRoot.height - j, longer[j])) == Some(longer[j + 1])
    {
      assert longer[j] == hashes[j];
    }
  }

  lemma {:induction false} WalkIsStuck(
      liveRoot: BlockMeta, reporter: Reporter, startHeight: uint64, hashes: seq<ByteString>, parent: ByteString,
      p: seq<Planned>)
    requires Walked(liveRoot, reporter, hashes, parent) && startHeight <= liveRoot.height - |hashes|
    requires reporter(parent, liveRoot.height - |hashes|).None?
    requires IsHashChain(liveRoot, reporter, startHeight, p)
    ensures ReportedParent(liveRoot, reporter, p[0]).None?
  {
    var longer, j := hashes + [parent], |hashes|;
    forall i | 0 <= i < |longer| - 1
      ensures ReportedParent(liveRoot, reporter, Planned(liveRoot.height - i, longer[i])) == Some(longer[i + 1])
    {
      assert longer[i] == hashes[i];
    }
    ChainFollowsWalk(liveRoot, reporter, startHeight, p, longer, j);
    assert p[|p| - 1 - j] == Planned(liveRoot.height - j, parent);
    ParentIsReported(liveRoot, reporter, startHeight, p, |p| - 1 - j);
  }

  /** The backward walk: hashes from the live root down to the start height, recording
      the seals of every block it fetches, also if it is cancelled. */
  method WalkBack(liveRoot: BlockMeta, startHeight: uint64, reporter: Reporter, results: Results)
    returns (ok: bool, hashes: seq<ByteString>, parent: ByteString, results': Results)
    requires 1 <= startHeight <= liveRoot.height
    ensures |hashes| <= liveRoot.height && results' == OnRecord(results, WalkedSeals(liveRoot, reporter, hashes))
    ensures ok ==> |hashes| == liveRoot.height - startHeight + 1 && Walked(liveRoot, reporter, hashes, parent)
    ensures !ok ==> forall p: seq<Planned> :: IsHashChain(liveRoot, reporter, startHeight, p) ==>
                      ReportedParent(liveRoot, reporter, p[0]).None?
  {
    hide Walked, ReportedParent, SealsOf;
    ok, hashes, parent, results' := true, [], [], results;
    var height := liveRoot.height;
    while height >= startHeight
      invariant height == liveRoot.height - |hashes| && startHeight <= height + 1
      invariant hashes != [] ==> Walked(liveRoot, reporter, hashes, parent)
      invariant results' == OnRecord(results, WalkedSeals(liveRoot, reporter, hashes))
      decreases height
    {
      if hashes == [] {
        FirstWalked(liveRoot, reporter);
        parent := liveRoot.parent;
        hashes := [liveRoot.hash];
        height := ToUint64(height - 1); // never wraps: startHeight >= 1
        continue;
      }
      var hash := parent;
      var found := reporter(hash, height);
      if found.None? {
        ok := false;
        forall p: seq<Planned> | IsHashChain(liveRoot, reporter, startHeight, p)
          ensures ReportedParent(liveRoot, reporter, p[0]).None?
        {
          WalkIsStuck(liveRoot, reporter, startHeight, hashes, parent, p);
        }
        return;
      }
      WalkedOneMore(liveRoot, reporter, hashes, parent, found.value);
      RecordedTwice(results, WalkedSeals(liveRoot, reporter, hashes), found.value.seals);
      results' := RecordSeals(results', found.value.seals);
      parent := found.value.parent;
      hashes := hashes + [hash];
      height := ToUint64(height - 1);
    }
  }

  lemma {:induction false} FirstWalked(liveRoot: BlockMeta, reporter: Reporter)
    ensures Walked(liveRoot, reporter, [liveRoot.hash], liveRoot.parent)
    ensures WalkedSeals(liveRoot, reporter, [liveRoot.hash]) == WalkedSeals(liveRoot, reporter, [])
  {
    assert [liveRoot.hash][..0] == [];
  }

  /** The plan is the walk turned round. */
  ghost predicate Turned(startHeight: uint64, hashes: seq<ByteString>, plan: seq<Planned>) {
    && |plan| == |hashes| && startHeight + |hashes| <= TWO_64
    && forall i :: 0 <= i < |plan| ==> plan[i] == Planned(startHeight + i, hashes[|hashes| - 1 - i])
  }

  lemma {:induction false} WalkIsChain(
      liveRoot: BlockMeta, reporter: Reporter, startHeight: uint64, hashes: seq<ByteString>, parent: ByteString,
      plan: seq<Planned>)
    requires Walked(liveRoot, reporter, hashes, parent) && Turned(startHeight, hashes, plan)
    requires startHeight + |hashes| == liveRoot.height + 1
    ensures IsHashChain(liveRoot, reporter, startHeight, plan)
    ensures ReportedParent(liveRoot, reporter, plan[0]) == Some(parent)
  {
    hide ReportedParent;
    forall i | 0 <= i < |plan| - 1 ensures ReportedParent(liveRoot, reporter, plan[i + 1]) == Some(plan[i].hash) {
      var j := |hashes| - 2 - i;
      assert ReportedParent(liveRoot, reporter, Planned(liveRoot.height - j, hashes[j])) == Some(hashes[j + 1]);
    }
  }

  lemma {:induction false} WalkIsOnlyChain(
      liveRoot: BlockMeta, reporter: Reporter, startHeight: uint64, hashes: seq<ByteString>, parent: ByteString,
      p: seq<Planned>)
    requires Walked(liveRoot, reporter, hashes, parent) && startHeight + |hashes| == liveRoot.height + 1
    requires IsHashChain(liveRoot, reporter, startHeight, p)
    ensures ReportedParent(liveRoot, reporter, p[0]) == Some(parent)
  {
    hide ReportedParent;
    ChainFollowsWalk(liveRoot, reporter, startHeight, p, hashes, |hashes| - 1);
  }

  /** indexPastSporks up to the calls of processBlock. An empty plan means that
      the walk was cancelled or does not reach the last indexed block. */
  method PlanPastSporks(liveRoot: BlockMeta, last: BlockMeta, reporter: Reporter, results: Results)
    returns (plan: seq<Planned>, results': Results, ghost walked: seq<ByteString>)
    requires last.height < liveRoot.height
    ensures |walked| <= liveRoot.height && results' == OnRecord(results, WalkedSeals(liveRoot, reporter, walked))
    ensures plan != [] ==>
              && IsHashChain(liveRoot, reporter, last.height + 1, plan) && Turned(last.height + 1, walked, plan)
              && ReportedParent(liveRoot, reporter, plan[0]) == Some(last.hash)
    ensures plan == [] ==> forall p: seq<Planned> :: IsHashChain(liveRoot, reporter, last.height + 1, p) ==>
                             ReportedParent(liveRoot, reporter, p[0]) != Some(last.hash)
  {
    hide Walked, ReportedParent, WalkedSeals, OnRecord;
    plan := [];
    var startHeight := last.height + 1;
    var ok, hashes, parent, recorded := WalkBack(liveRoot, startHeight, reporter, results);
    results', walked := recorded, hashes;
    if !ok {
      return;
    }
    if last.hash != parent {
      forall p: seq<Planned> | IsHashChain(liveRoot, reporter, startHeight, p)
        ensures ReportedParent(liveRoot, reporter, p[0]) != Some(last.hash)
      {
        WalkIsOnlyChain(liveRoot, reporter, startHeight, hashes, parent, p);
      }
      return;
    }
    var height := startHeight;
    for j := |hashes| downto 0
      invariant height == ToUint64(startHeight + |plan|) && |plan| == |hashes| - j
      invariant forall i :: 0 <= i < |plan| ==> plan[i] == Planned(startHeight + i, hashes[|hashes| - 1 - i])
    {
      plan := plan + [Planned(height, hashes[j])];
      height := ToUint64(height + 1);
    }
    WalkIsChain(liveRoot, reporter, startHeight, hashes, parent, plan);
  }

  /** With a fixed reporter there is one chain back from the live root, so two
      accepted walks index the same blocks. */
  lemma {:induction false} PlanIsUnique(
      liveRoot: BlockMeta, reporter: Reporter, startHeight: uint64, plan: seq<Planned>, plan': seq<Planned>, i: nat)
    requires IsHashChain(liveRoot, reporter, startHeight, plan) && IsHashChain(liveRoot, reporter, startHeight, plan')
    requires i < |plan|
    ensures plan[i] == plan'[i]
    decreases |plan| - i
  {
    if i < |plan| - 1 {
      PlanIsUnique(liveRoot, reporter, startHeight, plan, plan', i + 1);
    }
  }
}
