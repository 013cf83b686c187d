/** Regrouping a block's transactions into collections on the fast path, where
    the access node returns them as one flat list. */
module Collections {
  import opened Prelude
  import opened Bytes

  /** Transactions and the rest of their results, as the bytes received. */
  datatype Result = Result(collectionId: ByteString, body: ByteString)

  datatype Collection = Collection(txns: seq<ByteString>, results: seq<Result>, system: bool)

  // ---- The loop ----

  /** A result and, if there is one, the transaction at its index. */
  datatype Item = Item(txn: Option<ByteString>, result: Result)

  function Items(txns: seq<ByteString>, results: seq<Result>): (items: seq<Item>)
    ensures |items| == |results|
  {
    seq(|results|, i requires 0 <= i < |results| => Item(if i < |txns| then Some(txns[i]) else None, results[i]))
  }

  function Added(col: Collection, item: Item): Collection {
    col.(txns := if item.txn.Some? then col.txns + [item.txn.value]
         else col.txns, results := col.results + [item.result])
  }

  function Empty(): Collection {
    Collection([], [], false)
  }

  function Extended(cols: seq<Collection>, starts: bool, item: Item): (cols': seq<Collection>)
    requires |cols| >= 1
    ensures |cols'| >= 1
  {
    if starts then cols + [Added(Empty(), item)] else cols[..|cols| - 1] + [Added(cols[|cols| - 1], item)]
  }

  predicate StartsNew(before: seq<Item>, item: Item) {
    before != [] && item.result.collectionId != before[|before| - 1].result.collectionId
  }

  /** A new collection starts where the collection ID changes. */
  function Runs(items: seq<Item>): (cols: seq<Collection>)
    ensures |cols| >= 1
  {
    if items == [] then [Empty()]
    else
      var before, item := items[..|items| - 1], items[|items| - 1];
      Extended(Runs(before), StartsNew(before, item), item)
  }

  function Marked(cols: seq<Collection>): seq<Collection>
    requires |cols| >= 1
  {
    cols[|cols| - 1 := cols[|cols| - 1].(system := true)]
  }

  lemma {:induction false} ExtendedLast(done: seq<Collection>, col: Collection, starts: bool, item: Item)
    ensures Extended(done + [col], starts, item) ==
            if starts then done + [col] + [Added(Empty(), item)] else done + [Added(col, item)]
  {
  }

  /** One turn of the loop over the results. */
  method Add(done: seq<Collection>, col: Collection, item: Item, starts: bool)
    returns (done': seq<Collection>, col': Collection)
    ensures done' + [col'] == Extended(done + [col], starts, item)
  {
    done', col' := done, col;
    if starts {
      done' := done' + [col'];
      col' := Empty();
    }
    if item.txn.Some? {
      col' := col'.(txns := col'.txns + [item.txn.value]);
    }
    col' := col'.(results := col'.results + [item.result]);
    ExtendedLast(done, col, starts, item);
  }

  method GroupResults(txns: seq<ByteString>, results: seq<Result>) returns (cols: seq<Collection>)
    ensures cols == Marked(Runs(Items(txns, results)))
  {
    ghost var items := Items(txns, results);
    var col: Collection := Empty();
    var done: seq<Collection> := []; // the collections before `col`
    var prev: ByteString := [];
    for i := 0 to |results|
      invariant Runs(items[..i]) == done + [col]
      invariant i > 0 ==> prev == results[i - 1].collectionId
    {
      RunsOneMore(txns, results, i);
      hide Runs, Items, Extended;
      var item := Item(if i < |txns| then Some(txns[i]) else None, results[i]);
      done, col := Add(done, col, item, i != 0 && results[i].collectionId != prev);
      prev := results[i].collectionId;
    }
    assert items[..|results|] == items;
    cols := done + [col];
    cols := cols[|cols| - 1 := cols[|cols| - 1].(system := true)];
  }

  lemma {:induction false} RunsOneMore(txns: seq<ByteString>, results: seq<Result>, i: nat)
    requires i < |results|
    ensures var items := Items(txns, results);
            Runs(items[..i + 1]) ==
            Extended(Runs(items[..i]), i != 0 && results[i].collectionId != results[i - 1].collectionId,
                     Item(if i < |txns| then Some(txns[i]) else None, results[i]))
  {
    var items := Items(txns, results);
    hide Runs, Extended;
    var item := Item(if i < |txns| then Some(txns[i]) else None, results[i]);
    assert items[..i + 1] == items[..i] + [item];
    assert i > 0 ==> items[..i][i - 1].result == results[i - 1];
    hide Items;
    RunsAppend(items[..i], item);
  }

  // ---- The structure the slow path builds directly ----

  predicate OneId(col: Collection) {
    && |col.txns| == |col.results|
    && forall i :: 0 <= i < |col.results| ==> col.results[i].collectionId == col.results[0].collectionId
  }

  /** One entry per collection, each with its transactions and their results; the system collection is last. */
  predicate OneEntryEach(cols: seq<Collection>) {
    && cols != []
    && (forall i :: 0 <= i < |cols| ==> OneId(cols[i]))
    && (forall i :: 0 <= i < |cols| ==> (cols[i].system <==> i == |cols| - 1))
  }

  function AllTxns(cols: seq<Collection>): seq<ByteString> {
    if cols == [] then [] else AllTxns(cols[..|cols| - 1]) + cols[|cols| - 1].txns
  }

  function AllResults(cols: seq<Collection>): seq<Result> {
    if cols == [] then [] else AllResults(cols[..|cols| - 1]) + cols[|cols| - 1].results
  }

  function FirstId(col: Collection): Option<ByteString> {
    if col.results == [] then None else Some(col.results[0].collectionId)
  }

  /** No collection is empty and neighbours have different IDs. */
  predicate Separated(cols: seq<Collection>) {
    cols == [] ||
    var before, id := cols[..|cols| - 1], FirstId(cols[|cols| - 1]);
    Separated(before) && id.Some? && (before != [] ==> FirstId(before[|before| - 1]) != id)
  }

  // ---- Runs are separated ----

  lemma {:induction false} ExtendedIsSeparated(cols: seq<Collection>, starts: bool, item: Item)
    requires |cols| >= 1 && Separated(cols)
    requires starts <==> FirstId(cols[|cols| - 1]) != Some(item.result.collectionId)
    ensures Separated(Extended(cols, starts, item))
    ensures var cols' := Extended(cols, starts, item); FirstId(cols'[|cols'| - 1]) == Some(item.result.collectionId)
  {
    var cols' := Extended(cols, starts, item);
    if starts {
      assert cols'[..|cols'| - 1] == cols;
    } else {
      assert cols'[..|cols'| - 1] == cols[..|cols| - 1];
    }
  }

  lemma {:induction false} FirstRun(item: Item)
    ensures Runs([]) == [Empty()]
    ensures var cols := Extended([Empty()], false, item);
            Separated(cols) && FirstId(cols[|cols| - 1]) == Some(item.result.collectionId)
  {
    var cols := Extended([Empty()], false, item);
    assert cols[..0] == [] && |cols| == 1;
  }

  lemma {:induction false} RunsAreSeparated(items: seq<Item>)
    requires items != []
    ensures Separated(Runs(items))
    ensures FirstId(Runs(items)[|Runs(items)| - 1]) == Some(items[|items| - 1].result.collectionId)
  {
    hide Runs, Separated, Extended, FirstId;
    var before, item := items[..|items| - 1], items[|items| - 1];
    assert items == before + [item];
    RunsAppend(before, item);
    if before == [] {
      FirstRun(item);
    } else {
      RunsAreSeparated(before);
      ExtendedIsSeparated(Runs(before), StartsNew(before, item), item);
    }
  }

  // ---- Flattened collections are found again ----

  function ItemsOf(col: Collection): seq<Item>
    requires |col.txns| == |col.results|
  {
    Items(col.txns, col.results)
  }

  /** The first k transactions of a collection. */
  function Start(col: Collection, k: nat): Collection
    requires k <= |col.txns| && k <= |col.results|
  {
    Collection(col.txns[..k], col.results[..k], false)
  }

  /** Reading a collection after the items of earlier ones adds just that collection. */
  lemma {:induction false} RunsOfNext(items: seq<Item>, col: Collection, k: nat)
    requires OneId(col) && 1 <= k <= |col.results|
    requires items != [] ==> items[|items| - 1].result.collectionId != col.results[0].collectionId
    ensures Runs(items + ItemsOf(col)[..k]) == (if items == [] then [] else Runs(items)) + [Start(col, k)]
  {
    assert items == [] ==> Runs(items) == [Empty()];
    hide Runs, Start, Items;
    var earlier, last := items + ItemsOf(col)[..k - 1], Item(Some(col.txns[k - 1]), col.results[k - 1]);
    ItemsStep(items, col, k);
    RunsAppend(earlier, last);
    StartAppend(col, k - 1);
    if k == 1 {
      EmptyStart(items, col);
    } else {
      RunsOfNext(items, col, k - 1);
      var cols := if items == [] then [] else Runs(items);
      var runs := cols + [Start(col, k - 1)];
      assert runs[..|runs| - 1] == cols;
    }
  }

  lemma {:induction false} EmptyStart(items: seq<Item>, col: Collection)
    requires |col.txns| == |col.results|
    ensures Start(col, 0) == Empty() && items + ItemsOf(col)[..0] == items
  {
  }

  lemma {:induction false} ItemsStep(items: seq<Item>, col: Collection, k: nat)
    requires OneId(col) && 1 <= k <= |col.results|
    ensures var earlier, last := items + ItemsOf(col)[..k - 1], Item(Some(col.txns[k - 1]), col.results[k - 1]);
            && items + ItemsOf(col)[..k] == earlier + [last]
            && (k > 1 ==> earlier[|earlier| - 1].result.collectionId == last.result.collectionId)
  {
  }

  lemma {:induction false} StartAppend(col: Collection, k: nat)
    requires k < |col.txns| && k < |col.results|
    ensures Added(Start(col, k), Item(Some(col.txns[k]), col.results[k])) == Start(col, k + 1)
  {
  }

  lemma {:induction false} RunsAppend(items: seq<Item>, item: Item)
    ensures Runs(items + [item]) == Extended(Runs(items), StartsNew(items, item), item)
  {
    assert (items + [item])[..|items|] == items;
  }

  lemma {:induction false} AllAligned(cols: seq<Collection>)
    requires forall i :: 0 <= i < |cols| ==> OneId(cols[i])
    ensures |AllTxns(cols)| == |AllResults(cols)|
  {
    if cols != [] {
      AllAligned(cols[..|cols| - 1]);
    }
  }

  lemma {:induction false} ItemsOfConcat(txns: seq<ByteString>, results: seq<Result>, col: Collection)
    requires |txns| == |results| && |col.txns| == |col.results|
    ensures Items(txns + col.txns, results + col.results) == Items(txns, results) + ItemsOf(col)
  {
  }

  function Unmarked(cols: seq<Collection>): seq<Collection> {
    seq(|cols|, i requires 0 <= i < |cols| => cols[i].(system := false))
  }

  lemma {:induction false} UnmarkedLast(cols: seq<Collection>)
    requires cols != [] && OneId(cols[|cols| - 1])
    ensures var col := cols[|cols| - 1];
            Unmarked(cols) == Unmarked(cols[..|cols| - 1]) + [Start(col, |col.results|)]
  {
    var col := cols[|cols| - 1];
    assert col.txns[..|col.txns|] == col.txns && col.results[..|col.results|] == col.results;
    assert Start(col, |col.results|) == col.(system := false);
  }

  lemma {:induction false} NothingUnmarked()
    ensures Unmarked([]) == []
  {
  }

  lemma {:induction false} RunsOfFlattened(cols: seq<Collection>)
    requires cols != [] && Separated(cols) && forall i :: 0 <= i < |cols| ==> OneId(cols[i])
    ensures Runs(Items(AllTxns(cols), AllResults(cols))) == Unmarked(cols)
    ensures AllResults(cols) != [] &&
            Some(AllResults(cols)[|AllResults(cols)| - 1].collectionId) == FirstId(cols[|cols| - 1])
  {
    hide Runs, Start, Unmarked;
    var n := |cols| - 1;
    var before, col := cols[..n], cols[n];
    assert col.results[|col.results| - 1].collectionId == col.results[0].collectionId;
    NothingUnmarked();
    var items := Items(AllTxns(before), AllResults(before));
    AllAligned(before);
    ItemsOfConcat(AllTxns(before), AllResults(before), col);
    assert ItemsOf(col)[..|col.results|] == ItemsOf(col);
    if n > 0 {
      RunsOfFlattened(before);
    }
    RunsOfNext(items, col, |col.results|);
    UnmarkedLast(cols);
  }

  lemma {:induction false} MarkedUnmarked(cols: seq<Collection>)
    requires OneEntryEach(cols)
    ensures Marked(Unmarked(cols)) == cols
  {
  }

  /** The fast path rebuilds the slow path's collections exactly when there is
      only one, or all hold transactions and neighbours have different IDs. */
  lemma {:induction false} GroupingInvertsFlattening(cols: seq<Collection>)
    requires OneEntryEach(cols)
    ensures Marked(Runs(Items(AllTxns(cols), AllResults(cols)))) == cols <==> |cols| == 1 || Separated(cols)
  {
    var items := Items(AllTxns(cols), AllResults(cols));
    if Separated(cols) {
      RunsOfFlattened(cols);
      MarkedUnmarked(cols);
    } else if |cols| == 1 {
      EmptyBlock(cols[0]);
      assert cols == [cols[0]];
    } else {
      if items == [] {
        assert |Runs(items)| == 1;
      } else {
        RunsAreSeparated(items);
        MarkedIsSeparated(Runs(items));
      }
    }
  }

  lemma {:induction false} EmptyBlock(col: Collection)
    requires OneId(col) && col.system && !Separated([col])
    ensures Marked(Runs(Items(AllTxns([col]), AllResults([col])))) == [col]
  {
    assert [col][..0] == [];
    assert col.results == [];
    assert AllResults([col]) == [];
  }

  lemma {:induction false} MarkedIsSeparated(cols: seq<Collection>)
    requires |cols| >= 1 && Separated(cols)
    ensures Separated(Marked(cols))
  {
    assert Marked(cols)[..|cols| - 1] == cols[..|cols| - 1];
  }

  lemma {:induction false} ExtendedKeepsResults(cols: seq<Collection>, starts: bool, item: Item)
    requires |cols| >= 1
    ensures AllResults(Extended(cols, starts, item)) == AllResults(cols) + [item.result]
  {
    var cols' := Extended(cols, starts, item);
    if starts {
      assert cols'[..|cols'| - 1] == cols;
    } else {
      assert cols'[..|cols'| - 1] == cols[..|cols| - 1];
    }
  }

  /** Nothing is lost or reordered, whatever the IDs. */
  lemma {:induction false} RunsKeepResults(items: seq<Item>)
    ensures |AllResults(Runs(items))| == |items|
    ensures forall i :: 0 <= i < |items| ==> AllResults(Runs(items))[i] == items[i].result
  {
    hide Runs, AllResults, Extended;
    if items == [] {
      NoResults();
    } else {
      var before, item := items[..|items| - 1], items[|items| - 1];
      assert items == before + [item];
      RunsKeepResults(before);
      RunsAppend(before, item);
      ExtendedKeepsResults(Runs(before), StartsNew(before, item), item);
    }
  }

  lemma {:induction false} NoResults()
    ensures AllResults(Runs([])) == []
  {
    assert Runs([])[..0] == [];
  }
}
