/** The process pool returns per-chunk results in completion order. This
    module shows that the assembled table does not depend on that order. */
module CompletionOrder {
  import opened Wrappers
  import opened ChunkExtraction
  import opened FlatMap
  import opened Distribution
  import opened Assembly

  ghost predicate AllSucceed<A, B, E>(f: A -> Result<seq<B>, E>, items: seq<A>) {
    forall i :: 0 <= i < |items| ==> f(items[i]).Success?
  }

  /** Each item's records target distinct cells, and no two items share a cell. */
  ghost predicate BlocksUnique<A, V, E>(f: A -> Result<seq<Record<V>>, E>, items: seq<A>)
    requires AllSucceed(f, items)
  {
    && (forall i :: 0 <= i < |items| ==> UniqueCells(f(items[i]).value))
    && (forall i, j :: 0 <= i < |items| && 0 <= j < |items| && i != j ==>
          CellsOf(f(items[i]).value) !! CellsOf(f(items[j]).value))
  }

  /** A set of cells misses the flat-map's cells exactly when it misses every item's cells. */
  lemma DisjointFromFlatMap<A, V, E>(f: A -> Result<seq<Record<V>>, E>, items: seq<A>, cells: set<CellKey>)
    requires MapReduce(f, items).Success?
    ensures cells !! CellsOf(MapReduce(f, items).value) <==>
            forall i :: 0 <= i < |items| ==> cells !! CellsOf(f(items[i]).value)
  {
    var r := MapReduce(f, items).value;
    MapReduceKeepsOutputs(f, items);
    MapReduceOutputsFromItems(f, items);
    if cells !! CellsOf(r) {
      forall i | 0 <= i < |items| ensures cells !! CellsOf(f(items[i]).value) {
        forall cell | cell in CellsOf(f(items[i]).value) ensures cell !in cells {
          var m :| 0 <= m < |f(items[i]).value| && CellOf(f(items[i]).value[m]) == cell;
          assert f(items[i]).value[m] in r;
          var k :| 0 <= k < |r| && r[k] == f(items[i]).value[m];
          assert cell in CellsOf(r);
        }
      }
    }
    if forall i :: 0 <= i < |items| ==> cells !! CellsOf(f(items[i]).value) {
      forall cell | cell in CellsOf(r) ensures cell !in cells {
        var k :| 0 <= k < |r| && CellOf(r[k]) == cell;
        assert OutputOfSomeItem(f, items, r[k]);
        var i, j :| 0 <= i < |items| && f(items[i]).Success? && 0 <= j < |f(items[i]).value|
                    && r[k] == f(items[i]).value[j];
        assert cell in CellsOf(f(items[i]).value);
      }
    }
  }

  /** A flat-map's cells are unique exactly when every item's cells are and
      no two items share a cell. */
  lemma {:induction false} UniqueIffBlocksUnique<A, V, E>(f: A -> Result<seq<Record<V>>, E>, items: seq<A>)
    requires MapReduce(f, items).Success?
    ensures AllSucceed(f, items)
    ensures UniqueCells(MapReduce(f, items).value) <==> BlocksUnique(f, items)
  {
    if |items| > 0 {
      var rest := items[1..];
      var head, tail := f(items[0]).value, MapReduce(f, rest).value;
      assert MapReduce(f, items).value == head + tail;
      assert forall j :: 0 <= j < |rest| ==> rest[j] == items[j + 1];
      UniqueCellsAppend(head, tail);
      UniqueIffBlocksUnique(f, rest);
      DisjointFromFlatMap(f, rest, CellsOf(head));
      if BlocksUnique(f, items) {
        assert BlocksUnique(f, rest) by {
          forall i, j | 0 <= i < |rest| && 0 <= j < |rest| && i != j
            ensures CellsOf(f(rest[i]).value) !! CellsOf(f(rest[j]).value)
          {
            assert CellsOf(f(items[i + 1]).value) !! CellsOf(f(items[j + 1]).value);
          }
        }
        forall j | 0 <= j < |rest| ensures CellsOf(head) !! CellsOf(f(rest[j]).value) {
          assert CellsOf(f(items[0]).value) !! CellsOf(f(items[j + 1]).value);
        }
      }
      if UniqueCells(head) && BlocksUnique(f, rest) && CellsOf(head) !! CellsOf(tail) {
        forall i, j | 0 <= i < |items| && 0 <= j < |items| && i != j
          ensures CellsOf(f(items[i]).value) !! CellsOf(f(items[j]).value)
        {
          if i == 0 {
            assert items[j] == rest[j - 1];
          } else if j == 0 {
            assert items[i] == rest[i - 1];
          } else {
            assert items[i] == rest[i - 1] && items[j] == rest[j - 1];
          }
        }
        forall i | 0 <= i < |items| ensures UniqueCells(f(items[i]).value) {
          if i > 0 {
            assert items[i] == rest[i - 1];
          }
        }
      }
    }
  }

  /** Reordering the items by a permutation keeps `BlocksUnique`, both ways. */
  lemma BlocksUniqueReorder<A, V, E>(f: A -> Result<seq<Record<V>>, E>, items: seq<A>, order: seq<nat>)
    requires IsPermutation(order, |items|)
    requires AllSucceed(f, items)
    ensures AllSucceed(f, Reorder(items, order))
    ensures BlocksUnique(f, items) <==> BlocksUnique(f, Reorder(items, order))
  {
    var reordered := Reorder(items, order);
    if BlocksUnique(f, items) {
      forall k, l | 0 <= k < |reordered| && 0 <= l < |reordered| && k != l
        ensures CellsOf(f(reordered[k]).value) !! CellsOf(f(reordered[l]).value)
      {
        assert order[k] != order[l];
      }
    }
    if BlocksUnique(f, reordered) {
      forall i | 0 <= i < |items| ensures UniqueCells(f(items[i]).value) {
        var k := PositionOf(order, |items|, i);
        assert reordered[k] == items[i];
      }
      forall i, j | 0 <= i < |items| && 0 <= j < |items| && i != j
        ensures CellsOf(f(items[i]).value) !! CellsOf(f(items[j]).value)
      {
        var k := PositionOf(order, |items|, i);
        var l := PositionOf(order, |items|, j);
        assert reordered[k] == items[i] && reordered[l] == items[j];
      }
    }
  }

  /** An output of one of the items is in the successful flat-map's result. */
  lemma OutputReachesResult<A, B, E>(f: A -> Result<seq<B>, E>, items: seq<A>, x: B)
    requires MapReduce(f, items).Success?
    requires OutputOfSomeItem(f, items, x)
    ensures x in MapReduce(f, items).value
  {
    var i, j :| 0 <= i < |items| && f(items[i]).Success? && 0 <= j < |f(items[i]).value|
                && x == f(items[i]).value[j];
    MapReduceKeepsOutputs(f, items);
  }

  /** Reordering the items by a permutation keeps the same outputs. */
  lemma ReorderedOutputs<A, B, E>(f: A -> Result<seq<B>, E>, items: seq<A>, order: seq<nat>, x: B)
    requires IsPermutation(order, |items|)
    ensures OutputOfSomeItem(f, items, x) <==> OutputOfSomeItem(f, Reorder(items, order), x)
  {
    var reordered := Reorder(items, order);
    if OutputOfSomeItem(f, items, x) {
      var i, j :| 0 <= i < |items| && f(items[i]).Success? && 0 <= j < |f(items[i]).value|
                  && x == f(items[i]).value[j];
      var l := PositionOf(order, |items|, i);
      assert reordered[l] == items[i];
    }
    if OutputOfSomeItem(f, reordered, x) {
      var l, j :| 0 <= l < |reordered| && f(reordered[l]).Success? && 0 <= j < |f(reordered[l]).value|
                  && x == f(reordered[l]).value[j];
      assert reordered[l] == items[order[l]];
    }
  }

  /** Every record of one successful run occurs in another successful run over
      a reordering of the same items. */
  lemma ReorderedRecordsCover<A, V, E>(f: A -> Result<seq<Record<V>>, E>, items: seq<A>, order: seq<nat>)
    requires IsPermutation(order, |items|)
    requires MapReduce(f, items).Success? && MapReduce(f, Reorder(items, order)).Success?
    ensures Covers(MapReduce(f, items).value, MapReduce(f, Reorder(items, order)).value)
    ensures Covers(MapReduce(f, Reorder(items, order)).value, MapReduce(f, items).value)
  {
    var reordered := Reorder(items, order);
    var r1, r2 := MapReduce(f, items).value, MapReduce(f, reordered).value;
    forall k | 0 <= k < |r1| ensures r1[k] in r2 {
      MapReduceOutputsFromItems(f, items);
      ReorderedOutputs(f, items, order, r1[k]);
      OutputReachesResult(f, reordered, r1[k]);
    }
    forall k | 0 <= k < |r2| ensures r2[k] in r1 {
      MapReduceOutputsFromItems(f, reordered);
      ReorderedOutputs(f, items, order, r2[k]);
      OutputReachesResult(f, items, r2[k]);
    }
  }

  /** The table assembled from a process pool's output is the one assembled
      from the sequential output, whatever order the chunks complete in:
      both runs fail or succeed together, both pivots succeed or fail
      together, and successful pivots agree. */
  lemma CompletionOrderDoesNotMatter<A, V, E>(f: A -> Result<seq<Record<V>>, E>, items: seq<A>, order: seq<nat>)
    requires IsPermutation(order, |items|)
    ensures MapReduce(f, items).Success? <==> MapReduce(f, Reorder(items, order)).Success?
    ensures MapReduce(f, items).Success? ==>
              var table1, table2 := Assemble(MapReduce(f, items).value),
                                    Assemble(MapReduce(f, Reorder(items, order)).value);
              && (table1.Success? <==> table2.Success?)
              && (table1.Success? ==> table1 == table2)
  {
    ReorderedSucceeds(f, items, order);
    var reordered := Reorder(items, order);
    if MapReduce(f, items).Success? {
      var r1, r2 := MapReduce(f, items).value, MapReduce(f, reordered).value;
      assert UniqueCells(r1) <==> UniqueCells(r2) by {
        UniqueIffBlocksUnique(f, items);
        UniqueIffBlocksUnique(f, reordered);
        BlocksUniqueReorder(f, items, order);
      }
      assert Covers(r1, r2) && Covers(r2, r1) by {
        ReorderedRecordsCover(f, items, order);
      }
      if |r1| > 0 {
        assert r1[0] in r2;
      }
      if |r2| > 0 {
        assert r2[0] in r1;
      }
      if UniqueCells(r1) {
        PivotIgnoresOrder(r1, r2);
      }
    }
  }
}
