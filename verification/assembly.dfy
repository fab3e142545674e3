/** Reshaping the flat record list into the id × variable result table. */
module Assembly {
  import opened Wrappers
  import opened Errors
  import opened ChunkExtraction

  /** A table cell: `(id, variable)`. */
  type CellKey = (string, string)

  function CellOf<V>(record: Record<V>): CellKey {
    (record.id, record.variable)
  }

  /** No two records target the same cell. */
  predicate UniqueCells<V>(records: seq<Record<V>>) {
    forall i, j :: 0 <= i < j < |records| ==> CellOf(records[i]) != CellOf(records[j])
  }

  /** The cells the records target. */
  function CellsOf<V>(records: seq<Record<V>>): set<CellKey> {
    set i | 0 <= i < |records| :: CellOf(records[i])
  }

  /** The result frame: the empty, unpivoted frame, or the pivoted table with
      ids as rows and variables as columns. */
  datatype Table<V> =
    | EmptyFrame
    | Pivoted(rows: set<string>, columns: set<string>, cells: map<CellKey, V>)

  /** `pivot("id", "variable", "value")` on the cells: every record lands in its
      own cell; a second record for a cell is refused, as pandas refuses to
      reshape an index with duplicate entries. */
  function PivotCells<V>(records: seq<Record<V>>): (r: Result<map<CellKey, V>, ExtractionError>)
    ensures r.Success? <==> UniqueCells(records)
    ensures r.Success? ==> r.value.Keys == CellsOf(records)
    ensures r.Success? ==> forall i :: 0 <= i < |records| ==> r.value[CellOf(records[i])] == records[i].value
    ensures r.Failure? ==> r.error.DuplicateCell?
    decreases |records|
  {
    if |records| == 0 then Success(map[])
    else
      var prefix := records[..|records| - 1];
      var last := records[|records| - 1];
      assert records == prefix + [last];
      UniqueCellsSnoc(prefix, last);
      var cells :- PivotCells(prefix);
      if CellOf(last) in cells then Failure(DuplicateCell(last.id, last.variable))
      else Success(cells[CellOf(last) := last.value])
  }

  /** Appending a record keeps the cells unique exactly when its cell is new. */
  lemma UniqueCellsSnoc<V>(prefix: seq<Record<V>>, last: Record<V>)
    ensures UniqueCells(prefix + [last]) <==> UniqueCells(prefix) && CellOf(last) !in CellsOf(prefix)
    ensures CellsOf(prefix + [last]) == CellsOf(prefix) + {CellOf(last)}
  {
    var records := prefix + [last];
    assert forall i :: 0 <= i < |prefix| ==> records[i] == prefix[i];
    assert records[|prefix|] == last;
    if CellOf(last) in CellsOf(prefix) {
      var i :| 0 <= i < |prefix| && CellOf(prefix[i]) == CellOf(last);
      assert CellOf(records[i]) == CellOf(records[|prefix|]);
    }
    assert CellsOf(records) == CellsOf(prefix) + {CellOf(last)} by {
      forall cell | cell in CellsOf(records) ensures cell in CellsOf(prefix) + {CellOf(last)} {
        var i :| 0 <= i < |records| && CellOf(records[i]) == cell;
        if i < |prefix| {
          assert CellOf(prefix[i]) == cell;
        }
      }
    }
  }

  /** The cells of a concatenation are unique exactly when each part's are and
      the parts share no cell. */
  lemma UniqueCellsAppend<V>(a: seq<Record<V>>, b: seq<Record<V>>)
    ensures CellsOf(a + b) == CellsOf(a) + CellsOf(b)
    ensures UniqueCells(a + b) <==> UniqueCells(a) && UniqueCells(b) && CellsOf(a) !! CellsOf(b)
  {
    var ab := a + b;
    assert forall i :: 0 <= i < |a| ==> ab[i] == a[i];
    assert forall i :: 0 <= i < |b| ==> ab[|a| + i] == b[i];
    assert CellsOf(ab) == CellsOf(a) + CellsOf(b) by {
      forall cell | cell in CellsOf(ab) ensures cell in CellsOf(a) + CellsOf(b) {
        var i :| 0 <= i < |ab| && CellOf(ab[i]) == cell;
        if i >= |a| {
          assert CellOf(b[i - |a|]) == cell;
        }
      }
    }
    if UniqueCells(ab) {
      assert UniqueCells(b) by {
        forall i, j | 0 <= i < j < |b| ensures CellOf(b[i]) != CellOf(b[j]) {
          assert CellOf(ab[|a| + i]) != CellOf(ab[|a| + j]);
        }
      }
      forall cell | cell in CellsOf(a) ensures cell !in CellsOf(b) {
        var i :| 0 <= i < |a| && CellOf(a[i]) == cell;
        forall j | 0 <= j < |b| ensures CellOf(b[j]) != cell {
          assert CellOf(ab[i]) != CellOf(ab[|a| + j]);
        }
      }
    }
    if UniqueCells(a) && UniqueCells(b) && CellsOf(a) !! CellsOf(b) {
      forall i, j | 0 <= i < j < |ab| ensures CellOf(ab[i]) != CellOf(ab[j]) {
        if j < |a| {
        } else if i >= |a| {
          assert CellOf(ab[i]) == CellOf(b[i - |a|]) && CellOf(ab[j]) == CellOf(b[j - |a|]);
        } else {
          assert CellOf(ab[i]) in CellsOf(a);
          assert CellOf(ab[j]) == CellOf(b[j - |a|]);
          assert CellOf(ab[j]) in CellsOf(b);
        }
      }
    }
  }

  /** The assembly after `map_reduce`: the pivot happens only when there are
      records; an empty list yields the empty frame. */
  function Assemble<V>(records: seq<Record<V>>): (r: Result<Table<V>, ExtractionError>)
    ensures (r.Success? && r.value.EmptyFrame?) <==> |records| == 0
    ensures r.Failure? <==> !UniqueCells(records)
    ensures r.Failure? ==> r.error.DuplicateCell?
    ensures r.Success? && r.value.Pivoted? ==>
              && r.value.rows == (set i | 0 <= i < |records| :: records[i].id)
              && r.value.columns == (set i | 0 <= i < |records| :: records[i].variable)
              && r.value.cells.Keys == CellsOf(records)
              && (forall i :: 0 <= i < |records| ==> r.value.cells[CellOf(records[i])] == records[i].value)
              && (forall cell :: cell in r.value.cells ==> cell.0 in r.value.rows && cell.1 in r.value.columns)
  {
    if |records| == 0 then Success(EmptyFrame)
    else
      var cells :- PivotCells(records);
      Success(Pivoted(set cell | cell in cells :: cell.0, set cell | cell in cells :: cell.1, cells))
  }

  /** Each record of `records1` occurs somewhere in `records2`. */
  ghost predicate Covers<V>(records1: seq<Record<V>>, records2: seq<Record<V>>) {
    forall i :: 0 <= i < |records1| ==> records1[i] in records2
  }

  /** A covered record list pivots into a sub-table of the covering one. */
  lemma CoveredCells<V>(records1: seq<Record<V>>, records2: seq<Record<V>>)
    requires Covers(records1, records2)
    requires UniqueCells(records2)
    ensures CellsOf(records1) <= CellsOf(records2)
    ensures forall i :: 0 <= i < |records1| ==>
              PivotCells(records2).value[CellOf(records1[i])] == records1[i].value
  {
  }

  /** The pivoted cells do not depend on the order in which records arrive:
      two record lists holding the same records, each without a duplicate
      cell, pivot to the same cells. */
  lemma PivotIgnoresOrder<V>(records1: seq<Record<V>>, records2: seq<Record<V>>)
    requires Covers(records1, records2) && Covers(records2, records1)
    requires UniqueCells(records1) && UniqueCells(records2)
    ensures PivotCells(records1) == PivotCells(records2)
  {
    var p1, p2 := PivotCells(records1), PivotCells(records2);
    assert p1.Success? && p2.Success?;
    assert forall i :: 0 <= i < |records1| ==> p2.value[CellOf(records1[i])] == records1[i].value by {
      CoveredCells(records1, records2);
    }
    assert CellsOf(records1) == CellsOf(records2) by {
      CoveredCells(records1, records2);
      CoveredCells(records2, records1);
    }
    SameCells(records1, p1.value, p2.value);
  }

  /** Two tables that hold every record of a list, and have exactly its cells, agree. */
  lemma SameCells<V>(records: seq<Record<V>>, cells1: map<CellKey, V>, cells2: map<CellKey, V>)
    requires cells1.Keys == CellsOf(records) && cells2.Keys == CellsOf(records)
    requires forall i :: 0 <= i < |records| ==> cells1[CellOf(records[i])] == records[i].value
    requires forall i :: 0 <= i < |records| ==> cells2[CellOf(records[i])] == records[i].value
    ensures cells1 == cells2
  {
  }
}
