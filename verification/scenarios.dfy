/** Worked examples of the engine on concrete series and catalogs. */
module Scenarios {
  import opened Wrappers
  import opened FeatureNames
  import opened Catalog
  import opened Chunking
  import opened ChunkExtraction
  import opened FlatMap
  import opened Distribution
  import opened Assembly
  import opened Extraction

  function Sum(xs: seq<real>): real {
    if |xs| == 0 then 0.0 else xs[0] + Sum(xs[1..])
  }

  function Mean(xs: seq<real>, params: Option<()>): real {
    if |xs| == 0 then 0.0 else Sum(xs) / (|xs| as real)
  }

  /** Integer ids 1 and 2 with their series. */
  function Series(key: (int, string)): seq<real> {
    if key.0 == 1 then [1.0, 2.0, 3.0] else [4.0, 5.0, 6.0]
  }

  /** Python's `str` of an integer: a minus sign when negative, then the decimal digits. */
  function IntToString(n: int): string {
    if n < 0 then "-" + NatToString(-n) else NatToString(n)
  }

  function NatToString(n: nat): string
    decreases n
  {
    if n < 10 then ["0123456789"[n]] else NatToString(n / 10) + ["0123456789"[n % 10]]
  }

  function Show(s: string): string { s }

  function NoKey(p: ()): string { "" }

  const MeanCatalog: FcParameters<()> := [Entry("mean", None)]

  const MeanRegistry: Registry<seq<real>, (), real> := map["mean" := Simple("mean", Mean)]

  /** On one chunk of kind "x", `{"mean": None}` yields the single record "x__mean". */
  lemma MeanOfOneChunk(chunk: Chunk<seq<real>>)
    requires chunk.kind == "x"
    ensures ExtractOnChunk(chunk, MeanCatalog, None, MeanRegistry, NoKey)
            == Success([Record(chunk.id, "x__mean", Mean(chunk.data, None))])
  {
    assert BaseName("x", "mean") == "x__mean";
    var records := [Record(chunk.id, "x__mean", Mean(chunk.data, None))];
    assert EntryRecords(chunk, MeanRegistry, MeanCatalog[0], NoKey) == Success(records);
    assert MeanCatalog[1..] == [];
    assert records + [] == records;
  }

  lemma MeansOfExampleSeries()
    ensures Mean([1.0, 2.0, 3.0], None) == 2.0
    ensures Mean([4.0, 5.0, 6.0], None) == 5.0
  {
  }

  /** Integer ids 1 and 2 of kind "x" and the catalog `{"mean": None}`: rows
      "1" and "2" (the ids' `str`) and one column "x__mean" holding each
      series' mean, from the sequential distributor or
      a process pool of any size, whichever chunk completes first. */
  lemma MeanOfTwoSeries(nJobs: int, completion: seq<nat>)
    requires IsPermutation(completion, 2)
    ensures DoExtraction([(1, "x"), (2, "x")], Series, IntToString, Show,
                         MeanCatalog, None, MeanRegistry, NoKey, NoDistributor, nJobs, true, completion)
            == Success(Pivoted({"1", "2"}, {"x__mean"},
                               map[("1", "x__mean") := 2.0, ("2", "x__mean") := 5.0]))
  {
    var records := [Record("1", "x__mean", 2.0), Record("2", "x__mean", 5.0)];
    var table := Pivoted({"1", "2"}, {"x__mean"}, map[("1", "x__mean") := 2.0, ("2", "x__mean") := 5.0]);
    MeanRecordsInKeyOrder();
    AssembleMeans();
    OutcomeOfKeyOrderTable([(1, "x"), (2, "x")], Series, IntToString, Show, MeanCatalog, None, MeanRegistry, NoKey,
                           NoDistributor, nJobs, true, completion, records, table);
  }

  /** The two chunks, taken in key order, give one mean record each. */
  lemma MeanRecordsInKeyOrder()
    ensures MapReduce(ChunkFunction(MeanCatalog, None, MeanRegistry, NoKey),
                      ChunksOf([(1, "x"), (2, "x")], Series, IntToString, Show))
            == Success([Record("1", "x__mean", 2.0), Record("2", "x__mean", 5.0)])
  {
    var keys := [(1, "x"), (2, "x")];
    var chunks := ChunksOf(keys, Series, IntToString, Show);
    assert IntToString(1) == "1" && IntToString(2) == "2";
    assert chunks == [Chunk("1", "x", [1.0, 2.0, 3.0]), Chunk("2", "x", [4.0, 5.0, 6.0])];
    MeansOfExampleSeries();
    MeanOfOneChunk(chunks[0]);
    MeanOfOneChunk(chunks[1]);
    var r1 := Record("1", "x__mean", 2.0);
    var r2 := Record("2", "x__mean", 5.0);
    var f := ChunkFunction(MeanCatalog, None, MeanRegistry, NoKey);
    assert f(chunks[0]) == Success([r1]);
    assert f(chunks[1]) == Success([r2]);
    assert chunks[1..][1..] == [];
    assert MapReduce(f, chunks[1..]) == Success([r2]);
    assert [r1] + [r2] == [r1, r2];
  }

  lemma AssembleMeans()
    ensures Assemble([Record("1", "x__mean", 2.0), Record("2", "x__mean", 5.0)])
            == Success(Pivoted({"1", "2"}, {"x__mean"},
                               map[("1", "x__mean") := 2.0, ("2", "x__mean") := 5.0]))
  {
    var r1, r2 := Record("1", "x__mean", 2.0), Record("2", "x__mean", 5.0);
    var records := [r1, r2];
    assert records[..1] == [r1];
    assert [r1][..0] == [];
    assert PivotCells([r1]) == Success(map[("1", "x__mean") := 2.0]);
    var cells := map[("1", "x__mean") := 2.0, ("2", "x__mean") := 5.0];
    assert PivotCells(records) == Success(cells);
    assert (set cell | cell in cells :: cell.0) == {"1", "2"};
    assert (set cell | cell in cells :: cell.1) == {"x__mean"};
  }

  /** A quantile combiner over the parameter sets q = 0.1 and q = 0.9. */
  function Quantiles(xs: seq<real>, params: Option<seq<real>>): seq<(string, real)> {
    [("q_0.1", 1.0), ("q_0.9", 3.0)]
  }

  function QuantileKey(q: real): string {
    if q == 0.1 then "q_0.1" else "q_0.9"
  }

  /** A combiner yields one record per returned pair, each name carrying the
      pair's key. */
  lemma CombinerNamesEachPair()
    ensures ExtractOnChunk(Chunk("1", "x", [1.0, 2.0, 3.0]), [Entry("quantiles", Some([0.1, 0.9]))], None,
                           map["quantiles" := Combiner("quantiles", Quantiles)], QuantileKey)
            == Success([Record("1", "x__quantiles__q_0.1", 1.0), Record("1", "x__quantiles__q_0.9", 3.0)])
  {
    assert FeatureName("x", "quantiles", "q_0.1") == "x__quantiles__q_0.1";
    assert FeatureName("x", "quantiles", "q_0.9") == "x__quantiles__q_0.9";
    var chunk := Chunk("1", "x", [1.0, 2.0, 3.0]);
    var fc := [Entry("quantiles", Some([0.1, 0.9]))];
    var registry := map["quantiles" := Combiner("quantiles", Quantiles)];
    var records := [Record("1", "x__quantiles__q_0.1", 1.0), Record("1", "x__quantiles__q_0.9", 3.0)];
    var pairs := Quantiles(chunk.data, fc[0].parameters);
    assert registry["quantiles"].combine(chunk.data, fc[0].parameters) == pairs;
    assert EmitRecords("1", "x", "quantiles", pairs) == records;
    assert EntryRecords(chunk, registry, fc[0], QuantileKey) == Success(records);
    assert fc[1..] == [];
    assert records + [] == records;
  }
}
