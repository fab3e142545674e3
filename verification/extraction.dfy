/** `_do_extraction`: chunking, distributor choice, `map_reduce` of the
    per-chunk extraction and assembly of the result frame. */
module Extraction {
  import opened Wrappers
  import opened Errors
  import opened FeatureNames
  import opened Catalog
  import opened Chunking
  import opened ChunkExtraction
  import opened FlatMap
  import opened Distribution
  import opened Assembly
  import opened CompletionOrder

  /** `_do_extraction_on_chunk` with its keyword arguments bound, as handed to `map_reduce`. */
  function ChunkFunction<D, P, V>(default: FcParameters<P>, overrides: Option<map<string, FcParameters<P>>>,
                                  registry: Registry<D, P, V>, keyOf: P -> string)
    : Chunk<D> -> Result<seq<Record<V>>, ExtractionError>
  {
    chunk => ExtractOnChunk(chunk, default, overrides, registry, keyOf)
  }

  /** The whole extraction over the group keys of the normalised frame.
      `completion` is the order in which the chosen distributor hands back the
      per-chunk results (any order for a process pool; the sequential
      distributor ignores it). */
  function DoExtraction<I, K, D, P, V>(keys: seq<(I, K)>, groupOf: ((I, K)) -> D,
                                       showId: I -> string, showKind: K -> string,
                                       default: FcParameters<P>, overrides: Option<map<string, FcParameters<P>>>,
                                       registry: Registry<D, P, V>, keyOf: P -> string,
                                       distributor: DistributorArgument, nJobs: int, disableProgressbar: bool,
                                       completion: seq<nat>)
    : (r: Result<Table<V>, ExtractionError>)
    requires IsPermutation(completion, |keys|)
    // the distributor is validated before any chunk is processed
    ensures distributor.NotADistributor? ==> r == Failure(InvalidDistributor)
    // no series at all: the empty frame, not an error
    ensures !distributor.NotADistributor? && |keys| == 0 ==> r == Success(EmptyFrame)
    // whatever the distributor and the completion order, the outcome is that
    // of assembling the records of the chunks taken in key order
    ensures !distributor.NotADistributor? ==>
              var inOrder := MapReduce(ChunkFunction(default, overrides, registry, keyOf),
                                       ChunksOf(keys, groupOf, showId, showKind));
              && (r.Success? <==> inOrder.Success? && Assemble(inOrder.value).Success?)
              && (r.Success? ==> r == Assemble(inOrder.value))
    // a sequential distributor, built for `n_jobs == 0` or given, reports the
    // error of the first failing chunk
    ensures (distributor.NoDistributor? && nJobs == 0)
            || (distributor.GivenDistributor? && distributor.distributor.MapDistributor?) ==>
              var inOrder := MapReduce(ChunkFunction(default, overrides, registry, keyOf),
                                       ChunksOf(keys, groupOf, showId, showKind));
              inOrder.Failure? ==> r == Failure(inOrder.error)
  {
    var chunks := ChunksOf(keys, groupOf, showId, showKind);
    var f := ChunkFunction(default, overrides, registry, keyOf);
    var backend :- SelectDistributor(distributor, nJobs, disableProgressbar);
    CompletionOrderDoesNotMatter(f, chunks, completion);
    var records :- RunDistributor(backend, f, chunks, completion);
    Assemble(records)
  }

  /** With the records of the chunks in key order and their table known, any
      valid distributor and completion order return that table. */
  lemma OutcomeOfKeyOrderTable<I, K, D, P, V>(keys: seq<(I, K)>, groupOf: ((I, K)) -> D,
                                              showId: I -> string, showKind: K -> string,
                                              default: FcParameters<P>,
                                              overrides: Option<map<string, FcParameters<P>>>,
                                              registry: Registry<D, P, V>, keyOf: P -> string,
                                              distributor: DistributorArgument, nJobs: int,
                                              disableProgressbar: bool, completion: seq<nat>,
                                              records: seq<Record<V>>, table: Table<V>)
    requires !distributor.NotADistributor?
    requires IsPermutation(completion, |keys|)
    requires MapReduce(ChunkFunction(default, overrides, registry, keyOf), ChunksOf(keys, groupOf, showId, showKind))
             == Success(records)
    requires Assemble(records) == Success(table)
    ensures DoExtraction(keys, groupOf, showId, showKind, default, overrides, registry, keyOf,
                         distributor, nJobs, disableProgressbar, completion) == Success(table)
  {
  }

  /** The sequential and the pooled distributor, or any other valid one, in
      any completion order, succeed together and then give the same table. */
  lemma DistributorChoiceDoesNotMatter<I, K, D, P, V>(keys: seq<(I, K)>, groupOf: ((I, K)) -> D,
                                                      showId: I -> string, showKind: K -> string,
                                                      default: FcParameters<P>,
                                                      overrides: Option<map<string, FcParameters<P>>>,
                                                      registry: Registry<D, P, V>, keyOf: P -> string,
                                                      disableProgressbar: bool,
                                                      distributor1: DistributorArgument, nJobs1: int,
                                                      completion1: seq<nat>,
                                                      distributor2: DistributorArgument, nJobs2: int,
                                                      completion2: seq<nat>)
    requires !distributor1.NotADistributor? && !distributor2.NotADistributor?
    requires IsPermutation(completion1, |keys|) && IsPermutation(completion2, |keys|)
    ensures var r1 := DoExtraction(keys, groupOf, showId, showKind, default, overrides, registry, keyOf,
                                   distributor1, nJobs1, disableProgressbar, completion1);
            var r2 := DoExtraction(keys, groupOf, showId, showKind, default, overrides, registry, keyOf,
                                   distributor2, nJobs2, disableProgressbar, completion2);
            && (r1.Success? <==> r2.Success?)
            && (r1.Success? ==> r1 == r2)
  {
  }

  /** The stringified ids of all group keys. */
  function KeyIds<I, K>(keys: seq<(I, K)>, showId: I -> string): set<string> {
    set i | 0 <= i < |keys| :: showId(keys[i].0)
  }

  /** `variable` is named after the kind of one of the keys. */
  ghost predicate NamedAfterSomeKind<I, K>(keys: seq<(I, K)>, showKind: K -> string, variable: string) {
    exists i :: 0 <= i < |keys| && StartsWith(variable, showKind(keys[i].1) + Separator)
  }

  /** Every record the chunks produce, in key order, carries the id of some
      key and a name that starts with the kind of some key. */
  lemma KeyOrderRecordsComeFromKeys<I, K, D, P, V>(keys: seq<(I, K)>, groupOf: ((I, K)) -> D,
                                                   showId: I -> string, showKind: K -> string,
                                                   default: FcParameters<P>,
                                                   overrides: Option<map<string, FcParameters<P>>>,
                                                   registry: Registry<D, P, V>, keyOf: P -> string)
    ensures var records := MapReduce(ChunkFunction(default, overrides, registry, keyOf),
                                     ChunksOf(keys, groupOf, showId, showKind));
            records.Success? ==>
              forall j :: 0 <= j < |records.value| ==>
                records.value[j].id in KeyIds(keys, showId)
                && NamedAfterSomeKind(keys, showKind, records.value[j].variable)
  {
    var chunks := ChunksOf(keys, groupOf, showId, showKind);
    var f := ChunkFunction(default, overrides, registry, keyOf);
    var ids := KeyIds(keys, showId);
    var fromKeys := (record: Record<V>) =>
      record.id in ids && NamedAfterSomeKind(keys, showKind, record.variable);
    forall i | 0 <= i < |chunks| && f(chunks[i]).Success?
      ensures forall j :: 0 <= j < |f(chunks[i]).value| ==> fromKeys(f(chunks[i]).value[j])
    {
      assert chunks[i].id == showId(keys[i].0);
      forall j | 0 <= j < |f(chunks[i]).value|
        ensures fromKeys(f(chunks[i]).value[j])
      {
        assert StartsWith(f(chunks[i]).value[j].variable, showKind(keys[i].1) + Separator);
      }
    }
    MapReducePreserves(f, chunks, fromKeys);
  }

  /** Every row of the result is the id of some input series, and every column
      is named after the kind of some input series. */
  lemma RowsAndColumnsComeFromKeys<I, K, D, P, V>(keys: seq<(I, K)>, groupOf: ((I, K)) -> D,
                                                  showId: I -> string, showKind: K -> string,
                                                  default: FcParameters<P>,
                                                  overrides: Option<map<string, FcParameters<P>>>,
                                                  registry: Registry<D, P, V>, keyOf: P -> string,
                                                  distributor: DistributorArgument, nJobs: int,
                                                  disableProgressbar: bool, completion: seq<nat>)
    requires IsPermutation(completion, |keys|)
    ensures var r := DoExtraction(keys, groupOf, showId, showKind, default, overrides, registry, keyOf,
                                  distributor, nJobs, disableProgressbar, completion);
            r.Success? && r.value.Pivoted? ==>
              && r.value.rows <= KeyIds(keys, showId)
              && forall column :: column in r.value.columns ==> NamedAfterSomeKind(keys, showKind, column)
  {
    var r := DoExtraction(keys, groupOf, showId, showKind, default, overrides, registry, keyOf,
                          distributor, nJobs, disableProgressbar, completion);
    var records := MapReduce(ChunkFunction(default, overrides, registry, keyOf),
                             ChunksOf(keys, groupOf, showId, showKind));
    if r.Success? {
      assert records.Success? && r == Assemble(records.value);
      KeyOrderRecordsComeFromKeys(keys, groupOf, showId, showKind, default, overrides, registry, keyOf);
      TableComesFromKeys(records.value, keys, showId, showKind);
    }
  }

  /** A pivot of records that all come from the keys has only rows and
      columns that come from the keys. */
  lemma TableComesFromKeys<I, K, V>(records: seq<Record<V>>, keys: seq<(I, K)>,
                                    showId: I -> string, showKind: K -> string)
    requires forall j :: 0 <= j < |records| ==>
               records[j].id in KeyIds(keys, showId) && NamedAfterSomeKind(keys, showKind, records[j].variable)
    ensures Assemble(records).Success? && Assemble(records).value.Pivoted? ==>
              && Assemble(records).value.rows <= KeyIds(keys, showId)
              && forall column :: column in Assemble(records).value.columns ==>
                   NamedAfterSomeKind(keys, showKind, column)
  {
    if Assemble(records).Success? && Assemble(records).value.Pivoted? {
      var table := Assemble(records).value;
      forall row | row in table.rows ensures row in KeyIds(keys, showId) {
        var i :| 0 <= i < |records| && records[i].id == row;
      }
      forall column | column in table.columns ensures NamedAfterSomeKind(keys, showKind, column) {
        var i :| 0 <= i < |records| && records[i].variable == column;
      }
    }
  }

  /** When every series' kind selects an empty catalog, whether through the
      default or through an override, the result is the empty frame. */
  lemma EmptyCatalogGivesEmptyFrame<I, K, D, P, V>(keys: seq<(I, K)>, groupOf: ((I, K)) -> D,
                                                   showId: I -> string, showKind: K -> string,
                                                   default: FcParameters<P>,
                                                   overrides: Option<map<string, FcParameters<P>>>,
                                                   registry: Registry<D, P, V>, keyOf: P -> string,
                                                   distributor: DistributorArgument, nJobs: int,
                                                   disableProgressbar: bool, completion: seq<nat>)
    requires !distributor.NotADistributor?
    requires IsPermutation(completion, |keys|)
    requires forall i :: 0 <= i < |keys| ==> EffectiveParameters(showKind(keys[i].1), default, overrides) == []
    ensures DoExtraction(keys, groupOf, showId, showKind, default, overrides, registry, keyOf,
                         distributor, nJobs, disableProgressbar, completion) == Success(EmptyFrame)
  {
    var chunks := ChunksOf(keys, groupOf, showId, showKind);
    var f := ChunkFunction(default, overrides, registry, keyOf);
    forall i | 0 <= i < |chunks|
      ensures f(chunks[i]) == Success([])
    {
      assert EffectiveParameters(chunks[i].kind, default, overrides) == [];
    }
    MapReducePreserves(f, chunks, (record: Record<V>) => false);
  }
}
