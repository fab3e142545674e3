/** The function dispatched per chunk: resolve the chunk's fc_parameters,
    call every listed calculator and emit one record per result. */
module ChunkExtraction {
  import opened Wrappers
  import opened Errors
  import opened FeatureNames
  import opened Catalog
  import opened Chunking
  import opened FlatMap

  /** One `{"variable": ..., "value": ..., "id": ...}` dict. */
  datatype Record<V> = Record(id: string, variable: string, value: V)

  /** A simple calculator run once per parameter set, in list order; each call
      is keyed by `convert_to_output_format` of its parameter set (`keyOf`). */
  function EachParameter<D, P, V>(apply: (D, Option<P>) -> V, data: D, params: seq<P>,
                                  keyOf: P -> string): (results: seq<(string, V)>)
    ensures |results| == |params|
    ensures forall i :: 0 <= i < |params| ==>
              results[i] == (keyOf(params[i]), apply(data, Some(params[i])))
  {
    if |params| == 0 then []
    else [(keyOf(params[0]), apply(data, Some(params[0])))] + EachParameter(apply, data, params[1..], keyOf)
  }

  /** The number of `(key, value)` results one catalog entry yields:
      a combiner's own count, otherwise one per parameter set and at least one. */
  function ResultCount<D, P, V>(func: Calculator<D, P, V>, data: D, params: Option<seq<P>>): nat {
    match func
    case Combiner(_, combine) => |combine(data, params)|
    case Simple(_, _) => if params.Some? && |params.value| > 0 then |params.value| else 1
  }

  /** The `(key, value)` results of one calculator on one series. */
  function CalculatorResults<D, P, V>(func: Calculator<D, P, V>, data: D, params: Option<seq<P>>,
                                      keyOf: P -> string): (results: seq<(string, V)>)
    ensures |results| == ResultCount(func, data, params)
    ensures func.Combiner? ==> results == func.combine(data, params)
    ensures func.Simple? && (params.None? || |params.value| == 0) ==>
              results == [("", func.apply(data, None))]
    ensures func.Simple? && params.Some? && |params.value| > 0 ==>
              forall i :: 0 <= i < |results| ==>
                results[i] == (keyOf(params.value[i]), func.apply(data, Some(params.value[i])))
  {
    match func
    case Combiner(_, combine) => combine(data, params)
    case Simple(_, apply) =>
      if params.Some? && |params.value| > 0 then EachParameter(apply, data, params.value, keyOf)
      else [("", apply(data, None))]
  }

  /** Turns results into records of one chunk, naming each after its key. */
  function EmitRecords<V>(id: string, kind: string, calculator: string,
                          results: seq<(string, V)>): (records: seq<Record<V>>)
    ensures |records| == |results|
    ensures forall i :: 0 <= i < |results| ==>
              records[i] == Record(id, FeatureName(kind, calculator, results[i].0), results[i].1)
  {
    if |results| == 0 then []
    else [Record(id, FeatureName(kind, calculator, results[0].0), results[0].1)]
         + EmitRecords(id, kind, calculator, results[1..])
  }

  /** Every calculator named by the fc_parameters exists in the registry. */
  predicate AllKnown<D, P, V>(registry: Registry<D, P, V>, fc: FcParameters<P>) {
    forall i :: 0 <= i < |fc| ==> fc[i].functionName in registry
  }

  /** The records of one catalog entry for one chunk. A name the calculator
      module lacks raises, which aborts the whole chunk. */
  function EntryRecords<D, P, V>(chunk: Chunk<D>, registry: Registry<D, P, V>, entry: Entry<P>,
                                 keyOf: P -> string): (r: Result<seq<Record<V>>, ExtractionError>)
    ensures r.Failure? <==> entry.functionName !in registry
    ensures r.Failure? ==> r.error == UnknownCalculator(entry.functionName)
    ensures r.Success? ==>
              var func := registry[entry.functionName];
              && |r.value| == ResultCount(func, chunk.data, entry.parameters)
              && (forall i :: 0 <= i < |r.value| ==>
                    r.value[i].id == chunk.id && StartsWith(r.value[i].variable, BaseName(chunk.kind, func.name)))
    // a simple calculator without parameters: exactly one record, no key suffix
    ensures r.Success? && registry[entry.functionName].Simple?
            && (entry.parameters.None? || |entry.parameters.value| == 0) ==>
              var func := registry[entry.functionName];
              r.value == [Record(chunk.id, BaseName(chunk.kind, func.name), func.apply(chunk.data, None))]
    // a simple calculator with parameters: one record per parameter set, in order
    ensures r.Success? && registry[entry.functionName].Simple?
            && entry.parameters.Some? && |entry.parameters.value| > 0 ==>
              var func := registry[entry.functionName];
              var params := entry.parameters.value;
              && |r.value| == |params|
              && forall i :: 0 <= i < |params| ==>
                   r.value[i] == Record(chunk.id, FeatureName(chunk.kind, func.name, keyOf(params[i])),
                                        func.apply(chunk.data, Some(params[i])))
    // a combiner: called once with the whole list, one record per returned pair
    ensures r.Success? && registry[entry.functionName].Combiner? ==>
              var func := registry[entry.functionName];
              var pairs := func.combine(chunk.data, entry.parameters);
              && |r.value| == |pairs|
              && forall i :: 0 <= i < |pairs| ==>
                   r.value[i] == Record(chunk.id, FeatureName(chunk.kind, func.name, pairs[i].0), pairs[i].1)
  {
    if entry.functionName !in registry then Failure(UnknownCalculator(entry.functionName))
    else
      var func := registry[entry.functionName];
      Success(EmitRecords(chunk.id, chunk.kind, func.name,
                          CalculatorResults(func, chunk.data, entry.parameters, keyOf)))
  }

  /** The number of records a fully known catalog yields on one series. */
  function ExpectedCount<D, P, V>(registry: Registry<D, P, V>, data: D, fc: FcParameters<P>): nat {
    if |fc| == 0 then 0
    else
      (if fc[0].functionName in registry
       then ResultCount(registry[fc[0].functionName], data, fc[0].parameters) else 0)
      + ExpectedCount(registry, data, fc[1..])
  }

  /** The entries are walked in catalog order; the first unknown name aborts. */
  function DispatchCatalog<D, P, V>(chunk: Chunk<D>, registry: Registry<D, P, V>, fc: FcParameters<P>,
                                    keyOf: P -> string): (r: Result<seq<Record<V>>, ExtractionError>)
    ensures r.Success? <==> AllKnown(registry, fc)
    ensures r.Failure? ==>
              exists i :: 0 <= i < |fc| && fc[i].functionName !in registry
                          && (forall j :: 0 <= j < i ==> fc[j].functionName in registry)
                          && r.error == UnknownCalculator(fc[i].functionName)
    ensures r.Success? ==> |r.value| == ExpectedCount(registry, chunk.data, fc)
    ensures r.Success? ==> forall i :: 0 <= i < |r.value| ==>
              r.value[i].id == chunk.id && StartsWith(r.value[i].variable, chunk.kind + Separator)
  {
    if |fc| == 0 then Success([])
    else
      var first :- EntryRecords(chunk, registry, fc[0], keyOf);
      var rest :- DispatchCatalog(chunk, registry, fc[1..], keyOf);
      Success(first + rest)
  }

  /** `_do_extraction_on_chunk`. */
  function ExtractOnChunk<D, P, V>(chunk: Chunk<D>, default: FcParameters<P>,
                                   overrides: Option<map<string, FcParameters<P>>>,
                                   registry: Registry<D, P, V>, keyOf: P -> string)
    : (r: Result<seq<Record<V>>, ExtractionError>)
    ensures r.Success? <==> AllKnown(registry, EffectiveParameters(chunk.kind, default, overrides))
    ensures r.Success? ==>
              |r.value| == ExpectedCount(registry, chunk.data, EffectiveParameters(chunk.kind, default, overrides))
    ensures r.Success? ==> forall i :: 0 <= i < |r.value| ==>
              r.value[i].id == chunk.id && StartsWith(r.value[i].variable, chunk.kind + Separator)
    ensures overrides.Some? && chunk.kind in overrides.value ==>
              r == DispatchCatalog(chunk, registry, overrides.value[chunk.kind], keyOf)
    ensures overrides.None? || chunk.kind !in overrides.value ==>
              r == DispatchCatalog(chunk, registry, default, keyOf)
  {
    DispatchCatalog(chunk, registry, EffectiveParameters(chunk.kind, default, overrides), keyOf)
  }

  /** Every name of two catalogs is known exactly when every name of their
      concatenation is. */
  lemma AllKnownAppend<D, P, V>(registry: Registry<D, P, V>, fc1: FcParameters<P>, fc2: FcParameters<P>)
    ensures AllKnown(registry, fc1 + fc2) <==> AllKnown(registry, fc1) && AllKnown(registry, fc2)
  {
    if AllKnown(registry, fc1) && AllKnown(registry, fc2) {
      forall i | 0 <= i < |fc1 + fc2|
        ensures (fc1 + fc2)[i].functionName in registry
      {
        if i < |fc1| {
          assert (fc1 + fc2)[i] == fc1[i];
        } else {
          assert (fc1 + fc2)[i] == fc2[i - |fc1|];
        }
      }
    }
    if AllKnown(registry, fc1 + fc2) {
      forall i | 0 <= i < |fc1| ensures fc1[i].functionName in registry {
        assert (fc1 + fc2)[i] == fc1[i];
      }
      forall i | 0 <= i < |fc2| ensures fc2[i].functionName in registry {
        assert (fc1 + fc2)[|fc1| + i] == fc2[i];
      }
    }
  }

  /** Dispatching a catalog is the flat-map of its entries' records, the
      same shape `map_reduce` gives the chunks. */
  lemma {:induction false} DispatchIsFlatMap<D, P, V>(chunk: Chunk<D>, registry: Registry<D, P, V>,
                                                      fc: FcParameters<P>, keyOf: P -> string)
    ensures DispatchCatalog(chunk, registry, fc, keyOf)
            == MapReduce((entry: Entry<P>) => EntryRecords(chunk, registry, entry, keyOf), fc)
  {
    if |fc| > 0 {
      DispatchIsFlatMap(chunk, registry, fc[1..], keyOf);
    }
  }

  /** Dispatch distributes over concatenation of catalogs: the records of
      `fc1 + fc2` are those of `fc1` followed by those of `fc2`. */
  lemma DispatchAppend<D, P, V>(chunk: Chunk<D>, registry: Registry<D, P, V>,
                                fc1: FcParameters<P>, fc2: FcParameters<P>, keyOf: P -> string)
    requires AllKnown(registry, fc1) && AllKnown(registry, fc2)
    ensures AllKnown(registry, fc1 + fc2)
    ensures DispatchCatalog(chunk, registry, fc1 + fc2, keyOf).value
            == DispatchCatalog(chunk, registry, fc1, keyOf).value + DispatchCatalog(chunk, registry, fc2, keyOf).value
  {
    AllKnownAppend(registry, fc1, fc2);
    DispatchIsFlatMap(chunk, registry, fc1, keyOf);
    DispatchIsFlatMap(chunk, registry, fc2, keyOf);
    DispatchIsFlatMap(chunk, registry, fc1 + fc2, keyOf);
    MapReduceBatches((entry: Entry<P>) => EntryRecords(chunk, registry, entry, keyOf), fc1, fc2);
  }

  /** A catalog split around its entry `k`: the records of the entries before
      it, then entry `k`'s own, then those of the entries after it. */
  lemma SplitAtEntry<D, P, V>(chunk: Chunk<D>, registry: Registry<D, P, V>,
                              fc: FcParameters<P>, keyOf: P -> string, k: nat)
    requires AllKnown(registry, fc)
    requires k < |fc|
    ensures AllKnown(registry, fc[..k]) && AllKnown(registry, fc[k + 1..])
    ensures DispatchCatalog(chunk, registry, fc, keyOf).value
            == DispatchCatalog(chunk, registry, fc[..k], keyOf).value
               + (EntryRecords(chunk, registry, fc[k], keyOf).value
                  + DispatchCatalog(chunk, registry, fc[k + 1..], keyOf).value)
  {
    var before, after := fc[..k], fc[k + 1..];
    assert fc == before + ([fc[k]] + after);
    assert AllKnown(registry, before) && AllKnown(registry, after) by {
      forall i | 0 <= i < |before| ensures before[i].functionName in registry {
        assert before[i] == fc[i];
      }
      forall i | 0 <= i < |after| ensures after[i].functionName in registry {
        assert after[i] == fc[k + 1 + i];
      }
    }
    var entry := EntryRecords(chunk, registry, fc[k], keyOf).value;
    assert DispatchCatalog(chunk, registry, [fc[k]], keyOf).value == entry by {
      assert [fc[k]][1..] == [];
      assert entry + [] == entry;
    }
    DispatchAppend(chunk, registry, [fc[k]], after, keyOf);
    DispatchAppend(chunk, registry, before, [fc[k]] + after, keyOf);
  }

  /** Records are grouped by calculator in catalog order: the records of entry
      `k` sit right after those of all earlier entries. */
  lemma {:induction false} RecordsInCatalogOrder<D, P, V>(chunk: Chunk<D>, registry: Registry<D, P, V>,
                                                          fc: FcParameters<P>, keyOf: P -> string, k: nat)
    requires AllKnown(registry, fc)
    requires k < |fc|
    ensures var records := DispatchCatalog(chunk, registry, fc, keyOf).value;
            var start := ExpectedCount(registry, chunk.data, fc[..k]);
            var entry := EntryRecords(chunk, registry, fc[k], keyOf).value;
            && start + |entry| <= |records|
            && records[start..start + |entry|] == entry
  {
    assert AllKnown(registry, fc[..k]) && AllKnown(registry, fc[k + 1..]) by {
      SplitAtEntry(chunk, registry, fc, keyOf, k);
    }
    var pre := DispatchCatalog(chunk, registry, fc[..k], keyOf).value;
    var entry := EntryRecords(chunk, registry, fc[k], keyOf).value;
    var post := DispatchCatalog(chunk, registry, fc[k + 1..], keyOf).value;
    assert DispatchCatalog(chunk, registry, fc, keyOf).value == pre + (entry + post) by {
      SplitAtEntry(chunk, registry, fc, keyOf, k);
    }
    assert |pre| == ExpectedCount(registry, chunk.data, fc[..k]) by {
      assert DispatchCatalog(chunk, registry, fc[..k], keyOf).Success?;
    }
    MiddleSlice(pre, entry, post);
  }

  /** The middle part of a three-part concatenation sits right after the first part. */
  lemma MiddleSlice<T>(pre: seq<T>, middle: seq<T>, post: seq<T>)
    ensures (pre + (middle + post))[|pre|..|pre| + |middle|] == middle
  {
    assert pre + (middle + post) == (pre + middle) + post;
  }
}
