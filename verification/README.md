# Feature-extraction engine of pai_tsfresh, modelled in Dafny

This project models the extraction engine in
`pai_tsfresh/feature_extraction/extraction_gist.py`. The engine turns a normalised
long-format frame into a table with one row per id and one column per feature.
It works in four steps:

1. **Chunking.** It enumerates the `(id, kind)` group keys. Each key becomes one chunk
   `(str(id), str(kind), group)`.
2. **Distributor choice.** It takes the distributor the caller passed, or builds one:
   `MapDistributor` when `n_jobs == 0`, otherwise `MultiprocessingDistributor`.
   Anything that is not a `DistributorBaseClass` raises `ValueError`.
3. **Per-chunk extraction.** `map_reduce` runs `_do_extraction_on_chunk` on every chunk.
   That function does three things:
   - it picks the chunk's fc_parameters, using the per-kind override if there is one and the default otherwise;
   - it calls each calculator, either once per parameter set (simple) or once with the whole list (combiner);
   - it emits records `{id, variable, value}`, where the variable is `kind__name[__key]`.
4. **Assembly.** When any records exist, it pivots them into the id × variable table.

The calculators are uninterpreted Dafny functions with a `Simple | Combiner` tag.
Data, parameter sets and feature values are type parameters.
`convert_to_output_format` is the uninterpreted parameter `keyOf`.
Python's `str` of the key components is passed as `showId` / `showKind`.
Python's `None` and falsy values are modelled explicitly:
- `Option` wraps the override dict and the parameter list;
- a raised exception is the `Failure` arm of `Result`.

Modules:
- `Wrappers` and `Errors`: `Option`, `Result` and the three errors the engine raises.
- `FeatureNames`: how a feature name is built, and how its parameter key is read back.
- `Catalog`: calculators, fc_parameters entries, and the choice between the override and the default.
- `Chunking`: the chunk-building loop.
- `ChunkExtraction`: `_do_extraction_on_chunk`.
- `FlatMap`: the flat-map that `map_reduce` computes: a function on every item, results concatenated in order.
- `Distribution`: distributor selection, and `map_reduce` as a flat-map over the chunks, taken in
  key order by the sequential distributor and in completion order by any other.
- `CompletionOrder`: the assembled table does not depend on the order in which chunks complete.
- `Assembly`: the empty-frame guard and the pivot.
- `Extraction`: `_do_extraction` as a whole.
- `Scenarios`: two worked examples.

Three behaviours of the code shape the error model:
- A name missing from the calculator module makes `getattr` raise (line 336). Nothing catches it,
  so it aborts the chunk and with it the whole call (`UnknownCalculator`). No entry is skipped or counted.
- A calculator that raises is not caught either (lines 339-344). The model treats calculators as total.
- A failed `get_group` is printed and swallowed (lines 245-249); the caller is not told.

Feature names are injective only for one kind and one calculator. Nothing escapes the `__`
separator, so a calculator whose name contains `__` can produce the same name as another
calculator's keyed feature (`FeatureNames.NamesCollideAcrossCalculators`). When both run on one
chunk, the pivot refuses the repeated cell, which the model reports as `DuplicateCell`.

## Model

| member | source | states |
|---|---|---|
| FeatureNames.FeatureName | pai_tsfresh/feature_extraction/extraction_gist.py:347-349 | every name starts with `kind__` and with `kind__calculator`; the `__key` suffix is present exactly when the key is non-empty |
| FeatureNames.ParameterKeyRoundTrip | pai_tsfresh/feature_extraction/extraction_gist.py:347-349 | reading the key back from a feature name returns the key it was built from, empty keys included |
| FeatureNames.FeatureNameInjective | pai_tsfresh/feature_extraction/extraction_gist.py:347-349 | for one kind and calculator, distinct parameter keys give distinct feature names |
| FeatureNames.NamesCollideAcrossCalculators | pai_tsfresh/feature_extraction/extraction_gist.py:347-349 | across calculators names can collide: calculator `a` with key `b` and calculator `a__b` without a key both give `x__a__b` |
| Catalog.EffectiveParameters | pai_tsfresh/feature_extraction/extraction_gist.py:329-332 | the override is used exactly when `kind_to_fc_parameters` is present and holds the chunk's kind; otherwise the default is used |
| Catalog.OverrideIgnoresDefault | pai_tsfresh/feature_extraction/extraction_gist.py:329-332 | when a kind has an override, the default does not affect the choice at all: the override replaces it and is not merged with it |
| Chunking.ChunksOf | pai_tsfresh/feature_extraction/extraction_gist.py:243-253 | one chunk per group key, in key order, each carrying the stringified id, the stringified kind and that key's group |
| Chunking.BuildChunks | pai_tsfresh/feature_extraction/extraction_gist.py:238-256 | the loop builds exactly one chunk per key, in enumeration order, with `str(key[0])`, `str(key[1])` and the key's group |
| Chunking.DistinctKeysGiveDistinctChunks | pai_tsfresh/feature_extraction/extraction_gist.py:243-253 | when `str` is injective on ids and on kinds, distinct group keys give chunks with distinct (id, kind) pairs |
| ChunkExtraction.EachParameter | pai_tsfresh/feature_extraction/extraction_gist.py:341-342 | a simple calculator with parameters yields one result per parameter set, in list order, keyed by `keyOf` of that set and computed with that set |
| ChunkExtraction.CalculatorResults | pai_tsfresh/feature_extraction/extraction_gist.py:338-344 | a combiner's results are exactly what its single call on the whole parameter list returns; a simple calculator gives one `(keyOf(p), func(data, p))` per parameter set, in order, and an empty or absent list gives the single result `("", func(data))` |
| ChunkExtraction.EmitRecords | pai_tsfresh/feature_extraction/extraction_gist.py:346-350 | one record per `(key, value)` result, in order, carrying the chunk id, the name built from the key, and the value |
| ChunkExtraction.EntryRecords | pai_tsfresh/feature_extraction/extraction_gist.py:335-350 | an unknown name fails with `UnknownCalculator`; otherwise one case per calculator kind: simple without parameters gives one unsuffixed record; simple with parameters gives one record per set, in order; a combiner gives one record per pair returned by its single call |
| ChunkExtraction.DispatchCatalog | pai_tsfresh/feature_extraction/extraction_gist.py:334-352 | succeeds exactly when every name is known, and otherwise fails naming the first unknown entry; record count is the sum over entries; every record carries the chunk id and starts with `kind__` |
| ChunkExtraction.ExtractOnChunk | pai_tsfresh/feature_extraction/extraction_gist.py:326-352 | dispatches the override catalog when the kind has one and the default otherwise; same success condition, count, id and name-prefix guarantees as `DispatchCatalog` on that catalog |
| ChunkExtraction.AllKnownAppend | pai_tsfresh/feature_extraction/extraction_gist.py:335-336 | every name of a concatenated catalog resolves exactly when every name of both parts does |
| ChunkExtraction.DispatchIsFlatMap | pai_tsfresh/feature_extraction/extraction_gist.py:334-352 | dispatching a catalog gives exactly the outcome of flat-mapping its entries' records in order, failure included |
| ChunkExtraction.DispatchAppend | pai_tsfresh/feature_extraction/extraction_gist.py:334-352 | the records of two concatenated catalogs are the records of the first followed by those of the second |
| ChunkExtraction.SplitAtEntry | pai_tsfresh/feature_extraction/extraction_gist.py:334-352 | a catalog's records are those of the entries before entry `k`, then entry `k`'s own, then those of the entries after it |
| ChunkExtraction.RecordsInCatalogOrder | pai_tsfresh/feature_extraction/extraction_gist.py:334-352 | entry `k`'s records form the contiguous block right after the records of entries `0..k-1` |
| Distribution.SelectDistributor | pai_tsfresh/feature_extraction/extraction_gist.py:275-287 | fails with `InvalidDistributor` exactly when the argument is not a distributor; a given distributor is kept; with none given, `n_jobs == 0` builds `MapDistributor` and any other value a process pool of `n_jobs` workers, titled "Feature Extraction" |
| FlatMap.MapReduce | pai_tsfresh/feature_extraction/extraction_gist.py:291-292 | succeeds exactly when every item succeeds, and otherwise fails with the error of the first failing item; no items gives no records; a successful result is as long as all the items' outputs together |
| FlatMap.MapReduceKeepsOutputs | pai_tsfresh/feature_extraction/extraction_gist.py:291-292 | every output of every item occurs in the successful combined result |
| FlatMap.MapReduceOutputsFromItems | pai_tsfresh/feature_extraction/extraction_gist.py:291-292 | every element of the successful combined result is an output of some item |
| Distribution.RunDistributor | pai_tsfresh/feature_extraction/extraction_gist.py:291-292 | `map_reduce` of any distributor, whether results come back in key order or in completion order, succeeds exactly when the function succeeds on every chunk |
| FlatMap.MapReduceBatches | pai_tsfresh/feature_extraction/extraction_gist.py:291-292 | splitting the items into two batches changes nothing: successes concatenate, and a failure in either batch fails the whole |
| FlatMap.MapReducePreserves | pai_tsfresh/feature_extraction/extraction_gist.py:291-292 | any property of every per-chunk record holds of every record in the combined output |
| Assembly.PivotCells | pai_tsfresh/feature_extraction/extraction_gist.py:303 | the pivot succeeds exactly when no two records target the same (id, variable) cell; its cells are exactly the records' cells, each holding its record's value |
| Assembly.Assemble | pai_tsfresh/feature_extraction/extraction_gist.py:298-304 | the unpivoted empty frame comes back exactly when there are no records; otherwise the rows are the records' ids, the columns their variables, and every record's value is in its cell |
| Assembly.UniqueCellsAppend | pai_tsfresh/feature_extraction/extraction_gist.py:303 | the cells of two concatenated record lists are the union of their cells, and the concatenation has no repeated cell exactly when neither part has one and the parts share none |
| Assembly.PivotIgnoresOrder | pai_tsfresh/feature_extraction/extraction_gist.py:291-303 | two record lists holding the same records, without duplicate cells, pivot to the same cells: completion order does not matter |
| CompletionOrder.UniqueIffBlocksUnique | pai_tsfresh/feature_extraction/extraction_gist.py:291-303 | the combined records have no repeated cell exactly when no chunk repeats a cell and no two chunks share one |
| CompletionOrder.BlocksUniqueReorder | pai_tsfresh/feature_extraction/extraction_gist.py:291-303 | reordering the chunks by a permutation keeps every chunk successful and keeps the per-chunk cells repetition-free and pairwise disjoint, in both directions |
| Distribution.ReorderedSucceeds | pai_tsfresh/feature_extraction/extraction_gist.py:291-292 | the flat-map over a permutation of the chunks succeeds exactly when the flat-map in key order does |
| CompletionOrder.ReorderedRecordsCover | pai_tsfresh/feature_extraction/extraction_gist.py:291-292 | the two successful runs, in key order and in completion order, contain the same records, each covering the other |
| CompletionOrder.CompletionOrderDoesNotMatter | pai_tsfresh/feature_extraction/extraction_gist.py:291-304 | for any completion order, the two runs succeed together, their pivots succeed together, and successful pivots give the same table |
| Extraction.DoExtraction | pai_tsfresh/feature_extraction/extraction_gist.py:238-306 | an invalid distributor fails before any chunk is processed, whatever the catalogs; no group keys gives the empty frame; for any valid distributor and completion order, the call succeeds exactly when the key-order records exist and pivot, and then returns their table; a sequential distributor, built for `n_jobs == 0` or passed in by the caller, reports the first failing chunk's error |
| Extraction.DistributorChoiceDoesNotMatter | pai_tsfresh/feature_extraction/extraction_gist.py:275-293 | any two valid distributor choices, each with any completion order, succeed together and then give the same table |
| Extraction.KeyOrderRecordsComeFromKeys | pai_tsfresh/feature_extraction/extraction_gist.py:251-253 | every record the chunks produce carries the stringified id of some group key and a name starting with the stringified kind of some group key plus `__` |
| Extraction.TableComesFromKeys | pai_tsfresh/feature_extraction/extraction_gist.py:303 | pivoting records whose ids and names come from the group keys gives only rows and columns that come from them |
| Extraction.RowsAndColumnsComeFromKeys | pai_tsfresh/feature_extraction/extraction_gist.py:251-253 | every row of the result is the stringified id of some group key, and every column starts with the stringified kind of some group key plus `__` |
| Extraction.EmptyCatalogGivesEmptyFrame | pai_tsfresh/feature_extraction/extraction_gist.py:302-304 | when the effective catalog of every series' kind is empty, through the default or an override, the result is the empty frame, not an error |
| Scenarios.MeanOfTwoSeries | pai_tsfresh/feature_extraction/extraction_gist.py:343-350 | integer ids 1 and 2 of kind x with `{"mean": None}` give rows `"1"` and `"2"` and one column `x__mean` holding 2.0 and 5.0, for any distributor built from `n_jobs` and either completion order |
| Scenarios.CombinerNamesEachPair | pai_tsfresh/feature_extraction/extraction_gist.py:338-339 | a quantile combiner returning two pairs gives the records `x__quantiles__q_0.1` and `x__quantiles__q_0.9` |

## Left out

- `extract_features` (lines 104-152) is left out. It covers input normalisation, default-catalog construction, profiling, warning filters and imputation, and these are wrappers around other modules.
- The feature calculators are uninterpreted functions, because their numerics are floating point in a module that is not part of this model. An exception raised inside a calculator is not modelled.
- `convert_to_output_format` is the uninterpreted `keyOf`, because its module is not part of this model.
- A combiner's keys are modelled as strings. Python applies `str(key)` and tests `if key:` on whatever the combiner returns, so a falsy non-string key such as `0` is not modelled.
- `grouped.get_group` is a total function `groupOf`. The bare-`except` paths of the chunk loop are not modelled (lines 245-256, 268-270). On a failed `get_group` that loop reuses the previous iteration's group.
- The group keys and their order are an input sequence, because pandas' `groupby` semantics are library behaviour.
- `map_reduce` is a flat-map whose results arrive in key order (`MapDistributor`) or in a caller-chosen completion order (any other distributor). Three things are not modelled: the worker processes themselves, the `chunk_size` batching heuristics, and `close()` (lines 291-293). All of them live in a distribution module that is not part of this model. Which chunk's error a pool reports first is left open; only the sequential distributor's error is stated.
- The `kind_to_fc_parameters` override is a map keyed by strings. The code looks the chunk's kind up after it has been stringified (lines 252 and 329), so a caller's dict keyed by the original non-string kinds (integers, say) never matches, and the default catalog is used without any warning, although the docstring at lines 171-173 promises per-kind catalogs. The model cannot express a non-string key and so does not exhibit that silent fallback.
- Assembly.PivotCells idealises pandas' `pivot` as a map keyed by (id, variable) that refuses duplicate cells. The table's sorted row and column order is not modelled, and neither is its "missing" filling.
- The `astype(float)` cast of values and the restoring of the id column's dtype (lines 299-300, 304) are not modelled. Rows stay the stringified ids.
- The debug printing, memory-usage probes and `sys.getsizeof` calls (lines 193-232, 258-267) are left out because they are diagnostics only.
- `setup.py` and the two `__init__.py` files are left out: they are packaging and re-exports.
