/** Splitting the grouped input into chunks: one `(str(id), str(kind), group)`
    triple per `(id, kind)` group key, in key enumeration order. */
module Chunking {

  /** One time series: the stringified id and kind and the group's values. */
  datatype Chunk<D> = Chunk(id: string, kind: string, data: D)

  /** The chunk built for one group key. `groupOf` is `grouped.get_group`,
      `showId` and `showKind` are Python's `str` on the key's components. */
  function ChunkOf<I, K, D>(key: (I, K), groupOf: ((I, K)) -> D,
                            showId: I -> string, showKind: K -> string): Chunk<D>
  {
    Chunk(showId(key.0), showKind(key.1), groupOf(key))
  }

  /** The chunk list as a whole, one chunk per key. */
  function ChunksOf<I, K, D>(keys: seq<(I, K)>, groupOf: ((I, K)) -> D,
                             showId: I -> string, showKind: K -> string): (chunks: seq<Chunk<D>>)
    ensures |chunks| == |keys|
    ensures forall i :: 0 <= i < |keys| ==> chunks[i] == ChunkOf(keys[i], groupOf, showId, showKind)
  {
    seq(|keys|, i requires 0 <= i < |keys| => ChunkOf(keys[i], groupOf, showId, showKind))
  }

  /** The chunk-building loop over `grouped.groups.keys()`. */
  method BuildChunks<I, K, D>(keys: seq<(I, K)>, groupOf: ((I, K)) -> D,
                              showId: I -> string, showKind: K -> string)
    returns (chunks: seq<Chunk<D>>)
    ensures |chunks| == |keys|
    ensures forall i :: 0 <= i < |keys| ==>
              chunks[i].id == showId(keys[i].0) && chunks[i].kind == showKind(keys[i].1)
              && chunks[i].data == groupOf(keys[i])
    ensures chunks == ChunksOf(keys, groupOf, showId, showKind)
  {
    chunks := [];
    var i := 0;
    while i < |keys|
      invariant 0 <= i <= |keys|
      invariant |chunks| == i
      invariant forall j :: 0 <= j < i ==> chunks[j] == ChunkOf(keys[j], groupOf, showId, showKind)
    {
      var key := keys[i];
      var group := groupOf(key);
      var idName := showId(key.0);
      var varName := showKind(key.1);
      chunks := chunks + [Chunk(idName, varName, group)];
      i := i + 1;
    }
  }

  ghost predicate Injective<A(!new)>(f: A -> string) {
    forall a, b :: f(a) == f(b) ==> a == b
  }

  ghost predicate Distinct<T>(s: seq<T>) {
    forall i, j :: 0 <= i < j < |s| ==> s[i] != s[j]
  }

  /** When stringification loses nothing, distinct group keys give chunks
      with distinct `(id, kind)` pairs: one chunk per series. */
  lemma DistinctKeysGiveDistinctChunks<I(!new), K(!new), D>(keys: seq<(I, K)>, groupOf: ((I, K)) -> D,
                                                            showId: I -> string, showKind: K -> string)
    requires Injective(showId) && Injective(showKind)
    requires Distinct(keys)
    ensures var chunks := ChunksOf(keys, groupOf, showId, showKind);
            forall i, j :: 0 <= i < j < |chunks| ==>
              (chunks[i].id, chunks[i].kind) != (chunks[j].id, chunks[j].kind)
  {
  }
}
