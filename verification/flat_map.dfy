/** The flat-map at the heart of `map_reduce`: a function on every item, in
    order, with the per-item result lists concatenated. */
module FlatMap {
  import opened Wrappers

  /** The total number of outputs the items produce, counting a failing item as none. */
  function OutputCount<A, B, E>(f: A -> Result<seq<B>, E>, items: seq<A>): nat {
    if |items| == 0 then 0
    else (if f(items[0]).Success? then |f(items[0]).value| else 0) + OutputCount(f, items[1..])
  }

  /** `map_reduce` as a sequential flat-map: `f` on every item in order and the
      results concatenated; an exception from any item aborts the call. */
  function MapReduce<A, B, E>(f: A -> Result<seq<B>, E>, items: seq<A>): (r: Result<seq<B>, E>)
    ensures r.Success? <==> forall i :: 0 <= i < |items| ==> f(items[i]).Success?
    ensures r.Failure? ==>
              exists i :: 0 <= i < |items| && f(items[i]).Failure?
                          && (forall j :: 0 <= j < i ==> f(items[j]).Success?)
                          && r.error == f(items[i]).error
    ensures |items| == 0 ==> r == Success([])
    ensures r.Success? ==> |r.value| == OutputCount(f, items)
  {
    if |items| == 0 then Success([])
    else
      var head :- f(items[0]);
      var tail :- MapReduce(f, items[1..]);
      Success(head + tail)
  }

  /** Every output of every item reaches the result of a successful flat-map. */
  lemma {:induction false} MapReduceKeepsOutputs<A, B, E>(f: A -> Result<seq<B>, E>, items: seq<A>)
    requires MapReduce(f, items).Success?
    ensures forall i, j :: 0 <= i < |items| && 0 <= j < |f(items[i]).value| ==>
              f(items[i]).value[j] in MapReduce(f, items).value
  {
    if |items| > 0 {
      var head, tail := f(items[0]).value, MapReduce(f, items[1..]).value;
      assert MapReduce(f, items).value == head + tail;
      MapReduceKeepsOutputs(f, items[1..]);
      forall i, j | 0 <= i < |items| && 0 <= j < |f(items[i]).value|
        ensures f(items[i]).value[j] in head + tail
      {
        if i == 0 {
          assert (head + tail)[j] == head[j];
        } else {
          assert items[1..][i - 1] == items[i];
          assert f(items[i]).value[j] in tail;
        }
      }
    }
  }

  /** `x` is an output of one of the items. */
  ghost predicate OutputOfSomeItem<A, B, E>(f: A -> Result<seq<B>, E>, items: seq<A>, x: B) {
    exists i, j :: 0 <= i < |items| && f(items[i]).Success? && 0 <= j < |f(items[i]).value|
                   && x == f(items[i]).value[j]
  }

  /** Every output of a successful flat-map is an output of some item. */
  lemma {:induction false} MapReduceOutputsFromItems<A, B, E>(f: A -> Result<seq<B>, E>, items: seq<A>)
    requires MapReduce(f, items).Success?
    ensures forall k :: 0 <= k < |MapReduce(f, items).value| ==>
              OutputOfSomeItem(f, items, MapReduce(f, items).value[k])
  {
    if |items| > 0 {
      var head, tail := f(items[0]).value, MapReduce(f, items[1..]).value;
      var r := MapReduce(f, items).value;
      assert r == head + tail;
      MapReduceOutputsFromItems(f, items[1..]);
      forall k | 0 <= k < |r|
        ensures OutputOfSomeItem(f, items, r[k])
      {
        if k < |head| {
          assert r[k] == f(items[0]).value[k];
        } else {
          assert r[k] == tail[k - |head|];
          assert OutputOfSomeItem(f, items[1..], tail[k - |head|]);
          var i, j :| 0 <= i < |items[1..]| && f(items[1..][i]).Success? && 0 <= j < |f(items[1..][i]).value|
                      && tail[k - |head|] == f(items[1..][i]).value[j];
          assert items[1..][i] == items[i + 1];
        }
      }
    }
  }

  /** Batching does not change the outcome: mapping two batches separately and
      concatenating gives what mapping them together gives. */
  lemma {:induction false} MapReduceBatches<A, B, E>(f: A -> Result<seq<B>, E>, batch1: seq<A>, batch2: seq<A>)
    ensures MapReduce(f, batch1).Failure? ==> MapReduce(f, batch1 + batch2) == MapReduce(f, batch1)
    ensures MapReduce(f, batch1).Success? && MapReduce(f, batch2).Success? ==>
              MapReduce(f, batch1 + batch2) == Success(MapReduce(f, batch1).value + MapReduce(f, batch2).value)
    ensures MapReduce(f, batch1).Success? && MapReduce(f, batch2).Failure? ==>
              MapReduce(f, batch1 + batch2).Failure?
  {
    if |batch1| == 0 {
      assert batch1 + batch2 == batch2;
      assert MapReduce(f, batch1) == Success([]);
      if MapReduce(f, batch2).Success? {
        assert [] + MapReduce(f, batch2).value == MapReduce(f, batch2).value;
      }
    } else {
      assert (batch1 + batch2)[0] == batch1[0];
      assert (batch1 + batch2)[1..] == batch1[1..] + batch2;
      MapReduceBatches(f, batch1[1..], batch2);
      if f(batch1[0]).Success? && MapReduce(f, batch1[1..]).Success? && MapReduce(f, batch2).Success? {
        var head := f(batch1[0]).value;
        assert head + (MapReduce(f, batch1[1..]).value + MapReduce(f, batch2).value)
               == (head + MapReduce(f, batch1[1..]).value) + MapReduce(f, batch2).value;
      }
    }
  }

  /** Every item of a successful flat-map output came from some input item:
      anything `keep` holds of all per-item outputs holds of the whole output. */
  lemma {:induction false} MapReducePreserves<A, B, E>(f: A -> Result<seq<B>, E>, items: seq<A>, keep: B -> bool)
    requires forall i :: 0 <= i < |items| && f(items[i]).Success? ==>
               forall j :: 0 <= j < |f(items[i]).value| ==> keep(f(items[i]).value[j])
    ensures MapReduce(f, items).Success? ==>
              forall j :: 0 <= j < |MapReduce(f, items).value| ==> keep(MapReduce(f, items).value[j])
  {
    if |items| > 0 {
      MapReducePreserves(f, items[1..], keep);
    }
  }
}
