/** Choosing and validating the distributor, and what its `map_reduce` computes. */
module Distribution {
  import opened Wrappers
  import opened Errors
  import opened FlatMap

  const ProgressbarTitle: string := "Feature Extraction"

  /** The `DistributorBaseClass` objects the engine can receive or build. */
  datatype Distributor =
    | MapDistributor(disableProgressbar: bool, progressbarTitle: string)
    | MultiprocessingDistributor(nWorkers: int, disableProgressbar: bool, progressbarTitle: string)
      /** any other subclass a caller supplies (a cluster backend, say) */
    | OtherDistributor(className: string)

  /** The `distributor` argument: `None`, a distributor, or some other object. */
  datatype DistributorArgument =
    | NoDistributor
    | GivenDistributor(distributor: Distributor)
    | NotADistributor

  /** With no distributor given, `n_jobs == 0` builds the sequential one and
      any other value a process pool of `n_jobs` workers; a given object that
      is not a distributor is refused with `ValueError`. */
  function SelectDistributor(arg: DistributorArgument, nJobs: int, disableProgressbar: bool)
    : (r: Result<Distributor, ExtractionError>)
    ensures r.Failure? <==> arg.NotADistributor?
    ensures r.Failure? ==> r.error == InvalidDistributor
    ensures arg.GivenDistributor? ==> r == Success(arg.distributor)
    ensures arg.NoDistributor? ==> (r.value.MapDistributor? <==> nJobs == 0)
    ensures arg.NoDistributor? && r.value.MultiprocessingDistributor? ==> r.value.nWorkers == nJobs
    ensures arg.NoDistributor? ==> !r.value.OtherDistributor?
                                   && r.value.disableProgressbar == disableProgressbar
                                   && r.value.progressbarTitle == ProgressbarTitle
  {
    match arg
    case NoDistributor =>
      if nJobs == 0 then Success(MapDistributor(disableProgressbar, ProgressbarTitle))
      else Success(MultiprocessingDistributor(nJobs, disableProgressbar, ProgressbarTitle))
    case GivenDistributor(d) => Success(d)
    case NotADistributor => Failure(InvalidDistributor)
  }

  /** `order` lists every index below `n` exactly once. */
  ghost predicate IsPermutation(order: seq<nat>, n: nat) {
    && |order| == n
    && (forall k :: 0 <= k < n ==> order[k] < n)
    && (forall k, l :: 0 <= k < l < n ==> order[k] != order[l])
    && (forall i :: 0 <= i < n ==> i in order)
  }

  /** The items in the order `order` lists them. */
  function Reorder<A>(items: seq<A>, order: seq<nat>): (reordered: seq<A>)
    requires forall k :: 0 <= k < |order| ==> order[k] < |items|
    ensures |reordered| == |order|
    ensures forall k :: 0 <= k < |order| ==> reordered[k] == items[order[k]]
  {
    seq(|order|, k requires 0 <= k < |order| => items[order[k]])
  }

  /** Where a permutation puts index `i`. */
  lemma PositionOf(order: seq<nat>, n: nat, i: nat) returns (k: nat)
    requires IsPermutation(order, n)
    requires i < n
    ensures k < n && order[k] == i
  {
    assert i in order;
    k :| 0 <= k < |order| && order[k] == i;
  }

  /** The items and their reordering succeed or fail together. */
  lemma ReorderedSucceeds<A, B, E>(f: A -> Result<seq<B>, E>, items: seq<A>, order: seq<nat>)
    requires IsPermutation(order, |items|)
    ensures MapReduce(f, items).Success? <==> MapReduce(f, Reorder(items, order)).Success?
  {
    var reordered := Reorder(items, order);
    if MapReduce(f, reordered).Success? {
      forall i | 0 <= i < |items| ensures f(items[i]).Success? {
        var k := PositionOf(order, |items|, i);
        assert reordered[k] == items[i];
      }
    }
  }

  /** What a distributor's `map_reduce` returns. `MapDistributor` maps the
      items in order; a process pool (or any other backend) hands back the
      per-item results in the order they complete, given here as `completion`.
      Either way the call succeeds exactly when every item does. */
  function RunDistributor<A, B, E>(distributor: Distributor, f: A -> Result<seq<B>, E>, items: seq<A>,
                                   completion: seq<nat>): (r: Result<seq<B>, E>)
    requires IsPermutation(completion, |items|)
    ensures r.Success? <==> forall i :: 0 <= i < |items| ==> f(items[i]).Success?
  {
    if distributor.MapDistributor? then MapReduce(f, items)
    else
      ReorderedSucceeds(f, items, completion);
      MapReduce(f, Reorder(items, completion))
  }
}
