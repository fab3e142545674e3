/** Feature calculators and the parameter catalogs that select them. */
module Catalog {
  import opened Wrappers

  /** A registered calculator, as `getattr(feature_calculators, name)` returns
      it: its `__name__`, its `fctype` tag and the (uninterpreted) computation.
      A simple calculator is called with one parameter set or with none; a
      combiner receives the whole parameter list and names its own results. */
  datatype Calculator<!D, !P, V> =
    | Simple(name: string, apply: (D, Option<P>) -> V)
    | Combiner(name: string, combine: (D, Option<seq<P>>) -> seq<(string, V)>)

  /** One `function_name: parameter_list` item of an fc_parameters dict;
      a `None` parameter list is Python's `None`. */
  datatype Entry<P> = Entry(functionName: string, parameters: Option<seq<P>>)

  /** An fc_parameters dict, in its iteration order. */
  type FcParameters<P> = seq<Entry<P>>

  /** The calculator module, looked up by attribute name. */
  type Registry<!D, !P, V> = map<string, Calculator<D, P, V>>

  /** Python truthiness of an optional dict: neither `None` nor empty. */
  predicate Truthy<K, W>(m: Option<map<K, W>>) {
    m.Some? && |m.value| > 0
  }

  /** The fc_parameters used for a chunk of `kind`: the per-kind override when
      `kind_to_fc_parameters` is truthy and holds the kind, else the default. */
  function EffectiveParameters<P>(kind: string, default: FcParameters<P>,
                                  overrides: Option<map<string, FcParameters<P>>>): (fc: FcParameters<P>)
    ensures overrides.Some? && kind in overrides.value ==> fc == overrides.value[kind]
    ensures overrides.None? || kind !in overrides.value ==> fc == default
  {
    if Truthy(overrides) && kind in overrides.value then overrides.value[kind] else default
  }

  /** An override replaces the default wholesale: nothing of the default
      reaches a kind that has an override. */
  lemma OverrideIgnoresDefault<P>(kind: string, default1: FcParameters<P>, default2: FcParameters<P>,
                                  overrides: Option<map<string, FcParameters<P>>>)
    requires overrides.Some? && kind in overrides.value
    ensures EffectiveParameters(kind, default1, overrides) == EffectiveParameters(kind, default2, overrides)
  {
  }
}
