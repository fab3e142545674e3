/** Construction of feature column names: `kind__calculator[__key]`. */
module FeatureNames {
  import opened Wrappers

  const Separator: string := "__"

  /** `s` begins with `prefix`. */
  predicate StartsWith(s: string, prefix: string) {
    |prefix| <= |s| && s[..|prefix|] == prefix
  }

  /** The part of every name that does not depend on the parameters. */
  function BaseName(kind: string, calculator: string): string {
    kind + Separator + calculator
  }

  /** The name of one feature: the key suffix is added only when the key is
      non-empty (Python's `if key:`). */
  function FeatureName(kind: string, calculator: string, key: string): (name: string)
    ensures StartsWith(name, BaseName(kind, calculator))
    ensures StartsWith(name, kind + Separator)
    ensures key == "" <==> |name| == |BaseName(kind, calculator)|
    ensures key != "" ==> name[|BaseName(kind, calculator)|..] == Separator + key
  {
    var base := BaseName(kind, calculator);
    if key != "" then base + Separator + key else base
  }

  /** Reads the parameter key back out of a feature name built for `kind`
      and `calculator`; `None` when the name was not built for them. */
  function ParameterKey(kind: string, calculator: string, name: string): (key: Option<string>)
    ensures key.Some? && key.value != "" ==> name == BaseName(kind, calculator) + Separator + key.value
  {
    var base := BaseName(kind, calculator);
    if name == base then Some("")
    else if |name| > |base| + |Separator| && name[..|base| + |Separator|] == base + Separator
    then Some(name[|base| + |Separator|..])
    else None
  }

  /** The key of a feature name can always be recovered. */
  lemma ParameterKeyRoundTrip(kind: string, calculator: string, key: string)
    ensures ParameterKey(kind, calculator, FeatureName(kind, calculator, key)) == Some(key)
  {
  }

  /** For one kind and calculator, distinct parameter keys give distinct names. */
  lemma FeatureNameInjective(kind: string, calculator: string, key1: string, key2: string)
    requires key1 != key2
    ensures FeatureName(kind, calculator, key1) != FeatureName(kind, calculator, key2)
  {
    ParameterKeyRoundTrip(kind, calculator, key1);
    ParameterKeyRoundTrip(kind, calculator, key2);
  }

  /** Injectivity stops at the calculator: a calculator whose name contains
      the separator can produce the name another calculator gives a keyed
      feature, since nothing escapes the separator. */
  lemma NamesCollideAcrossCalculators()
    ensures FeatureName("x", "a", "b") == FeatureName("x", "a__b", "")
    ensures "a" != "a__b" && "b" != ""
  {
  }
}
