/** Insertion-ordered string-keyed tables: the model of a Python `dict` whose
    keys are strings. A table is a sequence of (key, value) entries; iteration
    order is the sequence order, and a well-formed table has no repeated key. */
module AssocList {
  import opened Wrappers

  type Table<V> = seq<(string, V)>

  /** Python raises `KeyError(key)` when `table[key]` names an absent key. */
  datatype LookupError = KeyError(key: string)

  /** No key occurs twice: what a Python `dict` guarantees. */
  ghost predicate DistinctKeys<V>(t: Table<V>) {
    forall i, j :: 0 <= i < j < |t| ==> t[i].0 != t[j].0
  }

  /** `list(table.keys())`: the keys in iteration order. */
  function Keys<V>(t: Table<V>): (ks: seq<string>)
    ensures |ks| == |t|
    ensures forall i :: 0 <= i < |t| ==> ks[i] == t[i].0
  {
    if t == [] then [] else [t[0].0] + Keys(t[1..])
  }

  /** Position of the entry holding `k`, the earliest one if several do. */
  function Find<V>(t: Table<V>, k: string): (r: Option<nat>)
    ensures r.None? <==> forall j :: 0 <= j < |t| ==> t[j].0 != k
    ensures r.Some? ==> r.value < |t| && t[r.value].0 == k
    ensures r.Some? ==> forall j :: 0 <= j < r.value ==> t[j].0 != k
  {
    if t == [] then None
    else if t[0].0 == k then Some(0)
    else match Find(t[1..], k)
      case None => None
      case Some(i) => Some(i + 1)
  }

  /** `table[k]`: the value stored under `k`, or `KeyError(k)` when `k` is absent. */
  function Get<V>(t: Table<V>, k: string): (r: Result<V, LookupError>)
    ensures r.Failure? <==> k !in Keys(t)
    ensures r.Failure? ==> r.error == KeyError(k)
    ensures r.Success? ==> (k, r.value) in t
  {
    match Find(t, k)
    case None => Failure(KeyError(k))
    case Some(i) => Success(t[i].1)
  }

  /** In a table without repeated keys, looking up the key of an entry yields
      exactly that entry's value. */
  lemma GetEntry<V>(t: Table<V>, i: nat)
    requires DistinctKeys(t)
    requires i < |t|
    ensures Get(t, t[i].0) == Success(t[i].1)
  {
  }

  /** Without repeated keys, the listed keys repeat nothing either. */
  lemma KeysDistinct<V>(t: Table<V>)
    requires DistinctKeys(t)
    ensures forall i, j :: 0 <= i < j < |Keys(t)| ==> Keys(t)[i] != Keys(t)[j]
  {
  }
}
