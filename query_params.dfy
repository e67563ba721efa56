/** The query-string logic both XSS scanners share, over urllib's view of a query as the list
    of its `(key, value)` pairs (`parse_qsl(..., keep_blank_values=True)`). */
module QueryParams {
  import opened Strings

  type Pairs = seq<(string, string)>

  /** The keys of the pairs, in order, repeats included. */
  function Keys(pairs: Pairs): (r: seq<string>)
    ensures |r| == |pairs|
    ensures forall i :: 0 <= i < |pairs| ==> r[i] == pairs[i].0
  {
    if pairs == [] then [] else [pairs[0].0] + Keys(pairs[1..])
  }

  /** The new pair list of `_mutate_query_param` and `_change_url_with_payload`: same length,
      same keys in the same order; every pair whose key is `param` carries `payload`, every
      other pair keeps its value. */
  function ReplaceParam(pairs: Pairs, param: string, payload: string): (r: Pairs)
    ensures |r| == |pairs|
    ensures forall i :: 0 <= i < |pairs| ==> r[i].0 == pairs[i].0
    ensures forall i :: 0 <= i < |pairs| && pairs[i].0 == param ==> r[i].1 == payload
    ensures forall i :: 0 <= i < |pairs| && pairs[i].0 != param ==> r[i].1 == pairs[i].1
  {
    if pairs == [] then []
    else
      var (k, v) := pairs[0];
      [(k, if k == param then payload else v)] + ReplaceParam(pairs[1..], param, payload)
  }

  /** A key that does not occur leaves the pairs as they are. */
  lemma ReplaceAbsent(pairs: Pairs, param: string, payload: string)
    requires param !in Keys(pairs)
    ensures ReplaceParam(pairs, param, payload) == pairs
  {
    var r := ReplaceParam(pairs, param, payload);
    forall i | 0 <= i < |pairs|
      ensures r[i] == pairs[i]
    {
      assert Keys(pairs)[i] == pairs[i].0;
    }
  }

  /** `sorted({k for (k, _) in pairs})`: the distinct keys in ascending order. */
  function ParamNames(pairs: Pairs): (r: seq<string>)
    ensures StrictlySorted(r) && Distinct(r)
    ensures forall k :: k in r <==> k in Keys(pairs)
  {
    var names := SortedUnique(Keys(pairs));
    SortedIsDistinct(names);
    names
  }

  lemma ParamNamesEmpty(pairs: Pairs)
    ensures ParamNames(pairs) == [] <==> pairs == []
  {
    if pairs != [] {
      assert pairs[0].0 in Keys(pairs);
    }
  }

  /** Mutating a value never changes which parameters there are. */
  lemma ParamNamesAfterReplace(pairs: Pairs, param: string, payload: string)
    ensures ParamNames(ReplaceParam(pairs, param, payload)) == ParamNames(pairs)
  {
    assert Keys(ReplaceParam(pairs, param, payload)) == Keys(pairs);
  }
}
