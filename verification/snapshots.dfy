/**
 A data snapshot pushed by the feed: a JavaScript object from metric name to
 metric value. It is modelled by its entries in enumeration order (the order
 `Object.keys` yields), and, as in any object, no name occurs twice. Values
 are only looked up and displayed, so their type is a parameter.
 */
module Snapshots {
  import opened Wrappers

  /** No two entries share a name. */
  predicate DistinctKeys<V>(entries: seq<(string, V)>) {
    forall i, j :: 0 <= i < j < |entries| ==> entries[i].0 != entries[j].0
  }

  type Snapshot<V> = entries: seq<(string, V)> | DistinctKeys(entries) witness []

  /** The metric names, in enumeration order (`Object.keys`). */
  function Keys<V>(s: seq<(string, V)>): (ks: seq<string>)
    ensures |ks| == |s|
    ensures forall i :: 0 <= i < |s| ==> ks[i] == s[i].0
  {
    if |s| == 0 then [] else [s[0].0] + Keys(s[1..])
  }

  /** A tail of a snapshot is still a snapshot. */
  lemma TailDistinct<V>(s: Snapshot<V>)
    requires |s| > 0
    ensures DistinctKeys(s[1..])
  {
    assert forall i :: 0 <= i < |s| - 1 ==> s[1..][i] == s[i + 1];
  }

  /**
   The property access `s[k]`: the value stored under `k`, or `None` (JavaScript's
   `undefined`) when `k` is not a name of `s`; a missing name is not an error.
   */
  function Lookup<V>(s: Snapshot<V>, k: string): (r: Option<V>)
    ensures r.None? <==> k !in Keys(s)
    ensures forall i :: 0 <= i < |s| && s[i].0 == k ==> r == Some(s[i].1)
  {
    if |s| == 0 then None
    else if s[0].0 == k then Some(s[0].1)
    else
      TailDistinct(s);
      var tail: Snapshot<V> := s[1..];
      assert forall i :: 1 <= i < |s| ==> s[i] == tail[i - 1];
      Lookup(tail, k)
  }
}
