/**
 * The array idiom the adapter uses twice: map every element to a record or
 * to nothing, and keep the records in order (`items.map(...).filter(x => x)`,
 * and `filter(...)` followed by `map(...)`).
 */
module Sequences {
  import opened Wrappers

  /** The values f yields, in the order of the elements that yield them. */
  function FilterMap<A, B>(s: seq<A>, f: A -> Option<B>): (r: seq<B>)
    ensures |r| <= |s|
  {
    if |s| == 0 then []
    else FilterMap(s[..|s| - 1], f) + Kept(f(s[|s| - 1]))
  }

  function Kept<B>(o: Option<B>): seq<B>
  {
    if o.Some? then [o.value] else []
  }

  /** The positions of the elements for which f yields a value, in increasing order. */
  function KeptIndices<A, B>(s: seq<A>, f: A -> Option<B>): (r: seq<nat>)
    ensures forall k :: 0 <= k < |r| ==> r[k] < |s|
  {
    if |s| == 0 then []
    else KeptIndices(s[..|s| - 1], f) + (if f(s[|s| - 1]).Some? then [|s| - 1] else [])
  }

  predicate StrictlyIncreasing(r: seq<nat>)
  {
    forall k, l :: 0 <= k < l < |r| ==> r[k] < r[l]
  }

  /**
   * FilterMap is an order-preserving selection: its k-th value is what f
   * yields for the element at KeptIndices[k], those positions increase, and
   * every element for which f yields a value is among them.
   */
  lemma {:induction false} FilterMapOrigins<A, B>(s: seq<A>, f: A -> Option<B>)
    ensures |FilterMap(s, f)| == |KeptIndices(s, f)|
    ensures StrictlyIncreasing(KeptIndices(s, f))
    ensures forall k :: 0 <= k < |KeptIndices(s, f)| ==>
      f(s[KeptIndices(s, f)[k]]) == Some(FilterMap(s, f)[k])
    ensures forall i :: 0 <= i < |s| && f(s[i]).Some? ==> i in KeptIndices(s, f)
  {
    KeptValues(s, f);
    KeptInOrder(s, f);
    KeptComplete(s, f);
  }

  lemma {:induction false} KeptValues<A, B>(s: seq<A>, f: A -> Option<B>)
    ensures |FilterMap(s, f)| == |KeptIndices(s, f)|
    ensures forall k :: 0 <= k < |KeptIndices(s, f)| ==>
      f(s[KeptIndices(s, f)[k]]) == Some(FilterMap(s, f)[k])
  {
    if |s| > 0 {
      var init := s[..|s| - 1];
      KeptValues(init, f);
      var ks, vs := KeptIndices(init, f), FilterMap(init, f);
      forall k | 0 <= k < |ks|
        ensures s[ks[k]] == init[ks[k]]
        ensures KeptIndices(s, f)[k] == ks[k] && FilterMap(s, f)[k] == vs[k]
      {
      }
    }
  }

  lemma {:induction false} KeptInOrder<A, B>(s: seq<A>, f: A -> Option<B>)
    ensures StrictlyIncreasing(KeptIndices(s, f))
  {
    if |s| > 0 {
      KeptInOrder(s[..|s| - 1], f);
    }
  }

  lemma {:induction false} KeptComplete<A, B>(s: seq<A>, f: A -> Option<B>)
    ensures forall i :: 0 <= i < |s| && f(s[i]).Some? ==> i in KeptIndices(s, f)
  {
    if |s| > 0 {
      var init := s[..|s| - 1];
      KeptComplete(init, f);
      forall i | 0 <= i < |init|
        ensures s[i] == init[i]
      {
      }
    }
  }
}
