/** Order-preserving selection over sequences, the shape of a Django queryset `.filter(...)`. */
module Seqs {

  /** `r` can be obtained from `s` by deleting elements, keeping the order of the rest. */
  predicate SubsequenceOf<T(==)>(r: seq<T>, s: seq<T>)
    decreases |s|
  {
    if r == [] then true
    else if s == [] then false
    else (r[0] == s[0] && SubsequenceOf(r[1..], s[1..])) || SubsequenceOf(r, s[1..])
  }

  /** The elements of `s` that `keep` accepts, in their original order and with their multiplicity. */
  function Select<T(==,!new)>(s: seq<T>, keep: T -> bool): (r: seq<T>)
    ensures forall k :: 0 <= k < |r| ==> keep(r[k])
    ensures forall x :: multiset(r)[x] == if keep(x) then multiset(s)[x] else 0
    ensures SubsequenceOf(r, s)
    decreases |s|
  {
    if s == [] then []
    else
      var rest := Select(s[1..], keep);
      assert s == [s[0]] + s[1..];
      if keep(s[0]) then [s[0]] + rest else rest
  }

  /** Every element of a selection comes from the source sequence. */
  lemma SelectIn<T(!new)>(s: seq<T>, keep: T -> bool, x: T)
    requires x in Select(s, keep)
    ensures x in s && keep(x)
  {
    var r := Select(s, keep);
    assert multiset(r)[x] > 0;
  }

  /** Putting an element in front of the larger sequence keeps a subsequence one. */
  lemma SubsequenceSkip<T>(r: seq<T>, x: T, s: seq<T>)
    requires SubsequenceOf(r, s)
    ensures SubsequenceOf(r, [x] + s)
  {
    assert ([x] + s)[1..] == s;
  }

  /** Putting the same element in front of both keeps a subsequence one. */
  lemma SubsequenceKeep<T>(r: seq<T>, x: T, s: seq<T>)
    requires SubsequenceOf(r, s)
    ensures SubsequenceOf([x] + r, [x] + s)
  {
    assert ([x] + s)[1..] == s && ([x] + r)[1..] == r;
  }
}
