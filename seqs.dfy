/** Order-preserving filtering, the shape of Python's `[x for x in s if p(x)]`. */
module Seqs {

  function Filter<T(!new)>(s: seq<T>, p: T -> bool): (r: seq<T>)
    ensures |r| <= |s|
  {
    if s == [] then []
    else Filter(s[..|s| - 1], p) + (if p(s[|s| - 1]) then [s[|s| - 1]] else [])
  }

  /**
   * The positions of `s` whose elements `Filter` keeps. `Filter(s, p)` is
   * the subsequence of `s` at these positions: every kept element passes
   * `p`, every passing element is kept, and the positions increase, so the
   * relative order is that of `s`.
   */
  function Kept<T(!new)>(s: seq<T>, p: T -> bool): (ix: seq<nat>)
    ensures |ix| == |Filter(s, p)|
    ensures forall k :: 0 <= k < |ix| ==> ix[k] < |s| && s[ix[k]] == Filter(s, p)[k] && p(s[ix[k]])
    ensures forall k, m :: 0 <= k < m < |ix| ==> ix[k] < ix[m]
    ensures forall j :: 0 <= j < |s| && p(s[j]) ==> j in ix
  {
    if s == [] then []
    else
      var init := s[..|s| - 1];
      assert forall j :: 0 <= j < |init| ==> init[j] == s[j];
      var prefix := Kept(init, p);
      if p(s[|s| - 1]) then
        assert Filter(s, p) == Filter(init, p) + [s[|s| - 1]];
        prefix + [|s| - 1]
      else
        assert Filter(s, p) == Filter(init, p);
        prefix
  }

  /** The filtered elements are exactly the elements of `s` that pass `p`. */
  lemma {:induction false} FilterMembers<T(!new)>(s: seq<T>, p: T -> bool)
    ensures forall x :: x in Filter(s, p) <==> x in s && p(x)
  {
    if s != [] {
      FilterMembers(s[..|s| - 1], p);
      assert s == s[..|s| - 1] + [s[|s| - 1]];
    }
  }
}
