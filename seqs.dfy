/** Index bookkeeping for the filtering loops of the save path. */
module Seqs {

  /** The positions of `s` whose element satisfies `p`, in increasing order. */
  function Indices<T>(s: seq<T>, p: T -> bool): (r: seq<nat>)
    ensures |r| <= |s|
    ensures forall k :: 0 <= k < |r| ==> r[k] < |s| && p(s[r[k]])
    ensures forall i :: 0 <= i < |s| && p(s[i]) ==> i in r
    ensures forall a, b :: 0 <= a < b < |r| ==> r[a] < r[b]
    decreases |s|
  {
    if s == [] then []
    else
      var init := Indices(s[..|s| - 1], p);
      assert forall k :: 0 <= k < |init| ==> s[..|s| - 1][init[k]] == s[init[k]];
      if p(s[|s| - 1]) then init + [|s| - 1] else init
  }
}
