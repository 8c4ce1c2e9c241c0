/** Order-preserving filtering, the shape shared by the chapter and paragraph materiality filters. */
module Filtering {

  /** The elements of `s` that satisfy `keep`, in their original order. */
  function Filter<T>(s: seq<T>, keep: T -> bool): (r: seq<T>)
    ensures |r| <= |s|
    ensures forall k :: 0 <= k < |r| ==> keep(r[k]) && r[k] in s
  {
    if s == [] then []
    else Filter(s[..|s| - 1], keep) + (if keep(s[|s| - 1]) then [s[|s| - 1]] else [])
  }

  /** The positions in `s` of the elements that satisfy `keep`, in increasing order. */
  function KeptIndices<T>(s: seq<T>, keep: T -> bool): seq<nat> {
    if s == [] then []
    else KeptIndices(s[..|s| - 1], keep) + (if keep(s[|s| - 1]) then [|s| - 1] else [])
  }

  predicate StrictlyIncreasing(ix: seq<nat>) {
    forall a, b :: 0 <= a < b < |ix| ==> ix[a] < ix[b]
  }

  /** Every kept position is a position of `s`, and the positions increase. */
  lemma {:induction false} KeptIndicesIncrease<T>(s: seq<T>, keep: T -> bool)
    ensures forall k :: 0 <= k < |KeptIndices(s, keep)| ==> KeptIndices(s, keep)[k] < |s|
    ensures StrictlyIncreasing(KeptIndices(s, keep))
  {
    if s != [] {
      KeptIndicesIncrease(s[..|s| - 1], keep);
    }
  }

  /** Filter keeps exactly the elements that satisfy `keep` (each position is kept iff its element
      satisfies it), and the survivors appear in their original relative order. */
  lemma {:induction false} FilterByIndices<T>(s: seq<T>, keep: T -> bool)
    ensures |Filter(s, keep)| == |KeptIndices(s, keep)|
    ensures StrictlyIncreasing(KeptIndices(s, keep))
    ensures forall k :: 0 <= k < |KeptIndices(s, keep)| ==>
              KeptIndices(s, keep)[k] < |s| && Filter(s, keep)[k] == s[KeptIndices(s, keep)[k]]
    ensures forall i :: 0 <= i < |s| ==> (keep(s[i]) <==> i in KeptIndices(s, keep))
  {
    KeptIndicesIncrease(s, keep);
    if s != [] {
      var init := s[..|s| - 1];
      FilterByIndices(init, keep);
      var ix, f := KeptIndices(init, keep), Filter(init, keep);
      var last := s[|s| - 1];
      var extra := if keep(last) then [|s| - 1] else [];
      var fx := if keep(last) then [last] else [];
      assert KeptIndices(s, keep) == ix + extra;
      assert Filter(s, keep) == f + fx;
      forall k | 0 <= k < |ix + extra|
        ensures (f + fx)[k] == s[(ix + extra)[k]]
      {
        if k < |ix| {
          assert (ix + extra)[k] == ix[k];
          assert init[ix[k]] == s[ix[k]];
        }
      }
      forall i | 0 <= i < |s|
        ensures keep(s[i]) <==> i in ix + extra
      {
        if i < |init| {
          assert init[i] == s[i];
          assert |s| - 1 !in ix;
        }
      }
    }
  }

  /** Filtering a sequence extended by one element. */
  lemma FilterSnoc<T>(s: seq<T>, x: T, keep: T -> bool)
    ensures Filter(s + [x], keep) == Filter(s, keep) + (if keep(x) then [x] else [])
  {
    assert (s + [x])[..|s + [x]| - 1] == s;
  }

  /** Nothing survives when no element satisfies `keep`. */
  lemma {:induction false} FilterNone<T>(s: seq<T>, keep: T -> bool)
    requires forall k :: 0 <= k < |s| ==> !keep(s[k])
    ensures Filter(s, keep) == []
  {
    if s != [] {
      FilterNone(s[..|s| - 1], keep);
    }
  }
}
