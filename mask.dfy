/**
 * Boolean-mask selection (`df[mask]`): the rows for which a predicate holds,
 * in their original order.
 */
module Mask {

  /** The elements of `s` satisfying `p`, in order. */
  function Keep<T>(s: seq<T>, p: T -> bool): (r: seq<T>)
    ensures |r| <= |s|
    ensures forall k :: 0 <= k < |r| ==> r[k] in s && p(r[k])
    ensures multiset(r) <= multiset(s)
  {
    if s == [] then []
    else
      var init, last := s[..|s| - 1], s[|s| - 1];
      assert s == init + [last];
      Keep(init, p) + (if p(last) then [last] else [])
  }

  /** The positions in `s` of the elements satisfying `p`, in increasing order. */
  function Positions<T>(s: seq<T>, p: T -> bool): seq<nat> {
    if s == [] then []
    else Positions(s[..|s| - 1], p) + (if p(s[|s| - 1]) then [|s| - 1] else [])
  }

  /**
   * `r` is the subsequence of `s` at the strictly increasing positions `idx`,
   * and those positions are exactly the ones whose element satisfies `p`.
   */
  ghost predicate IsMask<T>(r: seq<T>, s: seq<T>, idx: seq<nat>, p: T -> bool) {
    && |idx| == |r|
    && (forall k :: 0 <= k < |idx| ==> idx[k] < |s| && r[k] == s[idx[k]])
    && (forall k, l :: 0 <= k < l < |idx| ==> idx[k] < idx[l])
    && (forall i :: 0 <= i < |s| ==> (p(s[i]) <==> i in idx))
  }

  /** `Keep` selects exactly the satisfying elements, as an order-preserving subsequence. */
  lemma {:induction false} KeepIsMask<T>(s: seq<T>, p: T -> bool)
    ensures IsMask(Keep(s, p), s, Positions(s, p), p)
  {
    if s != [] {
      var n := |s| - 1;
      var init, last := s[..n], s[n];
      KeepIsMask(init, p);
      var r, idx := Keep(s, p), Positions(s, p);
      var r0, idx0 := Keep(init, p), Positions(init, p);
      assert r == r0 + (if p(last) then [last] else []);
      assert idx == idx0 + (if p(last) then [n] else []);
      forall k | 0 <= k < |idx| ensures idx[k] < |s| && r[k] == s[idx[k]] {
        if k < |idx0| {
          assert idx[k] == idx0[k] && r[k] == r0[k] && s[idx0[k]] == init[idx0[k]];
        }
      }
      forall i | 0 <= i < |s| ensures p(s[i]) <==> i in idx {
        if i < n {
          assert s[i] == init[i];
          assert i in idx <==> i in idx0;
        }
      }
    }
  }

  /** When no element satisfies `p`, the selection is empty. */
  lemma {:induction false} KeepNone<T>(s: seq<T>, p: T -> bool)
    requires forall i :: 0 <= i < |s| ==> !p(s[i])
    ensures Keep(s, p) == []
  {
    if s != [] {
      KeepNone(s[..|s| - 1], p);
    }
  }
}
