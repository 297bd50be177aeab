/** Order-preserving selection of sequence positions. */
module Seqs {

  /** The positions of `s` whose element satisfies `p`, in increasing order.
      This is the index set behind every "skip the ones that fail" loop of the
      pipeline; `IndicesWhereSpec` characterises it. */
  function IndicesWhere<T>(s: seq<T>, p: T -> bool): (r: seq<nat>)
    ensures |r| <= |s|
    decreases |s|
  {
    if |s| == 0 then []
    else IndicesWhere(s[..|s| - 1], p) + (if p(s[|s| - 1]) then [|s| - 1] else [])
  }

  /** Taking one more element adds its position at the end exactly when it
      satisfies `p`. */
  lemma IndicesWhereSnoc<T>(s: seq<T>, p: T -> bool)
    requires |s| > 0
    ensures IndicesWhere(s, p)
         == IndicesWhere(s[..|s| - 1], p) + if p(s[|s| - 1]) then [|s| - 1] else []
  {
  }

  /** Every listed position is in range and satisfies `p`. */
  lemma {:induction false} IndicesWhereSound<T>(s: seq<T>, p: T -> bool)
    ensures forall k :: 0 <= k < |IndicesWhere(s, p)| ==>
      IndicesWhere(s, p)[k] < |s| && p(s[IndicesWhere(s, p)[k]])
    decreases |s|
  {
    if |s| > 0 {
      var front := s[..|s| - 1];
      IndicesWhereSound(front, p);
      var r, r' := IndicesWhere(s, p), IndicesWhere(front, p);
      forall k | 0 <= k < |r|
        ensures r[k] < |s| && p(s[r[k]])
      {
        if k < |r'| {
          assert r[k] == r'[k] && front[r'[k]] == s[r'[k]];
        }
      }
    }
  }

  /** The listed positions are strictly increasing. */
  lemma {:induction false} IndicesWhereIncreasing<T>(s: seq<T>, p: T -> bool)
    ensures forall k, l :: 0 <= k < l < |IndicesWhere(s, p)| ==>
      IndicesWhere(s, p)[k] < IndicesWhere(s, p)[l]
    decreases |s|
  {
    if |s| > 0 {
      var front := s[..|s| - 1];
      IndicesWhereSound(front, p);
      IndicesWhereIncreasing(front, p);
      var r, r' := IndicesWhere(s, p), IndicesWhere(front, p);
      forall k, l | 0 <= k < l < |r|
        ensures r[k] < r[l]
      {
        assert r[k] == r'[k];
        if l < |r'| {
          assert r[l] == r'[l];
        }
      }
    }
  }

  /** Every position that satisfies `p` is listed. */
  lemma {:induction false} IndicesWhereComplete<T>(s: seq<T>, p: T -> bool)
    ensures forall i :: 0 <= i < |s| && p(s[i]) ==> i in IndicesWhere(s, p)
    decreases |s|
  {
    if |s| > 0 {
      var front := s[..|s| - 1];
      IndicesWhereComplete(front, p);
      assert forall i :: 0 <= i < |front| ==> front[i] == s[i];
    }
  }

  /** All positions are listed exactly when all satisfy `p`. */
  lemma {:induction false} IndicesWhereAll<T>(s: seq<T>, p: T -> bool)
    ensures |IndicesWhere(s, p)| == |s| <==> forall i :: 0 <= i < |s| ==> p(s[i])
    decreases |s|
  {
    if |s| > 0 {
      var front := s[..|s| - 1];
      IndicesWhereAll(front, p);
      assert forall i :: 0 <= i < |front| ==> front[i] == s[i];
    }
  }

  /** Every listed position is in range and satisfies `p`, the positions are
      strictly increasing, every position that satisfies `p` is listed, and
      all positions are listed exactly when all satisfy `p`. */
  lemma {:induction false} IndicesWhereSpec<T>(s: seq<T>, p: T -> bool)
    ensures var r := IndicesWhere(s, p);
      && (forall k :: 0 <= k < |r| ==> r[k] < |s| && p(s[r[k]]))
      && (forall k, l :: 0 <= k < l < |r| ==> r[k] < r[l])
      && (forall i :: 0 <= i < |s| && p(s[i]) ==> i in r)
      && (|r| == |s| <==> forall i :: 0 <= i < |s| ==> p(s[i]))
  {
    IndicesWhereSound(s, p);
    IndicesWhereIncreasing(s, p);
    IndicesWhereComplete(s, p);
    IndicesWhereAll(s, p);
  }
}
