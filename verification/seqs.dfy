/** Generic sequence helpers shared by every list transformation of the
    application: the optional value, order-preserving filtering, counting. */
module Seqs {

  /** An optional value; `None` stands for JavaScript's `undefined`. */
  datatype Option<T> = None | Some(value: T)

  /** `r` is obtained from `s` by deleting elements, keeping relative order. */
  predicate Subsequence<T(==)>(r: seq<T>, s: seq<T>)
    decreases |s|
  {
    |r| == 0 ||
    (|s| > 0 && ((r[0] == s[0] && Subsequence(r[1..], s[1..])) || Subsequence(r, s[1..])))
  }

  /** Number of elements of `s` that satisfy `p`. */
  function Count<T>(s: seq<T>, p: T -> bool): (n: nat)
    ensures n <= |s|
  {
    if |s| == 0 then 0
    else (if p(s[0]) then 1 else 0) + Count(s[1..], p)
  }

  /** `Array.prototype.filter`: the elements satisfying `p`, in order. */
  function Filter<T(==,!new)>(s: seq<T>, p: T -> bool): (r: seq<T>)
    ensures |r| == Count(s, p)
    ensures Subsequence(r, s)
    ensures forall x {:trigger multiset(r)[x]} ::
              multiset(r)[x] == if p(x) then multiset(s)[x] else 0
  {
    if |s| == 0 then []
    else
      var rest := Filter(s[1..], p);
      assert s == [s[0]] + s[1..];
      if p(s[0]) then [s[0]] + rest else rest
  }

  /** Membership in a filtered sequence, both directions. */
  lemma FilterMembership<T(!new)>(s: seq<T>, p: T -> bool, x: T)
    ensures x in Filter(s, p) <==> x in s && p(x)
  {
    var r := Filter(s, p);
    assert x in r <==> multiset(r)[x] > 0;
    assert x in s <==> multiset(s)[x] > 0;
  }

  /** A filter that rejects nothing returns its input. */
  lemma {:induction false} FilterKeepsAll<T(!new)>(s: seq<T>, p: T -> bool)
    requires forall x :: x in s ==> p(x)
    ensures Filter(s, p) == s
    decreases |s|
  {
    if |s| > 0 {
      FilterKeepsAll(s[1..], p);
    }
  }

  /** A filter that accepts nothing returns the empty sequence. */
  lemma {:induction false} FilterKeepsNone<T(!new)>(s: seq<T>, p: T -> bool)
    requires forall x :: x in s ==> !p(x)
    ensures Filter(s, p) == []
    decreases |s|
  {
    if |s| > 0 {
      FilterKeepsNone(s[1..], p);
    }
  }

  /** Filtering twice with the same predicate changes nothing more. */
  lemma FilterIdempotent<T(!new)>(s: seq<T>, p: T -> bool)
    ensures Filter(Filter(s, p), p) == Filter(s, p)
  {
    var r := Filter(s, p);
    forall x | x in r ensures p(x) {
      FilterMembership(s, p, x);
    }
    FilterKeepsAll(r, p);
  }

  /** Sequence of all elements but the one at `idx`; any other index removes nothing. */
  function RemoveAt<T>(s: seq<T>, idx: int): (r: seq<T>)
    ensures 0 <= idx < |s| ==> |r| == |s| - 1
    ensures 0 <= idx < |s| ==> forall k :: 0 <= k < |r| ==> r[k] == if k < idx then s[k] else s[k + 1]
    ensures !(0 <= idx < |s|) ==> r == s
  {
    if 0 <= idx < |s| then s[..idx] + s[idx + 1..] else s
  }
}
