/**
 Sequence helpers shared by the controller model: LINQ's `Where` as `Filter`,
 and what it means for one sequence to be an order-preserving selection of another.
 */
module Seqs {

  /** The elements of `s` that satisfy `p`, in their original order. */
  function Filter<T>(s: seq<T>, p: T -> bool): (r: seq<T>)
    ensures |r| <= |s|
    ensures forall k | 0 <= k < |r| :: p(r[k])
  {
    if s == [] then []
    else (if p(s[0]) then [s[0]] else []) + Filter(s[1..], p)
  }

  /**
   Filtering keeps exactly the satisfying elements, each as often as it occurs in the
   input, and drops every other element.
   */
  lemma {:induction false} FilterContents<T(!new)>(s: seq<T>, p: T -> bool)
    ensures forall x :: x in Filter(s, p) <==> x in s && p(x)
    ensures forall x :: multiset(Filter(s, p))[x] == if p(x) then multiset(s)[x] else 0
  {
    if s != [] {
      FilterContents(s[1..], p);
      assert s == [s[0]] + s[1..];
      assert Filter(s, p) == (if p(s[0]) then [s[0]] else []) + Filter(s[1..], p);
    }
  }

  /** `idx` picks, strictly left to right, the positions of `b` that spell out `a`. */
  ghost predicate Embedding<T>(idx: seq<nat>, a: seq<T>, b: seq<T>)
  {
    && |idx| == |a|
    && (forall k :: 0 <= k < |idx| ==> idx[k] < |b| && a[k] == b[idx[k]])
    && (forall j, k :: 0 <= j < k < |idx| ==> idx[j] < idx[k])
  }

  /** `a` is `b` with some elements dropped and the rest in their original order. */
  ghost predicate IsSubsequence<T>(a: seq<T>, b: seq<T>)
  {
    exists idx :: Embedding(idx, a, b)
  }

  /** Shifting an embedding into `b[1..]` by one embeds into `b`, with or without `b[0]` in front. */
  lemma EmbeddingShift<T>(rest: seq<nat>, a: seq<T>, b: seq<T>, keepHead: bool)
    requires |b| > 0
    requires Embedding(rest, a, b[1..])
    ensures IsSubsequence(if keepHead then [b[0]] + a else a, b)
  {
    var shifted := seq(|rest|, k requires 0 <= k < |rest| => rest[k] + 1);
    assert Embedding(shifted, a, b);
    if keepHead {
      var idx := [0] + shifted;
      var a' := [b[0]] + a;
      forall k | 0 <= k < |idx| ensures idx[k] < |b| && a'[k] == b[idx[k]] {
        if k > 0 {
          assert idx[k] == shifted[k - 1] && a'[k] == a[k - 1];
        }
      }
      forall j, k | 0 <= j < k < |idx| ensures idx[j] < idx[k] {
        if j > 0 {
          assert idx[j] == shifted[j - 1];
        }
      }
      assert Embedding(idx, a', b);
    }
  }

  /** Filtering never reorders: its result is a subsequence of its input. */
  lemma {:induction false} FilterIsSubsequence<T>(s: seq<T>, p: T -> bool)
    ensures IsSubsequence(Filter(s, p), s)
  {
    if s == [] {
      assert Embedding([], Filter(s, p), s);
    } else {
      FilterIsSubsequence(s[1..], p);
      var tail := Filter(s[1..], p);
      var rest: seq<nat> :| Embedding(rest, tail, s[1..]);
      EmbeddingShift(rest, tail, s, p(s[0]));
      assert Filter(s, p) == if p(s[0]) then [s[0]] + tail else tail;
    }
  }

  /** Filtering distributes over concatenation: what is kept from a prefix comes first. */
  lemma {:induction false} FilterAppend<T>(a: seq<T>, b: seq<T>, p: T -> bool)
    ensures Filter(a + b, p) == Filter(a, p) + Filter(b, p)
  {
    if a == [] {
      assert a + b == b;
    } else {
      assert (a + b)[1..] == a[1..] + b;
      FilterAppend(a[1..], b, p);
    }
  }

  /** Two complementary filters split a sequence: every element goes to exactly one side. */
  lemma FilterPartition<T(!new)>(s: seq<T>, p: T -> bool, q: T -> bool)
    requires forall x :: q(x) == !p(x)
    ensures multiset(Filter(s, p)) + multiset(Filter(s, q)) == multiset(s)
    ensures |Filter(s, p)| + |Filter(s, q)| == |s|
  {
    var fp, fq := Filter(s, p), Filter(s, q);
    FilterContents(s, p);
    FilterContents(s, q);
    assert multiset(fp) + multiset(fq) == multiset(s) by {
      forall x ensures (multiset(fp) + multiset(fq))[x] == multiset(s)[x] {
      }
    }
    assert |multiset(fp) + multiset(fq)| == |multiset(s)|;
  }
}
