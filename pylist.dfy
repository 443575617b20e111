/** The Python list idioms the application relies on: slicing `xs[:k]`,
    order-preserving de-duplication with a `seen` set, and the
    "subsequence in order" relation that list comprehensions with a filter
    produce. */
module PyList {

  function Min(a: int, b: int): int { if a <= b then a else b }

  function Max(a: int, b: int): int { if a >= b then a else b }

  /** `xs[:k]` for any integer `k`: a negative `k` counts from the end. */
  function SliceTo<T>(xs: seq<T>, k: int): (r: seq<T>)
    ensures |r| <= |xs| && r == xs[..|r|]
    ensures 0 <= k ==> |r| == Min(k, |xs|)
    ensures k < 0 ==> |r| == Max(0, |xs| + k)
  {
    if k >= 0 then (if k <= |xs| then xs[..k] else xs)
    else if |xs| + k >= 0 then xs[..|xs| + k]
    else []
  }

  /** `a` is obtained from `b` by deleting elements, the rest kept in order. */
  predicate IsSubsequence<T(==)>(a: seq<T>, b: seq<T>)
    decreases |b|
  {
    if |a| == 0 then true
    else if |b| == 0 then false
    else (a[0] == b[0] && IsSubsequence(a[1..], b[1..])) || IsSubsequence(a, b[1..])
  }

  lemma {:induction false} SubsequenceMembers<T>(a: seq<T>, b: seq<T>)
    requires IsSubsequence(a, b)
    ensures |a| <= |b|
    ensures forall i :: 0 <= i < |a| ==> a[i] in b
    decreases |b|
  {
    if |a| > 0 {
      if a[0] == b[0] && IsSubsequence(a[1..], b[1..]) {
        SubsequenceMembers(a[1..], b[1..]);
        assert a == [a[0]] + a[1..];
      } else {
        SubsequenceMembers(a, b[1..]);
      }
    }
  }

  lemma {:induction false} SubsequenceRefl<T>(a: seq<T>)
    ensures IsSubsequence(a, a)
    decreases |a|
  {
    if |a| > 0 {
      SubsequenceRefl(a[1..]);
    }
  }

  /** The elements of `xs` with no repetition, each at its first
      occurrence: the `seen`-set loop written as a specification. */
  function Dedup<T(==)>(xs: seq<T>): (r: seq<T>)
    ensures forall i :: 0 <= i < |xs| ==> xs[i] in r
    ensures forall i :: 0 <= i < |r| ==> r[i] in xs
    ensures NoDuplicates(r)
    decreases |xs|
  {
    if |xs| == 0 then []
    else
      var front := Dedup(xs[..|xs| - 1]);
      var last := xs[|xs| - 1];
      assert xs == xs[..|xs| - 1] + [last];
      if last in front then front else front + [last]
  }

  predicate NoDuplicates<T(==)>(xs: seq<T>)
  {
    forall i, j :: 0 <= i < j < |xs| ==> xs[i] != xs[j]
  }

  /** Deduplicating a prefix gives a prefix of the deduplicated whole:
      later elements never move an earlier first occurrence. */
  lemma {:induction false} DedupPrefix<T>(xs: seq<T>, k: nat)
    requires k <= |xs|
    ensures IsPrefix(Dedup(xs[..k]), Dedup(xs))
    decreases |xs| - k
  {
    if k < |xs| {
      DedupPrefix(xs, k + 1);
      DedupStep(xs[..k + 1]);
      assert xs[..k + 1][..k] == xs[..k];
      PrefixTrans(Dedup(xs[..k]), Dedup(xs[..k + 1]), Dedup(xs));
    } else {
      assert xs[..k] == xs;
    }
  }

  /** Dropping the last element keeps a prefix of the deduplicated list. */
  lemma DedupStep<T>(xs: seq<T>)
    requires |xs| > 0
    ensures IsPrefix(Dedup(xs[..|xs| - 1]), Dedup(xs))
  {
    var front := Dedup(xs[..|xs| - 1]);
    if xs[|xs| - 1] !in front {
      assert Dedup(xs) == front + [xs[|xs| - 1]];
      assert (front + [xs[|xs| - 1]])[..|front|] == front;
    }
  }

  lemma PrefixTrans<T>(a: seq<T>, b: seq<T>, c: seq<T>)
    requires IsPrefix(a, b) && IsPrefix(b, c)
    ensures IsPrefix(a, c)
  {
    assert c[..|b|][..|a|] == c[..|a|];
  }

  predicate IsPrefix<T(==)>(a: seq<T>, b: seq<T>)
  {
    |a| <= |b| && a == b[..|a|]
  }

  /** Dedup keeps first occurrences in order: it is a subsequence of its input. */
  lemma {:induction false} DedupSubsequence<T>(xs: seq<T>)
    ensures IsSubsequence(Dedup(xs), xs)
    decreases |xs|
  {
    if |xs| > 0 {
      var init := xs[..|xs| - 1];
      DedupSubsequence(init);
      SubsequenceSnoc(Dedup(init), init, xs[|xs| - 1]);
      assert init + [xs[|xs| - 1]] == xs;
    }
  }

  lemma {:induction false} SubsequenceSnoc<T>(a: seq<T>, b: seq<T>, x: T)
    requires IsSubsequence(a, b)
    ensures IsSubsequence(a, b + [x]) && IsSubsequence(a + [x], b + [x])
    decreases |b|
  {
    if |a| == 0 {
      SubsequenceRefl([x]);
      SubsequenceSkipFront(b, [x]);
      assert a + [x] == [x];
    } else if a[0] == b[0] && IsSubsequence(a[1..], b[1..]) {
      SubsequenceSnoc(a[1..], b[1..], x);
      assert (b + [x])[1..] == b[1..] + [x];
      assert (a + [x])[1..] == a[1..] + [x];
    } else {
      SubsequenceSnoc(a, b[1..], x);
      assert (b + [x])[1..] == b[1..] + [x];
    }
  }

  /** Any suffix of a sequence is a subsequence of the sequence extended in front. */
  lemma {:induction false} SubsequenceSkipFront<T>(front: seq<T>, s: seq<T>)
    requires IsSubsequence(s, s)
    ensures IsSubsequence(s, front + s)
    decreases |front|
  {
    if |front| > 0 {
      SubsequenceSkipFront(front[1..], s);
      assert (front + s)[1..] == front[1..] + s;
    } else {
      assert front + s == s;
    }
  }

  /** Deleting one element leaves a subsequence. */
  lemma {:induction false} SubsequenceDropOne<T>(xs: seq<T>, k: int)
    requires 0 <= k < |xs|
    ensures IsSubsequence(xs[..k] + xs[k + 1..], xs)
    decreases k
  {
    if k == 0 {
      assert xs[..k] + xs[k + 1..] == xs[1..];
      SubsequenceRefl(xs[1..]);
    } else {
      SubsequenceDropOne(xs[1..], k - 1);
      assert xs[1..][..k - 1] + xs[1..][k..] == (xs[..k] + xs[k + 1..])[1..];
    }
  }

  /** A prefix of a subsequence is a subsequence. */
  lemma {:induction false} SubsequencePrefix<T>(a: seq<T>, b: seq<T>, k: int)
    requires IsSubsequence(a, b) && 0 <= k <= |a|
    ensures IsSubsequence(a[..k], b)
    decreases |b|
  {
    if k > 0 {
      if a[0] == b[0] && IsSubsequence(a[1..], b[1..]) {
        SubsequencePrefix(a[1..], b[1..], k - 1);
        assert a[..k][1..] == a[1..][..k - 1];
      } else {
        SubsequencePrefix(a, b[1..], k);
      }
    }
  }

  /** Index of the first element equal to `x`, or -1 (`list.index` without the
      exception). */
  function IndexOf<T(==)>(xs: seq<T>, x: T): (k: int)
    ensures -1 <= k < |xs|
    ensures k == -1 <==> x !in xs
    ensures 0 <= k ==> xs[k] == x && x !in xs[..k]
    decreases |xs|
  {
    if |xs| == 0 then -1
    else if xs[0] == x then 0
    else
      var k := IndexOf(xs[1..], x);
      assert xs[1..][..Max(k, 0)] == xs[1..Max(k, 0) + 1];
      if k == -1 then -1 else k + 1
  }

  /** `xs.remove(x)` when present, the list unchanged otherwise. */
  function RemoveFirst<T(==)>(xs: seq<T>, x: T): (r: seq<T>)
    ensures x in xs ==> |r| == |xs| - 1
    ensures x !in xs ==> r == xs
  {
    var k := IndexOf(xs, x);
    if k == -1 then xs else xs[..k] + xs[k + 1..]
  }
}
