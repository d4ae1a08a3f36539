/** Sequence helpers shared by the handlers: filtering, limits, tallies and sorting. */
module Seqs {

  // ---------------------------------------------------------------- filtering

  /** The elements of `s` that satisfy `p`, in their original order. */
  function Filter<T>(s: seq<T>, p: T -> bool): (r: seq<T>)
    ensures |r| <= |s|
    ensures forall i :: 0 <= i < |r| ==> p(r[i]) && r[i] in s
    ensures forall i :: 0 <= i < |s| && p(s[i]) ==> s[i] in r
  {
    if |s| == 0 then []
    else
      var init := Filter(s[..|s| - 1], p);
      var last := s[|s| - 1];
      assert forall i :: 0 <= i < |s| - 1 ==> s[i] == s[..|s| - 1][i];
      init + (if p(last) then [last] else [])
  }

  lemma {:induction false} FilterAppend<T>(a: seq<T>, b: seq<T>, p: T -> bool)
    ensures Filter(a + b, p) == Filter(a, p) + Filter(b, p)
    decreases |b|
  {
    if |b| == 0 {
      assert a + b == a;
    } else {
      var b' := b[..|b| - 1];
      assert (a + b)[..|a + b| - 1] == a + b';
      FilterAppend(a, b', p);
    }
  }

  /** Filtering keeps exactly the occurrences that satisfy `p`. */
  lemma {:induction false} FilterMultiset<T>(s: seq<T>, p: T -> bool, x: T)
    ensures multiset(Filter(s, p))[x] == if p(x) then multiset(s)[x] else 0
    decreases |s|
  {
    if |s| > 0 {
      FilterMultiset(s[..|s| - 1], p, x);
      assert s == s[..|s| - 1] + [s[|s| - 1]];
    }
  }

  lemma AppendAssoc<T>(a: seq<T>, b: seq<T>, c: seq<T>)
    ensures a + (b + c) == (a + b) + c
  {
  }

  /** One step of a filtering loop over `s`. */
  lemma FilterStep<T>(s: seq<T>, i: int, p: T -> bool)
    requires 0 <= i < |s|
    ensures Filter(s[..i + 1], p) == Filter(s[..i], p) + (if p(s[i]) then [s[i]] else [])
  {
    assert s[..i + 1][..i] == s[..i];
  }

  /** The concatenation of `f(x)` over the elements `x` of `s`, in order: a loop that appends each element's contribution. */
  function FlatMap<T, U>(s: seq<T>, f: T -> seq<U>): seq<U> {
    if |s| == 0 then [] else FlatMap(s[..|s| - 1], f) + f(s[|s| - 1])
  }

  lemma {:induction false} FlatMapAppend<T, U>(a: seq<T>, b: seq<T>, f: T -> seq<U>)
    ensures FlatMap(a + b, f) == FlatMap(a, f) + FlatMap(b, f)
    decreases |b|
  {
    if |b| == 0 {
      assert a + b == a;
    } else {
      var b' := b[..|b| - 1];
      assert (a + b)[..|a + b| - 1] == a + b';
      FlatMapAppend(a, b', f);
    }
  }

  /** One step of a loop that appends each element's contribution. */
  lemma FlatMapStep<T, U>(s: seq<T>, i: int, f: T -> seq<U>)
    requires 0 <= i < |s|
    ensures FlatMap(s[..i + 1], f) == FlatMap(s[..i], f) + f(s[i])
  {
    assert s[..i + 1][..i] == s[..i];
  }

  /** Everything in a concatenation comes from some element's contribution. */
  lemma {:induction false} FlatMapMember<T, U>(s: seq<T>, f: T -> seq<U>, y: U)
    requires y in FlatMap(s, f)
    ensures exists i :: 0 <= i < |s| && y in f(s[i])
    decreases |s|
  {
    var init := s[..|s| - 1];
    if y in FlatMap(init, f) {
      FlatMapMember(init, f, y);
      var i :| 0 <= i < |init| && y in f(init[i]);
      assert init[i] == s[i];
    } else {
      assert y in f(s[|s| - 1]);
    }
  }

  /** An element that contributes nothing can be dropped from the middle of the sequence. */
  lemma FlatMapSkip<T, U>(a: seq<T>, x: T, b: seq<T>, f: T -> seq<U>)
    requires f(x) == []
    ensures FlatMap(a + [x] + b, f) == FlatMap(a, f) + FlatMap(b, f)
  {
    FlatMapAppend(a + [x], b, f);
    FlatMapAppend(a, [x], f);
    assert FlatMap([x], f) == FlatMap([], f) + f(x) by { assert [x][..0] == []; }
  }

  /** Go's `if limit > 0 && len(items) > limit { items = items[:limit] }`. */
  function Limit<T>(s: seq<T>, limit: int): (r: seq<T>)
    ensures r <= s
    ensures |r| == if 0 < limit < |s| then limit else |s|
  {
    if limit > 0 && |s| > limit then s[..limit] else s
  }

  /** Whatever the first `limit` elements of a rearrangement of `xs` hold comes from `xs`. */
  lemma LimitedPermutationMember<T>(sorted: seq<T>, xs: seq<T>, limit: int, t: T)
    requires multiset(sorted) == multiset(xs) && t in Limit(sorted, limit)
    ensures t in xs
  {
    assert t in sorted;
    assert t in multiset(sorted);
  }

  /** The last `n` elements of `s` (all of them when there are fewer; none when `n <= 0`). */
  function LastN<T>(s: seq<T>, n: int): (r: seq<T>)
    ensures |r| == if n <= 0 then 0 else if |s| <= n then |s| else n
  {
    if n <= 0 then [] else if |s| <= n then s else s[|s| - n..]
  }

  /** One step of a sliding window: append, then drop the oldest element once there are more than `n`. */
  lemma LastNStep<T>(s: seq<T>, x: T, n: int)
    ensures LastN(s + [x], n) == var w := LastN(s, n) + [x]; if |w| > n then w[1..] else w
  {
    var w := LastN(s, n) + [x];
    if n > 0 && |s| >= n {
      assert LastN(s + [x], n) == (s + [x])[|s| + 1 - n..];
      assert w[1..] == (s + [x])[|s| + 1 - n..];
    }
  }

  /** The sliding-window loop `w = append(w, x); if len(w) > n { w = w[1:] }` over `s`. */
  method SlideWindow<T>(s: seq<T>, n: int) returns (w: seq<T>)
    ensures w == LastN(s, n)
  {
    w := [];
    for i := 0 to |s|
      invariant w == LastN(s[..i], n)
    {
      assert s[..i + 1] == s[..i] + [s[i]];
      LastNStep(s[..i], s[i], n);
      w := w + [s[i]];
      if |w| > n {
        w := w[1..];
      }
    }
    assert s[..|s|] == s;
  }

  predicate NoDup<T(==)>(s: seq<T>) {
    forall i, j :: 0 <= i < j < |s| ==> s[i] != s[j]
  }

  lemma {:induction false} NoDupCount<T>(s: seq<T>, x: T)
    requires NoDup(s)
    ensures multiset(s)[x] <= 1
  {
    if |s| > 0 {
      assert s == [s[0]] + s[1..];
      NoDupCount(s[1..], x);
      if s[0] == x {
        assert x !in s[1..];
      }
    }
  }

  /** A permutation of a sequence without duplicates has none either. */
  lemma NoDupPermutation<T>(s: seq<T>, r: seq<T>)
    requires NoDup(s) && multiset(r) == multiset(s)
    ensures NoDup(r)
  {
    forall i, j | 0 <= i < j < |r| ensures r[i] != r[j] {
      if r[i] == r[j] {
        assert r == r[..j] + r[j..];
        assert r[i] in r[..j] && r[j] in r[j..];
        assert multiset(r)[r[i]] >= 2;
        NoDupCount(s, r[i]);
      }
    }
  }

  /** The elements of a Go map's key set or of a `map[T]bool` set, in the order a range over it picks (unspecified). */
  method Elements<T>(s: set<T>) returns (r: seq<T>)
    ensures |r| == |s|
    ensures NoDup(r)
    ensures forall x :: x in r <==> x in s
  {
    r := [];
    var todo := s;
    ghost var done: set<T> := {};
    while todo != {}
      invariant todo + done == s && todo !! done
      invariant |r| == |done| && NoDup(r)
      invariant forall x :: x in r <==> x in done
      decreases |todo|
    {
      var x :| x in todo;
      r := r + [x];
      todo := todo - {x};
      done := done + {x};
    }
  }

  // ---------------------------------------------------------------- tallies

  /** The tally `counts[x]++` over `s`: one key per distinct element, holding its number of occurrences. */
  method Tally<T>(s: seq<T>) returns (counts: map<T, nat>)
    ensures counts.Keys == set x | x in s
    ensures forall x :: x in counts ==> counts[x] == multiset(s)[x]
  {
    counts := map[];
    for i := 0 to |s|
      invariant counts.Keys == set x | x in s[..i]
      invariant forall x :: x in counts ==> counts[x] == multiset(s[..i])[x]
    {
      assert s[..i + 1] == s[..i] + [s[i]];
      var n := if s[i] in counts then counts[s[i]] else 0;
      counts := counts[s[i] := n + 1];
    }
    assert s[..|s|] == s;
  }

  // ---------------------------------------------------------------- sorting

  /** A comparator that `sort.Slice` can rely on: irreflexive and transitive. */
  ghost predicate StrictOrder<T(!new)>(less: (T, T) -> bool) {
    (forall x :: !less(x, x)) &&
    (forall x, y, z :: less(x, y) && less(y, z) ==> less(x, z))
  }

  /**
   * A comparator under which being incomparable is itself transitive: what
   * Go's `sort` needs for its result to be sorted.
   */
  ghost predicate StrictWeakOrder<T(!new)>(less: (T, T) -> bool) {
    StrictOrder(less) &&
    (forall x, y, z :: !less(x, y) && !less(y, x) && !less(y, z) && !less(z, y) ==> !less(x, z) && !less(z, x))
  }

  /** No element is strictly smaller than an element before it. */
  ghost predicate SortedBy<T>(s: seq<T>, less: (T, T) -> bool) {
    forall i, j :: 0 <= i < j < |s| ==> !less(s[j], s[i])
  }

  lemma InsertKeepsSorted<T(!new)>(r: seq<T>, j: nat, x: T, less: (T, T) -> bool)
    requires StrictOrder(less) && SortedBy(r, less) && j <= |r|
    requires forall k :: 0 <= k < j ==> !less(x, r[k])
    requires j < |r| ==> less(x, r[j])
    ensures SortedBy(r[..j] + [x] + r[j..], less)
  {
    var t := r[..j] + [x] + r[j..];
    forall a, b | 0 <= a < b < |t| ensures !less(t[b], t[a]) {
      if a < j && b == j {
      } else if a == j && b > j {
        assert t[b] == r[b - 1];
      } else if a < j && b > j {
        assert t[a] == r[a] && t[b] == r[b - 1];
      } else if b < j {
        assert t[a] == r[a] && t[b] == r[b];
      } else {
        assert t[a] == r[a - 1] && t[b] == r[b - 1];
      }
    }
  }

  /**
   * `sort.Slice(s, less)`. Go's sort is not stable; any sorted permutation is a
   * possible outcome, and this insertion sort produces one of them.
   */
  method SortBy<T(!new)>(s: seq<T>, less: (T, T) -> bool) returns (r: seq<T>)
    requires StrictOrder(less)
    ensures multiset(r) == multiset(s)
    ensures SortedBy(r, less)
  {
    r := [];
    for i := 0 to |s|
      invariant multiset(r) == multiset(s[..i])
      invariant SortedBy(r, less)
    {
      var x := s[i];
      var j := 0;
      while j < |r| && !less(x, r[j])
        invariant 0 <= j <= |r|
        invariant forall k :: 0 <= k < j ==> !less(x, r[k])
      {
        j := j + 1;
      }
      InsertKeepsSorted(r, j, x, less);
      assert r == r[..j] + r[j..];
      assert s[..i + 1] == s[..i] + [x];
      r := r[..j] + [x] + r[j..];
    }
    assert s[..|s|] == s;
  }
}
