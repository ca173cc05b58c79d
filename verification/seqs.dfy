/** Folds and list edits over sequences, in the shape the dashboard writes them:
    `reduce` sums, `filter`, `map` and `splice`. `Sum` and `Filter` recurse on
    the LAST element, so they are literally the left folds JavaScript runs. */
module Seqs {

  /** `s.reduce((acc, x) => acc + f(x), 0)`. Reals are exact, so the order of
      the additions is irrelevant to the value. */
  function Sum<T>(s: seq<T>, f: T -> real): real
  {
    if |s| == 0 then 0.0 else Sum(s[..|s| - 1], f) + f(s[|s| - 1])
  }

  /** `s.filter(p)`: the elements satisfying `p`, in their original order. */
  function Filter<T>(s: seq<T>, p: T -> bool): (r: seq<T>)
    ensures |r| <= |s|
    ensures forall i :: 0 <= i < |r| ==> r[i] in s && p(r[i])
    ensures forall i :: 0 <= i < |s| && p(s[i]) ==> s[i] in r
  {
    if |s| == 0 then []
    else
      var init := Filter(s[..|s| - 1], p);
      assert s == s[..|s| - 1] + [s[|s| - 1]];
      if p(s[|s| - 1]) then init + [s[|s| - 1]] else init
  }

  /** `s.map(h)`. */
  function Map<A, B>(s: seq<A>, h: A -> B): (r: seq<B>)
    ensures |r| == |s|
    ensures forall i :: 0 <= i < |s| ==> r[i] == h(s[i])
  {
    if |s| == 0 then [] else Map(s[..|s| - 1], h) + [h(s[|s| - 1])]
  }

  /** The predicate `x => key(x) === k`. */
  function Matches<T, K(==)>(key: T -> K, k: K): T -> bool
  {
    x => key(x) == k
  }

  function Not<T>(p: T -> bool): T -> bool
  {
    x => !p(x)
  }

  function Both<T>(p: T -> bool, q: T -> bool): T -> bool
  {
    x => p(x) && q(x)
  }

  function Compose<A, B>(h: A -> B, f: B -> real): A -> real
  {
    x => f(h(x))
  }

  /** `a` is `b` with some elements deleted: an order-preserving subsequence.
      Matching greedily from the end decides it. */
  predicate Subseq<T(==)>(a: seq<T>, b: seq<T>)
    decreases |b|
  {
    if |a| == 0 then true
    else if |b| == 0 then false
    else if a[|a| - 1] == b[|b| - 1] then Subseq(a[..|a| - 1], b[..|b| - 1])
    else Subseq(a, b[..|b| - 1])
  }

  /** Start index of `Array.prototype.splice(index, 1)` on a list of length `len`:
      a negative index counts from the end and both ends are clamped. */
  function SpliceStart(len: nat, index: int): (start: nat)
    ensures start <= len
  {
    if index < 0 then (if len + index < 0 then 0 else len + index)
    else if index > len then len
    else index
  }

  /** The list left behind by `s.splice(index, 1)`. */
  function SpliceOne<T>(s: seq<T>, index: int): (r: seq<T>)
    ensures 0 <= index < |s| ==> r == s[..index] + s[index + 1..]
    ensures -|s| <= index < 0 ==> r == s[..|s| + index] + s[|s| + index + 1..]
    ensures index < -|s| && |s| > 0 ==> r == s[1..]
    ensures index >= |s| ==> r == s
    ensures -|s| <= index < |s| ==> |r| == |s| - 1
  {
    var start := SpliceStart(|s|, index);
    if start == |s| then s else s[..start] + s[start + 1..]
  }

  // ---------------------------------------------------------------------------
  // Sums

  /** One more element adds its term. */
  lemma SumSnoc<T>(s: seq<T>, x: T, f: T -> real)
    ensures Sum(s + [x], f) == Sum(s, f) + f(x)
  {
    assert (s + [x])[..|s|] == s;
  }

  lemma {:induction false} SumAppend<T>(a: seq<T>, b: seq<T>, f: T -> real)
    ensures Sum(a + b, f) == Sum(a, f) + Sum(b, f)
    decreases |b|
  {
    if |b| == 0 {
      assert a + b == a;
    } else {
      var b' := b[..|b| - 1];
      assert (a + b)[..|a + b| - 1] == a + b';
      SumAppend(a, b', f);
    }
  }

  lemma {:induction false} SumExt<T>(s: seq<T>, f: T -> real, g: T -> real)
    requires forall x :: x in s ==> f(x) == g(x)
    ensures Sum(s, f) == Sum(s, g)
    decreases |s|
  {
    if |s| > 0 {
      var s' := s[..|s| - 1];
      assert forall x :: x in s' ==> x in s;
      SumExt(s', f, g);
    }
  }

  lemma {:induction false} SumNonNegative<T>(s: seq<T>, f: T -> real)
    requires forall x :: x in s ==> f(x) >= 0.0
    ensures Sum(s, f) >= 0.0
    decreases |s|
  {
    if |s| > 0 {
      var s' := s[..|s| - 1];
      assert forall x :: x in s' ==> x in s;
      SumNonNegative(s', f);
    }
  }

  /** A sum of non-negative terms is zero exactly when every term is. */
  lemma {:induction false} SumZeroIff<T>(s: seq<T>, f: T -> real)
    requires forall x :: x in s ==> f(x) >= 0.0
    ensures Sum(s, f) == 0.0 <==> forall x :: x in s ==> f(x) == 0.0
    decreases |s|
  {
    if |s| > 0 {
      var s' := s[..|s| - 1];
      assert s == s' + [s[|s| - 1]];
      assert forall x :: x in s' ==> x in s;
      SumZeroIff(s', f);
      SumNonNegative(s', f);
    }
  }

  /** Summing a pointwise difference is the difference of the sums. */
  lemma {:induction false} SumDifference<T>(s: seq<T>, f: T -> real, g: T -> real, h: T -> real)
    requires forall x :: x in s ==> h(x) == f(x) - g(x)
    ensures Sum(s, h) == Sum(s, f) - Sum(s, g)
    decreases |s|
  {
    if |s| > 0 {
      var s' := s[..|s| - 1];
      assert forall x :: x in s' ==> x in s;
      SumDifference(s', f, g, h);
    }
  }

  /** Summing a constant 1 counts the elements. */
  lemma {:induction false} SumOnes<T>(s: seq<T>, f: T -> real)
    requires forall x :: x in s ==> f(x) == 1.0
    ensures Sum(s, f) == |s| as real
    decreases |s|
  {
    if |s| > 0 {
      var s' := s[..|s| - 1];
      assert forall x :: x in s' ==> x in s;
      SumOnes(s', f);
    }
  }

  /** Replacing one element changes the sum by exactly the difference of its terms. */
  lemma SumUpdate<T>(s: seq<T>, i: nat, y: T, f: T -> real)
    requires i < |s|
    ensures Sum(s[i := y], f) == Sum(s, f) - f(s[i]) + f(y)
  {
    assert s == s[..i] + [s[i]] + s[i + 1..];
    assert s[i := y] == s[..i] + [y] + s[i + 1..];
    SumAppend(s[..i] + [s[i]], s[i + 1..], f);
    SumAppend(s[..i], [s[i]], f);
    SumAppend(s[..i] + [y], s[i + 1..], f);
    SumAppend(s[..i], [y], f);
  }

  /** Removing one element takes exactly its term out of the sum. */
  lemma SumRemove<T>(a: seq<T>, x: T, b: seq<T>, f: T -> real)
    ensures Sum(a + b, f) == Sum(a + [x] + b, f) - f(x)
  {
    SumAppend(a + [x], b, f);
    SumAppend(a, [x], f);
    SumAppend(a, b, f);
    assert Sum([x], f) == f(x);
  }

  lemma {:induction false} SumMap<A, B>(s: seq<A>, h: A -> B, f: B -> real)
    ensures Sum(Map(s, h), f) == Sum(s, Compose(h, f))
    decreases |s|
  {
    if |s| > 0 {
      var s' := s[..|s| - 1];
      assert Map(s, h)[..|s| - 1] == Map(s', h);
      SumMap(s', h, f);
    }
  }

  /** Splitting by a predicate splits the sum. */
  lemma {:induction false} SumFilterSplit<T>(s: seq<T>, p: T -> bool, f: T -> real)
    ensures Sum(s, f) == Sum(Filter(s, p), f) + Sum(Filter(s, Not(p)), f)
    decreases |s|
  {
    if |s| > 0 {
      var s' := s[..|s| - 1];
      var x := s[|s| - 1];
      SumFilterSplit(s', p, f);
      if p(x) {
        SumAppend(Filter(s', p), [x], f);
      } else {
        SumAppend(Filter(s', Not(p)), [x], f);
      }
    }
  }

  /** Three mutually exclusive predicates covering `s` split its sum three ways. */
  lemma {:induction false} SumFilter3<T>(s: seq<T>, p: T -> bool, q: T -> bool, u: T -> bool, f: T -> real)
    requires forall x :: x in s ==> (p(x) && !q(x) && !u(x)) || (!p(x) && q(x) && !u(x)) || (!p(x) && !q(x) && u(x))
    ensures Sum(s, f) == Sum(Filter(s, p), f) + Sum(Filter(s, q), f) + Sum(Filter(s, u), f)
    ensures |s| == |Filter(s, p)| + |Filter(s, q)| + |Filter(s, u)|
    decreases |s|
  {
    if |s| > 0 {
      var s' := s[..|s| - 1];
      var x := s[|s| - 1];
      assert forall y :: y in s' ==> y in s;
      SumFilter3(s', p, q, u, f);
      if p(x) {
        SumAppend(Filter(s', p), [x], f);
      } else if q(x) {
        SumAppend(Filter(s', q), [x], f);
      } else {
        SumAppend(Filter(s', u), [x], f);
      }
    }
  }

  /** Summing over the kept elements is summing a term that is zero on the
      dropped ones. */
  lemma {:induction false} SumFilterMask<T>(s: seq<T>, p: T -> bool, f: T -> real, g: T -> real)
    requires forall x :: g(x) == (if p(x) then f(x) else 0.0)
    ensures Sum(Filter(s, p), f) == Sum(s, g)
    decreases |s|
  {
    if |s| > 0 {
      var s' := s[..|s| - 1];
      var x := s[|s| - 1];
      SumFilterMask(s', p, f, g);
      if p(x) {
        SumSnoc(Filter(s', p), x, f);
      }
    }
  }

  // ---------------------------------------------------------------------------
  // Filters

  lemma {:induction false} FilterAppend<T>(a: seq<T>, b: seq<T>, p: T -> bool)
    ensures Filter(a + b, p) == Filter(a, p) + Filter(b, p)
    decreases |b|
  {
    if |b| == 0 {
      assert a + b == a;
    } else {
      var b' := b[..|b| - 1];
      assert (a + b)[..|a + b| - 1] == a + b';
      FilterAppend(a, b', p);
    }
  }

  /** A filter that keeps every element is the identity. */
  /** Filtering a prefix gives a prefix of the filtered sequence. */
  lemma FilterPrefix<T>(s: seq<T>, n: nat, p: T -> bool)
    requires n <= |s|
    ensures Filter(s[..n], p) <= Filter(s, p)
  {
    assert s == s[..n] + s[n..];
    FilterAppend(s[..n], s[n..], p);
  }

  lemma {:induction false} FilterAll<T>(s: seq<T>, p: T -> bool)
    requires forall x :: x in s ==> p(x)
    ensures Filter(s, p) == s
    decreases |s|
  {
    if |s| > 0 {
      var s' := s[..|s| - 1];
      assert forall x :: x in s' ==> x in s;
      FilterAll(s', p);
      assert s == s' + [s[|s| - 1]];
    }
  }

  /** A filter that keeps nothing is empty. */
  lemma FilterNone<T>(s: seq<T>, p: T -> bool)
    requires forall x :: x in s ==> !p(x)
    ensures Filter(s, p) == []
  {
  }

  lemma FilterIdempotent<T>(s: seq<T>, p: T -> bool)
    ensures Filter(Filter(s, p), p) == Filter(s, p)
  {
    FilterAll(Filter(s, p), p);
  }

  /** Filters with predicates that agree on `s` agree. */
  lemma {:induction false} FilterExt<T>(s: seq<T>, p: T -> bool, q: T -> bool)
    requires forall x :: x in s ==> p(x) == q(x)
    ensures Filter(s, p) == Filter(s, q)
    decreases |s|
  {
    if |s| > 0 {
      var s' := s[..|s| - 1];
      assert forall x :: x in s' ==> x in s;
      FilterExt(s', p, q);
    }
  }

  /** Two filter stages in a row are one filter by the conjunction. */
  lemma {:induction false} FilterFilter<T>(s: seq<T>, p: T -> bool, q: T -> bool)
    ensures Filter(Filter(s, p), q) == Filter(s, Both(p, q))
    decreases |s|
  {
    if |s| > 0 {
      var s' := s[..|s| - 1];
      var x := s[|s| - 1];
      FilterFilter(s', p, q);
      if p(x) {
        var fp := Filter(s', p);
        assert (fp + [x])[..|fp + [x]| - 1] == fp;
      }
    }
  }

  lemma FilterSingleton<T>(x: T, p: T -> bool)
    ensures Filter([x], p) == if p(x) then [x] else []
  {
    assert [x][..0] == [];
  }

  lemma FilterCons<T>(x: T, s: seq<T>, p: T -> bool)
    ensures Filter([x] + s, p) == (if p(x) then [x] else []) + Filter(s, p)
  {
    FilterAppend([x], s, p);
    FilterSingleton(x, p);
  }

  // ---------------------------------------------------------------------------
  // Subsequences

  lemma {:induction false} SubseqRefl<T>(s: seq<T>)
    ensures Subseq(s, s)
    decreases |s|
  {
    if |s| > 0 {
      SubseqRefl(s[..|s| - 1]);
    }
  }

  /** A subsequence of a prefix is a subsequence of the whole. */
  lemma {:induction false} SubseqExtend<T>(a: seq<T>, b: seq<T>)
    requires |b| > 0
    requires Subseq(a, b[..|b| - 1])
    ensures Subseq(a, b)
    decreases |a| + |b|, 1
  {
    if |a| > 0 && a[|a| - 1] == b[|b| - 1] {
      SubseqDropLast(a, b[..|b| - 1]);
    }
  }

  /** Dropping the last element keeps a subsequence a subsequence. */
  lemma {:induction false} SubseqDropLast<T>(a: seq<T>, b: seq<T>)
    requires |a| > 0
    requires Subseq(a, b)
    ensures Subseq(a[..|a| - 1], b)
    decreases |a| + |b|, 0
  {
    var b' := b[..|b| - 1];
    if a[|a| - 1] == b[|b| - 1] {
      if |a| > 1 {
        SubseqExtend(a[..|a| - 1], b);
      }
    } else {
      SubseqDropLast(a, b');
      if |a| > 1 {
        SubseqExtend(a[..|a| - 1], b);
      }
    }
  }

  lemma {:induction false} SubseqTransitive<T>(a: seq<T>, b: seq<T>, c: seq<T>)
    requires Subseq(a, b) && Subseq(b, c)
    ensures Subseq(a, c)
    decreases |c|
  {
    if |a| > 0 {
      var a' := a[..|a| - 1];
      var b' := b[..|b| - 1];
      var c' := c[..|c| - 1];
      if b[|b| - 1] == c[|c| - 1] {
        if a[|a| - 1] == b[|b| - 1] {
          SubseqTransitive(a', b', c');
        } else {
          SubseqTransitive(a, b', c');
          SubseqExtend(a, c);
        }
      } else {
        SubseqTransitive(a, b, c');
        SubseqExtend(a, c);
      }
    }
  }

  lemma {:induction false} FilterIsSubseq<T>(s: seq<T>, p: T -> bool)
    ensures Subseq(Filter(s, p), s)
    decreases |s|
  {
    if |s| > 0 {
      var s' := s[..|s| - 1];
      var x := s[|s| - 1];
      var r' := Filter(s', p);
      FilterIsSubseq(s', p);
      if p(x) {
        assert (r' + [x])[..|r'|] == r';
      } else {
        SubseqExtend(r', s);
      }
    }
  }
}
