/** Stable ascending sort on an integer key: lodash `_.sortBy(s, key)`, and
    `Array.prototype.sort` with a numeric comparator (stable since ES2019). */
module Sorting {
  import opened Seqs

  predicate SortedBy<T>(s: seq<T>, key: T -> int)
  {
    forall i, j :: 0 <= i < j < |s| ==> key(s[i]) <= key(s[j])
  }

  /** Puts `x` before the first element whose key is not smaller. */
  function Insert<T>(x: T, s: seq<T>, key: T -> int): (r: seq<T>)
    ensures |r| == |s| + 1
    ensures multiset(r) == multiset(s) + multiset{x}
    decreases |s|
  {
    if |s| == 0 || key(x) <= key(s[0]) then [x] + s
    else
      assert s == [s[0]] + s[1..];
      [s[0]] + Insert(x, s[1..], key)
  }

  lemma {:induction false} InsertSorted<T>(x: T, s: seq<T>, key: T -> int)
    requires SortedBy(s, key)
    ensures SortedBy(Insert(x, s, key), key)
    decreases |s|
  {
    if |s| > 0 && key(x) > key(s[0]) {
      var rest := Insert(x, s[1..], key);
      InsertSorted(x, s[1..], key);
      forall j | 0 <= j < |rest|
        ensures key(s[0]) <= key(rest[j])
      {
        assert rest[j] in multiset(rest);
        assert rest[j] == x || rest[j] in multiset(s[1..]);
        if rest[j] != x {
          var i :| 0 <= i < |s[1..]| && s[1..][i] == rest[j];
          assert s[i + 1] == rest[j];
        }
      }
      var r := [s[0]] + rest;
      assert r == Insert(x, s, key);
      forall i, j | 0 <= i < j < |r|
        ensures key(r[i]) <= key(r[j])
      {
        if i > 0 {
          assert r[i] == rest[i - 1] && r[j] == rest[j - 1];
        }
      }
    }
  }

  /** Insertion sort, inserting elements from the back, so that of two equal
      keys the earlier element ends up first. */
  function SortBy<T>(s: seq<T>, key: T -> int): (r: seq<T>)
    ensures |r| == |s|
    ensures multiset(r) == multiset(s)
    ensures SortedBy(r, key)
  {
    if |s| == 0 then []
    else
      assert s == [s[0]] + s[1..];
      InsertSorted(s[0], SortBy(s[1..], key), key);
      Insert(s[0], SortBy(s[1..], key), key)
  }

  /** Two lists of which at least one is empty commute in front of a third. */
  lemma SwapEmpty<T>(a: seq<T>, b: seq<T>, c: seq<T>)
    requires a == [] || b == []
    ensures a + (b + c) == b + (a + c)
  {
  }

  /** Inserting never reorders elements that share a key. */
  lemma {:induction false} InsertKeepsKeyOrder<T>(x: T, t: seq<T>, key: T -> int, k: int)
    ensures Filter(Insert(x, t, key), Matches(key, k)) == Filter([x] + t, Matches(key, k))
    decreases |t|
  {
    var m := Matches(key, k);
    if |t| > 0 && key(x) > key(t[0]) {
      var t0, t' := t[0], t[1..];
      var rest := Insert(x, t', key);
      var fx := if m(x) then [x] else [];
      var f0 := if m(t0) then [t0] else [];
      calc {
        Filter(Insert(x, t, key), m);
      == { assert Insert(x, t, key) == [t0] + rest; }
        Filter([t0] + rest, m);
      == { FilterCons(t0, rest, m); }
        f0 + Filter(rest, m);
      == { InsertKeepsKeyOrder(x, t', key, k); }
        f0 + Filter([x] + t', m);
      == { FilterCons(x, t', m); }
        f0 + (fx + Filter(t', m));
      == { SwapEmpty(f0, fx, Filter(t', m)); }  // t0 sorts strictly before x: not both have key k
        fx + (f0 + Filter(t', m));
      == { assert t == [t0] + t'; FilterCons(t0, t', m); }
        fx + Filter(t, m);
      == { FilterCons(x, t, m); }
        Filter([x] + t, m);
      }
    }
  }

  /** The sort is stable: elements with equal keys keep their input order. */
  lemma {:induction false} SortByStable<T>(s: seq<T>, key: T -> int, k: int)
    ensures Filter(SortBy(s, key), Matches(key, k)) == Filter(s, Matches(key, k))
    decreases |s|
  {
    if |s| > 0 {
      var m := Matches(key, k);
      SortByStable(s[1..], key, k);
      InsertKeepsKeyOrder(s[0], SortBy(s[1..], key), key, k);
      FilterCons(s[0], SortBy(s[1..], key), m);
      FilterCons(s[0], s[1..], m);
      assert s == [s[0]] + s[1..];
    }
  }
}
