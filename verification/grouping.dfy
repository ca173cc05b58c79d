/** Group-by: the distinct keys of a list in order of first appearance, and
    each key's group as the order-preserving filter of the list. This is the
    shape of `reduce` into an object keyed by a string id and of lodash
    `_.groupBy` followed by `.map`. */
module Grouping {
  import opened Wrappers
  import opened Seqs

  predicate Distinct<K(==)>(ks: seq<K>)
  {
    forall i, j :: 0 <= i < j < |ks| ==> ks[i] != ks[j]
  }

  function Keys<T, K(==)>(s: seq<T>, key: T -> K): (ks: seq<K>)
    ensures Distinct(ks)
    ensures forall i :: 0 <= i < |s| ==> key(s[i]) in ks
    ensures forall j :: 0 <= j < |ks| ==> exists i :: 0 <= i < |s| && key(s[i]) == ks[j]
  {
    if |s| == 0 then []
    else
      var init := Keys(s[..|s| - 1], key);
      var k := key(s[|s| - 1]);
      if k in init then init else init + [k]
  }

  /** The group of key `k`: the elements with that key, in input order. */
  function Group<T, K(==)>(s: seq<T>, key: T -> K, k: K): seq<T>
  {
    Filter(s, Matches(key, k))
  }

  /** Per key, the sum of `f` over its group. */
  function GroupSum<T, K(==)>(s: seq<T>, key: T -> K, f: T -> real): K -> real
  {
    k => Sum(Group(s, key, k), f)
  }

  /** Every listed key has a non-empty group, led by its first occurrence. */
  lemma GroupNonEmpty<T, K>(s: seq<T>, key: T -> K, k: K)
    requires k in Keys(s, key)
    ensures |Group(s, key, k)| > 0
  {
    var ks := Keys(s, key);
    var j :| 0 <= j < |ks| && ks[j] == k;
    var i :| 0 <= i < |s| && key(s[i]) == k;
    assert Matches(key, k)(s[i]);
  }

  /** Adding `c` to the term of one key adds `c` to a sum over distinct keys,
      when that key is listed. */
  lemma {:induction false} SumBump<K>(ks: seq<K>, g1: K -> real, g2: K -> real, k0: K, c: real)
    requires Distinct(ks)
    requires forall k :: k in ks ==> g1(k) == g2(k) + (if k == k0 then c else 0.0)
    ensures Sum(ks, g1) == Sum(ks, g2) + (if k0 in ks then c else 0.0)
    decreases |ks|
  {
    if |ks| > 0 {
      var ks' := ks[..|ks| - 1];
      assert forall k :: k in ks' ==> k in ks;
      assert ks == ks' + [ks[|ks| - 1]];
      assert ks[|ks| - 1] == k0 ==> k0 !in ks';
      SumBump(ks', g1, g2, k0, c);
    }
  }

  /** The group sums add up to the flat sum: grouping loses and duplicates nothing. */
  lemma {:induction false} PartitionSum<T, K>(s: seq<T>, key: T -> K, f: T -> real)
    ensures Sum(Keys(s, key), GroupSum(s, key, f)) == Sum(s, f)
    decreases |s|
  {
    if |s| > 0 {
      var s' := s[..|s| - 1];
      var x := s[|s| - 1];
      var kx := key(x);
      var ks' := Keys(s', key);
      PartitionSum(s', key, f);
      forall k | k in ks'
        ensures GroupSum(s, key, f)(k) == GroupSum(s', key, f)(k) + (if k == kx then f(x) else 0.0)
      {
        if k == kx {
          SumAppend(Group(s', key, k), [x], f);
        }
      }
      SumBump(ks', GroupSum(s, key, f), GroupSum(s', key, f), kx, f(x));
      if kx !in ks' {
        forall y | y in s'
          ensures !Matches(key, kx)(y)
        {
        }
        FilterNone(s', Matches(key, kx));
        assert Group(s, key, kx) == [x];
      }
    }
  }

  /** Per key, the size of its group. */
  function GroupSize<T, K(==)>(s: seq<T>, key: T -> K): K -> real
  {
    k => |Group(s, key, k)| as real
  }

  function One<T>(x: T): real
  {
    1.0
  }

  /** The group sizes add up to the length of the list. */
  lemma PartitionCount<T, K>(s: seq<T>, key: T -> K)
    ensures Sum(Keys(s, key), GroupSize(s, key)) == |s| as real
  {
    var ks := Keys(s, key);
    forall k | k in ks
      ensures GroupSize(s, key)(k) == GroupSum(s, key, One)(k)
    {
      SumOnes(Group(s, key, k), One);
    }
    SumExt(ks, GroupSize(s, key), GroupSum(s, key, One));
    PartitionSum(s, key, One);
    SumOnes(s, One);
  }

  // ---------------------------------------------------------------------------
  // The keyed fold: `s.reduce((acc, x) => { acc[key(x)] ??= open(x);
  // acc[key(x)] = add(acc[key(x)], x); return acc }, {})` read back in
  // insertion order.

  /** `acc[k]`: the position of the row whose key is `k`, if there is one. */
  function FindKey<R, K(==)>(rows: seq<R>, rowKey: R -> K, k: K): (r: Option<nat>)
    ensures r.Some? ==> r.value < |rows| && rowKey(rows[r.value]) == k
    ensures r.None? ==> forall i :: 0 <= i < |rows| ==> rowKey(rows[i]) != k
  {
    if |rows| == 0 then None
    else if rowKey(rows[0]) == k then Some(0)
    else
      match FindKey(rows[1..], rowKey, k)
      case None => None
      case Some(j) => Some(j + 1)
  }

  /** One step of the fold: open a row for an unseen key, then add `x` to it. */
  function Accumulate<T, R, K(==)>(rows: seq<R>, x: T, key: T -> K, rowKey: R -> K,
                                    open: T -> R, add: (R, T) -> R): seq<R>
  {
    match FindKey(rows, rowKey, key(x))
    case Some(j) => rows[j := add(rows[j], x)]
    case None => rows + [add(open(x), x)]
  }

  function GroupFold<T, R, K(==)>(s: seq<T>, key: T -> K, rowKey: R -> K,
                                   open: T -> R, add: (R, T) -> R): seq<R>
  {
    if |s| == 0 then []
    else Accumulate(GroupFold(s[..|s| - 1], key, rowKey, open, add), s[|s| - 1], key, rowKey, open, add)
  }

  /** `add` folded over `g`, starting from `row`. */
  function AddAll<T, R>(row: R, g: seq<T>, add: (R, T) -> R): R
  {
    if |g| == 0 then row else add(AddAll(row, g[..|g| - 1], add), g[|g| - 1])
  }

  /** The row a key's group should end up as: opened from its first element,
      then every element of the group added in order; `blank` stands for the
      row of a key that has no element. */
  function GroupRow<T, R, K(==)>(s: seq<T>, key: T -> K, open: T -> R, add: (R, T) -> R,
                                  blank: K -> R, k: K): R
  {
    var g := Group(s, key, k);
    if |g| == 0 then blank(k) else AddAll(open(g[0]), g, add)
  }

  /** Rows carry the key of the element that opened them, and adding keeps it. */
  ghost predicate KeyedRows<T(!new), R(!new), K>(key: T -> K, rowKey: R -> K, open: T -> R, add: (R, T) -> R)
  {
    && (forall x :: rowKey(open(x)) == key(x))
    && (forall r, x :: rowKey(add(r, x)) == rowKey(r))
  }

  lemma {:induction false} AddAllKey<T, R, K>(row: R, g: seq<T>, rowKey: R -> K, add: (R, T) -> R)
    requires forall r, x :: rowKey(add(r, x)) == rowKey(r)
    ensures rowKey(AddAll(row, g, add)) == rowKey(row)
    decreases |g|
  {
    if |g| > 0 {
      AddAllKey(row, g[..|g| - 1], rowKey, add);
    }
  }

  lemma GroupAppendOne<T, K>(s: seq<T>, x: T, key: T -> K, k: K)
    ensures Group(s + [x], key, k) == Group(s, key, k) + (if key(x) == k then [x] else [])
  {
    assert (s + [x])[..|s|] == s;
  }

  lemma GroupRowKey<T(!new), R(!new), K>(s: seq<T>, key: T -> K, rowKey: R -> K, open: T -> R,
                             add: (R, T) -> R, blank: K -> R, k: K)
    requires KeyedRows(key, rowKey, open, add)
    requires k in Keys(s, key)
    ensures rowKey(GroupRow(s, key, open, add, blank, k)) == k
  {
    var g := Group(s, key, k);
    GroupNonEmpty(s, key, k);
    assert Matches(key, k)(g[0]);
    AddAllKey(open(g[0]), g, rowKey, add);
  }

  lemma GroupRowExtend<T, R, K>(s: seq<T>, x: T, key: T -> K, open: T -> R,
                                add: (R, T) -> R, blank: K -> R)
    requires key(x) in Keys(s, key)
    ensures GroupRow(s + [x], key, open, add, blank, key(x)) == add(GroupRow(s, key, open, add, blank, key(x)), x)
  {
    var g := Group(s, key, key(x));
    GroupNonEmpty(s, key, key(x));
    GroupAppendOne(s, x, key, key(x));
    assert (g + [x])[0] == g[0];
    assert (g + [x])[..|g|] == g;
  }

  lemma GroupRowOpen<T, R, K>(s: seq<T>, x: T, key: T -> K, open: T -> R,
                              add: (R, T) -> R, blank: K -> R)
    requires key(x) !in Keys(s, key)
    ensures GroupRow(s + [x], key, open, add, blank, key(x)) == add(open(x), x)
  {
    forall y | y in s
      ensures !Matches(key, key(x))(y)
    {
    }
    FilterNone(s, Matches(key, key(x)));
    GroupAppendOne(s, x, key, key(x));
    var one := Group(s + [x], key, key(x));
    assert one == [x];
    assert one[..0] == [];
    assert AddAll(open(x), one, add) == add(AddAll(open(x), [], add), x);
  }

  lemma GroupRowOther<T, R, K>(s: seq<T>, x: T, key: T -> K, open: T -> R,
                               add: (R, T) -> R, blank: K -> R, k: K)
    requires key(x) != k
    ensures GroupRow(s + [x], key, open, add, blank, k) == GroupRow(s, key, open, add, blank, k)
  {
    GroupAppendOne(s, x, key, k);
  }

  /** The rows of the reference, one per distinct key in first-appearance order. */
  function GroupRows<T, R, K(==)>(s: seq<T>, key: T -> K, open: T -> R, add: (R, T) -> R,
                                   blank: K -> R): (rows: seq<R>)
    ensures |rows| == |Keys(s, key)|
  {
    Map(Keys(s, key), k => GroupRow(s, key, open, add, blank, k))
  }

  lemma GroupRowsKeys<T(!new), R(!new), K>(s: seq<T>, key: T -> K, rowKey: R -> K, open: T -> R,
                               add: (R, T) -> R, blank: K -> R)
    requires KeyedRows(key, rowKey, open, add)
    ensures forall i :: 0 <= i < |Keys(s, key)| ==>
      rowKey(GroupRows(s, key, open, add, blank)[i]) == Keys(s, key)[i]
  {
    var ks := Keys(s, key);
    forall i | 0 <= i < |ks|
      ensures rowKey(GroupRows(s, key, open, add, blank)[i]) == ks[i]
    {
      GroupRowKey(s, key, rowKey, open, add, blank, ks[i]);
    }
  }

  /** When the rows' keys are distinct, looking up the `j`-th key finds row `j`. */
  lemma {:induction false} FindDistinctKey<R, K>(rows: seq<R>, rowKey: R -> K, ks: seq<K>, j: nat)
    requires |rows| == |ks| && Distinct(ks) && j < |ks|
    requires forall i :: 0 <= i < |ks| ==> rowKey(rows[i]) == ks[i]
    ensures FindKey(rows, rowKey, ks[j]) == Some(j)
    decreases j
  {
    if j > 0 {
      assert rowKey(rows[0]) != ks[j];
      FindDistinctKey(rows[1..], rowKey, ks[1..], j - 1);
    }
  }

  lemma FindListedKey<T(!new), R(!new), K>(s: seq<T>, key: T -> K, rowKey: R -> K, open: T -> R,
                               add: (R, T) -> R, blank: K -> R, j: nat)
    requires KeyedRows(key, rowKey, open, add)
    requires j < |Keys(s, key)|
    ensures FindKey(GroupRows(s, key, open, add, blank), rowKey, Keys(s, key)[j]) == Some(j)
  {
    var rows := GroupRows(s, key, open, add, blank);
    var ks := Keys(s, key);
    GroupRowsKeys(s, key, rowKey, open, add, blank);
    FindDistinctKey(rows, rowKey, ks, j);
  }

  lemma ExtendListedGroup<T, R, K>(s: seq<T>, x: T, key: T -> K, open: T -> R,
                                   add: (R, T) -> R, blank: K -> R, j: nat)
    requires j < |Keys(s, key)| && Keys(s, key)[j] == key(x)
    ensures GroupRows(s, key, open, add, blank)[j := add(GroupRows(s, key, open, add, blank)[j], x)]
         == GroupRows(s + [x], key, open, add, blank)
  {
    var ks := Keys(s, key);
    var prev := GroupRows(s, key, open, add, blank);
    var next := GroupRows(s + [x], key, open, add, blank);
    assert (s + [x])[..|s|] == s;
    assert Keys(s + [x], key) == ks;
    var stepped := prev[j := add(prev[j], x)];
    forall i | 0 <= i < |ks|
      ensures stepped[i] == next[i]
    {
      if i == j {
        GroupRowExtend(s, x, key, open, add, blank);
      } else {
        GroupRowOther(s, x, key, open, add, blank, ks[i]);
      }
    }
  }

  lemma AppendNewGroup<T, R, K>(s: seq<T>, x: T, key: T -> K, open: T -> R,
                                add: (R, T) -> R, blank: K -> R)
    requires key(x) !in Keys(s, key)
    ensures GroupRows(s, key, open, add, blank) + [add(open(x), x)] == GroupRows(s + [x], key, open, add, blank)
  {
    var ks := Keys(s, key);
    var prev := GroupRows(s, key, open, add, blank);
    var next := GroupRows(s + [x], key, open, add, blank);
    assert (s + [x])[..|s|] == s;
    assert Keys(s + [x], key) == ks + [key(x)];
    var stepped := prev + [add(open(x), x)];
    forall i | 0 <= i < |ks| + 1
      ensures stepped[i] == next[i]
    {
      if i == |ks| {
        GroupRowOpen(s, x, key, open, add, blank);
      } else {
        GroupRowOther(s, x, key, open, add, blank, ks[i]);
      }
    }
  }

  lemma AccumulateListed<T(!new), R(!new), K>(s: seq<T>, x: T, key: T -> K, rowKey: R -> K, open: T -> R,
                                add: (R, T) -> R, blank: K -> R, j: nat)
    requires KeyedRows(key, rowKey, open, add)
    requires j < |Keys(s, key)| && Keys(s, key)[j] == key(x)
    ensures Accumulate(GroupRows(s, key, open, add, blank), x, key, rowKey, open, add)
         == GroupRows(s + [x], key, open, add, blank)
  {
    var rows := GroupRows(s, key, open, add, blank);
    FindListedKey(s, key, rowKey, open, add, blank, j);
    calc {
      Accumulate(rows, x, key, rowKey, open, add);
      rows[j := add(rows[j], x)];
      { ExtendListedGroup(s, x, key, open, add, blank, j); }
      GroupRows(s + [x], key, open, add, blank);
    }
  }

  lemma AccumulateNew<T(!new), R(!new), K>(s: seq<T>, x: T, key: T -> K, rowKey: R -> K, open: T -> R,
                                add: (R, T) -> R, blank: K -> R)
    requires KeyedRows(key, rowKey, open, add)
    requires key(x) !in Keys(s, key)
    ensures Accumulate(GroupRows(s, key, open, add, blank), x, key, rowKey, open, add)
         == GroupRows(s + [x], key, open, add, blank)
  {
    var rows := GroupRows(s, key, open, add, blank);
    GroupRowsKeys(s, key, rowKey, open, add, blank);
    calc {
      Accumulate(rows, x, key, rowKey, open, add);
      rows + [add(open(x), x)];
      { AppendNewGroup(s, x, key, open, add, blank); }
      GroupRows(s + [x], key, open, add, blank);
    }
  }

  lemma AccumulateStep<T(!new), R(!new), K>(s: seq<T>, x: T, key: T -> K, rowKey: R -> K, open: T -> R,
                                add: (R, T) -> R, blank: K -> R)
    requires KeyedRows(key, rowKey, open, add)
    ensures Accumulate(GroupRows(s, key, open, add, blank), x, key, rowKey, open, add)
         == GroupRows(s + [x], key, open, add, blank)
  {
    var ks := Keys(s, key);
    if key(x) in ks {
      var j :| 0 <= j < |ks| && ks[j] == key(x);
      AccumulateListed(s, x, key, rowKey, open, add, blank, j);
    } else {
      AccumulateNew(s, x, key, rowKey, open, add, blank);
    }
  }

  /** The keyed fold builds exactly one row per distinct key, in order of first
      appearance, and that row is its group folded from its first element. */
  lemma {:induction false} GroupFoldIsGroupRows<T(!new), R(!new), K>(s: seq<T>, key: T -> K, rowKey: R -> K,
                                                       open: T -> R, add: (R, T) -> R, blank: K -> R)
    requires KeyedRows(key, rowKey, open, add)
    ensures GroupFold(s, key, rowKey, open, add) == GroupRows(s, key, open, add, blank)
    decreases |s|
  {
    if |s| > 0 {
      var s' := s[..|s| - 1];
      assert s == s' + [s[|s| - 1]];
      GroupFoldIsGroupRows(s', key, rowKey, open, add, blank);
      AccumulateStep(s', s[|s| - 1], key, rowKey, open, add, blank);
    }
  }
}
