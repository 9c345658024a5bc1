/**
 * Sequence helpers shared by the query models: sums, SELECT DISTINCT,
 * GROUP BY groups, and the sort behind ORDER BY / pandas sort_values.
 */
module Seqs {

  /** No value occurs twice. */
  predicate NoDup<T(==)>(s: seq<T>) {
    forall i, j :: 0 <= i < j < |s| ==> s[i] != s[j]
  }

  /** f applied to every element, in order. */
  function Map<T, U>(s: seq<T>, f: T -> U): (m: seq<U>)
    ensures |m| == |s|
    ensures forall i :: 0 <= i < |s| ==> m[i] == f(s[i])
  {
    if s == [] then [] else [f(s[0])] + Map(s[1..], f)
  }

  /** The concatenation of f(x) for each x of s, in order. */
  function ConcatMap<T, U>(s: seq<T>, f: T -> seq<U>): (out: seq<U>)
    ensures forall y :: y in out ==> exists x :: x in s && y in f(x)
    ensures forall x, y :: x in s && y in f(x) ==> y in out
  {
    if s == [] then []
    else
      var rest := ConcatMap(s[1..], f);
      assert forall x :: x in s ==> x == s[0] || x in s[1..];
      assert forall x :: x in s[1..] ==> x in s;
      f(s[0]) + rest
  }

  /** Sum of f over the elements of s. */
  function Sum<T>(s: seq<T>, f: T -> real): real {
    if s == [] then 0.0 else f(s[0]) + Sum(s[1..], f)
  }

  /** Reordering the terms leaves a sum unchanged. */
  lemma {:induction false} SumOfPermutation<T>(a: seq<T>, b: seq<T>, f: T -> real)
    requires multiset(a) == multiset(b)
    ensures Sum(a, f) == Sum(b, f)
    decreases |a|
  {
    if a == [] {
      assert |multiset(b)| == 0;
    } else {
      assert a[0] in multiset(b);
      var j :| 0 <= j < |b| && b[j] == a[0];
      var rest := b[..j] + b[j + 1..];
      RemoveAt(b, j);
      assert multiset(a[1..]) == multiset(a) - multiset{a[0]} by {
        assert a == [a[0]] + a[1..];
      }
      SumOfPermutation(a[1..], rest, f);
      SumRemoveAt(b, j, f);
    }
  }

  lemma RemoveAt<T>(b: seq<T>, j: nat)
    requires j < |b|
    ensures multiset(b[..j] + b[j + 1..]) == multiset(b) - multiset{b[j]}
  {
    assert b == b[..j] + [b[j]] + b[j + 1..];
  }

  lemma SumRemoveAt<T>(b: seq<T>, j: nat, f: T -> real)
    requires j < |b|
    ensures Sum(b, f) == f(b[j]) + Sum(b[..j] + b[j + 1..], f)
  {
    var l, r := b[..j], b[j + 1..];
    var c := [b[j]] + r;
    assert b == l + c;
    SumAppend(l, c, f);
    assert c[0] == b[j] && c[1..] == r;
    assert Sum(c, f) == f(b[j]) + Sum(r, f);
    SumAppend(l, r, f);
  }

  /** Indexing into a concatenation. */
  lemma ConcatIndex<T>(a: seq<T>, b: seq<T>, j: nat)
    requires j < |a| + |b|
    ensures (a + b)[j] == if j < |a| then a[j] else b[j - |a|]
  {
  }

  lemma {:induction false} SumAppend<T>(a: seq<T>, b: seq<T>, f: T -> real)
    ensures Sum(a + b, f) == Sum(a, f) + Sum(b, f)
  {
    if a == [] {
      assert a + b == b;
    } else {
      assert (a + b)[1..] == a[1..] + b;
      SumAppend(a[1..], b, f);
    }
  }

  /** The elements of s without repetitions, each at its first occurrence (SELECT DISTINCT). */
  function Distinct<T(==)>(s: seq<T>): (d: seq<T>)
    ensures NoDup(d)
    ensures forall x :: x in s ==> x in d
    ensures forall x :: x in d ==> x in s
    ensures |d| <= |s|
  {
    if s == [] then []
    else
      var d := Distinct(s[..|s| - 1]);
      assert s == s[..|s| - 1] + [s[|s| - 1]];
      if s[|s| - 1] in d then d else d + [s[|s| - 1]]
  }

  /** The rows whose key is k, in their original order: one GROUP BY group. */
  function Group<T, K(==)>(rows: seq<T>, key: T -> K, k: K): (g: seq<T>)
    ensures |g| <= |rows|
    ensures forall r :: r in g ==> r in rows && key(r) == k
    ensures forall r :: r in rows && key(r) == k ==> r in g
  {
    if rows == [] then []
    else if key(rows[0]) == k then [rows[0]] + Group(rows[1..], key, k)
    else Group(rows[1..], key, k)
  }

  /** The distinct keys of rows, in order of first appearance: the groups of a GROUP BY. */
  function Keys<T, K(==)>(rows: seq<T>, key: T -> K): (ks: seq<K>)
    ensures NoDup(ks)
    ensures forall i :: 0 <= i < |rows| ==> key(rows[i]) in ks
    ensures forall k :: k in ks ==> exists i :: 0 <= i < |rows| && key(rows[i]) == k
  {
    var m := Map(rows, key);
    assert forall i :: 0 <= i < |rows| ==> key(rows[i]) in m by {
      forall i | 0 <= i < |rows| ensures key(rows[i]) in m {
        assert m[i] == key(rows[i]);
      }
    }
    Distinct(m)
  }

  /** Sum over the groups ks of the per-group sum of f (an outer SUM over an inner GROUP BY). */
  function SumOverGroups<T, K(==)>(ks: seq<K>, rows: seq<T>, key: T -> K, f: T -> real): real {
    if ks == [] then 0.0 else Sum(Group(rows, key, ks[0]), f) + SumOverGroups(ks[1..], rows, key, f)
  }

  lemma {:induction false} SumOverGroupsOfNothing<T, K>(ks: seq<K>, key: T -> K, f: T -> real)
    ensures SumOverGroups(ks, [], key, f) == 0.0
  {
    if ks != [] {
      SumOverGroupsOfNothing(ks[1..], key, f);
    }
  }

  lemma {:induction false} SumOverGroupsCons<T, K>(ks: seq<K>, r: T, rows: seq<T>, key: T -> K, f: T -> real)
    requires NoDup(ks)
    ensures SumOverGroups(ks, [r] + rows, key, f)
         == (if key(r) in ks then f(r) else 0.0) + SumOverGroups(ks, rows, key, f)
  {
    if ks != [] {
      assert ([r] + rows)[1..] == rows;
      assert NoDup(ks[1..]) by {
        forall i, j | 0 <= i < j < |ks[1..]| ensures ks[1..][i] != ks[1..][j] {
          assert ks[1..][i] == ks[i + 1] && ks[1..][j] == ks[j + 1];
        }
      }
      SumOverGroupsCons(ks[1..], r, rows, key, f);
      assert key(r) in ks <==> key(r) == ks[0] || key(r) in ks[1..] by {
        assert ks == [ks[0]] + ks[1..];
      }
    }
  }

  /**
   * Grouping does not change a total: when the keys ks are distinct and cover
   * every row, summing the per-group sums gives the sum over all rows.
   */
  lemma {:induction false} GroupsPartition<T, K>(ks: seq<K>, rows: seq<T>, key: T -> K, f: T -> real)
    requires NoDup(ks)
    requires forall i :: 0 <= i < |rows| ==> key(rows[i]) in ks
    ensures SumOverGroups(ks, rows, key, f) == Sum(rows, f)
  {
    if rows == [] {
      SumOverGroupsOfNothing(ks, key, f);
    } else {
      assert rows == [rows[0]] + rows[1..];
      SumOverGroupsCons(ks, rows[0], rows[1..], key, f);
      GroupsPartition(ks, rows[1..], key, f);
    }
  }

  /** le is a total preorder: every pair is comparable and le is transitive. */
  ghost predicate TotalPreorder<T(!new)>(le: (T, T) -> bool) {
    && (forall a, b :: le(a, b) || le(b, a))
    && (forall a, b, c :: le(a, b) && le(b, c) ==> le(a, c))
  }

  /** Every element may come before every later one. */
  predicate SortedBy<T>(s: seq<T>, le: (T, T) -> bool) {
    forall i, j :: 0 <= i < j < |s| ==> le(s[i], s[j])
  }

  /** x placed after every leading element that may precede it. */
  function Insert<T>(x: T, s: seq<T>, le: (T, T) -> bool): (r: seq<T>)
    ensures multiset(r) == multiset(s) + multiset{x}
  {
    if s == [] then [x]
    else if le(s[0], x) then
      assert s == [s[0]] + s[1..];
      [s[0]] + Insert(x, s[1..], le)
    else [x] + s
  }

  /** A stable insertion sort: later elements go after earlier ones they tie with. */
  function SortBy<T>(s: seq<T>, le: (T, T) -> bool): (r: seq<T>)
    ensures multiset(r) == multiset(s)
    ensures |r| == |s|
  {
    if s == [] then []
    else
      assert s == s[..|s| - 1] + [s[|s| - 1]];
      var r := Insert(s[|s| - 1], SortBy(s[..|s| - 1], le), le);
      assert |r| == |multiset(r)|;
      r
  }

  lemma {:induction false} InsertSorted<T(!new)>(x: T, s: seq<T>, le: (T, T) -> bool)
    requires TotalPreorder(le)
    requires SortedBy(s, le)
    ensures SortedBy(Insert(x, s, le), le)
  {
    if s != [] && le(s[0], x) {
      InsertSorted(x, s[1..], le);
      var r := Insert(x, s, le);
      var t := Insert(x, s[1..], le);
      assert r == [s[0]] + t;
      forall j | 0 < j < |r| ensures le(s[0], r[j]) {
        assert r[j] in multiset(t);
        assert r[j] in multiset(s[1..]) + multiset{x};
        if r[j] != x {
          assert r[j] in s[1..];
        }
      }
    } else if s != [] {
      assert le(x, s[0]);
      var r := [x] + s;
      forall i, j | 0 <= i < j < |r| ensures le(r[i], r[j]) {
        if i == 0 && j > 1 {
          assert le(s[0], s[j - 1]);
        }
      }
    }
  }

  /** Sorting by a total preorder yields a sorted permutation of the input. */
  lemma {:induction false} SortBySorted<T(!new)>(s: seq<T>, le: (T, T) -> bool)
    requires TotalPreorder(le)
    ensures SortedBy(SortBy(s, le), le)
  {
    if s != [] {
      SortBySorted(s[..|s| - 1], le);
      InsertSorted(s[|s| - 1], SortBy(s[..|s| - 1], le), le);
    }
  }

  /** The first n elements of s, or all of them (SQL LIMIT n, pandas head(n)). */
  function Take<T>(s: seq<T>, n: nat): (r: seq<T>)
    ensures |r| == if n < |s| then n else |s|
    ensures r <= s
  {
    if n < |s| then s[..n] else s
  }
  /** The elements satisfying p, in order (a WHERE clause). */
  function Filter<T>(s: seq<T>, p: T -> bool): (r: seq<T>)
    ensures |r| <= |s|
    ensures forall x :: x in r ==> x in s && p(x)
    ensures forall x :: x in s && p(x) ==> x in r
  {
    if s == [] then []
    else
      (if p(s[0]) then [s[0]] else []) + Filter(s[1..], p)
  }

  /** Appending elements that are already present does not change DISTINCT. */
  lemma {:induction false} DistinctAppendPresent<T>(s: seq<T>, t: seq<T>)
    requires forall x :: x in t ==> x in s
    ensures Distinct(s + t) == Distinct(s)
    decreases |t|
  {
    if t != [] {
      var init := t[..|t| - 1];
      DistinctAppendPresent(s, init);
      assert (s + t)[..|s + t| - 1] == s + init;
      assert (s + t)[|s + t| - 1] == t[|t| - 1];
    } else {
      assert s + t == s;
    }
  }

  /** A key that no row has has an empty group. */
  lemma GroupOfMissingKey<T, K>(rows: seq<T>, key: T -> K, k: K)
    requires k !in Keys(rows, key)
    ensures Group(rows, key, k) == []
  {
    forall r | r in rows ensures key(r) != k {
      var i :| 0 <= i < |rows| && rows[i] == r;
      assert key(rows[i]) in Keys(rows, key);
    }
  }

  /** Grouping distributes over concatenation. */
  lemma {:induction false} GroupAppend<T, K>(a: seq<T>, b: seq<T>, key: T -> K, k: K)
    ensures Group(a + b, key, k) == Group(a, key, k) + Group(b, key, k)
  {
    if a != [] {
      assert (a + b)[1..] == a[1..] + b;
      GroupAppend(a[1..], b, key, k);
    } else {
      assert a + b == b;
    }
  }

  /** The first n elements of a sorted sequence may each precede every element left out. */
  /** The first n of a sorted sequence: sorted, drawn from it, and none after them precedes them. */
  lemma TakeSorted<T>(s: seq<T>, n: nat, le: (T, T) -> bool)
    requires SortedBy(s, le)
    ensures SortedBy(Take(s, n), le)
    ensures multiset(Take(s, n)) <= multiset(s)
    ensures forall i, j :: 0 <= i < |Take(s, n)| <= j < |s| ==> le(Take(s, n)[i], s[j])
  {
    var t := Take(s, n);
    assert s == t + s[|t|..];
  }
  lemma {:induction false} FilterAppend<T>(a: seq<T>, b: seq<T>, p: T -> bool)
    ensures Filter(a + b, p) == Filter(a, p) + Filter(b, p)
  {
    if a != [] {
      assert (a + b)[1..] == a[1..] + b;
      FilterAppend(a[1..], b, p);
    } else {
      assert a + b == b;
    }
  }

  lemma {:induction false} MapAppend<T, U>(a: seq<T>, b: seq<T>, f: T -> U)
    ensures Map(a + b, f) == Map(a, f) + Map(b, f)
  {
  }

  /** Keeping some elements of a sequence without repetitions leaves none repeated. */
  lemma {:induction false} NoDupFilter<T>(s: seq<T>, p: T -> bool)
    requires NoDup(s)
    ensures NoDup(Filter(s, p))
  {
    if s != [] {
      assert NoDup(s[1..]) by {
        forall i, j | 0 <= i < j < |s[1..]| ensures s[1..][i] != s[1..][j] {
          assert s[1..][i] == s[i + 1] && s[1..][j] == s[j + 1];
        }
      }
      NoDupFilter(s[1..], p);
      var rest := Filter(s[1..], p);
      if p(s[0]) {
        assert s[0] !in rest;
        var r := [s[0]] + rest;
        forall i, j | 0 <= i < j < |r| ensures r[i] != r[j] {
          if i == 0 {
            assert r[j] == rest[j - 1];
          } else {
            assert r[i] == rest[i - 1] && r[j] == rest[j - 1];
          }
        }
      } else {
        assert Filter(s, p) == rest;
      }
    }
  }

  /** Two sequences without repetitions and without common elements concatenate to one without repetitions. */
  lemma NoDupAppend<T>(a: seq<T>, b: seq<T>)
    requires NoDup(a) && NoDup(b)
    requires forall x :: x in a ==> x !in b
    ensures NoDup(a + b)
  {
    var c := a + b;
    forall i, j | 0 <= i < j < |c| ensures c[i] != c[j] {
      if j >= |a| && i < |a| {
        assert c[i] in a && c[j] == b[j - |a|];
      } else if i >= |a| {
        assert c[i] == b[i - |a|] && c[j] == b[j - |a|];
      }
    }
  }

  /** Without repetitions, a sequence has as many elements as its set. */
  lemma {:induction false} NoDupCard<T>(s: seq<T>)
    requires NoDup(s)
    ensures |set x | x in s| == |s|
  {
    if s != [] {
      assert NoDup(s[1..]) by {
        forall i, j | 0 <= i < j < |s[1..]| ensures s[1..][i] != s[1..][j] {
          assert s[1..][i] == s[i + 1] && s[1..][j] == s[j + 1];
        }
      }
      NoDupCard(s[1..]);
      assert (set x | x in s) == {s[0]} + (set x | x in s[1..]);
      assert s[0] !in (set x | x in s[1..]);
    }
  }

  /** Two sequences without repetitions holding the same elements have the same length. */
  lemma NoDupSameElements<T>(a: seq<T>, b: seq<T>)
    requires NoDup(a) && NoDup(b)
    requires forall x :: x in a <==> x in b
    ensures |a| == |b|
  {
    NoDupCard(a);
    NoDupCard(b);
    assert (set x | x in a) == (set x | x in b);
  }

  lemma NoDupTail<T>(s: seq<T>)
    requires NoDup(s) && s != []
    ensures NoDup(s[1..])
  {
    forall i, j | 0 <= i < j < |s[1..]| ensures s[1..][i] != s[1..][j] {
      assert s[1..][i] == s[i + 1] && s[1..][j] == s[j + 1];
    }
  }

  /** If f tells the rows apart, it tells the rows of any group apart. */
  lemma {:induction false} GroupNoDupMap<T, K, V>(rows: seq<T>, key: T -> K, k: K, f: T -> V)
    requires NoDup(Map(rows, f))
    ensures NoDup(Map(Group(rows, key, k), f))
  {
    if rows != [] {
      var m := Map(rows, f);
      assert Map(rows[1..], f) == m[1..];
      NoDupTail(m);
      GroupNoDupMap(rows[1..], key, k, f);
      var g := Group(rows[1..], key, k);
      if key(rows[0]) == k {
        forall y | y in Map(g, f) ensures y != f(rows[0]) {
          var i :| 0 <= i < |g| && Map(g, f)[i] == y;
          assert g[i] in rows[1..];
          var j :| 0 <= j < |rows[1..]| && rows[1..][j] == g[i];
          assert m[j + 1] == y && m[0] == f(rows[0]);
        }
        MapAppend([rows[0]], g, f);
        NoDupAppend([f(rows[0])], Map(g, f));
      }
    }
  }
}
