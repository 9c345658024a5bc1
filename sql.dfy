/**
 * SQL NULL semantics as used by the dashboard's DuckDB queries: NULL-propagating
 * arithmetic, COALESCE, NULLIF, GREATEST, and the aggregates SUM, AVG, MAX,
 * BOOL_OR and COUNT(DISTINCT), which ignore NULLs and give NULL over no values.
 */
module Sql {
  import opened Wrappers
  import opened Seqs

  /** a + b, NULL when either side is NULL. */
  function Plus(a: Option<real>, b: Option<real>): Option<real> {
    if a.Some? && b.Some? then Some(a.value + b.value) else None
  }

  /** a - b, NULL when either side is NULL. */
  function Minus(a: Option<real>, b: Option<real>): Option<real> {
    if a.Some? && b.Some? then Some(a.value - b.value) else None
  }

  /** a * b, NULL when either side is NULL. */
  function Times(a: Option<real>, b: Option<real>): Option<real> {
    if a.Some? && b.Some? then Some(a.value * b.value) else None
  }

  /** COALESCE(x, 0). */
  function OrZero(x: Option<real>): real {
    x.GetOr(0.0)
  }

  /** NULLIF(x, 0): a zero becomes NULL, so that a later division yields NULL. */
  function NullIfZero(x: Option<real>): (r: Option<real>)
    ensures r != Some(0.0)
  {
    if x == Some(0.0) then None else x
  }

  /** a / NULLIF(b, 0): NULL when either is NULL or b is 0, never a division by zero. */
  function DivideOrNull(a: Option<real>, b: Option<real>): (r: Option<real>)
    ensures r.None? <==> a.None? || b.None? || b == Some(0.0)
    ensures r.Some? ==> r.value * b.value == a.value
  {
    Divide(a, NullIfZero(b))
  }

  /** a / b for a divisor that cannot be zero (it has passed through NULLIF). */
  function Divide(a: Option<real>, b: Option<real>): Option<real>
    requires b != Some(0.0)
  {
    if a.Some? && b.Some? then Some(a.value / b.value) else None
  }

  /** GREATEST(0, x): NULL arguments are ignored, so a NULL x gives 0. */
  function GreatestZero(x: Option<real>): (r: real)
    ensures r >= 0.0
    ensures x.Some? && x.value >= 0.0 ==> r == x.value
    ensures (x.Some? && x.value <= 0.0) || x.None? ==> r == 0.0
  {
    if x.Some? && x.value > 0.0 then x.value else 0.0
  }

  /** Sum of the non-NULL values, 0 when there are none. */
  function SumPresent<T>(s: seq<T>, f: T -> Option<real>): real {
    if s == [] then 0.0 else OrZero(f(s[0])) + SumPresent(s[1..], f)
  }

  /** Number of non-NULL values. */
  function CountPresent<T>(s: seq<T>, f: T -> Option<real>): nat {
    if s == [] then 0 else (if f(s[0]).Some? then 1 else 0) + CountPresent(s[1..], f)
  }

  /** SQL SUM: NULLs are skipped; NULL when every value is NULL (or there are none). */
  function SqlSum<T>(s: seq<T>, f: T -> Option<real>): (r: Option<real>)
    ensures r.None? <==> CountPresent(s, f) == 0
    ensures r.Some? ==> r.value == SumPresent(s, f)
  {
    if CountPresent(s, f) == 0 then None else Some(SumPresent(s, f))
  }

  /** SQL AVG: the mean of the non-NULL values; NULL when there are none. */
  function SqlAvg<T>(s: seq<T>, f: T -> Option<real>): (r: Option<real>)
    ensures r.None? <==> CountPresent(s, f) == 0
  {
    var n := CountPresent(s, f);
    if n == 0 then None else Some(SumPresent(s, f) / (n as real))
  }

  /** The larger of two possibly-NULL values; NULL only when both are. */
  function MaxOf(a: Option<real>, b: Option<real>): Option<real> {
    if a.None? then b
    else if b.None? then a
    else if a.value >= b.value then a else b
  }

  /** SQL MAX: the largest non-NULL value; NULL when there are none. */
  function SqlMax<T>(s: seq<T>, f: T -> Option<real>): (r: Option<real>)
    ensures r.None? <==> forall i :: 0 <= i < |s| ==> f(s[i]).None?
    ensures r.Some? ==> exists i :: 0 <= i < |s| && f(s[i]) == r
    ensures r.Some? ==> forall i :: 0 <= i < |s| && f(s[i]).Some? ==> f(s[i]).value <= r.value
  {
    if s == [] then None
    else
      var m := SqlMax(s[1..], f);
      assert forall i :: 1 <= i < |s| ==> f(s[i]) == f(s[1..][i - 1]);
      MaxOf(f(s[0]), m)
  }

  /** SQL BOOL_OR: TRUE if some value is TRUE, FALSE if all non-NULL values are FALSE, NULL if all are NULL. */
  function BoolOr<T>(s: seq<T>, f: T -> Option<bool>): (r: Option<bool>)
    ensures r == Some(true) <==> exists i :: 0 <= i < |s| && f(s[i]) == Some(true)
    ensures r.None? <==> forall i :: 0 <= i < |s| ==> f(s[i]).None?
  {
    if s == [] then None
    else
      var rest := BoolOr(s[1..], f);
      assert forall i :: 1 <= i < |s| ==> f(s[i]) == f(s[1..][i - 1]);
      if f(s[0]) == Some(true) || rest == Some(true) then Some(true)
      else if f(s[0]).None? && rest.None? then None
      else Some(false)
  }

  /** The non-NULL values, in order. */
  function Present<T, K>(s: seq<T>, f: T -> Option<K>): (r: seq<K>)
    ensures forall x :: x in r ==> exists i :: 0 <= i < |s| && f(s[i]) == Some(x)
    ensures forall i :: 0 <= i < |s| && f(s[i]).Some? ==> f(s[i]).value in r
    ensures |r| <= |s|
  {
    if s == [] then []
    else
      var rest := Present(s[1..], f);
      assert forall i :: 1 <= i < |s| ==> f(s[i]) == f(s[1..][i - 1]);
      if f(s[0]).Some? then [f(s[0]).value] + rest else rest
  }

  /** SQL COUNT(DISTINCT x): the number of different non-NULL values. */
  function CountDistinct<T, K(==)>(s: seq<T>, f: T -> Option<K>): (n: nat)
    ensures n <= |s|
    ensures (exists i :: 0 <= i < |s| && f(s[i]).Some?) ==> n >= 1
  {
    var p := Present(s, f);
    assert (exists i :: 0 <= i < |s| && f(s[i]).Some?) ==> |Distinct(p)| >= 1 by {
      if i :| 0 <= i < |s| && f(s[i]).Some? {
        assert f(s[i]).value in Distinct(p);
      }
    }
    |Distinct(p)|
  }

  /** SQL ROUND(x, 0): to the nearest integer, halves away from zero. */
  function Round(x: real): (n: int)
    ensures x - 0.5 <= n as real <= x + 0.5
    ensures x >= 0.0 ==> n >= 0
    ensures x <= 0.0 ==> n <= 0
  {
    if x >= 0.0 then (x + 0.5).Floor else -((0.5 - x).Floor)
  }

  /** ROUND of a possibly-NULL value. */
  function RoundOpt(x: Option<real>): Option<int> {
    if x.None? then None else Some(Round(x.value))
  }
  /** COALESCE(f(x), 0) as a function of the row. */
  function Coalesced<T>(f: T -> Option<real>): T -> real {
    x => OrZero(f(x))
  }

  lemma {:induction false} SumPresentIsSum<T>(s: seq<T>, f: T -> Option<real>)
    ensures SumPresent(s, f) == Sum(s, Coalesced(f))
  {
    if s != [] {
      SumPresentIsSum(s[1..], f);
    }
  }

  lemma {:induction false} CountPresentZero<T>(s: seq<T>, f: T -> Option<real>)
    ensures CountPresent(s, f) == 0 <==> forall i :: 0 <= i < |s| ==> f(s[i]).None?
    ensures CountPresent(s, f) == 0 ==> SumPresent(s, f) == 0.0
  {
    if s != [] {
      CountPresentZero(s[1..], f);
      assert forall i :: 1 <= i < |s| ==> s[i] == s[1..][i - 1];
    }
  }

  /** The SUM of f within the group of key value k. */
  function GroupSum<T, K(==)>(rows: seq<T>, key: T -> K, f: T -> Option<real>): K -> Option<real> {
    k => SqlSum(Group(rows, key, k), f)
  }

  lemma {:induction false} SumPresentOfGroupSums<T, K>(ks: seq<K>, rows: seq<T>, key: T -> K, f: T -> Option<real>)
    ensures SumPresent(ks, GroupSum(rows, key, f)) == SumOverGroups(ks, rows, key, Coalesced(f))
  {
    if ks != [] {
      SumPresentOfGroupSums(ks[1..], rows, key, f);
      var g := Group(rows, key, ks[0]);
      CountPresentZero(g, f);
      SumPresentIsSum(g, f);
    }
  }

  /**
   * An outer SUM over an inner GROUP BY gives the SUM over all rows, NULL
   * included: when the groups ks are distinct and cover every row.
   */
  lemma SqlSumOfGroupSums<T, K>(ks: seq<K>, rows: seq<T>, key: T -> K, f: T -> Option<real>)
    requires NoDup(ks)
    requires forall i :: 0 <= i < |rows| ==> key(rows[i]) in ks
    ensures SqlSum(ks, GroupSum(rows, key, f)) == SqlSum(rows, f)
  {
    SumPresentOfGroupSums(ks, rows, key, f);
    GroupsPartition(ks, rows, key, Coalesced(f));
    SumPresentIsSum(rows, f);
    if CountPresent(rows, f) != 0 {
      PresentRowPresentGroup(ks, rows, key, f);
    } else {
      NoPresentRowNoGroup(ks, rows, key, f);
    }
  }

  lemma PresentRowPresentGroup<T, K>(ks: seq<K>, rows: seq<T>, key: T -> K, f: T -> Option<real>)
    requires forall i :: 0 <= i < |rows| ==> key(rows[i]) in ks
    requires CountPresent(rows, f) != 0
    ensures CountPresent(ks, GroupSum(rows, key, f)) != 0
  {
    CountPresentZero(rows, f);
    var i :| 0 <= i < |rows| && f(rows[i]).Some?;
    var j :| 0 <= j < |ks| && ks[j] == key(rows[i]);
    var g := Group(rows, key, ks[j]);
    CountPresentZero(g, f);
    assert rows[i] in g;
    var m :| 0 <= m < |g| && g[m] == rows[i];
    assert GroupSum(rows, key, f)(ks[j]).Some?;
    CountPresentZero(ks, GroupSum(rows, key, f));
  }

  lemma NoPresentRowNoGroup<T, K>(ks: seq<K>, rows: seq<T>, key: T -> K, f: T -> Option<real>)
    requires CountPresent(rows, f) == 0
    ensures CountPresent(ks, GroupSum(rows, key, f)) == 0
  {
    CountPresentZero(rows, f);
    forall j | 0 <= j < |ks| ensures GroupSum(rows, key, f)(ks[j]).None? {
      var g := Group(rows, key, ks[j]);
      CountPresentZero(g, f);
      forall m | 0 <= m < |g| ensures f(g[m]).None? {
        assert g[m] in rows;
      }
    }
    CountPresentZero(ks, GroupSum(rows, key, f));
  }

  /** With no negative value present, SUM is at least each present value. */
  lemma {:induction false} SumPresentAtLeast<T>(s: seq<T>, f: T -> Option<real>, i: nat)
    requires forall j :: 0 <= j < |s| && f(s[j]).Some? ==> f(s[j]).value >= 0.0
    requires i < |s| && f(s[i]).Some?
    ensures SumPresent(s, f) >= f(s[i]).value
  {
    SumPresentNonNegative(s[1..], f);
    if i > 0 {
      assert s[1..][i - 1] == s[i];
      SumPresentAtLeast(s[1..], f, i - 1);
    }
  }

  lemma {:induction false} SumPresentNonNegative<T>(s: seq<T>, f: T -> Option<real>)
    requires forall j :: 0 <= j < |s| && f(s[j]).Some? ==> f(s[j]).value >= 0.0
    ensures SumPresent(s, f) >= 0.0
  {
    if s != [] {
      assert forall j :: 1 <= j < |s| ==> s[1..][j - 1] == s[j];
      SumPresentNonNegative(s[1..], f);
    }
  }

  /** ORDER BY f DESC as DuckDB sorts it: larger values first, NULLs last. */
  function DescNullsLast<T>(f: T -> Option<real>): (T, T) -> bool {
    (a, b) => match (f(a), f(b))
      case (Some(x), Some(y)) => x >= y
      case (Some(_), None) => true
      case (None, Some(_)) => false
      case (None, None) => true
  }

  lemma DescNullsLastIsTotalPreorder<T(!new)>(f: T -> Option<real>)
    ensures TotalPreorder(DescNullsLast(f))
  {
  }

  /** In a sequence sorted by DescNullsLast(f), values never increase and NULLs come last. */
  lemma SortedDescNullsLast<T>(s: seq<T>, f: T -> Option<real>)
    requires SortedBy(s, DescNullsLast(f))
    ensures forall i, j :: 0 <= i < j < |s| && f(s[j]).Some? ==> f(s[i]).Some? && f(s[i]).value >= f(s[j]).value
  {
    forall i, j | 0 <= i < j < |s| && f(s[j]).Some?
      ensures f(s[i]).Some? && f(s[i]).value >= f(s[j]).value
    {
      assert DescNullsLast(f)(s[i], s[j]);
    }
  }
  lemma {:induction false} PresentAppend<T>(a: seq<T>, b: seq<T>, f: T -> Option<real>)
    ensures SumPresent(a + b, f) == SumPresent(a, f) + SumPresent(b, f)
    ensures CountPresent(a + b, f) == CountPresent(a, f) + CountPresent(b, f)
  {
    if a != [] {
      assert (a + b)[1..] == a[1..] + b;
      PresentAppend(a[1..], b, f);
    } else {
      assert a + b == b;
    }
  }

  /** Two columns holding the same values row by row have the same SUM. */
  lemma {:induction false} SqlSumPointwise<T, U>(a: seq<T>, f: T -> Option<real>, b: seq<U>, g: U -> Option<real>)
    requires |a| == |b|
    requires forall i :: 0 <= i < |a| ==> f(a[i]) == g(b[i])
    ensures SqlSum(a, f) == SqlSum(b, g)
    ensures SumPresent(a, f) == SumPresent(b, g) && CountPresent(a, f) == CountPresent(b, g)
  {
    if a != [] {
      assert forall i :: 0 <= i < |a[1..]| ==> a[1..][i] == a[i + 1] && b[1..][i] == b[i + 1];
      SqlSumPointwise(a[1..], f, b[1..], g);
    }
  }

  /** Some row of s has x as its value of f. */
  ghost predicate HasValue<T, K>(s: seq<T>, f: T -> Option<K>, x: K) {
    exists i :: 0 <= i < |s| && f(s[i]) == Some(x)
  }

  /** COUNT(DISTINCT …) depends only on which values occur. */
  lemma CountDistinctSameValues<T, U, K>(a: seq<T>, f: T -> Option<K>, b: seq<U>, g: U -> Option<K>)
    requires forall x :: HasValue(a, f, x) <==> HasValue(b, g, x)
    ensures CountDistinct(a, f) == CountDistinct(b, g)
  {
    var da := Distinct(Present(a, f));
    var db := Distinct(Present(b, g));
    forall x ensures x in da <==> x in db {
      if x in da {
        assert HasValue(a, f, x);
        var j :| 0 <= j < |b| && g(b[j]) == Some(x);
      }
      if x in db {
        assert HasValue(b, g, x);
        var i :| 0 <= i < |a| && f(a[i]) == Some(x);
      }
    }
    NoDupSameElements(da, db);
  }

  /** A sum u of c values, each between lo and hi, lies between c * lo and c * hi. */
  predicate Between(c: real, u: real, lo: real, hi: real) {
    c * lo <= u <= c * hi
  }

  /** The sum of n present values between lo and hi lies between n * lo and n * hi. */
  lemma {:induction false} SumPresentBetween<T>(s: seq<T>, f: T -> Option<real>, lo: real, hi: real)
    requires forall i :: 0 <= i < |s| && f(s[i]).Some? ==> lo <= f(s[i]).value <= hi
    ensures Between(CountPresent(s, f) as real, SumPresent(s, f), lo, hi)
  {
    if s != [] {
      BetweenTail(s, f, lo, hi);
      SumPresentBetween(s[1..], f, lo, hi);
      var v := f(s[0]);
      assert v.Some? ==> lo <= v.value <= hi;
      PresentStep(s, f);
      StepBetween(CountPresent(s[1..], f) as real, SumPresent(s[1..], f), v, lo, hi,
        CountPresent(s, f) as real, SumPresent(s, f));
    } else {
      StepBetween(0.0, 0.0, None, lo, hi, CountPresent(s, f) as real, SumPresent(s, f));
    }
  }

  lemma PresentStep<T>(s: seq<T>, f: T -> Option<real>)
    requires s != []
    ensures CountPresent(s, f) as real == (if f(s[0]).Some? then 1.0 else 0.0) + CountPresent(s[1..], f) as real
    ensures SumPresent(s, f) == OrZero(f(s[0])) + SumPresent(s[1..], f)
  {
  }

  /** A sum of n values between lo and hi stays between the bounds when one more, possibly NULL, value is added. */
  lemma StepBetween(n: real, t: real, v: Option<real>, lo: real, hi: real, c: real, u: real)
    requires Between(n, t, lo, hi)
    requires v.Some? ==> lo <= v.value <= hi
    requires c == (if v.Some? then 1.0 else 0.0) + n && u == OrZero(v) + t
    ensures Between(c, u, lo, hi)
  {
    if v.Some? {
      AddOneBetween(n, t, v.value, lo, hi, c, u);
    }
  }

  lemma BetweenTail<T>(s: seq<T>, f: T -> Option<real>, lo: real, hi: real)
    requires s != []
    requires forall i :: 0 <= i < |s| && f(s[i]).Some? ==> lo <= f(s[i]).value <= hi
    ensures forall i :: 0 <= i < |s[1..]| && f(s[1..][i]).Some? ==> lo <= f(s[1..][i]).value <= hi
  {
    forall i | 0 <= i < |s[1..]| && f(s[1..][i]).Some? ensures lo <= f(s[1..][i]).value <= hi {
      assert s[1..][i] == s[i + 1];
    }
  }

  /** One more value between lo and hi keeps a sum of n such values between the bounds. */
  lemma AddOneBetween(n: real, t: real, v: real, lo: real, hi: real, c: real, u: real)
    requires n * lo <= t <= n * hi && lo <= v <= hi
    requires c == n + 1.0 && u == t + v
    ensures c * lo <= u <= c * hi
  {
    assert c * lo == n * lo + lo && c * hi == n * hi + hi;
  }

  /** AVG lies between any bounds of the values it averages. */
  lemma SqlAvgBetween<T>(s: seq<T>, f: T -> Option<real>, lo: real, hi: real)
    requires forall i :: 0 <= i < |s| && f(s[i]).Some? ==> lo <= f(s[i]).value <= hi
    ensures SqlAvg(s, f).Some? ==> lo <= SqlAvg(s, f).value <= hi
  {
    if CountPresent(s, f) > 0 {
      SumPresentBetween(s, f, lo, hi);
      DivBetween(SumPresent(s, f), CountPresent(s, f) as real, lo, hi);
    }
  }

  /** A total of n values between lo and hi, divided by n, is between lo and hi. */
  lemma DivBetween(t: real, n: real, lo: real, hi: real)
    requires n > 0.0 && n * lo <= t <= n * hi
    ensures lo <= t / n <= hi
  {
    var q := t / n;
    assert q * n == t;
    assert (q - lo) * n == t - lo * n;
    assert (hi - q) * n == hi * n - t;
  }

  /** Taking out the element at k takes one copy of it out of the multiset. */
  lemma MultisetRemove<T>(b: seq<T>, k: nat)
    requires k < |b|
    ensures multiset(b[..k] + b[k + 1..]) == multiset(b) - multiset{b[k]}
  {
    var p, q := b[..k], b[k + 1..];
    assert b == p + [b[k]] + q;
    assert multiset(b) == multiset(p) + multiset([b[k]]) + multiset(q);
    assert multiset(p + q) == multiset(p) + multiset(q);
  }

  /** Taking out the element at k takes its value out of the sums. */
  lemma PresentRemove<T>(b: seq<T>, k: nat, f: T -> Option<real>)
    requires k < |b|
    ensures SumPresent(b, f) == OrZero(f(b[k])) + SumPresent(b[..k] + b[k + 1..], f)
    ensures CountPresent(b, f) == (if f(b[k]).Some? then 1 else 0) + CountPresent(b[..k] + b[k + 1..], f)
  {
    var p, x, q := b[..k], b[k], b[k + 1..];
    assert b == p + ([x] + q);
    PresentAppend(p, [x] + q, f);
    PresentAppend([x], q, f);
    PresentAppend(p, q, f);
  }

  lemma {:induction false} PresentPermutation<T>(a: seq<T>, b: seq<T>, f: T -> Option<real>)
    requires multiset(a) == multiset(b)
    ensures SumPresent(a, f) == SumPresent(b, f) && CountPresent(a, f) == CountPresent(b, f)
    decreases |a|
  {
    if a == [] {
      assert |b| == |multiset(b)| == 0;
    } else {
      assert a[0] in multiset(b);
      var k :| 0 <= k < |b| && b[k] == a[0];
      PresentRemove(b, k, f);
      MultisetRemove(b, k);
      assert a == [a[0]] + a[1..];
      assert multiset(a[1..]) == multiset(a) - multiset{a[0]};
      PresentPermutation(a[1..], b[..k] + b[k + 1..], f);
    }
  }

  /** SUM does not depend on the order of the rows. */
  lemma SqlSumPermutation<T>(a: seq<T>, b: seq<T>, f: T -> Option<real>)
    requires multiset(a) == multiset(b)
    ensures SqlSum(a, f) == SqlSum(b, f)
  {
    PresentPermutation(a, b, f);
  }

  /** Two columns holding the same values row by row have the same COUNT(DISTINCT …). */
  lemma CountDistinctPointwise<T, U, K>(a: seq<T>, f: T -> Option<K>, b: seq<U>, g: U -> Option<K>)
    requires |a| == |b|
    requires forall i :: 0 <= i < |a| ==> f(a[i]) == g(b[i])
    ensures CountDistinct(a, f) == CountDistinct(b, g)
  {
    forall x ensures HasValue(a, f, x) <==> HasValue(b, g, x) {
      if HasValue(a, f, x) {
        var i :| 0 <= i < |a| && f(a[i]) == Some(x);
        assert g(b[i]) == Some(x);
      }
      if HasValue(b, g, x) {
        var i :| 0 <= i < |b| && g(b[i]) == Some(x);
        assert f(a[i]) == Some(x);
      }
    }
    CountDistinctSameValues(a, f, b, g);
  }

  /** COUNT(DISTINCT …) of a column that is never NULL and never repeats is the number of rows. */
  lemma CountDistinctOfNoDup<T, K>(s: seq<T>, f: T -> Option<K>, key: T -> K)
    requires forall i :: 0 <= i < |s| ==> f(s[i]) == Some(key(s[i]))
    requires NoDup(Map(s, key))
    ensures CountDistinct(s, f) == |s|
  {
    var ks := Map(s, key);
    var p := Present(s, f);
    forall x ensures x in p <==> x in ks {
      PresentIsKeys(s, f, key, x);
    }
    var d := Distinct(p);
    assert forall x :: x in d <==> x in ks;
    NoDupSameElements(d, ks);
  }

  /** The values of a never-NULL column are its keys. */
  lemma PresentIsKeys<T, K>(s: seq<T>, f: T -> Option<K>, key: T -> K, x: K)
    requires forall i :: 0 <= i < |s| ==> f(s[i]) == Some(key(s[i]))
    ensures x in Present(s, f) <==> x in Map(s, key)
  {
    var ks := Map(s, key);
    if x in Present(s, f) {
      var i :| 0 <= i < |s| && f(s[i]) == Some(x);
      assert ks[i] == x;
    }
    if x in ks {
      var i :| 0 <= i < |ks| && ks[i] == x;
      assert f(s[i]) == Some(x);
    }
  }
}
