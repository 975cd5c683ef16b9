/** Sequence helpers for the store's queries: order-preserving filters,
    key uniqueness (the database's unique constraints) and the descending,
    missing-last ordering that `ORDER BY … DESC` produces on SQLite. */
module Collections {
  import opened Base

  /** The elements of `s` that satisfy `p` (a `WHERE` clause). */
  function Filter<T>(s: seq<T>, p: T -> bool): (r: seq<T>)
    ensures |r| <= |s|
    ensures forall i :: 0 <= i < |r| ==> r[i] in s && p(r[i])
    ensures forall i :: 0 <= i < |s| && p(s[i]) ==> s[i] in r
    ensures multiset(r) <= multiset(s)
  {
    if s == [] then []
    else
      assert s == [s[0]] + s[1..];
      (if p(s[0]) then [s[0]] else []) + Filter(s[1..], p)
  }

  /** The filter keeps every element that satisfies `p` exactly as often as
      `s` holds it, and drops every other one. */
  lemma {:induction false} FilterCounts<T>(s: seq<T>, p: T -> bool, x: T)
    ensures multiset(Filter(s, p))[x] == if p(x) then multiset(s)[x] else 0
  {
    if s != [] {
      assert s == [s[0]] + s[1..];
      FilterCounts(s[1..], p, x);
      var head := if p(s[0]) then [s[0]] else [];
      assert Filter(s, p) == head + Filter(s[1..], p);
      assert multiset(Filter(s, p)) == multiset(head) + multiset(Filter(s[1..], p));
      assert multiset(s) == multiset{s[0]} + multiset(s[1..]);
    }
  }

  /** `f` applied to each element of `s`, in order (`s.map(f)`). */
  function Map<A, B>(s: seq<A>, f: A -> B): (r: seq<B>)
    ensures |r| == |s| && forall i :: 0 <= i < |s| ==> r[i] == f(s[i])
  {
    seq(|s|, i requires 0 <= i < |s| => f(s[i]))
  }

  /** A `forEach` loop that appends `f(x)` to an initially empty list for
      each `x` of `s`. */
  method AppendEach<A, B>(s: seq<A>, f: A -> B) returns (r: seq<B>)
    ensures r == Map(s, f)
  {
    r := [];
    for i := 0 to |s|
      invariant |r| == i && forall k :: 0 <= k < i ==> r[k] == f(s[k])
    {
      r := r + [f(s[i])];
    }
  }

  /** The index of the first element of `s` that satisfies `p`
      (JavaScript `Array.prototype.find`, a first-match loop with an early
      return). */
  function FindFirst<T>(s: seq<T>, p: T -> bool): (k: Option<nat>)
    ensures k.Some? ==> k.value < |s| && p(s[k.value]) &&
                        forall j :: 0 <= j < k.value ==> !p(s[j])
    ensures k.None? ==> forall j :: 0 <= j < |s| ==> !p(s[j])
  {
    if s == [] then None
    else if p(s[0]) then Some(0)
    else
      match FindFirst(s[1..], p)
      case None => None
      case Some(k) => Some(k + 1)
  }

  /** No two elements of `s` share a key. */
  predicate DistinctKeys<T, K(==)>(s: seq<T>, key: T -> K) {
    forall i, j :: 0 <= i < j < |s| ==> key(s[i]) != key(s[j])
  }

  lemma DistinctKeysCons<T, K>(x: T, t: seq<T>, key: T -> K)
    ensures DistinctKeys([x] + t, key) <==>
            (forall j :: 0 <= j < |t| ==> key(t[j]) != key(x)) && DistinctKeys(t, key)
  {
    var s := [x] + t;
    if DistinctKeys(s, key) {
      forall j | 0 <= j < |t| ensures key(t[j]) != key(x) {
        assert s[0] == x && s[j + 1] == t[j];
      }
      forall i, j | 0 <= i < j < |t| ensures key(t[i]) != key(t[j]) {
        assert s[i + 1] == t[i] && s[j + 1] == t[j];
      }
    }
    if (forall j :: 0 <= j < |t| ==> key(t[j]) != key(x)) && DistinctKeys(t, key) {
      forall i, j | 0 <= i < j < |s| ensures key(s[i]) != key(s[j]) {
        if i == 0 {
          assert s[j] == t[j - 1];
        } else {
          assert s[i] == t[i - 1] && s[j] == t[j - 1];
        }
      }
    }
  }

  lemma DistinctKeysAppend<T, K>(a: seq<T>, b: seq<T>, key: T -> K)
    ensures DistinctKeys(a + b, key) <==>
            DistinctKeys(a, key) && DistinctKeys(b, key) &&
            (forall i, j :: 0 <= i < |a| && 0 <= j < |b| ==> key(a[i]) != key(b[j]))
  {
    var s := a + b;
    if DistinctKeys(s, key) {
      forall i, j | 0 <= i < |a| && 0 <= j < |b| ensures key(a[i]) != key(b[j]) {
        assert s[i] == a[i] && s[|a| + j] == b[j];
      }
      forall i, j | 0 <= i < j < |b| ensures key(b[i]) != key(b[j]) {
        assert s[|a| + i] == b[i] && s[|a| + j] == b[j];
      }
      forall i, j | 0 <= i < j < |a| ensures key(a[i]) != key(a[j]) {
        assert s[i] == a[i] && s[j] == a[j];
      }
    }
  }

  lemma {:induction false} FilterKeepsDistinctKeys<T, K>(s: seq<T>, p: T -> bool, key: T -> K)
    requires DistinctKeys(s, key)
    ensures DistinctKeys(Filter(s, p), key)
  {
    if s != [] {
      assert s == [s[0]] + s[1..];
      DistinctKeysCons(s[0], s[1..], key);
      FilterKeepsDistinctKeys(s[1..], p, key);
      if p(s[0]) {
        DistinctKeysCons(s[0], Filter(s[1..], p), key);
      }
    }
  }

  /** `a` comes no later than `b` in a descending order that puts missing
      values last. */
  predicate RankGe(a: Option<int>, b: Option<int>) {
    b.None? || (a.Some? && a.value >= b.value)
  }

  predicate SortedDesc<T>(s: seq<T>, key: T -> Option<int>) {
    forall i, j :: 0 <= i < j < |s| ==> RankGe(key(s[i]), key(s[j]))
  }

  /** Insert `x` into `s` before the first element it ranks no lower than. */
  function Insert<T>(x: T, s: seq<T>, key: T -> Option<int>): (r: seq<T>)
    ensures multiset(r) == multiset(s) + multiset{x}
    ensures |r| == |s| + 1
  {
    if s == [] then [x]
    else if RankGe(key(x), key(s[0])) then [x] + s
    else
      assert s == [s[0]] + s[1..];
      [s[0]] + Insert(x, s[1..], key)
  }

  /** A sequence with a head is sorted when its tail is and the head ranks
      no lower than any element of the tail. */
  lemma SortedCons<T>(x: T, t: seq<T>, key: T -> Option<int>)
    requires SortedDesc(t, key) && forall j :: 0 <= j < |t| ==> RankGe(key(x), key(t[j]))
    ensures SortedDesc([x] + t, key)
  {
    var r := [x] + t;
    forall i, j | 0 <= i < j < |r| ensures RankGe(key(r[i]), key(r[j])) {
      if i == 0 {
        assert r[j] == t[j - 1];
      } else {
        assert r[i] == t[i - 1] && r[j] == t[j - 1];
      }
    }
  }

  /** Inserting into a sorted sequence keeps it sorted. */
  lemma {:induction false} InsertKeepsSorted<T>(x: T, s: seq<T>, key: T -> Option<int>)
    requires SortedDesc(s, key)
    ensures SortedDesc(Insert(x, s, key), key)
  {
    if s == [] {
    } else if RankGe(key(x), key(s[0])) {
      SortedCons(x, s, key);
    } else {
      assert s == [s[0]] + s[1..];
      var t := Insert(x, s[1..], key);
      InsertKeepsSorted(x, s[1..], key);
      forall i | 0 <= i < |t| ensures RankGe(key(s[0]), key(t[i])) {
        assert t[i] in multiset(t);
        if t[i] != x {
          var q :| 0 <= q < |s[1..]| && s[1..][q] == t[i];
          assert s[q + 1] == t[i];
        }
      }
      SortedCons(s[0], t, key);
    }
  }

  lemma SameMultisetSameElements<T>(a: seq<T>, b: seq<T>)
    requires multiset(a) == multiset(b)
    ensures forall i :: 0 <= i < |a| ==> a[i] in b
    ensures forall i :: 0 <= i < |b| ==> b[i] in a
  {
    forall i | 0 <= i < |a| ensures a[i] in b { assert a[i] in multiset(b); }
    forall i | 0 <= i < |b| ensures b[i] in a { assert b[i] in multiset(a); }
  }

  /** An insertion sort: descending by `key`, missing keys last. */
  function SortDesc<T>(s: seq<T>, key: T -> Option<int>): (r: seq<T>)
    ensures multiset(r) == multiset(s)
    ensures |r| == |s|
    ensures forall i :: 0 <= i < |r| ==> r[i] in s
    ensures forall i :: 0 <= i < |s| ==> s[i] in r
    ensures SortedDesc(r, key)
  {
    if s == [] then []
    else
      assert s == [s[0]] + s[1..];
      var r := Insert(s[0], SortDesc(s[1..], key), key);
      InsertKeepsSorted(s[0], SortDesc(s[1..], key), key);
      SameMultisetSameElements(r, s);
      r
  }

  /** Inserting an element whose key is new keeps keys distinct. */
  lemma {:induction false} InsertKeepsDistinctKeys<T, K>(x: T, t: seq<T>, rank: T -> Option<int>, key: T -> K)
    requires DistinctKeys(t, key) && forall j :: 0 <= j < |t| ==> key(t[j]) != key(x)
    ensures DistinctKeys(Insert(x, t, rank), key)
  {
    if t == [] {
    } else if RankGe(rank(x), rank(t[0])) {
      DistinctKeysCons(x, t, key);
    } else {
      assert t == [t[0]] + t[1..];
      DistinctKeysCons(t[0], t[1..], key);
      InsertKeepsDistinctKeys(x, t[1..], rank, key);
      var u := Insert(x, t[1..], rank);
      forall i | 0 <= i < |u| ensures key(u[i]) != key(t[0]) {
        assert u[i] in multiset(u);
        if u[i] != x {
          var q :| 0 <= q < |t[1..]| && t[1..][q] == u[i];
          assert t[q + 1] == u[i];
        }
      }
      DistinctKeysCons(t[0], u, key);
    }
  }

  /** Sorting keeps keys distinct. */
  lemma {:induction false} SortDescKeepsDistinctKeys<T, K>(s: seq<T>, rank: T -> Option<int>, key: T -> K)
    requires DistinctKeys(s, key)
    ensures DistinctKeys(SortDesc(s, rank), key)
  {
    if s != [] {
      assert s == [s[0]] + s[1..];
      DistinctKeysCons(s[0], s[1..], key);
      SortDescKeepsDistinctKeys(s[1..], rank, key);
      var t := SortDesc(s[1..], rank);
      forall j | 0 <= j < |t| ensures key(t[j]) != key(s[0]) {
        var q :| 0 <= q < |s[1..]| && s[1..][q] == t[j];
        assert s[q + 1] == t[j];
      }
      InsertKeepsDistinctKeys(s[0], t, rank, key);
    }
  }

  /** In a sorted sequence, an element left out of the first `n` ranks no
      higher than any element kept. */
  lemma PrefixOutranksRest<T>(s: seq<T>, n: nat, key: T -> Option<int>, x: T)
    requires SortedDesc(s, key) && x in s && x !in Take(s, n)
    ensures forall i :: 0 <= i < |Take(s, n)| ==> RankGe(key(Take(s, n)[i]), key(x))
  {
    var p :| 0 <= p < |s| && s[p] == x;
    var t := Take(s, n);
    forall i | 0 <= i < |t| ensures RankGe(key(t[i]), key(x)) {
      assert t[i] == s[i];
    }
  }

  /** The first `n` elements of `s`, or all of them when there are fewer
      (SQL `LIMIT n`, JavaScript `s.slice(0, n)`). */
  function Take<T>(s: seq<T>, n: nat): (r: seq<T>)
    ensures |r| == Min(n, |s|)
    ensures r <= s
    ensures multiset(r) <= multiset(s)
  {
    if |s| <= n then s
    else
      assert s == s[..n] + s[n..];
      s[..n]
  }
}
