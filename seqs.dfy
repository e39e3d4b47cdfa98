/**
 * Sequence operations that the lookup routes are built from: filtering a table
 * (`df[mask]`), taking the first match (`.iloc[0]`, `Array.prototype.find`),
 * projecting a column, dropping duplicates (`unique()`, `drop_duplicates()`)
 * and sorting (`sorted`, `sort_values`), together with the string order that
 * Python's `sorted` uses.
 */
module Seqs {
  import opened Wrappers

  // ---------------------------------------------------------------------------
  // String order: lexicographic by code point, as Python compares `str` values.
  // ---------------------------------------------------------------------------

  /** `a <= b` in Python's string order. */
  predicate LexLe(a: string, b: string)
    decreases |a|
  {
    |a| == 0 || (|b| > 0 && (a[0] < b[0] || (a[0] == b[0] && LexLe(a[1..], b[1..]))))
  }

  lemma {:induction false} LexLeReflexive(a: string)
    ensures LexLe(a, a)
    decreases |a|
  {
    if |a| > 0 { LexLeReflexive(a[1..]); }
  }

  lemma {:induction false} LexLeTotal(a: string, b: string)
    ensures LexLe(a, b) || LexLe(b, a)
    decreases |a|
  {
    if |a| > 0 && |b| > 0 && a[0] == b[0] { LexLeTotal(a[1..], b[1..]); }
  }

  lemma {:induction false} LexLeAntisymmetric(a: string, b: string)
    ensures LexLe(a, b) && LexLe(b, a) ==> a == b
    decreases |a|
  {
    if |a| > 0 && |b| > 0 {
      LexLeAntisymmetric(a[1..], b[1..]);
      assert a == [a[0]] + a[1..] && b == [b[0]] + b[1..];
    }
  }

  lemma {:induction false} LexLeTransitive(a: string, b: string, c: string)
    requires LexLe(a, b) && LexLe(b, c)
    ensures LexLe(a, c)
    decreases |a|
  {
    if |a| > 0 && a[0] == b[0] && b[0] == c[0] { LexLeTransitive(a[1..], b[1..], c[1..]); }
  }

  /** The identity key, for sorting strings by themselves. */
  function Id(s: string): string { s }

  // ---------------------------------------------------------------------------
  // Orderedness and distinctness.
  // ---------------------------------------------------------------------------

  /** Non-decreasing by `key`: each element's key is at most the next one's. */
  predicate SortedBy<T>(s: seq<T>, key: T -> string) {
    forall i :: 0 < i < |s| ==> LexLe(key(s[i - 1]), key(s[i]))
  }

  /** A list of strings in Python's ascending order. */
  predicate Sorted(s: seq<string>) {
    SortedBy(s, Id)
  }

  /** No value occurs twice. */
  predicate NoDuplicates<T(==)>(s: seq<T>) {
    forall i, j :: 0 <= i < j < |s| ==> s[i] != s[j]
  }

  /** Neighbour-wise order gives order between any two positions. */
  lemma {:induction false} SortedByPairwise<T>(s: seq<T>, key: T -> string, i: nat, j: nat)
    requires SortedBy(s, key)
    requires i <= j < |s|
    ensures LexLe(key(s[i]), key(s[j]))
    decreases j - i
  {
    if i == j {
      LexLeReflexive(key(s[i]));
    } else {
      SortedByPairwise(s, key, i, j - 1);
      LexLeTransitive(key(s[i]), key(s[j - 1]), key(s[j]));
    }
  }

  /** A sorted list without duplicates is strictly increasing. */
  lemma SortedDistinctIsStrict(s: seq<string>, i: nat, j: nat)
    requires Sorted(s) && NoDuplicates(s)
    requires i < j < |s|
    ensures LexLe(s[i], s[j]) && !LexLe(s[j], s[i])
  {
    SortedByPairwise(s, Id, i, j);
    LexLeAntisymmetric(s[i], s[j]);
  }

  // ---------------------------------------------------------------------------
  // Filtering, first match, projection.
  // ---------------------------------------------------------------------------

  /** The elements that satisfy `keep`, in their original order (`df[mask]`). */
  function Where<T(!new)>(s: seq<T>, keep: T -> bool): (r: seq<T>)
    ensures |r| <= |s|
    ensures forall x :: x in r <==> x in s && keep(x)
    decreases |s|
  {
    if s == [] then []
    else if keep(s[0]) then [s[0]] + Where(s[1..], keep)
    else Where(s[1..], keep)
  }

  /**
   * Filtering splits over concatenation: the kept elements of `a` come first,
   * then those of `b`, so the filter keeps the original order.
   */
  lemma {:induction false} WhereAppend<T(!new)>(a: seq<T>, b: seq<T>, keep: T -> bool)
    ensures Where(a + b, keep) == Where(a, keep) + Where(b, keep)
    decreases |a|
  {
    if a != [] {
      assert (a + b)[0] == a[0];
      assert (a + b)[1..] == a[1..] + b;
      WhereAppend(a[1..], b, keep);
    } else {
      assert a + b == b;
    }
  }

  /** Position `i` holds the first element of `s` that satisfies `keep`. */
  predicate IsFirst<T>(s: seq<T>, keep: T -> bool, i: int) {
    0 <= i < |s| && keep(s[i]) && forall j :: 0 <= j < i ==> !keep(s[j])
  }

  /** The first element, in order, that satisfies `keep` (`df[mask].iloc[0]`, `list.find`). */
  function Find<T>(s: seq<T>, keep: T -> bool): (r: Option<T>)
    ensures r.None? <==> forall i :: 0 <= i < |s| ==> !keep(s[i])
    ensures r.Some? ==> exists i :: IsFirst(s, keep, i) && s[i] == r.value
    decreases |s|
  {
    if s == [] then None
    else if keep(s[0]) then Some(s[0])
    else
      var r := Find(s[1..], keep);
      assert r.Some? ==> exists i :: IsFirst(s, keep, i) && s[i] == r.value by {
        if r.Some? {
          var i :| IsFirst(s[1..], keep, i) && s[1..][i] == r.value;
          assert forall j :: 0 < j <= i ==> s[j] == s[1..][j - 1];
          assert IsFirst(s, keep, i + 1);
        }
      }
      r
  }

  /** `f` applied to every element, in order (selecting a column). */
  function Map<T, U(!new)>(s: seq<T>, f: T -> U): (r: seq<U>)
    ensures |r| == |s|
    ensures forall i :: 0 <= i < |s| ==> r[i] == f(s[i])
    decreases |s|
  {
    if s == [] then [] else [f(s[0])] + Map(s[1..], f)
  }

  /** Mapping one more element of a prefix appends its image. */
  lemma MapPrefixStep<T, U(!new)>(s: seq<T>, f: T -> U, i: nat)
    requires i < |s|
    ensures Map(s[..i + 1], f) == Map(s[..i], f) + [f(s[i])]
  {
    var a, b := Map(s[..i + 1], f), Map(s[..i], f) + [f(s[i])];
    assert |a| == |b|;
    forall k | 0 <= k < |a| ensures a[k] == b[k] {
      assert s[..i + 1][k] == s[k];
    }
  }

  /** The column of the filtered rows holds exactly the values of the rows that pass. */
  lemma MapWhereMembership<T(!new), U(!new)>(s: seq<T>, keep: T -> bool, f: T -> U)
    ensures forall y :: y in Map(Where(s, keep), f) <==> exists x :: x in s && keep(x) && f(x) == y
  {
    var w := Where(s, keep);
    forall y | y in Map(w, f) ensures exists x :: x in s && keep(x) && f(x) == y {
      var i :| 0 <= i < |w| && f(w[i]) == y;
      assert w[i] in w;
    }
    forall y | exists x :: x in s && keep(x) && f(x) == y ensures y in Map(w, f) {
      var x :| x in s && keep(x) && f(x) == y;
      assert x in w;
      var i :| 0 <= i < |w| && w[i] == x;
      assert Map(w, f)[i] == y;
    }
  }

  /** Two tests that agree on every element find the same first element. */
  lemma {:induction false} FindSame<T>(s: seq<T>, p: T -> bool, q: T -> bool)
    requires forall i :: 0 <= i < |s| ==> p(s[i]) == q(s[i])
    ensures Find(s, p) == Find(s, q)
    decreases |s|
  {
    if s != [] && !p(s[0]) {
      assert forall i :: 0 <= i < |s[1..]| ==> s[1..][i] == s[i + 1];
      FindSame(s[1..], p, q);
    }
  }

  // ---------------------------------------------------------------------------
  // Dropping duplicates and sorting.
  // ---------------------------------------------------------------------------

  /** The first occurrence of every distinct value, in order (`unique()`, `drop_duplicates()`). */
  function Dedup<T(==,!new)>(s: seq<T>): (r: seq<T>)
    ensures NoDuplicates(r)
    ensures forall x :: x in r <==> x in s
    decreases |s|
  {
    if s == [] then []
    else
      var init, last := s[..|s| - 1], s[|s| - 1];
      assert s == init + [last];
      var d := Dedup(init);
      if last in d then d else d + [last]
  }

  /** Inserts `x` before the first element whose key is not below `x`'s. */
  function InsertBy<T(==)>(x: T, s: seq<T>, key: T -> string): (r: seq<T>)
    ensures multiset(r) == multiset(s) + multiset{x}
    ensures |r| == |s| + 1
    decreases |s|
  {
    if s == [] then [x]
    else if LexLe(key(x), key(s[0])) then [x] + s
    else
      assert s == [s[0]] + s[1..];
      [s[0]] + InsertBy(x, s[1..], key)
  }

  /** Inserting into a sorted list keeps it sorted, and puts `x` or the old head first. */
  lemma {:induction false} InsertBySorted<T>(x: T, s: seq<T>, key: T -> string)
    requires SortedBy(s, key)
    ensures SortedBy(InsertBy(x, s, key), key)
    ensures s == [] || InsertBy(x, s, key)[0] == x || InsertBy(x, s, key)[0] == s[0]
    decreases |s|
  {
    if s != [] && !LexLe(key(x), key(s[0])) {
      var tail := s[1..];
      assert SortedBy(tail, key) by {
        forall i | 0 < i < |tail| ensures LexLe(key(tail[i - 1]), key(tail[i])) {
          assert tail[i - 1] == s[i] && tail[i] == s[i + 1];
        }
      }
      InsertBySorted(x, tail, key);
      LexLeTotal(key(x), key(s[0]));
      var rest := InsertBy(x, tail, key);
      var r := [s[0]] + rest;
      forall i | 0 < i < |r| ensures LexLe(key(r[i - 1]), key(r[i])) {
        if i == 1 {
          assert r[1] == rest[0];
          assert tail != [] ==> tail[0] == s[1];
        } else {
          assert r[i - 1] == rest[i - 2] && r[i] == rest[i - 1];
        }
      }
    }
  }

  /** Inserting a new value into a duplicate-free list keeps it duplicate-free. */
  lemma {:induction false} InsertByDistinct<T>(x: T, s: seq<T>, key: T -> string)
    requires x !in s && NoDuplicates(s)
    ensures NoDuplicates(InsertBy(x, s, key))
    decreases |s|
  {
    if s != [] && !LexLe(key(x), key(s[0])) {
      var tail := s[1..];
      assert s == [s[0]] + tail;
      InsertByDistinct(x, tail, key);
      var rest := InsertBy(x, tail, key);
      assert s[0] !in multiset(rest);
      var r := [s[0]] + rest;
      forall i, j | 0 <= i < j < |r| ensures r[i] != r[j] {
        assert r[j] == rest[j - 1];
        if i > 0 { assert r[i] == rest[i - 1]; }
      }
    }
  }

  /** Equal multisets have equal members. */
  lemma SameMembers<T>(a: seq<T>, b: seq<T>)
    requires multiset(a) == multiset(b)
    ensures forall x :: x in a <==> x in b
  {
    forall x ensures x in a <==> x in b {
      assert x in a <==> x in multiset(a);
      assert x in b <==> x in multiset(b);
    }
  }

  /** A permutation of `s` that is sorted by `key` (`sorted`, `sort_values`). */
  function SortBy<T(==,!new)>(s: seq<T>, key: T -> string): (r: seq<T>)
    ensures SortedBy(r, key)
    ensures multiset(r) == multiset(s)
    ensures forall x :: x in r <==> x in s
    ensures NoDuplicates(s) ==> NoDuplicates(r)
    decreases |s|
  {
    if s == [] then []
    else
      var rest := SortBy(s[1..], key);
      assert s == [s[0]] + s[1..];
      InsertBySorted(s[0], rest, key);
      var r := InsertBy(s[0], rest, key);
      SameMembers(r, s);
      if NoDuplicates(s) then
        assert s[0] !in s[1..];
        assert NoDuplicates(s[1..]);
        InsertByDistinct(s[0], rest, key);
        r
      else r
  }

  /** The distinct values of `s` in ascending order (`sorted(series.unique())`). */
  function SortedUnique(s: seq<string>): (r: seq<string>)
    ensures Sorted(r) && NoDuplicates(r)
    ensures forall x :: x in r <==> x in s
  {
    SortBy(Dedup(s), Id)
  }
}
