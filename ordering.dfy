/** The `ORDER BY` of a queryset: rows are ranked by a key, a sequence of integers
    compared lexicographically (one integer per ordering column, negated for a
    descending column), and the result is sorted by that key. */
module Ordering {

  /** Lexicographic order on keys; a key that is a prefix of another comes first. */
  predicate KeyLe(a: seq<int>, b: seq<int>)
    decreases |a|
  {
    |a| == 0 || (|b| > 0 && (a[0] < b[0] || (a[0] == b[0] && KeyLe(a[1..], b[1..]))))
  }

  lemma {:induction false} KeyLeTotal(a: seq<int>, b: seq<int>)
    ensures KeyLe(a, b) || KeyLe(b, a)
    decreases |a|
  {
    if |a| > 0 && |b| > 0 && a[0] == b[0] {
      KeyLeTotal(a[1..], b[1..]);
    }
  }

  lemma {:induction false} KeyLeTransitive(a: seq<int>, b: seq<int>, c: seq<int>)
    requires KeyLe(a, b) && KeyLe(b, c)
    ensures KeyLe(a, c)
    decreases |a|
  {
    if |a| > 0 && a[0] == b[0] && b[0] == c[0] {
      KeyLeTransitive(a[1..], b[1..], c[1..]);
    }
  }

  /** For three-column keys the order is compared column by column. */
  lemma KeyLeThree(a: seq<int>, b: seq<int>)
    requires |a| == 3 && |b| == 3 && KeyLe(a, b)
    ensures a[0] <= b[0]
    ensures a[0] == b[0] ==> a[1] <= b[1]
    ensures a[0] == b[0] && a[1] == b[1] ==> a[2] <= b[2]
  {
    if a[0] == b[0] {
      assert KeyLe(a[1..], b[1..]);
      if a[1] == b[1] {
        assert a[1..][1..] == a[2..] && b[1..][1..] == b[2..];
        assert KeyLe(a[2..], b[2..]);
      }
    }
  }

  predicate SortedBy<T>(s: seq<T>, key: T -> seq<int>) {
    forall i, j :: 0 <= i < j < |s| ==> KeyLe(key(s[i]), key(s[j]))
  }

  /** Inserts `x` before the first element that ranks strictly after it. */
  function Insert<T>(x: T, s: seq<T>, key: T -> seq<int>): (r: seq<T>)
    requires SortedBy(s, key)
    ensures SortedBy(r, key)
    ensures multiset(r) == multiset(s) + multiset{x}
    decreases |s|
  {
    if s == [] then [x]
    else if KeyLe(key(x), key(s[0])) then
      HeadFirst(x, s, key);
      ConsSorted(x, s, key);
      [x] + s
    else
      var rest := Insert(x, s[1..], key);
      assert s == [s[0]] + s[1..];
      HeadBeforeRest(x, s, rest, key);
      ConsSorted(s[0], rest, key);
      [s[0]] + rest
  }

  /** An element ranking no later than the head of a sorted sequence ranks no later than
      any of its elements. */
  lemma HeadFirst<T>(x: T, s: seq<T>, key: T -> seq<int>)
    requires SortedBy(s, key) && s != [] && KeyLe(key(x), key(s[0]))
    ensures forall j :: 0 <= j < |s| ==> KeyLe(key(x), key(s[j]))
  {
    forall j | 0 <= j < |s| ensures KeyLe(key(x), key(s[j])) {
      if j > 0 { KeyLeTransitive(key(x), key(s[0]), key(s[j])); }
    }
  }

  /** When `x` ranks after the head, the head ranks no later than anything in the tail
      with `x` inserted. */
  lemma HeadBeforeRest<T>(x: T, s: seq<T>, rest: seq<T>, key: T -> seq<int>)
    requires SortedBy(s, key) && s != [] && !KeyLe(key(x), key(s[0]))
    requires multiset(rest) == multiset(s[1..]) + multiset{x}
    ensures forall j :: 0 <= j < |rest| ==> KeyLe(key(s[0]), key(rest[j]))
  {
    KeyLeTotal(key(x), key(s[0]));
    forall j | 0 <= j < |rest| ensures KeyLe(key(s[0]), key(rest[j])) {
      assert rest[j] in multiset(rest);
      if rest[j] != x {
        assert rest[j] in multiset(s[1..]);
        var k :| 0 <= k < |s[1..]| && s[1..][k] == rest[j];
        assert s[k + 1] == rest[j];
      }
    }
  }

  /** A head that ranks no later than every element of a sorted tail keeps it sorted. */
  lemma ConsSorted<T>(h: T, s: seq<T>, key: T -> seq<int>)
    requires SortedBy(s, key)
    requires forall j :: 0 <= j < |s| ==> KeyLe(key(h), key(s[j]))
    ensures SortedBy([h] + s, key)
  {
    var r := [h] + s;
    forall i, j | 0 <= i < j < |r| ensures KeyLe(key(r[i]), key(r[j])) {
      assert r[j] == s[j - 1];
      if i > 0 { assert r[i] == s[i - 1]; }
    }
  }

  /** Insertion sort: a sorted permutation of the input. */
  function SortByKey<T>(s: seq<T>, key: T -> seq<int>): (r: seq<T>)
    ensures SortedBy(r, key)
    ensures multiset(r) == multiset(s)
    ensures |r| == |s|
    decreases |s|
  {
    if s == [] then []
    else
      var rest := SortByKey(s[1..], key);
      assert s == [s[0]] + s[1..];
      var r := Insert(s[0], rest, key);
      assert |r| == |multiset(r)|;
      r
  }

  /** A sorted permutation keeps exactly the input's elements. */
  lemma SortByKeyElements<T>(s: seq<T>, key: T -> seq<int>)
    ensures forall x :: x in SortByKey(s, key) <==> x in s
  {
    var r := SortByKey(s, key);
    forall x ensures x in r <==> x in s {
      assert x in r <==> x in multiset(r);
      assert x in s <==> x in multiset(s);
    }
  }

  /** In a sorted sequence, an element of a prefix ranks no later than one left out. */
  lemma PrefixRanksFirst<T>(s: seq<T>, key: T -> seq<int>, n: nat, x: T, y: T)
    requires n <= |s| && SortedBy(s, key)
    requires x in s && x !in s[..n] && y in s[..n]
    ensures KeyLe(key(y), key(x))
  {
    var i :| 0 <= i < n && s[..n][i] == y;
    var m :| 0 <= m < |s| && s[m] == x;
    assert s[i] == y;
  }

  /** Inserting under two keys that agree on the elements involved gives the same
      sequence. */
  lemma {:induction false} InsertAgree<T>(x: T, s: seq<T>, k1: T -> seq<int>, k2: T -> seq<int>)
    requires SortedBy(s, k1) && SortedBy(s, k2)
    requires k1(x) == k2(x) && forall y :: y in s ==> k1(y) == k2(y)
    ensures Insert(x, s, k1) == Insert(x, s, k2)
    decreases |s|
  {
    if s != [] && !KeyLe(k1(x), k1(s[0])) {
      assert forall y :: y in s[1..] ==> y in s;
      InsertAgree(x, s[1..], k1, k2);
    }
  }

  /** Sorting depends only on the keys of the elements sorted. */
  lemma {:induction false} SortByKeyAgree<T>(s: seq<T>, k1: T -> seq<int>, k2: T -> seq<int>)
    requires forall y :: y in s ==> k1(y) == k2(y)
    ensures SortByKey(s, k1) == SortByKey(s, k2)
    decreases |s|
  {
    if s != [] {
      SortByKeyAgree(s[1..], k1, k2);
      var rest := SortByKey(s[1..], k1);
      assert rest == SortByKey(s[1..], k2);
      forall y | y in rest ensures k1(y) == k2(y) {
        assert y in multiset(rest);
        assert y in multiset(s[1..]);
        assert y in s;
      }
      assert s[0] in s;
      InsertAgree(s[0], rest, k1, k2);
      assert SortByKey(s, k1) == Insert(s[0], rest, k1);
      assert SortByKey(s, k2) == Insert(s[0], rest, k2);
    }
  }

  /** The key of a text column: its characters' code points, so that `KeyLe` is the
      code-point order of the strings. */
  function TextKey(s: string): (k: seq<int>)
    ensures |k| == |s|
    ensures forall i :: 0 <= i < |s| ==> k[i] == s[i] as int
  {
    seq(|s|, i requires 0 <= i < |s| => s[i] as int)
  }
}
