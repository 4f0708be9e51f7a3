/// `Array.prototype.filter` and the stable `Array.prototype.sort` (stable
/// since ECMAScript 2019) for a comparator `(a, b) => key(a) - key(b)`.
module Sorting {

  function Filter<T>(s: seq<T>, p: T -> bool): (r: seq<T>)
    ensures |r| <= |s|
    ensures forall i :: 0 <= i < |r| ==> p(r[i])
    ensures multiset(r) <= multiset(s)
    ensures forall x :: x in s && p(x) ==> x in r
  {
    if s == [] then []
    else
      var rest := Filter(s[1..], p);
      assert s == [s[0]] + s[1..];
      if p(s[0]) then [s[0]] + rest else rest
  }

  predicate SortedBy<T>(s: seq<T>, key: T -> int) {
    forall i, j :: 0 <= i < j < |s| ==> key(s[i]) <= key(s[j])
  }

  /// The elements of `s` whose key is `k`, in their order in `s`.
  function WithKey<T>(s: seq<T>, key: T -> int, k: int): seq<T> {
    if s == [] then []
    else if key(s[0]) == k then [s[0]] + WithKey(s[1..], key, k)
    else WithKey(s[1..], key, k)
  }

  /// Where `x` goes in `s`: after every element whose key is not greater
  /// than its own.
  function InsertPos<T>(s: seq<T>, x: T, key: T -> int): (p: nat)
    requires SortedBy(s, key)
    ensures p <= |s|
    ensures forall i :: 0 <= i < p ==> key(s[i]) <= key(x)
    ensures forall i :: p <= i < |s| ==> key(x) < key(s[i])
  {
    if s == [] || key(x) < key(s[0]) then 0 else 1 + InsertPos(s[1..], x, key)
  }

  /// Inserting `x` at its place keeps a sorted list sorted.
  lemma InsertSorted<T>(s: seq<T>, x: T, key: T -> int, p: nat)
    requires SortedBy(s, key) && p <= |s|
    requires forall i :: 0 <= i < p ==> key(s[i]) <= key(x)
    requires forall i :: p <= i < |s| ==> key(x) < key(s[i])
    ensures SortedBy(s[..p] + [x] + s[p..], key)
  {
    var r := s[..p] + [x] + s[p..];
    forall i, j | 0 <= i < j < |r| ensures key(r[i]) <= key(r[j]) {
      var ki := if i < p then key(s[i]) else if i == p then key(x) else key(s[i - 1]);
      var kj := if j < p then key(s[j]) else if j == p then key(x) else key(s[j - 1]);
      assert key(r[i]) == ki && key(r[j]) == kj;
    }
  }

  function InsertBy<T>(s: seq<T>, x: T, key: T -> int): (r: seq<T>)
    requires SortedBy(s, key)
    ensures multiset(r) == multiset(s) + multiset{x}
    ensures |r| == |s| + 1
    ensures SortedBy(r, key)
  {
    var p := InsertPos(s, x, key);
    assert s == s[..p] + s[p..];
    InsertSorted(s, x, key, p);
    s[..p] + [x] + s[p..]
  }

  /// Stable sort: insertion of each element, in order, behind its equals.
  function SortBy<T>(s: seq<T>, key: T -> int): (r: seq<T>)
    ensures multiset(r) == multiset(s)
    ensures |r| == |s|
    ensures SortedBy(r, key)
  {
    if s == [] then []
    else
      var r := InsertBy(SortBy(s[..|s| - 1], key), s[|s| - 1], key);
      assert s == s[..|s| - 1] + [s[|s| - 1]];
      r
  }

  /// Sorting two elements: they swap only when the second has the smaller key.
  lemma SortBySnoc<T>(s: seq<T>, x: T, key: T -> int)
    ensures SortBy(s + [x], key) == InsertBy(SortBy(s, key), x, key)
  {
    assert (s + [x])[..|s|] == s;
  }

  lemma SortByOne<T>(x: T, key: T -> int)
    ensures SortBy([x], key) == [x]
  {
    SortBySnoc([], x, key);
    assert [] + [x] == [x];
    InsertByShape([], x, key);
  }

  lemma InsertByOne<T>(x: T, y: T, key: T -> int)
    requires SortedBy([x], key)
    ensures InsertBy([x], y, key) == if key(y) < key(x) then [y, x] else [x, y]
  {
    InsertByShape([x], y, key);
    if key(y) < key(x) {
      assert InsertPos([x], y, key) == 0;
      assert [x][..0] + [y] + [x][0..] == [y, x];
    } else {
      assert InsertPos([x], y, key) == 1;
      assert [x][..1] + [y] + [x][1..] == [x, y];
    }
  }

  lemma SortByTwo<T>(x: T, y: T, key: T -> int)
    ensures SortBy([x, y], key) == if key(y) < key(x) then [y, x] else [x, y]
  {
    SortBySnoc([x], y, key);
    assert [x] + [y] == [x, y];
    SortByOne(x, key);
    InsertByOne(x, y, key);
  }

  lemma {:induction false} WithKeyAppend<T>(a: seq<T>, b: seq<T>, key: T -> int, k: int)
    ensures WithKey(a + b, key, k) == WithKey(a, key, k) + WithKey(b, key, k)
  {
    if a == [] {
      assert a + b == b;
    } else {
      assert (a + b)[0] == a[0];
      assert (a + b)[1..] == a[1..] + b;
      WithKeyAppend(a[1..], b, key, k);
    }
  }

  /// Where `InsertBy` puts `x`.
  lemma InsertByShape<T>(s: seq<T>, x: T, key: T -> int)
    requires SortedBy(s, key)
    ensures InsertBy(s, x, key) == s[..InsertPos(s, x, key)] + [x] + s[InsertPos(s, x, key)..]
  {
  }

  /// Putting `x` in front of elements of greater key adds it last among
  /// the elements of its key.
  lemma WithKeyInsert<T>(a: seq<T>, x: T, b: seq<T>, key: T -> int, k: int)
    requires forall i :: 0 <= i < |b| ==> key(x) < key(b[i])
    ensures WithKey(a + [x] + b, key, k) == WithKey(a + b, key, k) + (if key(x) == k then [x] else [])
  {
    assert WithKey([x], key, k) == if key(x) == k then [x] else [] by {
      assert [x][1..] == [];
    }
    WithKeyAppend(a, b, key, k);
    WithKeyAppend(a, [x], key, k);
    WithKeyAppend(a + [x], b, key, k);
    if key(x) == k {
      NoneWithKey(b, key, k);
    }
  }

  lemma InsertByWithKey<T>(s: seq<T>, x: T, key: T -> int, k: int)
    requires SortedBy(s, key)
    ensures WithKey(InsertBy(s, x, key), key, k) == WithKey(s, key, k) + (if key(x) == k then [x] else [])
  {
    var p := InsertPos(s, x, key);
    var a, b := s[..p], s[p..];
    InsertByShape(s, x, key);
    GreaterAfter(s, x, key, p);
    WithKeyInsert(a, x, b, key, k);
    assert a + b == s;
  }

  lemma GreaterAfter<T>(s: seq<T>, x: T, key: T -> int, p: nat)
    requires p <= |s| && forall i :: p <= i < |s| ==> key(x) < key(s[i])
    ensures forall i :: 0 <= i < |s[p..]| ==> key(x) < key(s[p..][i])
  {
    forall i | 0 <= i < |s[p..]| ensures key(x) < key(s[p..][i]) {
      assert s[p..][i] == s[p + i];
    }
  }

  lemma {:induction false} NoneWithKey<T>(s: seq<T>, key: T -> int, k: int)
    requires forall i :: 0 <= i < |s| ==> k < key(s[i])
    ensures WithKey(s, key, k) == []
  {
    if s != [] {
      NoneWithKey(s[1..], key, k);
    }
  }

  /// The sort is stable: elements with equal keys keep their relative order,
  /// which together with sortedness and the permutation fixes the result.
  lemma {:induction false} SortByStable<T>(s: seq<T>, key: T -> int, k: int)
    ensures WithKey(SortBy(s, key), key, k) == WithKey(s, key, k)
  {
    if s != [] {
      var init := s[..|s| - 1];
      SortByStable(init, key, k);
      InsertByWithKey(SortBy(init, key), s[|s| - 1], key, k);
      assert s == init + [s[|s| - 1]];
      WithKeyAppend(init, [s[|s| - 1]], key, k);
    }
  }

  /// Filtering a list extended by one element.
  lemma {:induction false} FilterSnoc<T>(s: seq<T>, x: T, p: T -> bool)
    ensures Filter(s + [x], p) == Filter(s, p) + (if p(x) then [x] else [])
  {
    if s == [] {
      assert [x][1..] == [];
    } else {
      assert (s + [x])[0] == s[0];
      assert (s + [x])[1..] == s[1..] + [x];
      FilterSnoc(s[1..], x, p);
    }
  }
}
