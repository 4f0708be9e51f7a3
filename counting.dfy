/// `filter(...).length` and sums over a list, and the facts the scores need
/// about them: they add up over concatenation and ignore order.
module Counting {

  /// How many elements of `s` satisfy `p`.
  function CountIf<T>(s: seq<T>, p: T -> bool): (n: nat)
    ensures n <= |s|
  {
    if s == [] then 0 else CountIf(s[..|s| - 1], p) + (if p(s[|s| - 1]) then 1 else 0)
  }

  /// The sum of `f` over `s`.
  function SumOf<T>(s: seq<T>, f: T -> int): int {
    if s == [] then 0 else SumOf(s[..|s| - 1], f) + f(s[|s| - 1])
  }

  lemma {:induction false} CountIfAppend<T>(a: seq<T>, b: seq<T>, p: T -> bool)
    ensures CountIf(a + b, p) == CountIf(a, p) + CountIf(b, p)
  {
    if b == [] {
      assert a + b == a;
    } else {
      var init := b[..|b| - 1];
      assert (a + b)[..|a + b| - 1] == a + init;
      CountIfAppend(a, init, p);
    }
  }

  lemma {:induction false} SumOfAppend<T>(a: seq<T>, b: seq<T>, f: T -> int)
    ensures SumOf(a + b, f) == SumOf(a, f) + SumOf(b, f)
  {
    if b == [] {
      assert a + b == a;
    } else {
      var init := b[..|b| - 1];
      assert (a + b)[..|a + b| - 1] == a + init;
      SumOfAppend(a, init, f);
    }
  }

  /// Takes one occurrence of `x` out of `b`: `b` is `left + [x] + right`,
  /// and what remains has the multiset of `b` less that occurrence.
  lemma TakeOut<T>(b: seq<T>, x: T) returns (left: seq<T>, right: seq<T>)
    requires x in multiset(b)
    ensures b == left + [x] + right
    ensures multiset(left + right) + multiset{x} == multiset(b)
  {
    var j :| 0 <= j < |b| && b[j] == x;
    left, right := b[..j], b[j + 1..];
    assert b == left + [x] + right;
    assert multiset(b) == multiset(left) + multiset{x} + multiset(right);
  }

  /// Removing the same element from two equal multisets leaves equal ones.
  lemma Cancel<T>(m: multiset<T>, n: multiset<T>, x: T)
    requires m + multiset{x} == n + multiset{x}
    ensures m == n
  {
    forall y ensures m[y] == n[y] {
      assert (m + multiset{x})[y] == (n + multiset{x})[y];
    }
  }

  /// Reordering a list does not change a count over it.
  lemma {:induction false} CountIfPermutation<T>(a: seq<T>, b: seq<T>, p: T -> bool)
    requires multiset(a) == multiset(b)
    ensures CountIf(a, p) == CountIf(b, p)
  {
    if a == [] {
      assert |b| == |multiset(b)| == 0;
    } else {
      var x := a[|a| - 1];
      var init := a[..|a| - 1];
      assert a == init + [x];
      assert multiset(a) == multiset(init) + multiset{x};
      var left, right := TakeOut(b, x);
      Cancel(multiset(left + right), multiset(init), x);
      CountIfPermutation(init, left + right, p);
      CountIfAppend(left + [x], right, p);
      CountIfAppend(left, [x], p);
      CountIfAppend(left, right, p);
      assert [x][..0] == [];
    }
  }

  /// Reordering a list does not change a sum over it.
  lemma {:induction false} SumOfPermutation<T>(a: seq<T>, b: seq<T>, f: T -> int)
    requires multiset(a) == multiset(b)
    ensures SumOf(a, f) == SumOf(b, f)
  {
    if a == [] {
      assert |b| == |multiset(b)| == 0;
    } else {
      var x := a[|a| - 1];
      var init := a[..|a| - 1];
      assert a == init + [x];
      assert multiset(a) == multiset(init) + multiset{x};
      var left, right := TakeOut(b, x);
      Cancel(multiset(left + right), multiset(init), x);
      SumOfPermutation(init, left + right, f);
      SumOfAppend(left + [x], right, f);
      SumOfAppend(left, [x], f);
      SumOfAppend(left, right, f);
      assert [x][..0] == [];
    }
  }

  /// Sums of two functions that agree position by position are equal.
  lemma {:induction false} SumOfPointwise<T, U>(a: seq<T>, f: T -> int, b: seq<U>, g: U -> int)
    requires |a| == |b|
    requires forall i :: 0 <= i < |a| ==> f(a[i]) == g(b[i])
    ensures SumOf(a, f) == SumOf(b, g)
  {
    if a != [] {
      var n := |a| - 1;
      assert forall i :: 0 <= i < n ==> a[..n][i] == a[i] && b[..n][i] == b[i];
      SumOfPointwise(a[..n], f, b[..n], g);
    }
  }

  /// Raising `f` by one at `k` raises its sum by the number of times `k`
  /// occurs.
  lemma {:induction false} SumOfBump<T>(s: seq<T>, f: T -> int, g: T -> int, k: T)
    requires forall x :: g(x) == f(x) + (if x == k then 1 else 0)
    ensures SumOf(s, g) == SumOf(s, f) + multiset(s)[k]
  {
    if s != [] {
      var init := s[..|s| - 1];
      assert s == init + [s[|s| - 1]];
      SumOfBump(init, f, g, k);
    }
  }
}
