/** Subsequences: some items left out, the order kept. */
module Sequences {
  predicate Subsequence<T(==)>(a: seq<T>, b: seq<T>) {
    if a == [] then true
    else if b == [] then false
    else (a[0] == b[0] && Subsequence(a[1..], b[1..])) || Subsequence(a, b[1..])
  }

  lemma {:induction false} SelfSubsequence<T>(q: seq<T>)
    ensures Subsequence(q, q)
  {
    if q != [] { SelfSubsequence(q[1..]); }
  }

  lemma Prepended<T>(x: T, a: seq<T>, b: seq<T>)
    requires Subsequence(a, b)
    ensures Subsequence([x] + a, [x] + b) && Subsequence(a, [x] + b)
  {
    assert ([x] + a)[1..] == a && ([x] + b)[1..] == b;
  }

  /** Both grow by the same item. */
  lemma {:induction false} BothGrow<T>(a: seq<T>, b: seq<T>, x: T)
    requires Subsequence(a, b)
    ensures Subsequence(a + [x], b + [x])
    decreases |b|
  {
    if b == [] {
      assert a == [];
      SelfSubsequence([x]);
      assert a + [x] == [x] && b + [x] == [x];
    } else {
      assert b + [x] == [b[0]] + (b[1..] + [x]);
      if Subsequence(a, b[1..]) {
        BothGrow(a, b[1..], x);
        Prepended(b[0], a + [x], b[1..] + [x]);
      } else {
        BothGrow(a[1..], b[1..], x);
        Prepended(b[0], a[1..] + [x], b[1..] + [x]);
        assert a + [x] == [b[0]] + (a[1..] + [x]);
      }
    }
  }

  /** One more item may be left out. */
  lemma {:induction false} LeftOut<T>(a: seq<T>, x: T, c: seq<T>, b: seq<T>)
    requires Subsequence(a + [x] + c, b)
    ensures Subsequence(a + c, b)
    decreases |b|
  {
    if a == [] {
      assert a + [x] + c == [x] + c && a + c == c;
      TailOf(x, c, b);
    } else if b != [] {
      var whole, less := a + [x] + c, a + c;
      assert whole[0] == less[0] == a[0] && whole[1..] == a[1..] + [x] + c && less[1..] == a[1..] + c;
      if a[0] == b[0] && Subsequence(whole[1..], b[1..]) {
        LeftOut(a[1..], x, c, b[1..]);
      } else {
        LeftOut(a, x, c, b[1..]);
      }
    }
  }

  lemma {:induction false} TailOf<T>(x: T, c: seq<T>, b: seq<T>)
    requires Subsequence([x] + c, b)
    ensures Subsequence(c, b)
    decreases |b|
  {
    assert ([x] + c)[1..] == c;
    if b != [] {
      if Subsequence([x] + c, b[1..]) {
        TailOf(x, c, b[1..]);
      }
      assert b == [b[0]] + b[1..];
      Prepended(b[0], c, b[1..]);
    }
  }

  predicate Distinct<T(==)>(q: seq<T>) {
    forall i, j :: 0 <= i < j < |q| ==> q[i] != q[j]
  }

  lemma {:induction false} AllFrom<T>(a: seq<T>, b: seq<T>)
    requires Subsequence(a, b)
    ensures forall x :: x in a ==> x in b
    decreases |b|
  {
    if a != [] {
      if Subsequence(a, b[1..]) {
        AllFrom(a, b[1..]);
      } else {
        AllFrom(a[1..], b[1..]);
        assert a == [a[0]] + a[1..] && b == [b[0]] + b[1..];
      }
    }
  }

  lemma {:induction false} StaysDistinct<T>(a: seq<T>, b: seq<T>)
    requires Subsequence(a, b) && Distinct(b)
    ensures Distinct(a)
    decreases |b|
  {
    if a != [] {
      assert forall i, j :: 0 <= i < j < |b[1..]| ==> b[1..][i] != b[1..][j];
      if Subsequence(a, b[1..]) {
        StaysDistinct(a, b[1..]);
      } else {
        StaysDistinct(a[1..], b[1..]);
        AllFrom(a[1..], b[1..]);
        forall i, j | 0 <= i < j < |a| ensures a[i] != a[j] {
          if i == 0 { assert a[j] == a[1..][j - 1] && a[j] in b[1..]; } else { assert a[i] == a[1..][i - 1] && a[j] == a[1..][j - 1]; }
        }
      }
    }
  }
}
