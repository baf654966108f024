/** Sums of a measure over a sequence: the accounting shared by the protocol models. */
module Sums {

  /** The sum of `f` over the elements of `s`. */
  function Sum<T>(f: T -> int, s: seq<T>): int {
    if s == [] then 0 else f(s[0]) + Sum(f, s[1..])
  }

  lemma {:induction false} SumConcat<T>(f: T -> int, a: seq<T>, b: seq<T>)
    ensures Sum(f, a + b) == Sum(f, a) + Sum(f, b)
  {
    if a == [] {
      assert a + b == b;
    } else {
      assert (a + b)[1..] == a[1..] + b;
      SumConcat(f, a[1..], b);
    }
  }

  lemma {:induction false} SumUpdate<T>(f: T -> int, s: seq<T>, i: nat, x: T)
    requires i < |s|
    ensures Sum(f, s[i := x]) == Sum(f, s) - f(s[i]) + f(x)
  {
    if i == 0 {
      assert s[i := x][1..] == s[1..];
    } else {
      assert s[i := x][1..] == s[1..][i - 1 := x];
      SumUpdate(f, s[1..], i - 1, x);
    }
  }

  /** A sum of terms between `lo` and `hi` lies between `lo * |s|` and `hi * |s|`. */
  lemma {:induction false} SumBounds<T>(f: T -> int, s: seq<T>, lo: int, hi: int)
    requires forall x <- s :: lo <= f(x) <= hi
    ensures lo * |s| <= Sum(f, s) <= hi * |s|
  {
    if s != [] {
      assert forall x <- s[1..] :: x in s;
      SumBounds(f, s[1..], lo, hi);
      OneMore(lo, |s[1..]|);
      OneMore(hi, |s[1..]|);
    }
  }

  lemma OneMore(c: int, n: int)
    ensures c * (n + 1) == c * n + c
  {
  }

  /** A sum of non-negative terms is at least each of them. */
  lemma {:induction false} SumTerm<T>(f: T -> int, s: seq<T>, i: nat)
    requires forall x <- s :: 0 <= f(x)
    requires i < |s|
    ensures f(s[i]) <= Sum(f, s)
  {
    assert forall x <- s[1..] :: x in s;
    if i == 0 {
      SumBounds(f, s[1..], 0, Max(f, s[1..]));
    } else {
      SumTerm(f, s[1..], i - 1);
    }
  }

  function Max<T>(f: T -> int, s: seq<T>): (m: int)
    ensures forall x <- s :: f(x) <= m
  {
    if s == [] then 0
    else var rest := Max(f, s[1..]); if f(s[0]) > rest then f(s[0]) else rest
  }

  lemma {:induction false} SumAdd<T>(f: T -> int, g: T -> int, h: T -> int, s: seq<T>)
    requires forall x <- s :: h(x) == f(x) + g(x)
    ensures Sum(h, s) == Sum(f, s) + Sum(g, s)
  {
    if s != [] {
      assert forall x <- s[1..] :: x in s;
      SumAdd(f, g, h, s[1..]);
    }
  }

  /** A sum below `hi * |s|` has a term below `hi`. */
  lemma {:induction false} SumBelow<T>(f: T -> int, s: seq<T>, hi: int) returns (i: nat)
    requires Sum(f, s) < hi * |s|
    ensures i < |s| && f(s[i]) < hi
  {
    if f(s[0]) < hi {
      i := 0;
    } else {
      OneMore(hi, |s[1..]|);
      var k := SumBelow(f, s[1..], hi);
      i := k + 1;
    }
  }

  /** A sum of terms of at most 1 with a term that is not positive falls short of the length. */
  lemma {:induction false} SumMissing<T>(f: T -> int, s: seq<T>, k: nat)
    requires forall x <- s :: f(x) <= 1
    requires k < |s| && f(s[k]) <= 0
    ensures Sum(f, s) < |s|
  {
    var one := (x: T) => 1 - f(x);
    SumBounds(x => 1, s, 1, 1);
    SumAdd(f, one, x => 1, s);
    SumTerm(one, s, k);
  }
}
