/** Finite sums over sequences, as Python's `sum(f(x) for x in s)`. */
module Sums {

  /** Sum of `f` over `s`, peeled off at the end so that a loop summing left to right
      keeps `total == SumReal(s[..i], f)` as its invariant. */
  function SumReal<T>(s: seq<T>, f: T -> real): real
  {
    if |s| == 0 then 0.0 else SumReal(s[..|s| - 1], f) + f(s[|s| - 1])
  }

  function SumInt<T>(s: seq<T>, f: T -> int): int
  {
    if |s| == 0 then 0 else SumInt(s[..|s| - 1], f) + f(s[|s| - 1])
  }

  /** A sum over a concatenation is the sum of the two sums. */
  lemma {:induction false} SumRealConcat<T>(s: seq<T>, t: seq<T>, f: T -> real)
    ensures SumReal(s + t, f) == SumReal(s, f) + SumReal(t, f)
  {
    if |t| == 0 {
      assert s + t == s;
    } else {
      assert (s + t)[..|s + t| - 1] == s + t[..|t| - 1];
      SumRealConcat(s, t[..|t| - 1], f);
    }
  }

  lemma {:induction false} SumIntConcat<T>(s: seq<T>, t: seq<T>, f: T -> int)
    ensures SumInt(s + t, f) == SumInt(s, f) + SumInt(t, f)
  {
    if |t| == 0 {
      assert s + t == s;
    } else {
      assert (s + t)[..|s + t| - 1] == s + t[..|t| - 1];
      SumIntConcat(s, t[..|t| - 1], f);
    }
  }

  lemma SumRealSingleton<T>(x: T, f: T -> real)
    ensures SumReal([x], f) == f(x)
  {
    assert [x][..0] == [];
  }

  lemma SumIntSingleton<T>(x: T, f: T -> int)
    ensures SumInt([x], f) == f(x)
  {
    assert [x][..0] == [];
  }

  /** The sum of a prefix one element longer adds that element. */
  lemma SumRealSnoc<T>(s: seq<T>, i: nat, f: T -> real)
    requires i < |s|
    ensures SumReal(s[..i + 1], f) == SumReal(s[..i], f) + f(s[i])
  {
    assert s[..i + 1][..i] == s[..i];
  }

  /** Non-negative terms give a non-negative sum. */
  lemma {:induction false} SumRealNonNegative<T>(s: seq<T>, f: T -> real)
    requires forall i :: 0 <= i < |s| ==> f(s[i]) >= 0.0
    ensures SumReal(s, f) >= 0.0
  {
    if |s| > 0 {
      assert forall i :: 0 <= i < |s| - 1 ==> s[..|s| - 1][i] == s[i];
      SumRealNonNegative(s[..|s| - 1], f);
    }
  }

  /** Two term functions that agree on every element give the same sum. */
  lemma {:induction false} SumRealAgree<T>(s: seq<T>, f: T -> real, g: T -> real)
    requires forall i :: 0 <= i < |s| ==> f(s[i]) == g(s[i])
    ensures SumReal(s, f) == SumReal(s, g)
  {
    if |s| > 0 {
      assert forall i :: 0 <= i < |s| - 1 ==> s[..|s| - 1][i] == s[i];
      SumRealAgree(s[..|s| - 1], f, g);
    }
  }

  /** Multiplying by a non-negative number keeps order. */
  lemma MulMonotone(k: real, a: real, b: real)
    requires k >= 0.0 && a <= b
    ensures k * a <= k * b && a * k <= b * k
  {
  }

  /** Dividing by a positive number keeps order. */
  lemma DivMonotone(a: real, b: real, c: real)
    requires a <= b && c > 0.0
    ensures a / c <= b / c
  {
    var x, y := a / c, b / c;
    assert x * c == a && y * c == b;
    if x > y {
      assert false;
    }
  }

  /** A non-negative number divided by a larger positive number gives no more. */
  lemma DivAntitone(n: real, a: real, b: real)
    requires n >= 0.0 && 0.0 < a <= b
    ensures n / b <= n / a
  {
    var x, y := n / b, n / a;
    assert x * b == n && y * a == n;
    assert y >= 0.0;
    assert y * a <= y * b;
    if x > y {
      assert false;
    }
  }
}
