/** The reductions the schedulers take from NumPy and Python over a vector of
    reals: `max`, `min`, `argmax`, `argmin` (both return the FIRST index
    holding the extreme value) and `sum`. */
module Stats {

  /** `np.argmax`: the first index holding the largest value. */
  function ArgMax(s: seq<real>): (r: nat)
    requires |s| > 0
    ensures r < |s|
    ensures forall j :: 0 <= j < |s| ==> s[j] <= s[r]
    ensures forall j :: 0 <= j < r ==> s[j] < s[r]
    decreases |s|
  {
    if |s| == 1 then 0
    else
      var k := ArgMax(s[..|s| - 1]);
      if s[|s| - 1] > s[k] then |s| - 1 else k
  }

  /** `np.argmin`: the first index holding the smallest value. */
  function ArgMin(s: seq<real>): (r: nat)
    requires |s| > 0
    ensures r < |s|
    ensures forall j :: 0 <= j < |s| ==> s[r] <= s[j]
    ensures forall j :: 0 <= j < r ==> s[r] < s[j]
    decreases |s|
  {
    if |s| == 1 then 0
    else
      var k := ArgMin(s[..|s| - 1]);
      if s[|s| - 1] < s[k] then |s| - 1 else k
  }

  /** `max(s)`: an element of `s` no element exceeds. */
  function MaxOf(s: seq<real>): (m: real)
    requires |s| > 0
    ensures m in s
    ensures forall j :: 0 <= j < |s| ==> s[j] <= m
  {
    s[ArgMax(s)]
  }

  /** `min(s)`: an element of `s` no element is below. */
  function MinOf(s: seq<real>): (m: real)
    requires |s| > 0
    ensures m in s
    ensures forall j :: 0 <= j < |s| ==> m <= s[j]
  {
    s[ArgMin(s)]
  }

  /** `sum(s)`, folded from the left. */
  function SumOf(s: seq<real>): real
    decreases |s|
  {
    if s == [] then 0.0 else SumOf(s[..|s| - 1]) + s[|s| - 1]
  }

  predicate NonNegative(s: seq<real>)
  {
    forall j :: 0 <= j < |s| ==> s[j] >= 0.0
  }

  /** A sum of non-negative terms is at least each of its terms (so at least 0). */
  lemma {:induction false} SumOfAtLeastTerm(s: seq<real>, k: nat)
    requires NonNegative(s) && k < |s|
    ensures 0.0 <= s[k] <= SumOf(s)
    decreases |s|
  {
    var n := |s| - 1;
    SumOfNonNegative(s[..n]);
    if k < n {
      SumOfAtLeastTerm(s[..n], k);
    }
  }

  lemma {:induction false} SumOfNonNegative(s: seq<real>)
    requires NonNegative(s)
    ensures SumOf(s) >= 0.0
    decreases |s|
  {
    if s != [] {
      SumOfNonNegative(s[..|s| - 1]);
    }
  }

  /** A sum of non-negative terms is zero exactly when every term is. */
  lemma {:induction false} SumOfZero(s: seq<real>)
    requires NonNegative(s)
    ensures SumOf(s) == 0.0 <==> forall j :: 0 <= j < |s| ==> s[j] == 0.0
    decreases |s|
  {
    if s != [] {
      var n := |s| - 1;
      SumOfZero(s[..n]);
      SumOfNonNegative(s[..n]);
      if SumOf(s) == 0.0 {
        assert forall j :: 0 <= j < n ==> s[..n][j] == s[j];
      }
    }
  }

  /** `sum(ones(n) * x) == n * x`. */
  lemma {:induction false} SumOfConstant(s: seq<real>, x: real)
    requires forall j :: 0 <= j < |s| ==> s[j] == x
    ensures SumOf(s) == |s| as real * x
    decreases |s|
  {
    if s != [] {
      SumOfConstant(s[..|s| - 1], x);
    }
  }

  /** Dividing every term by `c` divides the sum by `c`. */
  lemma {:induction false} SumOfDivided(s: seq<real>, t: seq<real>, c: real)
    requires c != 0.0 && |t| == |s|
    requires forall j :: 0 <= j < |s| ==> t[j] == s[j] / c
    ensures SumOf(t) == SumOf(s) / c
    decreases |s|
  {
    if s != [] {
      var n := |s| - 1;
      SumOfDivided(s[..n], t[..n], c);
      assert SumOf(t) == SumOf(s[..n]) / c + s[n] / c;
    }
  }

  // Facts of real arithmetic the solver does not find unaided.

  lemma MultiplyMonotone(a: real, b: real, c: real)
    requires a <= b && c > 0.0
    ensures a * c <= b * c
  {
    assert b * c - a * c == (b - a) * c;
  }

  lemma DivideMonotone(a: real, b: real, c: real)
    requires a <= b && c > 0.0
    ensures a / c <= b / c
  {
    assert b / c - a / c == (b - a) / c;
  }

  lemma DivideSubtract(a: real, b: real, c: real)
    requires c != 0.0
    ensures a / c - b / c == (a - b) / c
  {
  }

  lemma DivideSelf(d: real)
    requires d != 0.0
    ensures d / d == 1.0
  {
  }

  lemma DivideStrict(a: real, b: real, c: real)
    requires a < b && c > 0.0
    ensures a / c < b / c
  {
    assert b / c - a / c == (b - a) / c;
    PositiveQuotient(b - a, c);
  }

  lemma MultiplyDivide(a: real, b: real, c: real)
    requires c != 0.0 && b == a * c
    ensures b / c == a
  {
  }

  lemma MultiplyInverse(n: real)
    requires n != 0.0
    ensures n * (1.0 / n) == 1.0
  {
  }

  lemma PositiveProduct(a: real, b: real)
    requires a > 0.0 && b > 0.0
    ensures a * b > 0.0
  {
  }

  lemma PositiveQuotient(a: real, b: real)
    requires a > 0.0 && b > 0.0
    ensures a / b > 0.0
  {
    assert a / b * b == a;
  }
}
