/** Finite sums and weighted means over exact reals. */
module Linear {
  type Matrix = seq<seq<real>>

  ghost predicate Shape(x: Matrix, n: nat, m: nat) {
    |x| == n && forall i :: 0 <= i < n ==> |x[i]| == m
  }

  /// The entry at a row and a column, zero outside.
  function At(x: Matrix, i: int, j: int): real {
    if 0 <= i < |x| && 0 <= j < |x[i]| then x[i][j] else 0.0
  }

  function Sum(n: nat, f: int -> real): real {
    if n == 0 then 0.0 else Sum(n - 1, f) + f(n - 1)
  }

  lemma {:induction false} SumSame(n: nat, f: int -> real, g: int -> real)
    requires forall i :: 0 <= i < n ==> f(i) == g(i)
    ensures Sum(n, f) == Sum(n, g)
  {
    if n > 0 { SumSame(n - 1, f, g); }
  }

  lemma {:induction false} SumAtMost(n: nat, f: int -> real, g: int -> real)
    requires forall i :: 0 <= i < n ==> f(i) <= g(i)
    ensures Sum(n, f) <= Sum(n, g)
  {
    if n > 0 { SumAtMost(n - 1, f, g); }
  }

  lemma Distributes(a: real, x: real, y: real)
    ensures a * (x + y) == a * x + a * y
  {
  }

  /// `h` is `f` scaled by `a` plus `g` scaled by `b`.
  lemma {:induction false} SumLinear(n: nat, a: real, f: int -> real, b: real, g: int -> real, h: int -> real)
    requires forall i :: 0 <= i < n ==> h(i) == a * f(i) + b * g(i)
    ensures Sum(n, h) == a * Sum(n, f) + b * Sum(n, g)
  {
    if n > 0 {
      SumLinear(n - 1, a, f, b, g, h);
      Distributes(a, Sum(n - 1, f), f(n - 1));
      Distributes(b, Sum(n - 1, g), g(n - 1));
    }
  }

  lemma {:induction false} SumScaled(n: nat, a: real, f: int -> real, h: int -> real)
    requires forall i :: 0 <= i < n ==> h(i) == a * f(i)
    ensures Sum(n, h) == a * Sum(n, f)
  {
    if n > 0 {
      SumScaled(n - 1, a, f, h);
      Distributes(a, Sum(n - 1, f), f(n - 1));
    }
  }

  lemma {:induction false} SumConstant(n: nat, a: real, f: int -> real)
    requires forall i :: 0 <= i < n ==> f(i) == a
    ensures Sum(n, f) == a * n as real
  {
    if n > 0 {
      SumConstant(n - 1, a, f);
      Distributes(a, (n - 1) as real, 1.0);
    }
  }

  lemma {:induction false} SumNotNegative(n: nat, f: int -> real)
    requires forall i :: 0 <= i < n ==> f(i) >= 0.0
    ensures Sum(n, f) >= 0.0
    ensures forall i :: 0 <= i < n ==> f(i) <= Sum(n, f)
  {
    if n > 0 { SumNotNegative(n - 1, f); }
  }

  function RowSums(a: (int, int) -> real, m: nat): int -> real {
    i => Sum(m, j => a(i, j))
  }

  function Transposed(a: (int, int) -> real): (int, int) -> real {
    (i, j) => a(j, i)
  }

  /// A double sum either way round.
  lemma {:induction false} SumSwap(n: nat, m: nat, a: (int, int) -> real)
    ensures Sum(n, RowSums(a, m)) == Sum(m, RowSums(Transposed(a), n))
  {
    if n == 0 {
      SumConstant(m, 0.0, RowSums(Transposed(a), 0));
    } else {
      SumSwap(n - 1, m, a);
      SumLinear(m, 1.0, RowSums(Transposed(a), n - 1), 1.0, j => a(n - 1, j), RowSums(Transposed(a), n));
    }
  }

  // ---- weighted means ----

  function Weighted(w: int -> real, x: int -> real): int -> real {
    i => w(i) * x(i)
  }

  ghost predicate Distribution(n: nat, w: int -> real) {
    (forall i :: 0 <= i < n ==> w(i) >= 0.0) && Sum(n, w) == 1.0
  }

  /// A weighted total between two multiples of its weights.
  predicate Bounded(low: real, weights: real, total: real, high: real) {
    low * weights <= total <= high * weights
  }

  lemma {:induction false} WeightsBound(n: nat, w: int -> real, x: int -> real, low: real, high: real)
    requires forall i :: 0 <= i < n ==> w(i) >= 0.0 && (w(i) > 0.0 ==> low <= x(i) <= high)
    ensures Bounded(low, Sum(n, w), Sum(n, Weighted(w, x)), high)
  {
    if n > 0 {
      hide Bounded, Weighted;
      WeightsBound(n - 1, w, x, low, high);
      TermInRange(w, x, n - 1, low, high);
      AddBounds(low, high, Sum(n - 1, w), w(n - 1), Sum(n - 1, Weighted(w, x)), Weighted(w, x)(n - 1));
    }
  }

  lemma AddBounds(low: real, high: real, s: real, w: real, mean: real, term: real)
    requires Bounded(low, s, mean, high) && Bounded(low, w, term, high)
    ensures Bounded(low, s + w, mean + term, high)
  {
    assert low * (s + w) == low * s + low * w && high * (s + w) == high * s + high * w;
  }

  /// A weighted mean stays between any bounds of what has weight in it.
  lemma MeanInRange(n: nat, w: int -> real, x: int -> real, low: real, high: real)
    requires Distribution(n, w)
    requires forall i :: 0 <= i < n && w(i) > 0.0 ==> low <= x(i) <= high
    ensures low <= Sum(n, Weighted(w, x)) <= high
  {
    WeightsBound(n, w, x, low, high);
  }

  lemma TermInRange(w: int -> real, x: int -> real, i: int, low: real, high: real)
    requires w(i) >= 0.0 && (w(i) > 0.0 ==> low <= x(i) <= high)
    ensures Bounded(low, w(i), Weighted(w, x)(i), high)
  {
    if w(i) > 0.0 {
      ScaleOrder(w(i), low, x(i));
      ScaleOrder(w(i), x(i), high);
    }
  }

  lemma ScaleOrder(w: real, x: real, y: real)
    requires w >= 0.0 && x <= y
    ensures w * x <= w * y && x * w <= y * w
  {
    assert w * (y - x) >= 0.0;
  }

  function Max(x: real, y: real): real {
    if x < y then y else x
  }

  function Min(x: real, y: real): real {
    if y < x then y else x
  }

  function Abs(x: real): real {
    if x < 0.0 then -x else x
  }

  /// Two points of the segment between their own anchors.
  lemma Between(a: real, x: real, y: real, low: real, high: real)
    requires 0.0 <= a <= 1.0 && low <= x <= high && low <= y <= high
    ensures low <= a * x + (1.0 - a) * y <= high
  {
    var b := 1.0 - a;
    NotNegative(a, x - low);
    NotNegative(b, y - low);
    NotNegative(a, high - x);
    NotNegative(b, high - y);
    assert a * x + b * y == a * (x - low) + b * (y - low) + low;
    assert a * x + b * y == high - a * (high - x) - b * (high - y);
  }

  lemma NotNegative(a: real, x: real)
    requires a >= 0.0 && x >= 0.0
    ensures a * x >= 0.0
  {
  }
}
