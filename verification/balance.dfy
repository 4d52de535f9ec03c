/**
 * `HAMMSimulation.calculateLoadBalance`: the sample variance of the number
 * of tasks per worker (lower is better), computed exactly.  With n workers
 * holding S tasks the mean is S / n, so each deviation x - S / n equals
 * (n x - S) / n and the variance sum (x - S / n)^2 / (n - 1) is the integer
 * sum (n x - S)^2 divided by n^2 (n - 1).  With one worker the source
 * divides 0 by 0 and returns NaN, modelled as `None`; with no worker it
 * returns 0 (negative zero in IEEE arithmetic).
 */
module BalanceMetric {
  import opened Loads
  import opened Allocator

  function Sq(x: int): int
  {
    x * x
  }

  /** A square is never negative, and is zero only for zero. */
  lemma SqSign(x: int)
    ensures Sq(x) >= 0
    ensures Sq(x) == 0 <==> x == 0
  {
  }

  /** A non-negative integer over a positive one, as a real. */
  lemma RatioFacts(a: int, b: int)
    requires b > 0
    ensures a >= 0 ==> (a as real) / (b as real) >= 0.0
    ensures (a as real) / (b as real) == 0.0 <==> a == 0
  {
  }

  /** The sum of (n x - s)^2 over `xs`: each squared deviation from s / n, scaled by n^2. */
  function ScaledSquares(xs: seq<int>, n: int, s: int): (r: int)
    ensures r >= 0
  {
    if |xs| == 0 then 0
    else
      var d := n * xs[|xs| - 1] - s;
      SqSign(d);
      ScaledSquares(xs[..|xs| - 1], n, s) + Sq(d)
  }

  function SumOfSquares(xs: seq<int>): int
  {
    if |xs| == 0 then 0 else SumOfSquares(xs[..|xs| - 1]) + Sq(xs[|xs| - 1])
  }

  /** The denominator n^2 (n - 1), positive for two or more workers. */
  function Scale(n: int): (d: int)
    requires n >= 2
    ensures d > 0
  {
    n * n * (n - 1)
  }

  /**
   * The value `calculateLoadBalance` returns: 0 for no worker, `None` for
   * the NaN of a single worker, and otherwise the squared deviations of the
   * task counts from their mean divided by n - 1.
   */
  function LoadVariance(ws: Assignment): (r: Option<real>)
    ensures r.None? <==> |ws| == 1
    ensures |ws| == 0 ==> r == Some(0.0)
    ensures r.Some? ==> r.value >= 0.0
  {
    var n := |ws|;
    if n == 0 then Some(0.0)
    else if n == 1 then None
    else
      var xs := Sizes(ws);
      var a := ScaledSquares(xs, n, Sum(xs));
      RatioFacts(a, Scale(n));
      Some((a as real) / (Scale(n) as real))
  }

  /** One step of the expansion, as integer algebra over named quantities. */
  lemma ExpandStep(n: int, s: int, x: int, q: int, q0: int, t: int, t0: int, m: int, m0: int, dev: int, dev0: int)
    requires dev0 == n * n * q0 - 2 * n * s * t0 + m0 * Sq(s)
    requires dev == dev0 + Sq(n * x - s)
    requires q == q0 + Sq(x) && t == t0 + x && m == m0 + 1
    ensures dev == n * n * q - 2 * n * s * t + m * Sq(s)
  {
    assert Sq(n * x - s) == n * n * Sq(x) - 2 * n * s * x + Sq(s);
  }

  /** Expanding the square: sum (n x - s)^2 = n^2 sum x^2 - 2 n s sum x + |xs| s^2. */
  lemma {:induction false} ScaledSquaresExpand(xs: seq<int>, n: int, s: int)
    ensures ScaledSquares(xs, n, s) == n * n * SumOfSquares(xs) - 2 * n * s * Sum(xs) + |xs| * Sq(s)
    decreases |xs|
  {
    if |xs| > 0 {
      var init := xs[..|xs| - 1];
      var x := xs[|xs| - 1];
      ScaledSquaresExpand(init, n, s);
      ExpandStep(n, s, x, SumOfSquares(xs), SumOfSquares(init), Sum(xs), Sum(init), |xs|, |init|,
                 ScaledSquares(xs, n, s), ScaledSquares(init, n, s));
    }
  }

  /** With s = t and m = n: n^2 q - 2 n s t + m s^2 = n (n q - s^2). */
  lemma ShortcutAlgebra(n: int, s: int, q: int, m: int, t: int, dev: int)
    requires dev == n * n * q - 2 * n * s * t + m * Sq(s)
    requires t == s && m == n
    ensures dev == n * (n * q - Sq(s))
  {
  }

  /** The shortcut over a list of counts, with n its length and s its sum. */
  lemma ScaledShortcut(xs: seq<int>)
    ensures ScaledSquares(xs, |xs|, Sum(xs)) == |xs| * (|xs| * SumOfSquares(xs) - Sq(Sum(xs)))
  {
    var n, s := |xs|, Sum(xs);
    ScaledSquaresExpand(xs, n, s);
    ShortcutAlgebra(n, s, SumOfSquares(xs), n, s, ScaledSquares(xs, n, s));
  }

  /**
   * The shortcut formula, an independent reference for the variance: the
   * scaled numerator is n (n sum x^2 - (sum x)^2), so the variance equals
   * (n sum x^2 - (sum x)^2) / (n (n - 1)).
   */
  lemma VarianceShortcut(ws: Assignment)
    requires |ws| >= 2
    ensures var xs := Sizes(ws);
      ScaledSquares(xs, |ws|, Sum(xs)) == |ws| * (|ws| * SumOfSquares(xs) - Sq(Sum(xs)))
  {
    var xs := Sizes(ws);
    assert |xs| == |ws|;
    ScaledShortcut(xs);
  }

  /** When every element equals `c`, n c - n c vanishes everywhere. */
  lemma {:induction false} ConstantNoDeviation(xs: seq<int>, n: int, c: int)
    requires forall i :: 0 <= i < |xs| ==> xs[i] == c
    ensures ScaledSquares(xs, n, n * c) == 0
    ensures Sum(xs) == |xs| * c
    decreases |xs|
  {
    if |xs| > 0 {
      ConstantNoDeviation(xs[..|xs| - 1], n, c);
    }
  }

  /** The scaled deviations add up to zero only when every n x equals s. */
  lemma {:induction false} NoDeviationConstant(xs: seq<int>, n: int, s: int)
    requires ScaledSquares(xs, n, s) == 0
    ensures forall i :: 0 <= i < |xs| ==> n * xs[i] == s
    decreases |xs|
  {
    if |xs| > 0 {
      var d := n * xs[|xs| - 1] - s;
      SqSign(d);
      NoDeviationConstant(xs[..|xs| - 1], n, s);
      forall i | 0 <= i < |xs|
        ensures n * xs[i] == s
      {
        if i < |xs| - 1 {
          assert xs[i] == xs[..|xs| - 1][i];
        }
      }
    }
  }

  /** A perfectly balanced assignment: every worker holds the same number of tasks. */
  predicate Balanced(ws: Assignment)
  {
    forall i, j :: 0 <= i < |ws| && 0 <= j < |ws| ==> |ws[i]| == |ws[j]|
  }

  lemma CancelFactor(n: int, a: int, b: int, s: int)
    requires n > 0 && n * a == s && n * b == s
    ensures a == b
  {
  }

  lemma BalancedNoDeviation(ws: Assignment)
    requires |ws| >= 2 && Balanced(ws)
    ensures ScaledSquares(Sizes(ws), |ws|, Sum(Sizes(ws))) == 0
  {
    var xs := Sizes(ws);
    var c := |ws[0]|;
    assert forall i :: 0 <= i < |xs| ==> xs[i] == c;
    ConstantNoDeviation(xs, |ws|, c);
  }

  lemma NoDeviationBalanced(ws: Assignment)
    requires |ws| >= 2
    requires ScaledSquares(Sizes(ws), |ws|, Sum(Sizes(ws))) == 0
    ensures Balanced(ws)
  {
    var xs := Sizes(ws);
    var n, s := |ws|, Sum(xs);
    NoDeviationConstant(xs, n, s);
    forall i, j | 0 <= i < |ws| && 0 <= j < |ws|
      ensures |ws[i]| == |ws[j]|
    {
      CancelFactor(n, xs[i], xs[j], s);
    }
  }

  /** For two or more workers the variance is zero exactly when the assignment is balanced. */
  lemma VarianceZeroIffBalanced(ws: Assignment)
    requires |ws| >= 2
    ensures LoadVariance(ws) == Some(0.0) <==> Balanced(ws)
  {
    var xs := Sizes(ws);
    var a := ScaledSquares(xs, |ws|, Sum(xs));
    RatioFacts(a, Scale(|ws|));
    if Balanced(ws) {
      BalancedNoDeviation(ws);
    }
    if a == 0 {
      NoDeviationBalanced(ws);
    }
  }

  /** Allocating no task leaves two or more workers perfectly balanced. */
  lemma EmptyAllocationBalanced(vmCount: int)
    requires vmCount >= 2
    ensures Allocate([], vmCount).Ok?
    ensures LoadVariance(Allocate([], vmCount).value) == Some(0.0)
  {
    VarianceZeroIffBalanced(Allocate([], vmCount).value);
  }

  /** The allocation [[100], [1, 1, 1]] has counts 1 and 3 around the mean 2: variance 2. */
  lemma ExampleVariance()
    ensures LoadVariance([[100], [1, 1, 1]]) == Some(2.0)
  {
    var ws := [[100], [1, 1, 1]];
    var xs := Sizes(ws);
    assert xs == [1, 3];
    assert [1, 3][..1] == [1];
    assert [1][..0] == [];
    assert Sum(xs) == 4;
    assert ScaledSquares(xs, 2, 4) == 8;
    assert Scale(2) == 4;
  }
}
