/** Field-solver stability limits on the time step, over exact reals. */
module Cfl {
  import opened Prelude

  const SPEED_OF_LIGHT := 299792458.0
  const CFL_REL_TOL := 0.000001

  // ---------------------------------------------------------------------------
  // The arbitrary-order weights

  function Factorial(n: nat): (f: real)
    ensures f > 0.0
  {
    if n == 0 then 1.0 else n as real * Factorial(n - 1)
  }

  function Power4(n: nat): (p: real)
    ensures p > 0.0
  {
    if n == 0 then 1.0 else 4.0 * Power4(n - 1)
  }

  function Scaled(g: real, p: real, f: real): real
    requires p > 0.0 && f > 0.0
  {
    g / p / f / f
  }

  /** (2n)! / (2^(2n) n!^2). */
  function Central(n: nat): real {
    Scaled(Factorial(2 * n), Power4(n), Factorial(n))
  }

  function FirstWeight(n: nat): real {
    4.0 * n as real * (Central(n) * Central(n))
  }

  function Damped(c: real, x: real, y: real, b: real): real
    requires y > 0.0 && b > 0.0
  {
    c * c * x / y / b / b
  }

  function RatioOf(m: real, r: real): real
    requires m >= 1.0 && r >= 0.0
  {
    Damped(r - 0.5, m - r, m + r, r + 0.5)
  }

  /** What turns weight `k - 1` of the stencil with `n` neighbors into weight `k`, up to sign. */
  function Ratios(n: nat): nat -> real
    requires n >= 1
  {
    (k: nat) => RatioOf(n as real, k as real)
  }

  /** The weight recurrence, for any first weight and ratios. */
  function Weight(first: real, ratio: nat -> real, k: nat): real {
    if k == 0 then first else Next(ratio(k), Weight(first, ratio, k - 1))
  }

  function Next(ratio: real, weight: real): real {
    -ratio * weight
  }

  /** The alternating sum of the first `k` weights. */
  function Alternating(first: real, ratio: nat -> real, k: nat): real {
    if k == 0 then 0.0 else Alternating(first, ratio, k - 1) + Magnitude(first, ratio, k - 1)
  }

  function Magnitude(first: real, ratio: nat -> real, k: nat): real {
    if k % 2 == 0 then Weight(first, ratio, k) else -Weight(first, ratio, k)
  }

  function WeightSum(n: nat): real
    requires n >= 1
  {
    Alternating(FirstWeight(n), Ratios(n), n)
  }

  /** `_ao_weight_sum`: the weights are filled by index, then summed with alternating signs. */
  method AoWeightSum(n: nat) returns (sum: real)
    requires n >= 1
    ensures sum == WeightSum(n)
  {
    var first, ratio := FirstWeight(n), Ratios(n);
    sum := SumWeights(n, first, ratio);
  }

  method SumWeights(n: nat, first: real, ratio: nat -> real) returns (sum: real)
    requires n >= 1
    ensures sum == Alternating(first, ratio, n)
  {
    var weights := FillWeights(n, first, ratio);
    sum := 0.0;
    for k := 0 to n
      modifies {}
      invariant sum == Alternating(first, ratio, k)
    {
      sum := sum + if k % 2 == 0 then weights[k] else -weights[k];
    }
  }

  method FillWeights(n: nat, first: real, ratio: nat -> real) returns (weights: array<real>)
    requires n >= 1
    ensures fresh(weights) && weights.Length == n && forall j :: 0 <= j < n ==> weights[j] == Weight(first, ratio, j)
  {
    weights := new real[n];
    weights[0] := first;
    for k := 1 to n
      invariant forall j :: 0 <= j < k ==> weights[j] == Weight(first, ratio, j)
    {
      weights[k] := Next(ratio(k), weights[k - 1]);
    }
  }

  lemma CentralStep(n: nat)
    ensures Central(n) > 0.0 && Central(n + 1) * (2.0 * (n as real + 1.0)) == Central(n) * (2.0 * n as real + 1.0)
  {
    var f, p, g, m := Factorial(n), Power4(n), Factorial(2 * n), n as real;
    assert Factorial(2 * (n + 1)) == (2.0 * m + 2.0) * ((2.0 * m + 1.0) * g) by { TwoFactorialSteps(2 * n); }
    assert Factorial(n + 1) == (m + 1.0) * f;
    CentralFraction(g, p, f, m + 1.0, 2.0 * m + 1.0, Factorial(2 * (n + 1)), Factorial(n + 1));
  }

  lemma TwoFactorialSteps(n: nat)
    ensures Factorial(n + 2) == (n as real + 2.0) * ((n as real + 1.0) * Factorial(n))
  {
    assert Factorial(n + 1) == (n + 1) as real * Factorial(n);
  }

  lemma CentralFraction(g: real, p: real, f: real, a: real, b: real, g': real, f': real)
    requires f > 0.0 && p > 0.0 && g > 0.0 && a > 0.0 && f' > 0.0 && g' == 2.0 * a * (b * g) && f' == a * f
    ensures Scaled(g, p, f) > 0.0 && Scaled(g', 4.0 * p, f') * (2.0 * a) == Scaled(g, p, f) * b
  {
    var q, r := Scaled(g, p, f), Scaled(g', 4.0 * p, f');
    var s := PositiveProduct(f, p);
    s := PositiveProduct(f, s);
    s := PositiveProduct(2.0 * a, s);
  }

  lemma PositiveProduct(a: real, b: real) returns (c: real)
    requires a > 0.0 && b > 0.0
    ensures c == a * b && c > 0.0
  {
    c := a * b;
  }

  lemma ProductPositive(a: real, b: real)
    requires a > 0.0 && b > 0.0
    ensures a * b > 0.0
  {
  }

  lemma Cancel(a: real, b: real, s: real)
    requires s > 0.0
    ensures a * s <= b * s ==> a <= b
    ensures a * s < b * s ==> a < b
  {
    if a > b { ProductPositive(a - b, s); }
  }

  lemma GrowsByRatio(m: real, c: real, d: real)
    requires m >= 1.0 && c > 0.0 && d * (2.0 * (m + 1.0)) == c * (2.0 * m + 1.0)
    ensures 4.0 * (m + 1.0) * (d * d) > 4.0 * m * (c * c) > 0.0
  {
    var e := c * (2.0 * m + 1.0);
    var a, b := (m + 1.0) * (d * d), m * (c * c);
    ProductPositive(c, c);
    assert e * e == (c * c) * (4.0 * m * m + 4.0 * m + 1.0);
    assert e * e == 4.0 * (m + 1.0) * a by { assert e * e == (d * (2.0 * (m + 1.0))) * (d * (2.0 * (m + 1.0))); }
    assert (m + 1.0) * a - (m + 1.0) * b == (c * c) * 0.25 by {
      assert 4.0 * (m + 1.0) * b == (c * c) * (4.0 * m * m + 4.0 * m);
    }
    Cancel(b, a, m + 1.0);
  }

  lemma FirstWeightGrows(n: nat)
    requires n >= 1
    ensures FirstWeight(n + 1) > FirstWeight(n) > 0.0
  {
    CentralStep(n);
    GrowsByRatio(n as real, Central(n), Central(n + 1));
  }

  lemma {:induction false} FirstWeightAtLeastOne(n: nat)
    requires n >= 1
    ensures FirstWeight(n) >= 1.0 && (FirstWeight(n) == 1.0 <==> n == 1)
  {
    if n == 1 {
      assert Factorial(2) == 2.0 * Factorial(1) && Factorial(1) == 1.0 * Factorial(0) && Power4(1) == 4.0;
      assert Central(1) == 0.5;
    } else {
      FirstWeightAtLeastOne(n - 1);
      FirstWeightGrows(n - 1);
    }
  }

  lemma RatioPositive(m: real, r: real)
    requires 1.0 <= r < m
    ensures RatioOf(m, r) > 0.0
  {
    DampedPositive(r - 0.5, m - r, m + r, r + 0.5);
  }

  lemma DampedPositive(c: real, x: real, y: real, b: real)
    requires c > 0.0 && x > 0.0 && y > 0.0 && b > 0.0
    ensures Damped(c, x, y, b) > 0.0
  {
    var a := PositiveProduct(c, c);
    ProductPositive(a, x);
  }

  lemma RatiosPositive(n: nat)
    requires n >= 1
    ensures forall k: nat :: 1 <= k < n ==> Ratios(n)(k) > 0.0
  {
    forall k: nat | 1 <= k < n ensures Ratios(n)(k) > 0.0 { RatioPositive(n as real, k as real); }
  }

  lemma {:induction false} MagnitudePositive(first: real, ratio: nat -> real, n: nat, k: nat)
    requires first > 0.0 && k < n && forall j: nat :: 1 <= j < n ==> ratio(j) > 0.0
    ensures Magnitude(first, ratio, k) > 0.0
  {
    if k > 0 {
      MagnitudePositive(first, ratio, n, k - 1);
      ProductPositive(ratio(k), Magnitude(first, ratio, k - 1));
    }
  }

  /** The weights of every stencil alternate in sign, starting positive, and none vanishes. */
  lemma {:induction false} WeightsAlternate(n: nat, k: nat)
    requires k < n
    ensures var w := Weight(FirstWeight(n), Ratios(n), k); if k % 2 == 0 then w > 0.0 else w < 0.0
  {
    FirstWeightAtLeastOne(n);
    RatiosPositive(n);
    MagnitudePositive(FirstWeight(n), Ratios(n), n, k);
  }

  lemma {:induction false} SumAboveFirst(first: real, ratio: nat -> real, n: nat, k: nat)
    requires first > 0.0 && 1 <= k <= n && forall j: nat :: 1 <= j < n ==> ratio(j) > 0.0
    ensures Alternating(first, ratio, k) >= first && (k == 1 ==> Alternating(first, ratio, k) == first)
  {
    MagnitudePositive(first, ratio, n, k - 1);
    if k > 1 { SumAboveFirst(first, ratio, n, k - 1); } else { assert Alternating(first, ratio, 0) == 0.0; }
  }

  /** For every stencil the weight sum is at least one, and is one exactly for the plain stencil: the solver limit is
      always defined. */
  lemma WeightSumAtLeastOne(n: nat)
    requires n >= 1
    ensures WeightSum(n) >= 1.0 && (WeightSum(n) == 1.0 <==> n == 1)
  {
    FirstWeightAtLeastOne(n);
    RatiosPositive(n);
    SumAboveFirst(FirstWeight(n), Ratios(n), n, n);
  }

  // ---------------------------------------------------------------------------
  // The weights in closed form

  function Share(odd: real, f: real, g: real): real {
    odd * odd * (f * g)
  }

  /** (2k + 1)^2 (n + k)! (n - 1 - k)! */
  function Divisor(n: nat, k: nat): real
    requires k < n
  {
    Share(2.0 * k as real + 1.0, Factorial(n + k), Factorial(n - 1 - k))
  }

  function Times(a: real, b: real): real {
    a * b
  }

  /** The recurrence yields the known weights: up to sign, weight `k` is the first weight times n! (n - 1)!, over
      (2k + 1)^2 (n + k)! (n - 1 - k)!. */
  lemma {:induction false} WeightClosedForm(n: nat, k: nat)
    requires k < n
    ensures Times(Magnitude(FirstWeight(n), Ratios(n), k), Divisor(n, k))
      == FirstWeight(n) * (Factorial(n) * Factorial(n - 1))
  {
    var first, ratio := FirstWeight(n), Ratios(n);
    if k == 0 {
      ShareOfOne(first, Factorial(n), Factorial(n - 1));
    } else {
      WeightClosedForm(n, k - 1);
      MagnitudeStep(first, ratio, k);
      DivisorStep(n, k, ratio(k), Divisor(n, k));
      Regroup(ratio(k), Magnitude(first, ratio, k - 1), Divisor(n, k));
    }
  }

  lemma MagnitudeStep(first: real, ratio: nat -> real, k: nat)
    requires k > 0
    ensures Magnitude(first, ratio, k) == Times(ratio(k), Magnitude(first, ratio, k - 1))
  {
  }

  lemma Regroup(q: real, w: real, d: real)
    ensures Times(Times(q, w), d) == Times(w, Times(q, d))
  {
  }

  lemma ShareOfOne(w: real, f: real, g: real)
    ensures Times(w, Share(1.0, f, g)) == w * (f * g)
  {
  }

  lemma DivisorStep(n: nat, k: nat, q: real, d: real)
    requires 0 < k < n && q == Ratios(n)(k) && d == Divisor(n, k)
    ensures Times(q, d) == Divisor(n, k - 1)
  {
    var m, r, odd, even := n as real, k as real, Factorial(n + k), Factorial(n - k);
    FactorialTimes(n + k, m + r);
    FactorialTimes(n - k, m - r);
    assert n - 1 - (k - 1) == n - k && n + (k - 1) == n + k - 1 && (k - 1) as real == r - 1.0;
    DampedUndoes(r - 0.5, m - r, m + r, r + 0.5, Factorial(n + k - 1), Factorial(n - 1 - k), odd, even, q, d);
  }

  lemma FactorialTimes(n: nat, x: real)
    requires n > 0 && n as real == x
    ensures Factorial(n) == Times(x, Factorial(n - 1))
  {
  }

  lemma DampedUndoes(c: real, x: real, y: real, b: real, f: real, g: real, yf: real, xg: real, q: real, d: real)
    requires y > 0.0 && b > 0.0 && yf == Times(y, f) && xg == Times(x, g)
    requires q == Damped(c, x, y, b) && d == Share(2.0 * b, yf, g)
    ensures Times(q, d) == Share(2.0 * c, f, xg)
  {
    Divided(c * c * x, y, b, q);
    ShareGathered(q, b, y, f, g, d);
    ShareGathered(1.0, c, x, f, g, Share(2.0 * c, x * f, g));
    ShareMoved(c, x, f, g);
  }

  lemma Divided(a: real, y: real, b: real, q: real)
    requires y > 0.0 && b > 0.0 && q == a / y / b / b
    ensures q * b * b * y == a
  {
    assert q * b == a / y / b;
    assert q * b * b == a / y;
  }

  lemma ShareGathered(q: real, b: real, y: real, f: real, g: real, d: real)
    requires d == Share(2.0 * b, y * f, g)
    ensures Times(q, d) == 4.0 * (q * b * b * y) * (f * g)
  {
    var fg := f * g;
    assert y * f * g == y * fg;
    assert 2.0 * b * (2.0 * b) == 4.0 * (b * b);
    assert q * (4.0 * (b * b) * (y * fg)) == 4.0 * (q * b * b * y) * fg;
  }

  lemma ShareMoved(c: real, x: real, f: real, g: real)
    ensures Times(1.0, Share(2.0 * c, x * f, g)) == Share(2.0 * c, f, x * g)
  {
    assert x * f * g == f * (x * g);
  }

  /** The plain stencil has weight 1, the next one 9/8 and -1/24. */
  lemma KnownWeights()
    ensures FirstWeight(1) == 1.0 && FirstWeight(2) == 9.0 / 8.0
    ensures Weight(FirstWeight(2), Ratios(2), 1) == -1.0 / 24.0 && WeightSum(1) == 1.0 && WeightSum(2) == 7.0 / 6.0
  {
    assert Factorial(1) == 1.0 * Factorial(0) && Factorial(2) == 2.0 * Factorial(1);
    assert Factorial(3) == 3.0 * Factorial(2) && Factorial(4) == 4.0 * Factorial(3);
    assert Power4(1) == 4.0 * Power4(0) && Power4(2) == 4.0 * Power4(1);
    assert Central(1) == 0.5 && Central(2) == 0.375;
    var f, r := FirstWeight(2), Ratios(2);
    assert r(1) == 1.0 / 27.0;
    assert Weight(f, r, 1) == Next(r(1), Weight(f, r, 0));
    assert Alternating(f, r, 2) == Alternating(f, r, 1) + Magnitude(f, r, 1);
    assert Alternating(f, r, 1) == Alternating(f, r, 0) + Magnitude(f, r, 0);
    assert Alternating(FirstWeight(1), Ratios(1), 1) == Alternating(FirstWeight(1), Ratios(1), 0) + FirstWeight(1);
  }

  // ---------------------------------------------------------------------------
  // Wider stencils are stricter

  lemma RatioGrows(m: real, r: real)
    requires 1.0 <= r < m
    ensures RatioOf(m, r) <= RatioOf(m + 1.0, r)
  {
    assert m - r + 1.0 == m + 1.0 - r && m + r + 1.0 == m + 1.0 + r;
    DampedGrows(r - 0.5, m - r, m + r, r + 0.5);
  }

  lemma DampedGrows(c: real, x: real, y: real, b: real)
    requires c > 0.0 && b > 0.0 && 0.0 < x <= y
    ensures Damped(c, x, y, b) <= Damped(c, x + 1.0, y + 1.0, b)
  {
    var a := PositiveProduct(c, c);
    assert c * c * x == a * x && c * c * (x + 1.0) == a * (x + 1.0);
    QuotientGrows(a, x, y);
  }

  /** x / y grows when both grow by one and x <= y. */
  lemma QuotientGrows(a: real, x: real, y: real)
    requires a > 0.0 && 0.0 < x <= y
    ensures a * x / y <= a * (x + 1.0) / (y + 1.0)
  {
    var p, q := a * x / y, a * (x + 1.0) / (y + 1.0);
    assert p * y == a * x && q * (y + 1.0) == a * (x + 1.0);
    ProductMonotone(a, a, x, y);
    Cancel(p, a, y);
    assert q * (y + 1.0) - p * (y + 1.0) == a - p;
    Cancel(p, q, y + 1.0);
  }

  lemma ProductMonotone(a: real, b: real, x: real, y: real)
    requires 0.0 < a <= b && 0.0 < x <= y
    ensures a * x <= b * y
  {
    assert a * x <= b * x;
    assert b * x <= b * y;
  }

  lemma {:induction false} MagnitudeGrows(first: real, ratio: nat -> real, first': real, ratio': nat -> real, n: nat,
      k: nat)
    requires 0.0 < first <= first' && k < n
    requires forall j: nat :: 1 <= j < n ==> 0.0 < ratio(j) <= ratio'(j)
    ensures Magnitude(first, ratio, k) <= Magnitude(first', ratio', k)
  {
    if k > 0 {
      MagnitudeGrows(first, ratio, first', ratio', n, k - 1);
      MagnitudePositive(first, ratio, n, k - 1);
      ProductMonotone(ratio(k), ratio'(k), Magnitude(first, ratio, k - 1), Magnitude(first', ratio', k - 1));
    }
  }

  lemma {:induction false} AlternatingGrows(first: real, ratio: nat -> real, first': real, ratio': nat -> real,
      n: nat, k: nat)
    requires 0.0 < first <= first' && k <= n
    requires forall j: nat :: 1 <= j < n ==> 0.0 < ratio(j) <= ratio'(j)
    ensures Alternating(first, ratio, k) <= Alternating(first', ratio', k)
  {
    if k > 0 {
      AlternatingGrows(first, ratio, first', ratio', n, k - 1);
      MagnitudeGrows(first, ratio, first', ratio', n, k - 1);
    }
  }

  /** One more neighbor, a strictly larger weight sum. */
  lemma WeightSumGrows(n: nat)
    requires n >= 1
    ensures WeightSum(n) < WeightSum(n + 1)
  {
    var f, r, g, s := FirstWeight(n), Ratios(n), FirstWeight(n + 1), Ratios(n + 1);
    FirstWeightGrows(n);
    RatiosPositive(n);
    RatiosPositive(n + 1);
    forall j: nat | 1 <= j < n ensures r(j) <= s(j) {
      RatioGrows(n as real, j as real);
      assert (n + 1) as real == n as real + 1.0;
    }
    AlternatingGrows(f, r, g, s, n, n);
    MagnitudePositive(g, s, n + 1, n);
  }

  // ---------------------------------------------------------------------------
  // Limits

  datatype Solver = Yee | Ckc | Lehe | NoSolver | ArbitraryOrder(neighbors: Option<real>)

  ghost predicate Sizes(cells: seq<real>) {
    cells != [] && forall i :: 0 <= i < |cells| ==> cells[i] > 0.0
  }

  function InverseSquare(x: real): real {
    if x > 0.0 then 1.0 / x / x else 0.0
  }

  function InverseSquares(cells: seq<real>): real
    decreases |cells|
  {
    if cells == [] then 0.0
    else
      var last := cells[|cells| - 1];
      InverseSquares(cells[..|cells| - 1]) + InverseSquare(last)
  }

  function Smallest(cells: seq<real>): real
    requires cells != []
    decreases |cells|
  {
    var last := cells[|cells| - 1];
    if |cells| == 1 then last
    else
      var before := Smallest(cells[..|cells| - 1]);
      if last < before then last else before
  }

  /** A neighbor count on the wire is a whole number, at least one. */
  function Neighbors(s: Solver): Option<nat>
    requires s.ArbitraryOrder?
  {
    if s.neighbors.None? || s.neighbors.value < 1.0 || s.neighbors.value.Floor as real != s.neighbors.value then None
    else Some(s.neighbors.value.Floor)
  }

  /** The Yee term divided by the weight sum, when that is positive. */
  function Tightened(w: real, root: real): Option<real>
    requires root > 0.0
  {
    if w <= 0.0 then None
    else
      ProductPositive(w, root);
      Some(1.0 / (w * root))
  }

  /** `_cfl_max_cell_step`, with the square root of the inverse squares given. */
  function MaxCellStep(s: Solver, cells: seq<real>, root: real): Option<real>
    requires cells != [] && root > 0.0
  {
    match s
    case Lehe | NoSolver => None
    case Yee => Some(1.0 / root)
    case Ckc => Some(Smallest(cells))
    case ArbitraryOrder(_) =>
      var n := Neighbors(s);
      if n.None? then None else Tightened(WeightSum(n.value), root)
  }

  /** `_cfl_message` raises no objection. */
  predicate Accepts(s: Solver, cells: seq<real>, root: real, dt: real)
    requires cells != [] && root > 0.0
  {
    var limit := MaxCellStep(s, cells, root);
    dt <= 0.0 || limit.None? || SPEED_OF_LIGHT * dt <= limit.value * (1.0 + CFL_REL_TOL)
  }

  lemma {:induction false} SmallestBoundsSum(cells: seq<real>)
    requires Sizes(cells)
    ensures Smallest(cells) > 0.0 && InverseSquares(cells) >= InverseSquare(Smallest(cells))
    ensures InverseSquares(cells) > 0.0
    decreases |cells|
  {
    var init, last := cells[..|cells| - 1], cells[|cells| - 1];
    assert last > 0.0;
    if |cells| == 1 {
      assert init == [];
    } else {
      assert forall i :: 0 <= i < |init| ==> init[i] == cells[i];
      SmallestBoundsSum(init);
    }
  }

  lemma RootBound(m: real, inv: real, root: real)
    requires m > 0.0 && root > 0.0 && root * root == inv && inv >= InverseSquare(m)
    ensures 1.0 / root <= m
  {
    var q := PositiveProduct(m, root);
    var i := 1.0 / m;
    assert i * m == 1.0 && i / m * m == i;
    var d := inv - i / m;
    assert d * m * m >= 0.0 by { NonNegativeProduct(d, m); NonNegativeProduct(d * m, m); }
    assert q * q - 1.0 == d * m * m by { assert q * q == inv * m * m; assert i / m * m * m == 1.0; }
    if q < 1.0 { ProductPositive(q, 1.0 - q); }
    assert 1.0 / root * root == 1.0;
    Cancel(1.0 / root, m, root);
  }

  lemma NonNegativeProduct(a: real, b: real)
    requires a >= 0.0 && b >= 0.0
    ensures a * b >= 0.0
  {
  }

  lemma TighterLimit(w: real, v: real, root: real)
    requires 1.0 <= w <= v && root > 0.0
    ensures Tightened(w, root).Some? && Tightened(v, root).Some?
    ensures 0.0 < Tightened(v, root).value <= Tightened(w, root).value <= 1.0 / root
  {
    ProductMonotone(1.0, w, root, root);
    ProductMonotone(w, v, root, root);
  }

  /** For every stencil order and every grid: the arbitrary-order limit is at most the Yee limit, which is at most the
      CKC limit, and none is undefined. */
  lemma LimitsAreOrdered(cells: seq<real>, root: real, n: nat)
    requires Sizes(cells) && root > 0.0 && root * root == InverseSquares(cells) && n >= 1
    ensures var ao := MaxCellStep(ArbitraryOrder(Some(n as real)), cells, root);
      var yee, ckc := MaxCellStep(Yee, cells, root), MaxCellStep(Ckc, cells, root);
      ao.Some? && yee.Some? && ckc.Some? && 0.0 < ao.value <= yee.value <= ckc.value
  {
    WeightSumAtLeastOne(n);
    TighterLimit(WeightSum(n), WeightSum(n), root);
    SmallestBoundsSum(cells);
    RootBound(Smallest(cells), InverseSquares(cells), root);
  }

  // ---------------------------------------------------------------------------
  // What the limits mean for a time step

  lemma {:induction false} SmallestExactly(cells: seq<real>)
    requires cells != []
    ensures Smallest(cells) in cells && forall i :: 0 <= i < |cells| ==> Smallest(cells) <= cells[i]
    decreases |cells|
  {
    var init, last := cells[..|cells| - 1], cells[|cells| - 1];
    if init != [] {
      SmallestExactly(init);
      assert cells == init + [last];
    }
  }

  /** The CKC solver takes a time step exactly when light crosses no cell in it, within a relative tolerance of
      one part in a million. */
  lemma CkcAcceptsExactly(cells: seq<real>, root: real, dt: real)
    requires Sizes(cells) && root > 0.0
    ensures Accepts(Ckc, cells, root, dt) <==>
      dt <= 0.0 || forall i :: 0 <= i < |cells| ==> 299792458.0 * dt <= cells[i] * 1.000001
  {
    SmallestExactly(cells);
    var i :| 0 <= i < |cells| && cells[i] == Smallest(cells);
    forall j | 0 <= j < |cells| ensures cells[i] * 1.000001 <= cells[j] * 1.000001 { }
  }

  /** x <= t / r exactly when (r x)^2 <= t^2. */
  lemma SquaredBound(x: real, t: real, r: real)
    requires x > 0.0 && t > 0.0 && r > 0.0
    ensures x <= 1.0 / r * t <==> (r * x) * (r * x) <= t * t
  {
    var y := r * x;
    ProductPositive(r, x);
    assert 1.0 / r * t * r == t && x * r == y;
    if x <= 1.0 / r * t {
      assert (1.0 / r * t - x) * r >= 0.0;
      ProductMonotone(y, t, y, t);
    } else {
      Cancel(y, t, r);
      assert (x - 1.0 / r * t) * r > 0.0 by { ProductPositive(x - 1.0 / r * t, r); }
      assert (y - t) * (y + t) > 0.0 by { ProductPositive(y - t, y + t); }
      assert (y - t) * (y + t) == y * y - t * t;
    }
  }

  /** The Courant condition on the way light goes in one step, up to the tolerance. */
  predicate Within(way: real, inverseSquares: real) {
    way * way * inverseSquares <= 1.000001 * 1.000001
  }

  /** The Yee solver takes a time step exactly when the Courant condition holds: (c dt)^2 times the sum of the inverse
      squares of the cell sizes is at most one, up to the tolerance. */
  lemma YeeAcceptsExactly(cells: seq<real>, root: real, dt: real)
    requires Sizes(cells) && root > 0.0 && root * root == InverseSquares(cells)
    ensures Accepts(Yee, cells, root, dt) <==> dt <= 0.0 || Within(299792458.0 * dt, InverseSquares(cells))
  {
    if dt > 0.0 {
      var x := 299792458.0 * dt;
      SquaredBound(x, 1.000001, root);
      Squares(root, x);
    }
  }

  lemma Squares(a: real, b: real)
    ensures (a * b) * (a * b) == b * b * (a * a)
  {
  }

  /** The arbitrary-order solver takes it exactly when the same holds of the time step enlarged by its weight sum. */
  lemma AoAcceptsExactly(n: nat, cells: seq<real>, root: real, dt: real)
    requires Sizes(cells) && root > 0.0 && root * root == InverseSquares(cells) && n >= 1
    ensures Accepts(ArbitraryOrder(Some(n as real)), cells, root, dt) <==>
      dt <= 0.0 || Within(Times(299792458.0 * dt, WeightSum(n)), InverseSquares(cells))
  {
    var s := ArbitraryOrder(Some(n as real));
    assert Neighbors(s) == Some(n);
    var w := WeightSum(n);
    assert MaxCellStep(s, cells, root) == Tightened(w, root);
    WeightSumAtLeastOne(n);
    if dt > 0.0 { TightenedExactly(w, root, InverseSquares(cells), 299792458.0 * dt); }
  }

  lemma TightenedExactly(w: real, root: real, inv: real, x: real)
    requires w >= 1.0 && root > 0.0 && root * root == inv && x > 0.0
    ensures Tightened(w, root).Some?
    ensures x <= Tightened(w, root).value * 1.000001 <==> Within(Times(x, w), inv)
  {
    ProductPositive(w, root);
    SquaredBound(x, 1.000001, w * root);
    Squares(root, x * w);
    assert w * root * x == root * (x * w);
  }

  /** No other solver sets a limit, nor does a neighbor count that is missing, no whole number or below one. */
  lemma NoLimitAcceptsAll(s: Solver, cells: seq<real>, root: real, dt: real)
    requires Sizes(cells) && root > 0.0 && !s.Yee? && !s.Ckc?
    requires s.ArbitraryOrder? && s.neighbors.Some? ==>
      s.neighbors.value < 1.0 || s.neighbors.value != s.neighbors.value.Floor as real
    ensures Accepts(s, cells, root, dt)
  {
  }

  /** Wider stencils have smaller limits. */
  lemma {:induction false} WiderIsStricter(cells: seq<real>, root: real, n: nat)
    requires cells != [] && root > 0.0 && n >= 1
    ensures var a := MaxCellStep(ArbitraryOrder(Some((n + 1) as real)), cells, root);
      var b := MaxCellStep(ArbitraryOrder(Some(n as real)), cells, root);
      a.Some? && b.Some? && a.value <= b.value
  {
    WeightSumGrows(n);
    WeightSumAtLeastOne(n);
    TighterLimit(WeightSum(n), WeightSum(n + 1), root);
  }

  lemma Looser(a: Solver, b: Solver, cells: seq<real>, root: real, dt: real)
    requires cells != [] && root > 0.0 && Accepts(a, cells, root, dt)
    requires var x, y := MaxCellStep(a, cells, root), MaxCellStep(b, cells, root);
      x.Some? && y.Some? && x.value <= y.value
    ensures Accepts(b, cells, root, dt)
  {
    var x, y := MaxCellStep(a, cells, root).value, MaxCellStep(b, cells, root).value;
    assert x * (1.0 + CFL_REL_TOL) <= y * (1.0 + CFL_REL_TOL);
  }

  /** A time step accepted for a tighter solver is accepted for a looser one. */
  lemma {:induction false} AcceptedForTighterAcceptedForLooser(cells: seq<real>, root: real, n: nat, dt: real)
    requires Sizes(cells) && root > 0.0 && root * root == InverseSquares(cells) && n >= 1
    ensures Accepts(ArbitraryOrder(Some(n as real)), cells, root, dt) ==> Accepts(Yee, cells, root, dt)
    ensures Accepts(Yee, cells, root, dt) ==> Accepts(Ckc, cells, root, dt)
    ensures Accepts(ArbitraryOrder(Some((n + 1) as real)), cells, root, dt) ==>
      Accepts(ArbitraryOrder(Some(n as real)), cells, root, dt)
  {
    var ao, wide := ArbitraryOrder(Some(n as real)), ArbitraryOrder(Some((n + 1) as real));
    LimitsAreOrdered(cells, root, n);
    WiderIsStricter(cells, root, n);
    if Accepts(ao, cells, root, dt) { Looser(ao, Yee, cells, root, dt); }
    if Accepts(Yee, cells, root, dt) { Looser(Yee, Ckc, cells, root, dt); }
    if Accepts(wide, cells, root, dt) { Looser(wide, ao, cells, root, dt); }
  }

  // ---------------------------------------------------------------------------
  // The cell sizes

  /** `_spatial_cell_sizes`: the resolved axes in order, or nothing when one is missing or not positive. */
  method SpatialCellSizes(cellSize: map<string, real>, threeD: bool) returns (sizes: Option<seq<real>>)
    ensures var axes := if threeD then ["x", "y", "z"] else ["x", "y"];
      && (sizes.Some? <==> forall a :: a in axes ==> a in cellSize && cellSize[a] > 0.0)
      && (sizes.Some? ==> Sizes(sizes.value) && |sizes.value| == |axes| && forall i :: 0 <= i < |axes| ==>
        axes[i] in cellSize && sizes.value[i] == cellSize[axes[i]])
  {
    var axes := if threeD then ["x", "y", "z"] else ["x", "y"];
    var cells: seq<real> := [];
    for i := 0 to |axes|
      invariant |cells| == i
      invariant forall j :: 0 <= j < i ==> axes[j] in cellSize && cells[j] == cellSize[axes[j]] > 0.0
    {
      if axes[i] !in cellSize || cellSize[axes[i]] <= 0.0 { return None; }
      cells := cells + [cellSize[axes[i]]];
    }
    return Some(cells);
  }
}
