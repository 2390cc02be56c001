/** Quadratic weighted kappa over five score bands (scripts/calibrate-framework.py, 23-77), with
    real arithmetic in place of floats. */
module Qwk {
  import opened Wrappers

  const BANDS: seq<(int, int)> := [(0, 39), (40, 59), (60, 74), (75, 89), (90, 100)]

  predicate ValidScore(v: int) {
    0 <= v <= 100
  }

  ghost predicate ValidScores(s: seq<int>) {
    forall k :: 0 <= k < |s| ==> ValidScore(s[k])
  }

  /** The first band whose limits hold the score. */
  function Band(v: int): (b: int)
    requires ValidScore(v)
    ensures 0 <= b < 5 && BANDS[b].0 <= v <= BANDS[b].1
  {
    if v <= 39 then 0 else if v <= 59 then 1 else if v <= 74 then 2 else if v <= 89 then 3 else 4
  }

  /** The bands partition the valid scores: no score lies in two. */
  lemma BandIsUnique(v: int, b: int)
    requires ValidScore(v) && 0 <= b < 5 && BANDS[b].0 <= v <= BANDS[b].1
    ensures b == Band(v)
  {
  }

  function Bands(s: seq<int>): (b: seq<int>)
    requires ValidScores(s)
    ensures |b| == |s| && forall k :: 0 <= k < |s| ==> b[k] == Band(s[k])
  {
    if s == [] then [] else Bands(s[..|s| - 1]) + [Band(s[|s| - 1])]
  }

  ghost predicate InBands(s: seq<int>) {
    forall k :: 0 <= k < |s| ==> 0 <= s[k] < 5
  }

  // ----- what the sums over the matrix mean, pair by pair -----

  function Square(x: int): int {
    x * x
  }

  // ----- arithmetic, kept apart from the sums -----

  lemma Distribute(a: int, b: int, c: int)
    ensures a * (b + c) == a * b + a * c
  {
  }

  lemma Reorder(w: int, l: int, c: int)
    ensures w * l * c == l * (w * c)
  {
  }

  lemma SquareNonNegative(x: int)
    ensures Square(x) >= 0
  {
  }

  /** A count that goes up by one or stays, times `s`. */
  lemma OneMoreTimes(count: int, front: int, more: bool, s: int)
    requires count == front + if more then 1 else 0
    ensures count * s == front * s + if more then s else 0
  {
    Distribute(s, front, if more then 1 else 0);
  }

  lemma SquareOfDifference(x: int, y: int)
    ensures Square(x - y) == x * x - 2 * (x * y) + y * y
  {
  }

  lemma SquareOfSum(x: int, y: int)
    ensures (x + y) * (x + y) == x * x + 2 * (x * y) + y * y
  {
  }

  lemma OneMoreRow(n: int, p: int, x: int, s: int, t: int, m: int, r: int)
    ensures (n * p - 2 * (s * t) + m * r) + (n * (x * x) - 2 * (x * t) + r)
            == n * (p + x * x) - 2 * ((s + x) * t) + (m + 1) * r
  {
    Distribute(n, p, x * x);
    Distribute(t, s, x);
    Distribute(r, m, 1);
  }

  /** One more term of a product of sums of n + 1 squares with n + 1 ones. */
  lemma OneMoreTerm(n: int, s: int, d: int, z: int)
    requires n * d >= s * s
    requires n * (z * z) - 2 * (z * s) + d >= 0
    ensures (n + 1) * (d + z * z) >= (s + z) * (s + z)
  {
    SquareOfSum(s, z);
    Distribute(n, d, z * z);
    assert s * z == z * s;
    assert (n + 1) * (d + z * z) == n * (d + z * z) + (d + z * z);
  }

  lemma TwiceCross(n: int, a: int, b: int, p: int, q: int, r: int)
    requires n * (p + 2 * q + r) >= (a + b) * (a + b)
    ensures n * (p - 2 * q + r) <= 2 * (n * p - 2 * (a * b) + n * r)
  {
    SquareOfSum(a, b);
    SquareOfDifference(a, b);
    assert Square(a - b) >= 0;
    assert n * (p + 2 * q + r) == n * p + 2 * (n * q) + n * r;
    assert n * (p - 2 * q + r) == n * p - 2 * (n * q) + n * r;
  }

  /** Sum over l of (x - y_l)^2. */
  function Spread(x: int, ys: seq<int>): int {
    if ys == [] then 0 else Spread(x, ys[..|ys| - 1]) + Square(x - ys[|ys| - 1])
  }

  /** Sum over every k and l of (x_k - y_l)^2. */
  function Cross(xs: seq<int>, ys: seq<int>): int {
    if xs == [] then 0 else Cross(xs[..|xs| - 1], ys) + Spread(xs[|xs| - 1], ys)
  }

  /** Sum over k of (x_k - y_k)^2. */
  function Distance(xs: seq<int>, ys: seq<int>): int
    requires |xs| == |ys|
  {
    if xs == [] then 0
    else Distance(xs[..|xs| - 1], ys[..|ys| - 1]) + Square(xs[|xs| - 1] - ys[|ys| - 1])
  }

  function Sum(xs: seq<int>): int {
    if xs == [] then 0 else Sum(xs[..|xs| - 1]) + xs[|xs| - 1]
  }

  function Dot(xs: seq<int>, ys: seq<int>): int
    requires |xs| == |ys|
  {
    if xs == [] then 0 else Dot(xs[..|xs| - 1], ys[..|ys| - 1]) + xs[|xs| - 1] * ys[|ys| - 1]
  }

  lemma {:induction false} SpreadByMoments(x: int, ys: seq<int>)
    ensures Spread(x, ys) == |ys| * (x * x) - 2 * (x * Sum(ys)) + Dot(ys, ys)
    decreases |ys|
  {
    if ys != [] {
      var front, y := ys[..|ys| - 1], ys[|ys| - 1];
      SpreadByMoments(x, front);
      SquareOfDifference(x, y);
      Distribute(x, Sum(front), y);
      Distribute(x * x, |front|, 1);
    }
  }

  lemma {:induction false} CrossByMoments(xs: seq<int>, ys: seq<int>)
    ensures Cross(xs, ys) == |ys| * Dot(xs, xs) - 2 * (Sum(xs) * Sum(ys)) + |xs| * Dot(ys, ys)
    decreases |xs|
  {
    if xs != [] {
      var front, x := xs[..|xs| - 1], xs[|xs| - 1];
      CrossByMoments(front, ys);
      SpreadByMoments(x, ys);
      OneMoreRow(|ys|, Dot(front, front), x, Sum(front), Sum(ys), |front|, Dot(ys, ys));
    }
  }

  lemma {:induction false} DistanceByMoments(xs: seq<int>, ys: seq<int>)
    requires |xs| == |ys|
    ensures Distance(xs, ys) == Dot(xs, xs) - 2 * Dot(xs, ys) + Dot(ys, ys)
    decreases |xs|
  {
    if xs != [] {
      DistanceByMoments(xs[..|xs| - 1], ys[..|ys| - 1]);
    }
  }

  function Added(xs: seq<int>, ys: seq<int>): (zs: seq<int>)
    requires |xs| == |ys|
    ensures |zs| == |xs|
  {
    if xs == [] then [] else Added(xs[..|xs| - 1], ys[..|ys| - 1]) + [xs[|xs| - 1] + ys[|ys| - 1]]
  }

  lemma {:induction false} AddedMoments(xs: seq<int>, ys: seq<int>)
    requires |xs| == |ys|
    ensures Sum(Added(xs, ys)) == Sum(xs) + Sum(ys)
    ensures Dot(Added(xs, ys), Added(xs, ys)) == Dot(xs, xs) + 2 * Dot(xs, ys) + Dot(ys, ys)
    decreases |xs|
  {
    if xs != [] {
      var x, y := xs[|xs| - 1], ys[|ys| - 1];
      AddedMoments(xs[..|xs| - 1], ys[..|ys| - 1]);
      assert Added(xs, ys)[..|xs| - 1] == Added(xs[..|xs| - 1], ys[..|ys| - 1]);
      SquareOfSum(x, y);
    }
  }

  lemma {:induction false} SpreadNonNegative(x: int, ys: seq<int>)
    ensures Spread(x, ys) >= 0
    decreases |ys|
  {
    if ys != [] {
      SpreadNonNegative(x, ys[..|ys| - 1]);
      SquareNonNegative(x - ys[|ys| - 1]);
    }
  }

  /** Cauchy-Schwarz against the all-ones vector. */
  lemma {:induction false} CauchySchwarz(zs: seq<int>)
    ensures |zs| * Dot(zs, zs) >= Sum(zs) * Sum(zs)
    decreases |zs|
  {
    if zs != [] {
      var front, z := zs[..|zs| - 1], zs[|zs| - 1];
      var n, s, d := |front|, Sum(front), Dot(front, front);
      CauchySchwarz(front);
      SpreadByMoments(z, front);
      SpreadNonNegative(z, front);
      OneMoreTerm(n, s, d, z);
    }
  }

  /** The bound behind kappa >= -1. */
  lemma DistanceAtMostTwiceCross(xs: seq<int>, ys: seq<int>)
    requires |xs| == |ys|
    ensures |xs| * Distance(xs, ys) <= 2 * Cross(xs, ys)
  {
    var n, a, b, p, q, r := |xs|, Sum(xs), Sum(ys), Dot(xs, xs), Dot(xs, ys), Dot(ys, ys);
    DistanceByMoments(xs, ys);
    CrossByMoments(xs, ys);
    AddedMoments(xs, ys);
    CauchySchwarz(Added(xs, ys));
    TwiceCross(n, a, b, p, q, r);
  }

  lemma {:induction false} DistanceZeroIffEqual(xs: seq<int>, ys: seq<int>)
    requires |xs| == |ys|
    ensures Distance(xs, ys) >= 0
    ensures Distance(xs, ys) == 0 <==> xs == ys
    decreases |xs|
  {
    if xs != [] {
      var x, y := xs[|xs| - 1], ys[|ys| - 1];
      DistanceZeroIffEqual(xs[..|xs| - 1], ys[..|ys| - 1]);
      assert Square(x - y) >= 0 && (Square(x - y) == 0 <==> x == y);
      assert xs == xs[..|xs| - 1] + [x] && ys == ys[..|ys| - 1] + [y];
    }
  }

  lemma {:induction false} DistanceSymmetric(xs: seq<int>, ys: seq<int>)
    requires |xs| == |ys|
    ensures Distance(xs, ys) == Distance(ys, xs)
    decreases |xs|
  {
    if xs != [] {
      DistanceSymmetric(xs[..|xs| - 1], ys[..|ys| - 1]);
    }
  }

  lemma {:induction false} CrossNonNegative(xs: seq<int>, ys: seq<int>)
    ensures Cross(xs, ys) >= 0
    decreases |xs|
  {
    if xs != [] {
      CrossNonNegative(xs[..|xs| - 1], ys);
      SpreadNonNegative(xs[|xs| - 1], ys);
    }
  }

  // ----- the matrix sums equal the pairwise sums -----

  /** How many pairs fall in cell (i, j). */
  function Cell(xs: seq<int>, ys: seq<int>, i: int, j: int): nat
    requires |xs| == |ys|
  {
    if xs == [] then 0
    else Cell(xs[..|xs| - 1], ys[..|ys| - 1], i, j)
         + if xs[|xs| - 1] == i && ys[|ys| - 1] == j then 1 else 0
  }

  function Count(xs: seq<int>, i: int): nat {
    if xs == [] then 0 else Count(xs[..|xs| - 1], i) + if xs[|xs| - 1] == i then 1 else 0
  }

  type Weights = (int, int) -> int

  ghost predicate IsQuadratic(w: Weights) {
    forall i, j :: w(i, j) == Square(i - j)
  }

  /** Sum over j < m of (i - j)^2 O_ij, then over i < m. */
  function ObservedRow(w: Weights, xs: seq<int>, ys: seq<int>, i: int, m: nat): int
    requires |xs| == |ys|
  {
    if m == 0 then 0 else ObservedRow(w, xs, ys, i, m - 1) + w(i, m - 1) * Cell(xs, ys, i, m - 1)
  }

  function Observed(w: Weights, xs: seq<int>, ys: seq<int>, m: nat): int
    requires |xs| == |ys|
  {
    if m == 0 then 0 else Observed(w, xs, ys, m - 1) + ObservedRow(w, xs, ys, m - 1, 5)
  }

  function ExpectedRow(w: Weights, xs: seq<int>, ys: seq<int>, i: int, m: nat): int {
    if m == 0 then 0 else ExpectedRow(w, xs, ys, i, m - 1) + w(i, m - 1) * Count(xs, i) * Count(ys, m - 1)
  }

  function Expected(w: Weights, xs: seq<int>, ys: seq<int>, m: nat): int {
    if m == 0 then 0 else Expected(w, xs, ys, m - 1) + ExpectedRow(w, xs, ys, m - 1, 5)
  }

  lemma {:induction false} ObservedRowBump(w: Weights, xs: seq<int>, ys: seq<int>, i: int, m: nat)
    requires |xs| == |ys| > 0
    ensures var (x, y) := (xs[|xs| - 1], ys[|ys| - 1]);
            ObservedRow(w, xs, ys, i, m) == ObservedRow(w, xs[..|xs| - 1], ys[..|ys| - 1], i, m)
                                         + if x == i && 0 <= y < m then w(x, y) else 0
    decreases m
  {
    if m > 0 {
      ObservedRowBump(w, xs, ys, i, m - 1);
      var c := Cell(xs[..|xs| - 1], ys[..|ys| - 1], i, m - 1);
      Distribute(w(i, m - 1), c, 1);
    }
  }

  lemma {:induction false} ObservedBump(w: Weights, xs: seq<int>, ys: seq<int>, m: nat)
    requires |xs| == |ys| > 0 && 0 <= ys[|ys| - 1] < 5
    ensures var (x, y) := (xs[|xs| - 1], ys[|ys| - 1]);
            Observed(w, xs, ys, m) == Observed(w, xs[..|xs| - 1], ys[..|ys| - 1], m)
                                   + if 0 <= x < m then w(x, y) else 0
    decreases m
  {
    if m > 0 {
      ObservedBump(w, xs, ys, m - 1);
      ObservedRowBump(w, xs, ys, m - 1, 5);
    }
  }

  lemma {:induction false} ObservedOfNone(w: Weights, i: int, m: nat)
    ensures ObservedRow(w, [], [], i, m) == 0 && Observed(w, [], [], m) == 0
    decreases m, i
  {
    if m > 0 {
      ObservedOfNone(w, i, m - 1);
      ObservedRowOfNone(w, m - 1, 5);
    }
  }

  lemma {:induction false} ObservedRowOfNone(w: Weights, i: int, m: nat)
    ensures ObservedRow(w, [], [], i, m) == 0
    decreases m
  {
    if m > 0 {
      ObservedRowOfNone(w, i, m - 1);
    }
  }

  lemma {:induction false} ObservedIsDistance(w: Weights, xs: seq<int>, ys: seq<int>)
    requires IsQuadratic(w) && |xs| == |ys| && InBands(xs) && InBands(ys)
    ensures Observed(w, xs, ys, 5) == Distance(xs, ys)
    decreases |xs|
  {
    if xs == [] {
      ObservedOfNone(w, 0, 5);
    } else {
      ObservedIsDistance(w, xs[..|xs| - 1], ys[..|ys| - 1]);
      ObservedBump(w, xs, ys, 5);
    }
  }

  /** A row of the expected sum, for one value of x: every y once. */
  function SpreadRow(w: Weights, i: int, ys: seq<int>, m: nat): int {
    if m == 0 then 0 else SpreadRow(w, i, ys, m - 1) + w(i, m - 1) * Count(ys, m - 1)
  }

  lemma {:induction false} SpreadRowBump(w: Weights, i: int, ys: seq<int>, m: nat)
    requires |ys| > 0
    ensures SpreadRow(w, i, ys, m) == SpreadRow(w, i, ys[..|ys| - 1], m)
                                   + if 0 <= ys[|ys| - 1] < m then w(i, ys[|ys| - 1]) else 0
    decreases m
  {
    if m > 0 {
      SpreadRowBump(w, i, ys, m - 1);
      var c := Count(ys[..|ys| - 1], m - 1);
      Distribute(w(i, m - 1), c, 1);
    }
  }

  lemma {:induction false} SpreadRowOfNone(w: Weights, i: int, m: nat)
    ensures SpreadRow(w, i, [], m) == 0
    decreases m
  {
    if m > 0 {
      SpreadRowOfNone(w, i, m - 1);
    }
  }

  lemma {:induction false} SpreadRowIsSpread(w: Weights, i: int, ys: seq<int>)
    requires IsQuadratic(w) && InBands(ys)
    ensures SpreadRow(w, i, ys, 5) == Spread(i, ys)
    decreases |ys|
  {
    if ys == [] {
      SpreadRowOfNone(w, i, 5);
    } else {
      SpreadRowIsSpread(w, i, ys[..|ys| - 1]);
      SpreadRowBump(w, i, ys, 5);
    }
  }

  lemma {:induction false} ExpectedRowFactors(w: Weights, xs: seq<int>, ys: seq<int>, i: int, m: nat)
    ensures ExpectedRow(w, xs, ys, i, m) == Count(xs, i) * SpreadRow(w, i, ys, m)
    decreases m
  {
    if m > 0 {
      ExpectedRowFactors(w, xs, ys, i, m - 1);
      Reorder(w(i, m - 1), Count(xs, i), Count(ys, m - 1));
      Distribute(Count(xs, i), SpreadRow(w, i, ys, m - 1), w(i, m - 1) * Count(ys, m - 1));
    }
  }

  lemma ExpectedRowByCount(w: Weights, xs: seq<int>, ys: seq<int>, i: int)
    requires IsQuadratic(w) && InBands(ys)
    ensures ExpectedRow(w, xs, ys, i, 5) == Count(xs, i) * Spread(i, ys)
  {
    ExpectedRowFactors(w, xs, ys, i, 5);
    SpreadRowIsSpread(w, i, ys);
  }

  lemma {:induction false} ExpectedBump(w: Weights, xs: seq<int>, ys: seq<int>, m: nat)
    requires IsQuadratic(w) && |xs| > 0 && InBands(ys)
    ensures Expected(w, xs, ys, m) == Expected(w, xs[..|xs| - 1], ys, m)
                                   + if 0 <= xs[|xs| - 1] < m then Spread(xs[|xs| - 1], ys) else 0
    decreases m
  {
    if m > 0 {
      var front := xs[..|xs| - 1];
      ExpectedBump(w, xs, ys, m - 1);
      ExpectedRowByCount(w, xs, ys, m - 1);
      ExpectedRowByCount(w, front, ys, m - 1);
      OneMoreTimes(Count(xs, m - 1), Count(front, m - 1), xs[|xs| - 1] == m - 1, Spread(m - 1, ys));
    }
  }

  lemma {:induction false} ExpectedOfNone(w: Weights, ys: seq<int>, m: nat)
    ensures Expected(w, [], ys, m) == 0
    decreases m
  {
    if m > 0 {
      ExpectedOfNone(w, ys, m - 1);
      ExpectedRowFactors(w, [], ys, m - 1, 5);
    }
  }

  lemma {:induction false} ExpectedIsCross(w: Weights, xs: seq<int>, ys: seq<int>)
    requires IsQuadratic(w) && InBands(xs) && InBands(ys)
    ensures Expected(w, xs, ys, 5) == Cross(xs, ys)
    decreases |xs|
  {
    if xs == [] {
      ExpectedOfNone(w, ys, 5);
    } else {
      ExpectedIsCross(w, xs[..|xs| - 1], ys);
      ExpectedBump(w, xs, ys, 5);
    }
  }

  // ----- kappa -----

  function KappaOf(n: int, d: int, c: int): real {
    if c == 0 then 1.0 else 1.0 - (n * d) as real / c as real
  }

  /** Kappa from the pairwise sums: one minus the mean squared distance of the pairs over that of
      all pairings, and 1 where every pairing agrees. */
  function Kappa(xs: seq<int>, ys: seq<int>): real
    requires |xs| == |ys|
  {
    KappaOf(|xs|, Distance(xs, ys), Cross(xs, ys))
  }

  lemma RatioBounds(a: int, b: int)
    requires 0 <= a <= 2 * b && b > 0
    ensures 0.0 <= a as real / b as real <= 2.0
    ensures a as real / b as real == 0.0 <==> a == 0
  {
    var q := a as real / b as real;
    assert q * b as real == a as real;
  }

  /** Kappa lies in [-1, 1], is 1 exactly when every pair shares its band, does not depend on which
      rater comes first, and agrees with perfect observation whenever the expected disagreement is
      zero, so the 0.0 fallback has no input. */
  lemma KappaIsSound(xs: seq<int>, ys: seq<int>)
    requires |xs| == |ys| > 0
    ensures -1.0 <= Kappa(xs, ys) <= 1.0
    ensures Kappa(xs, ys) == 1.0 <==> xs == ys
    ensures Kappa(xs, ys) == Kappa(ys, xs)
    ensures Cross(xs, ys) == 0 ==> Distance(xs, ys) == 0
  {
    var n, d, c := |xs|, Distance(xs, ys), Cross(xs, ys);
    DistanceAtMostTwiceCross(xs, ys);
    DistanceZeroIffEqual(xs, ys);
    CrossNonNegative(xs, ys);
    assert n * d >= 0 && (n * d == 0 <==> d == 0);
    if c > 0 {
      RatioBounds(n * d, c);
    }
    DistanceSymmetric(xs, ys);
    CrossSymmetric(xs, ys);
  }

  lemma CrossSymmetric(xs: seq<int>, ys: seq<int>)
    ensures Cross(xs, ys) == Cross(ys, xs)
  {
    CrossByMoments(xs, ys);
    CrossByMoments(ys, xs);
    assert Sum(xs) * Sum(ys) == Sum(ys) * Sum(xs);
  }

  const QUADRATIC: Weights := (i: int, j: int) => Square(i - j)

  /** The counting loop. */
  method Tally(xs: seq<int>, ys: seq<int>)
    returns (observed: array2<nat>, leftCounts: array<nat>, rightCounts: array<nat>)
    requires |xs| == |ys| && InBands(xs) && InBands(ys)
    ensures observed.Length0 == 5 && observed.Length1 == 5 && leftCounts.Length == 5 && rightCounts.Length == 5
    ensures forall i, j :: 0 <= i < 5 && 0 <= j < 5 ==> observed[i, j] == Cell(xs, ys, i, j)
    ensures forall i :: 0 <= i < 5 ==> leftCounts[i] == Count(xs, i) && rightCounts[i] == Count(ys, i)
  {
    observed := new nat[5, 5]((_, _) => 0);
    leftCounts := new nat[5](_ => 0);
    rightCounts := new nat[5](_ => 0);
    for k := 0 to |xs|
      invariant fresh(observed) && fresh(leftCounts) && fresh(rightCounts) && leftCounts != rightCounts
      invariant forall i, j :: 0 <= i < 5 && 0 <= j < 5 ==> observed[i, j] == Cell(xs[..k], ys[..k], i, j)
      invariant forall i :: 0 <= i < 5 ==> leftCounts[i] == Count(xs[..k], i) && rightCounts[i] == Count(ys[..k], i)
    {
      var x, y := xs[k], ys[k];
      assert xs[..k + 1][..k] == xs[..k] && ys[..k + 1][..k] == ys[..k];
      observed[x, y] := observed[x, y] + 1;
      leftCounts[x] := leftCounts[x] + 1;
      rightCounts[y] := rightCounts[y] + 1;
    }
    assert xs[..|xs|] == xs && ys[..|ys|] == ys;
  }

  /** An integer sum in the units the weights use: sixteenths, and for the expected sum sixteenths
      over the number of pairs. */
  function Scaled(total: int, units: int): real
    requires units > 0
  {
    total as real / units as real
  }

  lemma ScaledTerm(w: int, c: int)
    ensures (w as real / 16.0) * c as real == Scaled(w * c, 16)
  {
  }

  lemma ScaledSum(a: int, b: int, units: int)
    requires units > 0
    ensures Scaled(a, units) + Scaled(b, units) == Scaled(a + b, units)
  {
  }

  lemma ScaledQuotient(w: int, l: int, r: int, n: int)
    requires n > 0
    ensures 16 * n > 0 && (w as real / 16.0) * l as real * r as real / n as real == Scaled(w * l * r, 16 * n)
  {
    ScaledTerm(w, l);
    ScaledProduct(w * l, r, n);
  }

  lemma ScaledProduct(p: int, r: int, n: int)
    requires n > 0
    ensures 16 * n > 0 && (p as real / 16.0) * r as real / n as real == Scaled(p * r, 16 * n)
  {
    var x, y, z := p as real, r as real, n as real;
    assert (x / 16.0) * y == (x * y) / 16.0;
    assert (x * y) / 16.0 / z == (x * y) / (16.0 * z);
    assert (16 * n) as real == 16.0 * z;
  }

  method AddObserved(total: real, i: int, j: int, count: nat, ghost before: int) returns (next: real)
    requires total == Scaled(before, 16)
    ensures next == Scaled(before + QUADRATIC(i, j) * count, 16)
  {
    ScaledTerm(Square(i - j), count);
    ScaledSum(before, Square(i - j) * count, 16);
    next := total + (Square(i - j) as real / 16.0) * count as real;
  }

  method AddExpected(total: real, i: int, j: int, left: nat, right: nat, n: nat, ghost before: int) returns (next: real)
    requires n > 0 && 16 * n > 0 && total == Scaled(before, 16 * n)
    ensures next == Scaled(before + QUADRATIC(i, j) * left * right, 16 * n)
  {
    ScaledQuotient(Square(i - j), left, right, n);
    ScaledSum(before, Square(i - j) * left * right, 16 * n);
    next := total + (Square(i - j) as real / 16.0) * left as real * right as real / n as real;
  }

  method WeightedObserved(observed: array2<nat>, ghost xs: seq<int>, ghost ys: seq<int>) returns (total: real)
    requires |xs| == |ys| && observed.Length0 == 5 && observed.Length1 == 5
    requires forall i, j :: 0 <= i < 5 && 0 <= j < 5 ==> observed[i, j] == Cell(xs, ys, i, j)
    ensures total == Scaled(Observed(QUADRATIC, xs, ys, 5), 16)
  {
    total := 0.0;
    for i := 0 to 5
      invariant total == Scaled(Observed(QUADRATIC, xs, ys, i), 16)
    {
      for j := 0 to 5
        invariant total == Scaled(Observed(QUADRATIC, xs, ys, i) + ObservedRow(QUADRATIC, xs, ys, i, j), 16)
      {
        total := AddObserved(total, i, j, observed[i, j],
                             Observed(QUADRATIC, xs, ys, i) + ObservedRow(QUADRATIC, xs, ys, i, j));
      }
    }
  }

  method WeightedExpected(left: array<nat>, right: array<nat>, n: nat, ghost xs: seq<int>, ghost ys: seq<int>)
    returns (total: real)
    requires n > 0 && 16 * n > 0 && left.Length == 5 && right.Length == 5
    requires forall i :: 0 <= i < 5 ==> left[i] == Count(xs, i) && right[i] == Count(ys, i)
    ensures total == Scaled(Expected(QUADRATIC, xs, ys, 5), 16 * n)
  {
    total := 0.0;
    for i := 0 to 5
      invariant total == Scaled(Expected(QUADRATIC, xs, ys, i), 16 * n)
    {
      for j := 0 to 5
        invariant total == Scaled(Expected(QUADRATIC, xs, ys, i) + ExpectedRow(QUADRATIC, xs, ys, i, j), 16 * n)
      {
        total := AddExpected(total, i, j, left[i], right[j], n,
                             Expected(QUADRATIC, xs, ys, i) + ExpectedRow(QUADRATIC, xs, ys, i, j));
      }
    }
  }

  /** The last lines of `qwk`, with the fallback it writes for a zero expected disagreement. */
  method Ratio(weightedObserved: real, weightedExpected: real, ghost n: int, ghost d: int, ghost c: int)
    returns (kappa: real)
    requires n > 0 && 16 * n > 0 && (c == 0 ==> d == 0)
    requires weightedObserved == Scaled(d, 16) && weightedExpected == Scaled(c, 16 * n)
    ensures kappa == KappaOf(n, d, c)
  {
    ScaledZero(c, 16 * n);
    if weightedExpected == 0.0 {
      return if weightedObserved == 0.0 then 1.0 else 0.0;
    }
    SameRatio(n, d, c);
    return 1.0 - weightedObserved / weightedExpected;
  }

  lemma ScaledZero(c: int, units: int)
    requires units > 0
    ensures Scaled(c, units) == 0.0 <==> c == 0
  {
    assert c as real == Scaled(c, units) * units as real;
  }

  lemma SameRatio(n: int, d: int, c: int)
    requires n > 0 && 16 * n > 0 && c != 0
    ensures Scaled(c, 16 * n) != 0.0
    ensures Scaled(d, 16) / Scaled(c, 16 * n) == (n * d) as real / c as real
  {
    ScaledZero(c, 16 * n);
    var q, e, f := Scaled(c, 16 * n), d as real, n as real;
    assert (16 * n) as real == 16.0 * f;
    assert q * (16.0 * f) == c as real;
    assert (n * d) as real == f * e;
    assert ((e / 16.0) / q) * (q * (16.0 * f)) == f * e by {
      var r := (e / 16.0) / q;
      assert r * q == e / 16.0;
      assert r * (q * (16.0 * f)) == (r * q) * (16.0 * f);
    }
  }

  method MapBands(scores: seq<int>) returns (bands: seq<int>)
    requires ValidScores(scores)
    ensures bands == Bands(scores)
  {
    bands := [];
    for k := 0 to |scores|
      invariant bands == Bands(scores[..k])
    {
      assert scores[..k + 1][..k] == scores[..k];
      bands := bands + [Band(scores[k])];
    }
    assert scores[..|scores|] == scores;
  }

  method QwkOfBands(xs: seq<int>, ys: seq<int>) returns (kappa: real)
    requires |xs| == |ys| > 0 && InBands(xs) && InBands(ys)
    ensures kappa == Kappa(xs, ys)
  {
    var observed, leftCounts, rightCounts := Tally(xs, ys);
    var weightedObserved := WeightedObserved(observed, xs, ys);
    var weightedExpected := WeightedExpected(leftCounts, rightCounts, |xs|, xs, ys);
    ObservedIsDistance(QUADRATIC, xs, ys);
    ExpectedIsCross(QUADRATIC, xs, ys);
    KappaIsSound(xs, ys);
    kappa := Ratio(weightedObserved, weightedExpected, |xs|, Distance(xs, ys), Cross(xs, ys));
  }

  /** `qwk`: nothing for lists that do not pair up or are empty, otherwise the kappa of the bands. */
  method Qwk(left: seq<int>, right: seq<int>) returns (kappa: Option<real>)
    requires ValidScores(left) && ValidScores(right)
    ensures kappa.Some? <==> |left| == |right| > 0
    ensures kappa.Some? ==> kappa.value == Kappa(Bands(left), Bands(right))
    ensures kappa.Some? ==> -1.0 <= kappa.value <= 1.0
    ensures kappa.Some? ==>
              (kappa.value == 1.0 <==> forall k :: 0 <= k < |left| ==> Band(left[k]) == Band(right[k]))
  {
    if |left| != |right| || |left| == 0 {
      return None;
    }
    var xs := MapBands(left);
    var ys := MapBands(right);
    var value := QwkOfBands(xs, ys);
    KappaIsSound(xs, ys);
    SameBands(left, right);
    return Some(value);
  }

  lemma SameBands(left: seq<int>, right: seq<int>)
    requires ValidScores(left) && ValidScores(right) && |left| == |right|
    ensures Bands(left) == Bands(right) <==> forall k :: 0 <= k < |left| ==> Band(left[k]) == Band(right[k])
  {
    if forall k :: 0 <= k < |left| ==> Band(left[k]) == Band(right[k]) {
      assert forall k :: 0 <= k < |left| ==> Bands(left)[k] == Bands(right)[k];
    } else {
      var k :| 0 <= k < |left| && Band(left[k]) != Band(right[k]);
      assert Bands(left)[k] != Bands(right)[k];
    }
  }
}
