/**
  The projection of the feature weights onto { sum = 1, 0.02 <= w_i <= 0.35 } by alternating
  normalisation and clamping (backend/app/tp_calibration.py, recalibrate).

  Weights are exact reals; the final rounding to four digits is dropped.
 */
module WeightProjection {
  const LO: real := 0.02
  const HI: real := 0.35
  const ALPHA: real := 0.2
  const N := 8
  const PASSES := 24

  type Weights = w: seq<real> | |w| == N witness [0.2, 0.16, 0.18, 0.12, 0.12, 0.12, 0.06, 0.04]

  function Sum(w: seq<real>): real {
    if w == [] then 0.0 else w[0] + Sum(w[1..])
  }

  function Clamp(x: real): (y: real)
    ensures LO <= y <= HI
  {
    if x < LO then LO else if x > HI then HI else x
  }

  /** Every weight divided by `s` and clamped. */
  function Scale(w: seq<real>, s: real): (v: seq<real>)
    requires s != 0.0
    ensures |v| == |w|
  {
    if w == [] then [] else [Clamp(w[0] / s)] + Scale(w[1..], s)
  }

  /** `sum(w) or 1e-9` */
  function Divisor(w: seq<real>): (s: real)
    ensures s != 0.0
  {
    if Sum(w) == 0.0 then 0.000000001 else Sum(w)
  }

  function Pass(w: Weights): (v: Weights) {
    Scale(w, Divisor(w))
  }

  function Iterate(w: Weights, k: nat): Weights {
    if k == 0 then w else Pass(Iterate(w, k - 1))
  }

  ghost predicate InBounds(w: seq<real>) {
    forall i :: 0 <= i < |w| ==> LO <= w[i] <= HI
  }

  /** The loop of the source. */
  method Project(start: Weights) returns (w: Weights)
    ensures w == Iterate(start, 24)
  {
    w := start;
    for i := 0 to PASSES
      invariant w == Iterate(start, i)
    {
      w := Pass(w);
    }
  }

  // ---------------------------------------------------------------- one pass

  lemma {:induction false} ScaleAt(w: seq<real>, s: real, i: nat)
    requires s != 0.0 && i < |w|
    ensures Scale(w, s)[i] == Clamp(w[i] / s)
  {
    if i > 0 {
      ScaleAt(w[1..], s, i - 1);
    }
  }

  lemma PassInBounds(w: Weights)
    ensures InBounds(Pass(w))
  {
    forall i | 0 <= i < N ensures LO <= Pass(w)[i] <= HI {
      ScaleAt(w, Divisor(w), i);
    }
  }

  lemma SignOfFactor(x: real, s: real)
    ensures s > 0.0 && x * s >= 0.0 ==> x >= 0.0
    ensures s > 0.0 && x * s <= 0.0 ==> x <= 0.0
    ensures s < 0.0 && x * s >= 0.0 ==> x <= 0.0
  {
  }

  lemma DivMonotone(x: real, y: real, s: real)
    requires s != 0.0 && x <= y
    ensures s > 0.0 ==> x / s <= y / s
    ensures s < 0.0 ==> x / s >= y / s
  {
  }

  /** A pass with a non-negative sum keeps the order of the weights; with a negative sum it reverses it. */
  lemma PassOrder(w: Weights, i: nat, j: nat)
    requires i < N && j < N && w[i] <= w[j]
    ensures Sum(w) >= 0.0 ==> Pass(w)[i] <= Pass(w)[j]
    ensures Sum(w) < 0.0 ==> Pass(w)[i] >= Pass(w)[j]
  {
    ScaleAt(w, Divisor(w), i);
    ScaleAt(w, Divisor(w), j);
    DivMonotone(w[i], w[j], Divisor(w));
  }

  lemma DivSum(x: real, y: real, s: real)
    requires s != 0.0
    ensures (x + y) / s == x / s + y / s
  {
  }

  function Over(x: real, s: real): real
    requires s != 0.0
  {
    x / s
  }

  /** What the lower clamp can add to n weights at most. */
  function Lift(n: nat, s: real): real
    requires s != 0.0
  {
    n as real * (LO - LO / s)
  }

  lemma {:induction false} ScaleDownForm(w: seq<real>, s: real)
    requires s >= 1.0 && InBounds(w)
    ensures Over(Sum(w), s) <= Sum(Scale(w, s)) <= Over(Sum(w), s) + Lift(|w|, s)
  {
    if w == [] {
      assert Over(0.0, s) == 0.0 && Lift(0, s) == 0.0;
    } else {
      hide Clamp, Over, Lift;
      assert LO <= w[0] <= HI;
      ScaleDownForm(w[1..], s);
      ClampDown(w[0], s, |w| - 1);
      OverSum(w[0], Sum(w[1..]), s);
    }
  }

  lemma OverSum(x: real, y: real, s: real)
    requires s != 0.0
    ensures Over(x + y, s) == Over(x, s) + Over(y, s)
  {
  }

  lemma ClampDown(x: real, s: real, n: nat)
    requires s >= 1.0 && LO <= x <= HI
    ensures Over(x, s) <= Clamp(x / s) <= Over(x, s) + Lift(n + 1, s) - Lift(n, s)
  {
  }

  /** Above one only the lower clamp acts, and it adds at most LO * (1 - 1/s) per weight. */
  lemma ScaleDown(w: seq<real>, s: real)
    requires s >= 1.0 && InBounds(w)
    ensures Sum(w) / s <= Sum(Scale(w, s)) <= Sum(w) / s + |w| as real * (LO - LO / s)
  {
    hide Sum, Scale, InBounds;
    ScaleDownForm(w, s);
  }

  lemma ShrinkByDivision(x: real, s: real)
    requires x >= 0.0 && s > 0.0
    ensures s >= 1.0 ==> x / s <= x
    ensures s <= 1.0 ==> x / s >= x
  {
    assert (x / s) * s == x;
    assert (x - x / s) * s == x * (s - 1.0);
    SignOfFactor(x - x / s, s);
  }

  /** The weights the upper clamp cuts when everything is divided by s, and how many they are. */
  function Cut(w: seq<real>, s: real): real
    requires s != 0.0
  {
    if w == [] then 0.0 else (if w[0] / s > HI then w[0] else 0.0) + Cut(w[1..], s)
  }

  function CutCount(w: seq<real>, s: real): (c: nat)
    requires s != 0.0
    ensures c <= |w|
  {
    if w == [] then 0 else (if w[0] / s > HI then 1 else 0) + CutCount(w[1..], s)
  }

  /** Below one only the upper clamp acts. */
  lemma {:induction false} ScaleUp(w: seq<real>, s: real)
    requires 0.0 < s <= 1.0 && InBounds(w)
    ensures Sum(w) <= Sum(Scale(w, s)) <= Sum(w) / s
    ensures Sum(w) / s - Sum(Scale(w, s)) <= Cut(w, s) / s - Cut(w, s)
    ensures Cut(w, s) + LO * (|w| - CutCount(w, s)) as real <= Sum(w)
    ensures HI * CutCount(w, s) as real + LO * (|w| - CutCount(w, s)) as real <= Sum(Scale(w, s))
  {
    if w != [] {
      assert LO <= w[0] <= HI;
      ScaleUp(w[1..], s);
      ShrinkByDivision(w[0], s);
      DivSum(w[0], Sum(w[1..]), s);
      DivSum(w[0], Cut(w[1..], s), s);
      DivSum(0.0, Cut(w[1..], s), s);
    }
  }

  /**
    One pass from inside the bounds: the sum stays on its side of one; from above the excess shrinks
    at least by the factor 8 * LO, from below the deficit at least by 1 - 6 * LO.
   */
  lemma PassContracts(w: Weights)
    requires InBounds(w)
    ensures var d, e := Sum(w) - 1.0, Sum(Pass(w)) - 1.0;
      && (d >= 0.0 ==> 0.0 <= e <= N as real * LO * d)
      && (d <= 0.0 ==> (1.0 - 6.0 * LO) * d <= e <= 0.0)
  {
    var s := Sum(w);
    PositiveSum(w);
    assert s / s == 1.0;
    if s >= 1.0 {
      ScaleDown(w, s);
      assert LO / s * s == LO;
      assert LO - LO / s <= LO * (s - 1.0) by {
        assert (LO / s - LO * (2.0 - s)) * s == LO * (s - 1.0) * (s - 1.0);
        SignOfFactor(LO / s - LO * (2.0 - s), s);
      }
    }
    if s <= 1.0 {
      ScaleUp(w, s);
      var c, m := Cut(w, s), CutCount(w, s);
      assert m <= 2;
      assert c <= s - 0.12;
      DeficitShrinks(c, s);
    }
  }

  lemma DeficitShrinks(c: real, s: real)
    requires 0.0 < s <= 1.0 && c <= s - 0.12
    ensures c / s - c <= 0.88 * (1.0 - s)
  {
    var q := c / s;
    assert q * s == c;
    MulNonNegative(0.88 * s - c, 1.0 - s);
    assert (0.88 * (1.0 - s) - (q - c)) * s == (0.88 * s - c) * (1.0 - s);
    SignOfFactor(0.88 * (1.0 - s) - (q - c), s);
  }

  lemma MulNonNegative(x: real, y: real)
    requires x >= 0.0 && y >= 0.0
    ensures x * y >= 0.0
  {
  }

  lemma {:induction false} PositiveSum(w: seq<real>)
    requires InBounds(w)
    ensures |w| as real * LO <= Sum(w) <= |w| as real * HI
  {
    if w != [] {
      PositiveSum(w[1..]);
      assert LO <= w[0] <= HI;
    }
  }

  /** The fixed points of a pass are exactly the vectors it projects onto. */
  lemma FixedPoints(w: Weights)
    ensures Pass(w) == w <==> InBounds(w) && Sum(w) == 1.0
  {
    PassInBounds(w);
    if Pass(w) == w {
      PassContracts(w);
    }
    if InBounds(w) && Sum(w) == 1.0 {
      forall i | 0 <= i < N ensures Pass(w)[i] == w[i] {
        ScaleAt(w, 1.0, i);
        assert LO <= w[i] <= HI;
      }
    }
  }

  // ---------------------------------------------------------------- all passes

  function Power(x: real, k: nat): real {
    if k == 0 then 1.0 else x * Power(x, k - 1)
  }

  lemma {:induction false} PowerPositive(x: real, k: nat)
    requires x >= 0.0
    ensures Power(x, k) >= 0.0
  {
    if k > 0 { PowerPositive(x, k - 1); }
  }

  lemma {:induction false} PowerAdds(x: real, a: nat, b: nat)
    ensures Power(x, a + b) == Power(x, a) * Power(x, b)
    decreases b
  {
    if b > 0 {
      PowerAdds(x, a, b - 1);
      Swap(x, Power(x, a), Power(x, b - 1));
    }
  }

  lemma Swap(x: real, y: real, z: real)
    ensures x * (y * z) == y * (x * z)
  {
  }

  lemma PowerBounds()
    ensures Power(0.88, 23) < 0.0529 && Power(0.16, 23) < 0.0000001
  {
    assert Power(0.88, 3) == 0.681472 && Power(0.16, 3) == 0.004096;
    assert Power(0.88, 5) == 0.5277319168 && Power(0.16, 5) == 0.0001048576;
    hide Power;
    PowerAdds(0.88, 5, 5);
    PowerAdds(0.88, 10, 10);
    PowerAdds(0.88, 20, 3);
    PowerAdds(0.16, 5, 5);
    PowerAdds(0.16, 10, 10);
    PowerAdds(0.16, 20, 3);
  }

  /**
    After the first pass the sum never crosses one and its distance shrinks geometrically:
    by 0.16 per pass from above, by 0.88 per pass from below.
   */
  lemma {:induction false} PassesConverge(w: Weights, k: nat)
    ensures InBounds(Iterate(w, k + 1))
    ensures var d, e := Sum(Pass(w)) - 1.0, Sum(Iterate(w, k + 1)) - 1.0;
      && (d >= 0.0 ==> 0.0 <= e <= Power(N as real * LO, k) * d)
      && (d <= 0.0 ==> Power(1.0 - 6.0 * LO, k) * d <= e <= 0.0)
  {
    PassInBounds(Iterate(w, k));
    if k == 0 {
      assert Iterate(w, 1) == Pass(Iterate(w, 0)) == Pass(w);
    } else {
      PassesConverge(w, k - 1);
      PassContracts(Iterate(w, k));
    }
  }

  /** What the source stores: in bounds, and within 0.16^23 * 1.8 above or 0.88^23 * 0.84 below a sum of one. */
  lemma ProjectedWeights(start: Weights)
    ensures var w := Iterate(start, 24);
      && (forall i | 0 <= i < |w| :: 0.02 <= w[i] <= 0.35)
      && Power(0.88, 23) * -0.84 <= Sum(w) - 1.0 <= Power(0.16, 23) * 1.8
      && -0.0445 < Sum(w) - 1.0 < 0.000001
  {
    PassInBounds(start);
    PositiveSum(Pass(start));
    assert -0.84 <= Sum(Pass(start)) - 1.0 <= 1.8;
    hide Power, Iterate, Sum, Pass;
    PassesConverge(start, PASSES - 1);
    PowerPositive(0.88, PASSES - 1);
    PowerPositive(0.16, PASSES - 1);
    PowerBounds();
    var below, above, e := Power(0.88, 23), Power(0.16, 23), Sum(Iterate(start, 24)) - 1.0;
    Between(below, above, Sum(Pass(start)) - 1.0, e);
    NearOne(below, above, e);
  }

  lemma Between(below: real, above: real, d: real, e: real)
    requires below >= 0.0 && above >= 0.0 && -0.84 <= d <= 1.8
    requires (d >= 0.0 ==> 0.0 <= e <= above * d) && (d <= 0.0 ==> below * d <= e <= 0.0)
    ensures below * -0.84 <= e <= above * 1.8
  {
    if d >= 0.0 {
      ScaleBound(above, d, 1.8);
      assert e <= above * d <= above * 1.8;
      assert below * -0.84 <= 0.0 <= e;
    } else {
      ScaleBound(below, -0.84, d);
      assert below * -0.84 <= below * d;
      assert below * d <= e <= 0.0;
      assert above * 1.8 >= 0.0;
    }
  }

  lemma NearOne(below: real, above: real, x: real)
    requires below < 0.0529 && above < 0.0000001 && below * -0.84 <= x <= above * 1.8
    ensures -0.0445 < x < 0.000001
  {
  }

  lemma ScaleBound(p: real, x: real, y: real)
    requires p >= 0.0 && x <= y
    ensures p * x <= p * y
  {
  }

  /** Order survives every pass when the first one divides by a non-negative sum. */
  lemma {:induction false} PassesKeepOrder(w: Weights, k: nat, i: nat, j: nat)
    requires i < N && j < N && w[i] <= w[j] && Sum(w) >= 0.0
    ensures Iterate(w, k)[i] <= Iterate(w, k)[j] && Sum(Iterate(w, k)) >= 0.0
  {
    if k > 0 {
      PassesKeepOrder(w, k - 1, i, j);
      PassOrder(Iterate(w, k - 1), i, j);
      PassInBounds(Iterate(w, k - 1));
      PositiveSum(Iterate(w, k));
    }
  }

  // ---------------------------------------------------------------- what the passes start from

  /** The EMA blend of the stored weights with the normalised correlations. */
  function Blend(prior: seq<real>, raw: seq<real>, s: real): (w: seq<real>)
    requires |prior| == |raw| && s > 0.0
    ensures |w| == |prior|
  {
    if prior == [] then [] else [(1.0 - ALPHA) * prior[0] + ALPHA * (raw[0] / s)] + Blend(prior[1..], raw[1..], s)
  }

  /** Each weight moves a fifth of the way from its own stored value to its own share of the correlations. */
  lemma {:induction false} BlendAt(prior: seq<real>, raw: seq<real>, s: real, i: nat)
    requires |prior| == |raw| && s > 0.0 && i < |prior|
    ensures Blend(prior, raw, s)[i] == 0.8 * prior[i] + 0.2 * (raw[i] / s)
  {
    if i > 0 {
      BlendAt(prior[1..], raw[1..], s, i - 1);
    }
  }

  /** The blend's sum is the same mixture of the prior's sum and one; so the first pass divides by a positive number. */
  lemma BlendSum(prior: Weights, raw: Weights)
    requires InBounds(prior) && Sum(raw) > 0.0
    ensures Sum(Blend(prior, raw, Sum(raw))) == (1.0 - ALPHA) * Sum(prior) + ALPHA
    ensures Sum(Blend(prior, raw, Sum(raw))) > 0.0
  {
    BlendParts(prior, raw, Sum(raw));
    PositiveSum(prior);
    assert Sum(raw) / Sum(raw) == 1.0;
  }

  lemma {:induction false} BlendParts(prior: seq<real>, raw: seq<real>, s: real)
    requires |prior| == |raw| && s > 0.0
    ensures Sum(Blend(prior, raw, s)) == (1.0 - ALPHA) * Sum(prior) + ALPHA * (Sum(raw) / s)
  {
    if prior != [] {
      BlendParts(prior[1..], raw[1..], s);
      DivSum(raw[0], Sum(raw[1..]), s);
    }
  }
}
