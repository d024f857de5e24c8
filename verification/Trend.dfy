/** The trend of a daily revenue series (`detect_trend`,
    apps/hotmart-ebook-agent/hotmart_agent/modules/analytics.py), over the reals and without rounding. */
module Trend {

  datatype Shape = TooShort | Growing | Falling | Stable

  /** A series of numbers, of which the first `n` are meant. */
  type Terms = nat -> real

  /** Products go by a name, so that sums of products are linear in them. */
  function Mul(x: real, y: real): real { x * y }

  function Sum(f: Terms, n: nat): real {
    if n == 0 then 0.0 else Sum(f, n - 1) + f(n - 1)
  }

  function Indices(): Terms { (i: nat) => i as real }
  function Of(ys: seq<real>): Terms { (i: nat) => if i < |ys| then ys[i] else 0.0 }
  function Constant(c: real): Terms { (i: nat) => c }
  function Times(f: Terms, g: Terms): Terms { (i: nat) => Mul(f(i), g(i)) }
  function Minus(f: Terms, g: Terms): Terms { (i: nat) => f(i) - g(i) }
  function Line(a: real, b: real): Terms { (i: nat) => a + Mul(b, i as real) }

  function Mean(f: Terms, n: nat): real
    requires n > 0
  {
    Sum(f, n) / n as real
  }

  function Centred(f: Terms, n: nat): Terms
    requires n > 0
  {
    Minus(f, Constant(Mean(f, n)))
  }

  function Spread(n: nat): real
    requires n > 0
  {
    Sum(Times(Centred(Indices(), n), Centred(Indices(), n)), n)
  }

  function Covariation(f: Terms, n: nat): real
    requires n > 0
  {
    Sum(Times(Centred(Indices(), n), Centred(f, n)), n)
  }

  function Slope(ys: seq<real>): real
    requires |ys| >= 3
  {
    Covariation(Of(ys), |ys|) / if Spread(|ys|) == 0.0 then 1.0 else Spread(|ys|)
  }

  function SlopePct(ys: seq<real>): real
    requires |ys| >= 3
  {
    var yMean := Mean(Of(ys), |ys|);
    if yMean != 0.0 then Slope(ys) / yMean else 0.0
  }

  function DetectShape(ys: seq<real>): Shape {
    if |ys| < 3 then TooShort
    else if SlopePct(ys) > 0.05 then Growing
    else if SlopePct(ys) < -0.05 then Falling
    else Stable
  }

  lemma QuotientAbove(x: real, y: real, t: real)
    requires y != 0.0
    ensures x / y > t <==> if y > 0.0 then x > t * y else x < t * y
    ensures x / y < t <==> if y > 0.0 then x < t * y else x > t * y
  {
    var q := x / y;
    assert x == q * y;
    if q > t {
      if y > 0.0 { assert (q - t) * y > 0.0; } else { assert (q - t) * -y > 0.0; }
    } else if q < t {
      if y > 0.0 { assert (t - q) * y > 0.0; } else { assert (t - q) * -y > 0.0; }
    }
  }

  /** Growth is a slope of more than a twentieth of the mean in its direction, a fall one of more than that
      against it, and a series of mean zero is stable, as is every other of at least three days. */
  lemma ShapeIff(ys: seq<real>)
    ensures DetectShape(ys) == TooShort <==> |ys| < 3
    ensures |ys| >= 3 ==>
      var mean, slope := Sum(Of(ys), |ys|) / |ys| as real, Slope(ys);
      && (DetectShape(ys) == Growing <==>
            (mean > 0.0 && slope > 0.05 * mean) || (mean < 0.0 && slope < 0.05 * mean))
      && (DetectShape(ys) == Falling <==>
            (mean > 0.0 && slope < -0.05 * mean) || (mean < 0.0 && slope > -0.05 * mean))
  {
    if |ys| >= 3 {
      var mean := Mean(Of(ys), |ys|);
      if mean != 0.0 {
        QuotientAbove(Slope(ys), mean, 0.05);
        QuotientAbove(Slope(ys), mean, -0.05);
      }
    }
  }

  // ---------------------------------------------------------------- products

  lemma Distribute(c: real, a: real, b: real)
    ensures Mul(c, a + b) == Mul(c, a) + Mul(c, b)
    ensures Mul(c, a - b) == Mul(c, a) - Mul(c, b)
    ensures Mul(a + b, c) == Mul(a, c) + Mul(b, c)
    ensures Mul(a - b, c) == Mul(a, c) - Mul(b, c)
  {}

  lemma MulBasics(x: real)
    ensures Mul(x, 0.0) == 0.0 && Mul(0.0, x) == 0.0 && Mul(x, 1.0) == x && Mul(1.0, x) == x
    ensures Mul(-1.0, x) == -x
  {}

  lemma MulAssoc(x: real, y: real, z: real)
    ensures Mul(x, Mul(y, z)) == Mul(Mul(x, y), z) == Mul(y, Mul(x, z))
  {}

  lemma MulNegate(x: real, y: real)
    ensures Mul(-x, y) == -Mul(x, y) && Mul(x, -y) == -Mul(x, y)
  {}

  lemma MulPositive(x: real, y: real)
    requires x > 0.0 && y > 0.0
    ensures Mul(x, y) > 0.0
  {}

  lemma SquareSign(x: real)
    ensures Mul(x, x) >= 0.0
    ensures x != 0.0 ==> Mul(x, x) > 0.0
  {
    MulBasics(x);
    if x > 0.0 {
      MulPositive(x, x);
    } else if x < 0.0 {
      MulPositive(-x, -x);
      MulNegate(x, -x);
      MulNegate(x, x);
    }
  }

  lemma CancelFactor(a: real, b: real, c: real)
    requires c > 0.0 && Mul(a, c) == Mul(b, c)
    ensures a == b
  {
    Distribute(c, a, b);
    Distribute(c, b, a);
    if a > b {
      MulPositive(a - b, c);
    } else if a < b {
      MulPositive(b - a, c);
    }
  }

  lemma QuotientTimes(a: real, b: real)
    requires b != 0.0
    ensures Mul(a / b, b) == a
  {}

  lemma QuotientIs(q: real, a: real, b: real)
    requires b != 0.0 && Mul(q, b) == a
    ensures a / b == q
  {}

  // -------------------------------------------------------------------- sums

  lemma {:induction false} SumCombine(h: Terms, f: Terms, g: Terms, a: real, b: real, n: nat)
    requires forall i: nat :: i < n ==> h(i) == Mul(a, f(i)) + Mul(b, g(i))
    ensures Sum(h, n) == Mul(a, Sum(f, n)) + Mul(b, Sum(g, n))
  {
    if n > 0 {
      SumCombine(h, f, g, a, b, n - 1);
      Distribute(a, Sum(f, n - 1), f(n - 1));
      Distribute(b, Sum(g, n - 1), g(n - 1));
    } else {
      MulBasics(a);
      MulBasics(b);
    }
  }

  lemma {:induction false} SumScale(h: Terms, f: Terms, c: real, n: nat)
    requires forall i: nat :: i < n ==> h(i) == Mul(c, f(i))
    ensures Sum(h, n) == Mul(c, Sum(f, n))
  {
    if n > 0 {
      SumScale(h, f, c, n - 1);
      Distribute(c, Sum(f, n - 1), f(n - 1));
    } else {
      MulBasics(c);
    }
  }

  lemma {:induction false} SumMinus(h: Terms, f: Terms, g: Terms, n: nat)
    requires forall i: nat :: i < n ==> h(i) == f(i) - g(i)
    ensures Sum(h, n) == Sum(f, n) - Sum(g, n)
  {
    if n > 0 {
      SumMinus(h, f, g, n - 1);
    }
  }

  lemma {:induction false} SumSame(f: Terms, g: Terms, n: nat)
    requires forall i: nat :: i < n ==> f(i) == g(i)
    ensures Sum(f, n) == Sum(g, n)
  {
    if n > 0 {
      SumSame(f, g, n - 1);
    }
  }

  lemma {:induction false} SumConstant(c: real, n: nat)
    ensures Sum(Constant(c), n) == Mul(c, n as real)
  {
    MulBasics(c);
    if n > 0 {
      SumConstant(c, n - 1);
      Distribute(c, (n - 1) as real, 1.0);
      assert (n - 1) as real + 1.0 == n as real;
    }
  }

  lemma {:induction false} SumSquares(f: Terms, n: nat)
    ensures Sum(Times(f, f), n) >= 0.0
  {
    if n > 0 {
      SumSquares(f, n - 1);
      SquareSign(f(n - 1));
    }
  }

  lemma {:induction false} SumSquaresPositive(f: Terms, n: nat, k: nat)
    requires k < n && f(k) != 0.0
    ensures Sum(Times(f, f), n) > 0.0
  {
    SquareSign(f(n - 1));
    if k < n - 1 {
      SumSquaresPositive(f, n - 1, k);
    } else {
      SumSquares(f, n - 1);
    }
  }

  /** Reading a sum backwards. */
  lemma {:induction false} SumReverse(f: Terms, g: Terms, n: nat)
    requires forall i: nat :: i < n ==> g(i) == f(n - 1 - i)
    ensures Sum(g, n) == Sum(f, n)
  {
    if n > 0 {
      var f1: Terms := (i: nat) => f(i + 1);
      SumReverse(f1, g, n - 1);
      SumFront(f, f1, n);
    }
  }

  lemma {:induction false} SumFront(f: Terms, f1: Terms, n: nat)
    requires n > 0 && forall i: nat :: f1(i) == f(i + 1)
    ensures Sum(f, n) == f(0) + Sum(f1, n - 1)
  {
    if n > 1 {
      SumFront(f, f1, n - 1);
      assert f1(n - 2) == f(n - 1);
    } else {
      assert Sum(f, 1) == Sum(f, 0) + f(0);
    }
  }

  lemma {:induction false} SumOfIndices(n: nat)
    ensures 2.0 * Sum(Indices(), n) == Mul(n as real, n as real - 1.0)
  {
    if n > 0 {
      SumOfIndices(n - 1);
      NextTriangle(n as real);
    } else {
      MulBasics(-1.0);
    }
  }

  lemma NextTriangle(x: real)
    ensures Mul(x - 1.0, x - 1.0 - 1.0) + 2.0 * (x - 1.0) == Mul(x, x - 1.0)
  {}

  lemma MeanTimes(f: Terms, n: nat)
    requires n > 0
    ensures Mul(Mean(f, n), n as real) == Sum(f, n)
  {
    QuotientTimes(Sum(f, n), n as real);
  }

  lemma IndexMean(n: nat)
    requires n > 0
    ensures 2.0 * Mean(Indices(), n) == n as real - 1.0
  {
    var m, x := Mean(Indices(), n), n as real;
    SumOfIndices(n);
    MeanTimes(Indices(), n);
    Distribute(x, m, m);
    Commute(x, x - 1.0);
    CancelFactor(m + m, x - 1.0, x);
  }

  lemma Commute(x: real, y: real)
    ensures Mul(x, y) == Mul(y, x)
  {}

  lemma CentredSum(f: Terms, n: nat)
    requires n > 0
    ensures Sum(Centred(f, n), n) == 0.0
  {
    SumConstant(Mean(f, n), n);
    SumMinus(Centred(f, n), f, Constant(Mean(f, n)), n);
    MeanTimes(f, n);
  }

  /** The guard against a zero denominator never acts on a series that is long enough. */
  lemma SpreadPositive(n: nat)
    requires n >= 2
    ensures Spread(n) > 0.0
  {
    var f := Centred(Indices(), n);
    assert f(1) - f(0) == 1.0;
    SumSquaresPositive(f, n, if f(0) != 0.0 then 0 else 1);
  }

  // ----------------------------------------------------------- least squares

  function Intercept(ys: seq<real>): real
    requires |ys| >= 3
  {
    Mean(Of(ys), |ys|) - Slope(ys) * Mean(Indices(), |ys|)
  }

  function Residuals(ys: seq<real>, a: real, b: real): Terms { Minus(Of(ys), Line(a, b)) }

  /** The sum of squared residuals of the line a + b * x. */
  function Error(ys: seq<real>, a: real, b: real): real {
    Sum(Times(Residuals(ys, a, b), Residuals(ys, a, b)), |ys|)
  }

  lemma ResidualsCentred(ys: seq<real>, i: nat)
    requires |ys| >= 3
    ensures Residuals(ys, Intercept(ys), Slope(ys))(i) ==
            Centred(Of(ys), |ys|)(i) - Mul(Slope(ys), Centred(Indices(), |ys|)(i))
  {
    Distribute(Slope(ys), i as real, Mean(Indices(), |ys|));
    assert Mul(Slope(ys), Mean(Indices(), |ys|)) == Slope(ys) * Mean(Indices(), |ys|);
  }

  /** The residuals of the fitted line sum up to nothing. */
  lemma ResidualsSum(ys: seq<real>)
    requires |ys| >= 3
    ensures Sum(Residuals(ys, Intercept(ys), Slope(ys)), |ys|) == 0.0
  {
    var n, b := |ys|, Slope(ys);
    var dx, dy := Centred(Indices(), n), Centred(Of(ys), n);
    forall i: nat | i < n
      ensures Residuals(ys, Intercept(ys), b)(i) == Mul(1.0, dy(i)) + Mul(-b, dx(i))
    {
      ResidualsCentred(ys, i);
      MulBasics(dy(i));
      MulNegate(b, dx(i));
    }
    SumCombine(Residuals(ys, Intercept(ys), b), dy, dx, 1.0, -b, n);
    CentredSum(Indices(), n);
    CentredSum(Of(ys), n);
    MulBasics(1.0);
    MulBasics(-b);
  }

  lemma SlopeTimesSpread(ys: seq<real>)
    requires |ys| >= 3
    ensures Mul(Slope(ys), Spread(|ys|)) == Covariation(Of(ys), |ys|)
  {
    SpreadPositive(|ys|);
    QuotientTimes(Covariation(Of(ys), |ys|), Spread(|ys|));
  }

  lemma CentredMoment(ys: seq<real>)
    requires |ys| >= 3
    ensures Sum(Times(Centred(Indices(), |ys|), Residuals(ys, Intercept(ys), Slope(ys))), |ys|) == 0.0
  {
    var n, b := |ys|, Slope(ys);
    var r := Residuals(ys, Intercept(ys), b);
    var dx, dy := Centred(Indices(), n), Centred(Of(ys), n);
    var moment, xy, xx := Times(dx, r), Times(dx, dy), Times(dx, dx);
    forall i: nat | i < n
      ensures moment(i) == Mul(1.0, xy(i)) + Mul(-b, xx(i))
    {
      ResidualsCentred(ys, i);
      Distribute(dx(i), dy(i), Mul(b, dx(i)));
      MulAssoc(dx(i), b, dx(i));
      MulBasics(xy(i));
      MulNegate(b, xx(i));
    }
    SumCombine(moment, xy, xx, 1.0, -b, n);
    SlopeTimesSpread(ys);
    MulBasics(Sum(xy, n));
    MulNegate(b, Spread(n));
  }

  lemma UncentreMoment(r: Terms, n: nat)
    requires n > 0
    ensures Sum(Times(Indices(), r), n) ==
            Sum(Times(Centred(Indices(), n), r), n) + Mul(Mean(Indices(), n), Sum(r, n))
  {
    var m, dx := Mean(Indices(), n), Centred(Indices(), n);
    forall i: nat | i < n
      ensures Times(Indices(), r)(i) == Mul(1.0, Times(dx, r)(i)) + Mul(m, r(i))
    {
      Distribute(r(i), dx(i), m);
      MulBasics(Times(dx, r)(i));
    }
    SumCombine(Times(Indices(), r), Times(dx, r), r, 1.0, m, n);
    MulBasics(Sum(Times(dx, r), n));
  }

  /** So does their first moment. */
  lemma ResidualsMoment(ys: seq<real>)
    requires |ys| >= 3
    ensures Sum(Times(Indices(), Residuals(ys, Intercept(ys), Slope(ys))), |ys|) == 0.0
  {
    var r := Residuals(ys, Intercept(ys), Slope(ys));
    UncentreMoment(r, |ys|);
    CentredMoment(ys);
    ResidualsSum(ys);
    MulBasics(Mean(Indices(), |ys|));
  }

  lemma SquareTerm(r: real, w: real)
    ensures Mul(r - w, r - w) == Mul(r, r) - 2.0 * Mul(w, r) + Mul(w, w)
  {
    Distribute(r - w, r, w);
    Distribute(r, r, w);
    Distribute(w, r, w);
    Commute(r, w);
  }

  /** How subtracting a series changes a sum of squares. */
  lemma {:induction false} SquaresApart(r: Terms, w: Terms, n: nat)
    ensures Sum(Times(Minus(r, w), Minus(r, w)), n) ==
            Sum(Times(r, r), n) - 2.0 * Sum(Times(w, r), n) + Sum(Times(w, w), n)
  {
    if n > 0 {
      SquaresApart(r, w, n - 1);
      SquareTerm(r(n - 1), w(n - 1));
    }
  }

  /** Residuals that satisfy the normal equations are orthogonal to every line. */
  lemma LineMoment(r: Terms, u: real, v: real, n: nat)
    requires Sum(r, n) == 0.0 && Sum(Times(Indices(), r), n) == 0.0
    ensures Sum(Times(Line(u, v), r), n) == 0.0
  {
    forall i: nat | i < n
      ensures Times(Line(u, v), r)(i) == Mul(u, r(i)) + Mul(v, Times(Indices(), r)(i))
    {
      Distribute(r(i), u, Mul(v, i as real));
      MulAssoc(v, i as real, r(i));
    }
    SumCombine(Times(Line(u, v), r), r, Times(Indices(), r), u, v, n);
    MulBasics(u);
    MulBasics(v);
  }

  lemma OtherResiduals(ys: seq<real>, a: real, b: real, a0: real, b0: real, n: nat)
    ensures var d := Minus(Residuals(ys, a0, b0), Line(a - a0, b - b0));
            Sum(Times(Residuals(ys, a, b), Residuals(ys, a, b)), n) == Sum(Times(d, d), n)
  {
    var d := Minus(Residuals(ys, a0, b0), Line(a - a0, b - b0));
    forall i: nat
      ensures Residuals(ys, a, b)(i) == d(i)
    {
      Distribute(i as real, b, b0);
    }
    SumSame(Times(Residuals(ys, a, b), Residuals(ys, a, b)), Times(d, d), n);
  }

  /** By how much the line through (a, b) is worse than the fitted one. */
  lemma ErrorApart(ys: seq<real>, a: real, b: real)
    requires |ys| >= 3
    ensures var w := Line(a - Intercept(ys), b - Slope(ys));
            Error(ys, a, b) == Error(ys, Intercept(ys), Slope(ys)) + Sum(Times(w, w), |ys|)
  {
    var a0, b0 := Intercept(ys), Slope(ys);
    var u, v, r := a - a0, b - b0, Residuals(ys, a0, b0);
    ResidualsSum(ys);
    ResidualsMoment(ys);
    LineMoment(r, u, v, |ys|);
    SquaresApart(r, Line(u, v), |ys|);
    OtherResiduals(ys, a, b, a0, b0, |ys|);
  }

  /** The computed slope, with the intercept through the means, is the least-squares line: every
      other line has a larger error. */
  lemma LeastSquares(ys: seq<real>, a: real, b: real)
    requires |ys| >= 3
    ensures Error(ys, Intercept(ys), Slope(ys)) <= Error(ys, a, b)
    ensures Error(ys, Intercept(ys), Slope(ys)) == Error(ys, a, b) <==> a == Intercept(ys) && b == Slope(ys)
  {
    var u, v := a - Intercept(ys), b - Slope(ys);
    var w := Line(u, v);
    ErrorApart(ys, a, b);
    SumSquares(w, |ys|);
    MulBasics(v);
    assert w(0) == u && w(1) == u + v;
    if u == 0.0 && v == 0.0 {
      ZeroLine(|ys|);
    } else {
      SumSquaresPositive(w, |ys|, if u != 0.0 then 0 else 1);
    }
  }

  lemma ZeroLine(n: nat)
    ensures Sum(Times(Line(0.0, 0.0), Line(0.0, 0.0)), n) == 0.0
  {
    SumConstant(0.0, n);
    MulBasics(n as real);
    forall i: nat
      ensures Times(Line(0.0, 0.0), Line(0.0, 0.0))(i) == 0.0
    {
      MulBasics(i as real);
      MulBasics(0.0);
    }
    SumSame(Times(Line(0.0, 0.0), Line(0.0, 0.0)), Constant(0.0), n);
  }

  /** A series that is a line has that line's slope and intercept. */
  lemma ExactLine(ys: seq<real>, a: real, b: real)
    requires |ys| >= 3 && forall i: nat :: i < |ys| ==> ys[i] == Line(a, b)(i)
    ensures Slope(ys) == b && Intercept(ys) == a
  {
    var r := Residuals(ys, a, b);
    LeastSquares(ys, a, b);
    SumConstant(0.0, |ys|);
    MulBasics(|ys| as real);
    MulBasics(0.0);
    SumSame(Times(r, r), Constant(0.0), |ys|);
    SumSquares(Residuals(ys, Intercept(ys), Slope(ys)), |ys|);
  }

  // --------------------------------------------------------------- symmetries

  function Opposite(s: Shape): Shape {
    match s
    case Growing => Falling
    case Falling => Growing
    case _ => s
  }

  function Reversed(ys: seq<real>): (zs: seq<real>)
    ensures |zs| == |ys| && forall i :: 0 <= i < |ys| ==> zs[i] == ys[|ys| - 1 - i]
  {
    seq(|ys|, i requires 0 <= i < |ys| => ys[|ys| - 1 - i])
  }

  lemma ReverseCovariation(ys: seq<real>)
    requires ys != []
    ensures Mean(Of(Reversed(ys)), |ys|) == Mean(Of(ys), |ys|)
    ensures Covariation(Of(Reversed(ys)), |ys|) == -Covariation(Of(ys), |ys|)
  {
    var n, zs := |ys|, Reversed(ys);
    SumReverse(Of(ys), Of(zs), n);
    IndexMean(n);
    var dx := Centred(Indices(), n);
    var f, g := Times(dx, Centred(Of(ys), n)), Times(dx, Centred(Of(zs), n));
    var h: Terms := (i: nat) => -g(i);
    forall i: nat | i < n
      ensures h(i) == f(n - 1 - i)
    {
      assert dx(n - 1 - i) == -dx(i);
      assert Centred(Of(zs), n)(i) == Centred(Of(ys), n)(n - 1 - i);
      MulNegate(dx(i), Centred(Of(zs), n)(i));
    }
    SumReverse(f, h, n);
    SumMinus(h, Constant(0.0), g, n);
    SumConstant(0.0, n);
    MulBasics(n as real);
  }

  lemma NegateQuotient(a: real, b: real)
    requires b != 0.0
    ensures (-a) / b == -(a / b)
  {
    QuotientTimes(a, b);
    MulNegate(a / b, b);
    QuotientIs(-(a / b), -a, b);
  }

  /** Told backwards, a series has the opposite slope and the opposite shape. */
  lemma ReverseNegates(ys: seq<real>)
    ensures |ys| >= 3 ==> Slope(Reversed(ys)) == -Slope(ys)
    ensures DetectShape(Reversed(ys)) == Opposite(DetectShape(ys))
  {
    if |ys| >= 3 {
      ReverseCovariation(ys);
      SpreadPositive(|ys|);
      NegateQuotient(Covariation(Of(ys), |ys|), Spread(|ys|));
      if Mean(Of(ys), |ys|) != 0.0 {
        NegateQuotient(Slope(ys), Mean(Of(ys), |ys|));
      }
    }
  }

  function Scaled(ys: seq<real>, c: real): (zs: seq<real>)
    ensures |zs| == |ys| && forall i :: 0 <= i < |ys| ==> zs[i] == Mul(c, ys[i])
  {
    seq(|ys|, i requires 0 <= i < |ys| => c * ys[i])
  }

  lemma ScaleQuotient(c: real, a: real, b: real)
    requires b != 0.0
    ensures Mul(c, a) / b == Mul(c, a / b)
  {
    QuotientTimes(a, b);
    MulAssoc(c, a / b, b);
    QuotientIs(Mul(c, a / b), Mul(c, a), b);
  }

  lemma CancelScale(c: real, a: real, b: real)
    requires c != 0.0 && b != 0.0
    ensures Mul(c, b) != 0.0 && Mul(c, a) / Mul(c, b) == a / b
  {
    QuotientTimes(a, b);
    MulAssoc(a / b, c, b);
    NoZeroProduct(c, b);
    QuotientIs(a / b, Mul(c, a), Mul(c, b));
  }

  lemma NoZeroProduct(x: real, y: real)
    requires x != 0.0 && y != 0.0
    ensures Mul(x, y) != 0.0
  {
    MulNegate(x, y);
    MulNegate(-x, y);
    MulPositive(if x > 0.0 then x else -x, if y > 0.0 then y else -y);
  }

  lemma ScaleMean(ys: seq<real>, c: real)
    requires ys != []
    ensures Mean(Of(Scaled(ys, c)), |ys|) == Mul(c, Mean(Of(ys), |ys|))
  {
    SumScale(Of(Scaled(ys, c)), Of(ys), c, |ys|);
    ScaleQuotient(c, Sum(Of(ys), |ys|), |ys| as real);
  }

  lemma ScaleCovariation(ys: seq<real>, c: real)
    requires ys != []
    ensures Covariation(Of(Scaled(ys, c)), |ys|) == Mul(c, Covariation(Of(ys), |ys|))
  {
    var n, zs := |ys|, Scaled(ys, c);
    ScaleMean(ys, c);
    var dx, dy, dz := Centred(Indices(), n), Centred(Of(ys), n), Centred(Of(zs), n);
    forall i: nat | i < n
      ensures Times(dx, dz)(i) == Mul(c, Times(dx, dy)(i))
    {
      Distribute(c, Of(ys)(i), Mean(Of(ys), n));
      assert dz(i) == Mul(c, dy(i));
      MulAssoc(dx(i), c, dy(i));
    }
    SumScale(Times(dx, dz), Times(dx, dy), c, n);
  }

  /** The shape does not depend on the unit of revenue: scaling by any factor but zero keeps it. */
  lemma ScaleKeepsShape(ys: seq<real>, c: real)
    requires c != 0.0
    ensures |ys| >= 3 ==> Slope(Scaled(ys, c)) == Mul(c, Slope(ys)) && SlopePct(Scaled(ys, c)) == SlopePct(ys)
    ensures DetectShape(Scaled(ys, c)) == DetectShape(ys)
  {
    if |ys| >= 3 {
      ScaleMean(ys, c);
      ScaleCovariation(ys, c);
      SpreadPositive(|ys|);
      ScaleQuotient(c, Covariation(Of(ys), |ys|), Spread(|ys|));
      MulBasics(c);
      if Mean(Of(ys), |ys|) != 0.0 {
        CancelScale(c, Slope(ys), Mean(Of(ys), |ys|));
      }
    }
  }
}
