/** The line through the samples of unacknowledged bytes and round-trip times, the choice among three sample sets, and
    the queueing delay read off the line. Floating-point numbers are modelled as reals. */
module LinearFit {
  import opened SeqSpace
  import opened EndpointModel

  datatype Fit = Fit(c0: real, c1: real)

  // ----- sums over the samples

  /** Number of samples, and the sums of bytes, times, and their products. */
  datatype Moments = Moments(n: nat, x: nat, y: nat, xx: nat, xy: nat, yy: nat)

  function Product(a: nat, b: nat): nat {
    a * b
  }

  function MomentsOf(ps: seq<(u32, u32)>): Moments {
    if ps == [] then Moments(0, 0, 0, 0, 0, 0)
    else
      var m, p := MomentsOf(ps[..|ps| - 1]), ps[|ps| - 1];
      Moments(m.n + 1, m.x + p.0, m.y + p.1, m.xx + Product(p.0, p.0), m.xy + Product(p.0, p.1),
              m.yy + Product(p.1, p.1))
  }

  // Covariance and variances, each times the square of the number of samples.

  function Covariance(m: Moments): int {
    m.n * m.xy - m.x * m.y
  }

  function VarianceX(m: Moments): int {
    m.n * m.xx - m.x * m.x
  }

  function VarianceY(m: Moments): int {
    m.n * m.yy - m.y * m.y
  }

  // ----- one line

  /** The line exists and has a positive slope. */
  predicate Usable(m: Moments) {
    VarianceX(m) > 0 && Covariance(m) > 0
  }

  function Slope(m: Moments): real
    requires Usable(m)
  {
    Covariance(m) as real / VarianceX(m) as real
  }

  function LineOf(m: Moments): Fit
    requires Usable(m)
  {
    if m.n == 0 then Fit(0.0, 0.0) else Fit((m.y as real - Slope(m) * m.x as real) / m.n as real, Slope(m))
  }

  /** The sum of squared residuals of a line. */
  function SquaredError(ps: seq<(u32, u32)>, f: Fit): real {
    if ps == [] then 0.0
    else
      var p := ps[|ps| - 1];
      SquaredError(ps[..|ps| - 1], f) + Square(Residual(f, p.0, p.1))
  }

  function Residual(f: Fit, x: u32, y: u32): real {
    y as real - f.c0 - f.c1 * x as real
  }

  function Square(r: real): (s: real)
    ensures s >= 0.0
  {
    r * r
  }

  /** The squared error is a quadratic form in the moments. */
  function ErrorForm(m: Moments, f: Fit): real {
    Form(m.n as real, m.x as real, m.y as real, m.xx as real, m.xy as real, m.yy as real, f.c0, f.c1)
  }

  lemma SquareExpanded(x: real, y: real, a: real, b: real)
    ensures (y - a - b * x) * (y - a - b * x)
         == y * y - 2.0 * a * y - 2.0 * b * (x * y) + a * a + 2.0 * a * b * x + b * b * (x * x)
  {
  }

  lemma FormStep(m: Moments, x: u32, y: u32, f: Fit)
    ensures var k := Moments(m.n + 1, m.x + x, m.y + y, m.xx + Product(x, x), m.xy + Product(x, y),
                             m.yy + Product(y, y));
            ErrorForm(k, f) == ErrorForm(m, f) + Square(Residual(f, x, y))
  {
    var rx, ry, xx, xy, yy := x as real, y as real, Product(x, x) as real, Product(x, y) as real, Product(y, y) as real;
    assert xx == rx * rx && xy == rx * ry && yy == ry * ry;
    SquareExpanded(rx, ry, f.c0, f.c1);
    hide Product;
    FormAdds(m.n as real, m.x as real, m.y as real, m.xx as real, m.xy as real, m.yy as real,
             rx, ry, xx, xy, yy, f.c0, f.c1);
  }

  function Form(n: real, x: real, y: real, xx: real, xy: real, yy: real, a: real, b: real): real {
    yy - 2.0 * a * y - 2.0 * b * xy + n * a * a + 2.0 * a * b * x + b * b * xx
  }

  lemma FormAdds(n: real, x: real, y: real, xx: real, xy: real, yy: real,
                 dx: real, dy: real, dxx: real, dxy: real, dyy: real, a: real, b: real)
    ensures Form(n + 1.0, x + dx, y + dy, xx + dxx, xy + dxy, yy + dyy, a, b)
         == Form(n, x, y, xx, xy, yy, a, b) + Form(1.0, dx, dy, dxx, dxy, dyy, a, b)
  {
  }

  lemma {:induction false} ErrorIsForm(ps: seq<(u32, u32)>, f: Fit)
    ensures SquaredError(ps, f) == ErrorForm(MomentsOf(ps), f) >= 0.0
  {
    if ps == [] {
      assert ErrorForm(MomentsOf(ps), f) == 0.0;
    } else {
      hide ErrorForm;
      hide Square;
      hide Residual;
      hide Product;
      var p := ps[|ps| - 1];
      ErrorIsForm(ps[..|ps| - 1], f);
      FormStep(MomentsOf(ps[..|ps| - 1]), p.0, p.1, f);
    }
  }

  /** The residuals of the line sum to zero, also when weighted with the bytes. */
  lemma NormalEquations(m: Moments)
    requires Usable(m)
    ensures var f, n, x, y, xx, xy := LineOf(m), m.n as real, m.x as real, m.y as real, m.xx as real, m.xy as real;
            m.n > 0 && n * f.c0 + f.c1 * x == y && f.c0 * x + f.c1 * xx == xy
  {
    var n, x, y, xx, xy := m.n as real, m.x as real, m.y as real, m.xx as real, m.xy as real;
    SomeSamples(m);
    var cov, variance := n * xy - x * y, n * xx - x * x;
    assert Covariance(m) as real == cov && VarianceX(m) as real == variance by {
      RealProducts(m);
    }
    Solved(n, x, y, xx, xy, cov, variance);
  }

  lemma SomeSamples(m: Moments)
    requires VarianceX(m) > 0
    ensures m.n > 0
  {
    assert m.x * m.x >= 0;
  }

  lemma RealProducts(m: Moments)
    ensures Covariance(m) as real == m.n as real * m.xy as real - m.x as real * m.y as real
    ensures VarianceX(m) as real == m.n as real * m.xx as real - m.x as real * m.x as real
  {
  }

  lemma Solved(n: real, x: real, y: real, xx: real, xy: real, cov: real, variance: real)
    requires n > 0.0 && variance > 0.0 && cov == n * xy - x * y && variance == n * xx - x * x
    ensures var c1 := cov / variance;
            var c0 := (y - c1 * x) / n;
            n * c0 + c1 * x == y && c0 * x + c1 * xx == xy
  {
    var c1 := cov / variance;
    var c0 := (y - c1 * x) / n;
    assert c1 * variance == cov;
    assert n * c0 == y - c1 * x;
    assert n * (c0 * x + c1 * xx) == (n * c0) * x + c1 * (n * xx);
    assert (y - c1 * x) * x + c1 * (n * xx) == x * y + c1 * (n * xx - x * x);
    assert n * (c0 * x + c1 * xx) == n * xy;
  }

  lemma FormMoved(n: real, x: real, y: real, xx: real, xy: real, yy: real, a: real, b: real, u: real, v: real)
    ensures Form(n, x, y, xx, xy, yy, a + u, b + v)
         == Form(n, x, y, xx, xy, yy, a, b) + 2.0 * u * (n * a + b * x - y) + 2.0 * v * (a * x + b * xx - xy)
            + (n * u * u + 2.0 * u * v * x + v * v * xx)
  {
  }

  lemma QuadraticNonNegative(n: real, x: real, xx: real, u: real, v: real)
    requires n > 0.0 && n * xx - x * x >= 0.0
    ensures n * u * u + 2.0 * u * v * x + v * v * xx >= 0.0
  {
    var form := n * u * u + 2.0 * u * v * x + v * v * xx;
    assert n * form == Square(n * u + v * x) + Square(v) * (n * xx - x * x);
    assert Square(v) * (n * xx - x * x) >= 0.0;
    assert n * form >= 0.0;
  }

  lemma MovedIsWorse(n: real, x: real, y: real, xx: real, xy: real, yy: real, f: Fit, g: Fit)
    requires n > 0.0 && n * xx - x * x >= 0.0
    requires n * f.c0 + f.c1 * x == y && f.c0 * x + f.c1 * xx == xy
    ensures Form(n, x, y, xx, xy, yy, f.c0, f.c1) <= Form(n, x, y, xx, xy, yy, g.c0, g.c1)
  {
    var u, v := g.c0 - f.c0, g.c1 - f.c1;
    QuadraticNonNegative(n, x, xx, u, v);
    FormMoved(n, x, y, xx, xy, yy, f.c0, f.c1, u, v);
    hide Form;
    TimesZero(2.0 * u, n * f.c0 + f.c1 * x - y);
    TimesZero(2.0 * v, f.c0 * x + f.c1 * xx - xy);
  }

  lemma TimesZero(a: real, z: real)
    requires z == 0.0
    ensures a * z == 0.0
  {
  }

  /** No line has a smaller squared error than the fitted one. */
  lemma LineIsBest(ps: seq<(u32, u32)>, g: Fit)
    requires Usable(MomentsOf(ps))
    ensures SquaredError(ps, LineOf(MomentsOf(ps))) <= SquaredError(ps, g)
  {
    hide LineOf;
    hide SquaredError;
    hide MomentsOf;
    hide Form;
    var m := MomentsOf(ps);
    ErrorIsForm(ps, LineOf(m));
    ErrorIsForm(ps, g);
    NormalEquations(m);
    RealProducts(m);
    MovedIsWorse(m.n as real, m.x as real, m.y as real, m.xx as real, m.xy as real, m.yy as real, LineOf(m), g);
  }

  // ----- correlation

  function SquareInt(r: int): (s: int)
    ensures s >= 0
  {
    r * r
  }

  /** The sum of squares of combinations a * x + b * y - c over the samples. */
  function CombinationForm(m: Moments, a: int, b: int, c: int): int {
    a * a * m.xx + 2 * a * b * m.xy + b * b * m.yy - 2 * c * (a * m.x + b * m.y) + m.n * c * c
  }

  lemma SquareOfCombination(a: int, b: int, c: int, x: int, y: int)
    ensures SquareInt(a * x + b * y - c)
         == a * a * (x * x) + 2 * a * b * (x * y) + b * b * (y * y) - 2 * c * (a * x + b * y) + c * c
  {
    var p, q := a * x, b * y;
    assert (p + q - c) * (p + q - c) == p * p + 2 * (p * q) + q * q - 2 * c * (p + q) + c * c;
    ProductOfProducts(a, x, a, x);
    ProductOfProducts(b, y, b, y);
    ProductOfProducts(a, x, b, y);
    assert 2 * (a * b * (x * y)) == 2 * a * b * (x * y);
  }

  lemma ProductOfProducts(a: int, x: int, b: int, y: int)
    ensures (a * x) * (b * y) == a * b * (x * y)
  {
  }

  lemma CombinationStep(m: Moments, x: nat, y: nat, xx: nat, xy: nat, yy: nat, a: int, b: int, c: int)
    requires xx == x * x && xy == x * y && yy == y * y
    ensures CombinationForm(Moments(m.n + 1, m.x + x, m.y + y, m.xx + xx, m.xy + xy, m.yy + yy), a, b, c)
         == CombinationForm(m, a, b, c) + SquareInt(a * x + b * y - c)
  {
    hide SquareInt;
    SquareOfCombination(a, b, c, x, y);
    CombinationAdds(m.n, m.x, m.y, m.xx, m.xy, m.yy, x, y, xx, xy, yy, a, b, c);
  }

  lemma CombinationAdds(n: int, x: int, y: int, xx: int, xy: int, yy: int,
                        dx: int, dy: int, dxx: int, dxy: int, dyy: int, a: int, b: int, c: int)
    ensures a * a * (xx + dxx) + 2 * a * b * (xy + dxy) + b * b * (yy + dyy)
            - 2 * c * (a * (x + dx) + b * (y + dy)) + (n + 1) * c * c
         == a * a * xx + 2 * a * b * xy + b * b * yy - 2 * c * (a * x + b * y) + n * c * c
            + a * a * dxx + 2 * a * b * dxy + b * b * dyy - 2 * c * (a * dx + b * dy) + c * c
  {
  }

  lemma {:induction false} CombinationNonNegative(ps: seq<(u32, u32)>, a: int, b: int, c: int)
    ensures CombinationForm(MomentsOf(ps), a, b, c) >= 0
  {
    if ps != [] {
      var p := ps[|ps| - 1];
      var m := MomentsOf(ps[..|ps| - 1]);
      CombinationNonNegative(ps[..|ps| - 1], a, b, c);
      CombinationStep(m, p.0, p.1, Product(p.0, p.0), Product(p.0, p.1), Product(p.1, p.1), a, b, c);
      hide CombinationForm;
      hide Product;
    }
  }

  function Spread(m: Moments, a: int, b: int): int {
    a * a * VarianceX(m) + 2 * a * b * Covariance(m) + b * b * VarianceY(m)
  }

  lemma Factored(a: int, b: int, n: int, z: int)
    ensures (a * n) * (b * n) * z == n * n * (a * b * z)
  {
    assert (a * n) * (b * n) == (n * n) * (a * b);
  }

  lemma Centred(n: int, squares: int, sum: int)
    ensures n * n * squares - 2 * sum * (n * sum) + n * sum * sum == n * (n * squares - sum * sum)
  {
    assert 2 * sum * (n * sum) == 2 * (n * (sum * sum));
    assert n * sum * sum == n * (sum * sum) && n * n * squares == n * (n * squares);
  }

  lemma Spreads(n: int, x: int, y: int, xx: int, xy: int, yy: int, a: int, b: int)
    ensures n * (a * a * xx + 2 * a * b * xy + b * b * yy) - SquareInt(a * x + b * y)
         == a * a * (n * xx - x * x) + 2 * a * b * (n * xy - x * y) + b * b * (n * yy - y * y)
  {
    SquareOfCombination(a, b, 0, x, y);
    hide SquareInt;
    Distributed(n, a * a, xx, x * x);
    Distributed(n, 2 * a * b, xy, x * y);
    Distributed(n, b * b, yy, y * y);
  }

  lemma Distributed(n: int, k: int, z: int, w: int)
    ensures k * (n * z - w) == n * (k * z) - k * w
  {
  }

  lemma ScaledForm(m: Moments, a: int, b: int)
    ensures var n, sum := m.n, a * m.x + b * m.y;
            CombinationForm(m, a * n, b * n, sum)
            == (a * n) * (a * n) * m.xx + 2 * ((a * n) * (b * n) * m.xy) + (b * n) * (b * n) * m.yy
               - 2 * sum * (n * sum) + n * sum * sum
  {
    var n, sum := m.n, a * m.x + b * m.y;
    assert (a * n) * m.x + (b * n) * m.y == n * sum;
  }

  /** Centring the combination at its mean, everything times the square of the number of samples. */
  lemma SpreadIsForm(m: Moments, a: int, b: int)
    ensures CombinationForm(m, a * m.n, b * m.n, a * m.x + b * m.y) == m.n * Spread(m, a, b)
  {
    var n, sum := m.n, a * m.x + b * m.y;
    var squares := a * a * m.xx + 2 * a * b * m.xy + b * b * m.yy;
    Factored(a, a, n, m.xx);
    Factored(a, b, n, m.xy);
    Factored(b, b, n, m.yy);
    Spreads(n, m.x, m.y, m.xx, m.xy, m.yy, a, b);
    Centred(n, squares, sum);
    hide CombinationForm;
    ScaledForm(m, a, b);
  }

  lemma PositiveFactor(n: int, v: int)
    requires n > 0 && n * v >= 0
    ensures v >= 0
  {
  }

  /** The variance of every combination of bytes and times is non-negative. */
  lemma SpreadNonNegative(ps: seq<(u32, u32)>, a: int, b: int)
    ensures Spread(MomentsOf(ps), a, b) >= 0
  {
    if ps != [] {
      var m := MomentsOf(ps);
      CombinationNonNegative(ps, a * m.n, b * m.n, a * m.x + b * m.y);
      SpreadIsForm(m, a, b);
      hide MomentsOf;
      PositiveFactor(m.n, Spread(m, a, b));
    } else {
      assert MomentsOf(ps) == Moments(0, 0, 0, 0, 0, 0);
    }
  }

  /** The correlation coefficient never exceeds one. */
  lemma CauchySchwarz(ps: seq<(u32, u32)>)
    requires VarianceX(MomentsOf(ps)) > 0
    ensures var m := MomentsOf(ps);
            SquareInt(Covariance(m)) <= VarianceX(m) * VarianceY(m)
  {
    var m := MomentsOf(ps);
    var vx, cov, vy := VarianceX(m), Covariance(m), VarianceY(m);
    SpreadNonNegative(ps, cov, -vx);
    hide MomentsOf;
    hide VarianceX;
    hide VarianceY;
    hide Covariance;
    assert Spread(m, cov, -vx) == vx * (vx * vy - cov * cov) by {
      Rearranged(vx, cov, vy);
    }
    PositiveFactor(vx, vx * vy - cov * cov);
  }

  lemma Rearranged(vx: int, cov: int, vy: int)
    ensures cov * cov * vx + 2 * cov * (-vx) * cov + (-vx) * (-vx) * vy == vx * (vx * vy - cov * cov)
  {
    assert 2 * cov * (-vx) * cov == -2 * (cov * cov * vx);
    assert (-vx) * (-vx) * vy == vx * (vx * vy);
    assert vx * (vx * vy - cov * cov) == vx * (vx * vy) - vx * (cov * cov);
  }

  lemma PositiveProduct(a: int, b: int)
    requires a > 0 && a * b > 0
    ensures b > 0
  {
  }

  /** A usable line has times that vary. */
  lemma UsableVaries(ps: seq<(u32, u32)>)
    requires Usable(MomentsOf(ps))
    ensures VarianceY(MomentsOf(ps)) > 0
  {
    var m := MomentsOf(ps);
    CauchySchwarz(ps);
    hide MomentsOf;
    hide VarianceX;
    hide VarianceY;
    hide Covariance;
    var vx, cov, vy := VarianceX(m), Covariance(m), VarianceY(m);
    assert SquareInt(cov) > 0;
    hide SquareInt;
    PositiveProduct(vx, vy);
  }

  // ----- the choice among three sample sets

  /** The square of the correlation coefficient, as a fraction. */
  function Explained(m: Moments): int {
    SquareInt(Covariance(m))
  }

  function Scale(m: Moments): int {
    VarianceX(m) * VarianceY(m)
  }

  predicate BetterCorrelated(a: Moments, b: Moments) {
    Explained(a) * Scale(b) > Explained(b) * Scale(a)
  }

  /** The moments of the usable set with the highest correlation, the first of them if there are several. */
  function Best(sets: seq<seq<(u32, u32)>>): Option<Moments> {
    if sets == [] then None
    else
      var before, m := Best(sets[..|sets| - 1]), MomentsOf(sets[|sets| - 1]);
      if Usable(m) && (before.None? || BetterCorrelated(m, before.value)) then Some(m) else before
  }

  lemma FractionOrder(pa: int, da: int, pb: int, db: int, pc: int, dc: int)
    requires da > 0 && db > 0 && dc > 0 && pc * db <= pb * dc && pb * da <= pa * db
    ensures pc * da <= pa * dc
  {
    assert (pc * db) * da <= (pb * dc) * da;
    assert (pb * da) * dc <= (pa * db) * dc;
    assert (pc * db) * da == db * (pc * da) && (pb * dc) * da == (pb * da) * dc && (pa * db) * dc == db * (pa * dc);
    PositiveFactor(db, pa * dc - pc * da);
  }

  lemma UsableScale(ps: seq<(u32, u32)>)
    requires Usable(MomentsOf(ps))
    ensures Scale(MomentsOf(ps)) > 0
  {
    UsableVaries(ps);
    hide MomentsOf;
  }

  /** The best set is the moments of one of the sets, and no usable set is better correlated. */
  predicate IsBest(sets: seq<seq<(u32, u32)>>, best: Option<Moments>) {
    && (best.None? ==> forall i :: 0 <= i < |sets| ==> !Usable(MomentsOf(sets[i])))
    && (best.Some? ==>
          && Usable(best.value) && Scale(best.value) > 0
          && (exists i :: 0 <= i < |sets| && best.value == MomentsOf(sets[i]))
          && forall i :: 0 <= i < |sets| && Usable(MomentsOf(sets[i])) ==>
               !BetterCorrelated(MomentsOf(sets[i]), best.value))
  }

  lemma StillBest(sets: seq<seq<(u32, u32)>>, before: Moments, last: seq<(u32, u32)>)
    requires IsBest(sets, Some(before)) && Usable(MomentsOf(last)) && BetterCorrelated(MomentsOf(last), before)
    ensures IsBest(sets + [last], Some(MomentsOf(last)))
  {
    var m := MomentsOf(last);
    UsableScale(last);
    hide MomentsOf;
    hide Usable;
    hide Explained;
    hide Scale;
    var all := sets + [last];
    assert all[|sets|] == last;
    forall i | 0 <= i < |all| && Usable(MomentsOf(all[i]))
      ensures !BetterCorrelated(MomentsOf(all[i]), m)
    {
      if i < |sets| {
        var k := MomentsOf(sets[i]);
        assert all[i] == sets[i];
        assert Scale(k) > 0 by {
          UsableScale(sets[i]);
        }
        FractionOrder(Explained(m), Scale(m), Explained(before), Scale(before), Explained(k), Scale(k));
      }
    }
  }

  lemma {:induction false} BestExact(sets: seq<seq<(u32, u32)>>)
    ensures IsBest(sets, Best(sets))
  {
    if sets != [] {
      var n := |sets| - 1;
      var before, m := Best(sets[..n]), MomentsOf(sets[n]);
      BestExact(sets[..n]);
      assert sets == sets[..n] + [sets[n]];
      if Usable(m) && before.Some? && BetterCorrelated(m, before.value) {
        StillBest(sets[..n], before.value, sets[n]);
      } else {
        if Usable(m) {
          UsableScale(sets[n]);
        }
        hide MomentsOf;
        hide Usable;
        hide Explained;
        hide Scale;
        KeptBest(sets[..n], before, sets[n]);
      }
    }
  }

  lemma KeptBest(sets: seq<seq<(u32, u32)>>, before: Option<Moments>, last: seq<(u32, u32)>)
    requires IsBest(sets, before)
    requires Usable(MomentsOf(last)) && before.Some? ==> !BetterCorrelated(MomentsOf(last), before.value)
    requires Usable(MomentsOf(last)) ==> Scale(MomentsOf(last)) > 0
    ensures IsBest(sets + [last], if Usable(MomentsOf(last)) && before.None? then Some(MomentsOf(last)) else before)
  {
    hide MomentsOf;
    hide Usable;
    hide Explained;
    hide Scale;
    var all := sets + [last];
    assert all[|sets|] == last && forall i :: 0 <= i < |sets| ==> all[i] == sets[i];
  }

  /** All samples, those around the worst packet, and those up to it. */
  function SampleSets(ps: seq<Packet>, worst: nat): seq<seq<(u32, u32)>> {
    [Samples(ps, ps), SamplesAround(ps, worst, 30, false), SamplesAround(ps, worst, 60, true)]
  }

  /** The correlation coefficient is above one half. */
  predicate Correlated(m: Moments) {
    4 * Explained(m) > Scale(m)
  }

  /** The line that attributes delays to queueing, if there is one. */
  function ChosenFit(ps: seq<Packet>, worst: nat): Option<Fit> {
    var best := Best(SampleSets(ps, worst));
    if best.Some? && Usable(best.value) && Correlated(best.value) then Some(LineOf(best.value)) else None
  }

  /** The sets that the line is chosen from: all samples, thirty on each side of the worst packet, and the sixty before
      it. */
  ghost predicate ChosenFrom(ps: seq<Packet>, worst: nat, m: Moments) {
    var older, newer := SamplesAround(ps, worst, 30, false), SamplesAround(ps, worst, 60, true);
    IsBest([Samples(ps, ps), older, newer], Some(m))
  }

  /** A line is chosen exactly when the best set has a correlation above one half, and it is the line of that set. */
  lemma ChosenExact(ps: seq<Packet>, worst: nat)
    ensures var fit := ChosenFit(ps, worst);
            && (fit.Some? ==>
                  exists m :: ChosenFrom(ps, worst, m) && Usable(m) && fit.value == LineOf(m)
                              && 4 * (Covariance(m) * Covariance(m)) > VarianceX(m) * VarianceY(m))
            && (fit.None? ==>
                  IsBest(SampleSets(ps, worst), None)
                  || exists m :: ChosenFrom(ps, worst, m)
                                 && 4 * (Covariance(m) * Covariance(m)) <= VarianceX(m) * VarianceY(m))
  {
    var best := Best(SampleSets(ps, worst));
    BestExact(SampleSets(ps, worst));
    if best.Some? {
      assert ChosenFrom(ps, worst, best.value);
      assert Explained(best.value) == Covariance(best.value) * Covariance(best.value);
    }
    hide IsBest;
    hide Best;
    hide Samples;
    hide SamplesAround;
    hide Covariance;
    hide VarianceX;
    hide VarianceY;
    hide LineOf;
  }

  // ----- queueing delay from the line

  /** The round-trip time that the line expects with that many bytes unacknowledged. */
  function ExpectedRtt(f: Fit, bytes: nat): real {
    f.c0 + f.c1 * bytes as real
  }

  /** The part of the expected round-trip time beyond what it is with nothing unacknowledged, and beyond the
      propagation delay; `unacked` includes the packet's own `len` bytes. */
  function QueueingDelay(unacked: u32, len: u32, f: Fit, propagation: u32): u32 {
    if unacked <= len then 0
    else
      var expected := ExpectedRtt(f, unacked - len);
      var least := if f.c0 > propagation as real then f.c0 else propagation as real;
      if least < expected then Wrap((expected - least).Floor) else 0
  }

  /** The queueing delay of a packet of the list. */
  function PacketQueueing(ps: seq<Packet>, pos: nat, f: Fit, propagation: u32): u32 {
    if pos < |ps| then QueueingDelay(ps[pos].snapshot.unackedBytes, ps[pos].segment.len, f, propagation) else 0
  }

  /** What the line adds for bytes in front of a packet. */
  function Rise(f: Fit, front: int): real {
    f.c1 * front as real
  }

  /** The queueing delay of a packet: what the line adds for the bytes in front of it, or, if that is less, what the
      expected round-trip time exceeds the propagation by; rounded down, and nothing if it is not positive. */
  lemma QueueingExact(ps: seq<Packet>, pos: nat, f: Fit, propagation: u32)
    requires pos < |ps|
    ensures var front := ps[pos].snapshot.unackedBytes - ps[pos].segment.len;
            var beyond := f.c0 + Rise(f, front) - propagation as real;
            var excess := if Rise(f, front) < beyond then Rise(f, front) else beyond;
            PacketQueueing(ps, pos, f, propagation)
            == if front > 0 && excess > 0.0 then excess.Floor % 0x1_0000_0000 else 0
  {
    var front := ps[pos].snapshot.unackedBytes - ps[pos].segment.len;
    if front > 0 {
      assert ExpectedRtt(f, front) == f.c0 + Rise(f, front);
    }
    hide ExpectedRtt;
    hide Rise;
  }

  lemma ExpectedGrows(f: Fit, a: nat, b: nat)
    requires a <= b && f.c1 > 0.0
    ensures ExpectedRtt(f, a) <= ExpectedRtt(f, b)
  {
    assert f.c1 * (b - a) as real >= 0.0;
    assert f.c1 * b as real == f.c1 * a as real + f.c1 * (b - a) as real;
  }

  /** On a line with a positive slope, more unacknowledged bytes never mean less queueing delay. */
  lemma QueueingGrows(a: u32, b: u32, len: u32, f: Fit, propagation: u32)
    requires len < a <= b && f.c1 > 0.0 && ExpectedRtt(f, b - len) < 4294967296.0
    ensures QueueingDelay(a, len, f, propagation) <= QueueingDelay(b, len, f, propagation)
  {
    ExpectedGrows(f, a - len, b - len);
    hide ExpectedRtt;
    var least := if f.c0 > propagation as real then f.c0 else propagation as real;
    FloorGrows(ExpectedRtt(f, a - len) - least, ExpectedRtt(f, b - len) - least);
  }

  lemma FloorGrows(x: real, y: real)
    requires x <= y < 4294967296.0
    ensures 0.0 < x ==> 0 <= Wrap(x.Floor) <= Wrap(y.Floor)
    ensures 0.0 < y ==> 0 <= Wrap(y.Floor)
  {
    assert x.Floor as real <= x && y < y.Floor as real + 1.0;
    if 0.0 < x {
      assert 0 <= x.Floor <= y.Floor < 0x1_0000_0000;
    }
  }
}
