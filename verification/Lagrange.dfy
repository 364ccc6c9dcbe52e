/** Polynomials over the scalars and interpolation at zero, the algebra behind Feldman sharing. */
module Lagrange {
  import opened Modular

  /** The value at x of the polynomial with coefficients p, lowest degree first. */
  function Eval(p: seq<int>, x: int): int {
    if |p| == 0 then 0 else p[0] + x * Eval(p[1..], x)
  }

  ghost function Power(x: int, k: nat): int {
    if k == 0 then 1 else x * Power(x, k - 1)
  }

  /** The k-th term of the polynomial at x. */
  ghost function Term(p: seq<int>, x: int): nat -> int {
    (k: nat) => if k < |p| then p[k] * Power(x, k) else 0
  }

  /** Horner's scheme computes the sum of the coefficients times the powers of x. */
  lemma {:induction false} EvalIsPowers(p: seq<int>, x: int)
    ensures Eval(p, x) == SumTo(|p|, Term(p, x))
    decreases |p|
  {
    var n := |p| - 1;
    if n >= 0 {
      EvalIsPowers(p[..n], x);
      LastTerm(p, x);
      SumExt(n, Term(p, x), Term(p[..n], x));
    }
  }

  lemma {:induction false} LastTerm(p: seq<int>, x: int)
    requires |p| > 0
    ensures Eval(p, x) == Eval(p[..|p| - 1], x) + p[|p| - 1] * Power(x, |p| - 1)
  {
    var n := |p| - 1;
    if n > 0 {
      LastTerm(p[1..], x);
      assert p[1..][..n - 1] == p[..n][1..];
      Distribute(x, Eval(p[..n][1..], x), p[n], Power(x, n - 1));
    }
  }

  lemma Distribute(x: int, e: int, c: int, w: int)
    ensures x * (e + c * w) == x * e + c * (x * w)
  {
    assert x * (c * w) == c * (x * w);
  }

  /** The quotient of p(X) - p(a) by X - a. */
  function Quotient(p: seq<int>, a: int): (r: seq<int>)
    ensures |r| == if |p| == 0 then 0 else |p| - 1
  {
    if |p| <= 1 then [] else [Eval(p[1..], a)] + Quotient(p[1..], a)
  }

  lemma HornerStep(x: int, a: int, t: int, r: int)
    ensures x * (t + (x - a) * r) == a * t + (x - a) * (t + x * r)
  {
    var d := (x - a) * r;
    assert x * (t + d) == x * t + x * d && x * d == (x - a) * (x * r);
  }

  lemma {:induction false} QuotientCorrect(p: seq<int>, a: int, x: int)
    ensures Eval(p, x) == Eval(p, a) + (x - a) * Eval(Quotient(p, a), x)
  {
    if |p| > 1 {
      QuotientCorrect(p[1..], a, x);
      assert Quotient(p, a)[1..] == Quotient(p[1..], a);
      HornerStep(x, a, Eval(p[1..], a), Eval(Quotient(p[1..], a), x));
    }
  }

  function Numerator(xs: seq<int>, i: nat): nat -> int {
    (j: nat) => if j == i || j >= |xs| then 1 else xs[j]
  }

  function Denominator(xs: seq<int>, i: nat): nat -> int
    requires i < |xs|
  {
    (j: nat) => if j == i || j >= |xs| then 1 else xs[j] - xs[i]
  }

  /** The Lagrange coefficient at zero of the i-th of the points xs. */
  function Lambda(q: int, xs: seq<int>, i: nat): (r: int)
    requires q > 0 && i < |xs|
    ensures 0 <= r < q
  {
    (ProdTo(|xs|, Numerator(xs, i)) * Inv(q, ProdTo(|xs|, Denominator(xs, i)))) % q
  }

  /** No two of the points are the same scalar. */
  ghost predicate Distinct(q: int, xs: seq<int>)
    requires q > 0
  {
    forall i, j :: 0 <= i < j < |xs| ==> !Cong(q, xs[i], xs[j])
  }

  lemma DifferenceNonzero(q: int, a: int, b: int)
    requires q > 0
    ensures Cong(q, a - b, 0) <==> Cong(q, a, b)
  {
    if Cong(q, a - b, 0) {
      AddCong(q, a - b, 0, b, b);
    } else if Cong(q, a, b) {
      AddCong(q, a, b, b, b);
    }
  }

  /** The defining equation of a Lagrange coefficient. */
  lemma LambdaEquation(q: int, xs: seq<int>, i: nat)
    requires Prime(q) && Distinct(q, xs) && i < |xs|
    ensures !Cong(q, ProdTo(|xs|, Denominator(xs, i)), 0)
    ensures Cong(q, Lambda(q, xs, i) * ProdTo(|xs|, Denominator(xs, i)), ProdTo(|xs|, Numerator(xs, i)))
  {
    var n, d := ProdTo(|xs|, Numerator(xs, i)), ProdTo(|xs|, Denominator(xs, i));
    forall j | 0 <= j < |xs|
      ensures !Cong(q, Denominator(xs, i)(j), 0)
    {
      hide Lambda;
      if j == i {
        SmallMod(1, q);
      } else {
        DifferenceNonzero(q, xs[j], xs[i]);
      }
    }
    ProdNonzero(q, |xs|, Denominator(xs, i));
    QuotientTimes(q, n, d);
  }

  lemma QuotientTimes(q: int, n: int, d: int)
    requires Prime(q) && !Cong(q, d, 0)
    ensures Cong(q, n * Inv(q, d) % q * d, n)
  {
    hide Cong, Inv;
    var v := Inv(q, d);
    InvCorrect(q, d);
    Reduced(q, n * v);
    MulCong(q, n * v % q, n * v, d, d);
    CongReflexive(q, n);
    MulCong(q, n, n, d * v, 1);
    assert n * v * d == n * (d * v);
    CongChain(q, n * v % q * d, n * v * d, n);
  }

  function Without(xs: seq<int>, k: nat): seq<int>
    requires k < |xs|
  {
    xs[..k] + xs[k + 1..]
  }

  lemma WithoutAt(xs: seq<int>, k: nat, j: nat)
    requires k < |xs| && j < |xs| - 1
    ensures |Without(xs, k)| == |xs| - 1 && Without(xs, k)[j] == xs[Skip(k, j)]
  {
  }

  lemma WithoutDistinct(q: int, xs: seq<int>, k: nat)
    requires q > 0 && k < |xs| && Distinct(q, xs)
    ensures Distinct(q, Without(xs, k))
  {
    forall i, j | 0 <= i < j < |xs| - 1
      ensures !Cong(q, Without(xs, k)[i], Without(xs, k)[j])
    {
      WithoutAt(xs, k, i);
      WithoutAt(xs, k, j);
    }
  }

  /** Dropping the point x_k multiplies the coefficient of another point x by (x_k - x) / x_k. */
  lemma DropPoint(q: int, xs: seq<int>, k: nat, j: nat)
    requires q > 0 && Prime(q) && Distinct(q, xs) && k < |xs| && j < |xs| - 1
    ensures Cong(q, Lambda(q, xs, Skip(k, j)) * (xs[k] - xs[Skip(k, j)]), xs[k] * Lambda(q, Without(xs, k), j))
  {
    hide Lambda, Prime, Cong, ProdTo;
    var ys, i, m := Without(xs, k), Skip(k, j), |xs| - 1;
    WithoutDistinct(q, xs, k);
    LambdaEquation(q, xs, i);
    LambdaEquation(q, ys, j);
    ProdSkip(|xs|, k, Numerator(xs, i));
    ProdSkip(|xs|, k, Denominator(xs, i));
    forall l | 0 <= l < m
      ensures Numerator(ys, j)(l) == Skipping(k, Numerator(xs, i))(l)
      ensures Denominator(ys, j)(l) == Skipping(k, Denominator(xs, i))(l)
    {
      WithoutAt(xs, k, l);
      WithoutAt(xs, k, j);
    }
    ProdExt(m, Numerator(ys, j), Skipping(k, Numerator(xs, i)));
    ProdExt(m, Denominator(ys, j), Skipping(k, Denominator(xs, i)));
    DropFactor(q, xs[k] - xs[i], xs[k], ProdTo(m, Denominator(ys, j)), ProdTo(m, Numerator(ys, j)),
               Lambda(q, xs, i), Lambda(q, ys, j));
  }

  lemma DropFactor(q: int, e: int, x: int, d: int, n: int, l: int, l': int)
    requires Prime(q) && !Cong(q, d, 0)
    requires Cong(q, l * (e * d), x * n) && Cong(q, l' * d, n)
    ensures Cong(q, l * e, x * l')
  {
    assert Cong(q, d * (l * e), d * (x * l')) by {
      MulCong(q, x, x, l' * d, n);
      Rearrange(d, l, e);
      Rearrange(d, x, l');
      Rearrange(x, l', d);
    }
    CancelFactor(q, d, l * e, x * l');
  }

  lemma Rearrange(a: int, b: int, c: int)
    ensures a * (b * c) == b * (c * a) == c * (a * b)
    ensures a * (b * c) == (a * b) * c == a * (c * b)
  {
  }

  /** The interpolation sum: each value times the coefficient of its point. */
  ghost function Weighted(q: int, xs: seq<int>, p: seq<int>): nat -> int
    requires q > 0
  {
    (i: nat) => if i < |xs| then Lambda(q, xs, i) * Eval(p, xs[i]) else 0
  }

  lemma ScaleTerm(q: int, l: int, l': int, x: int, y: int, v: int)
    requires q > 0 && Cong(q, l * (x - y), x * l')
    ensures Cong(q, l * ((y - x) * v), -x * (l' * v))
  {
    MulCong(q, l * (x - y), x * l', -v, -v);
    assert l * ((y - x) * v) == l * (x - y) * -v by {
      assert (y - x) * v == (x - y) * -v;
      Rearrange(l, x - y, -v);
    }
    assert -x * (l' * v) == x * l' * -v by {
      Rearrange(x, l', -v);
    }
  }

  /** Interpolating (X - x_k) r(X) reduces to interpolating r without the point x_k. */
  lemma InterpolateProduct(q: int, xs: seq<int>, k: nat, r: seq<int>, f: nat -> int)
    requires Prime(q) && Distinct(q, xs) && k < |xs|
    requires forall i :: 0 <= i < |xs| ==> f(i) == Lambda(q, xs, i) * ((xs[i] - xs[k]) * Eval(r, xs[i]))
    ensures Cong(q, SumTo(|xs|, f), -xs[k] * SumTo(|xs| - 1, Weighted(q, Without(xs, k), r)))
  {
    hide Lambda, Cong, Prime, Distinct, Eval, SumTo;
    var x, m, w := xs[k], |xs| - 1, Weighted(q, Without(xs, k), r);
    var g := (j: nat) => -x * w(j);
    forall j | 0 <= j < m
      ensures Cong(q, Skipping(k, f)(j), g(j))
    {
      WithoutAt(xs, k, j);
      DropPoint(q, xs, k, j);
      ScaleTerm(q, Lambda(q, xs, Skip(k, j)), Lambda(q, Without(xs, k), j), x, xs[Skip(k, j)], Eval(r, xs[Skip(k, j)]));
    }
    assert SumTo(|xs|, f) == SumTo(m, Skipping(k, f)) by {
      SumSkip(|xs|, k, f);
      VanishesAt(Lambda(q, xs, k), x, Eval(r, x));
    }
    SumCong(q, m, Skipping(k, f), g);
    SumScale(m, -x, w, g);
  }

  lemma VanishesAt(l: int, x: int, v: int)
    ensures l * ((x - x) * v) == 0
  {
  }

  /** The coefficients of a set of points add up to one. */
  lemma {:induction false} CoefficientsSumToOne(q: int, xs: seq<int>)
    requires Prime(q) && Distinct(q, xs) && |xs| > 0
    ensures Cong(q, SumTo(|xs|, Weighted(q, xs, [1])), 1)
    decreases |xs|, 1
  {
    var one := Weighted(q, xs, [1]);
    if |xs| == 1 {
      LambdaEquation(q, xs, 0);
      assert ProdTo(1, Numerator(xs, 0)) == ProdTo(0, Numerator(xs, 0)) * 1;
      assert ProdTo(1, Denominator(xs, 0)) == ProdTo(0, Denominator(xs, 0)) * 1;
      assert SumTo(1, one) == SumTo(0, one) + one(0);
      assert Eval([1], xs[0]) == 1;
    } else {
      var byX := Weighted(q, xs, [0, 1]);
      FirstMoment(q, xs, 0, one, byX);
      FirstMoment(q, xs, 1, one, byX);
      var s := SumTo(|xs|, one);
      AddCong(q, SumTo(|xs|, byX), xs[0] * (s - 1), SumTo(|xs|, byX), xs[1] * (s - 1));
      assert xs[0] * (s - 1) - xs[1] * (s - 1) == (xs[0] - xs[1]) * (s - 1);
      DifferenceNonzero(q, xs[0], xs[1]);
      NonzeroProduct(q, xs[0] - xs[1], s - 1);
      AddCong(q, s - 1, 0, 1, 1);
    }
  }

  /** The terms of the interpolation of (X - x). */
  ghost function Shifted(q: int, xs: seq<int>, x: int): nat -> int
    requires q > 0
  {
    (i: nat) => if i < |xs| then Lambda(q, xs, i) * ((xs[i] - x) * Eval([1], xs[i])) else 0
  }

  lemma ShiftedTerm(q: int, xs: seq<int>, x: int, i: nat)
    requires q > 0 && i < |xs|
    ensures Shifted(q, xs, x)(i) == 1 * Weighted(q, xs, [0, 1])(i) + (-x) * Weighted(q, xs, [1])(i)
  {
    hide Lambda;
    SmallPolynomials(xs[i]);
    ShiftTerm(Lambda(q, xs, i), xs[i], x);
  }

  lemma FirstMoment(q: int, xs: seq<int>, k: nat, one: nat -> int, byX: nat -> int)
    requires q > 0 && Prime(q) && Distinct(q, xs) && k < |xs| && |xs| > 1
    requires one == Weighted(q, xs, [1]) && byX == Weighted(q, xs, [0, 1])
    ensures Cong(q, SumTo(|xs|, byX), xs[k] * (SumTo(|xs|, one) - 1))
    decreases |xs|, 0
  {
    hide Lambda, Eval, Weighted, Distinct, Prime, Cong, SumTo;
    var x, shifted := xs[k], Shifted(q, xs, xs[k]);
    forall i | 0 <= i < |xs|
      ensures shifted(i) == 1 * byX(i) + (-x) * one(i)
    {
      ShiftedTerm(q, xs, x, i);
    }
    InterpolateProduct(q, xs, k, [1], shifted);
    WithoutDistinct(q, xs, k);
    CoefficientsSumToOne(q, Without(xs, k));
    SumLinear(|xs|, 1, byX, -x, one, shifted);
    MomentArith(q, x, SumTo(|xs| - 1, Weighted(q, Without(xs, k), [1])), SumTo(|xs|, one),
                SumTo(|xs|, byX), SumTo(|xs|, shifted));
  }

  lemma SmallPolynomials(x: int)
    ensures Eval([1], x) == 1 && Eval([0, 1], x) == x
  {
    assert [0, 1][1..] == [1];
  }

  lemma ShiftTerm(l: int, y: int, x: int)
    ensures 1 * (l * y) + (-x) * (l * 1) == l * ((y - x) * 1)
  {
    assert l * (y - x) == l * y - l * x;
  }

  lemma MomentArith(q: int, x: int, t: int, s: int, m: int, h: int)
    requires q > 0 && Cong(q, t, 1) && h == 1 * m + (-x) * s && Cong(q, h, -x * t)
    ensures Cong(q, m, x * (s - 1))
  {
    MulCong(q, -x, -x, t, 1);
    AddCong(q, h, -x, x * s, x * s);
    assert h + x * s == m;
    assert x * s - x == x * (s - 1);
  }

  /** p(X) = p(a) + (X - a) r(X), weighted term by term. */
  lemma SplitTerm(q: int, xs: seq<int>, p: seq<int>, a: int, i: nat)
    requires q > 0 && i < |xs|
    ensures Weighted(q, xs, p)(i) == Eval(p, a) * Weighted(q, xs, [1])(i)
                                   + 1 * (Lambda(q, xs, i) * ((xs[i] - a) * Eval(Quotient(p, a), xs[i])))
  {
    hide Lambda;
    QuotientCorrect(p, a, xs[i]);
    SmallPolynomials(xs[i]);
    SplitArith(Lambda(q, xs, i), Eval(p, a), (xs[i] - a) * Eval(Quotient(p, a), xs[i]));
  }

  lemma SplitArith(l: int, pa: int, d: int)
    ensures l * (pa + d) == pa * (l * 1) + 1 * (l * d)
  {
    assert l * (pa + d) == pa * l + l * d;
  }

  /** Interpolation at zero is exact for polynomials with no more coefficients than points. */
  lemma {:induction false} Interpolation(q: int, xs: seq<int>, p: seq<int>)
    requires q > 0 && Prime(q) && Distinct(q, xs) && |p| <= |xs| && |xs| > 0
    ensures Cong(q, SumTo(|xs|, Weighted(q, xs, p)), Eval(p, 0))
    decreases |p|, 1
  {
    hide Cong, Lambda, Eval, Prime, Distinct, SumTo;
    var a, r := xs[0], Quotient(p, xs[0]);
    var one, rest := Weighted(q, xs, [1]), (i: nat) => if i < |xs| then Lambda(q, xs, i) * ((xs[i] - a) * Eval(r, xs[i])) else 0;
    forall i | 0 <= i < |xs|
      ensures Weighted(q, xs, p)(i) == Eval(p, a) * one(i) + 1 * rest(i)
    {
      SplitTerm(q, xs, p, a, i);
    }
    SumLinear(|xs|, Eval(p, a), one, 1, rest, Weighted(q, xs, p));
    CoefficientsSumToOne(q, xs);
    InterpolateProduct(q, xs, 0, r, rest);
    QuotientCorrect(p, a, 0);
    InterpolateRest(q, xs, p, r);
    InterpolationArith(q, a, Eval(p, a), SumTo(|xs|, one), SumTo(|xs|, rest),
                       SumTo(|xs| - 1, Weighted(q, Without(xs, 0), r)), Eval(r, 0));
  }

  lemma {:induction false} InterpolateRest(q: int, xs: seq<int>, p: seq<int>, r: seq<int>)
    requires Prime(q) && Distinct(q, xs) && |r| < |xs|
    requires |r| == if |p| == 0 then 0 else |p| - 1
    ensures Cong(q, SumTo(|xs| - 1, Weighted(q, Without(xs, 0), r)), Eval(r, 0))
    decreases |p|, 0
  {
    if |r| > 0 {
      WithoutDistinct(q, xs, 0);
      Interpolation(q, Without(xs, 0), r);
    } else {
      SumOfZeros(|xs| - 1, Weighted(q, Without(xs, 0), r));
    }
  }

  lemma InterpolationArith(q: int, a: int, pa: int, one: int, rest: int, t: int, r: int)
    requires q > 0 && Cong(q, one, 1) && Cong(q, rest, -a * t) && Cong(q, t, r)
    ensures Cong(q, pa * one + 1 * rest, pa + (0 - a) * r)
  {
    hide Cong;
    CongReflexive(q, pa);
    CongReflexive(q, -a);
    MulCong(q, pa, pa, one, 1);
    MulCong(q, -a, -a, t, r);
    CongChain(q, rest, -a * t, -a * r);
    AddCong(q, pa * one, pa * 1, rest, -a * r);
  }

  lemma SumOfZeros(n: nat, f: nat -> int)
    requires forall i :: 0 <= i < n ==> f(i) == 0
    ensures SumTo(n, f) == 0
  {
    SumLinear(n, 0, f, 0, f, f);
  }
}
