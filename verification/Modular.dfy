/** Arithmetic modulo a prime, and finite sums. Scalars are the integers modulo the group order. */
module Modular {

  /** q is prime: nothing strictly between 1 and q divides it. */
  ghost predicate Prime(q: int) {
    q > 1 && forall d :: 1 < d < q ==> q % d != 0
  }

  /** a and b are the same scalar. */
  predicate Cong(q: int, a: int, b: int)
    requires q > 0
  {
    a % q == b % q
  }

  lemma MultipleVanishes(q: int, k: int, r: int)
    requires q > 0
    ensures (r + k * q) % q == r % q
  {
    var s := r + k * q;
    assert s == q * (s / q) + s % q && r == q * (r / q) + r % q;
    var d := s / q - r / q - k;
    assert q * d == r % q - s % q by {
      assert q * d == q * (s / q) - q * (r / q) - q * k;
    }
    assert d >= 1 ==> q * d >= q;
    assert d <= -1 ==> q * d <= -q;
  }

  /** Congruent integers differ by a multiple of q. */
  lemma CongWitness(q: int, a: int, b: int) returns (k: int)
    requires q > 0 && Cong(q, a, b)
    ensures a == b + k * q
  {
    k := a / q - b / q;
    assert a == q * (a / q) + a % q && b == q * (b / q) + b % q;
  }

  lemma Reduced(q: int, a: int)
    requires q > 0
    ensures 0 <= a % q < q
    ensures Cong(q, a % q, a)
  {
  }

  lemma CongReflexive(q: int, a: int)
    requires q > 0
    ensures Cong(q, a, a)
  {
  }

  lemma CongSymmetric(q: int, a: int, b: int)
    requires q > 0 && Cong(q, a, b)
    ensures Cong(q, b, a)
  {
  }

  lemma CongChain(q: int, a: int, b: int, c: int)
    requires q > 0 && Cong(q, a, b) && Cong(q, b, c)
    ensures Cong(q, a, c)
  {
  }

  lemma AddCong(q: int, a: int, a': int, b: int, b': int)
    requires q > 0 && Cong(q, a, a') && Cong(q, b, b')
    ensures Cong(q, a + b, a' + b')
    ensures Cong(q, a - b, a' - b')
  {
    var k := CongWitness(q, a, a');
    var l := CongWitness(q, b, b');
    assert a + b == a' + b' + (k + l) * q;
    assert a - b == a' - b' + (k - l) * q;
    MultipleVanishes(q, k + l, a' + b');
    MultipleVanishes(q, k - l, a' - b');
  }

  lemma Expand(a: int, b: int, k: int, l: int, q: int)
    ensures (a + k * q) * (b + l * q) == a * b + (k * b + a * l + k * l * q) * q
  {
    var kq, lq := k * q, l * q;
    assert (a + kq) * (b + lq) == a * b + kq * b + a * lq + kq * lq;
    assert kq * b == k * b * q && a * lq == a * l * q && kq * lq == k * l * q * q;
  }

  lemma MulCong(q: int, a: int, a': int, b: int, b': int)
    requires q > 0 && Cong(q, a, a') && Cong(q, b, b')
    ensures Cong(q, a * b, a' * b')
  {
    var k := CongWitness(q, a, a');
    var l := CongWitness(q, b, b');
    Expand(a', b', k, l, q);
    MultipleVanishes(q, k * b' + a' * l + k * l * q, a' * b');
  }

  /** The extended Euclidean algorithm. */
  function Egcd(a: nat, b: nat): (int, int, int)
    decreases b
  {
    if b == 0 then (a, 1, 0)
    else
      var (g, x, y) := Egcd(b, a % b);
      (g, y, x - (a / b) * y)
  }

  lemma BackSubstitute(a: nat, b: nat, x: int, y: int)
    requires b > 0
    ensures b * x + (a % b) * y == a * y + b * (x - (a / b) * y)
  {
    var c, r := a / b, a % b;
    assert a == b * c + r;
    assert (b * c + r) * y == b * (c * y) + r * y;
  }

  lemma {:induction false} EgcdBezout(a: nat, b: nat)
    ensures Egcd(a, b).0 == a * Egcd(a, b).1 + b * Egcd(a, b).2
    decreases b
  {
    if b != 0 {
      EgcdBezout(b, a % b);
      BackSubstitute(a, b, Egcd(b, a % b).1, Egcd(b, a % b).2);
    }
  }

  lemma CommonDivisor(g: int, a: int, b: int)
    requires g > 0 && b > 0 && b % g == 0 && (a % b) % g == 0
    ensures a % g == 0
  {
    var u, v, c := b / g, (a % b) / g, a / b;
    assert a == b * c + a % b;
    assert b == u * g && a % b == v * g;
    assert b * c == u * c * g;
    assert a == (v + u * c) * g;
    MultipleVanishes(g, v + u * c, 0);
  }

  lemma {:induction false} EgcdDivides(a: nat, b: nat)
    requires a + b > 0
    ensures Egcd(a, b).0 > 0 && a % Egcd(a, b).0 == 0 && b % Egcd(a, b).0 == 0
    decreases b
  {
    if b != 0 {
      EgcdDivides(b, a % b);
      CommonDivisor(Egcd(b, a % b).0, a, b);
    }
  }

  lemma SmallMod(a: nat, n: nat)
    ensures a < n ==> a % n == a
  {
  }

  lemma CoprimeToPrime(q: int, r: int, g: int)
    requires Prime(q) && 0 < r < q && g > 0 && q % g == 0 && r % g == 0
    ensures g == 1
  {
    SmallMod(q, g);
    SmallMod(r, g);
  }

  lemma BezoutMod(q: int, r: int, e: (int, int, int))
    requires Prime(q) && 0 < r < q && e == Egcd(r, q)
    ensures Cong(q, r * e.1, 1)
  {
    EgcdDivides(r, q);
    CoprimeToPrime(q, r, e.0);
    EgcdBezout(r, q);
    assert r * e.1 == 1 + (-e.2) * q;
    MultipleVanishes(q, -e.2, 1);
  }

  /** The inverse of a nonzero scalar; the value at zero has no meaning. */
  function Inv(q: int, a: int): (r: int)
    requires q > 0
    ensures 0 <= r < q
  {
    Egcd(a % q, q).1 % q
  }

  /** Every nonzero scalar has an inverse because q is prime. */
  lemma InvCorrect(q: int, a: int)
    requires Prime(q) && !Cong(q, a, 0)
    ensures Cong(q, a * Inv(q, a), 1)
  {
    var r := a % q;
    var e := Egcd(r, q);
    assert Cong(q, r * e.1, 1) by {
      BezoutMod(q, r, e);
    }
    var i := Inv(q, a);
    assert i == e.1 % q;
    Reduced(q, e.1);
    Reduced(q, a);
    assert Cong(q, i, e.1);
    assert Cong(q, a, r);
    assert Cong(q, a * i, r * e.1) by {
      MulCong(q, a, r, i, e.1);
    }
  }

  /** A product of nonzero scalars is nonzero. */
  lemma NonzeroProduct(q: int, a: int, b: int)
    requires Prime(q)
    ensures Cong(q, a * b, 0) <==> Cong(q, a, 0) || Cong(q, b, 0)
  {
    if Cong(q, a, 0) || Cong(q, b, 0) {
      if Cong(q, a, 0) {
        MulCong(q, a, 0, b, b);
      } else {
        MulCong(q, a, a, b, 0);
      }
    } else if Cong(q, a * b, 0) {
      var i := Inv(q, a);
      assert a * i * b == a * b * i;
      InvCorrect(q, a);
      MulCong(q, a * b, 0, i, i);
      MulCong(q, a * i, 1, b, b);
    }
  }

  /** Nonzero factors cancel. */
  lemma CancelFactor(q: int, c: int, a: int, b: int)
    requires q > 0 && Prime(q) && !Cong(q, c, 0) && Cong(q, c * a, c * b)
    ensures Cong(q, a, b)
  {
    hide Cong, Prime;
    CongReflexive(q, c * b);
    CongReflexive(q, b);
    AddCong(q, c * a, c * b, c * b, c * b);
    TakeOut(c, a, b);
    NonzeroProduct(q, c, a - b);
    AddCong(q, a - b, 0, b, b);
  }

  lemma TakeOut(c: int, a: int, b: int)
    ensures c * a - c * b == c * (a - b)
  {
  }

  /** An inverse is the only scalar with the inverse's property. */
  lemma InvUnique(q: int, a: int, b: int)
    requires Prime(q) && Cong(q, a * b, 1)
    ensures !Cong(q, a, 0) && Cong(q, b, Inv(q, a))
  {
    assert 1 % q == 1;
    NonzeroProduct(q, a, b);
    InvCorrect(q, a);
    CancelFactor(q, a, b, Inv(q, a));
  }

  // ----------------------------------------------------------------------------------------------
  // Finite sums of a function over 0, ..., n - 1
  // ----------------------------------------------------------------------------------------------

  ghost function SumTo(n: nat, f: nat -> int): int {
    if n == 0 then 0 else SumTo(n - 1, f) + f(n - 1)
  }

  /** The sum of a sequence, folded from the left as the source does. */
  function Sum(s: seq<int>): int {
    if |s| == 0 then 0 else Sum(s[..|s| - 1]) + s[|s| - 1]
  }

  lemma {:induction false} SumIsSumTo(s: seq<int>, n: nat, f: nat -> int)
    requires |s| == n && forall i :: 0 <= i < n ==> s[i] == f(i)
    ensures Sum(s) == SumTo(n, f)
  {
    if n > 0 {
      SumIsSumTo(s[..n - 1], n - 1, f);
    }
  }

  lemma {:induction false} SumCong(q: int, n: nat, f: nat -> int, g: nat -> int)
    requires q > 0 && forall i :: 0 <= i < n ==> Cong(q, f(i), g(i))
    ensures Cong(q, SumTo(n, f), SumTo(n, g))
  {
    if n > 0 {
      SumCong(q, n - 1, f, g);
      AddCong(q, SumTo(n - 1, f), SumTo(n - 1, g), f(n - 1), g(n - 1));
    }
  }

  lemma {:induction false} SumExt(n: nat, f: nat -> int, g: nat -> int)
    requires forall i :: 0 <= i < n ==> f(i) == g(i)
    ensures SumTo(n, f) == SumTo(n, g)
  {
    if n > 0 {
      SumExt(n - 1, f, g);
    }
  }

  /** Sums are linear. */
  lemma {:induction false} SumLinear(n: nat, a: int, f: nat -> int, b: int, g: nat -> int, h: nat -> int)
    requires forall i :: 0 <= i < n ==> h(i) == a * f(i) + b * g(i)
    ensures SumTo(n, h) == a * SumTo(n, f) + b * SumTo(n, g)
  {
    if n > 0 {
      SumLinear(n - 1, a, f, b, g, h);
      assert a * (SumTo(n - 1, f) + f(n - 1)) == a * SumTo(n - 1, f) + a * f(n - 1);
      assert b * (SumTo(n - 1, g) + g(n - 1)) == b * SumTo(n - 1, g) + b * g(n - 1);
    }
  }

  lemma {:induction false} SumAdd(n: nat, f: nat -> int, g: nat -> int, h: nat -> int)
    requires forall i :: 0 <= i < n ==> h(i) == f(i) + g(i)
    ensures SumTo(n, h) == SumTo(n, f) + SumTo(n, g)
  {
    if n > 0 {
      SumAdd(n - 1, f, g, h);
    }
  }

  lemma {:induction false} SumScale(n: nat, a: int, f: nat -> int, h: nat -> int)
    requires forall i :: 0 <= i < n ==> h(i) == a * f(i)
    ensures SumTo(n, h) == a * SumTo(n, f)
  {
    if n > 0 {
      SumScale(n - 1, a, f, h);
      assert a * (SumTo(n - 1, f) + f(n - 1)) == a * SumTo(n - 1, f) + a * f(n - 1);
    }
  }

  lemma {:induction false} SumNonnegative(n: nat, f: nat -> int)
    requires forall i :: 0 <= i < n ==> f(i) >= 0
    ensures SumTo(n, f) >= 0
  {
    if n > 0 {
      SumNonnegative(n - 1, f);
    }
  }

  lemma {:induction false} SumOfOnes(n: nat, one: nat -> int)
    requires forall i :: 0 <= i < n ==> one(i) == 1
    ensures SumTo(n, one) == n
  {
    if n > 0 {
      SumOfOnes(n - 1, one);
    }
  }

  ghost function Row(F: (nat, nat) -> int, i: nat): nat -> int {
    (j: nat) => F(i, j)
  }

  ghost function Col(F: (nat, nat) -> int, j: nat): nat -> int {
    (i: nat) => F(i, j)
  }

  ghost function RowSums(m: nat, F: (nat, nat) -> int): nat -> int {
    (i: nat) => SumTo(m, Row(F, i))
  }

  ghost function ColSums(n: nat, F: (nat, nat) -> int): nat -> int {
    (j: nat) => SumTo(n, Col(F, j))
  }

  /** The order of a double sum can be exchanged. */
  lemma {:induction false} SumSwap(n: nat, m: nat, F: (nat, nat) -> int)
    ensures SumTo(n, RowSums(m, F)) == SumTo(m, ColSums(n, F))
  {
    if n == 0 {
      SumScale(m, 0, ColSums(0, F), ColSums(0, F));
    } else {
      SumSwap(n - 1, m, F);
      forall j | 0 <= j < m
        ensures ColSums(n, F)(j) == ColSums(n - 1, F)(j) + Row(F, n - 1)(j)
      {
      }
      SumAdd(m, ColSums(n - 1, F), Row(F, n - 1), ColSums(n, F));
    }
  }

  // ----------------------------------------------------------------------------------------------
  // Leaving one index out
  // ----------------------------------------------------------------------------------------------

  /** The j-th index when k is left out: 0, ..., k - 1, k + 1, ... */
  function Skip(k: nat, j: nat): (i: nat)
    ensures i != k && j <= i <= j + 1
  {
    if j < k then j else j + 1
  }

  /** The position of i when k is left out. */
  function Unskip(k: nat, i: nat): (j: nat)
    requires i != k
    ensures Skip(k, j) == i
  {
    if i < k then i else i - 1
  }

  ghost function Skipping(k: nat, f: nat -> int): nat -> int {
    (j: nat) => f(Skip(k, j))
  }

  lemma {:induction false} SumSkip(n: nat, k: nat, f: nat -> int)
    requires k < n
    ensures SumTo(n, f) == f(k) + SumTo(n - 1, Skipping(k, f))
  {
    if k == n - 1 {
      SumExt(n - 1, f, Skipping(k, f));
    } else {
      SumSkip(n - 1, k, f);
      assert Skip(k, n - 2) == n - 1;
      assert Skipping(k, f)(n - 2) == f(n - 1);
    }
  }

  function ProdTo(n: nat, f: nat -> int): int {
    if n == 0 then 1 else ProdTo(n - 1, f) * f(n - 1)
  }

  lemma {:induction false} ProdExt(n: nat, f: nat -> int, g: nat -> int)
    requires forall i :: 0 <= i < n ==> f(i) == g(i)
    ensures ProdTo(n, f) == ProdTo(n, g)
  {
    if n > 0 {
      ProdExt(n - 1, f, g);
    }
  }

  lemma MoveFactor(a: int, b: int, c: int)
    ensures a * b * c == a * (b * c)
  {
  }

  lemma {:induction false} ProdSkip(n: nat, k: nat, f: nat -> int)
    requires k < n
    ensures ProdTo(n, f) == f(k) * ProdTo(n - 1, Skipping(k, f))
  {
    if k == n - 1 {
      ProdExt(n - 1, f, Skipping(k, f));
    } else {
      ProdSkip(n - 1, k, f);
      assert Skip(k, n - 2) == n - 1;
      assert Skipping(k, f)(n - 2) == f(n - 1);
      MoveFactor(f(k), ProdTo(n - 2, Skipping(k, f)), f(n - 1));
    }
  }

  lemma {:induction false} ProdNonzero(q: int, n: nat, f: nat -> int)
    requires Prime(q) && forall i :: 0 <= i < n ==> !Cong(q, f(i), 0)
    ensures !Cong(q, ProdTo(n, f), 0)
  {
    if n == 0 {
      SmallMod(1, q);
    } else {
      ProdNonzero(q, n - 1, f);
      NonzeroProduct(q, ProdTo(n - 1, f), f(n - 1));
    }
  }
}
