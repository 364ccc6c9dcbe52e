/** The key material all parties of one key generation hold, and the algebra that makes any t + 1 of
    them hold additive shares of the one key. */
module KeyFiles {
  import opened Modular
  import opened Lagrange
  import opened Slots
  import opened Library

  /** What key generation leaves with a party. `key` numbers its Paillier key pair. */
  datatype KeyFile = KeyFile(u: int, y: Point, key: nat, x: int, partyId: nat, vss: seq<Vss>, eks: seq<nat>, ySum: Point)

  /** The secrets of n parties: each one's polynomial, whose constant term is its part of the key. */
  datatype Dealing = Dealing(t: nat, polys: seq<seq<int>>, keys: seq<nat>) {
    ghost predicate Valid(q: int) {
      && |polys| == |keys| && 0 < |polys| < q
      && forall p :: 0 <= p < |polys| ==> |polys[p]| == t + 1
    }

    function U(p: nat): int {
      if p < |polys| && |polys[p]| > 0 then polys[p][0] else 0
    }

    function Poly(p: nat): seq<int> {
      if p < |polys| then polys[p] else []
    }
  }

  ghost function Us(D: Dealing): nat -> int {
    (p: nat) => D.U(p)
  }

  /** The private key, which no party ever holds. */
  ghost function Secret(D: Dealing): int {
    SumTo(|D.polys|, Us(D))
  }

  function VssVec(D: Dealing): (v: seq<Vss>)
    ensures |v| == |D.polys|
  {
    Table(|D.polys|, (p: nat) => ShareVss(D.t, |D.polys|, D.Poly(p)))
  }

  function YVec(D: Dealing): seq<Point> {
    Table(|D.polys|, (p: nat) => Base(D.U(p)))
  }

  /** The shares party i receives: one from each party, its own included. */
  function SharesOf(q: int, D: Dealing, i: nat): seq<int>
    requires q > 0
  {
    Table(|D.polys|, (p: nat) => Share(q, D.Poly(p), i))
  }

  /** The key file of the party with zero-based index p. */
  function FileOf(q: int, D: Dealing, p: nat): KeyFile
    requires q > 0 && p < |D.keys|
  {
    KeyFile(D.U(p), Base(D.U(p)), D.keys[p], Sum(SharesOf(q, D, p + 1)), p + 1, VssVec(D), D.keys, SumPoints(YVec(D)))
  }

  ghost function ValueAt(D: Dealing, x: int): nat -> int {
    (p: nat) => Eval(D.Poly(p), x)
  }

  lemma ShareIsEval(q: int, poly: seq<int>, i: nat)
    requires q > 0
    ensures Cong(q, Share(q, poly, i), Eval(poly, i))
  {
    Reduced(q, Eval(poly, i));
  }

  /** A party's share is the sum of all polynomials at its number. */
  lemma ShareIsValue(q: int, D: Dealing, p: nat)
    requires q > 0 && D.Valid(q) && p < |D.polys|
    ensures Cong(q, FileOf(q, D, p).x, SumTo(|D.polys|, ValueAt(D, p + 1)))
  {
    hide Share, Eval, SumTo, Sum;
    var f := (r: nat) => Share(q, D.Poly(r), p + 1);
    SumIsSumTo(SharesOf(q, D, p + 1), |D.polys|, f);
    forall r | 0 <= r < |D.polys|
      ensures Cong(q, f(r), ValueAt(D, p + 1)(r))
    {
      ShareIsEval(q, D.Poly(r), p + 1);
    }
    SumCong(q, |D.polys|, f, ValueAt(D, p + 1));
  }

  /** The published commitments determine g to the share of every party. */
  lemma CommitmentIsValue(D: Dealing, i: nat)
    ensures CommitmentToXi(VssVec(D), i).e == SumTo(|D.polys|, ValueAt(D, i))
  {
    var v := VssVec(D);
    var ps := seq(|v|, p requires 0 <= p < |v| => CommitmentAt(v[p], i));
    forall p | 0 <= p < |D.polys|
      ensures Logs(ps)[p] == ValueAt(D, i)(p)
    {
      assert Logs(v[p].commitments) == D.Poly(p);
    }
    SumIsSumTo(Logs(ps), |D.polys|, ValueAt(D, i));
  }

  /** The public key is the secret times the generator. */
  lemma PublicKeyIsSecret(q: int, D: Dealing, p: nat)
    requires q > 0 && p < |D.keys|
    ensures FileOf(q, D, p).ySum == Base(Secret(D))
  {
    SumIsSumTo(Logs(YVec(D)), |D.polys|, Us(D));
  }

  // ----------------------------------------------------------------------------------------------
  // Any t + 1 parties hold additive shares of the secret
  // ----------------------------------------------------------------------------------------------

  /** ids are distinct party numbers of the dealing. */
  ghost predicate Subset(D: Dealing, ids: seq<int>) {
    && (forall a :: 0 <= a < |ids| ==> 1 <= ids[a] <= |D.polys|)
    && (forall a, b :: 0 <= a < b < |ids| ==> ids[a] != ids[b])
  }

  lemma SubsetDistinct(q: int, D: Dealing, ids: seq<int>)
    requires q > 0 && D.Valid(q) && Subset(D, ids)
    ensures Distinct(q, ids)
  {
    forall a, b | 0 <= a < b < |ids|
      ensures !Cong(q, ids[a], ids[b])
    {
      SmallMod(ids[a], q);
      SmallMod(ids[b], q);
    }
  }

  /** The weight w of the a-th of the parties ids: its Lagrange coefficient times its share. */
  function Weight(q: int, D: Dealing, ids: seq<int>, a: nat): int
    requires q > 0 && |D.keys| == |D.polys| && a < |ids| && 1 <= ids[a] <= |D.polys|
  {
    Lambda(q, ids, a) * FileOf(q, D, ids[a] - 1).x
  }

  ghost function Weights(q: int, D: Dealing, ids: seq<int>): nat -> int
    requires q > 0 && |D.keys| == |D.polys| && Subset(D, ids)
  {
    (a: nat) => if a < |ids| then Weight(q, D, ids, a) else 0
  }

  ghost function Terms(q: int, D: Dealing, ids: seq<int>): (nat, nat) -> int
    requires q > 0
  {
    (a: nat, p: nat) => if a < |ids| then Lambda(q, ids, a) * Eval(D.Poly(p), ids[a]) else 0
  }

  lemma ConstantTerm(D: Dealing, p: nat)
    requires p < |D.polys| && |D.polys[p]| > 0
    ensures Eval(D.Poly(p), 0) == Us(D)(p)
  {
  }

  lemma ScaleCong(q: int, c: int, a: int, b: int)
    requires q > 0 && Cong(q, a, b)
    ensures Cong(q, c * a, c * b)
  {
    MulCong(q, c, c, a, b);
  }

  /** Every choice of t + 1 parties, in any order, holds weights that add up to the same secret. */
  lemma WeightsSumToSecret(q: int, D: Dealing, ids: seq<int>)
    requires Prime(q) && D.Valid(q) && Subset(D, ids) && |ids| == D.t + 1
    ensures Cong(q, SumTo(|ids|, Weights(q, D, ids)), Secret(D))
  {
    hide Cong, Lambda, Eval, FileOf, Prime, SumTo, Distinct;
    var m, n, F := |ids|, |D.polys|, Terms(q, D, ids);
    forall a | 0 <= a < m
      ensures Cong(q, Weights(q, D, ids)(a), RowSums(n, F)(a))
    {
      ShareIsValue(q, D, ids[a] - 1);
      ScaleCong(q, Lambda(q, ids, a), FileOf(q, D, ids[a] - 1).x, SumTo(n, ValueAt(D, ids[a])));
      SumScale(n, Lambda(q, ids, a), ValueAt(D, ids[a]), Row(F, a));
    }
    SumCong(q, m, Weights(q, D, ids), RowSums(n, F));
    SumSwap(m, n, F);
    SubsetDistinct(q, D, ids);
    forall p | 0 <= p < n
      ensures Cong(q, ColSums(m, F)(p), Us(D)(p))
    {
      SumExt(m, Weighted(q, ids, D.Poly(p)), Col(F, p));
      Interpolation(q, ids, D.Poly(p));
      ConstantTerm(D, p);
    }
    SumCong(q, n, ColSums(m, F), Us(D));
    CongChain(q, SumTo(m, Weights(q, D, ids)), SumTo(m, RowSums(n, F)), SumTo(n, Us(D)));
  }
}
