/** Rounds 3 to 9 of the honest signing run: reconstruction of R and the checks of phase 5. */
module SignPhases {
  import opened Wrappers
  import opened Modular
  import opened Slots
  import opened Library
  import opened Signing
  import opened Codec
  import opened MtaSums

  /** The values the signers share from round 3 on, by slot where each signer has its own. */
  datatype View = View(
    l3: nat -> Local3,
    delta: nat -> int,
    deltaInv: int,
    gamma: nat -> int,
    blind1: nat -> int,
    R: Point,
    r: int,
    s: nat -> int,
    ds: nat -> Decom5a,
    opens: nat -> Msg,
    vSum: int,
    d2: nat -> Decom5d)

  function V4(X: View, a: nat): Local4 { Local4(X.l3(a), X.deltaInv) }

  function V5(X: View, a: nat): Local5 { Local5(V4(X, a), X.R, X.r, X.s(a)) }

  function Coms5a(ds: nat -> Decom5a): nat -> Com<(Point, Point, Point)> { (b: nat) => Commit5aOf(ds(b)) }

  function V6(X: View, m: nat, a: nat): Local6 { Local6(V5(X, a), Table(m, Coms5a(X.ds))) }

  function V7(X: View, m: nat, a: nat): Local7 { Local7(V6(X, m, a), Table(m, X.opens), X.d2(a)) }

  function Coms5c(d2: nat -> Decom5d): nat -> Com<(Point, Point)> { (b: nat) => Commit5cOf(d2(b)) }

  function V8(X: View, m: nat, a: nat): Local8 { Local8(V7(X, m, a), Table(m, Coms5c(X.d2))) }

  function V9(X: View, m: nat, a: nat): Local9 { Local9(V8(X, m, a), X.s(a)) }

  // ----------------------------------------------------------------------------------------------
  // Round 3
  // ----------------------------------------------------------------------------------------------

  function Msg3(X: View): nat -> Msg { (b: nat) => Delta(X.delta(b)) }

  lemma DeltaVector(t: nat, a: nat, X: View)
    requires a <= t && X.l3(a).delta == X.delta(a)
    ensures DeltasHeard(Peers(t + 1, a, Msg3(X)), t)
    ensures Sum(Rebuild(DeltasOf(Peers(t + 1, a, Msg3(X)), t), a, X.l3(a).delta)) == SumTo(t + 1, X.delta)
  {
    assert DeltasOf(Peers(t + 1, a, Msg3(X)), t) == Peers(t + 1, a, X.delta);
    RebuildPeers(t + 1, a, X.delta);
    SumIsSumTo(Table(t + 1, X.delta), t + 1, X.delta);
  }

  /** Every signer reconstructs the same delta; all of them panic when it is zero. */
  lemma Round3Next(q: int, t: nat, me: Signer, a: nat, X: View)
    requires q > 0 && a <= t && X.l3(a).delta == X.delta(a)
    requires X.deltaInv == Inv(q, SumTo(t + 1, X.delta))
    ensures Next4(q, t, me, a, X.l3(a), Peers(t + 1, a, Msg3(X)))
         == if Cong(q, SumTo(t + 1, X.delta), 0) then None else Some(V4(X, a))
  {
    DeltaVector(t, a, X);
  }

  // ----------------------------------------------------------------------------------------------
  // Round 4
  // ----------------------------------------------------------------------------------------------

  function Decommits(X: View): nat -> (Point, int) { (b: nat) => (Base(X.gamma(b)), X.blind1(b)) }

  function Msg4(X: View): nat -> Msg { (b: nat) => Decommit(Base(X.gamma(b)), X.blind1(b)) }

  function GammaComs(X: View): nat -> Com<Point> { (b: nat) => Com(Base(X.gamma(b)), X.blind1(b)) }

  /** The commitments and the proofs the signer in slot a holds since rounds 1 and 2 are those of gamma. */
  ghost predicate GammaKnown(q: int, t: nat, X: View, a: nat)
    requires q > 0 && a <= t
  {
    var l3 := X.l3(a);
    && l3.l2.bc1 == Table(t + 1, GammaComs(X))
    && |l3.recGamma| == t
    && forall j :: 0 <= j < t ==> SamePoint(q, l3.recGamma[j].bProof.pk, Base(X.gamma(Skip(a, j))))
  }

  lemma Phase4Passes(q: int, t: nat, X: View, a: nat)
    requires q > 0 && a <= t && GammaKnown(q, t, X, a)
    ensures Phase4(q, X.deltaInv, ProofsOf(X.l3(a).recGamma), Peers(t + 1, a, Decommits(X)), Peers(t + 1, a, GammaComs(X)))
         == Some(Times(SumPoints(PointsIn(Peers(t + 1, a, Decommits(X)))), X.deltaInv))
  {
  }

  /** Taking out the own slot before phase 4 and adding the own term afterwards gives R whatever the slot. */
  lemma ROfPeers(t: nat, X: View, a: nat)
    requires a <= t && X.R == Point(SumTo(t + 1, X.gamma) * X.deltaInv)
    ensures Plus(Times(SumPoints(PointsIn(Peers(t + 1, a, Decommits(X)))), X.deltaInv), Times(Base(X.gamma(a)), X.deltaInv)) == X.R
  {
    assert Logs(PointsIn(Peers(t + 1, a, Decommits(X)))) == Peers(t + 1, a, X.gamma);
    SumPeers(t + 1, a, X.gamma);
    Distribute(SumTo(t + 1, X.gamma), X.gamma(a), X.deltaInv);
  }

  lemma Distribute(g: int, o: int, i: int)
    ensures (g - o) * i + o * i == g * i
  {
  }

  lemma DecommitsHeardAre(t: nat, a: nat, X: View)
    requires a <= t
    ensures DecommitsHeard(Peers(t + 1, a, Msg4(X)), t)
    ensures DecommitsOf(Peers(t + 1, a, Msg4(X)), t) == Peers(t + 1, a, Decommits(X))
  {
    assert DecommitsOf(Peers(t + 1, a, Msg4(X)), t) == Peers(t + 1, a, Decommits(X));
  }

  lemma RIsReconstructed(q: int, t: nat, me: Signer, a: nat, X: View)
    requires q > 0 && a <= t && GammaKnown(q, t, X, a)
    requires X.gamma(a) == me.rnd.gamma && X.blind1(a) == me.rnd.blind1
    requires X.R == Point(SumTo(t + 1, X.gamma) * X.deltaInv)
    ensures ReconstructR(q, t, me, a, V4(X, a), Peers(t + 1, a, Msg4(X))) == Some(X.R)
  {
    hide Phase4, Times, Plus, GammaComs, Msg4;
    var m := t + 1;
    DecommitsHeardAre(t, a, X);
    RebuildPeers(m, a, Decommits(X));
    RebuildPeers(m, a, GammaComs(X));
    Phase4Passes(q, t, X, a);
    ROfPeers(t, X, a);
  }

  lemma Round4Next(C: Curve, message: int, t: nat, me: Signer, a: nat, X: View)
    requires C.q > 0 && a <= t && GammaKnown(C.q, t, X, a)
    requires X.gamma(a) == me.rnd.gamma && X.blind1(a) == me.rnd.blind1
    requires X.R == Point(SumTo(t + 1, X.gamma) * X.deltaInv)
    requires XCoord(C, X.R).Some? && X.r == XCoord(C, X.R).value % C.q
    requires X.s(a) == ShareOfS(message, me.rnd.k, X.r, X.l3(a).sigma)
    ensures Next5(C, message, t, me, a, V4(X, a), Peers(t + 1, a, Msg4(X))) == Some(V5(X, a))
  {
    hide ReconstructR, ShareOfS, XCoord, Msg4, GammaKnown, SumTo;
    RIsReconstructed(C.q, t, me, a, X);
  }

  // ----------------------------------------------------------------------------------------------
  // Rounds 5 and 6
  // ----------------------------------------------------------------------------------------------

  function Msg5(X: View): nat -> Msg { (b: nat) => Commit5a(Coms5a(X.ds)(b)) }

  lemma Round5Next(t: nat, me: Signer, a: nat, X: View)
    requires a <= t && X.ds(a) == OwnDecom5a(me, V5(X, a))
    ensures Next6(t, me, a, V5(X, a), Peers(t + 1, a, Msg5(X))) == Some(V6(X, t + 1, a))
  {
    var ans := Peers(t + 1, a, Msg5(X));
    assert Commits5aOf(ans, t) == Peers(t + 1, a, Coms5a(X.ds));
    RebuildPeers(t + 1, a, Coms5a(X.ds));
  }

  /** What b opens in round 6 verifies for everybody. */
  ghost predicate OpenOk(q: int, X: View, b: nat)
    requires q > 0
  {
    && X.opens(b).Open5a? && X.opens(b).decom5a == X.ds(b)
    && VerifyElGamal(q, X.opens(b).elGamal, X.ds(b), X.R)
    && VerifyDLog(q, X.opens(b).dlogRho)
  }

  lemma OwnOpenOk(q: int, me: Signer, a: nat, X: View)
    requires q > 0 && X.ds(a) == OwnDecom5a(me, V5(X, a)) && X.opens(a) == OwnOpen5a(me, V5(X, a))
    ensures OpenOk(q, X, a)
  {
  }

  function VLogs(ds: nat -> Decom5a): nat -> int { (b: nat) => ds(b).V.e }
  function ALogs(ds: nat -> Decom5a): nat -> int { (b: nat) => ds(b).A.e }
  function BLogs(ds: nat -> Decom5a): nat -> int { (b: nat) => ds(b).B.e }
  function ULogs(d2: nat -> Decom5d): nat -> int { (b: nat) => d2(b).u.e }
  function TLogs(d2: nat -> Decom5d): nat -> int { (b: nat) => d2(b).t.e }

  /** The sum of all V less m G and r Y, times the own rho; the sum of the peers' A times the own l. */
  function SecondDecom(me: Signer, vSum: int, aSum: int): Decom5d {
    Decom5d(Point(vSum * me.rnd.rho), Point(aSum * me.rnd.l), me.rnd.blind5c)
  }

  ghost predicate OwnD2(t: nat, me: Signer, a: nat, X: View)
    requires a <= t
  {
    X.d2(a) == SecondDecom(me, X.vSum, SumTo(t + 1, ALogs(X.ds)) - X.ds(a).A.e)
  }

  lemma SlicesAre(t: nat, a: nat, X: View)
    requires a <= t && forall b :: 0 <= b <= t ==> X.opens(b).Open5a? && X.opens(b).decom5a == X.ds(b)
    ensures forall j: nat {:trigger Peers(t + 1, a, X.opens)[j]} :: j < t ==> Peers(t + 1, a, X.opens)[j].Open5a?
    ensures SumPoints(VsOf(Decoms5a(Peers(t + 1, a, X.opens)))).e == SumTo(t + 1, VLogs(X.ds)) - X.ds(a).V.e
    ensures SumPoints(AsOf(Decoms5a(Peers(t + 1, a, X.opens)))).e == SumTo(t + 1, ALogs(X.ds)) - X.ds(a).A.e
  {
    var opens := Peers(t + 1, a, X.opens);
    forall j | 0 <= j < t
      ensures opens[j].Open5a? && opens[j].decom5a == X.ds(Skip(a, j))
    {
    }
    assert Logs(VsOf(Decoms5a(opens))) == Peers(t + 1, a, VLogs(X.ds));
    assert Logs(AsOf(Decoms5a(opens))) == Peers(t + 1, a, ALogs(X.ds));
    SumPeers(t + 1, a, VLogs(X.ds));
    SumPeers(t + 1, a, ALogs(X.ds));
  }

  lemma Phase5cPasses(q: int, t: nat, me: Signer, a: nat, message: int, y: int, X: View)
    requires q > 0 && a <= t && me.file.ySum == Base(y)
    requires forall b :: 0 <= b <= t ==> OpenOk(q, X, b)
    requires X.vSum == SumTo(t + 1, VLogs(X.ds)) - message - y * X.r
    requires OwnD2(t, me, a, X)
    ensures forall j: nat {:trigger Peers(t + 1, a, X.opens)[j]} :: j < t ==> Peers(t + 1, a, X.opens)[j].Open5a?
    ensures Phase5c(q, me, V5(X, a), message, Peers(t + 1, a, X.opens), Peers(t + 1, a, Coms5a(X.ds)), X.ds(a).V) == Some(X.d2(a))
  {
    var opens, coms := Peers(t + 1, a, X.opens), Peers(t + 1, a, Coms5a(X.ds));
    forall b | 0 <= b <= t
      ensures X.opens(b).Open5a? && X.opens(b).decom5a == X.ds(b)
    {
      assert OpenOk(q, X, b);
    }
    SlicesAre(t, a, X);
    forall i | 0 <= i < t
      ensures coms[i] == Commit5aOf(opens[i].decom5a)
      ensures VerifyElGamal(q, opens[i].elGamal, opens[i].decom5a, X.R) && VerifyDLog(q, opens[i].dlogRho)
    {
      assert OpenOk(q, X, Skip(a, i));
    }
  }

  lemma Round6Next(q: int, t: nat, me: Signer, a: nat, message: int, y: int, X: View)
    requires q > 0 && a <= t && me.file.ySum == Base(y)
    requires X.ds(a) == OwnDecom5a(me, V5(X, a)) && X.opens(a) == OwnOpen5a(me, V5(X, a))
    requires forall b :: 0 <= b <= t ==> OpenOk(q, X, b)
    requires X.vSum == SumTo(t + 1, VLogs(X.ds)) - message - y * X.r
    requires OwnD2(t, me, a, X)
    ensures Next7(q, message, t, me, a, V6(X, t + 1, a), Peers(t + 1, a, X.opens)) == Some(V7(X, t + 1, a))
  {
    RebuildPeers(t + 1, a, X.opens);
    RebuildPeers(t + 1, a, Coms5a(X.ds));
    RebuildRemove(Peers(t + 1, a, X.opens), a, X.opens(a));
    Phase5cPasses(q, t, me, a, message, y, X);
  }

  // ----------------------------------------------------------------------------------------------
  // Rounds 7 and 8
  // ----------------------------------------------------------------------------------------------

  function Msg7(X: View): nat -> Msg { (b: nat) => Commit5c(Coms5c(X.d2)(b)) }

  function Msg8(X: View): nat -> Msg { (b: nat) => Open5d(X.d2(b)) }

  lemma Round7Next(t: nat, me: Signer, a: nat, X: View)
    requires a <= t
    ensures Next8(t, me, a, V7(X, t + 1, a), Peers(t + 1, a, Msg7(X))) == Some(V8(X, t + 1, a))
  {
    var ans := Peers(t + 1, a, Msg7(X));
    assert Commits5cOf(ans, t) == Peers(t + 1, a, Coms5c(X.d2));
    RebuildPeers(t + 1, a, Coms5c(X.d2));
  }

  /** The sums of all T and B balance the sum of all U. */
  ghost predicate Balanced(q: int, t: nat, X: View)
    requires q > 0
  {
    Cong(q, 1 + SumTo(t + 1, TLogs(X.d2)) + SumTo(t + 1, BLogs(X.ds)) - SumTo(t + 1, ULogs(X.d2)), 1)
  }

  lemma Phase5dPasses(q: int, t: nat, X: View, s: int)
    requires q > 0 && Balanced(q, t, X)
    ensures Phase5d(q, s, Table(t + 1, X.d2), Table(t + 1, Coms5c(X.d2)), Table(t + 1, X.ds)) == Some(s)
  {
    SumIsSumTo(Logs(TsOf(Table(t + 1, X.d2))), t + 1, TLogs(X.d2));
    SumIsSumTo(Logs(UsOf(Table(t + 1, X.d2))), t + 1, ULogs(X.d2));
    SumIsSumTo(Logs(BsOf(Table(t + 1, X.ds))), t + 1, BLogs(X.ds));
  }

  lemma Round8Next(q: int, t: nat, me: Signer, a: nat, X: View)
    requires q > 0 && a <= t && Balanced(q, t, X)
    requires forall b :: 0 <= b <= t ==> OpenOk(q, X, b)
    ensures Next9(q, t, me, a, V8(X, t + 1, a), Peers(t + 1, a, Msg8(X))) == Some(V9(X, t + 1, a))
  {
    var m, ans, opens := t + 1, Peers(t + 1, a, Msg8(X)), Table(t + 1, X.opens);
    assert Decoms5dOf(ans, t) == Peers(m, a, X.d2);
    RebuildPeers(m, a, X.d2);
    forall i | 0 <= i < m
      ensures opens[i].Open5a? && opens[i].decom5a == X.ds(i)
    {
      assert OpenOk(q, X, i);
    }
    assert Decoms5a(opens) == Table(m, X.ds);
    Phase5dPasses(q, t, X, X.s(a));
  }

  /** What the signers' T, B and U are made of: their rho and l, and the sum of all V without m G and r Y. */
  ghost predicate PhaseFiveValues(t: nat, X: View, rho: nat -> int, l: nat -> int) {
    && (forall b :: 0 <= b <= t ==> ULogs(X.d2)(b) == X.vSum * rho(b))
    && (forall b :: 0 <= b <= t ==> TLogs(X.d2)(b) == (SumTo(t + 1, rho) - rho(b)) * l(b))
    && (forall b :: 0 <= b <= t ==> BLogs(X.ds)(b) == rho(b) * l(b))
  }

  /** T uses the peers' A only and B the own one, so together they make up the full product. */
  lemma PhaseFiveSums(t: nat, X: View, rho: nat -> int, l: nat -> int)
    requires PhaseFiveValues(t, X, rho, l)
    ensures SumTo(t + 1, TLogs(X.d2)) + SumTo(t + 1, BLogs(X.ds)) == SumTo(t + 1, rho) * SumTo(t + 1, l)
    ensures SumTo(t + 1, ULogs(X.d2)) == X.vSum * SumTo(t + 1, rho)
  {
    var m, total := t + 1, SumTo(t + 1, rho);
    var f := (b: nat) => total * l(b);
    forall b | 0 <= b < m
      ensures f(b) == TLogs(X.d2)(b) + BLogs(X.ds)(b)
    {
      Distribute(total, rho(b), l(b));
    }
    SumAdd(m, TLogs(X.d2), BLogs(X.ds), f);
    SumScale(m, total, l, f);
    SumScale(m, X.vSum, rho, ULogs(X.d2));
  }

  /** The sums balance if the sum of all V without m G and r Y is the sum of all l. */
  lemma Balance(q: int, t: nat, X: View, rho: nat -> int, l: nat -> int)
    requires q > 0 && Cong(q, X.vSum, SumTo(t + 1, l)) && PhaseFiveValues(t, X, rho, l)
    ensures Balanced(q, t, X)
  {
    hide PhaseFiveValues, Cong;
    PhaseFiveSums(t, X, rho, l);
    PhaseBalance(q, SumTo(t + 1, TLogs(X.d2)), SumTo(t + 1, BLogs(X.ds)), SumTo(t + 1, ULogs(X.d2)), X.vSum, SumTo(t + 1, rho), SumTo(t + 1, l));
  }

  lemma PhaseBalance(q: int, t: int, b: int, u: int, v: int, rho: int, l: int)
    requires q > 0 && Cong(q, v, l) && t + b == rho * l && u == v * rho
    ensures Cong(q, 1 + t + b - u, 1)
  {
    MulCong(q, v, l, rho, rho);
    assert l * rho == rho * l;
    AddCong(q, 1 + rho * l, 1 + rho * l, v * rho, l * rho);
  }

  /** Phase 5 detects every wrong sum of the shares of s before one of them is revealed: whatever shares the
      signers hold, the sums balance if and only if the shares add up to a solution of the signature equation,
      unless the sum of all rho is zero. */
  lemma PhaseFiveDetects(q: int, t: nat, X: View, rho: nat -> int, l: nat -> int, m: int, y: int)
    requires q > 0 && Prime(q) && PhaseFiveValues(t, X, rho, l)
    requires forall b :: 0 <= b <= t ==> VLogs(X.ds)(b) == X.R.e * X.s(b) + 1 * l(b)
    requires X.vSum == SumTo(t + 1, VLogs(X.ds)) - m - y * X.r
    ensures Balanced(q, t, X) <==> Cong(q, X.R.e * SumTo(t + 1, X.s), m + X.r * y) || Cong(q, SumTo(t + 1, rho), 0)
  {
    hide PhaseFiveValues, Cong, Prime;
    PhaseFiveSums(t, X, rho, l);
    SumLinear(t + 1, X.R.e, X.s, 1, l, VLogs(X.ds));
    assert y * X.r == X.r * y;
    BalanceExactly(q, SumTo(t + 1, TLogs(X.d2)), SumTo(t + 1, BLogs(X.ds)), SumTo(t + 1, ULogs(X.d2)), X.vSum, SumTo(t + 1, rho),
                   SumTo(t + 1, l), X.R.e * SumTo(t + 1, X.s), m + X.r * y);
    UnfoldBalanced(q, t, X);
  }

  lemma UnfoldBalanced(q: int, t: nat, X: View)
    requires q > 0
    ensures Balanced(q, t, X) <==> Cong(q, 1 + SumTo(t + 1, TLogs(X.d2)) + SumTo(t + 1, BLogs(X.ds)) - SumTo(t + 1, ULogs(X.d2)), 1)
  {
  }

  lemma BalanceExactly(q: int, t: int, b: int, u: int, v: int, rho: int, l: int, left: int, right: int)
    requires q > 0 && Prime(q) && t + b == rho * l && u == v * rho && v == left + l - right
    ensures Cong(q, 1 + t + b - u, 1) <==> Cong(q, left, right) || Cong(q, rho, 0)
  {
    hide Cong, Prime;
    var d := right - left;
    assert t + b - u == rho * d by {
      Distributes(rho, l, v);
    }
    OneMore(q, rho * d);
    NonzeroProduct(q, rho, d);
    DifferenceZero(q, right, left);
  }

  lemma Distributes(rho: int, l: int, v: int)
    ensures rho * l - v * rho == rho * (l - v)
  {
  }

  lemma OneMore(q: int, x: int)
    requires q > 0
    ensures Cong(q, 1 + x, 1) <==> Cong(q, x, 0)
  {
    if Cong(q, x, 0) {
      AddCong(q, 1, 1, x, 0);
    }
    if Cong(q, 1 + x, 1) {
      AddCong(q, 1 + x, 1, 1, 1);
    }
  }

  lemma DifferenceZero(q: int, a: int, b: int)
    requires q > 0
    ensures Cong(q, a - b, 0) <==> Cong(q, b, a)
  {
    if Cong(q, a - b, 0) {
      AddCong(q, a - b, 0, b, b);
    }
    if Cong(q, b, a) {
      AddCong(q, a, b, b, b);
    }
  }

  // ----------------------------------------------------------------------------------------------
  // Round 9 and the signature
  // ----------------------------------------------------------------------------------------------

  function Msg9(X: View): nat -> Msg { (b: nat) => SigShare(X.s(b)) }

  /** The signature every signer puts together. */
  ghost function TheSignature(q: int, t: nat, X: View): Signature
    requires q > 0
  {
    Normalized(q, X.r, SumTo(t + 1, X.s) % q)
  }

  lemma Round9Next(C: Curve, message: nat, t: nat, me: Signer, a: nat, y: int, X: View)
    requires 0 < C.q < TWO_TO_THE_256 && a <= t && me.file.ySum == Base(y)
    ensures Finish(C, message, t, me, a, V9(X, t + 1, a), Peers(t + 1, a, Msg9(X)))
         == if message < TWO_TO_THE_256 && EcdsaVerify(C, message, TheSignature(C.q, t, X), Base(y)) then Some(TheSignature(C.q, t, X)) else None
  {
    hide EcdsaVerify, Normalized, SumTo, Sum, CheckSig;
    CheckSigIs(C, message, TheSignature(C.q, t, X), Base(y));
    var m, ans := t + 1, Peers(t + 1, a, Msg9(X));
    assert SigSharesOf(ans, t) == Peers(m, a, X.s);
    RebuildPeers(m, a, X.s);
    SumPeers(m, a, X.s);
  }
}
