/** One signer's local computation in the ten signing rounds, as functions of its key file, its
    randomness and the answers it has heard. None is a panic of the source. */
module Signing {
  import opened Wrappers
  import opened Modular
  import opened Slots
  import opened Library
  import opened KeyFiles
  import opened Codec

  /** The values a signer draws at random. */
  datatype Nonces = Nonces(k: int, gamma: int, gammaTag: nat -> int, wTag: nat -> int,
                           blind1: int, l: int, rho: int, blind5a: int, blind5c: int)

  datatype Signer = Signer(file: KeyFile, rnd: Nonces)

  datatype Decom5a = Decom5a(V: Point, A: Point, B: Point, blind: int)

  /** Knowledge of s and l with V = s R + l G and B = l A. */
  datatype ElGamalProof = ElGamalProof(s: int, l: int)

  datatype Decom5d = Decom5d(u: Point, t: Point, blind: int)

  datatype Msg =
    | PartyId(id: nat)
    | Round1(com: Com<Point>, mA: MessageA)
    | Round2(mbGamma: MessageB, mbW: MessageB)
    | Delta(delta: int)
    | Decommit(gGamma: Point, blind: int)
    | Commit5a(com5a: Com<(Point, Point, Point)>)
    | Open5a(decom5a: Decom5a, elGamal: ElGamalProof, dlogRho: DLogProof)
    | Commit5c(com5c: Com<(Point, Point)>)
    | Open5d(decom5d: Decom5d)
    | SigShare(s: int)

  // Own values that do not depend on what was heard

  function OwnCom(me: Signer): Com<Point> {
    Com(Base(me.rnd.gamma), me.rnd.blind1)
  }

  // ----------------------------------------------------------------------------------------------
  // Round 0: signer identities and the weight of the own share
  // ----------------------------------------------------------------------------------------------

  datatype Local1 = Local1(signers: seq<nat>, w: int)

  predicate IdsHeard(ans: seq<Msg>, t: nat) {
    |ans| == t && forall j :: 0 <= j < t ==> ans[j].PartyId? && ans[j].id >= 1
  }

  function IdsOf(ans: seq<Msg>, t: nat): (r: seq<nat>)
    requires IdsHeard(ans, t)
    ensures |r| == t && forall j :: 0 <= j < t ==> r[j] == ans[j].id - 1
  {
    seq(t, j requires 0 <= j < t => ans[j].id - 1)
  }

  /** The zero-based keygen indices of all signers, by signup number. */
  function FormatSigners(ans: seq<Msg>, t: nat, own: nat, partyId: nat): (signers: seq<nat>)
    requires IdsHeard(ans, t) && own <= t && partyId >= 1
    ensures |signers| == t + 1
  {
    Rebuild(IdsOf(ans, t), own, partyId - 1)
  }

  function Next1(q: int, t: nat, me: Signer, own: nat, ans: seq<Msg>): Option<Local1>
    requires q > 0
  {
    if !IdsHeard(ans, t) || own > t || me.file.partyId < 1 then None
    else
      var signers := FormatSigners(ans, t, own, me.file.partyId);
      var lambda := MapShare(q, signers[own], signers);
      if signers[own] >= |me.file.vss| || lambda.None? then None
      else Some(Local1(signers, lambda.value * me.file.x))
  }

  // ----------------------------------------------------------------------------------------------
  // Round 1: commitments to gamma and the replies to the other signers' messages A
  // ----------------------------------------------------------------------------------------------

  datatype Local2 = Local2(l1: Local1, bc1: seq<Com<Point>>, mbGamma: seq<MessageB>, beta: seq<int>, mbW: seq<MessageB>, ni: seq<int>)

  predicate Round1Heard(ans: seq<Msg>, t: nat) {
    |ans| == t && forall j :: 0 <= j < t ==> ans[j].Round1?
  }

  function ComsOf(ans: seq<Msg>, t: nat): (r: seq<Com<Point>>)
    requires Round1Heard(ans, t)
    ensures |r| == t && forall j :: 0 <= j < t ==> r[j] == ans[j].com
  {
    seq(t, j requires 0 <= j < t => ans[j].com)
  }

  predicate KeysKnown(me: Signer, own: nat, signers: seq<nat>) {
    forall b :: 0 <= b < |signers| && b != own ==> signers[b] < |me.file.eks|
  }

  /** The replies carrying the secret, one for each peer under that peer's key. */
  function Replies(t: nat, me: Signer, own: nat, signers: seq<nat>, ans: seq<Msg>, secret: int, tag: nat -> int): (mb: seq<MessageB>)
    requires own <= t && Round1Heard(ans, t) && |signers| == t + 1 && KeysKnown(me, own, signers)
    ensures |mb| == t
  {
    seq(t, j requires 0 <= j < t => MtaB(secret, me.file.eks[signers[Skip(own, j)]], ans[j].mA, tag(j)))
  }

  function Betas(t: nat, tag: nat -> int): (s: seq<int>)
    ensures |s| == t
  {
    seq(t, (j: nat) => MtaBeta(tag(j)))
  }

  function Next2(t: nat, me: Signer, own: nat, l1: Local1, ans: seq<Msg>): Option<Local2> {
    if !Round1Heard(ans, t) || own > t || |l1.signers| != t + 1 || !KeysKnown(me, own, l1.signers) then None
    else
      Some(Local2(
        l1,
        Rebuild(ComsOf(ans, t), own, OwnCom(me)),
        Replies(t, me, own, l1.signers, ans, me.rnd.gamma, me.rnd.gammaTag),
        Betas(t, me.rnd.gammaTag),
        Replies(t, me, own, l1.signers, ans, l1.w, me.rnd.wTag),
        Betas(t, me.rnd.wTag)))
  }

  // ----------------------------------------------------------------------------------------------
  // Round 2: additive shares of k gamma and of k times the key
  // ----------------------------------------------------------------------------------------------

  datatype Local3 = Local3(l2: Local2, recGamma: seq<MessageB>, delta: int, sigma: int)

  predicate Round2Heard(ans: seq<Msg>, t: nat) {
    |ans| == t && forall j :: 0 <= j < t ==> ans[j].Round2?
  }

  function MbGammasOf(ans: seq<Msg>, t: nat): (r: seq<MessageB>)
    requires Round2Heard(ans, t)
    ensures |r| == t && forall j :: 0 <= j < t ==> r[j] == ans[j].mbGamma
  {
    seq(t, j requires 0 <= j < t => ans[j].mbGamma)
  }

  /** The commitment to the weight of a signer, from the commitments of key generation. */
  function WeightCom(q: int, vss: seq<Vss>, signers: seq<nat>, b: nat): Option<Point>
    requires q > 0 && b < |signers|
  {
    var lambda := MapShare(q, signers[b], signers);
    if signers[b] >= |vss| || lambda.None? then None
    else Some(Times(CommitmentsToXi(vss)[signers[b]], lambda.value))
  }

  /** The j-th answer decrypts, its proofs verify and it carries the weight its sender must use. */
  predicate Reply2Ok(q: int, me: Signer, own: nat, signers: seq<nat>, ans: seq<Msg>, j: nat)
    requires q > 0 && j < |ans| && ans[j].Round2? && Skip(own, j) < |signers|
  {
    && MtaAlpha(q, ans[j].mbGamma, me.file.key, me.rnd.k).Some?
    && MtaAlpha(q, ans[j].mbW, me.file.key, me.rnd.k).Some?
    && var g := WeightCom(q, me.file.vss, signers, Skip(own, j));
       g.Some? && SamePoint(q, ans[j].mbW.bProof.pk, g.value)
  }

  predicate Replies2Ok(q: int, t: nat, me: Signer, own: nat, signers: seq<nat>, ans: seq<Msg>)
    requires q > 0
  {
    && own <= t && |signers| == t + 1 && Round2Heard(ans, t)
    && forall j :: 0 <= j < t ==> Reply2Ok(q, me, own, signers, ans, j)
  }

  function Alphas(q: int, t: nat, me: Signer, own: nat, signers: seq<nat>, ans: seq<Msg>): (s: seq<int>)
    requires q > 0 && Replies2Ok(q, t, me, own, signers, ans)
    ensures |s| == t
  {
    seq(t, j requires 0 <= j < t =>
      assert Reply2Ok(q, me, own, signers, ans, j);
      MtaAlpha(q, ans[j].mbGamma, me.file.key, me.rnd.k).value)
  }

  function Mius(q: int, t: nat, me: Signer, own: nat, signers: seq<nat>, ans: seq<Msg>): (s: seq<int>)
    requires q > 0 && Replies2Ok(q, t, me, own, signers, ans)
    ensures |s| == t
  {
    seq(t, j requires 0 <= j < t =>
      assert Reply2Ok(q, me, own, signers, ans, j);
      MtaAlpha(q, ans[j].mbW, me.file.key, me.rnd.k).value)
  }

  /** phase2_delta_i and phase2_sigma_i: the own product plus both kinds of additive shares. */
  function Phase2(k: int, own: int, alphas: seq<int>, betas: seq<int>): int {
    k * own + Sum(alphas) + Sum(betas)
  }

  function Next3(q: int, t: nat, me: Signer, own: nat, l2: Local2, ans: seq<Msg>): Option<Local3>
    requires q > 0
  {
    var signers := l2.l1.signers;
    if !Replies2Ok(q, t, me, own, signers, ans) then None
    else
      Some(Local3(
        l2,
        MbGammasOf(ans, t),
        Phase2(me.rnd.k, me.rnd.gamma, Alphas(q, t, me, own, signers, ans), l2.beta),
        Phase2(me.rnd.k, l2.l1.w, Mius(q, t, me, own, signers, ans), l2.ni)))
  }

  // ----------------------------------------------------------------------------------------------
  // Rounds 3 and 4: reconstruction of delta, and R
  // ----------------------------------------------------------------------------------------------

  datatype Local4 = Local4(l3: Local3, deltaInv: int)

  predicate DeltasHeard(ans: seq<Msg>, t: nat) {
    |ans| == t && forall j :: 0 <= j < t ==> ans[j].Delta?
  }

  function DeltasOf(ans: seq<Msg>, t: nat): (r: seq<int>)
    requires DeltasHeard(ans, t)
    ensures |r| == t && forall j :: 0 <= j < t ==> r[j] == ans[j].delta
  {
    seq(t, j requires 0 <= j < t => ans[j].delta)
  }

  /** phase3_reconstruct_delta: the inverse of the sum; zero has none. */
  function ReconstructDelta(q: int, deltas: seq<int>): Option<int>
    requires q > 0
  {
    if Cong(q, Sum(deltas), 0) then None else Some(Inv(q, Sum(deltas)))
  }

  function Next4(q: int, t: nat, me: Signer, own: nat, l3: Local3, ans: seq<Msg>): Option<Local4>
    requires q > 0
  {
    if !DeltasHeard(ans, t) || own > t then None
    else
      var deltaInv := ReconstructDelta(q, Rebuild(DeltasOf(ans, t), own, l3.delta));
      if deltaInv.None? then None else Some(Local4(l3, deltaInv.value))
  }

  /** R, the reduced x-coordinate r, and the share of s. */
  datatype Local5 = Local5(l4: Local4, R: Point, r: int, s: int)

  predicate DecommitsHeard(ans: seq<Msg>, t: nat) {
    |ans| == t && forall j :: 0 <= j < t ==> ans[j].Decommit?
  }

  function DecommitsOf(ans: seq<Msg>, t: nat): (r: seq<(Point, int)>)
    requires DecommitsHeard(ans, t)
    ensures |r| == t && forall j :: 0 <= j < t ==> r[j] == (ans[j].gGamma, ans[j].blind)
  {
    seq(t, j requires 0 <= j < t => (ans[j].gGamma, ans[j].blind))
  }

  function ProofsOf(mbs: seq<MessageB>): (r: seq<DLogProof>)
    ensures |r| == |mbs| && forall j :: 0 <= j < |mbs| ==> r[j] == mbs[j].bProof
  {
    seq(|mbs|, j requires 0 <= j < |mbs| => mbs[j].bProof)
  }

  function PointsIn(decoms: seq<(Point, int)>): (r: seq<Point>)
    ensures |r| == |decoms| && forall j :: 0 <= j < |decoms| ==> r[j] == decoms[j].0
  {
    seq(|decoms|, j requires 0 <= j < |decoms| => decoms[j].0)
  }

  /** phase4: checks the peers' decommitments against their commitments and proofs and sums them. */
  function Phase4(q: int, deltaInv: int, proofs: seq<DLogProof>, decoms: seq<(Point, int)>, bc1: seq<Com<Point>>): Option<Point>
    requires q > 0
  {
    if |proofs| != |decoms| || |bc1| != |decoms|
       || exists i :: 0 <= i < |decoms| && (!SamePoint(q, proofs[i].pk, decoms[i].0) || bc1[i] != Com(decoms[i].0, decoms[i].1))
    then None
    else Some(Times(SumPoints(PointsIn(decoms)), deltaInv))
  }

  function OwnDecommit(me: Signer): (Point, int) {
    (Base(me.rnd.gamma), me.rnd.blind1)
  }

  /** R from the peers' terms, the own slot being left out of the check, and the own term. */
  function ReconstructR(q: int, t: nat, me: Signer, own: nat, l4: Local4, ans: seq<Msg>): Option<Point>
    requires q > 0
  {
    var l2 := l4.l3.l2;
    if !DecommitsHeard(ans, t) || own > t || own >= |l2.bc1| then None
    else
      var decommitVec := Rebuild(DecommitsOf(ans, t), own, OwnDecommit(me));
      var R' := Phase4(q, l4.deltaInv, ProofsOf(l4.l3.recGamma), Remove(decommitVec, own), Remove(l2.bc1, own));
      if R'.None? then None else Some(Plus(R'.value, Times(decommitVec[own].0, l4.deltaInv)))
  }

  /** phase5_local_sig: the share of s. */
  function ShareOfS(message: int, k: int, r: int, sigma: int): int {
    message * k + r * sigma
  }

  function Next5(C: Curve, message: int, t: nat, me: Signer, own: nat, l4: Local4, ans: seq<Msg>): Option<Local5>
    requires C.q > 0
  {
    var R := ReconstructR(C.q, t, me, own, l4, ans);
    if R.None? then None
    else
      var x := XCoord(C, R.value);
      if x.None? then None
      else
        var r := x.value % C.q;
        Some(Local5(l4, R.value, r, ShareOfS(message, me.rnd.k, r, l4.l3.sigma)))
  }

  // ----------------------------------------------------------------------------------------------
  // Phase 5: the check of the shares of s before they are revealed
  // ----------------------------------------------------------------------------------------------

  /** Phase 5A: V = s R + l G, A = rho G, B = l A. */
  function OwnDecom5a(me: Signer, l5: Local5): Decom5a {
    var A := Base(me.rnd.rho);
    Decom5a(Plus(Times(l5.R, l5.s), Base(me.rnd.l)), A, Times(A, me.rnd.l), me.rnd.blind5a)
  }

  function Commit5aOf(d: Decom5a): Com<(Point, Point, Point)> {
    Com((d.V, d.A, d.B), d.blind)
  }

  function OwnOpen5a(me: Signer, l5: Local5): (m: Msg)
    ensures m.Open5a?
  {
    Open5a(OwnDecom5a(me, l5), ElGamalProof(l5.s, me.rnd.l), ProveDLog(me.rnd.rho))
  }

  predicate VerifyElGamal(q: int, proof: ElGamalProof, d: Decom5a, R: Point)
    requires q > 0
  {
    && SamePoint(q, d.V, Plus(Times(R, proof.s), Base(proof.l)))
    && SamePoint(q, d.B, Times(d.A, proof.l))
  }

  datatype Local6 = Local6(l5: Local5, com5a: seq<Com<(Point, Point, Point)>>)

  predicate Commits5aHeard(ans: seq<Msg>, t: nat) {
    |ans| == t && forall j :: 0 <= j < t ==> ans[j].Commit5a?
  }

  function Commits5aOf(ans: seq<Msg>, t: nat): (r: seq<Com<(Point, Point, Point)>>)
    requires Commits5aHeard(ans, t)
    ensures |r| == t && forall j :: 0 <= j < t ==> r[j] == ans[j].com5a
  {
    seq(t, j requires 0 <= j < t => ans[j].com5a)
  }

  function Next6(t: nat, me: Signer, own: nat, l5: Local5, ans: seq<Msg>): Option<Local6> {
    if !Commits5aHeard(ans, t) || own > t then None
    else Some(Local6(l5, Rebuild(Commits5aOf(ans, t), own, Commit5aOf(OwnDecom5a(me, l5)))))
  }

  datatype Local7 = Local7(l6: Local6, opens: seq<Msg>, decom5d: Decom5d)

  predicate Opens5aHeard(ans: seq<Msg>, t: nat) {
    |ans| == t && forall j :: 0 <= j < t ==> ans[j].Open5a?
  }

  function Decoms5a(opens: seq<Msg>): (r: seq<Decom5a>)
    requires forall i :: 0 <= i < |opens| ==> opens[i].Open5a?
    ensures |r| == |opens| && forall i :: 0 <= i < |opens| ==> r[i] == opens[i].decom5a
  {
    seq(|opens|, i requires 0 <= i < |opens| => opens[i].decom5a)
  }

  function VsOf(ds: seq<Decom5a>): (r: seq<Point>)
    ensures |r| == |ds| && forall i :: 0 <= i < |ds| ==> r[i] == ds[i].V
  {
    seq(|ds|, i requires 0 <= i < |ds| => ds[i].V)
  }

  function AsOf(ds: seq<Decom5a>): (r: seq<Point>)
    ensures |r| == |ds| && forall i :: 0 <= i < |ds| ==> r[i] == ds[i].A
  {
    seq(|ds|, i requires 0 <= i < |ds| => ds[i].A)
  }

  function BsOf(ds: seq<Decom5a>): (r: seq<Point>)
    ensures |r| == |ds| && forall i :: 0 <= i < |ds| ==> r[i] == ds[i].B
  {
    seq(|ds|, i requires 0 <= i < |ds| => ds[i].B)
  }

  function UsOf(ds: seq<Decom5d>): (r: seq<Point>)
    ensures |r| == |ds| && forall i :: 0 <= i < |ds| ==> r[i] == ds[i].u
  {
    seq(|ds|, i requires 0 <= i < |ds| => ds[i].u)
  }

  function TsOf(ds: seq<Decom5d>): (r: seq<Point>)
    ensures |r| == |ds| && forall i :: 0 <= i < |ds| ==> r[i] == ds[i].t
  {
    seq(|ds|, i requires 0 <= i < |ds| => ds[i].t)
  }

  /** phase5c on the peers' slices: U = (sum of all V - m G - r Y) rho, T = (sum of the peers' A) l. */
  function Phase5c(q: int, me: Signer, l5: Local5, message: int, opens: seq<Msg>, coms: seq<Com<(Point, Point, Point)>>, ownV: Point): Option<Decom5d>
    requires q > 0 && forall i :: 0 <= i < |opens| ==> opens[i].Open5a?
  {
    if |coms| != |opens|
       || exists i :: 0 <= i < |opens| &&
            !(coms[i] == Commit5aOf(opens[i].decom5a)
              && VerifyElGamal(q, opens[i].elGamal, opens[i].decom5a, l5.R)
              && VerifyDLog(q, opens[i].dlogRho))
    then None
    else
      var vs := SumPoints(VsOf(Decoms5a(opens)));
      var as_ := SumPoints(AsOf(Decoms5a(opens)));
      var v := Minus(Minus(Plus(ownV, vs), Base(message)), Times(me.file.ySum, l5.r));
      Some(Decom5d(Times(v, me.rnd.rho), Times(as_, me.rnd.l), me.rnd.blind5c))
  }

  function Next7(q: int, message: int, t: nat, me: Signer, own: nat, l6: Local6, ans: seq<Msg>): Option<Local7>
    requires q > 0
  {
    if !Opens5aHeard(ans, t) || own > t || own >= |l6.com5a| then None
    else
      var opens := Rebuild(ans, own, OwnOpen5a(me, l6.l5));
      assert Remove(opens, own) == ans;
      var d := Phase5c(q, me, l6.l5, message, Remove(opens, own), Remove(l6.com5a, own), OwnDecom5a(me, l6.l5).V);
      if d.None? then None else Some(Local7(l6, opens, d.value))
  }

  function Commit5cOf(d: Decom5d): Com<(Point, Point)> {
    Com((d.u, d.t), d.blind)
  }

  datatype Local8 = Local8(l7: Local7, com5c: seq<Com<(Point, Point)>>)

  predicate Commits5cHeard(ans: seq<Msg>, t: nat) {
    |ans| == t && forall j :: 0 <= j < t ==> ans[j].Commit5c?
  }

  function Commits5cOf(ans: seq<Msg>, t: nat): (r: seq<Com<(Point, Point)>>)
    requires Commits5cHeard(ans, t)
    ensures |r| == t && forall j :: 0 <= j < t ==> r[j] == ans[j].com5c
  {
    seq(t, j requires 0 <= j < t => ans[j].com5c)
  }

  function Next8(t: nat, me: Signer, own: nat, l7: Local7, ans: seq<Msg>): Option<Local8> {
    if !Commits5cHeard(ans, t) || own > t then None
    else Some(Local8(l7, Rebuild(Commits5cOf(ans, t), own, Commit5cOf(l7.decom5d))))
  }

  datatype Local9 = Local9(l8: Local8, s: int)

  predicate Opens5dHeard(ans: seq<Msg>, t: nat) {
    |ans| == t && forall j :: 0 <= j < t ==> ans[j].Open5d?
  }

  function Decoms5dOf(ans: seq<Msg>, t: nat): (r: seq<Decom5d>)
    requires Opens5dHeard(ans, t)
    ensures |r| == t && forall j :: 0 <= j < t ==> r[j] == ans[j].decom5d
  {
    seq(t, j requires 0 <= j < t => ans[j].decom5d)
  }

  /** phase5d on the full vectors: the sum of T and B is the sum of U. */
  function Phase5d(q: int, s: int, decoms: seq<Decom5d>, coms: seq<Com<(Point, Point)>>, decoms1: seq<Decom5a>): Option<int>
    requires q > 0
  {
    if |coms| != |decoms| || exists i :: 0 <= i < |decoms| && coms[i] != Commit5cOf(decoms[i]) then None
    else
      var ts := SumPoints(TsOf(decoms));
      var us := SumPoints(UsOf(decoms));
      var bs := SumPoints(BsOf(decoms1));
      if SamePoint(q, Minus(Plus(Plus(Base(1), ts), bs), us), Base(1)) then Some(s) else None
  }

  function Next9(q: int, t: nat, me: Signer, own: nat, l8: Local8, ans: seq<Msg>): Option<Local9>
    requires q > 0
  {
    var opens := l8.l7.opens;
    if !Opens5dHeard(ans, t) || own > t || |opens| != t + 1 || exists i :: 0 <= i <= t && !opens[i].Open5a? then None
    else
      var decoms := Rebuild(Decoms5dOf(ans, t), own, l8.l7.decom5d);
      var s := Phase5d(q, l8.l7.l6.l5.s, decoms, l8.com5c, Decoms5a(opens));
      if s.None? then None else Some(Local9(l8, s.value))
  }

  // ----------------------------------------------------------------------------------------------
  // The signature
  // ----------------------------------------------------------------------------------------------

  predicate SharesHeard(ans: seq<Msg>, t: nat) {
    |ans| == t && forall j :: 0 <= j < t ==> ans[j].SigShare?
  }

  function SigSharesOf(ans: seq<Msg>, t: nat): (r: seq<int>)
    requires SharesHeard(ans, t)
    ensures |r| == t && forall j :: 0 <= j < t ==> r[j] == ans[j].s
  {
    seq(t, j requires 0 <= j < t => ans[j].s)
  }

  /** output_signature: the sum of all shares of s, normalised and verified. */
  function OutputSignature(C: Curve, message: int, r: int, s: int, peers: seq<int>, y: Point): (sig: Option<Signature>)
    requires C.q > 0
    ensures sig.Some? ==> 1 <= sig.value.r < C.q && 1 <= sig.value.s < C.q && 2 * sig.value.s <= C.q
    ensures sig.Some? ==> EcdsaVerify(C, message, sig.value, y)
  {
    var sig := Normalized(C.q, r, (s + Sum(peers)) % C.q);
    if EcdsaVerify(C, message, sig, y) then Some(sig) else None
  }

  /** The final check: it hands the verifier the message in 32 bytes and the signature in 64, and
      panics on a message that needs more. */
  predicate CheckSig(C: Curve, message: nat, sig: Signature, y: Point)
    requires C.q > 0
  {
    && 0 <= sig.r && 0 <= sig.s && Bytes32(message).Some? && Compact(sig.r, sig.s).Some?
    && var parsed := ParseCompact(Compact(sig.r, sig.s).value);
       parsed.Some? && EcdsaVerify(C, FromBytes(Bytes32(message).value), Signature(parsed.value.0, parsed.value.1), y)
  }

  /** The final check is signature verification of messages below 2^256. */
  lemma CheckSigIs(C: Curve, message: nat, sig: Signature, y: Point)
    requires 0 < C.q < TWO_TO_THE_256
    ensures CheckSig(C, message, sig, y) <==> message < TWO_TO_THE_256 && EcdsaVerify(C, message, sig, y)
  {
    Bytes32RoundTrip(message);
    if 0 <= sig.r && 0 <= sig.s {
      CompactRoundTrip(sig.r, sig.s);
    }
  }

  /** The last local computation. */
  function Finish(C: Curve, message: nat, t: nat, me: Signer, own: nat, l9: Local9, ans: seq<Msg>): Option<Signature>
    requires C.q > 0
  {
    if !SharesHeard(ans, t) || own > t then None
    else
      var l5 := l9.l8.l7.l6.l5;
      var sVec := Rebuild(SigSharesOf(ans, t), own, l9.s);
      var sig := OutputSignature(C, message, l5.r, l5.s, Remove(sVec, own), me.file.ySum);
      if sig.None? || !CheckSig(C, message, sig.value, me.file.ySum) then None else sig
  }
}
