/** What the signers hold in the middle of a run, in every interleaving. */
module SignInvariants {
  import opened Wrappers
  import opened Modular
  import opened Slots
  import opened Library
  import opened KeyFiles
  import opened Signing
  import opened SignRun
  import opened MtaSums
  import opened SignProof
  import opened SignPhases
  import opened SignRounds
  import opened SignTheorem
  import opened Machines
  import R = Rounds

  lemma ListOfSigners(S: Setup, D: Dealing, w: nat -> int, a: nat)
    requires |S.signers| > 0 && Honest(S, D)
    ensures E1(S, w, a).signers == Zero(S)
    ensures forall b :: 0 <= b < |S.signers| ==> Zero(S)[b] == S.signers[b].file.partyId - 1
    ensures forall b, c :: 0 <= b < c < |S.signers| ==> Zero(S)[b] != Zero(S)[c]
  {
  }

  /** Every signer past round 0 has the same list of signers: without duplicates, and with the keygen
      index of the owner in every slot, the own one included. */
  lemma SignersAgree(S: Setup, D: Dealing, schedule: seq<nat>, a: nat)
    requires S.C.q > 0 && |S.signers| == S.t + 1 && Honest(S, D) && R.WellFormed(SignProtocol(S)) && a < |S.signers|
    ensures |R.Run(SignProtocol(S), schedule).parties| == |S.signers|
    ensures
      var heard := R.Run(SignProtocol(S), schedule).parties[a].heard;
      |heard| >= 1 ==>
        && StateAfter(SignMachine(S), a, heard[..1]) == Some(At1(E1(S, W(S), a)))
        && E1(S, W(S), a).signers == Zero(S)
    ensures forall b :: 0 <= b < |S.signers| ==> Zero(S)[b] == S.signers[b].file.partyId - 1
    ensures forall b, c :: 0 <= b < c < |S.signers| ==> Zero(S)[b] != Zero(S)[c]
  {
    hide After, Moves, Aligned, StateAfter, W, Honest, E1;
    ListOfSigners(S, D, W(S), a);
    HonestAligned(S, D);
    var start := (b: nat) => At0;
    AtStart(SignMachine(S), start);
    forall b | 0 <= b < |S.signers|
      ensures Moves(SignMachine(S), start(b), Msg0(S), St1(S, W(S))(b), b)
    {
      Moves0(S, W(S), Secret(D), b);
    }
    BroadcastRound(SignMachine(S), 0, start, Msg0(S), St1(S, W(S)));
    StateAtRound(SignMachine(S), 1, St1(S, W(S)), schedule, a);
  }

  /** Every signer past round 2 holds its shares of delta and sigma, and over all signers these add up
      to the products of sums: no share has been sent to, or decoded by, the wrong signer. */
  lemma SharesInEveryRun(S: Setup, D: Dealing, schedule: seq<nat>, a: nat)
    requires S.C.q > 0 && |S.signers| == S.t + 1 && Honest(S, D) && R.WellFormed(SignProtocol(S)) && a < |S.signers|
    ensures |R.Run(SignProtocol(S), schedule).parties| == |S.signers|
    ensures
      var heard := R.Run(SignProtocol(S), schedule).parties[a].heard;
      |heard| >= 3 ==>
        var l := StateAfter(SignMachine(S), a, heard[..3]);
        && l.Some? && l.value.At3?
        && l.value.l3.delta == DeltaShares(S)(a) && l.value.l3.sigma == SigmaShares(S, W(S))(a)
    ensures SumTo(|S.signers|, DeltaShares(S)) == KSum(S) * GammaSum(S)
    ensures Cong(S.C.q, SumTo(|S.signers|, SigmaShares(S, W(S))), KSum(S) * Secret(D))
  {
    hide After, Aligned, StateAfter, Cong, Honest, E2, DeltaShares, SigmaShares;
    HonestAligned(S, D);
    To3(S, W(S), Secret(D));
    StateAtRound(SignMachine(S), 3, St3(L3s(S, W(S))), schedule, a);
    SharesAddUp(S, W(S));
    WeightsAreTheKey(S, D);
    ScaleCong(S.C.q, KSum(S), SumTo(|S.signers|, W(S)), Secret(D));
  }

  /** The checks on the replies never fail: no signer panics before it has sent its delta. */
  lemma RepliesAlwaysPass(S: Setup, D: Dealing, schedule: seq<nat>, a: nat)
    requires S.C.q > 0 && |S.signers| == S.t + 1 && Honest(S, D) && R.WellFormed(SignProtocol(S)) && a < |S.signers|
    ensures |R.Run(SignProtocol(S), schedule).parties| == |S.signers|
    ensures
      var p := R.Run(SignProtocol(S), schedule).parties[a];
      |p.heard| <= 3 ==> !p.stage.Crashed?
  {
    hide After, Aligned, Honest, E3;
    HonestAligned(S, D);
    To3(S, W(S), Secret(D));
    NoPanicUpTo(SignMachine(S), 3, St3(L3s(S, W(S))), schedule, a);
  }

  /** R and r in the view, and who reaches round 5 with them. */
  ghost predicate RKnown(S: Setup, X: View)
    requires S.C.q > 0 && |S.signers| > 0
  {
    && X.R == Point(GammaSum(S) * Inv(S.C.q, KSum(S) * GammaSum(S)))
    && X.R.e % S.C.q == Nonce(S) % S.C.q && X.r == NonceX(S)
  }

  lemma ReachesR(S: Setup, w: nat -> int, y: int) returns (X: View)
    requires S.C.Valid() && Aligned(S, w, y) && Cong(S.C.q, SumTo(|S.signers|, w), y) && |S.signers| == S.t + 1
    ensures Heard(SignMachine(S), 5) == None || (After(SignMachine(S), 5, St5(X)) && RKnown(S, X))
  {
    hide Aligned, LocalFacts, After, R.Completes, AllBring, NobodyFinishes, RKnown, NonceX;
    X := ViewFacts(S, w, y);
    Bring(S, w, y, X);
    To3(S, w, y);
    L3Agrees(S, w, X);
    SharesAddUp(S, w);
    To4(S, y, X);
    if !Cong(S.C.q, KSum(S) * GammaSum(S), 0) {
      ViewAlgebra(S, w, y, X);
      RIsHolds(S, y, X);
      To5(S, y, X);
      KnowsR(S, X);
    }
  }

  lemma KnowsR(S: Setup, X: View)
    requires S.C.q > 0 && |S.signers| > 0
    requires X.deltaInv == Inv(S.C.q, KSum(S) * GammaSum(S)) && X.R == Point(GammaSum(S) * X.deltaInv)
    requires X.R.e % S.C.q == Nonce(S) % S.C.q && X.r == NonceX(S)
    ensures RKnown(S, X)
  {
  }

  lemma CurveOf(S: Setup, D: Dealing)
    requires Honest(S, D)
    ensures S.C.Valid()
  {
  }

  /** Every signer past round 4 holds the same R, the inverse of the sum of all k times the generator,
      whichever slot it has taken out and added back. */
  lemma SameR(S: Setup, D: Dealing, schedule: seq<nat>, a: nat)
    requires S.C.q > 0 && |S.signers| == S.t + 1 && Honest(S, D) && R.WellFormed(SignProtocol(S)) && a < |S.signers|
    ensures |R.Run(SignProtocol(S), schedule).parties| == |S.signers|
    ensures
      var heard := R.Run(SignProtocol(S), schedule).parties[a].heard;
      |heard| >= 5 ==>
        var l := StateAfter(SignMachine(S), a, heard[..5]);
        && l.Some? && l.value.At5?
        && l.value.l5.R == Point(GammaSum(S) * Inv(S.C.q, KSum(S) * GammaSum(S)))
        && SamePoint(S.C.q, l.value.l5.R, Base(Nonce(S))) && l.value.l5.r == NonceX(S)
  {
    hide After, Honest, StateAfter, NonceX, Nonce, KSum, GammaSum, Aligned, Secret;
    HonestAligned(S, D);
    WeightsAreTheKey(S, D);
    CurveOf(S, D);
    var X := ReachesR(S, W(S), Secret(D));
    StateAtRound(SignMachine(S), 5, St5(X), schedule, a);
    var heard := R.Run(SignProtocol(S), schedule).parties[a].heard;
    if |heard| >= 5 {
      R.RunAgreesWithReference(SignProtocol(S), schedule, a);
      R.SyncEarlier(SignProtocol(S), 5, |heard|);
    }
  }
}
