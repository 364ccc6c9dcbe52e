/** The main results on signing: the t + 1 signers compute the signature that a single holder of the
    key would compute, in every interleaving. */
module SignTheorem {
  import opened Wrappers
  import opened Modular
  import opened Slots
  import opened Library
  import opened KeyFiles
  import opened Signing
  import opened Codec
  import opened SignRun
  import opened Ecdsa
  import opened MtaSums
  import opened SignProof
  import opened SignPhases
  import opened SignRounds
  import opened Machines
  import opened Schedules
  import R = Rounds

  // ----------------------------------------------------------------------------------------------
  // The algebra
  // ----------------------------------------------------------------------------------------------

  /** The signers' shares of delta and of sigma add up to the products of the sums. */
  lemma SharesAddUp(S: Setup, w: nat -> int)
    requires |S.signers| > 0
    ensures SumTo(|S.signers|, DeltaShares(S)) == KSum(S) * GammaSum(S)
    ensures SumTo(|S.signers|, SigmaShares(S, w)) == KSum(S) * SumTo(|S.signers|, w)
  {
    SharesSumToProduct(|S.signers|, K(S), Gamma(S), GTag(S));
    SharesSumToProduct(|S.signers|, K(S), w, WTag(S));
  }

  lemma SSharesAddUp(S: Setup, w: nat -> int, X: View)
    requires S.C.q > 0 && |S.signers| > 0 && forall a :: 0 <= a < |S.signers| ==> LocalFacts(S, w, X, a)
    ensures SumTo(|S.signers|, X.s) == S.message * KSum(S) + X.r * (KSum(S) * SumTo(|S.signers|, w))
  {
    forall a | 0 <= a < |S.signers|
      ensures X.s(a) == S.message * K(S)(a) + X.r * SigmaShares(S, w)(a)
    {
      assert LocalFacts(S, w, X, a);
    }
    SumLinear(|S.signers|, S.message, K(S), X.r, SigmaShares(S, w), X.s);
    SharesAddUp(S, w);
  }

  /** R = gamma / (k gamma) is the inverse of k. */
  lemma RIsInverse(q: int, k: int, gamma: int)
    requires Prime(q) && !Cong(q, k * gamma, 0)
    ensures !Cong(q, k, 0) && !Cong(q, gamma, 0)
    ensures Cong(q, k * (gamma * Inv(q, k * gamma)), 1)
    ensures Cong(q, gamma * Inv(q, k * gamma), Inv(q, k))
    ensures !Cong(q, gamma * Inv(q, k * gamma), 0) && !Cong(q, Inv(q, k), 0)
  {
    var i := Inv(q, k * gamma);
    InvCorrect(q, k * gamma);
    Associate(k, gamma, i);
    InvUnique(q, k, gamma * i);
    InvUnique(q, gamma * i, k);
    NonzeroProduct(q, k, gamma);
  }

  lemma Associate(a: int, b: int, c: int)
    ensures a * (b * c) == a * b * c && b * c * a == a * (b * c)
  {
  }

  /** With R = 1/k and s = m k + r k w, where w is the key y up to congruence: R s = m + r y, and s is
      what a single holder of y computes. */
  lemma SEquation(q: int, m: int, r: int, k: int, w: int, y: int, rLog: int, s: int)
    requires Prime(q) && Cong(q, k * rLog, 1) && Cong(q, w, y) && s == m * k + r * (k * w)
    ensures Cong(q, rLog * s, m + r * y)
    ensures Cong(q, s, k * (m + r * y))
    ensures Cong(q, s, 0) <==> Cong(q, m + r * y, 0)
  {
    var c := m + r * w;
    assert s == k * c by {
      Collect(m, r, k, w);
    }
    assert Cong(q, c, m + r * y) by {
      MulCong(q, r, r, w, y);
      AddCong(q, m, m, r * w, r * y);
    }
    MulCong(q, k, k, c, m + r * y);
    assert Cong(q, rLog * s, c) by {
      Associate(rLog, k, c);
      Associate(k, rLog, c);
      MulCong(q, k * rLog, 1, c, c);
      assert rLog * k == k * rLog;
    }
    InvUnique(q, k, rLog);
    NonzeroProduct(q, k, m + r * y);
  }

  lemma Collect(m: int, r: int, k: int, w: int)
    ensures m * k + r * (k * w) == k * (m + r * w)
  {
    assert k * (m + r * w) == k * m + k * (r * w);
    assert r * (k * w) == k * (r * w) by {
      assert r * (k * w) == (r * k) * w && k * (r * w) == (k * r) * w;
    }
  }

  /** The sum of all V without m G and r Y is the sum of all l. */
  lemma VSumIs(S: Setup, w: nat -> int, y: int, X: View)
    requires S.C.q > 0 && |S.signers| > 0 && SharedFacts(S, y, X)
    requires forall a :: 0 <= a < |S.signers| ==> LocalFacts(S, w, X, a)
    requires Cong(S.C.q, X.R.e * SumTo(|S.signers|, X.s), S.message + X.r * y)
    ensures Cong(S.C.q, X.vSum, SumTo(|S.signers|, Ell(S)))
  {
    var m, q, sSum, lSum := |S.signers|, S.C.q, SumTo(|S.signers|, X.s), SumTo(|S.signers|, Ell(S));
    forall a | 0 <= a < m
      ensures VLogs(X.ds)(a) == X.R.e * X.s(a) + 1 * Ell(S)(a)
    {
      assert LocalFacts(S, w, X, a);
    }
    SumLinear(m, X.R.e, X.s, 1, Ell(S), VLogs(X.ds));
    assert X.vSum == X.R.e * sSum - (S.message + X.r * y) + lSum by {
      assert y * X.r == X.r * y;
    }
    AddCong(q, X.R.e * sSum, S.message + X.r * y, S.message + X.r * y, S.message + X.r * y);
    AddCong(q, X.R.e * sSum - (S.message + X.r * y), 0, lSum, lSum);
  }

  lemma SlotBalance(S: Setup, w: nat -> int, X: View, a: nat)
    requires S.C.q > 0 && a < |S.signers| && LocalFacts(S, w, X, a)
    ensures ALogs(X.ds)(a) == Rho(S)(a) && BLogs(X.ds)(a) == Rho(S)(a) * Ell(S)(a)
    ensures ULogs(X.d2)(a) == X.vSum * Rho(S)(a)
    ensures TLogs(X.d2)(a) == (SumTo(|S.signers|, ALogs(X.ds)) - Rho(S)(a)) * Ell(S)(a)
  {
    hide GammaKnown, E3;
  }

  lemma PhaseFiveBalances(S: Setup, w: nat -> int, y: int, X: View)
    requires S.C.q > 0 && |S.signers| == S.t + 1 && SharedFacts(S, y, X)
    requires forall a :: 0 <= a < |S.signers| ==> LocalFacts(S, w, X, a)
    requires Cong(S.C.q, X.R.e * SumTo(|S.signers|, X.s), S.message + X.r * y)
    ensures Balanced(S.C.q, S.t, X)
  {
    hide LocalFacts, ALogs, BLogs, ULogs, TLogs, Balanced;
    VSumIs(S, w, y, X);
    forall a | 0 <= a < |S.signers|
      ensures ALogs(X.ds)(a) == Rho(S)(a) && BLogs(X.ds)(a) == Rho(S)(a) * Ell(S)(a)
      ensures ULogs(X.d2)(a) == X.vSum * Rho(S)(a)
      ensures TLogs(X.d2)(a) == (SumTo(|S.signers|, ALogs(X.ds)) - Rho(S)(a)) * Ell(S)(a)
    {
      SlotBalance(S, w, X, a);
    }
    SumExt(|S.signers|, ALogs(X.ds), Rho(S));
    assert PhaseFiveValues(S.t, X, Rho(S), Ell(S));
    Balance(S.C.q, S.t, X, Rho(S), Ell(S));
  }

  // ----------------------------------------------------------------------------------------------
  // The theorem on the reference execution
  // ----------------------------------------------------------------------------------------------

  /** The nonce of the run: the inverse of the sum of all k, which no signer holds. */
  ghost function Nonce(S: Setup): int
    requires S.C.q > 0 && |S.signers| > 0
  {
    Inv(S.C.q, KSum(S))
  }

  ghost function NonceX(S: Setup): int
    requires S.C.q > 0 && |S.signers| > 0
  {
    S.C.x(Nonce(S) % S.C.q) % S.C.q
  }

  /** The randomness and the message allow a signature under the key y. */
  ghost predicate Usable(S: Setup, y: int)
    requires S.C.q > 0 && |S.signers| > 0
  {
    && !Cong(S.C.q, KSum(S), 0) && !Cong(S.C.q, GammaSum(S), 0)
    && NonceX(S) != 0
    && !Cong(S.C.q, S.message + NonceX(S) * y, 0)
    && S.message < TWO_TO_THE_256
  }

  /** The algebraic facts about the view when delta is not zero. */
  lemma ViewAlgebra(S: Setup, w: nat -> int, y: int, X: View)
    requires S.C.Valid() && |S.signers| == S.t + 1 && SharedFacts(S, y, X)
    requires forall a :: 0 <= a < |S.signers| ==> LocalFacts(S, w, X, a)
    requires Cong(S.C.q, SumTo(|S.signers|, w), y)
    requires !Cong(S.C.q, KSum(S) * GammaSum(S), 0)
    ensures X.deltaInv == Inv(S.C.q, KSum(S) * GammaSum(S)) && X.R == Point(GammaSum(S) * X.deltaInv)
    ensures !Cong(S.C.q, X.R.e, 0) && X.R.e % S.C.q == Nonce(S) % S.C.q && X.r == NonceX(S)
    ensures var s := SumTo(|S.signers|, X.s);
      && Cong(S.C.q, X.R.e * s, S.message + X.r * y)
      && Cong(S.C.q, s, KSum(S) * (S.message + X.r * y))
      && (Cong(S.C.q, s, 0) <==> Cong(S.C.q, S.message + X.r * y, 0))
  {
    hide LocalFacts, Cong;
    SharesAddUp(S, w);
    SSharesAddUp(S, w, X);
    var q, k, g := S.C.q, KSum(S), GammaSum(S);
    RIsInverse(q, k, g);
    assert X.R.e % q == Nonce(S) % q by {
      CongIsEqualRemainder(q, X.R.e, Nonce(S));
    }
    SEquation(q, S.message, X.r, k, SumTo(|S.signers|, w), y, X.R.e, SumTo(|S.signers|, X.s));
  }

  lemma CongIsEqualRemainder(q: int, a: int, b: int)
    requires q > 0
    ensures Cong(q, a, b) <==> a % q == b % q
  {
  }

  /** The signature put together is the one a single key holder computes with the nonce of the run. */
  lemma SignatureIsEcdsa(q: int, m: int, r: int, y: int, k: int, s: int)
    requires Prime(q) && !Cong(q, k, 0) && Cong(q, s, k * (m + r * y))
    ensures s % q == Inv(q, Inv(q, k)) * (m + r * y) % q
  {
    InvCorrect(q, k);
    assert k * Inv(q, k) == Inv(q, k) * k;
    InvUnique(q, Inv(q, k), k);
    MulCong(q, k, Inv(q, Inv(q, k)), m + r * y, m + r * y);
  }

  lemma OutcomeIs(S: Setup, w: nat -> int, y: int, X: View)
    requires S.C.Valid() && |S.signers| == S.t + 1 && SharedFacts(S, y, X)
    requires forall a :: 0 <= a < |S.signers| ==> LocalFacts(S, w, X, a)
    requires Cong(S.C.q, SumTo(|S.signers|, w), y)
    requires !Cong(S.C.q, KSum(S) * GammaSum(S), 0)
    ensures Outcome(S, y, X) == if Usable(S, y) then Some(EcdsaSign(S.C, S.message, y, Nonce(S))) else None
    ensures Usable(S, y) ==> EcdsaVerify(S.C, S.message, EcdsaSign(S.C, S.message, y, Nonce(S)), Base(y))
  {
    hide LocalFacts, EcdsaVerify, Normalized;
    var q, s := S.C.q, SumTo(|S.signers|, X.s);
    ViewAlgebra(S, w, y, X);
    RIsInverse(q, KSum(S), GammaSum(S));
    EcdsaCorrect(S.C, S.message, y, X.R.e, s, X.r);
    SignatureIsEcdsa(q, S.message, X.r, y, KSum(S), s);
  }

  lemma Bring(S: Setup, w: nat -> int, y: int, X: View)
    requires Aligned(S, w, y)
    requires forall a :: 0 <= a < |S.signers| ==> LocalFacts(S, w, X, a)
    ensures AllBring(S, y, X)
  {
    hide PeerKnown, OwnWeight, GammaKnown, OwnD2;
    forall a | 0 <= a < |S.signers|
      ensures Brings(S, y, X, a)
    {
      assert LocalFacts(S, w, X, a);
    }
  }

  lemma L3Agrees(S: Setup, w: nat -> int, X: View)
    requires S.C.q > 0 && |S.signers| > 0 && After(SignMachine(S), 3, St3(L3s(S, w)))
    requires forall a :: 0 <= a < |S.signers| ==> LocalFacts(S, w, X, a)
    ensures After(SignMachine(S), 3, St3(X.l3))
  {
    hide GammaKnown, OwnD2, E3, StateAfter;
    forall a | 0 <= a < |S.signers|
      ensures X.l3(a) == L3s(S, w)(a)
    {
      assert LocalFacts(S, w, X, a);
    }
  }

  /** The reference execution completes exactly for usable randomness, and then every signer returns
      the signature a single holder of the key would compute. */
  lemma ReferenceSigns(S: Setup, w: nat -> int, y: int)
    requires S.C.Valid() && Aligned(S, w, y) && Cong(S.C.q, SumTo(|S.signers|, w), y) && |S.signers| == S.t + 1
    ensures R.Completes(SignProtocol(S)) <==> Usable(S, y)
    ensures R.Completes(SignProtocol(S)) || NobodyFinishes(SignMachine(S))
    ensures R.Completes(SignProtocol(S)) ==> After(SignMachine(S), ROUNDS, Ends(EcdsaSign(S.C, S.message, y, Nonce(S))))
    ensures Usable(S, y) ==> EcdsaVerify(S.C, S.message, EcdsaSign(S.C, S.message, y, Nonce(S)), Base(y))
  {
    hide Aligned, LocalFacts, After, EcdsaVerify, EcdsaSign, Balanced, Outcome, NonceX, R.Completes, AllBring, NobodyFinishes;
    var q := S.C.q;
    var X := ViewFacts(S, w, y);
    Bring(S, w, y, X);
    To3(S, w, y);
    L3Agrees(S, w, X);
    SharesAddUp(S, w);
    To4(S, y, X);
    NonzeroProduct(q, KSum(S), GammaSum(S));
    if !Cong(q, KSum(S) * GammaSum(S), 0) {
      ViewAlgebra(S, w, y, X);
      RIsHolds(S, y, X);
      To5(S, y, X);
      To7(S, y, X);
      PhaseFiveBalances(S, w, y, X);
      ToEnd(S, y, X);
      OutcomeIs(S, w, y, X);
    }
  }

  lemma RIsHolds(S: Setup, y: int, X: View)
    requires S.C.q > 0 && |S.signers| == S.t + 1 && SharedFacts(S, y, X) && !Cong(S.C.q, X.R.e, 0)
    ensures RIs(S, X)
  {
  }

  // ----------------------------------------------------------------------------------------------
  // Every interleaving
  // ----------------------------------------------------------------------------------------------

  /** The weights the signers compute add up to the private key. */
  lemma WeightsAreTheKey(S: Setup, D: Dealing)
    requires S.C.q > 0 && |S.signers| > 0 && Honest(S, D)
    ensures Cong(S.C.q, SumTo(|S.signers|, W(S)), Secret(D))
  {
    hide Cong, Secret;
    IdsAre(S, D);
    WeightsSumToSecret(S.C.q, D, Ids(S));
    SumExt(|S.signers|, W(S), Weights(S.C.q, D, Ids(S)));
  }

  lemma HonestReference(S: Setup, D: Dealing)
    requires S.C.q > 0 && |S.signers| == S.t + 1 && Honest(S, D)
    ensures R.Completes(SignProtocol(S)) <==> Usable(S, Secret(D))
    ensures R.Completes(SignProtocol(S)) || NobodyFinishes(SignMachine(S))
    ensures R.Completes(SignProtocol(S)) ==>
      && EcdsaVerify(S.C, S.message, EcdsaSign(S.C, S.message, Secret(D), Nonce(S)), Base(Secret(D)))
      && After(SignMachine(S), ROUNDS, Ends(EcdsaSign(S.C, S.message, Secret(D), Nonce(S))))
    ensures forall a :: 0 <= a < |S.signers| ==> S.signers[a].file.ySum == Base(Secret(D))
  {
    hide R.Completes, NobodyFinishes, EcdsaVerify, EcdsaSign, Usable, After, PeerKnown, OwnWeight;
    HonestAligned(S, D);
    WeightsAreTheKey(S, D);
    ReferenceSigns(S, W(S), Secret(D));
  }

  /** The signature equation for the nonce or its opposite, with the smaller s. */
  ghost predicate FromNonce(C: Curve, m: int, x: int, nonce: int, sig: Signature)
    requires C.q > 0
  {
    && 1 <= sig.r < C.q && 1 <= sig.s && 2 * sig.s <= C.q
    && sig.r == C.x(nonce % C.q) % C.q
    && (Cong(C.q, nonce * sig.s, m + sig.r * x) || Cong(C.q, -nonce * sig.s, m + sig.r * x))
  }

  lemma UsableSignature(S: Setup, D: Dealing)
    requires S.C.q > 0 && |S.signers| == S.t + 1 && Honest(S, D)
    ensures Usable(S, Secret(D)) ==> FromNonce(S.C, S.message, Secret(D), Nonce(S), EcdsaSign(S.C, S.message, Secret(D), Nonce(S)))
  {
    hide EcdsaSign, PeerKnown, OwnWeight, R.Completes, NobodyFinishes, Secret, KSum;
    if Usable(S, Secret(D)) {
      HonestReference(S, D);
      assert Cong(S.C.q, Nonce(S) * KSum(S), 1) by {
        InvCorrect(S.C.q, KSum(S));
        assert Nonce(S) * KSum(S) == KSum(S) * Nonce(S);
      }
      InvUnique(S.C.q, Nonce(S), KSum(S));
      SignatureShape(S.C, S.message, Secret(D), Nonce(S));
    }
  }

  /** Safety: in every interleaving of t + 1 honest signers, chosen in whatever way among the parties
      of one key generation, a signer that returns returns the one signature a single holder of the
      private key would compute with the nonce 1 / (the sum of all k), and it verifies under the
      public key in the signer's own key file. Its r is the reduced x-coordinate of the nonce, its s solves
      the signature equation for the nonce or its opposite, and is the smaller of the two that do. A
      signer can return only if the randomness is usable. */
  lemma EveryRunSigns(S: Setup, D: Dealing, schedule: seq<nat>, a: nat)
    requires S.C.q > 0 && |S.signers| == S.t + 1 && Honest(S, D) && R.WellFormed(SignProtocol(S)) && a < |S.signers|
    ensures |R.Run(SignProtocol(S), schedule).parties| == |S.signers|
    ensures
      var p := R.Run(SignProtocol(S), schedule).parties[a];
      p.stage.Done? ==>
        && Usable(S, Secret(D))
        && Result(S, a, p.heard) == Some(EcdsaSign(S.C, S.message, Secret(D), Nonce(S)))
        && EcdsaVerify(S.C, S.message, Result(S, a, p.heard).value, S.signers[a].file.ySum)
        && FromNonce(S.C, S.message, Secret(D), Nonce(S), Result(S, a, p.heard).value)
  {
    hide R.Completes, EcdsaVerify, EcdsaSign, Usable, Honest, After, NobodyFinishes, StateAfter, FromNonce;
    HonestReference(S, D);
    UsableSignature(S, D);
    DoneState(SignMachine(S), Ends(EcdsaSign(S.C, S.message, Secret(D), Nonce(S))), schedule, a);
  }

  /** Progress: in every fair interleaving all signers return exactly when the randomness is usable. */
  lemma FairSigningFinishes(S: Setup, D: Dealing, sweeps: seq<seq<nat>>)
    requires S.C.q > 0 && |S.signers| == S.t + 1 && Honest(S, D) && R.WellFormed(SignProtocol(S))
    requires |sweeps| >= R.Enough(SignProtocol(S))
    requires forall i :: 0 <= i < |sweeps| ==> R.Sweep(SignProtocol(S), sweeps[i])
    ensures R.AllDone(R.Run(SignProtocol(S), Concat(sweeps))) <==> Usable(S, Secret(D))
  {
    hide R.Completes, Usable, Honest, R.Sweep, R.AllDone, R.Enough, EcdsaVerify, NobodyFinishes, EcdsaSign;
    HonestReference(S, D);
    R.FairRunsFinish(SignProtocol(S), sweeps);
  }
}
