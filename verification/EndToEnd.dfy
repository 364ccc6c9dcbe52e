/** Key generation followed by signing. */
module EndToEnd {
  import opened Wrappers
  import opened Library
  import opened KeyFiles
  import R = Rounds
  import G = Keygen
  import GT = KeygenTheorem
  import SignRun
  import SP = SignProof
  import ST = SignTheorem

  /** In a run of key generation the party in slot p has finished and saved the file. */
  ghost predicate Obtained(K: G.Setup, schedule: seq<nat>, p: nat, file: KeyFile)
    requires |K.parts| > 0
  {
    var parties := R.Run(G.KeygenProtocol(K), schedule).parties;
    p < |K.parts| && p < |parties| && parties[p].stage.Done? && G.Result(K, p, parties[p].heard) == Some(file)
  }

  /** The signers are t + 1 different parties of the run of key generation, in any order. */
  ghost predicate SignersFrom(K: G.Setup, schedule: seq<nat>, who: seq<nat>, S: SignRun.Setup)
    requires |K.parts| > 0
  {
    && S.C == K.C && S.t == K.t && |S.signers| == S.t + 1 == |who|
    && (forall a :: 0 <= a < |who| ==> Obtained(K, schedule, who[a], S.signers[a].file))
    && (forall a, b :: 0 <= a < b < |who| ==> who[a] != who[b])
  }

  lemma SignersAreHonest(K: G.Setup, schedule: seq<nat>, who: seq<nat>, S: SignRun.Setup)
    requires K.C.q > 0 && |K.parts| > 0 && GT.Honest(K) && R.WellFormed(G.KeygenProtocol(K)) && SignersFrom(K, schedule, who, S)
    ensures SP.Honest(S, GT.DealingOf(K))
  {
    hide GT.Usable, G.Result;
    GT.DealingIsValid(K);
    forall a | 0 <= a < |who|
      ensures S.signers[a].file == FileOf(K.C.q, GT.DealingOf(K), who[a])
    {
      assert Obtained(K, schedule, who[a], S.signers[a].file);
      GT.EveryRunGeneratesKeys(K, schedule, who[a]);
    }
  }

  /** Take any interleaving of key generation and any t + 1 of the parties that finished it, in any
      order, and any interleaving of their signing run. A signer that returns has an ECDSA signature
      of the message that verifies under the public key every party of key generation saved. */
  lemma KeygenThenSign(K: G.Setup, schedule: seq<nat>, who: seq<nat>, S: SignRun.Setup, schedule': seq<nat>, a: nat)
    requires K.C.q > 0 && |K.parts| > 0 && GT.Honest(K) && R.WellFormed(G.KeygenProtocol(K))
    requires SignersFrom(K, schedule, who, S) && R.WellFormed(SignRun.SignProtocol(S)) && a < |S.signers|
    ensures |R.Run(SignRun.SignProtocol(S), schedule').parties| == |S.signers|
    ensures
      var p := R.Run(SignRun.SignProtocol(S), schedule').parties[a];
      p.stage.Done? ==>
        && SignRun.Result(S, a, p.heard).Some? && 2 * SignRun.Result(S, a, p.heard).value.s <= S.C.q
        && forall b, file :: Obtained(K, schedule, b, file) ==> EcdsaVerify(S.C, S.message, SignRun.Result(S, a, p.heard).value, file.ySum)
  {
    hide EcdsaVerify, EcdsaSign, SignersFrom, GT.Honest, GT.Usable, SP.Honest, ST.Usable, SignRun.Result;
    SignersAreHonest(K, schedule, who, S);
    SameSetup(K, schedule, who, S);
    ST.EveryRunSigns(S, GT.DealingOf(K), schedule', a);
    forall b, file | Obtained(K, schedule, b, file)
      ensures file.ySum == S.signers[a].file.ySum
    {
      SameKey(K, schedule, b, file);
      SameKey(K, schedule, who[a], S.signers[a].file);
    }
  }

  lemma SameSetup(K: G.Setup, schedule: seq<nat>, who: seq<nat>, S: SignRun.Setup)
    requires |K.parts| > 0 && SignersFrom(K, schedule, who, S)
    ensures S.C == K.C && |S.signers| == S.t + 1 == |who|
    ensures forall a :: 0 <= a < |who| ==> Obtained(K, schedule, who[a], S.signers[a].file)
  {
  }

  lemma SameKey(K: G.Setup, schedule: seq<nat>, b: nat, file: KeyFile)
    requires K.C.q > 0 && |K.parts| > 0 && GT.Honest(K) && R.WellFormed(G.KeygenProtocol(K)) && Obtained(K, schedule, b, file)
    ensures file.ySum == Base(Secret(GT.DealingOf(K)))
  {
    hide GT.Usable, G.Result, GT.Honest;
    GT.EveryRunGeneratesKeys(K, schedule, b);
    PublicKeyIsSecret(K.C.q, GT.DealingOf(K), b);
  }
}
