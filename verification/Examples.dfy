/** Concrete honest runs: one that signs, and the inputs on which honest runs fail. */
module Examples {
  import opened Modular
  import opened Library
  import opened KeyFiles
  import opened Codec
  import opened Ecdsa
  import R = Rounds
  import G = Keygen
  import GT = KeygenTheorem
  import Signing
  import SignRun
  import SP = SignProof
  import ST = SignTheorem
  import SignKeys

  /** A group of order seven in which all points have the x-coordinate one. */
  function SmallCurve(): Curve {
    Curve(7, (e: int) => 1)
  }

  lemma SmallCurveIsValid()
    ensures SmallCurve().Valid()
  {
  }

  function Ones(): Signing.Nonces {
    var one := (j: nat) => 1;
    Signing.Nonces(1, 1, one, one, 1, 1, 1, 1, 1)
  }

  /** Three parties with the secrets 1, 2 and 3, of which any two can sign. */
  function ThreeParties(): Dealing {
    Dealing(1, [[1, 4], [2, 5], [3, 6]], [0, 1, 2])
  }

  /** The third and the first of them sign, in this order. */
  function TwoSigners(message: nat): SignRun.Setup {
    var file := (p: nat) requires p < 3 => FileOf(7, ThreeParties(), p);
    SignRun.Setup(SmallCurve(), 1, message, [Signing.Signer(file(2), Ones()), Signing.Signer(file(0), Ones())], "", "uuid")
  }

  lemma TwoSignersAreHonest(message: nat)
    ensures SP.Honest(TwoSigners(message), ThreeParties()) && R.WellFormed(SignRun.SignProtocol(TwoSigners(message)))
  {
    SmallCurveIsValid();
  }

  /** All of them return in every fair run if the message is below 2^256 and not minus the key. */
  lemma TwoSignersSign(message: nat)
    ensures ST.Usable(TwoSigners(message), Secret(ThreeParties())) <==> message < TWO_TO_THE_256 && (message + 6) % 7 != 0
  {
    hide FileOf;
    var S, u := TwoSigners(message), Us(ThreeParties());
    assert SumTo(3, u) == SumTo(2, u) + u(2) == SumTo(1, u) + u(1) + u(2) == SumTo(0, u) + u(0) + u(1) + u(2) == 6;
    var k, g := SP.K(S), SP.Gamma(S);
    assert SumTo(2, k) == SumTo(1, k) + k(1) == SumTo(0, k) + k(0) + k(1) == 2;
    assert SumTo(2, g) == SumTo(1, g) + g(1) == SumTo(0, g) + g(0) + g(1) == 2;
  }

  /** A message that needs more than 32 bytes is never signed: in every interleaving of every honest run
      no signer returns, because the final check cannot pad it. */
  lemma LongMessageIsNotSigned(S: SignRun.Setup, D: Dealing, schedule: seq<nat>, a: nat)
    requires S.C.q > 0 && |S.signers| == S.t + 1 && SP.Honest(S, D) && R.WellFormed(SignRun.SignProtocol(S)) && a < |S.signers|
    requires S.message >= TWO_TO_THE_256
    ensures |R.Run(SignRun.SignProtocol(S), schedule).parties| == |S.signers|
    ensures !R.Run(SignRun.SignProtocol(S), schedule).parties[a].stage.Done?
  {
    hide SP.Honest, EcdsaSign, EcdsaVerify, SignRun.Result;
    ST.EveryRunSigns(S, D, schedule, a);
  }

  /** The smallest such message, for the two signers. */
  lemma LongMessageExample(schedule: seq<nat>)
    ensures |R.Run(SignRun.SignProtocol(TwoSigners(TWO_TO_THE_256)), schedule).parties| == 2
    ensures !R.Run(SignRun.SignProtocol(TwoSigners(TWO_TO_THE_256)), schedule).parties[0].stage.Done?
  {
    hide FileOf;
    TwoSignersAreHonest(TWO_TO_THE_256);
    LongMessageIsNotSigned(TwoSigners(TWO_TO_THE_256), ThreeParties(), schedule, 0);
  }

  /** A signature that the final check accepts for one message and rejects for another. */
  lemma WrongMessageIsRejected()
    ensures Signing.CheckSig(SmallCurve(), 3, Signature(1, 3), Base(6))
    ensures !Signing.CheckSig(SmallCurve(), 1, Signature(1, 3), Base(6))
  {
    SmallCurveIsValid();
    CheckSigExactly(SmallCurve(), 3, Signature(1, 3), 6);
    CheckSigExactly(SmallCurve(), 1, Signature(1, 3), 6);
    assert Solves(SmallCurve(), 3, 6, Signature(1, 3), 3);
    forall rLog
      ensures !Solves(SmallCurve(), 1, 6, Signature(1, 3), rLog)
    {
      NonzeroProduct(7, rLog, 3);
    }
  }

  /** Two parties of key generation of which the second drew u. */
  function TwoParts(u: int): G.Setup {
    G.Setup(SmallCurve(), 1, [G.Part([3, 4], 0, 1), G.Part([u, 5], 1, 1)], "", "uuid")
  }

  /** Key generation fails for everybody if one of two parties draws zero: there is no shared key. */
  lemma ZeroPartExample(schedule: seq<nat>, a: nat)
    requires a < 2
    ensures GT.Honest(TwoParts(0)) && |R.Run(G.KeygenProtocol(TwoParts(0)), schedule).parties| == 2
    ensures !R.Run(G.KeygenProtocol(TwoParts(0)), schedule).parties[a].stage.Done?
  {
    SmallCurveIsValid();
    assert TwoParts(0).parts[1].U() == 0;
    GT.EveryRunGeneratesKeys(TwoParts(0), schedule, a);
  }

  /** Of the two signers only one is there: the guard on the number of keys lets it through, and it never
      returns. */
  lemma OneKeyExample(message: nat, schedule: seq<nat>)
    requires forall a :: a in schedule ==> a < 1
    ensures |R.Run(SignRun.SignProtocol(TwoSigners(message)), schedule).parties| == 2
    ensures
      var p := R.Run(SignRun.SignProtocol(TwoSigners(message)), schedule).parties[0];
      p.heard == [] && !p.stage.Done? && !p.stage.Crashed?
  {
    hide FileOf;
    TwoSignersAreHonest(message);
    SignKeys.TooFewKeepPolling(TwoSigners(message), ThreeParties(), schedule, 0, 1);
  }
}
