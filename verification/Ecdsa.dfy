/** What a valid signature is, in terms of the signature equation. */
module Ecdsa {
  import opened Modular
  import opened Codec
  import opened Library
  import opened Signing

  /** The point with logarithm rLog solves the signature equation for the message m and the private key y,
      and r is its reduced x-coordinate. */
  ghost predicate Solves(C: Curve, m: int, y: int, sig: Signature, rLog: int)
    requires C.q > 0
  {
    !Cong(C.q, rLog, 0) && Cong(C.q, rLog * sig.s, m + sig.r * y) && C.x(rLog % C.q) % C.q == sig.r
  }

  lemma Reorder(m: int, r: int, y: int, w: int, s: int)
    ensures (m * w + y * (r * w)) * s == (m + r * y) * (s * w)
  {
    assert y * (r * w) == r * y * w;
    assert (m + r * y) * w == m * w + r * y * w;
    assert (m + r * y) * w * s == (m + r * y) * (s * w);
  }

  /** The point that verification recomputes solves the equation. */
  lemma RecomputedSolves(q: int, m: int, y: int, r: int, s: int)
    requires q > 0 && Prime(q) && !Cong(q, s, 0)
    ensures Cong(q, (m * Inv(q, s) + y * (r * Inv(q, s))) * s, m + r * y)
  {
    hide Cong, Inv, Prime;
    InvCorrect(q, s);
    Reorder(m, r, y, Inv(q, s), s);
    CongReflexive(q, m + r * y);
    MulCong(q, m + r * y, m + r * y, s * Inv(q, s), 1);
  }

  /** Verification accepts exactly the signatures in range for which the equation has a solution. */
  lemma VerifyExactly(C: Curve, m: int, sig: Signature, y: int)
    requires C.q > 0 && C.Valid()
    ensures EcdsaVerify(C, m, sig, Base(y)) <==>
      1 <= sig.r < C.q && 1 <= sig.s < C.q && exists rLog :: Solves(C, m, y, sig, rLog)
  {
    hide Inv, Prime;
    var q, w := C.q, Inv(C.q, sig.s);
    var e := m * w + y * (sig.r * w);
    if 1 <= sig.r < q && 1 <= sig.s < q {
      SmallScalar(q, sig.s);
      RecomputedSolves(q, m, y, sig.r, sig.s);
      if EcdsaVerify(C, m, sig, Base(y)) {
        assert Solves(C, m, y, sig, e);
      }
      if rLog :| Solves(C, m, y, sig, rLog) {
        CongReflexive(q, sig.s);
        VerificationPoint(q, m, y, sig.r, rLog, sig.s, sig.s);
        assert Cong(q, e, rLog);
      }
    }
  }

  /** The final check accepts exactly the messages below 2^256 with a signature in range for which the
      equation has a solution. */
  lemma CheckSigExactly(C: Curve, message: nat, sig: Signature, y: int)
    requires C.q > 0 && C.Valid()
    ensures CheckSig(C, message, sig, Base(y)) <==>
      && message < TWO_TO_THE_256
      && 1 <= sig.r < C.q && 1 <= sig.s < C.q && exists rLog :: Solves(C, message, y, sig, rLog)
  {
    hide CheckSig, EcdsaVerify, Solves;
    CheckSigIs(C, message, sig, Base(y));
    VerifyExactly(C, message, sig, y);
  }

  /** On a curve on which only opposite points share their x-coordinate, a signature of one message is
      accepted for another only if the two make the same or the opposite scalar with r and the key. */
  lemma OneMessagePerSignature(C: Curve, m: nat, m': nat, sig: Signature, y: int)
    requires C.q > 0 && C.Valid()
    requires forall a, b :: C.x(a % C.q) % C.q == C.x(b % C.q) % C.q ==> Cong(C.q, a, b) || Cong(C.q, a, -b)
    requires CheckSig(C, m, sig, Base(y)) && CheckSig(C, m', sig, Base(y))
    ensures Cong(C.q, m + sig.r * y, m' + sig.r * y) || Cong(C.q, m + sig.r * y, -(m' + sig.r * y))
  {
    hide CheckSig, Cong;
    CheckSigExactly(C, m, sig, y);
    CheckSigExactly(C, m', sig, y);
    var a :| Solves(C, m, y, sig, a);
    var b :| Solves(C, m', y, sig, b);
    SameUpToSign(C.q, a, b, sig.s, m + sig.r * y, m' + sig.r * y);
  }

  lemma SameUpToSign(q: int, a: int, b: int, s: int, c: int, d: int)
    requires q > 0 && (Cong(q, a, b) || Cong(q, a, -b)) && Cong(q, a * s, c) && Cong(q, b * s, d)
    ensures Cong(q, c, d) || Cong(q, c, -d)
  {
    CongReflexive(q, s);
    if Cong(q, a, b) {
      MulCong(q, a, b, s, s);
    } else {
      MulCong(q, a, -b, s, s);
      assert -b * s == -(b * s);
      AddCong(q, 0, 0, b * s, d);
    }
  }

  /** The signature a single key holder makes: the smaller of s and -s, for the x-coordinate of the nonce. */
  lemma SignatureShape(C: Curve, m: int, x: int, nonce: int)
    requires C.q > 0 && Prime(C.q) && !Cong(C.q, nonce, 0)
    ensures
      var sig := EcdsaSign(C, m, x, nonce);
      && 0 <= 2 * sig.s <= C.q
      && sig.r == C.x(nonce % C.q) % C.q
      && (Cong(C.q, nonce * sig.s, m + sig.r * x) || Cong(C.q, -nonce * sig.s, m + sig.r * x))
  {
    hide Inv, Prime;
    var q, sig := C.q, EcdsaSign(C, m, x, nonce);
    var s := Inv(q, nonce) * (m + sig.r * x);
    Reduced(q, s);
    NormalizedScalar(q, sig.r, s);
    InvCorrect(q, nonce);
    UndoInverse(q, nonce, Inv(q, nonce), m + sig.r * x, s, sig.s);
  }

  lemma UndoInverse(q: int, n: int, i: int, c: int, s: int, s': int)
    requires q > 0 && Cong(q, n * i, 1) && s == i * c && (Cong(q, s', s) || Cong(q, s', -s))
    ensures Cong(q, n * s', c) || Cong(q, -n * s', c)
  {
    hide Cong;
    CongReflexive(q, c);
    MulCong(q, n * i, 1, c, c);
    assert n * s == n * i * c by {
      ThreeFactors(n, i, c);
    }
    CongReflexive(q, n);
    CongReflexive(q, -n);
    if Cong(q, s', s) {
      MulCong(q, n, n, s', s);
      CongChain(q, n * s', n * s, c);
    } else {
      MulCong(q, -n, -n, s', -s);
      assert -n * -s == n * s;
      CongChain(q, -n * s', n * s, c);
    }
  }

  lemma ThreeFactors(a: int, b: int, c: int)
    ensures a * (b * c) == a * b * c
  {
  }
}
