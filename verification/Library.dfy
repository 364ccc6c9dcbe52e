/** Contracts of the cryptographic library the protocols call: what honest values the primitives
    yield and which checks they make. A scalar is represented by any integer of its residue class
    modulo the prime group order, a point by any representative of its discrete logarithm; equality
    of scalars and points is congruence. Ciphertexts, commitments and proofs are symbolic terms, so a
    value routed to the wrong key, slot or statement is detected, not silently accepted. */
module Library {
  import opened Wrappers
  import opened Modular
  import opened Lagrange
  import opened Codec

  /** A curve group of order q; x is the x-coordinate of the point with a given discrete logarithm. */
  datatype Curve = Curve(q: int, x: int -> int) {
    /** The order is prime and fits 32 bytes; opposite points share their x-coordinate. */
    ghost predicate Valid() {
      && Prime(q)
      && q < TWO_TO_THE_256
      && (forall e :: 0 <= x(e) < TWO_TO_THE_256)
      && (forall e :: 0 < e < q ==> x(q - e) == x(e))
    }
  }

  /** The multiple e of the generator. */
  datatype Point = Point(e: int)

  predicate SamePoint(q: int, p: Point, r: Point)
    requires q > 0
  {
    Cong(q, p.e, r.e)
  }

  function Base(s: int): Point {
    Point(s)
  }

  function Times(p: Point, s: int): Point {
    Point(p.e * s)
  }

  function Plus(p: Point, r: Point): Point {
    Point(p.e + r.e)
  }

  function Minus(p: Point, r: Point): Point {
    Point(p.e - r.e)
  }

  function Logs(ps: seq<Point>): (s: seq<int>)
    ensures |s| == |ps| && forall i :: 0 <= i < |ps| ==> s[i] == ps[i].e
  {
    seq(|ps|, i requires 0 <= i < |ps| => ps[i].e)
  }

  function SumPoints(ps: seq<Point>): Point {
    Point(Sum(Logs(ps)))
  }

  /** The x-coordinate of a point; the point at infinity has none. */
  function XCoord(C: Curve, p: Point): Option<int>
    requires C.q > 0
  {
    if Cong(C.q, p.e, 0) then None else Some(C.x(p.e % C.q))
  }

  // ----------------------------------------------------------------------------------------------
  // Commitments and proofs
  // ----------------------------------------------------------------------------------------------

  /** A binding commitment: it opens only to the value and blinding factor it was made from. */
  datatype Com<+T> = Com(value: T, blind: int)

  datatype DLogProof = DLogProof(pk: Point, secret: int)

  function ProveDLog(s: int): DLogProof {
    DLogProof(Base(s), s)
  }

  predicate VerifyDLog(q: int, p: DLogProof)
    requires q > 0
  {
    SamePoint(q, p.pk, Base(p.secret))
  }

  // ----------------------------------------------------------------------------------------------
  // Feldman secret sharing
  // ----------------------------------------------------------------------------------------------

  datatype Vss = Vss(threshold: nat, shareCount: nat, commitments: seq<Point>)

  /** The share of the party with number i: the polynomial at i, as a reduced scalar. */
  function Share(q: int, poly: seq<int>, i: nat): int
    requires q > 0
  {
    Eval(poly, i) % q
  }

  function ShareVss(t: nat, n: nat, poly: seq<int>): Vss {
    Vss(t, n, seq(|poly|, k requires 0 <= k < |poly| => Base(poly[k])))
  }

  /** The commitment to the share of party i, computed from the commitments to the coefficients. */
  function CommitmentAt(vss: Vss, i: nat): Point {
    Point(Eval(Logs(vss.commitments), i))
  }

  predicate ValidateShare(q: int, vss: Vss, share: int, i: nat)
    requires q > 0
  {
    SamePoint(q, Base(share), CommitmentAt(vss, i))
  }

  /** The commitment to the final share of party i, from all the sharings. */
  function CommitmentToXi(vssVec: seq<Vss>, i: nat): Point {
    SumPoints(seq(|vssVec|, p requires 0 <= p < |vssVec| => CommitmentAt(vssVec[p], i)))
  }

  function CommitmentsToXi(vssVec: seq<Vss>): (cs: seq<Point>)
    ensures |cs| == |vssVec|
  {
    seq(|vssVec|, i requires 0 <= i < |vssVec| => CommitmentToXi(vssVec, i + 1))
  }

  /** The evaluation points of a list of zero-based party indices. */
  function PointsOf(signers: seq<nat>): (xs: seq<int>)
    ensures |xs| == |signers| && forall i :: 0 <= i < |signers| ==> xs[i] == signers[i] + 1
  {
    seq(|signers|, i requires 0 <= i < |signers| => signers[i] + 1)
  }

  function IndexOf(s: seq<nat>, v: nat): (i: nat)
    ensures i <= |s| && (i < |s| ==> s[i] == v)
    ensures v in s ==> i < |s|
  {
    if |s| == 0 || s[0] == v then 0 else 1 + IndexOf(s[1..], v)
  }

  /** The Lagrange coefficient of the party with zero-based index `index` among the signers. */
  function MapShare(q: int, index: nat, signers: seq<nat>): Option<int>
    requires q > 0
  {
    var i := IndexOf(signers, index);
    if i < |signers| then Some(Lambda(q, PointsOf(signers), i)) else None
  }

  // ----------------------------------------------------------------------------------------------
  // Multiplicative-to-additive conversion over Paillier keys, a key pair being known by its number
  // ----------------------------------------------------------------------------------------------

  datatype Cipher = Cipher(ek: nat, plain: int) | Garbage

  datatype MessageA = MessageA(c: Cipher)

  datatype MessageB = MessageB(c: Cipher, bProof: DLogProof, betaTagProof: DLogProof)

  function MtaA(k: int, ek: nat): MessageA {
    MessageA(Cipher(ek, k))
  }

  /** The reply to message A with the secret b under the key ek; it makes sense only if ek is the key
      the message was encrypted with. */
  function MtaB(b: int, ek: nat, a: MessageA, tag: int): MessageB {
    MessageB(
      if a.c.Cipher? && a.c.ek == ek then Cipher(ek, a.c.plain * b + tag) else Garbage,
      ProveDLog(b), ProveDLog(tag))
  }

  /** The additive share the sender of a reply keeps. */
  function MtaBeta(tag: int): int {
    -tag
  }

  /** Decrypts the peer's reply and checks it against the proofs and the own secret k. */
  function MtaAlpha(q: int, m: MessageB, dk: nat, k: int): Option<int>
    requires q > 0
  {
    if m.c.Cipher? && m.c.ek == dk
       && VerifyDLog(q, m.bProof) && VerifyDLog(q, m.betaTagProof)
       && SamePoint(q, Base(m.c.plain), Plus(Times(m.bProof.pk, k), m.betaTagProof.pk))
    then Some(m.c.plain)
    else None
  }

  /** The two parties end up with additive shares of the product of their secrets. */
  lemma MtaShares(q: int, k: int, b: int, ek: nat, tag: int)
    requires q > 0
    ensures MtaAlpha(q, MtaB(b, ek, MtaA(k, ek), tag), ek, k) == Some(k * b + tag)
    ensures MtaB(b, ek, MtaA(k, ek), tag).bProof.pk == Base(b)
    ensures k * b + tag + MtaBeta(tag) == k * b
  {
    assert k * b == b * k;
  }

  /** A reply made for another key is rejected. */
  lemma MtaWrongKey(q: int, k: int, b: int, ek: nat, ek': nat, tag: int)
    requires q > 0 && ek != ek'
    ensures MtaAlpha(q, MtaB(b, ek', MtaA(k, ek), tag), ek, k) == None
  {
  }

  // ----------------------------------------------------------------------------------------------
  // ECDSA
  // ----------------------------------------------------------------------------------------------

  datatype Signature = Signature(r: int, s: int)

  /** Signature verification, section 4.1.4 of SEC 1 version 2.0, with the hash given as a number. */
  predicate EcdsaVerify(C: Curve, m: int, sig: Signature, y: Point)
    requires C.q > 0
  {
    && 1 <= sig.r < C.q && 1 <= sig.s < C.q
    && var w := Inv(C.q, sig.s);
       var x := XCoord(C, Plus(Base(m * w), Times(y, sig.r * w)));
       x.Some? && x.value % C.q == sig.r
  }

  /** The signature with the smaller of s and -s. */
  function Normalized(q: int, r: int, s: int): Signature {
    if s > q - s then Signature(r, q - s) else Signature(r, s)
  }

  /** What a single holder of the private key x would sign with a nonce, section 4.1.3 of SEC 1
      version 2.0, in normalised form. */
  function EcdsaSign(C: Curve, m: int, x: int, nonce: int): Signature
    requires C.q > 0
  {
    var r := C.x(nonce % C.q) % C.q;
    Normalized(C.q, r, Inv(C.q, nonce) * (m + r * x) % C.q)
  }

  lemma OppositePoint(q: int, a: int, b: int)
    requires q > 0 && Cong(q, a, -b) && !Cong(q, b, 0)
    ensures a % q == q - b % q && 0 < b % q < q
  {
    MultipleVanishes(q, -(b / q) - 1, q - b % q);
    assert b == q * (b / q) + b % q;
    assert (-(b / q) - 1) * q == -(q * (b / q)) - q;
    SmallMod(q - b % q, q);
  }

  lemma SmallScalar(q: int, s: int)
    requires q > 0 && 0 <= s < q
    ensures Cong(q, s, 0) <==> s == 0
    ensures Cong(q, q - s, -s)
  {
    SmallMod(s, q);
    SmallMod(0, q);
    MultipleVanishes(q, 1, -s);
  }

  /** The point recomputed by verification is R or its opposite, whichever of s and -s is used. */
  lemma VerificationPoint(q: int, m: int, y: int, r: int, rLog: int, s: int, s': int)
    requires q > 0 && Prime(q) && Cong(q, rLog * s, m + r * y) && !Cong(q, s', 0)
    ensures Cong(q, s', s) ==> Cong(q, m * Inv(q, s') + y * (r * Inv(q, s')), rLog)
    ensures Cong(q, s', -s) ==> Cong(q, m * Inv(q, s') + y * (r * Inv(q, s')), -rLog)
  {
    hide Cong, Inv, Prime;
    InvCorrect(q, s');
    if Cong(q, s', s) {
      RecomputedPoint(q, m, y, r, rLog, s, s', Inv(q, s'));
    }
    if Cong(q, s', -s) {
      assert -rLog * -s == rLog * s;
      RecomputedPoint(q, m, y, r, -rLog, -s, s', Inv(q, s'));
    }
  }

  lemma RecomputedPoint(q: int, m: int, y: int, r: int, rLog: int, s: int, s': int, w: int)
    requires q > 0 && Cong(q, rLog * s, m + r * y) && Cong(q, s', s) && Cong(q, s' * w, 1)
    ensures Cong(q, m * w + y * (r * w), rLog)
  {
    hide Cong;
    CongReflexive(q, w);
    CongReflexive(q, rLog);
    MulCong(q, rLog * s, m + r * y, w, w);
    MulCong(q, s', s, w, w);
    CongSymmetric(q, s' * w, s * w);
    CongChain(q, s * w, s' * w, 1);
    MulCong(q, rLog, rLog, s * w, 1);
    RecomputedTerms(m, y, r, rLog, s, w);
    CongSymmetric(q, rLog * s * w, (m + r * y) * w);
    CongChain(q, (m + r * y) * w, rLog * s * w, rLog);
  }

  lemma RecomputedTerms(m: int, y: int, r: int, rLog: int, s: int, w: int)
    ensures m * w + y * (r * w) == (m + r * y) * w
    ensures rLog * s * w == rLog * (s * w)
  {
    assert y * (r * w) == r * y * w;
  }

  lemma NormalizedScalar(q: int, r: int, s: int)
    requires q > 0
    ensures Cong(q, s, 0) ==> Normalized(q, r, s % q).s == 0
    ensures !Cong(q, s, 0) ==> 1 <= Normalized(q, r, s % q).s < q && !Cong(q, Normalized(q, r, s % q).s, 0)
    ensures Cong(q, Normalized(q, r, s % q).s, s) || Cong(q, Normalized(q, r, s % q).s, -s)
  {
    hide Cong;
    var c := s % q;
    assert 0 <= c < q && Cong(q, c, s) && (Cong(q, s, 0) <==> c == 0) by {
      Remainder(q, s);
    }
    SmallScalar(q, c);
    assert Cong(q, -c, -s) by {
      AddCong(q, 0, 0, c, s);
    }
    CongChain(q, q - c, -c, -s);
    if c > 0 {
      SmallScalar(q, q - c);
    }
  }

  lemma Remainder(q: int, s: int)
    requires q > 0
    ensures 0 <= s % q < q && Cong(q, s % q, s) && Cong(q, 0, 0) && (Cong(q, s, 0) <==> s % q == 0)
  {
    SmallMod(0, q);
    Reduced(q, s);
  }

  lemma SameX(C: Curve, e: int, rLog: int)
    requires C.Valid() && !Cong(C.q, rLog, 0) && (Cong(C.q, e, rLog) || Cong(C.q, e, -rLog))
    ensures XCoord(C, Point(e)) == Some(C.x(rLog % C.q))
  {
    SmallMod(0, C.q);
    if !Cong(C.q, e, rLog) {
      OppositePoint(C.q, e, rLog);
    }
  }

  /** With R s = m + r y and r the x-coordinate of R, the normalised signature verifies under the key y
      exactly when neither r nor s is zero. */
  lemma EcdsaCorrect(C: Curve, m: int, y: int, rLog: int, s: int, r: int)
    requires C.Valid() && !Cong(C.q, rLog, 0) && r == C.x(rLog % C.q) % C.q
    requires Cong(C.q, rLog * s, m + r * y)
    ensures EcdsaVerify(C, m, Normalized(C.q, r, s % C.q), Base(y)) <==> r != 0 && !Cong(C.q, s, 0)
  {
    var s' := Normalized(C.q, r, s % C.q).s;
    NormalizedScalar(C.q, r, s);
    Reduced(C.q, C.x(rLog % C.q));
    if !Cong(C.q, s, 0) {
      var w := Inv(C.q, s');
      VerificationPoint(C.q, m, y, r, rLog, s, s');
      SameX(C, m * w + y * (r * w), rLog);
    }
  }
}
