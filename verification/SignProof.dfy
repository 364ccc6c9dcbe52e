/** The honest signing run, round by round: what every signer holds after each round, in closed form. */
module SignProof {
  import opened Wrappers
  import opened Modular
  import opened Lagrange
  import opened Slots
  import opened Library
  import opened KeyFiles
  import opened Signing
  import opened SignRun
  import opened MtaSums

  /** t + 1 different parties of one key generation, in any order, with their own key files. */
  ghost predicate Honest(S: Setup, D: Dealing) {
    && SignRun.WellFormed(S)
    && D.Valid(S.C.q) && D.t == S.t
    && (forall a :: 0 <= a < |S.signers| ==> 1 <= S.signers[a].file.partyId <= |D.polys|)
    && (forall a :: 0 <= a < |S.signers| ==> S.signers[a].file == FileOf(S.C.q, D, S.signers[a].file.partyId - 1))
    && (forall a, b :: 0 <= a < b < |S.signers| ==> S.signers[a].file.partyId != S.signers[b].file.partyId)
  }

  function Who(S: Setup, a: nat): Signer
    requires |S.signers| > 0
  {
    if a < |S.signers| then S.signers[a] else S.signers[0]
  }

  ghost function ZeroId(S: Setup): nat -> nat
    requires |S.signers| > 0
  {
    (b: nat) => if Who(S, b).file.partyId > 0 then Who(S, b).file.partyId - 1 else 0
  }

  /** The zero-based keygen indices of the signers. */
  ghost function Zero(S: Setup): (s: seq<nat>)
    requires |S.signers| > 0
    ensures |s| == |S.signers|
  {
    Table(|S.signers|, ZeroId(S))
  }

  ghost function Ids(S: Setup): (xs: seq<int>)
    requires |S.signers| > 0
    ensures |xs| == |S.signers|
  {
    PointsOf(Zero(S))
  }

  lemma IdsAre(S: Setup, D: Dealing)
    requires Honest(S, D)
    ensures forall a :: 0 <= a < |S.signers| ==> Ids(S)[a] == S.signers[a].file.partyId
    ensures Subset(D, Ids(S)) && Distinct(S.C.q, Ids(S))
  {
    SubsetDistinct(S.C.q, D, Ids(S));
  }

  // The random values of all signers, by slot

  ghost function K(S: Setup): nat -> int requires |S.signers| > 0 { (a: nat) => Who(S, a).rnd.k }
  ghost function Gamma(S: Setup): nat -> int requires |S.signers| > 0 { (a: nat) => Who(S, a).rnd.gamma }
  ghost function Ell(S: Setup): nat -> int requires |S.signers| > 0 { (a: nat) => Who(S, a).rnd.l }
  ghost function Rho(S: Setup): nat -> int requires |S.signers| > 0 { (a: nat) => Who(S, a).rnd.rho }
  ghost function GTag(S: Setup): (nat, nat) -> int requires |S.signers| > 0 { (a: nat, j: nat) => Who(S, a).rnd.gammaTag(j) }
  ghost function WTag(S: Setup): (nat, nat) -> int requires |S.signers| > 0 { (a: nat, j: nat) => Who(S, a).rnd.wTag(j) }

  ghost function W(S: Setup): nat -> int
    requires S.C.q > 0 && |S.signers| > 0
  {
    (a: nat) => if a < |S.signers| then Lambda(S.C.q, Ids(S), a) * Who(S, a).file.x else 0
  }

  /** The signer in slot a finds its coefficient, and w(a) is its weight. */
  ghost predicate OwnWeight(S: Setup, w: nat -> int, a: nat)
    requires S.C.q > 0 && a < |S.signers|
  {
    var file, lambda := S.signers[a].file, MapShare(S.C.q, Zero(S)[a], Zero(S));
    file.partyId >= 1 && Zero(S)[a] < |file.vss| && lambda.Some? && w(a) == lambda.value * file.x
  }

  /** What the signer in slot a knows about the one in slot b: its encryption key and its weight. */
  ghost predicate PeerKnown(S: Setup, w: nat -> int, a: nat, b: nat)
    requires S.C.q > 0 && a < |S.signers| && b < |S.signers|
  {
    var file, com := S.signers[a].file, WeightCom(S.C.q, S.signers[a].file.vss, Zero(S), b);
    && Zero(S)[b] < |file.eks| && file.eks[Zero(S)[b]] == S.signers[b].file.key
    && com.Some? && SamePoint(S.C.q, Base(w(b)), com.value)
  }

  /** The key files of the signers fit together, with weights w and public key y. */
  ghost predicate Aligned(S: Setup, w: nat -> int, y: int) {
    && S.C.q > 0 && |S.signers| == S.t + 1
    && (forall a :: 0 <= a < |S.signers| ==> OwnWeight(S, w, a))
    && (forall a, b :: 0 <= a < |S.signers| && 0 <= b < |S.signers| ==> PeerKnown(S, w, a, b))
    && (forall a :: 0 <= a < |S.signers| ==> S.signers[a].file.ySum == Base(y))
  }

  lemma {:induction false} IndexOfDistinct(s: seq<nat>, a: nat)
    requires a < |s| && forall i, j :: 0 <= i < j < |s| ==> s[i] != s[j]
    ensures IndexOf(s, s[a]) == a
  {
  }

  lemma MapShareAt(S: Setup, D: Dealing, a: nat)
    requires Honest(S, D) && a < |S.signers|
    ensures MapShare(S.C.q, Zero(S)[a], Zero(S)) == Some(Lambda(S.C.q, Ids(S), a))
  {
    IndexOfDistinct(Zero(S), a);
  }

  /** The check of a peer's weight will succeed: the commitments of key generation, the list of signers
      and the peer's own share all belong to the same party. */
  lemma WeightComCorrect(S: Setup, D: Dealing, a: nat, b: nat)
    requires Honest(S, D) && a < |S.signers| && b < |S.signers|
    ensures PeerKnown(S, W(S), a, b)
  {
    var lambda, p, v := Lambda(S.C.q, Ids(S), b), S.signers[b].file.partyId - 1, SumTo(|D.polys|, ValueAt(D, S.signers[b].file.partyId));
    WeightComValue(S, D, b);
    assert Cong(S.C.q, lambda * FileOf(S.C.q, D, p).x, v * lambda) by {
      ShareIsValue(S.C.q, D, p);
      ScaledCong(S.C.q, lambda, FileOf(S.C.q, D, p).x, v);
    }
  }

  lemma WeightComValue(S: Setup, D: Dealing, b: nat)
    requires S.C.q > 0 && Honest(S, D) && b < |S.signers|
    ensures WeightCom(S.C.q, VssVec(D), Zero(S), b)
         == Some(Times(Point(SumTo(|D.polys|, ValueAt(D, S.signers[b].file.partyId))), Lambda(S.C.q, Ids(S), b)))
  {
    hide MapShare, Lambda, VssVec, CommitmentToXi, Subset, Eval, Times;
    var p := S.signers[b].file.partyId - 1;
    MapShareAt(S, D, b);
    CommitmentIsValue(D, p + 1);
    assert CommitmentsToXi(VssVec(D))[p] == CommitmentToXi(VssVec(D), p + 1);
  }

  lemma ScaledCong(q: int, c: int, x: int, v: int)
    requires q > 0 && Cong(q, x, v)
    ensures Cong(q, c * x, v * c)
  {
    MulCong(q, c, c, x, v);
    assert c * v == v * c;
  }

  lemma HonestAligned(S: Setup, D: Dealing)
    requires Honest(S, D)
    ensures Aligned(S, W(S), Secret(D))
  {
    forall a | 0 <= a < |S.signers|
      ensures OwnWeight(S, W(S), a) && S.signers[a].file.ySum == Base(Secret(D))
    {
      MapShareAt(S, D, a);
      PublicKeyIsSecret(S.C.q, D, S.signers[a].file.partyId - 1);
    }
    forall a, b | 0 <= a < |S.signers| && 0 <= b < |S.signers|
      ensures PeerKnown(S, W(S), a, b)
    {
      WeightComCorrect(S, D, a, b);
    }
  }

  // ----------------------------------------------------------------------------------------------
  // Round 0
  // ----------------------------------------------------------------------------------------------

  ghost function Msg0(S: Setup): nat -> Msg requires |S.signers| > 0 { (a: nat) => PartyId(Who(S, a).file.partyId) }

  ghost function E1(S: Setup, w: nat -> int, a: nat): Local1
    requires |S.signers| > 0
  {
    Local1(Zero(S), w(a))
  }

  lemma IdsPositive(S: Setup, w: nat -> int, y: int)
    requires Aligned(S, w, y)
    ensures forall b: nat :: Who(S, b).file.partyId >= 1
  {
    forall b: nat
      ensures Who(S, b).file.partyId >= 1
    {
      assert OwnWeight(S, w, if b < |S.signers| then b else 0);
    }
  }

  lemma SignersAre(S: Setup, w: nat -> int, y: int, a: nat)
    requires Aligned(S, w, y) && a < |S.signers|
    ensures IdsHeard(Peers(S.t + 1, a, Msg0(S)), S.t) && Who(S, a).file.partyId >= 1
    ensures FormatSigners(Peers(S.t + 1, a, Msg0(S)), S.t, a, Who(S, a).file.partyId) == Zero(S)
  {
    hide OwnWeight, PeerKnown, Msg0, IdsHeard, IdsOf, ZeroId;
    IdsPositive(S, w, y);
    IdsAreHeard(S, a);
    RebuildPeers(S.t + 1, a, ZeroId(S));
    OwnZeroId(S, a);
  }

  lemma IdsAreHeard(S: Setup, a: nat)
    requires |S.signers| == S.t + 1 && a < |S.signers| && forall b: nat :: Who(S, b).file.partyId >= 1
    ensures IdsHeard(Peers(S.t + 1, a, Msg0(S)), S.t)
    ensures IdsOf(Peers(S.t + 1, a, Msg0(S)), S.t) == Peers(S.t + 1, a, ZeroId(S))
  {
  }

  lemma OwnZeroId(S: Setup, a: nat)
    requires |S.signers| > 0 && Who(S, a).file.partyId >= 1
    ensures ZeroId(S)(a) == Who(S, a).file.partyId - 1
  {
  }

  lemma Round0(S: Setup, w: nat -> int, y: int, a: nat)
    requires Aligned(S, w, y) && a < |S.signers|
    ensures Next1(S.C.q, S.t, Who(S, a), a, Peers(S.t + 1, a, Msg0(S))) == Some(E1(S, w, a))
  {
    SignersAre(S, w, y, a);
    assert OwnWeight(S, w, a);
  }

  // ----------------------------------------------------------------------------------------------
  // Round 1
  // ----------------------------------------------------------------------------------------------

  ghost function Msg1(S: Setup): nat -> Msg
    requires |S.signers| > 0
  {
    (a: nat) => Round1(OwnCom(Who(S, a)), MtaA(Who(S, a).rnd.k, Who(S, a).file.key))
  }

  /** The reply of the signer in slot a to b. */
  ghost function ReplyTo(S: Setup, a: nat, secret: int, tag: (nat, nat) -> int): nat -> MessageB
    requires |S.signers| > 0
  {
    (b: nat) => MtaB(secret, Who(S, b).file.key, MtaA(Who(S, b).rnd.k, Who(S, b).file.key), Tag(tag, a, b))
  }

  ghost function Coms(S: Setup): nat -> Com<Point> requires |S.signers| > 0 { (b: nat) => OwnCom(Who(S, b)) }

  ghost function E2(S: Setup, w: nat -> int, a: nat): Local2
    requires a < |S.signers|
  {
    var m := |S.signers|;
    Local2(E1(S, w, a), Table(m, Coms(S)),
      Peers(m, a, ReplyTo(S, a, Gamma(S)(a), GTag(S))), Kept(m, GTag(S), a),
      Peers(m, a, ReplyTo(S, a, w(a), WTag(S))), Kept(m, WTag(S), a))
  }

  lemma KeysAgree(S: Setup, w: nat -> int, y: int, a: nat)
    requires Aligned(S, w, y) && a < |S.signers|
    ensures KeysKnown(Who(S, a), a, Zero(S))
    ensures forall b :: 0 <= b < |S.signers| ==> Zero(S)[b] < |Who(S, a).file.eks| && Who(S, a).file.eks[Zero(S)[b]] == Who(S, b).file.key
  {
    forall b | 0 <= b < |S.signers|
      ensures Zero(S)[b] < |Who(S, a).file.eks| && Who(S, a).file.eks[Zero(S)[b]] == Who(S, b).file.key
    {
      assert PeerKnown(S, w, a, b);
    }
  }

  lemma RepliesAre(S: Setup, w: nat -> int, y: int, a: nat, secret: int, own: nat -> int, tag: (nat, nat) -> int)
    requires Aligned(S, w, y) && a < |S.signers| && forall j: nat :: tag(a, j) == own(j)
    ensures KeysKnown(Who(S, a), a, Zero(S)) && Round1Heard(Peers(S.t + 1, a, Msg1(S)), S.t)
    ensures Replies(S.t, Who(S, a), a, Zero(S), Peers(S.t + 1, a, Msg1(S)), secret, own) == Peers(S.t + 1, a, ReplyTo(S, a, secret, tag))
    ensures Betas(S.t, own) == Kept(S.t + 1, tag, a)
  {
    KeysAgree(S, w, y, a);
    var ans := Peers(S.t + 1, a, Msg1(S));
    forall j | 0 <= j < S.t
      ensures Replies(S.t, Who(S, a), a, Zero(S), ans, secret, own)[j] == Peers(S.t + 1, a, ReplyTo(S, a, secret, tag))[j]
      ensures Betas(S.t, own)[j] == Kept(S.t + 1, tag, a)[j]
    {
      assert Unskip(a, Skip(a, j)) == j;
    }
  }

  lemma Round1Next(S: Setup, w: nat -> int, y: int, a: nat)
    requires Aligned(S, w, y) && a < |S.signers|
    ensures Next2(S.t, Who(S, a), a, E1(S, w, a), Peers(S.t + 1, a, Msg1(S))) == Some(E2(S, w, a))
  {
    var m, ans := S.t + 1, Peers(S.t + 1, a, Msg1(S));
    RepliesAre(S, w, y, a, Who(S, a).rnd.gamma, Who(S, a).rnd.gammaTag, GTag(S));
    RepliesAre(S, w, y, a, w(a), Who(S, a).rnd.wTag, WTag(S));
    assert ComsOf(ans, S.t) == Peers(m, a, Coms(S));
    RebuildPeers(m, a, Coms(S));
  }

  // ----------------------------------------------------------------------------------------------
  // Round 2: the replies, one for each recipient
  // ----------------------------------------------------------------------------------------------

  /** What b sends to a. */
  ghost function Msg2(S: Setup, w: nat -> int, a: nat): nat -> Msg
    requires |S.signers| > 0
  {
    (b: nat) => Round2(ReplyTo(S, b, Gamma(S)(b), GTag(S))(a), ReplyTo(S, b, w(b), WTag(S))(a))
  }

  /** Each reply is delivered to the signer whose message it answers. */
  lemma Routed(S: Setup, w: nat -> int, a: nat, b: nat)
    requires a < |S.signers| && b < |S.signers| && a != b
    ensures Unskip(b, a) < |S.signers| - 1
    ensures Replies2(E2(S, w, b))[Unskip(b, a)] == Msg2(S, w, a)(b)
  {
  }

  ghost function RecGamma(S: Setup, a: nat): nat -> MessageB
    requires |S.signers| > 0
  {
    (b: nat) => ReplyTo(S, b, Gamma(S)(b), GTag(S))(a)
  }

  ghost function DeltaShares(S: Setup): nat -> int
    requires |S.signers| > 0
  {
    Shares(|S.signers|, K(S), Gamma(S), GTag(S))
  }

  ghost function SigmaShares(S: Setup, w: nat -> int): nat -> int
    requires |S.signers| > 0
  {
    Shares(|S.signers|, K(S), w, WTag(S))
  }

  ghost function E3(S: Setup, w: nat -> int, a: nat): Local3
    requires a < |S.signers|
  {
    Local3(E2(S, w, a), Peers(|S.signers|, a, RecGamma(S, a)), DeltaShares(S)(a), SigmaShares(S, w)(a))
  }

  lemma ReplyDecodes(S: Setup, v: nat -> int, tag: (nat, nat) -> int, a: nat, b: nat)
    requires S.C.q > 0 && a < |S.signers| && b < |S.signers|
    ensures MtaAlpha(S.C.q, ReplyTo(S, b, v(b), tag)(a), Who(S, a).file.key, Who(S, a).rnd.k) == Some(Row(Masked(K(S), v, tag), a)(b))
    ensures ReplyTo(S, b, v(b), tag)(a).bProof.pk == Base(v(b))
  {
    MtaShares(S.C.q, Who(S, a).rnd.k, v(b), Who(S, a).file.key, Tag(tag, b, a));
  }

  lemma AnswerDecodes(S: Setup, w: nat -> int, y: int, a: nat, j: nat)
    requires Aligned(S, w, y) && a < |S.signers| && j < S.t
    ensures Reply2Ok(S.C.q, Who(S, a), a, Zero(S), Peers(S.t + 1, a, Msg2(S, w, a)), j)
    ensures
      var ans, b := Peers(S.t + 1, a, Msg2(S, w, a)), Skip(a, j);
      && MtaAlpha(S.C.q, ans[j].mbGamma, Who(S, a).file.key, Who(S, a).rnd.k) == Some(Row(Masked(K(S), Gamma(S), GTag(S)), a)(b))
      && MtaAlpha(S.C.q, ans[j].mbW, Who(S, a).file.key, Who(S, a).rnd.k) == Some(Row(Masked(K(S), w, WTag(S)), a)(b))
  {
    var b := Skip(a, j);
    ReplyDecodes(S, Gamma(S), GTag(S), a, b);
    ReplyDecodes(S, w, WTag(S), a, b);
    assert PeerKnown(S, w, a, b);
  }

  lemma AnswersDecode(S: Setup, w: nat -> int, y: int, a: nat)
    requires Aligned(S, w, y) && a < |S.signers|
    ensures Replies2Ok(S.C.q, S.t, Who(S, a), a, Zero(S), Peers(S.t + 1, a, Msg2(S, w, a)))
    ensures Alphas(S.C.q, S.t, Who(S, a), a, Zero(S), Peers(S.t + 1, a, Msg2(S, w, a))) == Decoded(S.t + 1, K(S), Gamma(S), GTag(S), a)
    ensures Mius(S.C.q, S.t, Who(S, a), a, Zero(S), Peers(S.t + 1, a, Msg2(S, w, a))) == Decoded(S.t + 1, K(S), w, WTag(S), a)
  {
    var m, ans := S.t + 1, Peers(S.t + 1, a, Msg2(S, w, a));
    forall j | 0 <= j < S.t
      ensures Reply2Ok(S.C.q, Who(S, a), a, Zero(S), ans, j)
    {
      AnswerDecodes(S, w, y, a, j);
    }
    forall j | 0 <= j < S.t
      ensures Alphas(S.C.q, S.t, Who(S, a), a, Zero(S), ans)[j] == Decoded(m, K(S), Gamma(S), GTag(S), a)[j]
      ensures Mius(S.C.q, S.t, Who(S, a), a, Zero(S), ans)[j] == Decoded(m, K(S), w, WTag(S), a)[j]
    {
      AnswerDecodes(S, w, y, a, j);
    }
  }

  lemma Round2Next(S: Setup, w: nat -> int, y: int, a: nat)
    requires Aligned(S, w, y) && a < |S.signers|
    ensures Next3(S.C.q, S.t, Who(S, a), a, E2(S, w, a), Peers(S.t + 1, a, Msg2(S, w, a))) == Some(E3(S, w, a))
  {
    hide Replies2Ok, Alphas, Mius, MbGammasOf, Phase2, Decoded, Kept, MtaB, PeerKnown, OwnWeight;
    AnswersDecode(S, w, y, a);
    GammaRepliesAre(S, w, a);
  }

  lemma GammaRepliesAre(S: Setup, w: nat -> int, a: nat)
    requires |S.signers| == S.t + 1 && a < |S.signers|
    ensures Round2Heard(Peers(S.t + 1, a, Msg2(S, w, a)), S.t)
    ensures MbGammasOf(Peers(S.t + 1, a, Msg2(S, w, a)), S.t) == Peers(S.t + 1, a, RecGamma(S, a))
  {
    hide ReplyTo;
  }
}
