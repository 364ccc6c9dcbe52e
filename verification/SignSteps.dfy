/** The local computation of a signer between two rounds, with the vectors it fills and cuts in place.
    The party number counts from one; None stands for a panic. */
module SignSteps {
  import opened Wrappers
  import opened Modular
  import opened Slots
  import opened Vectors
  import opened Library
  import opened KeyFiles
  import opened Signing
  import opened Codec
  import opened Ecdsa
  import Format

  /** Fills a new vector with the answers and the own value in its slot. */
  method Rebuilt<T>(ans: seq<T>, partyNum: nat, value: T) returns (vec: Vec<T>)
    requires 1 <= partyNum <= |ans| + 1
    ensures fresh(vec) && vec.items == Rebuild(ans, partyNum - 1, value)
  {
    vec := new Vec<T>();
    var _ := Format.FormatVecFromReads(ans, partyNum, value, vec);
  }

  /** A signer whose number is beyond t + 1 has heard t + 1 answers, finds no slot of its own in the list
      of signers and panics. */
  method AfterRound0(q: int, t: nat, me: Signer, partyNum: nat, ans: seq<Msg>) returns (r: Option<Local1>)
    requires q > 0 && partyNum >= 1 && |ans| == Passed(partyNum, t + 1)
    ensures r == Next1(q, t, me, partyNum - 1, ans)
    ensures partyNum > t + 1 ==> r.None?
  {
    hide MapShare, Front, Rebuild;
    var signers := Format.FormatSigners(t, partyNum, me.file.partyId, ans);
    if signers.None? || partyNum > |signers.value| {
      return None;
    }
    Format.OwnSlotInList(t, partyNum, me.file.partyId, ans);
    var lambda := MapShare(q, signers.value[partyNum - 1], signers.value);
    if signers.value[partyNum - 1] >= |me.file.vss| || lambda.None? {
      return None;
    }
    r := Some(Local1(signers.value, lambda.value * me.file.x));
  }

  method AfterRound1(t: nat, me: Signer, partyNum: nat, l1: Local1, ans: seq<Msg>) returns (r: Option<Local2>)
    requires 1 <= partyNum <= t + 1 && |ans| == t
    ensures r == Next2(t, me, partyNum - 1, l1, ans)
    ensures r.Some? ==> |r.value.l1.signers| == |r.value.bc1| == t + 1 && |r.value.mbGamma| == |r.value.mbW| == t
  {
    hide Replies, Betas, ComsOf, KeysKnown;
    var read := Format.FormatBroadcastPhase1AndMessageAVec(t, partyNum, OwnCom(me), ans);
    if read.None? {
      return None;
    }
    var (bc1Vec, mAVec) := read.value;
    if |l1.signers| != |bc1Vec| {
      return None;
    }
    var replies := Format.FormatMessageBAndNiVec(t, partyNum, me, l1.w, ans, mAVec, l1.signers);
    if replies.None? {
      return None;
    }
    r := Some(Local2(l1, bc1Vec, replies.value.0, replies.value.1, replies.value.2, replies.value.3));
  }

  method AfterRound2(q: int, t: nat, me: Signer, partyNum: nat, l2: Local2, ans: seq<Msg>) returns (r: Option<Local3>)
    requires q > 0 && 1 <= partyNum <= t + 1 && |ans| == t && |l2.l1.signers| == t + 1
    ensures r == Next3(q, t, me, partyNum - 1, l2, ans)
    ensures r.Some? ==> r.value.l2 == l2
    ensures r.Some? ==> forall j :: 0 <= j < t ==>
      ans[j].Round2? && Format.CarriesWeight(q, me.file.vss, l2.l1.signers, Skip(partyNum - 1, j), ans[j].mbW.bProof.pk.e)
  {
    hide Phase2, Reply2Ok, Alphas, Mius;
    var received := Format.FormatRound2RecGammaAndWVec(t, ans);
    if received.None? {
      return None;
    }
    var shares := Format.FormatRound2AlphaAndMiuVec(q, t, partyNum, ans, received.value.0, received.value.1, me, l2.l1.signers);
    if shares.None? {
      return None;
    }
    var delta := Phase2(me.rnd.k, me.rnd.gamma, shares.value.0, l2.beta);
    var sigma := Phase2(me.rnd.k, l2.l1.w, shares.value.1, l2.ni);
    r := Some(Local3(l2, received.value.0, delta, sigma));
  }

  method AfterRound3(q: int, t: nat, me: Signer, partyNum: nat, l3: Local3, ans: seq<Msg>) returns (r: Option<Local4>)
    requires q > 0 && 1 <= partyNum <= t + 1 && |ans| == t
    ensures r == Next4(q, t, me, partyNum - 1, l3, ans)
    ensures r.Some? ==> r.value.l3 == l3
  {
    hide ReconstructDelta;
    if exists j :: 0 <= j < t && !ans[j].Delta? {
      return None;
    }
    var deltaVec := Rebuilt(DeltasOf(ans, t), partyNum, l3.delta);
    var deltaInv := ReconstructDelta(q, deltaVec.items);
    if deltaInv.None? {
      return None;
    }
    r := Some(Local4(l3, deltaInv.value));
  }

  /** The own decommitment and commitment are taken out of their vectors before the check of the others,
      and the own term of R is added to what the check returns. */
  method AfterRound4(C: Curve, message: int, t: nat, me: Signer, partyNum: nat, l4: Local4, ans: seq<Msg>) returns (r: Option<Local5>)
    requires C.q > 0 && 1 <= partyNum <= t + 1 && |ans| == t && |l4.l3.l2.bc1| == t + 1
    ensures r == Next5(C, message, t, me, partyNum - 1, l4, ans)
  {
    hide Phase4, XCoord, Plus, Times, ShareOfS;
    if exists j :: 0 <= j < t && !ans[j].Decommit? {
      return None;
    }
    var decommitVec := Rebuilt(DecommitsOf(ans, t), partyNum, OwnDecommit(me));
    var bc1Vec := new Vec<Com<Point>>();
    bc1Vec.items := l4.l3.l2.bc1;
    var decommI := decommitVec.Remove(partyNum - 1);
    var _ := bc1Vec.Remove(partyNum - 1);
    var others := Phase4(C.q, l4.deltaInv, ProofsOf(l4.l3.recGamma), decommitVec.items, bc1Vec.items);
    if others.None? {
      return None;
    }
    var R := Plus(others.value, Times(decommI.0, l4.deltaInv));
    var x := XCoord(C, R);
    if x.None? {
      return None;
    }
    var rx := x.value % C.q;
    r := Some(Local5(l4, R, rx, ShareOfS(message, me.rnd.k, rx, l4.l3.sigma)));
  }

  method AfterRound5(t: nat, me: Signer, partyNum: nat, l5: Local5, ans: seq<Msg>) returns (r: Option<Local6>)
    requires 1 <= partyNum <= t + 1 && |ans| == t
    ensures r == Next6(t, me, partyNum - 1, l5, ans)
    ensures r.Some? ==> |r.value.com5a| == t + 1
  {
    hide OwnDecom5a;
    if exists j :: 0 <= j < t && !ans[j].Commit5a? {
      return None;
    }
    var commit5aVec := Rebuilt(Commits5aOf(ans, t), partyNum, Commit5aOf(OwnDecom5a(me, l5)));
    r := Some(Local6(l5, commit5aVec.items));
  }

  /** Phase 5C works on the vectors without the own slot; the full vector of openings is kept. */
  method AfterRound6(q: int, message: int, t: nat, me: Signer, partyNum: nat, l6: Local6, ans: seq<Msg>) returns (r: Option<Local7>)
    requires q > 0 && 1 <= partyNum <= t + 1 && |ans| == t && |l6.com5a| == t + 1
    ensures r == Next7(q, message, t, me, partyNum - 1, l6, ans)
    ensures r.Some? ==> |r.value.opens| == t + 1 && forall i :: 0 <= i <= t ==> r.value.opens[i].Open5a?
  {
    hide Phase5c, OwnDecom5a, OwnOpen5a;
    if exists j :: 0 <= j < t && !ans[j].Open5a? {
      return None;
    }
    var opens := Rebuilt(ans, partyNum, OwnOpen5a(me, l6.l5));
    var opensIncludingOwn := opens.items;
    var commit5aVec := new Vec<Com<(Point, Point, Point)>>();
    commit5aVec.items := l6.com5a;
    var _ := opens.Remove(partyNum - 1);
    var _ := commit5aVec.Remove(partyNum - 1);
    RebuildRemove(ans, partyNum - 1, OwnOpen5a(me, l6.l5));
    var decom := Phase5c(q, me, l6.l5, message, opens.items, commit5aVec.items, OwnDecom5a(me, l6.l5).V);
    if decom.None? {
      return None;
    }
    r := Some(Local7(l6, opensIncludingOwn, decom.value));
  }

  method AfterRound7(t: nat, me: Signer, partyNum: nat, l7: Local7, ans: seq<Msg>) returns (r: Option<Local8>)
    requires 1 <= partyNum <= t + 1 && |ans| == t
    ensures r == Next8(t, me, partyNum - 1, l7, ans)
    ensures r.Some? ==> r.value.l7 == l7
  {
    if exists j :: 0 <= j < t && !ans[j].Commit5c? {
      return None;
    }
    var commit5cVec := Rebuilt(Commits5cOf(ans, t), partyNum, Commit5cOf(l7.decom5d));
    r := Some(Local8(l7, commit5cVec.items));
  }

  method AfterRound8(q: int, t: nat, me: Signer, partyNum: nat, l8: Local8, ans: seq<Msg>) returns (r: Option<Local9>)
    requires q > 0 && 1 <= partyNum <= t + 1 && |ans| == t
    requires |l8.l7.opens| == t + 1 && forall i :: 0 <= i <= t ==> l8.l7.opens[i].Open5a?
    ensures r == Next9(q, t, me, partyNum - 1, l8, ans)
  {
    hide Phase5d;
    if exists j :: 0 <= j < t && !ans[j].Open5d? {
      return None;
    }
    var decommit5dVec := Rebuilt(Decoms5dOf(ans, t), partyNum, l8.l7.decom5d);
    var s := Phase5d(q, l8.l7.l6.l5.s, decommit5dVec.items, l8.com5c, Decoms5a(l8.l7.opens));
    if s.None? {
      return None;
    }
    r := Some(Local9(l8, s.value));
  }

  method AfterRound9(C: Curve, message: nat, t: nat, me: Signer, partyNum: nat, l9: Local9, ans: seq<Msg>) returns (r: Option<Signature>)
    requires C.q > 0 && 1 <= partyNum <= t + 1 && |ans| == t
    ensures r == Finish(C, message, t, me, partyNum - 1, l9, ans)
  {
    hide OutputSignature, CheckSig;
    if exists j :: 0 <= j < t && !ans[j].SigShare? {
      return None;
    }
    var l5 := l9.l8.l7.l6.l5;
    var sVec := Rebuilt(SigSharesOf(ans, t), partyNum, l9.s);
    var _ := sVec.Remove(partyNum - 1);
    var sig := OutputSignature(C, message, l5.r, l5.s, sVec.items, me.file.ySum);
    if sig.None? {
      return None;
    }
    var ok := RunCheckSig(C, sig.value.r, sig.value.s, message, me.file.ySum);
    r := if ok then sig else None;
  }

  /** The final check on the padded message and the compact signature. False also stands for its panic
      on a message of more than 32 bytes. */
  method RunCheckSig(C: Curve, r: nat, s: nat, message: nat, y: Point) returns (ok: bool)
    requires C.q > 0
    ensures ok <==> CheckSig(C, message, Signature(r, s), y)
    ensures C.Valid() ==>
      (ok <==> message < TWO_TO_THE_256 && 1 <= r < C.q && 1 <= s < C.q && exists rLog :: Solves(C, message, y.e, Signature(r, s), rLog))
  {
    if C.Valid() {
      CheckSigExactly(C, message, Signature(r, s), y.e);
    }
    ok := VerifyPadded(C, r, s, message, y);
  }

  method VerifyPadded(C: Curve, r: nat, s: nat, message: nat, y: Point) returns (ok: bool)
    requires C.q > 0
    ensures ok <==> CheckSig(C, message, Signature(r, s), y)
  {
    hide EcdsaVerify, Bytes32, Compact, ParseCompact, FromBytes;
    var inputs := CheckSigInputs(r, s, message);
    if inputs.None? {
      return false;
    }
    var parsed := ParseCompact(inputs.value.1);
    if parsed.None? {
      return false;
    }
    ok := EcdsaVerify(C, FromBytes(inputs.value.0), Signature(parsed.value.0, parsed.value.1), y);
  }
}
