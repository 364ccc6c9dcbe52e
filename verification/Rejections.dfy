/** What a party refuses: for every check of the two protocols, exactly which answers it accepts, whoever
    they come from, in terms of the fields of the messages. */
module Rejections {
  import opened Wrappers
  import opened Modular
  import opened Lagrange
  import opened Slots
  import opened Library
  import opened KeyFiles
  import opened Signing
  import opened Codec
  import E = Ecdsa
  import G = Keygen
  import GT = KeygenTheorem
  import SR = SignRun
  import SP = SignProof

  // ----------------------------------------------------------------------------------------------
  // Signing
  // ----------------------------------------------------------------------------------------------

  /** The reply is encrypted for the own key, its proofs are of the discrete logarithms of the points they
      name, and its plaintext is the one that the points and the own secret k determine. */
  ghost predicate ReplyIsSound(q: int, m: MessageB, ownKey: nat, k: int)
    requires q > 0
  {
    && m.c.Cipher? && m.c.ek == ownKey
    && Cong(q, m.bProof.pk.e, m.bProof.secret) && Cong(q, m.betaTagProof.pk.e, m.betaTagProof.secret)
    && Cong(q, m.c.plain, m.bProof.pk.e * k + m.betaTagProof.pk.e)
  }

  /** A signer goes on after round 2 if and only if it has a reply of every peer, both halves of every reply
      are sound, and the second carries the weight that the commitments of key generation determine for the
      party that the list of signers has in the peer's slot. */
  lemma RepliesAccepted(q: int, t: nat, me: Signer, own: nat, l2: Local2, ans: seq<Msg>)
    requires q > 0 && own <= t && |l2.l1.signers| == t + 1
    ensures Next3(q, t, me, own, l2, ans).Some? <==>
      && |ans| == t
      && forall j :: 0 <= j < t ==>
           && ans[j].Round2?
           && ReplyIsSound(q, ans[j].mbGamma, me.file.key, me.rnd.k) && ReplyIsSound(q, ans[j].mbW, me.file.key, me.rnd.k)
           && var com := WeightCom(q, me.file.vss, l2.l1.signers, Skip(own, j));
              com.Some? && Cong(q, ans[j].mbW.bProof.pk.e, com.value.e)
  {
    hide WeightCom;
    forall j | 0 <= j < |ans| && ans[j].Round2? && j < t
      ensures MtaAlpha(q, ans[j].mbGamma, me.file.key, me.rnd.k).Some? <==> ReplyIsSound(q, ans[j].mbGamma, me.file.key, me.rnd.k)
      ensures MtaAlpha(q, ans[j].mbW, me.file.key, me.rnd.k).Some? <==> ReplyIsSound(q, ans[j].mbW, me.file.key, me.rnd.k)
    {
      SoundIsAccepted(q, ans[j].mbGamma, me.file.key, me.rnd.k);
      SoundIsAccepted(q, ans[j].mbW, me.file.key, me.rnd.k);
    }
    hide MtaAlpha, ReplyIsSound;
    if |ans| == t && Round2Heard(ans, t) {
      forall j | 0 <= j < t
        ensures Reply2Ok(q, me, own, l2.l1.signers, ans, j) <==>
          && MtaAlpha(q, ans[j].mbGamma, me.file.key, me.rnd.k).Some? && MtaAlpha(q, ans[j].mbW, me.file.key, me.rnd.k).Some?
          && var com := WeightCom(q, me.file.vss, l2.l1.signers, Skip(own, j));
             com.Some? && Cong(q, ans[j].mbW.bProof.pk.e, com.value.e)
      {
      }
    }
  }

  lemma SoundIsAccepted(q: int, m: MessageB, ownKey: nat, k: int)
    requires q > 0
    ensures MtaAlpha(q, m, ownKey, k).Some? <==> ReplyIsSound(q, m, ownKey, k)
    ensures ReplyIsSound(q, m, ownKey, k) ==> MtaAlpha(q, m, ownKey, k) == Some(m.c.plain)
  {
  }

  /** The j-th answer opens the commitment in its sender's slot to the point that the sender's reply of round 2
      was made with. */
  ghost predicate OpensGamma(q: int, own: nat, l4: Local4, ans: seq<Msg>, j: nat)
    requires q > 0 && j < |ans| && j < |l4.l3.recGamma| && Skip(own, j) < |l4.l3.l2.bc1|
  {
    && ans[j].Decommit?
    && l4.l3.l2.bc1[Skip(own, j)].value == ans[j].gGamma && l4.l3.l2.bc1[Skip(own, j)].blind == ans[j].blind
    && Cong(q, l4.l3.recGamma[j].bProof.pk.e, ans[j].gGamma.e)
  }

  /** A signer goes on after round 4 if and only if every peer opens its own commitment of round 1 to the
      point that its reply of round 2 was made with, and R is not the point at infinity. */
  lemma DecommitmentsAccepted(C: Curve, message: int, t: nat, me: Signer, own: nat, l4: Local4, ans: seq<Msg>)
    requires C.q > 0 && own <= t && |l4.l3.l2.bc1| == t + 1 && |l4.l3.recGamma| == t
    ensures Next5(C, message, t, me, own, l4, ans).Some? <==>
      && |ans| == t && (forall j :: 0 <= j < t ==> OpensGamma(C.q, own, l4, ans, j))
      && !Cong(C.q, (SumOfPoints(ans) + me.rnd.gamma) * l4.deltaInv, 0)
  {
    hide ReconstructR, OpensGamma, Sum, PointLogs, ShareOfS, Cong;
    if |ans| == t {
      RAccepted(C.q, t, me, own, l4, ans);
    } else {
      WrongSize(C.q, t, me, own, l4, ans);
    }
  }

  lemma WrongSize(q: int, t: nat, me: Signer, own: nat, l4: Local4, ans: seq<Msg>)
    requires q > 0 && |ans| != t
    ensures ReconstructR(q, t, me, own, l4, ans).None?
  {
  }

  lemma RAccepted(q: int, t: nat, me: Signer, own: nat, l4: Local4, ans: seq<Msg>)
    requires q > 0 && own <= t == |ans| && |l4.l3.l2.bc1| == t + 1 && |l4.l3.recGamma| == t
    ensures ReconstructR(q, t, me, own, l4, ans).Some? <==> forall j :: 0 <= j < t ==> OpensGamma(q, own, l4, ans, j)
    ensures ReconstructR(q, t, me, own, l4, ans).Some? ==>
      ReconstructR(q, t, me, own, l4, ans).value.e == (SumOfPoints(ans) + me.rnd.gamma) * l4.deltaInv
  {
    hide Phase4, Sum, PointLogs, PointsIn;
    var bc1 := l4.l3.l2.bc1;
    RemovedAt(bc1, own);
    if DecommitsHeard(ans, t) {
      var decoms := DecommitsOf(ans, t);
      RebuildRemove(decoms, own, OwnDecommit(me));
      Phase4Exactly(q, l4.deltaInv, ProofsOf(l4.l3.recGamma), decoms, Remove(bc1, own));
      SameLogs(ans, t);
      AddFactor(SumOfPoints(ans), me.rnd.gamma, l4.deltaInv);
      forall j | 0 <= j < t
        ensures OpensGamma(q, own, l4, ans, j) <==>
          Cong(q, l4.l3.recGamma[j].bProof.pk.e, decoms[j].0.e) && Remove(bc1, own)[j].value == decoms[j].0 && Remove(bc1, own)[j].blind == decoms[j].1
      {
      }
        } else {
      var j :| 0 <= j < t && !ans[j].Decommit?;
      assert !OpensGamma(q, own, l4, ans, j);
    }
  }

  lemma SameLogs(ans: seq<Msg>, t: nat)
    requires DecommitsHeard(ans, t)
    ensures Logs(PointsIn(DecommitsOf(ans, t))) == PointLogs(ans)
  {
  }

  lemma Phase4Exactly(q: int, deltaInv: int, proofs: seq<DLogProof>, decoms: seq<(Point, int)>, bc1: seq<Com<Point>>)
    requires q > 0 && |proofs| == |decoms| == |bc1|
    ensures Phase4(q, deltaInv, proofs, decoms, bc1).Some? <==>
      forall i :: 0 <= i < |decoms| ==> Cong(q, proofs[i].pk.e, decoms[i].0.e) && bc1[i].value == decoms[i].0 && bc1[i].blind == decoms[i].1
    ensures Phase4(q, deltaInv, proofs, decoms, bc1).Some? ==>
      Phase4(q, deltaInv, proofs, decoms, bc1).value.e == Sum(Logs(PointsIn(decoms))) * deltaInv
  {
    hide Sum;
    forall i | 0 <= i < |decoms|
      ensures bc1[i] == Com(decoms[i].0, decoms[i].1) <==> bc1[i].value == decoms[i].0 && bc1[i].blind == decoms[i].1
    {
    }
  }

  lemma RemovedAt<T>(s: seq<T>, own: nat)
    requires own < |s|
    ensures |Remove(s, own)| == |s| - 1 && forall j :: 0 <= j < |s| - 1 ==> Remove(s, own)[j] == s[Skip(own, j)]
  {
  }

  lemma AddFactor(a: int, b: int, c: int)
    ensures (a + b) * c == a * c + b * c
  {
  }

  ghost function PointLogs(ans: seq<Msg>): (s: seq<int>)
    ensures |s| == |ans| && forall j :: 0 <= j < |ans| && ans[j].Decommit? ==> s[j] == ans[j].gGamma.e
  {
    seq(|ans|, j requires 0 <= j < |ans| => if ans[j].Decommit? then ans[j].gGamma.e else 0)
  }

  ghost function SumOfPoints(ans: seq<Msg>): int {
    Sum(PointLogs(ans))
  }

  /** A signer goes on after round 6 if and only if every peer opens its own commitment of round 5 to points
      with V = s R + l G and B = l A for the s and l it knows, and knows the logarithm it proves. */
  lemma OpeningsAccepted(q: int, message: int, t: nat, me: Signer, own: nat, l6: Local6, ans: seq<Msg>)
    requires q > 0 && own <= t && |l6.com5a| == t + 1
    ensures Next7(q, message, t, me, own, l6, ans).Some? <==>
      && |ans| == t
      && forall j :: 0 <= j < t ==>
           && ans[j].Open5a?
           && var d, proof := ans[j].decom5a, ans[j].elGamal;
              && l6.com5a[Skip(own, j)].value == (d.V, d.A, d.B) && l6.com5a[Skip(own, j)].blind == d.blind
              && Cong(q, d.V.e, l6.l5.R.e * proof.s + proof.l) && Cong(q, d.B.e, d.A.e * proof.l)
              && Cong(q, ans[j].dlogRho.pk.e, ans[j].dlogRho.secret)
  {
    hide OwnOpen5a, OwnDecom5a, Phase5c;
    if |ans| == t && Opens5aHeard(ans, t) {
      RebuildRemove(ans, own, OwnOpen5a(me, l6.l5));
      RemovedAt(l6.com5a, own);
      Phase5cExactly(q, me, l6.l5, message, ans, Remove(l6.com5a, own), OwnDecom5a(me, l6.l5).V);
    }
  }

  lemma Phase5cExactly(q: int, me: Signer, l5: Local5, message: int, opens: seq<Msg>, coms: seq<Com<(Point, Point, Point)>>, ownV: Point)
    requires q > 0 && |coms| == |opens| && forall i :: 0 <= i < |opens| ==> opens[i].Open5a?
    ensures Phase5c(q, me, l5, message, opens, coms, ownV).Some? <==>
      forall i :: 0 <= i < |opens| ==>
        var d, proof := opens[i].decom5a, opens[i].elGamal;
        && coms[i].value == (d.V, d.A, d.B) && coms[i].blind == d.blind
        && Cong(q, d.V.e, l5.R.e * proof.s + proof.l) && Cong(q, d.B.e, d.A.e * proof.l)
        && Cong(q, opens[i].dlogRho.pk.e, opens[i].dlogRho.secret)
  {
    hide SumPoints, Cong;
  }

  /** A signer goes on after round 8 if and only if every opening, its own included, fits the commitment of
      round 7 in its slot, and the sum of all T and of all B is the sum of all U. */
  lemma BalanceAccepted(q: int, t: nat, me: Signer, own: nat, l8: Local8, ans: seq<Msg>)
    requires q > 0 && own <= t && |l8.com5c| == t + 1 && Opens5dHeard(ans, t)
    requires |l8.l7.opens| == t + 1 && forall i :: 0 <= i <= t ==> l8.l7.opens[i].Open5a?
    ensures
      var decoms := Rebuild(Decoms5dOf(ans, t), own, l8.l7.decom5d);
      Next9(q, t, me, own, l8, ans).Some? <==>
        && (forall j :: 0 <= j < t ==> Fits5c(l8.com5c[Skip(own, j)], ans[j].decom5d))
        && Fits5c(l8.com5c[own], l8.l7.decom5d)
        && Cong(q, 1 + Sum(Logs(TsOf(decoms))) + Sum(Logs(BsOf(Decoms5a(l8.l7.opens)))) - Sum(Logs(UsOf(decoms))), 1)
  {
    hide TsOf, UsOf, BsOf, Sum, Logs, Cong;
    SecondOpenings(t, own, l8.com5c, ans, l8.l7.decom5d);
  }

  /** The commitment is to these two points with this blinding factor. */
  ghost predicate Fits5c(com: Com<(Point, Point)>, d: Decom5d) {
    com.value == (d.u, d.t) && com.blind == d.blind
  }

  lemma SecondOpenings(t: nat, own: nat, com5c: seq<Com<(Point, Point)>>, ans: seq<Msg>, ownDecom: Decom5d)
    requires own <= t && |com5c| == t + 1 && Opens5dHeard(ans, t)
    ensures |Rebuild(Decoms5dOf(ans, t), own, ownDecom)| == t + 1
    ensures (forall i :: 0 <= i <= t ==> com5c[i] == Commit5cOf(Rebuild(Decoms5dOf(ans, t), own, ownDecom)[i])) <==>
      (forall j :: 0 <= j < t ==> Fits5c(com5c[Skip(own, j)], ans[j].decom5d)) && Fits5c(com5c[own], ownDecom)
  {
    var decoms := Rebuild(Decoms5dOf(ans, t), own, ownDecom);
    RebuildRemove(Decoms5dOf(ans, t), own, ownDecom);
    forall i | 0 <= i <= t
      ensures com5c[i] == Commit5cOf(decoms[i]) <==> Fits5c(com5c[i], decoms[i])
    {
    }
    if forall i :: 0 <= i <= t ==> com5c[i] == Commit5cOf(decoms[i]) {
      forall j | 0 <= j < t
        ensures Fits5c(com5c[Skip(own, j)], ans[j].decom5d)
      {
        assert decoms[Skip(own, j)] == ans[j].decom5d;
      }
    } else {
      var i :| 0 <= i <= t && com5c[i] != Commit5cOf(decoms[i]);
      if i != own {
        assert decoms[Skip(own, Unskip(own, i))] == ans[Unskip(own, i)].decom5d;
      }
    }
  }

  /** Whatever a signer has heard: if it returns a signature, this is in range, has the smaller s, and solves
      the signature equation for its message, which is below 2^256, and its public key. */
  lemma WhateverItHears(C: Curve, message: nat, t: nat, me: Signer, own: nat, l9: Local9, ans: seq<Msg>)
    requires C.q > 0 && C.Valid() && Finish(C, message, t, me, own, l9, ans).Some?
    ensures
      var sig := Finish(C, message, t, me, own, l9, ans).value;
      && message < TWO_TO_THE_256
      && 1 <= sig.r < C.q && 1 <= sig.s && 2 * sig.s <= C.q
      && exists rLog :: E.Solves(C, message, me.file.ySum.e, sig, rLog)
  {
    hide CheckSig, EcdsaVerify, Normalized;
    var sig := Finish(C, message, t, me, own, l9, ans).value;
    E.CheckSigExactly(C, message, sig, me.file.ySum.e);
  }

  // ----------------------------------------------------------------------------------------------
  // Key generation
  // ----------------------------------------------------------------------------------------------

  /** A party goes on after round 2 if and only if every peer opens its own commitment of round 1, and
      neither the peers nor the party have drawn zero. */
  lemma CommitmentsAccepted(C: Curve, t: nat, n: nat, me: G.Part, own: nat, l1: G.Local1, ans: seq<G.Msg>)
    requires C.q > 0 && C.Valid() && own < n && |l1.bc1| == n && |ans| == n - 1
    requires forall i :: 0 <= i < n ==> l1.bc1[i].First?
    ensures G.Next2(C, t, n, me, own, l1, ans).Some? <==>
      && (forall j :: 0 <= j < n - 1 ==>
            && ans[j].Opening?
            && l1.bc1[Skip(own, j)].com.value == ans[j].y && l1.bc1[Skip(own, j)].com.blind == ans[j].blind
            && !Cong(C.q, ans[j].y.e, 0) && !Cong(C.q, me.U(), 0))
      && l1.bc1[own].com.value.e == me.U() && l1.bc1[own].com.blind == me.blind
  {
    hide Bytes32;
    if G.OpeningsHeard(ans) {
      var decoms := Rebuild(ans, own, G.OwnOpening(me));
      RebuildRemove(ans, own, G.OwnOpening(me));
      forall i | 0 <= i < n
        ensures decoms[i].Opening? && (i != own ==> Skip(own, Unskip(own, i)) == i && decoms[i] == ans[Unskip(own, i)])
      {
      }
      forall j | 0 <= j < n - 1
        ensures G.AesKey(C, ans[j].y, me.U()).Some? <==> !Cong(C.q, ans[j].y.e, 0) && !Cong(C.q, me.U(), 0)
      {
        GT.KeyExists(C, ans[j].y.e, me.U());
        assert Base(ans[j].y.e) == ans[j].y;
      }
      CommitmentsFit(n, me, own, l1, ans, decoms);
    }
  }

  lemma CommitmentsFit(n: nat, me: G.Part, own: nat, l1: G.Local1, ans: seq<G.Msg>, decoms: seq<G.Msg>)
    requires own < n == |l1.bc1| && |ans| == n - 1 && decoms == Rebuild(ans, own, G.OwnOpening(me)) && G.OpeningsHeard(ans)
    requires forall i :: 0 <= i < n ==> l1.bc1[i].First?
    ensures G.OpensAll(decoms, l1.bc1) <==>
      && (forall j :: 0 <= j < n - 1 ==>
            l1.bc1[Skip(own, j)].com.value == ans[j].y && l1.bc1[Skip(own, j)].com.blind == ans[j].blind)
      && l1.bc1[own].com.value.e == me.U() && l1.bc1[own].com.blind == me.blind
  {
    RebuildRemove(ans, own, G.OwnOpening(me));
    assert decoms[own] == G.OwnOpening(me);
    if G.OpensAll(decoms, l1.bc1) {
      forall j | 0 <= j < n - 1
        ensures l1.bc1[Skip(own, j)].com.value == ans[j].y && l1.bc1[Skip(own, j)].com.blind == ans[j].blind
      {
        assert decoms[Skip(own, j)] == ans[j];
      }
    } else {
      var i :| 0 <= i < n && !(decoms[i].Opening? && l1.bc1[i].com == Com(decoms[i].y, decoms[i].blind));
      if i != own {
        var j := Unskip(own, i);
        assert decoms[Skip(own, j)] == ans[j];
      }
    }
  }

  /** A party goes on after round 3 if and only if every ciphertext was made with the key it shares with the
      peer it comes from. */
  lemma SharesAccepted(q: int, n: nat, own: nat, l2: G.Local2, ans: seq<G.Msg>)
    requires q > 0 && own < n && |l2.encKeys| == n - 1 && |l2.shares| == n
    ensures G.Next3(q, n, own, l2, ans).Some? <==>
      |ans| == n - 1 && forall j :: 0 <= j < n - 1 ==> ans[j].Sealed? && ans[j].aead.key == l2.encKeys[j]
  {
    if |ans| == n - 1 {
      forall j | 0 <= j < n - 1
        ensures G.ShareOpens(l2, ans, j) <==> ans[j].Sealed? && ans[j].aead.key == l2.encKeys[j]
      {
      }
    }
  }

  /** A party goes on after round 4 if and only if the share of every slot is the value of this slot's sharing
      at its own number, and the constant term of the sharing is the point of the slot. */
  lemma SharingsAccepted(q: int, n: nat, own: nat, l3: G.Local3, ans: seq<G.Msg>)
    requires q > 0 && own < n && |l3.partyShares| == |l3.l2.points| == n && |ans| == n - 1 && G.SharingsHeard(ans)
    ensures
      var vssVec := Rebuild(G.SharingsOf(ans), own, l3.l2.vss);
      && |vssVec| == n
      && (G.Next4(q, n, own, l3, ans).Some? <==>
            forall i :: 0 <= i < n ==>
              && Cong(q, l3.partyShares[i], Eval(Logs(vssVec[i].commitments), own + 1))
              && |vssVec[i].commitments| > 0 && Cong(q, vssVec[i].commitments[0].e, l3.l2.points[i].e))
      && (G.Next4(q, n, own, l3, ans).Some? ==> G.Next4(q, n, own, l3, ans).value.vssVec == vssVec)
  {
    var vssVec := Rebuild(G.SharingsOf(ans), own, l3.l2.vss);
    forall i | 0 <= i < n
      ensures G.ShareFits(q, own, vssVec[i], l3.partyShares[i], l3.l2.points[i]) <==>
        && Cong(q, l3.partyShares[i], Eval(Logs(vssVec[i].commitments), own + 1))
        && |vssVec[i].commitments| > 0 && Cong(q, vssVec[i].commitments[0].e, l3.l2.points[i].e)
    {
    }
  }

  /** A party saves its file after round 5 if and only if every peer knows the logarithm it proves. */
  lemma ProofsAccepted(q: int, n: nat, me: G.Part, own: nat, l4: G.Local4, ans: seq<G.Msg>)
    requires q > 0 && own < n && |ans| == n - 1
    ensures G.Next5(q, n, me, own, l4, ans).Some? <==>
      forall j :: 0 <= j < n - 1 ==> ans[j].Proof? && Cong(q, ans[j].proof.pk.e, ans[j].proof.secret)
  {
    hide G.ProofsVerify, G.KeysOf, Rebuild;
    ProofsOfPeers(q, own, l4.x, ans);
  }

  lemma ProofsOfPeers(q: int, own: nat, x: int, ans: seq<G.Msg>)
    requires q > 0 && own <= |ans|
    ensures G.ProofsVerify(q, Rebuild(ans, own, G.Proof(ProveDLog(x)))) <==>
      forall j :: 0 <= j < |ans| ==> ans[j].Proof? && Cong(q, ans[j].proof.pk.e, ans[j].proof.secret)
  {
    var proofs := Rebuild(ans, own, G.Proof(ProveDLog(x)));
    RebuildRemove(ans, own, G.Proof(ProveDLog(x)));
    hide Rebuild, Cong;
    if G.ProofsVerify(q, proofs) {
      forall j | 0 <= j < |ans|
        ensures ans[j].Proof? && Cong(q, ans[j].proof.pk.e, ans[j].proof.secret)
      {
        assert proofs[Skip(own, j)] == ans[j];
      }
    } else {
      var i :| 0 <= i < |proofs| && !(proofs[i].Proof? && VerifyDLog(q, proofs[i].proof));
      assert i != own by {
        assert Cong(q, x, x) by {
          CongReflexive(q, x);
        }
      }
      assert proofs[Skip(own, Unskip(own, i))] == ans[Unskip(own, i)];
    }
  }

  // ----------------------------------------------------------------------------------------------
  // The weight check among honest key files
  // ----------------------------------------------------------------------------------------------

  /** What a hears in round 2 if the peer in its j-th answer uses v as its weight and all else is honest. */
  ghost function WithWeight(S: SR.Setup, a: nat, j: nat, v: int, tag: int): seq<Msg>
    requires S.C.q > 0 && a < |S.signers| == S.t + 1 && j < S.t
  {
    var ans := Peers(S.t + 1, a, SP.Msg2(S, SP.W(S), a));
    var me := SP.Who(S, a);
    ans[j := Round2(if ans[j].Round2? then ans[j].mbGamma else MtaB(0, me.file.key, MtaA(me.rnd.k, me.file.key), 0),
                    MtaB(v, me.file.key, MtaA(me.rnd.k, me.file.key), tag))]
  }

  /** Among key files of one key generation, a reply made under the right key is accepted if and only if its
      sender has used the weight that belongs to its share: with another scalar, as from a key file of
      another key generation, the receiver panics. */
  lemma WeightAccepted(S: SR.Setup, D: Dealing, a: nat, j: nat, v: int, tag: int)
    requires S.C.q > 0 && SP.Honest(S, D) && a < |S.signers| == S.t + 1 && j < S.t
    ensures Next3(S.C.q, S.t, SP.Who(S, a), a, SP.E2(S, SP.W(S), a), WithWeight(S, a, j, v, tag)).Some? <==>
      Cong(S.C.q, v, SP.W(S)(Skip(a, j)))
  {
    hide MtaB, MtaA, Next3, WeightCom, SP.E2, SP.Msg2, ReplyIsSound, Cong, SP.W, SP.Honest;
    var q, me, w, ans, b := S.C.q, SP.Who(S, a), SP.W(S), WithWeight(S, a, j, v, tag), Skip(a, j);
    SP.HonestAligned(S, D);
    ListIs(S, w, a);
    RepliesAccepted(q, S.t, me, a, SP.E2(S, w, a), ans);
    forall i | 0 <= i < S.t
      ensures ans[i].Round2?
      ensures ReplyIsSound(q, ans[i].mbGamma, me.file.key, me.rnd.k) && ReplyIsSound(q, ans[i].mbW, me.file.key, me.rnd.k)
      ensures WeightCom(q, me.file.vss, SP.Zero(S), Skip(a, i)).Some?
      ensures Cong(q, ans[i].mbW.bProof.pk.e, WeightCom(q, me.file.vss, SP.Zero(S), Skip(a, i)).value.e) <==>
        (i == j ==> Cong(q, v, w(b)))
    {
      OneReply(S, w, Secret(D), a, i);
      if i == j {
        MadeReply(S, w, Secret(D), a, b, v, tag);
      }
    }
  }

  lemma ListIs(S: SR.Setup, w: nat -> int, a: nat)
    requires a < |S.signers|
    ensures SP.E2(S, w, a).l1.signers == SP.Zero(S)
  {
  }

  lemma OneReply(S: SR.Setup, w: nat -> int, y: int, a: nat, i: nat)
    requires SP.Aligned(S, w, y) && a < |S.signers| && i < S.t
    ensures
      var me, m := SP.Who(S, a), Peers(S.t + 1, a, SP.Msg2(S, w, a))[i];
      var com := WeightCom(S.C.q, me.file.vss, SP.Zero(S), Skip(a, i));
      && m.Round2? && com.Some? && Cong(S.C.q, m.mbW.bProof.pk.e, com.value.e)
      && ReplyIsSound(S.C.q, m.mbGamma, me.file.key, me.rnd.k) && ReplyIsSound(S.C.q, m.mbW, me.file.key, me.rnd.k)
  {
    SP.AnswerDecodes(S, w, y, a, i);
    var m := Peers(S.t + 1, a, SP.Msg2(S, w, a))[i];
    hide SP.Msg2, MtaAlpha, WeightCom, SP.Aligned, ReplyIsSound;
    SoundIsAccepted(S.C.q, m.mbGamma, SP.Who(S, a).file.key, SP.Who(S, a).rnd.k);
    SoundIsAccepted(S.C.q, m.mbW, SP.Who(S, a).file.key, SP.Who(S, a).rnd.k);
  }

  lemma MadeReply(S: SR.Setup, w: nat -> int, y: int, a: nat, b: nat, v: int, tag: int)
    requires SP.Aligned(S, w, y) && a < |S.signers| && b < |S.signers|
    ensures
      var me := SP.Who(S, a);
      var m, com := MtaB(v, me.file.key, MtaA(me.rnd.k, me.file.key), tag), WeightCom(S.C.q, me.file.vss, SP.Zero(S), b);
      && ReplyIsSound(S.C.q, m, me.file.key, me.rnd.k) && m.bProof.pk.e == v
      && com.Some? && (Cong(S.C.q, v, com.value.e) <==> Cong(S.C.q, v, w(b)))
  {
    hide WeightCom;
    assert SP.PeerKnown(S, w, a, b);
    assert SP.Who(S, a).rnd.k * v == v * SP.Who(S, a).rnd.k;
  }
}
