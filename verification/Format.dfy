/** The loops that turn the answers of a round into vectors with one slot for each signer, with a
    counter j that moves through the answers. None stands for a panic. */
module Format {
  import opened Wrappers
  import opened Modular
  import opened Slots
  import opened Vectors
  import opened Library
  import opened KeyFiles
  import Signing

  /** Appends the answers with the own value in its slot; panics if the own slot is not one of them,
      having appended the answers alone. */
  method FormatVecFromReads<T>(ans: seq<T>, partyNum: nat, value: T, newVec: Vec<T>) returns (ok: bool)
    modifies newVec
    ensures ok <==> 1 <= partyNum <= |ans| + 1
    ensures newVec.items == old(newVec.items) + if ok then Rebuild(ans, partyNum - 1, value) else ans
  {
    hide Front, Rebuild;
    var j := 0;
    FrontEnds(ans, partyNum, value);
    for i := 1 to |ans| + 2
      invariant i - 1 <= |ans| || 1 <= partyNum <= i - 1
      invariant j == Passed(partyNum, i - 1) <= |ans|
      invariant newVec.items == old(newVec.items) + Front(ans, partyNum, value, i - 1)
    {
      if i == partyNum {
        FrontNext(ans, partyNum, value, i - 1);
        newVec.Push(value);
      } else {
        if j >= |ans| {
          AllPassed(ans, partyNum, value);
          return false;
        }
        FrontNext(ans, partyNum, value, i - 1);
        newVec.Push(ans[j]);
        j := j + 1;
      }
    }
    ok := true;
  }

  /** The zero-based keygen indices that the answers announce. */
  function IdsIn(ans: seq<Signing.Msg>, k: nat): (ids: seq<nat>)
    requires k <= |ans| && forall l :: 0 <= l < k ==> ans[l].PartyId? && ans[l].id >= 1
    ensures |ids| == k && forall l :: 0 <= l < k ==> ids[l] == ans[l].id - 1
  {
    seq(k, l requires 0 <= l < k => ans[l].id - 1)
  }

  /** The zero-based keygen indices of all signers. For a party number beyond t + 1 the list has no slot
      of its own. */
  method FormatSigners(t: nat, partyNum: nat, partyId: nat, ans: seq<Signing.Msg>) returns (r: Option<seq<nat>>)
    ensures
      var k := Passed(partyNum, t + 1);
      && (r.Some? <==>
            && k <= |ans| && (forall l :: 0 <= l < k ==> ans[l].PartyId? && ans[l].id >= 1)
            && (1 <= partyNum <= t + 1 ==> partyId >= 1))
      && (r.Some? ==> r.value == Front<nat>(IdsIn(ans, k), partyNum, if partyId >= 1 then partyId - 1 else 0, t + 1))
  {
    hide Front, Rebuild;
    var j, ids: seq<nat>, signers: seq<nat> := 0, [], [];
    ghost var own: nat := if partyId >= 1 then partyId - 1 else 0;
    FrontEnds(ids, partyNum, own);
    for i := 1 to t + 2
      invariant j == Passed(partyNum, i - 1) == |ids| <= |ans|
      invariant 1 <= partyNum <= i - 1 ==> partyId >= 1
      invariant forall l :: 0 <= l < j ==> ans[l].PartyId? && ans[l].id >= 1 && ids[l] == ans[l].id - 1
      invariant signers == Front(ids, partyNum, own, i - 1)
    {
      if i == partyNum {
        if partyId < 1 {
          return None;
        }
        FrontNext(ids, partyNum, own, i - 1);
        signers := signers + [partyId - 1];
      } else {
        if j >= |ans| || !ans[j].PartyId? || ans[j].id < 1 {
          PassedGrows(partyNum, i, t + 1);
          return None;
        }
        ids := ids + [ans[j].id - 1];
        FrontNext(ids, partyNum, own, i - 1);
        FrontPrefix(ids, partyNum, own, i - 1);
        signers := signers + [ans[j].id - 1];
        j := j + 1;
      }
    }
    assert ids == IdsIn(ans, j);
    r := Some(signers);
  }

  lemma PassedGrows(p: nat, k: nat, m: nat)
    requires 1 <= k <= m && k != p
    ensures Passed(p, k - 1) < Passed(p, m)
  {
  }

  /** For a signer with a slot of its own this is the list of all signers. */
  lemma OwnSlotInList(t: nat, partyNum: nat, partyId: nat, ans: seq<Signing.Msg>)
    requires 1 <= partyNum <= t + 1 && Signing.IdsHeard(ans, t) && partyId >= 1
    ensures Front<nat>(IdsIn(ans, t), partyNum, partyId - 1, t + 1) == Signing.FormatSigners(ans, t, partyNum - 1, partyId)
  {
    var own: nat := partyId - 1;
    assert IdsIn(ans, t) == Signing.IdsOf(ans, t);
    FrontEnds(IdsIn(ans, t), partyNum, own);
  }

  /** The commitments of all signers and the messages A of the peers. */
  method FormatBroadcastPhase1AndMessageAVec(t: nat, partyNum: nat, com: Com<Point>, ans: seq<Signing.Msg>)
    returns (r: Option<(seq<Com<Point>>, seq<MessageA>)>)
    requires 1 <= partyNum <= t + 1 && |ans| == t
    ensures r.Some? <==> Signing.Round1Heard(ans, t)
    ensures r.Some? ==>
      && r.value.0 == Rebuild(Signing.ComsOf(ans, t), partyNum - 1, com)
      && |r.value.1| == t && forall l :: 0 <= l < t ==> r.value.1[l] == ans[l].mA
  {
    hide Front, Rebuild;
    var bc1Vec, mAVec := [], [];
    ghost var coms := [];
    var j := 0;
    FrontEnds(coms, partyNum, com);
    for i := 1 to t + 2
      invariant j == Passed(partyNum, i - 1) == |coms| == |mAVec|
      invariant forall l :: 0 <= l < j ==> ans[l].Round1? && coms[l] == ans[l].com && mAVec[l] == ans[l].mA
      invariant bc1Vec == Front(coms, partyNum, com, i - 1)
    {
      if i == partyNum {
        FrontNext(coms, partyNum, com, i - 1);
        bc1Vec := bc1Vec + [com];
      } else {
        if !ans[j].Round1? {
          return None;
        }
        coms := coms + [ans[j].com];
        FrontNext(coms, partyNum, com, i - 1);
        FrontPrefix(coms, partyNum, com, i - 1);
        bc1Vec := bc1Vec + [ans[j].com];
        mAVec := mAVec + [ans[j].mA];
        j := j + 1;
      }
    }
    assert coms == Signing.ComsOf(ans, t);
    FrontEnds(coms, partyNum, com);
    r := Some((bc1Vec, mAVec));
  }

  /** The replies to the peers' messages A and the shares kept: the reply to the peer in slot i - 1 is
      made under the key of the party that signers lists in this slot. */
  method FormatMessageBAndNiVec(t: nat, partyNum: nat, me: Signing.Signer, w: int, ans: seq<Signing.Msg>, mAVec: seq<MessageA>, signers: seq<nat>)
    returns (r: Option<(seq<MessageB>, seq<int>, seq<MessageB>, seq<int>)>)
    requires 1 <= partyNum <= t + 1 && |signers| == t + 1
    requires Signing.Round1Heard(ans, t) && |mAVec| == t && forall l :: 0 <= l < t ==> mAVec[l] == ans[l].mA
    ensures r.Some? <==> Signing.KeysKnown(me, partyNum - 1, signers)
    ensures r.Some? ==>
      && r.value.0 == Signing.Replies(t, me, partyNum - 1, signers, ans, me.rnd.gamma, me.rnd.gammaTag)
      && r.value.1 == Signing.Betas(t, me.rnd.gammaTag)
      && r.value.2 == Signing.Replies(t, me, partyNum - 1, signers, ans, w, me.rnd.wTag)
      && r.value.3 == Signing.Betas(t, me.rnd.wTag)
  {
    hide MtaB, MtaBeta, Skip, Signing.Replies, Signing.Betas, Signing.KeysKnown;
    var mbGamma, betas, mbW, nis := [], [], [], [];
    var own, j := partyNum - 1, 0;
    for i := 1 to t + 2
      invariant j == Passed(partyNum, i - 1) == |mbGamma| == |betas| == |mbW| == |nis|
      invariant forall l :: 0 <= l < j ==> signers[Skip(own, l)] < |me.file.eks|
      invariant forall l :: 0 <= l < j ==> mbGamma[l] == MtaB(me.rnd.gamma, me.file.eks[signers[Skip(own, l)]], ans[l].mA, me.rnd.gammaTag(l))
      invariant forall l :: 0 <= l < j ==> mbW[l] == MtaB(w, me.file.eks[signers[Skip(own, l)]], ans[l].mA, me.rnd.wTag(l))
      invariant forall l :: 0 <= l < j ==> betas[l] == MtaBeta(me.rnd.gammaTag(l)) && nis[l] == MtaBeta(me.rnd.wTag(l))
    {
      if i != partyNum {
        PeerSlot(partyNum, i);
        if signers[i - 1] >= |me.file.eks| {
          KeyIsMissing(me, own, signers, i - 1);
          return None;
        }
        var messageA, key := mAVec[j], me.file.eks[signers[i - 1]];
        mbGamma := mbGamma + [MtaB(me.rnd.gamma, key, messageA, me.rnd.gammaTag(j))];
        mbW := mbW + [MtaB(w, key, messageA, me.rnd.wTag(j))];
        betas := betas + [MtaBeta(me.rnd.gammaTag(j))];
        nis := nis + [MtaBeta(me.rnd.wTag(j))];
        j := j + 1;
      }
    }
    AllPeersKnown(t, own, me, signers);
    RepliesBuilt(t, me, own, signers, ans, me.rnd.gamma, me.rnd.gammaTag, mbGamma, betas);
    RepliesBuilt(t, me, own, signers, ans, w, me.rnd.wTag, mbW, nis);
    r := Some((mbGamma, betas, mbW, nis));
  }

  lemma KeyIsMissing(me: Signing.Signer, own: nat, signers: seq<nat>, b: nat)
    requires b < |signers| && b != own && signers[b] >= |me.file.eks|
    ensures !Signing.KeysKnown(me, own, signers)
  {
  }

  lemma RepliesBuilt(t: nat, me: Signing.Signer, own: nat, signers: seq<nat>, ans: seq<Signing.Msg>, secret: int, tag: nat -> int,
                     mb: seq<MessageB>, betas: seq<int>)
    requires own <= t && Signing.Round1Heard(ans, t) && |signers| == t + 1 && Signing.KeysKnown(me, own, signers)
    requires |mb| == |betas| == t
    requires forall l :: 0 <= l < t ==> mb[l] == MtaB(secret, me.file.eks[signers[Skip(own, l)]], ans[l].mA, tag(l)) && betas[l] == MtaBeta(tag(l))
    ensures mb == Signing.Replies(t, me, own, signers, ans, secret, tag) && betas == Signing.Betas(t, tag)
  {
    hide MtaB, MtaBeta;
  }

  lemma PeerSlot(p: nat, i: nat)
    requires p >= 1 && i >= 1 && i != p
    ensures Skip(p - 1, Passed(p, i - 1)) == i - 1
  {
  }

  lemma AllPeersKnown(t: nat, own: nat, me: Signing.Signer, signers: seq<nat>)
    requires own <= t && |signers| == t + 1
    requires forall l :: 0 <= l < t ==> signers[Skip(own, l)] < |me.file.eks|
    ensures Signing.KeysKnown(me, own, signers)
  {
    forall b | 0 <= b <= t && b != own
      ensures signers[b] < |me.file.eks|
    {
      assert Skip(own, Unskip(own, b)) == b;
    }
  }

  /** Splits the answers of round 2. */
  method FormatRound2RecGammaAndWVec(t: nat, ans: seq<Signing.Msg>) returns (r: Option<(seq<MessageB>, seq<MessageB>)>)
    requires |ans| == t
    ensures r.Some? <==> Signing.Round2Heard(ans, t)
    ensures r.Some? ==>
      && r.value.0 == Signing.MbGammasOf(ans, t)
      && |r.value.1| == t && forall l :: 0 <= l < t ==> r.value.1[l] == ans[l].mbW
  {
    var gammas, ws := [], [];
    for i := 0 to t
      invariant |gammas| == |ws| == i
      invariant forall l :: 0 <= l < i ==> ans[l].Round2? && gammas[l] == ans[l].mbGamma && ws[l] == ans[l].mbW
    {
      if !ans[i].Round2? {
        return None;
      }
      gammas := gammas + [ans[i].mbGamma];
      ws := ws + [ans[i].mbW];
    }
    assert gammas == Signing.MbGammasOf(ans, t);
    r := Some((gammas, ws));
  }

  /** The scalar is that of the commitment to the weight of the party in slot b of the list of signers. */
  ghost predicate CarriesWeight(q: int, vss: seq<Vss>, signers: seq<nat>, b: nat, e: int)
    requires q > 0
  {
    b < |signers| &&
    var com := Signing.WeightCom(q, vss, signers, b);
    com.Some? && Cong(q, e, com.value.e)
  }

  /** Decrypts the replies and checks that the peer in slot i - 1 has used the weight that the
      commitments of key generation determine for the party listed in this slot. */
  method FormatRound2AlphaAndMiuVec(q: int, t: nat, partyNum: nat, ans: seq<Signing.Msg>, mbGammas: seq<MessageB>, mbWs: seq<MessageB>,
                                    me: Signing.Signer, signers: seq<nat>)
    returns (r: Option<(seq<int>, seq<int>)>)
    requires q > 0 && 1 <= partyNum <= t + 1 && |signers| == t + 1 && Signing.Round2Heard(ans, t)
    requires mbGammas == Signing.MbGammasOf(ans, t) && |mbWs| == t && forall l :: 0 <= l < t ==> mbWs[l] == ans[l].mbW
    ensures r.Some? <==> Signing.Replies2Ok(q, t, me, partyNum - 1, signers, ans)
    ensures r.Some? ==>
      && r.value.0 == Signing.Alphas(q, t, me, partyNum - 1, signers, ans)
      && r.value.1 == Signing.Mius(q, t, me, partyNum - 1, signers, ans)
    ensures r.Some? ==> forall l :: 0 <= l < t ==> CarriesWeight(q, me.file.vss, signers, Skip(partyNum - 1, l), mbWs[l].bProof.pk.e)
  {
    hide MtaAlpha, Signing.WeightCom;
    var alphas, mius := [], [];
    var own, j := partyNum - 1, 0;
    for i := 1 to t + 2
      invariant j == Passed(partyNum, i - 1) == |alphas| == |mius|
      invariant forall l :: 0 <= l < j ==> Signing.Reply2Ok(q, me, own, signers, ans, l)
      invariant forall l :: 0 <= l < j ==> CarriesWeight(q, me.file.vss, signers, Skip(own, l), mbWs[l].bProof.pk.e)
      invariant forall l :: 0 <= l < j ==>
        && MtaAlpha(q, ans[l].mbGamma, me.file.key, me.rnd.k) == Some(alphas[l])
        && MtaAlpha(q, ans[l].mbW, me.file.key, me.rnd.k) == Some(mius[l])
    {
      if i != partyNum {
        assert Skip(own, j) == i - 1;
        var alpha := MtaAlpha(q, mbGammas[j], me.file.key, me.rnd.k);
        var miu := MtaAlpha(q, mbWs[j], me.file.key, me.rnd.k);
        var gW := Signing.WeightCom(q, me.file.vss, signers, i - 1);
        if alpha.None? || miu.None? || gW.None? || !SamePoint(q, mbWs[j].bProof.pk, gW.value) {
          assert !Signing.Reply2Ok(q, me, own, signers, ans, j);
          return None;
        }
        alphas := alphas + [alpha.value];
        mius := mius + [miu.value];
        j := j + 1;
      }
    }
    assert alphas == Signing.Alphas(q, t, me, own, signers, ans) && mius == Signing.Mius(q, t, me, own, signers, ans);
    r := Some((alphas, mius));
  }
}
