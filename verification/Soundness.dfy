/** What a party holds at the end whoever its peers are and whatever they have sent: the checks of the two
    protocols are enough for a consistent key file and for a valid signature. */
module Soundness {
  import opened Wrappers
  import opened Modular
  import opened Lagrange
  import opened Library
  import opened KeyFiles
  import opened Codec
  import opened Machines
  import opened Keygen
  import E = Ecdsa
  import SR = SignRun
  import Sg = Signing
  import Rejections

  /** The values at x of the polynomials committed to. */
  ghost function CommittedAt(vss: seq<Vss>, x: int): nat -> int {
    (i: nat) => if i < |vss| then Eval(Logs(vss[i].commitments), x) else 0
  }

  /** The constant terms committed to. */
  ghost function CommittedSecrets(vss: seq<Vss>): nat -> int {
    (i: nat) => if i < |vss| && |vss[i].commitments| > 0 then vss[i].commitments[0].e else 0
  }

  /** The share is the one the sharings determine for the party's number, and the public key is that of the
      sharings' secrets; the own values are in the own slots. */
  ghost predicate FileSound(S: Setup, a: nat, file: KeyFile)
    requires S.C.q > 0 && a < |S.parts|
  {
    var n := |S.parts|;
    && file.partyId == a + 1 && |file.vss| == |file.eks| == n && file.eks[a] == file.key == S.parts[a].key
    && (forall i :: 0 <= i < n ==> |file.vss[i].commitments| > 0)
    && Cong(S.C.q, file.x, SumTo(n, CommittedAt(file.vss, a + 1)))
    && Cong(S.C.q, file.ySum.e, SumTo(n, CommittedSecrets(file.vss)))
  }

  ghost predicate Fine1(S: Setup, a: nat, l: Local1)
    requires a < |S.parts|
  {
    |l.bc1| == |S.parts| && l.bc1[a] == OwnFirst(S.parts[a])
  }

  ghost predicate Fine2(S: Setup, a: nat, l: Local2)
    requires a < |S.parts|
  {
    Fine1(S, a, l.l1) && |l.points| == |S.parts| && l.ySum == SumPoints(l.points)
  }

  /** Every share fits its sharing and the point in the same slot. */
  ghost predicate Fine4(S: Setup, a: nat, l: Local4)
    requires S.C.q > 0 && a < |S.parts|
  {
    var points, shares := l.l3.l2.points, l.l3.partyShares;
    && Fine2(S, a, l.l3.l2)
    && |l.vssVec| == |shares| == |S.parts| && l.x == Sum(shares)
    && forall i :: 0 <= i < |S.parts| ==>
         && Cong(S.C.q, shares[i], Eval(Logs(l.vssVec[i].commitments), a + 1))
         && |l.vssVec[i].commitments| > 0 && Cong(S.C.q, l.vssVec[i].commitments[0].e, points[i].e)
  }

  ghost predicate Fine(S: Setup, a: nat, l: Local)
    requires S.C.q > 0 && a < |S.parts|
  {
    match l
    case At0 => true
    case At1(l) => Fine1(S, a, l)
    case At2(l) => Fine2(S, a, l)
    case At3(l) => Fine2(S, a, l.l2)
    case At4(l) => Fine4(S, a, l)
    case Saved(file) => FileSound(S, a, file)
  }

  lemma SharesFit(S: Setup, a: nat, l3: Local3, ans: seq<Msg>)
    requires S.C.q > 0 && a < |S.parts| && Fine2(S, a, l3.l2) && Next4(S.C.q, |S.parts|, a, l3, ans).Some?
    ensures Fine4(S, a, Next4(S.C.q, |S.parts|, a, l3, ans).value)
  {
    hide Fine1, Eval, Sum, SumPoints;
    var l := Next4(S.C.q, |S.parts|, a, l3, ans).value;
    forall i | 0 <= i < |S.parts|
      ensures Cong(S.C.q, l3.partyShares[i], Eval(Logs(l.vssVec[i].commitments), a + 1))
      ensures |l.vssVec[i].commitments| > 0 && Cong(S.C.q, l.vssVec[i].commitments[0].e, l3.l2.points[i].e)
    {
      assert ShareFits(S.C.q, a, l.vssVec[i], l3.partyShares[i], l3.l2.points[i]);
    }
  }

  ghost function ItemsOf(s: seq<int>): nat -> int {
    (i: nat) => if i < |s| then s[i] else 0
  }

  lemma SumsAgree(q: int, s: seq<int>, f: nat -> int)
    requires q > 0 && forall i :: 0 <= i < |s| ==> Cong(q, s[i], f(i))
    ensures Cong(q, Sum(s), SumTo(|s|, f))
  {
    SumIsSumTo(s, |s|, ItemsOf(s));
    SumCong(q, |s|, ItemsOf(s), f);
  }

  lemma FileIsSound(S: Setup, a: nat, l4: Local4, ans: seq<Msg>)
    requires S.C.q > 0 && a < |S.parts| && Fine4(S, a, l4) && Next5(S.C.q, |S.parts|, S.parts[a], a, l4, ans).Some?
    ensures FileSound(S, a, Next5(S.C.q, |S.parts|, S.parts[a], a, l4, ans).value)
  {
    hide Eval, Sum, SumTo, ProofsVerify, Cong;
    var q, points := S.C.q, l4.l3.l2.points;
    SumsAgree(q, l4.l3.partyShares, CommittedAt(l4.vssVec, a + 1));
    forall i | 0 <= i < |points|
      ensures Cong(q, Logs(points)[i], CommittedSecrets(l4.vssVec)(i))
    {
      CongSymmetric(q, l4.vssVec[i].commitments[0].e, points[i].e);
    }
    SumsAgree(q, Logs(points), CommittedSecrets(l4.vssVec));
  }

  lemma CongSymmetric(q: int, a: int, b: int)
    requires q > 0 && Cong(q, a, b)
    ensures Cong(q, b, a)
  {
  }

  lemma StepIsFine(S: Setup, a: nat, l: Local, ans: seq<Msg>)
    requires S.C.q > 0 && a < |S.parts| && Fine(S, a, l) && Next(S, a, l, ans).Some?
    ensures Fine(S, a, Next(S, a, l, ans).value)
  {
    hide Next4, Next5, Fine4, FileSound, AesKey, ShareVss, SharesFor, SumPoints, OpenedShares;
    match l
    case At0 =>
    case At1(l) =>
    case At2(l) =>
    case At3(l) => if Next4(S.C.q, |S.parts|, a, l, ans).Some? { SharesFit(S, a, l, ans); }
    case At4(l) => if Next5(S.C.q, |S.parts|, S.parts[a], a, l, ans).Some? { FileIsSound(S, a, l, ans); }
    case Saved(_) =>
  }

  lemma {:induction false} AlwaysFine(S: Setup, a: nat, heard: seq<seq<Msg>>)
    requires S.C.q > 0 && a < |S.parts|
    ensures
      var l := StateAfter(KeygenMachine(S), a, heard);
      l.Some? ==> Fine(S, a, l.value)
    decreases |heard|
  {
    hide Fine, Next;
    if |heard| > 0 {
      var l := StateAfter(KeygenMachine(S), a, heard[..|heard| - 1]);
      AlwaysFine(S, a, heard[..|heard| - 1]);
      if l.Some? && Next(S, a, l.value, heard[|heard| - 1]).Some? {
        StepIsFine(S, a, l.value, heard[|heard| - 1]);
      }
    } else {
      assert Fine(S, a, At0) by {
        StartIsFine(S, a);
      }
    }
  }

  lemma StartIsFine(S: Setup, a: nat)
    requires S.C.q > 0 && a < |S.parts|
    ensures Fine(S, a, At0)
  {
  }

  /** Whatever a party of key generation has heard, from whomever: if it saves a key file, its share is the
      one that the saved sharings determine for its number, and the public key is that of the secrets that
      these sharings commit to. */
  lemma SavedFileIsSound(S: Setup, a: nat, heard: seq<seq<Msg>>)
    requires S.C.q > 0 && a < |S.parts|
    ensures
      var file := Result(S, a, heard);
      file.Some? ==> FileSound(S, a, file.value)
  {
    hide FileSound, StateAfter;
    AlwaysFine(S, a, heard);
  }

  /** Whatever a signer has heard, from whomever: if it returns a signature, this has the smaller s and solves
      the signature equation for the message and the public key in the signer's file; the message is
      below 2^256. */
  lemma ReturnedSignatureIsSound(S: SR.Setup, a: nat, heard: seq<seq<Sg.Msg>>)
    requires S.C.q > 0 && S.C.Valid() && a < |S.signers|
    ensures
      var sig := SR.Result(S, a, heard);
      sig.Some? ==>
        && S.message < TWO_TO_THE_256
        && 1 <= sig.value.r < S.C.q && 1 <= sig.value.s && 2 * sig.value.s <= S.C.q
        && exists rLog :: E.Solves(S.C, S.message, S.signers[a].file.ySum.e, sig.value, rLog)
  {
    hide Sg.Finish, E.Solves;
    if SR.Result(S, a, heard).Some? {
      var last := |heard| - 1;
      var l := StateAfter(SR.SignMachine(S), a, heard[..last]);
      assert l.Some? && SR.Next(S, a, l.value, heard[last]) == Some(SR.Signed(SR.Result(S, a, heard).value));
      OnlyFinishSigns(S, a, l.value, heard[last]);
      Rejections.WhateverItHears(S.C, S.message, S.t, S.signers[a], a, l.value.l9, heard[last]);
    }
  }

  lemma OnlyFinishSigns(S: SR.Setup, a: nat, l: SR.Local, ans: seq<Sg.Msg>)
    requires S.C.q > 0 && a < |S.signers| && SR.Next(S, a, l, ans).Some? && SR.Next(S, a, l, ans).value.Signed?
    ensures l.At9? && Sg.Finish(S.C, S.message, S.t, S.signers[a], a, l.l9, ans) == Some(SR.Next(S, a, l, ans).value.sig)
  {
    hide Sg.Finish, Sg.Next1, Sg.Next2, Sg.Next3, Sg.Next4, Sg.Next5, Sg.Next6, Sg.Next7, Sg.Next8, Sg.Next9;
  }
}
