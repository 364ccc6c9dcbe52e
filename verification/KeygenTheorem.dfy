/** The main results on key generation: whatever the interleaving, every party receives the right
    shares and all parties save matching key files. */
module KeygenTheorem {
  import opened Wrappers
  import opened Modular
  import opened Lagrange
  import opened Slots
  import opened Library
  import opened KeyFiles
  import opened Codec
  import opened Machines
  import opened Keygen
  import opened Schedules
  import R = Rounds

  ghost predicate Honest(S: Setup) {
    && S.C.Valid() && 0 < |S.parts| < S.C.q
    && forall p :: 0 <= p < |S.parts| ==> |S.parts[p].poly| == S.t + 1
  }

  ghost function PolyOf(S: Setup): nat -> seq<int> { (p: nat) => if p < |S.parts| then S.parts[p].poly else [] }
  ghost function KeyOf(S: Setup): nat -> nat { (p: nat) => if p < |S.parts| then S.parts[p].key else 0 }

  /** The secrets of all parties taken together. */
  ghost function DealingOf(S: Setup): Dealing {
    Dealing(S.t, Table(|S.parts|, PolyOf(S)), Table(|S.parts|, KeyOf(S)))
  }

  lemma DealingIsValid(S: Setup)
    requires Honest(S)
    ensures DealingOf(S).Valid(S.C.q)
  {
  }

  function Who(S: Setup, a: nat): Part
    requires |S.parts| > 0
  {
    if a < |S.parts| then S.parts[a] else S.parts[0]
  }

  /** Nobody drew zero as its part of the key; with a single party there is nobody to exchange keys with. */
  ghost predicate Usable(S: Setup)
    requires S.C.q > 0
  {
    |S.parts| <= 1 || forall p :: 0 <= p < |S.parts| ==> !Cong(S.C.q, S.parts[p].U(), 0)
  }

  // ----------------------------------------------------------------------------------------------
  // Round 1
  // ----------------------------------------------------------------------------------------------

  ghost function Msg1(S: Setup): nat -> Msg requires |S.parts| > 0 { (b: nat) => OwnFirst(Who(S, b)) }

  ghost function F1(S: Setup): Local1 requires |S.parts| > 0 { Local1(Table(|S.parts|, Msg1(S))) }

  lemma Round1(S: Setup, a: nat)
    requires a < |S.parts|
    ensures Next1(|S.parts|, Who(S, a), a, Peers(|S.parts|, a, Msg1(S))) == Some(F1(S))
  {
    RebuildPeers(|S.parts|, a, Msg1(S));
  }

  // ----------------------------------------------------------------------------------------------
  // Round 2
  // ----------------------------------------------------------------------------------------------

  ghost function Msg2(S: Setup): nat -> Msg requires |S.parts| > 0 { (b: nat) => OwnOpening(Who(S, b)) }

  /** The key that a and b compute, each from its own part and the other's point. */
  ghost function KeyBetween(S: Setup, a: nat): nat -> seq<Byte>
    requires S.C.q > 0 && |S.parts| > 0
  {
    (b: nat) =>
      var key := AesKey(S.C, Base(Who(S, b).U()), Who(S, a).U());
      if key.Some? then key.value else []
  }

  lemma KeyExists(C: Curve, u: int, v: int)
    requires C.q > 0 && C.Valid()
    ensures AesKey(C, Base(u), v).Some? <==> !Cong(C.q, u, 0) && !Cong(C.q, v, 0)
    ensures AesKey(C, Base(u), v).Some? ==>
      && |AesKey(C, Base(u), v).value| == 32
      && Some((FromBytes(AesKey(C, Base(u), v).value))) == XCoord(C, Point(u * v))
  {
    hide Cong, FromBytes, Bytes32;
    NonzeroProduct(C.q, u, v);
    var x := XCoord(C, Times(Base(u), v));
    if x.Some? && x.value >= 0 {
      Bytes32RoundTrip(x.value);
    }
  }

  /** Both ends of a pair compute the same key although it is in different slots of their lists. */
  lemma KeysAgree(S: Setup, a: nat, b: nat)
    requires S.C.q > 0 && a < |S.parts| && b < |S.parts| && a != b
    ensures KeyBetween(S, a)(b) == KeyBetween(S, b)(a)
    ensures Peers(|S.parts|, a, KeyBetween(S, a))[Unskip(a, b)] == Peers(|S.parts|, b, KeyBetween(S, b))[Unskip(b, a)]
  {
    assert Who(S, b).U() * Who(S, a).U() == Who(S, a).U() * Who(S, b).U();
  }

  ghost function ShareFor(S: Setup, p: nat): nat -> int
    requires S.C.q > 0 && |S.parts| > 0
  {
    (i: nat) => Share(S.C.q, Who(S, p).poly, i + 1)
  }

  ghost function F2(S: Setup, a: nat): Local2
    requires S.C.q > 0 && a < |S.parts|
  {
    Local2(F1(S), YVec(DealingOf(S)), Peers(|S.parts|, a, KeyBetween(S, a)), SumPoints(YVec(DealingOf(S))),
      ShareVss(S.t, |S.parts|, Who(S, a).poly), Table(|S.parts|, ShareFor(S, a)))
  }

  lemma OpeningsAre(S: Setup, a: nat)
    requires a < |S.parts|
    ensures OpeningsHeard(Peers(|S.parts|, a, Msg2(S)))
    ensures Rebuild(Peers(|S.parts|, a, Msg2(S)), a, OwnOpening(Who(S, a))) == Table(|S.parts|, Msg2(S))
    ensures OpensAll(Table(|S.parts|, Msg2(S)), F1(S).bc1)
    ensures YsOf(Table(|S.parts|, Msg2(S))) == YVec(DealingOf(S))
  {
    RebuildPeers(|S.parts|, a, Msg2(S));
  }

  lemma KeysAre(S: Setup, a: nat)
    requires S.C.q > 0 && a < |S.parts| && OpeningsHeard(Peers(|S.parts|, a, Msg2(S)))
    requires Honest(S)
    ensures KeysDefined(S.C, Peers(|S.parts|, a, Msg2(S)), Who(S, a).U()) <==> Usable(S)
    ensures Usable(S) ==>
      && KeysDefined(S.C, Peers(|S.parts|, a, Msg2(S)), Who(S, a).U())
      && EncKeys(S.C, Peers(|S.parts|, a, Msg2(S)), Who(S, a).U()) == Peers(|S.parts|, a, KeyBetween(S, a))
  {
    hide AesKey, Cong;
    var n, ans, u := |S.parts|, Peers(|S.parts|, a, Msg2(S)), Who(S, a).U();
    forall j | 0 <= j < n - 1
      ensures AesKey(S.C, ans[j].y, u).Some? <==> !Cong(S.C.q, S.parts[Skip(a, j)].U(), 0) && !Cong(S.C.q, u, 0)
    {
      KeyExists(S.C, S.parts[Skip(a, j)].U(), u);
    }
    if KeysDefined(S.C, ans, u) && n > 1 {
      forall p | 0 <= p < n
        ensures !Cong(S.C.q, S.parts[p].U(), 0)
      {
        assert AesKey(S.C, ans[if p == a then 0 else Unskip(a, p)].y, u).Some?;
      }
    }
  }

  lemma Round2(S: Setup, a: nat)
    requires S.C.q > 0 && a < |S.parts| && Honest(S)
    ensures Next2(S.C, S.t, |S.parts|, Who(S, a), a, F1(S), Peers(|S.parts|, a, Msg2(S)))
         == if Usable(S) then Some(F2(S, a)) else None
  {
    hide OpensAll, KeysDefined, EncKeys, Usable, YVec, F1, SumPoints, ShareVss, Honest, KeyBetween, Msg2;
    OpeningsAre(S, a);
    KeysAre(S, a);
    assert SharesFor(S.C.q, |S.parts|, Who(S, a).poly) == Table(|S.parts|, ShareFor(S, a));
  }

  // ----------------------------------------------------------------------------------------------
  // Round 3: share routing
  // ----------------------------------------------------------------------------------------------

  /** What b sends to a: b's polynomial at a's number, under the key of the two. */
  ghost function Msg3(S: Setup): (nat, nat) -> Msg
    requires S.C.q > 0 && |S.parts| > 0
  {
    (a: nat, b: nat) => SealedFor(KeyBetween(S, b)(a), ShareFor(S, b)(a))
  }

  ghost function SealedFor(key: seq<Byte>, share: int): Msg {
    Sealed(Aead(key, if share >= 0 then ToBytes(share) else []))
  }

  ghost function Outs3(S: Setup): nat -> seq<Msg>
    requires S.C.q > 0 && |S.parts| > 0
  {
    (b: nat) =>
      if b < |S.parts| && Out(Who(S, b), b, At2(F2(S, b))).Some? then Out(Who(S, b), b, At2(F2(S, b))).value else []
  }

  lemma SharesReduced(S: Setup, a: nat)
    requires S.C.q > 0 && a < |S.parts|
    ensures forall i :: 0 <= i < |S.parts| ==> 0 <= F2(S, a).shares[i] < S.C.q
  {
    forall i | 0 <= i < |S.parts|
      ensures 0 <= F2(S, a).shares[i] < S.C.q
    {
      assert F2(S, a).shares[i] == Share(S.C.q, Who(S, a).poly, i + 1);
      Reduced(S.C.q, Eval(Who(S, a).poly, i + 1));
    }
  }

  lemma SharesSent(S: Setup, b: nat)
    requires S.C.q > 0 && b < |S.parts|
    ensures Out(Who(S, b), b, At2(F2(S, b))) == Some(Outs3(S)(b)) && |Outs3(S)(b)| == |S.parts| - 1
    ensures forall a :: 0 <= a < |S.parts| && a != b ==> Outs3(S)(b)[Unskip(b, a)] == Msg3(S)(a, b)
  {
    hide Share, KeyBetween, YVec, F1, SumPoints, ShareVss;
    SharesReduced(S, b);
  }

  ghost function F3(S: Setup, a: nat): Local3
    requires S.C.q > 0 && a < |S.parts|
  {
    Local3(F2(S, a), SharesOf(S.C.q, DealingOf(S), a + 1))
  }

  /** The share in slot p of a's vector is p's polynomial at a's number. */
  ghost function ReceivedFrom(S: Setup, a: nat): nat -> int
    requires S.C.q > 0 && |S.parts| > 0
  {
    (p: nat) => ShareFor(S, p)(a)
  }

  lemma ShareArrives(S: Setup, a: nat, j: nat)
    requires S.C.q > 0 && a < |S.parts| && j < |S.parts| - 1
    ensures ShareOpens(F2(S, a), Peers(|S.parts|, a, To(Msg3(S), a)), j)
    ensures FromBytes(Decrypt(F2(S, a).encKeys[j], Peers(|S.parts|, a, To(Msg3(S), a))[j].aead).value) % S.C.q
         == ReceivedFrom(S, a)(Skip(a, j))
  {
    hide FromBytes, ToBytes, Share, KeyBetween, YVec, F1, SumPoints, ShareVss;
    var b := Skip(a, j);
    KeysAgree(S, a, b);
    var share := ShareFor(S, b)(a);
    assert 0 <= share < S.C.q by {
      SharesReduced(S, b);
      assert F2(S, b).shares[a] == share;
    }
    BytesRoundTrip(share);
    SmallMod(share, S.C.q);
  }

  lemma Round3(S: Setup, a: nat)
    requires S.C.q > 0 && a < |S.parts|
    ensures Next3(S.C.q, |S.parts|, a, F2(S, a), Peers(|S.parts|, a, To(Msg3(S), a))) == Some(F3(S, a))
  {
    hide ShareOpens, FromBytes, Msg3, YVec, F1, SumPoints, ShareVss, KeyBetween, Share;
    var n, ans := |S.parts|, Peers(|S.parts|, a, To(Msg3(S), a));
    forall j | 0 <= j < n - 1
      ensures ShareOpens(F2(S, a), ans, j)
    {
      ShareArrives(S, a, j);
    }
    var plains := OpenedShares(S.C.q, F2(S, a), ans);
    forall j | 0 <= j < n - 1
      ensures plains[j] == Peers(n, a, ReceivedFrom(S, a))[j]
    {
      ShareArrives(S, a, j);
    }
    assert plains == Peers(n, a, ReceivedFrom(S, a));
    RebuildPeers(n, a, ReceivedFrom(S, a));
    ReceivedShares(S, a);
  }

  lemma ReceivedShares(S: Setup, a: nat)
    requires S.C.q > 0 && |S.parts| > 0
    ensures SharesOf(S.C.q, DealingOf(S), a + 1) == Table(|S.parts|, ReceivedFrom(S, a))
  {
    var D := DealingOf(S);
    forall p | 0 <= p < |S.parts|
      ensures SharesOf(S.C.q, D, a + 1)[p] == ReceivedFrom(S, a)(p)
    {
      assert D.Poly(p) == Who(S, p).poly;
      assert ShareFor(S, p)(a) == Share(S.C.q, Who(S, p).poly, a + 1);
    }
  }

  // ----------------------------------------------------------------------------------------------
  // Rounds 4 and 5
  // ----------------------------------------------------------------------------------------------

  ghost function VssOf(S: Setup): nat -> Vss requires |S.parts| > 0 { (p: nat) => ShareVss(S.t, |S.parts|, Who(S, p).poly) }

  ghost function Msg4(S: Setup): nat -> Msg requires |S.parts| > 0 { (b: nat) => Sharing(VssOf(S)(b)) }

  ghost function F4(S: Setup, a: nat): Local4
    requires S.C.q > 0 && a < |S.parts|
  {
    Local4(F3(S, a), VssVec(DealingOf(S)), Sum(SharesOf(S.C.q, DealingOf(S), a + 1)))
  }

  lemma SharingFits(S: Setup, a: nat, p: nat)
    requires S.C.q > 0 && Honest(S) && a < |S.parts| && p < |S.parts|
    ensures ShareFits(S.C.q, a, VssOf(S)(p), ReceivedFrom(S, a)(p), YVec(DealingOf(S))[p])
  {
    hide Eval;
    var poly, vss := S.parts[p].poly, VssOf(S)(p);
    assert Logs(vss.commitments) == poly;
    assert ShareFor(S, p)(a) == Share(S.C.q, poly, a + 1);
    ShareIsEval(S.C.q, poly, a + 1);
    assert DealingOf(S).polys[p] == poly;
    assert YVec(DealingOf(S))[p] == Base(poly[0]) == vss.commitments[0];
  }

  lemma SharingsAre(S: Setup, a: nat)
    requires a < |S.parts|
    ensures SharingsHeard(Peers(|S.parts|, a, Msg4(S)))
    ensures Rebuild(SharingsOf(Peers(|S.parts|, a, Msg4(S))), a, VssOf(S)(a)) == VssVec(DealingOf(S)) == Table(|S.parts|, VssOf(S))
  {
    hide ShareVss;
    assert SharingsOf(Peers(|S.parts|, a, Msg4(S))) == Peers(|S.parts|, a, VssOf(S));
    RebuildPeers(|S.parts|, a, VssOf(S));
  }

  lemma Round4(S: Setup, a: nat)
    requires S.C.q > 0 && Honest(S) && a < |S.parts|
    ensures Next4(S.C.q, |S.parts|, a, F3(S, a), Peers(|S.parts|, a, Msg4(S))) == Some(F4(S, a))
  {
    hide ShareFits, Honest, VssVec, YVec, Msg4, ShareVss, Share, KeyBetween, Sum, F1, SumPoints;
    SharingsAre(S, a);
    YVecSize(S);
    ReceivedShares(S, a);
    var l3 := F3(S, a);
    forall p | 0 <= p < |S.parts|
      ensures ShareFits(S.C.q, a, VssVec(DealingOf(S))[p], l3.partyShares[p], l3.l2.points[p])
    {
      SharingFits(S, a, p);
    }
  }

  lemma YVecSize(S: Setup)
    ensures |YVec(DealingOf(S))| == |S.parts|
  {
  }

  ghost function Msg5(S: Setup): nat -> Msg
    requires S.C.q > 0 && |S.parts| > 0
  {
    (b: nat) => Proof(ProveDLog(Sum(SharesOf(S.C.q, DealingOf(S), Slot(S, b) + 1))))
  }

  lemma ProofsAre(S: Setup, a: nat)
    requires S.C.q > 0 && a < |S.parts|
    ensures ProofsVerify(S.C.q, Rebuild(Peers(|S.parts|, a, Msg5(S)), a, Msg5(S)(a)))
  {
    hide Sum;
    RebuildPeers(|S.parts|, a, Msg5(S));
    forall b: nat
      ensures Msg5(S)(b).Proof? && VerifyDLog(S.C.q, Msg5(S)(b).proof)
    {
      var x := Sum(SharesOf(S.C.q, DealingOf(S), Slot(S, b) + 1));
      assert Msg5(S)(b) == Proof(ProveDLog(x));
    }
  }

  lemma KeysInFile(S: Setup)
    requires |S.parts| > 0
    ensures KeysOf(F1(S).bc1) == DealingOf(S).keys
  {
  }

  lemma Round5(S: Setup, a: nat)
    requires S.C.q > 0 && Honest(S) && a < |S.parts|
    ensures Next5(S.C.q, |S.parts|, Who(S, a), a, F4(S, a), Peers(|S.parts|, a, Msg5(S))) == Some(FileOf(S.C.q, DealingOf(S), a))
  {
    hide ProofsVerify, VssVec, YVec, Sum, SharesOf, KeysOf, F1, SumPoints, ShareVss, KeyBetween;
    ProofsAre(S, a);
    KeysInFile(S);
  }

  // ----------------------------------------------------------------------------------------------
  // The reference execution
  // ----------------------------------------------------------------------------------------------

  ghost function Slot(S: Setup, a: nat): nat { if a < |S.parts| then a else 0 }

  ghost function St1(S: Setup): nat -> Local requires |S.parts| > 0 { (a: nat) => At1(F1(S)) }
  ghost function St2(S: Setup): nat -> Local requires S.C.q > 0 && |S.parts| > 0 { (a: nat) => At2(F2(S, Slot(S, a))) }
  ghost function St3(S: Setup): nat -> Local requires S.C.q > 0 && |S.parts| > 0 { (a: nat) => At3(F3(S, Slot(S, a))) }
  ghost function St4(S: Setup): nat -> Local requires S.C.q > 0 && |S.parts| > 0 { (a: nat) => At4(F4(S, Slot(S, a))) }
  ghost function St5(S: Setup): nat -> Local requires S.C.q > 0 && |S.parts| > 0 {
    (a: nat) => Saved(FileOf(S.C.q, DealingOf(S), Slot(S, a)))
  }

  lemma Moves1(S: Setup, a: nat)
    requires S.C.q > 0 && a < |S.parts|
    ensures Moves(KeygenMachine(S), At0, Msg1(S), St1(S)(a), a)
  {
    hide Next1, F1;
    Round1(S, a);
  }

  lemma Moves2(S: Setup, a: nat)
    requires S.C.q > 0 && Honest(S) && a < |S.parts|
    ensures Usable(S) ==> Moves(KeygenMachine(S), St1(S)(a), Msg2(S), St2(S)(a), a)
    ensures !Usable(S) ==> Halts(KeygenMachine(S), St1(S)(a), Msg2(S), a)
  {
    hide Next2, F1, F2, Usable;
    Round2(S, a);
  }

  lemma Goes3(S: Setup, a: nat)
    requires S.C.q > 0 && a < |S.parts|
    ensures Next(S, a, St2(S)(a), Peers(|S.parts|, a, To(Msg3(S), a))) == Some(St3(S)(a))
  {
    hide Next3, F2, F3, Msg3;
    Round3(S, a);
  }

  lemma Moves4(S: Setup, a: nat)
    requires S.C.q > 0 && Honest(S) && a < |S.parts|
    ensures Moves(KeygenMachine(S), St3(S)(a), Msg4(S), St4(S)(a), a)
  {
    hide Next4, F1, ShareVss, VssVec, SharesOf, Sum;
    Round4(S, a);
    assert St3(S)(a) == At3(F3(S, a)) && St4(S)(a) == At4(F4(S, a));
    assert F3(S, a).l2.vss == VssOf(S)(a);
  }

  lemma Moves5(S: Setup, a: nat)
    requires S.C.q > 0 && Honest(S) && a < |S.parts|
    ensures Moves(KeygenMachine(S), St4(S)(a), Msg5(S), St5(S)(a), a)
  {
    hide Next5, F3, VssVec, Sum, SharesOf, FileOf;
    Round5(S, a);
  }

  lemma ShareRound(S: Setup)
    requires S.C.q > 0 && |S.parts| > 0 && After(KeygenMachine(S), 2, St2(S))
    ensures After(KeygenMachine(S), 3, St3(S))
  {
    hide Next, Out, F2, F3, Msg3, Outs3, After;
    forall a | 0 <= a < |S.parts|
      ensures Out(Who(S, a), a, St2(S)(a)) == Some(Outs3(S)(a)) && |Outs3(S)(a)| == |S.parts| - 1
      ensures Next(S, a, St2(S)(a), Peers(|S.parts|, a, To(Msg3(S), a))) == Some(St3(S)(a))
      ensures forall b :: 0 <= b < |S.parts| && b != a ==> Outs3(S)(a)[Unskip(a, b)] == Msg3(S)(b, a)
    {
      SharesSent(S, a);
      Goes3(S, a);
    }
    PointToPointRound(KeygenMachine(S), 2, St2(S), Outs3(S), Msg3(S), St3(S));
  }

  /** All parties get past round 3 if nobody drew zero; otherwise they panic in round 2. */
  lemma ToRound3(S: Setup)
    requires S.C.q > 0 && |S.parts| > 0 && Honest(S)
    ensures Usable(S) ==> After(KeygenMachine(S), 3, St3(S))
    ensures !Usable(S) ==>
      Heard(KeygenMachine(S), 3) == None && NobodyFinishes(KeygenMachine(S)) && !R.Completes(KeygenProtocol(S))
  {
    hide Honest, Usable, Moves, Halts, After, F1, F2, F3, R.Completes, NobodyFinishes, Msg1, Msg2, Heard;
    var A, start := KeygenMachine(S), (a: nat) => At0;
    AtStart(A, start);
    forall a | 0 <= a < |S.parts|
      ensures Moves(A, start(a), Msg1(S), St1(S)(a), a)
      ensures if Usable(S) then Moves(A, St1(S)(a), Msg2(S), St2(S)(a), a) else Halts(A, St1(S)(a), Msg2(S), a)
    {
      Moves1(S, a);
      Moves2(S, a);
    }
    BroadcastRound(A, 0, start, Msg1(S), St1(S));
    if Usable(S) {
      BroadcastRound(A, 1, St1(S), Msg2(S), St2(S));
      ShareRound(S);
    } else {
      PanicRound(A, 1, St1(S), Msg2(S));
    }
  }

  /** The reference execution completes exactly if nobody drew zero, and then every party saves the
      key file that belongs to its number. */
  lemma ReferenceKeygen(S: Setup)
    requires S.C.q > 0 && |S.parts| > 0 && Honest(S)
    ensures R.Completes(KeygenProtocol(S)) <==> Usable(S)
    ensures R.Completes(KeygenProtocol(S)) || NobodyFinishes(KeygenMachine(S))
    ensures R.Completes(KeygenProtocol(S)) ==> After(KeygenMachine(S), ROUNDS, St5(S))
  {
    hide Honest, Usable, Moves, After, F3, F4, FileOf, R.Completes, NobodyFinishes, Msg4, Msg5, Heard;
    var A := KeygenMachine(S);
    ToRound3(S);
    if Usable(S) {
      forall a | 0 <= a < |S.parts|
        ensures Moves(A, St3(S)(a), Msg4(S), St4(S)(a), a)
        ensures Moves(A, St4(S)(a), Msg5(S), St5(S)(a), a)
      {
        Moves4(S, a);
        Moves5(S, a);
      }
      BroadcastRound(A, 3, St3(S), Msg4(S), St4(S));
      BroadcastRound(A, 4, St4(S), Msg5(S), St5(S));
      EndCompletes(A, St5(S));
    }
  }

  // ----------------------------------------------------------------------------------------------
  // Every interleaving
  // ----------------------------------------------------------------------------------------------

  ghost function ConstantsOf(S: Setup): nat -> int {
    (b: nat) => if b < |S.parts| && |S.parts[b].poly| > 0 then S.parts[b].poly[0] else 0
  }

  ghost function ValuesOf(S: Setup, x: int): nat -> int {
    (b: nat) => if b < |S.parts| then Eval(S.parts[b].poly, x) else 0
  }

  /** The sharing of a polynomial among n parties with threshold t: one commitment for each coefficient. */
  ghost predicate SharingFor(vss: Vss, t: nat, n: nat, poly: seq<int>) {
    && vss.threshold == t && vss.shareCount == n
    && |vss.commitments| == |poly| == t + 1
    && forall k :: 0 <= k < |poly| ==> vss.commitments[k].e == poly[k]
  }

  /** What the key file of party number a + 1 holds, field by field: its number, its own part of the key
      with the point to it, which is also the first commitment in its own slot, its own Paillier key, in
      its slot of all parties' keys, the sharings of all parties in the order of their numbers, the public
      key and the value of the sum of all polynomials at its number. */
  ghost predicate FileFits(S: Setup, a: nat, file: KeyFile)
    requires S.C.q > 0 && a < |S.parts|
  {
    var n := |S.parts|;
    && file.partyId == a + 1
    && |file.vss| == n && (forall b :: 0 <= b < n ==> SharingFor(file.vss[b], S.t, n, S.parts[b].poly))
    && file.u == file.y.e == S.parts[a].poly[0] == file.vss[a].commitments[0].e
    && |file.eks| == n && (forall b :: 0 <= b < n ==> file.eks[b] == S.parts[b].key) && file.key == file.eks[a]
    && file.ySum.e == SumTo(n, ConstantsOf(S))
    && Cong(S.C.q, file.x, SumTo(n, ValuesOf(S, a + 1)))
  }

  lemma FilesFit(S: Setup, a: nat)
    requires S.C.q > 0 && Honest(S) && a < |S.parts|
    ensures FileFits(S, a, FileOf(S.C.q, DealingOf(S), a))
  {
    hide Eval, SumTo, Sum, SharesOf, SumPoints, YVec, Cong;
    var D, n := DealingOf(S), |S.parts|;
    var file := FileOf(S.C.q, D, a);
    DealingIsValid(S);
    ShareIsValue(S.C.q, D, a);
    SumExt(n, ValueAt(D, a + 1), ValuesOf(S, a + 1));
    PublicKeyIsSecret(S.C.q, D, a);
    SumExt(n, Us(D), ConstantsOf(S));
    forall b | 0 <= b < n
      ensures SharingFor(file.vss[b], S.t, n, S.parts[b].poly)
    {
      assert file.vss[b] == ShareVss(S.t, n, S.parts[b].poly);
    }
    assert SharingFor(file.vss[a], S.t, n, S.parts[a].poly);
  }

  /** Safety: in every interleaving a party that finishes saves the key file that belongs to its
      number, made from the secrets of all parties; FileFits says what it holds. */
  lemma EveryRunGeneratesKeys(S: Setup, schedule: seq<nat>, a: nat)
    requires S.C.q > 0 && Honest(S) && R.WellFormed(KeygenProtocol(S)) && a < |S.parts|
    ensures |R.Run(KeygenProtocol(S), schedule).parties| == |S.parts|
    ensures
      var p := R.Run(KeygenProtocol(S), schedule).parties[a];
      p.stage.Done? ==>
        && Usable(S) && Result(S, a, p.heard) == Some(FileOf(S.C.q, DealingOf(S), a))
        && FileFits(S, a, Result(S, a, p.heard).value)
  {
    hide Honest, Usable, FileOf, FileFits, R.Completes, NobodyFinishes, StateAfter;
    FilesFit(S, a);
    ReferenceKeygen(S);
    DoneState(KeygenMachine(S), St5(S), schedule, a);
  }

  /** Progress: in every fair interleaving all parties finish exactly if nobody drew zero. */
  lemma FairKeygenFinishes(S: Setup, sweeps: seq<seq<nat>>)
    requires S.C.q > 0 && Honest(S) && R.WellFormed(KeygenProtocol(S))
    requires |sweeps| >= R.Enough(KeygenProtocol(S))
    requires forall i :: 0 <= i < |sweeps| ==> R.Sweep(KeygenProtocol(S), sweeps[i])
    ensures R.AllDone(R.Run(KeygenProtocol(S), Concat(sweeps))) <==> Usable(S)
  {
    hide Honest, Usable, FileOf, R.Completes, R.Sweep, R.AllDone, R.Enough, NobodyFinishes, After;
    assert |S.parts| > 0;
    ReferenceKeygen(S);
    R.FairRunsFinish(KeygenProtocol(S), sweeps);
  }

  /** Share routing: in every interleaving a party past round 3 holds in slot p the value of p's
      polynomial at its own number. */
  lemma SharesRouted(S: Setup, schedule: seq<nat>, a: nat, p: nat)
    requires S.C.q > 0 && Honest(S) && R.WellFormed(KeygenProtocol(S)) && a < |S.parts| && p < |S.parts|
    ensures |R.Run(KeygenProtocol(S), schedule).parties| == |S.parts|
    ensures
      var heard := R.Run(KeygenProtocol(S), schedule).parties[a].heard;
      |heard| >= 3 ==>
        var l := StateAfter(KeygenMachine(S), a, heard[..3]);
        && l.Some? && l.value.At3? && |l.value.l3.partyShares| == |S.parts|
        && l.value.l3.partyShares[p] == Share(S.C.q, S.parts[p].poly, a + 1)
  {
    hide Honest, Usable, F2, R.Completes, NobodyFinishes, StateAfter, Share, After, Heard;
    ToRound3(S);
    StateAtRound(KeygenMachine(S), 3, St3(S), schedule, a);
  }
}
