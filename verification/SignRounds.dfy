/** The honest signing run in closed form: the view all signers share, and the reference execution round
    by round up to the end or the common panic. */
module SignRounds {
  import opened Wrappers
  import opened Modular
  import opened Slots
  import opened Library
  import opened KeyFiles
  import opened Signing
  import opened Codec
  import opened SignRun
  import opened MtaSums
  import opened SignProof
  import opened SignPhases
  import opened Machines
  import R = Rounds

  // ----------------------------------------------------------------------------------------------
  // The shared values
  // ----------------------------------------------------------------------------------------------

  ghost function KSum(S: Setup): int requires |S.signers| > 0 { SumTo(|S.signers|, K(S)) }

  ghost function GammaSum(S: Setup): int requires |S.signers| > 0 { SumTo(|S.signers|, Gamma(S)) }

  ghost function Slot(S: Setup, a: nat): nat { if a < |S.signers| then a else 0 }

  ghost function L3s(S: Setup, w: nat -> int): nat -> Local3
    requires |S.signers| > 0
  {
    (a: nat) => E3(S, w, Slot(S, a))
  }

  ghost function SShares(S: Setup, w: nat -> int, r: int): nat -> int
    requires |S.signers| > 0
  {
    (a: nat) => S.message * K(S)(a) + r * SigmaShares(S, w)(a)
  }

  ghost function SecondDecoms(S: Setup, ds: nat -> Decom5a, vSum: int): nat -> Decom5d
    requires |S.signers| > 0
  {
    (a: nat) => SecondDecom(Who(S, a), vSum, SumTo(|S.signers|, ALogs(ds)) - ds(a).A.e)
  }

  ghost function L5s(l3: nat -> Local3, deltaInv: int, pR: Point, r: int, s: nat -> int): nat -> Local5 {
    (a: nat) => Local5(Local4(l3(a), deltaInv), pR, r, s(a))
  }

  ghost function FirstDecoms(S: Setup, l5: nat -> Local5): nat -> Decom5a requires |S.signers| > 0 {
    (a: nat) => OwnDecom5a(Who(S, a), l5(a))
  }

  ghost function Opens(S: Setup, l5: nat -> Local5): nat -> Msg requires |S.signers| > 0 {
    (a: nat) => OwnOpen5a(Who(S, a), l5(a))
  }

  ghost function Blinds(S: Setup): nat -> int requires |S.signers| > 0 { (a: nat) => Who(S, a).rnd.blind1 }

  /** What the signers hold from round 3 on, given R and r. */
  ghost function Assemble(S: Setup, w: nat -> int, y: int, deltaInv: int, pR: Point, r: int): View
    requires |S.signers| > 0
  {
    var m, l3, s := |S.signers|, L3s(S, w), SShares(S, w, r);
    var l5 := L5s(l3, deltaInv, pR, r, s);
    var ds := FirstDecoms(S, l5);
    var vSum := SumTo(m, VLogs(ds)) - S.message - y * r;
    View(l3, DeltaShares(S), deltaInv, Gamma(S), Blinds(S), pR, r, s, ds, Opens(S, l5), vSum, SecondDecoms(S, ds, vSum))
  }

  ghost function TheView(S: Setup, w: nat -> int, y: int): View
    requires S.C.q > 0 && |S.signers| > 0
  {
    var deltaInv := Inv(S.C.q, SumTo(|S.signers|, DeltaShares(S)));
    var pR := Point(GammaSum(S) * deltaInv);
    Assemble(S, w, y, deltaInv, pR, S.C.x(pR.e % S.C.q) % S.C.q)
  }

  ghost predicate Shape(S: Setup, w: nat -> int, X: View)
    requires |S.signers| > 0
  {
    var l5 := L5s(X.l3, X.deltaInv, X.R, X.r, X.s);
    && X.l3 == L3s(S, w) && X.delta == DeltaShares(S) && X.gamma == Gamma(S) && X.blind1 == Blinds(S)
    && X.s == SShares(S, w, X.r)
    && X.ds == FirstDecoms(S, l5) && X.opens == Opens(S, l5) && X.d2 == SecondDecoms(S, X.ds, X.vSum)
  }

  /** The local facts about the slot a of the view. */
  ghost predicate LocalFacts(S: Setup, w: nat -> int, X: View, a: nat)
    requires S.C.q > 0 && a < |S.signers|
  {
    var me := Who(S, a);
    && X.l3(a) == E3(S, w, a) && X.l3(a).delta == X.delta(a)
    && X.gamma(a) == me.rnd.gamma && X.blind1(a) == me.rnd.blind1
    && GammaKnown(S.C.q, |S.signers| - 1, X, a)
    && X.s(a) == S.message * me.rnd.k + X.r * X.l3(a).sigma
    && X.ds(a) == OwnDecom5a(me, V5(X, a)) && X.opens(a) == OwnOpen5a(me, V5(X, a))
    && OwnD2(|S.signers| - 1, me, a, X)
  }

  /** The facts about the view that tie the slots together. */
  ghost predicate SharedFacts(S: Setup, y: int, X: View)
    requires S.C.q > 0 && |S.signers| > 0
  {
    var m, q := |S.signers|, S.C.q;
    && X.delta == DeltaShares(S)
    && X.deltaInv == Inv(q, SumTo(m, X.delta))
    && X.gamma == Gamma(S)
    && X.R == Point(SumTo(m, X.gamma) * X.deltaInv)
    && X.r == S.C.x(X.R.e % q) % q
    && X.vSum == SumTo(m, VLogs(X.ds)) - S.message - y * X.r
  }

  lemma GammaIsKnown(S: Setup, w: nat -> int, X: View, a: nat)
    requires S.C.q > 0 && a < |S.signers| && Shape(S, w, X)
    ensures GammaKnown(S.C.q, |S.signers| - 1, X, a)
  {
    assert X.l3(a).l2.bc1 == Table(|S.signers|, GammaComs(X));
  }

  lemma D2IsOwn(S: Setup, X: View, a: nat)
    requires a < |S.signers| && X.d2 == SecondDecoms(S, X.ds, X.vSum)
    ensures OwnD2(|S.signers| - 1, Who(S, a), a, X)
  {
    assert |S.signers| - 1 + 1 == |S.signers|;
  }

  lemma ShareIsOwn(S: Setup, w: nat -> int, X: View, a: nat)
    requires a < |S.signers| && X.s == SShares(S, w, X.r) && X.l3 == L3s(S, w)
    ensures X.s(a) == S.message * Who(S, a).rnd.k + X.r * X.l3(a).sigma
  {
    assert X.l3(a).sigma == SigmaShares(S, w)(a);
  }

  lemma OpensAreOwn(S: Setup, w: nat -> int, X: View, a: nat)
    requires a < |S.signers| && Shape(S, w, X)
    ensures X.ds(a) == OwnDecom5a(Who(S, a), V5(X, a)) && X.opens(a) == OwnOpen5a(Who(S, a), V5(X, a))
  {
    assert L5s(X.l3, X.deltaInv, X.R, X.r, X.s)(a) == V5(X, a);
  }

  lemma ViewLocal(S: Setup, w: nat -> int, X: View, a: nat)
    requires S.C.q > 0 && a < |S.signers| && Shape(S, w, X)
    ensures LocalFacts(S, w, X, a)
  {
    GammaIsKnown(S, w, X, a);
    D2IsOwn(S, X, a);
    ShareIsOwn(S, w, X, a);
    OpensAreOwn(S, w, X, a);
  }

  lemma ViewShared(S: Setup, w: nat -> int, y: int, X: View)
    requires S.C.q > 0 && |S.signers| > 0 && X == TheView(S, w, y)
    ensures SharedFacts(S, y, X) && Shape(S, w, X)
  {
  }

  lemma ViewFacts(S: Setup, w: nat -> int, y: int) returns (X: View)
    requires S.C.q > 0 && |S.signers| > 0
    ensures SharedFacts(S, y, X)
    ensures forall a :: 0 <= a < |S.signers| ==> LocalFacts(S, w, X, a)
  {
    X := TheView(S, w, y);
    ViewShared(S, w, y, X);
    forall a | 0 <= a < |S.signers|
      ensures LocalFacts(S, w, X, a)
    {
      ViewLocal(S, w, X, a);
    }
  }

  // ----------------------------------------------------------------------------------------------
  // The reference execution, round by round
  // ----------------------------------------------------------------------------------------------

  // What the signers hold after rounds 0, 1 and 2

  ghost function St1(S: Setup, w: nat -> int): nat -> Local requires |S.signers| > 0 { (a: nat) => At1(E1(S, w, a)) }
  ghost function St2(S: Setup, w: nat -> int): nat -> Local requires |S.signers| > 0 { (a: nat) => At2(E2(S, w, Slot(S, a))) }
  ghost function St3(l3: nat -> Local3): nat -> Local { (a: nat) => At3(l3(a)) }

  ghost function Replies(S: Setup, w: nat -> int): nat -> seq<Msg>
    requires |S.signers| > 0
  {
    (a: nat) => Replies2(E2(S, w, Slot(S, a)))
  }

  lemma RepliesSent(S: Setup, w: nat -> int, a: nat)
    requires a < |S.signers|
    ensures |Replies(S, w)(a)| == |S.signers| - 1
    ensures Out(Who(S, a), At2(E2(S, w, a))) == Some(Replies(S, w)(a))
  {
  }

  ghost function Messages2(S: Setup, w: nat -> int): (nat, nat) -> Msg
    requires |S.signers| > 0
  {
    (a: nat, b: nat) => Msg2(S, w, a)(b)
  }

  lemma Goes2(S: Setup, w: nat -> int, y: int, a: nat)
    requires S.C.q > 0 && Aligned(S, w, y) && a < |S.signers|
    ensures Next(S, a, At2(E2(S, w, a)), Peers(|S.signers|, a, To(Messages2(S, w), a))) == Some(At3(E3(S, w, a)))
  {
    hide E2, E3, Msg2, Next3, Aligned;
    assert |S.signers| == S.t + 1 by {
      AlignedSize(S, w, y);
    }
    assert Peers(|S.signers|, a, To(Messages2(S, w), a)) == Peers(|S.signers|, a, Msg2(S, w, a));
    Round2Next(S, w, y, a);
  }

  lemma AlignedSize(S: Setup, w: nat -> int, y: int)
    requires Aligned(S, w, y)
    ensures |S.signers| == S.t + 1
  {
  }

  /** The replies of round 2 reach the signers they are meant for. */
  lemma ReplyRound(S: Setup, w: nat -> int, y: int)
    requires S.C.q > 0 && |S.signers| == S.t + 1 && Aligned(S, w, y) && After(SignMachine(S), 2, St2(S, w))
    ensures After(SignMachine(S), 3, St3(L3s(S, w)))
  {
    hide Next, E2, E3, Msg2, Out, Replies, Aligned, After;
    forall a | 0 <= a < |S.signers|
      ensures Out(Who(S, a), St2(S, w)(a)) == Some(Replies(S, w)(a)) && |Replies(S, w)(a)| == |S.signers| - 1
      ensures Next(S, a, At2(E2(S, w, a)), Peers(|S.signers|, a, To(Messages2(S, w), a))) == Some(At3(E3(S, w, a)))
    {
      RepliesSent(S, w, a);
      Goes2(S, w, y, a);
    }
    forall a, b | 0 <= a < |S.signers| && 0 <= b < |S.signers| && a != b
      ensures Replies(S, w)(b)[Unskip(b, a)] == Messages2(S, w)(a, b)
    {
      ReplyIsFor(S, w, a, b);
    }
    PointToPointRound(SignMachine(S), 2, St2(S, w), Replies(S, w), Messages2(S, w), St3(L3s(S, w)));
  }

  lemma ReplyIsFor(S: Setup, w: nat -> int, a: nat, b: nat)
    requires a < |S.signers| && b < |S.signers| && a != b
    ensures |Replies(S, w)(b)| == |S.signers| - 1
    ensures Replies(S, w)(b)[Unskip(b, a)] == Messages2(S, w)(a, b)
  {
    hide E2, Msg2;
    RepliesSent(S, w, b);
    Routed(S, w, a, b);
  }

  lemma Moves0(S: Setup, w: nat -> int, y: int, a: nat)
    requires Aligned(S, w, y) && a < |S.signers|
    ensures Moves(SignMachine(S), At0, Msg0(S), At1(E1(S, w, a)), a)
  {
    hide Next1;
    Round0(S, w, y, a);
  }

  lemma Moves1(S: Setup, w: nat -> int, y: int, a: nat)
    requires Aligned(S, w, y) && a < |S.signers|
    ensures Moves(SignMachine(S), At1(E1(S, w, a)), Msg1(S), At2(E2(S, w, a)), a)
  {
    hide Next2;
    Round1Next(S, w, y, a);
  }

  lemma To3(S: Setup, w: nat -> int, y: int)
    requires S.C.q > 0 && |S.signers| == S.t + 1 && Aligned(S, w, y)
    ensures After(SignMachine(S), 3, St3(L3s(S, w)))
  {
    hide Moves, E1, E2, Aligned, After;
    var start := (a: nat) => At0;
    AtStart(SignMachine(S), start);
    forall a | 0 <= a < |S.signers|
      ensures Moves(SignMachine(S), start(a), Msg0(S), St1(S, w)(a), a)
      ensures Moves(SignMachine(S), St1(S, w)(a), Msg1(S), St2(S, w)(a), a)
    {
      Moves0(S, w, y, a);
      Moves1(S, w, y, a);
    }
    BroadcastRound(SignMachine(S), 0, start, Msg0(S), St1(S, w));
    BroadcastRound(SignMachine(S), 1, St1(S, w), Msg1(S), St2(S, w));
    ReplyRound(S, w, y);
  }

  // ----------------------------------------------------------------------------------------------
  // Rounds 3 to 9
  // ----------------------------------------------------------------------------------------------

  /** What slot a brings into rounds 3 to 9. */
  ghost predicate Brings(S: Setup, y: int, X: View, a: nat)
    requires S.C.q > 0 && a < |S.signers| && |S.signers| == S.t + 1
  {
    var me := Who(S, a);
    && me.file.ySum == Base(y)
    && X.l3(a).delta == X.delta(a)
    && GammaKnown(S.C.q, S.t, X, a)
    && X.gamma(a) == me.rnd.gamma && X.blind1(a) == me.rnd.blind1
    && X.s(a) == S.message * me.rnd.k + X.r * X.l3(a).sigma
    && X.ds(a) == OwnDecom5a(me, V5(X, a)) && X.opens(a) == OwnOpen5a(me, V5(X, a))
    && OwnD2(S.t, me, a, X)
  }

  ghost predicate AllBring(S: Setup, y: int, X: View) {
    S.C.q > 0 && |S.signers| == S.t + 1 && forall a :: 0 <= a < |S.signers| ==> Brings(S, y, X, a)
  }

  lemma Moves3(S: Setup, y: int, X: View, a: nat)
    requires AllBring(S, y, X) && a < |S.signers| && X.deltaInv == Inv(S.C.q, SumTo(S.t + 1, X.delta))
    ensures !Cong(S.C.q, SumTo(S.t + 1, X.delta), 0) ==> Moves(SignMachine(S), At3(X.l3(a)), Msg3(X), At4(V4(X, a)), a)
    ensures Cong(S.C.q, SumTo(S.t + 1, X.delta), 0) ==> Halts(SignMachine(S), At3(X.l3(a)), Msg3(X), a)
  {
    hide Next4, GammaKnown, OwnD2;
    assert Brings(S, y, X, a);
    Round3Next(S.C.q, S.t, Who(S, a), a, X);
  }

  ghost predicate RIs(S: Setup, X: View)
    requires S.C.q > 0
  {
    && X.R == Point(SumTo(S.t + 1, X.gamma) * X.deltaInv)
    && XCoord(S.C, X.R).Some? && X.r == XCoord(S.C, X.R).value % S.C.q
  }

  lemma Moves4(S: Setup, y: int, X: View, a: nat)
    requires AllBring(S, y, X) && a < |S.signers| && RIs(S, X)
    ensures Moves(SignMachine(S), At4(V4(X, a)), Msg4(X), At5(V5(X, a)), a)
  {
    hide Next5, GammaKnown, OwnD2;
    assert Brings(S, y, X, a);
    Round4Next(S.C, S.message, S.t, Who(S, a), a, X);
  }

  lemma Moves5(S: Setup, y: int, X: View, a: nat)
    requires AllBring(S, y, X) && a < |S.signers|
    ensures Moves(SignMachine(S), At5(V5(X, a)), Msg5(X), At6(V6(X, |S.signers|, a)), a)
  {
    hide Next6, GammaKnown, OwnD2, OwnDecom5a;
    assert Brings(S, y, X, a);
    Round5Next(S.t, Who(S, a), a, X);
  }

  lemma AllOpen(S: Setup, y: int, X: View)
    requires AllBring(S, y, X)
    ensures forall b :: 0 <= b <= S.t ==> OpenOk(S.C.q, X, b)
  {
    hide GammaKnown, OwnD2, OpenOk;
    forall b | 0 <= b <= S.t
      ensures OpenOk(S.C.q, X, b)
    {
      assert Brings(S, y, X, b);
      OwnOpenOk(S.C.q, Who(S, b), b, X);
    }
  }

  lemma Moves6(S: Setup, y: int, X: View, a: nat)
    requires AllBring(S, y, X) && a < |S.signers|
    requires X.vSum == SumTo(S.t + 1, VLogs(X.ds)) - S.message - y * X.r
    ensures Moves(SignMachine(S), At6(V6(X, |S.signers|, a)), X.opens, At7(V7(X, |S.signers|, a)), a)
  {
    hide Next7, GammaKnown, OwnD2, OwnDecom5a, OpenOk;
    AllOpen(S, y, X);
    assert Brings(S, y, X, a);
    Round6Next(S.C.q, S.t, Who(S, a), a, S.message, y, X);
  }

  lemma Moves7(S: Setup, X: View, a: nat)
    requires S.C.q > 0 && a < |S.signers| == S.t + 1
    ensures Moves(SignMachine(S), At7(V7(X, |S.signers|, a)), Msg7(X), At8(V8(X, |S.signers|, a)), a)
  {
    hide Next8;
    Round7Next(S.t, Who(S, a), a, X);
  }

  lemma Moves8(S: Setup, y: int, X: View, a: nat)
    requires AllBring(S, y, X) && a < |S.signers| && Balanced(S.C.q, S.t, X)
    ensures Moves(SignMachine(S), At8(V8(X, |S.signers|, a)), Msg8(X), At9(V9(X, |S.signers|, a)), a)
  {
    hide Next9, Balanced, OpenOk;
    AllOpen(S, y, X);
    Round8Next(S.C.q, S.t, Who(S, a), a, X);
  }

  /** The signature the signers return, or the panic at the end. */
  ghost function Outcome(S: Setup, y: int, X: View): Option<Signature>
    requires S.C.q > 0
  {
    var sig := TheSignature(S.C.q, S.t, X);
    if S.message < TWO_TO_THE_256 && EcdsaVerify(S.C, S.message, sig, Base(y)) then Some(sig) else None
  }

  lemma Moves9(S: Setup, y: int, X: View, a: nat)
    requires AllBring(S, y, X) && a < |S.signers| && S.C.q < TWO_TO_THE_256
    ensures Outcome(S, y, X).Some? ==> Moves(SignMachine(S), At9(V9(X, |S.signers|, a)), Msg9(X), Signed(Outcome(S, y, X).value), a)
    ensures Outcome(S, y, X).None? ==> Halts(SignMachine(S), At9(V9(X, |S.signers|, a)), Msg9(X), a)
  {
    hide Finish, GammaKnown, OwnD2, EcdsaVerify;
    assert Brings(S, y, X, a);
    Round9Next(S.C, S.message, S.t, Who(S, a), a, y, X);
  }

  ghost function St4(X: View): nat -> Local { (a: nat) => At4(V4(X, a)) }
  ghost function St5(X: View): nat -> Local { (a: nat) => At5(V5(X, a)) }
  ghost function St6(X: View, m: nat): nat -> Local { (a: nat) => At6(V6(X, m, a)) }
  ghost function St7(X: View, m: nat): nat -> Local { (a: nat) => At7(V7(X, m, a)) }
  ghost function St8(X: View, m: nat): nat -> Local { (a: nat) => At8(V8(X, m, a)) }
  ghost function St9(X: View, m: nat): nat -> Local { (a: nat) => At9(V9(X, m, a)) }

  /** In round 4 either everybody goes on or everybody panics. */
  lemma To4(S: Setup, y: int, X: View)
    requires S.C.q > 0 && |S.signers| == S.t + 1 && AllBring(S, y, X) && After(SignMachine(S), 3, St3(X.l3))
    requires X.deltaInv == Inv(S.C.q, SumTo(S.t + 1, X.delta))
    ensures !Cong(S.C.q, SumTo(S.t + 1, X.delta), 0) ==> After(SignMachine(S), 4, St4(X))
    ensures Cong(S.C.q, SumTo(S.t + 1, X.delta), 0) ==>
      NobodyFinishes(SignMachine(S)) && !R.Completes(SignProtocol(S)) && Heard(SignMachine(S), 5) == None
  {
    hide AllBring, Moves, Halts, Msg3, V4;
    var stop := Cong(S.C.q, SumTo(S.t + 1, X.delta), 0);
    forall a | 0 <= a < |S.signers|
      ensures if stop then Halts(SignMachine(S), St3(X.l3)(a), Msg3(X), a) else Moves(SignMachine(S), St3(X.l3)(a), Msg3(X), St4(X)(a), a)
    {
      Moves3(S, y, X, a);
    }
    if stop {
      PanicRound(SignMachine(S), 3, St3(X.l3), Msg3(X));
    } else {
      BroadcastRound(SignMachine(S), 3, St3(X.l3), Msg3(X), St4(X));
    }
  }

  lemma To5(S: Setup, y: int, X: View)
    requires S.C.q > 0 && |S.signers| == S.t + 1 && AllBring(S, y, X) && After(SignMachine(S), 4, St4(X)) && RIs(S, X)
    ensures After(SignMachine(S), 5, St5(X))
  {
    hide AllBring, Moves, RIs, Msg4, V4, V5, After;
    forall a | 0 <= a < |S.signers|
      ensures Moves(SignMachine(S), St4(X)(a), Msg4(X), St5(X)(a), a)
    {
      Moves4(S, y, X, a);
    }
    BroadcastRound(SignMachine(S), 4, St4(X), Msg4(X), St5(X));
  }

  lemma To7(S: Setup, y: int, X: View)
    requires S.C.q > 0 && |S.signers| == S.t + 1 && AllBring(S, y, X) && After(SignMachine(S), 5, St5(X))
    requires X.vSum == SumTo(S.t + 1, VLogs(X.ds)) - S.message - y * X.r
    ensures After(SignMachine(S), 7, St7(X, |S.signers|))
  {
    hide AllBring, Moves, Msg5, V5, V6, V7, After;
    var m := |S.signers|;
    forall a | 0 <= a < m
      ensures Moves(SignMachine(S), St5(X)(a), Msg5(X), St6(X, m)(a), a)
      ensures Moves(SignMachine(S), St6(X, m)(a), X.opens, St7(X, m)(a), a)
    {
      Moves5(S, y, X, a);
      Moves6(S, y, X, a);
    }
    BroadcastRound(SignMachine(S), 5, St5(X), Msg5(X), St6(X, m));
    BroadcastRound(SignMachine(S), 6, St6(X, m), X.opens, St7(X, m));
  }

  ghost function Ends(sig: Signature): nat -> Local { (a: nat) => Signed(sig) }

  lemma ToEnd(S: Setup, y: int, X: View)
    requires S.C.q > 0 && |S.signers| == S.t + 1 && AllBring(S, y, X) && After(SignMachine(S), 7, St7(X, |S.signers|))
    requires Balanced(S.C.q, S.t, X) && S.C.q < TWO_TO_THE_256
    ensures R.Completes(SignProtocol(S)) <==> Outcome(S, y, X).Some?
    ensures R.Completes(SignProtocol(S)) || NobodyFinishes(SignMachine(S))
    ensures R.Completes(SignProtocol(S)) ==> After(SignMachine(S), ROUNDS, Ends(Outcome(S, y, X).value))
  {
    hide AllBring, Moves, Halts, Balanced, Msg7, Msg8, Msg9, V7, V8, V9, Outcome, After, R.Completes, NobodyFinishes;
    var m, out := |S.signers|, Outcome(S, y, X);
    forall a | 0 <= a < m
      ensures Moves(SignMachine(S), St7(X, m)(a), Msg7(X), St8(X, m)(a), a)
      ensures Moves(SignMachine(S), St8(X, m)(a), Msg8(X), St9(X, m)(a), a)
      ensures if out.None? then Halts(SignMachine(S), St9(X, m)(a), Msg9(X), a) else Moves(SignMachine(S), St9(X, m)(a), Msg9(X), Signed(out.value), a)
    {
      Moves7(S, X, a);
      Moves8(S, y, X, a);
      Moves9(S, y, X, a);
    }
    BroadcastRound(SignMachine(S), 7, St7(X, m), Msg7(X), St8(X, m));
    BroadcastRound(SignMachine(S), 8, St8(X, m), Msg8(X), St9(X, m));
    if out.None? {
      PanicRound(SignMachine(S), 9, St9(X, m), Msg9(X));
    } else {
      BroadcastRound(SignMachine(S), 9, St9(X, m), Msg9(X), Ends(out.value));
      EndCompletes(SignMachine(S), Ends(out.value));
    }
  }
}
