/** The signing run of t + 1 signers as a protocol of ten rounds; round 2 is point-to-point. */
module SignRun {
  import opened Wrappers
  import opened Slots
  import opened Library
  import opened KeyFiles
  import opened Signing
  import opened Machines
  import Rounds

  /** Signers are listed in the order in which they sign up. */
  datatype Setup = Setup(C: Curve, t: nat, message: nat, signers: seq<Signer>, roomKey: string, uuid: string)

  ghost predicate WellFormed(S: Setup) {
    S.C.Valid() && |S.signers| == S.t + 1
  }

  const ROUNDS: nat := 10

  /** What a signer holds after k rounds. */
  datatype Local =
    | At0
    | At1(l1: Local1)
    | At2(l2: Local2)
    | At3(l3: Local3)
    | At4(l4: Local4)
    | At5(l5: Local5)
    | At6(l6: Local6)
    | At7(l7: Local7)
    | At8(l8: Local8)
    | At9(l9: Local9)
    | Signed(sig: Signature)

  function Lift<A>(x: Option<A>, f: A -> Local): Option<Local> {
    if x.None? then None else Some(f(x.value))
  }

  /** The next local computation of the signer in slot a, once it has the answers of the round. */
  function Next(S: Setup, a: nat, l: Local, ans: seq<Msg>): Option<Local>
    requires S.C.q > 0 && a < |S.signers|
  {
    var me, q, t := S.signers[a], S.C.q, S.t;
    match l
    case At0 => Lift(Next1(q, t, me, a, ans), x => At1(x))
    case At1(l) => Lift(Next2(t, me, a, l, ans), x => At2(x))
    case At2(l) => Lift(Next3(q, t, me, a, l, ans), x => At3(x))
    case At3(l) => Lift(Next4(q, t, me, a, l, ans), x => At4(x))
    case At4(l) => Lift(Next5(S.C, S.message, t, me, a, l, ans), x => At5(x))
    case At5(l) => Lift(Next6(t, me, a, l, ans), x => At6(x))
    case At6(l) => Lift(Next7(q, S.message, t, me, a, l, ans), x => At7(x))
    case At7(l) => Lift(Next8(t, me, a, l, ans), x => At8(x))
    case At8(l) => Lift(Next9(q, t, me, a, l, ans), x => At9(x))
    case At9(l) => Lift(Finish(S.C, S.message, t, me, a, l, ans), x => Signed(x))
    case Signed(_) => None
  }

  function Replies2(l: Local2): (s: seq<Msg>)
    requires |l.mbW| == |l.mbGamma|
  {
    seq(|l.mbGamma|, j requires 0 <= j < |l.mbGamma| => Round2(l.mbGamma[j], l.mbW[j]))
  }

  /** What a signer sends in the round it is in. */
  function Out(me: Signer, l: Local): Option<seq<Msg>> {
    match l
    case At0 => Some([PartyId(me.file.partyId)])
    case At1(_) => Some([Round1(OwnCom(me), MtaA(me.rnd.k, me.file.key))])
    case At2(l) => if |l.mbW| != |l.mbGamma| then None else Some(Replies2(l))
    case At3(l) => Some([Delta(l.delta)])
    case At4(_) => Some([Decommit(OwnDecommit(me).0, OwnDecommit(me).1)])
    case At5(l) => Some([Commit5a(Commit5aOf(OwnDecom5a(me, l)))])
    case At6(l) => Some([OwnOpen5a(me, l.l5)])
    case At7(l) => Some([Commit5c(Commit5cOf(l.decom5d))])
    case At8(l) => Some([Open5d(l.l7.decom5d)])
    case At9(l) => Some([SigShare(l.s)])
    case Signed(_) => Some([])
  }

  /** The signing run; the last parameter of a step is what the signer has heard in the round. */
  function SignMachine(S: Setup): Machine<Msg, Local> {
    Machine(|S.signers|, ROUNDS, 0, {2}, S.roomKey, S.uuid, At0,
      (a: nat, l: Local) => if a < |S.signers| then Out(S.signers[a], l) else None,
      (a: nat, l: Local, ans: seq<Msg>) => if a < |S.signers| && S.C.q > 0 then Next(S, a, l, ans) else None)
  }

  function SignProtocol(S: Setup): Rounds.Protocol<Msg> {
    ProtocolOf(SignMachine(S))
  }

  /** The signature a signer returns after all rounds. */
  function Result(S: Setup, a: nat, heard: seq<seq<Msg>>): Option<Signature> {
    var l := StateAfter(SignMachine(S), a, heard);
    if l.Some? && l.value.Signed? then Some(l.value.sig) else None
  }
}
