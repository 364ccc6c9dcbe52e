/** One party's local computation in the five rounds of key generation, as functions of its secrets
    and the answers it has heard. None is a panic of the source. */
module Keygen {
  import opened Wrappers
  import opened Modular
  import opened Slots
  import opened Library
  import opened KeyFiles
  import opened Codec
  import opened Machines
  import Rounds

  /** What a party draws at random: the polynomial of its sharing, whose constant term is its part of
      the key, the number of its Paillier key pair and the blinding factor of its commitment. */
  datatype Part = Part(poly: seq<int>, key: nat, blind: int) {
    function U(): int {
      if |poly| > 0 then poly[0] else 0
    }
  }

  /** A ciphertext of authenticated encryption: it opens under its own key only. */
  datatype Aead = Aead(key: seq<Byte>, plain: seq<Byte>)

  function Decrypt(key: seq<Byte>, aead: Aead): Option<seq<Byte>> {
    if aead.key == key then Some(aead.plain) else None
  }

  datatype Msg =
    | First(com: Com<Point>, key: nat)
    | Opening(y: Point, blind: int)
    | Sealed(aead: Aead)
    | Sharing(vss: Vss)
    | Proof(proof: DLogProof)

  datatype Setup = Setup(C: Curve, t: nat, parts: seq<Part>, roomKey: string, uuid: string)

  // ----------------------------------------------------------------------------------------------
  // Round 1: commitments
  // ----------------------------------------------------------------------------------------------

  datatype Local1 = Local1(bc1: seq<Msg>)

  function OwnFirst(me: Part): Msg {
    First(Com(Base(me.U()), me.blind), me.key)
  }

  function Next1(n: nat, me: Part, own: nat, ans: seq<Msg>): Option<Local1> {
    if |ans| + 1 != n || own >= n || exists j :: 0 <= j < |ans| && !ans[j].First? then None
    else Some(Local1(Rebuild(ans, own, OwnFirst(me))))
  }

  // ----------------------------------------------------------------------------------------------
  // Round 2: the public key and the keys for the shares
  // ----------------------------------------------------------------------------------------------

  datatype Local2 = Local2(l1: Local1, points: seq<Point>, encKeys: seq<seq<Byte>>, ySum: Point, vss: Vss, shares: seq<int>)

  function OwnOpening(me: Part): Msg {
    Opening(Base(me.U()), me.blind)
  }

  predicate OpeningsHeard(ans: seq<Msg>) {
    forall j :: 0 <= j < |ans| ==> ans[j].Opening?
  }

  /** The 32-byte key shared with the owner of y: the x-coordinate of the Diffie-Hellman point. */
  function AesKey(C: Curve, y: Point, u: int): Option<seq<Byte>>
    requires C.q > 0
  {
    var x := XCoord(C, Times(y, u));
    if x.None? || x.value < 0 then None else Bytes32(x.value)
  }

  predicate KeysDefined(C: Curve, ans: seq<Msg>, u: int)
    requires C.q > 0 && OpeningsHeard(ans)
  {
    forall j :: 0 <= j < |ans| ==> AesKey(C, ans[j].y, u).Some?
  }

  /** One key for each peer, in the order of the answers. */
  function EncKeys(C: Curve, ans: seq<Msg>, u: int): (keys: seq<seq<Byte>>)
    requires C.q > 0 && OpeningsHeard(ans) && KeysDefined(C, ans, u)
    ensures |keys| == |ans|
  {
    seq(|ans|, j requires 0 <= j < |ans| => AesKey(C, ans[j].y, u).value)
  }

  function YsOf(decoms: seq<Msg>): (ys: seq<Point>)
    requires OpeningsHeard(decoms)
    ensures |ys| == |decoms|
  {
    seq(|decoms|, i requires 0 <= i < |decoms| => decoms[i].y)
  }

  function SharesFor(q: int, n: nat, poly: seq<int>): (s: seq<int>)
    requires q > 0
    ensures |s| == n
  {
    seq(n, (i: nat) => Share(q, poly, i + 1))
  }

  /** Every opening fits the commitment in the same slot. */
  predicate OpensAll(decoms: seq<Msg>, bc1: seq<Msg>) {
    && |decoms| == |bc1| && OpeningsHeard(decoms)
    && forall i :: 0 <= i < |bc1| ==> bc1[i].First? && bc1[i].com == Com(decoms[i].y, decoms[i].blind)
  }

  function Next2(C: Curve, t: nat, n: nat, me: Part, own: nat, l1: Local1, ans: seq<Msg>): Option<Local2>
    requires C.q > 0
  {
    if |ans| + 1 != n || own >= n || !OpeningsHeard(ans) || !KeysDefined(C, ans, me.U()) then None
    else
      var decoms := Rebuild(ans, own, OwnOpening(me));
      if !OpensAll(decoms, l1.bc1) then None
      else Some(Local2(l1, YsOf(decoms), EncKeys(C, ans, me.U()), SumPoints(YsOf(decoms)),
                       ShareVss(t, n, me.poly), SharesFor(C.q, n, me.poly)))
  }

  // ----------------------------------------------------------------------------------------------
  // Round 3: the shares, one encrypted for each peer
  // ----------------------------------------------------------------------------------------------

  datatype Local3 = Local3(l2: Local2, partyShares: seq<int>)

  /** The j-th message goes to the j-th peer, under the j-th key; it carries the share of the peer's
      slot. */
  function SealedShares(own: nat, l2: Local2): (s: seq<Msg>)
    requires |l2.shares| == |l2.encKeys| + 1 && forall i :: 0 <= i < |l2.shares| ==> l2.shares[i] >= 0
    ensures |s| == |l2.encKeys|
  {
    seq(|l2.encKeys|, j requires 0 <= j < |l2.encKeys| => Sealed(Aead(l2.encKeys[j], ToBytes(l2.shares[Skip(own, j)]))))
  }

  predicate ShareOpens(l2: Local2, ans: seq<Msg>, j: nat)
    requires j < |ans|
  {
    j < |l2.encKeys| && ans[j].Sealed? && Decrypt(l2.encKeys[j], ans[j].aead).Some?
  }

  function OpenedShares(q: int, l2: Local2, ans: seq<Msg>): (s: seq<int>)
    requires q > 0 && forall j :: 0 <= j < |ans| ==> ShareOpens(l2, ans, j)
    ensures |s| == |ans|
  {
    seq(|ans|, j requires 0 <= j < |ans| =>
      assert ShareOpens(l2, ans, j);
      FromBytes(Decrypt(l2.encKeys[j], ans[j].aead).value) % q)
  }

  function Next3(q: int, n: nat, own: nat, l2: Local2, ans: seq<Msg>): Option<Local3>
    requires q > 0
  {
    if |ans| + 1 != n || own >= n || own >= |l2.shares| || exists j :: 0 <= j < |ans| && !ShareOpens(l2, ans, j) then None
    else Some(Local3(l2, Rebuild(OpenedShares(q, l2, ans), own, l2.shares[own])))
  }

  // ----------------------------------------------------------------------------------------------
  // Round 4: the commitments of the sharings
  // ----------------------------------------------------------------------------------------------

  datatype Local4 = Local4(l3: Local3, vssVec: seq<Vss>, x: int)

  predicate SharingsHeard(ans: seq<Msg>) {
    forall j :: 0 <= j < |ans| ==> ans[j].Sharing?
  }

  function SharingsOf(ans: seq<Msg>): (v: seq<Vss>)
    requires SharingsHeard(ans)
    ensures |v| == |ans|
  {
    seq(|ans|, j requires 0 <= j < |ans| => ans[j].vss)
  }

  /** The share in slot i belongs to the sharing in slot i, whose secret is that of the point in slot i. */
  predicate ShareFits(q: int, own: nat, vss: Vss, share: int, y: Point)
    requires q > 0
  {
    && ValidateShare(q, vss, share, own + 1)
    && |vss.commitments| > 0 && SamePoint(q, vss.commitments[0], y)
  }

  predicate AllSharesFit(q: int, own: nat, l3: Local3, vssVec: seq<Vss>)
    requires q > 0
  {
    && |vssVec| == |l3.partyShares| == |l3.l2.points|
    && forall i :: 0 <= i < |vssVec| ==> ShareFits(q, own, vssVec[i], l3.partyShares[i], l3.l2.points[i])
  }

  function Next4(q: int, n: nat, own: nat, l3: Local3, ans: seq<Msg>): Option<Local4>
    requires q > 0
  {
    if |ans| + 1 != n || own >= n || !SharingsHeard(ans) then None
    else
      var vssVec := Rebuild(SharingsOf(ans), own, l3.l2.vss);
      if !AllSharesFit(q, own, l3, vssVec) then None
      else Some(Local4(l3, vssVec, Sum(l3.partyShares)))
  }

  // ----------------------------------------------------------------------------------------------
  // Round 5: proofs of knowledge of the shares, and the key file
  // ----------------------------------------------------------------------------------------------

  predicate ProofsVerify(q: int, proofs: seq<Msg>)
    requires q > 0
  {
    forall i :: 0 <= i < |proofs| ==> proofs[i].Proof? && VerifyDLog(q, proofs[i].proof)
  }

  function KeysOf(bc1: seq<Msg>): (keys: seq<nat>)
    ensures |keys| == |bc1|
  {
    seq(|bc1|, i requires 0 <= i < |bc1| => if bc1[i].First? then bc1[i].key else 0)
  }

  function Next5(q: int, n: nat, me: Part, own: nat, l4: Local4, ans: seq<Msg>): Option<KeyFile>
    requires q > 0
  {
    if |ans| + 1 != n || own >= n || !ProofsVerify(q, Rebuild(ans, own, Proof(ProveDLog(l4.x)))) then None
    else Some(KeyFile(me.U(), Base(me.U()), me.key, l4.x, own + 1, l4.vssVec, KeysOf(l4.l3.l2.l1.bc1), l4.l3.l2.ySum))
  }

  // ----------------------------------------------------------------------------------------------
  // The protocol: five rounds, the third point-to-point
  // ----------------------------------------------------------------------------------------------

  const ROUNDS: nat := 5

  datatype Local =
    | At0
    | At1(l1: Local1)
    | At2(l2: Local2)
    | At3(l3: Local3)
    | At4(l4: Local4)
    | Saved(file: KeyFile)

  function Lift<A>(x: Option<A>, f: A -> Local): Option<Local> {
    if x.None? then None else Some(f(x.value))
  }

  function Next(S: Setup, a: nat, l: Local, ans: seq<Msg>): Option<Local>
    requires S.C.q > 0 && a < |S.parts|
  {
    var me, q, n := S.parts[a], S.C.q, |S.parts|;
    match l
    case At0 => Lift(Next1(n, me, a, ans), x => At1(x))
    case At1(l) => Lift(Next2(S.C, S.t, n, me, a, l, ans), x => At2(x))
    case At2(l) => Lift(Next3(q, n, a, l, ans), x => At3(x))
    case At3(l) => Lift(Next4(q, n, a, l, ans), x => At4(x))
    case At4(l) => Lift(Next5(q, n, me, a, l, ans), x => Saved(x))
    case Saved(_) => None
  }

  function Out(me: Part, a: nat, l: Local): Option<seq<Msg>> {
    match l
    case At0 => Some([OwnFirst(me)])
    case At1(_) => Some([OwnOpening(me)])
    case At2(l) =>
      if |l.shares| != |l.encKeys| + 1 || exists i :: 0 <= i < |l.shares| && l.shares[i] < 0 then None
      else Some(SealedShares(a, l))
    case At3(l) => Some([Sharing(l.l2.vss)])
    case At4(l) => Some([Proof(ProveDLog(l.x))])
    case Saved(_) => Some([])
  }

  function KeygenMachine(S: Setup): Machine<Msg, Local> {
    Machine(|S.parts|, ROUNDS, 1, {2}, S.roomKey, S.uuid, At0,
      (a: nat, l: Local) => if a < |S.parts| then Out(S.parts[a], a, l) else None,
      (a: nat, l: Local, ans: seq<Msg>) => if a < |S.parts| && S.C.q > 0 then Next(S, a, l, ans) else None)
  }

  function KeygenProtocol(S: Setup): Rounds.Protocol<Msg> {
    ProtocolOf(KeygenMachine(S))
  }

  /** The key file a party saves after all rounds. */
  function Result(S: Setup, a: nat, heard: seq<seq<Msg>>): Option<KeyFile> {
    var l := StateAfter(KeygenMachine(S), a, heard);
    if l.Some? && l.value.Saved? then Some(l.value.file) else None
  }
}
