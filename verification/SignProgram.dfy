/** The whole program of one signer: the signup and ten rounds of sending, polling and computing. */
module SignProgram {
  import opened Wrappers
  import opened StoreKeys
  import opened Library
  import opened KeyFiles
  import opened Signing
  import opened SignRun
  import opened SignSteps
  import opened Machines
  import opened Signups
  import opened Exchanges
  import opened Conversations
  import T = Transport
  import R = Rounds

  type Store = T.Store<Msg>

  method RunRound0(S: Setup, own: nat, c: T.StoreCommunity<Msg>, ghost start: Store, ghost heard: seq<seq<Msg>>)
    returns (l': Option<Local1>, ghost heard': seq<seq<Msg>>)
    requires S.C.q > 0 && own < |S.signers| == S.t + 1
    requires Ready(SignMachine(S), own, start, c.store, c.others, heard, At0) && |heard| == 0
    modifies c
    ensures l'.Some? ==> Ready(SignMachine(S), own, start, c.store, c.others, heard', At1(l'.value)) && |heard'| == 1
    ensures l'.None? ==> Stopped(SignMachine(S), own, start, c.store, c.others, heard')
  {
    hide Talking, StateAfter, Missing, Next1;
    var me := S.signers[own];
    l', heard' := None, heard;
    var ans := Converse(SignMachine(S), own, c, 0, [PartyId(me.file.partyId)], start, heard, At0);
    if ans.Some? {
      heard' := heard + [ans.value];
      l' := AfterRound0(S.C.q, S.t, me, own + 1, ans.value);
    }
  }

  method RunRound1(S: Setup, own: nat, c: T.StoreCommunity<Msg>, ghost start: Store, ghost heard: seq<seq<Msg>>, l: Local1)
    returns (l': Option<Local2>, ghost heard': seq<seq<Msg>>)
    requires S.C.q > 0 && own < |S.signers| == S.t + 1
    requires Ready(SignMachine(S), own, start, c.store, c.others, heard, At1(l)) && |heard| == 1
    modifies c
    ensures l'.Some? ==> Ready(SignMachine(S), own, start, c.store, c.others, heard', At2(l'.value)) && |heard'| == 2
    ensures l'.Some? ==> |l'.value.l1.signers| == |l'.value.bc1| == S.t + 1 && |l'.value.mbGamma| == |l'.value.mbW| == S.t
    ensures l'.None? ==> Stopped(SignMachine(S), own, start, c.store, c.others, heard')
  {
    hide Talking, StateAfter, Missing, Next2;
    var me := S.signers[own];
    l', heard' := None, heard;
    var ans := Converse(SignMachine(S), own, c, 1, [Round1(OwnCom(me), MtaA(me.rnd.k, me.file.key))], start, heard, At1(l));
    if ans.Some? {
      heard' := heard + [ans.value];
      l' := AfterRound1(S.t, me, own + 1, l, ans.value);
    }
  }

  method RunRound2(S: Setup, own: nat, c: T.StoreCommunity<Msg>, ghost start: Store, ghost heard: seq<seq<Msg>>, l: Local2)
    returns (l': Option<Local3>, ghost heard': seq<seq<Msg>>)
    requires S.C.q > 0 && own < |S.signers| == S.t + 1
    requires Ready(SignMachine(S), own, start, c.store, c.others, heard, At2(l)) && |heard| == 2
    requires |l.l1.signers| == S.t + 1 && |l.mbGamma| == |l.mbW| == S.t
    modifies c
    ensures l'.Some? ==> Ready(SignMachine(S), own, start, c.store, c.others, heard', At3(l'.value)) && |heard'| == 3
    ensures l'.Some? ==> l'.value.l2 == l
    ensures l'.None? ==> Stopped(SignMachine(S), own, start, c.store, c.others, heard')
  {
    hide Talking, StateAfter, Missing, Next3;
    var me := S.signers[own];
    l', heard' := None, heard;
    var ans := Converse(SignMachine(S), own, c, 2, Replies2(l), start, heard, At2(l));
    if ans.Some? {
      heard' := heard + [ans.value];
      l' := AfterRound2(S.C.q, S.t, me, own + 1, l, ans.value);
    }
  }

  method RunRound3(S: Setup, own: nat, c: T.StoreCommunity<Msg>, ghost start: Store, ghost heard: seq<seq<Msg>>, l: Local3)
    returns (l': Option<Local4>, ghost heard': seq<seq<Msg>>)
    requires S.C.q > 0 && own < |S.signers| == S.t + 1
    requires Ready(SignMachine(S), own, start, c.store, c.others, heard, At3(l)) && |heard| == 3
    modifies c
    ensures l'.Some? ==> Ready(SignMachine(S), own, start, c.store, c.others, heard', At4(l'.value)) && |heard'| == 4
    ensures l'.Some? ==> l'.value.l3 == l
    ensures l'.None? ==> Stopped(SignMachine(S), own, start, c.store, c.others, heard')
  {
    hide Talking, StateAfter, Missing, Next4;
    var me := S.signers[own];
    l', heard' := None, heard;
    var ans := Converse(SignMachine(S), own, c, 3, [Delta(l.delta)], start, heard, At3(l));
    if ans.Some? {
      heard' := heard + [ans.value];
      l' := AfterRound3(S.C.q, S.t, me, own + 1, l, ans.value);
    }
  }

  method RunRound4(S: Setup, own: nat, c: T.StoreCommunity<Msg>, ghost start: Store, ghost heard: seq<seq<Msg>>, l: Local4)
    returns (l': Option<Local5>, ghost heard': seq<seq<Msg>>)
    requires S.C.q > 0 && own < |S.signers| == S.t + 1
    requires Ready(SignMachine(S), own, start, c.store, c.others, heard, At4(l)) && |heard| == 4
    requires |l.l3.l2.bc1| == S.t + 1
    modifies c
    ensures l'.Some? ==> Ready(SignMachine(S), own, start, c.store, c.others, heard', At5(l'.value)) && |heard'| == 5
    ensures l'.None? ==> Stopped(SignMachine(S), own, start, c.store, c.others, heard')
  {
    hide Talking, StateAfter, Missing, Next5;
    var me := S.signers[own];
    l', heard' := None, heard;
    var ans := Converse(SignMachine(S), own, c, 4, [Decommit(OwnDecommit(me).0, OwnDecommit(me).1)], start, heard, At4(l));
    if ans.Some? {
      heard' := heard + [ans.value];
      l' := AfterRound4(S.C, S.message, S.t, me, own + 1, l, ans.value);
    }
  }

  method RunRound5(S: Setup, own: nat, c: T.StoreCommunity<Msg>, ghost start: Store, ghost heard: seq<seq<Msg>>, l: Local5)
    returns (l': Option<Local6>, ghost heard': seq<seq<Msg>>)
    requires S.C.q > 0 && own < |S.signers| == S.t + 1
    requires Ready(SignMachine(S), own, start, c.store, c.others, heard, At5(l)) && |heard| == 5
    modifies c
    ensures l'.Some? ==> Ready(SignMachine(S), own, start, c.store, c.others, heard', At6(l'.value)) && |heard'| == 6
    ensures l'.Some? ==> |l'.value.com5a| == S.t + 1
    ensures l'.None? ==> Stopped(SignMachine(S), own, start, c.store, c.others, heard')
  {
    hide Talking, StateAfter, Missing, Next6;
    var me := S.signers[own];
    l', heard' := None, heard;
    var ans := Converse(SignMachine(S), own, c, 5, [Commit5a(Commit5aOf(OwnDecom5a(me, l)))], start, heard, At5(l));
    if ans.Some? {
      heard' := heard + [ans.value];
      l' := AfterRound5(S.t, me, own + 1, l, ans.value);
    }
  }

  method RunRound6(S: Setup, own: nat, c: T.StoreCommunity<Msg>, ghost start: Store, ghost heard: seq<seq<Msg>>, l: Local6)
    returns (l': Option<Local7>, ghost heard': seq<seq<Msg>>)
    requires S.C.q > 0 && own < |S.signers| == S.t + 1
    requires Ready(SignMachine(S), own, start, c.store, c.others, heard, At6(l)) && |heard| == 6
    requires |l.com5a| == S.t + 1
    modifies c
    ensures l'.Some? ==> Ready(SignMachine(S), own, start, c.store, c.others, heard', At7(l'.value)) && |heard'| == 7
    ensures l'.Some? ==> |l'.value.opens| == S.t + 1 && forall i :: 0 <= i <= S.t ==> l'.value.opens[i].Open5a?
    ensures l'.None? ==> Stopped(SignMachine(S), own, start, c.store, c.others, heard')
  {
    hide Talking, StateAfter, Missing, Next7;
    var me := S.signers[own];
    l', heard' := None, heard;
    var ans := Converse(SignMachine(S), own, c, 6, [OwnOpen5a(me, l.l5)], start, heard, At6(l));
    if ans.Some? {
      heard' := heard + [ans.value];
      l' := AfterRound6(S.C.q, S.message, S.t, me, own + 1, l, ans.value);
    }
  }

  method RunRound7(S: Setup, own: nat, c: T.StoreCommunity<Msg>, ghost start: Store, ghost heard: seq<seq<Msg>>, l: Local7)
    returns (l': Option<Local8>, ghost heard': seq<seq<Msg>>)
    requires S.C.q > 0 && own < |S.signers| == S.t + 1
    requires Ready(SignMachine(S), own, start, c.store, c.others, heard, At7(l)) && |heard| == 7
    modifies c
    ensures l'.Some? ==> Ready(SignMachine(S), own, start, c.store, c.others, heard', At8(l'.value)) && |heard'| == 8
    ensures l'.Some? ==> l'.value.l7 == l
    ensures l'.None? ==> Stopped(SignMachine(S), own, start, c.store, c.others, heard')
  {
    hide Talking, StateAfter, Missing, Next8;
    var me := S.signers[own];
    l', heard' := None, heard;
    var ans := Converse(SignMachine(S), own, c, 7, [Commit5c(Commit5cOf(l.decom5d))], start, heard, At7(l));
    if ans.Some? {
      heard' := heard + [ans.value];
      l' := AfterRound7(S.t, me, own + 1, l, ans.value);
    }
  }

  method RunRound8(S: Setup, own: nat, c: T.StoreCommunity<Msg>, ghost start: Store, ghost heard: seq<seq<Msg>>, l: Local8)
    returns (l': Option<Local9>, ghost heard': seq<seq<Msg>>)
    requires S.C.q > 0 && own < |S.signers| == S.t + 1
    requires Ready(SignMachine(S), own, start, c.store, c.others, heard, At8(l)) && |heard| == 8
    requires |l.l7.opens| == S.t + 1 && forall i :: 0 <= i <= S.t ==> l.l7.opens[i].Open5a?
    modifies c
    ensures l'.Some? ==> Ready(SignMachine(S), own, start, c.store, c.others, heard', At9(l'.value)) && |heard'| == 9
    ensures l'.None? ==> Stopped(SignMachine(S), own, start, c.store, c.others, heard')
  {
    hide Talking, StateAfter, Missing, Next9;
    var me := S.signers[own];
    l', heard' := None, heard;
    var ans := Converse(SignMachine(S), own, c, 8, [Open5d(l.l7.decom5d)], start, heard, At8(l));
    if ans.Some? {
      heard' := heard + [ans.value];
      l' := AfterRound8(S.C.q, S.t, me, own + 1, l, ans.value);
    }
  }

  method RunRound9(S: Setup, own: nat, c: T.StoreCommunity<Msg>, ghost start: Store, ghost heard: seq<seq<Msg>>, l: Local9)
    returns (l': Option<Signature>, ghost heard': seq<seq<Msg>>)
    requires S.C.q > 0 && own < |S.signers| == S.t + 1
    requires Ready(SignMachine(S), own, start, c.store, c.others, heard, At9(l)) && |heard| == 9
    modifies c
    ensures l'.Some? ==> Ready(SignMachine(S), own, start, c.store, c.others, heard', Signed(l'.value)) && |heard'| == 10
    ensures l'.None? ==> Stopped(SignMachine(S), own, start, c.store, c.others, heard')
  {
    hide Talking, StateAfter, Missing, Finish;
    var me := S.signers[own];
    l', heard' := None, heard;
    var ans := Converse(SignMachine(S), own, c, 9, [SigShare(l.s)], start, heard, At9(l));
    if ans.Some? {
      heard' := heard + [ans.value];
      l' := AfterRound9(S.C, S.message, S.t, me, own + 1, l, ans.value);
    }
  }

  /** The ten rounds, from the first message to the signature. */
  method RunRounds(S: Setup, own: nat, c: T.StoreCommunity<Msg>, ghost start: Store) returns (sig: Option<Signature>, ghost heard: seq<seq<Msg>>)
    requires S.C.q > 0 && own < |S.signers| == S.t + 1
    requires Ready(SignMachine(S), own, start, c.store, c.others, [], At0)
    modifies c
    ensures sig.Some? ==> Ready(SignMachine(S), own, start, c.store, c.others, heard, Signed(sig.value)) && |heard| == ROUNDS
    ensures sig.None? ==> Stopped(SignMachine(S), own, start, c.store, c.others, heard)
  {
    hide Ready, Stopped, SignMachine;
    sig, heard := None, [];
    var l1, l2, l3, l4, l5, l6, l7, l8, l9;
    l1, heard := RunRound0(S, own, c, start, heard);
    if l1.None? {
      return;
    }
    l2, heard := RunRound1(S, own, c, start, heard, l1.value);
    if l2.None? {
      return;
    }
    l3, heard := RunRound2(S, own, c, start, heard, l2.value);
    if l3.None? {
      return;
    }
    l4, heard := RunRound3(S, own, c, start, heard, l3.value);
    if l4.None? {
      return;
    }
    l5, heard := RunRound4(S, own, c, start, heard, l4.value);
    if l5.None? {
      return;
    }
    l6, heard := RunRound5(S, own, c, start, heard, l5.value);
    if l6.None? {
      return;
    }
    l7, heard := RunRound6(S, own, c, start, heard, l6.value);
    if l7.None? {
      return;
    }
    l8, heard := RunRound7(S, own, c, start, heard, l7.value);
    if l8.None? {
      return;
    }
    l9, heard := RunRound8(S, own, c, start, heard, l8.value);
    if l9.None? {
      return;
    }
    sig, heard := RunRound9(S, own, c, start, heard, l9.value);
  }

  /** What a signer knows of the run once it has signed up: the other slots are filled with its own data,
      which its program never looks at. */
  function Knows(C: Curve, t: nat, message: nat, me: Signer, roomKey: string, uuid: string): Setup {
    Setup(C, t, message, seq(t + 1, _ => me), roomKey, uuid)
  }

  /** What the program relies on: if it is granted a number, the others write each message it polls for at
      most once, and none under its own keys. */
  ghost predicate Expects(C: Curve, t: nat, message: nat, me: Signer, roomKey: string, signup: SignupResult, store: Store, others: seq<Store>) {
    signup.Granted? && signup.number >= 1 ==>
      && (signup.number <= t + 1 ==> WellBehaved(SignProtocol(Knows(C, t, message, me, roomKey, signup.uuid)), signup.number - 1, store, others))
      && (signup.number > t + 1 ==>
            forall key :: key in T.BroadcastKeys(t + 1, signup.number, RoundName(0), signup.uuid) ==> T.WrittenOnce(store, others, key))
  }

  /** What the program of a signer in slot own has done: it has changed nothing but its own entries and the
      room's record, and it has either come to the end, having sent all its messages, with the result of the
      protocol's party for what its peers have written, or it has stopped. */
  ghost predicate Signs(S: Setup, own: nat, start: Store, store: Store, others: seq<Store>, heard: seq<seq<Msg>>, sig: Option<Signature>)
    requires |S.signers| > 0
  {
    if sig.Some? then Ready(SignMachine(S), own, start, store, others, heard, Signed(sig.value)) && |heard| == ROUNDS
    else Stopped(SignMachine(S), own, start, store, others, heard)
  }

  /** The program of one signer: it signs up for a number, and then sends, polls and computes round by round.
      With a number beyond t + 1 it publishes its identity, hears t + 1 others and panics. */
  method Sign(C: Curve, t: nat, message: nat, me: Signer, parties: nat, roomKey: string, newUuid: string, c: T.StoreCommunity<Msg>)
    returns (signup: SignupResult, sig: Option<Signature>, ghost heard: seq<seq<Msg>>)
    requires C.q > 0 && IsRoomKey(roomKey)
    requires Expects(C, t, message, me, roomKey, ReadSignup(c.store, parties, roomKey, newUuid), c.store, c.others)
    modifies c
    ensures signup == ReadSignup(old(c.store), parties, roomKey, newUuid)
    ensures !signup.Granted? ==> sig.None? && c.store == old(c.store) && c.others == old(c.others)
    ensures signup.Granted? && signup.number <= t + 1 ==>
      Signs(Knows(C, t, message, me, roomKey, signup.uuid), signup.number - 1, T.Eventually(old(c.store), old(c.others)), c.store, c.others, heard, sig)
    ensures signup.Granted? && signup.number > t + 1 ==>
      && sig.None?
      && T.Waited(old(c.store)[roomKey := R.Signup(signup.number, signup.uuid)]
                              [BroadcastKey(signup.number, RoundName(0), signup.uuid) := R.Data(PartyId(me.file.partyId))],
                  old(c.others), c.store, c.others)
  {
    hide T.Eventually, T.Waited, T.WrittenOnce, BroadcastKey, RoundName, WellBehaved, Ready, Stopped, SignMachine;
    sig, heard := None, [];
    ghost var store, others := c.store, c.others;
    signup := c.GetPartySignup(parties, roomKey, newUuid);
    if !signup.Granted? {
      return;
    }
    if signup.number > t + 1 {
      BeyondTheLast(t, me, roomKey, signup, store, others);
      T.Broadcast(c, signup.number, RoundName(0), PartyId(me.file.partyId), signup.uuid);
      var answers := T.PollForBroadcasts(c, signup.number, t + 1, RoundName(0), signup.uuid);
      if answers.None? {
        return;
      }
      var ans := Messages(answers.value);
      if ans.None? {
        return;
      }
      AnswersSize(T.Eventually(c.store, c.others), T.BroadcastKeys(t + 1, signup.number, RoundName(0), signup.uuid));
      var l := AfterRound0(C.q, t, me, signup.number, ans.value);
      return;
    }
    var S := Knows(C, t, message, me, roomKey, signup.uuid);
    assert SignMachine(S).roomKey == roomKey && SignMachine(S).n == t + 1 && SignMachine(S).start == At0 by {
      MachineOf(S);
    }
    AfterSignup(SignMachine(S), signup.number - 1, store, others, R.Signup(signup.number, signup.uuid));
    sig, heard := RunRounds(S, signup.number - 1, c, T.Eventually(store, others));
  }

  lemma MachineOf(S: Setup)
    ensures SignMachine(S).roomKey == S.roomKey && SignMachine(S).n == |S.signers| && SignMachine(S).start == At0
  {
  }

  lemma AnswersSize(store: Store, keys: seq<string>)
    requires T.Answers(store, keys).Some?
    ensures |T.Answers(store, keys).value| == |keys|
  {
  }

  /** The signup and the own identity are under none of the keys that are polled. */
  lemma BeyondTheLast(t: nat, me: Signer, roomKey: string, signup: SignupResult, store: Store, others: seq<Store>)
    requires IsRoomKey(roomKey) && signup.Granted? && signup.number > t + 1
    requires forall key :: key in T.BroadcastKeys(t + 1, signup.number, RoundName(0), signup.uuid) ==> T.WrittenOnce(store, others, key)
    ensures
      var store' := store[roomKey := R.Signup(signup.number, signup.uuid)]
                         [BroadcastKey(signup.number, RoundName(0), signup.uuid) := R.Data(PartyId(me.file.partyId))];
      forall key :: key in T.BroadcastKeys(t + 1, signup.number, RoundName(0), signup.uuid) ==> T.WrittenOnce(store', others, key)
  {
    hide T.WrittenOnce, BroadcastKey, RoundName;
    var keys := T.BroadcastKeys(t + 1, signup.number, RoundName(0), signup.uuid);
    var own := BroadcastKey(signup.number, RoundName(0), signup.uuid);
    var store' := store[roomKey := R.Signup(signup.number, signup.uuid)][own := R.Data(PartyId(me.file.partyId))];
    forall key | key in keys
      ensures T.WrittenOnce(store', others, key)
    {
      var j :| 0 <= j < |keys| && keys[j] == key;
      var i := T.PeerNumbers(t + 1, signup.number)[j];
      assert key == BroadcastKey(i, RoundName(0), signup.uuid) && i != signup.number;
      NotTheRoom(roomKey, i, signup.uuid);
      if key == own {
        BroadcastKeyInjective(i, 0, signup.uuid, signup.number, 0, signup.uuid);
      }
      T.OnlyEntryMatters(store, store', others, key);
    }
  }

  lemma NotTheRoom(roomKey: string, i: nat, uuid: string)
    requires IsRoomKey(roomKey)
    ensures roomKey != BroadcastKey(i, RoundName(0), uuid)
  {
    RoomKeyDisjoint(roomKey, Broadcast(i, 0, uuid));
  }
}
