/** The whole program of one party of key generation: the signup and five rounds of sending, polling and
    computing. */
module KeygenProgram {
  import opened Wrappers
  import opened StoreKeys
  import opened Library
  import opened KeyFiles
  import opened Keygen
  import opened KeygenSteps
  import opened Machines
  import opened Signups
  import opened Exchanges
  import opened Conversations
  import T = Transport
  import R = Rounds

  type Store = T.Store<Msg>

  lemma SharesNonnegative(C: Curve, t: nat, n: nat, me: Part, own: nat, l1: Local1, ans: seq<Msg>)
    requires C.q > 0
    ensures
      var l := Next2(C, t, n, me, own, l1, ans);
      l.Some? ==> |l.value.shares| == n && |l.value.encKeys| == n - 1 && forall i :: 0 <= i < n ==> l.value.shares[i] >= 0
  {
    hide KeysDefined, AesKey, OpensAll, SumPoints, ShareVss;
  }

  method RunRound1(S: Setup, own: nat, c: T.StoreCommunity<Msg>, ghost start: Store, ghost heard: seq<seq<Msg>>)
    returns (l': Option<Local1>, ghost heard': seq<seq<Msg>>)
    requires S.C.q > 0 && own < |S.parts|
    requires Ready(KeygenMachine(S), own, start, c.store, c.others, heard, At0) && |heard| == 0
    modifies c
    ensures l'.Some? ==> Ready(KeygenMachine(S), own, start, c.store, c.others, heard', At1(l'.value)) && |heard'| == 1
    ensures l'.None? ==> Stopped(KeygenMachine(S), own, start, c.store, c.others, heard')
  {
    hide Talking, StateAfter, Missing;
    var me, n := S.parts[own], |S.parts|;
    l', heard' := None, heard;
    var ans := Converse(KeygenMachine(S), own, c, 0, [OwnFirst(me)], start, heard, At0);
    if ans.Some? {
      heard' := heard + [ans.value];
      l' := AfterRound1(n, me, own + 1, ans.value);
    }
  }

  method RunRound2(S: Setup, own: nat, c: T.StoreCommunity<Msg>, ghost start: Store, ghost heard: seq<seq<Msg>>, l: Local1)
    returns (l': Option<Local2>, ghost heard': seq<seq<Msg>>)
    requires S.C.q > 0 && own < |S.parts|
    requires Ready(KeygenMachine(S), own, start, c.store, c.others, heard, At1(l)) && |heard| == 1
    modifies c
    ensures l'.Some? ==> Ready(KeygenMachine(S), own, start, c.store, c.others, heard', At2(l'.value)) && |heard'| == 2
    ensures l'.Some? ==> |l'.value.shares| == |S.parts| && |l'.value.encKeys| == |S.parts| - 1 && forall i :: 0 <= i < |S.parts| ==> l'.value.shares[i] >= 0
    ensures l'.None? ==> Stopped(KeygenMachine(S), own, start, c.store, c.others, heard')
  {
    hide Talking, StateAfter, Missing;
    var me, n := S.parts[own], |S.parts|;
    l', heard' := None, heard;
    var ans := Converse(KeygenMachine(S), own, c, 1, [OwnOpening(me)], start, heard, At1(l));
    if ans.Some? {
      heard' := heard + [ans.value];
      l' := AfterRound2(S.C, S.t, n, me, own + 1, l, ans.value);
      SharesNonnegative(S.C, S.t, n, me, own, l, ans.value);
    }
  }

  method RunRound3(S: Setup, own: nat, c: T.StoreCommunity<Msg>, ghost start: Store, ghost heard: seq<seq<Msg>>, l: Local2)
    returns (l': Option<Local3>, ghost heard': seq<seq<Msg>>)
    requires S.C.q > 0 && own < |S.parts|
    requires Ready(KeygenMachine(S), own, start, c.store, c.others, heard, At2(l)) && |heard| == 2
    requires |l.shares| == |S.parts| && |l.encKeys| == |S.parts| - 1 && forall i :: 0 <= i < |S.parts| ==> l.shares[i] >= 0
    modifies c
    ensures l'.Some? ==> Ready(KeygenMachine(S), own, start, c.store, c.others, heard', At3(l'.value)) && |heard'| == 3
    ensures l'.None? ==> Stopped(KeygenMachine(S), own, start, c.store, c.others, heard')
  {
    hide Talking, StateAfter, Missing;
    var me, n := S.parts[own], |S.parts|;
    l', heard' := None, heard;
    var msgs := SealAll(n, own + 1, l);
    var ans := Converse(KeygenMachine(S), own, c, 2, msgs, start, heard, At2(l));
    if ans.Some? {
      heard' := heard + [ans.value];
      l' := AfterRound3(S.C.q, n, own + 1, l, ans.value);
    }
  }

  method RunRound4(S: Setup, own: nat, c: T.StoreCommunity<Msg>, ghost start: Store, ghost heard: seq<seq<Msg>>, l: Local3)
    returns (l': Option<Local4>, ghost heard': seq<seq<Msg>>)
    requires S.C.q > 0 && own < |S.parts|
    requires Ready(KeygenMachine(S), own, start, c.store, c.others, heard, At3(l)) && |heard| == 3
    modifies c
    ensures l'.Some? ==> Ready(KeygenMachine(S), own, start, c.store, c.others, heard', At4(l'.value)) && |heard'| == 4
    ensures l'.None? ==> Stopped(KeygenMachine(S), own, start, c.store, c.others, heard')
  {
    hide Talking, StateAfter, Missing;
    var me, n := S.parts[own], |S.parts|;
    l', heard' := None, heard;
    var ans := Converse(KeygenMachine(S), own, c, 3, [Sharing(l.l2.vss)], start, heard, At3(l));
    if ans.Some? {
      heard' := heard + [ans.value];
      l' := AfterRound4(S.C.q, n, own + 1, l, ans.value);
    }
  }

  method RunRound5(S: Setup, own: nat, c: T.StoreCommunity<Msg>, ghost start: Store, ghost heard: seq<seq<Msg>>, l: Local4)
    returns (l': Option<KeyFile>, ghost heard': seq<seq<Msg>>)
    requires S.C.q > 0 && own < |S.parts|
    requires Ready(KeygenMachine(S), own, start, c.store, c.others, heard, At4(l)) && |heard| == 4
    modifies c
    ensures l'.Some? ==> Ready(KeygenMachine(S), own, start, c.store, c.others, heard', Saved(l'.value)) && |heard'| == 5
    ensures l'.None? ==> Stopped(KeygenMachine(S), own, start, c.store, c.others, heard')
  {
    hide Talking, StateAfter, Missing;
    var me, n := S.parts[own], |S.parts|;
    l', heard' := None, heard;
    var ans := Converse(KeygenMachine(S), own, c, 4, [Proof(ProveDLog(l.x))], start, heard, At4(l));
    if ans.Some? {
      heard' := heard + [ans.value];
      l' := AfterRound5(S.C.q, n, me, own + 1, l, ans.value);
    }
  }

  /** The five rounds, from the first message to the key file. */
  method RunRounds(S: Setup, own: nat, c: T.StoreCommunity<Msg>, ghost start: Store) returns (file: Option<KeyFile>, ghost heard: seq<seq<Msg>>)
    requires S.C.q > 0 && own < |S.parts|
    requires Ready(KeygenMachine(S), own, start, c.store, c.others, [], At0)
    modifies c
    ensures file.Some? ==> Ready(KeygenMachine(S), own, start, c.store, c.others, heard, Saved(file.value)) && |heard| == ROUNDS
    ensures file.None? ==> Stopped(KeygenMachine(S), own, start, c.store, c.others, heard)
  {
    hide Ready, Stopped, KeygenMachine;
    file, heard := None, [];
    var l1, l2, l3, l4;
    l1, heard := RunRound1(S, own, c, start, heard);
    if l1.None? {
      return;
    }
    l2, heard := RunRound2(S, own, c, start, heard, l1.value);
    if l2.None? {
      return;
    }
    l3, heard := RunRound3(S, own, c, start, heard, l2.value);
    if l3.None? {
      return;
    }
    l4, heard := RunRound4(S, own, c, start, heard, l3.value);
    if l4.None? {
      return;
    }
    file, heard := RunRound5(S, own, c, start, heard, l4.value);
  }

  /** What a party knows of the run once it has signed up: the other slots are filled with its own data,
      which its program never looks at. */
  function Knows(C: Curve, t: nat, n: nat, me: Part, roomKey: string, uuid: string): Setup {
    Setup(C, t, seq(n, _ => me), roomKey, uuid)
  }

  /** What the program of the party in slot own has done: it has changed nothing but its own entries and the
      room's record, and it has either come to the end, having sent all its messages, with the result of the
      protocol's party for what its peers have written, or it has stopped. */
  ghost predicate Generates(S: Setup, own: nat, start: Store, store: Store, others: seq<Store>, heard: seq<seq<Msg>>, file: Option<KeyFile>)
    requires |S.parts| > 0
  {
    if file.Some? then Ready(KeygenMachine(S), own, start, store, others, heard, Saved(file.value)) && |heard| == ROUNDS
    else Stopped(KeygenMachine(S), own, start, store, others, heard)
  }

  /** The program of one party: it signs up for one of n numbers, and then sends, polls and computes round by
      round. */
  method GenerateKey(C: Curve, t: nat, n: nat, me: Part, roomKey: string, newUuid: string, c: T.StoreCommunity<Msg>)
    returns (signup: SignupResult, file: Option<KeyFile>, ghost heard: seq<seq<Msg>>)
    requires C.q > 0 && IsRoomKey(roomKey) && n > 0
    requires
      var signup := ReadSignup(c.store, n, roomKey, newUuid);
      signup.Granted? ==> WellBehaved(KeygenProtocol(Knows(C, t, n, me, roomKey, signup.uuid)), signup.number - 1, c.store, c.others)
    modifies c
    ensures signup == ReadSignup(old(c.store), n, roomKey, newUuid)
    ensures !signup.Granted? ==> file.None? && c.store == old(c.store) && c.others == old(c.others)
    ensures signup.Granted? ==>
      && 1 <= signup.number <= n
      && Generates(Knows(C, t, n, me, roomKey, signup.uuid), signup.number - 1, T.Eventually(old(c.store), old(c.others)), c.store, c.others, heard, file)
  {
    hide T.Eventually, WellBehaved, Ready, Stopped, KeygenMachine;
    file, heard := None, [];
    ghost var store, others := c.store, c.others;
    signup := c.GetPartySignup(n, roomKey, newUuid);
    if !signup.Granted? {
      return;
    }
    var S := Knows(C, t, n, me, roomKey, signup.uuid);
    assert KeygenMachine(S).roomKey == roomKey && KeygenMachine(S).n == n && KeygenMachine(S).start == At0 by {
      MachineOf(S);
    }
    AfterSignup(KeygenMachine(S), signup.number - 1, store, others, R.Signup(signup.number, signup.uuid));
    file, heard := RunRounds(S, signup.number - 1, c, T.Eventually(store, others));
  }

  lemma MachineOf(S: Setup)
    ensures KeygenMachine(S).roomKey == S.roomKey && KeygenMachine(S).n == |S.parts| && KeygenMachine(S).start == At0
  {
  }
}
