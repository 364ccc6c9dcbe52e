/** The round structure shared by key generation and signing: n parties sign up for a number, and in
    every round each party writes its messages to the shared store, polls for every other party's
    message and goes on to the next round. Any sequence of party numbers is an interleaving. */
module Rounds {
  import opened Wrappers
  import opened StoreKeys
  import opened Schedules
  import M = Modular

  /** What the parties run. `compute(a, r, heard)` is what the party in slot a (its number less one)
      sends in round r once it has heard the answers of rounds 0, ..., r - 1; None is a panic. After
      the last round it is asked once more, for the final local computation, and sends nothing. */
  datatype Protocol<!M> = Protocol(
    n: nat,
    rounds: nat,
    firstRound: nat,
    p2p: set<nat>,
    roomKey: string,
    uuid: string,
    compute: (nat, nat, seq<seq<M>>) -> Option<seq<M>>)

  datatype Entry<+M> = Signup(number: nat, uuid: string) | Data(msg: M)

  datatype Stage<+M> =
    | Idle
    | Publishing(out: seq<M>, next: nat)
    | Polling(ans: seq<M>)
    | Done
    | Crashed

  datatype Party<+M> = Party(heard: seq<seq<M>>, stage: Stage<M>)

  datatype State<M> = State(store: map<string, Entry<M>>, parties: seq<Party<M>>)

  ghost predicate WellFormed<M>(P: Protocol<M>) {
    P.n > 0 && IsRoomKey(P.roomKey)
  }

  /** How many messages a party sends in round r. */
  function OutSize<M>(P: Protocol<M>, r: nat): nat
    requires P.n > 0
  {
    if r >= P.rounds then 0 else if r in P.p2p then P.n - 1 else 1
  }

  /** The k-th message of the party in slot a in round r; party numbers start at one. */
  function MsgName<M>(P: Protocol<M>, a: nat, r: nat, k: nat): Name {
    if r in P.p2p then PointToPoint(a + 1, M.Skip(a, k) + 1, P.firstRound + r, P.uuid)
    else Broadcast(a + 1, P.firstRound + r, P.uuid)
  }

  /** The message a party polls for as its j-th answer in round r. */
  function PollName<M>(P: Protocol<M>, a: nat, r: nat, j: nat): Name {
    if r in P.p2p then PointToPoint(M.Skip(a, j) + 1, a + 1, P.firstRound + r, P.uuid)
    else Broadcast(M.Skip(a, j) + 1, P.firstRound + r, P.uuid)
  }

  function MsgKey<M>(P: Protocol<M>, a: nat, r: nat, k: nat): string {
    Text(MsgName(P, a, r, k))
  }

  function PollKey<M>(P: Protocol<M>, a: nat, r: nat, j: nat): string {
    Text(PollName(P, a, r, j))
  }

  /** Which of b's messages is meant for a. */
  function SlotFor<M>(P: Protocol<M>, r: nat, b: nat, a: nat): nat
    requires a != b
  {
    if r in P.p2p then M.Unskip(b, a) else 0
  }

  /** The local computation succeeds and yields one message for each recipient. */
  predicate Computes<M>(P: Protocol<M>, a: nat, r: nat, heard: seq<seq<M>>)
    requires P.n > 0
  {
    var out := P.compute(a, r, heard);
    out.Some? && |out.value| == OutSize(P, r)
  }

  function Enter<M>(P: Protocol<M>, a: nat, heard: seq<seq<M>>): Party<M>
    requires P.n > 0
  {
    if !Computes(P, a, |heard|, heard) then Party(heard, Crashed)
    else if |heard| >= P.rounds then Party(heard, Done)
    else Party(heard, Publishing(P.compute(a, |heard|, heard).value, 0))
  }

  function SignedUp<M>(P: Protocol<M>, store: map<string, Entry<M>>): nat {
    if P.roomKey in store && store[P.roomKey].Signup? then store[P.roomKey].number else 0
  }

  /** One step of the party in slot a; a poll that finds nothing changes nothing. The slots are
      numbered in the order in which the parties sign up. */
  function Step<M>(P: Protocol<M>, s: State<M>, a: nat): State<M>
    requires P.n > 0
  {
    if a >= |s.parties| then s
    else
      var p := s.parties[a];
      var r := |p.heard|;
      match p.stage
      case Idle =>
        if SignedUp(P, s.store) != a then s
        else State(s.store[P.roomKey := Signup(a + 1, P.uuid)], s.parties[a := Enter(P, a, [])])
      case Publishing(out, k) =>
        if k < |out| then
          State(s.store[MsgKey(P, a, r, k) := Data(out[k])], s.parties[a := p.(stage := Publishing(out, k + 1))])
        else State(s.store, s.parties[a := p.(stage := Polling([]))])
      case Polling(ans) =>
        if |ans| >= P.n - 1 then State(s.store, s.parties[a := Enter(P, a, p.heard + [ans])])
        else
          var key := PollKey(P, a, r, |ans|);
          if key in s.store && s.store[key].Data? then
            State(s.store, s.parties[a := p.(stage := Polling(ans + [s.store[key].msg]))])
          else s
      case Done => s
      case Crashed => s
  }

  function Init<M>(P: Protocol<M>): State<M> {
    State(map[], seq(P.n, _ => Party([], Idle)))
  }

  function RunFrom<M>(P: Protocol<M>, s: State<M>, schedule: seq<nat>): State<M>
    requires P.n > 0
    decreases |schedule|
  {
    if |schedule| == 0 then s else RunFrom(P, Step(P, s, schedule[0]), schedule[1..])
  }

  function Run<M>(P: Protocol<M>, schedule: seq<nat>): State<M>
    requires P.n > 0
  {
    RunFrom(P, Init(P), schedule)
  }

  predicate AllDone<M>(s: State<M>) {
    forall a :: 0 <= a < |s.parties| ==> s.parties[a].stage.Done?
  }

  // ----------------------------------------------------------------------------------------------
  // The reference execution: all parties move from round to round together, without a store
  // ----------------------------------------------------------------------------------------------

  ghost predicate AllCompute<M>(P: Protocol<M>, r: nat, heard: seq<seq<seq<M>>>)
    requires P.n > 0 && |heard| == P.n
  {
    forall a :: 0 <= a < P.n ==> Computes(P, a, r, heard[a])
  }

  /** The message b sends to a. */
  ghost function Sent<M>(P: Protocol<M>, r: nat, heard: seq<seq<seq<M>>>, b: nat, a: nat): M
    requires P.n > 0 && |heard| == P.n && r < P.rounds && a < P.n && b < P.n && a != b
    requires Computes(P, b, r, heard[b])
  {
    P.compute(b, r, heard[b]).value[SlotFor(P, r, b, a)]
  }

  ghost function Received<M>(P: Protocol<M>, r: nat, heard: seq<seq<seq<M>>>, a: nat): (ans: seq<M>)
    requires P.n > 0 && |heard| == P.n && r < P.rounds && a < P.n && AllCompute(P, r, heard)
    ensures |ans| == P.n - 1
  {
    seq(P.n - 1, j requires 0 <= j < P.n - 1 => Sent(P, r, heard, M.Skip(a, j), a))
  }

  /** What every party has heard after r synchronous rounds; None if some party panicked before. */
  ghost function Sync<M>(P: Protocol<M>, r: nat): (heard: Option<seq<seq<seq<M>>>>)
    requires P.n > 0 && r <= P.rounds
    ensures heard.Some? ==> |heard.value| == P.n && forall a :: 0 <= a < P.n ==> |heard.value[a]| == r
  {
    if r == 0 then Some(seq(P.n, _ => []))
    else
      match Sync(P, r - 1)
      case None => None
      case Some(heard) =>
        if AllCompute(P, r - 1, heard) then
          Some(seq(P.n, a requires 0 <= a < P.n => heard[a] + [Received(P, r - 1, heard, a)]))
        else None
  }

  /** The reference execution reaches the end without a panic. */
  ghost predicate Completes<M>(P: Protocol<M>)
    requires P.n > 0
  {
    Sync(P, P.rounds).Some? && AllCompute(P, P.rounds, Sync(P, P.rounds).value)
  }

  /** If everyone's computation in round r is known, so is what everyone hears in it. */
  lemma SyncNext<M>(P: Protocol<M>, r: nat, outs: nat -> seq<M>)
    requires P.n > 0 && r < P.rounds && Sync(P, r).Some?
    requires forall a :: 0 <= a < P.n ==> |outs(a)| == OutSize(P, r) && P.compute(a, r, Sync(P, r).value[a]) == Some(outs(a))
    ensures Sync(P, r + 1).Some?
    ensures forall a :: 0 <= a < P.n ==> Sync(P, r + 1).value[a] == Sync(P, r).value[a] + [Delivered(P, r, outs, a)]
  {
    var heard := Sync(P, r).value;
    assert AllCompute(P, r, heard);
    forall a | 0 <= a < P.n
      ensures Received(P, r, heard, a) == Delivered(P, r, outs, a)
    {
    }
  }

  ghost function Delivered<M>(P: Protocol<M>, r: nat, outs: nat -> seq<M>, a: nat): (ans: seq<M>)
    requires P.n > 0 && r < P.rounds && a < P.n
    requires forall b :: 0 <= b < P.n ==> |outs(b)| == OutSize(P, r)
    ensures |ans| == P.n - 1
  {
    seq(P.n - 1, j requires 0 <= j < P.n - 1 => assert |outs(M.Skip(a, j))| == OutSize(P, r); outs(M.Skip(a, j))[SlotFor(P, r, M.Skip(a, j), a)])
  }

  lemma {:induction false} SyncEarlier<M>(P: Protocol<M>, r: nat, r': nat)
    requires P.n > 0 && r <= r' <= P.rounds && Sync(P, r').Some?
    ensures Sync(P, r).Some?
    ensures r < r' ==> AllCompute(P, r, Sync(P, r).value)
    decreases r' - r
  {
    if r < r' {
      SyncEarlier(P, r + 1, r');
    }
  }

  lemma {:induction false} SyncPrefix<M>(P: Protocol<M>, r: nat, r': nat, a: nat)
    requires P.n > 0 && a < P.n && r <= r' <= P.rounds && Sync(P, r').Some? && Sync(P, r).Some?
    ensures Sync(P, r').value[a][..r] == Sync(P, r).value[a]
    decreases r'
  {
    if r < r' {
      SyncPrefix(P, r, r' - 1, a);
      var h := Sync(P, r').value[a];
      assert h[..r' - 1] == Sync(P, r' - 1).value[a];
      assert h[..r] == h[..r' - 1][..r];
    }
  }

  // ----------------------------------------------------------------------------------------------
  // The invariant
  // ----------------------------------------------------------------------------------------------

  /** The party has written the k-th message of round r. */
  ghost predicate Published<M>(p: Party<M>, r: nat, k: nat) {
    || r < |p.heard|
    || (r == |p.heard| && (p.stage.Polling? || (p.stage.Publishing? && k < p.stage.next)))
  }

  ghost predicate Agrees<M>(P: Protocol<M>, p: Party<M>, a: nat)
    requires P.n > 0 && a < P.n
  {
    var r := |p.heard|;
    r <= P.rounds && Sync(P, r).Some? && p.heard == Sync(P, r).value[a]
  }

  /** An answer already read is what the reference execution delivers. */
  ghost predicate Answer<M>(P: Protocol<M>, r: nat, a: nat, j: nat, msg: M)
    requires P.n > 0 && r < P.rounds && Sync(P, r).Some? && a < P.n && j < P.n - 1
  {
    var heard, b := Sync(P, r).value, M.Skip(a, j);
    Computes(P, b, r, heard[b]) && msg == Sent(P, r, heard, b, a)
  }

  ghost predicate StageOk<M>(P: Protocol<M>, p: Party<M>, a: nat)
    requires P.n > 0 && a < P.n && Agrees(P, p, a)
  {
    var r := |p.heard|;
    match p.stage
    case Idle => r == 0
    case Publishing(out, k) => r < P.rounds && Computes(P, a, r, p.heard) && out == P.compute(a, r, p.heard).value && k <= |out|
    case Polling(ans) =>
      && r < P.rounds && Computes(P, a, r, p.heard)
      && |ans| <= P.n - 1
      && forall j :: 0 <= j < |ans| ==> Answer(P, r, a, j, ans[j])
    case Done => r == P.rounds && Computes(P, a, r, p.heard)
    case Crashed => !Computes(P, a, r, p.heard)
  }

  ghost predicate PartyOk<M>(P: Protocol<M>, p: Party<M>, a: nat)
    requires P.n > 0 && a < P.n
  {
    Agrees(P, p, a) && StageOk(P, p, a)
  }

  /** The entry under the key of b's k-th message of round r is there once b has written it, and is
      what the reference execution sends. */
  ghost predicate EntryOk<M>(P: Protocol<M>, s: State<M>, b: nat, r: nat, k: nat)
    requires P.n > 0 && |s.parties| == P.n && b < P.n && r < P.rounds && k < OutSize(P, r)
  {
    var key := MsgKey(P, b, r, k);
    (key in s.store <==> Published(s.parties[b], r, k)) &&
    (key in s.store ==>
       && Sync(P, r).Some? && Computes(P, b, r, Sync(P, r).value[b])
       && s.store[key] == Data(P.compute(b, r, Sync(P, r).value[b]).value[k]))
  }

  ghost predicate SignupOk<M>(P: Protocol<M>, s: State<M>) {
    && |s.parties| == P.n
    && SignedUp(P, s.store) <= P.n
    && (P.roomKey in s.store ==> s.store[P.roomKey] == Signup(SignedUp(P, s.store), P.uuid))
    && forall a :: 0 <= a < P.n ==> (s.parties[a].stage.Idle? <==> SignedUp(P, s.store) <= a)
  }

  /** What a party has read was written. */
  ghost predicate HeardOk<M>(P: Protocol<M>, s: State<M>, a: nat)
    requires P.n > 0 && |s.parties| == P.n && a < P.n
  {
    && (forall r, b :: 0 <= r < |s.parties[a].heard| && 0 <= b < P.n && b != a ==>
          Published(s.parties[b], r, SlotFor(P, r, b, a)))
    && (s.parties[a].stage.Polling? ==>
          forall j :: 0 <= j < |s.parties[a].stage.ans| && M.Skip(a, j) < P.n ==>
            Published(s.parties[M.Skip(a, j)], |s.parties[a].heard|, SlotFor(P, |s.parties[a].heard|, M.Skip(a, j), a)))
  }

  ghost predicate Invariant<M>(P: Protocol<M>, s: State<M>)
    requires P.n > 0
  {
    && SignupOk(P, s)
    && (forall a :: 0 <= a < P.n ==> PartyOk(P, s.parties[a], a))
    && (forall b, r, k :: 0 <= b < P.n && 0 <= r < P.rounds && 0 <= k < OutSize(P, r) ==> EntryOk(P, s, b, r, k))
    && (forall a :: 0 <= a < P.n ==> HeardOk(P, s, a))
  }

  lemma MsgKeyInjective<M>(P: Protocol<M>, a: nat, r: nat, k: nat, a': nat, r': nat, k': nat)
    requires P.n > 0 && r < P.rounds && r' < P.rounds && k < OutSize(P, r) && k' < OutSize(P, r')
    requires MsgKey(P, a, r, k) == MsgKey(P, a', r', k')
    ensures a == a' && r == r' && k == k'
  {
    TextInjective(MsgName(P, a, r, k), MsgName(P, a', r', k'));
  }

  lemma RoomKeyIsNoMsgKey<M>(P: Protocol<M>, a: nat, r: nat, k: nat)
    requires WellFormed(P)
    ensures MsgKey(P, a, r, k) != P.roomKey
  {
    RoomKeyDisjoint(P.roomKey, MsgName(P, a, r, k));
  }

  /** A poll looks exactly where the peer writes the message meant for the polling party. */
  lemma PollKeyIsMsgKey<M>(P: Protocol<M>, a: nat, r: nat, j: nat)
    requires P.n > 0 && a < P.n && r < P.rounds && j < P.n - 1
    ensures M.Skip(a, j) < P.n
    ensures SlotFor(P, r, M.Skip(a, j), a) < OutSize(P, r)
    ensures PollKey(P, a, r, j) == MsgKey(P, M.Skip(a, j), r, SlotFor(P, r, M.Skip(a, j), a))
  {
  }

  lemma InitInv<M>(P: Protocol<M>)
    requires WellFormed(P)
    ensures Invariant(P, Init(P))
  {
  }

  /** Entering a round with answers that agree with the reference execution keeps the party in step. */
  lemma EnterOk<M>(P: Protocol<M>, a: nat, heard: seq<seq<M>>)
    requires P.n > 0 && a < P.n
    requires |heard| <= P.rounds && Sync(P, |heard|).Some? && heard == Sync(P, |heard|).value[a]
    ensures PartyOk(P, Enter(P, a, heard), a)
  {
  }

  /** The other parties are untouched and everything the party in slot a had written is still written. */
  ghost predicate Grows<M>(P: Protocol<M>, s: State<M>, s': State<M>, a: nat) {
    && |s'.parties| == |s.parties|
    && (forall b :: 0 <= b < |s.parties| && b != a ==> s'.parties[b] == s.parties[b])
    && (a < |s.parties| ==> forall r: nat, k: nat :: Published(s.parties[a], r, k) ==> Published(s'.parties[a], r, k))
  }

  lemma HeardKept<M>(P: Protocol<M>, s: State<M>, s': State<M>, a: nat)
    requires P.n > 0 && Invariant(P, s) && Grows(P, s, s', a)
    ensures forall b :: 0 <= b < P.n && b != a ==> HeardOk(P, s', b)
  {
    forall b | 0 <= b < P.n && b != a
      ensures HeardOk(P, s', b)
    {
      assert HeardOk(P, s, b);
    }
  }

  /** A step of the party in slot a that writes no message. */
  ghost predicate Silent<M>(P: Protocol<M>, s: State<M>, s': State<M>, a: nat)
    requires a < |s.parties|
  {
    && Grows(P, s, s', a)
    && (forall b: nat, r: nat, k: nat :: MsgKey(P, b, r, k) in s'.store <==> MsgKey(P, b, r, k) in s.store)
    && (forall b: nat, r: nat, k: nat :: MsgKey(P, b, r, k) in s.store ==> s'.store[MsgKey(P, b, r, k)] == s.store[MsgKey(P, b, r, k)])
    && (forall r, k :: 0 <= r < P.rounds && 0 <= k && P.n > 0 && k < OutSize(P, r) ==>
          Published(s'.parties[a], r, k) == Published(s.parties[a], r, k))
  }

  lemma SilentStep<M>(P: Protocol<M>, s: State<M>, s': State<M>, a: nat)
    requires WellFormed(P) && Invariant(P, s) && a < P.n
    requires Silent(P, s, s', a)
    requires SignupOk(P, s') && PartyOk(P, s'.parties[a], a) && HeardOk(P, s', a)
    ensures Invariant(P, s')
  {
    HeardKept(P, s, s', a);
    forall b, r, k | 0 <= b < P.n && 0 <= r < P.rounds && 0 <= k < OutSize(P, r)
      ensures EntryOk(P, s', b, r, k)
    {
      assert EntryOk(P, s, b, r, k);
    }
    forall b | 0 <= b < P.n
      ensures PartyOk(P, s'.parties[b], b)
    {
      assert PartyOk(P, s.parties[b], b);
    }
  }

  lemma SignupStep<M>(P: Protocol<M>, s: State<M>, a: nat)
    requires WellFormed(P) && Invariant(P, s) && a < P.n && s.parties[a].stage.Idle? && SignedUp(P, s.store) == a
    ensures Invariant(P, Step(P, s, a))
  {
    var s' := Step(P, s, a);
    forall b: nat, r: nat, k: nat
      ensures MsgKey(P, b, r, k) != P.roomKey
    {
      RoomKeyIsNoMsgKey(P, b, r, k);
    }
    assert PartyOk(P, s.parties[a], a);
    EnterOk(P, a, []);
    SilentStep(P, s, s', a);
  }

  lemma StartPollingStep<M>(P: Protocol<M>, s: State<M>, a: nat)
    requires WellFormed(P) && Invariant(P, s) && a < P.n && s.parties[a].stage.Publishing?
    requires s.parties[a].stage.next >= |s.parties[a].stage.out|
    ensures Invariant(P, Step(P, s, a))
  {
    assert PartyOk(P, s.parties[a], a) && HeardOk(P, s, a);
    SilentStep(P, s, Step(P, s, a), a);
  }

  lemma PublishStep<M>(P: Protocol<M>, s: State<M>, a: nat)
    requires WellFormed(P) && Invariant(P, s) && a < P.n && s.parties[a].stage.Publishing?
    requires s.parties[a].stage.next < |s.parties[a].stage.out|
    ensures Invariant(P, Step(P, s, a))
  {
    var s', p := Step(P, s, a), s.parties[a];
    var r0, k0 := |p.heard|, p.stage.next;
    assert PartyOk(P, p, a) && HeardOk(P, s, a);
    RoomKeyIsNoMsgKey(P, a, r0, k0);
    HeardKept(P, s, s', a);
    forall b, r, k | 0 <= b < P.n && 0 <= r < P.rounds && 0 <= k < OutSize(P, r)
      ensures EntryOk(P, s', b, r, k)
    {
      assert EntryOk(P, s, b, r, k);
      if MsgKey(P, b, r, k) == MsgKey(P, a, r0, k0) {
        MsgKeyInjective(P, b, r, k, a, r0, k0);
      }
    }
    forall b | 0 <= b < P.n
      ensures PartyOk(P, s'.parties[b], b)
    {
      assert PartyOk(P, s.parties[b], b);
    }
  }

  lemma ReadStep<M>(P: Protocol<M>, s: State<M>, a: nat)
    requires WellFormed(P) && Invariant(P, s) && a < P.n && s.parties[a].stage.Polling?
    requires |s.parties[a].stage.ans| < P.n - 1
    ensures Invariant(P, Step(P, s, a))
  {
    hide Sync, Text, PollName, MsgName, Computes;
    var s', p := Step(P, s, a), s.parties[a];
    var r, j := |p.heard|, |p.stage.ans|;
    assert PartyOk(P, p, a) && HeardOk(P, s, a);
    PollKeyIsMsgKey(P, a, r, j);
    var b := M.Skip(a, j);
    assert EntryOk(P, s, b, r, SlotFor(P, r, b, a));
    if s' != s {
      assert Answer(P, r, a, j, s'.parties[a].stage.ans[j]);
      SilentStep(P, s, s', a);
    }
  }

  lemma SyncStep<M>(P: Protocol<M>, r: nat, a: nat)
    requires P.n > 0 && r < P.rounds && a < P.n && Sync(P, r).Some? && AllCompute(P, r, Sync(P, r).value)
    ensures Sync(P, r + 1).Some? && Sync(P, r + 1).value[a] == Sync(P, r).value[a] + [Received(P, r, Sync(P, r).value, a)]
  {
  }

  lemma AdvanceStep<M>(P: Protocol<M>, s: State<M>, a: nat)
    requires WellFormed(P) && Invariant(P, s) && a < P.n && s.parties[a].stage.Polling?
    requires |s.parties[a].stage.ans| >= P.n - 1
    ensures Invariant(P, Step(P, s, a))
  {
    hide Text, PollName, MsgName, Sync, Computes;
    var s', p := Step(P, s, a), s.parties[a];
    var r, ans := |p.heard|, p.stage.ans;
    assert PartyOk(P, p, a) && HeardOk(P, s, a);
    var heard := Sync(P, r).value;
    forall b | 0 <= b < P.n
      ensures Computes(P, b, r, heard[b])
      ensures b != a ==> Published(s.parties[b], r, SlotFor(P, r, b, a))
    {
      if b != a {
        var j := M.Unskip(a, b);
        assert Answer(P, r, a, j, ans[j]);
      }
    }
    assert AllCompute(P, r, heard);
    assert ans == Received(P, r, heard, a) by {
      forall j | 0 <= j < P.n - 1
        ensures ans[j] == Received(P, r, heard, a)[j]
      {
        assert Answer(P, r, a, j, ans[j]);
      }
    }
    SyncStep(P, r, a);
    EnterOk(P, a, p.heard + [ans]);
    assert s'.parties[a].heard == p.heard + [ans];
    SilentStep(P, s, s', a);
  }

  lemma StepInv<M>(P: Protocol<M>, s: State<M>, a: nat)
    requires WellFormed(P) && Invariant(P, s)
    ensures Invariant(P, Step(P, s, a))
  {
    if a < P.n {
      match s.parties[a].stage
      case Idle => if SignedUp(P, s.store) == a { SignupStep(P, s, a); }
      case Publishing(out, k) => if k < |out| { PublishStep(P, s, a); } else { StartPollingStep(P, s, a); }
      case Polling(ans) => if |ans| < P.n - 1 { ReadStep(P, s, a); } else { AdvanceStep(P, s, a); }
      case Done =>
      case Crashed =>
    }
  }

  lemma {:induction false} RunFromInv<M>(P: Protocol<M>, s: State<M>, schedule: seq<nat>)
    requires WellFormed(P) && Invariant(P, s)
    ensures Invariant(P, RunFrom(P, s, schedule))
    decreases |schedule|
  {
    if |schedule| > 0 {
      StepInv(P, s, schedule[0]);
      RunFromInv(P, Step(P, s, schedule[0]), schedule[1..]);
    }
  }

  // ----------------------------------------------------------------------------------------------
  // Safety: every interleaving refines the reference execution
  // ----------------------------------------------------------------------------------------------

  lemma RunInv<M>(P: Protocol<M>, schedule: seq<nat>)
    requires WellFormed(P)
    ensures Invariant(P, Run(P, schedule))
  {
    InitInv(P);
    RunFromInv(P, Init(P), schedule);
  }

  /** Whatever the interleaving, a party that has finished some rounds has heard exactly what it hears
      in the reference execution, it is done only at the end, and it panics only where the reference
      computation panics. */
  lemma RunAgreesWithReference<M>(P: Protocol<M>, schedule: seq<nat>, a: nat)
    requires WellFormed(P) && a < P.n
    ensures |Run(P, schedule).parties| == P.n
    ensures
      var p := Run(P, schedule).parties[a];
      var r := |p.heard|;
      && r <= P.rounds && Sync(P, r).Some? && p.heard == Sync(P, r).value[a]
      && (p.stage.Done? ==> r == P.rounds && Computes(P, a, r, p.heard))
      && (p.stage.Crashed? ==> !Computes(P, a, r, p.heard))
  {
    RunInv(P, schedule);
    assert PartyOk(P, Run(P, schedule).parties[a], a);
  }

  /** Nobody panics in a run whose reference execution completes. */
  lemma NoPanic<M>(P: Protocol<M>, schedule: seq<nat>, a: nat)
    requires WellFormed(P) && a < P.n && Completes(P)
    ensures |Run(P, schedule).parties| == P.n && !Run(P, schedule).parties[a].stage.Crashed?
  {
    RunAgreesWithReference(P, schedule, a);
    var r := |Run(P, schedule).parties[a].heard|;
    SyncEarlier(P, r, P.rounds);
  }

  /** All parties reach the end only when the reference execution completes. */
  lemma DoneMeansCompleted<M>(P: Protocol<M>, schedule: seq<nat>)
    requires WellFormed(P) && AllDone(Run(P, schedule))
    ensures Completes(P) && |Run(P, schedule).parties| == P.n
    ensures forall a :: 0 <= a < P.n ==> Run(P, schedule).parties[a].heard == Sync(P, P.rounds).value[a]
  {
    forall a | 0 <= a < P.n
      ensures |Run(P, schedule).parties| == P.n
      ensures Sync(P, P.rounds).Some? && Run(P, schedule).parties[a].heard == Sync(P, P.rounds).value[a]
      ensures Computes(P, a, P.rounds, Run(P, schedule).parties[a].heard)
    {
      RunAgreesWithReference(P, schedule, a);
    }
    RunAgreesWithReference(P, schedule, 0);
  }

  /** A party goes on to round r + 1 only after every other party has written its round-r message for
      it, so two parties are never more than one round apart. */
  lemma RoundsInStep<M>(P: Protocol<M>, schedule: seq<nat>, a: nat, b: nat, r: nat)
    requires WellFormed(P) && a < P.n && b < P.n && a != b
    ensures |Run(P, schedule).parties| == P.n
    ensures
      var s := Run(P, schedule);
      r < |s.parties[a].heard| ==>
        && MsgKey(P, b, r, SlotFor(P, r, b, a)) in s.store
        && |s.parties[b].heard| >= r
  {
    RunInv(P, schedule);
    var s := Run(P, schedule);
    assert HeardOk(P, s, a) && PartyOk(P, s.parties[a], a);
    if r < |s.parties[a].heard| {
      assert Published(s.parties[b], r, SlotFor(P, r, b, a));
      PollKeyIsMsgKey(P, a, r, M.Unskip(a, b));
      assert EntryOk(P, s, b, r, SlotFor(P, r, b, a));
    }
  }

  lemma {:induction false} AbsentStays<M>(P: Protocol<M>, s: State<M>, schedule: seq<nat>, b: nat)
    requires P.n > 0 && b < |s.parties| && b !in schedule
    ensures |RunFrom(P, s, schedule).parties| == |s.parties| && RunFrom(P, s, schedule).parties[b] == s.parties[b]
    decreases |schedule|
  {
    if |schedule| > 0 {
      AbsentStays(P, Step(P, s, schedule[0]), schedule[1..], b);
    }
  }

  /** If one party never gets a turn, no other party finishes even the first round. */
  lemma AbsentBlocks<M>(P: Protocol<M>, schedule: seq<nat>, a: nat, b: nat)
    requires WellFormed(P) && P.rounds > 0 && a < P.n && b < P.n && a != b && b !in schedule
    ensures |Run(P, schedule).parties| == P.n
    ensures Run(P, schedule).parties[a].heard == [] && !Run(P, schedule).parties[a].stage.Done?
  {
    RunInv(P, schedule);
    AbsentStays(P, Init(P), schedule, b);
    var s := Run(P, schedule);
    assert HeardOk(P, s, a) && PartyOk(P, s.parties[a], a);
    assert !Published(s.parties[b], 0, SlotFor(P, 0, b, a));
  }

  /** A message, once written, is never overwritten; only the signup record changes. */
  lemma StepKeepsMessages<M>(P: Protocol<M>, s: State<M>, a: nat, key: string)
    requires WellFormed(P) && Invariant(P, s) && key in s.store && key != P.roomKey
    ensures key in Step(P, s, a).store && Step(P, s, a).store[key] == s.store[key]
  {
    if a < P.n {
      var p := s.parties[a];
      assert PartyOk(P, p, a);
      if p.stage.Publishing? && p.stage.next < |p.stage.out| {
        assert EntryOk(P, s, a, |p.heard|, p.stage.next);
      }
    }
  }

  lemma {:induction false} MessagesWrittenOnce<M>(P: Protocol<M>, s: State<M>, schedule: seq<nat>, key: string)
    requires WellFormed(P) && Invariant(P, s) && key in s.store && key != P.roomKey
    ensures key in RunFrom(P, s, schedule).store && RunFrom(P, s, schedule).store[key] == s.store[key]
    decreases |schedule|
  {
    if |schedule| > 0 {
      StepInv(P, s, schedule[0]);
      StepKeepsMessages(P, s, schedule[0], key);
      MessagesWrittenOnce(P, Step(P, s, schedule[0]), schedule[1..], key);
    }
  }

  // ----------------------------------------------------------------------------------------------
  // Progress: no deadlock, a bound on the number of effective steps, and termination of fair runs
  // ----------------------------------------------------------------------------------------------

  /** The party's next step changes the state. */
  ghost predicate Enabled<M>(P: Protocol<M>, s: State<M>, a: nat)
    requires P.n > 0
  {
    a < |s.parties| &&
    var p := s.parties[a];
    match p.stage
    case Idle => SignedUp(P, s.store) == a
    case Publishing(_, _) => true
    case Polling(ans) =>
      |ans| >= P.n - 1 ||
      var key := PollKey(P, a, |p.heard|, |ans|);
      key in s.store && s.store[key].Data?
    case Done => false
    case Crashed => false
  }

  /** An upper bound on the steps of a party in so many rounds. */
  ghost function Budget<M>(P: Protocol<M>, rounds: int): int {
    rounds * (2 * P.n + 3)
  }

  lemma BudgetOf<M>(P: Protocol<M>, rounds: int)
    requires rounds >= 0
    ensures Budget(P, rounds) >= 0
    ensures Budget(P, rounds + 1) == Budget(P, rounds) + 2 * P.n + 3
  {
    Products(rounds, 2 * P.n + 3);
  }

  lemma Products(a: int, b: int)
    requires a >= 0 && b >= 0
    ensures a * b >= 0 && (a + 1) * b == a * b + b
  {
  }

  /** An upper bound on the steps a party still has to take. */
  ghost function Left<M>(P: Protocol<M>, p: Party<M>): int {
    var whole := Budget(P, P.rounds - |p.heard|);
    match p.stage
    case Idle => whole + 1
    case Publishing(_, k) => whole - k
    case Polling(ans) => whole - (P.n + 1) - |ans|
    case Done => 0
    case Crashed => 0
  }

  ghost function LeftAt<M>(P: Protocol<M>, s: State<M>): nat -> int {
    (a: nat) => if a < |s.parties| then Left(P, s.parties[a]) else 0
  }

  ghost function Remaining<M>(P: Protocol<M>, s: State<M>): int {
    M.SumTo(|s.parties|, LeftAt(P, s))
  }

  lemma LeftBounds<M>(P: Protocol<M>, p: Party<M>, a: nat)
    requires P.n > 0 && a < P.n && PartyOk(P, p, a)
    ensures Left(P, p) >= 0
    ensures p.stage.Publishing? ==> p.stage.next <= P.n
    ensures |p.heard| < P.rounds && (p.stage.Publishing? || p.stage.Polling?) ==> Left(P, p) > 0
  {
    hide Budget, Sync;
    var rest := P.rounds - |p.heard|;
    BudgetOf(P, rest);
    if rest >= 1 {
      BudgetOf(P, rest - 1);
    }
  }

  lemma EnterLeft<M>(P: Protocol<M>, a: nat, heard: seq<seq<M>>)
    requires P.n > 0 && |heard| <= P.rounds
    ensures Left(P, Enter(P, a, heard)) <= Budget(P, P.rounds - |heard|)
  {
    hide Budget;
    BudgetOf(P, P.rounds - |heard|);
  }

  lemma StepLeft<M>(P: Protocol<M>, s: State<M>, a: nat)
    requires WellFormed(P) && Invariant(P, s) && Enabled(P, s, a)
    ensures Left(P, Step(P, s, a).parties[a]) < Left(P, s.parties[a])
  {
    hide Budget, Sync, PollKey, MsgKey, HeardOk, EntryOk;
    var p := s.parties[a];
    assert PartyOk(P, p, a);
    LeftBounds(P, p, a);
    match p.stage
    case Idle => EnterLeft(P, a, []);
    case Publishing(_, _) =>
    case Polling(ans) =>
      if |ans| >= P.n - 1 {
        EnterLeft(P, a, p.heard + [ans]);
        BudgetOf(P, P.rounds - |p.heard| - 1);
      }
  }

  lemma IdleStep<M>(P: Protocol<M>, s: State<M>, a: nat)
    requires P.n > 0 && !Enabled(P, s, a)
    ensures Step(P, s, a) == s
  {
  }

  lemma StepOthers<M>(P: Protocol<M>, s: State<M>, a: nat, j: nat)
    requires WellFormed(P) && a < |s.parties| == P.n && j < P.n - 1
    ensures |Step(P, s, a).parties| == P.n
    ensures LeftAt(P, s)(M.Skip(a, j)) == LeftAt(P, Step(P, s, a))(M.Skip(a, j))
  {
    assert Step(P, s, a).parties[M.Skip(a, j)] == s.parties[M.Skip(a, j)];
  }

  lemma StepSize<M>(P: Protocol<M>, s: State<M>, a: nat)
    requires WellFormed(P) && Invariant(P, s) && Enabled(P, s, a)
    ensures a < |s.parties| == P.n == |Step(P, s, a).parties|
  {
  }

  lemma EnabledStep<M>(P: Protocol<M>, s: State<M>, a: nat)
    requires WellFormed(P) && Invariant(P, s) && Enabled(P, s, a)
    ensures Remaining(P, Step(P, s, a)) < Remaining(P, s)
  {
    hide Invariant, Step, Left, Enabled;
    var f, g := LeftAt(P, s), LeftAt(P, Step(P, s, a));
    assert a < |s.parties| == P.n == |Step(P, s, a).parties| by {
      StepSize(P, s, a);
    }
    StepLeft(P, s, a);
    assert f(a) > g(a);
    forall j | 0 <= j < P.n - 1
      ensures M.Skipping(a, f)(j) == M.Skipping(a, g)(j)
    {
      StepOthers(P, s, a, j);
    }
    M.SumSkip(P.n, a, f);
    M.SumSkip(P.n, a, g);
    M.SumExt(P.n - 1, M.Skipping(a, f), M.Skipping(a, g));
  }

  /** An enabled step brings the run closer to its end; any other step changes nothing. */
  lemma StepRemaining<M>(P: Protocol<M>, s: State<M>, a: nat)
    requires WellFormed(P) && Invariant(P, s)
    ensures Enabled(P, s, a) ==> Remaining(P, Step(P, s, a)) < Remaining(P, s)
    ensures !Enabled(P, s, a) ==> Step(P, s, a) == s
  {
    if Enabled(P, s, a) {
      EnabledStep(P, s, a);
    } else {
      IdleStep(P, s, a);
    }
  }

  lemma RemainingNonnegative<M>(P: Protocol<M>, s: State<M>)
    requires P.n > 0 && Invariant(P, s)
    ensures Remaining(P, s) >= 0
  {
    forall a | 0 <= a < P.n
      ensures LeftAt(P, s)(a) >= 0
    {
      assert PartyOk(P, s.parties[a], a);
      LeftBounds(P, s.parties[a], a);
    }
    M.SumNonnegative(P.n, LeftAt(P, s));
  }

  /** Among the polling parties, one in the earliest round. */
  lemma {:induction false} EarliestPolling<M>(s: State<M>, n: nat) returns (a: nat)
    requires n <= |s.parties| && exists b :: 0 <= b < n && s.parties[b].stage.Polling?
    ensures a < n && s.parties[a].stage.Polling?
    ensures forall b :: 0 <= b < n && s.parties[b].stage.Polling? ==> |s.parties[a].heard| <= |s.parties[b].heard|
  {
    if exists b :: 0 <= b < n - 1 && s.parties[b].stage.Polling? {
      a := EarliestPolling(s, n - 1);
      if s.parties[n - 1].stage.Polling? && |s.parties[n - 1].heard| < |s.parties[a].heard| {
        a := n - 1;
      }
    } else {
      a := n - 1;
    }
  }

  /** No deadlock: while nobody has panicked and somebody is not done, some party can move. */
  lemma SomeoneCanMove<M>(P: Protocol<M>, s: State<M>) returns (a: nat)
    requires WellFormed(P) && Invariant(P, s) && !AllDone(s)
    requires forall b :: 0 <= b < P.n ==> !s.parties[b].stage.Crashed?
    ensures a < P.n && Enabled(P, s, a)
  {
    if b :| 0 <= b < P.n && s.parties[b].stage.Publishing? {
      a := b;
    } else if SignedUp(P, s.store) < P.n {
      a := SignedUp(P, s.store);
    } else {
      a := EarliestPolling(s, P.n);
      var r, j := |s.parties[a].heard|, |s.parties[a].stage.ans|;
      if j < P.n - 1 {
        assert PartyOk(P, s.parties[a], a);
        PollKeyIsMsgKey(P, a, r, j);
        var b := M.Skip(a, j);
        assert PartyOk(P, s.parties[b], b);
        assert EntryOk(P, s, b, r, SlotFor(P, r, b, a));
      }
    }
  }

  /** Every party takes a turn. */
  ghost predicate Sweep<M>(P: Protocol<M>, schedule: seq<nat>) {
    forall a :: 0 <= a < P.n ==> a in schedule
  }

  lemma {:induction false} SweepMoves<M>(P: Protocol<M>, s: State<M>, schedule: seq<nat>, a: nat)
    requires WellFormed(P) && Invariant(P, s)
    ensures Remaining(P, RunFrom(P, s, schedule)) <= Remaining(P, s)
    ensures Enabled(P, s, a) && a in schedule ==> Remaining(P, RunFrom(P, s, schedule)) < Remaining(P, s)
    decreases |schedule|
  {
    if |schedule| > 0 {
      StepInv(P, s, schedule[0]);
      StepRemaining(P, s, schedule[0]);
      SweepMoves(P, Step(P, s, schedule[0]), schedule[1..], a);
    }
  }

  lemma {:induction false} RunFromConcat<M>(P: Protocol<M>, s: State<M>, x: seq<nat>, y: seq<nat>)
    requires P.n > 0
    ensures RunFrom(P, s, x + y) == RunFrom(P, RunFrom(P, s, x), y)
    decreases |x|
  {
    if |x| == 0 {
      assert x + y == y;
    } else {
      assert (x + y)[1..] == x[1..] + y;
      RunFromConcat(P, Step(P, s, x[0]), x[1..], y);
    }
  }

  lemma {:induction false} DoneStays<M>(P: Protocol<M>, s: State<M>, schedule: seq<nat>)
    requires P.n > 0 && AllDone(s)
    ensures RunFrom(P, s, schedule) == s
    decreases |schedule|
  {
    if |schedule| > 0 {
      DoneStays(P, s, schedule[1..]);
    }
  }

  lemma {:induction false} SweepsFinish<M>(P: Protocol<M>, s: State<M>, sweeps: seq<seq<nat>>, before: seq<nat>)
    requires WellFormed(P) && Completes(P)
    requires s == Run(P, before) && Invariant(P, s)
    requires |sweeps| >= Remaining(P, s) && forall i :: 0 <= i < |sweeps| ==> Sweep(P, sweeps[i])
    ensures AllDone(RunFrom(P, s, Concat(sweeps)))
    decreases |sweeps|
  {
    if AllDone(s) {
      DoneStays(P, s, Concat(sweeps));
    } else {
      forall b | 0 <= b < P.n
        ensures !s.parties[b].stage.Crashed?
      {
        NoPanic(P, before, b);
      }
      var a := SomeoneCanMove(P, s);
      StepRemaining(P, s, a);
      StepInv(P, s, a);
      RemainingNonnegative(P, Step(P, s, a));
      SweepMoves(P, s, sweeps[0], a);
      RunFromInv(P, s, sweeps[0]);
      RunFromConcat(P, Init(P), before, sweeps[0]);
      RunFromConcat(P, s, sweeps[0], Concat(sweeps[1..]));
      SweepsFinish(P, RunFrom(P, s, sweeps[0]), sweeps[1..], before + sweeps[0]);
    }
  }

  /** A bound on the number of effective steps of a whole run. */
  ghost function Enough<M>(P: Protocol<M>): int {
    P.n * (P.rounds * (2 * P.n + 3) + 1)
  }

  lemma InitRemaining<M>(P: Protocol<M>)
    requires P.n > 0
    ensures Remaining(P, Init(P)) == Enough(P)
  {
    var c := P.rounds * (2 * P.n + 3) + 1;
    var one, f := (a: nat) => 1, LeftAt(P, Init(P));
    M.SumScale(P.n, c, one, f);
    M.SumOfOnes(P.n, one);
  }

  /** Under every fair interleaving, one in which each party keeps getting turns, all parties finish
      if and only if the reference execution completes, and then each has heard what the reference
      execution delivers. */
  lemma FairRunsFinish<M>(P: Protocol<M>, sweeps: seq<seq<nat>>)
    requires WellFormed(P)
    requires |sweeps| >= Enough(P)
    requires forall i :: 0 <= i < |sweeps| ==> Sweep(P, sweeps[i])
    ensures AllDone(Run(P, Concat(sweeps))) <==> Completes(P)
    ensures Completes(P) ==>
      && |Run(P, Concat(sweeps)).parties| == P.n
      && forall a :: 0 <= a < P.n ==> Run(P, Concat(sweeps)).parties[a].heard == Sync(P, P.rounds).value[a]
  {
    InitInv(P);
    InitRemaining(P);
    if Completes(P) {
      SweepsFinish(P, Init(P), sweeps, []);
      RunAgreesWithReference(P, Concat(sweeps), 0);
    }
    if AllDone(Run(P, Concat(sweeps))) {
      DoneMeansCompleted(P, Concat(sweeps));
    }
  }
}
