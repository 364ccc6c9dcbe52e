/** One round of a party's conversation with the store: it writes its messages and polls for those of
    the others. */
module Exchanges {
  import opened Wrappers
  import opened StoreKeys
  import opened Transport
  import R = Rounds
  import M = Modular

  // ----------------------------------------------------------------------------------------------
  // Whose keys are whose
  // ----------------------------------------------------------------------------------------------

  /** A key under which this party writes a message. */
  ghost predicate IsOwnKey<M>(P: R.Protocol<M>, a: nat, key: string)
    requires P.n > 0
  {
    exists r, k {:trigger R.MsgKey(P, a, r, k)} :: 0 <= r < P.rounds && 0 <= k < R.OutSize(P, r) && key == R.MsgKey(P, a, r, k)
  }

  /** This party polls neither its own keys nor the room's. */
  lemma PollKeyIsNotOwn<M>(P: R.Protocol<M>, a: nat, r: nat, j: nat)
    requires R.WellFormed(P)
    ensures !IsOwnKey(P, a, R.PollKey(P, a, r, j)) && R.PollKey(P, a, r, j) != P.roomKey
  {
    RoomKeyDisjoint(P.roomKey, R.PollName(P, a, r, j));
    if IsOwnKey(P, a, R.PollKey(P, a, r, j)) {
      var r', k :| 0 <= r' < P.rounds && 0 <= k < R.OutSize(P, r') && R.PollKey(P, a, r, j) == R.MsgKey(P, a, r', k);
      TextInjective(R.PollName(P, a, r, j), R.MsgName(P, a, r', k));
    }
  }

  /** The messages this party polls for are written at most once by the others. */
  ghost predicate ReadsOnce<M>(P: R.Protocol<M>, a: nat, store: Store<M>, others: seq<Store<M>>) {
    forall r, j {:trigger R.PollKey(P, a, r, j)} :: 0 <= r < P.rounds && 0 <= j < P.n - 1 ==> WrittenOnce(store, others, R.PollKey(P, a, r, j))
  }

  /** The others write nothing under this party's keys. */
  ghost predicate KeepOff<M>(P: R.Protocol<M>, a: nat, others: seq<Store<M>>)
    requires P.n > 0
  {
    forall r, k {:trigger R.MsgKey(P, a, r, k)} :: 0 <= r < P.rounds && 0 <= k < R.OutSize(P, r) ==> Untouched(others, R.MsgKey(P, a, r, k))
  }

  ghost predicate WellBehaved<M>(P: R.Protocol<M>, a: nat, store: Store<M>, others: seq<Store<M>>)
    requires P.n > 0
  {
    ReadsOnce(P, a, store, others) && KeepOff(P, a, others)
  }

  /** The two stores hold the same under every key this party polls. */
  ghost predicate SameReads<M>(P: R.Protocol<M>, a: nat, s: Store<M>, s': Store<M>) {
    forall r, j {:trigger R.PollKey(P, a, r, j)} :: 0 <= r < P.rounds && 0 <= j < P.n - 1 ==> SameAt(s, s', R.PollKey(P, a, r, j))
  }

  /** The two stores hold the same under every key but this party's and the room's. */
  ghost predicate OnlyOwn<M>(P: R.Protocol<M>, a: nat, s: Store<M>, s': Store<M>)
    requires P.n > 0
  {
    forall key :: !IsOwnKey(P, a, key) && key != P.roomKey ==> SameAt(s, s', key)
  }

  lemma OnlyOwnReads<M>(P: R.Protocol<M>, a: nat, s: Store<M>, s': Store<M>)
    requires R.WellFormed(P) && OnlyOwn(P, a, s, s')
    ensures SameReads(P, a, s, s')
  {
    hide R.PollKey, IsOwnKey;
    forall r, j | 0 <= r < P.rounds && 0 <= j < P.n - 1
      ensures SameAt(s, s', R.PollKey(P, a, r, j))
    {
      PollKeyIsNotOwn(P, a, r, j);
    }
  }

  // ----------------------------------------------------------------------------------------------
  // Sending
  // ----------------------------------------------------------------------------------------------

  /** The store with the messages of round r written. */
  function WithMessages<M>(P: R.Protocol<M>, a: nat, r: nat, store: Store<M>, out: seq<M>): Store<M>
    requires a < P.n && r < P.rounds && |out| == R.OutSize(P, r)
  {
    if r in P.p2p then SentEntries(store, a + 1, P.n, RoundName(P.firstRound + r), P.uuid, out)
    else store[BroadcastKey(a + 1, RoundName(P.firstRound + r), P.uuid) := R.Data(out[0])]
  }

  /** Every message is under its key. */
  lemma MessageIsThere<M>(P: R.Protocol<M>, a: nat, r: nat, store: Store<M>, out: seq<M>, k: nat)
    requires a < P.n && r < P.rounds && |out| == R.OutSize(P, r) && k < |out|
    ensures R.MsgKey(P, a, r, k) in WithMessages(P, a, r, store, out)
    ensures WithMessages(P, a, r, store, out)[R.MsgKey(P, a, r, k)] == R.Data(out[k])
  {
    hide P2PKey, BroadcastKey, RoundName, SentEntries, R.MsgKey, Keys;
    if r in P.p2p {
      LoopKeysAreProtocolKeys(P, a, r, k);
      SentEntriesHold(store, a + 1, P.n, P.firstRound + r, P.uuid, out, k);
    } else {
      BroadcastMsgKey(P, a, r);
    }
  }

  lemma BroadcastMsgKey<M>(P: R.Protocol<M>, a: nat, r: nat)
    requires r !in P.p2p
    ensures R.MsgKey(P, a, r, 0) == BroadcastKey(a + 1, RoundName(P.firstRound + r), P.uuid)
  {
    hide BroadcastKey, RoundName;
  }

  lemma P2PMsgKey<M>(P: R.Protocol<M>, a: nat, r: nat, k: nat)
    requires r in P.p2p
    ensures R.MsgKey(P, a, r, k) == P2PKey(a + 1, M.Skip(a, k) + 1, RoundName(P.firstRound + r), P.uuid)
  {
    hide P2PKey, RoundName;
  }

  /** Nothing else has changed. */
  lemma OthersAreThere<M>(P: R.Protocol<M>, a: nat, r: nat, store: Store<M>, out: seq<M>, key: string)
    requires a < P.n && r < P.rounds && |out| == R.OutSize(P, r)
    requires forall k :: 0 <= k < |out| ==> key != R.MsgKey(P, a, r, k)
    ensures SameAt(store, WithMessages(P, a, r, store, out), key)
  {
    hide P2PKey, BroadcastKey, RoundName, SentEntries, R.MsgKey;
    if r in P.p2p {
      var p, round := a + 1, RoundName(P.firstRound + r);
      forall i | 1 <= i <= P.n && i != p
        ensures key != P2PKey(p, i, round, P.uuid)
      {
        P2PMsgKey(P, a, r, M.Unskip(a, i - 1));
      }
      SentEntriesKeep(store, p, P.n, round, P.uuid, out, key);
    } else {
      BroadcastMsgKey(P, a, r);
    }
  }

  /** Sending changes only own keys, and so nothing that is polled. */
  lemma SendingIsOwn<M>(P: R.Protocol<M>, a: nat, r: nat, store: Store<M>, out: seq<M>)
    requires R.WellFormed(P) && a < P.n && r < P.rounds && |out| == R.OutSize(P, r)
    ensures OnlyOwn(P, a, store, WithMessages(P, a, r, store, out))
  {
    hide WithMessages, R.MsgKey, SameAt;
    forall key | !IsOwnKey(P, a, key)
      ensures SameAt(store, WithMessages(P, a, r, store, out), key)
    {
      forall k | 0 <= k < |out|
        ensures key != R.MsgKey(P, a, r, k)
      {
      }
      OthersAreThere(P, a, r, store, out, key);
    }
  }

  /** Changes under own keys do not disturb the good behaviour of the others. */
  lemma StillWellBehaved<M>(P: R.Protocol<M>, a: nat, s: Store<M>, s': Store<M>, others: seq<Store<M>>)
    requires R.WellFormed(P) && WellBehaved(P, a, s, others) && OnlyOwn(P, a, s, s')
    ensures WellBehaved(P, a, s', others)
    ensures OnlyOwn(P, a, Eventually(s, others), Eventually(s', others))
  {
    hide R.PollKey, IsOwnKey, KeepOff, WrittenOnce, Eventually, SameAt;
    OnlyOwnReads(P, a, s, s');
    forall r, j | 0 <= r < P.rounds && 0 <= j < P.n - 1
      ensures WrittenOnce(s', others, R.PollKey(P, a, r, j))
    {
      OnlyEntryMatters(s, s', others, R.PollKey(P, a, r, j));
    }
    forall key | !IsOwnKey(P, a, key) && key != P.roomKey
      ensures SameAt(Eventually(s, others), Eventually(s', others), key)
    {
      OnlyEntryMatters(s, s', others, key);
    }
  }

  lemma WaitingIsWellBehaved<M>(P: R.Protocol<M>, a: nat, s: Store<M>, others: seq<Store<M>>, s': Store<M>, others': seq<Store<M>>)
    requires P.n > 0 && WellBehaved(P, a, s, others) && Waited(s, others, s', others')
    ensures WellBehaved(P, a, s', others')
  {
    hide R.PollKey, R.MsgKey, WrittenOnce, Untouched, Waited;
    WaitedKeeps(s, others, s', others');
  }

  // ----------------------------------------------------------------------------------------------
  // Polling
  // ----------------------------------------------------------------------------------------------

  /** The store holds ans as the messages of round r for this party, in the order of the peers. */
  ghost predicate Holds<M>(P: R.Protocol<M>, a: nat, r: nat, store: Store<M>, ans: seq<M>) {
    && |ans| == P.n - 1
    && forall j {:trigger R.PollKey(P, a, r, j)} :: 0 <= j < P.n - 1 ==>
         R.PollKey(P, a, r, j) in store && store[R.PollKey(P, a, r, j)] == R.Data(ans[j])
  }

  /** One of the messages of round r for this party is not in the store. */
  ghost predicate Missing<M>(P: R.Protocol<M>, a: nat, r: nat, store: Store<M>) {
    exists j {:trigger R.PollKey(P, a, r, j)} :: 0 <= j < P.n - 1 &&
      (R.PollKey(P, a, r, j) in store ==> !store[R.PollKey(P, a, r, j)].Data?)
  }

  lemma KeyIsPolled<M>(P: R.Protocol<M>, a: nat, r: nat, j: nat)
    requires a < P.n && j < P.n - 1
    ensures Keys(P, a, r)[j] == R.PollKey(P, a, r, j)
  {
    LoopKeysAreProtocolKeys(P, a, r, j);
  }

  lemma KeysReadOnce<M>(P: R.Protocol<M>, a: nat, r: nat, store: Store<M>, others: seq<Store<M>>)
    requires a < P.n && r < P.rounds && ReadsOnce(P, a, store, others)
    ensures forall key :: key in Keys(P, a, r) ==> WrittenOnce(store, others, key)
  {
    hide R.PollKey, Keys, WrittenOnce;
    forall key | key in Keys(P, a, r)
      ensures WrittenOnce(store, others, key)
    {
      var j :| 0 <= j < P.n - 1 && Keys(P, a, r)[j] == key;
      KeyIsPolled(P, a, r, j);
    }
  }

  /** The messages in the answers; None if one of them is no message. */
  method Messages<M>(answers: seq<R.Entry<M>>) returns (msgs: Option<seq<M>>)
    ensures msgs.Some? <==> forall j :: 0 <= j < |answers| ==> answers[j].Data?
    ensures msgs.Some? ==> |msgs.value| == |answers| && forall j :: 0 <= j < |answers| ==> answers[j] == R.Data(msgs.value[j])
  {
    var out: seq<M> := [];
    for j := 0 to |answers|
      invariant |out| == j && forall l :: 0 <= l < j ==> answers[l] == R.Data(out[l])
    {
      if !answers[j].Data? {
        return None;
      }
      out := out + [answers[j].msg];
    }
    msgs := Some(out);
  }

  lemma NothingHeard<M>(P: R.Protocol<M>, a: nat, r: nat, store: Store<M>)
    requires a < P.n && Answers(store, Keys(P, a, r)).None?
    ensures Missing(P, a, r, store)
  {
    hide R.PollKey, Keys;
    var j :| 0 <= j < P.n - 1 && Keys(P, a, r)[j] !in store;
    KeyIsPolled(P, a, r, j);
    assert R.PollKey(P, a, r, j) !in store;
  }

  lemma SomethingHeard<M>(P: R.Protocol<M>, a: nat, r: nat, store: Store<M>, answers: seq<R.Entry<M>>, heard: Option<seq<M>>)
    requires a < P.n && Answers(store, Keys(P, a, r)) == Some(answers)
    requires heard.Some? <==> forall j :: 0 <= j < |answers| ==> answers[j].Data?
    requires heard.Some? ==> |heard.value| == |answers| && forall j :: 0 <= j < |answers| ==> answers[j] == R.Data(heard.value[j])
    ensures heard.Some? ==> Holds(P, a, r, store, heard.value)
    ensures heard.None? ==> Missing(P, a, r, store)
  {
    hide R.PollKey, Keys;
    forall j | 0 <= j < P.n - 1
      ensures R.PollKey(P, a, r, j) in store && store[R.PollKey(P, a, r, j)] == answers[j]
    {
      KeyIsPolled(P, a, r, j);
    }
    if heard.None? {
      var j :| 0 <= j < |answers| && !answers[j].Data?;
      assert store[R.PollKey(P, a, r, j)] == answers[j];
    }
  }

  /** Writes the own messages of round r and polls for the others'. The store ends up with the messages
      under their keys and whatever the others have written meanwhile; the party hears the messages that
      will be under its peers' keys, and nothing only if one of them is missing. */
  method Exchange<M>(c: StoreCommunity<M>, P: R.Protocol<M>, a: nat, r: nat, out: seq<M>) returns (heard: Option<seq<M>>)
    requires R.WellFormed(P) && a < P.n && r < P.rounds && |out| == R.OutSize(P, r)
    requires WellBehaved(P, a, c.store, c.others)
    modifies c
    ensures Waited(WithMessages(P, a, r, old(c.store), out), old(c.others), c.store, c.others)
    ensures heard.Some? ==> Holds(P, a, r, Eventually(c.store, c.others), heard.value)
    ensures heard.None? ==> Missing(P, a, r, Eventually(c.store, c.others))
  {
    hide WrittenOnce, Eventually, Waited, BroadcastKey, SentEntries, RoundName, Answers, Holds, Missing, WellBehaved, OnlyOwn, BroadcastKeys, P2PKeys;
    SendingIsOwn(P, a, r, c.store, out);
    StillWellBehaved(P, a, c.store, WithMessages(P, a, r, c.store, out), c.others);
    ReadsAreOnce(P, a, r, WithMessages(P, a, r, c.store, out), c.others);
    var round := RoundName(P.firstRound + r);
    var answers;
    if r in P.p2p {
      SendToPeers(c, a + 1, P.n, round, out, P.uuid);
      answers := PollForP2P(c, a + 1, P.n, round, P.uuid);
    } else {
      Transport.Broadcast(c, a + 1, round, out[0], P.uuid);
      answers := PollForBroadcasts(c, a + 1, P.n, round, P.uuid);
    }
    ghost var end := Eventually(c.store, c.others);
    if answers.None? {
      NothingHeard(P, a, r, end);
      return None;
    }
    heard := Messages(answers.value);
    SomethingHeard(P, a, r, end, answers.value, heard);
  }

  lemma ReadsAreOnce<M>(P: R.Protocol<M>, a: nat, r: nat, store: Store<M>, others: seq<Store<M>>)
    requires a < P.n && r < P.rounds && WellBehaved(P, a, store, others)
    ensures forall key :: key in Keys(P, a, r) ==> WrittenOnce(store, others, key)
  {
    KeysReadOnce(P, a, r, store, others);
  }

  // ----------------------------------------------------------------------------------------------
  // A conversation of several rounds
  // ----------------------------------------------------------------------------------------------

  /** The store holds everything the party has heard. */
  ghost predicate HoldsAll<M>(P: R.Protocol<M>, a: nat, store: Store<M>, heard: seq<seq<M>>) {
    |heard| <= P.rounds && forall r :: 0 <= r < |heard| ==> Holds(P, a, r, store, heard[r])
  }

  /** The store holds what the protocol makes the party send in round r, after what it has heard before. */
  ghost predicate SentRound<M>(P: R.Protocol<M>, a: nat, store: Store<M>, heard: seq<seq<M>>, r: nat)
    requires P.n > 0
  {
    && r <= |heard| && R.Computes(P, a, r, heard[..r])
    && forall k {:trigger R.MsgKey(P, a, r, k)} :: 0 <= k < R.OutSize(P, r) ==>
         R.MsgKey(P, a, r, k) in store && store[R.MsgKey(P, a, r, k)] == R.Data(P.compute(a, r, heard[..r]).value[k])
  }

  /** The store holds all the party has to send in the rounds before `rounds`. */
  ghost predicate SentAll<M>(P: R.Protocol<M>, a: nat, store: Store<M>, heard: seq<seq<M>>, rounds: nat)
    requires P.n > 0
  {
    rounds <= P.rounds && forall r :: 0 <= r < rounds ==> SentRound(P, a, store, heard, r)
  }

  /** Since a moment at which the store was going to become `start` but for this party, the party has sent
      its messages of the rounds before `sent`, has heard `heard`, and has changed nothing else. */
  ghost predicate Talking<M>(P: R.Protocol<M>, a: nat, start: Store<M>, store: Store<M>, others: seq<Store<M>>, heard: seq<seq<M>>, sent: nat)
    requires P.n > 0
  {
    && WellBehaved(P, a, store, others)
    && OnlyOwn(P, a, start, Eventually(store, others))
    && HoldsAll(P, a, start, heard)
    && SentAll(P, a, store, heard, sent)
  }

  lemma HoldsKept<M>(P: R.Protocol<M>, a: nat, r: nat, s: Store<M>, s': Store<M>)
    requires r < P.rounds && SameReads(P, a, s, s')
    ensures forall ans :: Holds(P, a, r, s', ans) ==> Holds(P, a, r, s, ans)
    ensures Missing(P, a, r, s') ==> Missing(P, a, r, s)
  {
    hide R.PollKey;
    forall ans | Holds(P, a, r, s', ans)
      ensures Holds(P, a, r, s, ans)
    {
      forall j | 0 <= j < P.n - 1
        ensures R.PollKey(P, a, r, j) in s && s[R.PollKey(P, a, r, j)] == R.Data(ans[j])
      {
        assert SameAt(s, s', R.PollKey(P, a, r, j));
      }
    }
    if Missing(P, a, r, s') {
      var j :| 0 <= j < P.n - 1 && (R.PollKey(P, a, r, j) in s' ==> !s'[R.PollKey(P, a, r, j)].Data?);
      assert SameAt(s, s', R.PollKey(P, a, r, j));
    }
  }

  lemma HoldsAllKept<M>(P: R.Protocol<M>, a: nat, s: Store<M>, s': Store<M>, heard: seq<seq<M>>)
    requires HoldsAll(P, a, s', heard) && SameReads(P, a, s, s')
    ensures HoldsAll(P, a, s, heard)
  {
    hide Holds, Missing;
    forall r | 0 <= r < |heard|
      ensures Holds(P, a, r, s, heard[r])
    {
      HoldsKept(P, a, r, s, s');
    }
  }

  lemma OnlyOwnChain<M>(P: R.Protocol<M>, a: nat, s: Store<M>, s': Store<M>, s'': Store<M>)
    requires P.n > 0 && OnlyOwn(P, a, s, s') && OnlyOwn(P, a, s', s'')
    ensures OnlyOwn(P, a, s, s'')
  {
    hide IsOwnKey;
    forall key | !IsOwnKey(P, a, key) && key != P.roomKey
      ensures SameAt(s, s'', key)
    {
      assert SameAt(s, s', key) && SameAt(s', s'', key);
    }
  }

  /** Messages sent in earlier rounds stay. */
  lemma SentStays<M>(P: R.Protocol<M>, a: nat, r: nat, store: Store<M>, out: seq<M>, others: seq<Store<M>>,
                     store': Store<M>, others': seq<Store<M>>, r': nat, k: nat)
    requires a < P.n && r < P.rounds && |out| == R.OutSize(P, r) && KeepOff(P, a, others)
    requires Waited(WithMessages(P, a, r, store, out), others, store', others')
    requires r' < P.rounds && k < R.OutSize(P, r')
    ensures r' != r ==> SameAt(store, store', R.MsgKey(P, a, r', k))
    ensures r' == r ==> R.MsgKey(P, a, r, k) in store' && store'[R.MsgKey(P, a, r, k)] == R.Data(out[k])
  {
    hide WithMessages, R.MsgKey, Waited, Eventually, WrittenOnce;
    var written, key := WithMessages(P, a, r, store, out), R.MsgKey(P, a, r', k);
    WaitedKeeps(written, others, store', others');
    assert Untouched(others, key);
    if r' == r {
      MessageIsThere(P, a, r, store, out, k);
    } else {
      forall l | 0 <= l < |out|
        ensures key != R.MsgKey(P, a, r, l)
      {
        if key == R.MsgKey(P, a, r, l) {
          R.MsgKeyInjective(P, a, r', k, a, r, l);
        }
      }
      OthersAreThere(P, a, r, store, out, key);
    }
  }

  lemma SentNext<M>(P: R.Protocol<M>, a: nat, store: Store<M>, others: seq<Store<M>>, heard: seq<seq<M>>, out: seq<M>,
                    store': Store<M>, others': seq<Store<M>>)
    requires a < P.n && |heard| < P.rounds && |out| == R.OutSize(P, |heard|) && KeepOff(P, a, others)
    requires SentAll(P, a, store, heard, |heard|) && P.compute(a, |heard|, heard) == Some(out)
    requires Waited(WithMessages(P, a, |heard|, store, out), others, store', others')
    ensures SentAll(P, a, store', heard, |heard| + 1)
  {
    hide WithMessages, R.MsgKey, Waited, KeepOff;
    var n := |heard|;
    forall r | 0 <= r < n + 1
      ensures SentRound(P, a, store', heard, r)
    {
      assert heard[..n] == heard;
      if r < n {
        assert SentRound(P, a, store, heard, r);
      }
      forall k | 0 <= k < R.OutSize(P, r)
        ensures R.MsgKey(P, a, r, k) in store' && store'[R.MsgKey(P, a, r, k)] == R.Data(P.compute(a, r, heard[..r]).value[k])
      {
        SentStays(P, a, n, store, out, others, store', others', r, k);
      }
    }
  }

  /** Hearing more does not change what was to be sent before. */
  lemma SentBefore<M>(P: R.Protocol<M>, a: nat, store: Store<M>, heard: seq<seq<M>>, ans: seq<M>, rounds: nat)
    requires P.n > 0 && SentAll(P, a, store, heard, rounds)
    ensures SentAll(P, a, store, heard + [ans], rounds)
  {
    hide R.MsgKey;
    forall r | 0 <= r < rounds
      ensures SentRound(P, a, store, heard + [ans], r)
    {
      assert SentRound(P, a, store, heard, r);
      assert (heard + [ans])[..r] == heard[..r];
    }
  }

  /** The next exchange of a party that has heard `heard`: it sends what the protocol makes it send. */
  method Talk<M>(c: StoreCommunity<M>, P: R.Protocol<M>, a: nat, r: nat, out: seq<M>, ghost start: Store<M>, ghost heard: seq<seq<M>>)
    returns (ans: Option<seq<M>>)
    requires R.WellFormed(P) && a < P.n && r == |heard| < P.rounds && |out| == R.OutSize(P, r)
    requires Talking(P, a, start, c.store, c.others, heard, r) && P.compute(a, r, heard) == Some(out)
    modifies c
    ensures ans.Some? ==> |ans.value| == P.n - 1 && Talking(P, a, start, c.store, c.others, heard + [ans.value], r + 1)
    ensures ans.None? ==> Talking(P, a, start, c.store, c.others, heard, r + 1) && Missing(P, a, r, start)
  {
    hide WithMessages, Waited, Missing, Eventually, KeepOff, ReadsOnce, OnlyOwn, SentAll, HoldsAll, Holds, SameReads;
    ghost var store, others := c.store, c.others;
    ghost var written := WithMessages(P, a, r, store, out);
    SendingIsOwn(P, a, r, store, out);
    StillWellBehaved(P, a, store, written, others);
    ans := Exchange(c, P, a, r, out);
    WaitingIsWellBehaved(P, a, written, others, c.store, c.others);
    WaitedKeeps(written, others, c.store, c.others);
    OnlyOwnChain(P, a, start, Eventually(store, others), Eventually(c.store, c.others));
    OnlyOwnReads(P, a, start, Eventually(c.store, c.others));
    HoldsKept(P, a, r, start, Eventually(c.store, c.others));
    SentNext(P, a, store, others, heard, out, c.store, c.others);
    if ans.Some? {
      SentBefore(P, a, c.store, heard, ans.value, r + 1);
      HoldsNext(P, a, start, heard, ans.value);
    }
  }

  lemma HoldsNext<M>(P: R.Protocol<M>, a: nat, store: Store<M>, heard: seq<seq<M>>, ans: seq<M>)
    requires |heard| < P.rounds && HoldsAll(P, a, store, heard) && Holds(P, a, |heard|, store, ans)
    ensures HoldsAll(P, a, store, heard + [ans]) && |ans| == P.n - 1
  {
    hide R.PollKey;
  }
}
