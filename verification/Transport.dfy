/** The shared store, and the send and poll loops on top of it. */
module Transport {
  import opened Wrappers
  import opened StoreKeys
  import opened Rounds
  import opened Signups
  import M = Modular

  // ----------------------------------------------------------------------------------------------
  // The store
  // ----------------------------------------------------------------------------------------------

  type Store<M> = map<string, Entry<M>>

  /** What the store holds after all batches of writes. */
  ghost function Eventually<M>(store: Store<M>, others: seq<Store<M>>): Store<M>
    decreases |others|
  {
    if |others| == 0 then store else Eventually(store + others[0], others[1..])
  }

  /** An entry under the key, once there, is not overwritten with another. */
  ghost predicate WrittenOnce<M>(store: Store<M>, others: seq<Store<M>>, key: string)
    decreases |others|
  {
    |others| > 0 ==>
      && (key in store && key in others[0] ==> others[0][key] == store[key])
      && WrittenOnce(store + others[0], others[1..], key)
  }

  /** No batch has an entry under the key. */
  ghost predicate Untouched<M>(others: seq<Store<M>>, key: string) {
    forall i :: 0 <= i < |others| ==> key !in others[i]
  }

  /** The two stores agree on the key. */
  ghost predicate SameAt<M>(s: Store<M>, s': Store<M>, key: string) {
    (key in s <==> key in s') && (key in s ==> s'[key] == s[key])
  }

  lemma {:induction false} EntryStays<M>(store: Store<M>, others: seq<Store<M>>, key: string)
    requires key in store && WrittenOnce(store, others, key)
    ensures key in Eventually(store, others) && Eventually(store, others)[key] == store[key]
    decreases |others|
  {
    if |others| > 0 {
      EntryStays(store + others[0], others[1..], key);
    }
  }

  lemma {:induction false} OnlyEntryMatters<M>(s: Store<M>, s': Store<M>, others: seq<Store<M>>, key: string)
    requires SameAt(s, s', key)
    ensures WrittenOnce(s, others, key) <==> WrittenOnce(s', others, key)
    ensures SameAt(Eventually(s, others), Eventually(s', others), key)
    decreases |others|
  {
    if |others| > 0 {
      OnlyEntryMatters(s + others[0], s' + others[0], others[1..], key);
    }
  }

  /** The others have written the first few of their batches, and nothing else has happened. */
  ghost predicate Waited<M>(s: Store<M>, others: seq<Store<M>>, s': Store<M>, others': seq<Store<M>>) {
    |others'| <= |others| &&
    var k := |others| - |others'|;
    others' == others[k..] && s' == Eventually(s, others[..k])
  }

  lemma WaitedNot<M>(s: Store<M>, others: seq<Store<M>>)
    ensures Waited(s, others, s, others)
  {
  }

  lemma WaitedOnce<M>(s: Store<M>, others: seq<Store<M>>)
    requires |others| > 0
    ensures Waited(s, others, s + others[0], others[1..])
  {
    assert others[..1][1..] == [];
  }

  lemma {:induction false} AfterConcat<M>(s: Store<M>, x: seq<Store<M>>, y: seq<Store<M>>)
    ensures Eventually(s, x + y) == Eventually(Eventually(s, x), y)
    decreases |x|
  {
    if |x| == 0 {
      assert x + y == y;
    } else {
      assert (x + y)[1..] == x[1..] + y;
      AfterConcat(s + x[0], x[1..], y);
    }
  }

  lemma WaitedMore<M>(s: Store<M>, o: seq<Store<M>>, s': Store<M>, o': seq<Store<M>>, s'': Store<M>, o'': seq<Store<M>>)
    requires Waited(s, o, s', o') && Waited(s', o', s'', o'')
    ensures Waited(s, o, s'', o'')
  {
    var k, l := |o| - |o'|, |o'| - |o''|;
    assert o[..k + l] == o[..k] + o'[..l];
    AfterConcat(s, o[..k], o'[..l]);
  }

  /** Waiting changes nothing about what will be in the store in the end, and nothing under keys the
      others do not write. */
  lemma {:induction false} WaitedKeeps<M>(s: Store<M>, others: seq<Store<M>>, s': Store<M>, others': seq<Store<M>>)
    requires Waited(s, others, s', others')
    ensures Eventually(s', others') == Eventually(s, others)
    ensures forall key :: WrittenOnce(s, others, key) ==> WrittenOnce(s', others', key)
    ensures forall key :: Untouched(others, key) ==> Untouched(others', key) && SameAt(s, s', key)
    decreases |others|
  {
    var k := |others| - |others'|;
    if k > 0 {
      assert others[..k][1..] == others[1..][..k - 1];
      assert others[k..] == others[1..][k - 1..];
      WaitedKeeps(s + others[0], others[1..], s', others');
      forall key | Untouched(others, key)
        ensures Untouched(others', key) && SameAt(s, s', key)
      {
        assert key !in others[0];
        assert Untouched(others[1..], key);
      }
    }
  }

  /** The store shared by all parties. `others` is what the other parties will write while this one
      sleeps, one batch for each sleep. */
  class StoreCommunity<M> {
    var store: map<string, Entry<M>>
    var others: seq<map<string, Entry<M>>>

    constructor (others: seq<map<string, Entry<M>>>)
      ensures store == map[] && this.others == others
    {
      this.store, this.others := map[], others;
    }

    method GetEntry(key: string) returns (answer: Option<Entry<M>>)
      ensures answer == if key in store then Some(store[key]) else None
    {
      if key in store {
        return Some(store[key]);
      }
      return None;
    }

    method SetEntry(key: string, entry: Entry<M>)
      modifies this`store
      ensures store == old(store)[key := entry]
    {
      store := store[key := entry];
    }

    /** The read and the write of a signup, with nothing in between. */
    method GetPartySignup(num: nat, key: string, newUuid: string) returns (r: SignupResult)
      modifies this`store
      ensures r == ReadSignup(old(store), num, key, newUuid)
      ensures store == WriteSignup(old(store), key, r)
    {
      if key in store {
        match store[key] {
          case Signup(number, uuid) =>
            if number < num {
              r := Granted(number + 1, uuid);
            } else {
              return Full;
            }
          case Data(_) =>
            return Malformed;
        }
      } else {
        r := Granted(1, newUuid);
      }
      store := store[key := Signup(r.number, r.uuid)];
    }

    /** Lets the others write their next batch; false if they will write nothing more. */
    method Sleep() returns (more: bool)
      modifies this
      ensures more <==> |old(others)| > 0
      ensures |others| == if more then |old(others)| - 1 else 0
      ensures Waited(old(store), old(others), store, others)
    {
      more := |others| > 0;
      WaitedNot(store, others);
      if more {
        WaitedOnce(store, others);
        store, others := store + others[0], others[1..];
      }
    }
  }

  // ----------------------------------------------------------------------------------------------
  // Sending
  // ----------------------------------------------------------------------------------------------

  method Broadcast<M>(c: StoreCommunity<M>, partyNum: nat, round: string, data: M, uuid: string)
    modifies c`store
    ensures c.store == old(c.store)[BroadcastKey(partyNum, round, uuid) := Data(data)]
  {
    c.SetEntry(BroadcastKey(partyNum, round, uuid), Data(data));
  }

  method SendP2P<M>(c: StoreCommunity<M>, from: nat, to: nat, round: string, data: M, uuid: string)
    modifies c`store
    ensures c.store == old(c.store)[P2PKey(from, to, round, uuid) := Data(data)]
  {
    c.SetEntry(P2PKey(from, to, round, uuid), Data(data));
  }

  /** The party numbers 1, ..., n without p. */
  function PeerNumbers(n: nat, p: nat): (s: seq<nat>)
    ensures |s| == if 1 <= p <= n then n - 1 else n
    ensures forall j :: 0 <= j < |s| ==> s[j] == if 1 <= p <= n then M.Skip(p - 1, j) + 1 else j + 1
  {
    if n == 0 then [] else PeerNumbers(n - 1, p) + if n != p then [n] else []
  }

  function SentKey(p: nat, n: nat, j: nat, round: string, uuid: string): string
    requires j < |PeerNumbers(n, p)|
  {
    P2PKey(p, PeerNumbers(n, p)[j], round, uuid)
  }

  function SentEntries<M>(store: map<string, Entry<M>>, p: nat, n: nat, round: string, uuid: string, msgs: seq<M>): map<string, Entry<M>>
    requires |msgs| >= |PeerNumbers(n, p)|
  {
    if n == 0 then store
    else if n == p then SentEntries(store, p, n - 1, round, uuid, msgs)
    else SentEntries(store, p, n - 1, round, uuid, msgs)[P2PKey(p, n, round, uuid) := Data(msgs[|PeerNumbers(n - 1, p)|])]
  }

  /** The send loop: the j-th message goes to the j-th peer. */
  method SendToPeers<M>(c: StoreCommunity<M>, partyNum: nat, n: nat, round: string, msgs: seq<M>, uuid: string)
    requires |msgs| >= |PeerNumbers(n, partyNum)|
    modifies c`store
    ensures c.store == SentEntries(old(c.store), partyNum, n, round, uuid, msgs)
  {
    var j := 0;
    for i := 1 to n + 1
      invariant j == |PeerNumbers(i - 1, partyNum)|
      invariant c.store == SentEntries(old(c.store), partyNum, i - 1, round, uuid, msgs)
    {
      if i != partyNum {
        SendP2P(c, partyNum, i, round, msgs[j], uuid);
        j := j + 1;
      }
    }
  }

  /** Eventually the loop the message for the j-th peer is under the key of that peer. */
  lemma {:induction false} SentEntriesHold<M>(store: Store<M>, p: nat, n: nat, r: nat, uuid: string, msgs: seq<M>, j: nat)
    requires |msgs| >= |PeerNumbers(n, p)| && j < |PeerNumbers(n, p)|
    ensures SentKey(p, n, j, RoundName(r), uuid) in SentEntries(store, p, n, RoundName(r), uuid, msgs)
    ensures SentEntries(store, p, n, RoundName(r), uuid, msgs)[SentKey(p, n, j, RoundName(r), uuid)] == Data(msgs[j])
  {
    hide P2PKey, RoundName;
    if j < |PeerNumbers(n - 1, p)| {
      assert PeerNumbers(n, p)[j] == PeerNumbers(n - 1, p)[j] < n;
      SentEntriesHold(store, p, n - 1, r, uuid, msgs, j);
      if P2PKey(p, PeerNumbers(n, p)[j], RoundName(r), uuid) == P2PKey(p, n, RoundName(r), uuid) {
        P2PKeyInjective(p, PeerNumbers(n, p)[j], r, uuid, p, n, r, uuid);
      }
    }
  }

  /** All other entries are as before. */
  lemma {:induction false} SentEntriesKeep<M>(store: Store<M>, p: nat, n: nat, round: string, uuid: string, msgs: seq<M>, key: string)
    requires |msgs| >= |PeerNumbers(n, p)|
    requires forall i :: 1 <= i <= n && i != p ==> key != P2PKey(p, i, round, uuid)
    ensures SameAt(store, SentEntries(store, p, n, round, uuid, msgs), key)
  {
    hide P2PKey;
    if n > 0 {
      SentEntriesKeep(store, p, n - 1, round, uuid, msgs, key);
    }
  }

  // ----------------------------------------------------------------------------------------------
  // Polling
  // ----------------------------------------------------------------------------------------------

  /** All keys are in the store, and these are the entries under them. */
  ghost function Answers<M>(store: map<string, Entry<M>>, keys: seq<string>): Option<seq<Entry<M>>> {
    if exists j :: 0 <= j < |keys| && keys[j] !in store then None
    else Some(seq(|keys|, j requires 0 <= j < |keys| => store[keys[j]]))
  }

  lemma AnswersAre<M>(store: map<string, Entry<M>>, keys: seq<string>, ans: seq<Entry<M>>)
    requires |ans| == |keys| && forall j :: 0 <= j < |keys| ==> keys[j] in store && ans[j] == store[keys[j]]
    ensures Answers(store, keys) == Some(ans)
  {
    assert ans == Answers(store, keys).value;
  }

  function BroadcastKeys(n: nat, p: nat, round: string, uuid: string): (keys: seq<string>)
    ensures |keys| == |PeerNumbers(n, p)|
  {
    seq(|PeerNumbers(n, p)|, j requires 0 <= j < |PeerNumbers(n, p)| => BroadcastKey(PeerNumbers(n, p)[j], round, uuid))
  }

  function P2PKeys(n: nat, p: nat, round: string, uuid: string): (keys: seq<string>)
    ensures |keys| == |PeerNumbers(n, p)|
  {
    seq(|PeerNumbers(n, p)|, j requires 0 <= j < |PeerNumbers(n, p)| => P2PKey(PeerNumbers(n, p)[j], p, round, uuid))
  }

  /** Polls one key until there is an entry. None means that the loop never ends: the others have
      written everything they will and the key is not there. */
  method PollOne<M>(c: StoreCommunity<M>, key: string) returns (answer: Option<Entry<M>>)
    requires WrittenOnce(c.store, c.others, key)
    modifies c
    ensures Waited(old(c.store), old(c.others), c.store, c.others)
    ensures Eventually(c.store, c.others) == Eventually(old(c.store), old(c.others))
    ensures answer == if key in Eventually(c.store, c.others) then Some(Eventually(c.store, c.others)[key]) else None
  {
    hide Waited, Eventually, WrittenOnce;
    answer := None;
    WaitedNot(c.store, c.others);
    while true
      invariant answer.None?
      invariant Waited(old(c.store), old(c.others), c.store, c.others)
      decreases |c.others|
    {
      ghost var s, others := c.store, c.others;
      var more := c.Sleep();
      WaitedMore(old(c.store), old(c.others), s, others, c.store, c.others);
      WaitedKeeps(old(c.store), old(c.others), c.store, c.others);
      answer := c.GetEntry(key);
      if answer.Some? {
        EntryStays(c.store, c.others, key);
        return;
      }
      if !more {
        NothingMore(c.store, c.others);
        return;
      }
    }
  }

  lemma NothingMore<M>(s: Store<M>, others: seq<Store<M>>)
    requires |others| == 0
    ensures Eventually(s, others) == s
  {
  }

  /** Polls for everybody else's broadcast of the round. However the writes of the others are spread
      over time, the answers are the entries under the peers' keys in the order of their numbers, and
      the loop never ends only if one of them is never written. */
  method PollForBroadcasts<M>(c: StoreCommunity<M>, partyNum: nat, n: nat, round: string, uuid: string)
    returns (answers: Option<seq<Entry<M>>>)
    requires forall key :: key in BroadcastKeys(n, partyNum, round, uuid) ==> WrittenOnce(c.store, c.others, key)
    modifies c
    ensures Waited(old(c.store), old(c.others), c.store, c.others)
    ensures answers == Answers(Eventually(c.store, c.others), BroadcastKeys(n, partyNum, round, uuid))
  {
    hide Waited, Eventually, WrittenOnce, BroadcastKey;
    ghost var keys := BroadcastKeys(n, partyNum, round, uuid);
    ghost var end := Eventually(c.store, c.others);
    var ans: seq<Entry<M>> := [];
    WaitedNot(c.store, c.others);
    for i := 1 to n + 1
      invariant |ans| == |PeerNumbers(i - 1, partyNum)|
      invariant Waited(old(c.store), old(c.others), c.store, c.others) && Eventually(c.store, c.others) == end
      invariant forall j :: 0 <= j < |ans| ==> j < |keys| && keys[j] in end && ans[j] == end[keys[j]]
    {
      if i != partyNum {
        PeerAt(n, partyNum, i);
        assert keys[|ans|] == BroadcastKey(i, round, uuid);
        WaitedKeeps(old(c.store), old(c.others), c.store, c.others);
        ghost var s, others := c.store, c.others;
        var answer := PollOne(c, BroadcastKey(i, round, uuid));
        WaitedMore(old(c.store), old(c.others), s, others, c.store, c.others);
        if answer.None? {
          return None;
        }
        ans := ans + [answer.value];
      }
    }
    AnswersAre(end, keys, ans);
    return Some(ans);
  }

  lemma PeerAt(n: nat, p: nat, i: nat)
    requires 1 <= i <= n && i != p
    ensures |PeerNumbers(i - 1, p)| < |PeerNumbers(n, p)|
    ensures PeerNumbers(n, p)[|PeerNumbers(i - 1, p)|] == i
  {
  }

  /** The same for the messages the others have sent to this party. */
  method PollForP2P<M>(c: StoreCommunity<M>, partyNum: nat, n: nat, round: string, uuid: string)
    returns (answers: Option<seq<Entry<M>>>)
    requires forall key :: key in P2PKeys(n, partyNum, round, uuid) ==> WrittenOnce(c.store, c.others, key)
    modifies c
    ensures Waited(old(c.store), old(c.others), c.store, c.others)
    ensures answers == Answers(Eventually(c.store, c.others), P2PKeys(n, partyNum, round, uuid))
  {
    hide Waited, Eventually, WrittenOnce, P2PKey;
    ghost var keys := P2PKeys(n, partyNum, round, uuid);
    ghost var end := Eventually(c.store, c.others);
    var ans: seq<Entry<M>> := [];
    WaitedNot(c.store, c.others);
    for i := 1 to n + 1
      invariant |ans| == |PeerNumbers(i - 1, partyNum)|
      invariant Waited(old(c.store), old(c.others), c.store, c.others) && Eventually(c.store, c.others) == end
      invariant forall j :: 0 <= j < |ans| ==> j < |keys| && keys[j] in end && ans[j] == end[keys[j]]
    {
      if i != partyNum {
        PeerAt(n, partyNum, i);
        assert keys[|ans|] == P2PKey(i, partyNum, round, uuid);
        WaitedKeeps(old(c.store), old(c.others), c.store, c.others);
        ghost var s, others := c.store, c.others;
        var answer := PollOne(c, P2PKey(i, partyNum, round, uuid));
        WaitedMore(old(c.store), old(c.others), s, others, c.store, c.others);
        if answer.None? {
          return None;
        }
        ans := ans + [answer.value];
      }
    }
    AnswersAre(end, keys, ans);
    return Some(ans);
  }

  /** The keys the party in slot a polls in round r, in the order in which it does. */
  function Keys<M>(P: Protocol<M>, a: nat, r: nat): (keys: seq<string>)
    requires a < P.n
    ensures |keys| == P.n - 1
  {
    if r in P.p2p then P2PKeys(P.n, a + 1, RoundName(P.firstRound + r), P.uuid)
    else BroadcastKeys(P.n, a + 1, RoundName(P.firstRound + r), P.uuid)
  }

  /** The keys of these loops are those of the round protocol. */
  lemma LoopKeysAreProtocolKeys<M>(P: Protocol<M>, a: nat, r: nat, j: nat)
    requires a < P.n && j < P.n - 1
    ensures PeerNumbers(P.n, a + 1)[j] == M.Skip(a, j) + 1
    ensures PollKey(P, a, r, j) == Keys(P, a, r)[j]
    ensures r in P.p2p ==> MsgKey(P, a, r, j) == SentKey(a + 1, P.n, j, RoundName(P.firstRound + r), P.uuid)
    ensures r !in P.p2p ==> MsgKey(P, a, r, j) == BroadcastKey(a + 1, RoundName(P.firstRound + r), P.uuid)
  {
    hide BroadcastKey, P2PKey, RoundName;
  }

  /** In a state of the round protocol, the answers of the poll loop over its store are what the party
      hears in the reference execution. */
  lemma PollAnswersAreHeard<M>(P: Protocol<M>, schedule: seq<nat>, a: nat, r: nat, answers: seq<Entry<M>>, j: nat)
    requires WellFormed(P) && a < P.n && r < P.rounds && j < P.n - 1
    requires Answers(Run(P, schedule).store, Keys(P, a, r)) == Some(answers)
    ensures |answers| == P.n - 1 && answers[j].Data?
    ensures Sync(P, r).Some? && Answer(P, r, a, j, answers[j].msg)
  {
    hide Sync, PollKey, MsgKey, Computes, Keys, PartyOk, HeardOk, SignupOk;
    RunInv(P, schedule);
    LoopKeysAreProtocolKeys(P, a, r, j);
    PollKeyIsMsgKey(P, a, r, j);
    EntryOfRun(P, Run(P, schedule), M.Skip(a, j), r, SlotFor(P, r, M.Skip(a, j), a));
  }

  lemma EntryOfRun<M>(P: Protocol<M>, s: State<M>, b: nat, r: nat, k: nat)
    requires WellFormed(P) && Invariant(P, s) && b < P.n && r < P.rounds && k < OutSize(P, r)
    ensures |s.parties| == P.n && EntryOk(P, s, b, r, k)
  {
  }
}
