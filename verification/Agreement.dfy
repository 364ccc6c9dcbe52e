/** Round agreement: parties that have finished a round hold the same rebuilt vectors, and these are
    what the store holds. */
module Agreement {
  import opened Wrappers
  import opened Modular
  import opened Slots
  import opened Rounds

  /** What the party in slot a sends in round r of the reference execution. */
  ghost function Sends<M>(P: Protocol<M>, r: nat, a: nat): seq<M>
    requires P.n > 0 && r < P.rounds && Sync(P, r).Some? && a < P.n && Computes(P, a, r, Sync(P, r).value[a])
  {
    P.compute(a, r, Sync(P, r).value[a]).value
  }

  /** An answer a party has heard is under the key it polled, as its peer wrote it. */
  lemma HeardIsStored<M>(P: Protocol<M>, schedule: seq<nat>, a: nat, r: nat, j: nat)
    requires WellFormed(P) && a < P.n && j < P.n - 1
    ensures |Run(P, schedule).parties| == P.n
    ensures
      var s := Run(P, schedule);
      r < |s.parties[a].heard| ==>
        && |s.parties[a].heard[r]| == P.n - 1
        && PollKey(P, a, r, j) in s.store
        && s.store[PollKey(P, a, r, j)] == Data(s.parties[a].heard[r][j])
  {
    hide PollKey, MsgKey;
    RunInv(P, schedule);
    var s := Run(P, schedule);
    assert HeardOk(P, s, a) && PartyOk(P, s.parties[a], a);
    if r < |s.parties[a].heard| {
      var b := Skip(a, j);
      SyncEarlier(P, r + 1, |s.parties[a].heard|);
      HeardInRound(P, r, |s.parties[a].heard|, a);
      assert Published(s.parties[b], r, SlotFor(P, r, b, a));
      PollKeyIsMsgKey(P, a, r, j);
      assert EntryOk(P, s, b, r, SlotFor(P, r, b, a));
    }
  }

  /** The answers of round r in the reference execution. */
  lemma HeardInRound<M>(P: Protocol<M>, r: nat, r': nat, a: nat)
    requires P.n > 0 && a < P.n && r < r' <= P.rounds && Sync(P, r').Some?
    ensures Sync(P, r).Some? && AllCompute(P, r, Sync(P, r).value)
    ensures Sync(P, r').value[a][r] == Received(P, r, Sync(P, r).value, a)
    ensures Sync(P, r').value[a][..r] == Sync(P, r).value[a]
  {
    SyncEarlier(P, r, r');
    SyncEarlier(P, r + 1, r');
    SyncPrefix(P, r + 1, r', a);
    SyncPrefix(P, r, r', a);
    assert Sync(P, r').value[a][r] == Sync(P, r').value[a][..r + 1][r];
  }

  /** The full vector of round r as the party in slot a rebuilds it: the answers it has heard, with
      its own message in its own slot. */
  ghost function Rebuilt<M>(P: Protocol<M>, p: Party<M>, r: nat, a: nat): Option<seq<M>>
    requires r < |p.heard|
  {
    var own := P.compute(a, r, p.heard[..r]);
    if own.None? || |own.value| != 1 || a > |p.heard[r]| then None else Some(Rebuild(p.heard[r], a, own.value[0]))
  }

  ghost function MessageOf<M>(P: Protocol<M>, r: nat): nat -> M
    requires P.n > 0 && r < P.rounds && r !in P.p2p && Sync(P, r).Some? && AllCompute(P, r, Sync(P, r).value)
  {
    (i: nat) => Sends(P, r, if i < P.n then i else 0)[0]
  }

  lemma BroadcastsReceived<M>(P: Protocol<M>, r: nat, a: nat)
    requires P.n > 0 && r < P.rounds && r !in P.p2p && a < P.n && Sync(P, r).Some? && AllCompute(P, r, Sync(P, r).value)
    ensures Received(P, r, Sync(P, r).value, a) == Peers(P.n, a, MessageOf(P, r))
  {
    hide Sync;
    forall j | 0 <= j < P.n - 1
      ensures Received(P, r, Sync(P, r).value, a)[j] == Peers(P.n, a, MessageOf(P, r))[j]
    {
      assert Sends(P, r, Skip(a, j))[0] == MessageOf(P, r)(Skip(a, j));
    }
  }

  lemma RebuiltIsTable<M>(P: Protocol<M>, r: nat, p: Party<M>, a: nat)
    requires P.n > 0 && r < P.rounds && r !in P.p2p && a < P.n && r < |p.heard| <= P.rounds
    requires Sync(P, |p.heard|).Some? && p.heard == Sync(P, |p.heard|).value[a]
    ensures Sync(P, r).Some? && AllCompute(P, r, Sync(P, r).value)
    ensures Rebuilt(P, p, r, a) == Some(Table(P.n, MessageOf(P, r)))
  {
    hide Sync, Received;
    HeardInRound(P, r, |p.heard|, a);
    BroadcastsReceived(P, r, a);
    assert Sends(P, r, a) == [MessageOf(P, r)(a)];
    RebuildPeers(P.n, a, MessageOf(P, r));
  }

  /** In every interleaving, any two parties that have finished a broadcast round hold the same
      rebuilt vector, and its slot i is what the party in slot i has published. */
  lemma RoundAgreement<M>(P: Protocol<M>, schedule: seq<nat>, a: nat, b: nat, r: nat)
    requires WellFormed(P) && a < P.n && b < P.n && r !in P.p2p
    ensures |Run(P, schedule).parties| == P.n
    ensures
      var s := Run(P, schedule);
      r < |s.parties[a].heard| && r < |s.parties[b].heard| ==>
        && Rebuilt(P, s.parties[a], r, a).Some?
        && Rebuilt(P, s.parties[a], r, a) == Rebuilt(P, s.parties[b], r, b)
        && |Rebuilt(P, s.parties[a], r, a).value| == P.n
        && forall i :: 0 <= i < P.n ==>
             && MsgKey(P, i, r, 0) in s.store
             && s.store[MsgKey(P, i, r, 0)] == Data(Rebuilt(P, s.parties[a], r, a).value[i])
  {
    RunInv(P, schedule);
    RunAgreesWithReference(P, schedule, a);
    RunAgreesWithReference(P, schedule, b);
    var s := Run(P, schedule);
    if r < |s.parties[a].heard| && r < |s.parties[b].heard| {
      RebuiltIsTable(P, r, s.parties[a], a);
      RebuiltIsTable(P, r, s.parties[b], b);
      forall i | 0 <= i < P.n
        ensures MsgKey(P, i, r, 0) in s.store && s.store[MsgKey(P, i, r, 0)] == Data(MessageOf(P, r)(i))
      {
        WrittenByAll(P, s, a, r, i);
      }
    }
  }

  lemma PublishedByAll<M>(P: Protocol<M>, s: State<M>, a: nat, r: nat, i: nat)
    requires P.n > 0 && |s.parties| == P.n && a < P.n && i < P.n && r !in P.p2p && r < |s.parties[a].heard|
    requires HeardOk(P, s, a)
    ensures Published(s.parties[i], r, 0)
  {
    if i != a {
      assert Published(s.parties[i], r, SlotFor(P, r, i, a));
    }
  }

  lemma WrittenByAll<M>(P: Protocol<M>, s: State<M>, a: nat, r: nat, i: nat)
    requires WellFormed(P) && Invariant(P, s) && a < P.n == |s.parties| && i < P.n && r !in P.p2p && r < |s.parties[a].heard|
    ensures r < P.rounds && Sync(P, r).Some? && AllCompute(P, r, Sync(P, r).value)
    ensures MsgKey(P, i, r, 0) in s.store && s.store[MsgKey(P, i, r, 0)] == Data(MessageOf(P, r)(i))
  {
    hide MsgKey, Sync, StageOk, HeardOk, Published, AllCompute, SignupOk;
    assert PartyOk(P, s.parties[a], a) && HeardOk(P, s, a);
    HeardInRound(P, r, |s.parties[a].heard|, a);
    PublishedByAll(P, s, a, r, i);
    assert EntryOk(P, s, i, r, 0);
    assert Sends(P, r, i)[0] == MessageOf(P, r)(i);
  }
}
