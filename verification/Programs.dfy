/** The programs of single parties among peers that do what the protocol makes them do. */
module Programs {
  import opened Wrappers
  import opened Modular
  import opened Slots
  import opened Schedules
  import opened Library
  import opened KeyFiles
  import opened Signups
  import opened Exchanges
  import opened Machines
  import opened Conversations
  import opened Batches
  import T = Transport
  import R = Rounds
  import A = Agreement
  import G = Keygen
  import GT = KeygenTheorem
  import GP = KeygenProgram
  import Signing
  import SignRun
  import SP = SignProof
  import SignRounds
  import ST = SignTheorem
  import Program = SignProgram

  /** What the store of a reachable state holds for a party is what it hears in the reference execution,
      if this completes. */
  lemma {:induction false} HeldIsHeard<M>(P: R.Protocol<M>, schedule: seq<nat>, a: nat, heard: seq<seq<M>>, r: nat)
    requires R.WellFormed(P) && a < P.n && R.Completes(P) && r <= |heard|
    requires HoldsAll(P, a, R.Run(P, schedule).store, heard)
    ensures R.Sync(P, r).Some? && heard[..r] == R.Sync(P, r).value[a]
  {
    R.SyncEarlier(P, r, P.rounds);
    if r > 0 {
      HeldIsHeard(P, schedule, a, heard, r - 1);
      HeldInRound(P, schedule, a, heard[r - 1], r - 1);
      A.HeardInRound(P, r - 1, r, a);
      assert heard[..r] == heard[..r - 1] + [heard[r - 1]];
    }
  }

  lemma HeldInRound<M>(P: R.Protocol<M>, schedule: seq<nat>, a: nat, ans: seq<M>, r: nat)
    requires R.WellFormed(P) && a < P.n && R.Completes(P) && r < P.rounds
    requires Holds(P, a, r, R.Run(P, schedule).store, ans)
    ensures R.Sync(P, r).Some? && R.AllCompute(P, r, R.Sync(P, r).value)
    ensures ans == R.Received(P, r, R.Sync(P, r).value, a)
  {
    R.SyncEarlier(P, r, P.rounds);
    R.RunInv(P, schedule);
    var s := R.Run(P, schedule);
    forall j | 0 <= j < P.n - 1
      ensures ans[j] == R.Received(P, r, R.Sync(P, r).value, a)[j]
    {
      hide R.Sync, R.MsgKey, R.PollKey, R.Computes;
      var b := Skip(a, j);
      R.PollKeyIsMsgKey(P, a, r, j);
      assert R.EntryOk(P, s, b, r, R.SlotFor(P, r, b, a));
    }
  }

  /** When all parties are done, no message is missing. */
  lemma NothingMissing<M>(P: R.Protocol<M>, schedule: seq<nat>, a: nat, r: nat)
    requires R.WellFormed(P) && a < P.n && r < P.rounds && R.AllDone(R.Run(P, schedule))
    ensures !Missing(P, a, r, R.Run(P, schedule).store)
  {
    R.RunInv(P, schedule);
    R.DoneMeansCompleted(P, schedule);
    var s := R.Run(P, schedule);
    forall j | 0 <= j < P.n - 1
      ensures R.PollKey(P, a, r, j) in s.store && s.store[R.PollKey(P, a, r, j)].Data?
    {
      hide R.MsgKey, R.PollKey;
      A.HeardIsStored(P, schedule, a, r, j);
    }
  }

  /** Among the messages of a finished run, a party's program does not stop, ends in the state of the
      reference execution and has published what the run's party has published. */
  lemma ProgramEnds<M, L>(K: Machine<M, L>, schedule: seq<nat>, a: nat, start: T.Store<M>, heard: seq<seq<M>>, st: nat -> L)
    requires R.WellFormed(ProtocolOf(K)) && a < K.n && R.AllDone(R.Run(ProtocolOf(K), schedule)) && After(K, K.rounds, st)
    requires SameReads(ProtocolOf(K), a, R.Run(ProtocolOf(K), schedule).store, start) && HoldsAll(ProtocolOf(K), a, start, heard)
    ensures StateAfter(K, a, heard).Some?
    ensures |heard| == K.rounds ==> StateAfter(K, a, heard) == Some(st(a))
    ensures |heard| < K.rounds ==> !Missing(ProtocolOf(K), a, |heard|, start)
  {
    hide StateAfter, HoldsAll, Missing, SameReads;
    var P, store := ProtocolOf(K), R.Run(ProtocolOf(K), schedule).store;
    HoldsAllKept(P, a, store, start, heard);
    R.DoneMeansCompleted(P, schedule);
    assert |heard| <= P.rounds by {
      HeardBounded(P, a, store, heard);
    }
    HeldIsHeard(P, schedule, a, heard, |heard|);
    assert heard[..|heard|] == heard;
    R.SyncEarlier(P, |heard|, P.rounds);
    assert R.Computes(P, a, |heard|, heard);
    if |heard| < P.rounds {
      NothingMissing(P, schedule, a, |heard|);
      HoldsKept(P, a, |heard|, store, start);
    }
  }

  lemma HeardBounded<M>(P: R.Protocol<M>, a: nat, store: T.Store<M>, heard: seq<seq<M>>)
    requires HoldsAll(P, a, store, heard)
    ensures |heard| <= P.rounds
  {
  }

  /** The own messages in the store are those of the run. */
  ghost predicate PublishedAsInRun<M>(P: R.Protocol<M>, a: nat, run: T.Store<M>, store: T.Store<M>)
    requires P.n > 0
  {
    forall r, k {:trigger R.MsgKey(P, a, r, k)} :: 0 <= r < P.rounds && 0 <= k < R.OutSize(P, r) ==>
      R.MsgKey(P, a, r, k) in store && R.MsgKey(P, a, r, k) in run && store[R.MsgKey(P, a, r, k)] == run[R.MsgKey(P, a, r, k)]
  }

  lemma ProgramPublishes<M>(P: R.Protocol<M>, schedule: seq<nat>, a: nat, start: T.Store<M>, store: T.Store<M>, heard: seq<seq<M>>)
    requires R.WellFormed(P) && a < P.n && R.AllDone(R.Run(P, schedule))
    requires SameReads(P, a, R.Run(P, schedule).store, start) && HoldsAll(P, a, start, heard)
    requires |heard| == P.rounds && SentAll(P, a, store, heard, P.rounds)
    ensures PublishedAsInRun(P, a, R.Run(P, schedule).store, store)
  {
    hide HoldsAll, SameReads;
    var run := R.Run(P, schedule);
    HoldsAllKept(P, a, run.store, start, heard);
    R.DoneMeansCompleted(P, schedule);
    R.RunInv(P, schedule);
    forall r, k | 0 <= r < P.rounds && 0 <= k < R.OutSize(P, r)
      ensures R.MsgKey(P, a, r, k) in store && R.MsgKey(P, a, r, k) in run.store
      ensures store[R.MsgKey(P, a, r, k)] == run.store[R.MsgKey(P, a, r, k)]
    {
      HeldIsHeard(P, schedule, a, heard, r);
      WrittenInTheEnd(P, run, a, r, k);
      assert SentRound(P, a, store, heard, r);
    }
  }

  lemma WrittenInTheEnd<M>(P: R.Protocol<M>, s: R.State<M>, a: nat, r: nat, k: nat)
    requires R.WellFormed(P) && R.Invariant(P, s) && R.AllDone(s) && a < P.n && r < P.rounds && k < R.OutSize(P, r)
    ensures R.MsgKey(P, a, r, k) in s.store && R.Sync(P, r).Some? && R.Computes(P, a, r, R.Sync(P, r).value[a])
    ensures s.store[R.MsgKey(P, a, r, k)] == R.Data(P.compute(a, r, R.Sync(P, r).value[a]).value[k])
  {
    hide R.Sync, R.MsgKey, R.Computes;
    assert R.PartyOk(P, s.parties[a], a);
    assert R.Published(s.parties[a], r, k);
    assert R.EntryOk(P, s, a, r, k);
  }

  // ----------------------------------------------------------------------------------------------
  // What a party knows of the run is all its program depends on
  // ----------------------------------------------------------------------------------------------

  /** For the party in slot a the two protocols are the same. */
  ghost predicate SameFor<M(!new)>(P: R.Protocol<M>, Q: R.Protocol<M>, a: nat) {
    && P.n == Q.n && P.rounds == Q.rounds && P.firstRound == Q.firstRound && P.p2p == Q.p2p
    && P.roomKey == Q.roomKey && P.uuid == Q.uuid
    && forall r, heard :: P.compute(a, r, heard) == Q.compute(a, r, heard)
  }

  lemma SameKeys<M(!new)>(P: R.Protocol<M>, Q: R.Protocol<M>, a: nat, r: nat, k: nat)
    requires SameFor(P, Q, a)
    ensures R.MsgKey(P, a, r, k) == R.MsgKey(Q, a, r, k) && R.PollKey(P, a, r, k) == R.PollKey(Q, a, r, k)
    ensures P.n > 0 ==> R.OutSize(P, r) == R.OutSize(Q, r)
  {
  }

  lemma SameOwnKeys<M(!new)>(P: R.Protocol<M>, Q: R.Protocol<M>, a: nat, key: string)
    requires SameFor(P, Q, a) && P.n > 0 && IsOwnKey(P, a, key)
    ensures IsOwnKey(Q, a, key)
  {
    hide R.MsgKey;
    var r, k :| 0 <= r < P.rounds && 0 <= k < R.OutSize(P, r) && key == R.MsgKey(P, a, r, k);
    SameKeys(P, Q, a, r, k);
    assert key == R.MsgKey(Q, a, r, k);
  }

  lemma SameBehaviour<M(!new)>(P: R.Protocol<M>, Q: R.Protocol<M>, a: nat, store: T.Store<M>, others: seq<T.Store<M>>)
    requires SameFor(P, Q, a) && P.n > 0 && WellBehaved(P, a, store, others)
    ensures WellBehaved(Q, a, store, others)
  {
    hide R.PollKey, R.MsgKey, T.WrittenOnce, T.Untouched;
    forall r, j | 0 <= r < Q.rounds && 0 <= j < Q.n - 1
      ensures T.WrittenOnce(store, others, R.PollKey(Q, a, r, j))
    {
      SameKeys(P, Q, a, r, j);
    }
    forall r, k | 0 <= r < Q.rounds && 0 <= k < R.OutSize(Q, r)
      ensures T.Untouched(others, R.MsgKey(Q, a, r, k))
    {
      SameKeys(P, Q, a, r, k);
    }
  }

  lemma SameMissing<M(!new)>(P: R.Protocol<M>, Q: R.Protocol<M>, a: nat, r: nat, store: T.Store<M>)
    requires SameFor(P, Q, a) && Missing(P, a, r, store)
    ensures Missing(Q, a, r, store)
  {
    hide R.PollKey;
    var j :| 0 <= j < P.n - 1 && (R.PollKey(P, a, r, j) in store ==> !store[R.PollKey(P, a, r, j)].Data?);
    SameKeys(P, Q, a, r, j);
    assert R.PollKey(Q, a, r, j) in store ==> !store[R.PollKey(Q, a, r, j)].Data?;
  }

  lemma SameHolds<M(!new)>(P: R.Protocol<M>, Q: R.Protocol<M>, a: nat, store: T.Store<M>, heard: seq<seq<M>>)
    requires SameFor(P, Q, a) && HoldsAll(P, a, store, heard)
    ensures HoldsAll(Q, a, store, heard)
  {
    hide R.PollKey;
    forall r | 0 <= r < |heard|
      ensures Holds(Q, a, r, store, heard[r])
    {
      assert Holds(P, a, r, store, heard[r]);
      forall j | 0 <= j < Q.n - 1
        ensures R.PollKey(Q, a, r, j) in store && store[R.PollKey(Q, a, r, j)] == R.Data(heard[r][j])
      {
        SameKeys(P, Q, a, r, j);
      }
    }
  }

  lemma SameSent<M(!new)>(P: R.Protocol<M>, Q: R.Protocol<M>, a: nat, store: T.Store<M>, heard: seq<seq<M>>, rounds: nat)
    requires SameFor(P, Q, a) && P.n > 0 && SentAll(P, a, store, heard, rounds)
    ensures SentAll(Q, a, store, heard, rounds)
  {
    hide R.MsgKey;
    forall r | 0 <= r < rounds
      ensures SentRound(Q, a, store, heard, r)
    {
      assert SentRound(P, a, store, heard, r);
      SameKeys(P, Q, a, r, 0);
      forall k | 0 <= k < R.OutSize(Q, r)
        ensures R.MsgKey(Q, a, r, k) in store && store[R.MsgKey(Q, a, r, k)] == R.Data(Q.compute(a, r, heard[..r]).value[k])
      {
        SameKeys(P, Q, a, r, k);
      }
    }
  }

  lemma SameTalking<M(!new)>(P: R.Protocol<M>, Q: R.Protocol<M>, a: nat, start: T.Store<M>, store: T.Store<M>, others: seq<T.Store<M>>,
                       heard: seq<seq<M>>, sent: nat)
    requires SameFor(P, Q, a) && P.n > 0 && Talking(P, a, start, store, others, heard, sent)
    ensures Talking(Q, a, start, store, others, heard, sent)
  {
    hide SameFor, WellBehaved, HoldsAll, SentAll, IsOwnKey, T.SameAt, T.Eventually;
    assert SameFor(Q, P, a) && Q.n == P.n && Q.roomKey == P.roomKey by {
      SameForBack(P, Q, a);
    }
    SameBehaviour(P, Q, a, store, others);
    SameHolds(P, Q, a, start, heard);
    SameSent(P, Q, a, store, heard, sent);
    forall key | !IsOwnKey(Q, a, key) && key != Q.roomKey
      ensures T.SameAt(start, T.Eventually(store, others), key)
    {
      if IsOwnKey(P, a, key) {
        SameOwnKeys(P, Q, a, key);
      }
    }
  }

  lemma SameForBack<M(!new)>(P: R.Protocol<M>, Q: R.Protocol<M>, a: nat)
    requires SameFor(P, Q, a)
    ensures SameFor(Q, P, a) && Q.n == P.n && Q.roomKey == P.roomKey
  {
  }

  // ----------------------------------------------------------------------------------------------
  // A signer among its peers
  // ----------------------------------------------------------------------------------------------

  lemma {:induction false} SignerStates(S: SignRun.Setup, L: SignRun.Setup, own: nat, heard: seq<seq<Signing.Msg>>)
    requires S.C == L.C && S.t == L.t && S.message == L.message && own < |S.signers| == |L.signers| && S.signers[own] == L.signers[own]
    ensures StateAfter(SignRun.SignMachine(S), own, heard) == StateAfter(SignRun.SignMachine(L), own, heard)
    decreases |heard|
  {
    if |heard| > 0 {
      SignerStates(S, L, own, heard[..|heard| - 1]);
      SignerSteps(S, L, own);
    }
  }

  lemma SignerSteps(S: SignRun.Setup, L: SignRun.Setup, own: nat)
    requires S.C == L.C && S.t == L.t && S.message == L.message && own < |S.signers| == |L.signers| && S.signers[own] == L.signers[own]
    ensures forall l, ans :: SignRun.SignMachine(S).next(own, l, ans) == SignRun.SignMachine(L).next(own, l, ans)
  {
    hide Signing.Next1, Signing.Next2, Signing.Next3, Signing.Next4, Signing.Next5, Signing.Next6, Signing.Next7, Signing.Next8, Signing.Next9, Signing.Finish;
  }

  /** What a signer knows after its signup determines its part of the protocol. */
  lemma SignerKnowsEnough(S: SignRun.Setup, own: nat)
    requires own < |S.signers| == S.t + 1
    ensures
      var L := Program.Knows(S.C, S.t, S.message, S.signers[own], S.roomKey, S.uuid);
      && SameFor(SignRun.SignProtocol(L), SignRun.SignProtocol(S), own)
      && forall heard :: StateAfter(SignRun.SignMachine(L), own, heard) == StateAfter(SignRun.SignMachine(S), own, heard)
  {
    hide SignRun.Out;
    var L := Program.Knows(S.C, S.t, S.message, S.signers[own], S.roomKey, S.uuid);
    forall heard
      ensures StateAfter(SignRun.SignMachine(L), own, heard) == StateAfter(SignRun.SignMachine(S), own, heard)
    {
      SignerStates(S, L, own, heard);
    }
    forall r: nat, heard
      ensures SignRun.SignProtocol(L).compute(own, r, heard) == SignRun.SignProtocol(S).compute(own, r, heard)
    {
    }
  }

  lemma SignsInRun(S: SignRun.Setup, own: nat, start: Program.Store, store: Program.Store, others: seq<Program.Store>,
                   heard: seq<seq<Signing.Msg>>, sig: Option<Signature>)
    requires own < |S.signers| == S.t + 1 && R.WellFormed(SignRun.SignProtocol(S))
    requires Program.Signs(Program.Knows(S.C, S.t, S.message, S.signers[own], S.roomKey, S.uuid), own, start, store, others, heard, sig)
    ensures Program.Signs(S, own, start, store, others, heard, sig)
  {
    hide Talking, StateAfter, SameFor, Missing;
    var L := Program.Knows(S.C, S.t, S.message, S.signers[own], S.roomKey, S.uuid);
    var P, Q := SignRun.SignProtocol(L), SignRun.SignProtocol(S);
    SignerKnowsEnough(S, own);
    if Talking(P, own, start, store, others, heard, |heard|) {
      SameTalking(P, Q, own, start, store, others, heard, |heard|);
    }
    if Talking(P, own, start, store, others, heard, |heard| + 1) {
      SameTalking(P, Q, own, start, store, others, heard, |heard| + 1);
    }
    if Missing(P, own, |heard|, start) {
      SameMissing(P, Q, own, |heard|, start);
    }
  }

  /** If what the signer's peers write is what they write in a finished honest run, the program of the
      signer returns the signature of the single key holder, and it publishes what the signer of the run
      publishes. */
  lemma SignerReturnsSignature(S: SignRun.Setup, D: Dealing, schedule: seq<nat>, own: nat, start: Program.Store,
                               store: Program.Store, others: seq<Program.Store>, sig: Option<Signature>, heard: seq<seq<Signing.Msg>>)
    requires S.C.q > 0 && own < |S.signers| == S.t + 1 && SP.Honest(S, D) && R.WellFormed(SignRun.SignProtocol(S))
    requires R.AllDone(R.Run(SignRun.SignProtocol(S), schedule))
    requires SameReads(SignRun.SignProtocol(S), own, R.Run(SignRun.SignProtocol(S), schedule).store, start)
    requires Program.Signs(S, own, start, store, others, heard, sig)
    ensures sig == Some(EcdsaSign(S.C, S.message, Secret(D), ST.Nonce(S)))
    ensures EcdsaVerify(S.C, S.message, sig.value, S.signers[own].file.ySum)
    ensures ST.FromNonce(S.C, S.message, Secret(D), ST.Nonce(S), sig.value)
    ensures PublishedAsInRun(SignRun.SignProtocol(S), own, R.Run(SignRun.SignProtocol(S), schedule).store, store)
  {
    hide StateAfter, HoldsAll, SentAll, Missing, SP.Honest, R.AllDone, R.Completes, NobodyFinishes, EcdsaSign, EcdsaVerify, ST.Usable, After, SameReads,
         WellBehaved, OnlyOwn, PublishedAsInRun;
    ST.HonestReference(S, D);
    ST.UsableSignature(S, D);
    R.DoneMeansCompleted(SignRun.SignProtocol(S), schedule);
    ProgramEnds(SignRun.SignMachine(S), schedule, own, start, heard, SignRounds.Ends(EcdsaSign(S.C, S.message, Secret(D), ST.Nonce(S))));
    ProgramPublishes(SignRun.SignProtocol(S), schedule, own, start, store, heard);
  }

  /** The program of a signer started at the moment at which the signer of an honest run is to sign up, the
      others' writes coming in whatever batches of this run: if the run finishes, the program returns the
      signature of the single key holder, which verifies under the signer's public key, and publishes the
      messages of the run. */
  method SignAmongPeers(ghost S: SignRun.Setup, ghost D: Dealing, ghost own: nat, ghost before: seq<nat>, ghost segments: seq<seq<nat>>,
                        C: Curve, t: nat, message: nat, me: Signing.Signer, parties: nat, roomKey: string, newUuid: string,
                        c: T.StoreCommunity<Signing.Msg>)
    returns (sig: Option<Signature>)
    requires C.q > 0 && own < |S.signers| == t + 1 && SP.Honest(S, D) && R.WellFormed(SignRun.SignProtocol(S))
    requires C == S.C && t == S.t && message == S.message && me == S.signers[own] && roomKey == S.roomKey
    requires parties >= t + 1 && (own == 0 ==> newUuid == S.uuid)
    requires c.store == R.Run(SignRun.SignProtocol(S), before).store && R.SignedUp(SignRun.SignProtocol(S), c.store) == own
    requires c.others == BatchesOf(SignRun.SignProtocol(S), own, R.Run(SignRun.SignProtocol(S), before), segments)
    requires R.AllDone(R.Run(SignRun.SignProtocol(S), before + Concat(segments)))
    modifies c
    ensures sig == Some(EcdsaSign(S.C, S.message, Secret(D), ST.Nonce(S)))
    ensures EcdsaVerify(S.C, S.message, sig.value, me.file.ySum)
    ensures ST.FromNonce(C, message, Secret(D), ST.Nonce(S), sig.value) && 2 * sig.value.s <= C.q
    ensures PublishedAsInRun(SignRun.SignProtocol(S), own, R.Run(SignRun.SignProtocol(S), before + Concat(segments)).store, c.store)
  {
    hide SP.Honest, R.AllDone, WellBehaved, SameReads, PublishedAsInRun, Program.Signs, EcdsaSign, EcdsaVerify, R.Run, R.Invariant, BatchesOf, T.Eventually, SameFor;
    ghost var P, L := SignRun.SignProtocol(S), Program.Knows(C, t, message, me, roomKey, S.uuid);
    ghost var start := T.Eventually(c.store, c.others);
    ghost var heard;
    var signup;
    R.RunInv(P, before);
    SignupInTurn(P, R.Run(P, before), own, parties, newUuid);
    RunsBehaveWell(P, own, R.Run(P, before), segments);
    RunInTwo(P, before, Concat(segments));
    SignerKnowsEnough(S, own);
    SameForBack(SignRun.SignProtocol(L), P, own);
    SameBehaviour(P, SignRun.SignProtocol(L), own, c.store, c.others);
    signup, sig, heard := Program.Sign(C, t, message, me, parties, roomKey, newUuid, c);
    SignsInRun(S, own, start, c.store, c.others, heard, sig);
    SignerReturnsSignature(S, D, before + Concat(segments), own, start, c.store, c.others, sig, heard);
  }

  /** The next to sign up is granted its number. */
  lemma SignupInTurn<M>(P: R.Protocol<M>, s: R.State<M>, own: nat, num: nat, newUuid: string)
    requires R.WellFormed(P) && R.Invariant(P, s) && R.SignedUp(P, s.store) == own < num && (own == 0 ==> newUuid == P.uuid)
    ensures ReadSignup(s.store, num, P.roomKey, newUuid) == Granted(own + 1, P.uuid)
  {
    hide R.PartyOk, R.EntryOk, R.HeardOk;
  }

  lemma RunInTwo<M>(P: R.Protocol<M>, before: seq<nat>, rest: seq<nat>)
    requires P.n > 0
    ensures R.Run(P, before + rest) == R.RunFrom(P, R.Run(P, before), rest)
  {
    R.RunFromConcat(P, R.Init(P), before, rest);
  }

  // ----------------------------------------------------------------------------------------------
  // A party of key generation among its peers
  // ----------------------------------------------------------------------------------------------

  lemma {:induction false} PartyStates(S: G.Setup, L: G.Setup, own: nat, heard: seq<seq<G.Msg>>)
    requires S.C == L.C && S.t == L.t && own < |S.parts| == |L.parts| && S.parts[own] == L.parts[own]
    ensures StateAfter(G.KeygenMachine(S), own, heard) == StateAfter(G.KeygenMachine(L), own, heard)
    decreases |heard|
  {
    if |heard| > 0 {
      PartyStates(S, L, own, heard[..|heard| - 1]);
      PartySteps(S, L, own);
    }
  }

  lemma PartySteps(S: G.Setup, L: G.Setup, own: nat)
    requires S.C == L.C && S.t == L.t && own < |S.parts| == |L.parts| && S.parts[own] == L.parts[own]
    ensures forall l, ans :: G.KeygenMachine(S).next(own, l, ans) == G.KeygenMachine(L).next(own, l, ans)
  {
    hide G.Next1, G.Next2, G.Next3, G.Next4, G.Next5;
  }

  /** What a party knows after its signup determines its part of the protocol. */
  lemma PartyKnowsEnough(S: G.Setup, own: nat)
    requires own < |S.parts|
    ensures
      var L := GP.Knows(S.C, S.t, |S.parts|, S.parts[own], S.roomKey, S.uuid);
      && SameFor(G.KeygenProtocol(L), G.KeygenProtocol(S), own)
      && forall heard :: StateAfter(G.KeygenMachine(L), own, heard) == StateAfter(G.KeygenMachine(S), own, heard)
  {
    hide G.Out;
    var L := GP.Knows(S.C, S.t, |S.parts|, S.parts[own], S.roomKey, S.uuid);
    forall heard
      ensures StateAfter(G.KeygenMachine(L), own, heard) == StateAfter(G.KeygenMachine(S), own, heard)
    {
      PartyStates(S, L, own, heard);
    }
    forall r: nat, heard
      ensures G.KeygenProtocol(L).compute(own, r, heard) == G.KeygenProtocol(S).compute(own, r, heard)
    {
    }
  }

  lemma GeneratesInRun(S: G.Setup, own: nat, start: GP.Store, store: GP.Store, others: seq<GP.Store>, heard: seq<seq<G.Msg>>, file: Option<KeyFile>)
    requires own < |S.parts| && R.WellFormed(G.KeygenProtocol(S))
    requires GP.Generates(GP.Knows(S.C, S.t, |S.parts|, S.parts[own], S.roomKey, S.uuid), own, start, store, others, heard, file)
    ensures GP.Generates(S, own, start, store, others, heard, file)
  {
    hide Talking, StateAfter, SameFor, Missing;
    var L := GP.Knows(S.C, S.t, |S.parts|, S.parts[own], S.roomKey, S.uuid);
    var P, Q := G.KeygenProtocol(L), G.KeygenProtocol(S);
    PartyKnowsEnough(S, own);
    if Talking(P, own, start, store, others, heard, |heard|) {
      SameTalking(P, Q, own, start, store, others, heard, |heard|);
    }
    if Talking(P, own, start, store, others, heard, |heard| + 1) {
      SameTalking(P, Q, own, start, store, others, heard, |heard| + 1);
    }
    if Missing(P, own, |heard|, start) {
      SameMissing(P, Q, own, |heard|, start);
    }
  }

  /** Likewise the program of a party of key generation returns the key file that belongs to its number. */
  lemma PartyReturnsKeyFile(S: G.Setup, schedule: seq<nat>, own: nat, start: GP.Store, store: GP.Store, others: seq<GP.Store>,
                            file: Option<KeyFile>, heard: seq<seq<G.Msg>>)
    requires S.C.q > 0 && own < |S.parts| && GT.Honest(S) && R.WellFormed(G.KeygenProtocol(S))
    requires R.AllDone(R.Run(G.KeygenProtocol(S), schedule))
    requires SameReads(G.KeygenProtocol(S), own, R.Run(G.KeygenProtocol(S), schedule).store, start)
    requires GP.Generates(S, own, start, store, others, heard, file)
    ensures file == Some(FileOf(S.C.q, GT.DealingOf(S), own)) && GT.FileFits(S, own, file.value)
    ensures PublishedAsInRun(G.KeygenProtocol(S), own, R.Run(G.KeygenProtocol(S), schedule).store, store)
  {
    hide StateAfter, HoldsAll, SentAll, Missing, GT.Honest, R.AllDone, R.Completes, NobodyFinishes, GT.Usable, GT.FileFits, FileOf, After, SameReads,
         WellBehaved, OnlyOwn, PublishedAsInRun;
    GT.ReferenceKeygen(S);
    GT.FilesFit(S, own);
    R.DoneMeansCompleted(G.KeygenProtocol(S), schedule);
    ProgramEnds(G.KeygenMachine(S), schedule, own, start, heard, GT.St5(S));
    ProgramPublishes(G.KeygenProtocol(S), schedule, own, start, store, heard);
  }

  /** The program of a party of key generation, started at the moment at which the party of an honest run is
      to sign up, the others' writes coming in whatever batches of this run: if the run finishes, the
      program returns the key file that belongs to its number and publishes the messages of the run. */
  method GenerateAmongPeers(ghost S: G.Setup, ghost own: nat, ghost before: seq<nat>, ghost segments: seq<seq<nat>>,
                            C: Curve, t: nat, n: nat, me: G.Part, roomKey: string, newUuid: string, c: T.StoreCommunity<G.Msg>)
    returns (file: Option<KeyFile>)
    requires C.q > 0 && own < |S.parts| == n && GT.Honest(S) && R.WellFormed(G.KeygenProtocol(S))
    requires C == S.C && t == S.t && me == S.parts[own] && roomKey == S.roomKey && (own == 0 ==> newUuid == S.uuid)
    requires c.store == R.Run(G.KeygenProtocol(S), before).store && R.SignedUp(G.KeygenProtocol(S), c.store) == own
    requires c.others == BatchesOf(G.KeygenProtocol(S), own, R.Run(G.KeygenProtocol(S), before), segments)
    requires R.AllDone(R.Run(G.KeygenProtocol(S), before + Concat(segments)))
    modifies c
    ensures file == Some(FileOf(S.C.q, GT.DealingOf(S), own)) && GT.FileFits(S, own, file.value)
    ensures PublishedAsInRun(G.KeygenProtocol(S), own, R.Run(G.KeygenProtocol(S), before + Concat(segments)).store, c.store)
  {
    hide GT.Honest, R.AllDone, WellBehaved, SameReads, PublishedAsInRun, GP.Generates, FileOf, GT.FileFits, R.Run, R.Invariant, BatchesOf, T.Eventually, SameFor;
    ghost var P, L := G.KeygenProtocol(S), GP.Knows(C, t, n, me, roomKey, S.uuid);
    ghost var start := T.Eventually(c.store, c.others);
    ghost var heard;
    var signup;
    R.RunInv(P, before);
    SignupInTurn(P, R.Run(P, before), own, n, newUuid);
    RunsBehaveWell(P, own, R.Run(P, before), segments);
    RunInTwo(P, before, Concat(segments));
    PartyKnowsEnough(S, own);
    SameForBack(G.KeygenProtocol(L), P, own);
    SameBehaviour(P, G.KeygenProtocol(L), own, c.store, c.others);
    signup, file, heard := GP.GenerateKey(C, t, n, me, roomKey, newUuid, c);
    GeneratesInRun(S, own, start, c.store, c.others, heard, file);
    PartyReturnsKeyFile(S, before + Concat(segments), own, start, c.store, c.others, file, heard);
  }

  // ----------------------------------------------------------------------------------------------
  // All programs together
  // ----------------------------------------------------------------------------------------------

  /** If one store has what every party has sent in r rounds and what every party has heard in them, then
      every party has heard what it hears in the reference execution: the programs of all parties make up a
      run of the protocol. */
  lemma {:induction false} ProgramsAgree<M>(P: R.Protocol<M>, store: T.Store<M>, heard: seq<seq<seq<M>>>, r: nat)
    requires P.n > 0 && |heard| == P.n && r <= P.rounds
    requires forall a :: 0 <= a < P.n ==> |heard[a]| >= r && HoldsAll(P, a, store, heard[a]) && SentAll(P, a, store, heard[a], r)
    ensures R.Sync(P, r).Some? && forall a :: 0 <= a < P.n ==> heard[a][..r] == R.Sync(P, r).value[a]
  {
    hide R.MsgKey, R.PollKey, Holds, SentRound;
    if r > 0 {
      forall a | 0 <= a < P.n
        ensures SentAll(P, a, store, heard[a], r - 1)
      {
        assert SentAll(P, a, store, heard[a], r);
      }
      ProgramsAgree(P, store, heard, r - 1);
      forall a | 0 <= a < P.n
        ensures Holds(P, a, r - 1, store, heard[a][r - 1]) && SentRound(P, a, store, heard[a], r - 1)
      {
        assert HoldsAll(P, a, store, heard[a]) && SentAll(P, a, store, heard[a], r);
      }
      RoundAgrees(P, store, heard, r - 1);
    }
  }

  lemma RoundAgrees<M>(P: R.Protocol<M>, store: T.Store<M>, heard: seq<seq<seq<M>>>, r: nat)
    requires P.n > 0 && |heard| == P.n && r < P.rounds && R.Sync(P, r).Some?
    requires forall a :: 0 <= a < P.n ==> |heard[a]| > r && heard[a][..r] == R.Sync(P, r).value[a]
    requires forall a :: 0 <= a < P.n ==> Holds(P, a, r, store, heard[a][r]) && SentRound(P, a, store, heard[a], r)
    ensures R.Sync(P, r + 1).Some? && forall a :: 0 <= a < P.n ==> heard[a][..r + 1] == R.Sync(P, r + 1).value[a]
  {
    var sync := R.Sync(P, r).value;
    assert R.AllCompute(P, r, sync) by {
      forall a | 0 <= a < P.n
        ensures R.Computes(P, a, r, sync[a])
      {
        assert SentRound(P, a, store, heard[a], r);
      }
    }
    forall a | 0 <= a < P.n
      ensures heard[a][..r + 1] == sync[a] + [R.Received(P, r, sync, a)]
    {
      assert Holds(P, a, r, store, heard[a][r]);
      forall j | 0 <= j < P.n - 1
        ensures heard[a][r][j] == R.Received(P, r, sync, a)[j]
      {
        hide R.MsgKey, R.PollKey;
        var b := Skip(a, j);
        R.PollKeyIsMsgKey(P, a, r, j);
        assert SentRound(P, b, store, heard[b], r);
      }
      assert heard[a][r] == R.Received(P, r, sync, a);
      assert heard[a][..r + 1] == heard[a][..r] + [heard[a][r]];
    }
  }

  lemma SignedComputes(S: SignRun.Setup, a: nat, heard: seq<seq<Signing.Msg>>, sig: Signature)
    requires a < |S.signers| && |heard| == SignRun.ROUNDS && StateAfter(SignRun.SignMachine(S), a, heard) == Some(SignRun.Signed(sig))
    ensures R.Computes(SignRun.SignProtocol(S), a, SignRun.ROUNDS, heard)
  {
    hide StateAfter;
    assert SignRun.SignProtocol(S).compute(a, SignRun.ROUNDS, heard) == Compute(SignRun.SignMachine(S), a, SignRun.ROUNDS, heard);
  }

  /** When the programs of all t + 1 signers have returned, and the store has what each has sent and what
      each has heard, all have returned the signature of the single key holder. */
  lemma AllSignersAgree(S: SignRun.Setup, D: Dealing, store: Program.Store, heard: seq<seq<seq<Signing.Msg>>>, sigs: seq<Signature>)
    requires S.C.q > 0 && |S.signers| == S.t + 1 == |heard| == |sigs| && SP.Honest(S, D)
    requires forall a :: 0 <= a < |S.signers| ==>
      && |heard[a]| == SignRun.ROUNDS && StateAfter(SignRun.SignMachine(S), a, heard[a]) == Some(SignRun.Signed(sigs[a]))
      && HoldsAll(SignRun.SignProtocol(S), a, store, heard[a]) && SentAll(SignRun.SignProtocol(S), a, store, heard[a], SignRun.ROUNDS)
    ensures ST.Usable(S, Secret(D))
    ensures forall a :: 0 <= a < |S.signers| ==>
      && sigs[a] == EcdsaSign(S.C, S.message, Secret(D), ST.Nonce(S))
      && EcdsaVerify(S.C, S.message, sigs[a], S.signers[a].file.ySum)
      && ST.FromNonce(S.C, S.message, Secret(D), ST.Nonce(S), sigs[a])
  {
    hide StateAfter, HoldsAll, SentAll, SP.Honest, EcdsaSign, EcdsaVerify, ST.Usable;
    var P, n := SignRun.SignProtocol(S), |S.signers|;
    ProgramsAgree(P, store, heard, P.rounds);
    forall a | 0 <= a < n
      ensures heard[a] == R.Sync(P, P.rounds).value[a] && R.Computes(P, a, P.rounds, heard[a])
    {
      assert heard[a][..P.rounds] == heard[a];
      SignedComputes(S, a, heard[a], sigs[a]);
    }
    assert R.Completes(P);
    ST.HonestReference(S, D);
    ST.UsableSignature(S, D);
  }
}
