/** What the others write while one party's program runs, cut into batches at arbitrary moments of a run. */
module Batches {
  import opened Transport
  import opened Exchanges
  import opened Schedules
  import R = Rounds

  /** The entries of the store that the party in slot a has not written. */
  ghost function PeersPart<M>(P: R.Protocol<M>, a: nat, store: Store<M>): Store<M>
    requires P.n > 0
  {
    map key | key in store && !IsOwnKey(P, a, key) :: store[key]
  }

  /** The peers' entries after each segment of a run from s on. */
  ghost function BatchesOf<M>(P: R.Protocol<M>, a: nat, s: R.State<M>, segments: seq<seq<nat>>): (batches: seq<Store<M>>)
    requires P.n > 0
    ensures |batches| == |segments|
    decreases |segments|
  {
    if |segments| == 0 then []
    else
      var s' := R.RunFrom(P, s, segments[0]);
      [PeersPart(P, a, s'.store)] + BatchesOf(P, a, s', segments[1..])
  }

  lemma {:induction false} BatchesKeepOff<M>(P: R.Protocol<M>, a: nat, s: R.State<M>, segments: seq<seq<nat>>, key: string)
    requires P.n > 0 && IsOwnKey(P, a, key)
    ensures Untouched(BatchesOf(P, a, s, segments), key)
    decreases |segments|
  {
    hide IsOwnKey;
    if |segments| > 0 {
      var s' := R.RunFrom(P, s, segments[0]);
      BatchesKeepOff(P, a, s', segments[1..], key);
      assert key !in PeersPart(P, a, s'.store);
    }
  }

  /** Under a key that is a peer's, the batches write at most once, and in the end there is what the run has
      written. */
  lemma {:induction false} BatchesWriteRun<M>(P: R.Protocol<M>, a: nat, s: R.State<M>, segments: seq<seq<nat>>, store: Store<M>, key: string)
    requires R.WellFormed(P) && R.Invariant(P, s) && !IsOwnKey(P, a, key) && key != P.roomKey && SameAt(s.store, store, key)
    ensures WrittenOnce(store, BatchesOf(P, a, s, segments), key)
    ensures SameAt(R.RunFrom(P, s, Concat(segments)).store, Eventually(store, BatchesOf(P, a, s, segments)), key)
    decreases |segments|
  {
    hide IsOwnKey, R.Invariant, R.Step;
    if |segments| > 0 {
      var s' := R.RunFrom(P, s, segments[0]);
      var batch := PeersPart(P, a, s'.store);
      R.RunFromInv(P, s, segments[0]);
      R.RunFromConcat(P, s, segments[0], Concat(segments[1..]));
      if key in s.store {
        R.MessagesWrittenOnce(P, s, segments[0], key);
      }
      assert SameAt(s'.store, store + batch, key);
      BatchesWriteRun(P, a, s', segments[1..], store + batch, key);
    }
  }

  /** The others of a run behave well towards the program of a party, and in the end its peers' messages are
      those of the run. */
  lemma RunsBehaveWell<M>(P: R.Protocol<M>, a: nat, s: R.State<M>, segments: seq<seq<nat>>)
    requires R.WellFormed(P) && R.Invariant(P, s)
    ensures WellBehaved(P, a, s.store, BatchesOf(P, a, s, segments))
    ensures SameReads(P, a, R.RunFrom(P, s, Concat(segments)).store, Eventually(s.store, BatchesOf(P, a, s, segments)))
  {
    hide R.Invariant, R.PollKey, R.MsgKey, WrittenOnce, Eventually, Untouched, SameAt, BatchesOf;
    var batches := BatchesOf(P, a, s, segments);
    forall r, j | 0 <= r < P.rounds && 0 <= j < P.n - 1
      ensures WrittenOnce(s.store, batches, R.PollKey(P, a, r, j))
      ensures SameAt(R.RunFrom(P, s, Concat(segments)).store, Eventually(s.store, batches), R.PollKey(P, a, r, j))
    {
      PollKeyIsNotOwn(P, a, r, j);
      Itself(s.store, R.PollKey(P, a, r, j));
      BatchesWriteRun(P, a, s, segments, s.store, R.PollKey(P, a, r, j));
    }
    forall r, k | 0 <= r < P.rounds && 0 <= k < R.OutSize(P, r)
      ensures Untouched(batches, R.MsgKey(P, a, r, k))
    {
      BatchesKeepOff(P, a, s, segments, R.MsgKey(P, a, r, k));
    }
  }

  lemma Itself<M>(s: Store<M>, key: string)
    ensures SameAt(s, s, key)
  {
  }

  // ----------------------------------------------------------------------------------------------
  // Every party of a protocol that completes has such a run to take part in
  // ----------------------------------------------------------------------------------------------

  /** The slots 0, ..., k - 1, one turn each. */
  function FirstTurns(k: nat): (turns: seq<nat>) {
    if k == 0 then [] else FirstTurns(k - 1) + [k - 1]
  }

  lemma {:induction false} FirstSignups<M>(P: R.Protocol<M>, k: nat)
    requires R.WellFormed(P) && k <= P.n
    ensures R.SignedUp(P, R.Run(P, FirstTurns(k)).store) == k
  {
    if k > 0 {
      var before := FirstTurns(k - 1);
      FirstSignups(P, k - 1);
      R.RunInv(P, before);
      R.RunFromConcat(P, R.Init(P), before, [k - 1]);
      NextSignup(P, R.Run(P, before), k - 1);
      assert [k - 1][1..] == [];
      assert R.RunFrom(P, R.Run(P, before), [k - 1]) == R.Step(P, R.Run(P, before), k - 1);
    }
  }

  lemma NextSignup<M>(P: R.Protocol<M>, s: R.State<M>, a: nat)
    requires R.WellFormed(P) && R.Invariant(P, s) && a < P.n && R.SignedUp(P, s.store) == a
    ensures R.SignedUp(P, R.Step(P, s, a).store) == a + 1
  {
    hide R.PartyOk, R.EntryOk, R.HeardOk, R.Enter;
  }

  lemma {:induction false} AllInTurns(k: nat, a: nat)
    requires a < k
    ensures a in FirstTurns(k)
  {
    if a < k - 1 {
      AllInTurns(k - 1, a);
    }
  }

  /** Up to the turn of the party in slot own, and from there on in segments to the end. */
  lemma RunToTakePartIn<M>(P: R.Protocol<M>, own: nat) returns (before: seq<nat>, segments: seq<seq<nat>>)
    requires R.WellFormed(P) && own < P.n && R.Completes(P)
    ensures R.SignedUp(P, R.Run(P, before).store) == own
    ensures R.AllDone(R.Run(P, before + Concat(segments)))
  {
    hide R.Completes, R.AllDone, R.Invariant;
    before := FirstTurns(own);
    FirstSignups(P, own);
    R.RunInv(P, before);
    var s := R.Run(P, before);
    R.RemainingNonnegative(P, s);
    var sweep, enough := FirstTurns(P.n), R.Remaining(P, s);
    segments := seq(enough, _ => sweep);
    forall a | 0 <= a < P.n
      ensures a in sweep
    {
      AllInTurns(P.n, a);
    }
    assert R.Sweep(P, sweep);
    R.SweepsFinish(P, s, segments, before);
    R.RunFromConcat(P, R.Init(P), before, Concat(segments));
  }
}
