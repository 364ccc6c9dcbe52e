/** Protocols whose parties carry a local state from round to round, and the reference execution in
    terms of these states. */
module Machines {
  import opened Wrappers
  import opened Modular
  import opened Slots
  import R = Rounds

  /** All parties start in `start`. In a state l the party in slot a sends out(a, l); with the answers
      of the round it goes on to next(a, l, answers). None is a panic. After the last round out must
      be empty. */
  datatype Machine<!M, !L> = Machine(
    n: nat,
    rounds: nat,
    firstRound: nat,
    p2p: set<nat>,
    roomKey: string,
    uuid: string,
    start: L,
    out: (nat, L) -> Option<seq<M>>,
    next: (nat, L, seq<M>) -> Option<L>)

  /** The state of the party in slot a, from the answers it has heard. */
  function StateAfter<M, L>(A: Machine<M, L>, a: nat, heard: seq<seq<M>>): Option<L>
    decreases |heard|
  {
    if |heard| == 0 then Some(A.start)
    else
      var l := StateAfter(A, a, heard[..|heard| - 1]);
      if l.None? then None else A.next(a, l.value, heard[|heard| - 1])
  }

  function Compute<M, L>(A: Machine<M, L>, a: nat, r: nat, heard: seq<seq<M>>): Option<seq<M>> {
    var l := StateAfter(A, a, heard);
    if |heard| != r || l.None? then None else A.out(a, l.value)
  }

  function ProtocolOf<M, L>(A: Machine<M, L>): R.Protocol<M> {
    R.Protocol(A.n, A.rounds, A.firstRound, A.p2p, A.roomKey, A.uuid,
      (a: nat, r: nat, heard: seq<seq<M>>) => Compute(A, a, r, heard))
  }

  ghost function Heard<M, L>(A: Machine<M, L>, r: nat): (heard: Option<seq<seq<seq<M>>>>)
    requires A.n > 0 && r <= A.rounds
    ensures heard.Some? ==> |heard.value| == A.n && forall a :: 0 <= a < A.n ==> |heard.value[a]| == r
  {
    R.Sync(ProtocolOf(A), r)
  }

  /** After r synchronous rounds the party in slot a is in state st(a). */
  ghost predicate After<M, L>(A: Machine<M, L>, r: nat, st: nat -> L)
    requires A.n > 0 && r <= A.rounds
  {
    Heard(A, r).Some? && forall a :: 0 <= a < A.n ==> StateAfter(A, a, Heard(A, r).value[a]) == Some(st(a))
  }

  lemma AtStart<M, L>(A: Machine<M, L>, st: nat -> L)
    requires A.n > 0 && forall a :: 0 <= a < A.n ==> st(a) == A.start
    ensures After(A, 0, st)
  {
  }

  /** What everyone hears when b sends the sequence outs(b). */
  lemma OneRound<M, L>(A: Machine<M, L>, r: nat, st: nat -> L, outs: nat -> seq<M>)
    requires A.n > 0 && r < A.rounds && After(A, r, st)
    requires forall a :: 0 <= a < A.n ==> A.out(a, st(a)) == Some(outs(a)) && |outs(a)| == R.OutSize(ProtocolOf(A), r)
    ensures Heard(A, r + 1).Some?
    ensures forall a :: 0 <= a < A.n ==>
      StateAfter(A, a, Heard(A, r + 1).value[a]) == A.next(a, st(a), R.Delivered(ProtocolOf(A), r, outs, a))
  {
    var P := ProtocolOf(A);
    forall a | 0 <= a < A.n
      ensures P.compute(a, r, R.Sync(P, r).value[a]) == Some(outs(a))
    {
    }
    R.SyncNext(P, r, outs);
    forall a | 0 <= a < A.n
      ensures StateAfter(A, a, Heard(A, r + 1).value[a]) == A.next(a, st(a), R.Delivered(P, r, outs, a))
    {
      var h := Heard(A, r + 1).value[a];
      assert h[..|h| - 1] == Heard(A, r).value[a];
    }
  }

  /** In state l the party in slot a sends msg(a) and, having heard everybody's msg, goes on to l'. */
  ghost predicate Moves<M, L>(A: Machine<M, L>, l: L, msg: nat -> M, l': L, a: nat)
    requires a < A.n
  {
    A.out(a, l) == Some([msg(a)]) && A.next(a, l, Peers(A.n, a, msg)) == Some(l')
  }

  /** In state l the party in slot a sends msg(a) and panics when it has heard everybody's msg. */
  ghost predicate Halts<M, L>(A: Machine<M, L>, l: L, msg: nat -> M, a: nat)
    requires a < A.n
  {
    A.out(a, l) == Some([msg(a)]) && A.next(a, l, Peers(A.n, a, msg)) == None
  }

  ghost function Single<M>(msg: nat -> M): nat -> seq<M> {
    (b: nat) => [msg(b)]
  }

  lemma BroadcastDelivered<M, L>(A: Machine<M, L>, r: nat, msg: nat -> M, a: nat)
    requires a < A.n && r < A.rounds && r !in A.p2p
    ensures forall b :: 0 <= b < A.n ==> |Single(msg)(b)| == R.OutSize(ProtocolOf(A), r)
    ensures R.Delivered(ProtocolOf(A), r, Single(msg), a) == Peers(A.n, a, msg)
  {
  }

  /** A broadcast round: everyone sends msg and goes on to st'. */
  lemma BroadcastRound<M, L>(A: Machine<M, L>, r: nat, st: nat -> L, msg: nat -> M, st': nat -> L)
    requires A.n > 0 && r < A.rounds && r !in A.p2p && After(A, r, st)
    requires forall a :: 0 <= a < A.n ==> Moves(A, st(a), msg, st'(a), a)
    ensures After(A, r + 1, st')
  {
    BroadcastDelivered(A, r, msg, 0);
    forall a | 0 <= a < A.n
      ensures A.out(a, st(a)) == Some(Single(msg)(a))
    {
      assert Moves(A, st(a), msg, st'(a), a);
    }
    OneRound(A, r, st, Single(msg));
    forall a | 0 <= a < A.n
      ensures StateAfter(A, a, Heard(A, r + 1).value[a]) == Some(st'(a))
    {
      BroadcastDelivered(A, r, msg, a);
      assert Moves(A, st(a), msg, st'(a), a);
    }
  }

  ghost function To<M>(msg: (nat, nat) -> M, a: nat): nat -> M {
    (b: nat) => msg(a, b)
  }

  /** A point-to-point round: b sends outs(b), of which msg(a, b) is meant for a. */
  lemma PointToPointRound<M, L>(A: Machine<M, L>, r: nat, st: nat -> L, outs: nat -> seq<M>, msg: (nat, nat) -> M, st': nat -> L)
    requires A.n > 0 && r < A.rounds && r in A.p2p && After(A, r, st)
    requires forall a :: 0 <= a < A.n ==> A.out(a, st(a)) == Some(outs(a)) && |outs(a)| == A.n - 1
    requires forall a, b :: 0 <= a < A.n && 0 <= b < A.n && a != b ==> outs(b)[Unskip(b, a)] == msg(a, b)
    requires forall a :: 0 <= a < A.n ==> A.next(a, st(a), Peers(A.n, a, To(msg, a))) == Some(st'(a))
    ensures After(A, r + 1, st')
  {
    OneRound(A, r, st, outs);
    forall a | 0 <= a < A.n
      ensures StateAfter(A, a, Heard(A, r + 1).value[a]) == Some(st'(a))
    {
      assert R.Delivered(ProtocolOf(A), r, outs, a) == Peers(A.n, a, To(msg, a));
    }
  }

  /** No party gets through the last local computation of the reference execution. */
  ghost predicate NobodyFinishes<M, L>(A: Machine<M, L>)
    requires A.n > 0
  {
    Heard(A, A.rounds).Some? ==>
      forall a :: 0 <= a < A.n ==> !R.Computes(ProtocolOf(A), a, A.rounds, Heard(A, A.rounds).value[a])
  }

  lemma NoStateNoFinish<M, L>(A: Machine<M, L>, r: nat, heard: seq<seq<seq<M>>>)
    requires A.n > 0 && r <= A.rounds && Heard(A, r) == Some(heard)
    requires forall a :: 0 <= a < A.n ==> StateAfter(A, a, heard[a]) == None
    ensures NobodyFinishes(A) && !R.Completes(ProtocolOf(A))
    ensures r < A.rounds ==> Heard(A, r + 1) == None
  {
    hide StateAfter;
    var P := ProtocolOf(A);
    forall a | 0 <= a < A.n
      ensures !R.Computes(P, a, r, heard[a])
    {
    }
    assert !R.Computes(P, 0, r, heard[0]);
    if Heard(A, A.rounds).Some? && r < A.rounds {
      R.SyncEarlier(P, r, A.rounds);
    }
  }

  /** If everybody panics after a broadcast round, nobody finishes. */
  lemma PanicRound<M, L>(A: Machine<M, L>, r: nat, st: nat -> L, msg: nat -> M)
    requires A.n > 0 && r < A.rounds && r !in A.p2p && After(A, r, st)
    requires forall a :: 0 <= a < A.n ==> Halts(A, st(a), msg, a)
    ensures NobodyFinishes(A) && !R.Completes(ProtocolOf(A))
    ensures r + 1 < A.rounds ==> Heard(A, r + 2) == None
  {
    BroadcastDelivered(A, r, msg, 0);
    forall a | 0 <= a < A.n
      ensures A.out(a, st(a)) == Some(Single(msg)(a))
    {
      assert Halts(A, st(a), msg, a);
    }
    OneRound(A, r, st, Single(msg));
    var heard := Heard(A, r + 1).value;
    forall a | 0 <= a < A.n
      ensures StateAfter(A, a, heard[a]) == None
    {
      BroadcastDelivered(A, r, msg, a);
      assert Halts(A, st(a), msg, a);
    }
    NoStateNoFinish(A, r + 1, heard);
  }

  lemma EndCompletes<M, L>(A: Machine<M, L>, st: nat -> L)
    requires A.n > 0 && After(A, A.rounds, st)
    requires forall a :: 0 <= a < A.n ==> A.out(a, st(a)) == Some([])
    ensures R.Completes(ProtocolOf(A))
  {
    forall a | 0 <= a < A.n
      ensures R.Computes(ProtocolOf(A), a, A.rounds, Heard(A, A.rounds).value[a])
    {
    }
  }

  // ----------------------------------------------------------------------------------------------
  // Every interleaving
  // ----------------------------------------------------------------------------------------------

  /** In every interleaving a party that has finished r rounds has been in the state the reference
      execution gives it after r rounds. */
  lemma StateAtRound<M, L>(A: Machine<M, L>, r: nat, st: nat -> L, schedule: seq<nat>, a: nat)
    requires R.WellFormed(ProtocolOf(A)) && a < A.n && r <= A.rounds
    requires Heard(A, r) == None || After(A, r, st)
    ensures |R.Run(ProtocolOf(A), schedule).parties| == A.n
    ensures
      var heard := R.Run(ProtocolOf(A), schedule).parties[a].heard;
      |heard| >= r ==> StateAfter(A, a, heard[..r]) == Some(st(a))
  {
    hide StateAfter;
    R.RunAgreesWithReference(ProtocolOf(A), schedule, a);
    var heard := R.Run(ProtocolOf(A), schedule).parties[a].heard;
    if |heard| >= r {
      R.SyncEarlier(ProtocolOf(A), r, |heard|);
      R.SyncPrefix(ProtocolOf(A), r, |heard|, a);
    }
  }

  /** Nobody panics before or in a round that the reference execution reaches and sends in. */
  lemma NoPanicUpTo<M, L>(A: Machine<M, L>, r: nat, st: nat -> L, schedule: seq<nat>, a: nat)
    requires R.WellFormed(ProtocolOf(A)) && a < A.n && r <= A.rounds && After(A, r, st)
    requires A.out(a, st(a)).Some? && |A.out(a, st(a)).value| == R.OutSize(ProtocolOf(A), r)
    ensures |R.Run(ProtocolOf(A), schedule).parties| == A.n
    ensures
      var p := R.Run(ProtocolOf(A), schedule).parties[a];
      |p.heard| <= r ==> !p.stage.Crashed?
  {
    var P := ProtocolOf(A);
    R.RunAgreesWithReference(P, schedule, a);
    var p := R.Run(P, schedule).parties[a];
    if |p.heard| < r {
      R.SyncEarlier(P, |p.heard|, r);
    }
  }

  /** If the reference execution brings all parties to st, or lets nobody finish, then in every
      interleaving a party that is done is in that state, and only if the reference execution
      completes. */
  lemma DoneState<M, L>(A: Machine<M, L>, st: nat -> L, schedule: seq<nat>, a: nat)
    requires R.WellFormed(ProtocolOf(A)) && a < A.n
    requires R.Completes(ProtocolOf(A)) ==> After(A, A.rounds, st)
    requires R.Completes(ProtocolOf(A)) || NobodyFinishes(A)
    ensures |R.Run(ProtocolOf(A), schedule).parties| == A.n
    ensures
      var p := R.Run(ProtocolOf(A), schedule).parties[a];
      p.stage.Done? ==> R.Completes(ProtocolOf(A)) && StateAfter(A, a, p.heard) == Some(st(a))
  {
    hide R.Completes, StateAfter, R.Sync;
    R.RunAgreesWithReference(ProtocolOf(A), schedule, a);
    var p := R.Run(ProtocolOf(A), schedule).parties[a];
    if p.stage.Done? {
      assert R.Computes(ProtocolOf(A), a, A.rounds, Heard(A, A.rounds).value[a]);
    }
  }
}
