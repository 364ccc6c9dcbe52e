/** The program of one party as a conversation with the store: round by round it sends what its state
    makes it send, hears its peers and goes on. */
module Conversations {
  import opened Wrappers
  import opened Machines
  import opened Transport
  import opened Exchanges
  import R = Rounds

  /** The party in slot a is in state l after what it has heard, has sent all that was due before, and has
      left everything else as it was going to be. */
  ghost predicate Ready<M, L>(A: Machine<M, L>, a: nat, start: Store<M>, store: Store<M>, others: seq<Store<M>>, heard: seq<seq<M>>, l: L) {
    && a < A.n && R.WellFormed(ProtocolOf(A))
    && Talking(ProtocolOf(A), a, start, store, others, heard, |heard|)
    && StateAfter(A, a, heard) == Some(l)
  }

  /** The party has stopped: its computation has panicked on what it has heard, or it has sent its messages
      of the next round and polls for one that is not going to be in the store. */
  ghost predicate Stopped<M, L>(A: Machine<M, L>, a: nat, start: Store<M>, store: Store<M>, others: seq<Store<M>>, heard: seq<seq<M>>)
    requires A.n > 0
  {
    || (StateAfter(A, a, heard) == None && Talking(ProtocolOf(A), a, start, store, others, heard, |heard|))
    || (|heard| < A.rounds && Missing(ProtocolOf(A), a, |heard|, start)
        && Talking(ProtocolOf(A), a, start, store, others, heard, |heard| + 1))
  }

  lemma Advance<M, L>(A: Machine<M, L>, a: nat, heard: seq<seq<M>>, l: L, ans: seq<M>)
    requires StateAfter(A, a, heard) == Some(l)
    ensures StateAfter(A, a, heard + [ans]) == A.next(a, l, ans)
  {
    assert (heard + [ans])[..|heard|] == heard;
  }

  /** One round: the party sends what its state makes it send and, unless a message is missing, is in the
      next state of the machine. */
  method Converse<M, L>(A: Machine<M, L>, a: nat, c: StoreCommunity<M>, r: nat, out: seq<M>,
                        ghost start: Store<M>, ghost heard: seq<seq<M>>, ghost l: L)
    returns (ans: Option<seq<M>>)
    requires Ready(A, a, start, c.store, c.others, heard, l) && r == |heard| < A.rounds
    requires A.out(a, l) == Some(out) && |out| == R.OutSize(ProtocolOf(A), r)
    modifies c
    ensures ans.Some? ==>
      && |ans.value| == A.n - 1
      && Talking(ProtocolOf(A), a, start, c.store, c.others, heard + [ans.value], r + 1)
      && StateAfter(A, a, heard + [ans.value]) == A.next(a, l, ans.value)
    ensures ans.None? ==> Stopped(A, a, start, c.store, c.others, heard)
  {
    hide Talking, StateAfter, Missing;
    ans := Talk(c, ProtocolOf(A), a, r, out, start, heard);
    if ans.Some? {
      Advance(A, a, heard, l, ans.value);
    }
  }

  /** At the beginning nothing has been sent or heard. */
  lemma Beginning<M, L>(A: Machine<M, L>, a: nat, start: Store<M>, store: Store<M>, others: seq<Store<M>>)
    requires a < A.n && R.WellFormed(ProtocolOf(A)) && WellBehaved(ProtocolOf(A), a, store, others)
    requires OnlyOwn(ProtocolOf(A), a, start, Eventually(store, others))
    ensures Ready(A, a, start, store, others, [], A.start)
  {
    hide WellBehaved, OnlyOwn, Eventually;
  }

  /** The signup changes only the room's record. */
  lemma AfterSignup<M, L>(A: Machine<M, L>, a: nat, store: Store<M>, others: seq<Store<M>>, record: R.Entry<M>)
    requires a < A.n && R.WellFormed(ProtocolOf(A)) && WellBehaved(ProtocolOf(A), a, store, others)
    ensures Ready(A, a, Eventually(store, others), store[A.roomKey := record], others, [], A.start)
  {
    hide WellBehaved, Eventually, IsOwnKey;
    var P, store' := ProtocolOf(A), store[A.roomKey := record];
    assert OnlyOwn(P, a, store, store');
    StillWellBehaved(P, a, store, store', others);
    Beginning(A, a, Eventually(store, others), store', others);
  }
}
