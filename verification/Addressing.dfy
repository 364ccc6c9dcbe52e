/** What a client takes from a room's log when messages are addressed: the filter of join_computation on any
    log and over any run of the relay. */
module Addressing {
  import opened Wrappers
  import opened Online
  import Relay

  /** The positions are in order, and picked is what is at them. */
  ghost predicate PickedAt<T>(log: seq<T>, positions: seq<nat>, picked: seq<T>) {
    && |positions| == |picked|
    && (forall j :: 0 <= j < |positions| ==> positions[j] < |log| && picked[j] == log[positions[j]])
    && (forall i, j :: 0 <= i < j < |positions| ==> positions[i] < positions[j])
  }

  /** A client takes exactly the messages that others have sent to everybody or to it, each once and in the
      order of the log; messages to somebody else and its own it never takes. */
  lemma {:induction false} TakenIsAddressed<B>(index: nat, log: seq<Wire<B>>) returns (positions: seq<nat>)
    ensures PickedAt(log, positions, Kept(index, log))
    ensures forall p :: 0 <= p < |log| ==>
      (p in positions <==> log[p].sender != index && (log[p].receiver == None || log[p].receiver == Some(index)))
  {
    positions := [];
    if |log| > 0 {
      var n, front := |log| - 1, log[..|log| - 1];
      var before := TakenIsAddressed(index, front);
      PickedLonger(front, log, before, Kept(index, front));
      positions := before;
      if Accepts(index, log[n]) {
        PickedNext(log, before, Kept(index, front));
        positions := before + [n];
      }
      forall p | 0 <= p < |log|
        ensures p in positions <==> Accepts(index, log[p])
      {
        if p < n {
          assert log[p] == front[p];
        }
      }
    }
  }

  lemma PickedLonger<T>(front: seq<T>, log: seq<T>, positions: seq<nat>, picked: seq<T>)
    requires front <= log && PickedAt(front, positions, picked)
    ensures PickedAt(log, positions, picked)
    ensures forall p :: p in positions ==> p < |front|
  {
  }

  lemma PickedNext<T>(log: seq<T>, positions: seq<nat>, picked: seq<T>)
    requires |log| > 0 && PickedAt(log, positions, picked) && forall p :: p in positions ==> p < |log| - 1
    ensures PickedAt(log, positions + [|log| - 1], picked + [log[|log| - 1]])
    ensures |log| - 1 in positions + [|log| - 1]
  {
    forall i | 0 <= i < |positions|
      ensures positions[i] < |log| - 1
    {
      assert positions[i] in positions;
    }
  }

  /** Messages that are addressed to somebody else make no difference. */
  lemma {:induction false} OthersMailIgnored<B>(index: nat, log: seq<Wire<B>>, mail: Wire<B>, rest: seq<Wire<B>>)
    requires mail.receiver.Some? && mail.receiver.value != index
    ensures Kept(index, log + [mail] + rest) == Kept(index, log + rest)
    decreases |rest|
  {
    if |rest| == 0 {
      assert (log + [mail] + rest)[..|log|] == log && log + rest == log;
    } else {
      var n, front := |rest| - 1, rest[..|rest| - 1];
      assert (log + [mail] + rest)[..|log| + 1 + n] == log + [mail] + front;
      assert (log + rest)[..|log| + n] == log + front;
      OthersMailIgnored(index, log, mail, front);
    }
  }

  /** The messages of what a subscription has returned. */
  function MessagesIn<M>(got: seq<(nat, M)>): (msgs: seq<M>)
    ensures |msgs| == |got| && forall k :: 0 <= k < |got| ==> msgs[k] == got[k].1
  {
    seq(|got|, k requires 0 <= k < |got| => got[k].1)
  }

  /** Over any run of the relay, whatever others publish and to whom: the filter applied to what a client's
      subscription has returned is the filter applied to the log as far as it has read, as long as the log
      has fewer than 2^16 entries. */
  lemma SubscriptionDelivers<B>(actions: seq<Relay.Action<Wire<B>>>, i: nat, index: nat)
    requires i < |Relay.Run(Relay.Init(), actions).subs|
    ensures
      var s := Relay.Run(Relay.Init<Wire<B>>(), actions);
      var sub := s.subs[i];
      && sub.room < |s.heap|
      && (sub.start == 0 && |s.heap[sub.room].log| < Relay.U16 ==>
            && |sub.got| <= |s.heap[sub.room].log|
            && Kept(index, MessagesIn(sub.got)) == Kept(index, s.heap[sub.room].log[..|sub.got|]))
  {
    hide Relay.Init, Relay.Run;
    Relay.SubscriptionIsSlice(actions, i);
    var s := Relay.Run(Relay.Init<Wire<B>>(), actions);
    var sub := s.subs[i];
    var log := s.heap[sub.room].log;
    if sub.start == 0 && |log| < Relay.U16 {
      assert MessagesIn(sub.got) == log[..|sub.got|];
    }
  }
}
