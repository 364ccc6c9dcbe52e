/** What a client that subscribes, or subscribes again with the id of the last event it saw, is sent over
    a whole run of the relay. */
module Resumption {
  import opened Wrappers
  import opened Relay

  lemma {:induction false} RunSplit<M>(s: State<M>, a: seq<Action<M>>, b: seq<Action<M>>)
    ensures Run(s, a + b) == Run(Run(s, a), b)
    decreases |a|
  {
    hide Step;
    if |a| > 0 {
      RunSplit(Step(s, a[0]), a[1..], b);
      assert (a + b)[1..] == a[1..] + b;
    } else {
      assert a + b == b;
    }
  }

  /** A subscription stays one to the same room from the same start, and what it has returned stays. */
  ghost predicate KeepsSubs<M>(s: State<M>, s': State<M>) {
    && |s.subs| <= |s'.subs|
    && forall i :: 0 <= i < |s.subs| ==>
         s'.subs[i].room == s.subs[i].room && s'.subs[i].start == s.subs[i].start && s.subs[i].got <= s'.subs[i].got
  }

  lemma StepKeepsSubs<M>(s: State<M>, a: Action<M>)
    ensures KeepsSubs(s, Step(s, a))
  {
    hide Live;
  }

  lemma {:induction false} RunKeepsSubs<M>(s: State<M>, actions: seq<Action<M>>)
    ensures KeepsSubs(s, Run(s, actions))
    decreases |actions|
  {
    if |actions| > 0 {
      StepKeepsSubs(s, actions[0]);
      RunKeepsSubs(Step(s, actions[0]), actions[1..]);
    }
  }

  /** The action makes a new subscription of somebody who has seen the events up to `last`, or none. */
  ghost predicate Opens<M>(s: State<M>, a: Action<M>, last: Option<nat>) {
    (a.Join? && a.last == last) || (a.SubscribeAt? && a.ref < |s.heap| && a.last == last)
  }

  /** Where somebody who has seen the events up to `last` has to go on. */
  ghost predicate GoesOnAt(last: Option<nat>, from: nat) {
    && (last.None? ==> from == 0)
    && (last.Some? && last.value < U16 - 1 ==> from == last.value + 1)
    && (last.Some? && last.value == U16 - 1 ==> from == 0)
    && from < U16
  }

  lemma OpenedAt<M>(s: State<M>, a: Action<M>, last: Option<nat>)
    requires Invariant(s) && Opens(s, a, last)
    ensures
      var s' := Step(s, a);
      && |s'.subs| == |s.subs| + 1
      && var sub := s'.subs[|s.subs|];
         && GoesOnAt(last, sub.start) && sub.room < |s'.heap|
         && (a.Join? ==> s'.heap[sub.room].id == a.id) && (a.SubscribeAt? ==> sub.room == a.ref)
  {
    hide SubOk, RoomOk, LiveCount;
    if a.Join? {
      LookUpInvariant(s, a.id);
    }
  }

  lemma Opened<M>(before: seq<Action<M>>, a: Action<M>, after: seq<Action<M>>, last: Option<nat>)
    requires Opens(Run(Init(), before), a, last)
    ensures
      var i, s := |Run(Init<M>(), before).subs|, Run(Init<M>(), before + [a] + after);
      && Invariant(s) && i < |s.subs| && GoesOnAt(last, s.subs[i].start) && s.subs[i].room < |s.heap|
      && (a.Join? ==> s.heap[s.subs[i].room].id == a.id) && (a.SubscribeAt? ==> s.subs[i].room == a.ref)
  {
    hide Step, SubOk, RoomOk, LiveCount, Opens, GoesOnAt;
    var s0 := Run(Init<M>(), before);
    var s1 := Step(s0, a);
    InitInvariant<M>();
    RunInvariant(Init<M>(), before);
    StepInvariant(s0, a);
    RunInvariant(s1, after);
    OpenedAt(s0, a, last);
    RunSplit(Init<M>(), before, [a]);
    assert Run(s0, [a]) == s1;
    RunSplit(Init<M>(), before + [a], after);
    RunKeepsSubs(s1, after);
    LogsOnlyGrow(s1, after);
  }

  /** Resumption, over all runs: a subscription opened with last event k < 65535 has returned the entries of
      its room's log from position k + 1 on, in order, each once, and one opened without a last event those
      from position 0 on; an entry at a position up to k is never among them while positions stay within
      16 bits. The last event 65535 cannot be resumed from: the subscription starts again at position 0. As
      long as there is a next entry, the next turn of an open subscription returns it. */
  lemma ResumesAfter<M>(before: seq<Action<M>>, a: Action<M>, after: seq<Action<M>>, last: Option<nat>)
    requires (a.Join? || (a.SubscribeAt? && a.ref < |Run(Init(), before).heap|)) && a.last == last
    requires last.Some? ==> last.value < U16
    ensures
      var i, s := |Run(Init<M>(), before).subs|, Run(Init<M>(), before + [a] + after);
      && i < |s.subs| && s.subs[i].room < |s.heap|
      && (a.Join? ==> s.heap[s.subs[i].room].id == a.id) && (a.SubscribeAt? ==> s.subs[i].room == a.ref)
      && var got, log := s.subs[i].got, s.heap[s.subs[i].room].log;
         var from := if last.None? || last.value == 65535 then 0 else last.value + 1;
         && (from + |got| <= U16 ==>
              && (|got| > 0 ==> from + |got| <= |log|)
              && forall j {:trigger got[j]} :: 0 <= j < |got| ==> from + j < |log| && got[j] == (from + j, log[from + j]))
         && (s.subs[i].alive && from + |got| < U16 && from + |got| < |log| ==>
              |Step(s, Poll(i)).subs| > i && Step(s, Poll(i)).subs[i].got == got + [(from + |got|, log[from + |got|])])
  {
    hide Run, RoomOk, LiveCount, SubOk, Polled;
    Opened(before, a, after, last);
    var i, s := |Run(Init<M>(), before).subs|, Run(Init<M>(), before + [a] + after);
    var sub := s.subs[i];
    if sub.start + |sub.got| <= U16 {
      SliceOfLog(s.heap[sub.room], sub);
    }
    NextIs(s.heap[sub.room], sub);
  }

  lemma NextIs<M>(room: Room<M>, sub: Sub<M>)
    requires SubOk(room, sub)
    ensures sub.start + |sub.got| < U16 && sub.start + |sub.got| < |room.log| ==>
      Polled(room, sub).got == sub.got + [(sub.start + |sub.got|, room.log[sub.start + |sub.got|])]
  {
  }

  /** A client that leaves after event k and subscribes again with last event k has been sent, with both
      subscriptions together, one contiguous part of the log from its beginning: nothing twice and nothing
      left out. */
  lemma ReconnectIsSeamless<M>(before: seq<Action<M>>, first: Action<M>, between: seq<Action<M>>, second: Action<M>, after: seq<Action<M>>, k: nat)
    requires Opens(Run(Init(), before), first, None)
    requires k < U16 - 1 && Opens(Run(Init(), before + [first] + between), second, Some(k))
    ensures
      var s := Run(Init<M>(), before + [first] + between + [second] + after);
      var i, j := |Run(Init<M>(), before).subs|, |Run(Init<M>(), before + [first] + between).subs|;
      && i < j < |s.subs| && s.subs[i].room < |s.heap| && s.subs[j].room < |s.heap|
      && (s.subs[i].room == s.subs[j].room && k < |s.subs[i].got| && k + 1 + |s.subs[j].got| <= U16 ==>
           var sent, log := s.subs[i].got[..k + 1] + s.subs[j].got, s.heap[s.subs[i].room].log;
           |sent| <= |log| && |sent| == k + 1 + |s.subs[j].got| && forall p {:trigger sent[p]} :: 0 <= p < |sent| ==> sent[p] == (p, log[p]))
  {
    hide Run, RoomOk, LiveCount, SubOk, Opens;
    var rest := between + [second] + after;
    assert before + [first] + between + [second] + after == before + [first] + rest;
    Opened(before, first, rest, None);
    Opened(before, first, between, None);
    Opened(before + [first] + between, second, after, Some(k));
    var s := Run(Init<M>(), before + [first] + rest);
    var i, j := |Run(Init<M>(), before).subs|, |Run(Init<M>(), before + [first] + between).subs|;
    if s.subs[i].room == s.subs[j].room && k < |s.subs[i].got| && k + 1 + |s.subs[j].got| <= U16 {
      Joined(s.heap[s.subs[i].room], s.subs[i], s.subs[j], k);
    }
  }

  lemma Joined<M>(room: Room<M>, first: Sub<M>, second: Sub<M>, k: nat)
    requires SubOk(room, first) && SubOk(room, second)
    requires first.start == 0 && second.start == k + 1 && k < |first.got| && k + 1 + |second.got| <= U16
    ensures
      var sent := first.got[..k + 1] + second.got;
      && (forall p {:trigger sent[p]} :: 0 <= p < |sent| ==> p < |room.log| && sent[p] == (p, room.log[p]))
      && |sent| <= |room.log|
  {
    hide SubOk;
    SliceOfLog(room, second);
    BeginsAt0(room, first, k);
    var sent := first.got[..k + 1] + second.got;
    forall p | 0 <= p < |sent|
      ensures p < |room.log| && sent[p] == (p, room.log[p])
    {
      if p > k {
        assert sent[p] == second.got[p - (k + 1)];
      }
    }
  }

  lemma BeginsAt0<M>(room: Room<M>, sub: Sub<M>, k: nat)
    requires SubOk(room, sub) && sub.start == 0 && k < |sub.got| && k < U16
    ensures k < |room.log| && forall p {:trigger sub.got[p]} :: 0 <= p <= k ==> sub.got[p] == (p, room.log[p])
  {
    forall p | 0 <= p <= k
      ensures p < |room.log| && sub.got[p] == (p, room.log[p])
    {
      Small(p);
      assert sub.got[p].0 == (0 + p) % U16;
    }
    assert sub.got[k].0 == k;
  }
}
