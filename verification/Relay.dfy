/** The message relay: rooms with append-only logs, subscriptions that replay and follow them, and
    the server's critical sections as atomic steps taken in any order. Counters are 16 bits wide and
    wrap around, as in the optimised build. */
module Relay {
  import opened Wrappers

  const U16: nat := 65536

  /** A room. `calls` counts the calls of notify_waiters; `id` and `issued` record for whom the room
      was made and the indices it has handed out. */
  datatype Room<+M> = Room(id: string, log: seq<M>, calls: nat, subscribers: nat, nextIdx: nat, issued: seq<nat>)

  function EmptyRoom<M>(id: string): Room<M> {
    Room(id, [], 0, 0, 1, [])
  }

  predicate Abandoned<M>(r: Room<M>) {
    r.subscribers == 0
  }

  function Published<M>(r: Room<M>, msg: M): Room<M> {
    r.(log := r.log + [msg], calls := r.calls + 1)
  }

  function Entered<M>(r: Room<M>): Room<M> {
    r.(subscribers := (r.subscribers + 1) % U16)
  }

  function Departed<M>(r: Room<M>): Room<M> {
    r.(subscribers := (r.subscribers + U16 - 1) % U16)
  }

  function Issued<M>(r: Room<M>): Room<M> {
    r.(nextIdx := (r.nextIdx + 1) % U16, issued := r.issued + [r.nextIdx])
  }

  /** The first event of a subscription that resumes after the given one. */
  function Resume(last: Option<nat>): (next: nat)
    ensures next < U16
  {
    if last.None? then 0 else (last.value + 1) % U16
  }

  /** A subscription to the room with number `room`. `waiting` is the call count at which the pending
      notification was created; `got` records what it has returned since it began at `start`. */
  datatype Sub<+M> = Sub(room: nat, start: nat, next: nat, waiting: Option<nat>, alive: bool, got: seq<(nat, M)>)

  /** All rooms ever made, the current room of each id, and all subscriptions ever made. */
  datatype State<M> = State(heap: seq<Room<M>>, rooms: map<string, nat>, subs: seq<Sub<M>>)

  function Init<M>(): State<M> {
    State([], map[], [])
  }

  // ----------------------------------------------------------------------------------------------
  // Steps
  // ----------------------------------------------------------------------------------------------

  predicate Live<M>(s: State<M>, id: string) {
    id in s.rooms && s.rooms[id] < |s.heap| && !Abandoned(s.heap[s.rooms[id]])
  }

  /** The current room of an id if somebody is subscribed to it, else a fresh one. */
  function LookUp<M>(s: State<M>, id: string): (State<M>, nat) {
    if Live(s, id) then (s, s.rooms[id])
    else (State(s.heap + [EmptyRoom(id)], s.rooms[id := |s.heap|], s.subs), |s.heap|)
  }

  /** The part of the lookup under the read lock; None means that it has to take the write lock. */
  function ReadPhase<M>(s: State<M>, id: string): Option<nat> {
    if id in s.rooms && s.rooms[id] < |s.heap| then
      if !Abandoned(s.heap[s.rooms[id]]) then Some(s.rooms[id]) else None
    else None
  }

  /** The part under the write lock, in a state that others may have changed since the read phase. */
  function WritePhase<M>(s: State<M>, id: string): (State<M>, nat) {
    var made := State(s.heap + [EmptyRoom(id)], s.rooms[id := |s.heap|], s.subs);
    if id in s.rooms then
      if s.rooms[id] < |s.heap| && !Abandoned(s.heap[s.rooms[id]]) then (s, s.rooms[id]) else (made, |s.heap|)
    else (made, |s.heap|)
  }

  /** The two-phase lookup is the one-step lookup at the moment of the phase that decides. */
  lemma TwoPhaseLookup<M>(s: State<M>, s': State<M>, id: string)
    ensures ReadPhase(s, id).Some? <==> LookUp(s, id).0 == s
    ensures ReadPhase(s, id).Some? ==> LookUp(s, id) == (s, ReadPhase(s, id).value)
    ensures WritePhase(s', id) == LookUp(s', id)
  {
    if !Live(s, id) {
      assert |LookUp(s, id).0.heap| == |s.heap| + 1;
    }
  }

  function SubscribeTo<M>(s: State<M>, ref: nat, last: Option<nat>): State<M>
    requires ref < |s.heap|
  {
    State(s.heap[ref := Entered(s.heap[ref])], s.rooms, s.subs + [Sub(ref, Resume(last), Resume(last), None, true, [])])
  }

  /** One turn of the loop in Subscription::next, under the read lock: it returns the next entry of
      the log, or creates a notification; a pending notification is awaited first. */
  function Polled<M>(room: Room<M>, sub: Sub<M>): Sub<M> {
    if sub.waiting == Some(room.calls) then sub
    else if sub.next < |room.log| then
      sub.(next := (sub.next + 1) % U16, waiting := None, got := sub.got + [(sub.next, room.log[sub.next])])
    else sub.(waiting := Some(room.calls))
  }

  /** References to rooms are numbers in the heap, obtained by an earlier lookup. Join is a lookup and
      a subscription in one step; SubscribeAt is the subscription alone. */
  datatype Action<M> =
    | Find(id: string)
    | Join(id: string, last: Option<nat>)
    | SubscribeAt(ref: nat, last: Option<nat>)
    | Publish(ref: nat, msg: M)
    | Issue(ref: nat)
    | Poll(sub: nat)
    | Drop(sub: nat)

  function Step<M>(s: State<M>, a: Action<M>): State<M> {
    match a
    case Find(id) => LookUp(s, id).0
    case Join(id, last) => SubscribeTo(LookUp(s, id).0, LookUp(s, id).1, last)
    case SubscribeAt(ref, last) => if ref < |s.heap| then SubscribeTo(s, ref, last) else s
    case Publish(ref, msg) => if ref < |s.heap| then s.(heap := s.heap[ref := Published(s.heap[ref], msg)]) else s
    case Issue(ref) => if ref < |s.heap| then s.(heap := s.heap[ref := Issued(s.heap[ref])]) else s
    case Poll(i) =>
      if i < |s.subs| && s.subs[i].alive && s.subs[i].room < |s.heap| then
        s.(subs := s.subs[i := Polled(s.heap[s.subs[i].room], s.subs[i])])
      else s
    case Drop(i) =>
      if i < |s.subs| && s.subs[i].alive && s.subs[i].room < |s.heap| then
        var r := s.subs[i].room;
        State(s.heap[r := Departed(s.heap[r])], s.rooms, s.subs[i := s.subs[i].(alive := false)])
      else s
  }

  function Run<M>(s: State<M>, actions: seq<Action<M>>): State<M>
    decreases |actions|
  {
    if |actions| == 0 then s else Run(Step(s, actions[0]), actions[1..])
  }

  // ----------------------------------------------------------------------------------------------
  // The invariant of every run
  // ----------------------------------------------------------------------------------------------

  /** How many subscriptions to the room are alive. */
  function LiveCount<M>(subs: seq<Sub<M>>, r: nat): nat {
    if |subs| == 0 then 0
    else
      var last := subs[|subs| - 1];
      LiveCount(subs[..|subs| - 1], r) + if last.alive && last.room == r then 1 else 0
  }

  function Here<M>(sub: Sub<M>, r: nat): nat {
    if sub.alive && sub.room == r then 1 else 0
  }

  lemma {:induction false} LiveCountUpdate<M>(subs: seq<Sub<M>>, i: nat, sub: Sub<M>, r: nat)
    requires i < |subs|
    ensures LiveCount(subs[i := sub], r) == LiveCount(subs, r) - Here(subs[i], r) + Here(sub, r)
  {
    var n := |subs| - 1;
    if i < n {
      LiveCountUpdate(subs[..n], i, sub, r);
      assert subs[i := sub][..n] == subs[..n][i := sub];
    } else {
      assert subs[i := sub][..n] == subs[..n];
    }
  }

  lemma LiveCountAppend<M>(subs: seq<Sub<M>>, sub: Sub<M>, r: nat)
    ensures LiveCount(subs + [sub], r) == LiveCount(subs, r) + Here(sub, r)
  {
    assert (subs + [sub])[..|subs|] == subs;
  }

  lemma {:induction false} LiveCountPositive<M>(subs: seq<Sub<M>>, i: nat, r: nat)
    requires i < |subs| && subs[i].alive && subs[i].room == r
    ensures LiveCount(subs, r) > 0
  {
    if i < |subs| - 1 {
      LiveCountPositive(subs[..|subs| - 1], i, r);
    }
  }

  lemma {:induction false} NoRoomNoCount<M>(subs: seq<Sub<M>>, r: nat)
    requires forall i :: 0 <= i < |subs| ==> subs[i].room < r
    ensures LiveCount(subs, r) == 0
  {
    if |subs| > 0 {
      NoRoomNoCount(subs[..|subs| - 1], r);
    }
  }

  /** What a subscription has returned are the log entries from its start on, one after the other; the
      position wraps at 16 bits. A pending notification was created when the log had no entry to
      return, and the log has one only if notify_waiters was called since. */
  ghost predicate SubOk<M>(room: Room<M>, sub: Sub<M>) {
    && sub.start < U16
    && sub.next == (sub.start + |sub.got|) % U16
    && (forall k :: 0 <= k < |sub.got| ==>
          && sub.got[k].0 == (sub.start + k) % U16 < |room.log|
          && sub.got[k].1 == room.log[(sub.start + k) % U16])
    && (sub.waiting.Some? ==> sub.waiting.value <= room.calls && (sub.waiting.value == room.calls ==> sub.next >= |room.log|))
  }

  /** The counters of a room count what they are meant to count, modulo 2^16. */
  ghost predicate RoomOk<M>(room: Room<M>, live: nat) {
    && room.subscribers == live % U16
    && room.nextIdx == (|room.issued| + 1) % U16
    && forall k :: 0 <= k < |room.issued| ==> room.issued[k] == (k + 1) % U16
  }

  ghost predicate Invariant<M>(s: State<M>) {
    && (forall id :: id in s.rooms ==> s.rooms[id] < |s.heap| && s.heap[s.rooms[id]].id == id)
    && (forall i :: 0 <= i < |s.subs| ==> s.subs[i].room < |s.heap| && SubOk(s.heap[s.subs[i].room], s.subs[i]))
    && (forall r :: 0 <= r < |s.heap| ==> RoomOk(s.heap[r], LiveCount(s.subs, r)))
  }

  lemma PolledOk<M>(room: Room<M>, sub: Sub<M>)
    requires SubOk(room, sub)
    ensures SubOk(room, Polled(room, sub))
  {
    var sub', n := Polled(room, sub), |sub.got|;
    Successor(sub.start + n);
    if |sub'.got| > n {
      forall k | 0 <= k < |sub'.got|
        ensures sub'.got[k].0 == (sub.start + k) % U16 < |room.log| && sub'.got[k].1 == room.log[(sub.start + k) % U16]
      {
        assert k < n ==> sub'.got[k] == sub.got[k];
        assert k == n ==> sub'.got[k].0 == sub.next;
      }
    }
  }

  lemma Successor(k: nat)
    ensures (k % U16 + 1) % U16 == (k + 1) % U16
  {
  }

  lemma Small(k: nat)
    requires k < U16
    ensures k % U16 == k
  {
  }

  lemma CountWraps(live: nat)
    ensures (live % U16 + 1) % U16 == (live + 1) % U16
    ensures live > 0 ==> (live % U16 + U16 - 1) % U16 == (live - 1) % U16
  {
  }

  lemma PublishedOk<M>(room: Room<M>, msg: M, live: nat)
    requires RoomOk(room, live)
    ensures RoomOk(Published(room, msg), live)
  {
  }

  lemma IssuedOk<M>(room: Room<M>, live: nat)
    requires RoomOk(room, live)
    ensures RoomOk(Issued(room), live)
  {
    Successor(|room.issued| + 1);
    var issued := Issued(room).issued;
    forall k | 0 <= k < |issued|
      ensures issued[k] == (k + 1) % U16
    {
      if k < |room.issued| {
        assert issued[k] == room.issued[k];
      }
    }
  }

  lemma EnteredOk<M>(room: Room<M>, live: nat)
    requires RoomOk(room, live)
    ensures RoomOk(Entered(room), live + 1)
  {
    CountWraps(live);
  }

  lemma DepartedOk<M>(room: Room<M>, live: nat)
    requires RoomOk(room, live) && live > 0
    ensures RoomOk(Departed(room), live - 1)
  {
    CountWraps(live);
  }

  /** Nothing a room goes through, short of being subscribed to or left, disturbs its subscriptions. */
  lemma RoomGrows<M>(room: Room<M>, room': Room<M>, sub: Sub<M>)
    requires SubOk(room, sub)
    requires room' == room || room' == Entered(room) || room' == Departed(room) || room' == Issued(room)
          || exists msg :: room' == Published(room, msg)
    ensures SubOk(room', sub)
  {
    assert room.log <= room'.log;
    forall k | 0 <= k < |sub.got|
      ensures sub.got[k].0 == (sub.start + k) % U16 < |room'.log| && sub.got[k].1 == room'.log[(sub.start + k) % U16]
    {
      var pos := sub.got[k].0;
      assert room'.log[pos] == room.log[pos];
    }
  }

  lemma EmptyRoomOk<M>(id: string)
    ensures RoomOk(EmptyRoom<M>(id), 0)
  {
  }

  lemma LookUpInvariant<M>(s: State<M>, id: string)
    requires Invariant(s)
    ensures Invariant(LookUp(s, id).0)
    ensures LookUp(s, id).1 < |LookUp(s, id).0.heap|
    ensures LookUp(s, id).0.heap[LookUp(s, id).1].id == id
    ensures id in LookUp(s, id).0.rooms && LookUp(s, id).0.rooms[id] == LookUp(s, id).1
  {
    hide SubOk, RoomOk, LiveCount;
    NoRoomNoCount(s.subs, |s.heap|);
    EmptyRoomOk<M>(id);
  }

  lemma NewSubOk<M>(room: Room<M>, ref: nat, last: Option<nat>)
    ensures SubOk(room, Sub(ref, Resume(last), Resume(last), None, true, []))
  {
  }

  lemma SubscribeInvariant<M>(s: State<M>, ref: nat, last: Option<nat>)
    requires Invariant(s) && ref < |s.heap|
    ensures Invariant(SubscribeTo(s, ref, last))
  {
    hide SubOk, RoomOk, LiveCount, Resume;
    var s' := SubscribeTo(s, ref, last);
    var sub := s'.subs[|s.subs|];
    forall r | 0 <= r < |s'.heap|
      ensures RoomOk(s'.heap[r], LiveCount(s'.subs, r))
    {
      LiveCountAppend(s.subs, sub, r);
      EnteredOk(s.heap[r], LiveCount(s.subs, r));
    }
    forall i | 0 <= i < |s'.subs|
      ensures s'.subs[i].room < |s'.heap| && SubOk(s'.heap[s'.subs[i].room], s'.subs[i])
    {
      if i < |s.subs| {
        RoomGrows(s.heap[s.subs[i].room], s'.heap[s.subs[i].room], s.subs[i]);
      } else {
        NewSubOk(s'.heap[ref], ref, last);
      }
    }
  }

  lemma PublishInvariant<M>(s: State<M>, ref: nat, msg: M)
    requires Invariant(s) && ref < |s.heap|
    ensures Invariant(Step(s, Publish(ref, msg)))
  {
    hide SubOk, RoomOk, LiveCount;
    var s' := Step(s, Publish(ref, msg));
    forall i | 0 <= i < |s'.subs|
      ensures SubOk(s'.heap[s'.subs[i].room], s'.subs[i])
    {
      RoomGrows(s.heap[s.subs[i].room], s'.heap[s.subs[i].room], s.subs[i]);
    }
    PublishedOk(s.heap[ref], msg, LiveCount(s.subs, ref));
  }

  lemma IssueInvariant<M>(s: State<M>, ref: nat)
    requires Invariant(s) && ref < |s.heap|
    ensures Invariant(Step(s, Issue(ref)))
  {
    hide SubOk, RoomOk, LiveCount;
    var s' := Step<M>(s, Issue(ref));
    forall i | 0 <= i < |s'.subs|
      ensures SubOk(s'.heap[s'.subs[i].room], s'.subs[i])
    {
      RoomGrows(s.heap[s.subs[i].room], s'.heap[s.subs[i].room], s.subs[i]);
    }
    IssuedOk(s.heap[ref], LiveCount(s.subs, ref));
  }

  lemma PollInvariant<M>(s: State<M>, i: nat)
    requires Invariant(s)
    ensures Invariant(Step(s, Poll(i)))
  {
    hide SubOk, RoomOk, LiveCount;
    var s' := Step<M>(s, Poll(i));
    if i < |s.subs| && s.subs[i].alive {
      var sub := s'.subs[i];
      PolledOk(s.heap[s.subs[i].room], s.subs[i]);
      forall r | 0 <= r < |s'.heap|
        ensures LiveCount(s'.subs, r) == LiveCount(s.subs, r)
      {
        LiveCountUpdate(s.subs, i, sub, r);
      }
    }
  }

  lemma DroppedOk<M>(room: Room<M>, sub: Sub<M>)
    requires SubOk(room, sub)
    ensures SubOk(room, sub.(alive := false))
  {
  }

  lemma DropInvariant<M>(s: State<M>, i: nat)
    requires Invariant(s)
    ensures Invariant(Step(s, Drop(i)))
  {
    hide SubOk, RoomOk, LiveCount;
    var s' := Step<M>(s, Drop(i));
    if i < |s.subs| && s.subs[i].alive {
      var ref := s.subs[i].room;
      LiveCountPositive(s.subs, i, ref);
      forall r | 0 <= r < |s'.heap|
        ensures RoomOk(s'.heap[r], LiveCount(s'.subs, r))
      {
        LiveCountUpdate(s.subs, i, s.subs[i].(alive := false), r);
        if r == ref {
          DepartedOk(s.heap[r], LiveCount(s.subs, r));
        }
      }
      forall k | 0 <= k < |s'.subs|
        ensures s'.subs[k].room < |s'.heap| && SubOk(s'.heap[s'.subs[k].room], s'.subs[k])
      {
        RoomGrows(s.heap[s.subs[k].room], s'.heap[s.subs[k].room], s.subs[k]);
        DroppedOk(s'.heap[s.subs[k].room], s.subs[k]);
      }
    }
  }

  lemma StepInvariant<M>(s: State<M>, a: Action<M>)
    requires Invariant(s)
    ensures Invariant(Step(s, a))
  {
    hide Invariant;
    match a
    case Find(id) => LookUpInvariant(s, id);
    case Join(id, last) =>
      LookUpInvariant(s, id);
      SubscribeInvariant(LookUp(s, id).0, LookUp(s, id).1, last);
    case SubscribeAt(ref, last) => if ref < |s.heap| { SubscribeInvariant(s, ref, last); }
    case Publish(ref, msg) => if ref < |s.heap| { PublishInvariant(s, ref, msg); }
    case Issue(ref) => if ref < |s.heap| { IssueInvariant(s, ref); }
    case Poll(i) => PollInvariant(s, i);
    case Drop(i) => DropInvariant(s, i);
  }

  lemma {:induction false} RunInvariant<M>(s: State<M>, actions: seq<Action<M>>)
    requires Invariant(s)
    ensures Invariant(Run(s, actions))
    decreases |actions|
  {
    if |actions| > 0 {
      StepInvariant(s, actions[0]);
      RunInvariant(Step(s, actions[0]), actions[1..]);
    }
  }

  lemma InitInvariant<M>()
    ensures Invariant(Init<M>())
  {
  }

  // ----------------------------------------------------------------------------------------------
  // What every run guarantees
  // ----------------------------------------------------------------------------------------------

  /** No lost wake-up: in every reachable state, a subscriber that waits on a notification created
      after the last call of notify_waiters has nothing to read; if there is something to read, the
      notification has been triggered and the next poll returns it; otherwise the next poll waits. */
  lemma NoLostWakeup<M>(actions: seq<Action<M>>, i: nat)
    requires i < |Run(Init(), actions).subs|
    ensures
      var s := Run(Init<M>(), actions);
      var sub := s.subs[i];
      && sub.room < |s.heap|
      && (sub.waiting == Some(s.heap[sub.room].calls) ==> sub.next >= |s.heap[sub.room].log|)
      && (sub.next < |s.heap[sub.room].log| ==>
            Polled(s.heap[sub.room], sub).got == sub.got + [(sub.next, s.heap[sub.room].log[sub.next])])
      && (sub.next >= |s.heap[sub.room].log| ==>
            Polled(s.heap[sub.room], sub) == sub.(waiting := Some(s.heap[sub.room].calls)))
  {
    InitInvariant<M>();
    RunInvariant(Init<M>(), actions);
  }

  /** What the subscription has returned are the entries of the log from its start on, each with its
      position. */
  ghost predicate IsSlice<M>(log: seq<M>, sub: Sub<M>) {
    && (|sub.got| > 0 ==> sub.start + |sub.got| <= |log|)
    && forall k {:trigger sub.got[k]} :: 0 <= k < |sub.got| ==> sub.start + k < |log| && sub.got[k] == (sub.start + k, log[sub.start + k])
  }

  lemma SliceOfLog<M>(room: Room<M>, sub: Sub<M>)
    requires SubOk(room, sub) && sub.start + |sub.got| <= U16
    ensures IsSlice(room.log, sub)
  {
    forall k | 0 <= k < |sub.got|
      ensures sub.start + k < |room.log| && sub.got[k] == (sub.start + k, room.log[sub.start + k])
    {
      assert sub.got[k].0 == (sub.start + k) % U16;
      Small(sub.start + k);
    }
    if |sub.got| > 0 {
      assert sub.got[|sub.got| - 1].0 == sub.start + |sub.got| - 1;
    }
  }

  /** A position wraps only in a log of at least 2^16 entries. */
  lemma OnlyLongLogsWrap<M>(room: Room<M>, sub: Sub<M>)
    requires SubOk(room, sub) && sub.start + |sub.got| > U16
    ensures |room.log| >= U16
  {
    var k := U16 - 1 - sub.start;
    assert sub.got[k].0 == (sub.start + k) % U16;
  }

  /** Subscription refinement: in every reachable state, what a subscription has returned is the slice
      of its room's log from its start on, with the position as the event id, as long as the positions
      stay within 16 bits; they do as long as the log has fewer than 2^16 entries. */
  lemma SubscriptionIsSlice<M>(actions: seq<Action<M>>, i: nat)
    requires i < |Run(Init(), actions).subs|
    ensures
      var s := Run(Init<M>(), actions);
      var sub := s.subs[i];
      && sub.room < |s.heap|
      && (|s.heap[sub.room].log| < U16 ==> sub.start + |sub.got| <= U16)
      && (sub.start + |sub.got| <= U16 ==> IsSlice(s.heap[sub.room].log, sub))
  {
    InitInvariant<M>();
    RunInvariant(Init<M>(), actions);
    var s := Run(Init<M>(), actions);
    var sub := s.subs[i];
    if sub.start + |sub.got| <= U16 {
      SliceOfLog(s.heap[sub.room], sub);
    } else {
      OnlyLongLogsWrap(s.heap[sub.room], sub);
    }
  }

  lemma WrapsAround<M>(room: Room<M>, sub: Sub<M>)
    requires SubOk(room, sub) && sub.start + |sub.got| > U16
    ensures |room.log| > 0 && sub.got[U16 - sub.start] == (0, room.log[0])
  {
    assert sub.got[U16 - sub.start].0 == (sub.start + (U16 - sub.start)) % U16;
  }

  /** Past the last 16-bit position the subscription starts again from the beginning of the log: the
      bound in SubscriptionIsSlice is exact. */
  lemma SubscriptionWraps<M>(actions: seq<Action<M>>, i: nat)
    requires i < |Run(Init(), actions).subs|
    ensures
      var s := Run(Init<M>(), actions);
      var sub := s.subs[i];
      sub.start + |sub.got| > U16 ==>
        sub.start < U16 && sub.room < |s.heap| && |s.heap[sub.room].log| > 0 && sub.got[U16 - sub.start] == (0, s.heap[sub.room].log[0])
  {
    InitInvariant<M>();
    RunInvariant(Init<M>(), actions);
    var s := Run(Init<M>(), actions);
    var sub := s.subs[i];
    if sub.start + |sub.got| > U16 {
      WrapsAround(s.heap[sub.room], sub);
    }
  }

  lemma IndicesOf<M>(room: Room<M>, live: nat)
    requires RoomOk(room, live)
    ensures |room.issued| < U16 <==> forall k :: 0 <= k < |room.issued| ==> room.issued[k] == k + 1
    ensures |room.issued| <= U16 <==> forall j, k :: 0 <= j < k < |room.issued| ==> room.issued[j] != room.issued[k]
  {
    var issued := room.issued;
    if |issued| >= U16 {
      assert issued[U16 - 1] == 0;
    }
    if |issued| > U16 {
      assert issued[0] == 1 && issued[U16] == 1;
    }
  }

  /** Index uniqueness: the k-th index a room issues is k, for k up to 65535; these are the only ones
      for which this holds, and 65536 is the most a room can issue without repeating one. */
  lemma IndicesIssued<M>(actions: seq<Action<M>>, r: nat)
    requires r < |Run(Init(), actions).heap|
    ensures
      var issued := Run(Init<M>(), actions).heap[r].issued;
      && (|issued| < U16 <==> forall k :: 0 <= k < |issued| ==> issued[k] == k + 1)
      && (|issued| <= U16 <==> forall j, k :: 0 <= j < k < |issued| ==> issued[j] != issued[k])
  {
    InitInvariant<M>();
    RunInvariant(Init<M>(), actions);
    var s := Run(Init<M>(), actions);
    IndicesOf(s.heap[r], LiveCount(s.subs, r));
  }

  /** Logs are append-only and rooms are never removed. */
  ghost predicate Extends<M>(s: State<M>, s': State<M>) {
    && |s.heap| <= |s'.heap|
    && forall r :: 0 <= r < |s.heap| ==> s.heap[r].id == s'.heap[r].id && s.heap[r].log <= s'.heap[r].log
  }

  lemma StepExtends<M>(s: State<M>, a: Action<M>)
    ensures Extends(s, Step(s, a))
  {
  }

  lemma {:induction false} LogsOnlyGrow<M>(s: State<M>, actions: seq<Action<M>>)
    ensures Extends(s, Run(s, actions))
    decreases |actions|
  {
    if |actions| > 0 {
      StepExtends(s, actions[0]);
      LogsOnlyGrow(Step(s, actions[0]), actions[1..]);
    }
  }

  // ----------------------------------------------------------------------------------------------
  // Live rooms are current
  // ----------------------------------------------------------------------------------------------

  /** Every room somebody is subscribed to is the current room of its id. */
  ghost predicate Current<M>(s: State<M>) {
    forall r :: 0 <= r < |s.heap| && LiveCount(s.subs, r) > 0 ==> s.heap[r].id in s.rooms && s.rooms[s.heap[r].id] == r
  }

  /** No room has as many subscriptions as would bring its 16-bit counter back to zero. */
  ghost predicate Uncrowded<M>(s: State<M>) {
    forall r :: 0 <= r < |s.heap| ==> LiveCount(s.subs, r) < U16
  }

  /** A subscription in a step of its own is to the room that is mapped for its id at that moment. */
  ghost predicate ToMapped<M>(s: State<M>, a: Action<M>) {
    a.SubscribeAt? && a.ref < |s.heap| ==> s.heap[a.ref].id in s.rooms && s.rooms[s.heap[a.ref].id] == a.ref
  }

  /** Every subscription is to a mapped room, as it is when joining is one step, and no room ever gets crowded. */
  ghost predicate Orderly<M>(s: State<M>, actions: seq<Action<M>>)
    decreases |actions|
  {
    Uncrowded(s) && (|actions| > 0 ==> ToMapped(s, actions[0]) && Orderly(Step(s, actions[0]), actions[1..]))
  }

  lemma LookUpCurrent<M>(s: State<M>, id: string)
    requires Invariant(s) && Current(s) && Uncrowded(s)
    ensures Current(LookUp(s, id).0) && Uncrowded(LookUp(s, id).0)
  {
    hide LiveCount, SubOk;
    NoRoomNoCount(s.subs, |s.heap|);
    if !Live(s, id) {
      forall r | 0 <= r < |s.heap| && LiveCount(s.subs, r) > 0
        ensures s.heap[r].id != id
      {
        assert RoomOk(s.heap[r], LiveCount(s.subs, r));
      }
    }
  }

  /** A subscription keeps all live rooms current if and only if it is to a current room. */
  lemma SubscribeCurrent<M>(s: State<M>, ref: nat, last: Option<nat>)
    requires Invariant(s) && Current(s) && ref < |s.heap|
    ensures Current(SubscribeTo(s, ref, last)) <==> s.heap[ref].id in s.rooms && s.rooms[s.heap[ref].id] == ref
  {
    var s' := SubscribeTo(s, ref, last);
    var sub := s'.subs[|s.subs|];
    forall r | 0 <= r < |s'.heap|
      ensures LiveCount(s'.subs, r) == LiveCount(s.subs, r) + if r == ref then 1 else 0
    {
      LiveCountAppend(s.subs, sub, r);
    }
    assert s'.heap[ref].id == s.heap[ref].id && LiveCount(s'.subs, ref) > 0;
  }

  lemma PollCurrent<M>(s: State<M>, i: nat)
    requires Current(s)
    ensures Current(Step(s, Poll(i)))
  {
    hide LiveCount;
    var s' := Step(s, Poll(i));
    if i < |s.subs| && s.subs[i].alive {
      forall r | 0 <= r < |s.heap|
        ensures LiveCount(s'.subs, r) == LiveCount(s.subs, r)
      {
        LiveCountUpdate(s.subs, i, s'.subs[i], r);
      }
    }
  }

  lemma DropCurrent<M>(s: State<M>, i: nat)
    requires Current(s)
    ensures Current(Step(s, Drop(i)))
  {
    hide LiveCount;
    var s' := Step(s, Drop(i));
    if i < |s.subs| && s.subs[i].alive {
      forall r | 0 <= r < |s.heap|
        ensures LiveCount(s'.subs, r) <= LiveCount(s.subs, r)
      {
        LiveCountUpdate(s.subs, i, s.subs[i].(alive := false), r);
      }
    }
  }

  lemma StepCurrent<M>(s: State<M>, a: Action<M>)
    requires Invariant(s) && Current(s) && Uncrowded(s) && ToMapped(s, a)
    ensures Current(Step(s, a))
  {
    hide LiveCount, SubOk, RoomOk;
    match a
    case Find(id) => LookUpCurrent(s, id);
    case Join(id, last) =>
      LookUpInvariant(s, id);
      LookUpCurrent(s, id);
      SubscribeCurrent(LookUp(s, id).0, LookUp(s, id).1, last);
    case Publish(ref, msg) =>
    case Issue(ref) =>
    case Poll(i) => PollCurrent(s, i);
    case Drop(i) => DropCurrent(s, i);
    case SubscribeAt(ref, last) => if ref < |s.heap| { SubscribeCurrent(s, ref, last); }
  }

  /** In every orderly run all live rooms stay current. */
  lemma {:induction false} LiveRoomsAreCurrent<M>(s: State<M>, actions: seq<Action<M>>)
    requires Invariant(s) && Current(s) && Orderly(s, actions)
    ensures Current(Run(s, actions)) && Invariant(Run(s, actions)) && Uncrowded(Run(s, actions))
    decreases |actions|
  {
    if |actions| > 0 {
      StepInvariant(s, actions[0]);
      StepCurrent(s, actions[0]);
      LiveRoomsAreCurrent(Step(s, actions[0]), actions[1..]);
    }
  }

  /** A lookup finds the live room of the id, unless its subscription counter has wrapped to zero. */
  lemma LookUpFindsLiveRoom<M>(s: State<M>, r: nat)
    requires Invariant(s) && Current(s) && r < |s.heap| && LiveCount(s.subs, r) > 0
    ensures LookUp(s, s.heap[r].id) == (s, r) <==> LiveCount(s.subs, r) % U16 != 0
  {
    assert RoomOk(s.heap[r], LiveCount(s.subs, r));
    TwoPhaseLookup(s, s, s.heap[r].id);
  }

  /** A lookup leads to the room of the id while its counter of subscriptions is not zero, and otherwise puts
      an empty room in its place, whose first index is 1; no room made before changes, whatever it holds. */
  lemma LookUpExactly<M>(actions: seq<Action<M>>, id: string)
    ensures
      var s := Run(Init<M>(), actions);
      var s' := Step(s, Find(id));
      var kept := id in s.rooms && s.rooms[id] < |s.heap| && LiveCount(s.subs, s.rooms[id]) % U16 != 0;
      && id in s'.rooms && s'.subs == s.subs && s.heap <= s'.heap
      && (forall other :: other != id ==> (other in s'.rooms <==> other in s.rooms) && (other in s.rooms ==> s'.rooms[other] == s.rooms[other]))
      && (kept ==> s' == s)
      && (!kept ==>
            && s'.rooms[id] == |s.heap| && |s'.heap| == |s.heap| + 1
            && s'.heap[|s.heap|].log == [] && s'.heap[|s.heap|].subscribers == 0 && s'.heap[|s.heap|].nextIdx == 1
            && s'.heap[|s.heap|].id == id)
  {
    hide Run, SubOk, LiveCount;
    InitInvariant<M>();
    RunInvariant(Init<M>(), actions);
    var s := Run(Init<M>(), actions);
    if id in s.rooms {
      assert RoomOk(s.heap[s.rooms[id]], LiveCount(s.subs, s.rooms[id]));
    }
  }

  /** A subscribed client that asks for an index under its room's id gets it from its own room, and it is
      one the room has not issued before. */
  lemma SubscribedClientGetsNewIndex<M>(s: State<M>, i: nat)
    requires Invariant(s) && Current(s) && Uncrowded(s) && i < |s.subs| && s.subs[i].alive
    requires |s.heap[s.subs[i].room].issued| < U16
    ensures LookUp(s, s.heap[s.subs[i].room].id) == (s, s.subs[i].room)
    ensures s.heap[s.subs[i].room].nextIdx !in s.heap[s.subs[i].room].issued
  {
    hide SubOk, RoomOk, LiveCount;
    var r := s.subs[i].room;
    LiveCountPositive(s.subs, i, r);
    Small(LiveCount(s.subs, r));
    LookUpFindsLiveRoom(s, r);
    NextIndexIsNew(s.heap[r], LiveCount(s.subs, r));
  }

  lemma NextIndexIsNew<M>(room: Room<M>, live: nat)
    requires RoomOk(room, live) && |room.issued| < U16
    ensures room.nextIdx !in room.issued
  {
    IssuedOk(room, live);
    IndicesOf(Issued(room), live);
    var issued := Issued(room).issued;
    assert issued[|room.issued|] == room.nextIdx;
    forall k | 0 <= k < |room.issued|
      ensures room.issued[k] != room.nextIdx
    {
      assert issued[k] == room.issued[k];
    }
  }

  /** All clients subscribed to rooms of one id are in the same room. */
  lemma OneLiveRoomPerId<M>(s: State<M>, i: nat, j: nat)
    requires Invariant(s) && Current(s) && i < |s.subs| && j < |s.subs| && s.subs[i].alive && s.subs[j].alive
    requires s.heap[s.subs[i].room].id == s.heap[s.subs[j].room].id
    ensures s.subs[i].room == s.subs[j].room
  {
    LiveCountPositive(s.subs, i, s.subs[i].room);
    LiveCountPositive(s.subs, j, s.subs[j].room);
  }

  /** With lookup and subscription in separate steps, a room made for one client is replaced by the
      lookup of the next before the first has subscribed, and the two are in different rooms. */
  lemma SplitJoinSeparatesClients()
    ensures
      var s := Run<int>(Init(), [Find("a"), Find("a"), SubscribeAt(0, None), SubscribeAt(1, None)]);
      !Current(s) && |s.subs| == 2 && s.subs[0].room != s.subs[1].room && s.heap[0].id == s.heap[1].id
  {
    var actions: seq<Action<int>> := [Find("a"), Find("a"), SubscribeAt(0, None), SubscribeAt(1, None)];
    var none := EmptyRoom<int>("a");
    var s0 := Init<int>();
    var s2 := Step(Step(s0, actions[0]), actions[1]);
    assert s2 == State([none, none], map["a" := 1], []);
    var s4 := Step(Step(s2, actions[2]), actions[3]);
    assert s4 == State([Entered(none), Entered(none)], map["a" := 1], [Sub(0, 0, 0, None, true, []), Sub(1, 0, 0, None, true, [])]);
    Unfold(s0, actions, 0);
    Unfold(s2, actions, 2);
    assert actions[0..] == actions;
    LiveCountPositive(s4.subs, 0, 0);
  }

  /** Clients that ask for their index before they subscribe can get the same one: nobody holds the room
      between the two requests, so it is replaced. */
  lemma IndexBeforeJoinRepeats()
    ensures
      var s := Run<int>(Init(), [Find("a"), Issue(0), Find("a"), Issue(1)]);
      |s.heap| == 2 && s.heap[0].id == s.heap[1].id && s.heap[0].issued == [1] == s.heap[1].issued
  {
    var actions: seq<Action<int>> := [Find("a"), Issue(0), Find("a"), Issue(1)];
    var one := Room("a", [], 0, 0, 2, [1]);
    var s0 := Init<int>();
    var s2, s4 := State([one], map["a" := 0], []), State([one, one], map["a" := 1], []);
    FirstIndex(s0, "a");
    FirstIndex(s2, "a");
    assert s2 == State(s0.heap + [one], s0.rooms["a" := 0], s0.subs);
    assert s4 == State(s2.heap + [one], s2.rooms["a" := 1], s2.subs);
    Unfold(s0, actions, 0);
    Unfold(s2, actions, 2);
    assert actions[0..] == actions;
  }

  lemma FirstIndex<M>(s: State<M>, id: string)
    requires !Live(s, id)
    ensures Step(Step(s, Find(id)), Issue(|s.heap|)) == State(s.heap + [Room(id, [], 0, 0, 2, [1])], s.rooms[id := |s.heap|], s.subs)
  {
    assert Issued(EmptyRoom<M>(id)).issued == [1];
  }

  lemma Unfold<M>(s: State<M>, actions: seq<Action<M>>, i: nat)
    requires i + 2 <= |actions|
    ensures Run(s, actions[i..]) == Run(Step(Step(s, actions[i]), actions[i + 1]), actions[i + 2..])
  {
    hide Step;
    assert actions[i..][0] == actions[i] && actions[i..][1..] == actions[i + 1..];
    assert actions[i + 1..][0] == actions[i + 1] && actions[i + 1..][1..] == actions[i + 2..];
  }
}
