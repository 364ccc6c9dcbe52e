/** The relay's objects: the database of rooms, a room, a subscription, and the server's handlers, each
    proved to take the corresponding step of the relay. */
module RelayServer {
  import opened Wrappers
  import Relay

  /** All messages of a list of batches. */
  function AllOf<M>(batches: seq<seq<M>>): seq<M> {
    if |batches| == 0 then [] else AllOf(batches[..|batches| - 1]) + batches[|batches| - 1]
  }

  class Room<M> {
    var messages: seq<M>
    var notifyCalls: nat
    var subscribers: nat
    var nextIdx: nat
    ghost var id: string
    ghost var issued: seq<nat>

    ghost function View(): Relay.Room<M>
      reads this
    {
      Relay.Room(id, messages, notifyCalls, subscribers, nextIdx, issued)
    }

    constructor (ghost id: string)
      ensures View() == Relay.EmptyRoom(id)
    {
      messages, notifyCalls, subscribers, nextIdx := [], 0, 0, 1;
      this.id, issued := id, [];
    }

    /** Appends the message and wakes the waiting subscribers, under the write lock. */
    method Publish(message: M)
      modifies this
      ensures View() == Relay.Published(old(View()), message)
    {
      messages := messages + [message];
      notifyCalls := notifyCalls + 1;
    }

    method IsAbandoned() returns (r: bool)
      ensures r <==> Relay.Abandoned(View())
    {
      r := subscribers == 0;
    }

    method IssueUniqueIdx() returns (idx: nat)
      modifies this
      ensures idx == old(nextIdx) && View() == Relay.Issued(old(View()))
    {
      idx := nextIdx;
      issued := issued + [idx];
      nextIdx := (nextIdx + 1) % Relay.U16;
    }

    method Subscribe(lastSeen: Option<nat>) returns (s: Subscription<M>)
      modifies this
      ensures fresh(s) && s.room == this
      ensures View() == Relay.Entered(old(View()))
      ensures forall ref: nat :: s.View(ref) == Relay.Sub(ref, Relay.Resume(lastSeen), Relay.Resume(lastSeen), None, true, [])
      ensures lastSeen.None? ==> s.nextEvent == 0
      ensures lastSeen.Some? && lastSeen.value < 65535 ==> s.nextEvent == lastSeen.value + 1
      ensures lastSeen == Some(65535) ==> s.nextEvent == 0
    {
      subscribers := (subscribers + 1) % Relay.U16;
      s := new Subscription(this, if lastSeen.None? then 0 else (lastSeen.value + 1) % Relay.U16);
      assert s.View(0).next == s.nextEvent;
    }
  }

  class Subscription<M> {
    const room: Room<M>
    var nextEvent: nat
    var waiting: Option<nat>
    var alive: bool
    ghost var start: nat
    ghost var got: seq<(nat, M)>

    ghost function View(ref: nat): Relay.Sub<M>
      reads this
    {
      Relay.Sub(ref, start, nextEvent, waiting, alive, got)
    }

    constructor (room: Room<M>, next: nat)
      ensures this.room == room
      ensures forall ref: nat :: View(ref) == Relay.Sub(ref, next, next, None, true, [])
    {
      this.room, nextEvent, waiting, alive := room, next, None, true;
      start, got := next, [];
    }

    /** One turn of the loop in next: waits for a pending notification, then reads the log under the
        read lock and, if there is nothing to read, creates a notification before releasing it. */
    method Turn() returns (event: Option<(nat, M)>)
      requires alive
      modifies this
      ensures forall ref: nat :: View(ref) == Relay.Polled(room.View(), old(View(ref)))
      ensures event.Some? ==>
        && old(nextEvent) < |room.messages| && event.value == (old(nextEvent), room.messages[old(nextEvent)])
        && got == old(got) + [event.value] && nextEvent == (old(nextEvent) + 1) % Relay.U16
      ensures event.None? ==> got == old(got) && nextEvent == old(nextEvent)
      ensures alive
    {
      if waiting == Some(room.notifyCalls) {
        return None;
      }
      if nextEvent < |room.messages| {
        event := Some((nextEvent, room.messages[nextEvent]));
        nextEvent := (nextEvent + 1) % Relay.U16;
        got := got + [event.value];
        waiting := None;
      } else {
        event := None;
        waiting := Some(room.notifyCalls);
      }
    }

    /** The loop of next, the others publishing one batch of messages during each wait. However the
        messages are spread over the waits, it returns the next entry of the log, and keeps waiting only
        if there is going to be none. */
    method Next(arrivals: seq<seq<M>>) returns (event: Option<(nat, M)>)
      requires alive && Relay.SubOk(room.View(), View(0))
      modifies this, room
      ensures alive && Relay.SubOk(room.View(), View(0))
      ensures
        var all, next := old(room.messages) + AllOf(arrivals), old(nextEvent);
        && event == (if next < |all| then Some((next, all[next])) else None)
        && old(room.messages) <= room.messages <= all
        && got == old(got) + (if event.Some? then [event.value] else [])
        && nextEvent == (if event.Some? then (next + 1) % Relay.U16 else next)
        && (event.None? ==> room.messages == all)
      ensures room.subscribers == old(room.subscribers) && room.nextIdx == old(room.nextIdx)
    {
      hide Relay.SubOk, Relay.Polled, AllOf;
      var k := 0;
      AllOfNone(arrivals);
      AllGrows(arrivals, 0);
      while true
        invariant k <= |arrivals| && alive && Relay.SubOk(room.View(), View(0))
        invariant room.messages == old(room.messages) + AllOf(arrivals[..k])
        invariant got == old(got) && nextEvent == old(nextEvent)
        invariant room.subscribers == old(room.subscribers) && room.nextIdx == old(room.nextIdx)
        decreases |arrivals| - k
      {
        AllGrows(arrivals, k);
        Relay.PolledOk(room.View(), View(0));
        NothingMissed(room.View(), View(0));
        event := Turn();
        if event.Some? {
          return;
        }
        if k == |arrivals| {
          assert arrivals[..k] == arrivals;
          return;
        }
        PublishAll(arrivals[k]);
        AllOfNext(arrivals, k);
        k := k + 1;
      }
    }

    /** What the others publish during one wait. */
    method PublishAll(batch: seq<M>)
      requires Relay.SubOk(room.View(), View(0))
      modifies room
      ensures room.messages == old(room.messages) + batch && Relay.SubOk(room.View(), View(0))
      ensures room.subscribers == old(room.subscribers) && room.nextIdx == old(room.nextIdx)
    {
      hide Relay.SubOk;
      for i := 0 to |batch|
        invariant room.messages == old(room.messages) + batch[..i] && Relay.SubOk(room.View(), View(0))
        invariant room.subscribers == old(room.subscribers) && room.nextIdx == old(room.nextIdx)
      {
        ghost var before := room.View();
        room.Publish(batch[i]);
        Relay.RoomGrows(before, room.View(), View(0));
      }
    }

    method Drop()
      requires alive
      modifies this, room
      ensures room.View() == Relay.Departed(old(room.View()))
      ensures forall ref: nat :: View(ref) == old(View(ref)).(alive := false)
    {
      room.subscribers := (room.subscribers + Relay.U16 - 1) % Relay.U16;
      alive := false;
    }
  }

  /** The first few batches are a part of all. */
  lemma {:induction false} AllGrows<M>(batches: seq<seq<M>>, k: nat)
    requires k <= |batches|
    ensures AllOf(batches[..k]) <= AllOf(batches)
    decreases |batches|
  {
    if k < |batches| {
      var front := batches[..|batches| - 1];
      assert front[..k] == batches[..k];
      AllGrows(front, k);
    } else {
      assert batches[..k] == batches;
    }
  }

  lemma AllOfNone<M>(batches: seq<seq<M>>)
    ensures AllOf(batches[..0]) == []
  {
  }

  lemma AllOfNext<M>(batches: seq<seq<M>>, k: nat)
    requires k < |batches|
    ensures AllOf(batches[..k + 1]) == AllOf(batches[..k]) + batches[k]
  {
    assert batches[..k + 1][..k] == batches[..k];
  }

  /** A turn that returns nothing has nothing to return. */
  lemma NothingMissed<M>(room: Relay.Room<M>, sub: Relay.Sub<M>)
    requires Relay.SubOk(room, sub)
    ensures Relay.Polled(room, sub).got == sub.got ==> sub.next >= |room.log|
  {
  }

  ghost predicate AllDifferent<T>(s: seq<T>) {
    forall i, j :: 0 <= i < j < |s| ==> s[i] != s[j]
  }

  /** The position of x in s. */
  ghost function Position<T>(s: seq<T>, x: T): (i: nat)
    ensures x in s ==> i < |s| && s[i] == x
  {
    if |s| == 0 || s[0] == x then 0 else 1 + Position(s[1..], x)
  }

  lemma {:induction false} PositionIs<T>(s: seq<T>, i: nat)
    requires AllDifferent(s) && i < |s|
    ensures Position(s, s[i]) == i
  {
    if i > 0 {
      PositionIs(s[1..], i - 1);
    }
  }

  lemma {:induction false} PositionAppend<T>(s: seq<T>, x: T, y: T)
    requires x in s
    ensures Position(s + [y], x) == Position(s, x)
  {
    if s[0] != x {
      assert (s + [y])[1..] == s[1..] + [y];
      PositionAppend(s[1..], x, y);
    }
  }

  lemma AppendDifferent<T>(s: seq<T>, x: T)
    requires AllDifferent(s) && x !in s
    ensures AllDifferent(s + [x])
    ensures Position(s + [x], x) == |s|
    ensures forall y :: y in s ==> Position(s + [x], y) == Position(s, y)
  {
    PositionIs(s + [x], |s|);
    forall y | y in s
      ensures Position(s + [x], y) == Position(s, y)
    {
      PositionAppend(s, y, x);
    }
  }

  datatype Request<+M> =
    | Subscribing(id: string, lastSeen: Option<nat>)
    | Indexing(id: string)
    | Broadcasting(id: string, message: M)

  /** The relay after the requests, each a lookup and the step it asks for. */
  ghost function Served<M>(s: Relay.State<M>, requests: seq<Request<M>>): Relay.State<M>
    decreases |requests|
  {
    if |requests| == 0 then s
    else
      var before := Served(s, requests[..|requests| - 1]);
      match requests[|requests| - 1]
      case Subscribing(id, lastSeen) => Relay.Step(before, Relay.Join(id, lastSeen))
      case Indexing(id) => var (found, ref) := Relay.LookUp(before, id); Relay.Step(found, Relay.Issue(ref))
      case Broadcasting(id, message) => var (found, ref) := Relay.LookUp(before, id); Relay.Step(found, Relay.Publish(ref, message))
  }

  /** The database; `heap` and `subs` list all rooms and subscriptions ever made. */
  class Db<M> {
    var rooms: map<string, Room<M>>
    ghost var heap: seq<Room<M>>
    ghost var subs: seq<Subscription<M>>

    ghost predicate Valid()
      reads this, heap, subs
    {
      && AllDifferent(heap) && AllDifferent(subs)
      && (forall id :: id in rooms ==> rooms[id] in heap)
      && (forall i :: 0 <= i < |subs| ==> subs[i].room in heap)
    }

    ghost function Abs(): Relay.State<M>
      reads this, heap, subs
    {
      Relay.State(
        seq(|heap|, i requires 0 <= i < |heap| reads this, heap => heap[i].View()),
        map id | id in rooms :: Position(heap, rooms[id]),
        seq(|subs|, i requires 0 <= i < |subs| reads this, subs => subs[i].View(Position(heap, subs[i].room))))
    }

    constructor ()
      ensures Valid() && Abs() == Relay.Init() && heap == [] && subs == []
    {
      rooms, heap, subs := map[], [], [];
    }

    /** The lookup under the read lock. */
    method ReadPhase(id: string) returns (room: Option<Room<M>>)
      requires Valid()
      ensures room.Some? ==> room.value in heap
      ensures Relay.ReadPhase(Abs(), id) == if room.Some? then Some(Position(heap, room.value)) else None
    {
      room := None;
      if id in rooms {
        var abandoned := rooms[id].IsAbandoned();
        if !abandoned {
          room := Some(rooms[id]);
        }
      }
    }

    /** The lookup under the write lock. */
    method WritePhase(id: string) returns (room: Room<M>)
      requires Valid()
      modifies this
      ensures Valid() && room in heap && subs == old(subs)
      ensures heap == old(heap) || (fresh(room) && heap == old(heap) + [room])
      ensures (Abs(), Position(heap, room)) == Relay.WritePhase(old(Abs()), id)
    {
      if id in rooms {
        var abandoned := rooms[id].IsAbandoned();
        if !abandoned {
          return rooms[id];
        }
      }
      ghost var s := Abs();
      room := new Room(id);
      AddRoom(id, room);
    }

    /** Makes a new room the current one of the id. */
    method AddRoom(id: string, room: Room<M>)
      requires Valid() && room !in heap && room.View() == Relay.EmptyRoom(id)
      modifies this
      ensures Valid() && heap == old(heap) + [room] && subs == old(subs)
      ensures Position(heap, room) == |old(heap)|
      ensures Abs() == Relay.State(old(Abs()).heap + [Relay.EmptyRoom(id)], old(Abs()).rooms[id := |old(heap)|], old(Abs()).subs)
    {
      hide Position, AllDifferent;
      ghost var s := Abs();
      AppendDifferent(heap, room);
      rooms := rooms[id := room];
      heap := heap + [room];
      assert Abs().heap == s.heap + [Relay.EmptyRoom(id)];
      assert Abs().rooms == s.rooms[id := |old(heap)|];
      assert Abs().subs == s.subs;
    }

    /** Both phases, with no other task in between. */
    method GetRoomOrCreateEmpty(id: string) returns (room: Room<M>)
      requires Valid()
      modifies this
      ensures Valid() && room in heap && subs == old(subs)
      ensures heap == old(heap) || (fresh(room) && heap == old(heap) + [room])
      ensures (Abs(), Position(heap, room)) == Relay.LookUp(old(Abs()), id)
    {
      Relay.TwoPhaseLookup(Abs(), Abs(), id);
      var found := ReadPhase(id);
      if found.Some? {
        return found.value;
      }
      room := WritePhase(id);
    }

    /** The two phases with the requests of others served in between: the outcome is the one-step lookup
        at the moment of the phase that decides. */
    method GetRoomMeanwhile(id: string, meanwhile: seq<Request<M>>) returns (room: Room<M>)
      requires Valid()
      modifies this, heap
      ensures Valid() && room in heap
      ensures Relay.ReadPhase(old(Abs()), id).Some? ==> (Abs(), Position(heap, room)) == Relay.LookUp(old(Abs()), id)
      ensures Relay.ReadPhase(old(Abs()), id).None? ==>
        (Abs(), Position(heap, room)) == Relay.LookUp(Served(old(Abs()), meanwhile), id)
    {
      hide Abs, Served;
      Relay.TwoPhaseLookup(Abs(), Served(Abs(), meanwhile), id);
      var found := ReadPhase(id);
      if found.Some? {
        return found.value;
      }
      Serve(meanwhile);
      room := WritePhase(id);
    }

    /** Serves the requests of others, one after the other. */
    method Serve(requests: seq<Request<M>>)
      requires Valid()
      modifies this, heap
      ensures Valid() && old(heap) <= heap && (forall i :: |old(heap)| <= i < |heap| ==> fresh(heap[i]))
      ensures Abs() == Served(old(Abs()), requests)
    {
      hide Abs;
      for i := 0 to |requests|
        invariant Valid() && old(heap) <= heap && (forall i :: |old(heap)| <= i < |heap| ==> fresh(heap[i]))
        invariant Abs() == Served(old(Abs()), requests[..i])
      {
        assert requests[..i + 1][..i] == requests[..i];
        match requests[i] {
          case Subscribing(id, lastSeen) => var _ := Subscribe(id, lastSeen);
          case Indexing(id) => var _ := IssueIdx(id);
          case Broadcasting(id, message) => Broadcast(id, message);
        }
      }
      assert requests[..|requests|] == requests;
    }

    // The critical sections on a room obtained from a lookup

    method SubscribeAt(room: Room<M>, lastSeen: Option<nat>) returns (s: Subscription<M>)
      requires Valid() && room in heap
      modifies this, room
      ensures Valid() && fresh(s) && heap == old(heap) && subs == old(subs) + [s] && rooms == old(rooms)
      ensures Abs() == Relay.Step(old(Abs()), Relay.SubscribeAt(Position(heap, room), lastSeen))
    {
      hide Relay.Resume;
      ghost var before, ref := Abs(), Position(heap, room);
      s := room.Subscribe(lastSeen);
      subs := subs + [s];
      assert Abs().heap == before.heap[ref := Relay.Entered(before.heap[ref])];
      assert Abs().subs == before.subs + [s.View(ref)];
      assert Abs().rooms == before.rooms;
    }

    method IssueAt(room: Room<M>) returns (idx: nat)
      requires Valid() && room in heap
      modifies room
      ensures Valid() && idx == old(room.nextIdx)
      ensures Abs() == Relay.Step(old(Abs()), Relay.Issue(Position(heap, room)))
    {
      ghost var before, ref := Abs(), Position(heap, room);
      idx := room.IssueUniqueIdx();
      assert Abs().heap == before.heap[ref := Relay.Issued(before.heap[ref])];
      assert Abs().subs == before.subs;
      assert Abs().rooms == before.rooms;
    }

    method PublishAt(room: Room<M>, message: M)
      requires Valid() && room in heap
      modifies room
      ensures Valid()
      ensures Abs() == Relay.Step(old(Abs()), Relay.Publish(Position(heap, room), message))
    {
      ghost var before, ref := Abs(), Position(heap, room);
      room.Publish(message);
      assert Abs().heap == before.heap[ref := Relay.Published(before.heap[ref], message)];
      assert Abs().subs == before.subs;
      assert Abs().rooms == before.rooms;
    }

    // The handlers of the server

    /** Joins the room of the id: lookup and subscription in one step. */
    method Subscribe(id: string, lastSeen: Option<nat>) returns (s: Subscription<M>)
      requires Valid()
      modifies this, heap
      ensures old(heap) <= heap && forall i :: |old(heap)| <= i < |heap| ==> fresh(heap[i])
      ensures Valid() && fresh(s) && subs == old(subs) + [s]
      ensures Abs() == Relay.Step(old(Abs()), Relay.Join(id, lastSeen))
    {
      hide Abs;
      var room := GetRoomOrCreateEmpty(id);
      HeapSize();
      s := SubscribeAt(room, lastSeen);
    }

    lemma HeapSize()
      ensures |Abs().heap| == |heap|
      ensures forall i :: 0 <= i < |heap| ==> Abs().heap[i] == heap[i].View()
    {
    }

    method IssueIdx(id: string) returns (idx: nat)
      requires Valid()
      modifies this, heap
      ensures old(heap) <= heap && forall i :: |old(heap)| <= i < |heap| ==> fresh(heap[i])
      ensures Valid() && subs == old(subs)
      ensures
        var (s, ref) := Relay.LookUp(old(Abs()), id);
        ref < |s.heap| && idx == s.heap[ref].nextIdx && Abs() == Relay.Step(s, Relay.Issue(ref))
    {
      hide Abs, Relay.Step;
      var room := GetRoomOrCreateEmpty(id);
      HeapSize();
      idx := IssueAt(room);
    }

    method Broadcast(id: string, message: M)
      requires Valid()
      modifies this, heap
      ensures old(heap) <= heap && forall i :: |old(heap)| <= i < |heap| ==> fresh(heap[i])
      ensures Valid() && subs == old(subs)
      ensures
        var (s, ref) := Relay.LookUp(old(Abs()), id);
        Abs() == Relay.Step(s, Relay.Publish(ref, message))
    {
      hide Abs, Relay.Step;
      var room := GetRoomOrCreateEmpty(id);
      PublishAt(room, message);
    }

    /** One turn of the event stream of a subscription. */
    method Stream(s: Subscription<M>) returns (event: Option<(nat, M)>)
      requires Valid() && s in subs && s.alive
      modifies s
      ensures Valid() && s.alive
      ensures Abs() == Relay.Step(old(Abs()), Relay.Poll(Position(subs, s)))
      ensures event.Some? ==> s.got == old(s.got) + [event.value]
      ensures event.None? ==> s.got == old(s.got)
    {
      ghost var before, i := Abs(), Position(subs, s);
      ghost var ref := Position(heap, s.room);
      event := s.Turn();
      assert Abs().subs == before.subs[i := Relay.Polled(before.heap[ref], before.subs[i])];
      assert Abs().heap == before.heap;
      assert Abs().rooms == before.rooms;
    }

    /** The client closes its event stream. */
    method Close(s: Subscription<M>)
      requires Valid() && s in subs && s.alive
      modifies s, s.room
      ensures Valid() && !s.alive
      ensures Abs() == Relay.Step(old(Abs()), Relay.Drop(Position(subs, s)))
    {
      ghost var before, i := Abs(), Position(subs, s);
      ghost var ref := Position(heap, s.room);
      s.Drop();
      assert Abs().heap == before.heap[ref := Relay.Departed(before.heap[ref])];
      assert Abs().subs == before.subs[i := before.subs[i].(alive := false)];
      assert Abs().rooms == before.rooms;
    }
  }
}
