/** The online stage of signing over the relay: every client joins the room, obtains an index,
    broadcasts its partial signature and takes the partial signatures of the others. */
module Online {
  import opened Wrappers
  import opened Schedules
  import M = Modular
  import Relay

  const U16: nat := Relay.U16

  datatype Wire<+B> = Wire(sender: nat, receiver: Option<nat>, body: B)

  /** The filter of join_computation: somebody else's message, to everybody or to this client. */
  predicate Accepts<B>(index: nat, msg: Wire<B>) {
    msg.sender != index && (msg.receiver.None? || msg.receiver == Some(index))
  }

  datatype Client<+B> =
    | Out
    | Joined(sub: nat)
    | Indexed(sub: nat, index: nat)
    | Collecting(sub: nat, index: nat, taken: seq<Wire<B>>)
    | Finished(index: nat, taken: seq<Wire<B>>, upto: nat)

  /** Client c broadcasts bodies[c]; `start` is the relay before the first client joins. */
  datatype Setup<B> = Setup(id: string, bodies: seq<B>, start: Relay.State<Wire<B>>)

  /** `joined`, `holders` and `order` list the clients in the order in which they joined, obtained an
      index and sent their message. */
  datatype System<B> = System(relay: Relay.State<Wire<B>>, clients: seq<Client<B>>, joined: seq<nat>, holders: seq<nat>, order: seq<nat>)

  function Init<B>(T: Setup<B>): System<B> {
    System(T.start, seq(|T.bodies|, _ => Out), [], [], [])
  }

  function Join<B>(T: Setup<B>, s: System<B>, c: nat): System<B>
    requires c < |s.clients|
  {
    s.(relay := Relay.Step(s.relay, Relay.Join(T.id, None)), clients := s.clients[c := Joined(|s.relay.subs|)], joined := s.joined + [c])
  }

  function ObtainIndex<B>(T: Setup<B>, s: System<B>, c: nat): System<B>
    requires c < |s.clients| && s.clients[c].Joined?
  {
    var (relay, ref) := Relay.LookUp(s.relay, T.id);
    if ref >= |relay.heap| then s
    else
      s.(relay := Relay.Step(relay, Relay.Issue(ref)),
         clients := s.clients[c := Indexed(s.clients[c].sub, relay.heap[ref].nextIdx)], holders := s.holders + [c])
  }

  function Send<B>(T: Setup<B>, s: System<B>, c: nat): System<B>
    requires c < |s.clients| && s.clients[c].Indexed? && c < |T.bodies|
  {
    var (relay, ref) := Relay.LookUp(s.relay, T.id);
    var index := s.clients[c].index;
    s.(relay := Relay.Step(relay, Relay.Publish(ref, Wire(index, None, T.bodies[c]))),
       clients := s.clients[c := Collecting(s.clients[c].sub, index, [])], order := s.order + [c])
  }

  /** One poll of the subscription; an accepted message is taken. */
  function Collect<B>(s: System<B>, c: nat): System<B>
    requires c < |s.clients| && s.clients[c].Collecting?
  {
    var cl := s.clients[c];
    var relay := Relay.Step(s.relay, Relay.Poll(cl.sub));
    if cl.sub < |s.relay.subs| && cl.sub < |relay.subs| && |relay.subs[cl.sub].got| > |s.relay.subs[cl.sub].got| then
      var got := relay.subs[cl.sub].got;
      var msg := got[|got| - 1].1;
      s.(relay := relay, clients := s.clients[c := Collecting(cl.sub, cl.index, if Accepts(cl.index, msg) then cl.taken + [msg] else cl.taken)])
    else s.(relay := relay)
  }

  /** The stream is dropped once all other messages have been taken. */
  function Leave<B>(s: System<B>, c: nat): System<B>
    requires c < |s.clients| && s.clients[c].Collecting?
  {
    var cl := s.clients[c];
    var upto := if cl.sub < |s.relay.subs| then s.relay.subs[cl.sub].next else 0;
    s.(relay := Relay.Step(s.relay, Relay.Drop(cl.sub)), clients := s.clients[c := Finished(cl.index, cl.taken, upto)])
  }

  function Step<B>(T: Setup<B>, s: System<B>, c: nat): System<B> {
    if c >= |s.clients| || c >= |T.bodies| then s
    else
      match s.clients[c]
      case Out => Join(T, s, c)
      case Joined(_) => ObtainIndex(T, s, c)
      case Indexed(_, _) => Send(T, s, c)
      case Collecting(_, _, taken) => if |taken| + 1 < |T.bodies| then Collect(s, c) else Leave(s, c)
      case Finished(_, _, _) => s
  }

  function RunFrom<B>(T: Setup<B>, s: System<B>, schedule: seq<nat>): System<B>
    decreases |schedule|
  {
    if |schedule| == 0 then s else RunFrom(T, Step(T, s, schedule[0]), schedule[1..])
  }

  function Run<B>(T: Setup<B>, schedule: seq<nat>): System<B> {
    RunFrom(T, Init(T), schedule)
  }

  // ----------------------------------------------------------------------------------------------
  // Rolls: lists of different clients
  // ----------------------------------------------------------------------------------------------

  ghost predicate Roll(l: seq<nat>, n: nat) {
    && (forall i :: 0 <= i < |l| ==> l[i] < n)
    && (forall i, j :: 0 <= i < j < |l| ==> l[i] != l[j])
  }

  ghost function Below(n: nat): (s: set<nat>)
    ensures forall k :: k in s <==> 0 <= k < n
    ensures |s| == n
  {
    if n == 0 then {} else Below(n - 1) + {n - 1}
  }

  ghost function Elements(l: seq<nat>): (s: set<nat>)
    ensures forall k :: k in s <==> k in l
  {
    if |l| == 0 then {} else Elements(l[..|l| - 1]) + {l[|l| - 1]}
  }

  lemma {:induction false} RollElements(l: seq<nat>, n: nat)
    requires Roll(l, n)
    ensures |Elements(l)| == |l| && Elements(l) <= Below(n)
  {
    if |l| > 0 {
      RollElements(l[..|l| - 1], n);
    }
  }

  lemma Subset(a: set<nat>, b: set<nat>)
    requires a <= b
    ensures |a| <= |b| && (|a| == |b| ==> a == b)
  {
    assert b == a + (b - a);
  }

  /** A roll of clients other than c has at most n - 1 entries; if it has that many, everybody else is
      on it. */
  lemma RollOfOthers(l: seq<nat>, n: nat, c: nat)
    requires Roll(l, n) && c < n && c !in l
    ensures |l| <= n - 1
    ensures |l| == n - 1 ==> forall d :: 0 <= d < n && d != c ==> d in l
  {
    hide Elements, Below;
    var all, others := Below(n), Below(n) - {c};
    assert Elements(l) <= others && |Elements(l)| == |l| by {
      RollElements(l, n);
    }
    assert all == others + {c} && |others| == n - 1;
    Subset(Elements(l), others);
    if |l| == n - 1 {
      forall d | 0 <= d < n && d != c
        ensures d in l
      {
        assert d in others;
      }
    }
  }

  lemma RollSize(l: seq<nat>, n: nat)
    requires Roll(l, n)
    ensures |l| <= n && (|l| == n ==> forall d :: 0 <= d < n ==> d in l)
  {
    RollElements(l, n);
    Subset(Elements(l), Below(n));
  }

  // ----------------------------------------------------------------------------------------------
  // What a client takes
  // ----------------------------------------------------------------------------------------------

  function Kept<B>(index: nat, log: seq<Wire<B>>): seq<Wire<B>> {
    if |log| == 0 then []
    else
      var last := log[|log| - 1];
      Kept(index, log[..|log| - 1]) + if Accepts(index, last) then [last] else []
  }

  function Others(c: nat, order: seq<nat>): seq<nat> {
    if |order| == 0 then []
    else Others(c, order[..|order| - 1]) + if order[|order| - 1] != c then [order[|order| - 1]] else []
  }

  lemma {:induction false} OthersRoll(c: nat, order: seq<nat>, n: nat)
    requires Roll(order, n)
    ensures Roll(Others(c, order), n) && c !in Others(c, order)
    ensures forall d :: d in Others(c, order) <==> d in order && d != c
    ensures c !in order ==> |Others(c, order)| == |order|
    ensures c in order ==> |Others(c, order)| == |order| - 1
  {
    if |order| > 0 {
      var last, front := order[|order| - 1], order[..|order| - 1];
      OthersRoll(c, front, n);
      assert last !in front;
      assert order == front + [last];
    }
  }

  /** The k-th log entry is the message of the k-th sender, under the index it holds. */
  ghost predicate EntryOk<B>(bodies: seq<B>, holders: seq<nat>, client: nat, msg: Wire<B>) {
    && client < |bodies| && 1 <= msg.sender <= |holders|
    && holders[msg.sender - 1] == client
    && msg.receiver == None && msg.body == bodies[client]
  }

  ghost predicate LogOk<B>(bodies: seq<B>, holders: seq<nat>, order: seq<nat>, log: seq<Wire<B>>) {
    |log| == |order| && forall k :: 0 <= k < |log| ==> EntryOk(bodies, holders, order[k], log[k])
  }

  /** The messages a client accepts are those of the others, in the order in which they were sent. */
  lemma {:induction false} KeptAreOthers<B>(bodies: seq<B>, holders: seq<nat>, order: seq<nat>, log: seq<Wire<B>>, index: nat, c: nat)
    requires LogOk(bodies, holders, order, log) && Roll(holders, |bodies|)
    requires 1 <= index <= |holders| && holders[index - 1] == c
    ensures LogOk(bodies, holders, Others(c, order), Kept(index, log))
  {
    if |log| > 0 {
      var n := |log| - 1;
      assert EntryOk(bodies, holders, order[n], log[n]);
      KeptAreOthers(bodies, holders, order[..n], log[..n], index, c);
      assert Accepts(index, log[n]) <==> order[n] != c;
    }
  }

  // ----------------------------------------------------------------------------------------------
  // The invariant
  // ----------------------------------------------------------------------------------------------

  /** The room of this run: the first one made after the start. */
  function Ref<B>(T: Setup<B>): nat {
    |T.start.heap|
  }

  /** At least one client, fewer than the 16-bit counters can count, and nobody in the room yet. */
  ghost predicate WellFormed<B>(T: Setup<B>) {
    0 < |T.bodies| < U16 && Relay.Invariant(T.start) && !Relay.Live(T.start, T.id)
  }

  predicate HasSub<B>(cl: Client<B>) {
    cl.Joined? || cl.Indexed? || cl.Collecting?
  }

  predicate HasIndex<B>(cl: Client<B>) {
    cl.Indexed? || cl.Collecting? || cl.Finished?
  }

  predicate HasSent<B>(cl: Client<B>) {
    cl.Collecting? || cl.Finished?
  }

  ghost predicate Listed<B>(s: System<B>, c: nat)
    requires c < |s.clients|
  {
    var cl := s.clients[c];
    && (!cl.Out? <==> c in s.joined)
    && (HasIndex(cl) <==> c in s.holders)
    && (HasSent(cl) <==> c in s.order)
  }

  /** The subscription is this client's own, in the room of the run, and in step with the log. */
  ghost predicate SubFits<B>(T: Setup<B>, s: System<B>, c: nat, i: nat) {
    && |T.start.subs| <= i < |T.start.subs| + |s.joined| == |s.relay.subs|
    && s.joined[i - |T.start.subs|] == c
    && s.relay.subs[i].room == Ref(T) < |s.relay.heap|
    && s.relay.subs[i].alive
    && s.relay.subs[i].next <= |s.relay.heap[Ref(T)].log|
  }

  ghost predicate ClientOk<B>(T: Setup<B>, s: System<B>, c: nat)
    requires c < |s.clients|
  {
    var cl := s.clients[c];
    && Listed(s, c)
    && (HasSub(cl) ==> SubFits(T, s, c, cl.sub))
    && (HasIndex(cl) ==> 1 <= cl.index <= |s.holders| && s.holders[cl.index - 1] == c)
    && ((cl.Joined? || cl.Indexed?) ==> s.relay.subs[cl.sub].next == 0)
    && (cl.Collecting? ==>
          && cl.taken == Kept(cl.index, s.relay.heap[Ref(T)].log[..s.relay.subs[cl.sub].next])
          && |cl.taken| < |T.bodies|)
    && (cl.Finished? ==>
          && Ref(T) < |s.relay.heap| && cl.upto <= |s.relay.heap[Ref(T)].log|
          && cl.taken == Kept(cl.index, s.relay.heap[Ref(T)].log[..cl.upto])
          && |cl.taken| == |T.bodies| - 1)
  }

  ghost predicate RoomOk<B>(T: Setup<B>, s: System<B>) {
    && Ref(T) < |s.relay.heap|
    && T.id in s.relay.rooms && s.relay.rooms[T.id] == Ref(T)
    && LogOk(T.bodies, s.holders, s.order, s.relay.heap[Ref(T)].log)
    && |s.relay.heap[Ref(T)].issued| == |s.holders|
  }

  ghost predicate Rolls<B>(T: Setup<B>, s: System<B>) {
    Roll(s.joined, |T.bodies|) && Roll(s.holders, |T.bodies|) && Roll(s.order, |T.bodies|)
  }

  ghost predicate RelayOk<B>(T: Setup<B>, s: System<B>) {
    && Relay.Invariant(s.relay)
    && |s.relay.subs| == |T.start.subs| + |s.joined|
    && (forall i :: 0 <= i < |T.start.subs| ==> s.relay.subs[i].room < Ref(T))
    && (if |s.joined| == 0 then s.relay == T.start && s.holders == [] && s.order == [] else RoomOk(T, s))
  }

  ghost predicate Invariant<B>(T: Setup<B>, s: System<B>) {
    && |s.clients| == |T.bodies|
    && Rolls(T, s) && RelayOk(T, s)
    && forall c :: 0 <= c < |s.clients| ==> ClientOk(T, s, c)
  }

  lemma InitInvariant<B>(T: Setup<B>)
    requires WellFormed(T)
    ensures Invariant(T, Init(T))
  {
  }

  /** A client that has finished has a message from everybody else, so everybody has sent. */
  lemma FinishedMeansAllSent<B>(T: Setup<B>, s: System<B>, c: nat)
    requires WellFormed(T) && Invariant(T, s) && c < |s.clients| && s.clients[c].Finished?
    ensures forall d :: 0 <= d < |s.clients| ==> d in s.order && HasSent(s.clients[d])
  {
    hide Relay.Invariant;
    var cl := s.clients[c];
    assert ClientOk(T, s, c);
    assert c in s.joined;
    TakenAreOthers(T, s, c, cl.index, cl.upto);
    var front := s.order[..cl.upto];
    OthersRoll(c, front, |T.bodies|);
    RollOfOthers(Others(c, front), |T.bodies|, c);
    forall d | 0 <= d < |s.clients|
      ensures d in s.order && HasSent(s.clients[d])
    {
      assert ClientOk(T, s, d);
      if d != c {
        assert d in front;
      }
    }
  }

  lemma TakenAreOthers<B>(T: Setup<B>, s: System<B>, c: nat, index: nat, upto: nat)
    requires RoomOk(T, s) && Rolls(T, s) && upto <= |s.relay.heap[Ref(T)].log|
    requires 1 <= index <= |s.holders| && s.holders[index - 1] == c
    ensures LogOk(T.bodies, s.holders, Others(c, s.order[..upto]), Kept(index, s.relay.heap[Ref(T)].log[..upto]))
  {
    KeptAreOthers(T.bodies, s.holders, s.order[..upto], s.relay.heap[Ref(T)].log[..upto], index, c);
  }

  lemma {:induction false} FewLive<M>(subs: seq<Relay.Sub<M>>, base: nat, r: nat)
    requires base <= |subs| && forall i :: 0 <= i < base ==> subs[i].room != r
    ensures Relay.LiveCount(subs, r) <= |subs| - base
  {
    if |subs| > base {
      FewLive(subs[..|subs| - 1], base, r);
    } else if |subs| > 0 {
      FewLive(subs[..|subs| - 1], base - 1, r);
    }
  }

  /** While anybody is subscribed, a lookup finds the room of the run. */
  lemma RoomIsFound<B>(T: Setup<B>, s: System<B>, c: nat)
    requires WellFormed(T) && Rolls(T, s) && RelayOk(T, s) && c < |s.clients| && HasSub(s.clients[c]) && SubFits(T, s, c, s.clients[c].sub)
    ensures Relay.LookUp(s.relay, T.id) == (s.relay, Ref(T))
  {
    hide Rolls, LogOk, Relay.SubOk, Relay.LiveCount;
    var r := Ref(T);
    assert |s.joined| > 0;
    Relay.LiveCountPositive(s.relay.subs, s.clients[c].sub, r);
    FewLive(s.relay.subs, |T.start.subs|, r);
    assert |s.joined| <= |T.bodies| by {
      JoinedSize(T, s);
    }
    Relay.Small(Relay.LiveCount(s.relay.subs, r));
    assert Relay.RoomOk(s.relay.heap[r], Relay.LiveCount(s.relay.subs, r));
  }

  lemma JoinedSize<B>(T: Setup<B>, s: System<B>)
    requires Rolls(T, s)
    ensures |s.joined| <= |T.bodies| && |s.holders| <= |T.bodies| && |s.order| <= |T.bodies|
  {
    RollSize(s.joined, |T.bodies|);
    RollSize(s.holders, |T.bodies|);
    RollSize(s.order, |T.bodies|);
  }

  /** The step of client c leaves the others alone: their subscriptions, their places on the lists and
      the part of the log they have seen. */
  ghost predicate Frame<B>(T: Setup<B>, s: System<B>, s': System<B>, c: nat) {
    && |s'.clients| == |s.clients|
    && (forall d :: 0 <= d < |s.clients| && d != c ==> s'.clients[d] == s.clients[d])
    && s.joined <= s'.joined && s.holders <= s'.holders && s.order <= s'.order
    && (forall d :: d != c ==> (d in s'.joined <==> d in s.joined) && (d in s'.holders <==> d in s.holders) && (d in s'.order <==> d in s.order))
    && |s'.relay.subs| == |T.start.subs| + |s'.joined|
    && (forall i :: |T.start.subs| <= i < |T.start.subs| + |s.joined| && i < |s.relay.subs| && s.joined[i - |T.start.subs|] != c ==>
          s'.relay.subs[i] == s.relay.subs[i])
    && (Ref(T) < |s.relay.heap| ==> Ref(T) < |s'.relay.heap| && s.relay.heap[Ref(T)].log <= s'.relay.heap[Ref(T)].log)
  }

  lemma OtherClientOk<B>(T: Setup<B>, s: System<B>, s': System<B>, c: nat, d: nat)
    requires |s.relay.subs| == |T.start.subs| + |s.joined|
    requires d < |s.clients| && d != c && ClientOk(T, s, d) && Frame(T, s, s', c)
    ensures ClientOk(T, s', d)
  {
    hide Kept;
    var cl := s.clients[d];
    if Ref(T) < |s.relay.heap| {
      var log, log' := s.relay.heap[Ref(T)].log, s'.relay.heap[Ref(T)].log;
      if cl.Collecting? {
        var k := s.relay.subs[cl.sub].next;
        assert log'[..k] == log[..k];
      }
      if cl.Finished? {
        assert log'[..cl.upto] == log[..cl.upto];
      }
    }
  }

  lemma ByFrame<B>(T: Setup<B>, s: System<B>, s': System<B>, c: nat)
    requires Invariant(T, s) && c < |s.clients| && Frame(T, s, s', c)
    requires Rolls(T, s') && RelayOk(T, s') && ClientOk(T, s', c)
    ensures Invariant(T, s')
  {
    hide ClientOk, Frame, Rolls, RoomOk, Relay.Invariant;
    assert |s'.clients| == |s.clients| by {
      FrameSize(T, s, s', c);
    }
    forall d | 0 <= d < |s'.clients|
      ensures ClientOk(T, s', d)
    {
      if d != c {
        OtherClientOk(T, s, s', c, d);
      }
    }
  }

  lemma FrameSize<B>(T: Setup<B>, s: System<B>, s': System<B>, c: nat)
    requires Frame(T, s, s', c)
    ensures |s'.clients| == |s.clients|
  {
  }

  // ----------------------------------------------------------------------------------------------
  // Every step keeps the invariant
  // ----------------------------------------------------------------------------------------------

  /** While somebody has not joined, the first who joined is still subscribed. */
  lemma SomebodyIsSubscribed<B>(T: Setup<B>, s: System<B>, c: nat) returns (d: nat)
    requires WellFormed(T) && Invariant(T, s) && c < |s.clients| && s.clients[c].Out? && |s.joined| > 0
    ensures d < |s.clients| && HasSub(s.clients[d]) && SubFits(T, s, d, s.clients[d].sub)
  {
    d := s.joined[0];
    assert ClientOk(T, s, d);
    if s.clients[d].Finished? {
      FinishedMeansAllSent(T, s, d);
      assert false;
    }
  }

  lemma RollAppend(l: seq<nat>, n: nat, c: nat)
    requires Roll(l, n) && c < n && c !in l
    ensures Roll(l + [c], n)
  {
  }

  /** What a step does to the relay, as far as this run is concerned. */
  lemma JoinRelay<B>(T: Setup<B>, s: System<B>, c: nat)
    requires WellFormed(T) && Invariant(T, s) && c < |s.clients| && s.clients[c].Out?
    ensures
      var r, r' := s.relay, Join(T, s, c).relay;
      && Relay.Invariant(r')
      && r'.subs == r.subs + [Relay.Sub(Ref(T), 0, 0, None, true, [])]
      && Ref(T) < |r'.heap| && T.id in r'.rooms && r'.rooms[T.id] == Ref(T)
      && (|s.joined| > 0 ==> Ref(T) < |r.heap| && r'.heap[Ref(T)] == Relay.Entered(r.heap[Ref(T)]))
      && (|s.joined| == 0 ==> r'.heap[Ref(T)] == Relay.Entered(Relay.EmptyRoom(T.id)))
  {
    hide ClientOk, Rolls, LogOk, Relay.Invariant;
    Relay.StepInvariant(s.relay, Relay.Join(T.id, None));
    if |s.joined| > 0 {
      var d := SomebodyIsSubscribed(T, s, c);
      RoomIsFound(T, s, d);
    } else {
      assert s.relay == T.start && !Relay.Live(T.start, T.id);
    }
  }

  lemma JoinKeeps<B>(T: Setup<B>, s: System<B>, c: nat)
    requires WellFormed(T) && Invariant(T, s) && c < |s.clients| && s.clients[c].Out?
    ensures Invariant(T, Join(T, s, c)) && Frame(T, s, Join(T, s, c), c)
  {
    hide LogOk, Kept, Relay.Invariant, Relay.Step;
    var s' := Join(T, s, c);
    assert ClientOk(T, s, c);
    JoinRelay(T, s, c);
    RollAppend(s.joined, |T.bodies|, c);
    EmptyLogOk(T.bodies);
    ByFrame(T, s, s', c);
  }

  lemma EmptyLogOk<B>(bodies: seq<B>)
    ensures LogOk(bodies, [], [], [])
  {
  }

  lemma LogKeeps<B>(bodies: seq<B>, holders: seq<nat>, order: seq<nat>, log: seq<Wire<B>>, c: nat)
    requires LogOk(bodies, holders, order, log)
    ensures LogOk(bodies, holders + [c], order, log)
  {
    forall k | 0 <= k < |log|
      ensures EntryOk(bodies, holders + [c], order[k], log[k])
    {
      assert EntryOk(bodies, holders, order[k], log[k]);
    }
  }

  lemma LogAppend<B>(bodies: seq<B>, holders: seq<nat>, order: seq<nat>, log: seq<Wire<B>>, c: nat, msg: Wire<B>)
    requires LogOk(bodies, holders, order, log) && EntryOk(bodies, holders, c, msg)
    ensures LogOk(bodies, holders, order + [c], log + [msg])
  {
  }

  lemma ObtainIndexKeeps<B>(T: Setup<B>, s: System<B>, c: nat)
    requires WellFormed(T) && Invariant(T, s) && c < |s.clients| && s.clients[c].Joined?
    ensures Invariant(T, ObtainIndex(T, s, c)) && Frame(T, s, ObtainIndex(T, s, c), c)
  {
    hide LogOk, Kept, Relay.Invariant;
    var s', r := ObtainIndex(T, s, c), Ref(T);
    assert ClientOk(T, s, c);
    RoomIsFound(T, s, c);
    Relay.StepInvariant(s.relay, Relay.Issue(r));
    RollAppend(s.holders, |T.bodies|, c);
    JoinedSize(T, s');
    NextIndex(s.relay, r);
    LogKeeps(T.bodies, s.holders, s.order, s.relay.heap[r].log, c);
    ByFrame(T, s, s', c);
  }

  lemma NextIndex<M>(s: Relay.State<M>, r: nat)
    requires Relay.Invariant(s) && r < |s.heap| && |s.heap[r].issued| + 1 < U16
    ensures s.heap[r].nextIdx == |s.heap[r].issued| + 1
  {
    assert Relay.RoomOk(s.heap[r], Relay.LiveCount(s.subs, r));
    Relay.Small(|s.heap[r].issued| + 1);
  }

  lemma SendKeeps<B>(T: Setup<B>, s: System<B>, c: nat)
    requires WellFormed(T) && Invariant(T, s) && c < |s.clients| && s.clients[c].Indexed?
    ensures Invariant(T, Send(T, s, c)) && Frame(T, s, Send(T, s, c), c)
  {
    hide LogOk, Relay.Invariant;
    var s', r, index := Send(T, s, c), Ref(T), s.clients[c].index;
    var msg := Wire(index, None, T.bodies[c]);
    assert ClientOk(T, s, c);
    RoomIsFound(T, s, c);
    Relay.StepInvariant(s.relay, Relay.Publish(r, msg));
    RollAppend(s.order, |T.bodies|, c);
    LogAppend(T.bodies, s.holders, s.order, s.relay.heap[r].log, c, msg);
    ByFrame(T, s, s', c);
  }

  lemma LeaveKeeps<B>(T: Setup<B>, s: System<B>, c: nat)
    requires WellFormed(T) && Invariant(T, s) && c < |s.clients| && s.clients[c].Collecting?
    requires |s.clients[c].taken| + 1 >= |T.bodies|
    ensures Invariant(T, Leave(s, c)) && Frame(T, s, Leave(s, c), c)
  {
    hide LogOk, Kept, Relay.Invariant;
    var s', r, i := Leave(s, c), Ref(T), s.clients[c].sub;
    assert ClientOk(T, s, c);
    Relay.StepInvariant(s.relay, Relay.Drop(i));
    assert s'.relay.heap[r].log == s.relay.heap[r].log && s'.relay.heap[r].issued == s.relay.heap[r].issued;
    ByFrame(T, s, s', c);
  }

  /** A poll takes the next entry of the log, if there is one: no notification is missed. */
  lemma PollReads<B>(room: Relay.Room<Wire<B>>, sub: Relay.Sub<Wire<B>>)
    requires Relay.SubOk(room, sub) && |room.log| < U16
    ensures
      var sub' := Relay.Polled(room, sub);
      && sub'.room == sub.room && sub'.alive == sub.alive
      && if sub.next < |room.log| then
           sub'.got == sub.got + [(sub.next, room.log[sub.next])] && sub'.next == sub.next + 1
         else sub'.got == sub.got && sub'.next == sub.next
  {
    if sub.next < |room.log| {
      Relay.Small(sub.next + 1);
    }
  }

  lemma KeptNext<B>(index: nat, log: seq<Wire<B>>, k: nat)
    requires k < |log|
    ensures Kept(index, log[..k + 1]) == if Accepts(index, log[k]) then Kept(index, log[..k]) + [log[k]] else Kept(index, log[..k])
  {
    assert log[..k + 1][..k] == log[..k];
  }

  lemma CollectRelay<B>(T: Setup<B>, s: System<B>, c: nat)
    requires WellFormed(T) && Invariant(T, s) && c < |s.clients| && s.clients[c].Collecting?
    ensures
      var cl, s' := s.clients[c], Collect(s, c);
      && |s.joined| > 0 && RoomOk(T, s) && SubFits(T, s, c, cl.sub)
      && var sub := s.relay.subs[cl.sub];
         var log := s.relay.heap[Ref(T)].log;
         var upto := if sub.next < |log| then sub.next + 1 else sub.next;
         var taken := if sub.next < |log| && Accepts(cl.index, log[sub.next]) then cl.taken + [log[sub.next]] else cl.taken;
         && cl.taken == Kept(cl.index, log[..sub.next])
         && (sub.next == |log| ==> s'.clients == s.clients)
         && (sub.next < |log| ==> s'.clients == s.clients[c := Collecting(cl.sub, cl.index, taken)])
         && s'.joined == s.joined && s'.holders == s.holders && s'.order == s.order
         && Relay.Invariant(s'.relay) && s'.relay.heap == s.relay.heap && s'.relay.rooms == s.relay.rooms
         && |s'.relay.subs| == |s.relay.subs|
         && (forall i :: 0 <= i < |s.relay.subs| && i != cl.sub ==> s'.relay.subs[i] == s.relay.subs[i])
         && s'.relay.subs[cl.sub].room == sub.room && s'.relay.subs[cl.sub].alive && s'.relay.subs[cl.sub].next == upto
  {
    hide Rolls, LogOk, Kept;
    var cl := s.clients[c];
    assert ClientOk(T, s, c);
    LogSize(T, s);
    Relay.StepInvariant(s.relay, Relay.Poll(cl.sub));
    PollReads(s.relay.heap[Ref(T)], s.relay.subs[cl.sub]);
  }

  lemma CollectKeeps<B>(T: Setup<B>, s: System<B>, c: nat)
    requires WellFormed(T) && Invariant(T, s) && c < |s.clients| && s.clients[c].Collecting?
    requires |s.clients[c].taken| + 1 < |T.bodies|
    ensures Invariant(T, Collect(s, c)) && Frame(T, s, Collect(s, c), c)
  {
    hide LogOk, Relay.Invariant, Kept, Rolls, Collect, Relay.LiveCount;
    var s', cl := Collect(s, c), s.clients[c];
    assert ClientOk(T, s, c);
    CollectRelay(T, s, c);
    var k, log := s.relay.subs[cl.sub].next, s.relay.heap[Ref(T)].log;
    if k < |log| {
      KeptNext(cl.index, log, k);
    }
    SameRolls(T, s, s');
    ByFrame(T, s, s', c);
  }

  lemma SameRolls<B>(T: Setup<B>, s: System<B>, s': System<B>)
    requires Rolls(T, s) && s'.joined == s.joined && s'.holders == s.holders && s'.order == s.order
    ensures Rolls(T, s')
  {
  }

  lemma LogSize<B>(T: Setup<B>, s: System<B>)
    requires WellFormed(T) && Invariant(T, s) && |s.joined| > 0
    ensures Ref(T) < |s.relay.heap| && |s.relay.heap[Ref(T)].log| < U16
  {
    JoinedSize(T, s);
  }

  lemma StepInvariant<B>(T: Setup<B>, s: System<B>, c: nat)
    requires WellFormed(T) && Invariant(T, s)
    ensures Invariant(T, Step(T, s, c))
    ensures c < |s.clients| && c < |T.bodies| && !s.clients[c].Finished? ==> Frame(T, s, Step(T, s, c), c)
  {
    hide Invariant;
    if c < |s.clients| && c < |T.bodies| {
      match s.clients[c]
      case Out => JoinKeeps(T, s, c);
      case Joined(_) => ObtainIndexKeeps(T, s, c);
      case Indexed(_, _) => SendKeeps(T, s, c);
      case Collecting(_, _, taken) => if |taken| + 1 < |T.bodies| { CollectKeeps(T, s, c); } else { LeaveKeeps(T, s, c); }
      case Finished(_, _, _) =>
    }
  }

  lemma {:induction false} RunFromInvariant<B>(T: Setup<B>, s: System<B>, schedule: seq<nat>)
    requires WellFormed(T) && Invariant(T, s)
    ensures Invariant(T, RunFrom(T, s, schedule))
    decreases |schedule|
  {
    if |schedule| > 0 {
      StepInvariant(T, s, schedule[0]);
      RunFromInvariant(T, Step(T, s, schedule[0]), schedule[1..]);
    }
  }

  lemma RunInvariant<B>(T: Setup<B>, schedule: seq<nat>)
    requires WellFormed(T)
    ensures Invariant(T, Run(T, schedule))
  {
    InitInvariant(T);
    RunFromInvariant(T, Init(T), schedule);
  }

  // ----------------------------------------------------------------------------------------------
  // Safety
  // ----------------------------------------------------------------------------------------------

  /** Clients with an index have different ones, between 1 and the number of clients. */
  lemma IndicesDiffer<B>(T: Setup<B>, schedule: seq<nat>, c: nat, d: nat)
    requires WellFormed(T) && c < d < |T.bodies|
    ensures |Run(T, schedule).clients| == |T.bodies|
    ensures
      var clients := Run(T, schedule).clients;
      HasIndex(clients[c]) && HasIndex(clients[d]) ==>
        && clients[c].index != clients[d].index
        && 1 <= clients[c].index <= |T.bodies| && 1 <= clients[d].index <= |T.bodies|
  {
    RunInvariant(T, schedule);
    var s := Run(T, schedule);
    assert ClientOk(T, s, c) && ClientOk(T, s, d);
    JoinedSize(T, s);
  }

  /** The messages of a list of senders, each under the sender's index and addressed to everybody. */
  ghost predicate MessagesOf<B>(T: Setup<B>, s: System<B>, senders: seq<nat>, taken: seq<Wire<B>>) {
    && |senders| == |taken|
    && forall k :: 0 <= k < |taken| ==>
         && senders[k] < |s.clients| && senders[k] < |T.bodies| && HasIndex(s.clients[senders[k]])
         && taken[k] == Wire(s.clients[senders[k]].index, None, T.bodies[senders[k]])
  }

  /** Everybody but c, each once. */
  ghost predicate EverybodyElse(senders: seq<nat>, n: nat, c: nat) {
    Roll(senders, n) && |senders| == n - 1 && forall d :: d in senders <==> 0 <= d < n && d != c
  }

  lemma SenderKnown<B>(T: Setup<B>, s: System<B>, client: nat, msg: Wire<B>)
    requires Invariant(T, s) && EntryOk(T.bodies, s.holders, client, msg)
    ensures HasIndex(s.clients[client]) && msg == Wire(s.clients[client].index, None, T.bodies[client])
  {
    assert client in s.holders;
    assert ClientOk(T, s, client);
  }

  /** Complete collection: whatever the order of joining, sending and reading, a client that finishes
      has taken exactly one partial signature from each other client and none of its own. */
  lemma CompleteCollection<B>(T: Setup<B>, schedule: seq<nat>, c: nat) returns (senders: seq<nat>)
    requires WellFormed(T) && c < |T.bodies|
    ensures |Run(T, schedule).clients| == |T.bodies|
    ensures Run(T, schedule).clients[c].Finished? ==>
      && EverybodyElse(senders, |T.bodies|, c)
      && MessagesOf(T, Run(T, schedule), senders, Run(T, schedule).clients[c].taken)
  {
    RunInvariant(T, schedule);
    var s := Run(T, schedule);
    var cl := s.clients[c];
    senders := [];
    if cl.Finished? {
      hide Relay.Invariant;
      assert ClientOk(T, s, c);
      assert c in s.joined;
      senders := Others(c, s.order[..cl.upto]);
      TakenAreOthers(T, s, c, cl.index, cl.upto);
      OthersRoll(c, s.order[..cl.upto], |T.bodies|);
      RollOfOthers(senders, |T.bodies|, c);
      forall k | 0 <= k < |cl.taken|
        ensures HasIndex(s.clients[senders[k]]) && cl.taken[k] == Wire(s.clients[senders[k]].index, None, T.bodies[senders[k]])
      {
        SenderKnown(T, s, senders[k], cl.taken[k]);
      }
    }
  }

  /** Nobody finishes before everybody has joined and sent, and until a client has finished the room
      it is subscribed to is the one a lookup finds, so it is not abandoned while somebody needs it. */
  lemma RoomOutlivesCollection<B>(T: Setup<B>, schedule: seq<nat>, c: nat)
    requires WellFormed(T) && c < |T.bodies|
    ensures |Run(T, schedule).clients| == |T.bodies|
    ensures
      var s := Run(T, schedule);
      && (s.clients[c].Finished? ==> forall d :: 0 <= d < |T.bodies| ==> HasSent(s.clients[d]))
      && (HasSub(s.clients[c]) ==>
            && Relay.LookUp(s.relay, T.id) == (s.relay, Ref(T))
            && s.clients[c].sub < |s.relay.subs| && s.relay.subs[s.clients[c].sub].room == Ref(T))
  {
    RunInvariant(T, schedule);
    var s := Run(T, schedule);
    assert ClientOk(T, s, c);
    if s.clients[c].Finished? {
      FinishedMeansAllSent(T, s, c);
    } else if HasSub(s.clients[c]) {
      RoomIsFound(T, s, c);
    }
  }

  // ----------------------------------------------------------------------------------------------
  // Progress
  // ----------------------------------------------------------------------------------------------

  predicate AllFinished<B>(s: System<B>) {
    forall c :: 0 <= c < |s.clients| ==> s.clients[c].Finished?
  }

  /** The client's next step brings it closer to its end. */
  ghost predicate Enabled<B>(T: Setup<B>, s: System<B>, c: nat) {
    c < |s.clients| && !s.clients[c].Finished? &&
    (s.clients[c].Collecting? ==>
      || |s.clients[c].taken| + 1 >= |T.bodies|
      || (s.clients[c].sub < |s.relay.subs| && Ref(T) < |s.relay.heap|
          && s.relay.subs[s.clients[c].sub].next < |s.relay.heap[Ref(T)].log|))
  }

  /** An upper bound on the steps a client still has to take. */
  ghost function Left<B>(T: Setup<B>, s: System<B>): nat -> int {
    (c: nat) =>
      if c >= |s.clients| then 0
      else
        match s.clients[c]
        case Out => |T.bodies| + 4
        case Joined(_) => |T.bodies| + 3
        case Indexed(_, _) => |T.bodies| + 2
        case Collecting(i, _, _) => if i < |s.relay.subs| then |T.bodies| + 1 - s.relay.subs[i].next else 0
        case Finished(_, _, _) => 0
  }

  ghost function Remaining<B>(T: Setup<B>, s: System<B>): int {
    M.SumTo(|T.bodies|, Left(T, s))
  }

  /** A message for somebody who has not taken them all is in the log or still to be sent: while a
      client has not finished, some client can move. */
  lemma SomeoneCanMove<B>(T: Setup<B>, s: System<B>) returns (c: nat)
    requires WellFormed(T) && Invariant(T, s) && !AllFinished(s)
    ensures Enabled(T, s, c)
  {
    if d :| 0 <= d < |s.clients| && !HasSent(s.clients[d]) {
      c := d;
    } else {
      c :| 0 <= c < |s.clients| && !s.clients[c].Finished?;
      assert ClientOk(T, s, c);
      if !Enabled(T, s, c) {
        AllSentAllTaken(T, s, c);
      }
    }
  }

  lemma AllSentAllTaken<B>(T: Setup<B>, s: System<B>, c: nat)
    requires WellFormed(T) && Invariant(T, s) && c < |s.clients| && s.clients[c].Collecting?
    requires forall d :: 0 <= d < |s.clients| ==> HasSent(s.clients[d])
    requires ClientOk(T, s, c) && s.relay.subs[s.clients[c].sub].next == |s.relay.heap[Ref(T)].log|
    ensures |s.clients[c].taken| == |T.bodies| - 1
  {
    hide Relay.Invariant;
    var cl, log := s.clients[c], s.relay.heap[Ref(T)].log;
    assert s.order[..|log|] == s.order;
    TakenAreOthers(T, s, c, cl.index, |log|);
    OthersRoll(c, s.order, |T.bodies|);
    forall d | 0 <= d < |T.bodies|
      ensures d in s.order
    {
      assert ClientOk(T, s, d);
    }
    FullRoll(s.order, |T.bodies|);
  }

  lemma FullRoll(l: seq<nat>, n: nat)
    requires Roll(l, n) && forall d :: 0 <= d < n ==> d in l
    ensures |l| == n
  {
    RollElements(l, n);
    assert Elements(l) == Below(n);
  }

  lemma LeftBounds<B>(T: Setup<B>, s: System<B>, c: nat)
    requires WellFormed(T) && Invariant(T, s) && c < |s.clients|
    ensures 0 <= Left(T, s)(c) <= |T.bodies| + 4
    ensures s.clients[c].Collecting? ==> Left(T, s)(c) > 0
  {
    hide Relay.Invariant, Kept;
    assert ClientOk(T, s, c);
    JoinedSize(T, s);
  }

  lemma OwnLeft<B>(T: Setup<B>, s: System<B>, c: nat)
    requires WellFormed(T) && Invariant(T, s) && c < |s.clients|
    ensures Left(T, Step(T, s, c))(c) <= Left(T, s)(c)
    ensures Enabled(T, s, c) ==> Left(T, Step(T, s, c))(c) < Left(T, s)(c)
  {
    hide Relay.Invariant, Kept, LogOk, Rolls, Frame;
    StepInvariant(T, s, c);
    LeftBounds(T, s, c);
    LeftBounds(T, Step(T, s, c), c);
    if s.clients[c].Collecting? && |s.clients[c].taken| + 1 < |T.bodies| {
      CollectRelay(T, s, c);
    }
  }

  lemma OtherLeft<B>(T: Setup<B>, s: System<B>, c: nat, d: nat)
    requires WellFormed(T) && Invariant(T, s) && c < |s.clients| && d < |s.clients| && c != d
    ensures |Step(T, s, c).clients| == |s.clients|
    ensures Left(T, Step(T, s, c))(d) == Left(T, s)(d)
    ensures Enabled(T, s, d) ==> Enabled(T, Step(T, s, c), d)
  {
    hide Relay.Invariant, Kept, LogOk, Rolls, Step;
    StepInvariant(T, s, c);
    assert ClientOk(T, s, d);
    if s.clients[c].Finished? {
      FinishedStays(T, s, c);
    }
  }

  lemma FinishedStays<B>(T: Setup<B>, s: System<B>, c: nat)
    requires c < |s.clients| ==> s.clients[c].Finished?
    ensures Step(T, s, c) == s
  {
  }

  lemma StepRemaining<B>(T: Setup<B>, s: System<B>, c: nat)
    requires WellFormed(T) && Invariant(T, s)
    ensures Remaining(T, Step(T, s, c)) <= Remaining(T, s)
    ensures Enabled(T, s, c) ==> Remaining(T, Step(T, s, c)) < Remaining(T, s)
  {
    hide Invariant, Step, Left, Enabled;
    assert |s.clients| == |T.bodies| by {
      SystemSize(T, s);
    }
    if c < |s.clients| {
      var n, f, g := |T.bodies|, Left(T, s), Left(T, Step(T, s, c));
      OwnLeft(T, s, c);
      forall j | 0 <= j < n - 1
        ensures M.Skipping(c, f)(j) == M.Skipping(c, g)(j)
      {
        OtherLeft(T, s, c, M.Skip(c, j));
      }
      M.SumSkip(n, c, f);
      M.SumSkip(n, c, g);
      M.SumExt(n - 1, M.Skipping(c, f), M.Skipping(c, g));
    } else {
      FinishedStays(T, s, c);
      EnabledInRange(T, s, c);
    }
  }

  lemma EnabledInRange<B>(T: Setup<B>, s: System<B>, c: nat)
    ensures Enabled(T, s, c) ==> c < |s.clients|
  {
  }

  lemma SystemSize<B>(T: Setup<B>, s: System<B>)
    requires Invariant(T, s)
    ensures |s.clients| == |T.bodies|
  {
  }

  lemma {:induction false} SweepMoves<B>(T: Setup<B>, s: System<B>, schedule: seq<nat>, a: nat)
    requires WellFormed(T) && Invariant(T, s)
    ensures Remaining(T, RunFrom(T, s, schedule)) <= Remaining(T, s)
    ensures Enabled(T, s, a) && a in schedule ==> Remaining(T, RunFrom(T, s, schedule)) < Remaining(T, s)
    decreases |schedule|
  {
    hide Invariant, Step, Remaining, Enabled;
    if |schedule| > 0 {
      var c := schedule[0];
      StepInvariant(T, s, c);
      StepRemaining(T, s, c);
      SweepMoves(T, Step(T, s, c), schedule[1..], a);
      if Enabled(T, s, a) && c != a {
        StaysEnabled(T, s, c, a);
      }
    }
  }

  lemma StaysEnabled<B>(T: Setup<B>, s: System<B>, c: nat, d: nat)
    requires WellFormed(T) && Invariant(T, s) && c != d && Enabled(T, s, d)
    ensures Enabled(T, Step(T, s, c), d)
  {
    hide Invariant, Step;
    if c < |s.clients| {
      OtherLeft(T, s, c, d);
    } else {
      FinishedStays(T, s, c);
    }
  }

  ghost predicate Sweep<B>(T: Setup<B>, schedule: seq<nat>) {
    forall c :: 0 <= c < |T.bodies| ==> c in schedule
  }

  lemma RemainingNonnegative<B>(T: Setup<B>, s: System<B>)
    requires WellFormed(T) && Invariant(T, s)
    ensures Remaining(T, s) >= 0
  {
    forall c | 0 <= c < |T.bodies|
      ensures Left(T, s)(c) >= 0
    {
      LeftBounds(T, s, c);
    }
    M.SumNonnegative(|T.bodies|, Left(T, s));
  }

  lemma {:induction false} AllFinishedStays<B>(T: Setup<B>, s: System<B>, schedule: seq<nat>)
    requires AllFinished(s)
    ensures RunFrom(T, s, schedule) == s
    decreases |schedule|
  {
    if |schedule| > 0 {
      FinishedStays(T, s, schedule[0]);
      AllFinishedStays(T, s, schedule[1..]);
    }
  }

  lemma {:induction false} RunFromConcat<B>(T: Setup<B>, s: System<B>, x: seq<nat>, y: seq<nat>)
    ensures RunFrom(T, s, x + y) == RunFrom(T, RunFrom(T, s, x), y)
    decreases |x|
  {
    if |x| == 0 {
      assert x + y == y;
    } else {
      assert (x + y)[1..] == x[1..] + y;
      RunFromConcat(T, Step(T, s, x[0]), x[1..], y);
    }
  }

  lemma {:induction false} SweepsFinish<B>(T: Setup<B>, s: System<B>, sweeps: seq<seq<nat>>)
    requires WellFormed(T) && Invariant(T, s)
    requires |sweeps| >= Remaining(T, s) && forall i :: 0 <= i < |sweeps| ==> Sweep(T, sweeps[i])
    ensures AllFinished(RunFrom(T, s, Concat(sweeps)))
    decreases |sweeps|
  {
    hide Invariant, Step, Remaining, Enabled;
    if AllFinished(s) {
      AllFinishedStays(T, s, Concat(sweeps));
    } else {
      var a := SomeoneCanMove(T, s);
      assert a < |s.clients| == |T.bodies| by {
        SystemSize(T, s);
        EnabledInRange(T, s, a);
      }
      StepRemaining(T, s, a);
      StepInvariant(T, s, a);
      RemainingNonnegative(T, Step(T, s, a));
      SweepMoves(T, s, sweeps[0], a);
      RunFromInvariant(T, s, sweeps[0]);
      RunFromConcat(T, s, sweeps[0], Concat(sweeps[1..]));
      SweepsFinish(T, RunFrom(T, s, sweeps[0]), sweeps[1..]);
    }
  }

  lemma InitRemaining<B>(T: Setup<B>)
    ensures Remaining(T, Init(T)) == |T.bodies| * (|T.bodies| + 4)
  {
    var n, one, f := |T.bodies|, (c: nat) => 1, Left(T, Init(T));
    var k := n + 4;
    forall c | 0 <= c < n
      ensures f(c) == k * one(c)
    {
      assert f(c) == k;
    }
    M.SumScale(n, k, one, f);
    M.SumOfOnes(n, one);
    assert k * n == n * k;
  }

  /** Progress: if every client keeps getting turns, all clients finish. */
  lemma FairClientsFinish<B>(T: Setup<B>, sweeps: seq<seq<nat>>)
    requires WellFormed(T)
    requires |sweeps| >= |T.bodies| * (|T.bodies| + 4)
    requires forall i :: 0 <= i < |sweeps| ==> Sweep(T, sweeps[i])
    ensures AllFinished(Run(T, Concat(sweeps)))
  {
    hide WellFormed, Invariant, Remaining, AllFinished;
    InitInvariant(T);
    InitRemaining(T);
    SweepsFinish(T, Init(T), sweeps);
  }
}
