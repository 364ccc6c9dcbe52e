/** The indices that clients obtain over whole runs of the relay, while clients come and go. */
module Indices {
  import opened Relay

  /** A step of the relay, or the request of a subscribed client for an index under its room's id. */
  datatype Deed<M> = Does(action: Action<M>) | Asks(sub: nat)

  /** The client of the subscription has obtained the index from the room, as the one at this position. */
  datatype Answer = Answer(sub: nat, room: nat, position: nat, index: nat)

  datatype History<M> = History(state: State<M>, answers: seq<Answer>)

  function Act<M>(h: History<M>, d: Deed<M>): History<M> {
    match d
    case Does(action) => h.(state := Step(h.state, action))
    case Asks(i) =>
      var s := h.state;
      if i >= |s.subs| || !s.subs[i].alive || s.subs[i].room >= |s.heap| then h
      else
        var (s', ref) := LookUp(s, s.heap[s.subs[i].room].id);
        if ref >= |s'.heap| then h
        else History(Step(s', Issue(ref)), h.answers + [Answer(i, ref, |s'.heap[ref].issued|, s'.heap[ref].nextIdx)])
  }

  function HistoryOf<M>(h: History<M>, deeds: seq<Deed<M>>): History<M>
    decreases |deeds|
  {
    if |deeds| == 0 then h else HistoryOf(Act(h, deeds[0]), deeds[1..])
  }

  function Start<M>(): History<M> {
    History(Init(), [])
  }

  /** Every subscription is to a mapped room and no room ever gets crowded. */
  ghost predicate OrderlyHistory<M>(h: History<M>, deeds: seq<Deed<M>>)
    decreases |deeds|
  {
    && Uncrowded(h.state)
    && (|deeds| > 0 ==> (deeds[0].Does? ==> ToMapped(h.state, deeds[0].action)) && OrderlyHistory(Act(h, deeds[0]), deeds[1..]))
  }

  ghost predicate AnswerOk<M>(s: State<M>, e: Answer) {
    && e.sub < |s.subs| && s.subs[e.sub].room == e.room < |s.heap|
    && e.position < |s.heap[e.room].issued| && s.heap[e.room].issued[e.position] == e.index
  }

  /** Every client got its index from the room it is subscribed to, and no two answers of a room are the same
      one. */
  ghost predicate AnswersOk<M>(h: History<M>) {
    && (forall e :: 0 <= e < |h.answers| ==> AnswerOk(h.state, h.answers[e]))
    && (forall e, f :: 0 <= e < f < |h.answers| && h.answers[e].room == h.answers[f].room ==> h.answers[e].position < h.answers[f].position)
  }

  /** Rooms and subscriptions stay, and so do the indices issued. */
  ghost predicate Remembers<M>(s: State<M>, s': State<M>) {
    && |s.heap| <= |s'.heap| && |s.subs| <= |s'.subs|
    && (forall r :: 0 <= r < |s.heap| ==> s.heap[r].issued <= s'.heap[r].issued)
    && (forall i :: 0 <= i < |s.subs| ==> s.subs[i].room == s'.subs[i].room)
  }

  lemma StepRemembers<M>(s: State<M>, a: Action<M>)
    ensures Remembers(s, Step(s, a))
  {
  }

  lemma AnswerStays<M>(s: State<M>, s': State<M>, e: Answer)
    requires Remembers(s, s') && AnswerOk(s, e)
    ensures AnswerOk(s', e)
  {
  }

  lemma DoesKeeps<M>(h: History<M>, action: Action<M>)
    requires AnswersOk(h)
    ensures AnswersOk(Act(h, Does(action)))
  {
    hide Step, AnswerOk, Remembers;
    StepRemembers(h.state, action);
    forall e | 0 <= e < |h.answers|
      ensures AnswerOk(Step(h.state, action), h.answers[e])
    {
      AnswerStays(h.state, Step(h.state, action), h.answers[e]);
    }
  }

  lemma AsksKeeps<M>(h: History<M>, i: nat)
    requires Invariant(h.state) && Current(h.state) && Uncrowded(h.state) && AnswersOk(h)
    requires i < |h.state.subs| && h.state.subs[i].alive && h.state.subs[i].room < |h.state.heap|
    ensures AnswersOk(Act(h, Asks(i))) && Act(h, Asks(i)).state == Step(h.state, Issue(h.state.subs[i].room))
  {
    hide Invariant, Current, Uncrowded, LookUp, AnswerOk, Remembers;
    var s, r := h.state, h.state.subs[i].room;
    RoomIsCurrent(s, i);
    var s' := Step(s, Issue(r));
    StepRemembers<M>(s, Issue(r));
    forall e | 0 <= e < |h.answers|
      ensures AnswerOk(s', h.answers[e]) && (h.answers[e].room == r ==> h.answers[e].position < |s.heap[r].issued|)
    {
      AnswerStays(s, s', h.answers[e]);
      PositionInRoom(s, h.answers[e]);
    }
    NewAnswer(s, i);
  }

  lemma PositionInRoom<M>(s: State<M>, e: Answer)
    requires AnswerOk(s, e)
    ensures e.room < |s.heap| && e.position < |s.heap[e.room].issued|
  {
  }

  lemma NewAnswer<M>(s: State<M>, i: nat)
    requires i < |s.subs| && s.subs[i].room < |s.heap|
    ensures
      var r := s.subs[i].room;
      AnswerOk(Step(s, Issue(r)), Answer(i, r, |s.heap[r].issued|, s.heap[r].nextIdx))
  {
  }

  lemma RoomIsCurrent<M>(s: State<M>, i: nat)
    requires Invariant(s) && Current(s) && Uncrowded(s) && i < |s.subs| && s.subs[i].alive && s.subs[i].room < |s.heap|
    ensures LookUp(s, s.heap[s.subs[i].room].id) == (s, s.subs[i].room)
  {
    var r := s.subs[i].room;
    LiveCountPositive(s.subs, i, r);
    Small(LiveCount(s.subs, r));
    LookUpFindsLiveRoom(s, r);
  }

  lemma ActKeeps<M>(h: History<M>, d: Deed<M>)
    requires Invariant(h.state) && Current(h.state) && Uncrowded(h.state) && AnswersOk(h)
    requires d.Does? ==> ToMapped(h.state, d.action)
    ensures Invariant(Act(h, d).state) && Current(Act(h, d).state) && AnswersOk(Act(h, d))
  {
    hide Invariant, Current, Uncrowded, AnswersOk, Step, LookUp;
    match d
    case Does(action) =>
      StepInvariant(h.state, action);
      StepCurrent(h.state, action);
      DoesKeeps(h, action);
    case Asks(i) =>
      if i < |h.state.subs| && h.state.subs[i].alive && h.state.subs[i].room < |h.state.heap| {
        AsksKeeps(h, i);
        StepInvariant(h.state, Issue(h.state.subs[i].room));
        StepCurrent(h.state, Issue(h.state.subs[i].room));
      }
  }

  lemma {:induction false} HistoryKeeps<M>(h: History<M>, deeds: seq<Deed<M>>)
    requires Invariant(h.state) && Current(h.state) && AnswersOk(h) && OrderlyHistory(h, deeds)
    ensures
      var h' := HistoryOf(h, deeds);
      Invariant(h'.state) && Current(h'.state) && AnswersOk(h')
    decreases |deeds|
  {
    hide Invariant, Current, AnswersOk, Act, Uncrowded;
    if |deeds| > 0 {
      ActKeeps(h, deeds[0]);
      HistoryKeeps(Act(h, deeds[0]), deeds[1..]);
    }
  }

  /** Over every orderly run, whatever clients come and go: every client that asks gets its index from the
      room it is subscribed to, two answers of one room have different indices as long as it has issued at
      most 2^16, and clients that are subscribed under one id at the same time are in one room. */
  lemma IndicesDifferInEveryRun<M>(deeds: seq<Deed<M>>, e: nat, f: nat)
    requires OrderlyHistory(Start(), deeds) && e < f < |HistoryOf(Start(), deeds).answers|
    ensures
      var h := HistoryOf(Start<M>(), deeds);
      var s, x, y := h.state, h.answers[e], h.answers[f];
      && x.sub < |s.subs| && y.sub < |s.subs| && x.room < |s.heap| && y.room < |s.heap|
      && s.subs[x.sub].room == x.room && s.subs[y.sub].room == y.room
      && (x.room == y.room && |s.heap[x.room].issued| <= U16 ==> x.index != y.index)
      && (s.subs[x.sub].alive && s.subs[y.sub].alive && s.heap[x.room].id == s.heap[y.room].id ==> x.room == y.room)
  {
    hide OrderlyHistory, HistoryOf, Invariant, Current;
    StartIsOk<M>();
    HistoryKeeps(Start<M>(), deeds);
    var h := HistoryOf(Start<M>(), deeds);
    var s, x, y := h.state, h.answers[e], h.answers[f];
    assert AnswerOk(s, x) && AnswerOk(s, y);
    if x.room == y.room && |s.heap[x.room].issued| <= U16 {
      IssuedDiffer(s, x.room, x.position, y.position);
    }
    if s.subs[x.sub].alive && s.subs[y.sub].alive && s.heap[x.room].id == s.heap[y.room].id {
      OneLiveRoomPerId(s, x.sub, y.sub);
    }
  }

  lemma StartIsOk<M>()
    ensures Invariant(Start<M>().state) && Current(Start<M>().state) && AnswersOk(Start<M>())
  {
    InitInvariant<M>();
  }

  lemma IssuedDiffer<M>(s: State<M>, r: nat, j: nat, k: nat)
    requires Invariant(s) && r < |s.heap| && j < k < |s.heap[r].issued| <= U16
    ensures s.heap[r].issued[j] != s.heap[r].issued[k]
  {
    IndicesOf(s.heap[r], LiveCount(s.subs, r));
  }
}
