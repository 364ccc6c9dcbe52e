/** The signup counter of a room: one record in the shared store that every signup reads and writes. */
module Signups {
  import opened Rounds

  datatype SignupResult = Granted(number: nat, uuid: string) | Full | Malformed

  /** What a signup call decides from the record it reads. */
  function ReadSignup<M>(store: map<string, Entry<M>>, num: nat, key: string, newUuid: string): SignupResult {
    if key !in store then Granted(1, newUuid)
    else
      match store[key]
      case Signup(number, uuid) => if number < num then Granted(number + 1, uuid) else Full
      case Data(_) => Malformed
  }

  function WriteSignup<M>(store: map<string, Entry<M>>, key: string, r: SignupResult): map<string, Entry<M>> {
    match r
    case Granted(number, uuid) => store[key := Signup(number, uuid)]
    case Full => store
    case Malformed => store
  }

  /** Calls on the store: signups under the room's key, and writes of messages under other keys. */
  datatype Call<+M> = SignUp(newUuid: string) | Write(key: string, entry: Entry<M>)

  /** The results of the signups among the calls, in order. */
  function Signups<M>(store: map<string, Entry<M>>, num: nat, key: string, calls: seq<Call<M>>): seq<SignupResult>
    decreases |calls|
  {
    if |calls| == 0 then []
    else
      match calls[0]
      case SignUp(newUuid) =>
        var r := ReadSignup(store, num, key, newUuid);
        [r] + Signups(WriteSignup(store, key, r), num, key, calls[1..])
      case Write(k, entry) => Signups(store[k := entry], num, key, calls[1..])
  }

  /** With k numbers given out under a uuid, the next ones are k + 1, k + 2, ... under the same uuid up
      to the limit; all later calls fail. */
  lemma {:induction false} SignupsContinue<M>(store: map<string, Entry<M>>, num: nat, key: string, calls: seq<Call<M>>, k: nat, uuid: string)
    requires key in store && store[key] == Signup(k, uuid)
    requires forall i :: 0 <= i < |calls| && calls[i].Write? ==> calls[i].key != key
    ensures forall i :: 0 <= i < |Signups(store, num, key, calls)| ==>
      Signups(store, num, key, calls)[i] == if k + i < num then Granted(k + i + 1, uuid) else Full
    decreases |calls|
  {
    if |calls| > 0 {
      match calls[0]
      case SignUp(newUuid) =>
        var r := ReadSignup(store, num, key, newUuid);
        SignupsContinue(WriteSignup(store, key, r), num, key, calls[1..], if k < num then k + 1 else k, uuid);
      case Write(k', entry) =>
        SignupsContinue(store[k' := entry], num, key, calls[1..], k, uuid);
    }
  }

  /** Over any sequence of signups and message writes on a store without the room's record, the i-th
      signup is granted the number i, under one uuid for all, as long as i is within the limit; all
      later ones fail. The first call is granted a number even if the limit is zero, because the limit
      is compared only when there is a record. */
  lemma {:induction false} SignupsGiveNumbers<M>(store: map<string, Entry<M>>, num: nat, key: string, calls: seq<Call<M>>)
    returns (uuid: string)
    requires key !in store
    requires forall i :: 0 <= i < |calls| && calls[i].Write? ==> calls[i].key != key
    ensures forall i :: 0 <= i < |Signups(store, num, key, calls)| ==>
      Signups(store, num, key, calls)[i] == if i < num || i == 0 then Granted(i + 1, uuid) else Full
    decreases |calls|
  {
    uuid := "";
    if |calls| > 0 {
      match calls[0]
      case SignUp(newUuid) =>
        uuid := newUuid;
        SignupsContinue(store[key := Signup(1, newUuid)], num, key, calls[1..], 1, uuid);
      case Write(k', entry) =>
        uuid := SignupsGiveNumbers(store[k' := entry], num, key, calls[1..]);
    }
  }

  /** Signing up in the round protocol is this signup. */
  lemma SignupIsStep<M>(P: Protocol<M>, s: State<M>, a: nat)
    requires WellFormed(P) && Invariant(P, s) && a < P.n && s.parties[a].stage.Idle? && SignedUp(P, s.store) == a
    requires a > 0 ==> P.roomKey in s.store
    ensures ReadSignup(s.store, P.n, P.roomKey, P.uuid) == Granted(a + 1, P.uuid)
    ensures Step(P, s, a).store == WriteSignup(s.store, P.roomKey, ReadSignup(s.store, P.n, P.roomKey, P.uuid))
  {
    hide PartyOk, EntryOk, HeardOk;
  }

  // ----------------------------------------------------------------------------------------------
  // Signups whose read and write are separate steps
  // ----------------------------------------------------------------------------------------------

  /** A signup by `who` reads the record, and later writes what it decided; others write messages. */
  datatype Event<+M> = Reads(who: nat, newUuid: string) | Writes(who: nat) | Other(key: string, entry: Entry<M>)

  /** `pending` holds the signups that have been granted a number and have not yet written it. */
  datatype Trace<M> = Trace(store: map<string, Entry<M>>, pending: map<nat, SignupResult>, granted: seq<nat>)

  function Take<M>(s: Trace<M>, num: nat, key: string, e: Event<M>): Trace<M> {
    match e
    case Reads(who, newUuid) =>
      var r := ReadSignup(s.store, num, key, newUuid);
      if r.Granted? then Trace(s.store, s.pending[who := r], s.granted + [r.number]) else s
    case Writes(who) =>
      if who in s.pending then Trace(WriteSignup(s.store, key, s.pending[who]), s.pending - {who}, s.granted) else s
    case Other(k, entry) => s.(store := s.store[k := entry])
  }

  function TraceOf<M>(store: map<string, Entry<M>>, num: nat, key: string, events: seq<Event<M>>): Trace<M>
    decreases |events|
  {
    if |events| == 0 then Trace(store, map[], [])
    else Take(TraceOf(store, num, key, events[..|events| - 1]), num, key, events[|events| - 1])
  }

  /** The j-th event is a signup reading between another's read and its write. */
  ghost predicate OverlapsAt<M>(store: map<string, Entry<M>>, num: nat, key: string, events: seq<Event<M>>, j: nat)
    requires j < |events|
  {
    events[j].Reads? && TraceOf(store, num, key, events[..j]).pending != map[]
  }

  ghost predicate Overlaps<M>(store: map<string, Entry<M>>, num: nat, key: string, events: seq<Event<M>>) {
    exists j :: 0 <= j < |events| && OverlapsAt(store, num, key, events, j)
  }

  /** No record, or the record of earlier signups; other writes are under other keys. */
  ghost predicate SignupsOnly<M>(store: map<string, Entry<M>>, key: string, events: seq<Event<M>>) {
    && (key in store ==> store[key].Signup?)
    && forall i :: 0 <= i < |events| && events[i].Other? ==> events[i].key != key
  }

  ghost function NumberIn<M>(store: map<string, Entry<M>>, key: string): nat {
    if key in store && store[key].Signup? then store[key].number else 0
  }

  /** The record still grants a number. */
  ghost predicate Grants<M>(store: map<string, Entry<M>>, num: nat, key: string) {
    key !in store || (store[key].Signup? && store[key].number < num)
  }

  /** The numbers granted so far follow each other; at most the last of them is not yet written, and then
      the record is still the one it was granted from. */
  ghost predicate InTurn<M>(s: Trace<M>, num: nat, key: string, base: nat) {
    && (key in s.store ==> s.store[key].Signup?)
    && (forall i :: 0 <= i < |s.granted| ==> s.granted[i] == base + i + 1)
    && (s.pending == map[] ==> NumberIn(s.store, key) == base + |s.granted|)
    && (forall who :: who in s.pending ==>
          && |s.granted| > 0 && NumberIn(s.store, key) == base + |s.granted| - 1 && Grants(s.store, num, key)
          && s.pending[who].Granted? && s.pending[who].number == base + |s.granted|)
    && (forall v, w :: v in s.pending && w in s.pending ==> v == w)
  }

  lemma ReadsInTurn<M>(s: Trace<M>, num: nat, key: string, who: nat, newUuid: string, base: nat)
    requires InTurn(s, num, key, base) && s.pending == map[]
    ensures InTurn(Take(s, num, key, Reads(who, newUuid)), num, key, base)
  {
    var pending := Take(s, num, key, Reads(who, newUuid)).pending;
    assert forall v :: v in pending ==> v == who;
    if ReadSignup(s.store, num, key, newUuid).Granted? {
      assert who in pending;
      assert pending != map[];
    }
  }

  lemma WritesInTurn<M>(s: Trace<M>, num: nat, key: string, who: nat, base: nat)
    requires InTurn(s, num, key, base)
    ensures InTurn(Take(s, num, key, Writes(who)), num, key, base)
  {
    if who in s.pending {
      assert s.pending - {who} == map[];
    }
  }

  lemma TakeInTurn<M>(s: Trace<M>, num: nat, key: string, e: Event<M>, base: nat)
    requires InTurn(s, num, key, base) && (e.Other? ==> e.key != key) && (e.Reads? ==> s.pending == map[])
    ensures InTurn(Take(s, num, key, e), num, key, base)
  {
    match e
    case Reads(who, newUuid) => ReadsInTurn(s, num, key, who, newUuid, base);
    case Writes(who) => WritesInTurn(s, num, key, who, base);
    case Other(k, entry) =>
  }

  lemma {:induction false} NoOverlapInTurn<M>(store: map<string, Entry<M>>, num: nat, key: string, events: seq<Event<M>>)
    requires SignupsOnly(store, key, events) && !Overlaps(store, num, key, events)
    ensures InTurn(TraceOf(store, num, key, events), num, key, NumberIn(store, key))
    decreases |events|
  {
    if |events| > 0 {
      var n, front := |events| - 1, events[..|events| - 1];
      forall j | 0 <= j < n
        ensures !OverlapsAt(store, num, key, front, j)
      {
        assert front[..j] == events[..j];
        assert !OverlapsAt(store, num, key, events, j);
      }
      NoOverlapInTurn(store, num, key, front);
      assert !OverlapsAt(store, num, key, events, n);
      TakeInTurn(TraceOf(store, num, key, front), num, key, events[n], NumberIn(store, key));
    }
  }

  lemma {:induction false} FirstOverlap<M>(store: map<string, Entry<M>>, num: nat, key: string, events: seq<Event<M>>, k: nat) returns (j: nat)
    requires k < |events| && OverlapsAt(store, num, key, events, k)
    ensures j <= k && OverlapsAt(store, num, key, events, j)
    ensures forall i :: 0 <= i < j ==> !OverlapsAt(store, num, key, events, i)
    decreases k
  {
    j := k;
    if i :| 0 <= i < k && OverlapsAt(store, num, key, events, i) {
      j := FirstOverlap(store, num, key, events, i);
    }
  }

  lemma {:induction false} GrantedGrows<M>(store: map<string, Entry<M>>, num: nat, key: string, events: seq<Event<M>>, j: nat)
    requires j <= |events|
    ensures TraceOf(store, num, key, events[..j]).granted <= TraceOf(store, num, key, events).granted
    decreases |events|
  {
    if j < |events| {
      var front := events[..|events| - 1];
      assert front[..j] == events[..j];
      GrantedGrows(store, num, key, front, j);
    } else {
      assert events[..j] == events;
    }
  }

  ghost predicate Different(numbers: seq<nat>) {
    forall i, j :: 0 <= i < j < |numbers| ==> numbers[i] != numbers[j]
  }

  /** The numbers granted are pairwise different if and only if no signup reads between another's read
      and its write: the first that does gets the number of the other. */
  lemma SignupsDiffer<M>(store: map<string, Entry<M>>, num: nat, key: string, events: seq<Event<M>>)
    requires SignupsOnly(store, key, events)
    ensures Different(TraceOf(store, num, key, events).granted) <==> !Overlaps(store, num, key, events)
  {
    if Overlaps(store, num, key, events) {
      var k :| 0 <= k < |events| && OverlapsAt(store, num, key, events, k);
      var j := FirstOverlap(store, num, key, events, k);
      OverlapRepeats(store, num, key, events, j);
    } else {
      NoOverlapInTurn(store, num, key, events);
    }
  }

  /** A signup that reads while another is pending gets the number of the other. */
  lemma PendingRepeats<M>(s: Trace<M>, num: nat, key: string, e: Event<M>, base: nat)
    requires InTurn(s, num, key, base) && e.Reads? && s.pending != map[]
    ensures
      var numbers := Take(s, num, key, e).granted;
      |numbers| > |s.granted| > 0 && numbers[|s.granted| - 1] == numbers[|s.granted|]
  {
    var who :| who in s.pending;
  }

  lemma OverlapRepeats<M>(store: map<string, Entry<M>>, num: nat, key: string, events: seq<Event<M>>, j: nat)
    requires SignupsOnly(store, key, events) && j < |events| && OverlapsAt(store, num, key, events, j)
    requires forall i :: 0 <= i < j ==> !OverlapsAt(store, num, key, events, i)
    ensures !Different(TraceOf(store, num, key, events).granted)
  {
    hide TraceOf, Take, InTurn;
    var front := events[..j];
    forall i | 0 <= i < j
      ensures !OverlapsAt(store, num, key, front, i)
    {
      assert front[..i] == events[..i];
      assert !OverlapsAt(store, num, key, events, i);
    }
    NoOverlapInTurn(store, num, key, front);
    var s := TraceOf(store, num, key, front);
    PendingRepeats(s, num, key, events[j], NumberIn(store, key));
    TraceNext(store, num, key, events, j);
    GrantedGrows(store, num, key, events, j + 1);
    RepeatStays(TraceOf(store, num, key, events[..j + 1]).granted, TraceOf(store, num, key, events).granted, |s.granted|);
  }

  lemma TraceNext<M>(store: map<string, Entry<M>>, num: nat, key: string, events: seq<Event<M>>, j: nat)
    requires j < |events|
    ensures TraceOf(store, num, key, events[..j + 1]) == Take(TraceOf(store, num, key, events[..j]), num, key, events[j])
  {
    hide Take;
    assert events[..j + 1][..j] == events[..j];
  }

  lemma RepeatStays(x: seq<nat>, y: seq<nat>, k: nat)
    requires 0 < k < |x| && x[k - 1] == x[k] && x <= y
    ensures !Different(y)
  {
    assert y[k - 1] == x[k - 1] && y[k] == x[k];
  }

  /** Two tasks that both read before either writes are both given number one. */
  lemma OverlapExample(u: string, v: string)
    ensures TraceOf<int>(map[], 2, "room", [Reads(0, u), Reads(1, v), Writes(0), Writes(1)]).granted == [1, 1]
  {
    var events: seq<Event<int>> := [Reads(0, u), Reads(1, v), Writes(0), Writes(1)];
    var s0 := TraceOf<int>(map[], 2, "room", events[..0]);
    assert s0 == Trace(map[], map[], []);
    var s1 := Take(s0, 2, "room", events[0]);
    assert s1.store == map[] && s1.granted == [1];
    var s2 := Take(s1, 2, "room", events[1]);
    assert s2.granted == [1, 1];
    TraceNext(map[], 2, "room", events, 0);
    TraceNext(map[], 2, "room", events, 1);
    TraceNext(map[], 2, "room", events, 2);
    TraceNext(map[], 2, "room", events, 3);
    assert events[..4] == events;
  }
}
