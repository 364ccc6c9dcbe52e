/** The names under which the parties of a run publish their messages in the shared store. */
module StoreKeys {

  predicate IsDigit(c: char) {
    '0' <= c <= '9'
  }

  /** Decimal text of a number, without leading zeros. */
  function Decimal(n: nat): (s: string)
    ensures |s| > 0 && forall c :: c in s ==> IsDigit(c)
    ensures n >= 10 <==> |s| > 1
  {
    if n < 10 then ['0' + n as char] else Decimal(n / 10) + ['0' + (n % 10) as char]
  }

  lemma {:induction false} DecimalInjective(m: nat, n: nat)
    requires Decimal(m) == Decimal(n)
    ensures m == n
  {
    if m >= 10 {
      var p, q := Decimal(m / 10), Decimal(n / 10);
      assert Decimal(m)[..|p|] == p && Decimal(n)[..|q|] == q;
      assert Decimal(m)[|p|] == '0' + (m % 10) as char && Decimal(n)[|q|] == '0' + (n % 10) as char;
      DecimalInjective(m / 10, n / 10);
    } else {
      assert Decimal(m)[0] == '0' + m as char && Decimal(n)[0] == '0' + n as char;
    }
  }

  function RoundName(r: nat): string {
    "round" + Decimal(r)
  }

  function BroadcastKey(party: nat, round: string, uuid: string): string {
    Decimal(party) + "-" + (round + "-" + uuid)
  }

  function P2PKey(from: nat, to: nat, round: string, uuid: string): string {
    Decimal(from) + "-" + (Decimal(to) + "-" + (round + "-" + uuid))
  }

  /** Text before the first dash, and text after it, are determined by the whole. */
  lemma SplitAtDash(a: string, x: string, b: string, y: string)
    requires a + "-" + x == b + "-" + y && '-' !in a && '-' !in b
    ensures a == b && x == y
  {
    var s := a + "-" + x;
    assert s[|a|] == '-' && s[|b|] == '-';
    assert |a| == |b|;
    assert s[..|a|] == a && s[..|b|] == b && s[|a| + 1..] == x && s[|b| + 1..] == y;
  }

  lemma RoundNameShape(r: nat)
    ensures '-' !in RoundName(r) && RoundName(r)[0] == 'r' && 'o' in RoundName(r)
  {
    assert RoundName(r)[1] == 'o';
  }

  lemma RoundNameInjective(r: nat, r': nat)
    requires RoundName(r) == RoundName(r')
    ensures r == r'
  {
    assert RoundName(r)[5..] == Decimal(r) && RoundName(r')[5..] == Decimal(r');
    DecimalInjective(r, r');
  }

  /** A broadcast key determines the sender, the round and the run. */
  lemma BroadcastKeyInjective(p: nat, r: nat, u: string, p': nat, r': nat, u': string)
    requires BroadcastKey(p, RoundName(r), u) == BroadcastKey(p', RoundName(r'), u')
    ensures p == p' && r == r' && u == u'
  {
    SplitAtDash(Decimal(p), RoundName(r) + "-" + u, Decimal(p'), RoundName(r') + "-" + u');
    DecimalInjective(p, p');
    RoundNameShape(r);
    RoundNameShape(r');
    SplitAtDash(RoundName(r), u, RoundName(r'), u');
    RoundNameInjective(r, r');
  }

  /** A point-to-point key determines the sender, the receiver, the round and the run. */
  lemma P2PKeyInjective(p: nat, t: nat, r: nat, u: string, p': nat, t': nat, r': nat, u': string)
    requires P2PKey(p, t, RoundName(r), u) == P2PKey(p', t', RoundName(r'), u')
    ensures p == p' && t == t' && r == r' && u == u'
  {
    SplitAtDash(Decimal(p), Decimal(t) + "-" + (RoundName(r) + "-" + u), Decimal(p'), Decimal(t') + "-" + (RoundName(r') + "-" + u'));
    DecimalInjective(p, p');
    assert Decimal(t) + "-" + (RoundName(r) + "-" + u) == BroadcastKey(t, RoundName(r), u);
    BroadcastKeyInjective(t, r, u, t', r', u');
  }

  /** No broadcast key is a point-to-point key, in whatever runs. */
  lemma KeyKindsDisjoint(p: nat, r: nat, u: string, p': nat, t': nat, r': nat, u': string)
    ensures BroadcastKey(p, RoundName(r), u) != P2PKey(p', t', RoundName(r'), u')
  {
    assert IsDigit(Decimal(t')[0]);
    if BroadcastKey(p, RoundName(r), u) == P2PKey(p', t', RoundName(r'), u') {
      SplitAtDash(Decimal(p), RoundName(r) + "-" + u, Decimal(p'), Decimal(t') + "-" + (RoundName(r') + "-" + u'));
      RoundNameShape(r);
      SplitAtDash(RoundName(r), u, Decimal(t'), RoundName(r') + "-" + u');
    }
  }

  /** What a key stands for. Rounds are numbered as in their names. */
  datatype Name =
    | Broadcast(party: nat, round: nat, uuid: string)
    | PointToPoint(from: nat, to: nat, round: nat, uuid: string)

  function Text(name: Name): string {
    match name
    case Broadcast(p, r, u) => BroadcastKey(p, RoundName(r), u)
    case PointToPoint(p, t, r, u) => P2PKey(p, t, RoundName(r), u)
  }

  /** Two messages with the same key are the same message: party, recipient, round and run. */
  lemma TextInjective(x: Name, y: Name)
    requires Text(x) == Text(y)
    ensures x == y
  {
    match (x, y)
    case (Broadcast(p, r, u), Broadcast(p', r', u')) => BroadcastKeyInjective(p, r, u, p', r', u');
    case (PointToPoint(p, t, r, u), PointToPoint(p', t', r', u')) => P2PKeyInjective(p, t, r, u, p', t', r', u');
    case (Broadcast(p, r, u), PointToPoint(p', t', r', u')) => KeyKindsDisjoint(p, r, u, p', t', r', u');
    case (PointToPoint(p', t', r', u'), Broadcast(p, r, u)) => KeyKindsDisjoint(p, r, u, p', t', r', u');
  }

  /** Characters of the texts accepted as UUIDs: hyphenated, plain, braced or with the urn prefix. */
  predicate IsUuidChar(c: char) {
    IsDigit(c) || 'a' <= c <= 'f' || 'A' <= c <= 'F' || c in "-{}urnid:"
  }

  predicate IsRoomKey(s: string) {
    forall c :: c in s ==> IsUuidChar(c)
  }

  /** The signup record, stored under the room's UUID, is under no message key. */
  lemma RoomKeyDisjoint(room: string, name: Name)
    requires IsRoomKey(room)
    ensures room != Text(name)
  {
    RoundNameShape(name.round);
    assert !IsUuidChar('o');
    assert 'o' in Text(name);
  }
}
