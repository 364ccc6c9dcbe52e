/** The texts of the store's keys, character by character. */
module KeyTexts {
  import opened Modular
  import opened StoreKeys
  import opened Rounds
  import Codec
  import Keygen
  import SignRun

  ghost function DigitIn(c: char): nat
    requires IsDigit(c)
  {
    (c - '0') as int
  }

  /** The digits of a text of decimal digits. */
  ghost function DigitsIn(s: string): (ds: seq<nat>)
    requires forall i :: 0 <= i < |s| ==> IsDigit(s[i])
    ensures |ds| == |s| && forall i :: 0 <= i < |s| ==> ds[i] == DigitIn(s[i])
  {
    seq(|s|, i requires 0 <= i < |s| => DigitIn(s[i]))
  }

  /** The decimal text of n, without leading zeros. */
  ghost predicate IsNumeral(s: string, n: nat) {
    && |s| > 0 && (forall i :: 0 <= i < |s| ==> IsDigit(s[i]))
    && (|s| > 1 ==> s[0] != '0')
    && Codec.FromDigits(10, DigitsIn(s)) == n
  }

  lemma LastDigit(s: string)
    requires |s| > 0 && forall i :: 0 <= i < |s| ==> IsDigit(s[i])
    ensures Codec.FromDigits(10, DigitsIn(s)) == Codec.FromDigits(10, DigitsIn(s[..|s| - 1])) * 10 + DigitIn(s[|s| - 1])
  {
    assert DigitsIn(s)[..|s| - 1] == DigitsIn(s[..|s| - 1]);
  }

  lemma {:induction false} LeadingDigit(s: string)
    requires |s| > 0 && s[0] != '0' && forall i :: 0 <= i < |s| ==> IsDigit(s[i])
    ensures Codec.FromDigits(10, DigitsIn(s)) > 0
  {
    LastDigit(s);
    if |s| > 1 {
      LeadingDigit(s[..|s| - 1]);
    }
  }

  /** Decimal(n) is the one decimal text of n without leading zeros. */
  lemma {:induction false} DecimalIsNumeral(s: string, n: nat)
    ensures IsNumeral(s, n) <==> s == Decimal(n)
    decreases n
  {
    hide Codec.FromDigits;
    var d := Decimal(n);
    LastDigit(d);
    assert DigitsIn([]) == [];
    Empty();
    if n >= 10 {
      var front := Decimal(n / 10);
      assert d[..|d| - 1] == front;
      DecimalIsNumeral(front, n / 10);
    }
    if IsNumeral(s, n) {
      LastDigit(s);
      var front := s[..|s| - 1];
      if |s| > 1 {
        LeadingDigit(front);
        DecimalIsNumeral(front, n / 10);
      }
      assert s == front + [s[|s| - 1]];
    }
  }

  lemma Empty()
    ensures Codec.FromDigits(10, []) == 0
  {
  }

  lemma BroadcastText(from: string, round: string, uuid: string, p: nat, r: nat)
    requires IsNumeral(from, p) && IsNumeral(round, r)
    ensures Text(Broadcast(p, r, uuid)) == from + "-round" + round + "-" + uuid
  {
    hide IsNumeral, Decimal;
    DecimalIsNumeral(from, p);
    DecimalIsNumeral(round, r);
    assert from + "-" + ("round" + round + "-" + uuid) == from + "-round" + round + "-" + uuid;
  }

  lemma PointToPointText(from: string, to: string, round: string, uuid: string, p: nat, t: nat, r: nat)
    requires IsNumeral(from, p) && IsNumeral(to, t) && IsNumeral(round, r)
    ensures Text(PointToPoint(p, t, r, uuid)) == from + "-" + to + "-round" + round + "-" + uuid
  {
    hide IsNumeral, Decimal;
    BroadcastText(to, round, uuid, t, r);
    DecimalIsNumeral(from, p);
    assert P2PKey(p, t, RoundName(r), uuid) == from + "-" + Text(Broadcast(t, r, uuid));
    var rest := "-round" + round + "-" + uuid;
    assert to + "-round" + round + "-" + uuid == to + rest;
    assert from + "-" + to + "-round" + round + "-" + uuid == from + "-" + to + rest;
    assert from + "-" + (to + rest) == from + "-" + to + rest;
  }

  /** Messages of key generation: the round with index r is named r + 1, and the shares of round 3 go from the
      sender to the peer, all others to everybody. */
  lemma KeygenKeyText(S: Keygen.Setup, a: nat, r: nat, k: nat, from: string, to: string, round: string)
    requires IsNumeral(from, a + 1) && IsNumeral(to, if k < a then k + 1 else k + 2) && IsNumeral(round, r + 1)
    ensures MsgKey(Keygen.KeygenProtocol(S), a, r, k) ==
      if r == 2 then from + "-" + to + "-round" + round + "-" + S.uuid else from + "-round" + round + "-" + S.uuid
    ensures PollKey(Keygen.KeygenProtocol(S), a, r, k) ==
      if r == 2 then to + "-" + from + "-round" + round + "-" + S.uuid else to + "-round" + round + "-" + S.uuid
  {
    KeyTexts(Keygen.KeygenProtocol(S), a, r, k, from, to, round);
  }

  /** Messages of signing: the round with index r is named r, and the replies of round 2 go from the sender
      to the peer, all others to everybody. */
  lemma SignKeyText(S: SignRun.Setup, a: nat, r: nat, k: nat, from: string, to: string, round: string)
    requires IsNumeral(from, a + 1) && IsNumeral(to, if k < a then k + 1 else k + 2) && IsNumeral(round, r)
    ensures MsgKey(SignRun.SignProtocol(S), a, r, k) ==
      if r == 2 then from + "-" + to + "-round" + round + "-" + S.uuid else from + "-round" + round + "-" + S.uuid
    ensures PollKey(SignRun.SignProtocol(S), a, r, k) ==
      if r == 2 then to + "-" + from + "-round" + round + "-" + S.uuid else to + "-round" + round + "-" + S.uuid
  {
    KeyTexts(SignRun.SignProtocol(S), a, r, k, from, to, round);
  }

  /** The keys a party writes and polls, from the numerals of its own and its k-th peer's number. */
  lemma KeyTexts<M>(P: Protocol<M>, a: nat, r: nat, k: nat, from: string, to: string, round: string)
    requires IsNumeral(from, a + 1) && IsNumeral(to, Skip(a, k) + 1) && IsNumeral(round, P.firstRound + r)
    ensures MsgKey(P, a, r, k) ==
      if r in P.p2p then from + "-" + to + "-round" + round + "-" + P.uuid else from + "-round" + round + "-" + P.uuid
    ensures PollKey(P, a, r, k) ==
      if r in P.p2p then to + "-" + from + "-round" + round + "-" + P.uuid else to + "-round" + round + "-" + P.uuid
  {
    hide IsNumeral, Text;
    if r in P.p2p {
      PointToPointText(from, to, round, P.uuid, a + 1, Skip(a, k) + 1, P.firstRound + r);
      PointToPointText(to, from, round, P.uuid, Skip(a, k) + 1, a + 1, P.firstRound + r);
    } else {
      BroadcastText(from, round, P.uuid, a + 1, P.firstRound + r);
      BroadcastText(to, round, P.uuid, Skip(a, k) + 1, P.firstRound + r);
    }
  }
}
