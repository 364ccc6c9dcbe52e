/** Slot arithmetic: a party hears n - 1 answers and puts its own value into its own slot of an
    n-vector. Slots are numbered from zero; the party in slot a has party number a + 1. */
module Slots {
  import opened Modular

  /** The full vector made of the peers' answers and the own value. */
  function Rebuild<T>(ans: seq<T>, own: nat, v: T): seq<T>
    requires own <= |ans|
  {
    ans[..own] + [v] + ans[own..]
  }

  function Remove<T>(s: seq<T>, i: nat): seq<T>
    requires i < |s|
  {
    s[..i] + s[i + 1..]
  }

  /** Rebuilding and removing the own slot undo each other, and slots keep their owners. */
  lemma RebuildRemove<T>(ans: seq<T>, own: nat, v: T)
    requires own <= |ans|
    ensures |Rebuild(ans, own, v)| == |ans| + 1
    ensures Remove(Rebuild(ans, own, v), own) == ans
    ensures Rebuild(ans, own, v)[own] == v
    ensures forall j :: 0 <= j < |ans| ==> Rebuild(ans, own, v)[Skip(own, j)] == ans[j]
  {
  }

  lemma RemoveRebuild<T>(s: seq<T>, i: nat)
    requires i < |s|
    ensures Rebuild(Remove(s, i), i, s[i]) == s
  {
  }

  /** f(0), ..., f(m - 1) */
  function Table<T>(m: nat, f: nat -> T): (s: seq<T>)
    ensures |s| == m && forall i :: 0 <= i < m ==> s[i] == f(i)
  {
    seq(m, (i: nat) => f(i))
  }

  /** The same without the own slot: what the peers contribute. */
  function Peers<T>(m: nat, own: nat, f: nat -> T): (s: seq<T>)
    requires own < m
    ensures |s| == m - 1 && forall j :: 0 <= j < m - 1 ==> s[j] == f(Skip(own, j))
  {
    seq(m - 1, (j: nat) => f(Skip(own, j)))
  }

  /** If slot b's owner publishes f(b), everyone rebuilds the same vector, whatever the own slot. */
  lemma RebuildPeers<T>(m: nat, own: nat, f: nat -> T)
    requires own < m
    ensures Rebuild(Peers(m, own, f), own, f(own)) == Table(m, f)
    ensures Remove(Table(m, f), own) == Peers(m, own, f)
  {
    var s := Rebuild(Peers(m, own, f), own, f(own));
    assert |s| == m;
    forall i | 0 <= i < m
      ensures s[i] == f(i)
    {
      if i != own {
        assert Skip(own, Unskip(own, i)) == i;
      }
    }
  }

  // ----------------------------------------------------------------------------------------------
  // Rebuilding slot by slot, as the loops over party numbers do
  // ----------------------------------------------------------------------------------------------

  /** The first k slots when the own slot is p - 1: the answers with the own value put in once its
      slot has been passed. */
  function Front<T>(ans: seq<T>, p: nat, v: T, k: nat): (s: seq<T>)
    requires |ans| >= Passed(p, k)
    ensures |s| == k
  {
    if 1 <= p <= k then Rebuild(ans[..k - 1], p - 1, v) else ans[..k]
  }

  /** How many answers the first k slots take. */
  function Passed(p: nat, k: nat): nat {
    if 1 <= p <= k then k - 1 else k
  }

  lemma RebuildPush<T>(s: seq<T>, own: nat, v: T, x: T)
    requires own <= |s|
    ensures Rebuild(s + [x], own, v) == Rebuild(s, own, v) + [x]
  {
  }

  lemma FrontNext<T>(ans: seq<T>, p: nat, v: T, k: nat)
    requires |ans| >= Passed(p, k + 1)
    ensures |ans| >= Passed(p, k)
    ensures p == k + 1 ==> Front(ans, p, v, k + 1) == Front(ans, p, v, k) + [v]
    ensures p != k + 1 ==> |ans| > Passed(p, k) && Front(ans, p, v, k + 1) == Front(ans, p, v, k) + [ans[Passed(p, k)]]
  {
    hide Rebuild;
    if 1 <= p <= k {
      assert ans[..k] == ans[..k - 1] + [ans[k - 1]];
      RebuildPush(ans[..k - 1], p - 1, v, ans[k - 1]);
    } else if p == k + 1 {
      OwnAtEnd(ans[..k], v);
    } else {
      assert ans[..k + 1] == ans[..k] + [ans[k]];
    }
  }

  lemma FrontEnds<T>(ans: seq<T>, p: nat, v: T)
    ensures Front(ans, p, v, 0) == []
    ensures 1 <= p <= |ans| + 1 ==> Front(ans, p, v, |ans| + 1) == Rebuild(ans, p - 1, v)
  {
    assert ans[..|ans|] == ans;
  }

  lemma AllPassed<T>(ans: seq<T>, p: nat, v: T)
    requires p == 0 || p > |ans|
    ensures Front(ans, p, v, |ans|) == ans
  {
    assert ans[..|ans|] == ans;
  }

  lemma OwnAtEnd<T>(s: seq<T>, v: T)
    ensures Rebuild(s, |s|, v) == s + [v]
  {
  }

  /** The front depends only on the answers it takes. */
  lemma FrontPrefix<T>(ans: seq<T>, p: nat, v: T, k: nat)
    requires |ans| == Passed(p, k) + 1
    ensures Front(ans, p, v, k) == Front(ans[..|ans| - 1], p, v, k)
  {
    if 1 <= p <= k {
      assert ans[..|ans| - 1][..k - 1] == ans[..k - 1];
    } else {
      assert ans[..|ans| - 1][..k] == ans[..k];
    }
  }
}
