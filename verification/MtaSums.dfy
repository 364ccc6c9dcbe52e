/** The double sum behind phase 2: every additive share kept by one signer meets the share decoded by
    its peer, so the signers' shares add up to a product of sums. */
module MtaSums {
  import opened Modular
  import opened Slots
  import opened Library
  import opened Signing

  /** What the signer in slot a decodes from the others' replies: a reply from b carries v(b) times
      the own k(a), masked with the tag b used for the slot of a. */
  ghost function Decoded(m: nat, k: nat -> int, v: nat -> int, tag: (nat, nat) -> int, a: nat): seq<int>
    requires a < m
  {
    Peers(m, a, Row(Masked(k, v, tag), a))
  }

  /** The shares it keeps from its own replies. */
  ghost function Kept(m: nat, tag: (nat, nat) -> int, a: nat): seq<int>
    requires a < m
  {
    Peers(m, a, Row(Unmasks(tag), a))
  }

  /** The tag i used in its reply to j; slots count the peers of i. */
  ghost function Tag(tag: (nat, nat) -> int, i: nat, j: nat): int {
    if i == j then 0 else tag(i, Unskip(i, j))
  }

  ghost function ProductShare(m: nat, k: nat -> int, v: nat -> int, tag: (nat, nat) -> int, a: nat): int
    requires a < m
  {
    Phase2(k(a), v(a), Decoded(m, k, v, tag, a), Kept(m, tag, a))
  }

  ghost function Shares(m: nat, k: nat -> int, v: nat -> int, tag: (nat, nat) -> int): nat -> int {
    (a: nat) => if a < m then ProductShare(m, k, v, tag, a) else 0
  }

  /** A sum over the peers is the sum over everybody without the own term. */
  lemma SumPeers(m: nat, own: nat, f: nat -> int)
    requires own < m
    ensures Sum(Peers(m, own, f)) == SumTo(m, f) - f(own)
  {
    SumIsSumTo(Peers(m, own, f), m - 1, Skipping(own, f));
    SumSkip(m, own, f);
  }

  ghost function Masked(k: nat -> int, v: nat -> int, tag: (nat, nat) -> int): (nat, nat) -> int {
    (a: nat, b: nat) => k(a) * v(b) + Tag(tag, b, a)
  }

  ghost function Masks(tag: (nat, nat) -> int): (nat, nat) -> int {
    (a: nat, b: nat) => Tag(tag, a, b)
  }

  ghost function Unmasks(tag: (nat, nat) -> int): (nat, nat) -> int {
    (a: nat, b: nat) => -Tag(tag, a, b)
  }

  ghost function MasksReceived(tag: (nat, nat) -> int): (nat, nat) -> int {
    (a: nat, b: nat) => Tag(tag, b, a)
  }

  ghost function Products(k: nat -> int, v: nat -> int): (nat, nat) -> int {
    (a: nat, b: nat) => k(a) * v(b)
  }

  /** A signer's share is the row of what it decodes and keeps, the own product included. */
  lemma ShareIsRow(m: nat, k: nat -> int, v: nat -> int, tag: (nat, nat) -> int, a: nat)
    requires a < m
    ensures ProductShare(m, k, v, tag, a) == SumTo(m, Row(Masked(k, v, tag), a)) + SumTo(m, Row(Unmasks(tag), a))
  {
    var f, g := Row(Masked(k, v, tag), a), Row(Unmasks(tag), a);
    SumPeers(m, a, f);
    SumPeers(m, a, g);
  }

  lemma RowSplit(m: nat, k: nat -> int, v: nat -> int, tag: (nat, nat) -> int, a: nat)
    ensures SumTo(m, Row(Masked(k, v, tag), a)) == k(a) * SumTo(m, v) + SumTo(m, Row(MasksReceived(tag), a))
    ensures SumTo(m, Row(Unmasks(tag), a)) == -SumTo(m, Row(Masks(tag), a))
  {
    SumScale(m, k(a), v, Row(Products(k, v), a));
    SumAdd(m, Row(Products(k, v), a), Row(MasksReceived(tag), a), Row(Masked(k, v, tag), a));
    SumScale(m, -1, Row(Masks(tag), a), Row(Unmasks(tag), a));
  }

  /** Each mask is added by its receiver and taken off by its sender. */
  lemma MasksCancel(m: nat, tag: (nat, nat) -> int)
    ensures SumTo(m, RowSums(m, MasksReceived(tag))) == SumTo(m, RowSums(m, Masks(tag)))
  {
    SumSwap(m, m, Masks(tag));
    forall a | 0 <= a < m
      ensures RowSums(m, MasksReceived(tag))(a) == ColSums(m, Masks(tag))(a)
    {
      SumExt(m, Row(MasksReceived(tag), a), Col(Masks(tag), a));
    }
    SumExt(m, RowSums(m, MasksReceived(tag)), ColSums(m, Masks(tag)));
  }

  /** The shares of all signers add up to the product of the two sums. */
  lemma SharesSumToProduct(m: nat, k: nat -> int, v: nat -> int, tag: (nat, nat) -> int)
    ensures SumTo(m, Shares(m, k, v, tag)) == SumTo(m, k) * SumTo(m, v)
  {
    var total, received, sent := SumTo(m, v), RowSums(m, MasksReceived(tag)), RowSums(m, Masks(tag));
    var scaled, net := (a: nat) => total * k(a), (a: nat) => received(a) - sent(a);
    forall a | 0 <= a < m
      ensures Shares(m, k, v, tag)(a) == scaled(a) + net(a)
    {
      ShareIsRow(m, k, v, tag, a);
      RowSplit(m, k, v, tag, a);
      assert total * k(a) == k(a) * total;
    }
    SumAdd(m, scaled, net, Shares(m, k, v, tag));
    SumScale(m, total, k, scaled);
    SumLinear(m, 1, received, -1, sent, net);
    MasksCancel(m, tag);
    assert total * SumTo(m, k) == SumTo(m, k) * total;
  }
}
