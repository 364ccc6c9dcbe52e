/** A growable vector that is handed around and changed in place. */
module Vectors {
  import opened Slots

  class Vec<T> {
    var items: seq<T>

    constructor ()
      ensures items == []
    {
      items := [];
    }

    method Push(x: T)
      modifies this
      ensures items == old(items) + [x]
    {
      items := items + [x];
    }

    /** Makes room at position i, which may be the end. */
    method Insert(i: nat, x: T)
      requires i <= |items|
      modifies this
      ensures items == Rebuild(old(items), i, x)
    {
      items := items[..i] + [x] + items[i..];
    }

    method Remove(i: nat) returns (x: T)
      requires i < |items|
      modifies this
      ensures items == Slots.Remove(old(items), i) && x == old(items)[i]
    {
      x := items[i];
      items := items[..i] + items[i + 1..];
    }
  }
}
