/** Strings grown by appending one fragment per element of a list. */
module Fragments {
  /** The fragments of all elements, one after the other, in order. */
  function Joined<T>(xs: seq<T>, render: T -> string): string
  {
    if xs == [] then ""
    else Joined(xs[..|xs| - 1], render) + render(xs[|xs| - 1])
  }

  lemma {:induction false} JoinedAppend<T>(a: seq<T>, b: seq<T>, render: T -> string)
    ensures Joined(a + b, render) == Joined(a, render) + Joined(b, render)
    decreases |b|
  {
    if b == [] {
      assert a + b == a;
    } else {
      var b', last := b[..|b| - 1], b[|b| - 1];
      assert (a + b)[..|a + b| - 1] == a + b';
      assert (a + b)[|a + b| - 1] == last;
      JoinedAppend(a, b', render);
    }
  }

  lemma JoinedOne<T>(x: T, render: T -> string)
    ensures Joined([x], render) == render(x)
  {
    assert [x][..0] == [];
  }

  /** Element i's fragment comes right after those of elements 0..i-1 and
      right before those of the elements after it. */
  lemma JoinedAt<T>(xs: seq<T>, render: T -> string, i: nat)
    requires i < |xs|
    ensures Joined(xs, render) == Joined(xs[..i], render) + render(xs[i]) + Joined(xs[i + 1..], render)
  {
    var front, back := xs[..i + 1], xs[i + 1..];
    assert xs == front + back;
    JoinedAppend(front, back, render);
    assert front[..i] == xs[..i];
  }
}
