/** Queues of tagged elements with one tag left out. */
module TaggedQueues {
  /** The elements of other tags, in their order. */
  function Without<T>(q: seq<T>, tagOf: T -> nat, tag: nat): seq<T> {
    if q == [] then []
    else Without(q[..|q| - 1], tagOf, tag) + if tagOf(q[|q| - 1]) == tag then [] else [q[|q| - 1]]
  }

  lemma WithoutOneMore<T>(q: seq<T>, t: T, tagOf: T -> nat, tag: nat)
    ensures Without(q + [t], tagOf, tag) == Without(q, tagOf, tag) + if tagOf(t) == tag then [] else [t]
  {
    assert (q + [t])[..|q|] == q;
  }

  lemma {:induction false} WithoutConcat<T>(q: seq<T>, r: seq<T>, tagOf: T -> nat, tag: nat)
    ensures Without(q + r, tagOf, tag) == Without(q, tagOf, tag) + Without(r, tagOf, tag)
  {
    if r == [] {
      assert q + r == q;
    } else {
      assert (q + r)[..|q + r| - 1] == q + r[..|r| - 1];
      WithoutConcat(q, r[..|r| - 1], tagOf, tag);
    }
  }

  function Mapped<T, U>(q: seq<T>, f: T -> U): seq<U> {
    seq(|q|, i requires 0 <= i < |q| => f(q[i]))
  }

  /** Leaving a tag out commutes with renaming elements that keep their tags. */
  lemma {:induction false} WithoutMapped<T, U>(q: seq<T>, f: T -> U, tagOf: T -> nat, tagOf': U -> nat, tag: nat)
    requires forall i :: 0 <= i < |q| ==> tagOf'(f(q[i])) == tagOf(q[i])
    ensures Mapped(Without(q, tagOf, tag), f) == Without(Mapped(q, f), tagOf', tag)
  {
    if q != [] {
      var before, last := q[..|q| - 1], q[|q| - 1];
      WithoutMapped(before, f, tagOf, tagOf', tag);
      assert Mapped(q, f) == Mapped(before, f) + [f(last)];
      WithoutOneMore(Mapped(before, f), f(last), tagOf', tag);
    }
  }
}
