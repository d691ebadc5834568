/** Folding a step over a sequence, and when one changed element must show in the result. */
module Folding {
  import opened Integers

  function Fold<A>(step: (u32, A) -> u32, h: u32, s: seq<A>): u32 {
    if s == [] then h else step(Fold(step, h, s[..|s| - 1]), s[|s| - 1])
  }

  /** No input brings two different states together. */
  ghost predicate KeepsStatesApart<A(!new)>(step: (u32, A) -> u32) {
    forall h, g, a :: step(h, a) == step(g, a) ==> h == g
  }

  /** From one state, different inputs lead to different states. */
  ghost predicate KeepsInputsApart<A(!new)>(step: (u32, A) -> u32) {
    forall h, a, b :: step(h, a) == step(h, b) ==> a == b
  }

  lemma {:induction false} FoldApart<A(!new)>(step: (u32, A) -> u32, h: u32, g: u32, s: seq<A>)
    requires KeepsStatesApart(step) && h != g
    ensures Fold(step, h, s) != Fold(step, g, s)
  {
    if s != [] {
      FoldApart(step, h, g, s[..|s| - 1]);
    }
  }

  /** Changing exactly one element of the input changes the final state. */
  lemma {:induction false} OneChangeShows<A(!new)>(step: (u32, A) -> u32, h: u32, s: seq<A>, t: seq<A>, i: nat)
    requires KeepsStatesApart(step) && KeepsInputsApart(step)
    requires |s| == |t| && i < |s| && s[i] != t[i]
    requires forall j :: 0 <= j < |s| && j != i ==> s[j] == t[j]
    ensures Fold(step, h, s) != Fold(step, h, t)
  {
    var last := |s| - 1;
    if i == last {
      assert s[..last] == t[..last];
    } else {
      OneChangeShows(step, h, s[..last], t[..last], i);
    }
  }
}
