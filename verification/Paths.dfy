/** Finite paths of a state machine. */
module Paths {
  import opened Options

  /** `next` gives the state after an action, if the action is possible. */
  ghost predicate Path<S, A>(next: (S, A) -> Option<S>, s: S, steps: seq<A>, t: S)
    decreases |steps|
  {
    if steps == [] then s == t
    else next(s, steps[0]).Some? && Path(next, next(s, steps[0]).value, steps[1..], t)
  }

  lemma {:induction false} PathMore<S, A>(next: (S, A) -> Option<S>, s: S, steps: seq<A>, t: S, a: A)
    requires Path(next, s, steps, t) && next(t, a).Some?
    ensures Path(next, s, steps + [a], next(t, a).value)
    decreases |steps|
  {
    if steps == [] {
      assert [a][1..] == [];
    } else {
      assert (steps + [a])[1..] == steps[1..] + [a];
      PathMore(next, next(s, steps[0]).value, steps[1..], t, a);
    }
  }

  lemma PathFrom<S, A>(next: (S, A) -> Option<S>, s: S, a: A, steps: seq<A>, t: S)
    requires next(s, a).Some? && Path(next, next(s, a).value, steps, t)
    ensures Path(next, s, [a] + steps, t)
  {
    assert ([a] + steps)[1..] == steps;
  }
}
