// One caller among many: between two of its own statements the others take whatever steps they like.
module Schedule {

  /** What the others do before the next own statement, given the state they find. */
  type Others<!S, T> = S -> seq<T>

  function Played<S, T>(go: (S, T) -> S, s: S, ss: seq<T>): S {
    if ss == [] then s else go(Played(go, s, ss[..|ss| - 1]), ss[|ss| - 1])
  }

  /** Each step is possible at its turn. */
  predicate Playable<S, T>(can: (S, T) -> bool, go: (S, T) -> S, s: S, ss: seq<T>) {
    ss == [] || (Playable(can, go, s, ss[..|ss| - 1]) && can(Played(go, s, ss[..|ss| - 1]), ss[|ss| - 1]))
  }

  /** The state t is reached from s by the steps ss. */
  predicate Leads<S(==), T>(can: (S, T) -> bool, go: (S, T) -> S, s: S, ss: seq<T>, t: S) {
    Playable(can, go, s, ss) && t == Played(go, s, ss)
  }

  lemma OneMore<S, T>(can: (S, T) -> bool, go: (S, T) -> S, s: S, ss: seq<T>, t: S, st: T)
    requires Leads(can, go, s, ss, t) && can(t, st)
    ensures Leads(can, go, s, ss + [st], go(t, st))
  {
    assert (ss + [st])[..|ss|] == ss;
  }

  lemma {:induction false} Joined<S, T>(can: (S, T) -> bool, go: (S, T) -> S, s: S, a: seq<T>, t: S, b: seq<T>, u: S)
    requires Leads(can, go, s, a, t) && Leads(can, go, t, b, u)
    ensures Leads(can, go, s, a + b, u)
  {
    if b == [] {
      assert a + b == a;
    } else {
      var front, last := b[..|b| - 1], b[|b| - 1];
      var v := Played(go, t, front);
      Joined(can, go, s, a, t, front, v);
      OneMore(can, go, s, a + front, v, last);
      assert (a + front) + [last] == a + b;
    }
  }
}
