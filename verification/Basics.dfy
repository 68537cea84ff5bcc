/** The types shared by the other modules. */
module Basics {

  datatype Option<+T> = None | Some(value: T)

  /** What a caller sees of a transaction. */
  datatype Outcome<+T, +E> = Ok(value: T) | Err(error: E)

  /** A transaction that either commits a new state or is refused and rolled back. */
  datatype Attempt<+S, +T, +E> = Done(state: S, value: T) | Refused(error: E) {
    /** The state that is left behind. */
    function After(before: S): S {
      if Done? then state else before
    }

    function Outcome(): Outcome<T, E> {
      if Done? then Ok(value) else Err(error)
    }
  }

  /** The result of applying `f` at 0, 1, ... up to but not including `n`. */
  function Iterate<S>(f: (S, nat) -> S, s: S, n: nat): S {
    if n == 0 then s else f(Iterate(f, s, n - 1), n - 1)
  }

  /** What holds at first and is kept by each application holds at the end. */
  lemma {:induction false} IterateKeeps<S>(f: (S, nat) -> S, inv: (S, nat) -> bool, s: S, n: nat)
    requires inv(s, 0)
    requires forall t: S, j: nat | j < n && inv(t, j) :: inv(f(t, j), j + 1)
    ensures inv(Iterate(f, s, n), n)
  {
    if n > 0 {
      IterateKeeps(f, inv, s, n - 1);
    }
  }

  /** What `g` gives at each of those applications, one after the other. */
  function Collect<S, T>(f: (S, nat) -> S, g: (S, nat) -> seq<T>, s: S, n: nat): seq<T> {
    if n == 0 then [] else Collect(f, g, s, n - 1) + g(Iterate(f, s, n - 1), n - 1)
  }

  /** `p` holds before each of those applications. */
  ghost predicate Always<S>(f: (S, nat) -> S, p: (S, nat) -> bool, s: S, n: nat) {
    forall j: nat | j < n :: p(Iterate(f, s, j), j)
  }

  lemma {:induction false} CollectKeeps<S, T>(
      f: (S, nat) -> S, g: (S, nat) -> seq<T>, p: (S, nat) -> bool, inv: (S, seq<T>) -> bool, s: S, n: nat)
    requires inv(s, []) && Always(f, p, s, n)
    requires forall t: S, c: seq<T>, j: nat | j < n && p(t, j) && inv(t, c) :: inv(f(t, j), c + g(t, j))
    ensures inv(Iterate(f, s, n), Collect(f, g, s, n))
  {
    if n > 0 {
      CollectKeeps(f, g, p, inv, s, n - 1);
      assert p(Iterate(f, s, n - 1), n - 1);
    }
  }
}
