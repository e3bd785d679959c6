/** Runs of a state machine given by an initial-state and a next-state predicate. */
module Runs {

  /** `t` is reached from `s` in `n` steps. */
  ghost predicate ReachesIn<S(!new)>(next: (S, S) -> bool, s: S, t: S, n: nat) {
    if n == 0 then s == t else exists m :: ReachesIn(next, s, m, n - 1) && next(m, t)
  }

  ghost predicate Reaches<S(!new)>(next: (S, S) -> bool, s: S, t: S) {
    exists n: nat :: ReachesIn(next, s, t, n)
  }

  ghost predicate Reachable<S(!new)>(init: S -> bool, next: (S, S) -> bool, t: S) {
    exists s :: init(s) && Reaches(next, s, t)
  }

  ghost predicate Inductive<S(!new)>(next: (S, S) -> bool, inv: S -> bool) {
    forall s, t :: inv(s) && next(s, t) ==> inv(t)
  }

  lemma {:induction false} InductiveAlong<S(!new)>(next: (S, S) -> bool, inv: S -> bool, s: S, t: S, n: nat)
    requires Inductive(next, inv) && inv(s) && ReachesIn(next, s, t, n)
    ensures inv(t)
  {
    if n > 0 {
      var m :| ReachesIn(next, s, m, n - 1) && next(m, t);
      InductiveAlong(next, inv, s, m, n - 1);
    }
  }

  /** The same for a property that speaks of the number of steps. */
  lemma {:induction false} CountedAlong<S(!new)>(next: (S, S) -> bool, inv: (S, nat) -> bool, s: S, t: S, n: nat)
    requires forall m, k: nat, m' :: inv(m, k) && next(m, m') ==> inv(m', k + 1)
    requires inv(s, 0) && ReachesIn(next, s, t, n)
    ensures inv(t, n)
  {
    if n > 0 {
      var m :| ReachesIn(next, s, m, n - 1) && next(m, t);
      CountedAlong(next, inv, s, m, n - 1);
    }
  }

  lemma InvariantHolds<S(!new)>(init: S -> bool, next: (S, S) -> bool, inv: S -> bool, t: S)
    requires forall s :: init(s) ==> inv(s)
    requires Inductive(next, inv) && Reachable(init, next, t)
    ensures inv(t)
  {
    var s :| init(s) && Reaches(next, s, t);
    var n: nat :| ReachesIn(next, s, t, n);
    InductiveAlong(next, inv, s, t, n);
  }

  lemma {:induction false} Chain<S(!new)>(next: (S, S) -> bool, s: S, m: S, t: S, i: nat, j: nat)
    requires ReachesIn(next, s, m, i) && ReachesIn(next, m, t, j)
    ensures ReachesIn(next, s, t, i + j)
  {
    if j > 0 {
      var k :| ReachesIn(next, m, k, j - 1) && next(k, t);
      Chain(next, s, m, k, i, j - 1);
    }
  }

  lemma ReachesTransitive<S(!new)>(next: (S, S) -> bool, s: S, m: S, t: S)
    requires Reaches(next, s, m) && Reaches(next, m, t)
    ensures Reaches(next, s, t)
  {
    var i: nat :| ReachesIn(next, s, m, i);
    var j: nat :| ReachesIn(next, m, t, j);
    Chain(next, s, m, t, i, j);
  }

  lemma ReachesSelf<S(!new)>(next: (S, S) -> bool, s: S)
    ensures Reaches(next, s, s)
  {
    assert ReachesIn(next, s, s, 0);
  }

  lemma ReachesOne<S(!new)>(next: (S, S) -> bool, s: S, t: S)
    requires next(s, t)
    ensures Reaches(next, s, t)
  {
    assert ReachesIn(next, s, s, 0);
    assert ReachesIn(next, s, t, 1);
  }

  lemma ReachesMore<S(!new)>(next: (S, S) -> bool, s: S, m: S, t: S)
    requires Reaches(next, s, m) && next(m, t)
    ensures Reaches(next, s, t)
  {
    ReachesOne(next, m, t);
    ReachesTransitive(next, s, m, t);
  }

  lemma ReachableMore<S(!new)>(init: S -> bool, next: (S, S) -> bool, s: S, t: S)
    requires Reachable(init, next, s) && Reaches(next, s, t)
    ensures Reachable(init, next, t)
  {
    var s0 :| init(s0) && Reaches(next, s0, s);
    ReachesTransitive(next, s0, s, t);
  }

  lemma ReachableNext<S(!new)>(init: S -> bool, next: (S, S) -> bool, s: S, t: S)
    requires Reachable(init, next, s) && next(s, t)
    ensures Reachable(init, next, t)
  {
    ReachesOne(next, s, t);
    ReachableMore(init, next, s, t);
  }

  /** A map that carries steps to steps carries runs to runs. */
  lemma {:induction false} MappedIn<S(!new), T(!new)>(
      next: (S, S) -> bool, next': (T, T) -> bool, f: S -> T, s: S, t: S, n: nat)
    requires forall x, y :: next(x, y) ==> next'(f(x), f(y))
    requires ReachesIn(next, s, t, n)
    ensures ReachesIn(next', f(s), f(t), n)
  {
    if n > 0 {
      var m :| ReachesIn(next, s, m, n - 1) && next(m, t);
      MappedIn(next, next', f, s, m, n - 1);
    }
  }

  lemma ReachesMapped<S(!new), T(!new)>(next: (S, S) -> bool, next': (T, T) -> bool, f: S -> T, s: S, t: S)
    requires forall x, y :: next(x, y) ==> next'(f(x), f(y))
    requires Reaches(next, s, t)
    ensures Reaches(next', f(s), f(t))
  {
    var n: nat :| ReachesIn(next, s, t, n);
    MappedIn(next, next', f, s, t, n);
  }
}
