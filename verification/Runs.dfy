/** Transition systems and their runs. */
module Runs {

  datatype Machine<!S, !A> = Machine(init: S -> bool, enabled: (S, A) -> bool, effect: (S, A) -> S)

  ghost predicate Next<S, A(!new)>(m: Machine<S, A>, s: S, s': S) {
    exists a :: m.enabled(s, a) && s' == m.effect(s, a)
  }

  ghost predicate IsRun<S, A(!new)>(m: Machine<S, A>, run: seq<S>) {
    && |run| > 0 && m.init(run[0])
    && forall i | 0 <= i < |run| - 1 :: Next(m, run[i], run[i + 1])
  }

  /** What holds at first and what every step keeps holds at the end of every run. */
  lemma {:induction false} InvHolds<S(!new), A(!new)>(m: Machine<S, A>, inv: S -> bool, run: seq<S>)
    requires IsRun(m, run)
    requires forall s | m.init(s) :: inv(s)
    requires forall s, a | inv(s) && m.enabled(s, a) :: inv(m.effect(s, a))
    ensures inv(run[|run| - 1])
  {
    if |run| == 1 {
    } else {
      InvHolds(m, inv, run[..|run| - 1]);
      assert Next(m, run[|run| - 2], run[|run| - 1]);
    }
  }

  /** Every longer run is a run and one more step. */
  lemma LastStep<S, A(!new)>(m: Machine<S, A>, run: seq<S>) returns (a: A)
    requires IsRun(m, run) && |run| > 1
    ensures IsRun(m, run[..|run| - 1])
    ensures m.enabled(run[|run| - 2], a) && run[|run| - 1] == m.effect(run[|run| - 2], a)
  {
    assert Next(m, run[|run| - 2], run[|run| - 1]);
    a :| m.enabled(run[|run| - 2], a) && run[|run| - 1] == m.effect(run[|run| - 2], a);
  }

  lemma Extend<S, A(!new)>(m: Machine<S, A>, run: seq<S>, a: A) returns (longer: seq<S>)
    requires IsRun(m, run) && m.enabled(run[|run| - 1], a)
    ensures IsRun(m, longer) && longer[|longer| - 1] == m.effect(run[|run| - 1], a)
  {
    longer := run + [m.effect(run[|run| - 1], a)];
    forall i | 0 <= i < |longer| - 1 ensures Next(m, longer[i], longer[i + 1]) {
      if i < |run| - 1 {
        assert Next(m, run[i], run[i + 1]);
      }
    }
  }

  // ---------------------------------------------------------------------------
  // Runs given by their actions
  // ---------------------------------------------------------------------------

  ghost predicate IsPath<S, A>(m: Machine<S, A>, s: S, actions: seq<A>)
    decreases |actions|
  {
    actions == [] || (m.enabled(s, actions[0]) && IsPath(m, m.effect(s, actions[0]), actions[1..]))
  }

  ghost function End<S, A>(m: Machine<S, A>, s: S, actions: seq<A>): S
    decreases |actions|
  {
    if actions == [] then s else End(m, m.effect(s, actions[0]), actions[1..])
  }

  lemma {:induction false} PathAppend<S, A>(m: Machine<S, A>, s: S, actions: seq<A>, more: seq<A>)
    requires IsPath(m, s, actions) && IsPath(m, End(m, s, actions), more)
    ensures IsPath(m, s, actions + more) && End(m, s, actions + more) == End(m, End(m, s, actions), more)
    decreases |actions|
  {
    if actions == [] {
      assert actions + more == more;
    } else {
      PathAppend(m, m.effect(s, actions[0]), actions[1..], more);
      assert (actions + more)[1..] == actions[1..] + more;
    }
  }

  lemma {:induction false} Follow<S, A(!new)>(m: Machine<S, A>, run: seq<S>, actions: seq<A>) returns (longer: seq<S>)
    requires IsRun(m, run) && IsPath(m, run[|run| - 1], actions)
    ensures IsRun(m, longer) && longer[|longer| - 1] == End(m, run[|run| - 1], actions)
    decreases |actions|
  {
    if actions == [] {
      longer := run;
    } else {
      longer := Extend(m, run, actions[0]);
      longer := Follow(m, longer, actions[1..]);
    }
  }
}
