// Runs of a transition system, given by a step function that answers None when
// an action is not enabled, and the three ways this project reasons about them.
module Runs {
  import opened Options
  import Sums

  function Exec<S, A>(step: (S, A) -> Option<S>, s: S, run: seq<A>): Option<S> {
    if run == [] then Some(s)
    else match step(s, run[0])
      case None => None
      case Some(next) => Exec(step, next, run[1..])
  }

  ghost predicate Inductive<S(!new), A(!new)>(step: (S, A) -> Option<S>, inv: S -> bool) {
    forall s, a :: inv(s) && step(s, a).Some? ==> inv(step(s, a).value)
  }

  // What every step keeps, every run keeps.
  lemma {:induction false} Invariance<S(!new), A(!new)>(step: (S, A) -> Option<S>, inv: S -> bool, s: S, run: seq<A>)
    requires Inductive(step, inv) && inv(s)
    requires Exec(step, s, run).Some?
    ensures inv(Exec(step, s, run).value)
  {
    if run != [] {
      Invariance(step, inv, step(s, run[0]).value, run[1..]);
    }
  }

  // If every step lowers the rank by one, except that action a may first raise it
  // by extra(a), then the rank of the first state bounds the length of the run.
  lemma {:induction false} Bounded<S(!new), A(!new)>(step: (S, A) -> Option<S>, inv: S -> bool, rank: S -> int,
                                                     extra: A -> int, s: S, run: seq<A>)
    requires Inductive(step, inv) && inv(s)
    requires forall x :: inv(x) ==> rank(x) >= 0
    requires forall x, a :: inv(x) && step(x, a).Some? ==> rank(step(x, a).value) + 1 <= rank(x) + extra(a)
    requires Exec(step, s, run).Some?
    ensures |run| <= rank(s) + Sums.Sum(run, extra)
  {
    if run != [] {
      var next := step(s, run[0]).value;
      Bounded(step, inv, rank, extra, next, run[1..]);
    }
  }

  lemma {:induction false} ExecConcat<S, A>(step: (S, A) -> Option<S>, s: S, first: seq<A>, rest: seq<A>)
    requires Exec(step, s, first).Some?
    ensures Exec(step, s, first + rest) == Exec(step, Exec(step, s, first).value, rest)
  {
    if first == [] {
      assert first + rest == rest;
    } else {
      assert (first + rest)[1..] == first[1..] + rest;
      ExecConcat(step, step(s, first[0]).value, first[1..], rest);
    }
  }

  // A run followed by one more step.
  lemma {:induction false} Extend<S, A>(step: (S, A) -> Option<S>, start: S, run: seq<A>, s: S, a: A)
    returns (more: seq<A>)
    requires Exec(step, start, run) == Some(s) && step(s, a).Some?
    ensures more == run + [a] && Exec(step, start, more) == step(s, a)
  {
    more := run + [a];
    ExecConcat(step, start, run, [a]);
  }

  // The abstract actions a run performs, when lin says which ones each action performs.
  function Trace<S, A, B>(step: (S, A) -> Option<S>, lin: (S, A) -> seq<B>, s: S, run: seq<A>): seq<B>
    requires Exec(step, s, run).Some?
  {
    if run == [] then []
    else lin(s, run[0]) + Trace(step, lin, step(s, run[0]).value, run[1..])
  }

  // Step-by-step simulation, with stuttering, lifts to whole runs.
  lemma {:induction false} Simulation<S(!new), A(!new), T, B>(
    step: (S, A) -> Option<S>, inv: S -> bool, abstractStep: (T, B) -> Option<T>,
    abs: S -> T, lin: (S, A) -> seq<B>, s: S, run: seq<A>)
    requires Inductive(step, inv) && inv(s)
    requires forall x, a :: inv(x) && step(x, a).Some? ==>
                              Exec(abstractStep, abs(x), lin(x, a)) == Some(abs(step(x, a).value))
    requires Exec(step, s, run).Some?
    ensures Exec(abstractStep, abs(s), Trace(step, lin, s, run)) == Some(abs(Exec(step, s, run).value))
  {
    if run != [] {
      var next := step(s, run[0]).value;
      Simulation(step, inv, abstractStep, abs, lin, next, run[1..]);
      ExecConcat(abstractStep, abs(s), lin(s, run[0]), Trace(step, lin, next, run[1..]));
    }
  }

  // What every step adds to a log, a run adds in order.
  lemma {:induction false} Accumulates<S(!new), A(!new), B>(
    step: (S, A) -> Option<S>, inv: S -> bool, log: S -> seq<B>, lin: (S, A) -> seq<B>, s: S, run: seq<A>)
    requires Inductive(step, inv) && inv(s)
    requires forall x, a :: inv(x) && step(x, a).Some? ==> log(step(x, a).value) == log(x) + lin(x, a)
    requires Exec(step, s, run).Some?
    ensures log(Exec(step, s, run).value) == log(s) + Trace(step, lin, s, run)
  {
    if run != [] {
      var next := step(s, run[0]).value;
      Accumulates(step, inv, log, lin, next, run[1..]);
    }
  }

  // What every step takes off a plan, a run takes off in order.
  lemma {:induction false} Completes<S(!new), A(!new), B>(
    step: (S, A) -> Option<S>, inv: S -> bool, plan: S -> seq<B>, lin: (S, A) -> seq<B>, s: S, run: seq<A>)
    requires Inductive(step, inv) && inv(s)
    requires forall x, a :: inv(x) && step(x, a).Some? ==> plan(x) == lin(x, a) + plan(step(x, a).value)
    requires Exec(step, s, run).Some?
    ensures plan(s) == Trace(step, lin, s, run) + plan(Exec(step, s, run).value)
  {
    if run != [] {
      var next := step(s, run[0]).value;
      Completes(step, inv, plan, lin, next, run[1..]);
    }
  }

  // The actions of a schedule that are enabled when their turn comes.
  function Possible<S, A>(step: (S, A) -> Option<S>, s: S, schedule: seq<A>): (run: seq<A>)
    ensures Exec(step, s, run).Some?
  {
    if schedule == [] then []
    else match step(s, schedule[0])
      case None => Possible(step, s, schedule[1..])
      case Some(next) => [schedule[0]] + Possible(step, next, schedule[1..])
  }

  lemma {:induction false} PossibleSnoc<S, A>(step: (S, A) -> Option<S>, s: S, schedule: seq<A>, a: A)
    ensures var run := Possible(step, s, schedule);
            Possible(step, s, schedule + [a]) ==
            run + if step(Exec(step, s, run).value, a).Some? then [a] else []
  {
    if schedule == [] {
      assert [a][1..] == [];
    } else {
      assert (schedule + [a])[1..] == schedule[1..] + [a];
      match step(s, schedule[0])
      case None => PossibleSnoc(step, s, schedule[1..], a);
      case Some(next) => PossibleSnoc(step, next, schedule[1..], a);
    }
  }

  // A schedule followed one action further.
  lemma {:induction false} PossibleNext<S, A>(step: (S, A) -> Option<S>, start: S, schedule: seq<A>, i: nat, s: S)
    requires i < |schedule| && Exec(step, start, Possible(step, start, schedule[..i])) == Some(s)
    ensures Exec(step, start, Possible(step, start, schedule[..i + 1])) ==
            if step(s, schedule[i]).Some? then step(s, schedule[i]) else Some(s)
  {
    assert schedule[..i + 1] == schedule[..i] + [schedule[i]];
    PossibleSnoc(step, start, schedule[..i], schedule[i]);
    var run := Possible(step, start, schedule[..i]);
    ExecConcat(step, start, run, [schedule[i]]);
    assert run + [] == run;
  }
}
