/** Runs of labelled transition systems.

    Every concurrent part of the model is a function `next` from a state and a
    step label to the state after the step, or to `None` when that step is not
    possible there.  A run is a sequence of labels; a claim about "every
    interleaving" is a claim about every sequence of labels. */
module Runs {

  datatype Option<+T> = None | Some(value: T)

  /** The state after taking `steps` from `s`, or `None` if some step is not possible. */
  ghost function Run<S, L>(next: (S, L) -> Option<S>, s: S, steps: seq<L>): Option<S>
    decreases |steps|
  {
    if steps == [] then Some(s)
    else
      match next(s, steps[0])
      case None => None
      case Some(s') => Run(next, s', steps[1..])
  }

  ghost predicate Preserves<S(!new), L(!new)>(next: (S, L) -> Option<S>, inv: S -> bool) {
    forall s, l :: inv(s) && next(s, l).Some? ==> inv(next(s, l).value)
  }

  /** What every step keeps holds at the end of every run. */
  lemma {:induction false} InvariantAlongRun<S(!new), L(!new)>(
      next: (S, L) -> Option<S>, inv: S -> bool, s: S, steps: seq<L>)
    requires Preserves(next, inv)
    requires inv(s)
    ensures Run(next, s, steps).Some? ==> inv(Run(next, s, steps).value)
    decreases |steps|
  {
    if steps != [] && next(s, steps[0]).Some? {
      InvariantAlongRun(next, inv, next(s, steps[0]).value, steps[1..]);
    }
  }

  ghost predicate Decreases<S(!new), L(!new)>(next: (S, L) -> Option<S>, inv: S -> bool, rank: S -> nat) {
    forall s, l :: inv(s) && next(s, l).Some? ==> rank(next(s, l).value) < rank(s)
  }

  /** If every step lowers `rank`, no run is longer than the rank it starts from. */
  lemma {:induction false} RunsAreBounded<S(!new), L(!new)>(
      next: (S, L) -> Option<S>, inv: S -> bool, rank: S -> nat, s: S, steps: seq<L>)
    requires Preserves(next, inv) && Decreases(next, inv, rank)
    requires inv(s)
    requires Run(next, s, steps).Some?
    ensures |steps| + rank(Run(next, s, steps).value) <= rank(s)
    decreases |steps|
  {
    if steps != [] {
      RunsAreBounded(next, inv, rank, next(s, steps[0]).value, steps[1..]);
    }
  }

  /** Runs compose. */
  lemma {:induction false} RunAppend<S, L>(next: (S, L) -> Option<S>, s: S, first: seq<L>, second: seq<L>)
    requires Run(next, s, first).Some?
    ensures Run(next, s, first + second) == Run(next, Run(next, s, first).value, second)
    decreases |first|
  {
    if first == [] {
      assert first + second == second;
    } else {
      assert (first + second)[1..] == first[1..] + second;
      RunAppend(next, next(s, first[0]).value, first[1..], second);
    }
  }

  lemma RunCons<S, L>(next: (S, L) -> Option<S>, s: S, l: L, rest: seq<L>)
    requires next(s, l).Some?
    ensures Run(next, s, [l] + rest) == Run(next, next(s, l).value, rest)
  {
    assert ([l] + rest)[1..] == rest;
  }

  /** `steps` lead from `s` to `r`. */
  ghost predicate Leads<S, L>(next: (S, L) -> Option<S>, s: S, steps: seq<L>, r: S) {
    Run(next, s, steps) == Some(r)
  }

  lemma LeadsOne<S, L>(next: (S, L) -> Option<S>, s: S, l: L, r: S)
    requires next(s, l) == Some(r)
    ensures Leads(next, s, [l], r)
  {
    RunCons(next, s, l, []);
    assert [l] + [] == [l];
  }

  lemma LeadsOn<S, L>(next: (S, L) -> Option<S>, s: S, first: seq<L>, q: S, second: seq<L>, r: S)
    requires Leads(next, s, first, q) && Leads(next, q, second, r)
    ensures Leads(next, s, first + second, r)
  {
    RunAppend(next, s, first, second);
  }

  lemma LeadsOneMore<S, L>(next: (S, L) -> Option<S>, s: S, first: seq<L>, q: S, l: L, r: S)
    requires Leads(next, s, first, q) && next(q, l) == Some(r)
    ensures Leads(next, s, first + [l], r)
  {
    LeadsOne(next, q, l, r);
    LeadsOn(next, s, first, q, [l], r);
  }

  /** Some run from an initial state ends in `s`. */
  ghost predicate Reaches<S(!new), L(!new)>(next: (S, L) -> Option<S>, initial: S -> bool, s: S) {
    exists s0, steps :: initial(s0) && Leads(next, s0, steps, s)
  }

  lemma InitialIsReachable<S(!new), L(!new)>(next: (S, L) -> Option<S>, initial: S -> bool, s: S)
    requires initial(s)
    ensures Reaches(next, initial, s)
  {
    assert Leads(next, s, [], s);
  }

  lemma ReachableOn<S(!new), L(!new)>(next: (S, L) -> Option<S>, initial: S -> bool, s: S, steps: seq<L>, r: S)
    requires Reaches(next, initial, s) && Leads(next, s, steps, r)
    ensures Reaches(next, initial, r)
  {
    var s0, before :| initial(s0) && Leads(next, s0, before, s);
    LeadsOn(next, s0, before, s, steps, r);
  }

  /** `small` only leaves out steps of `big`. */
  ghost predicate Restricts<S(!new), L(!new)>(small: (S, L) -> Option<S>, big: (S, L) -> Option<S>) {
    forall s, l :: small(s, l).Some? ==> big(s, l) == small(s, l)
  }

  lemma {:induction false} LeadsInBig<S(!new), L(!new)>(
      small: (S, L) -> Option<S>, big: (S, L) -> Option<S>, s: S, steps: seq<L>, r: S)
    requires Restricts(small, big) && Leads(small, s, steps, r)
    ensures Leads(big, s, steps, r)
    decreases |steps|
  {
    if steps != [] {
      LeadsInBig(small, big, small(s, steps[0]).value, steps[1..], r);
    }
  }

  /** A run without its last step is a run, and that step leads on from where it ends. */
  lemma RunLast<S, L>(next: (S, L) -> Option<S>, s: S, steps: seq<L>)
    requires steps != [] && Run(next, s, steps).Some?
    ensures var q := Run(next, s, steps[..|steps| - 1]);
            q.Some? && next(q.value, steps[|steps| - 1]) == Run(next, s, steps)
  {
    var first, last := steps[..|steps| - 1], steps[|steps| - 1];
    assert steps == first + [last];
    RunSplit(next, s, first, [last]);
    assert [last][1..] == [];
  }

  lemma {:induction false} RunSplit<S, L>(next: (S, L) -> Option<S>, s: S, first: seq<L>, second: seq<L>)
    requires Run(next, s, first + second).Some?
    ensures Run(next, s, first).Some?
    ensures Run(next, s, first + second) == Run(next, Run(next, s, first).value, second)
    decreases |first|
  {
    if first == [] {
      assert first + second == second;
    } else {
      assert (first + second)[1..] == first[1..] + second;
      RunSplit(next, next(s, first[0]).value, first[1..], second);
    }
  }
}
