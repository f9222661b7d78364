/**
  Runs of steppers: one more step, what is shown of a run, and two functions run side by side.
 */
module Runs {
  import opened Records
  import opened IR

  lemma RunEnds(f: Stepper, s: State, k: nat)
    requires f(s).None? && k > 0
    ensures Run(f, s, k).None? && Trace(f, s, k) == [s.at] && Visible(f, s, k) == if s.at.Orig? then [s.at] else []
  {
  }

  lemma RunGoesOn(f: Stepper, s: State, k: nat)
    requires f(s).Some?
    ensures Run(f, s, k + 1) == Run(f, f(s).value, k) && Trace(f, s, k + 1) == [s.at] + Trace(f, f(s).value, k)
  {
  }

  lemma RunHides(g: Stepper, r: State, k: nat)
    requires g(r).Some? && !r.at.Orig?
    ensures Run(g, r, k + 1) == Run(g, g(r).value, k) && Visible(g, r, k + 1) == Visible(g, g(r).value, k)
  {
  }

  lemma RunShows(g: Stepper, r: State, k: nat)
    requires g(r).Some? && r.at.Orig?
    ensures Run(g, r, k + 1) == Run(g, g(r).value, k) && Visible(g, r, k + 1) == [r.at] + Visible(g, g(r).value, k)
  {
  }

  /** One block on both sides, and then the end. */
  lemma SameBlockLast(f: Stepper, g: Stepper, s: State, r: State, k: nat)
    requires f(s).None? && g(r).None? && r.at == s.at && s.at.Orig? && k > 0
    ensures Visible(g, r, k) == Trace(f, s, k) && Run(f, s, k).None? && Run(g, r, k).None?
  {
    RunEnds(f, s, k);
    RunEnds(g, r, k);
  }

  /** One block on both sides, in front of runs that show the same. */
  lemma SameBlockFirst(f: Stepper, g: Stepper, s: State, r: State, k: nat, i: nat)
    requires f(s).Some? && g(r).Some? && r.at == s.at && s.at.Orig?
    requires Visible(g, g(r).value, i) == Trace(f, f(s).value, k)
    ensures Visible(g, r, i + 1) == Trace(f, s, k + 1)
    ensures Run(f, s, k + 1) == Run(f, f(s).value, k) && Run(g, r, i + 1) == Run(g, g(r).value, i)
  {
    RunGoesOn(f, s, k);
    RunShows(g, r, i);
  }

  /** States of two functions that are the same but for some names. */
  type Likeness = (State, State) -> bool

  ghost predicate BothLike(like: Likeness, s: Option<State>, r: Option<State>) {
    if s.None? || r.None? then s.None? && r.None? else like(s.value, r.value)
  }

  ghost predicate Compare(s: State, r: State) { true }

  /** Functions whose states stay alike, step by step, run alike. */
  lemma {:induction false} RunsAlike(f: Stepper, g: Stepper, like: Likeness, s: State, r: State, k: nat)
    requires forall a, c {:trigger Compare(a, c)} :: Compare(a, c) && like(a, c) ==> a.at == c.at && BothLike(like, f(a), g(c))
    requires like(s, r)
    ensures BothLike(like, Run(f, s, k), Run(g, r, k)) && Trace(g, r, k) == Trace(f, s, k)
    decreases k
  {
    if k > 0 {
      assert Compare(s, r);
      if f(s).Some? { RunsAlike(f, g, like, f(s).value, g(r).value, k - 1); }
    }
  }

  /** What every step keeps holds after any number of steps. */
  lemma {:induction false} KeptByRuns(step: Stepper, inv: State -> bool, s: State, k: nat)
    requires inv(s) && forall a :: inv(a) && step(a).Some? ==> inv(step(a).value)
    ensures Run(step, s, k).Some? ==> inv(Run(step, s, k).value)
    decreases k
  {
    if k > 0 && step(s).Some? { KeptByRuns(step, inv, step(s).value, k - 1); }
  }

  function Originals(trace: seq<Label>): seq<Label> {
    if trace == [] then [] else (if trace[0].Orig? then [trace[0]] else []) + Originals(trace[1..])
  }

  lemma {:induction false} VisibleIsOriginals(f: Stepper, s: State, k: nat)
    ensures Visible(f, s, k) == Originals(Trace(f, s, k))
    decreases k
  {
    if k > 0 {
      var next := f(s);
      if next.Some? {
        VisibleIsOriginals(f, next.value, k - 1);
        assert ([s.at] + Trace(f, next.value, k - 1))[1..] == Trace(f, next.value, k - 1);
      } else {
        assert [s.at][1..] == [] && Originals([]) == [];
      }
    }
  }

  lemma {:induction false} VisibleSplit(g: Stepper, s: State, i: nat, j: nat)
    requires Run(g, s, i).Some?
    ensures Visible(g, s, i + j) == Visible(g, s, i) + Visible(g, Run(g, s, i).value, j)
    ensures Run(g, s, i + j) == Run(g, Run(g, s, i).value, j)
    decreases i
  {
    if i > 0 { VisibleSplit(g, g(s).value, i - 1, j); }
  }

  lemma AfterOne(g: Stepper, r: State, n: nat)
    requires Run(g, r, n).Some?
    ensures Run(g, r, n + 1) == g(Run(g, r, n).value)
  {
    VisibleSplit(g, r, n, 1);
    var at := Run(g, r, n).value;
    if g(at).Some? { assert Run(g, at, 1) == Run(g, g(at).value, 0); }
  }
}
