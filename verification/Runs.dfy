/** Transition systems: what can happen, what it leads to, and what holds after any run. */
module Runs {
  import opened Primitives

  datatype Machine<!S, !E> = Machine(can: (S, E) -> bool, after: (S, E) -> S)

  function Run<S, E>(m: Machine<S, E>, w: S, es: seq<E>): S
    decreases |es|
  {
    if |es| == 0 then w else Run(m, m.after(w, es[0]), es[1..])
  }

  /** Every event of the run could happen when it did. */
  predicate Possible<S, E>(m: Machine<S, E>, w: S, es: seq<E>)
    decreases |es|
  {
    |es| == 0 || (m.can(w, es[0]) && Possible(m, m.after(w, es[0]), es[1..]))
  }

  /** From `w` the run can happen and leads to `end`. */
  ghost predicate Leads<S, E>(m: Machine<S, E>, w: S, es: seq<E>, end: S) {
    Possible(m, w, es) && Run(m, w, es) == end
  }

  lemma {:induction false} LeadsOn<S, E>(m: Machine<S, E>, w: S, es: seq<E>, mid: S, fs: seq<E>, end: S)
    requires Leads(m, w, es, mid) && Leads(m, mid, fs, end)
    ensures Leads(m, w, es + fs, end)
    decreases |es|
  {
    if |es| == 0 {
      assert es + fs == fs;
    } else {
      assert (es + fs)[1..] == es[1..] + fs;
      LeadsOn(m, m.after(w, es[0]), es[1..], mid, fs, end);
    }
  }

  lemma OneStep<S, E>(m: Machine<S, E>, w: S, e: E)
    requires m.can(w, e)
    ensures Leads(m, w, [e], m.after(w, e))
  {
    assert [e][1..] == [];
  }

  lemma NextStep<S, E>(m: Machine<S, E>, w: S, es: seq<E>, mid: S, e: E)
    requires Leads(m, w, es, mid) && m.can(mid, e)
    ensures Leads(m, w, es + [e], m.after(mid, e))
  {
    OneStep(m, mid, e);
    LeadsOn(m, w, es, mid, [e], m.after(mid, e));
  }

  /** What every step keeps, every run keeps. */
  lemma {:induction false} Invariant<S(!new), E(!new)>(m: Machine<S, E>, inv: S -> bool, w: S, es: seq<E>)
    requires inv(w) && Possible(m, w, es)
    requires forall v, e {:trigger m.after(v, e)} :: inv(v) && m.can(v, e) ==> inv(m.after(v, e))
    ensures inv(Run(m, w, es))
    decreases |es|
  {
    if |es| > 0 { Invariant(m, inv, m.after(w, es[0]), es[1..]); }
  }
}
