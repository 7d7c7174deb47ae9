/** Runs of step machines: what every step keeps holds at the end of every run, and a
    machine whose steps are simulated is simulated over whole runs. */
module Runs {

  ghost function Front<E>(events: seq<E>): seq<E>
    requires events != []
  {
    events[..|events| - 1]
  }

  ghost function Last<E>(events: seq<E>): E
    requires events != []
  {
    events[|events| - 1]
  }

  /** The events can happen one after the other from s, ending in t. */
  ghost predicate Run<S(!new), E(!new)>(next: (S, E, S) -> bool, s: S, events: seq<E>, t: S)
    decreases |events|
  {
    if events == [] then s == t
    else exists m :: Run(next, s, Front(events), m) && next(m, Last(events), t)
  }

  lemma RunExtends<S(!new), E(!new)>(next: (S, E, S) -> bool, s: S, events: seq<E>, m: S, e: E, t: S)
    requires Run(next, s, events, m) && next(m, e, t)
    ensures Run(next, s, events + [e], t)
  {
    assert Front(events + [e]) == events && Last(events + [e]) == e;
  }

  lemma {:induction false} RunConcat<S(!new), E(!new)>(next: (S, E, S) -> bool, s: S, es: seq<E>, m: S, fs: seq<E>, t: S)
    requires Run(next, s, es, m) && Run(next, m, fs, t)
    ensures Run(next, s, es + fs, t)
    decreases |fs|
  {
    if fs == [] {
      assert es + fs == es;
    } else {
      var k :| Run(next, m, Front(fs), k) && next(k, Last(fs), t);
      RunConcat(next, s, es, m, Front(fs), k);
      RunExtends(next, s, es + Front(fs), k, Last(fs), t);
      assert es + fs == es + Front(fs) + [Last(fs)];
    }
  }

  /** What holds at the start and is kept by every step holds in every reachable state. */
  lemma {:induction false} RunKeeps<S(!new), E(!new)>(next: (S, E, S) -> bool, inv: S -> bool, s: S, events: seq<E>, t: S)
    requires forall m, e, n | inv(m) && next(m, e, n) :: inv(n)
    requires inv(s) && Run(next, s, events, t)
    ensures inv(t)
    decreases |events|
  {
    if events != [] {
      var m :| Run(next, s, Front(events), m) && next(m, Last(events), t);
      RunKeeps(next, inv, s, Front(events), m);
    }
  }

  /** Forward simulation. `joint` takes a concrete and an abstract state on together, so the run
      of pairs says which abstract step goes with which concrete one, in which state. */
  lemma {:induction false} RunSimulated<S(!new), E(!new), A(!new)>(
    next: (S, E, S) -> bool, joint: ((S, A), E, (S, A)) -> bool, sim: (S, A) -> bool, s: S, a: A, events: seq<E>, t: S)
    returns (b: A)
    requires forall m, e, n, c | sim(m, c) && next(m, e, n) :: exists d :: joint((m, c), e, (n, d)) && sim(n, d)
    requires sim(s, a) && Run(next, s, events, t)
    ensures Run(joint, (s, a), events, (t, b)) && sim(t, b)
    decreases |events|
  {
    if events == [] {
      b := a;
    } else {
      var m :| Run(next, s, Front(events), m) && next(m, Last(events), t);
      var c := RunSimulated(next, joint, sim, s, a, Front(events), m);
      b :| joint((m, c), Last(events), (t, b)) && sim(t, b);
      assert Run(joint, (s, a), Front(events), (m, c));
    }
  }
}
