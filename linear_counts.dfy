/** How many items a `for_each` over `LinearCorIter` sees from each source
    when the sources are finite: output stops at the first pull from an
    exhausted source. */
module LinearCounts {
  import opened Tagged
  import opened Sources
  import opened Linear
  import opened Arith

  datatype Tally = Tally(primaries: nat, secondaries: nat)

  function Plus(t: Tally, u: Tally): Tally
  {
    Tally(t.primaries + u.primaries, t.secondaries + u.secondaries)
  }

  function Swap(t: Tally): Tally
  {
    Tally(t.secondaries, t.primaries)
  }

  function TallyOf<P, S>(s: seq<Either<P, S>>): Tally
  {
    Tally(|Primaries(s)|, |Secondaries(s)|)
  }

  /** From the start of a steady period with `a > 0`, `rp` primary and `rs`
      secondary items left: runs of `a` primaries each followed by one
      secondary, until one side runs dry. */
  function SteadyCounts(a: nat, rp: nat, rs: nat): Tally
    requires a > 0
  {
    Tally(Min(rp, a * (rs + 1)), Min(rs, rp / a))
  }

  /** The steady phase for any `a`; a negative `a` exchanges the roles of the sources. */
  function SteadyFrom(a: int, rp: nat, rs: nat): Tally
  {
    if a > 0 then SteadyCounts(a, rp, rs)
    else if a < 0 then Swap(SteadyCounts(-a, rs, rp))
    else Tally(0, 0)
  }

  /** The reference count for `linear_correlate(xs, ys, a, b)` with `|xs| == n`
      and `|ys| == m`: the leading run of `b`, then the steady phase of `a`. */
  function LinearCounts(a: int, b: int, n: nat, m: nat): (t: Tally)
    ensures t.primaries <= n && t.secondaries <= m
  {
    if b > 0 then
      if n < b then Tally(n, 0) else Plus(Tally(b, 0), SteadyFrom(a, n - b, m))
    else if b < 0 then
      if m < -b then Tally(0, m) else Plus(Tally(0, -b), SteadyFrom(a, n, m + b))
    else SteadyFrom(a, n, m)
  }

  /** Items from each source come out in source order and none is skipped. */
  lemma {:induction false} DrainInOrder<P, S>(st: LinearState<P, S>)
    requires LinearValid(st)
    ensures |Primaries(LinearDrain(st))| <= |st.primary.Remaining()|
    ensures |Secondaries(LinearDrain(st))| <= |st.secondary.Remaining()|
    ensures Primaries(LinearDrain(st)) == st.primary.Remaining()[..|Primaries(LinearDrain(st))|]
    ensures Secondaries(LinearDrain(st)) == st.secondary.Remaining()[..|Secondaries(LinearDrain(st))|]
    decreases Left(st)
  {
    var (r, nx) := LinearStep(st);
    if r.Some? {
      DrainInOrder(nx);
      var rest := LinearDrain(nx);
      assert LinearDrain(st) == [r.value] + rest;
      PrimariesCons(r.value, rest);
      var ps, ss := st.primary.Remaining(), st.secondary.Remaining();
      if r.value.Primary? {
        assert Primaries(LinearDrain(st)) == [ps[0]] + ps[1..][..|Primaries(rest)|];
        PrefixCons(ps, |Primaries(rest)|);
      } else {
        assert Secondaries(LinearDrain(st)) == [ss[0]] + ss[1..][..|Secondaries(rest)|];
        PrefixCons(ss, |Secondaries(rest)|);
      }
    }
  }

  function TallyOfItem<P, S>(e: Either<P, S>): Tally
  {
    if e.Primary? then Tally(1, 0) else Tally(0, 1)
  }

  lemma TallyCons<P, S>(e: Either<P, S>, rest: seq<Either<P, S>>)
    ensures TallyOf([e] + rest) == Plus(TallyOfItem(e), TallyOf(rest))
  {
    CountsCons(e, rest);
  }

  lemma DrainUnfold<P, S>(st: LinearState<P, S>)
    requires LinearValid(st)
    ensures LinearStep(st).0.None? ==> LinearDrain(st) == []
    ensures LinearStep(st).0.Some? ==>
      LinearDrain(st) == [LinearStep(st).0.value] + LinearDrain(LinearStep(st).1)
  {
  }

  /** One call of the drain: the item it yields is counted once, on its own side. */
  lemma DrainStep<P, S>(st: LinearState<P, S>)
    requires LinearValid(st)
    ensures LinearStep(st).0.None? ==> TallyOf(LinearDrain(st)) == Tally(0, 0)
    ensures LinearStep(st).0.Some? ==>
      TallyOf(LinearDrain(st)) ==
        Plus(TallyOfItem(LinearStep(st).0.value), TallyOf(LinearDrain(LinearStep(st).1)))
  {
    DrainUnfold(st);
    if LinearStep(st).0.Some? {
      TallyCons(LinearStep(st).0.value, LinearDrain(LinearStep(st).1));
    }
  }

  /** The steady phase with `a > 0` counted call by call, from a state with
      `c` primaries still due in the current run and `rp`, `rs` items left:
      a primary while the run lasts, then one secondary and a fresh run,
      until the source whose turn it is has nothing left. */
  function SteadyRunTally(a: nat, c: nat, rp: nat, rs: nat): Tally
    requires a > 0
    decreases rp + rs
  {
    if c > 0 then
      if rp == 0 then Tally(0, 0) else Plus(Tally(1, 0), SteadyRunTally(a, c - 1, rp - 1, rs))
    else
      if rs == 0 then Tally(0, 0) else Plus(Tally(0, 1), SteadyRunTally(a, a, rp, rs - 1))
  }

  /** The same count in closed form. */
  function SteadyRunClosed(a: nat, c: nat, rp: nat, rs: nat): Tally
    requires a > 0
  {
    Tally(Min(rp, c + a * rs), if rp < c then 0 else Min(rs, (rp - c) / a + 1))
  }

  lemma SteadyRunClosedPrimary(a: nat, c: nat, rp: nat, rs: nat)
    requires a > 0 && c > 0
    ensures rp == 0 ==> SteadyRunClosed(a, c, rp, rs) == Tally(0, 0)
    ensures rp > 0 ==>
      SteadyRunClosed(a, c, rp, rs) == Plus(Tally(1, 0), SteadyRunClosed(a, c - 1, rp - 1, rs))
  {
    var ars := a * rs;
    assert ars >= 0;
  }

  lemma SteadyRunClosedSecondary(a: nat, rp: nat, rs: nat)
    requires a > 0
    ensures rs == 0 ==> SteadyRunClosed(a, 0, rp, rs) == Tally(0, 0)
    ensures rs > 0 ==>
      SteadyRunClosed(a, 0, rp, rs) == Plus(Tally(0, 1), SteadyRunClosed(a, a, rp, rs - 1))
  {
    if rs > 0 {
      assert a * rs == a + a * (rs - 1);
      DivStep(rp, a);
    }
  }

  /** The call-by-call count agrees with the closed form. */
  lemma {:induction false} SteadyRunClosedForm(a: nat, c: nat, rp: nat, rs: nat)
    requires a > 0
    ensures SteadyRunTally(a, c, rp, rs) == SteadyRunClosed(a, c, rp, rs)
    decreases rp + rs
  {
    if c > 0 {
      SteadyRunClosedPrimary(a, c, rp, rs);
      if rp > 0 {
        SteadyRunClosedForm(a, c - 1, rp - 1, rs);
      }
    } else {
      SteadyRunClosedSecondary(a, rp, rs);
      if rs > 0 {
        SteadyRunClosedForm(a, a, rp, rs - 1);
      }
    }
  }

  /** One call in the steady phase with `a > 0`: a primary while the run
      lasts, otherwise a secondary and a fresh run. */
  lemma SteadyStepShape<P, S>(st: LinearState<P, S>)
    requires LinearValid(st) && st.counters.b == 0 && st.counters.a > 0
    requires 0 <= st.counters.c <= st.counters.a
    ensures var r, nx := LinearStep(st).0, LinearStep(st).1;
      var a, c := st.counters.a, st.counters.c;
      var rp, rs := |st.primary.Remaining()|, |st.secondary.Remaining()|;
      (c > 0 ==>
        (r.None? <==> rp == 0) &&
        (r.Some? ==>
          TallyOfItem(r.value) == Tally(1, 0) && nx.counters == Counters(a, 0, c - 1) &&
          |nx.primary.Remaining()| == rp - 1 && |nx.secondary.Remaining()| == rs)) &&
      (c == 0 ==>
        (r.None? <==> rs == 0) &&
        (r.Some? ==>
          TallyOfItem(r.value) == Tally(0, 1) && nx.counters == Counters(a, 0, a) &&
          |nx.primary.Remaining()| == rp && |nx.secondary.Remaining()| == rs - 1))
  {
  }

  /** The steady phase with `a > 0`, entered with `c` primaries still due in the current run. */
  lemma {:induction false} SteadyRun<P, S>(st: LinearState<P, S>)
    requires LinearValid(st) && st.counters.b == 0 && st.counters.a > 0
    requires 0 <= st.counters.c <= st.counters.a
    ensures TallyOf(LinearDrain(st)) ==
      SteadyRunTally(st.counters.a, st.counters.c, |st.primary.Remaining()|, |st.secondary.Remaining()|)
    decreases Left(st)
  {
    DrainStep(st);
    SteadyStepShape(st);
    var r, nx := LinearStep(st).0, LinearStep(st).1;
    if r.Some? {
      SteadyRun(nx);
    }
  }

  /** `Tick` treats a spent leading run like a period start. */
  lemma LeadRunSpent<P, S>(st: LinearState<P, S>)
    requires LinearValid(st) && st.counters.b != 0 && st.counters.c == 0
    ensures LinearValid(st.(counters := Counters(st.counters.a, 0, st.counters.a)))
    ensures LinearDrain(st) == LinearDrain(st.(counters := Counters(st.counters.a, 0, st.counters.a)))
  {
    var st' := st.(counters := Counters(st.counters.a, 0, st.counters.a));
    assert Tick(st.counters) == Tick(st'.counters);
    assert LinearStep(st) == LinearStep(st');
  }

  function NegCounters(k: Counters): Counters
  {
    Counters(-k.a, -k.b, -k.c)
  }

  function FlipSide(o: Option<Side>): Option<Side>
  {
    if o.Some? then Some(Other(o.value)) else None
  }

  function FlipOutput<P, S>(o: Option<Either<P, S>>): Option<Either<S, P>>
  {
    if o.Some? then Some(Flip(o.value)) else None
  }

  /** The same iterator with both coefficients negated and the sources exchanged. */
  function Mirror<P, S>(st: LinearState<P, S>): LinearState<S, P>
  {
    LinearState(NegCounters(st.counters), st.secondary, st.primary)
  }

  /** Negating the counters makes each call pull from the other side. */
  lemma TickMirror(k: Counters)
    ensures Tick(NegCounters(k)) == (NegCounters(Tick(k).0), FlipSide(Tick(k).1))
    decreases if k.b == 0 then 0 else 1
  {
    if k.c == 0 && k.b != 0 {
      TickMirror(Counters(k.a, 0, k.a));
    }
  }

  lemma StepMirror<P, S>(st: LinearState<P, S>)
    requires LinearValid(st)
    ensures LinearValid(Mirror(st))
    ensures LinearStep(Mirror(st)) == (FlipOutput(LinearStep(st).0), Mirror(LinearStep(st).1))
  {
    TickMirror(st.counters);
    match Tick(st.counters).1
    case None =>
    case Some(FromPrimary) => StepMirrorPrimary(st);
    case Some(FromSecondary) => StepMirrorSecondary(st);
  }

  lemma StepMirrorPrimary<P, S>(st: LinearState<P, S>)
    requires LinearValid(st) && Tick(st.counters).1 == Some(FromPrimary)
    ensures LinearValid(Mirror(st))
    ensures LinearStep(Mirror(st)) == (FlipOutput(LinearStep(st).0), Mirror(LinearStep(st).1))
  {
    TickMirror(st.counters);
    var k, x := Tick(st.counters).0, Pull(st.primary);
    assert LinearStep(st) == (if x.0.Some? then Some(Primary(x.0.value)) else None, LinearState(k, x.1, st.secondary));
    assert LinearStep(Mirror(st)) ==
      (if x.0.Some? then Some(Secondary(x.0.value)) else None, LinearState(NegCounters(k), st.secondary, x.1));
  }

  lemma StepMirrorSecondary<P, S>(st: LinearState<P, S>)
    requires LinearValid(st) && Tick(st.counters).1 == Some(FromSecondary)
    ensures LinearValid(Mirror(st))
    ensures LinearStep(Mirror(st)) == (FlipOutput(LinearStep(st).0), Mirror(LinearStep(st).1))
  {
    TickMirror(st.counters);
    var k, y := Tick(st.counters).0, Pull(st.secondary);
    assert LinearStep(st) == (if y.0.Some? then Some(Secondary(y.0.value)) else None, LinearState(k, st.primary, y.1));
    assert LinearStep(Mirror(st)) ==
      (if y.0.Some? then Some(Primary(y.0.value)) else None, LinearState(NegCounters(k), y.1, st.primary));
  }

  /** Sign symmetry: negating `a`, `b` and `c` and exchanging the sources
      yields the same stream with its tags exchanged. */
  lemma {:induction false} DrainMirror<P, S>(st: LinearState<P, S>)
    requires LinearValid(st)
    ensures LinearValid(Mirror(st))
    ensures LinearDrain(Mirror(st)) == FlipAll(LinearDrain(st))
    decreases Left(st)
  {
    StepMirror(st);
    var (r, nx) := LinearStep(st);
    if r.Some? {
      DrainMirror(nx);
      assert LinearDrain(st) == [r.value] + LinearDrain(nx);
      assert FlipAll([r.value] + LinearDrain(nx)) == [Flip(r.value)] + FlipAll(LinearDrain(nx));
    }
  }

  lemma MirrorTally<P, S>(st: LinearState<P, S>)
    requires LinearValid(st)
    ensures LinearValid(Mirror(st))
    ensures TallyOf(LinearDrain(Mirror(st))) == Swap(TallyOf(LinearDrain(st)))
  {
    DrainMirror(st);
    FlipAllSwaps(LinearDrain(st));
  }

  lemma SteadyRunTallyAtStart(a: nat, rp: nat, rs: nat)
    requires a > 0
    ensures SteadyRunTally(a, a, rp, rs) == SteadyCounts(a, rp, rs)
  {
    SteadyRunClosedForm(a, a, rp, rs);
    assert a * (rs + 1) == a + a * rs;
    DivStep(rp, a);
  }

  /** From a period start (`b == 0`, `c == a`) the steady phase yields `SteadyFrom`. */
  lemma SteadyStart<P, S>(st: LinearState<P, S>)
    requires LinearValid(st) && st.counters.b == 0 && st.counters.c == st.counters.a
    ensures TallyOf(LinearDrain(st)) ==
      SteadyFrom(st.counters.a, |st.primary.Remaining()|, |st.secondary.Remaining()|)
  {
    var a := st.counters.a;
    var rp, rs := |st.primary.Remaining()|, |st.secondary.Remaining()|;
    if a > 0 {
      SteadyRun(st);
      SteadyRunTallyAtStart(a, rp, rs);
    } else if a < 0 {
      MirrorTally(st);
      SteadyRun(Mirror(st));
      SteadyRunTallyAtStart(-a, rs, rp);
    } else {
      DrainStep(st);
    }
  }

  /** The state in which a leading run with `b > 0` and `c` primaries still
      due ends: those `c` primaries pulled and a steady period about to start. */
  function LeadEnd<P, S>(st: LinearState<P, S>): (r: LinearState<P, S>)
    requires LinearValid(st) && 0 <= st.counters.c <= |st.primary.Remaining()|
    ensures LinearValid(r) && r.counters == Counters(st.counters.a, 0, st.counters.a)
    ensures r.primary.Remaining() == st.primary.Remaining()[st.counters.c..] && r.secondary == st.secondary
  {
    LinearState(Counters(st.counters.a, 0, st.counters.a),
                Source(st.primary.items, st.primary.pulled + st.counters.c), st.secondary)
  }

  lemma PlusShift(c: nat, t: Tally)
    requires c > 0
    ensures Plus(Tally(1, 0), Plus(Tally(c - 1, 0), t)) == Plus(Tally(c, 0), t)
  {
  }

  /** One call inside a leading run with primaries still due: a primary, if
      the primary source has one. */
  lemma LeadStepShape<P, S>(st: LinearState<P, S>)
    requires LinearValid(st) && st.counters.b > 0 && 0 < st.counters.c
    ensures var r, nx := LinearStep(st).0, LinearStep(st).1;
      var rp, rs := |st.primary.Remaining()|, |st.secondary.Remaining()|;
      (r.None? <==> rp == 0) &&
      (r.Some? ==>
        TallyOfItem(r.value) == Tally(1, 0) &&
        nx.counters == Counters(st.counters.a, st.counters.b, st.counters.c - 1) &&
        |nx.primary.Remaining()| == rp - 1 && |nx.secondary.Remaining()| == rs)
  {
  }

  /** A spent leading run has already reached its end state. */
  lemma LeadRunDone<P, S>(st: LinearState<P, S>)
    requires LinearValid(st) && st.counters.b > 0 && st.counters.c == 0
    ensures TallyOf(LinearDrain(st)) == Plus(Tally(0, 0), TallyOf(LinearDrain(LeadEnd(st))))
  {
    LeadRunSpent(st);
    assert LeadEnd(st) == st.(counters := Counters(st.counters.a, 0, st.counters.a));
  }

  /** A leading run with `b > 0`, entered with `c` primaries still due in it:
      all that is left of the primary source when fewer than `c` items are
      left, otherwise `c` primaries and then whatever the steady phase yields. */
  lemma {:induction false} LeadRun<P, S>(st: LinearState<P, S>)
    requires LinearValid(st) && st.counters.b > 0 && 0 <= st.counters.c
    ensures |st.primary.Remaining()| < st.counters.c ==>
      TallyOf(LinearDrain(st)) == Tally(|st.primary.Remaining()|, 0)
    ensures st.counters.c <= |st.primary.Remaining()| ==>
      TallyOf(LinearDrain(st)) == Plus(Tally(st.counters.c, 0), TallyOf(LinearDrain(LeadEnd(st))))
    decreases st.counters.c
  {
    if st.counters.c == 0 {
      LeadRunDone(st);
    } else {
      DrainStep(st);
      LeadStepShape(st);
      var r, nx := LinearStep(st).0, LinearStep(st).1;
      if r.Some? {
        assert nx.counters == Counters(st.counters.a, st.counters.b, st.counters.c - 1);
        assert |nx.primary.Remaining()| == |st.primary.Remaining()| - 1;
        assert TallyOf(LinearDrain(st)) == Plus(Tally(1, 0), TallyOf(LinearDrain(nx)));
        LeadRun(nx);
        if st.counters.c <= |st.primary.Remaining()| {
          assert nx.primary.items == st.primary.items && nx.primary.pulled == st.primary.pulled + 1;
          assert LeadEnd(nx) == LeadEnd(st);
          PlusShift(st.counters.c, TallyOf(LinearDrain(LeadEnd(st))));
        }
      }
    }
  }

  lemma SwapPlus(t: Tally, u: Tally)
    ensures Swap(Plus(t, u)) == Plus(Swap(t), Swap(u))
    ensures Swap(Swap(t)) == t
  {
  }

  lemma SteadyFromMirror(a: int, rp: nat, rs: nat)
    ensures SteadyFrom(-a, rs, rp) == Swap(SteadyFrom(a, rp, rs))
  {
  }

  /** The counting theorem: a `for_each` over `linear_correlate(xs, ys, a, b)`
      sees exactly the first `LinearCounts(a, b, |xs|, |ys|)` items of each
      source, each source in its own order. */
  lemma LinearCountsTheorem<P, S>(a: int, b: int, xs: seq<P>, ys: seq<S>)
    ensures var t := LinearCounts(a, b, |xs|, |ys|);
      var out := LinearDrain(LinearStart(a, b, xs, ys));
      Primaries(out) == xs[..t.primaries] && Secondaries(out) == ys[..t.secondaries]
  {
    var st := LinearStart(a, b, xs, ys);
    DrainInOrder(st);
    CountsOfStart(a, b, xs, ys);
  }

  lemma CountsOfStart<P, S>(a: int, b: int, xs: seq<P>, ys: seq<S>)
    ensures TallyOf(LinearDrain(LinearStart(a, b, xs, ys))) == LinearCounts(a, b, |xs|, |ys|)
  {
    if b > 0 {
      CountsOfLeadingPrimaries(a, b, xs, ys);
    } else if b == 0 {
      SteadyStart(LinearStart(a, b, xs, ys));
    } else {
      CountsOfLeadingSecondaries(a, b, xs, ys);
    }
  }

  /** A leading run of `b > 0` primaries, then the steady phase. */
  lemma CountsOfLeadingPrimaries<P, S>(a: int, b: int, xs: seq<P>, ys: seq<S>)
    requires b > 0
    ensures TallyOf(LinearDrain(LinearStart(a, b, xs, ys))) ==
      if |xs| < b then Tally(|xs|, 0) else Plus(Tally(b, 0), SteadyFrom(a, |xs| - b, |ys|))
  {
    var st := LinearStart(a, b, xs, ys);
    LeadRun(st);
    if b <= |xs| {
      SteadyStart(LeadEnd(st));
    }
  }

  /** A leading run of `-b > 0` secondaries, then the steady phase: the
      mirror image of a leading run of primaries. */
  lemma CountsOfLeadingSecondaries<P, S>(a: int, b: int, xs: seq<P>, ys: seq<S>)
    requires b < 0
    ensures TallyOf(LinearDrain(LinearStart(a, b, xs, ys))) ==
      if |ys| < -b then Tally(0, |ys|) else Plus(Tally(0, -b), SteadyFrom(a, |xs|, |ys| + b))
  {
    var st := LinearStart(a, b, xs, ys);
    var ms := LinearStart(-a, -b, ys, xs);
    assert Mirror(st) == ms;
    MirrorTally(st);
    CountsOfLeadingPrimaries(-a, -b, ys, xs);
    if |ys| >= -b {
      var u := SteadyFrom(a, |xs|, |ys| + b);
      SteadyFromMirror(a, |xs|, |ys| + b);
      SwapPlus(Tally(-b, 0), Swap(u));
    }
  }

  /** The counts the test suite asserts for 11 primary and 11 secondary
      items, for the coefficients of magnitude at most one. */
  lemma SymmetricSampleCounts<P, S>(xs: seq<P>, ys: seq<S>)
    requires |xs| == 11 && |ys| == 11
    ensures TallyOf(LinearDrain(LinearStart(1, 1, xs, ys))) == Tally(11, 10)
    ensures TallyOf(LinearDrain(LinearStart(-1, -1, xs, ys))) == Tally(10, 11)
    ensures TallyOf(LinearDrain(LinearStart(0, 0, xs, ys))) == Tally(0, 0)
    ensures TallyOf(LinearDrain(LinearStart(1, 0, xs, ys))) == Tally(11, 11)
    ensures TallyOf(LinearDrain(LinearStart(-1, 0, xs, ys))) == Tally(11, 11)
    ensures TallyOf(LinearDrain(LinearStart(-1, 1, xs, ys))) == Tally(11, 11)
    ensures TallyOf(LinearDrain(LinearStart(1, -1, xs, ys))) == Tally(11, 11)
  {
    UnitValues();
    CountsOfStart(1, 1, xs, ys);
    CountsOfStart(-1, -1, xs, ys);
    CountsOfStart(0, 0, xs, ys);
    CountsOfStart(1, 0, xs, ys);
    CountsOfStart(-1, 0, xs, ys);
    CountsOfStart(-1, 1, xs, ys);
    CountsOfStart(1, -1, xs, ys);
  }

  /** The same for the steady runs of two. */
  lemma SymmetricSampleCountsRunOfTwo<P, S>(xs: seq<P>, ys: seq<S>)
    requires |xs| == 11 && |ys| == 11
    ensures TallyOf(LinearDrain(LinearStart(2, 0, xs, ys))) == Tally(11, 5)
    ensures TallyOf(LinearDrain(LinearStart(-2, 0, xs, ys))) == Tally(5, 11)
    ensures TallyOf(LinearDrain(LinearStart(2, 1, xs, ys))) == Tally(11, 5)
    ensures TallyOf(LinearDrain(LinearStart(2, -1, xs, ys))) == Tally(11, 6)
    ensures TallyOf(LinearDrain(LinearStart(-2, 1, xs, ys))) == Tally(6, 11)
    ensures TallyOf(LinearDrain(LinearStart(-2, -1, xs, ys))) == Tally(5, 11)
  {
    RunOfTwoValues();
    CountsOfStart(2, 0, xs, ys);
    CountsOfStart(-2, 0, xs, ys);
    CountsOfStart(2, 1, xs, ys);
    CountsOfStart(2, -1, xs, ys);
    CountsOfStart(-2, 1, xs, ys);
    CountsOfStart(-2, -1, xs, ys);
  }

  /** The same for a coefficient longer than the sources. */
  lemma SymmetricSampleCountsOverlong<P, S>(xs: seq<P>, ys: seq<S>)
    requires |xs| == 11 && |ys| == 11
    ensures TallyOf(LinearDrain(LinearStart(12, 1, xs, ys))) == Tally(11, 0)
    ensures TallyOf(LinearDrain(LinearStart(1, 12, xs, ys))) == Tally(11, 0)
    ensures TallyOf(LinearDrain(LinearStart(1, -12, xs, ys))) == Tally(0, 11)
    ensures TallyOf(LinearDrain(LinearStart(-12, 1, xs, ys))) == Tally(1, 11)
  {
    OverlongValues();
    CountsOfStart(12, 1, xs, ys);
    CountsOfStart(1, 12, xs, ys);
    CountsOfStart(1, -12, xs, ys);
    CountsOfStart(-12, 1, xs, ys);
  }

  lemma UnitValues()
    ensures LinearCounts(1, 1, 11, 11) == Tally(11, 10)
    ensures LinearCounts(-1, -1, 11, 11) == Tally(10, 11)
    ensures LinearCounts(0, 0, 11, 11) == Tally(0, 0)
    ensures LinearCounts(1, 0, 11, 11) == Tally(11, 11)
    ensures LinearCounts(-1, 0, 11, 11) == Tally(11, 11)
    ensures LinearCounts(-1, 1, 11, 11) == Tally(11, 11)
    ensures LinearCounts(1, -1, 11, 11) == Tally(11, 11)
  {
    assert SteadyCounts(1, 10, 11) == Tally(10, 10);
    assert SteadyCounts(1, 11, 11) == Tally(11, 11);
    assert SteadyCounts(1, 11, 10) == Tally(11, 10);
  }

  lemma RunOfTwoValues()
    ensures LinearCounts(2, 0, 11, 11) == Tally(11, 5)
    ensures LinearCounts(-2, 0, 11, 11) == Tally(5, 11)
    ensures LinearCounts(2, 1, 11, 11) == Tally(11, 5)
    ensures LinearCounts(2, -1, 11, 11) == Tally(11, 6)
    ensures LinearCounts(-2, 1, 11, 11) == Tally(6, 11)
    ensures LinearCounts(-2, -1, 11, 11) == Tally(5, 11)
  {
    assert SteadyCounts(2, 11, 11) == Tally(11, 5);
    assert SteadyCounts(2, 10, 11) == Tally(10, 5);
    assert SteadyCounts(2, 11, 10) == Tally(11, 5);
  }

  lemma OverlongValues()
    ensures LinearCounts(12, 1, 11, 11) == Tally(11, 0)
    ensures LinearCounts(1, 12, 11, 11) == Tally(11, 0)
    ensures LinearCounts(1, -12, 11, 11) == Tally(0, 11)
    ensures LinearCounts(-12, 1, 11, 11) == Tally(1, 11)
  {
    assert SteadyCounts(12, 10, 11) == Tally(10, 0);
    assert SteadyCounts(12, 11, 10) == Tally(11, 0);
  }
}
