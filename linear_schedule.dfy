/** The tag schedule of `LinearCorIter`: which side each call pulls from,
    given in closed form and tied to the calls' actual output. */
module LinearSchedule {
  import opened Tagged
  import opened Sources
  import opened Linear
  import opened Arith

  /** The counters after `n` calls to `next`. */
  function Ticks(k: Counters, n: nat): Counters
  {
    if n == 0 then k else Tick(Ticks(k, n - 1)).0
  }

  /** The value of `c` in the steady phase, `j` calls after that phase began. */
  function SteadyC(a: int, j: nat): int
  {
    if a > 0 then a - j % (a + 1) else if a < 0 then a + j % (1 - a) else 0
  }

  /** The documented schedule, independent of the counters: the first `|b|`
      calls pull from the side of `b`; then `|a|` calls from the side of `a`
      and one from the other side, over and over; with `a == 0` nothing
      follows the leading run. */
  function Scheduled(a: int, b: int, n: nat): Option<Side>
  {
    if n < Abs(b) then Some(SideOf(b))
    else if a == 0 then None
    else if (n - Abs(b)) % (Abs(a) + 1) < Abs(a) then Some(SideOf(a))
    else Some(Other(SideOf(a)))
  }

  /** One call in the steady phase advances the period position by one. */
  lemma SteadyTick(a: int, j: nat)
    ensures Tick(Counters(a, 0, SteadyC(a, j))).0 == Counters(a, 0, SteadyC(a, j + 1))
  {
    if a > 0 {
      ModStep(j, a + 1);
    } else if a < 0 {
      ModStep(j, 1 - a);
    }
  }

  /** The counters after `n` calls from `new(a, b)`: first the leading run
      counts `c` down (or up) from `b`, then `c` cycles through the period
      of `a`. */
  lemma {:induction false} TicksClosedForm(a: int, b: int, n: nat)
    ensures Ticks(InitCounters(a, b), n) ==
      if b != 0 && n <= Abs(b) then Counters(a, b, if b > 0 then b - n else b + n)
      else Counters(a, 0, SteadyC(a, n - Abs(b)))
  {
    if n > 0 {
      var m := n - 1;
      TicksClosedForm(a, b, m);
      var k := Ticks(InitCounters(a, b), m);
      assert Ticks(InitCounters(a, b), n) == Tick(k).0;
      if b != 0 && m < Abs(b) {
        assert k == Counters(a, b, if b > 0 then b - m else b + m);
      } else if b != 0 && m == Abs(b) {
        assert k == Counters(a, b, 0);
        assert Tick(k) == Tick(Counters(a, 0, SteadyC(a, 0)));
        SteadyTick(a, 0);
      } else {
        var j: nat := m - Abs(b);
        assert k == Counters(a, 0, SteadyC(a, j));
        SteadyTick(a, j);
      }
    }
  }

  /** With sources that never run dry, call `n` pulls from the side the
      documented schedule names. */
  lemma ScheduleTheorem(a: int, b: int, n: nat)
    ensures Tick(Ticks(InitCounters(a, b), n)).1 == Scheduled(a, b, n)
  {
    TicksClosedForm(a, b, n);
  }

  /** After the leading run the schedule repeats with period `|a| + 1`. */
  lemma SchedulePeriodic(a: int, b: int, n: nat)
    requires n >= Abs(b)
    ensures Scheduled(a, b, n + Abs(a) + 1) == Scheduled(a, b, n)
  {
    var m := Abs(a) + 1;
    var j := n - Abs(b);
    var q, r := j / m, j % m;
    assert j == q * m + r;
    assert (q + 1) * m == q * m + m;
    DivModUnique(j + m, m, q + 1, r);
  }

  /** The tag of what a call returned, if anything. */
  function TagOf<P, S>(o: Option<Either<P, S>>): (t: Option<Side>)
    ensures t == None <==> o == None
  {
    match o
    case None => None
    case Some(Primary(_)) => Some(FromPrimary)
    case Some(Secondary(_)) => Some(FromSecondary)
  }

  /** The state after `n` successive calls to `next`. */
  function LinearAfter<P, S>(st: LinearState<P, S>, n: nat): (r: LinearState<P, S>)
    requires LinearValid(st)
    ensures LinearValid(r)
  {
    if n == 0 then st else LinearStep(LinearAfter(st, n - 1)).1
  }

  /** After `n` calls the counters are `n` ticks of the counters before,
      and neither source has been pulled more than `n` times. */
  lemma {:induction false} LinearAfterState<P, S>(st: LinearState<P, S>, n: nat)
    requires LinearValid(st)
    ensures LinearAfter(st, n).counters == Ticks(st.counters, n)
    ensures LinearAfter(st, n).primary.items == st.primary.items
    ensures LinearAfter(st, n).secondary.items == st.secondary.items
    ensures LinearAfter(st, n).primary.pulled <= st.primary.pulled + n
    ensures LinearAfter(st, n).secondary.pulled <= st.secondary.pulled + n
  {
    if n > 0 {
      LinearAfterState(st, n - 1);
    }
  }

  /** With sources long enough for `n` calls, the `k`-th call yields an item
      tagged with the scheduled side (and `None` exactly where the schedule ends). */
  lemma ScheduledOutput<P, S>(a: int, b: int, xs: seq<P>, ys: seq<S>, k: nat)
    requires k < |xs| && k < |ys|
    ensures TagOf(LinearStep(LinearAfter(LinearStart(a, b, xs, ys), k)).0) == Scheduled(a, b, k)
  {
    LinearAfterState(LinearStart(a, b, xs, ys), k);
    var mid := LinearAfter(LinearStart(a, b, xs, ys), k);
    assert mid.primary.Remaining() != [] && mid.secondary.Remaining() != [];
    ScheduleTheorem(a, b, k);
  }

  /** The iterator is not fused: a `None` from an exhausted primary has
      still moved `c`, and the next call yields a secondary item. */
  lemma NotFused<P, S>(st: LinearState<P, S>)
    requires LinearValid(st)
    requires st.counters.b == 0 && st.counters.a > 0 && st.counters.c == 1
    requires st.primary.Remaining() == [] && st.secondary.Remaining() != []
    ensures LinearStep(st).0 == None
    ensures LinearStep(st).1.counters.c == 0
    ensures LinearStep(LinearStep(st).1).0 == Some(Secondary(st.secondary.Remaining()[0]))
  {
  }

  /** With `a == 0 && b == 0` no call yields anything or pulls anything. */
  lemma {:induction false} ZeroCoefficients<P, S>(xs: seq<P>, ys: seq<S>, n: nat)
    ensures LinearAfter(LinearStart(0, 0, xs, ys), n) == LinearStart(0, 0, xs, ys)
    ensures LinearStep(LinearAfter(LinearStart(0, 0, xs, ys), n)).0 == None
  {
    if n > 0 {
      ZeroCoefficients(xs, ys, n - 1);
    }
  }

  /** With `a == 0` the output ends after the leading run: once it is spent,
      every call yields `None` and pulls nothing. */
  lemma EndsAfterLeadingRun<P, S>(st: LinearState<P, S>)
    requires LinearValid(st) && st.counters.a == 0 && st.counters.c == 0
    ensures LinearStep(st) == (None, st.(counters := Counters(0, 0, 0)))
  {
  }
}
