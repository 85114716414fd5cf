/** `LinearCorIter`: a schedule driven by three integer counters.
    `a` is the steady run length (its sign picks the side), `b` a leading run
    that is spent once, `c` the live counter that moves toward zero and is
    reloaded from `a`. */
module Linear {
  import opened Tagged
  import opened Sources

  /** Which source a call pulls from. */
  datatype Side = FromPrimary | FromSecondary

  function Other(s: Side): Side
  {
    if s == FromPrimary then FromSecondary else FromPrimary
  }

  /** The side a nonzero coefficient selects: positive is primary, negative secondary. */
  function SideOf(x: int): Side
  {
    if x > 0 then FromPrimary else FromSecondary
  }

  function Abs(x: int): nat
  {
    if x < 0 then -x else x
  }

  datatype Counters = Counters(a: int, b: int, c: int)

  /** `c` lies between 0 and `bound`, whatever the sign of `bound`. */
  predicate Between(c: int, bound: int)
  {
    0 <= c <= bound || bound <= c <= 0
  }

  /** The field invariant: `c` is bounded by `b` while the leading run is
      pending, and by `a` once it is spent. */
  predicate CountersValid(k: Counters)
  {
    if k.b != 0 then Between(k.c, k.b) else Between(k.c, k.a)
  }

  /** The counters `new` stores: `c` starts at `b`, or at `a` when there is no leading run. */
  function InitCounters(a: int, b: int): (k: Counters)
    ensures CountersValid(k) && k.a == a && k.b == b
    ensures k.c == (if b == 0 then a else b)
  {
    Counters(a, b, if b == 0 then a else b)
  }

  /** The counter update of one call to `next`, and the side that call pulls
      from; `None` when the call ends the output without pulling. The one
      self-call happens only when `b` is nonzero and runs with `b` zero. */
  function Tick(k: Counters): (r: (Counters, Option<Side>))
    ensures r.0.a == k.a
    ensures r.0.b == k.b || r.0.b == 0
    ensures CountersValid(k) ==> CountersValid(r.0)
    ensures r.1 == None <==> (k.c == 0 && k.a == 0)
    decreases if k.b == 0 then 0 else 1
  {
    if k.c > 0 then (k.(c := k.c - 1), Some(FromPrimary))
    else if k.c < 0 then (k.(c := k.c + 1), Some(FromSecondary))
    else if k.b == 0 then
      (k.(c := k.a),
       if k.a > 0 then Some(FromSecondary) else if k.a < 0 then Some(FromPrimary) else None)
    else Tick(Counters(k.a, 0, k.a))
  }

  /** The whole state of a linear correlate iterator. */
  datatype LinearState<P, S> = LinearState(counters: Counters, primary: Source<P>, secondary: Source<S>)

  ghost predicate LinearValid<P, S>(st: LinearState<P, S>)
  {
    CountersValid(st.counters) && st.primary.Valid() && st.secondary.Valid()
  }

  /** How many items the two sources can still yield. */
  function Left<P, S>(st: LinearState<P, S>): nat
    requires LinearValid(st)
  {
    |st.primary.Remaining()| + |st.secondary.Remaining()|
  }

  /** The state right after `linear_correlate(xs, ys, a, b)`: nothing pulled yet. */
  function LinearStart<P, S>(a: int, b: int, xs: seq<P>, ys: seq<S>): (st: LinearState<P, S>)
    ensures LinearValid(st) && st.counters == InitCounters(a, b)
    ensures st.primary.pulled == 0 && st.secondary.pulled == 0
    ensures st.primary.Remaining() == xs && st.secondary.Remaining() == ys
  {
    LinearState(InitCounters(a, b), FromSeq(xs), FromSeq(ys))
  }

  /** One call to `next`: the counters move as `Tick` says and at most one
      source is pulled, the one `Tick` names. Every item yielded is the next
      item of the source its tag names; `None` means either the schedule has
      ended or the scheduled source is exhausted. */
  function LinearStep<P, S>(st: LinearState<P, S>): (r: (Option<Either<P, S>>, LinearState<P, S>))
    requires LinearValid(st)
    ensures LinearValid(r.1) && r.1.counters == Tick(st.counters).0
    ensures r.1.primary.items == st.primary.items && r.1.secondary.items == st.secondary.items
    ensures r.0 == None ==> r.1.primary == st.primary && r.1.secondary == st.secondary
    ensures r.0 == None <==>
      Tick(st.counters).1 == None ||
      (Tick(st.counters).1 == Some(FromPrimary) && st.primary.Remaining() == []) ||
      (Tick(st.counters).1 == Some(FromSecondary) && st.secondary.Remaining() == [])
    ensures r.0.Some? && r.0.value.Primary? ==>
      Tick(st.counters).1 == Some(FromPrimary) && st.primary.Remaining() != [] &&
      r.0.value.left == st.primary.Remaining()[0] &&
      r.1.primary.Remaining() == st.primary.Remaining()[1..] && r.1.secondary == st.secondary
    ensures r.0.Some? && r.0.value.Secondary? ==>
      Tick(st.counters).1 == Some(FromSecondary) && st.secondary.Remaining() != [] &&
      r.0.value.right == st.secondary.Remaining()[0] &&
      r.1.secondary.Remaining() == st.secondary.Remaining()[1..] && r.1.primary == st.primary
    ensures r.0.Some? ==> Left(r.1) == Left(st) - 1
  {
    var (k, side) := Tick(st.counters);
    match side
    case None => (None, st.(counters := k))
    case Some(FromPrimary) =>
      var (x, p) := Pull(st.primary);
      (if x.Some? then Some(Primary(x.value)) else None, LinearState(k, p, st.secondary))
    case Some(FromSecondary) =>
      var (y, s) := Pull(st.secondary);
      (if y.Some? then Some(Secondary(y.value)) else None, LinearState(k, st.primary, s))
  }

  /** Everything a `for_each` over the iterator sees: calls to `next` until the first `None`.
      Each item is paid for by one item of a source. */
  function LinearDrain<P, S>(st: LinearState<P, S>): (out: seq<Either<P, S>>)
    requires LinearValid(st)
    ensures |out| <= Left(st)
    decreases Left(st)
  {
    var step := LinearStep(st);
    if step.0.None? then [] else [step.0.value] + LinearDrain(step.1)
  }

  /** `LinearCorIter`, its fields updated in place by `next`. */
  class LinearCorIter<P, S> {
    var a: int
    var b: int
    var c: int
    var primary: Source<P>
    var secondary: Source<S>

    ghost function State(): LinearState<P, S>
      reads this
    {
      LinearState(Counters(a, b, c), primary, secondary)
    }

    ghost predicate Valid()
      reads this
    {
      LinearValid(State())
    }

    /** `LinearCorIter::new`: stores `a` and `b`, picks the first run and pulls nothing. */
    constructor (primary: Source<P>, secondary: Source<S>, a: int, b: int)
      requires primary.Valid() && secondary.Valid()
      ensures Valid()
      ensures State() == LinearState(InitCounters(a, b), primary, secondary)
    {
      var c := if b == 0 then a else b;
      this.a, this.b, this.c := a, b, c;
      this.primary, this.secondary := primary, secondary;
    }

    /** `next`: never changes `a`, only ever zeroes `b`, and does what `LinearStep` says. */
    method Next() returns (r: Option<Either<P, S>>)
      requires Valid()
      modifies this
      ensures Valid()
      ensures a == old(a) && (b == old(b) || b == 0)
      ensures (r, State()) == LinearStep(old(State()))
      decreases if b == 0 then 0 else 1
    {
      if c > 0 {
        c := c - 1;
        r := NextPrimary();
      } else if c < 0 {
        c := c + 1;
        r := NextSecondary();
      } else {
        c := a;
        if b == 0 {
          if a > 0 {
            r := NextSecondary();
          } else if a < 0 {
            r := NextPrimary();
          } else {
            r := None;
          }
        } else {
          b := 0;
          r := Next();
        }
      }
    }

    /** `self.primary.next().map(Either::Primary)`. */
    method NextPrimary() returns (r: Option<Either<P, S>>)
      requires primary.Valid()
      modifies this`primary
      ensures var (x, p) := Pull(old(primary));
        primary == p && r == if x.Some? then Some(Primary(x.value)) else None
    {
      var (x, p) := Pull(primary);
      primary := p;
      r := if x.Some? then Some(Primary(x.value)) else None;
    }

    /** `self.secondary.next().map(Either::Secondary)`. */
    method NextSecondary() returns (r: Option<Either<P, S>>)
      requires secondary.Valid()
      modifies this`secondary
      ensures var (y, s) := Pull(old(secondary));
        secondary == s && r == if y.Some? then Some(Secondary(y.value)) else None
    {
      var (y, s) := Pull(secondary);
      secondary := s;
      r := if y.Some? then Some(Secondary(y.value)) else None;
    }
  }
}
