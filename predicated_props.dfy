/** What `CorIter` yields: order, termination, and the behaviour of the
    simple formulas the test suite uses. */
module PredicatedProps {
  import opened Tagged
  import opened Sources
  import opened Predicated
  import opened Arith

  lemma DrainUnfold<P, S>(f: Either<P, S> -> bool, st: CorState<P, S>)
    requires CorValid(st)
    ensures CorStep(f, st).0.None? ==> CorDrain(f, st) == ([], st)
    ensures CorStep(f, st).0.Some? ==>
      CorDrain(f, st).0 == [CorStep(f, st).0.value] + CorDrain(f, CorStep(f, st).1).0 &&
      CorDrain(f, st).1 == CorDrain(f, CorStep(f, st).1).1
  {
  }

  /** The item a call yields is the head of what was ahead on its side;
      the other side's items ahead are untouched. */
  lemma StepAhead<P, S>(f: Either<P, S> -> bool, st: CorState<P, S>)
    requires CorValid(st) && CorStep(f, st).0.Some?
    ensures CorStep(f, st).0.value.Primary? ==>
      AheadPrimary(st) == [CorStep(f, st).0.value.left] + AheadPrimary(CorStep(f, st).1) &&
      AheadSecondary(st) == AheadSecondary(CorStep(f, st).1)
    ensures CorStep(f, st).0.value.Secondary? ==>
      AheadSecondary(st) == [CorStep(f, st).0.value.right] + AheadSecondary(CorStep(f, st).1) &&
      AheadPrimary(st) == AheadPrimary(CorStep(f, st).1)
  {
    CorStepAhead(f, st);
    var step := CorStep(f, st);
    var ap, aq := AheadPrimary(st), AheadSecondary(st);
    if step.0.value.Primary? {
      assert ap == [ap[0]] + ap[1..];
    } else {
      assert aq == [aq[0]] + aq[1..];
    }
  }

  /** No item is lost or reordered: the payloads yielded from each side,
      followed by what is still ahead on that side when the output ends,
      are exactly what was ahead on that side at the start. */
  lemma {:induction false} CorInOrder<P, S>(f: Either<P, S> -> bool, st: CorState<P, S>)
    requires CorValid(st)
    ensures Primaries(CorDrain(f, st).0) + AheadPrimary(CorDrain(f, st).1) == AheadPrimary(st)
    ensures Secondaries(CorDrain(f, st).0) + AheadSecondary(CorDrain(f, st).1) == AheadSecondary(st)
    decreases CorLeft(st)
  {
    DrainUnfold(f, st);
    var step := CorStep(f, st);
    if step.0.Some? {
      var e, next := step.0.value, step.1;
      CorInOrder(f, next);
      StepAhead(f, st);
      var rest := CorDrain(f, next);
      PrimariesCons(e, rest.0);
      InOrderCons(e, Primaries(rest.0), AheadPrimary(rest.1), Secondaries(rest.0), AheadSecondary(rest.1));
    }
  }

  /** Prepending the yielded item's payload to either side of the equation. */
  lemma InOrderCons<P, S>(e: Either<P, S>, yp: seq<P>, ap: seq<P>, ys: seq<S>, as': seq<S>)
    ensures ((if e.Primary? then [e.left] else []) + yp) + ap == (if e.Primary? then [e.left] else []) + (yp + ap)
    ensures ((if e.Secondary? then [e.right] else []) + ys) + as' == (if e.Secondary? then [e.right] else []) + (ys + as')
  {
  }

  /** The state after `n` successive calls to `next`. */
  function CorAfter<P, S>(f: Either<P, S> -> bool, st: CorState<P, S>, n: nat): (r: CorState<P, S>)
    requires CorValid(st)
    ensures CorValid(r)
  {
    if n == 0 then st else CorStep(f, CorAfter(f, st, n - 1)).1
  }

  /** Once a call yields `None`, both slots are empty and every later call
      yields `None` again without pulling anything. */
  lemma {:induction false} CorStaysFinished<P, S>(f: Either<P, S> -> bool, st: CorState<P, S>, n: nat)
    requires CorValid(st) && CorStep(f, st).0 == None
    ensures st.curI == None && st.curJ == None
    ensures CorAfter(f, st, n) == st
    ensures CorStep(f, CorAfter(f, st, n)).0 == None
  {
    if n > 0 {
      CorStaysFinished(f, st, n - 1);
    }
  }

  /** With an empty primary source nothing is yielded, however many
      secondary items there are, and the secondary source is never pulled. */
  lemma EmptyPrimaryYieldsNothing<P, S>(f: Either<P, S> -> bool, primary: Source<P>, secondary: Source<S>)
    requires primary.Valid() && secondary.Valid() && primary.Remaining() == []
    ensures CorDrain(f, CorStart(primary, secondary)).0 == []
    ensures CorDrain(f, CorStart(primary, secondary)).1.secondary == secondary
  {
    DrainUnfold(f, CorStart(primary, secondary));
  }

  /** Otherwise the first item yielded is the first primary item, whatever the formula. */
  lemma FirstIsPrimary<P, S>(f: Either<P, S> -> bool, primary: Source<P>, secondary: Source<S>)
    requires primary.Valid() && secondary.Valid() && primary.Remaining() != []
    ensures CorDrain(f, CorStart(primary, secondary)).0 != []
    ensures CorDrain(f, CorStart(primary, secondary)).0[0] == Primary(primary.Remaining()[0])
  {
    DrainUnfold(f, CorStart(primary, secondary));
  }

  /** An always-true formula yields every primary item ahead and never pulls the secondary source. */
  lemma {:induction false} AlwaysTrue<P, S>(f: Either<P, S> -> bool, st: CorState<P, S>)
    requires forall e :: f(e)
    requires CorValid(st) && st.curJ == None
    requires st.curI.Some? || st.primary.Remaining() == []
    ensures CorDrain(f, st).0 == AllPrimary(AheadPrimary(st))
    ensures CorDrain(f, st).1.secondary == st.secondary
    decreases CorLeft(st)
  {
    DrainUnfold(f, st);
    var step := CorStep(f, st);
    if step.0.Some? {
      StepAhead(f, st);
      assert step.0.value.Primary? && step.1.curJ == None;
      AlwaysTrue(f, step.1);
    }
  }

  /** An always-false formula, once no primary item is pending, yields every
      secondary item ahead and never pulls the primary source again. */
  lemma {:induction false} AlwaysFalse<P, S>(f: Either<P, S> -> bool, st: CorState<P, S>)
    requires forall e :: !f(e)
    requires CorValid(st) && st.curI == None
    requires st.curJ.Some? || st.secondary.Remaining() == []
    ensures CorDrain(f, st).0 == AllSecondary(AheadSecondary(st))
    ensures CorDrain(f, st).1.primary == st.primary
    decreases CorLeft(st)
  {
    DrainUnfold(f, st);
    var step := CorStep(f, st);
    if step.0.Some? {
      StepAhead(f, st);
      assert step.0.value.Secondary? && step.1.curI == None;
      AlwaysFalse(f, step.1);
    }
  }

  /** `correlate_with(xs, ys, |_| true)`: all of `xs`, and `ys` is never pulled. */
  lemma AlwaysTrueFromStart<P, S>(f: Either<P, S> -> bool, xs: seq<P>, ys: seq<S>)
    requires forall e :: f(e)
    ensures CorDrain(f, CorStart(FromSeq(xs), FromSeq(ys))).0 == AllPrimary(xs)
    ensures CorDrain(f, CorStart(FromSeq(xs), FromSeq(ys))).1.secondary.pulled == 0
  {
    AlwaysTrue(f, CorStart(FromSeq(xs), FromSeq(ys)));
  }

  /** `correlate_with(xs, ys, |_| false)`: exactly one primary item, then all
      of `ys`; the primary source is pulled only once. */
  lemma AlwaysFalseFromStart<P, S>(f: Either<P, S> -> bool, xs: seq<P>, ys: seq<S>)
    requires forall e :: !f(e)
    requires xs != []
    ensures CorDrain(f, CorStart(FromSeq(xs), FromSeq(ys))).0 == [Primary(xs[0])] + AllSecondary(ys)
    ensures CorDrain(f, CorStart(FromSeq(xs), FromSeq(ys))).1.primary.pulled == 1
  {
    var st := CorStart(FromSeq(xs), FromSeq(ys));
    DrainUnfold(f, st);
    AlwaysFalse(f, CorStep(f, st).1);
  }

  /** Strict alternation: primary, secondary, primary, ... until the side
      whose turn it is has nothing left. */
  function Zipped<P, S>(xs: seq<P>, ys: seq<S>): seq<Either<P, S>>
  {
    if |xs| == 0 then []
    else if |ys| == 0 then [Primary(xs[0])]
    else [Primary(xs[0]), Secondary(ys[0])] + Zipped(xs[1..], ys[1..])
  }

  lemma ZippedPayloads<P, S>(xs: seq<P>, ys: seq<S>)
    ensures Primaries(Zipped(xs, ys)) == xs[..Min(|xs|, |ys| + 1)]
    ensures Secondaries(Zipped(xs, ys)) == ys[..Min(|xs|, |ys|)]
  {
    ZippedPrimaries(xs, ys);
    ZippedSecondaries(xs, ys);
  }

  lemma {:induction false} ZippedPrimaries<P, S>(xs: seq<P>, ys: seq<S>)
    ensures Primaries(Zipped(xs, ys)) == xs[..Min(|xs|, |ys| + 1)]
  {
    ZippedUnfold(xs, ys);
    if |xs| > 0 && |ys| > 0 {
      var m := Min(|xs| - 1, |ys|);
      assert Min(|xs|, |ys| + 1) == m + 1;
      ZippedPrimaries(xs[1..], ys[1..]);
      PayloadsOfPair(xs[0], ys[0], Zipped(xs[1..], ys[1..]));
      PrefixCons(xs, m);
    } else if |xs| > 0 {
      PrimariesCons(Either<P, S>.Primary(xs[0]), []);
    }
  }

  lemma {:induction false} ZippedSecondaries<P, S>(xs: seq<P>, ys: seq<S>)
    ensures Secondaries(Zipped(xs, ys)) == ys[..Min(|xs|, |ys|)]
  {
    ZippedUnfold(xs, ys);
    if |xs| > 0 && |ys| > 0 {
      var m := Min(|xs| - 1, |ys| - 1);
      assert Min(|xs|, |ys|) == m + 1;
      ZippedSecondaries(xs[1..], ys[1..]);
      PayloadsOfPair(xs[0], ys[0], Zipped(xs[1..], ys[1..]));
      PrefixCons(ys, m);
    } else if |xs| > 0 {
      PrimariesCons(Either<P, S>.Primary(xs[0]), []);
    }
  }

  lemma PayloadsOfPair<P, S>(x: P, y: S, rest: seq<Either<P, S>>)
    ensures Primaries([Primary(x), Secondary(y)] + rest) == [x] + Primaries(rest)
    ensures Secondaries([Primary(x), Secondary(y)] + rest) == [y] + Secondaries(rest)
  {
    ConsPair(Primary(x), Secondary(y), rest);
    PrimariesCons(Primary(x), [Secondary(y)] + rest);
    PrimariesCons(Either<P, S>.Secondary(y), rest);
  }

  /** Under `is_secondary`, a pending primary item is yielded and makes
      the next refill come from the secondary source. */
  lemma YieldPendingPrimary<P, S>(f: Either<P, S> -> bool, st: CorState<P, S>)
    requires forall e :: f(e) == IsSecondary(e)
    requires CorValid(st) && st.curI.Some?
    ensures CorStep(f, st).0 == Some(Primary(AheadPrimary(st)[0]))
    ensures CorStep(f, st).1.curI == None
    ensures AheadPrimary(CorStep(f, st).1) == AheadPrimary(st)[1..]
    ensures AheadSecondary(CorStep(f, st).1) == AheadSecondary(st)
    ensures CorStep(f, st).1.curJ.None? ==> AheadSecondary(st) == []
  {
    assert !f(Primary(st.curI.value));
  }

  /** Under `is_secondary`, a pending secondary item is yielded and makes
      the next refill come from the primary source. */
  lemma YieldPendingSecondary<P, S>(f: Either<P, S> -> bool, st: CorState<P, S>)
    requires forall e :: f(e) == IsSecondary(e)
    requires CorValid(st) && st.curI.None? && st.curJ.Some?
    ensures CorStep(f, st).0 == Some(Secondary(AheadSecondary(st)[0]))
    ensures CorStep(f, st).1.curJ == None
    ensures AheadPrimary(CorStep(f, st).1) == AheadPrimary(st)
    ensures AheadSecondary(CorStep(f, st).1) == AheadSecondary(st)[1..]
    ensures CorStep(f, st).1.curI.None? ==> AheadPrimary(st) == []
  {
    assert f(Secondary(st.curJ.value));
  }

  lemma ZippedUnfold<P, S>(xs: seq<P>, ys: seq<S>)
    ensures xs == [] ==> Zipped(xs, ys) == []
    ensures xs != [] && ys == [] ==> Zipped(xs, ys) == [Primary(xs[0])]
    ensures xs != [] && ys != [] ==>
      Zipped(xs, ys) == [Primary(xs[0]), Secondary(ys[0])] + Zipped(xs[1..], ys[1..])
  {
  }

  lemma ConsPair<T>(x: T, y: T, z: seq<T>)
    ensures [x] + ([y] + z) == [x, y] + z
  {
  }

  /** Along an alternating stream the primary count never falls behind the
      secondary count and never leads it by more than one. */
  lemma {:induction false} ZippedBalanced<P, S>(xs: seq<P>, ys: seq<S>, k: nat)
    requires k <= |Zipped(xs, ys)|
    ensures |Secondaries(Zipped(xs, ys)[..k])| <= |Primaries(Zipped(xs, ys)[..k])| <= |Secondaries(Zipped(xs, ys)[..k])| + 1
  {
    var z := Zipped(xs, ys);
    ZippedUnfold(xs, ys);
    if k == 1 {
      PrimariesCons(z[0], []);
      assert z[..1] == [z[0]] + [];
    } else if k >= 2 {
      var rest := Zipped(xs[1..], ys[1..]);
      ZippedBalanced(xs[1..], ys[1..], k - 2);
      assert z[..k] == [z[0]] + ([z[1]] + rest[..k - 2]);
      PrimariesCons(z[0], [z[1]] + rest[..k - 2]);
      PrimariesCons(z[1], rest[..k - 2]);
    }
  }

  /** With the formula `is_secondary` and a primary item pending, the output
      alternates strictly between the two sides. */
  lemma {:induction false} IsSecondaryAlternates<P, S>(f: Either<P, S> -> bool, st: CorState<P, S>)
    requires forall e :: f(e) == IsSecondary(e)
    requires CorValid(st) && st.curI.Some?
    ensures CorDrain(f, st).0 == Zipped(AheadPrimary(st), AheadSecondary(st))
    decreases CorLeft(st), 1
  {
    var ap, aq := AheadPrimary(st), AheadSecondary(st);
    DrainUnfold(f, st);
    YieldPendingPrimary(f, st);
    ZippedUnfold(ap, aq);
    var st1 := CorStep(f, st).1;
    if st1.curJ.Some? {
      IsSecondaryAlternatesFromSecondary(f, st1);
      assert AheadSecondary(st1) == aq;
      assert AheadPrimary(st1) == ap[1..];
      assert CorDrain(f, st1).0 == [Secondary(aq[0])] + Zipped(ap[1..], aq[1..]);
      assert CorDrain(f, st).0 == [Primary(ap[0])] + CorDrain(f, st1).0;
      assert aq != [];
      assert Zipped(ap, aq) == [Primary(ap[0]), Secondary(aq[0])] + Zipped(ap[1..], aq[1..]);
      ConsPair(Primary(ap[0]), Secondary(aq[0]), Zipped(ap[1..], aq[1..]));
    } else {
      DrainUnfold(f, st1);
    }
  }

  /** The same alternation seen from a pending secondary item. */
  lemma {:induction false} IsSecondaryAlternatesFromSecondary<P, S>(f: Either<P, S> -> bool, st: CorState<P, S>)
    requires forall e :: f(e) == IsSecondary(e)
    requires CorValid(st) && st.curI.None? && st.curJ.Some?
    ensures CorDrain(f, st).0 == [Secondary(AheadSecondary(st)[0])] + Zipped(AheadPrimary(st), AheadSecondary(st)[1..])
    decreases CorLeft(st), 0
  {
    var ap, aq := AheadPrimary(st), AheadSecondary(st);
    DrainUnfold(f, st);
    YieldPendingSecondary(f, st);
    var st2 := CorStep(f, st).1;
    if st2.curI.Some? {
      IsSecondaryAlternates(f, st2);
    } else {
      DrainUnfold(f, st2);
      ZippedUnfold(ap, aq[1..]);
    }
  }

  /** `correlate_with(xs, ys, |v| v.is_secondary())` interleaves the sources one to one. */
  lemma IsSecondaryFromStart<P, S>(f: Either<P, S> -> bool, xs: seq<P>, ys: seq<S>)
    requires forall e :: f(e) == IsSecondary(e)
    ensures CorDrain(f, CorStart(FromSeq(xs), FromSeq(ys))).0 == Zipped(xs, ys)
    ensures |Primaries(CorDrain(f, CorStart(FromSeq(xs), FromSeq(ys))).0)| == Min(|xs|, |ys| + 1)
    ensures |Secondaries(CorDrain(f, CorStart(FromSeq(xs), FromSeq(ys))).0)| == Min(|xs|, |ys|)
  {
    var st := CorStart(FromSeq(xs), FromSeq(ys));
    if xs == [] {
      DrainUnfold(f, st);
    } else {
      IsSecondaryAlternates(f, st);
    }
    ZippedPayloads(xs, ys);
  }
}
