/** The `Correlate` extension: builders that turn two collections into
    correlating iterators over them. */
module Correlate {
  import opened Tagged
  import opened Sources
  import opened Linear
  import opened Predicated

  /** `xs.linear_correlate(ys, a, b)`: a fresh `LinearCorIter` over both
      collections that has pulled nothing yet. */
  method LinearCorrelate<P, S>(xs: seq<P>, ys: seq<S>, a: int, b: int) returns (it: LinearCorIter<P, S>)
    ensures fresh(it) && it.Valid()
    ensures it.State() == LinearStart(a, b, xs, ys)
  {
    it := new LinearCorIter(FromSeq(xs), FromSeq(ys), a, b);
  }

  /** `xs.correlate_with(ys, formula)`: a fresh `CorIter` over both
      collections that has already pulled the first item of `xs`. */
  method CorrelateWith<P, S>(xs: seq<P>, ys: seq<S>, formula: Either<P, S> -> bool) returns (it: CorIter<P, S>)
    ensures fresh(it) && it.Valid() && it.formula == formula
    ensures it.State() == CorStart(FromSeq(xs), FromSeq(ys))
    ensures it.curI == (if xs == [] then None else Some(xs[0])) && it.curJ == None
    ensures it.secondary.pulled == 0
  {
    it := new CorIter(formula, FromSeq(xs), FromSeq(ys));
  }
}
