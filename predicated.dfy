/** `CorIter`: an alternator driven by a formula over the item just yielded.
    It stays one step eager: a single pending slot holds the item the next
    call will yield, and the formula's verdict on that item decides which
    source refills a slot. */
module Predicated {
  import opened Tagged
  import opened Sources

  /** The whole state of a correlate iterator, without its formula. */
  datatype CorState<P, S> = CorState(primary: Source<P>, secondary: Source<S>, curI: Option<P>, curJ: Option<S>)

  /** Between calls at most one slot is filled, and a filled slot holds the
      last item pulled from its source. */
  ghost predicate CorValid<P, S>(st: CorState<P, S>)
  {
    st.primary.Valid() && st.secondary.Valid() &&
    !(st.curI.Some? && st.curJ.Some?) &&
    (st.curI.Some? ==> 0 < st.primary.pulled && st.curI.value == st.primary.items[st.primary.pulled - 1]) &&
    (st.curJ.Some? ==> 0 < st.secondary.pulled && st.curJ.value == st.secondary.items[st.secondary.pulled - 1])
  }

  /** The primary items not yet yielded, the pending one first. */
  function AheadPrimary<P, S>(st: CorState<P, S>): seq<P>
    requires st.primary.Valid()
  {
    SlotSeq(st.curI) + st.primary.Remaining()
  }

  /** The secondary items not yet yielded, the pending one first. */
  function AheadSecondary<P, S>(st: CorState<P, S>): seq<S>
    requires st.secondary.Valid()
  {
    SlotSeq(st.curJ) + st.secondary.Remaining()
  }

  function CorLeft<P, S>(st: CorState<P, S>): nat
    requires st.primary.Valid() && st.secondary.Valid()
  {
    |AheadPrimary(st)| + |AheadSecondary(st)|
  }

  /** How many items have been pulled from the two sources together. */
  function Pulls<P, S>(st: CorState<P, S>): nat
  {
    st.primary.pulled + st.secondary.pulled
  }

  /** `CorIter::new`: pulls exactly one primary item into `cur_i` and leaves
      the secondary source and `cur_j` untouched. */
  function CorStart<P, S>(primary: Source<P>, secondary: Source<S>): (st: CorState<P, S>)
    requires primary.Valid() && secondary.Valid()
    ensures CorValid(st) && st.curJ == None && st.secondary == secondary
    ensures Advanced(primary, st.primary, st.curI)
    ensures AheadPrimary(st) == primary.Remaining() && AheadSecondary(st) == secondary.Remaining()
  {
    var first := Pull(primary);
    CorState(first.1, secondary, first.0, None)
  }

  /** What the next call yields: the pending item, tagged by its slot. */
  function Pending<P, S>(st: CorState<P, S>): Option<Either<P, S>>
  {
    if st.curI.Some? then Some(Primary(st.curI.value))
    else if st.curJ.Some? then Some(Secondary(st.curJ.value))
    else None
  }

  /** Pull the next item of the primary source into `cur_i` when the verdict
      is true, the next secondary item into `cur_j` otherwise. */
  function Refill<P, S>(fromPrimary: bool, st: CorState<P, S>): (r: CorState<P, S>)
    requires st.primary.Valid() && st.secondary.Valid()
    ensures fromPrimary ==>
      r.secondary == st.secondary && r.curJ == st.curJ && Advanced(st.primary, r.primary, r.curI)
    ensures !fromPrimary ==>
      r.primary == st.primary && r.curI == st.curI && Advanced(st.secondary, r.secondary, r.curJ)
  {
    if fromPrimary then
      var p := Pull(st.primary);
      st.(primary := p.1, curI := p.0)
    else
      var s := Pull(st.secondary);
      st.(secondary := s.1, curJ := s.0)
  }

  /** One call to `next`. It yields the pending item unchanged; the formula's
      verdict on that item only chooses the source of the refill, and at most
      one item is pulled, and one item fewer is ahead. With both slots empty
      the call yields nothing and changes nothing. */
  function CorStep<P, S>(f: Either<P, S> -> bool, st: CorState<P, S>): (r: (Option<Either<P, S>>, CorState<P, S>))
    requires CorValid(st)
    ensures CorValid(r.1)
    ensures r.0 == Pending(st)
    ensures r.0 == None ==> r.1 == st
    ensures r.0.Some? && f(r.0.value) ==>
      r.1.secondary == st.secondary && r.1.curJ == None && Advanced(st.primary, r.1.primary, r.1.curI)
    ensures r.0.Some? && !f(r.0.value) ==>
      r.1.primary == st.primary && r.1.curI == None && Advanced(st.secondary, r.1.secondary, r.1.curJ)
    ensures r.0.Some? ==> CorLeft(r.1) == CorLeft(st) - 1
    ensures Pulls(st) <= Pulls(r.1) <= Pulls(st) + 1
  {
    if st.curI.Some? then
      var i := st.curI.value;
      (Some(Primary(i)), Refill(f(Primary(i)), st.(curI := None)))
    else if st.curJ.Some? then
      var j := st.curJ.value;
      (Some(Secondary(j)), Refill(f(Secondary(j)), st.(curJ := None)))
    else
      (None, st)
  }

  /** No item is lost, duplicated or reordered by a call: the items ahead
      on each side lose exactly the one yielded. */
  lemma CorStepAhead<P, S>(f: Either<P, S> -> bool, st: CorState<P, S>)
    requires CorValid(st)
    ensures AheadPrimary(CorStep(f, st).1) ==
      if CorStep(f, st).0.Some? && CorStep(f, st).0.value.Primary? then AheadPrimary(st)[1..] else AheadPrimary(st)
    ensures AheadSecondary(CorStep(f, st).1) ==
      if CorStep(f, st).0.Some? && CorStep(f, st).0.value.Secondary? then AheadSecondary(st)[1..] else AheadSecondary(st)
  {
    PullConserves(st.primary);
    PullConserves(st.secondary);
  }

  /** Everything a `for_each` over the iterator sees, and the state it leaves:
      calls to `next` until the first `None`, which leaves both slots empty. */
  function CorDrain<P, S>(f: Either<P, S> -> bool, st: CorState<P, S>): (r: (seq<Either<P, S>>, CorState<P, S>))
    requires CorValid(st)
    ensures CorValid(r.1) && r.1.curI == None && r.1.curJ == None
    ensures |r.0| <= CorLeft(st)
    decreases CorLeft(st)
  {
    var step := CorStep(f, st);
    if step.0.None? then ([], st)
    else
      var rest := CorDrain(f, step.1);
      ([step.0.value] + rest.0, rest.1)
  }

  /** `CorIter`, its slots and sources updated in place by `next`. */
  class CorIter<P, S> {
    const formula: Either<P, S> -> bool
    var primary: Source<P>
    var secondary: Source<S>
    var curI: Option<P>
    var curJ: Option<S>

    ghost function State(): CorState<P, S>
      reads this
    {
      CorState(primary, secondary, curI, curJ)
    }

    ghost predicate Valid()
      reads this
    {
      CorValid(State())
    }

    /** `CorIter::new`: one step eager, it pulls the first primary item at once. */
    constructor (formula: Either<P, S> -> bool, primary: Source<P>, secondary: Source<S>)
      requires primary.Valid() && secondary.Valid()
      ensures Valid() && this.formula == formula
      ensures State() == CorStart(primary, secondary)
    {
      var first := Pull(primary);
      this.formula := formula;
      this.primary, this.secondary := first.1, secondary;
      this.curI, this.curJ := first.0, None;
    }

    /** `next`: takes the pending slot, asks the formula about its item,
        refills one slot and yields the item. */
    method Next() returns (r: Option<Either<P, S>>)
      requires Valid()
      modifies this
      ensures Valid()
      ensures (r, State()) == CorStep(formula, old(State()))
    {
      if curI.Some? {
        var i := curI.value;
        curI := None;
        if formula(Primary(i)) {
          var p := Pull(primary);
          primary, curI := p.1, p.0;
        } else {
          var s := Pull(secondary);
          secondary, curJ := s.1, s.0;
        }
        r := Some(Primary(i));
      } else if curJ.Some? {
        var j := curJ.value;
        curJ := None;
        if formula(Secondary(j)) {
          var p := Pull(primary);
          primary, curI := p.1, p.0;
        } else {
          var s := Pull(secondary);
          secondary, curJ := s.1, s.0;
        }
        r := Some(Secondary(j));
      } else {
        r := None;
      }
    }
  }
}
