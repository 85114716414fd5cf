/** A source iterator over a finite sequence: the items it walks and how many
    of them have been pulled so far. Pulling from an exhausted source yields
    nothing and changes nothing, as the slice iterators of the tests do. */
module Sources {
  import opened Tagged

  datatype Source<X> = Source(items: seq<X>, pulled: nat) {

    ghost predicate Valid() { pulled <= |items| }

    /** What later pulls will still yield. */
    function Remaining(): seq<X>
      requires Valid()
    {
      items[pulled..]
    }
  }

  /** `into_iter` of a collection: a source that has pulled nothing. */
  function FromSeq<X>(xs: seq<X>): (s: Source<X>)
    ensures s.Valid() && s.Remaining() == xs && s.pulled == 0
  {
    Source(xs, 0)
  }

  /** Whether `after` is `before` advanced by one pull that yielded `got`. */
  ghost predicate Advanced<X>(before: Source<X>, after: Source<X>, got: Option<X>)
    requires before.Valid()
  {
    after.Valid() && after.items == before.items &&
    if before.Remaining() == [] then got == None && after == before
    else got == Some(before.Remaining()[0]) && after.Remaining() == before.Remaining()[1..]
         && after.pulled == before.pulled + 1
  }

  /** The item an `Option` holds, as a sequence of zero or one items. */
  function SlotSeq<X>(o: Option<X>): seq<X>
  {
    if o.Some? then [o.value] else []
  }

  /** `next` on a source iterator. */
  function Pull<X>(s: Source<X>): (r: (Option<X>, Source<X>))
    requires s.Valid()
    ensures Advanced(s, r.1, r.0)
  {
    if s.pulled < |s.items| then (Some(s.items[s.pulled]), Source(s.items, s.pulled + 1))
    else (None, s)
  }

  /** Nothing is lost by a pull: the item pulled and what remains make up
      what remained before. */
  lemma PullConserves<X>(s: Source<X>)
    requires s.Valid()
    ensures SlotSeq(Pull(s).0) + Pull(s).1.Remaining() == s.Remaining()
  {
    if s.Remaining() != [] {
      assert s.Remaining() == [s.Remaining()[0]] + s.Remaining()[1..];
    }
  }
}
