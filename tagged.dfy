/** The tagged item both combinators yield, and the bookkeeping used to
    talk about a stream of such items. */
module Tagged {

  /** Rust's `Option`: a pulled item, or the end of a source. */
  datatype Option<T> = None | Some(value: T)

  /** An item that came from the primary source or from the secondary source. */
  datatype Either<T, U> = Primary(left: T) | Secondary(right: U)

  /** `is_primary`: the item came from the primary source. */
  function IsPrimary<T, U>(e: Either<T, U>): (r: bool)
    ensures r != e.Secondary?
  {
    match e
    case Primary(_) => true
    case _ => false
  }

  /** `is_secondary`: exactly when the item is not a primary one. */
  function IsSecondary<T, U>(e: Either<T, U>): (r: bool)
    ensures r != IsPrimary(e)
  {
    match e
    case Secondary(_) => true
    case _ => false
  }

  /** `deref` when both sources yield the same type: the payload, whatever the tag. */
  function Deref<T>(e: Either<T, T>): (v: T)
    ensures e == Primary(v) || e == Secondary(v)
  {
    match e
    case Primary(v) => v
    case Secondary(v) => v
  }

  /** The same item seen from the other side: primary and secondary exchanged. */
  function Flip<T, U>(e: Either<T, U>): (r: Either<U, T>)
    ensures IsPrimary(r) == IsSecondary(e)
  {
    match e
    case Primary(x) => Secondary(x)
    case Secondary(y) => Primary(y)
  }

  function FlipAll<T, U>(s: seq<Either<T, U>>): (r: seq<Either<U, T>>)
    ensures |r| == |s|
  {
    if |s| == 0 then [] else [Flip(s[0])] + FlipAll(s[1..])
  }

  /** The payloads of the primary items of a stream, in stream order. */
  function Primaries<T, U>(s: seq<Either<T, U>>): (r: seq<T>)
    ensures |r| <= |s|
  {
    if |s| == 0 then []
    else (if s[0].Primary? then [s[0].left] else []) + Primaries(s[1..])
  }

  /** The payloads of the secondary items of a stream, in stream order. */
  function Secondaries<T, U>(s: seq<Either<T, U>>): (r: seq<U>)
    ensures |r| <= |s|
  {
    if |s| == 0 then []
    else (if s[0].Secondary? then [s[0].right] else []) + Secondaries(s[1..])
  }

  /** Every item of `xs`, tagged as primary. */
  function AllPrimary<T, U>(xs: seq<T>): (r: seq<Either<T, U>>)
    ensures |r| == |xs|
  {
    if |xs| == 0 then [] else [Primary(xs[0])] + AllPrimary(xs[1..])
  }

  /** Every item of `ys`, tagged as secondary. */
  function AllSecondary<T, U>(ys: seq<U>): (r: seq<Either<T, U>>)
    ensures |r| == |ys|
  {
    if |ys| == 0 then [] else [Secondary(ys[0])] + AllSecondary(ys[1..])
  }

  /** A prefix of length `k + 1` is the head followed by a prefix of the tail. */
  lemma PrefixCons<X>(s: seq<X>, k: nat)
    requires k < |s|
    ensures [s[0]] + s[1..][..k] == s[..k + 1]
  {
  }

  lemma PrimariesCons<T, U>(e: Either<T, U>, s: seq<Either<T, U>>)
    ensures Primaries([e] + s) == (if e.Primary? then [e.left] else []) + Primaries(s)
    ensures Secondaries([e] + s) == (if e.Secondary? then [e.right] else []) + Secondaries(s)
  {
    assert ([e] + s)[1..] == s;
  }

  /** Prepending an item adds one to the count of its own side only. */
  lemma CountsCons<T, U>(e: Either<T, U>, s: seq<Either<T, U>>)
    ensures |Primaries([e] + s)| == (if e.Primary? then 1 else 0) + |Primaries(s)|
    ensures |Secondaries([e] + s)| == (if e.Primary? then 0 else 1) + |Secondaries(s)|
  {
    PrimariesCons(e, s);
  }

  /** Exchanging the tags of a stream exchanges its primary and secondary payloads. */
  lemma {:induction false} FlipAllSwaps<T, U>(s: seq<Either<T, U>>)
    ensures Primaries(FlipAll(s)) == Secondaries(s)
    ensures Secondaries(FlipAll(s)) == Primaries(s)
  {
    if |s| > 0 {
      FlipAllSwaps(s[1..]);
      PrimariesCons(Flip(s[0]), FlipAll(s[1..]));
    }
  }

  lemma {:induction false} AllPrimaryPayloads<T, U>(xs: seq<T>)
    ensures Primaries(AllPrimary<T, U>(xs)) == xs
    ensures Secondaries(AllPrimary<T, U>(xs)) == []
  {
    if |xs| > 0 {
      AllPrimaryPayloads<T, U>(xs[1..]);
      PrimariesCons(Either<T, U>.Primary(xs[0]), AllPrimary<T, U>(xs[1..]));
      assert xs == [xs[0]] + xs[1..];
    }
  }

  lemma {:induction false} AllSecondaryPayloads<T, U>(ys: seq<U>)
    ensures Primaries(AllSecondary<T, U>(ys)) == []
    ensures Secondaries(AllSecondary<T, U>(ys)) == ys
  {
    if |ys| > 0 {
      AllSecondaryPayloads<T, U>(ys[1..]);
      PrimariesCons(Either<T, U>.Secondary(ys[0]), AllSecondary<T, U>(ys[1..]));
      assert ys == [ys[0]] + ys[1..];
    }
  }
}
