/** `PolygonSqIterator`: a cursor that walks the side counts upward from 3
    and then stops. `Step` is the cursor as a value; `PolygonIterator` is the
    same state machine as an object with a mutable position. */
module Iteration {
  import opened Errors
  import opened Polygon
  import opened Slices
  import opened PolygonSequence

  /** The iterator's state: its own copies of the sequence's side bound and
      circumradius, and the offset of the next item. */
  datatype Cursor = Cursor(maxSides: int, radius: real, index: int) {
    /** How many items the cursor yields in all: the length of the
        sequence it was taken from. */
    function Count(): int { Length(PolySeq(maxSides, radius)) }

    predicate Valid() { maxSides >= 3 && 0 <= index <= Count() }
  }

  /** `iter(seq)`: a new cursor at offset 0 over the same side counts. */
  function Iter(s: PolySeq): (c: Cursor)
    requires s.Valid()
    ensures c.Valid() && c.index == 0
    ensures c.maxSides == s.maxSides && c.radius == s.radius
    ensures c.Count() == Length(s)
  {
    Cursor(s.maxSides, s.radius, 0)
  }

  /** `__next__`: the polygon at the cursor's offset and the cursor moved on
      by one, or `None` (StopIteration) once every item has been yielded, in
      which case the cursor is left as it was. */
  function Step(c: Cursor): (r: (Option<Poly>, Cursor))
    requires c.Valid()
    ensures r.1.Valid() && r.1.maxSides == c.maxSides && r.1.radius == c.radius
    ensures r.0.None? <==> c.index == c.Count()
    ensures r.0.None? ==> r.1 == c
    ensures r.0.Some? ==> r.0.value == Poly(c.index + 3, c.radius) && r.1.index == c.index + 1
  {
    if c.index >= c.Count() then (None, c)
    else
      var item := Polygonator(c.index + 3, c.radius).value;
      (Some(item), c.(index := c.index + 1))
  }

  /** Once a cursor has signalled the end it signals it on every later call. */
  lemma {:induction false} StopIsFinal(c: Cursor, n: nat)
    requires c.Valid() && Step(c).0.None?
    ensures Steps(c, n) == c && Step(Steps(c, n)).0.None?
  {
    if n > 0 {
      StopIsFinal(c, n - 1);
    }
  }

  /** The cursor after `n` calls to `Step`. */
  function Steps(c: Cursor, n: nat): (d: Cursor)
    requires c.Valid()
    ensures d.Valid()
  {
    if n == 0 then c else Step(Steps(c, n - 1)).1
  }

  /** Everything a cursor yields from here until it stops, in order. */
  function Drain(c: Cursor): seq<Poly>
    requires c.Valid()
    decreases c.Count() - c.index
  {
    match Step(c).0
    case None => []
    case Some(p) => [p] + Drain(Step(c).1)
  }

  /** A cursor over `s` yields exactly the rest of `s`'s list from its
      offset on. */
  lemma {:induction false} DrainIsSuffix(s: PolySeq, c: Cursor)
    requires s.Valid() && c.Valid()
    requires c.maxSides == s.maxSides && c.radius == s.radius
    ensures Drain(c) == Contents(s)[c.index..]
    decreases c.Count() - c.index
  {
    if c.index < c.Count() {
      DrainIsSuffix(s, Step(c).1);
      assert Contents(s)[c.index..] == [Contents(s)[c.index]] + Contents(s)[c.index + 1..];
    }
  }

  /** Iterating a sequence yields its list: `len` items, the triangle
      first, side counts strictly ascending to `maxSides`, one circumradius
      throughout. */
  lemma IterationYieldsContents(s: PolySeq)
    requires s.Valid()
    ensures Drain(Iter(s)) == Contents(s)
    ensures |Drain(Iter(s))| == Length(s)
    ensures Drain(Iter(s))[0].sides == 3
    ensures Drain(Iter(s))[Length(s) - 1].sides == s.maxSides
    ensures forall i, j :: 0 <= i < j < Length(s) ==> Drain(Iter(s))[i].sides < Drain(Iter(s))[j].sides
    ensures forall p :: p in Drain(Iter(s)) ==> p.r == s.radius
  {
    DrainIsSuffix(s, Iter(s));
    assert Contents(s)[0..] == Contents(s);
  }

  /** The reversing slice `seq[::-1]` is forward iteration read backwards. */
  lemma ReverseSliceIsReversedIteration(s: PolySeq)
    requires s.Valid()
    ensures GetSlice(s, Slice(None, None, Some(-1))) == Ok(Reverse(Drain(Iter(s))))
  {
    IterationYieldsContents(s);
    ReverseSliceIsReversedContents(s);
  }

  /** The iterator object: the cursor's position is its only mutable field. */
  class PolygonIterator {
    const maxSides: int
    const radius: real
    var index: int

    /** The object's state as a cursor value. */
    function State(): Cursor
      reads this
    {
      Cursor(maxSides, radius, index)
    }

    /** `PolygonSqIterator.__init__`: a cursor at offset 0 over `s`. */
    constructor Init(s: PolySeq)
      requires s.Valid()
      ensures State() == Iter(s)
    {
      maxSides := s.maxSides;
      radius := s.radius;
      index := 0;
    }

    /** `__next__`, moving only this object's position. */
    method Next() returns (p: Option<Poly>)
      requires State().Valid()
      modifies this
      ensures (p, State()) == Step(old(State()))
    {
      if index >= State().Count() {
        p := None;
      } else {
        var item := Polygonator(index + 3, radius);
        p := Some(item.value);
        index := index + 1;
      }
    }
  }

  /** Drives an iterator over `s` until it stops, collecting what it yields:
      the rest of `s`'s list from the iterator's position on. */
  method Run(it: PolygonIterator, ghost s: PolySeq) returns (ps: seq<Poly>)
    requires s.Valid() && it.State().Valid()
    requires it.maxSides == s.maxSides && it.radius == s.radius
    modifies it
    ensures it.index == Length(s)
    ensures ps == Contents(s)[old(it.index)..]
  {
    ghost var from := it.index;
    ps := [];
    while true
      invariant it.State().Valid() && it.maxSides == s.maxSides && it.radius == s.radius
      invariant from <= it.index
      invariant ps == Contents(s)[from..it.index]
      decreases Length(s) - it.index
    {
      var p := it.Next();
      if p.None? {
        break;
      }
      ps := ps + [p.value];
    }
  }

  /** `list(iter(seq))`: drives a fresh iterator until it stops. */
  method Collect(s: PolySeq) returns (ps: seq<Poly>)
    requires s.Valid()
    ensures ps == Contents(s)
  {
    var it := new PolygonIterator.Init(s);
    ps := Run(it, s);
  }

  /** Two iterators over one sequence do not share a position: the second,
      created before the first is run to its end, still yields every item
      from the triangle on. */
  method TwoIterators(s: PolySeq) returns (first: seq<Poly>, second: seq<Poly>)
    requires s.Valid()
    ensures first == Contents(s) && second == Contents(s)
  {
    var a := new PolygonIterator.Init(s);
    var b := new PolygonIterator.Init(s);
    first := Run(a, s);
    second := Run(b, s);
  }
}
