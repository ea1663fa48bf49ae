/** `PolygonSequences`: the polygons with 3 up to `maxSides` sides sharing one
    circumradius, seen as a read-only sequence whose items are built on
    demand by `Polygonator`. */
module PolygonSequence {
  import opened Errors
  import opened Numbers
  import opened Polygon
  import opened Slices

  /** The two values a sequence keeps; it owns no polygons. */
  datatype PolySeq = PolySeq(maxSides: int, radius: real) {
    /** What construction guarantees and nothing later changes. */
    predicate Valid() { maxSides >= 3 }
  }

  /** The argument of `seq[...]`: an int or a slice object. */
  datatype Key = Index(i: int) | SliceOf(sl: Slice)

  /** What `seq[...]` returns: one polygon for an index, a list for a slice. */
  datatype Item = One(p: Poly) | Many(ps: seq<Poly>)

  /** The constructor: a TypeError unless both arguments are real scalars, a
      ValueError when the side count is below 3, and otherwise both values
      stored unchanged. A float side count that passes both checks is
      reported as `NonIntegralSides`, since the model keeps integer side
      counts only. */
  function New(nSides: Num, radius: Num): (r: Result<PolySeq>)
    ensures r == Err(TypeError) <==> !CheckNumberType(nSides) || !CheckNumberType(radius)
    ensures r == Err(ValueError) <==>
      CheckNumberType(nSides) && CheckNumberType(radius) && BelowThree(nSides)
    ensures r.Ok? <==> CheckNumberType(radius) && nSides.Int? && nSides.i >= 3
    ensures r.Ok? ==>
      r.value.Valid() && nSides == Int(r.value.maxSides) && r.value.radius == radius.ToReal()
    ensures r == Err(NonIntegralSides) <==> CheckNumberType(radius) && nSides.Real? && nSides.x >= 3.0
  {
    if !CheckNumberType(nSides) || !CheckNumberType(radius) then Err(TypeError)
    else if BelowThree(nSides) then Err(ValueError)
    else if nSides.Real? then Err(NonIntegralSides)
    else Ok(PolySeq(nSides.i, radius.ToReal()))
  }

  /** `len(seq)`: one item per side count from 3 to `maxSides`. */
  function Length(s: PolySeq): (n: int)
    ensures s.Valid() ==> n >= 1
    ensures n == s.maxSides - 2
  {
    s.maxSides - 3 + 1
  }

  /** The items of the sequence as a list: the reference every access path
      is compared with. */
  function Contents(s: PolySeq): (c: seq<Poly>)
    requires s.Valid()
    ensures |c| == Length(s)
    ensures forall i :: 0 <= i < |c| ==> c[i] == Poly(i + 3, s.radius)
  {
    seq(Length(s), i requires 0 <= i < Length(s) => Poly(i + 3, s.radius))
  }

  /** The list starts at the triangle, ends at `maxSides` sides, has side
      counts strictly ascending in between and one circumradius throughout. */
  lemma ContentsShape(s: PolySeq)
    requires s.Valid()
    ensures Contents(s)[0].sides == 3
    ensures Contents(s)[|Contents(s)| - 1].sides == s.maxSides
    ensures forall i, j :: 0 <= i < j < |Contents(s)| ==> Contents(s)[i].sides < Contents(s)[j].sides
    ensures forall p: Poly :: p in Contents(s) <==> p.r == s.radius && 3 <= p.sides <= s.maxSides
  {
    forall p: Poly | p.r == s.radius && 3 <= p.sides <= s.maxSides
      ensures p in Contents(s)
    {
      assert Contents(s)[p.sides - 3] == p;
    }
  }

  /** `seq[idx]` for an int: a negative index counts from the end; anything
      outside [-len, len - 1] is an IndexError. */
  function GetAt(s: PolySeq, idx: int): (r: Result<Poly>)
    requires s.Valid()
    ensures r.Ok? <==> -Length(s) <= idx < Length(s)
    ensures r.Err? ==> r.error == IndexError
    ensures 0 <= idx < Length(s) ==> r == Ok(Contents(s)[idx])
    ensures -Length(s) <= idx < 0 ==> r == Ok(Contents(s)[Length(s) + idx])
  {
    var i := FromEnd(idx, Length(s));
    if i < 0 || i >= Length(s) then Err(IndexError)
    else Polygonator(i + 3, s.radius)
  }

  /** Counting from the end agrees with counting from the front:
      `seq[-k] == seq[len - k]`, so in particular `seq[-1]` is the last item. */
  lemma NegativeIndexAgrees(s: PolySeq, k: int)
    requires s.Valid() && 1 <= k <= Length(s)
    ensures GetAt(s, -k) == GetAt(s, Length(s) - k)
    ensures GetAt(s, -k).Ok?
  {
  }

  /** The first index past either end fails. */
  lemma JustOutOfRange(s: PolySeq)
    requires s.Valid()
    ensures GetAt(s, Length(s)) == Err(IndexError)
    ensures GetAt(s, -Length(s) - 1) == Err(IndexError)
  {
  }

  /** Builds the polygon for each offset of `offsets` (side count offset + 3),
      failing with the factory's ValueError at the first negative offset. */
  function BuildAll(offsets: seq<int>, radius: real): (r: Result<seq<Poly>>)
    ensures r.Ok? <==> forall k :: 0 <= k < |offsets| ==> offsets[k] >= 0
    ensures r.Err? ==> r.error == ValueError
    ensures r.Ok? ==> |r.value| == |offsets|
    ensures r.Ok? ==> forall k :: 0 <= k < |offsets| ==> r.value[k] == Poly(offsets[k] + 3, radius)
  {
    if offsets == [] then Ok([])
    else
      var p :- Polygonator(offsets[0] + 3, radius);
      var rest :- BuildAll(offsets[1..], radius);
      Ok([p] + rest)
  }

  /** The polygons at the positions a normalised slice selects: one per
      position, each the list item at that position. */
  lemma SelectedItems(s: PolySeq, b: Bounds)
    requires s.Valid() && b.step != 0
    requires forall v :: v in Range(b.start, b.stop, b.step) ==> 0 <= v < Length(s)
    ensures var r := BuildAll(Range(b.start, b.stop, b.step), s.radius);
      && r.Ok?
      && |r.value| == RangeLength(b.start, b.stop, b.step)
      && forall k :: 0 <= k < |r.value| ==>
           0 <= b.start + k * b.step < Length(s) && r.value[k] == Contents(s)[b.start + k * b.step]
  {
    var offsets := Range(b.start, b.stop, b.step);
    forall k | 0 <= k < |offsets| ensures offsets[k] >= 0 {
      assert offsets[k] in offsets;
    }
    var r := BuildAll(offsets, s.radius);
    forall k | 0 <= k < |r.value|
      ensures 0 <= b.start + k * b.step < Length(s)
      ensures r.value[k] == Contents(s)[b.start + k * b.step]
    {
      assert offsets[k] in offsets;
    }
  }

  /** `seq[start:stop:step]`: the slice is normalised by `slice.indices(len)`
      and the list items at positions start, start + step, ... (up to but
      not including stop) are returned in that order. Only a step of 0
      fails. */
  function GetSlice(s: PolySeq, sl: Slice): (r: Result<seq<Poly>>)
    requires s.Valid()
    ensures r.Err? <==> sl.step == Some(0)
    ensures r.Err? ==> r.error == ValueError
    ensures r.Ok? ==>
      var b := Indices(sl, Length(s)).value;
      && |r.value| == RangeLength(b.start, b.stop, b.step)
      && forall k :: 0 <= k < |r.value| ==>
           0 <= b.start + k * b.step < Length(s) && r.value[k] == Contents(s)[b.start + k * b.step]
  {
    match Indices(sl, Length(s))
    case Err(e) => Err(e)
    case Ok(b) =>
      SliceIndicesInBounds(sl, Length(s));
      SelectedItems(s, b);
      BuildAll(Range(b.start, b.stop, b.step), s.radius)
  }

  /** Every polygon a slice returns is one of the sequence's: its side count
      lies in [3, maxSides] and its circumradius is the sequence's. */
  lemma SliceStaysInside(s: PolySeq, sl: Slice)
    requires s.Valid() && sl.step != Some(0)
    ensures forall p :: p in GetSlice(s, sl).value ==>
      3 <= p.sides <= s.maxSides && p.r == s.radius
  {
    var r := GetSlice(s, sl).value;
    var b := Indices(sl, Length(s)).value;
    forall p | p in r ensures 3 <= p.sides <= s.maxSides && p.r == s.radius {
      var k :| 0 <= k < |r| && r[k] == p;
      assert p == Contents(s)[b.start + k * b.step];
    }
  }

  /** `seq[key]`: an int key goes to `GetAt`, a slice to `GetSlice`. */
  function GetItem(s: PolySeq, key: Key): (r: Result<Item>)
    requires s.Valid()
    ensures key.Index? ==> (r.Ok? <==> -Length(s) <= key.i < Length(s))
    ensures key.Index? && r.Ok? ==> r.value == One(GetAt(s, key.i).value)
    ensures key.Index? && r.Err? ==> r.error == IndexError
    ensures key.SliceOf? ==> (r.Ok? <==> key.sl.step != Some(0))
    ensures key.SliceOf? && r.Ok? ==> r.value == Many(GetSlice(s, key.sl).value)
    ensures key.SliceOf? && r.Err? ==> r.error == ValueError
  {
    match key
    case Index(i) =>
      var p :- GetAt(s, i);
      Ok(One(p))
    case SliceOf(sl) =>
      var ps :- GetSlice(s, sl);
      Ok(Many(ps))
  }

  /** `xs` back to front. */
  function Reverse<T>(xs: seq<T>): (r: seq<T>)
    ensures |r| == |xs|
    ensures forall k :: 0 <= k < |xs| ==> r[k] == xs[|xs| - 1 - k]
  {
    if xs == [] then [] else Reverse(xs[1..]) + [xs[0]]
  }

  /** `seq[:]` is the whole list, front to back. */
  lemma FullSliceIsContents(s: PolySeq)
    requires s.Valid()
    ensures GetSlice(s, Slice(None, None, None)) == Ok(Contents(s))
  {
    var sl := Slice(None, None, None);
    assert Indices(sl, Length(s)) == Ok(Bounds(0, Length(s), 1));
    var r := GetSlice(s, sl).value;
    assert |r| == |Contents(s)|;
    forall k | 0 <= k < |r| ensures r[k] == Contents(s)[k] {
      assert 0 + k * 1 == k;
    }
    assert r == Contents(s);
  }

  /** `seq[::-1]` is the whole list, back to front. */
  lemma ReverseSliceIsReversedContents(s: PolySeq)
    requires s.Valid()
    ensures GetSlice(s, Slice(None, None, Some(-1))) == Ok(Reverse(Contents(s)))
  {
    var sl := Slice(None, None, Some(-1));
    var c := Contents(s);
    assert Indices(sl, Length(s)) == Ok(Bounds(Length(s) - 1, -1, -1));
    var r := GetSlice(s, sl).value;
    assert RangeLength(Length(s) - 1, -1, -1) == (Length(s) - 1) / 1 + 1 == |c|;
    forall k | 0 <= k < |r| ensures r[k] == Reverse(c)[k] {
      assert Length(s) - 1 + k * -1 == |c| - 1 - k;
    }
    assert r == Reverse(c);
  }
}
