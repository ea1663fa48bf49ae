/** `get_max_efficiency_poly`: the polygon of the sequence with the largest
    area-to-perimeter ratio. The ratio itself is geometry and enters as a
    parameter. */
module Efficiency {
  import opened Polygon
  import opened PolygonSequence
  import Iteration

  /** `p` is what a stable descending sort of `ps` by `ratio` puts first:
      an item of `ps` whose ratio no item exceeds and that no earlier item
      matches. */
  ghost predicate IsFirstMaximum(ps: seq<Poly>, ratio: Poly -> real, i: int)
  {
    && 0 <= i < |ps|
    && (forall j :: 0 <= j < |ps| ==> ratio(ps[j]) <= ratio(ps[i]))
    && (forall j :: 0 <= j < i ==> ratio(ps[j]) < ratio(ps[i]))
  }

  /** At most one position is the first maximum, so the query has one
      answer. */
  lemma FirstMaximumUnique(ps: seq<Poly>, ratio: Poly -> real, i: int, k: int)
    requires IsFirstMaximum(ps, ratio, i) && IsFirstMaximum(ps, ratio, k)
    ensures i == k
  {
    // each maximum bounds the other, so the two ratios are equal and
    // neither position can come strictly before the other
    assert ratio(ps[i]) <= ratio(ps[k]) && ratio(ps[k]) <= ratio(ps[i]);
  }

  /** Iterates the sequence and keeps the first polygon of highest ratio. */
  method MaxEfficiencyPoly(s: PolySeq, ratio: Poly -> real) returns (p: Poly)
    requires s.Valid()
    ensures p in Contents(s)
    ensures IsFirstMaximum(Contents(s), ratio, p.sides - 3)
    ensures forall q :: q in Contents(s) ==> ratio(q) <= ratio(p)
    ensures forall q :: q in Contents(s) && q.sides < p.sides ==> ratio(q) < ratio(p)
  {
    var ps := Iteration.Collect(s);
    var best := 0;
    var i := 1;
    while i < |ps|
      invariant 0 <= best < i <= |ps|
      invariant forall j :: 0 <= j < i ==> ratio(ps[j]) <= ratio(ps[best])
      invariant forall j :: 0 <= j < best ==> ratio(ps[j]) < ratio(ps[best])
    {
      if ratio(ps[i]) > ratio(ps[best]) {
        best := i;
      }
      i := i + 1;
    }
    p := ps[best];
    assert p.sides - 3 == best;
    forall q | q in Contents(s) && q.sides < p.sides
      ensures ratio(q) < ratio(p)
    {
      assert q == ps[q.sides - 3];
    }
  }
}
