/** The polygon value and the factory every access path goes through. */
module Polygon {
  import opened Errors

  /** A regular convex polygon, known only by the two values it is built
      from; its geometry is outside this model. */
  datatype Poly = Poly(sides: int, r: real)

  /** `_polygonator`: builds the polygon with `n` sides and circumradius
      `radius`, refusing fewer than three sides. Being a function, it returns
      equal polygons for equal arguments, which is all the cache in front of
      it has to preserve. */
  function Polygonator(n: int, radius: real): (p: Result<Poly>)
    ensures p.Ok? <==> n >= 3
    ensures p.Err? ==> p.error == ValueError
    ensures p.Ok? ==> p.value.sides == n && p.value.r == radius
  {
    if n < 3 then Err(ValueError) else Ok(Poly(n, radius))
  }
}
