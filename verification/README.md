# Polygon sequence model

A Dafny model of `PolygonSequences` from `polygonsequence.py`. This is a
read-only sequence of the regular polygons with 3 up to `n_sides` sides that
share one circumradius. The sequence stores only those two numbers. Each
polygon is built on demand by the factory `_polygonator`. The model covers:

- construction and its argument checks;
- `len`;
- integer indexing, including negative indices;
- slicing, normalised by CPython's `slice.indices`;
- the iterator `PolygonSqIterator`;
- the maximum-efficiency query.

A polygon is the opaque value `Poly(sides, r)`. Its geometry is not modelled.

Modules, one per concern:

- `Errors` (errors.dfy): the exception kinds, plus `Result`/`Option`.
- `Numbers` (numbers.dfy): constructor arguments as a tagged union `Num` of the kinds the type check tells apart (int, real scalar, bool, complex, non-number), and `check_number_type`.
- `Polygon` (polygon.dfy): `Poly` and `_polygonator`.
- `Slices` (slices.dfy): `slice.indices` following CPython's `_PySlice_GetLongIndices`, and `range` with CPython's closed-form length.
- `PolygonSequence` (sequence.dfy): construction, `__len__`, and `__getitem__` for both key shapes. It also defines `Contents`, the list of polygons that every access path is checked against.
- `Iteration` (iteration.dfy): the iterator in two forms. `Cursor`/`Step` is a value. `PolygonIterator` is a class whose only mutable field is the position; its `Next` is specified against `Step`. The module also has `list(iter(seq))` and a two-iterator run.
- `Efficiency` (efficiency.dfy): `get_max_efficiency_poly`, with the area/perimeter ratio passed in as a function `Poly -> real`.

## Model

| member | source | states |
|---|---|---|
| Numbers.CheckNumberType | polygonsequence.py:13-18 | bools, complex numbers and non-numbers are refused; ints and real scalars are accepted |
| PolygonSequence.New | polygonsequence.py:20-32 | TypeError exactly when either argument is refused by the type check; ValueError exactly when both pass and the side count is below 3; success exactly for an int side count of at least 3 with an accepted radius, storing both values unchanged, and the result satisfies the sequence invariant `maxSides >= 3`; `NonIntegralSides` exactly for an accepted radius with a float side count of at least 3 |
| PolygonSequence.Length | polygonsequence.py:67-72 | the length is `n_sides - 2`, at least 1 for every validly constructed sequence |
| PolygonSequence.ContentsShape | polygonsequence.py:8-11 | the list starts at the triangle and ends at `n_sides` sides; side counts strictly ascend; a polygon is in the list exactly when it has the sequence's radius and between 3 and `n_sides` sides |
| Polygon.Polygonator | polygonsequence.py:95-101 | the factory fails with ValueError exactly when `n < 3`; otherwise it returns the polygon whose side count and radius are its arguments, and equal arguments give equal polygons |
| PolygonSequence.GetAt | polygonsequence.py:77-83 | an int index succeeds exactly on [-len, len-1], and otherwise fails with IndexError; index `i >= 0` gives list item `i`, and a negative index gives list item `len + i` |
| PolygonSequence.NegativeIndexAgrees | polygonsequence.py:78-79 | `seq[-k] == seq[len-k]` for `1 <= k <= len`, so `seq[-1]` is the last item |
| PolygonSequence.JustOutOfRange | polygonsequence.py:80-81 | `seq[len]` and `seq[-len-1]` both fail with IndexError |
| Slices.Adjust | polygonsequence.py:87 | a normalised explicit slice bound lies within the step-dependent limits [Lower, Upper]; a bound that is already a position is kept; a negative one in range is counted from the end; a bound beyond a limit becomes that limit itself |
| Slices.Indices | polygonsequence.py:87 | `slice.indices(len)` fails only for step 0; an omitted step is 1; forward bounds lie in [0, len] and backward bounds in [-1, len-1]; omitted bounds span the whole sequence in the step's direction; each explicit start and stop is normalised by `Adjust`, so in-range ones are kept and others clamped |
| Slices.UnitSliceSelectsWindow | polygonsequence.py:87-88 | for step 1 (or omitted) a slice selects exactly the valid positions v with start <= v < stop, and for step -1 exactly those with stop < v <= start, negative bounds counted from the end and omitted bounds standing for the sequence's ends |
| Slices.Range | polygonsequence.py:88 | `range(start, stop, step)` has CPython's closed-form length, and item k is `start + k*step` |
| Slices.SliceIndicesInBounds | polygonsequence.py:87-88 | every offset a normalised slice selects is a valid position of the sequence |
| PolygonSequence.BuildAll | polygonsequence.py:88 | building one polygon per offset succeeds exactly when no offset is negative; item k then has side count `offset[k] + 3` |
| PolygonSequence.GetSlice | polygonsequence.py:85-88 | a slice fails only for step 0 (ValueError); otherwise it returns `RangeLength` items, and item k is list item `start + k*step` of the normalised bounds, a valid position |
| PolygonSequence.SliceStaysInside | polygonsequence.py:87-88 | every polygon a slice returns has the sequence's radius and between 3 and `n_sides` sides |
| PolygonSequence.GetItem | polygonsequence.py:73-88 | an int key succeeds exactly within [-len, len-1] and yields that one polygon, and otherwise fails with IndexError; a slice key succeeds exactly when its step is not 0 and yields the slice's list, and otherwise fails with ValueError |
| PolygonSequence.Reverse | polygonsequence.py:87-88 | item k of the reversal is item `len-1-k` of the input (used to state the step -1 slice) |
| PolygonSequence.FullSliceIsContents | polygonsequence.py:87-88 | `seq[:]` is the whole list in order |
| PolygonSequence.ReverseSliceIsReversedContents | polygonsequence.py:87-88 | `seq[::-1]` is the whole list reversed |
| Iteration.Iter | polygonsequence.py:91-93 | `iter(seq)` is a fresh cursor at offset 0 that will yield `len` items |
| Iteration.Step | polygonsequence.py:121-135 | `__next__` yields the polygon with `index + 3` sides and advances by one while items remain; at the end it signals stop and leaves the cursor unchanged; the cursor invariant `0 <= index <= len` is kept |
| Iteration.StopIsFinal | polygonsequence.py:127-128 | once a cursor has signalled stop, every later call signals stop too |
| Iteration.DrainIsSuffix | polygonsequence.py:127-135 | a cursor at offset i yields exactly the list items from i on |
| Iteration.IterationYieldsContents | polygonsequence.py:91-93 | iteration yields exactly the list: `len` items, side counts 3, 4, ..., `n_sides` strictly ascending, all at the sequence's radius |
| Iteration.ReverseSliceIsReversedIteration | polygonsequence.py:87-93 | `seq[::-1]` equals the forward iteration read backwards |
| Iteration.PolygonIterator.Init | polygonsequence.py:108-112 | a new iterator object is in the state `Iter` gives: offset 0, the sequence's side bound and circumradius |
| Iteration.PolygonIterator.Next | polygonsequence.py:121-135 | one call changes only this object's position, and does exactly what `Step` does to the cursor value: yields the next polygon and advances, or signals stop and stays put |
| Iteration.Run | polygonsequence.py:121-135 | calling `__next__` on an iterator until it stops collects exactly the list items from its position on, and leaves it at the end |
| Iteration.Collect | polygonsequence.py:47 | driving a new iterator object until it stops collects exactly the list |
| Iteration.TwoIterators | polygonsequence.py:108-112 | two iterator objects over one sequence keep separate positions: running one to its end leaves the other at offset 0, and both yield the whole list |
| Efficiency.FirstMaximumUnique | polygonsequence.py:48-51 | at most one position is "maximal and not tied by an earlier one", so the query has a single answer |
| Efficiency.MaxEfficiencyPoly | polygonsequence.py:42-51 | the result is an element of the sequence; no element has a larger ratio; every element with fewer sides has a strictly smaller ratio, so ties go to the first in iteration order, as with a stable descending sort |

## Left out

- Geometry of `ConvexPolygon` (area, perimeter, angles, side length): `polygonlib` is not part of this model. A polygon is the opaque pair `(sides, r)`, and the efficiency ratio is a function parameter.
- The `lru_cache` on `_polygonator` (polygonsequence.py:96): it is only a performance cache, and a pure function already returns equal values for equal arguments. Capacity and eviction are not modelled.
- `__repr__` (polygonsequence.py:60-65): string formatting only.
- The commented-out eager precomputation (polygonsequence.py:33-34, 52-59): dead code.
- The `__circumradius__` property (polygonsequence.py:35-40) is the field `PolySeq.radius` itself.
- `PolygonSqIterator.__iter__` (polygonsequence.py:114-119) returns the iterator itself. This is object identity with no state change, so it is not modelled.
- PolygonSequence.New: only int side counts are modelled. The source accepts any real scalar `>= 3`, including a float, and the model reports such a value as `NonIntegralSides` instead of storing it. In the source, a float side count makes `__len__` return a float (polygonsequence.py:72). `len()` then raises TypeError, and so does slicing, already at `s.indices(...)` (line 87). Int indexing (lines 78-83), iteration (line 127) and `get_max_efficiency_poly` still run past the length arithmetic. For `n_sides=5.5` the length is 3.5, and item 3 and the iterator's fourth item are built with 6 sides. `seq[-1]` calls `_polygonator(5.5, r)`; what `ConvexPolygon` does with 5.5 sides is outside this model.
- PolygonSequence.New: the ValueError message text (which names the offending value) is not modelled; only the error kind is.
- Numbers.CheckNumberType: the runtime introspection against `numbers.Number` is replaced by the `Num` tag. Fractions, Decimals and floats all become `Real`, and an int radius is stored as the equal real.
- PolygonSequence.GetItem: a bool key (Python treats `True`/`False` as the ints 1/0) is not a separate case; pass the int instead.
- PolygonSequence.GetItem: keys that are neither int nor slice are not modelled (the source fails on `s.indices`). Slice components are ints or omitted; objects with `__index__` are not modelled.
- Efficiency.MaxEfficiencyPoly: the ratio is a total function into the reals. The source's floating-point division can raise ZeroDivisionError (circumradius 0) or produce NaN, which breaks the sort's ordering; neither is modelled. The source sorts and takes the head; the model uses a linear scan. The ensures characterise the same element a stable descending sort puts first, and `FirstMaximumUnique` shows that element is unique.
- Slices.UnitSliceSelectsWindow: only covers steps 1 and -1. For a larger step, clamping a start is not the same as filtering the unclamped progression. For example, `[-100::2]` over 5 items starts at 0 and selects 0, 2, 4, while the progression -95, -93, ... filtered to valid positions would give 1, 3. For those steps, the exact clamped values are stated by `Adjust` and `Indices`.
- The circumradius is not checked for sign in the source, so the model does not require it to be positive either.
