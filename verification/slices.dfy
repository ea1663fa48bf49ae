/** Python slices over a sequence of known length: `slice.indices` as CPython
    implements it, and the `range` it feeds. */
module Slices {
  import opened Errors

  /** A slice object `start:stop:step`; `None` is an omitted component. */
  datatype Slice = Slice(start: Option<int>, stop: Option<int>, step: Option<int>)

  /** The triple `slice.indices` returns. */
  datatype Bounds = Bounds(start: int, stop: int, step: int)

  /** Smallest position a normalised bound may take: 0 going forward, -1
      (one before the first element) going backward. */
  function Lower(step: int): int { if step < 0 then -1 else 0 }

  /** Largest position a normalised bound may take: `length` going forward,
      `length - 1` going backward. */
  function Upper(step: int, length: nat): int { if step < 0 then length - 1 else length }

  /** Normalises one explicit bound for a slice with step `step`: a negative
      value counts from the end, then the value is clamped into
      [Lower(step), Upper(step, length)]. */
  function Adjust(x: int, length: nat, step: int): (b: int)
    ensures Lower(step) <= b <= Upper(step, length)
    ensures 0 <= x <= Upper(step, length) ==> b == x
    ensures x < 0 && Lower(step) <= x + length ==> b == x + length
    // out-of-range bounds are clamped to the nearer limit itself
    ensures x > Upper(step, length) ==> b == Upper(step, length)
    ensures x < 0 && x + length < Lower(step) ==> b == Lower(step)
  {
    if x < 0 then
      (if x + length < Lower(step) then Lower(step) else x + length)
    else
      (if x > Upper(step, length) then Upper(step, length) else x)
  }

  /** `slice.indices(length)`: a step of 0 is a ValueError; an omitted step
      is 1; omitted bounds default to the ends that depend on the step's
      sign; explicit bounds are normalised by `Adjust`. */
  function Indices(sl: Slice, length: nat): (r: Result<Bounds>)
    ensures r.Err? <==> sl.step == Some(0)
    ensures r.Err? ==> r.error == ValueError
    ensures r.Ok? ==> r.value.step != 0
    ensures r.Ok? && sl.step.Some? ==> r.value.step == sl.step.value
    ensures r.Ok? && sl.step.None? ==> r.value.step == 1
    // forward: both bounds within [0, length]
    ensures r.Ok? && r.value.step > 0 ==>
      0 <= r.value.start <= length && 0 <= r.value.stop <= length
    // backward: both bounds within [-1, length - 1]
    ensures r.Ok? && r.value.step < 0 ==>
      -1 <= r.value.start <= length - 1 && -1 <= r.value.stop <= length - 1
    // omitted bounds cover the whole sequence in the direction of the step
    ensures r.Ok? && sl.start.None? ==>
      r.value.start == (if r.value.step < 0 then length - 1 else 0)
    ensures r.Ok? && sl.stop.None? ==>
      r.value.stop == (if r.value.step < 0 then -1 else length)
    // explicit bounds are normalised one by one
    ensures r.Ok? && sl.start.Some? ==> r.value.start == Adjust(sl.start.value, length, r.value.step)
    ensures r.Ok? && sl.stop.Some? ==> r.value.stop == Adjust(sl.stop.value, length, r.value.step)
    // an explicit bound naming a position inside the sequence is kept
    ensures r.Ok? && sl.start.Some? && 0 <= sl.start.value < length ==>
      r.value.start == sl.start.value
    ensures r.Ok? && sl.start.Some? && -(length as int) <= sl.start.value < 0 ==>
      r.value.start == sl.start.value + length
    ensures r.Ok? && sl.stop.Some? && 0 <= sl.stop.value < length ==>
      r.value.stop == sl.stop.value
    ensures r.Ok? && sl.stop.Some? && -(length as int) <= sl.stop.value < 0 ==>
      r.value.stop == sl.stop.value + length
  {
    var step := if sl.step.Some? then sl.step.value else 1;
    if step == 0 then Err(ValueError)
    else
      var start := match sl.start
        case None => (if step < 0 then Upper(step, length) else Lower(step))
        case Some(x) => Adjust(x, length, step);
      var stop := match sl.stop
        case None => (if step < 0 then Lower(step) else Upper(step, length))
        case Some(x) => Adjust(x, length, step);
      Ok(Bounds(start, stop, step))
  }

  /** Whether `range(start, stop, step)` yields anything more from `start`. */
  predicate Continues(start: int, stop: int, step: int)
  {
    (step > 0 && start < stop) || (step < 0 && start > stop)
  }

  /** The number of items of `range(start, stop, step)`, by the closed form
      CPython uses to size a range object. */
  function RangeLength(start: int, stop: int, step: int): nat
    requires step != 0
  {
    if step > 0 && start < stop then (stop - start - 1) / step + 1
    else if step < 0 && stop < start then (start - stop - 1) / (-step) + 1
    else 0
  }

  /** A positive multiple of a positive number is at least that number. */
  lemma {:induction false} MulAtLeast(d: int, t: int)
    requires d > 0 && t > 0
    ensures d * t >= d
  {
    if t > 1 {
      MulAtLeast(d, t - 1);
      assert d * t == d * (t - 1) + d;
    }
  }

  /** Euclidean division is determined by quotient and remainder. */
  lemma DivUnique(a: int, d: int, q: int, m: int)
    requires d > 0 && 0 <= m < d && a == d * q + m
    ensures a / d == q
  {
    var q', m' := a / d, a % d;
    assert d * q' + m' == d * q + m;
    assert d * (q' - q) == m - m';
    if q' > q {
      MulAtLeast(d, q' - q);
    } else if q' < q {
      MulAtLeast(d, q - q');
    }
  }

  /** Euclidean division by a positive divisor drops by one when a divisor is
      taken off the dividend. */
  lemma DivSub(a: int, d: int)
    requires d > 0
    ensures (a - d) / d == a / d - 1
  {
    var q, m := a / d, a % d;
    assert a - d == d * (q - 1) + m;
    DivUnique(a - d, d, q - 1, m);
  }

  /** Taking one step from a start that continues shortens a range by one. */
  lemma RangeLengthStep(start: int, stop: int, step: int)
    requires step != 0 && Continues(start, stop, step)
    ensures RangeLength(start + step, stop, step) + 1 == RangeLength(start, stop, step)
  {
    if step > 0 {
      DivSub(stop - start - 1, step);
    } else {
      DivSub(start - stop - 1, -step);
    }
  }

  /** `range(start, stop, step)` materialised, item by item. */
  function Range(start: int, stop: int, step: int): (r: seq<int>)
    requires step != 0
    ensures |r| == RangeLength(start, stop, step)
    ensures forall k :: 0 <= k < |r| ==> r[k] == start + k * step
    decreases if step > 0 then stop - start else start - stop
  {
    if Continues(start, stop, step) then
      var rest := Range(start + step, stop, step);
      RangeLengthStep(start, stop, step);
      ShiftedItems(rest, start, step);
      [start] + rest
    else
      []
  }

  /** Prepending `start` to a progression that begins at `start + step`
      gives the progression that begins at `start`. */
  lemma ShiftedItems(rest: seq<int>, start: int, step: int)
    requires forall k :: 0 <= k < |rest| ==> rest[k] == start + step + k * step
    ensures forall k :: 0 <= k < |rest| + 1 ==> ([start] + rest)[k] == start + k * step
  {
    forall k | 0 <= k < |rest| + 1
      ensures ([start] + rest)[k] == start + k * step
    {
      if k > 0 {
        assert ([start] + rest)[k] == rest[k - 1];
        assert (k - 1) * step + step == k * step;
      }
    }
  }

  /** Every item of a range lies between its start (inclusive) and its stop
      (exclusive), on the side the step points to. */
  lemma {:induction false} RangeBetween(start: int, stop: int, step: int)
    requires step != 0
    ensures step > 0 ==> forall v :: v in Range(start, stop, step) ==> start <= v < stop
    ensures step < 0 ==> forall v :: v in Range(start, stop, step) ==> stop < v <= start
    decreases if step > 0 then stop - start else start - stop
  {
    if Continues(start, stop, step) {
      RangeBetween(start + step, stop, step);
    }
  }

  /** Every index a slice selects from a sequence of length `length` is a
      valid position of that sequence. */
  lemma SliceIndicesInBounds(sl: Slice, length: nat)
    requires sl.step != Some(0)
    ensures var b := Indices(sl, length).value;
      forall v :: v in Range(b.start, b.stop, b.step) ==> 0 <= v < length
  {
    var b := Indices(sl, length).value;
    RangeBetween(b.start, b.stop, b.step);
  }

  /** A position given as a slice bound: negative values count from the end. */
  function FromEnd(x: int, length: nat): int { if x < 0 then x + length else x }

  /** With a step of 1 or -1, a range holds exactly the values between its
      ends, on the side the step points to. */
  lemma UnitRangeMembers(a: int, b: int, d: int)
    requires d == 1 || d == -1
    ensures d == 1 ==> forall v :: v in Range(a, b, d) <==> a <= v < b
    ensures d == -1 ==> forall v :: v in Range(a, b, d) <==> b < v <= a
  {
    var r := Range(a, b, d);
    RangeBetween(a, b, d);
    if d == 1 {
      forall v | a <= v < b ensures v in r {
        assert r[v - a] == v;
      }
    } else {
      forall v | b < v <= a ensures v in r {
        assert r[a - v] == a + (a - v) * -1 == v;
      }
    }
  }

  /** What clamping means for a unit-step slice: it selects exactly the
      valid positions that lie between its bounds, each bound taken from the
      end when negative, an omitted bound standing for the end of the
      sequence the step starts or stops at. */
  lemma UnitSliceSelectsWindow(sl: Slice, length: nat)
    requires sl.step == None || sl.step == Some(1) || sl.step == Some(-1)
    ensures var b := Indices(sl, length).value;
      var lo := if sl.start.Some? then FromEnd(sl.start.value, length) else 0;
      var hi := if sl.stop.Some? then FromEnd(sl.stop.value, length) else length;
      sl.step != Some(-1) ==>
        forall v :: v in Range(b.start, b.stop, b.step) <==> 0 <= v < length && lo <= v < hi
    ensures var b := Indices(sl, length).value;
      var hi := if sl.start.Some? then FromEnd(sl.start.value, length) else length - 1;
      var lo := if sl.stop.Some? then FromEnd(sl.stop.value, length) else -1;
      sl.step == Some(-1) ==>
        forall v :: v in Range(b.start, b.stop, b.step) <==> 0 <= v < length && lo < v <= hi
  {
    var b := Indices(sl, length).value;
    UnitRangeMembers(b.start, b.stop, b.step);
  }
}
