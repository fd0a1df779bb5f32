/** Checks and searches on numerical data: monotonicity, equality of the
    payloads behind two operands, and the nearest-value search.  Arrays are
    one-dimensional sequences of integers; a multi-dimensional array is its
    row-major flattening together with its shape. */
module Data {

  import opened Optional
  import opened Types

  // ---------------------------------------------------------------------
  // Monotonicity.

  /** `numpy.diff`: the differences of neighbouring elements. */
  function Diff(s: seq<int>): (d: seq<int>)
    ensures |d| == if |s| == 0 then 0 else |s| - 1
    ensures forall k :: 0 <= k < |d| ==> d[k] == s[k + 1] - s[k]
  {
    if |s| <= 1 then [] else [s[1] - s[0]] + Diff(s[1..])
  }

  /** The four relations a sequence may keep between earlier and later
      elements. */
  datatype Trend = NonDecreasing | NonIncreasing | Increasing | Decreasing

  predicate Holds(t: Trend, x: int, y: int)
  {
    match t
    case NonDecreasing => x <= y
    case NonIncreasing => x >= y
    case Increasing => x < y
    case Decreasing => x > y
  }

  /** Reference definition: every earlier element is related to every
      later one. */
  predicate Pairwise(s: seq<int>, t: Trend)
  {
    forall i, j :: 0 <= i < j < |s| ==> Holds(t, s[i], s[j])
  }

  /** `numpy.all(d >= 0)`, `numpy.all(d <= 0)`, `numpy.all(d > 0)` and
      `numpy.all(d < 0)`: every difference has the sign the trend asks for
      (vacuously so when there is none). */
  predicate AllDiffs(d: seq<int>, t: Trend)
  {
    forall k :: 0 <= k < |d| ==> Holds(t, 0, d[k])
  }

  /** `ismonotonic(a, order, strict)`.  `None` stands for the function
      falling off its end, which happens for an `order` that is neither
      `None`, `'increasing'` nor `'decreasing'`. */
  function IsMonotonic(a: Operand<seq<int>>, order: Option<string>, strict: bool): Option<bool>
  {
    var d := Diff(Unwrap(a));
    if !strict && order == None then Some(AllDiffs(d, NonIncreasing) || AllDiffs(d, NonDecreasing))
    else if !strict && order == Some("decreasing") then Some(AllDiffs(d, NonIncreasing))
    else if !strict && order == Some("increasing") then Some(AllDiffs(d, NonDecreasing))
    else if order == None then Some(AllDiffs(d, Decreasing) || AllDiffs(d, Increasing))
    else if order == Some("decreasing") then Some(AllDiffs(d, Decreasing))
    else if order == Some("increasing") then Some(AllDiffs(d, Increasing))
    else None
  }

  /** Neighbouring elements related by the trend relate every earlier
      element to every later one. */
  lemma {:induction false} AdjacentChain(s: seq<int>, t: Trend, i: nat, j: nat)
    requires AllDiffs(Diff(s), t)
    requires i < j < |s|
    ensures Holds(t, s[i], s[j])
    decreases j - i
  {
    assert Holds(t, 0, Diff(s)[j - 1]);
    if i < j - 1 {
      AdjacentChain(s, t, i, j - 1);
    }
  }

  /** The sign test on the differences is exactly the pairwise relation. */
  lemma DiffsIffPairwise(s: seq<int>, t: Trend)
    ensures AllDiffs(Diff(s), t) <==> Pairwise(s, t)
  {
    if AllDiffs(Diff(s), t) {
      forall i, j | 0 <= i < j < |s|
        ensures Holds(t, s[i], s[j])
      {
        AdjacentChain(s, t, i, j);
      }
    }
    if Pairwise(s, t) {
      forall k | 0 <= k < |Diff(s)|
        ensures Holds(t, 0, Diff(s)[k])
      {
        assert Holds(t, s[k], s[k + 1]);
      }
    }
  }

  /** What `ismonotonic` answers: with an order, whether the data keeps
      that order (strictly or not); without one, whether it keeps either;
      with an unknown order, nothing.  Quantities are judged by their
      payload. */
  lemma IsMonotonicMeaning(a: Operand<seq<int>>, order: Option<string>, strict: bool)
    ensures IsMonotonic(a, order, strict).Some?
        <==> order == None || order == Some("increasing") || order == Some("decreasing")
    ensures order == Some("increasing") ==>
      IsMonotonic(a, order, strict) == Some(Pairwise(Unwrap(a), if strict then Increasing else NonDecreasing))
    ensures order == Some("decreasing") ==>
      IsMonotonic(a, order, strict) == Some(Pairwise(Unwrap(a), if strict then Decreasing else NonIncreasing))
    ensures order == None ==>
      IsMonotonic(a, order, strict) == Some(
        if strict then Pairwise(Unwrap(a), Decreasing) || Pairwise(Unwrap(a), Increasing)
        else Pairwise(Unwrap(a), NonIncreasing) || Pairwise(Unwrap(a), NonDecreasing))
  {
    var x := Unwrap(a);
    DiffsIffPairwise(x, NonDecreasing);
    DiffsIffPairwise(x, NonIncreasing);
    DiffsIffPairwise(x, Increasing);
    DiffsIffPairwise(x, Decreasing);
  }

  /** Strict monotonicity implies the non-strict kind, in each direction. */
  lemma StrictImpliesNonStrict(a: Operand<seq<int>>, order: Option<string>)
    requires IsMonotonic(a, order, true) == Some(true)
    ensures IsMonotonic(a, order, false) == Some(true)
  {
    IsMonotonicMeaning(a, order, true);
    IsMonotonicMeaning(a, order, false);
  }

  /** The answers for the sequences the test suite uses, one lemma per
      sequence: strictly increasing, ... */
  lemma IsMonotonicOnIncreasing()
    ensures IsMonotonic(Raw([1, 2, 3, 4]), None, false) == Some(true)
    ensures IsMonotonic(Raw([1, 2, 3, 4]), Some("increasing"), false) == Some(true)
    ensures IsMonotonic(Raw([1, 2, 3, 4]), Some("decreasing"), false) == Some(false)
    ensures IsMonotonic(Raw([1, 2, 3, 4]), Some("increasing"), true) == Some(true)
  {
    assert Diff([1, 2, 3, 4]) == [1, 1, 1];
    assert !AllDiffs([1, 1, 1], NonIncreasing) by { assert !Holds(NonIncreasing, 0, 1); }
  }

  /** ... strictly decreasing, ... */
  lemma IsMonotonicOnDecreasing()
    ensures IsMonotonic(Raw([4, 3, 2, 1]), None, false) == Some(true)
    ensures IsMonotonic(Raw([4, 3, 2, 1]), Some("decreasing"), false) == Some(true)
    ensures IsMonotonic(Raw([4, 3, 2, 1]), Some("increasing"), false) == Some(false)
    ensures IsMonotonic(Raw([4, 3, 2, 1]), Some("decreasing"), true) == Some(true)
  {
    assert Diff([4, 3, 2, 1]) == [-1, -1, -1];
    assert !AllDiffs([-1, -1, -1], NonDecreasing) by { assert !Holds(NonDecreasing, 0, -1); }
  }

  /** ... non-decreasing with a repeat, ... */
  lemma IsMonotonicOnNonDecreasing()
    ensures IsMonotonic(Raw([1, 2, 2, 3]), None, false) == Some(true)
    ensures IsMonotonic(Raw([1, 2, 2, 3]), Some("increasing"), false) == Some(true)
    ensures IsMonotonic(Raw([1, 2, 2, 3]), Some("decreasing"), false) == Some(false)
    ensures IsMonotonic(Raw([1, 2, 2, 3]), Some("increasing"), true) == Some(false)
  {
    assert Diff([1, 2, 2, 3]) == [1, 0, 1];
    assert !AllDiffs([1, 0, 1], NonIncreasing) by { assert !Holds(NonIncreasing, 0, 1); }
    assert !AllDiffs([1, 0, 1], Increasing) by { assert !Holds(Increasing, 0, 0); }
  }

  /** ... non-increasing with a repeat, ... */
  lemma IsMonotonicOnNonIncreasing()
    ensures IsMonotonic(Raw([3, 2, 2, 1]), None, false) == Some(true)
    ensures IsMonotonic(Raw([3, 2, 2, 1]), Some("decreasing"), false) == Some(true)
    ensures IsMonotonic(Raw([3, 2, 2, 1]), Some("increasing"), false) == Some(false)
    ensures IsMonotonic(Raw([3, 2, 2, 1]), Some("decreasing"), true) == Some(false)
  {
    assert Diff([3, 2, 2, 1]) == [-1, 0, -1];
    assert !AllDiffs([-1, 0, -1], NonDecreasing) by { assert !Holds(NonDecreasing, 0, -1); }
    assert !AllDiffs([-1, 0, -1], Decreasing) by { assert !Holds(Decreasing, 0, 0); }
  }

  /** ... and neither; an order the function does not know gives no
      answer at all. */
  lemma IsMonotonicOnNeither()
    ensures IsMonotonic(Raw([1, 3, 2, 4]), None, false) == Some(false)
    ensures IsMonotonic(Raw([1, 3, 2, 4]), Some("sideways"), false) == None
  {
    assert Diff([1, 3, 2, 4]) == [2, -1, 2];
    assert !AllDiffs([2, -1, 2], NonIncreasing) by { assert !Holds(NonIncreasing, 0, 2); }
    assert !AllDiffs([2, -1, 2], NonDecreasing) by { assert !Holds(NonDecreasing, 0, -1); }
  }

  // ---------------------------------------------------------------------
  // Equality of payloads.

  /** `isequal(a, b)`: `numpy.array_equal` on the payloads, i.e. the same
      length and the same elements. */
  function IsEqual(a: Operand<seq<int>>, b: Operand<seq<int>>): (r: bool)
    ensures r <==> |Unwrap(a)| == |Unwrap(b)| && forall k :: 0 <= k < |Unwrap(a)| ==> Unwrap(a)[k] == Unwrap(b)[k]
  {
    Unwrap(a) == Unwrap(b)
  }

  /** `isequal` sees only payloads: it is an equivalence, quantities of
      any classes with equal payloads are equal, and a quantity equals its
      own bare payload from either side. */
  lemma IsEqualIsPayloadEquivalence(a: Operand<seq<int>>, b: Operand<seq<int>>, c: Operand<seq<int>>)
    ensures IsEqual(a, a)
    ensures IsEqual(a, b) == IsEqual(b, a)
    ensures IsEqual(a, b) && IsEqual(b, c) ==> IsEqual(a, c)
    ensures a.Wrapped? ==> IsEqual(a, Raw(a.inst.data)) && IsEqual(Raw(a.inst.data), a)
  {
  }

  lemma IsEqualIgnoresClass(c1: Class, c2: Class, x: seq<int>)
    ensures IsEqual(Wrapped(Instance(c1, x)), Wrapped(Instance(c2, x)))
    ensures IsEqual(Wrapped(Instance(c1, x)), Raw(x))
  {
  }

  // ---------------------------------------------------------------------
  // Nearest value.

  function AbsDiff(x: int, t: int): nat
  {
    if x >= t then x - t else t - x
  }

  /** `numpy.argmin(numpy.abs(array - target))`: the first index of the
      element closest to the target. */
  function ArgMin(s: seq<int>, t: int): (i: nat)
    requires |s| > 0
    ensures i < |s|
    ensures forall k :: 0 <= k < |s| ==> AbsDiff(s[i], t) <= AbsDiff(s[k], t)
    ensures forall k :: 0 <= k < i ==> AbsDiff(s[k], t) > AbsDiff(s[i], t)
  {
    ArgMinFrom(s, t, 0, 1)
  }

  /** The scan behind `ArgMin`: `best` is the first closest index among
      `s[..k]`. */
  function ArgMinFrom(s: seq<int>, t: int, best: nat, k: nat): (i: nat)
    requires best < k <= |s|
    requires forall m :: 0 <= m < k ==> AbsDiff(s[best], t) <= AbsDiff(s[m], t)
    requires forall m :: 0 <= m < best ==> AbsDiff(s[m], t) > AbsDiff(s[best], t)
    ensures i < |s|
    ensures forall m :: 0 <= m < |s| ==> AbsDiff(s[i], t) <= AbsDiff(s[m], t)
    ensures forall m :: 0 <= m < i ==> AbsDiff(s[m], t) > AbsDiff(s[i], t)
    decreases |s| - k
  {
    if k == |s| then best
    else if AbsDiff(s[k], t) < AbsDiff(s[best], t) then ArgMinFrom(s, t, k, k + 1)
    else ArgMinFrom(s, t, best, k + 1)
  }

  /** `array[i]` with Python's reading of a negative index as counting
      from the end. */
  function At(s: seq<int>, i: int): int
    requires -|s| <= i < |s|
  {
    if i >= 0 then s[i] else s[|s| + i]
  }

  /** The `'lower'` walk: `while array[index] < target: index += 1`.  It
      stops at the first element at or above the target, or runs off the
      end at index `len(array)`, where `IndexError` is raised. */
  function WalkUp(s: seq<int>, t: int, i: nat): (j: nat)
    requires i <= |s|
    ensures i <= j <= |s|
    ensures j < |s| ==> t <= s[j]
    ensures forall k :: i <= k < j ==> s[k] < t
    decreases |s| - i
  {
    if i == |s| then |s|
    else if s[i] < t then WalkUp(s, t, i + 1)
    else i
  }

  /** The `'upper'` walk: `while array[index] > target: index -= 1`.
      Below 0 the index keeps counting down through Python's negative
      indexes, so the walk wraps round to the end of the array; it stops
      at an element at or below the target, or runs off at index
      `-len(array) - 1`, where `IndexError` is raised. */
  function WalkDown(s: seq<int>, t: int, i: int): (j: int)
    requires -|s| - 1 <= i < |s|
    ensures -|s| - 1 <= j <= i
    ensures -|s| <= j ==> At(s, j) <= t
    ensures forall k :: j < k <= i ==> At(s, k) > t
    decreases i + |s| + 1
  {
    if i < -|s| then i
    else if At(s, i) > t then WalkDown(s, t, i - 1)
    else i
  }

  /** The result of a search: an index (possibly negative, in Python's
      sense) and the element it designates. */
  datatype Nearest = Nearest(index: int, value: int)

  /** `nearest(values, target, bound)` on a one-dimensional array.  An
      empty array has no `argmin` (numpy raises), which is `None` here.
      Any `bound` other than `'lower'` and `'upper'` means no bound. */
  function FindNearest(s: seq<int>, t: int, bound: Option<string>): (r: Option<Nearest>)
    ensures r.Some? <==> |s| > 0
    ensures r.Some? ==> -|s| <= r.value.index < |s| && r.value.value == At(s, r.value.index)
  {
    if |s| == 0 then None
    else
      var i := ArgMin(s, t);
      var j :=
        if bound == Some("lower") then
          var k := WalkUp(s, t, i); if k == |s| then -1 else k
        else if bound == Some("upper") then
          var k := WalkDown(s, t, i); if k < -|s| then 0 else k
        else i;
      Some(Nearest(j, At(s, j)))
  }

  /** Without a bound the search finds the first element closest to the
      target, whatever the order of the data. */
  lemma NearestUnbounded(s: seq<int>, t: int, bound: Option<string>)
    requires |s| > 0 && bound != Some("lower") && bound != Some("upper")
    ensures var r := FindNearest(s, t, bound).value;
      && 0 <= r.index < |s| && r.value == s[r.index]
      && (forall k :: 0 <= k < |s| ==> AbsDiff(r.value, t) <= AbsDiff(s[k], t))
      && (forall k :: 0 <= k < r.index ==> AbsDiff(s[k], t) > AbsDiff(r.value, t))
  {
  }

  /** On ascending data, the `'lower'` search finds the smallest element at
      or above the target (its first occurrence); when every element is
      below the target it answers index -1, the last element. */
  lemma {:induction false} NearestLowerOnAscending(s: seq<int>, t: int)
    requires |s| > 0 && Pairwise(s, NonDecreasing)
    ensures var r := FindNearest(s, t, Some("lower")).value;
      if exists k :: 0 <= k < |s| && s[k] >= t then
        && 0 <= r.index < |s| && r.value == s[r.index] && t <= r.value
        && (forall k :: 0 <= k < |s| && s[k] >= t ==> r.value <= s[k])
        && (forall k :: 0 <= k < r.index ==> s[k] < t)
      else r == Nearest(-1, s[|s| - 1])
  {
    var i := ArgMin(s, t);
    var r := FindNearest(s, t, Some("lower")).value;
    var w := WalkUp(s, t, i);
    assert r.index == if w == |s| then -1 else w;
    if s[i] >= t {
      // The closest element is already at or above the target: anything
      // earlier is below it, anything smaller but at or above the target
      // would be closer.
      forall k | 0 <= k < |s| && s[k] >= t
        ensures s[i] <= s[k]
      {
        assert AbsDiff(s[i], t) <= AbsDiff(s[k], t);
      }
      forall k | 0 <= k < i
        ensures s[k] < t
      {
        assert AbsDiff(s[k], t) > AbsDiff(s[i], t);
      }
    } else {
      // Everything up to the closest element is below the target, so the
      // walk finds the first element at or above it, if any.
      assert forall k :: 0 <= k <= i ==> s[k] <= s[i];
      if w < |s| {
        forall k | 0 <= k < |s| && s[k] >= t
          ensures r.value <= s[k]
        {
          assert k >= w;
        }
      }
    }
  }

  /** On ascending data, the `'upper'` search finds the largest element at
      or below the target; when every element is above the target it
      answers index 0, the first element. */
  lemma {:induction false} NearestUpperOnAscending(s: seq<int>, t: int)
    requires |s| > 0 && Pairwise(s, NonDecreasing)
    ensures var r := FindNearest(s, t, Some("upper")).value;
      if s[0] <= t then
        && 0 <= r.index < |s| && r.value == s[r.index] && r.value <= t
        && (forall k :: 0 <= k < |s| && s[k] <= t ==> s[k] <= r.value)
      else r == Nearest(0, s[0])
  {
    var i := ArgMin(s, t);
    var r := FindNearest(s, t, Some("upper")).value;
    var w := WalkDown(s, t, i);
    assert r.index == if w < -|s| then 0 else w;
    if s[i] <= t {
      forall k | 0 <= k < |s| && s[k] <= t
        ensures s[k] <= s[i]
      {
        assert AbsDiff(s[i], t) <= AbsDiff(s[k], t);
      }
    } else if s[0] <= t {
      // The walk stops at a non-negative index: index 0 itself qualifies.
      assert At(s, 0) <= t;
      assert 0 <= w;
      forall k | w < k < |s|
        ensures s[k] > t
      {
        if k <= i {
          assert At(s, k) > t;
        } else {
          assert s[i] <= s[k];
        }
      }
    } else {
      // Every element is above the target, at every index the walk visits.
      forall k | -|s| <= k <= i
        ensures At(s, k) > t
      {
        if k >= 0 {
          assert s[0] <= s[k];
        } else {
          assert s[0] <= s[|s| + k];
        }
      }
    }
  }

  /** The searches of the test suite, in hundredths: 0.1, 0.2, 0.3 with
      targets 0.11, 0.15, 0.20 unbounded, and 0.21, 0.25, 0.29 bounded. */
  lemma NearestExamples()
    ensures FindNearest([10, 20, 30], 11, None) == Some(Nearest(0, 10))
    ensures FindNearest([10, 20, 30], 15, None) == Some(Nearest(0, 10))
    ensures FindNearest([10, 20, 30], 20, None) == Some(Nearest(1, 20))
    ensures FindNearest([10, 20, 30], 21, Some("lower")) == Some(Nearest(2, 30))
    ensures FindNearest([10, 20, 30], 25, Some("lower")) == Some(Nearest(2, 30))
    ensures FindNearest([10, 20, 30], 29, Some("lower")) == Some(Nearest(2, 30))
    ensures FindNearest([10, 20, 30], 21, Some("upper")) == Some(Nearest(1, 20))
    ensures FindNearest([10, 20, 30], 25, Some("upper")) == Some(Nearest(1, 20))
    ensures FindNearest([10, 20, 30], 29, Some("upper")) == Some(Nearest(1, 20))
  {
  }

  /** On data that is not ascending the `'upper'` walk can wrap round to
      the end of the array and answer a negative index. */
  lemma UpperWalkWrapsRound()
    ensures FindNearest([5, 1], 3, Some("upper")) == Some(Nearest(-1, 1))
    ensures FindNearest([5, 9], 3, Some("upper")) == Some(Nearest(0, 5))
    ensures FindNearest([10, 20], 25, Some("lower")) == Some(Nearest(-1, 20))
  {
    assert ArgMin([5, 1], 3) == 0;
    assert ArgMin([5, 9], 3) == 0;
    assert ArgMin([10, 20], 25) == 1;
  }

  // ---------------------------------------------------------------------
  // Multi-dimensional arrays.

  /** The number of elements of an array of the given shape. */
  function Product(shape: seq<nat>): nat
  {
    if shape == [] then 1 else shape[0] * Product(shape[1..])
  }

  /** `idx` is a valid multi-index into an array of the given shape. */
  predicate InBounds(idx: seq<nat>, shape: seq<nat>)
  {
    |idx| == |shape| && forall k :: 0 <= k < |idx| ==> idx[k] < shape[k]
  }

  lemma DivBelow(f: nat, a: nat, b: nat)
    requires f < a * b
    ensures b > 0 && f / b < a
  {
  }

  lemma MulMonotonic(a: nat, b: nat, c: nat)
    requires a <= b
    ensures a * c <= b * c
  {
  }

  /** An offset within one row stays below the start of the next. */
  lemma RowBound(i: nat, n: nat, inner: nat, rest: nat)
    requires i < n && rest < inner
    ensures i * inner + rest < n * inner
  {
    MulMonotonic(i + 1, n, inner);
    assert (i + 1) * inner == i * inner + inner;
  }

  lemma DivModSplit(f: nat, b: nat)
    requires b > 0
    ensures f == (f / b) * b + f % b && f % b < b
  {
  }

  lemma MulZero(k: int, b: int)
    requires b > 0 && -b < k * b < b
    ensures k == 0
  {
  }

  /** Quotient and remainder are the only such pair. */
  lemma DivModUnique(f: nat, b: nat, q: nat, r: nat)
    requires b > 0 && r < b && f == q * b + r
    ensures f / b == q && f % b == r
  {
    var q0, r0 := f / b, f % b;
    assert f == q0 * b + r0;
    assert (q - q0) * b == r0 - r;
    MulZero(q - q0, b);
  }

  /** The row-major position of a multi-index. */
  function Ravel(idx: seq<nat>, shape: seq<nat>): (f: nat)
    requires InBounds(idx, shape)
    ensures f < Product(shape)
  {
    if shape == [] then 0
    else
      var inner := Product(shape[1..]);
      var rest := Ravel(idx[1..], shape[1..]);
      RowBound(idx[0], shape[0], inner, rest);
      idx[0] * inner + rest
  }

  /** `numpy.unravel_index(f, shape)`: the multi-index whose row-major
      position is `f`. */
  function Unravel(f: nat, shape: seq<nat>): (idx: seq<nat>)
    requires f < Product(shape)
    ensures InBounds(idx, shape)
  {
    if shape == [] then []
    else
      var inner := Product(shape[1..]);
      DivBelow(f, shape[0], inner);
      [f / inner] + Unravel(f % inner, shape[1..])
  }

  /** The position of the unravelled multi-index is the one unravelled. */
  lemma {:induction false} RavelUnravel(f: nat, shape: seq<nat>)
    requires f < Product(shape)
    ensures Ravel(Unravel(f, shape), shape) == f
  {
    if shape != [] {
      var inner := Product(shape[1..]);
      DivBelow(f, shape[0], inner);
      var q, r := f / inner, f % inner;
      DivModSplit(f, inner);
      var idx := Unravel(f, shape);
      assert idx[0] == q && idx[1..] == Unravel(r, shape[1..]);
      RavelUnravel(r, shape[1..]);
      assert Ravel(idx, shape) == q * inner + r;
    }
  }

  /** Unravelling a valid multi-index's position gives the multi-index
      back, so positions and multi-indexes correspond one to one. */
  lemma {:induction false} UnravelRavel(idx: seq<nat>, shape: seq<nat>)
    requires InBounds(idx, shape)
    ensures Unravel(Ravel(idx, shape), shape) == idx
  {
    if shape != [] {
      var inner := Product(shape[1..]);
      var rest := Ravel(idx[1..], shape[1..]);
      var f := Ravel(idx, shape);
      assert inner > 0;
      assert f == idx[0] * inner + rest;
      DivModUnique(f, inner, idx[0], rest);
      UnravelRavel(idx[1..], shape[1..]);
    }
  }

  /** `nearest(values, target)` on an array of two or more dimensions,
      given as its row-major elements and its shape: the flat search, with
      the index unravelled into one entry per dimension. */
  function NearestGrid(data: seq<int>, shape: seq<nat>, t: int): (r: Option<(seq<nat>, int)>)
    requires |shape| >= 2 && |data| == Product(shape)
    ensures r.Some? <==> |data| > 0
    ensures r.Some? ==> InBounds(r.value.0, shape) && r.value.1 == data[Ravel(r.value.0, shape)]
  {
    if |data| == 0 then None
    else
      var i := ArgMin(data, t);
      RavelUnravel(i, shape);
      Some((Unravel(i, shape), data[i]))
  }

  /** The multi-dimensional search finds the element the flat search
      finds, at the multi-index of the flat index. */
  lemma NearestGridIsFlatSearch(data: seq<int>, shape: seq<nat>, t: int)
    requires |shape| >= 2 && |data| == Product(shape) && |data| > 0
    ensures var r := NearestGrid(data, shape, t).value;
      var flat := FindNearest(data, t, None).value;
      Ravel(r.0, shape) == flat.index && r.1 == flat.value
  {
    RavelUnravel(ArgMin(data, t), shape);
  }

  /** The test suite's grid: position 33 of a 3 x 4 x 5 array is
      `(1, 2, 3)`. */
  lemma UnravelExample()
    ensures Unravel(33, [3, 4, 5]) == [1, 2, 3]
  {
    assert Product([5]) == 5;
    assert Product([4, 5]) == 20;
    assert Product([3, 4, 5]) == 60;
  }
}
