/** The dimensions of an array: growing them, constraining them, and walking the constrained elements. */
module ArrayShape {
  import opened Text
  import opened Variables

  /** C++ integer division, which truncates toward zero. */
  function TruncatedDiv(a: int, b: int): int
    requires b > 0
  {
    if a >= 0 then a / b else -((-a) / b)
  }

  /** It is the number of whole times that b goes into a, with the sign of a. */
  lemma TruncatesTowardZero(a: int, b: int, q: int)
    requires b > 0
    ensures TruncatedDiv(a, b) == q <==> if a >= 0 then b * q <= a < b * q + b else b * q - b < a <= b * q
  {
    if a >= 0 {
      QuotientIff(a, b, q);
    } else {
      QuotientIff(-a, b, -q);
      assert b * -q == -(b * q);
    }
  }

  lemma QuotientIff(a: int, b: int, q: int)
    requires b > 0
    ensures a / b == q <==> b * q <= a < b * q + b
  {
    if b * q <= a < b * q + b { QuotientIsUnique(a, b, q, a - b * q); }
    assert a == b * (a / b) + a % b;
  }

  /** The number of elements a constraint leaves in a dimension, as the code computes it. */
  function ConstrainedSize(start: int, stride: int, stop: int): int
    requires stride > 0
  {
    TruncatedDiv(stop - start, stride) + 1
  }

  /** The indices a constraint selects. */
  function Selected(start: int, stride: int, stop: int): (s: seq<int>)
    requires stride > 0
    ensures forall i :: i in s ==> start <= i <= stop
    decreases stop - start + 1
  {
    if start > stop then [] else [start] + Selected(start + stride, stride, stop)
  }

  lemma {:induction false} SelectedCount(start: int, stride: int, stop: int)
    requires stride > 0 && start <= stop
    ensures |Selected(start, stride, stop)| == (stop - start) / stride + 1
    decreases stop - start
  {
    if start + stride <= stop {
      SelectedCount(start + stride, stride, stop);
      DivStep(stop - start, stride);
    } else {
      assert Selected(start + stride, stride, stop) == [];
      assert 0 <= stop - start < stride;
      SmallDiv(stop - start, stride);
    }
  }

  lemma DivStep(a: int, b: int)
    requires b > 0 && a >= b
    ensures (a - b) / b == a / b - 1
  {
    var q, r := a / b, a % b;
    assert a - b == b * (q - 1) + r;
    QuotientIsUnique(a - b, b, q - 1, r);
  }

  lemma SmallDiv(a: int, b: int)
    requires 0 <= a < b
    ensures a / b == 0
  {
    QuotientIsUnique(a, b, 0, a);
  }

  lemma QuotientIsUnique(a: int, b: int, q: int, r: int)
    requires b > 0 && a == b * q + r && 0 <= r < b
    ensures a / b == q
  {
    var q', r' := a / b, a % b;
    assert a == b * q' + r' && 0 <= r' < b;
    assert b * (q - q') == r' - r;
    Multiples(b, q - q');
  }

  lemma Multiples(b: int, k: int)
    requires b > 0
    ensures k >= 1 ==> b * k >= b && b * k >= k
    ensures k <= -1 ==> b * k <= -b
  {
    if k >= 1 {
      assert b * k == b * (k - 1) + b && b * (k - 1) >= 0;
      assert b * k == (b - 1) * k + k && (b - 1) * k >= 0;
    } else if k <= -1 {
      assert b * k == -(b * (-k - 1)) - b && b * (-k - 1) >= 0;
    }
  }

  /** The computed size is the number of selected indices unless the constraint runs backwards: then it
      is so only when stop falls between one and two strides short of start. */
  lemma ConstrainedSizeIsCountIff(start: int, stride: int, stop: int)
    requires stride > 0
    ensures ConstrainedSize(start, stride, stop) == |Selected(start, stride, stop)|
       <==> start <= stop || -2 * stride < stop - start <= -stride
  {
    if start <= stop {
      SelectedCount(start, stride, stop);
    } else {
      var a := start - stop;
      assert Selected(start, stride, stop) == [];
      if a < stride {
        SmallDiv(a, stride);
      } else if a < 2 * stride {
        DivStep(a, stride);
        SmallDiv(a - stride, stride);
      } else {
        DivStep(a, stride);
        DivStep(a - stride, stride);
        assert (a - 2 * stride) / stride >= 0 by { NonNegative(a - 2 * stride, stride); }
      }
    }
  }

  lemma NonNegative(a: int, b: int)
    requires a >= 0 && b > 0
    ensures a / b >= 0
  {}

  /** The length the code gives an array whose dimensions are ds: a dimension whose constrained size is
      not positive counts as one. */
  function Elements(ds: seq<Dimension>): int {
    if ds == [] then 1
    else Elements(ds[..|ds| - 1]) * (if ds[|ds| - 1].cSize > 0 then ds[|ds| - 1].cSize else 1)
  }

  /** A dimension whose constraint fits it: its constrained size counts the selected indices, which lie
      inside the dimension. */
  predicate Fits(d: Dimension) {
    d.stride > 0 && d.cSize == |Selected(d.start, d.stride, d.stop)| && d.cSize <= d.size &&
    forall i :: i in Selected(d.start, d.stride, d.stop) ==> 0 <= i < d.size
  }

  lemma NewDimensionFits(size: nat, name: string)
    ensures Fits(NewDimension(size, name))
  {
    if size > 0 {
      SelectedCount(0, 1, size - 1);
      QuotientIsUnique(size - 1, 1, size - 1, 0);
    }
  }

  /** The product of extents. */
  function Volume(extents: seq<nat>): nat {
    if extents == [] then 1 else extents[0] * Volume(extents[1..])
  }

  predicate AllFit(ds: seq<Dimension>) {
    forall i :: 0 <= i < |ds| ==> Fits(ds[i])
  }

  /** How many indices each dimension selects. */
  function Extents(ds: seq<Dimension>): (extents: seq<nat>)
    requires AllFit(ds)
  {
    seq(|ds|, i requires 0 <= i < |ds| => |Selected(ds[i].start, ds[i].stride, ds[i].stop)|)
  }

  lemma {:induction false} VolumeOfLast(extents: seq<nat>, last: nat)
    ensures Volume(extents + [last]) == Volume(extents) * last
  {
    if extents == [] {
      assert (extents + [last])[1..] == [];
    } else {
      assert (extents + [last])[1..] == extents[1..] + [last];
      VolumeOfLast(extents[1..], last);
      var first, rest := extents[0], Volume(extents[1..]);
      assert first * (rest * last) == (first * rest) * last;
    }
  }

  lemma {:induction false} VolumeIsPositiveIff(extents: seq<nat>)
    ensures Volume(extents) > 0 <==> forall i :: 0 <= i < |extents| ==> extents[i] > 0
  {
    if extents != [] {
      VolumeIsPositiveIff(extents[1..]);
      assert forall i :: 0 <= i < |extents| - 1 ==> extents[1..][i] == extents[i + 1];
      ProductIsPositive(extents[0], Volume(extents[1..]));
    }
  }

  lemma ProductIsPositive(a: nat, b: nat)
    ensures a * b > 0 <==> a > 0 && b > 0
  {}

  lemma {:induction false} ElementsArePositive(ds: seq<Dimension>)
    ensures Elements(ds) >= 1
  {
    if ds != [] {
      ElementsArePositive(ds[..|ds| - 1]);
      var size := ds[|ds| - 1].cSize;
      Multiples(if size > 0 then size else 1, Elements(ds[..|ds| - 1]));
    }
  }

  lemma {:induction false} ElementsOfPositive(ds: seq<Dimension>)
    requires AllFit(ds) && forall i :: 0 <= i < |ds| ==> ds[i].cSize > 0
    ensures Elements(ds) == Volume(Extents(ds))
  {
    if ds != [] {
      var front := ds[..|ds| - 1];
      ElementsOfPositive(front);
      assert Extents(ds) == Extents(front) + [ds[|ds| - 1].cSize];
      VolumeOfLast(Extents(front), ds[|ds| - 1].cSize);
    }
  }

  function OneAtLeast(ds: seq<Dimension>): (extents: seq<nat>)
    ensures |extents| == |ds| && forall i :: 0 <= i < |ds| ==> extents[i] == if ds[i].cSize < 1 then 1 else ds[i].cSize
  {
    seq(|ds|, i requires 0 <= i < |ds| => if ds[i].cSize < 1 then 1 else ds[i].cSize)
  }

  /** Whatever the constrained sizes are, the length is the product of them, each taken as one at least. */
  lemma {:induction false} LengthOfAny(ds: seq<Dimension>)
    ensures Elements(ds) == Volume(OneAtLeast(ds))
    decreases |ds|
  {
    if ds != [] {
      var front, last := ds[..|ds| - 1], ds[|ds| - 1].cSize;
      LengthOfAny(front);
      assert OneAtLeast(ds) == OneAtLeast(front) + [if last < 1 then 1 else last];
      VolumeOfLast(OneAtLeast(front), if last < 1 then 1 else last);
    }
  }

  /** The length is the number of combinations of selected indices unless some dimension selects none:
      then there is no combination, yet the length is positive. */
  lemma LengthIsProductIff(ds: seq<Dimension>)
    requires AllFit(ds)
    ensures Elements(ds) == Volume(Extents(ds)) <==> forall i :: 0 <= i < |ds| ==> ds[i].cSize > 0
  {
    if i :| 0 <= i < |ds| && ds[i].cSize <= 0 {
      assert Extents(ds)[i] == 0;
      VolumeIsPositiveIff(Extents(ds));
      ElementsArePositive(ds);
    } else {
      ElementsOfPositive(ds);
    }
  }

  /** Each product on the way is at most the last, so computing the length leaves the range of an int exactly
      when the length itself does. */
  lemma {:induction false} PartialLengths(ds: seq<Dimension>, i: nat)
    requires i <= |ds|
    ensures Elements(ds[..i]) <= Elements(ds)
    decreases |ds|
  {
    if i == |ds| {
      assert ds[..i] == ds;
    } else {
      var front := ds[..|ds| - 1];
      assert front[..i] == ds[..i];
      PartialLengths(front, i);
      ElementsArePositive(front);
      var size := ds[|ds| - 1].cSize;
      GrowsBy(Elements(front), if size > 0 then size else 1);
    }
  }

  lemma GrowsBy(a: nat, b: nat)
    requires b >= 1
    ensures a <= a * b
  {
    assert a * b == a * (b - 1) + a && a * (b - 1) >= 0;
  }

  /** The bound of a C++ int. */
  const INT_LIMIT := 0x8000_0000

  lemma OverflowsIff(ds: seq<Dimension>)
    ensures (exists i :: 0 <= i <= |ds| && Elements(ds[..i]) >= INT_LIMIT) <==> Elements(ds) >= INT_LIMIT
  {
    forall i | 0 <= i <= |ds| ensures Elements(ds[..i]) <= Elements(ds) { PartialLengths(ds, i); }
    assert ds[..|ds|] == ds;
  }

  /** A dimension of size 0, which append_dim takes, does not empty the array. */
  lemma EmptyDimensionCountsAsOne(x: string, y: string)
    ensures var ds := [NewDimension(0, x), NewDimension(5, y)];
      AllFit(ds) && Elements(ds) == 5 && Volume(Extents(ds)) == 0
  {
    var ds := [NewDimension(0, x), NewDimension(5, y)];
    NewDimensionFits(0, x);
    NewDimensionFits(5, y);
    assert ds[..1][..0] == [] && ds[..1][0] == ds[0];
    assert Elements(ds[..1]) == 1;
    assert Extents(ds)[0] == 0;
    VolumeIsPositiveIff(Extents(ds));
  }

  /** A dimension under a constraint; a stop of -1 means the last index. */
  function Constrained(d: Dimension, start: int, stride: int, stop: int): Dimension
    requires stride > 0
  {
    var last := LastIndex(d, stop);
    Dimension(d.size, d.name, start, last, stride, ConstrainedSize(start, stride, last))
  }

  function LastIndex(d: Dimension, stop: int): int {
    if stop == -1 then d.size - 1 else stop
  }

  /** What add_constraint lets through. The last condition refuses only ranges that start below zero. */
  predicate Admits(d: Dimension, start: int, stride: int, stop: int) {
    0 < stride <= d.size && start < d.size && LastIndex(d, stop) < d.size &&
    ConstrainedSize(start, stride, LastIndex(d, stop)) <= d.size
  }

  /** A range that starts at zero or above is admitted exactly when its stride and its ends are within
      the size: its count never exceeds the size. */
  lemma AdmitsFromZero(d: Dimension, start: nat, stride: int, stop: int)
    ensures Admits(d, start, stride, stop)
       <==> 0 < stride <= d.size && start < d.size && LastIndex(d, stop) < d.size
  {
    if 0 < stride <= d.size && start < d.size && LastIndex(d, stop) < d.size {
      ConstrainedSizeIsBounded(start, stride, LastIndex(d, stop));
    }
  }

  lemma ConstrainedSizeIsBounded(start: int, stride: int, last: int)
    requires stride > 0
    ensures ConstrainedSize(start, stride, last) <= 1 + if start <= last then last - start else 0
  {
    if start <= last {
      CountIsBounded(last - start, stride);
    } else {
      NonNegative(start - last, stride);
    }
  }

  /** An admitted constraint leaves a dimension that fits exactly when its range runs forward from zero
      or above, or stops between one and two strides short of its start. Negative starts and longer
      backward ranges are let through too. */
  lemma ConstrainedFitsIff(d: Dimension, start: int, stride: int, stop: int)
    requires Admits(d, start, stride, stop)
    ensures var last := LastIndex(d, stop);
      Fits(Constrained(d, start, stride, stop)) <==> 0 <= start <= last || -2 * stride < last - start <= -stride
  {
    var last := LastIndex(d, stop);
    ConstrainedSizeIsCountIff(start, stride, last);
    if start > last {
      assert Selected(start, stride, last) == [];
    } else {
      assert start in Selected(start, stride, last);
    }
  }

  /** One that starts below zero and is let through all the same: it selects -1. */
  lemma NegativeStartSlipsThrough(x: string)
    ensures var d := NewDimension(10, x);
      Admits(d, -1, 1, 3) && !Fits(Constrained(d, -1, 1, 3)) && -1 in Selected(-1, 1, 3)
  {
    var d := NewDimension(10, x);
    SelectedCount(-1, 1, 3);
    ConstrainedSizeIsCountIff(-1, 1, 3);
    assert Admits(d, -1, 1, 3);
    ConstrainedFitsIff(d, -1, 1, 3);
  }

  class Array {
    var shape: seq<Dimension>
    var length: int

    ghost predicate Valid()
      reads this
    {
      (forall i :: 0 <= i < |shape| && shape[i].size >= 0 ==> Fits(shape[i])) && (shape != [] ==> length == Elements(shape))
    }

    /** The length is the number of combinations of selected indices, exactly when no dimension is empty. */
    ghost predicate LengthIsProduct()
      reads this
    {
      AllFit(shape) ==> (length == Volume(Extents(shape)) <==> forall i :: 0 <= i < |shape| ==> shape[i].cSize > 0)
    }

    /** A new array has no dimension yet; its length is the flag value -1. */
    constructor ()
      ensures Valid() && shape == [] && length == -1
    {
      shape, length := [], -1;
    }

    method UpdateLength()
      modifies this`length
      ensures length == Elements(shape) && LengthIsProduct()
    {
      var product := 1;
      for i := 0 to |shape|
        invariant product == Elements(shape[..i])
      {
        assert shape[..i + 1][..i] == shape[..i];
        product := product * (if shape[i].cSize > 0 then shape[i].cSize else 1);
      }
      assert shape[..|shape|] == shape;
      length := product;
      if AllFit(shape) { LengthIsProductIff(shape); }
    }

    method AppendDim(size: int, name: string)
      requires Valid()
      modifies this
      ensures Valid() && shape == old(shape) + [NewDimension(size, Www2id(name, 0))]
      ensures LengthIsProduct()
    {
      if size >= 0 { NewDimensionFits(size, Www2id(name, 0)); }
      shape := shape + [Dimension(size, Www2id(name, 0), 0, size - 1, 1, size)];
      UpdateLength();
    }

    method PrependDim(size: int, name: string)
      requires Valid()
      modifies this
      ensures Valid() && shape == [NewDimension(size, Www2id(name, 0))] + old(shape)
      ensures LengthIsProduct()
    {
      if size >= 0 { NewDimensionFits(size, Www2id(name, 0)); }
      shape := [Dimension(size, Www2id(name, 0), 0, size - 1, 1, size)] + shape;
      UpdateLength();
    }

    /** Select every element again. Without any dimension this leaves the flag value. */
    method ResetConstraint()
      requires Valid()
      modifies this
      ensures Valid() && shape == BareDimensions(old(shape))
      ensures if shape == [] then length == -1 else LengthIsProduct()
    {
      length := -1;
      ghost var before := shape;
      var i := 0;
      while i < |shape|
        invariant i <= |shape| == |before|
        invariant shape[..i] == BareDimensions(before)[..i] && shape[i..] == before[i..]
        invariant if i == 0 then length == -1 else length == Elements(shape) && LengthIsProduct()
      {
        var d := shape[i];
        assert d == before[i..][0];
        shape := shape[i := d.(start := 0, stop := d.size - 1, stride := 1, cSize := d.size)];
        UpdateLength();
        assert shape[i] == BareDimensions(before)[i];
        i := i + 1;
      }
      forall k | 0 <= k < |shape| && shape[k].size >= 0 ensures Fits(shape[k]) {
        assert shape[k] == BareDimensions(before)[k];
        NewDimensionFits(before[k].size, before[k].name);
      }
    }

    /** Constrain dimension i. A constraint that is not admitted is refused, changing nothing. One that
        is admitted may still leave the array invalid: by a negative start or a long backward range. */
    method AddConstraint(i: nat, start: int, stride: int, stop: int) returns (ok: bool)
      requires Valid() && i < |shape|
      modifies this
      ensures ok <==> Admits(old(shape)[i], start, stride, stop)
      ensures ok ==> |shape| == |old(shape)| && (forall j :: 0 <= j < |shape| && j != i ==> shape[j] == old(shape)[j])
      ensures ok ==> shape[i] == Constrained(old(shape)[i], start, stride, stop)
      ensures ok ==> shape[i].size == old(shape)[i].size && shape[i].name == old(shape)[i].name
      ensures ok ==> shape[i].start == start && shape[i].stride == stride
      ensures ok ==> shape[i].stop == if stop == -1 then old(shape)[i].size - 1 else stop
      ensures ok ==> length == Elements(shape) && LengthIsProduct()
      ensures ok ==> var last := LastIndex(old(shape)[i], stop);
        (Valid() <==> 0 <= start <= last || -2 * stride < last - start <= -stride)
      ensures !ok ==> Valid() && shape == old(shape) && length == old(length)
    {
      var d := shape[i];
      var last := if stop == -1 then d.size - 1 else stop;
      if start >= d.size || last >= d.size || stride > d.size || stride <= 0 {
        return false;
      }
      if TruncatedDiv(last - start, stride) + 1 > d.size {
        return false;
      }
      ConstrainedFitsIff(d, start, stride, stop);
      d := d.(start := start, stop := last, stride := stride, cSize := TruncatedDiv(last - start, stride) + 1);
      shape := shape[i := d];
      UpdateLength();
      assert shape[i] == d && d.size > 0;
      return true;
    }

    /** Print the elements under the current constraint: as many as the length says, each once and in
        order. Every dimension selects something. */
    method PrintVal(out: ElementPrinter) returns (next: nat)
      requires Valid() && shape != []
      requires forall i :: 0 <= i < |shape| ==> shape[i].cSize > 0 && shape[i].size > 0
      modifies out
      ensures next == length == Volume(Extents(shape))
      ensures out.printed == old(out.printed) + seq(next, i requires 0 <= i < next => i)
    {
      var extents: seq<nat> := [];
      for i := 0 to |shape|
        invariant extents == Extents(shape)[..i]
      {
        extents := extents + [shape[i].cSize];
      }
      assert extents == Extents(shape);
      LengthIsProductIff(shape);
      next := out.PrintArray(0, extents);
    }
  }

  lemma CountIsBounded(a: int, b: int)
    requires a >= 0 && b > 0
    ensures 0 <= a / b <= a
  {
    NonNegative(a, b);
    Multiples(b, a / b);
    assert a == b * (a / b) + a % b;
  }

  // ---------------------------------------------------------------------------------------------
  // Walking the elements
  // ---------------------------------------------------------------------------------------------

  /** The place of the element with the given index in each dimension, in row-major order. */
  function RowMajor(at: seq<nat>, extents: seq<nat>): nat
    requires |at| == |extents|
  {
    if at == [] then 0 else at[0] * Volume(extents[1..]) + RowMajor(at[1..], extents[1..])
  }

  class ElementPrinter {
    /** The elements printed so far, by their place in the vector. */
    var printed: seq<nat>

    /** Print the elements of a block of dims dimensions from index on; returns the index behind it.
        Every extent is at least 1. */
    method PrintArray(index: nat, extents: seq<nat>) returns (next: nat)
      requires extents != [] && forall i :: 0 <= i < |extents| ==> extents[i] > 0
      modifies this
      ensures next == index + Volume(extents)
      ensures printed == old(printed) + seq(Volume(extents), i requires 0 <= i < Volume(extents) => index + i)
      decreases |extents|
    {
      next := index;
      ghost var inner := Volume(extents[1..]);
      assert extents[0] * inner == Volume(extents);
      var i := 0;
      while i < extents[0]
        invariant i <= extents[0] && next == index + i * inner
        invariant printed == old(printed) + seq(i * inner, k requires 0 <= k < i * inner => index + k)
      {
        assert (i + 1) * inner == i * inner + inner;
        if |extents| == 1 {
          assert inner == 1;
          printed := printed + [next];
          next := next + 1;
        } else {
          next := PrintArray(next, extents[1..]);
        }
        i := i + 1;
      }
    }
  }

  /** Every combination of indices is somewhere in the walk: its row-major place is below the volume. */
  lemma {:induction false} RowMajorIsInside(at: seq<nat>, extents: seq<nat>)
    requires |at| == |extents| && forall i :: 0 <= i < |at| ==> at[i] < extents[i]
    ensures RowMajor(at, extents) < Volume(extents)
  {
    if at != [] {
      RowMajorIsInside(at[1..], extents[1..]);
      InsideBlock(at[0], extents[0], Volume(extents[1..]), RowMajor(at[1..], extents[1..]));
    }
  }

  lemma InsideBlock(a: nat, n: nat, inner: nat, rest: nat)
    requires a < n && rest < inner
    ensures a * inner + rest < n * inner
  {
    assert (a + 1) * inner == a * inner + inner;
    assert n * inner == (a + 1) * inner + (n - a - 1) * inner;
    assert (n - a - 1) * inner >= 0;
  }

  /** The walk reaches each combination once: distinct combinations have distinct places. */
  lemma {:induction false} RowMajorIsInjective(a: seq<nat>, b: seq<nat>, extents: seq<nat>)
    requires |a| == |b| == |extents|
    requires forall i :: 0 <= i < |a| ==> a[i] < extents[i] && b[i] < extents[i]
    requires RowMajor(a, extents) == RowMajor(b, extents)
    ensures a == b
  {
    if a != [] {
      RowMajorIsInside(a[1..], extents[1..]);
      RowMajorIsInside(b[1..], extents[1..]);
      var inner := Volume(extents[1..]);
      SameQuotient(inner, a[0], RowMajor(a[1..], extents[1..]), b[0], RowMajor(b[1..], extents[1..]));
      RowMajorIsInjective(a[1..], b[1..], extents[1..]);
      assert a == [a[0]] + a[1..] && b == [b[0]] + b[1..];
    }
  }

  /** The walk visits nothing else: every place below the volume belongs to a combination. */
  lemma {:induction false} RowMajorIsOnto(place: nat, extents: seq<nat>) returns (at: seq<nat>)
    requires place < Volume(extents)
    ensures |at| == |extents| && (forall i :: 0 <= i < |at| ==> at[i] < extents[i])
    ensures RowMajor(at, extents) == place
  {
    if extents == [] {
      at := [];
    } else {
      var inner := Volume(extents[1..]);
      ProductIsPositive(extents[0], inner);
      QuotientIsInside(place, inner, extents[0]);
      var rest := RowMajorIsOnto(place % inner, extents[1..]);
      at := [place / inner] + rest;
      assert at[1..] == rest;
    }
  }

  lemma QuotientIsInside(v: nat, inner: nat, n: nat)
    requires v < n * inner
    ensures inner > 0 && 0 <= v / inner < n && v == (v / inner) * inner + v % inner
  {
    var q := v / inner;
    assert v == inner * q + v % inner;
    NonNegative(v, inner);
    assert inner * (q - n) < inner by { assert inner * (q - n) == inner * q - n * inner; }
    Multiples(inner, q - n);
    if q == n {
      assert false;
    }
  }

  lemma SameQuotient(inner: nat, a: nat, restA: nat, b: nat, restB: nat)
    requires restA < inner && restB < inner && a * inner + restA == b * inner + restB
    ensures a == b && restA == restB
  {
    var v := a * inner + restA;
    QuotientIsUnique(v, inner, a, restA);
    QuotientIsUnique(v, inner, b, restB);
  }
}
