/**
 * Array objects (src/interpreter/array.cpp): dimensions with inclusive
 * bounds, the flat cell sequence, and the mixed-radix addressing of
 * `getElement`, in which the first dimension varies fastest.
 */
module Arrays {
  import opened Wrappers
  import opened Types
  import opened Values

  /** ArrayDimension: its position `n` among the dimensions and its inclusive bounds. */
  datatype Dim = Dim(n: int, lower: int, upper: int)

  /** An array: name, element type, dimensions and the variables of its cells. */
  datatype ArrayObj = ArrayObj(name: string, elemType: DataType, dims: seq<Dim>, cells: seq<VarId>)

  /** ArrayDimension::getSize. */
  function Size(d: Dim): int
  {
    (d.upper - d.lower) + 1
  }

  /** ArrayDimension::isValidIndex. */
  predicate IsValidIndex(d: Dim, i: int)
  {
    i >= d.lower && i <= d.upper
  }

  /** The valid indices of a dimension are the Size(d) consecutive integers from its lower bound. */
  lemma ValidIndicesCount(d: Dim, i: int)
    ensures IsValidIndex(d, i) <==> 0 <= i - d.lower < Size(d)
  {
  }

  /** ArrayDimension's operator==. */
  predicate DimEq(a: Dim, b: Dim)
  {
    a.n == b.n && a.lower == b.lower && a.upper == b.upper
  }

  /** Dimension equality is structural equality: position and both bounds. */
  lemma DimEqIsEquality(a: Dim, b: Dim)
    ensures DimEq(a, b) <==> a == b
  {
  }

  /** Every index tuple names one valid index per dimension. */
  predicate InBounds(dims: seq<Dim>, index: seq<int>)
  {
    |index| == |dims| && forall k :: 0 <= k < |dims| ==> IsValidIndex(dims[k], index[k])
  }

  /** The distance between consecutive indices of dimension k: the product of the sizes before it. */
  function Stride(dims: seq<Dim>, k: nat): int
    requires k <= |dims|
  {
    if k == 0 then 1 else Stride(dims, k - 1) * Size(dims[k - 1])
  }

  /** The number of cells Π size_d that the dimensions address. */
  function CellCount(dims: seq<Dim>): int
  {
    Stride(dims, |dims|)
  }

  /** Σ_{d<k} (index_d - lower_d) · stride_d: the offset contributed by the first k indices. */
  function OffsetUpTo(dims: seq<Dim>, index: seq<int>, k: nat): int
    requires k <= |dims| && k <= |index|
  {
    if k == 0 then 0
    else OffsetUpTo(dims, index, k - 1) + (index[k - 1] - dims[k - 1].lower) * Stride(dims, k - 1)
  }

  /** The flat offset of an index tuple. */
  function Offset(dims: seq<Dim>, index: seq<int>): int
    requires |index| == |dims|
  {
    OffsetUpTo(dims, index, |dims|)
  }

  /**
   * What getElement yields: None where the host aborts (a wrong number of
   * indices) or reads outside the cell vector.
   */
  function ElementAt(a: ArrayObj, index: seq<int>): Option<VarId>
  {
    if |index| != |a.dims| then None
    else
      var off := Offset(a.dims, index);
      if 0 <= off < |a.cells| then Some(a.cells[off]) else None
  }

  /** Array::getElement: the loop that accumulates the offset and the running stride. */
  method GetElement(a: ArrayObj, index: seq<int>) returns (r: Option<VarId>)
    ensures r == ElementAt(a, index)
  {
    if |index| != |a.dims| {
      return None;
    }
    var realIndex := 0;
    var prevSize := 1;
    var i := 0;
    while i < |index|
      invariant 0 <= i <= |index|
      invariant realIndex == OffsetUpTo(a.dims, index, i)
      invariant prevSize == Stride(a.dims, i)
    {
      realIndex := realIndex + (index[i] - a.dims[i].lower) * prevSize;
      prevSize := prevSize * Size(a.dims[i]);
      i := i + 1;
    }
    if 0 <= realIndex < |a.cells| {
      r := Some(a.cells[realIndex]);
    } else {
      r := None;
    }
  }

  /** The size computation at the start of Array::init. */
  method InitSize(dims: seq<Dim>) returns (size: int)
    ensures size == CellCount(dims)
  {
    size := 1;
    var i := 0;
    while i < |dims|
      invariant 0 <= i <= |dims|
      invariant size == Stride(dims, i)
    {
      size := size * Size(dims[i]);
      i := i + 1;
    }
  }

  /** The Array copy constructor: name, element type and dimensions, but no cells. */
  function CopyArray(a: ArrayObj): (c: ArrayObj)
    ensures c.name == a.name && c.elemType == a.elemType && c.dims == a.dims
    ensures |c.cells| == 0
  {
    ArrayObj(a.name, a.elemType, a.dims, [])
  }

  // ------------------------------------------------------ addressing lemmas

  lemma MulMonotone(a: int, b: int, c: int)
    requires 0 <= a <= b && 0 <= c
    ensures a * c <= b * c
  {
    assert b * c == a * c + (b - a) * c;
  }

  /** Digits below the radix determine the number they spell. */
  lemma DigitsUnique(r1: int, q1: int, r2: int, q2: int, s: int)
    requires s > 0 && 0 <= r1 < s && 0 <= r2 < s
    requires r1 + q1 * s == r2 + q2 * s
    ensures q1 == q2 && r1 == r2
  {
    assert (q1 - q2) * s == r2 - r1;
    if q1 > q2 {
      MulMonotone(1, q1 - q2, s);
    } else if q2 > q1 {
      MulMonotone(1, q2 - q1, s);
    }
  }

  /** For valid bounds every stride is positive. */
  lemma {:induction false} StridePositive(dims: seq<Dim>, k: nat)
    requires k <= |dims|
    requires forall j :: 0 <= j < k ==> dims[j].lower <= dims[j].upper
    ensures Stride(dims, k) > 0
  {
    if k > 0 {
      StridePositive(dims, k - 1);
      MulMonotone(1, Size(dims[k - 1]), Stride(dims, k - 1));
    }
  }

  /** For in-bounds indices the first k indices address [0, stride_k). */
  lemma {:induction false} OffsetUpToBounds(dims: seq<Dim>, index: seq<int>, k: nat)
    requires k <= |dims| && k <= |index|
    requires forall j :: 0 <= j < k ==> IsValidIndex(dims[j], index[j])
    ensures 0 <= OffsetUpTo(dims, index, k) < Stride(dims, k)
  {
    if k > 0 {
      OffsetUpToBounds(dims, index, k - 1);
      var s := Stride(dims, k - 1);
      var q := index[k - 1] - dims[k - 1].lower;
      MulMonotone(0, q, s);
      MulMonotone(q, Size(dims[k - 1]) - 1, s);
      assert Stride(dims, k) == s * Size(dims[k - 1]);
      assert (Size(dims[k - 1]) - 1) * s + s == s * Size(dims[k - 1]);
    }
  }

  /** Two in-bounds prefixes with the same offset are the same prefix. */
  lemma {:induction false} OffsetUpToInjective(dims: seq<Dim>, a: seq<int>, b: seq<int>, k: nat)
    requires k <= |dims| && k <= |a| && k <= |b|
    requires forall j :: 0 <= j < k ==> IsValidIndex(dims[j], a[j]) && IsValidIndex(dims[j], b[j])
    requires OffsetUpTo(dims, a, k) == OffsetUpTo(dims, b, k)
    ensures a[..k] == b[..k]
  {
    if k > 0 {
      OffsetUpToBounds(dims, a, k - 1);
      OffsetUpToBounds(dims, b, k - 1);
      var s := Stride(dims, k - 1);
      DigitsUnique(OffsetUpTo(dims, a, k - 1), a[k - 1] - dims[k - 1].lower,
                   OffsetUpTo(dims, b, k - 1), b[k - 1] - dims[k - 1].lower, s);
      OffsetUpToInjective(dims, a, b, k - 1);
      assert a[..k] == a[..k - 1] + [a[k - 1]];
      assert b[..k] == b[..k - 1] + [b[k - 1]];
    }
  }

  /** An in-bounds tuple addresses one of the Π size_d cells. */
  lemma OffsetInRange(dims: seq<Dim>, index: seq<int>)
    requires InBounds(dims, index)
    ensures 0 <= Offset(dims, index) < CellCount(dims)
  {
    OffsetUpToBounds(dims, index, |dims|);
  }

  /** Distinct in-bounds tuples address distinct cells. */
  lemma OffsetInjective(dims: seq<Dim>, a: seq<int>, b: seq<int>)
    requires InBounds(dims, a) && InBounds(dims, b)
    requires Offset(dims, a) == Offset(dims, b)
    ensures a == b
  {
    OffsetUpToInjective(dims, a, b, |dims|);
    assert a == a[..|dims|] && b == b[..|dims|];
  }

  /** Stepping the first index by one moves to the next cell, which is why the first dimension varies fastest. */
  lemma {:induction false} FirstDimensionFastest(dims: seq<Dim>, index: seq<int>, k: nat)
    requires 0 < k <= |dims| && k <= |index|
    ensures OffsetUpTo(dims, index[0 := index[0] + 1], k) == OffsetUpTo(dims, index, k) + 1
  {
    if k > 1 {
      FirstDimensionFastest(dims, index, k - 1);
    }
  }

  /** With enough cells, every in-bounds tuple names a cell, and distinct tuples distinct positions. */
  lemma ElementAtDefined(a: ArrayObj, index: seq<int>)
    requires InBounds(a.dims, index) && |a.cells| >= CellCount(a.dims)
    ensures 0 <= Offset(a.dims, index) < |a.cells|
    ensures ElementAt(a, index) == Some(a.cells[Offset(a.dims, index)])
  {
    OffsetInRange(a.dims, index);
  }
}
