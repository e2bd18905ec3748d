/** The diagonal Rademacher scalings that precede each Hadamard transform: every
    element of a row is multiplied by a sign (an 8-bit integer, normally +1 or -1)
    and by the normalisation constant `1/sqrt(C)` of a length-`C` transform. The
    constant is a parameter `norm` with `norm * norm * C == 1`. */
module Diagonal {
  import opened Arith

  /** `norm` is the routine's normalisation constant `1 / 2^(log2(c) / 2)`, i.e. `1/sqrt(c)`. */
  predicate IsNormFor(norm: real, c: nat)
  {
    norm > 0.0 && norm * norm * (c as real) == 1.0
  }

  /** Every sign entry is +1 or -1. */
  predicate IsSigns(radem: seq<int>)
  {
    forall j :: 0 <= j < |radem| ==> radem[j] == 1 || radem[j] == -1
  }

  /** Absolute value. */
  function Abs(v: real): real
  {
    if v < 0.0 then -v else v
  }

  /** Per-position factors `radem[j] * norm` of the plain variants. */
  function Factors(radem: seq<int>, n: nat, norm: real): (f: seq<real>)
    requires n <= |radem|
    ensures |f| == n
    ensures forall j :: 0 <= j < n ==> f[j] == radem[j] as real * norm
  {
    seq(n, j requires 0 <= j < n => radem[j] as real * norm)
  }

  /** Per-position factors of the convolution variants: position `p = j * d2 + k`
      of a row uses `radem[startPosition + k] * norm`, the same for every `j`. */
  function ConvFactors(radem: seq<int>, startPosition: nat, d1: nat, d2: nat, norm: real): (f: seq<real>)
    requires startPosition + d2 <= |radem|
    ensures |f| == d1 * d2
  {
    seq(d1 * d2, p requires 0 <= p < d1 * d2 => radem[startPosition + p % d2] as real * norm)
  }

  /** Position `q` lies in rows `[startRow, endRow)` of rows `rs` long. */
  predicate InRows(q: nat, startRow: nat, endRow: nat, rs: nat)
  {
    RowStart(startRow, rs) <= q < RowStart(endRow, rs)
  }

  /** Reference result: inside rows `[startRow, endRow)` position `q` holds
      `src[q] * f[q mod |f|]`; everywhere else it keeps `dst[q]`. The in-place
      variants have `dst == src`, the copy variants write into a separate buffer. */
  function ScaledRows(src: seq<real>, dst: seq<real>, f: seq<real>, startRow: nat, endRow: nat): (r: seq<real>)
    requires |dst| == |src|
    ensures |r| == |src|
  {
    seq(|src|, q requires 0 <= q < |src| =>
      if |f| > 0 && InRows(q, startRow, endRow, |f|) then src[q] * f[q % |f|] else dst[q])
  }

  // ---------------------------------------------------------------------
  // What the reference result means

  /** Element `(i, j)` of a row in range is the input element times factor `j`. */
  lemma ScaledRowsAt(src: seq<real>, dst: seq<real>, f: seq<real>, startRow: nat, endRow: nat, i: nat, j: nat)
    requires |dst| == |src| && startRow <= i < endRow && j < |f|
    requires RowStart(i, |f|) + |f| <= |src|
    ensures ScaledRows(src, dst, f, startRow, endRow)[RowStart(i, |f|) + j] == src[RowStart(i, |f|) + j] * f[j]
  {
    var rs := |f|;
    var q := RowStart(i, rs) + j;
    DivModUnique(q, rs, i, j);
    MulMono(startRow, i, rs);
    RowStartStep(i, rs);
    MulMono(i + 1, endRow, rs);
  }

  /** With +1/-1 signs every touched element keeps its magnitude, scaled by `norm`. */
  lemma ScaledMagnitude(src: seq<real>, dst: seq<real>, radem: seq<int>, n: nat, norm: real,
                        startRow: nat, endRow: nat, q: nat)
    requires n <= |radem| && IsSigns(radem) && norm > 0.0
    requires |dst| == |src| && q < |src| && n > 0 && InRows(q, startRow, endRow, n)
    ensures Abs(ScaledRows(src, dst, Factors(radem, n, norm), startRow, endRow)[q]) == Abs(src[q]) * norm
  {
    var j := q % n;
    assert radem[j] == 1 || radem[j] == -1;
  }

  /** Scaling twice by the same +1/-1 signs multiplies each touched element by
      `norm * norm`, i.e. divides it by the transform length. */
  lemma ScaledTwice(x: seq<real>, radem: seq<int>, n: nat, c: nat, norm: real,
                    startRow: nat, endRow: nat, q: nat)
    requires n <= |radem| && IsSigns(radem) && IsNormFor(norm, c)
    requires q < |x| && n > 0 && InRows(q, startRow, endRow, n)
    ensures var f := Factors(radem, n, norm);
            ScaledRows(ScaledRows(x, x, f, startRow, endRow), ScaledRows(x, x, f, startRow, endRow), f, startRow, endRow)[q]
            * (c as real) == x[q]
  {
    var f := Factors(radem, n, norm);
    var j := q % n;
    assert radem[j] == 1 || radem[j] == -1;
    assert f[j] * f[j] == norm * norm;
    var y := ScaledRows(x, x, f, startRow, endRow);
    assert y[q] == x[q] * f[j];
    var z := ScaledRows(y, y, f, startRow, endRow);
    assert z[q] == x[q] * f[j] * f[j];
    assert z[q] * (c as real) == x[q] * (norm * norm * (c as real));
  }

  /** The convolution factors are the plain factors of the sign slice
      `radem[startPosition .. startPosition + d2]` tiled `d1` times. */
  lemma ConvIsTiledDiagonal(radem: seq<int>, startPosition: nat, d1: nat, d2: nat, norm: real)
    requires startPosition + d2 <= |radem|
    ensures |Tile(radem[startPosition..startPosition + d2], d1)| == d1 * d2
    ensures ConvFactors(radem, startPosition, d1, d2, norm)
         == Factors(Tile(radem[startPosition..startPosition + d2], d1), d1 * d2, norm)
  {
    var s := radem[startPosition..startPosition + d2];
    var a, b := ConvFactors(radem, startPosition, d1, d2, norm), Factors(Tile(s, d1), d1 * d2, norm);
    forall p | 0 <= p < d1 * d2
      ensures a[p] == b[p]
    {
      assert Tile(s, d1)[p] == s[p % d2];
    }
  }

  /** `s` repeated `n` times. */
  function Tile(s: seq<int>, n: nat): (r: seq<int>)
    ensures |r| == n * |s|
    ensures forall p :: 0 <= p < |r| ==> r[p] == s[p % |s|]
  {
    seq(n * |s|, p requires 0 <= p < n * |s| => s[p % |s|])
  }

  // ---------------------------------------------------------------------
  // The loops

  /** The row loop shared by every variant (rows of `|f|` elements): for each row
      `i` in `[startRow, endRow)` and each position `j` of the row, the destination
      element at `i * |f| + j` receives the source element times `f[j]`. */
  method ScaleRowsLoop(src: seq<real>, dst: seq<real>, f: seq<real>, startRow: nat, endRow: nat)
    returns (y: seq<real>)
    requires |dst| == |src|
    requires startRow < endRow ==> RowStart(endRow, |f|) <= |src|
    ensures y == ScaledRows(src, dst, f, startRow, endRow)
  {
    var rs := |f|;
    ghost var R := ScaledRows(src, dst, f, startRow, endRow);
    y := dst;
    var i := startRow;
    while i < endRow
      invariant startRow <= i && (i <= endRow || i == startRow) && |y| == |src|
      invariant forall q :: 0 <= q < |src| && q < RowStart(i, rs) ==> y[q] == R[q]
      invariant forall q :: RowStart(i, rs) <= q < |src| ==> y[q] == dst[q]
    {
      RowStartStep(i, rs);
      MulMono(i + 1, endRow, rs);
      var j := 0;
      while j < rs
        invariant 0 <= j <= rs && |y| == |src|
        invariant forall q :: 0 <= q < RowStart(i, rs) + j ==> y[q] == R[q]
        invariant forall q :: RowStart(i, rs) + j <= q < |src| ==> y[q] == dst[q]
      {
        var pos := RowStart(i, rs) + j;
        ScaledRowsAt(src, dst, f, startRow, endRow, i, j);
        y := y[pos := src[pos] * f[j]];
        j := j + 1;
      }
      i := i + 1;
    }
    if startRow >= endRow {
      MulMono(endRow, startRow, rs);
    }
  }

  /** `multiplyByDiagonalRademacherMat2D`: rows of `dim1` elements; element `(i, j)`
      of a row in range becomes `x[i, j] * radem[j] * norm`, with `norm = 1/sqrt(dim1)`. */
  method MultiplyByDiagonalRademacherMat2D(x: seq<real>, radem: seq<int>, dim1: nat,
                                           startRow: nat, endRow: nat, norm: real)
    returns (y: seq<real>)
    requires IsNormFor(norm, dim1) && dim1 <= |radem|
    requires startRow < endRow ==> RowStart(endRow, dim1) <= |x|
    ensures y == ScaledRows(x, x, Factors(radem, dim1, norm), startRow, endRow)
  {
    y := ScaleRowsLoop(x, x, Factors(radem, dim1, norm), startRow, endRow);
  }

  /** `multiplyByDiagonalRademacherMat`: rows of `dim1 * dim2` elements; position `j`
      of the flattened row uses `radem[j]` (one sign per element of the `dim1 x dim2`
      block, not one per column), with `norm = 1/sqrt(dim2)`. */
  method MultiplyByDiagonalRademacherMat(x: seq<real>, radem: seq<int>, dim1: nat, dim2: nat,
                                         startRow: nat, endRow: nat, norm: real)
    returns (y: seq<real>)
    requires IsNormFor(norm, dim2) && dim1 * dim2 <= |radem|
    requires startRow < endRow ==> RowStart(endRow, dim1 * dim2) <= |x|
    ensures y == ScaledRows(x, x, Factors(radem, dim1 * dim2, norm), startRow, endRow)
  {
    y := ScaleRowsLoop(x, x, Factors(radem, dim1 * dim2, norm), startRow, endRow);
  }

  /** `multiplyByDiagonalRademAndCopy`: the same products as the 3-D variant, written
      into `copyBuffer` instead of `x`; `x` itself is an input only. */
  method MultiplyByDiagonalRademAndCopy(x: seq<real>, copyBuffer: seq<real>, radem: seq<int>,
                                        dim1: nat, dim2: nat, startRow: nat, endRow: nat, norm: real)
    returns (buffer: seq<real>)
    requires IsNormFor(norm, dim2) && dim1 * dim2 <= |radem| && |copyBuffer| == |x|
    requires startRow < endRow ==> RowStart(endRow, dim1 * dim2) <= |x|
    ensures buffer == ScaledRows(x, copyBuffer, Factors(radem, dim1 * dim2, norm), startRow, endRow)
  {
    buffer := ScaleRowsLoop(x, copyBuffer, Factors(radem, dim1 * dim2, norm), startRow, endRow);
  }

  /** Positions before `pos` hold the reference result `R`, the rest still hold `dst`. */
  ghost predicate DoneUpTo(y: seq<real>, R: seq<real>, dst: seq<real>, pos: nat)
    requires |y| == |R| == |dst|
  {
    (forall q :: 0 <= q < |y| && q < pos ==> y[q] == R[q]) &&
    (forall q :: pos <= q < |y| ==> y[q] == dst[q])
  }

  /** Writing the reference value at `pos` extends the done prefix by one. */
  lemma DoneStep(y: seq<real>, R: seq<real>, dst: seq<real>, pos: nat, v: real)
    requires |y| == |R| == |dst| && pos < |y| && DoneUpTo(y, R, dst, pos) && v == R[pos]
    ensures DoneUpTo(y[pos := v], R, dst, pos + 1)
  {
  }

  /** The loop nest of the convolution variants: rows of `d1 * d2` elements, walked
      as `j < d1`, `k < d2`; element `(i, j, k)` uses `radem[startPosition + k]`. */
  method ConvRowsLoop(src: seq<real>, dst: seq<real>, radem: seq<int>, startRow: nat, endRow: nat,
                      d1: nat, d2: nat, startPosition: nat, norm: real)
    returns (y: seq<real>)
    requires |dst| == |src| && startPosition + d2 <= |radem|
    requires startRow < endRow ==> RowStart(endRow, d1 * d2) <= |src|
    ensures y == ScaledRows(src, dst, ConvFactors(radem, startPosition, d1, d2, norm), startRow, endRow)
  {
    var rs := d1 * d2;
    ghost var R := ScaledRows(src, dst, ConvFactors(radem, startPosition, d1, d2, norm), startRow, endRow);
    y := dst;
    var i := startRow;
    while i < endRow
      invariant startRow <= i && (i <= endRow || i == startRow) && |y| == |src|
      invariant DoneUpTo(y, R, dst, RowStart(i, rs))
    {
      RowStartStep(i, rs);
      MulMono(i + 1, endRow, rs);
      y := ConvRow(y, src, dst, radem, startRow, endRow, d1, d2, startPosition, norm, i, R);
      i := i + 1;
    }
    if startRow >= endRow {
      MulMono(endRow, startRow, rs);
    }
  }

  /** One row `i` of the convolution loop nest. */
  method ConvRow(y0: seq<real>, src: seq<real>, dst: seq<real>, radem: seq<int>, startRow: nat, endRow: nat,
                 d1: nat, d2: nat, startPosition: nat, norm: real, i: nat, ghost R: seq<real>)
    returns (y: seq<real>)
    requires |dst| == |src| == |y0| && startPosition + d2 <= |radem|
    requires startRow <= i < endRow && RowStart(i, d1 * d2) + d1 * d2 <= |src|
    requires R == ScaledRows(src, dst, ConvFactors(radem, startPosition, d1, d2, norm), startRow, endRow)
    requires DoneUpTo(y0, R, dst, RowStart(i, d1 * d2))
    ensures |y| == |src| && DoneUpTo(y, R, dst, RowStart(i, d1 * d2) + d1 * d2)
  {
    var rs := d1 * d2;
    var base := RowStart(i, rs);
    y := y0;
    var j := 0;
    while j < d1
      invariant 0 <= j <= d1 && |y| == |src|
      invariant RowStart(j, d2) <= rs
      invariant DoneUpTo(y, R, dst, base + RowStart(j, d2))
    {
      RowStartStep(j, d2);
      MulMono(j + 1, d1, d2);
      y := ConvSegment(y, src, dst, radem, startRow, endRow, d1, d2, startPosition, norm, i, j, R);
      j := j + 1;
    }
    assert RowStart(d1, d2) == rs;
  }

  /** Segment `j` of row `i`: the innermost `k < d2` loop. */
  method ConvSegment(y0: seq<real>, src: seq<real>, dst: seq<real>, radem: seq<int>, startRow: nat, endRow: nat,
                     d1: nat, d2: nat, startPosition: nat, norm: real, i: nat, j: nat, ghost R: seq<real>)
    returns (y: seq<real>)
    requires |dst| == |src| == |y0| && startPosition + d2 <= |radem|
    requires startRow <= i < endRow && RowStart(i, d1 * d2) + d1 * d2 <= |src| && j < d1
    requires R == ScaledRows(src, dst, ConvFactors(radem, startPosition, d1, d2, norm), startRow, endRow)
    requires DoneUpTo(y0, R, dst, RowStart(i, d1 * d2) + RowStart(j, d2))
    ensures |y| == |src| && DoneUpTo(y, R, dst, RowStart(i, d1 * d2) + RowStart(j, d2) + d2)
  {
    var base := RowStart(i, d1 * d2) + RowStart(j, d2);
    RowStartStep(j, d2);
    MulMono(j + 1, d1, d2);
    assert base + d2 <= |src|;
    y := y0;
    var k := 0;
    while k < d2
      invariant 0 <= k <= d2 && |y| == |src|
      invariant DoneUpTo(y, R, dst, base + k)
    {
      var pos := base + k;
      var v := src[pos] * (radem[startPosition + k] as real * norm);
      ConvElemAt(src, dst, radem, startRow, endRow, d1, d2, startPosition, norm, i, j, k);
      DoneStep(y, R, dst, pos, v);
      y := y[pos := v];
      k := k + 1;
    }
  }

  /** Element `(i, j, k)` of the reference result is the source element times
      `radem[startPosition + k] * norm`. */
  lemma ConvElemAt(src: seq<real>, dst: seq<real>, radem: seq<int>, startRow: nat, endRow: nat,
                   d1: nat, d2: nat, startPosition: nat, norm: real, i: nat, j: nat, k: nat)
    requires |dst| == |src| && startPosition + d2 <= |radem| && j < d1 && k < d2
    requires startRow <= i < endRow && RowStart(i, d1 * d2) + d1 * d2 <= |src|
    ensures RowStart(i, d1 * d2) + RowStart(j, d2) + k < |src|
    ensures ScaledRows(src, dst, ConvFactors(radem, startPosition, d1, d2, norm), startRow, endRow)
              [RowStart(i, d1 * d2) + RowStart(j, d2) + k]
         == src[RowStart(i, d1 * d2) + RowStart(j, d2) + k] * (radem[startPosition + k] as real * norm)
  {
    ConvFactorAt(radem, startPosition, d1, d2, norm, j, k);
    ScaledRowsAt(src, dst, ConvFactors(radem, startPosition, d1, d2, norm), startRow, endRow, i, RowStart(j, d2) + k);
  }

  /** Factor `j * d2 + k` of the convolution pattern is the sign at offset `k` times `norm`. */
  lemma ConvFactorAt(radem: seq<int>, startPosition: nat, d1: nat, d2: nat, norm: real, j: nat, k: nat)
    requires startPosition + d2 <= |radem| && j < d1 && k < d2
    ensures RowStart(j, d2) + k < d1 * d2
    ensures ConvFactors(radem, startPosition, d1, d2, norm)[RowStart(j, d2) + k]
         == radem[startPosition + k] as real * norm
  {
    RowStartStep(j, d2);
    MulMono(j + 1, d1, d2);
    DivModUnique(RowStart(j, d2) + k, d2, j, k);
  }

  /** `conv1dMultiplyByRadem`: element `(i, j, k)` of a row in range is multiplied by
      `radem[startPosition + k] * norm`, the same sign for every `j`, with
      `norm = 1/sqrt(reshapedDim2)`. */
  method Conv1dMultiplyByRadem(x: seq<real>, radem: seq<int>, startRow: nat, endRow: nat,
                               reshapedDim1: nat, reshapedDim2: nat, startPosition: nat, norm: real)
    returns (y: seq<real>)
    requires IsNormFor(norm, reshapedDim2) && startPosition + reshapedDim2 <= |radem|
    requires startRow < endRow ==> RowStart(endRow, reshapedDim1 * reshapedDim2) <= |x|
    ensures y == ScaledRows(x, x, ConvFactors(radem, startPosition, reshapedDim1, reshapedDim2, norm), startRow, endRow)
  {
    y := ConvRowsLoop(x, x, radem, startRow, endRow, reshapedDim1, reshapedDim2, startPosition, norm);
  }

  /** `conv1dRademAndCopy`: the products of `conv1dMultiplyByRadem`, written into
      `copyBuffer`; `x` is an input only. */
  method Conv1dRademAndCopy(x: seq<real>, copyBuffer: seq<real>, radem: seq<int>, startRow: nat, endRow: nat,
                            reshapedDim1: nat, reshapedDim2: nat, startPosition: nat, norm: real)
    returns (buffer: seq<real>)
    requires IsNormFor(norm, reshapedDim2) && startPosition + reshapedDim2 <= |radem| && |copyBuffer| == |x|
    requires startRow < endRow ==> RowStart(endRow, reshapedDim1 * reshapedDim2) <= |x|
    ensures buffer == ScaledRows(x, copyBuffer, ConvFactors(radem, startPosition, reshapedDim1, reshapedDim2, norm),
                                 startRow, endRow)
  {
    buffer := ConvRowsLoop(x, copyBuffer, radem, startRow, endRow, reshapedDim1, reshapedDim2, startPosition, norm);
  }

  /** A copy variant writes into the buffer exactly what its in-place twin leaves in
      `x` on the rows in range, and leaves the rest of the buffer alone. */
  lemma CopyMatchesInPlace(x: seq<real>, copyBuffer: seq<real>, f: seq<real>, startRow: nat, endRow: nat, q: nat)
    requires |copyBuffer| == |x| && q < |x|
    ensures InRows(q, startRow, endRow, |f|)
        ==> ScaledRows(x, copyBuffer, f, startRow, endRow)[q] == ScaledRows(x, x, f, startRow, endRow)[q]
    ensures !InRows(q, startRow, endRow, |f|) ==> ScaledRows(x, copyBuffer, f, startRow, endRow)[q] == copyBuffer[q]
  {
  }

}
