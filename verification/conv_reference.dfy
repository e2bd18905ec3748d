/** The reference semantics of FHT-based convolution that the test helpers compute the
    slow way: the sizes of the initial arrays, the window extraction (im2col) of each
    sample, and the three sign-and-transform rounds of one frequency repeat. */
module ConvReference {
  import opened Arith
  import opened Outcome
  import opened WalshHadamard
  import opened Diagonal

  // ---------------------------------------------------------------------
  // Sizes

  /** The sizes `get_initial_matrices_fht` derives. */
  datatype ConvSizes = ConvSizes(dim2: nat, numBlocks: int, dim2NoPad: nat, rademSize: nat,
                                 featureWidth: nat, sWidth: nat)

  /** Why `get_initial_matrices_fht` raises. */
  datatype SizeError =
    | LogOfZero        // `kw * aaDim == 0`: `ceil(log2(0))` is the ceiling of minus infinity
    | EmptyLengthRange // `rng.integers(kw + 1, numAas + 1)` with `kw >= numAas` and samples to draw

  /** `get_initial_matrices_fht`'s size arithmetic and the two ways it raises, in the order it
      meets them. `dim2` is `2**ceil(log2(kw * aaDim))`. In max-pool mode the feature array and
      the frequency scalings are `rademSize` wide, otherwise the features are `2 * numFreqs`
      and the scalings `numFreqs` wide. The sequence lengths are drawn from
      `[kw + 1, numAas + 1)`, an empty range when `kw >= numAas`; numpy only refuses it when
      there is at least one sample to draw for. */
  function InitialSizes(ndatapoints: nat, kw: nat, aaDim: nat, numAas: nat, numFreqs: nat, maxpool: bool)
    : (r: Result<ConvSizes, SizeError>)
    ensures r.Failure? <==> kw * aaDim == 0 || (ndatapoints >= 1 && kw >= numAas)
    ensures kw * aaDim == 0 ==> r == Failure(LogOfZero)
    ensures kw * aaDim > 0 && ndatapoints >= 1 && kw >= numAas ==> r == Failure(EmptyLengthRange)
    ensures r.Success? ==>
      var z := r.value;
      IsPow2(z.dim2) && kw * aaDim <= z.dim2 && (z.dim2 == 1 || z.dim2 < 2 * (kw * aaDim))
      && z.numBlocks == numAas - kw + 1 && z.dim2NoPad == kw * aaDim
      && z.rademSize % z.dim2 == 0 && numFreqs <= z.rademSize < numFreqs + z.dim2
      && z.featureWidth == (if maxpool then z.rademSize else 2 * numFreqs)
      && z.sWidth == (if maxpool then z.rademSize else numFreqs)
  {
    if kw * aaDim == 0 then Failure(LogOfZero)
    else
      var dim2 := NextPow2(kw * aaDim);
      var rs := RoundUp(numFreqs, dim2);
      if ndatapoints >= 1 && kw >= numAas then Failure(EmptyLengthRange)
      else
        Success(ConvSizes(dim2, numAas - kw + 1, kw * aaDim, rs,
                          if maxpool then rs else 2 * numFreqs, if maxpool then rs else numFreqs))
  }

  /** `dim2` is the least power of two holding a window, and the sign array is the least
      multiple of it holding `numFreqs` frequencies; it splits into `ceil(numFreqs / dim2)`
      repeats of `dim2`. */
  lemma InitialSizesAreLeast(ndatapoints: nat, kw: nat, aaDim: nat, numAas: nat, numFreqs: nat, maxpool: bool,
                             p: nat, m: nat)
    requires InitialSizes(ndatapoints, kw, aaDim, numAas, numFreqs, maxpool).Success?
    requires IsPow2(p) && kw * aaDim <= p
    requires m % InitialSizes(ndatapoints, kw, aaDim, numAas, numFreqs, maxpool).value.dim2 == 0 && numFreqs <= m
    ensures InitialSizes(ndatapoints, kw, aaDim, numAas, numFreqs, maxpool).value.dim2 <= p
    ensures InitialSizes(ndatapoints, kw, aaDim, numAas, numFreqs, maxpool).value.rademSize <= m
    ensures CeilDiv(numFreqs, InitialSizes(ndatapoints, kw, aaDim, numAas, numFreqs, maxpool).value.dim2)
            * InitialSizes(ndatapoints, kw, aaDim, numAas, numFreqs, maxpool).value.dim2
         == InitialSizes(ndatapoints, kw, aaDim, numAas, numFreqs, maxpool).value.rademSize
  {
    var n := kw * aaDim;
    var z := InitialSizes(ndatapoints, kw, aaDim, numAas, numFreqs, maxpool).value;
    assert z.dim2 == NextPow2(n) && z.rademSize == RoundUp(numFreqs, z.dim2);
    NextPow2IsLeast(n, p);
    Pow2Positive(z.dim2);
    if m < z.rademSize {
      MultiplesGap(m, z.rademSize, z.dim2);
    }
    assert z.rademSize == CeilDiv(numFreqs, z.dim2) * z.dim2;
  }

  // ---------------------------------------------------------------------
  // Windows (im2col)

  /** A row-major reshape of equally long rows into one sequence. */
  function Flatten(rows: seq<seq<real>>): (r: seq<real>)
    ensures |r| == Sum(rows)
  {
    if |rows| == 0 then [] else Flatten(rows[..|rows| - 1]) + rows[|rows| - 1]
  }

  /** The total length of some rows. */
  function Sum(rows: seq<seq<real>>): nat
  {
    if |rows| == 0 then 0 else Sum(rows[..|rows| - 1]) + |rows[|rows| - 1]|
  }

  /** Every row has `w` entries. */
  predicate Width(rows: seq<seq<real>>, w: nat)
  {
    forall i :: 0 <= i < |rows| ==> |rows[i]| == w
  }

  /** Entry `c` of row `r` lands at `r * w + c` of the reshape, and the reshape has
      `|rows| * w` entries. */
  lemma {:induction false} FlattenAt(rows: seq<seq<real>>, w: nat, r: nat, c: nat)
    requires Width(rows, w) && r < |rows| && c < w
    ensures Sum(rows) == RowStart(|rows|, w)
    ensures RowStart(r, w) + c < |Flatten(rows)| && Flatten(rows)[RowStart(r, w) + c] == rows[r][c]
    decreases |rows|
  {
    var n := |rows|;
    var init := rows[..n - 1];
    assert Width(init, w);
    FlattenSize(rows, w);
    RowStartStep(n - 1, w);
    if r < n - 1 {
      FlattenAt(init, w, r, c);
    } else {
      FlattenSize(init, w);
    }
  }

  /** Rows of `w` entries reshape to `|rows| * w` entries. */
  lemma {:induction false} FlattenSize(rows: seq<seq<real>>, w: nat)
    requires Width(rows, w)
    ensures Sum(rows) == RowStart(|rows|, w)
    decreases |rows|
  {
    if |rows| > 0 {
      var init := rows[..|rows| - 1];
      assert Width(init, w);
      FlattenSize(init, w);
      RowStartStep(|rows| - 1, w);
    }
  }

  /** Window `i` of one sample: rows `i .. i + kw - 1` reshaped row-major, then zeros up to `dim2`. */
  function WindowRow(xs: seq<seq<real>>, aaDim: nat, i: nat, kw: nat, dim2: nat): (r: seq<real>)
    requires Width(xs, aaDim) && i + kw <= |xs| && RowStart(kw, aaDim) <= dim2
    ensures |r| == dim2
  {
    assert Width(xs[i..i + kw], aaDim);
    FlattenSize(xs[i..i + kw], aaDim);
    Flatten(xs[i..i + kw]) + seq(dim2 - RowStart(kw, aaDim), _ => 0.0)
  }

  /** Position `p` inside the first `k` rows of width `d` is entry `p % d` of row `p / d`. */
  lemma RowCol(p: nat, k: nat, d: nat)
    requires p < RowStart(k, d)
    ensures d > 0 && p / d < k && RowStart(p / d, d) + p % d == p
  {
    if d > 0 {
      var r := p / d;
      if r >= k {
        MulMono(k, r, d);
      }
    }
  }

  /** Entry `p` of window `i` is feature `p % aaDim` of row `i + p / aaDim` within the first
      `kw * aaDim` entries, and zero after them. */
  lemma WindowAt(xs: seq<seq<real>>, aaDim: nat, i: nat, kw: nat, dim2: nat, p: nat)
    requires Width(xs, aaDim) && i + kw <= |xs| && RowStart(kw, aaDim) <= dim2 && p < dim2
    ensures p < RowStart(kw, aaDim) ==> aaDim > 0 && i + p / aaDim < |xs|
    ensures WindowRow(xs, aaDim, i, kw, dim2)[p]
         == if p < RowStart(kw, aaDim) then xs[i + p / aaDim][p % aaDim] else 0.0
  {
    var rows := xs[i..i + kw];
    assert Width(rows, aaDim);
    FlattenSize(rows, aaDim);
    if p < RowStart(kw, aaDim) {
      RowCol(p, kw, aaDim);
      FlattenAt(rows, aaDim, p / aaDim, p % aaDim);
    }
  }

  /** The windows of every sample: `(N, numBlocks, dim2)`, where window `i` of a sample with
      `numAas` rows exists for `i <= numAas - kw`. */
  function Windows(x: seq<seq<seq<real>>>, aaDim: nat, numAas: nat, kw: nat, dim2: nat): (r: seq<seq<seq<real>>>)
    requires forall s :: 0 <= s < |x| ==> |x[s]| == numAas && Width(x[s], aaDim)
    requires kw <= numAas && RowStart(kw, aaDim) <= dim2
    ensures |r| == |x|
    ensures forall s :: 0 <= s < |x| ==> |r[s]| == numAas - kw + 1
    ensures forall s, i :: 0 <= s < |x| && 0 <= i < numAas - kw + 1 ==> r[s][i] == WindowRow(x[s], aaDim, i, kw, dim2)
  {
    seq(|x|, s requires 0 <= s < |x| =>
      seq(numAas - kw + 1, i requires 0 <= i < numAas - kw + 1 => WindowRow(x[s], aaDim, i, kw, dim2)))
  }

  // ---------------------------------------------------------------------
  // The three sign-and-transform rounds of one repeat

  /** Entries of `v` times the signs and the normalisation constant. */
  function SignScale(v: seq<real>, signs: seq<int>, norm: real): (r: seq<real>)
    requires |signs| == |v|
    ensures |r| == |v|
  {
    seq(|v|, p requires 0 <= p < |v| => v[p] * (signs[p] as real * norm))
  }

  /** One round: scale by the signs and `norm`, then the unnormalised transform. */
  function Round(v: seq<real>, signs: seq<int>, norm: real): (r: seq<real>)
    requires |signs| == |v|
    ensures |r| == |v|
  {
    Sylvester(SignScale(v, signs, norm))
  }

  /** The signs of diagonal `d` that repeat `r` uses: `radem[d, 0, r * dim2 : (r + 1) * dim2]`. */
  function RepeatSigns(radem: seq<seq<seq<int>>>, d: nat, r: nat, dim2: nat): (s: seq<int>)
    requires d < |radem| && |radem[d]| >= 1 && (r + 1) * dim2 <= |radem[d][0]|
    ensures |s| == dim2
    ensures forall p :: 0 <= p < dim2 ==> s[p] == radem[d][0][r * dim2 + p]
  {
    radem[d][0][r * dim2..(r + 1) * dim2]
  }

  /** The sign array has three diagonals, each one row of at least `len` signs. */
  predicate RademShape(radem: seq<seq<seq<int>>>, len: nat)
  {
    |radem| == 3 && forall d :: 0 <= d < 3 ==> |radem[d]| >= 1 && |radem[d][0]| >= len
  }

  /** Window row `v` after the rounds of repeat `r`, with diagonals 0, 1 and 2 in that order. */
  function SorfRow(v: seq<real>, radem: seq<seq<seq<int>>>, r: nat, dim2: nat, norm: real): (y: seq<real>)
    requires |v| == dim2 && RademShape(radem, (r + 1) * dim2)
    ensures |y| == dim2
  {
    Round(Round(Round(v, RepeatSigns(radem, 0, r, dim2), norm),
                RepeatSigns(radem, 1, r, dim2), norm),
          RepeatSigns(radem, 2, r, dim2), norm)
  }

  /** `get_reshaped_x` up to the simplex projection: every window of every sample after the
      rounds of repeat `r`. */
  function ReshapedX(x: seq<seq<seq<real>>>, aaDim: nat, numAas: nat, kw: nat, dim2: nat,
                     radem: seq<seq<seq<int>>>, r: nat, norm: real): (z: seq<seq<seq<real>>>)
    requires forall s :: 0 <= s < |x| ==> |x[s]| == numAas && Width(x[s], aaDim)
    requires kw <= numAas && RowStart(kw, aaDim) <= dim2 && RademShape(radem, (r + 1) * dim2)
    ensures |z| == |x|
    ensures forall s :: 0 <= s < |x| ==> |z[s]| == numAas - kw + 1
    ensures forall s, i :: 0 <= s < |x| && 0 <= i < numAas - kw + 1 ==>
      z[s][i] == SorfRow(WindowRow(x[s], aaDim, i, kw, dim2), radem, r, dim2, norm)
  {
    var w := Windows(x, aaDim, numAas, kw, dim2);
    seq(|x|, s requires 0 <= s < |x| =>
      seq(numAas - kw + 1, i requires 0 <= i < numAas - kw + 1 => SorfRow(w[s][i], radem, r, dim2, norm)))
  }

  /** Undoing one round: the transform again, then the same signs and `norm`. */
  function UndoRound(y: seq<real>, signs: seq<int>, norm: real): (v: seq<real>)
    requires |signs| == |y|
    ensures |v| == |y|
  {
    SignScale(Sylvester(y), signs, norm)
  }

  /** Multiplying equals by the same factor. */
  lemma MulBoth(a: real, b: real, w: real)
    requires a == b
    ensures w * a == w * b
  {
  }

  /** Reassociating the product that undoing a round forms. */
  lemma Reorder(c: real, w: real, f: real)
    ensures (c * (w * f)) * f == w * (f * f * c)
  {
  }

  /** Entry `p` of a round undone: an entry `w` scaled by its factor `f = ±norm`, then by
      `C`, then by `f` again, is `w` once more when `norm * norm * C == 1`. */
  lemma UndoEntry(w: real, f: real, norm: real, c: real, u: real, y: real)
    requires f == norm || f == -norm
    requires norm * norm * c == 1.0
    requires u == w * f && y == c * u
    ensures y * f == w
  {
    assert f * f == norm * norm;
    MulBoth(f * f, norm * norm, c);
    Reorder(c, w, f);
    MulBoth(f * f * c, 1.0, w);
  }

  /** Entry `p` of the signs and `norm` applied to `C` times a round's scaled input. */
  lemma UndoRoundAt(v: seq<real>, signs: seq<int>, norm: real, y: seq<real>, p: nat)
    requires |signs| == |v| && IsSigns(signs) && IsNormFor(norm, |v|) && p < |v|
    requires y == Scale(|v| as real, SignScale(v, signs, norm))
    ensures SignScale(y, signs, norm)[p] == v[p]
  {
    var f := signs[p] as real * norm;
    assert f == norm || f == -norm;
    UndoEntry(v[p], f, norm, |v| as real, SignScale(v, signs, norm)[p], y[p]);
  }

  /** With signs of `+1` and `-1` and `norm * norm * C == 1`, undoing a round recovers its
      input: each round is orthogonal. */
  lemma UndoRoundInverts(v: seq<real>, signs: seq<int>, norm: real)
    requires |signs| == |v| && IsPow2(|v|) && IsSigns(signs) && IsNormFor(norm, |v|)
    ensures UndoRound(Round(v, signs, norm), signs, norm) == v
  {
    var u := SignScale(v, signs, norm);
    SylvesterInvolution(u);
    var y := Sylvester(Sylvester(u));
    forall p | 0 <= p < |v|
      ensures SignScale(y, signs, norm)[p] == v[p]
    {
      UndoRoundAt(v, signs, norm, y, p);
    }
  }

  /** The three rounds of a repeat are undone by undoing rounds 2, 1 and 0 in that order;
      in particular no two window rows give the same transformed row. */
  lemma SorfRowInverts(v: seq<real>, radem: seq<seq<seq<int>>>, r: nat, dim2: nat, norm: real)
    requires |v| == dim2 && IsPow2(dim2) && RademShape(radem, (r + 1) * dim2) && IsNormFor(norm, dim2)
    requires forall d :: 0 <= d < 3 ==> IsSigns(RepeatSigns(radem, d, r, dim2))
    ensures UndoRound(UndoRound(UndoRound(SorfRow(v, radem, r, dim2, norm),
                                          RepeatSigns(radem, 2, r, dim2), norm),
                                RepeatSigns(radem, 1, r, dim2), norm),
                      RepeatSigns(radem, 0, r, dim2), norm) == v
  {
    var s0, s1, s2 := RepeatSigns(radem, 0, r, dim2), RepeatSigns(radem, 1, r, dim2), RepeatSigns(radem, 2, r, dim2);
    var a := Round(v, s0, norm);
    var b := Round(a, s1, norm);
    UndoRoundInverts(b, s2, norm);
    UndoRoundInverts(a, s1, norm);
    UndoRoundInverts(v, s0, norm);
  }
}
