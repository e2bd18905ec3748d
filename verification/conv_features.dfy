/** The reference feature generators of the convolution tests: per frequency, a cosine and a
    sine summed over the valid windows of each sample (with an optional gradient), and the
    max-pool variant. The frequencies are visited in blocks of `dim2`, one block per
    repeat; `Z[i]` holds the transformed windows of repeat `i`, shaped
    `(samples, windows, dim2)`. */
module ConvFeatures {
  import opened Arith
  import opened Outcome

  // ---------------------------------------------------------------------
  // Shapes and slices

  /** Python's rule for the slice `a[:stop]` of a sequence of `len` items: index `i` is kept
      when it lies before `stop`, where a negative `stop` counts from the end. */
  predicate SliceKeeps(stop: int, len: nat, i: nat)
  {
    if stop >= 0 then i < stop else i < len + stop
  }

  /** The length of the Python slice `a[:stop]`: the slice is the prefix of exactly the
      indices that `SliceKeeps` keeps. */
  function PySliceLen(stop: int, len: nat): (n: nat)
    ensures n <= len
    ensures forall i: nat :: i < len ==> (i < n <==> SliceKeeps(stop, len, i))
  {
    if stop >= 0 then (if stop < len then stop else len)
    else if len + stop > 0 then len + stop else 0
  }

  /** The number of leading windows of a sample whose sequence length is `seqLen`:
      `cutpoint = seqLen - kw + 1`, taken as the slice `[:cutpoint]` over `numBlocks` windows. */
  function ValidWindows(seqLen: int, kw: nat, numBlocks: nat): (n: nat)
    ensures n <= numBlocks
    ensures 0 <= seqLen - kw + 1 <= numBlocks ==> n == seqLen - kw + 1
  {
    PySliceLen(seqLen - kw + 1, numBlocks)
  }

  /** `reps` repeats of `n` samples, each with `numBlocks` windows of `dim2` values. */
  predicate Reshaped(Z: seq<seq<seq<seq<real>>>>, reps: nat, n: nat, numBlocks: nat, dim2: nat)
  {
    |Z| == reps
    && forall i :: 0 <= i < reps ==>
         |Z[i]| == n
         && forall k :: 0 <= k < n ==>
              |Z[i][k]| == numBlocks
              && forall w :: 0 <= w < numBlocks ==> |Z[i][k][w]| == dim2
  }

  /** `n` rows of `width` values. */
  predicate Grid(F: seq<seq<real>>, n: nat, width: nat)
  {
    |F| == n && forall k :: 0 <= k < n ==> |F[k]| == width
  }

  /** `n` rows of `width` zeros. */
  function Zeros(n: nat, width: nat): (F: seq<seq<real>>)
    ensures Grid(F, n, width)
    ensures forall k, q :: 0 <= k < n && 0 <= q < width ==> F[k][q] == 0.0
  {
    seq(n, _ => seq(width, _ => 0.0))
  }

  /** Frequency `c` lies in repeat `c / dim2` at offset `c % dim2`, and that repeat exists. */
  lemma RepeatOf(c: nat, nf: nat, dim2: nat)
    requires dim2 > 0 && c < nf
    ensures c / dim2 < CeilDiv(nf, dim2) && RowStart(c / dim2, dim2) + c % dim2 == c
  {
    var r := CeilDiv(nf, dim2);
    if c / dim2 >= r {
      MulMono(r, c / dim2, dim2);
    }
  }

  /** Every repeat before the last starts below `nf`. */
  lemma RepeatStarts(i: nat, nf: nat, dim2: nat)
    requires dim2 > 0 && i < CeilDiv(nf, dim2)
    ensures RowStart(i, dim2) < nf
  {
    MulMono(i, CeilDiv(nf, dim2) - 1, dim2);
  }

  // ---------------------------------------------------------------------
  // The blocked column loop shared by the feature generators

  /** Row `row` holds `v` in the cosine and sine columns `2c` and `2c + 1` of frequency `c`. */
  predicate Entry(row: seq<real>, c: nat, v: (real, real))
  {
    2 * c + 1 < |row| && row[2 * c] == v.0 && row[2 * c + 1] == v.1
  }

  /** The pair that frequency `c` of sample `k` receives: the cell at repeat `c / dim2`,
      offset `c % dim2`. */
  function CellAt(cell: (nat, nat, nat) -> (real, real), dim2: nat, c: nat, k: nat): (real, real)
    requires dim2 > 0
  {
    cell(c / dim2, c % dim2, k)
  }

  /** What frequency `c` of sample `k` holds once the frequencies below `done`, and frequency
      `done` of the samples below `rowsDone`, are written. */
  function Expected(cell: (nat, nat, nat) -> (real, real), dim2: nat, done: nat, rowsDone: nat, c: nat, k: nat)
    : (real, real)
    requires dim2 > 0
  {
    if c < done || (c == done && k < rowsDone) then CellAt(cell, dim2, c, k) else (0.0, 0.0)
  }

  /** Frequencies below `done` are written for every sample, frequency `done` for the samples
      below `rowsDone`, and everything else is still zero. */
  ghost predicate ColumnsDone(F: seq<seq<real>>, n: nat, nf: nat, dim2: nat,
                              cell: (nat, nat, nat) -> (real, real), done: nat, rowsDone: nat)
    requires dim2 > 0
  {
    Grid(F, n, 2 * nf)
    && forall k, c :: 0 <= k < n && 0 <= c < nf ==> Entry(F[k], c, Expected(cell, dim2, done, rowsDone, c, k))
  }

  /** Writing frequency `c` of sample `k` advances the loop state by one sample. */
  lemma WriteStep(G: seq<seq<real>>, n: nat, nf: nat, dim2: nat, cell: (nat, nat, nat) -> (real, real),
                  c: nat, k: nat, v: (real, real))
    requires dim2 > 0 && c < nf && k < n && v == CellAt(cell, dim2, c, k)
    requires ColumnsDone(G, n, nf, dim2, cell, c, k)
    ensures ColumnsDone(G[k := G[k][2 * c := v.0][2 * c + 1 := v.1]], n, nf, dim2, cell, c, k + 1)
  {
    var H := G[k := G[k][2 * c := v.0][2 * c + 1 := v.1]];
    var k1 := k + 1;
    forall r, d | 0 <= r < n && 0 <= d < nf
      ensures Entry(H[r], d, Expected(cell, dim2, c, k1, d, r))
    {
      assert Entry(G[r], d, Expected(cell, dim2, c, k, d, r));
    }
  }

  /** Once every sample holds frequency `c`, the frequencies below `c + 1` are done. */
  lemma FrequencyDone(G: seq<seq<real>>, n: nat, nf: nat, dim2: nat, cell: (nat, nat, nat) -> (real, real), c: nat)
    requires dim2 > 0 && ColumnsDone(G, n, nf, dim2, cell, c, n)
    ensures ColumnsDone(G, n, nf, dim2, cell, c + 1, 0)
  {
    var c1 := c + 1;
    forall r, d | 0 <= r < n && 0 <= d < nf
      ensures Entry(G[r], d, Expected(cell, dim2, c1, 0, d, r))
    {
      assert Entry(G[r], d, Expected(cell, dim2, c, n, d, r));
    }
  }

  /** Nothing is written in a zero grid. */
  lemma NoneDone(n: nat, nf: nat, dim2: nat, cell: (nat, nat, nat) -> (real, real))
    requires dim2 > 0
    ensures ColumnsDone(Zeros(n, 2 * nf), n, nf, dim2, cell, 0, 0)
  {
    var F := Zeros(n, 2 * nf);
    forall r, d | 0 <= r < n && 0 <= d < nf
      ensures Entry(F[r], d, Expected(cell, dim2, 0, 0, d, r))
    {
      assert F[r][2 * d] == 0.0 && F[r][2 * d + 1] == 0.0;
    }
  }

  /** The innermost loop: frequency `c = i * dim2 + j` of every sample. */
  method WriteFrequency(F: seq<seq<real>>, n: nat, nf: nat, dim2: nat, cell: (nat, nat, nat) -> (real, real),
                        i: nat, j: nat, c: nat)
    returns (G: seq<seq<real>>)
    requires dim2 > 0 && j < dim2 && c == RowStart(i, dim2) + j && c < nf
    requires ColumnsDone(F, n, nf, dim2, cell, c, 0)
    ensures ColumnsDone(G, n, nf, dim2, cell, c + 1, 0)
  {
    DivBlock(c, i, dim2);
    G := F;
    var k := 0;
    while k < n
      invariant k <= n && ColumnsDone(G, n, nf, dim2, cell, c, k)
    {
      var v := cell(i, j, k);
      WriteStep(G, n, nf, dim2, cell, c, k, v);
      G := G[k := G[k][2 * c := v.0][2 * c + 1 := v.1]];
      k := k + 1;
    }
    FrequencyDone(G, n, nf, dim2, cell, c);
  }

  /** The middle loop: the frequencies of repeat `i`, `i * dim2` up to the smaller of
      `(i + 1) * dim2` and `nf`. */
  method WriteRepeat(F: seq<seq<real>>, n: nat, nf: nat, dim2: nat, cell: (nat, nat, nat) -> (real, real), i: nat)
    returns (G: seq<seq<real>>, next: nat)
    requires dim2 > 0 && RowStart(i, dim2) < nf
    requires ColumnsDone(F, n, nf, dim2, cell, RowStart(i, dim2), 0)
    ensures next == if RowStart(i + 1, dim2) < nf then RowStart(i + 1, dim2) else nf
    ensures ColumnsDone(G, n, nf, dim2, cell, next, 0)
  {
    RowStartStep(i, dim2);
    var endPosition := (if RowStart(i + 1, dim2) < nf then RowStart(i + 1, dim2) else nf) - RowStart(i, dim2);
    var counter := RowStart(i, dim2);
    G := F;
    var j := 0;
    while j < endPosition
      invariant j <= endPosition && counter == RowStart(i, dim2) + j
      invariant ColumnsDone(G, n, nf, dim2, cell, counter, 0)
    {
      G := WriteFrequency(G, n, nf, dim2, cell, i, j, counter);
      counter := counter + 1;
      j := j + 1;
    }
    next := counter;
  }

  /** The loops of the feature generators: repeat `i` writes frequencies `i * dim2 + j` for
      every offset `j` in the block, and every sample. Every frequency `c` ends up holding
      the cell of repeat `c / dim2` at offset `c % dim2`. */
  method BlockedColumns(n: nat, nf: nat, dim2: nat, cell: (nat, nat, nat) -> (real, real))
    returns (F: seq<seq<real>>)
    requires dim2 > 0
    ensures Grid(F, n, 2 * nf)
    ensures forall k, c :: 0 <= k < n && 0 <= c < nf ==>
      F[k][2 * c] == CellAt(cell, dim2, c, k).0 && F[k][2 * c + 1] == CellAt(cell, dim2, c, k).1
  {
    var numRepeats := CeilDiv(nf, dim2);
    F := Zeros(n, 2 * nf);
    NoneDone(n, nf, dim2, cell);
    var i, done := 0, 0;
    while i < numRepeats
      invariant i <= numRepeats && done == if RowStart(i, dim2) < nf then RowStart(i, dim2) else nf
      invariant ColumnsDone(F, n, nf, dim2, cell, done, 0)
    {
      RepeatStarts(i, nf, dim2);
      F, done := WriteRepeat(F, n, nf, dim2, cell, i);
      i := i + 1;
    }
    assert done == nf;
    forall k, c | 0 <= k < n && 0 <= c < nf
      ensures F[k][2 * c] == CellAt(cell, dim2, c, k).0 && F[k][2 * c + 1] == CellAt(cell, dim2, c, k).1
    {
      assert Entry(F[k], c, Expected(cell, dim2, nf, 0, c, k));
    }
  }

  /** Every entry times `f`: `features *= np.sqrt(1 / num_freqs)`. */
  function ScaleAll(F: seq<seq<real>>, f: real): (G: seq<seq<real>>)
    ensures |G| == |F|
    ensures forall k :: 0 <= k < |F| ==> |G[k]| == |F[k]| && forall q :: 0 <= q < |F[k]| ==> G[k][q] == F[k][q] * f
  {
    seq(|F|, k requires 0 <= k < |F| => seq(|F[k]|, q requires 0 <= q < |F[k]| => F[k][q] * f))
  }

  // ---------------------------------------------------------------------
  // Window sums

  /** Entry `j` of every window of `zk` has an offset `j`. */
  predicate HasOffset(zk: seq<seq<real>>, j: nat, n: nat)
  {
    n <= |zk| && forall w :: 0 <= w < n ==> j < |zk[w]|
  }

  /** `sum over w < n of trig(zk[w][j] * s * sigma)`. */
  function TrigSum(trig: real -> real, zk: seq<seq<real>>, j: nat, s: real, sigma: real, n: nat): real
    requires HasOffset(zk, j, n)
  {
    if n == 0 then 0.0 else TrigSum(trig, zk, j, s, sigma, n - 1) + trig(zk[n - 1][j] * s * sigma)
  }

  /** `sum over w < n of trig(z * sigma) * z` with `z = zk[w][j] * s`: a gradient entry. */
  function WeightedSum(trig: real -> real, zk: seq<seq<real>>, j: nat, s: real, sigma: real, n: nat): real
    requires HasOffset(zk, j, n)
  {
    if n == 0 then 0.0
    else WeightedSum(trig, zk, j, s, sigma, n - 1) + trig(zk[n - 1][j] * s * sigma) * (zk[n - 1][j] * s)
  }

  /** The cosine and the sine sums of one frequency over the first `n` windows. */
  function WindowSums(cos: real -> real, sin: real -> real, zk: seq<seq<real>>, j: nat, s: real, sigma: real, n: nat)
    : (real, real)
    requires HasOffset(zk, j, n)
  {
    (TrigSum(cos, zk, j, s, sigma, n), TrigSum(sin, zk, j, s, sigma, n))
  }

  /** Both entries of a pair times `f`. */
  function ScalePair(p: (real, real), f: real): (real, real)
  {
    (p.0 * f, p.1 * f)
  }

  // ---------------------------------------------------------------------
  // get_features

  /** How `get_features` divides each sample's sums: not at all, by the square root of the
      cutpoint, or by the cutpoint. */
  datatype Normalization = NoNorm | SqrtNorm | FullNorm

  /** The divisor of `normalization` is nonzero for this cutpoint. */
  predicate ScalingDefined(normalization: Normalization, cutpoint: int, sqrt: real -> real)
  {
    match normalization
    case NoNorm => true
    case SqrtNorm => sqrt(cutpoint as real) != 0.0
    case FullNorm => cutpoint != 0
  }

  /** The factor `get_features` applies to each sample's sums. */
  function ScalingFactor(normalization: Normalization, cutpoint: int, sqrt: real -> real): (f: real)
    requires ScalingDefined(normalization, cutpoint, sqrt)
  {
    match normalization
    case NoNorm => 1.0
    case SqrtNorm => 1.0 / sqrt(cutpoint as real)
    case FullNorm => 1.0 / (cutpoint as real)
  }

  /** What `normalization` divides each sample's sums by: nothing, the square root of the
      cutpoint, or the cutpoint. */
  function Divisor(normalization: Normalization, cutpoint: int, sqrt: real -> real): real
  {
    match normalization
    case NoNorm => 1.0
    case SqrtNorm => sqrt(cutpoint as real)
    case FullNorm => cutpoint as real
  }

  /** A pair scaled by the factor of `normalization`, then multiplied by its divisor, is
      the pair again. */
  lemma UnscalePair(normalization: Normalization, cutpoint: int, sqrt: real -> real,
                    p: (real, real), u: (real, real), w: (real, real))
    requires ScalingDefined(normalization, cutpoint, sqrt)
    requires p == ScalePair(w, ScalingFactor(normalization, cutpoint, sqrt)) && u == w
    ensures p.0 * Divisor(normalization, cutpoint, sqrt) == u.0 && p.1 * Divisor(normalization, cutpoint, sqrt) == u.1
  {
    var f, d := ScalingFactor(normalization, cutpoint, sqrt), Divisor(normalization, cutpoint, sqrt);
    assert f * d == 1.0;
    assert p.0 * d == w.0 * (f * d);
    assert p.1 * d == w.1 * (f * d);
  }

  /** What the arguments of the feature generators must satisfy: a block width, one repeat of
      windows per block, and a sequence length and frequency scaling for every sample and
      frequency. */
  predicate FeatureArgs(Z: seq<seq<seq<seq<real>>>>, dim2: nat, sMat: seq<real>, nf: nat, numBlocks: nat,
                        seqLens: seq<int>)
  {
    dim2 > 0 && |sMat| >= nf && Reshaped(Z, CeilDiv(nf, dim2), |seqLens|, numBlocks, dim2)
  }

  /** Sample `k` of repeat `i` has offset `j` in its valid windows. */
  lemma WindowsOf(Z: seq<seq<seq<seq<real>>>>, dim2: nat, sMat: seq<real>, nf: nat, numBlocks: nat,
                  seqLens: seq<int>, kw: nat, i: nat, j: nat, k: nat)
    requires FeatureArgs(Z, dim2, sMat, nf, numBlocks, seqLens)
    requires i < |Z| && j < dim2 && k < |seqLens|
    ensures HasOffset(Z[i][k], j, ValidWindows(seqLens[k], kw, numBlocks))
  {
  }


  /** Frequency `c` of sample `k` as `get_features` defines it, before the final scaling:
      the cosine and the sine of `z * s[c] * sigma` summed over the valid windows `z` of
      the block offset of `c`, times the sample's normalisation factor. */
  function FeaturePair(Z: seq<seq<seq<seq<real>>>>, kw: nat, dim2: nat, sMat: seq<real>, nf: nat, numBlocks: nat,
                       sigma: real, seqLens: seq<int>, normalization: Normalization,
                       cos: real -> real, sin: real -> real, sqrt: real -> real, c: nat, k: nat): (real, real)
    requires FeatureArgs(Z, dim2, sMat, nf, numBlocks, seqLens) && c < nf && k < |seqLens|
    requires ScalingDefined(normalization, seqLens[k] - kw + 1, sqrt)
  {
    RepeatOf(c, nf, dim2);
    var i, j := c / dim2, c % dim2;
    var n := ValidWindows(seqLens[k], kw, numBlocks);
    WindowsOf(Z, dim2, sMat, nf, numBlocks, seqLens, kw, i, j, k);
    ScalePair(WindowSums(cos, sin, Z[i][k], j, sMat[c], sigma, n),
              ScalingFactor(normalization, seqLens[k] - kw + 1, sqrt))
  }

  /** Normalisation divides: a normalised feature pair times the divisor of its
      normalisation (the square root of the cutpoint, or the cutpoint) is the pair without
      normalisation. */
  lemma NormalisationDivides(Z: seq<seq<seq<seq<real>>>>, kw: nat, dim2: nat, sMat: seq<real>, nf: nat,
                             numBlocks: nat, sigma: real, seqLens: seq<int>, normalization: Normalization,
                             cos: real -> real, sin: real -> real, sqrt: real -> real, c: nat, k: nat)
    requires FeatureArgs(Z, dim2, sMat, nf, numBlocks, seqLens) && c < nf && k < |seqLens|
    requires ScalingDefined(normalization, seqLens[k] - kw + 1, sqrt)
    ensures var p := FeaturePair(Z, kw, dim2, sMat, nf, numBlocks, sigma, seqLens, normalization, cos, sin, sqrt, c, k);
      var u := FeaturePair(Z, kw, dim2, sMat, nf, numBlocks, sigma, seqLens, NoNorm, cos, sin, sqrt, c, k);
      var d := Divisor(normalization, seqLens[k] - kw + 1, sqrt);
      p.0 * d == u.0 && p.1 * d == u.1
  {
    RepeatOf(c, nf, dim2);
    var i, j := c / dim2, c % dim2;
    var n := ValidWindows(seqLens[k], kw, numBlocks);
    WindowsOf(Z, dim2, sMat, nf, numBlocks, seqLens, kw, i, j, k);
    var w := WindowSums(cos, sin, Z[i][k], j, sMat[c], sigma, n);
    UnscalePair(normalization, seqLens[k] - kw + 1, sqrt,
                FeaturePair(Z, kw, dim2, sMat, nf, numBlocks, sigma, seqLens, normalization, cos, sin, sqrt, c, k),
                FeaturePair(Z, kw, dim2, sMat, nf, numBlocks, sigma, seqLens, NoNorm, cos, sin, sqrt, c, k), w);
  }

  /** Offset `j` of repeat `i` for sample `k` as the loop of `get_features` computes it:
      the window values at offset `j` times the scaling `s[counter]` of `counter = i * dim2 + j`
      and `sigma`, through the cosine and the sine, summed over the valid windows and divided
      as `normalization` says. */
  function FeatureCell(Z: seq<seq<seq<seq<real>>>>, kw: nat, dim2: nat, sMat: seq<real>, nf: nat, numBlocks: nat,
                       sigma: real, seqLens: seq<int>, normalization: Normalization,
                       cos: real -> real, sin: real -> real, sqrt: real -> real, i: nat, j: nat, k: nat): (real, real)
    requires FeatureArgs(Z, dim2, sMat, nf, numBlocks, seqLens)
    requires i < |Z| && j < dim2 && RowStart(i, dim2) + j < nf && k < |seqLens|
    requires ScalingDefined(normalization, seqLens[k] - kw + 1, sqrt)
  {
    var n := ValidWindows(seqLens[k], kw, numBlocks);
    WindowsOf(Z, dim2, sMat, nf, numBlocks, seqLens, kw, i, j, k);
    var counter := RowStart(i, dim2) + j;
    ScalePair(WindowSums(cos, sin, Z[i][k], j, sMat[counter], sigma, n),
              ScalingFactor(normalization, seqLens[k] - kw + 1, sqrt))
  }

  /** The closed form of frequency `c` is what the loop computes at repeat `c / dim2`,
      offset `c % dim2`. */
  lemma PairIsCell(Z: seq<seq<seq<seq<real>>>>, kw: nat, dim2: nat, sMat: seq<real>, nf: nat, numBlocks: nat,
                   sigma: real, seqLens: seq<int>, normalization: Normalization,
                   cos: real -> real, sin: real -> real, sqrt: real -> real, c: nat, k: nat)
    requires FeatureArgs(Z, dim2, sMat, nf, numBlocks, seqLens) && c < nf && k < |seqLens|
    requires ScalingDefined(normalization, seqLens[k] - kw + 1, sqrt)
    ensures c / dim2 < |Z| && RowStart(c / dim2, dim2) + c % dim2 == c
    ensures FeaturePair(Z, kw, dim2, sMat, nf, numBlocks, sigma, seqLens, normalization, cos, sin, sqrt, c, k)
         == FeatureCell(Z, kw, dim2, sMat, nf, numBlocks, sigma, seqLens, normalization, cos, sin, sqrt,
                        c / dim2, c % dim2, k)
  {
    RepeatOf(c, nf, dim2);
    var i, j := c / dim2, c % dim2;
    WindowsOf(Z, dim2, sMat, nf, numBlocks, seqLens, kw, i, j, k);
    assert sMat[RowStart(i, dim2) + j] == sMat[c];
  }

  /** The cells the loop writes are the closed form of every frequency. */
  lemma FeatureColumns(Z: seq<seq<seq<seq<real>>>>, kw: nat, dim2: nat, sMat: seq<real>, nf: nat, numBlocks: nat,
                       sigma: real, seqLens: seq<int>, normalization: Normalization,
                       cos: real -> real, sin: real -> real, sqrt: real -> real,
                       cell: (nat, nat, nat) -> (real, real), F: seq<seq<real>>)
    requires FeatureArgs(Z, dim2, sMat, nf, numBlocks, seqLens)
    requires forall k :: 0 <= k < |seqLens| ==> ScalingDefined(normalization, seqLens[k] - kw + 1, sqrt)
    requires forall i: nat, j: nat, k: nat :: i < |Z| && j < dim2 && RowStart(i, dim2) + j < nf && k < |seqLens| ==>
      cell(i, j, k) == FeatureCell(Z, kw, dim2, sMat, nf, numBlocks, sigma, seqLens, normalization, cos, sin, sqrt, i, j, k)
    requires Grid(F, |seqLens|, 2 * nf)
    requires forall k, c :: 0 <= k < |seqLens| && 0 <= c < nf ==>
      F[k][2 * c] == CellAt(cell, dim2, c, k).0 && F[k][2 * c + 1] == CellAt(cell, dim2, c, k).1
    ensures forall k, c :: 0 <= k < |seqLens| && 0 <= c < nf ==>
      F[k][2 * c] == FeaturePair(Z, kw, dim2, sMat, nf, numBlocks, sigma, seqLens, normalization, cos, sin, sqrt, c, k).0
      && F[k][2 * c + 1]
         == FeaturePair(Z, kw, dim2, sMat, nf, numBlocks, sigma, seqLens, normalization, cos, sin, sqrt, c, k).1
  {
    forall k, c | 0 <= k < |seqLens| && 0 <= c < nf
      ensures F[k][2 * c]
        == FeaturePair(Z, kw, dim2, sMat, nf, numBlocks, sigma, seqLens, normalization, cos, sin, sqrt, c, k).0
      ensures F[k][2 * c + 1]
        == FeaturePair(Z, kw, dim2, sMat, nf, numBlocks, sigma, seqLens, normalization, cos, sin, sqrt, c, k).1
    {
      CellIsPair(Z, kw, dim2, sMat, nf, numBlocks, sigma, seqLens, normalization, cos, sin, sqrt, cell, c, k);
    }
  }

  /** A loop cell that agrees with the loop's definition holds the closed form of its frequency. */
  lemma CellIsPair(Z: seq<seq<seq<seq<real>>>>, kw: nat, dim2: nat, sMat: seq<real>, nf: nat, numBlocks: nat,
                   sigma: real, seqLens: seq<int>, normalization: Normalization,
                   cos: real -> real, sin: real -> real, sqrt: real -> real,
                   cell: (nat, nat, nat) -> (real, real), c: nat, k: nat)
    requires FeatureArgs(Z, dim2, sMat, nf, numBlocks, seqLens) && c < nf && k < |seqLens|
    requires forall k :: 0 <= k < |seqLens| ==> ScalingDefined(normalization, seqLens[k] - kw + 1, sqrt)
    requires forall i: nat, j: nat, k: nat :: i < |Z| && j < dim2 && RowStart(i, dim2) + j < nf && k < |seqLens| ==>
      cell(i, j, k) == FeatureCell(Z, kw, dim2, sMat, nf, numBlocks, sigma, seqLens, normalization, cos, sin, sqrt, i, j, k)
    ensures CellAt(cell, dim2, c, k)
         == FeaturePair(Z, kw, dim2, sMat, nf, numBlocks, sigma, seqLens, normalization, cos, sin, sqrt, c, k)
  {
    PairIsCell(Z, kw, dim2, sMat, nf, numBlocks, sigma, seqLens, normalization, cos, sin, sqrt, c, k);
  }

  /** The final factor `sqrt(1 / nf)` of both generators. */
  function FinalFactor(nf: nat, sqrt: real -> real): real
    requires nf > 0
  {
    sqrt(1.0 / (nf as real))
  }

  /** Why `get_features` and `get_features_with_gradient` stop: with no frequencies the
      final factor `sqrt(1 / nf)` divides by zero. */
  datatype FeatureError = NoFrequencies

  /** What `get_features` returns, together with the matrix before the final scaling. */
  datatype FeatureMatrices = FeatureMatrices(raw: seq<seq<real>>, features: seq<seq<real>>)

  /** `get_features`: `2 * nf` columns per sample, the cosine and sine sums of frequency `c`
      in columns `2c` and `2c + 1`, then every entry scaled by `sqrt(1 / nf)`; with no
      frequencies that factor fails. */
  method GetFeatures(Z: seq<seq<seq<seq<real>>>>, kw: nat, dim2: nat, sMat: seq<real>, nf: nat, numBlocks: nat,
                     sigma: real, seqLens: seq<int>, normalization: Normalization,
                     cos: real -> real, sin: real -> real, sqrt: real -> real)
    returns (r: Result<FeatureMatrices, FeatureError>)
    requires FeatureArgs(Z, dim2, sMat, nf, numBlocks, seqLens)
    requires forall k :: 0 <= k < |seqLens| ==> ScalingDefined(normalization, seqLens[k] - kw + 1, sqrt)
    ensures r.Failure? <==> nf == 0
    ensures r.Success? ==> Grid(r.value.raw, |seqLens|, 2 * nf)
    ensures r.Success? ==> forall k, c :: 0 <= k < |seqLens| && 0 <= c < nf ==>
      r.value.raw[k][2 * c]
        == FeaturePair(Z, kw, dim2, sMat, nf, numBlocks, sigma, seqLens, normalization, cos, sin, sqrt, c, k).0
      && r.value.raw[k][2 * c + 1]
         == FeaturePair(Z, kw, dim2, sMat, nf, numBlocks, sigma, seqLens, normalization, cos, sin, sqrt, c, k).1
    ensures r.Success? ==> nf > 0 && r.value.features == ScaleAll(r.value.raw, FinalFactor(nf, sqrt))
  {
    if nf == 0 {
      return Failure(NoFrequencies);
    }
    var cell := (i: nat, j: nat, k: nat) =>
      if i < |Z| && j < dim2 && RowStart(i, dim2) + j < nf && k < |seqLens|
      then FeatureCell(Z, kw, dim2, sMat, nf, numBlocks, sigma, seqLens, normalization, cos, sin, sqrt, i, j, k)
      else (0.0, 0.0);
    var raw := BlockedColumns(|seqLens|, nf, dim2, cell);
    FeatureColumns(Z, kw, dim2, sMat, nf, numBlocks, sigma, seqLens, normalization, cos, sin, sqrt, cell, raw);
    r := Success(FeatureMatrices(raw, ScaleAll(raw, FinalFactor(nf, sqrt))));
  }

  // ---------------------------------------------------------------------
  // get_features_with_gradient

  /** `t => -g(t)`. */
  function Neg(g: real -> real): (h: real -> real)
    ensures forall t :: h(t) == -g(t)
  {
    t => -g(t)
  }

  /** The gradient sums of one frequency over the first `n` windows: of `-sin(t) * z` and of
      `cos(t) * z`, where `z` is the window value times `s` and `t = z * sigma`. */
  function GradientSums(cos: real -> real, sin: real -> real, zk: seq<seq<real>>, j: nat, s: real, sigma: real, n: nat)
    : (real, real)
    requires HasOffset(zk, j, n)
  {
    (WeightedSum(Neg(sin), zk, j, s, sigma, n), WeightedSum(cos, zk, j, s, sigma, n))
  }

  /** Frequency `c` of sample `k` as `get_features_with_gradient` defines it, before the
      final scaling: the feature sums and the gradient sums over the valid windows at the
      block offset of `c`, with the window values times `s[c]`. */
  function GradientQuad(Z: seq<seq<seq<seq<real>>>>, kw: nat, dim2: nat, sMat: seq<real>, nf: nat, numBlocks: nat,
                        sigma: real, seqLens: seq<int>, cos: real -> real, sin: real -> real, c: nat, k: nat)
    : ((real, real), (real, real))
    requires FeatureArgs(Z, dim2, sMat, nf, numBlocks, seqLens) && c < nf && k < |seqLens|
  {
    RepeatOf(c, nf, dim2);
    var i, j := c / dim2, c % dim2;
    var n := ValidWindows(seqLens[k], kw, numBlocks);
    WindowsOf(Z, dim2, sMat, nf, numBlocks, seqLens, kw, i, j, k);
    (WindowSums(cos, sin, Z[i][k], j, sMat[c], sigma, n), GradientSums(cos, sin, Z[i][k], j, sMat[c], sigma, n))
  }

  /** Offset `j` of repeat `i` for sample `k` as the loop of `get_features_with_gradient`
      computes it, with `counter = i * dim2 + j`. */
  function GradientCell(Z: seq<seq<seq<seq<real>>>>, kw: nat, dim2: nat, sMat: seq<real>, nf: nat, numBlocks: nat,
                        sigma: real, seqLens: seq<int>, cos: real -> real, sin: real -> real, i: nat, j: nat, k: nat)
    : ((real, real), (real, real))
    requires FeatureArgs(Z, dim2, sMat, nf, numBlocks, seqLens)
    requires i < |Z| && j < dim2 && RowStart(i, dim2) + j < nf && k < |seqLens|
  {
    var n := ValidWindows(seqLens[k], kw, numBlocks);
    WindowsOf(Z, dim2, sMat, nf, numBlocks, seqLens, kw, i, j, k);
    var counter := RowStart(i, dim2) + j;
    (WindowSums(cos, sin, Z[i][k], j, sMat[counter], sigma, n),
     GradientSums(cos, sin, Z[i][k], j, sMat[counter], sigma, n))
  }

  /** The closed form of frequency `c` is what the loop computes at repeat `c / dim2`,
      offset `c % dim2`. */
  lemma QuadIsCell(Z: seq<seq<seq<seq<real>>>>, kw: nat, dim2: nat, sMat: seq<real>, nf: nat, numBlocks: nat,
                   sigma: real, seqLens: seq<int>, cos: real -> real, sin: real -> real, c: nat, k: nat)
    requires FeatureArgs(Z, dim2, sMat, nf, numBlocks, seqLens) && c < nf && k < |seqLens|
    ensures c / dim2 < |Z| && RowStart(c / dim2, dim2) + c % dim2 == c
    ensures GradientQuad(Z, kw, dim2, sMat, nf, numBlocks, sigma, seqLens, cos, sin, c, k)
         == GradientCell(Z, kw, dim2, sMat, nf, numBlocks, sigma, seqLens, cos, sin, c / dim2, c % dim2, k)
  {
    RepeatOf(c, nf, dim2);
    var i, j := c / dim2, c % dim2;
    WindowsOf(Z, dim2, sMat, nf, numBlocks, seqLens, kw, i, j, k);
    assert sMat[RowStart(i, dim2) + j] == sMat[c];
  }

  /** The features of `get_features_with_gradient` are those of `get_features` without
      normalisation. */
  lemma GradientFeaturesUnnormalised(Z: seq<seq<seq<seq<real>>>>, kw: nat, dim2: nat, sMat: seq<real>, nf: nat,
                                     numBlocks: nat, sigma: real, seqLens: seq<int>,
                                     cos: real -> real, sin: real -> real, sqrt: real -> real, c: nat, k: nat)
    requires FeatureArgs(Z, dim2, sMat, nf, numBlocks, seqLens) && c < nf && k < |seqLens|
    ensures GradientQuad(Z, kw, dim2, sMat, nf, numBlocks, sigma, seqLens, cos, sin, c, k).0
         == FeaturePair(Z, kw, dim2, sMat, nf, numBlocks, sigma, seqLens, NoNorm, cos, sin, sqrt, c, k)
  {
  }

  /** `features` and `gradient` have `2 * nf` columns per sample, and columns `2c` and
      `2c + 1` hold the feature sums and the gradient sums of frequency `c` times `fnorm`. */
  predicate GradientOutput(Z: seq<seq<seq<seq<real>>>>, kw: nat, dim2: nat, sMat: seq<real>, nf: nat,
                           numBlocks: nat, sigma: real, seqLens: seq<int>, cos: real -> real, sin: real -> real,
                           fnorm: real, features: seq<seq<real>>, gradient: seq<seq<real>>)
    requires FeatureArgs(Z, dim2, sMat, nf, numBlocks, seqLens)
  {
    && Grid(features, |seqLens|, 2 * nf) && Grid(gradient, |seqLens|, 2 * nf)
    && forall k, c :: 0 <= k < |seqLens| && 0 <= c < nf ==>
      var q := GradientQuad(Z, kw, dim2, sMat, nf, numBlocks, sigma, seqLens, cos, sin, c, k);
      features[k][2 * c] == q.0.0 * fnorm && features[k][2 * c + 1] == q.0.1 * fnorm
      && gradient[k][2 * c] == q.1.0 * fnorm && gradient[k][2 * c + 1] == q.1.1 * fnorm
  }

  /** The cells the two loops write, scaled by `fnorm`, are the closed form of every
      frequency. */
  lemma GradientColumns(Z: seq<seq<seq<seq<real>>>>, kw: nat, dim2: nat, sMat: seq<real>, nf: nat, numBlocks: nat,
                        sigma: real, seqLens: seq<int>, cos: real -> real, sin: real -> real, fnorm: real,
                        quad: (nat, nat, nat) -> ((real, real), (real, real)),
                        cf: (nat, nat, nat) -> (real, real), cg: (nat, nat, nat) -> (real, real),
                        F: seq<seq<real>>, G: seq<seq<real>>, features: seq<seq<real>>, gradient: seq<seq<real>>)
    requires FeatureArgs(Z, dim2, sMat, nf, numBlocks, seqLens)
    requires forall i: nat, j: nat, k: nat :: i < |Z| && j < dim2 && RowStart(i, dim2) + j < nf && k < |seqLens| ==>
      quad(i, j, k) == GradientCell(Z, kw, dim2, sMat, nf, numBlocks, sigma, seqLens, cos, sin, i, j, k)
    requires forall i: nat, j: nat, k: nat :: cf(i, j, k) == quad(i, j, k).0 && cg(i, j, k) == quad(i, j, k).1
    requires Grid(F, |seqLens|, 2 * nf) && Grid(G, |seqLens|, 2 * nf)
    requires forall k, c :: 0 <= k < |seqLens| && 0 <= c < nf ==>
      F[k][2 * c] == CellAt(cf, dim2, c, k).0 && F[k][2 * c + 1] == CellAt(cf, dim2, c, k).1
      && G[k][2 * c] == CellAt(cg, dim2, c, k).0 && G[k][2 * c + 1] == CellAt(cg, dim2, c, k).1
    requires features == ScaleAll(F, fnorm) && gradient == ScaleAll(G, fnorm)
    ensures GradientOutput(Z, kw, dim2, sMat, nf, numBlocks, sigma, seqLens, cos, sin, fnorm, features, gradient)
  {
    forall k, c | 0 <= k < |seqLens| && 0 <= c < nf
      ensures var q := GradientQuad(Z, kw, dim2, sMat, nf, numBlocks, sigma, seqLens, cos, sin, c, k);
        features[k][2 * c] == q.0.0 * fnorm && features[k][2 * c + 1] == q.0.1 * fnorm
        && gradient[k][2 * c] == q.1.0 * fnorm && gradient[k][2 * c + 1] == q.1.1 * fnorm
    {
      QuadIsCell(Z, kw, dim2, sMat, nf, numBlocks, sigma, seqLens, cos, sin, c, k);
      var q := GradientQuad(Z, kw, dim2, sMat, nf, numBlocks, sigma, seqLens, cos, sin, c, k);
      assert CellAt(cf, dim2, c, k) == q.0 && CellAt(cg, dim2, c, k) == q.1;
    }
  }

  /** What `get_features_with_gradient` returns. */
  datatype GradientMatrices = GradientMatrices(features: seq<seq<real>>, gradient: seq<seq<real>>)

  /** `get_features_with_gradient`: features and gradient of `2 * nf` columns per sample,
      frequency `c` in columns `2c` and `2c + 1`, both scaled by `sqrt(1 / nf)`; with no
      frequencies that factor fails. */
  method GetFeaturesWithGradient(Z: seq<seq<seq<seq<real>>>>, kw: nat, dim2: nat, sMat: seq<real>, nf: nat,
                                 numBlocks: nat, sigma: real, seqLens: seq<int>,
                                 cos: real -> real, sin: real -> real, sqrt: real -> real)
    returns (r: Result<GradientMatrices, FeatureError>)
    requires FeatureArgs(Z, dim2, sMat, nf, numBlocks, seqLens)
    ensures r.Failure? <==> nf == 0
    ensures r.Success? ==>
      nf > 0 && GradientOutput(Z, kw, dim2, sMat, nf, numBlocks, sigma, seqLens, cos, sin, FinalFactor(nf, sqrt),
                               r.value.features, r.value.gradient)
  {
    if nf == 0 {
      return Failure(NoFrequencies);
    }
    var fnorm := FinalFactor(nf, sqrt);
    var quad := (i: nat, j: nat, k: nat) =>
      if i < |Z| && j < dim2 && RowStart(i, dim2) + j < nf && k < |seqLens|
      then GradientCell(Z, kw, dim2, sMat, nf, numBlocks, sigma, seqLens, cos, sin, i, j, k)
      else ((0.0, 0.0), (0.0, 0.0));
    var cf := (i: nat, j: nat, k: nat) => quad(i, j, k).0;
    var cg := (i: nat, j: nat, k: nat) => quad(i, j, k).1;
    var F := BlockedColumns(|seqLens|, nf, dim2, cf);
    var G := BlockedColumns(|seqLens|, nf, dim2, cg);
    var gradient := ScaleAll(G, fnorm);
    var features := ScaleAll(F, fnorm);
    GradientColumns(Z, kw, dim2, sMat, nf, numBlocks, sigma, seqLens, cos, sin, fnorm, quad, cf, cg,
                    F, G, features, gradient);
    r := Success(GradientMatrices(features, gradient));
  }

  // ---------------------------------------------------------------------
  // get_features_maxpool

  /** `max over w < n of s * zk[w][j]`. */
  function WindowMax(zk: seq<seq<real>>, j: nat, s: real, n: nat): real
    requires n >= 1 && HasOffset(zk, j, n)
  {
    if n == 1 then s * zk[0][j]
    else
      var m := WindowMax(zk, j, s, n - 1);
      var v := s * zk[n - 1][j];
      if v > m then v else m
  }

  /** `WindowMax` bounds every window from above and is one of them. */
  lemma {:induction false} WindowMaxIsMax(zk: seq<seq<real>>, j: nat, s: real, n: nat)
    requires n >= 1 && HasOffset(zk, j, n)
    ensures forall w :: 0 <= w < n ==> s * zk[w][j] <= WindowMax(zk, j, s, n)
    ensures exists w :: 0 <= w < n && s * zk[w][j] == WindowMax(zk, j, s, n)
    decreases n
  {
    if n > 1 {
      WindowMaxIsMax(zk, j, s, n - 1);
    }
  }

  /** `clip(min=0)`. */
  function Clip(x: real): (r: real)
    ensures r >= 0.0 && r >= x && (r == x || r == 0.0)
  {
    if x < 0.0 then 0.0 else x
  }

  /** Why `get_features_maxpool` stops: the first sample without a valid window, whose
      maximum numpy cannot take. */
  datatype PoolError = NoValidWindow(sample: nat)

  /** The first sample, at or after `k`, without a valid window. */
  function FirstEmpty(seqLens: seq<int>, kw: nat, numBlocks: nat, k: nat): (r: Option<nat>)
    requires k <= |seqLens|
    ensures r.None? <==> forall q :: k <= q < |seqLens| ==> ValidWindows(seqLens[q], kw, numBlocks) >= 1
    ensures r.Some? ==> k <= r.value < |seqLens| && ValidWindows(seqLens[r.value], kw, numBlocks) == 0
    ensures r.Some? ==> forall q :: k <= q < r.value ==> ValidWindows(seqLens[q], kw, numBlocks) >= 1
    decreases |seqLens| - k
  {
    if k == |seqLens| then None
    else if ValidWindows(seqLens[k], kw, numBlocks) == 0 then Some(k)
    else FirstEmpty(seqLens, kw, numBlocks, k + 1)
  }

  /** Column `q` of sample `k`: the largest `s[q] * z` over the valid windows `z` at the
      block offset of `q`, clipped at zero. */
  function PoolAt(Z: seq<seq<seq<seq<real>>>>, kw: nat, dim2: nat, sMat: seq<real>, numRffs: nat, numBlocks: nat,
                  seqLens: seq<int>, q: nat, k: nat): real
    requires FeatureArgs(Z, dim2, sMat, numRffs, numBlocks, seqLens) && q < numRffs && k < |seqLens|
    requires ValidWindows(seqLens[k], kw, numBlocks) >= 1
  {
    RepeatOf(q, numRffs, dim2);
    WindowsOf(Z, dim2, sMat, numRffs, numBlocks, seqLens, kw, q / dim2, q % dim2, k);
    Clip(WindowMax(Z[q / dim2][k], q % dim2, sMat[q], ValidWindows(seqLens[k], kw, numBlocks)))
  }

  /** `get_features_maxpool`: a `width`-wide feature row per sample (`radem.shape[2]`), of
      which the first `numRffs` columns are returned. Repeat `i` fills columns
      `i * dim2 .. (i + 1) * dim2 - 1`; a sample with no valid window makes numpy fail. */
  function MaxPool(Z: seq<seq<seq<seq<real>>>>, kw: nat, dim2: nat, sMat: seq<real>, numRffs: nat, numBlocks: nat,
                   seqLens: seq<int>, width: nat): (r: Result<seq<seq<real>>, PoolError>)
    requires FeatureArgs(Z, dim2, sMat, numRffs, numBlocks, seqLens)
    requires RowStart(CeilDiv(numRffs, dim2), dim2) <= width && RowStart(CeilDiv(numRffs, dim2), dim2) <= |sMat|
    ensures r.Failure? <==>
      numRffs >= 1 && exists k :: 0 <= k < |seqLens| && ValidWindows(seqLens[k], kw, numBlocks) == 0
    ensures r.Failure? ==> r.error.sample < |seqLens| && ValidWindows(seqLens[r.error.sample], kw, numBlocks) == 0
    ensures r.Success? ==> Grid(r.value, |seqLens|, numRffs)
  {
    if numRffs == 0 then Success(Zeros(|seqLens|, 0))
    else
      match FirstEmpty(seqLens, kw, numBlocks, 0)
      case Some(k) => Failure(NoValidWindow(k))
      case None =>
        Success(seq(|seqLens|, k requires 0 <= k < |seqLens| =>
          seq(numRffs, q requires 0 <= q < numRffs => PoolAt(Z, kw, dim2, sMat, numRffs, numBlocks, seqLens, q, k))))
  }

  /** Every returned max-pool feature is non-negative, at least `s[q] * z` for every valid
      window `z` at its block offset, and equal to one of them unless it was clipped to 0. */
  lemma MaxPoolEntry(Z: seq<seq<seq<seq<real>>>>, kw: nat, dim2: nat, sMat: seq<real>, numRffs: nat,
                     numBlocks: nat, seqLens: seq<int>, width: nat, q: nat, k: nat)
    requires FeatureArgs(Z, dim2, sMat, numRffs, numBlocks, seqLens)
    requires RowStart(CeilDiv(numRffs, dim2), dim2) <= width && RowStart(CeilDiv(numRffs, dim2), dim2) <= |sMat|
    requires MaxPool(Z, kw, dim2, sMat, numRffs, numBlocks, seqLens, width).Success?
    requires q < numRffs && k < |seqLens|
    ensures q / dim2 < |Z| && ValidWindows(seqLens[k], kw, numBlocks) >= 1
    ensures var v := MaxPool(Z, kw, dim2, sMat, numRffs, numBlocks, seqLens, width).value[k][q];
      var zk := Z[q / dim2][k];
      v >= 0.0
      && (forall w :: 0 <= w < ValidWindows(seqLens[k], kw, numBlocks) ==> sMat[q] * zk[w][q % dim2] <= v)
      && (v == 0.0 || exists w :: 0 <= w < ValidWindows(seqLens[k], kw, numBlocks) && sMat[q] * zk[w][q % dim2] == v)
  {
    RepeatOf(q, numRffs, dim2);
    var n := ValidWindows(seqLens[k], kw, numBlocks);
    WindowsOf(Z, dim2, sMat, numRffs, numBlocks, seqLens, kw, q / dim2, q % dim2, k);
    WindowMaxIsMax(Z[q / dim2][k], q % dim2, sMat[q], n);
  }
}
