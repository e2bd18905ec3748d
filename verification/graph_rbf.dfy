/** The GraphRBF kernel's own bookkeeping: what its constructor derives from the input
    dimensions (padded width, number of frequency slots, averaging flag, random diagonal
    and chi draws) and how `transform_x` and `kernel_specific_gradient` validate and
    zero-pad their input before handing it to the feature generator. */
module GraphRbf {
  import opened Arith
  import opened Outcome

  /** The `ValueError`s these operations raise. */
  datatype KernelError =
    | XdimNot3D              // the constructor's `xdim` does not have three entries
    | MissingSequenceLength  // `sequence_length` is `None`
    | InputNot3D             // the input array is not 3-D
    | WiderThanPadding       // the input's last axis does not fit the padded width (numpy broadcast error)

  /** A dense array: its shape and its elements in row-major order. */
  datatype Tensor = Tensor(shape: seq<nat>, data: seq<real>)

  /** `t` has shape `(n, a, d)` and `n * a * d` elements. */
  predicate Shaped3(t: Tensor, n: nat, a: nat, d: nat)
  {
    t.shape == [n, a, d] && |t.data| == RowStart(n * a, d)
  }

  /** `t` has shape `(n, m)` and every element is zero. */
  predicate Zeros2(t: Tensor, n: nat, m: nat)
  {
    t.shape == [n, m] && |t.data| == n * m && forall q :: 0 <= q < |t.data| ==> t.data[q] == 0.0
  }

  /** The state the constructor leaves behind. */
  datatype GraphRbfKernel = GraphRbfKernel(
    numRffs: nat,
    numFreqs: nat,
    paddedDims: nat,
    freqSize: nat,
    graphAverage: bool,
    hyperparams: seq<real>,
    bounds: seq<(real, real)>,
    radem: seq<seq<seq<int>>>,
    chi: seq<real>)

  /** `2**ceil(log2(max(d, 2)))`: the padded width of one node's features. */
  function PaddedDims(d: nat): (p: nat)
    ensures IsPow2(p) && 2 <= p && d <= p
  {
    NextPow2(if d < 2 then 2 else d)
  }

  /** No smaller power of two holds `max(d, 2)` features. */
  lemma PaddedDimsIsLeast(d: nat, q: nat)
    requires IsPow2(q) && 2 <= q && d <= q
    ensures PaddedDims(d) <= q
  {
    NextPow2IsLeast(if d < 2 then 2 else d, q);
  }

  /** `ceil(num_freqs / padded_dims) * padded_dims`: the smallest multiple of the padded width
      that holds `numFreqs` frequencies. */
  function FreqSize(numFreqs: nat, p: nat): (r: nat)
    requires p >= 1
    ensures r % p == 0 && numFreqs <= r < numFreqs + p
  {
    RoundUp(numFreqs, p)
  }

  /** The `(3, 1, freqSize)` sign array drawn from `{-1, 1}`; `coin` stands for the seeded
      generator's draws, in row-major order. */
  function RademDraw(coin: nat -> bool, freqSize: nat): (r: seq<seq<seq<int>>>)
    ensures |r| == 3
    ensures forall d :: 0 <= d < 3 ==> |r[d]| == 1 && |r[d][0]| == freqSize
    ensures forall d, k :: 0 <= d < 3 && 0 <= k < freqSize ==> r[d][0][k] == -1 || r[d][0][k] == 1
  {
    seq(3, d requires 0 <= d < 3 =>
      [seq(freqSize, k requires 0 <= k < freqSize => if coin(d * freqSize + k) then 1 else -1)])
  }

  /** Whether the kernel averages over nodes: only a truthy `"averaging"` entry turns it on.
      `spec` maps each entry of `kernel_spec_parms` to its truth value. */
  function GraphAverage(spec: map<string, bool>): bool
  {
    if "averaging" in spec then spec["averaging"] else false
  }

  /** `GraphRBF.__init__` after the base class has set `numRffs` and `numFreqs`: a shape that is
      not 3-D is refused; otherwise the padded width, the number of frequency slots, the
      averaging flag, the unit hyperparameters and their bounds, the sign array and `numFreqs`
      chi draws (`chiDraw`, standing for the seeded chi sampler) are set up. */
  function NewGraphRbf(xdim: seq<nat>, numRffs: nat, numFreqs: nat, spec: map<string, bool>,
                       coin: nat -> bool, chiDraw: nat -> real): (r: Result<GraphRbfKernel, KernelError>)
    ensures r.Failure? <==> |xdim| != 3
    ensures r.Failure? ==> r.error == XdimNot3D
    ensures r.Success? ==>
      var k := r.value;
      IsPow2(k.paddedDims) && 2 <= k.paddedDims && xdim[2] <= k.paddedDims
      && k.freqSize % k.paddedDims == 0 && numFreqs <= k.freqSize < numFreqs + k.paddedDims
      && (k.graphAverage <==> "averaging" in spec && spec["averaging"])
      && k.hyperparams == [1.0, 1.0] && k.bounds == [(0.001, 100.0), (0.01, 100.0)]
      && |k.radem| == 3
      && (forall d :: 0 <= d < 3 ==> |k.radem[d]| == 1 && |k.radem[d][0]| == k.freqSize)
      && (forall d, q :: 0 <= d < 3 && 0 <= q < k.freqSize ==> k.radem[d][0][q] == -1 || k.radem[d][0][q] == 1)
      && |k.chi| == numFreqs && (forall i :: 0 <= i < numFreqs ==> k.chi[i] == chiDraw(i))
      && k.numRffs == numRffs && k.numFreqs == numFreqs
  {
    if |xdim| != 3 then Failure(XdimNot3D)
    else
      var p := PaddedDims(xdim[2]);
      var fs := FreqSize(numFreqs, p);
      Success(GraphRbfKernel(numRffs, numFreqs, p, fs, GraphAverage(spec), [1.0, 1.0],
                             [(0.001, 100.0), (0.01, 100.0)], RademDraw(coin, fs),
                             seq(numFreqs, i requires 0 <= i < numFreqs => chiDraw(i))))
  }

  /** A constructed kernel's invariant: a power-of-two padded width of at least 2, a number
      of frequency slots that is a multiple of it and holds every frequency, a `(3, 1,
      freqSize)` sign array of -1 and 1, one chi draw per frequency, and two hyperparameters
      with a bound each. */
  predicate Valid(k: GraphRbfKernel)
  {
    && IsPow2(k.paddedDims) && 2 <= k.paddedDims
    && k.freqSize % k.paddedDims == 0 && k.numFreqs <= k.freqSize
    && |k.radem| == 3
    && (forall d :: 0 <= d < 3 ==> |k.radem[d]| == 1 && |k.radem[d][0]| == k.freqSize)
    && (forall d, q :: 0 <= d < 3 && 0 <= q < k.freqSize ==> k.radem[d][0][q] == -1 || k.radem[d][0][q] == 1)
    && |k.chi| == k.numFreqs
    && |k.hyperparams| == 2 && |k.bounds| == 2
  }

  /** Whatever the constructor returns is a valid kernel. */
  lemma NewGraphRbfValid(xdim: seq<nat>, numRffs: nat, numFreqs: nat, spec: map<string, bool>,
                         coin: nat -> bool, chiDraw: nat -> real)
    requires |xdim| == 3
    ensures NewGraphRbf(xdim, numRffs, numFreqs, spec, coin, chiDraw).Success?
    ensures Valid(NewGraphRbf(xdim, numRffs, numFreqs, spec, coin, chiDraw).value)
  {
  }

  // ---------------------------------------------------------------------
  // Zero padding

  /** Element `q` of a row-major array with `rows` rows of `p` columns sits in row `q / p`,
      column `q % p`; the same row and column of an array with `d <= p` columns lie inside it
      when the column is below `d`. */
  lemma PadIndex(q: nat, rows: nat, p: nat, d: nat)
    requires q < RowStart(rows, p) && d <= p
    ensures p > 0 && q / p < rows && q == RowStart(q / p, p) + q % p
    ensures q % p < d ==> RowStart(q / p, d) + q % p < RowStart(rows, d)
  {
    var r := q / p;
    DivModUnique(q, p, r, q % p);
    if r >= rows {
      MulMono(rows, r, p);
      assert false;
    }
    if q % p < d {
      RowStartStep(r, d);
      MulMono(r + 1, rows, d);
    }
  }

  /** One element of the padded array: column `c` of row `r` is the input scaled by `s` when
      `c < d`, zero otherwise. */
  function PadElem(x: seq<real>, rows: nat, d: nat, p: nat, s: real, q: nat): real
    requires |x| == RowStart(rows, d) && d <= p && q < RowStart(rows, p)
  {
    PadIndex(q, rows, p, d);
    if q % p < d then x[RowStart(q / p, d) + q % p] * s else 0.0
  }

  /** The `(n, a, p)` array whose first `d` columns hold `x * s` and whose other columns are zero. */
  function PadInput(x: Tensor, n: nat, a: nat, d: nat, p: nat, s: real): (y: Tensor)
    requires Shaped3(x, n, a, d) && d <= p
    ensures Shaped3(y, n, a, p)
  {
    Tensor([n, a, p], seq(RowStart(n * a, p), q requires 0 <= q < RowStart(n * a, p) =>
      PadElem(x.data, n * a, d, p, s, q)))
  }

  /** Row `r`, column `c` of the padded array: the scaled input inside the first `d` columns,
      zero after them. */
  lemma PaddedAt(x: Tensor, n: nat, a: nat, d: nat, p: nat, s: real, r: nat, c: nat)
    requires Shaped3(x, n, a, d) && d <= p && r < n * a && c < p
    ensures RowStart(r, p) + c < RowStart(n * a, p)
    ensures c < d ==> RowStart(r, d) + c < |x.data|
    ensures PadInput(x, n, a, d, p, s).data[RowStart(r, p) + c]
         == if c < d then x.data[RowStart(r, d) + c] * s else 0.0
  {
    RowStartStep(r, p);
    MulMono(r + 1, n * a, p);
    var q := RowStart(r, p) + c;
    DivModUnique(q, p, r, c);
    if c < d {
      RowStartStep(r, d);
      MulMono(r + 1, n * a, d);
    }
  }

  /** The first `d` columns of an `(n, a, p)` array. */
  function Crop(y: Tensor, n: nat, a: nat, d: nat, p: nat): (x: Tensor)
    requires Shaped3(y, n, a, p) && d <= p && d > 0
    ensures Shaped3(x, n, a, d)
  {
    Tensor([n, a, d], seq(RowStart(n * a, d), q requires 0 <= q < RowStart(n * a, d) =>
      CropElem(y.data, n * a, d, p, q)))
  }

  /** Column `q % d` of row `q / d`, read from the wider array. */
  function CropElem(y: seq<real>, rows: nat, d: nat, p: nat, q: nat): real
    requires |y| == RowStart(rows, p) && d <= p && d > 0 && q < RowStart(rows, d)
  {
    PadIndex(q, rows, d, d);
    CropIndex(q, rows, d, p);
    y[RowStart(q / d, p) + q % d]
  }

  /** Row `q / d`, column `q % d` of a `d`-column array lies inside the `p`-column array. */
  lemma CropIndex(q: nat, rows: nat, d: nat, p: nat)
    requires d > 0 && d <= p && q < RowStart(rows, d)
    ensures q / d < rows && RowStart(q / d, p) + q % d < RowStart(rows, p)
  {
    PadIndex(q, rows, d, d);
    RowStartStep(q / d, p);
    MulMono(q / d + 1, rows, p);
  }

  /** Element `q` of the cropped padded array is element `q` of the input scaled by `s`. */
  lemma CropOfPadAt(x: Tensor, n: nat, a: nat, d: nat, p: nat, s: real, q: nat)
    requires Shaped3(x, n, a, d) && 0 < d <= p && q < |x.data|
    ensures Crop(PadInput(x, n, a, d, p, s), n, a, d, p).data[q] == x.data[q] * s
  {
    PadIndex(q, n * a, d, d);
    CropIndex(q, n * a, d, p);
    PaddedAt(x, n, a, d, p, s, q / d, q % d);
  }

  /** Padding and cropping back undo each other: the cropped padded array is the input
      scaled by `s`, element by element. */
  lemma CropOfPad(x: Tensor, n: nat, a: nat, d: nat, p: nat, s: real)
    requires Shaped3(x, n, a, d) && 0 < d <= p
    ensures forall q :: 0 <= q < |x.data| ==> Crop(PadInput(x, n, a, d, p, s), n, a, d, p).data[q] == x.data[q] * s
  {
    forall q | 0 <= q < |x.data|
      ensures Crop(PadInput(x, n, a, d, p, s), n, a, d, p).data[q] == x.data[q] * s
    {
      CropOfPadAt(x, n, a, d, p, s, q);
    }
  }

  /** At unit scale the round trip returns the input itself. */
  lemma CropOfPadUnit(x: Tensor, n: nat, a: nat, d: nat, p: nat)
    requires Shaped3(x, n, a, d) && 0 < d <= p
    ensures Crop(PadInput(x, n, a, d, p, 1.0), n, a, d, p) == x
  {
    CropOfPad(x, n, a, d, p, 1.0);
    var z := Crop(PadInput(x, n, a, d, p, 1.0), n, a, d, p);
    assert z.data == x.data;
  }

  // ---------------------------------------------------------------------
  // Feature generation and gradient entry points

  /** What `transform_x` hands to the feature generator: the padded input and the
      zero-filled `(N, num_rffs)` output array. */
  datatype GeneratorCall = GeneratorCall(padded: Tensor, out: Tensor)

  /** What `kernel_specific_gradient` hands to the gradient generator: the unscaled padded
      input, the zero-filled output array and `sigma` (the second hyperparameter). */
  datatype GradientCall = GradientCall(padded: Tensor, out: Tensor, sigma: real)

  /** The checks both entry points make, in their order: the node counts must be given, the
      input must be 3-D, and its last axis must fit the padded width. */
  function CheckInput(k: GraphRbfKernel, x: Tensor, seqLen: Option<seq<int>>): Option<KernelError>
  {
    if seqLen.None? then Some(MissingSequenceLength)
    else if |x.shape| != 3 then Some(InputNot3D)
    else if x.shape[2] > k.paddedDims then Some(WiderThanPadding)
    else None
  }

  /** `transform_x`: after the checks, the input scaled by `sigma` is zero-padded to the padded
      width and an all-zero `(N, num_rffs)` output is allocated. */
  function TransformX(k: GraphRbfKernel, x: Tensor, seqLen: Option<seq<int>>): (r: Result<GeneratorCall, KernelError>)
    requires Valid(k)
    requires |x.shape| == 3 ==> |x.data| == RowStart(x.shape[0] * x.shape[1], x.shape[2])
    ensures r.Success? <==> seqLen.Some? && |x.shape| == 3 && x.shape[2] <= k.paddedDims
    ensures seqLen.None? ==> r == Failure(MissingSequenceLength)
    ensures seqLen.Some? && |x.shape| != 3 ==> r == Failure(InputNot3D)
    ensures seqLen.Some? && |x.shape| == 3 && x.shape[2] > k.paddedDims ==> r == Failure(WiderThanPadding)
    ensures r.Success? ==>
      Shaped3(r.value.padded, x.shape[0], x.shape[1], k.paddedDims)
      && Zeros2(r.value.out, x.shape[0], k.numRffs)
  {
    match CheckInput(k, x, seqLen)
    case Some(e) => Failure(e)
    case None =>
      var n, a, d := x.shape[0], x.shape[1], x.shape[2];
      Success(GeneratorCall(PadInput(x, n, a, d, k.paddedDims, k.hyperparams[1]),
                            Tensor([n, k.numRffs], seq(n * k.numRffs, _ => 0.0))))
  }

  /** What `transform_x` pads: row `r`, column `c` of the padded array is the input scaled by
      `sigma` in the input's columns and zero in the padding columns. */
  lemma TransformXPads(k: GraphRbfKernel, x: Tensor, seqLen: Option<seq<int>>, r: nat, c: nat)
    requires Valid(k)
    requires |x.shape| == 3 ==> |x.data| == RowStart(x.shape[0] * x.shape[1], x.shape[2])
    requires TransformX(k, x, seqLen).Success?
    requires r < x.shape[0] * x.shape[1] && c < k.paddedDims
    ensures RowStart(r, k.paddedDims) + c < |TransformX(k, x, seqLen).value.padded.data|
    ensures c < x.shape[2] ==> RowStart(r, x.shape[2]) + c < |x.data|
    ensures TransformX(k, x, seqLen).value.padded.data[RowStart(r, k.paddedDims) + c]
         == if c < x.shape[2] then x.data[RowStart(r, x.shape[2]) + c] * k.hyperparams[1] else 0.0
  {
    PaddedAt(x, x.shape[0], x.shape[1], x.shape[2], k.paddedDims, k.hyperparams[1], r, c);
  }

  /** `kernel_specific_gradient`: the same checks and allocation, with the input padded
      unscaled and `sigma` passed along separately. */
  function KernelSpecificGradient(k: GraphRbfKernel, x: Tensor, seqLen: Option<seq<int>>)
    : (r: Result<GradientCall, KernelError>)
    requires Valid(k)
    requires |x.shape| == 3 ==> |x.data| == RowStart(x.shape[0] * x.shape[1], x.shape[2])
    ensures r.Success? <==> seqLen.Some? && |x.shape| == 3 && x.shape[2] <= k.paddedDims
    ensures seqLen.None? ==> r == Failure(MissingSequenceLength)
    ensures seqLen.Some? && |x.shape| != 3 ==> r == Failure(InputNot3D)
    ensures seqLen.Some? && |x.shape| == 3 && x.shape[2] > k.paddedDims ==> r == Failure(WiderThanPadding)
    ensures r.Success? ==>
      Shaped3(r.value.padded, x.shape[0], x.shape[1], k.paddedDims)
      && Zeros2(r.value.out, x.shape[0], k.numRffs) && r.value.sigma == k.hyperparams[1]
  {
    match CheckInput(k, x, seqLen)
    case Some(e) => Failure(e)
    case None =>
      var n, a, d := x.shape[0], x.shape[1], x.shape[2];
      Success(GradientCall(PadInput(x, n, a, d, k.paddedDims, 1.0),
                           Tensor([n, k.numRffs], seq(n * k.numRffs, _ => 0.0)), k.hyperparams[1]))
  }

  /** What `kernel_specific_gradient` pads: row `r`, column `c` of the padded array is the
      input itself in the input's columns and zero in the padding columns. */
  lemma KernelSpecificGradientPads(k: GraphRbfKernel, x: Tensor, seqLen: Option<seq<int>>, r: nat, c: nat)
    requires Valid(k)
    requires |x.shape| == 3 ==> |x.data| == RowStart(x.shape[0] * x.shape[1], x.shape[2])
    requires KernelSpecificGradient(k, x, seqLen).Success?
    requires r < x.shape[0] * x.shape[1] && c < k.paddedDims
    ensures RowStart(r, k.paddedDims) + c < |KernelSpecificGradient(k, x, seqLen).value.padded.data|
    ensures c < x.shape[2] ==> RowStart(r, x.shape[2]) + c < |x.data|
    ensures KernelSpecificGradient(k, x, seqLen).value.padded.data[RowStart(r, k.paddedDims) + c]
         == if c < x.shape[2] then x.data[RowStart(r, x.shape[2]) + c] else 0.0
  {
    PaddedAt(x, x.shape[0], x.shape[1], x.shape[2], k.paddedDims, 1.0, r, c);
  }

  /** Padding at scale `s` is `s` times padding at unit scale, element by element. */
  lemma PadScaled(x: Tensor, n: nat, a: nat, d: nat, p: nat, s: real, q: nat)
    requires Shaped3(x, n, a, d) && d <= p && q < RowStart(n * a, p)
    ensures PadInput(x, n, a, d, p, s).data[q] == PadInput(x, n, a, d, p, 1.0).data[q] * s
  {
    PadIndex(q, n * a, p, d);
    PaddedAt(x, n, a, d, p, s, q / p, q % p);
    PaddedAt(x, n, a, d, p, 1.0, q / p, q % p);
  }

  /** Padding at scale `s` is `s` times padding at unit scale. */
  lemma PadScaledAll(x: Tensor, n: nat, a: nat, d: nat, p: nat, s: real)
    requires Shaped3(x, n, a, d) && d <= p
    ensures forall q :: 0 <= q < RowStart(n * a, p) ==>
      PadInput(x, n, a, d, p, s).data[q] == PadInput(x, n, a, d, p, 1.0).data[q] * s
  {
    forall q | 0 <= q < RowStart(n * a, p)
      ensures PadInput(x, n, a, d, p, s).data[q] == PadInput(x, n, a, d, p, 1.0).data[q] * s
    {
      PadScaled(x, n, a, d, p, s, q);
    }
  }

  /** Both entry points accept and refuse the same inputs; the padded input of the feature
      path is `sigma` times that of the gradient path, and the two agree when `sigma` is 1. */
  lemma EntryPointsAgree(k: GraphRbfKernel, x: Tensor, seqLen: Option<seq<int>>)
    requires Valid(k)
    requires |x.shape| == 3 ==> |x.data| == RowStart(x.shape[0] * x.shape[1], x.shape[2])
    ensures TransformX(k, x, seqLen).Success? <==> KernelSpecificGradient(k, x, seqLen).Success?
    ensures TransformX(k, x, seqLen).Success? ==>
      var t, g := TransformX(k, x, seqLen).value, KernelSpecificGradient(k, x, seqLen).value;
      |t.padded.data| == |g.padded.data|
      && (forall q :: 0 <= q < |t.padded.data| ==> t.padded.data[q] == g.padded.data[q] * g.sigma)
      && t.out == g.out
  {
    if TransformX(k, x, seqLen).Success? {
      var n, a, d, p := x.shape[0], x.shape[1], x.shape[2], k.paddedDims;
      var t, g := TransformX(k, x, seqLen).value, KernelSpecificGradient(k, x, seqLen).value;
      PadScaledAll(x, n, a, d, p, k.hyperparams[1]);
    }
  }
}
