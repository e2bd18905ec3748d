/** One thread of the graph ARD gradient routine: the two passes over rows
    `[startRow, endRow)` that fill the random features and their gradient with respect
    to the lengthscales. The input sample `x[i]` is `dim1` positions of `dim2` features,
    `W` holds the `numFreqs` precomputed weight rows, `sigmaMap[m]` names the
    lengthscale of feature `m` and `sigmaVals[m]` its value. Features of row `i` are the
    `2 * numFreqs` entries from `i * 2 * numFreqs` (all cosines, then all sines); its
    gradient is the `2 * numFreqs * numLengthscales` entries from `i * 2 * numFreqs * numLengthscales`.
    `cos` and `sin` are parameters. */
module ArdWorker {
  import opened Arith
  import opened Rows

  // ---------------------------------------------------------------------
  // Reference sums

  /** `Σ_{m < n} sigmaVals[m] * (xk[m] * w[m])`: the argument of cos and sin at one position. */
  function RowSum(sv: seq<real>, xk: seq<real>, w: seq<real>, n: nat): real
    requires n <= |sv| && n <= |xk| && n <= |w|
  {
    if n == 0 then 0.0 else RowSum(sv, xk, w, n - 1) + sv[n - 1] * (xk[n - 1] * w[n - 1])
  }

  /** `Σ_{m < n, sigmaMap[m] == g} xk[m] * w[m]`: the partial products of lengthscale `g`. */
  function GroupSum(sm: seq<int>, xk: seq<real>, w: seq<real>, g: int, n: nat): real
    requires n <= |sm| && n <= |xk| && n <= |w|
  {
    if n == 0 then 0.0
    else GroupSum(sm, xk, w, g, n - 1) + (if sm[n - 1] == g then xk[n - 1] * w[n - 1] else 0.0)
  }

  /** Every position of the sample has one entry per weight. */
  predicate Positions(xi: seq<seq<real>>, d: nat)
  {
    forall k :: 0 <= k < |xi| ==> |xi[k]| == d
  }

  /** `Σ_{k < n} f(RowSum at position k)`, for `f` the cosine or the sine. */
  function TrigSum(f: real -> real, sv: seq<real>, xi: seq<seq<real>>, w: seq<real>, n: nat): real
    requires n <= |xi| && |sv| == |w| && Positions(xi, |w|)
  {
    if n == 0 then 0.0 else TrigSum(f, sv, xi, w, n - 1) + f(RowSum(sv, xi[n - 1], w, |w|))
  }

  /** `Σ_{k < n} GroupSum at position k`: what the gradient slot of lengthscale `g` accumulates. */
  function GradSum(sm: seq<int>, xi: seq<seq<real>>, w: seq<real>, g: int, n: nat): real
    requires n <= |xi| && |sm| == |w| && Positions(xi, |w|)
  {
    if n == 0 then 0.0 else GradSum(sm, xi, w, g, n - 1) + GroupSum(sm, xi[n - 1], w, g, |w|)
  }

  // ---------------------------------------------------------------------
  // Shapes and the flat layout of one row

  /** Every weight row has `|sv|` entries, every lengthscale index is below `L`. */
  predicate Weights(W: seq<seq<real>>, sm: seq<int>, sv: seq<real>, L: nat)
  {
    |sm| == |sv| && (forall j :: 0 <= j < |W| ==> |W[j]| == |sv|)
    && (forall m :: 0 <= m < |sm| ==> 0 <= sm[m] < L)
  }

  /** The frequency whose block of `L` gradient slots holds slot `q`. */
  function BlockIndex(q: nat, L: nat, F: nat): (j: nat)
    requires q < F * L
    ensures j < F && RowStart(j, L) <= q < RowStart(j, L) + L
  {
    assert L > 0;
    DivModUnique(q, L, q / L, q % L);
    assert q / L < F by {
      if q / L >= F {
        MulMono(F, q / L, L);
      }
    }
    q / L
  }

  /** A slot inside block `j` has block index `j`. */
  lemma BlockIndexOf(q: nat, j: nat, L: nat, F: nat)
    requires j < F && RowStart(j, L) <= q < RowStart(j, L) + L
    ensures q < F * L && BlockIndex(q, L, F) == j
  {
    RowStartStep(j, L);
    MulMono(j + 1, F, L);
    DivBlock(q, j, L);
  }

  /** What the first pass adds to feature column `q`: the summed cosines of frequency `q`
      for `q < F`, the summed sines of frequency `q - F` after that. */
  function FeatGain(q: nat, xi: seq<seq<real>>, W: seq<seq<real>>, sv: seq<real>,
                    cos: real -> real, sin: real -> real): real
    requires q < 2 * |W| && Positions(xi, |sv|) && forall j :: 0 <= j < |W| ==> |W[j]| == |sv|
  {
    if q < |W| then TrigSum(cos, sv, xi, W[q], |xi|) else TrigSum(sin, sv, xi, W[q - |W|], |xi|)
  }

  /** The feature row after the first pass: column `j` gained the cosines of frequency `j`,
      column `F + j` its sines. */
  function FeatRow1(fr: seq<real>, xi: seq<seq<real>>, W: seq<seq<real>>, sv: seq<real>,
                    cos: real -> real, sin: real -> real): (r: seq<real>)
    requires |fr| == 2 * |W| && Positions(xi, |sv|) && forall j :: 0 <= j < |W| ==> |W[j]| == |sv|
    ensures |r| == |fr|
  {
    seq(|fr|, q requires 0 <= q < |fr| => fr[q] + FeatGain(q, xi, W, sv, cos, sin))
  }

  /** The gradient row after the first pass: slot `j * L + g` of the first half gained the
      products of lengthscale `g` against weight row `j`; the second half is untouched. */
  function GradRow1(gr: seq<real>, xi: seq<seq<real>>, W: seq<seq<real>>, sm: seq<int>, L: nat): (r: seq<real>)
    requires |gr| == 2 * (|W| * L) && Positions(xi, |sm|) && forall j :: 0 <= j < |W| ==> |W[j]| == |sm|
    ensures |r| == |gr|
  {
    seq(|gr|, q requires 0 <= q < |gr| =>
      if q < |W| * L then
        var j := BlockIndex(q, L, |W|);
        gr[q] + GradSum(sm, xi, W[j], q - RowStart(j, L), |xi|)
      else gr[q])
  }

  /** The feature row after the second pass: every entry scaled by the norm constant. */
  function FeatRow2(f1: seq<real>, c: real): (r: seq<real>)
    ensures |r| == |f1|
  {
    seq(|f1|, q requires 0 <= q < |f1| => f1[q] * c)
  }

  /** Gradient slot `q` after the second pass. Slot `j * L + g` of the first half becomes
      minus the scaled sine of frequency `j` times its accumulated value; the slot `F * L`
      further on becomes the scaled cosine times that same value. */
  function GradSlot2(q: nat, f1: seq<real>, g1: seq<real>, F: nat, L: nat, c: real): real
    requires |f1| == 2 * F && |g1| == 2 * (F * L) && q < |g1|
  {
    if q < F * L then -(f1[F + BlockIndex(q, L, F)] * c) * g1[q]
    else (f1[BlockIndex(q - F * L, L, F)] * c) * g1[q - F * L]
  }

  /** The gradient row after the second pass. */
  function GradRow2(f1: seq<real>, g1: seq<real>, F: nat, L: nat, c: real): (r: seq<real>)
    requires |f1| == 2 * F && |g1| == 2 * (F * L)
    ensures |r| == |g1|
  {
    seq(|g1|, q requires 0 <= q < |g1| => GradSlot2(q, f1, g1, F, L, c))
  }

  // ---------------------------------------------------------------------
  // First pass

  /** The innermost loop at one (row, frequency, position): every product `x * w` is added to
      the gradient slot of its lengthscale, and the lengthscale-weighted products are summed. */
  method PositionPass(acc: seq<real>, sm: seq<int>, sv: seq<real>, xk: seq<real>, w: seq<real>)
    returns (acc2: seq<real>, rowSum: real)
    requires |sm| == |w| && |sv| == |w| && |xk| == |w|
    requires forall m :: 0 <= m < |sm| ==> 0 <= sm[m] < |acc|
    ensures rowSum == RowSum(sv, xk, w, |w|)
    ensures |acc2| == |acc|
    ensures forall g :: 0 <= g < |acc| ==> acc2[g] == acc[g] + GroupSum(sm, xk, w, g, |w|)
  {
    acc2, rowSum := acc, 0.0;
    var m := 0;
    while m < |w|
      invariant m <= |w| && |acc2| == |acc|
      invariant rowSum == RowSum(sv, xk, w, m)
      invariant forall g :: 0 <= g < |acc| ==> acc2[g] == acc[g] + GroupSum(sm, xk, w, g, m)
    {
      var dotProd := xk[m] * w[m];
      acc2 := acc2[sm[m] := acc2[sm[m]] + dotProd];
      rowSum := rowSum + sv[m] * dotProd;
      m := m + 1;
    }
  }

  /** All positions of one row at one frequency: the cosine and sine of each position's
      sum are added to the two feature columns, the gradient block accumulates. */
  method FreqPass(acc: seq<real>, fc: real, fs: real, sm: seq<int>, sv: seq<real>,
                  xi: seq<seq<real>>, w: seq<real>, cos: real -> real, sin: real -> real)
    returns (acc2: seq<real>, fc2: real, fs2: real)
    requires |sm| == |w| && |sv| == |w| && Positions(xi, |w|)
    requires forall m :: 0 <= m < |sm| ==> 0 <= sm[m] < |acc|
    ensures fc2 == fc + TrigSum(cos, sv, xi, w, |xi|)
    ensures fs2 == fs + TrigSum(sin, sv, xi, w, |xi|)
    ensures |acc2| == |acc|
    ensures forall g :: 0 <= g < |acc| ==> acc2[g] == acc[g] + GradSum(sm, xi, w, g, |xi|)
  {
    acc2, fc2, fs2 := acc, fc, fs;
    var k := 0;
    while k < |xi|
      invariant k <= |xi| && |acc2| == |acc|
      invariant fc2 == fc + TrigSum(cos, sv, xi, w, k)
      invariant fs2 == fs + TrigSum(sin, sv, xi, w, k)
      invariant forall g :: 0 <= g < |acc| ==> acc2[g] == acc[g] + GradSum(sm, xi, w, g, k)
    {
      var rowSum;
      acc2, rowSum := PositionPass(acc2, sm, sv, xi[k], w);
      fc2 := fc2 + cos(rowSum);
      fs2 := fs2 + sin(rowSum);
      k := k + 1;
    }
  }

  /** Column `q` of a row with `F` frequencies belongs to one of the first `j` frequencies. */
  predicate ColumnBefore(q: nat, F: nat, j: nat)
  {
    if q < F then q < j else q - F < j
  }

  /** Feature columns of the first `j` frequencies are done, the others hold the input. */
  ghost predicate FeatsDone(fr: seq<real>, fr0: seq<real>, xi: seq<seq<real>>, W: seq<seq<real>>,
                            sv: seq<real>, cos: real -> real, sin: real -> real, j: nat)
    requires |fr0| == 2 * |W| && Positions(xi, |sv|) && forall u :: 0 <= u < |W| ==> |W[u]| == |sv|
  {
    |fr| == |fr0|
    && forall q :: 0 <= q < |fr0| ==>
         fr[q] == if ColumnBefore(q, |W|, j) then fr0[q] + FeatGain(q, xi, W, sv, cos, sin) else fr0[q]
  }

  /** Gradient slot `q` once the blocks of the first `j` frequencies are done: slots in
      those blocks gained their lengthscale's products, every other slot holds the input. */
  function GradWant(gr0: seq<real>, xi: seq<seq<real>>, W: seq<seq<real>>, sm: seq<int>, L: nat, j: nat, q: nat): real
    requires |gr0| == 2 * (|W| * L) && Positions(xi, |sm|) && forall u :: 0 <= u < |W| ==> |W[u]| == |sm|
    requires j <= |W| && q < |gr0|
  {
    MulMono(j, |W|, L);
    if q < RowStart(j, L) then
      var b := BlockIndex(q, L, |W|);
      gr0[q] + GradSum(sm, xi, W[b], q - RowStart(b, L), |xi|)
    else gr0[q]
  }

  /** Gradient blocks of the first `j` frequencies are done, every other slot holds the input. */
  ghost predicate GradDone(gr: seq<real>, gr0: seq<real>, xi: seq<seq<real>>, W: seq<seq<real>>,
                           sm: seq<int>, L: nat, j: nat)
    requires |gr0| == 2 * (|W| * L) && Positions(xi, |sm|) && forall u :: 0 <= u < |W| ==> |W[u]| == |sm|
    requires j <= |W|
  {
    |gr| == |gr0| && forall q :: 0 <= q < |gr| ==> gr[q] == GradWant(gr0, xi, W, sm, L, j, q)
  }

  /** Slot `q` after writing the accumulated block of frequency `j`. */
  lemma GradSlotStep(gr: seq<real>, gr0: seq<real>, acc2: seq<real>, xi: seq<seq<real>>, W: seq<seq<real>>,
                     sm: seq<int>, L: nat, j: nat, q: nat)
    requires |gr0| == 2 * (|W| * L) && Positions(xi, |sm|) && forall u :: 0 <= u < |W| ==> |W[u]| == |sm|
    requires j < |W| && |gr| == |gr0| && q < |gr| && gr[q] == GradWant(gr0, xi, W, sm, L, j, q)
    requires RowStart(j, L) + L <= |gr| && |acc2| == L
    requires RowStart(j, L) <= q < RowStart(j, L) + L ==>
      acc2[q - RowStart(j, L)] == gr[q] + GradSum(sm, xi, W[j], q - RowStart(j, L), |xi|)
    ensures Splice(gr, RowStart(j, L), acc2)[q] == GradWant(gr0, xi, W, sm, L, j + 1, q)
  {
    var a := RowStart(j, L);
    if a <= q < a + L {
      GradWantIn(gr0, xi, W, sm, L, j, q);
      SpliceIn(gr, a, acc2, q, GradWant(gr0, xi, W, sm, L, j + 1, q));
    } else {
      GradWantOut(gr0, xi, W, sm, L, j, q);
      SpliceOut(gr, a, acc2, q);
    }
  }

  /** A slot in the block of frequency `j` is the input before that block is done and the
      input plus its products after. */
  lemma GradWantIn(gr0: seq<real>, xi: seq<seq<real>>, W: seq<seq<real>>, sm: seq<int>, L: nat, j: nat, q: nat)
    requires |gr0| == 2 * (|W| * L) && Positions(xi, |sm|) && forall u :: 0 <= u < |W| ==> |W[u]| == |sm|
    requires j < |W| && RowStart(j, L) <= q < RowStart(j, L) + L
    ensures q < |W| * L
    ensures GradWant(gr0, xi, W, sm, L, j, q) == gr0[q]
    ensures GradWant(gr0, xi, W, sm, L, j + 1, q) == gr0[q] + GradSum(sm, xi, W[j], q - RowStart(j, L), |xi|)
  {
    RowStartStep(j, L);
    BlockIndexOf(q, j, L, |W|);
  }

  /** A slot outside the block of frequency `j` is not changed by finishing that block. */
  lemma GradWantOut(gr0: seq<real>, xi: seq<seq<real>>, W: seq<seq<real>>, sm: seq<int>, L: nat, j: nat, q: nat)
    requires |gr0| == 2 * (|W| * L) && Positions(xi, |sm|) && forall u :: 0 <= u < |W| ==> |W[u]| == |sm|
    requires j < |W| && q < |gr0| && !(RowStart(j, L) <= q < RowStart(j, L) + L)
    ensures GradWant(gr0, xi, W, sm, L, j + 1, q) == GradWant(gr0, xi, W, sm, L, j, q)
  {
    RowStartStep(j, L);
  }

  /** Writing the accumulated block of frequency `j` extends the finished gradient blocks. */
  lemma GradStep(gr: seq<real>, gr0: seq<real>, acc2: seq<real>, xi: seq<seq<real>>, W: seq<seq<real>>,
                 sm: seq<int>, L: nat, j: nat)
    requires |gr0| == 2 * (|W| * L) && Positions(xi, |sm|) && forall u :: 0 <= u < |W| ==> |W[u]| == |sm|
    requires j < |W| && GradDone(gr, gr0, xi, W, sm, L, j)
    requires RowStart(j, L) + L <= |gr| && |acc2| == L
    requires forall g :: 0 <= g < L ==> acc2[g] == gr[RowStart(j, L) + g] + GradSum(sm, xi, W[j], g, |xi|)
    ensures GradDone(Splice(gr, RowStart(j, L), acc2), gr0, xi, W, sm, L, j + 1)
  {
    forall q: nat | q < |gr|
      ensures Splice(gr, RowStart(j, L), acc2)[q] == GradWant(gr0, xi, W, sm, L, j + 1, q)
    {
      var a := RowStart(j, L);
      if a <= q < a + L {
        assert a + (q - a) == q;
      }
      GradSlotStep(gr, gr0, acc2, xi, W, sm, L, j, q);
    }
  }

  /** Writing both feature columns of frequency `j` extends the finished columns. */
  lemma FeatStep(fr: seq<real>, fr0: seq<real>, xi: seq<seq<real>>, W: seq<seq<real>>, sv: seq<real>,
                 cos: real -> real, sin: real -> real, j: nat, fc: real, fs: real)
    requires |fr0| == 2 * |W| && Positions(xi, |sv|) && forall u :: 0 <= u < |W| ==> |W[u]| == |sv|
    requires j < |W| && FeatsDone(fr, fr0, xi, W, sv, cos, sin, j)
    requires fc == fr[j] + FeatGain(j, xi, W, sv, cos, sin)
    requires fs == fr[|W| + j] + FeatGain(|W| + j, xi, W, sv, cos, sin)
    ensures FeatsDone(fr[j := fc][|W| + j := fs], fr0, xi, W, sv, cos, sin, j + 1)
  {
    var F := |W|;
    var z := fr[j := fc][F + j := fs];
    forall q | 0 <= q < 2 * F
      ensures z[q] == if ColumnBefore(q, F, j + 1) then fr0[q] + FeatGain(q, xi, W, sv, cos, sin) else fr0[q]
    {
      if q == j {
        assert z[q] == fc;
      } else if q == F + j {
        assert z[q] == fs;
      } else {
        assert z[q] == fr[q];
      }
    }
  }

  /** Once every frequency is done, the feature row is the first-pass reference. */
  lemma FeatsFinal(fr: seq<real>, fr0: seq<real>, xi: seq<seq<real>>, W: seq<seq<real>>, sv: seq<real>,
                   cos: real -> real, sin: real -> real)
    requires |fr0| == 2 * |W| && Positions(xi, |sv|) && forall u :: 0 <= u < |W| ==> |W[u]| == |sv|
    requires FeatsDone(fr, fr0, xi, W, sv, cos, sin, |W|)
    ensures fr == FeatRow1(fr0, xi, W, sv, cos, sin)
  {
    var want := FeatRow1(fr0, xi, W, sv, cos, sin);
    assert forall q | 0 <= q < |fr| :: fr[q] == want[q];
  }

  /** Once every frequency is done, the gradient row is the first-pass reference. */
  lemma GradFinal(gr: seq<real>, gr0: seq<real>, xi: seq<seq<real>>, W: seq<seq<real>>, sm: seq<int>, L: nat)
    requires |gr0| == 2 * (|W| * L) && Positions(xi, |sm|) && forall u :: 0 <= u < |W| ==> |W[u]| == |sm|
    requires GradDone(gr, gr0, xi, W, sm, L, |W|)
    ensures gr == GradRow1(gr0, xi, W, sm, L)
  {
    var want := GradRow1(gr0, xi, W, sm, L);
    assert forall q | 0 <= q < |gr| :: gr[q] == want[q];
  }

  /** The first pass over one row: for each frequency, all positions. */
  method RowPass1(fr: seq<real>, gr: seq<real>, xi: seq<seq<real>>, W: seq<seq<real>>,
                  sm: seq<int>, sv: seq<real>, L: nat, cos: real -> real, sin: real -> real)
    returns (fr2: seq<real>, gr2: seq<real>)
    requires Weights(W, sm, sv, L) && Positions(xi, |sv|)
    requires |fr| == 2 * |W| && |gr| == 2 * (|W| * L)
    ensures fr2 == FeatRow1(fr, xi, W, sv, cos, sin)
    ensures gr2 == GradRow1(gr, xi, W, sm, L)
  {
    var F := |W|;
    fr2, gr2 := fr, gr;
    var j := 0;
    while j < F
      invariant j <= F
      invariant FeatsDone(fr2, fr, xi, W, sv, cos, sin, j)
      invariant GradDone(gr2, gr, xi, W, sm, L, j)
    {
      var a := RowStart(j, L);
      assert a + L <= F * L by {
        RowStartStep(j, L);
        MulMono(j + 1, F, L);
      }
      var acc2, fc, fs := FreqPass(gr2[a..a + L], fr2[j], fr2[F + j], sm, sv, xi, W[j], cos, sin);
      GradStep(gr2, gr, acc2, xi, W, sm, L, j);
      assert FeatGain(j, xi, W, sv, cos, sin) == TrigSum(cos, sv, xi, W[j], |xi|);
      assert FeatGain(F + j, xi, W, sv, cos, sin) == TrigSum(sin, sv, xi, W[j], |xi|);
      FeatStep(fr2, fr, xi, W, sv, cos, sin, j, fc, fs);
      gr2 := Splice(gr2, a, acc2);
      fr2 := fr2[j := fc][F + j := fs];
      j := j + 1;
    }
    FeatsFinal(fr2, fr, xi, W, sv, cos, sin);
    GradFinal(gr2, gr, xi, W, sm, L);
  }

  // ---------------------------------------------------------------------
  // Second pass

  /** Slot `q` once the first `n` slots of the block at `a` are split: the slot itself holds
      `-sinVal` times its value and the slot `FL` further on `cosVal` times it. */
  function SplitSlot(g: seq<real>, a: nat, FL: nat, n: nat, sinVal: real, cosVal: real, q: nat): real
    requires q < |g|
  {
    if a <= q < a + n then -sinVal * g[q]
    else if a + FL <= q < a + FL + n then cosVal * g[q - FL]
    else g[q]
  }

  /** The innermost loop of the second pass at one frequency: each of the `L` accumulated
      slots from `a` is replaced by `-sinVal` times its value, and the slot `FL` further on
      receives `cosVal` times the same value. */
  method Pass2Block(g: seq<real>, a: nat, FL: nat, L: nat, sinVal: real, cosVal: real) returns (g2: seq<real>)
    requires a + L <= FL && |g| == 2 * FL
    ensures |g2| == |g|
    ensures forall q :: 0 <= q < |g| ==> g2[q] == SplitSlot(g, a, FL, L, sinVal, cosVal, q)
  {
    g2 := g;
    var k := 0;
    while k < L
      invariant k <= L && |g2| == |g|
      invariant forall q :: 0 <= q < |g| ==> g2[q] == SplitSlot(g, a, FL, k, sinVal, cosVal, q)
    {
      var p := a + k;
      var gradVal := g2[p];
      assert gradVal == g[p];
      g2 := g2[p := -sinVal * gradVal][p + FL := cosVal * gradVal];
      k := k + 1;
    }
  }

  /** Slot `q` of a gradient row whose first half has `FL` slots lies in one of the blocks
      already rewritten when the first `a` slots of each half are done. */
  predicate SlotBefore(q: nat, FL: nat, a: nat)
  {
    if q < FL then q < a else q - FL < a
  }

  /** Features of the first `j` frequencies are scaled, the others hold the first-pass values. */
  ghost predicate FeatsScaled(f: seq<real>, f1: seq<real>, F: nat, c: real, j: nat)
  {
    |f| == |f1| && forall q :: 0 <= q < |f1| ==> f[q] == if ColumnBefore(q, F, j) then f1[q] * c else f1[q]
  }

  /** Gradient blocks of the first `j` frequencies are rewritten, the others hold the first-pass values. */
  ghost predicate GradScaled(g: seq<real>, f1: seq<real>, g1: seq<real>, F: nat, L: nat, c: real, j: nat)
    requires |f1| == 2 * F && |g1| == 2 * (F * L)
  {
    |g| == |g1| && forall q :: 0 <= q < |g1| ==>
      g[q] == if SlotBefore(q, F * L, RowStart(j, L)) then GradSlot2(q, f1, g1, F, L, c) else g1[q]
  }

  /** Rewriting block `j` extends the finished gradient blocks. */
  lemma GradScaledStep(g: seq<real>, g2: seq<real>, f1: seq<real>, g1: seq<real>, F: nat, L: nat, c: real, j: nat)
    requires |f1| == 2 * F && |g1| == 2 * (F * L) && j < F
    requires GradScaled(g, f1, g1, F, L, c, j)
    requires RowStart(j, L) + L <= F * L && |g2| == |g|
    requires forall q :: 0 <= q < |g| ==> g2[q] == SplitSlot(g, RowStart(j, L), F * L, L, f1[F + j] * c, f1[j] * c, q)
    ensures GradScaled(g2, f1, g1, F, L, c, j + 1)
  {
    var a, FL := RowStart(j, L), F * L;
    RowStartStep(j, L);
    forall q | 0 <= q < |g1|
      ensures g2[q] == if SlotBefore(q, FL, RowStart(j + 1, L)) then GradSlot2(q, f1, g1, F, L, c) else g1[q]
    {
      if a <= q < a + L {
        BlockIndexOf(q, j, L, F);
      } else if a + FL <= q < a + FL + L {
        BlockIndexOf(q - FL, j, L, F);
      }
    }
  }

  /** The second pass over one row: each feature is scaled once by the norm constant, and
      each accumulated gradient slot is split into its sine and cosine parts. */
  method RowPass2(f1: seq<real>, g1: seq<real>, F: nat, L: nat, c: real) returns (f2: seq<real>, g2: seq<real>)
    requires |f1| == 2 * F && |g1| == 2 * (F * L)
    ensures f2 == FeatRow2(f1, c)
    ensures g2 == GradRow2(f1, g1, F, L, c)
  {
    f2, g2 := f1, g1;
    var j := 0;
    while j < F
      invariant j <= F
      invariant FeatsScaled(f2, f1, F, c, j)
      invariant GradScaled(g2, f1, g1, F, L, c, j)
    {
      var cosVal := f2[j] * c;
      var sinVal := f2[F + j] * c;
      f2 := f2[j := cosVal][F + j := sinVal];
      var a := RowStart(j, L);
      assert a + L <= F * L by {
        RowStartStep(j, L);
        MulMono(j + 1, F, L);
      }
      var g3 := Pass2Block(g2, a, F * L, L, sinVal, cosVal);
      GradScaledStep(g2, g3, f1, g1, F, L, c, j);
      g2 := g3;
      j := j + 1;
    }
    var wantF, wantG := FeatRow2(f1, c), GradRow2(f1, g1, F, L, c);
    assert forall q | 0 <= q < |f2| :: f2[q] == wantF[q];
    assert forall q | 0 <= q < |g2| :: g2[q] == wantG[q];
  }

  // ---------------------------------------------------------------------
  // One thread

  /** Every sample has positions of `d` features each. */
  predicate Samples(x: seq<seq<seq<real>>>, d: nat)
  {
    forall i :: 0 <= i < |x| ==> Positions(x[i], d)
  }

  /** Row `i` of a flat array with `|x|` rows of `rs` elements fits in the array. */
  lemma RowFits(i: nat, n: nat, rs: nat)
    requires i < n
    ensures RowStart(i, rs) + rs <= RowStart(n, rs)
  {
    RowsBefore(i, n, rs);
  }

  /** The loop state of a pass over rows `[startRow, idx)`: feature rows of `rf` elements are
      mapped by `pf`, gradient rows of `rg` elements by `pg`, nothing else has changed. */
  ghost predicate PassDone(feats2: seq<real>, grad2: seq<real>, feats: seq<real>, grad: seq<real>,
                           rf: nat, rg: nat, startRow: nat, idx: nat,
                           pf: (nat, seq<real>) -> seq<real>, pg: (nat, seq<real>) -> seq<real>)
  {
    RowsMapped(feats2, feats, startRow, idx, rf, pf)
    && RowsMapped(grad2, grad, startRow, idx, rg, pg)
    && SameOutside(feats2, feats, RowStart(startRow, rf), RowStart(idx, rf))
    && SameOutside(grad2, grad, RowStart(startRow, rg), RowStart(idx, rg))
  }

  /** One row of the first pass. */
  method Pass1Row(feats: seq<real>, grad: seq<real>, fe: seq<real>, gr: seq<real>, x: seq<seq<seq<real>>>,
                  W: seq<seq<real>>, sm: seq<int>, sv: seq<real>, L: nat, cos: real -> real, sin: real -> real,
                  startRow: nat, idx: nat, p1f: (nat, seq<real>) -> seq<real>, p1g: (nat, seq<real>) -> seq<real>)
    returns (fe2: seq<real>, gr2: seq<real>)
    requires Weights(W, sm, sv, L) && Samples(x, |sv|) && startRow <= idx < |x|
    requires |feats| == RowStart(|x|, 2 * |W|) && |grad| == RowStart(|x|, 2 * (|W| * L))
    requires forall i, r :: startRow <= i <= idx && |r| == 2 * |W| ==> p1f(i, r) == FeatRow1(r, x[i], W, sv, cos, sin)
    requires forall i, r :: startRow <= i <= idx && |r| == 2 * (|W| * L) ==> p1g(i, r) == GradRow1(r, x[i], W, sm, L)
    requires PassDone(fe, gr, feats, grad, 2 * |W|, 2 * (|W| * L), startRow, idx, p1f, p1g)
    ensures PassDone(fe2, gr2, feats, grad, 2 * |W|, 2 * (|W| * L), startRow, idx + 1, p1f, p1g)
  {
    var rf, rg := 2 * |W|, 2 * (|W| * L);
    var af, ag := RowStart(idx, rf), RowStart(idx, rg);
    assert RowStart(idx + 1, rf) <= |fe| && RowStart(idx + 1, rg) <= |gr|
        && af + rf <= |fe| && ag + rg <= |gr| by {
      RowFits(idx, |x|, rf);
      RowFits(idx, |x|, rg);
      RowStartStep(idx, rf);
      RowStartStep(idx, rg);
    }
    var fr, gw := RowPass1(fe[af..af + rf], gr[ag..ag + rg], x[idx], W, sm, sv, L, cos, sin);
    MapNextRow(feats, fe, fr, startRow, idx, rf, p1f);
    MapNextRow(grad, gr, gw, startRow, idx, rg, p1g);
    fe2 := Splice(fe, af, fr);
    gr2 := Splice(gr, ag, gw);
  }

  /** The row loop of the first pass, for any row maps that agree with the first-pass references. */
  method Pass1Loop(feats: seq<real>, grad: seq<real>, x: seq<seq<seq<real>>>, W: seq<seq<real>>,
                   sm: seq<int>, sv: seq<real>, L: nat, cos: real -> real, sin: real -> real,
                   startRow: nat, endRow: nat, p1f: (nat, seq<real>) -> seq<real>, p1g: (nat, seq<real>) -> seq<real>)
    returns (fe: seq<real>, gr: seq<real>, last: nat)
    requires Weights(W, sm, sv, L) && Samples(x, |sv|) && endRow <= |x|
    requires |feats| == RowStart(|x|, 2 * |W|) && |grad| == RowStart(|x|, 2 * (|W| * L))
    requires forall i, r :: startRow <= i < endRow && |r| == 2 * |W| ==> p1f(i, r) == FeatRow1(r, x[i], W, sv, cos, sin)
    requires forall i, r :: startRow <= i < endRow && |r| == 2 * (|W| * L) ==> p1g(i, r) == GradRow1(r, x[i], W, sm, L)
    ensures last == if startRow <= endRow then endRow else startRow
    ensures PassDone(fe, gr, feats, grad, 2 * |W|, 2 * (|W| * L), startRow, last, p1f, p1g)
  {
    fe, gr := feats, grad;
    last := startRow;
    while last < endRow
      invariant startRow <= last && (last <= endRow || last == startRow)
      invariant PassDone(fe, gr, feats, grad, 2 * |W|, 2 * (|W| * L), startRow, last, p1f, p1g)
    {
      fe, gr := Pass1Row(feats, grad, fe, gr, x, W, sm, sv, L, cos, sin, startRow, last, p1f, p1g);
      last := last + 1;
    }
  }

  /** The first pass over rows `[startRow, endRow)`. */
  method Pass1Rows(feats: seq<real>, grad: seq<real>, x: seq<seq<seq<real>>>, W: seq<seq<real>>,
                   sm: seq<int>, sv: seq<real>, L: nat, cos: real -> real, sin: real -> real,
                   startRow: nat, endRow: nat)
    returns (fe: seq<real>, gr: seq<real>)
    requires Weights(W, sm, sv, L) && Samples(x, |sv|) && endRow <= |x|
    requires |feats| == RowStart(|x|, 2 * |W|) && |grad| == RowStart(|x|, 2 * (|W| * L))
    ensures SameOutside(fe, feats, RowStart(startRow, 2 * |W|), RowStart(endRow, 2 * |W|))
    ensures SameOutside(gr, grad, RowStart(startRow, 2 * (|W| * L)), RowStart(endRow, 2 * (|W| * L)))
    ensures forall i :: startRow <= i < endRow ==>
      |Row(feats, i, 2 * |W|)| == 2 * |W| && |Row(grad, i, 2 * (|W| * L))| == 2 * (|W| * L)
      && Row(fe, i, 2 * |W|) == FeatRow1(Row(feats, i, 2 * |W|), x[i], W, sv, cos, sin)
      && Row(gr, i, 2 * (|W| * L)) == GradRow1(Row(grad, i, 2 * (|W| * L)), x[i], W, sm, L)
  {
    var rf, rg := 2 * |W|, 2 * (|W| * L);
    var p1f := (i: nat, r: seq<real>) =>
      if i < |x| && |r| == rf then FeatRow1(r, x[i], W, sv, cos, sin) else r;
    var p1g := (i: nat, r: seq<real>) =>
      if i < |x| && |r| == rg then GradRow1(r, x[i], W, sm, L) else r;
    var last;
    fe, gr, last := Pass1Loop(feats, grad, x, W, sm, sv, L, cos, sin, startRow, endRow, p1f, p1g);
    forall i: nat | startRow <= i < endRow
      ensures |Row(feats, i, rf)| == rf && |Row(grad, i, rg)| == rg
      ensures Row(fe, i, rf) == FeatRow1(Row(feats, i, rf), x[i], W, sv, cos, sin)
      ensures Row(gr, i, rg) == GradRow1(Row(grad, i, rg), x[i], W, sm, L)
    {
      RowFits(i, |x|, rf);
      RowFits(i, |x|, rg);
      assert Row(fe, i, rf) == p1f(i, Row(feats, i, rf));
      assert Row(gr, i, rg) == p1g(i, Row(grad, i, rg));
    }
  }

  /** One row of the second pass. */
  method Pass2Row(fe: seq<real>, gr: seq<real>, feats2: seq<real>, grad2: seq<real>, n: nat, F: nat, L: nat,
                  c: real, startRow: nat, idx: nat,
                  p2f: (nat, seq<real>) -> seq<real>, p2g: (nat, seq<real>) -> seq<real>)
    returns (feats3: seq<real>, grad3: seq<real>)
    requires startRow <= idx < n && |fe| == RowStart(n, 2 * F) && |gr| == RowStart(n, 2 * (F * L))
    requires forall i, r :: startRow <= i <= idx && |r| == 2 * F ==> p2f(i, r) == FeatRow2(r, c)
    requires forall i, r :: startRow <= i <= idx && |r| == 2 * (F * L) ==>
      |Row(fe, i, 2 * F)| == 2 * F && p2g(i, r) == GradRow2(Row(fe, i, 2 * F), r, F, L, c)
    requires PassDone(feats2, grad2, fe, gr, 2 * F, 2 * (F * L), startRow, idx, p2f, p2g)
    ensures PassDone(feats3, grad3, fe, gr, 2 * F, 2 * (F * L), startRow, idx + 1, p2f, p2g)
  {
    var rf, rg := 2 * F, 2 * (F * L);
    var af, ag := RowStart(idx, rf), RowStart(idx, rg);
    assert RowStart(idx + 1, rf) <= |fe| && RowStart(idx + 1, rg) <= |gr|
        && af + rf <= |fe| && ag + rg <= |gr| by {
      RowFits(idx, n, rf);
      RowFits(idx, n, rg);
      RowStartStep(idx, rf);
      RowStartStep(idx, rg);
    }
    var fr, gw := RowPass2(feats2[af..af + rf], grad2[ag..ag + rg], F, L, c);
    RowUntouched(fe, feats2, startRow, idx, rf);
    MapNextRow(fe, feats2, fr, startRow, idx, rf, p2f);
    MapNextRow(gr, grad2, gw, startRow, idx, rg, p2g);
    feats3 := Splice(feats2, af, fr);
    grad3 := Splice(grad2, ag, gw);
  }

  /** The row loop of the second pass, for any row maps that agree with the second-pass references. */
  method Pass2Loop(fe: seq<real>, gr: seq<real>, n: nat, F: nat, L: nat, c: real, startRow: nat, endRow: nat,
                   p2f: (nat, seq<real>) -> seq<real>, p2g: (nat, seq<real>) -> seq<real>)
    returns (feats2: seq<real>, grad2: seq<real>, last: nat)
    requires endRow <= n && |fe| == RowStart(n, 2 * F) && |gr| == RowStart(n, 2 * (F * L))
    requires forall i, r :: startRow <= i < endRow && |r| == 2 * F ==> p2f(i, r) == FeatRow2(r, c)
    requires forall i, r :: startRow <= i < endRow && |r| == 2 * (F * L) ==>
      |Row(fe, i, 2 * F)| == 2 * F && p2g(i, r) == GradRow2(Row(fe, i, 2 * F), r, F, L, c)
    ensures last == if startRow <= endRow then endRow else startRow
    ensures PassDone(feats2, grad2, fe, gr, 2 * F, 2 * (F * L), startRow, last, p2f, p2g)
  {
    feats2, grad2 := fe, gr;
    last := startRow;
    while last < endRow
      invariant startRow <= last && (last <= endRow || last == startRow)
      invariant PassDone(feats2, grad2, fe, gr, 2 * F, 2 * (F * L), startRow, last, p2f, p2g)
    {
      feats2, grad2 := Pass2Row(fe, gr, feats2, grad2, n, F, L, c, startRow, last, p2f, p2g);
      last := last + 1;
    }
  }

  /** The second pass over rows `[startRow, endRow)` of `n` rows. */
  method Pass2Rows(fe: seq<real>, gr: seq<real>, n: nat, F: nat, L: nat, c: real, startRow: nat, endRow: nat)
    returns (feats2: seq<real>, grad2: seq<real>)
    requires endRow <= n && |fe| == RowStart(n, 2 * F) && |gr| == RowStart(n, 2 * (F * L))
    ensures SameOutside(feats2, fe, RowStart(startRow, 2 * F), RowStart(endRow, 2 * F))
    ensures SameOutside(grad2, gr, RowStart(startRow, 2 * (F * L)), RowStart(endRow, 2 * (F * L)))
    ensures forall i :: startRow <= i < endRow ==> Row(feats2, i, 2 * F) == FeatRow2(Row(fe, i, 2 * F), c)
    ensures forall i :: startRow <= i < endRow ==>
      |Row(fe, i, 2 * F)| == 2 * F && |Row(gr, i, 2 * (F * L))| == 2 * (F * L)
      && Row(grad2, i, 2 * (F * L)) == GradRow2(Row(fe, i, 2 * F), Row(gr, i, 2 * (F * L)), F, L, c)
  {
    var rf, rg := 2 * F, 2 * (F * L);
    var p2f := (i: nat, r: seq<real>) => FeatRow2(r, c);
    var p2g := (i: nat, r: seq<real>) =>
      if |Row(fe, i, rf)| == rf && |r| == rg then GradRow2(Row(fe, i, rf), r, F, L, c) else r;
    forall i: nat | startRow <= i < endRow
      ensures |Row(fe, i, rf)| == rf && |Row(gr, i, rg)| == rg
    {
      RowFits(i, n, rf);
      RowFits(i, n, rg);
    }
    var last;
    feats2, grad2, last := Pass2Loop(fe, gr, n, F, L, c, startRow, endRow, p2f, p2g);
    forall i: nat | startRow <= i < endRow
      ensures Row(feats2, i, rf) == FeatRow2(Row(fe, i, rf), c)
      ensures Row(grad2, i, rg) == GradRow2(Row(fe, i, rf), Row(gr, i, rg), F, L, c)
    {
      assert Row(feats2, i, rf) == p2f(i, Row(fe, i, rf));
      assert Row(grad2, i, rg) == p2g(i, Row(gr, i, rg));
    }
  }

  /** `doubleGraphARDGradCalcs` on rows `[startRow, endRow)`: the first pass accumulates the
      summed cosines and sines into the features and the summed partial products into the
      gradient; the second pass scales the features and splits each gradient slot into its
      sine and cosine parts. Outside those rows, neither array changes. */
  method Worker(feats: seq<real>, grad: seq<real>, x: seq<seq<seq<real>>>, W: seq<seq<real>>,
                sm: seq<int>, sv: seq<real>, L: nat, c: real, cos: real -> real, sin: real -> real,
                startRow: nat, endRow: nat)
    returns (feats2: seq<real>, grad2: seq<real>)
    requires Weights(W, sm, sv, L) && Samples(x, |sv|) && endRow <= |x|
    requires |feats| == RowStart(|x|, 2 * |W|) && |grad| == RowStart(|x|, 2 * (|W| * L))
    ensures SameOutside(feats2, feats, RowStart(startRow, 2 * |W|), RowStart(endRow, 2 * |W|))
    ensures SameOutside(grad2, grad, RowStart(startRow, 2 * (|W| * L)), RowStart(endRow, 2 * (|W| * L)))
    ensures forall i :: startRow <= i < endRow ==>
      |Row(feats, i, 2 * |W|)| == 2 * |W| && |Row(grad, i, 2 * (|W| * L))| == 2 * (|W| * L)
      && Row(feats2, i, 2 * |W|) == FeatRow2(FeatRow1(Row(feats, i, 2 * |W|), x[i], W, sv, cos, sin), c)
      && Row(grad2, i, 2 * (|W| * L))
         == GradRow2(FeatRow1(Row(feats, i, 2 * |W|), x[i], W, sv, cos, sin),
                     GradRow1(Row(grad, i, 2 * (|W| * L)), x[i], W, sm, L), |W|, L, c)
  {
    var fe, gr := Pass1Rows(feats, grad, x, W, sm, sv, L, cos, sin, startRow, endRow);
    feats2, grad2 := Pass2Rows(fe, gr, |x|, |W|, L, c, startRow, endRow);
  }

  // ---------------------------------------------------------------------
  // Closed forms

  /** Column `j` and column `F + j` of the feature row after the first pass. */
  lemma FeatRow1At(fr: seq<real>, xi: seq<seq<real>>, W: seq<seq<real>>, sm: seq<int>,
                   sv: seq<real>, L: nat, cos: real -> real, sin: real -> real, j: nat)
    requires Weights(W, sm, sv, L) && Positions(xi, |sv|)
    requires |fr| == 2 * |W| && j < |W|
    ensures FeatRow1(fr, xi, W, sv, cos, sin)[j] == fr[j] + TrigSum(cos, sv, xi, W[j], |xi|)
    ensures FeatRow1(fr, xi, W, sv, cos, sin)[|W| + j] == fr[|W| + j] + TrigSum(sin, sv, xi, W[j], |xi|)
  {
    FeatRow1Col(fr, xi, W, sv, cos, sin, j);
    FeatRow1Col(fr, xi, W, sv, cos, sin, |W| + j);
    FeatGainAt(xi, W, sv, cos, sin, j);
  }

  /** Column `q` of the feature row after the first pass is its entry value plus `FeatGain`. */
  lemma FeatRow1Col(fr: seq<real>, xi: seq<seq<real>>, W: seq<seq<real>>, sv: seq<real>,
                    cos: real -> real, sin: real -> real, q: nat)
    requires |fr| == 2 * |W| && Positions(xi, |sv|) && forall u :: 0 <= u < |W| ==> |W[u]| == |sv|
    requires q < |fr|
    ensures FeatRow1(fr, xi, W, sv, cos, sin)[q] == fr[q] + FeatGain(q, xi, W, sv, cos, sin)
  {
  }

  /** The gain of column `j` is the cosine sum of frequency `j`, that of column `F + j` its sine sum. */
  lemma FeatGainAt(xi: seq<seq<real>>, W: seq<seq<real>>, sv: seq<real>, cos: real -> real, sin: real -> real, j: nat)
    requires Positions(xi, |sv|) && forall u :: 0 <= u < |W| ==> |W[u]| == |sv|
    requires j < |W|
    ensures FeatGain(j, xi, W, sv, cos, sin) == TrigSum(cos, sv, xi, W[j], |xi|)
    ensures FeatGain(|W| + j, xi, W, sv, cos, sin) == TrigSum(sin, sv, xi, W[j], |xi|)
  {
    assert |W| + j - |W| == j;
  }

  /** Gradient slot `j * L + g` after the first pass gained the lengthscale-`g` products of
      weight row `j`; its partner `F * L` further on is untouched. */
  lemma GradRow1At(gr: seq<real>, xi: seq<seq<real>>, W: seq<seq<real>>, sm: seq<int>,
                   sv: seq<real>, L: nat, j: nat, g: nat)
    requires Weights(W, sm, sv, L) && Positions(xi, |sv|)
    requires |gr| == 2 * (|W| * L) && j < |W| && g < L
    ensures RowStart(j, L) + g < |W| * L
    ensures GradRow1(gr, xi, W, sm, L)[RowStart(j, L) + g] == gr[RowStart(j, L) + g] + GradSum(sm, xi, W[j], g, |xi|)
    ensures GradRow1(gr, xi, W, sm, L)[|W| * L + RowStart(j, L) + g] == gr[|W| * L + RowStart(j, L) + g]
  {
    BlockIndexOf(RowStart(j, L) + g, j, L, |W|);
  }

  /** Column `q` of the feature row after the second pass. */
  lemma FeatRow2At(f1: seq<real>, c: real, q: nat)
    requires q < |f1|
    ensures FeatRow2(f1, c)[q] == f1[q] * c
  {
  }

  /** Gradient slots `j * L + g` and `F * L + j * L + g` after the second pass: minus the
      scaled sine feature, and the scaled cosine feature, of frequency `j` times the value the
      first slot held after the first pass. */
  lemma GradRow2At(f1: seq<real>, g1: seq<real>, F: nat, L: nat, c: real, j: nat, g: nat)
    requires |f1| == 2 * F && |g1| == 2 * (F * L) && j < F && g < L
    ensures RowStart(j, L) + g < F * L
    ensures GradRow2(f1, g1, F, L, c)[RowStart(j, L) + g] == -(f1[F + j] * c) * g1[RowStart(j, L) + g]
    ensures GradRow2(f1, g1, F, L, c)[F * L + RowStart(j, L) + g] == (f1[j] * c) * g1[RowStart(j, L) + g]
  {
    var q := RowStart(j, L) + g;
    BlockIndexOf(q, j, L, F);
    assert F * L + q - F * L == q;
  }

  /** With feature and gradient rows that are zero on entry, as the caller allocates them, the
      first pass leaves the plain sums of cosines and sines in the feature columns of frequency
      `j`, the summed partial products of lengthscale `g` in gradient slot `j * L + g`, and zero
      in its partner slot; `SecondPassSlots` then gives the final values. */
  lemma ZeroEntryFirstPass(fr: seq<real>, gr: seq<real>, xi: seq<seq<real>>, W: seq<seq<real>>, sm: seq<int>,
                           sv: seq<real>, L: nat, cos: real -> real, sin: real -> real, j: nat, g: nat)
    requires Weights(W, sm, sv, L) && Positions(xi, |sv|)
    requires |fr| == 2 * |W| && |gr| == 2 * (|W| * L) && j < |W| && g < L
    requires forall q :: 0 <= q < |fr| ==> fr[q] == 0.0
    requires forall q :: 0 <= q < |gr| ==> gr[q] == 0.0
    ensures RowStart(j, L) + g < |W| * L
    ensures FeatRow1(fr, xi, W, sv, cos, sin)[j] == TrigSum(cos, sv, xi, W[j], |xi|)
    ensures FeatRow1(fr, xi, W, sv, cos, sin)[|W| + j] == TrigSum(sin, sv, xi, W[j], |xi|)
    ensures GradRow1(gr, xi, W, sm, L)[RowStart(j, L) + g] == GradSum(sm, xi, W[j], g, |xi|)
    ensures GradRow1(gr, xi, W, sm, L)[|W| * L + RowStart(j, L) + g] == 0.0
  {
    var q := RowStart(j, L) + g;
    FeatRow1At(fr, xi, W, sm, sv, L, cos, sin, j);
    GradRow1At(gr, xi, W, sm, sv, L, j, g);
    assert fr[j] == 0.0 && fr[|W| + j] == 0.0 && gr[q] == 0.0 && gr[|W| * L + q] == 0.0;
  }

  /** The second pass in terms of the first pass's values: a cosine feature `tc`, a sine
      feature `ts` and a gradient slot `gs` of frequency `j` become `tc * c`, `ts * c`,
      `-(ts * c) * gs` and `(tc * c) * gs`. */
  lemma SecondPassSlots(f1: seq<real>, g1: seq<real>, F: nat, L: nat, c: real, j: nat, g: nat,
                        tc: real, ts: real, gs: real)
    requires |f1| == 2 * F && |g1| == 2 * (F * L) && j < F && g < L
    requires RowStart(j, L) + g < F * L
    requires f1[j] == tc && f1[F + j] == ts && g1[RowStart(j, L) + g] == gs
    ensures FeatRow2(f1, c)[j] == tc * c
    ensures FeatRow2(f1, c)[F + j] == ts * c
    ensures GradRow2(f1, g1, F, L, c)[RowStart(j, L) + g] == -(ts * c) * gs
    ensures GradRow2(f1, g1, F, L, c)[F * L + RowStart(j, L) + g] == (tc * c) * gs
  {
    FeatRow2At(f1, c, j);
    FeatRow2At(f1, c, F + j);
    GradRow2At(f1, g1, F, L, c, j, g);
  }
}
