/** The graph ARD gradient entry point `graphARDDoubleGrad_`: the batch is split into
    contiguous row ranges, one thread per range runs the worker, and the call reports
    whether allocation, thread creation and every join succeeded. The threads write
    disjoint rows, so running them one after another in thread order gives the same
    arrays as any interleaving. */
module ArdEntry {
  import opened Arith
  import opened Rows
  import opened ArdPlan
  import opened ArdWorker

  /** What both passes leave in feature row `i`, given its entry value `r`. */
  function FeatFinal(r: seq<real>, xi: seq<seq<real>>, W: seq<seq<real>>, sv: seq<real>, c: real,
                     cos: real -> real, sin: real -> real): (f: seq<real>)
    requires |r| == 2 * |W| && Positions(xi, |sv|) && forall j :: 0 <= j < |W| ==> |W[j]| == |sv|
    ensures |f| == |r|
  {
    FeatRow2(FeatRow1(r, xi, W, sv, cos, sin), c)
  }

  /** What both passes leave in gradient row `i`, given the entry values `fr` and `r` of its
      feature and gradient rows. */
  function GradFinal(fr: seq<real>, r: seq<real>, xi: seq<seq<real>>, W: seq<seq<real>>, sm: seq<int>,
                     sv: seq<real>, L: nat, c: real, cos: real -> real, sin: real -> real): (g: seq<real>)
    requires Weights(W, sm, sv, L) && Positions(xi, |sv|)
    requires |fr| == 2 * |W| && |r| == 2 * (|W| * L)
    ensures |g| == |r|
  {
    GradRow2(FeatRow1(fr, xi, W, sv, cos, sin), GradRow1(r, xi, W, sm, L), |W|, L, c)
  }

  /** The state after the threads that own rows `[0, done)`: those rows of both arrays hold
      their final values (as `pf`, `pg` give them), and nothing after them has changed. */
  ghost predicate ThreadsDone(fe: seq<real>, gr: seq<real>, feats: seq<real>, grad: seq<real>,
                              rf: nat, rg: nat, done: nat,
                              pf: (nat, seq<real>) -> seq<real>, pg: (nat, seq<real>) -> seq<real>)
  {
    RowsMapped(fe, feats, 0, done, rf, pf) && RowsMapped(gr, grad, 0, done, rg, pg)
    && SameOutside(fe, feats, 0, RowStart(done, rf)) && SameOutside(gr, grad, 0, RowStart(done, rg))
  }

  /** One thread over rows `[lo, hi)`, run after the threads that own `[0, done)`. A thread
      whose range is empty changes nothing. */
  method RunThread(feats: seq<real>, grad: seq<real>, fe: seq<real>, gr: seq<real>, x: seq<seq<seq<real>>>,
                   W: seq<seq<real>>, sm: seq<int>, sv: seq<real>, L: nat, c: real,
                   cos: real -> real, sin: real -> real, done: nat, lo: nat, hi: nat,
                   pf: (nat, seq<real>) -> seq<real>, pg: (nat, seq<real>) -> seq<real>)
    returns (fe2: seq<real>, gr2: seq<real>, done2: nat)
    requires Weights(W, sm, sv, L) && Samples(x, |sv|) && hi <= |x| && done <= hi
    requires lo == done || hi <= lo
    requires |feats| == RowStart(|x|, 2 * |W|) && |grad| == RowStart(|x|, 2 * (|W| * L))
    requires forall i, r :: 0 <= i < |x| && |r| == 2 * |W| ==>
      pf(i, r) == FeatFinal(r, x[i], W, sv, c, cos, sin)
    requires forall i, r :: 0 <= i < |x| && |r| == 2 * (|W| * L) ==>
      |Row(feats, i, 2 * |W|)| == 2 * |W|
      && pg(i, r) == GradFinal(Row(feats, i, 2 * |W|), r, x[i], W, sm, sv, L, c, cos, sin)
    requires ThreadsDone(fe, gr, feats, grad, 2 * |W|, 2 * (|W| * L), done, pf, pg)
    ensures done2 == if lo < hi then hi else done
    ensures ThreadsDone(fe2, gr2, feats, grad, 2 * |W|, 2 * (|W| * L), done2, pf, pg)
  {
    var rf, rg := 2 * |W|, 2 * (|W| * L);
    fe2, gr2 := Worker(fe, gr, x, W, sm, sv, L, c, cos, sin, lo, hi);
    done2 := if lo < hi then hi else done;
    forall i: nat | 0 <= i < done2
      ensures Row(fe2, i, rf) == pf(i, Row(feats, i, rf))
    {
      RowFits(i, |x|, rf);
      if i < lo || hi <= i {
        RowOutside(fe, fe2, lo, hi, i, rf);
      } else {
        RowOutside(feats, fe, 0, done, i, rf);
      }
    }
    forall i: nat | 0 <= i < done2
      ensures Row(gr2, i, rg) == pg(i, Row(grad, i, rg))
    {
      RowFits(i, |x|, rf);
      RowFits(i, |x|, rg);
      if i < lo || hi <= i {
        RowOutside(gr, gr2, lo, hi, i, rg);
      } else {
        RowOutside(feats, fe, 0, done, i, rf);
        RowOutside(grad, gr, 0, done, i, rg);
      }
    }
    assert SameOutside(fe2, feats, 0, RowStart(done2, rf)) && SameOutside(gr2, grad, 0, RowStart(done2, rg)) by {
      if lo < hi {
        MulMono(lo, hi, rf);
        MulMono(lo, hi, rg);
      } else {
        MulMono(hi, lo, rf);
        MulMono(hi, lo, rg);
        MulMono(done, hi, rf);
        MulMono(done, hi, rg);
      }
      SameOutsideChain(feats, fe, fe2, 0, RowStart(done, rf), RowStart(lo, rf), RowStart(hi, rf));
      SameOutsideChain(grad, gr, gr2, 0, RowStart(done, rg), RowStart(lo, rg), RowStart(hi, rg));
    }
  }

  /** The threads of `ThreadRanges`, each run after the ones before it, finish every row. */
  method RunThreads(feats: seq<real>, grad: seq<real>, x: seq<seq<seq<real>>>, W: seq<seq<real>>,
                    sm: seq<int>, sv: seq<real>, L: nat, c: real, cos: real -> real, sin: real -> real,
                    numThreads: nat, pf: (nat, seq<real>) -> seq<real>, pg: (nat, seq<real>) -> seq<real>)
    returns (feats2: seq<real>, grad2: seq<real>)
    requires Weights(W, sm, sv, L) && Samples(x, |sv|) && numThreads >= 1 && |x| >= 1
    requires |feats| == RowStart(|x|, 2 * |W|) && |grad| == RowStart(|x|, 2 * (|W| * L))
    requires forall i, r :: 0 <= i < |x| && |r| == 2 * |W| ==>
      pf(i, r) == FeatFinal(r, x[i], W, sv, c, cos, sin)
    requires forall i, r :: 0 <= i < |x| && |r| == 2 * (|W| * L) ==>
      |Row(feats, i, 2 * |W|)| == 2 * |W|
      && pg(i, r) == GradFinal(Row(feats, i, 2 * |W|), r, x[i], W, sm, sv, L, c, cos, sin)
    ensures ThreadsDone(feats2, grad2, feats, grad, 2 * |W|, 2 * (|W| * L), |x|, pf, pg)
  {
    var dim0 := |x|;
    var ranges := ThreadRanges(dim0, numThreads);
    var chunk := ChunkSize(dim0, numThreads);
    var t, start, done := 0, 0, 0;
    feats2, grad2 := feats, grad;
    while t < |ranges|
      invariant t <= |ranges| && start == RowStart(t, chunk) && done == if start > dim0 then dim0 else start
      invariant ThreadsDone(feats2, grad2, feats, grad, 2 * |W|, 2 * (|W| * L), done, pf, pg)
    {
      RangeAt(dim0, numThreads, t, start);
      var r := ranges[t];
      feats2, grad2, done := RunThread(feats, grad, feats2, grad2, x, W, sm, sv, L, c, cos, sin,
                                       done, r.start, r.end, pf, pg);
      t, start := t + 1, start + chunk;
    }
    RangesCover(dim0, numThreads);
  }

  /** `graphARDDoubleGrad_` with the thread count clamped to the batch, the batch split into
      the ranges of `ThreadRanges`, and the environment's answers as parameters: whether the
      argument allocation succeeded, whether each thread creation succeeded and each join's
      flag. It reports `NoError` exactly when all of those succeeded, and then every row of
      both arrays holds what the two passes compute from its entry values. An empty batch
      starts no thread. */
  method GraphArdGrad(feats: seq<real>, grad: seq<real>, x: seq<seq<seq<real>>>, W: seq<seq<real>>,
                      sm: seq<int>, sv: seq<real>, L: nat, c: real, cos: real -> real, sin: real -> real,
                      numThreads: nat, allocOk: bool, created: seq<bool>, joinFlags: seq<int>)
    returns (status: Status, feats2: seq<real>, grad2: seq<real>)
    requires Weights(W, sm, sv, L) && Samples(x, |sv|) && numThreads >= 1
    requires |feats| == RowStart(|x|, 2 * |W|) && |grad| == RowStart(|x|, 2 * (|W| * L))
    requires |created| == ClampThreads(|x|, numThreads) && |joinFlags| == |created|
    ensures status == NoError <==>
      allocOk && (forall t :: 0 <= t < |created| ==> created[t])
              && (forall t :: 0 <= t < |joinFlags| ==> joinFlags[t] == 0)
    ensures status == NoError ==> |feats2| == |feats| && |grad2| == |grad|
    ensures status == NoError ==> forall i :: 0 <= i < |x| ==>
      |Row(feats, i, 2 * |W|)| == 2 * |W| && |Row(grad, i, 2 * (|W| * L))| == 2 * (|W| * L)
      && Row(feats2, i, 2 * |W|) == FeatFinal(Row(feats, i, 2 * |W|), x[i], W, sv, c, cos, sin)
      && Row(grad2, i, 2 * (|W| * L))
         == GradFinal(Row(feats, i, 2 * |W|), Row(grad, i, 2 * (|W| * L)), x[i], W, sm, sv, L, c, cos, sin)
  {
    var rf, rg := 2 * |W|, 2 * (|W| * L);
    var dim0 := |x|;
    feats2, grad2 := feats, grad;
    forall i: nat | 0 <= i < dim0
      ensures |Row(feats, i, rf)| == rf && |Row(grad, i, rg)| == rg
    {
      RowFits(i, dim0, rf);
      RowFits(i, dim0, rg);
    }
    if dim0 >= 1 {
      var pf := (i: nat, r: seq<real>) =>
        if i < |x| && |r| == rf then FeatFinal(r, x[i], W, sv, c, cos, sin) else r;
      var pg := (i: nat, r: seq<real>) =>
        if i < |x| && |r| == rg && |Row(feats, i, rf)| == rf
        then GradFinal(Row(feats, i, rf), r, x[i], W, sm, sv, L, c, cos, sin) else r;
      feats2, grad2 := RunThreads(feats, grad, x, W, sm, sv, L, c, cos, sin, numThreads, pf, pg);
      forall i: nat | 0 <= i < dim0
        ensures Row(feats2, i, rf) == FeatFinal(Row(feats, i, rf), x[i], W, sv, c, cos, sin)
        ensures Row(grad2, i, rg) == GradFinal(Row(feats, i, rf), Row(grad, i, rg), x[i], W, sm, sv, L, c, cos, sin)
      {
        assert Row(feats2, i, rf) == pf(i, Row(feats, i, rf));
        assert Row(grad2, i, rg) == pg(i, Row(grad, i, rg));
      }
    }
    status := LaunchStatus(allocOk, created, joinFlags);
  }
}
