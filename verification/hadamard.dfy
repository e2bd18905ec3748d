/** The in-place butterfly network of `transformRows`: stages, the hand-unrolled
    first three stages, the general loop, and the row driver. A row of length
    `dim1 * dim2` is `dim1` segments of length `dim2`; each segment ends as the
    unnormalised Walsh-Hadamard transform of what it held. */
module Hadamard {
  import opened Arith
  import opened WalshHadamard

  // ---------------------------------------------------------------------
  // Stages

  /** One butterfly on positions `(p, p + h)`: `(a, b)` becomes `(a + b, a - b)`. */
  function Bfly(y: seq<real>, p: nat, h: nat): (r: seq<real>)
    requires h >= 1 && p + h < |y|
    ensures |r| == |y|
    ensures r[p] == y[p] + y[p + h] && r[p + h] == y[p] - y[p + h]
    ensures forall q :: 0 <= q < |y| && q != p && q != p + h ==> r[q] == y[q]
  {
    y[p := y[p] + y[p + h]][p + h := y[p] - y[p + h]]
  }

  /** A position in the upper half of its block of `2h` has its partner `h` later; one in the lower half has it `h` earlier. */
  lemma PairInRange(n: nat, h: nat, q: nat)
    requires h >= 1 && n % (2 * h) == 0 && q < n
    ensures q % (2 * h) < h ==> q + h < n
    ensures q % (2 * h) >= h ==> q >= h
  {
    var d := 2 * h;
    var k, s := q / d, q % d;
    assert q == k * d + s;
    var N := n / d;
    HalfMultiple(n, d, N);
    if N <= k {
      MulMono(N, k, d);
      assert false;
    }
    MulMono(k + 1, N, d);
    assert (k + 1) * d == k * d + d;
  }

  /** What stage `h` leaves at position `q`: the upper half of each block of `2h`
      receives the sum of its pair, the lower half the difference. */
  function StageElem(x: seq<real>, h: nat, q: nat): real
    requires h >= 1 && |x| % (2 * h) == 0 && q < |x|
  {
    PairInRange(|x|, h, q);
    if q % (2 * h) < h then x[q] + x[q + h] else x[q - h] - x[q]
  }

  /** Stage `h` applied block by block; only whole blocks of `2h` are ever passed. */
  function Stage(x: seq<real>, h: nat): (r: seq<real>)
    requires h >= 1
    ensures |r| == |x|
    decreases |x|
  {
    if |x| < 2 * h then x
    else Butterfly(x[..h], x[h..2 * h]) + Stage(x[2 * h..], h)
  }

  /** One level of the block recursion of `Stage`. */
  lemma StageStep(x: seq<real>, h: nat)
    requires h >= 1 && 2 * h <= |x|
    ensures Stage(x, h) == Butterfly(x[..h], x[h..2 * h]) + Stage(x[2 * h..], h)
  {
  }

  /** Inside the first block of `2h`, the stage is `StageElem`. */
  lemma StageAtHead(x: seq<real>, h: nat, q: nat)
    requires h >= 1 && |x| % (2 * h) == 0 && q < 2 * h <= |x|
    ensures Stage(x, h)[q] == StageElem(x, h, q)
  {
    StageStep(x, h);
    ModSmall(q, 2 * h);
    assert Stage(x, h)[q] == Butterfly(x[..h], x[h..2 * h])[q];
  }

  /** Past the first block, the stage is `StageElem` whenever it is so for the rest. */
  lemma StageAtTail(x: seq<real>, h: nat, q: nat)
    requires h >= 1 && |x| % (2 * h) == 0 && 2 * h <= q < |x|
    requires (|x| - 2 * h) % (2 * h) == 0
    requires Stage(x[2 * h..], h)[q - 2 * h] == StageElem(x[2 * h..], h, q - 2 * h)
    ensures Stage(x, h)[q] == StageElem(x, h, q)
  {
    var rest := x[2 * h..];
    var p := q - 2 * h;
    assert Stage(x, h)[q] == Stage(rest, h)[p] by {
      StageStep(x, h);
    }
    ModShift(q, 2 * h);
    PairInRange(|x|, h, q);
    PairInRange(|rest|, h, p);
  }

  /** Stage `h` touches exactly the pairs `(p, p + h)` with `p mod 2h < h`. */
  lemma {:induction false} StageAt(x: seq<real>, h: nat)
    requires h >= 1 && |x| % (2 * h) == 0
    ensures forall q :: 0 <= q < |x| ==> Stage(x, h)[q] == StageElem(x, h, q)
    decreases |x|
  {
    if |x| > 0 {
      MultipleStep(|x|, 2 * h);
      StageAt(x[2 * h..], h);
      forall q | 0 <= q < |x|
        ensures Stage(x, h)[q] == StageElem(x, h, q)
      {
        if q < 2 * h {
          StageAtHead(x, h, q);
        } else {
          StageAtTail(x, h, q);
        }
      }
    }
  }

  /** Stages `1, 2, 4, ..., c/2` applied in that order. */
  function Stages(x: seq<real>, c: nat): (r: seq<real>)
    ensures |r| == |x|
    decreases c
  {
    if c <= 1 then x
    else Stage(Stages(x, c / 2), c / 2)
  }

  /** The Walsh-Hadamard transform of every length-`c` segment of `x`. */
  function SegWht(x: seq<real>, c: nat): (r: seq<real>)
    requires c >= 1
    ensures |r| == |x|
    decreases |x|
  {
    if |x| < c then x
    else Sylvester(x[..c]) + SegWht(x[c..], c)
  }

  // ---------------------------------------------------------------------
  // The staged network is the segment-wise transform

  lemma {:induction false} SegWhtOne(x: seq<real>)
    ensures SegWht(x, 1) == x
    decreases |x|
  {
    if |x| > 0 {
      SegWhtOne(x[1..]);
      assert x == x[..1] + x[1..];
    }
  }

  /** The first two length-`m` segments of a segment-wise transform. */
  lemma SegWhtTwoBlocks(x: seq<real>, m: nat)
    requires IsPow2(m) && 2 * m <= |x|
    ensures SegWht(x, m) == Sylvester(x[..m]) + (Sylvester(x[m..2 * m]) + SegWht(x[2 * m..], m))
  {
    Pow2Positive(m);
    assert x[m..][..m] == x[m..2 * m];
    assert x[m..][m..] == x[2 * m..];
    assert SegWht(x[m..], m) == Sylvester(x[m..][..m]) + SegWht(x[m..][m..], m);
  }

  /** The transform of two consecutive length-`m` segments is the butterfly of their transforms. */
  lemma SylvesterOfPair(x: seq<real>, m: nat)
    requires IsPow2(m) && 2 * m <= |x|
    ensures IsPow2(2 * m)
    ensures Sylvester(x[..2 * m]) == Butterfly(Sylvester(x[..m]), Sylvester(x[m..2 * m]))
  {
    Pow2Positive(m);
    Pow2Double(m);
    var b, lo, hi := x[..2 * m], x[..m], x[m..2 * m];
    SylvesterStep(b);
    assert |b| / 2 == m;
    assert b[..m] == lo && b[m..] == hi;
    var A, B := Sylvester(lo), Sylvester(hi);
    assert Sylvester(b[..|b| / 2]) == A && Sylvester(b[|b| / 2..]) == B;
  }

  /** Stage `m` of two blocks followed by a rest. */
  lemma StageOfParts(S: seq<real>, A: seq<real>, B: seq<real>, T: seq<real>, m: nat)
    requires m >= 1 && |A| == m && |B| == m && S == A + (B + T)
    ensures Stage(S, m) == Butterfly(A, B) + Stage(T, m)
  {
    StageStep(S, m);
    assert S[..m] == A;
    assert S[m..2 * m] == B;
    assert S[2 * m..] == T;
  }

  /** Stage `m` over a segment-wise transform: the first two segments merge, the rest is handled recursively. */
  lemma StageOfTwoBlocks(x: seq<real>, m: nat)
    requires IsPow2(m) && 2 * m <= |x|
    ensures m >= 1
    ensures Stage(SegWht(x, m), m)
         == Butterfly(Sylvester(x[..m]), Sylvester(x[m..2 * m])) + Stage(SegWht(x[2 * m..], m), m)
  {
    Pow2Positive(m);
    SegWhtTwoBlocks(x, m);
    StageOfParts(SegWht(x, m), Sylvester(x[..m]), Sylvester(x[m..2 * m]), SegWht(x[2 * m..], m), m);
  }

  /** The block arithmetic behind merging segments of `m` into segments of `2m`. */
  lemma MergeArith(n: nat, m: nat)
    requires IsPow2(m) && n % (2 * m) == 0
    ensures m >= 1 && IsPow2(2 * m) && n % m == 0
    ensures n > 0 ==> 2 * m <= n && (n - 2 * m) % (2 * m) == 0
  {
    Pow2Positive(m);
    Pow2Double(m);
    MulMod(2, m);
    ModTrans(n, 2 * m, m);
    if n > 0 {
      MultipleStep(n, 2 * m);
    }
  }

  /** Stage `m` merges pairs of transformed length-`m` segments into transformed length-`2m` ones. */
  lemma {:induction false} StageMergesSegments(x: seq<real>, m: nat)
    requires IsPow2(m) && |x| % (2 * m) == 0
    ensures IsPow2(2 * m) && |x| % m == 0
    ensures Stage(SegWht(x, m), m) == SegWht(x, 2 * m)
    decreases |x|
  {
    MergeArith(|x|, m);
    if |x| > 0 {
      var rest := x[2 * m..];
      StageMergesSegments(rest, m);
      var A, B := Sylvester(x[..m]), Sylvester(x[m..2 * m]);
      var S := SegWht(x, m);
      StageOfTwoBlocks(x, m);
      SylvesterOfPair(x, m);
      assert SegWht(x, 2 * m) == Sylvester(x[..2 * m]) + SegWht(rest, 2 * m);
    }
  }

  /** The staged network transforms every length-`c` segment independently. */
  lemma {:induction false} StagesAreSegWht(x: seq<real>, c: nat)
    requires IsPow2(c) && |x| % c == 0
    ensures Stages(x, c) == SegWht(x, c)
    decreases c
  {
    if c == 1 {
      SegWhtOne(x);
    } else {
      var h := c / 2;
      Pow2Positive(h);
      MulMod(2, h);
      ModTrans(|x|, c, h);
      StagesAreSegWht(x, h);
      StageMergesSegments(x, h);
    }
  }

  /** `a` is a multiple of `c`, stated without multiplication. */
  predicate Aligned(a: nat, c: nat)
    requires c >= 1
    decreases a
  {
    a == 0 || (a >= c && Aligned(a - c, c))
  }

  /** Every row start is a multiple of the row length. */
  lemma {:induction false} RowStartAligned(s: nat, c: nat)
    requires c >= 1
    ensures Aligned(RowStart(s, c), c)
    decreases s
  {
    if s > 0 {
      RowStartAligned(s - 1, c);
      RowStartStep(s - 1, c);
    }
  }

  /** `f` applied to every length-`c` segment of `x`; a short tail is left as it is. */
  function SegMap(x: seq<real>, c: nat, f: seq<real> -> seq<real>): (r: seq<real>)
    requires c >= 1 && forall u :: |f(u)| == |u|
    ensures |r| == |x|
    decreases |x|
  {
    if |x| < c then x else f(x[..c]) + SegMap(x[c..], c, f)
  }

  /** The segment-wise transform maps `Sylvester` over the segments. */
  lemma {:induction false} SegWhtIsSegMap(x: seq<real>, c: nat)
    requires c >= 1
    ensures SegWht(x, c) == SegMap(x, c, Sylvester)
    decreases |x|
  {
    if |x| >= c {
      SegWhtIsSegMap(x[c..], c);
    }
  }

  /** Segment `[a, a + c)` of a segment-wise map is `f` of that segment. */
  lemma {:induction false} SegMapBlockAt(x: seq<real>, c: nat, a: nat, f: seq<real> -> seq<real>)
    requires c >= 1 && Aligned(a, c) && a + c <= |x|
    requires forall u :: |f(u)| == |u|
    ensures SegMap(x, c, f)[a..a + c] == f(x[a..a + c])
    decreases a
  {
    var r := SegMap(x, c, f);
    var head, rest := f(x[..c]), SegMap(x[c..], c, f);
    assert r == head + rest && |head| == c;
    if a == 0 {
      assert r[a..a + c] == head;
      assert x[a..a + c] == x[..c];
    } else {
      SegMapBlockAt(x[c..], c, a - c, f);
      assert r[a..a + c] == rest[a - c..a];
      assert x[a..a + c] == x[c..][a - c..a];
    }
  }

  /** An aligned segment of the segment-wise transform is the transform of that segment. */
  lemma SegWhtBlockAt(x: seq<real>, c: nat, a: nat)
    requires c >= 1 && Aligned(a, c) && a + c <= |x|
    ensures SegWht(x, c)[a..a + c] == Sylvester(x[a..a + c])
  {
    SegWhtIsSegMap(x, c);
    SegMapBlockAt(x, c, a, Sylvester);
  }

  /** Segment `s` of the result is the Sylvester transform of segment `s` of the input. */
  lemma SegWhtSegment(x: seq<real>, c: nat, s: nat)
    requires c >= 1 && RowStart(s + 1, c) <= |x|
    ensures RowStart(s, c) + c == RowStart(s + 1, c)
    ensures SegWht(x, c)[RowStart(s, c)..RowStart(s + 1, c)] == Sylvester(x[RowStart(s, c)..RowStart(s + 1, c)])
  {
    RowStartStep(s, c);
    RowStartAligned(s, c);
    SegWhtBlockAt(x, c, RowStart(s, c));
  }

  /** Each length-`c` segment of a row ends as the explicit Walsh-Hadamard transform of
      what it held: `out[k] = sum_j (-1)^popcount(j & k) * in[j]` within the segment. */
  lemma SegmentIsWalsh(x: seq<real>, c: nat, s: nat)
    requires IsPow2(c) && RowStart(s + 1, c) <= |x|
    ensures RowStart(s, c) + c == RowStart(s + 1, c)
    ensures SegWht(x, c)[RowStart(s, c)..RowStart(s + 1, c)] == Walsh(x[RowStart(s, c)..RowStart(s + 1, c)])
  {
    Pow2Positive(c);
    RowStartStep(s, c);
    var u := x[RowStart(s, c)..RowStart(s + 1, c)];
    assert |u| == c;
    SylvesterIsWalsh(u);
    SegWhtSegment(x, c, s);
    SeqTrans(SegWht(x, c)[RowStart(s, c)..RowStart(s + 1, c)], Sylvester(u), Walsh(u));
  }

  /** Equality is transitive; keeps the two steps out of a large context. */
  lemma SeqTrans(a: seq<real>, b: seq<real>, c: seq<real>)
    requires a == b && b == c
    ensures a == c
  {
  }

  /** Transforming twice multiplies every entry by the segment length. */
  lemma {:induction false} SegWhtTwice(x: seq<real>, c: nat)
    requires IsPow2(c) && |x| % c == 0
    ensures SegWht(SegWht(x, c), c) == Scale(c as real, x)
    decreases |x|
  {
    if |x| > 0 {
      Pow2Positive(c);
      MultipleStep(|x|, c);
      var y := SegWht(x, c);
      var lo, hi := x[..c], x[c..];
      SegWhtSplit(x, c);
      SegWhtSplit(y, c);
      SylvesterInvolution(lo);
      SegWhtTwice(hi, c);
      ScaledHalves(SegWht(y, c), Sylvester(y[..c]), SegWht(y[c..], c), x, c);
    }
  }

  /** The first segment and the rest of a segment-wise transform. */
  lemma SegWhtSplit(x: seq<real>, c: nat)
    requires c >= 1 && c <= |x|
    ensures SegWht(x, c) == Sylvester(x[..c]) + SegWht(x[c..], c)
    ensures SegWht(x, c)[..c] == Sylvester(x[..c]) && SegWht(x, c)[c..] == SegWht(x[c..], c)
  {
  }

  /** Two scaled parts make the scaled whole. */
  lemma ScaledHalves(s: seq<real>, p: seq<real>, q: seq<real>, x: seq<real>, c: nat)
    requires c <= |x| && s == p + q && p == Scale(c as real, x[..c]) && q == Scale(c as real, x[c..])
    ensures s == Scale(c as real, x)
  {
    ScaleAppend(c as real, x[..c], x[c..]);
    assert x == x[..c] + x[c..];
  }

  /** Scaling distributes over concatenation. */
  lemma ScaleAppend(a: real, u: seq<real>, v: seq<real>)
    ensures Scale(a, u + v) == Scale(a, u) + Scale(a, v)
  {
    var l, r := Scale(a, u + v), Scale(a, u) + Scale(a, v);
    assert forall i | 0 <= i < |u| :: l[i] == r[i];
    assert forall i | |u| <= i < |l| :: l[i] == r[i];
  }

  /** The segment-wise transform is linear. */
  lemma {:induction false} SegWhtLinear(a: real, u: seq<real>, b: real, v: seq<real>, c: nat)
    requires |u| == |v| && c >= 1
    ensures SegWht(Lin(a, u, b, v), c) == Lin(a, SegWht(u, c), b, SegWht(v, c))
    decreases |u|
  {
    if |u| >= c {
      var w := Lin(a, u, b, v);
      LinSplit(a, u, b, v, c);
      var su, sv := SegWht(u, c), SegWht(v, c);
      var l := Lin(a, su, b, sv);
      assert Sylvester(w[..c]) == l[..c] by {
        SylvesterLinear(a, u[..c], b, v[..c]);
        LinSplit(a, su, b, sv, c);
      }
      assert SegWht(w[c..], c) == l[c..] by {
        SegWhtLinear(a, u[c..], b, v[c..], c);
        LinSplit(a, su, b, sv, c);
      }
      assert l == l[..c] + l[c..];
    }
  }
}

module HadamardLoops {
  import opened Arith
  import opened Rows
  import opened WalshHadamard
  import opened Hadamard
  import opened Outcome

  /** A sequence whose every entry is what stage `h` leaves there is the stage. */
  lemma StageFromElems(x: seq<real>, y: seq<real>, h: nat)
    requires h >= 1 && |x| % (2 * h) == 0 && |y| == |x|
    requires forall q :: 0 <= q < |x| ==> y[q] == StageElem(x, h, q)
    ensures y == Stage(x, h)
  {
    StageAt(x, h);
  }

  /** The hand-unrolled first stage: pairs `(i, i + 1)` for even `i`. */
  method UnrolledStage1(x: seq<real>) returns (y: seq<real>)
    requires |x| % 2 == 0
    ensures y == Stage(x, 1)
  {
    y := x;
    var i := 0;
    while i < |x|
      invariant 0 <= i <= |x| && i % 2 == 0 && |y| == |x|
      invariant forall q :: 0 <= q < i ==> y[q] == StageElem(x, 1, q)
      invariant forall q :: i <= q < |x| ==> y[q] == x[q]
    {
      MultiplesGap(i, |x|, 2);
      ModInBlock(i, i, 2);
      ModInBlock(i, i + 1, 2);
      y := Bfly(y, i, 1);
      MultipleAdd(i, 2);
      i := i + 2;
    }
    StageFromElems(x, y, 1);
  }

  /** The hand-unrolled second stage: in each block of 4, pairs `(0, 2)` and `(1, 3)`. */
  method UnrolledStage2(x: seq<real>) returns (y: seq<real>)
    requires |x| % 4 == 0
    ensures y == Stage(x, 2)
  {
    y := x;
    var i := 0;
    while i < |x|
      invariant 0 <= i <= |x| && i % 4 == 0 && |y| == |x|
      invariant forall q :: 0 <= q < i ==> y[q] == StageElem(x, 2, q)
      invariant forall q :: i <= q < |x| ==> y[q] == x[q]
    {
      MultiplesGap(i, |x|, 4);
      ModInBlock(i, i, 4);
      ModInBlock(i, i + 1, 4);
      ModInBlock(i, i + 2, 4);
      ModInBlock(i, i + 3, 4);
      y := Bfly(y, i, 2);
      y := Bfly(y, i + 1, 2);
      MultipleAdd(i, 4);
      i := i + 4;
    }
    StageFromElems(x, y, 2);
  }

  /** The hand-unrolled third stage: in each block of 8, pairs `(t, t + 4)` for `t < 4`. */
  method UnrolledStage4(x: seq<real>) returns (y: seq<real>)
    requires |x| % 8 == 0
    ensures y == Stage(x, 4)
  {
    y := x;
    var i := 0;
    while i < |x|
      invariant 0 <= i <= |x| && i % 8 == 0 && |y| == |x|
      invariant forall q :: 0 <= q < i ==> y[q] == StageElem(x, 4, q)
      invariant forall q :: i <= q < |x| ==> y[q] == x[q]
    {
      MultiplesGap(i, |x|, 8);
      ModInBlock(i, i, 8);
      ModInBlock(i, i + 1, 8);
      ModInBlock(i, i + 2, 8);
      ModInBlock(i, i + 3, 8);
      ModInBlock(i, i + 4, 8);
      ModInBlock(i, i + 5, 8);
      ModInBlock(i, i + 6, 8);
      ModInBlock(i, i + 7, 8);
      y := Bfly(y, i, 4);
      y := Bfly(y, i + 1, 4);
      y := Bfly(y, i + 2, 4);
      y := Bfly(y, i + 3, 4);
      MultipleAdd(i, 8);
      i := i + 8;
    }
    StageFromElems(x, y, 4);
  }

  /** The general stage loop: for each block start `i` (step `2h`), pairs `(i + j, i + j + h)`. */
  method GeneralStage(x: seq<real>, h: nat) returns (y: seq<real>)
    requires h >= 1 && |x| % (2 * h) == 0
    ensures y == Stage(x, h)
  {
    y := x;
    var i := 0;
    while i < |x|
      invariant 0 <= i <= |x| && i % (2 * h) == 0 && |y| == |x|
      invariant forall q :: 0 <= q < i ==> y[q] == StageElem(x, h, q)
      invariant forall q :: i <= q < |x| ==> y[q] == x[q]
    {
      MultiplesGap(i, |x|, 2 * h);
      y := StageBlock(x, y, h, i);
      MultipleAdd(i, 2 * h);
      i := i + 2 * h;
    }
    StageFromElems(x, y, h);
  }

  /** The butterflies of the block of `2h` elements from `i`; everything else is kept. */
  method StageBlock(x: seq<real>, y0: seq<real>, h: nat, i: nat) returns (y: seq<real>)
    requires h >= 1 && |x| % (2 * h) == 0 && |y0| == |x| && i % (2 * h) == 0 && i + 2 * h <= |x|
    requires forall q :: i <= q < |x| ==> y0[q] == x[q]
    ensures |y| == |x|
    ensures forall q :: 0 <= q < i ==> y[q] == y0[q]
    ensures forall q :: i <= q < i + 2 * h ==> y[q] == StageElem(x, h, q)
    ensures forall q :: i + 2 * h <= q < |x| ==> y[q] == x[q]
  {
    y := y0;
    var j := 0;
    while j < h
      invariant 0 <= j <= h && |y| == |x|
      invariant forall q :: 0 <= q < i ==> y[q] == y0[q]
      invariant forall q :: i <= q < |x| ==> y[q] == BlockWant(x, h, i, j, q)
    {
      StageElemPair(x, h, i, j);
      var y1 := Bfly(y, i + j, h);
      forall q | i <= q < |x|
        ensures y1[q] == BlockWant(x, h, i, j + 1, q)
      {
        BlockWantStep(x, y, h, i, j, q);
      }
      y := y1;
      j := j + 1;
    }
  }

  /** Position `q` of the block at `i` once its first `j` pairs are done. */
  function BlockWant(x: seq<real>, h: nat, i: nat, j: nat, q: nat): real
    requires h >= 1 && |x| % (2 * h) == 0 && i <= q < |x|
  {
    if q < i + j || i + h <= q < i + h + j then StageElem(x, h, q) else x[q]
  }

  /** Doing pair `j` of the block at `i` extends the done pairs by one at every position. */
  lemma BlockWantStep(x: seq<real>, y: seq<real>, h: nat, i: nat, j: nat, q: nat)
    requires h >= 1 && |x| % (2 * h) == 0 && i % (2 * h) == 0 && i + 2 * h <= |x| && j < h
    requires |y| == |x| && i <= q < |x|
    requires y[i + j] == x[i + j] && y[i + j + h] == x[i + j + h] && y[q] == BlockWant(x, h, i, j, q)
    requires StageElem(x, h, i + j) == x[i + j] + x[i + j + h]
    requires StageElem(x, h, i + j + h) == x[i + j] - x[i + j + h]
    ensures Bfly(y, i + j, h)[q] == BlockWant(x, h, i, j + 1, q)
  {
  }

  /** The stages up to `2h` are the stages up to `h` followed by stage `h`. */
  lemma StagesNext(x: seq<real>, h: nat)
    requires h >= 1
    ensures Stages(x, 2 * h) == Stage(Stages(x, h), h)
  {
    assert 2 * h / 2 == h;
  }

  /** The pair `(i + j, i + j + h)` of the block at `i` gets the sum and the difference. */
  lemma StageElemPair(x: seq<real>, h: nat, i: nat, j: nat)
    requires h >= 1 && |x| % (2 * h) == 0 && i % (2 * h) == 0 && i + 2 * h <= |x| && j < h
    ensures StageElem(x, h, i + j) == x[i + j] + x[i + j + h]
    ensures StageElem(x, h, i + j + h) == x[i + j] - x[i + j + h]
  {
    ModInBlock(i, i + j, 2 * h);
    ModInBlock(i, i + j + h, 2 * h);
  }

  /** Stages up to `2h` need blocks of `2h`, which the segment length provides. */
  lemma BlockFits(n: nat, h: nat, c: nat)
    requires IsPow2(h) && IsPow2(c) && h < c && n % c == 0
    ensures IsPow2(2 * h) && 2 * h <= c && n % (2 * h) == 0
  {
    Pow2Positive(h);
    Pow2Double(h);
    Pow2Order(h, c);
    ModTrans(n, c, 2 * h);
  }

  /** One row of `transformRows`: the three unrolled stages with their early exits,
      then the general stages `h = 8, 16, ..., dim2/2`. A segment length of 1 is
      left alone (unlike `RowStagesAsWritten`). */
  method TransformRow(row: seq<real>, dim2: nat) returns (y: seq<real>)
    requires IsPow2(dim2) && |row| % dim2 == 0
    ensures y == SegWht(row, dim2)
  {
    Pow2Positive(dim2);
    if dim2 < 2 {
      SegWhtOne(row);
      return row;
    }
    Pow2Small();
    y := FirstStages(row, dim2);
    if dim2 > 8 {
      y := LaterStages(row, y, 8, dim2);
    }
    StagesAreSegWht(row, dim2);
  }

  /** The three hand-unrolled stages, each followed by its early exit when `dim2`
      is at most 2, 4 or 8. */
  method FirstStages(row: seq<real>, dim2: nat) returns (y: seq<real>)
    requires IsPow2(dim2) && dim2 >= 2 && |row| % dim2 == 0
    ensures dim2 <= 8 ==> y == Stages(row, dim2)
    ensures dim2 > 8 ==> y == Stages(row, 8)
  {
    Pow2Small();
    assert |row| % 2 == 0 by {
      BlockFits(|row|, 1, dim2);
    }
    y := UnrolledStage1(row);
    if dim2 <= 2 {
      return;
    }
    assert |row| % 4 == 0 && 4 <= dim2 by {
      BlockFits(|row|, 2, dim2);
    }
    y := UnrolledStage2(y);
    StagesNext(row, 2);
    if dim2 <= 4 {
      return;
    }
    assert |row| % 8 == 0 && 8 <= dim2 by {
      BlockFits(|row|, 4, dim2);
    }
    y := UnrolledStage4(y);
    StagesNext(row, 4);
  }

  /** The general loop `for (h = start; h < dim2; h <<= 1)` over a row whose
      earlier stages are done. */
  method LaterStages(row: seq<real>, y0: seq<real>, start: nat, dim2: nat) returns (y: seq<real>)
    requires IsPow2(start) && IsPow2(dim2) && start <= dim2 && |row| % dim2 == 0
    requires y0 == Stages(row, start)
    ensures y == Stages(row, dim2)
  {
    y := y0;
    var h := start;
    while h < dim2
      invariant IsPow2(h) && start <= h <= dim2
      invariant y == Stages(row, h)
      decreases dim2 - h
    {
      BlockFits(|row|, h, dim2);
      y := GeneralStage(y, h);
      StagesNext(row, h);
      h := 2 * h;
    }
  }

  /** The unrolled stage widths are powers of two. */
  lemma Pow2Small()
    ensures IsPow2(1) && IsPow2(2) && IsPow2(4) && IsPow2(8)
  {
    assert IsPow2(1);
    assert IsPow2(2);
    assert IsPow2(4);
  }

  /** The stages `transformRows` runs on a row, as written: the first stage runs
      before any test of `dim2`. */
  function RowStagesAsWritten(row: seq<real>, dim2: nat): (r: seq<real>)
    ensures |r| == |row|
  {
    if dim2 <= 2 then Stage(row, 1) else Stages(row, dim2)
  }

  /** For every segment length of at least 2 the stages as written are the segment-wise
      transform. */
  lemma RowStagesAsWrittenAgree(row: seq<real>, dim2: nat)
    requires IsPow2(dim2) && dim2 >= 2 && |row| % dim2 == 0
    ensures RowStagesAsWritten(row, dim2) == SegWht(row, dim2)
  {
    StagesAreSegWht(row, dim2);
    if dim2 == 2 {
      assert Stages(row, 2) == Stage(Stages(row, 1), 1);
    }
  }

  /** Position `q` lies in the pair `(e, e + 1)` with `e` even; stage 1 leaves the pair's
      sum at `e` and its difference at `e + 1`. */
  lemma StageOnePair(x: seq<real>, q: nat) returns (e: nat)
    requires |x| % 2 == 0 && q < |x|
    ensures (q == e || q == e + 1) && e + 1 < |x|
    ensures Stage(x, 1)[e] == x[e] + x[e + 1] && Stage(x, 1)[e + 1] == x[e] - x[e + 1]
  {
    e := 2 * (q / 2);
    DivModUnique(e, 2, q / 2, 0);
    DivModUnique(e + 1, 2, q / 2, 1);
    PairInRange(|x|, 1, e);
    StageAt(x, 1);
    assert Stage(x, 1)[e] == StageElem(x, 1, e);
    assert Stage(x, 1)[e + 1] == StageElem(x, 1, e + 1);
  }

  /** With segments of length 1 (a power of two the routine admits), the stages as written
      leave a row unchanged, as the length-1 transform does, only when the row is zero. */
  lemma RowStagesAsWrittenDim2OneWrong(row: seq<real>)
    requires |row| % 2 == 0
    ensures RowStagesAsWritten(row, 1) == SegWht(row, 1) <==> forall q :: 0 <= q < |row| ==> row[q] == 0.0
  {
    SegWhtOne(row);
    var y := Stage(row, 1);
    if forall q :: 0 <= q < |row| ==> row[q] == 0.0 {
      forall q | 0 <= q < |row|
        ensures y[q] == row[q]
      {
        var e := StageOnePair(row, q);
      }
    } else {
      var q :| 0 <= q < |row| && row[q] != 0.0;
      var e := StageOnePair(row, q);
      assert y[e] != row[e] || y[e + 1] != row[e + 1];
    }
  }

  /** With segments of length 1 and two elements per row, the first stage turns `[1, 0]`
      into `[1, 1]` although the length-1 transform leaves it alone. */
  lemma RowStagesAsWrittenDim2One()
    ensures RowStagesAsWritten([1.0, 0.0], 1) == [1.0, 1.0]
    ensures SegWht([1.0, 0.0], 1) == [1.0, 0.0]
  {
    var x := [1.0, 0.0];
    assert Stage(x, 1) == Butterfly(x[..1], x[1..2]) + Stage(x[2..], 1);
    SegWhtOne(x);
  }

  /** The first butterfly loop of `transformRows` on the row starting at `a`, as written:
      pairs `(a + i, a + i + 1)` for even `i < rs`, in order. With an odd row length the
      last pair reaches the first element of the next row; a pair past the end of the
      array is a write outside it, which has no defined result (`None`). */
  function PairsAsWritten(y: seq<real>, a: nat, i: nat, rs: nat): (r: Option<seq<real>>)
    ensures r.Some? ==> |r.value| == |y|
    ensures r.None? <==> i < rs && a + i + 2 * ((rs - i - 1) / 2) + 1 >= |y|
    decreases rs - i
  {
    if i >= rs then Some(y)
    else if a + i + 1 >= |y| then None
    else PairsAsWritten(Bfly(y, a + i, 1), a, i + 2, rs)
  }

  /** The first loop of `transformRows` over rows `r <= i < endRow`, as written; for
      `dim2 <= 2` it is all the routine does. */
  function FirstLoopAsWritten(y: seq<real>, r: nat, endRow: nat, rs: nat): (z: Option<seq<real>>)
    ensures z.Some? ==> |z.value| == |y|
    decreases endRow - r
  {
    if r >= endRow then Some(y)
    else
      match PairsAsWritten(y, RowStart(r, rs), 0, rs)
      case None => None
      case Some(y') => FirstLoopAsWritten(y', r + 1, endRow, rs)
  }

  /** With segments of length 1 and an odd number of them per row (`dim1 = 3`), the first
      loop on row 0 of `[1, 0, 0, 5, 0, 0]` also rewrites element 3, the first of row 1;
      the loop on both rows writes past the end of the array. `TransformRows` with the same
      arguments changes nothing. */
  lemma FirstLoopCrossesRows()
    ensures FirstLoopAsWritten([1.0, 0.0, 0.0, 5.0, 0.0, 0.0], 0, 1, 3) == Some([1.0, 1.0, 5.0, -5.0, 0.0, 0.0])
    ensures FirstLoopAsWritten([1.0, 0.0, 0.0, 5.0, 0.0, 0.0], 0, 2, 3).None?
  {
    var x := [1.0, 0.0, 0.0, 5.0, 0.0, 0.0];
    var y1 := Bfly(x, 0, 1);
    assert y1 == [1.0, 1.0, 0.0, 5.0, 0.0, 0.0];
    var y2 := Bfly(y1, 2, 1);
    assert y2 == [1.0, 1.0, 5.0, -5.0, 0.0, 0.0];
    assert PairsAsWritten(x, 0, 0, 3) == Some(y2);
    assert RowStart(1, 3) == 3;
    var y3 := Bfly(y2, 3, 1);
    assert PairsAsWritten(y2, 3, 0, 3) == PairsAsWritten(y3, 3, 2, 3);
    assert PairsAsWritten(y3, 3, 2, 3).None?;
  }

  /** `transformRows`: rows `startRow <= i < endRow` of the flat array, each of
      `dim1 * dim2` contiguous elements starting at `i * dim1 * dim2`, are replaced
      by their segment-wise transform; nothing else changes. */
  method TransformRows(x: seq<real>, startRow: nat, endRow: nat, dim1: nat, dim2: nat) returns (y: seq<real>)
    requires IsPow2(dim2)
    requires startRow < endRow ==> RowStart(endRow, dim1 * dim2) <= |x|
    ensures |y| == |x|
    ensures forall i :: startRow <= i < endRow ==> Row(y, i, dim1 * dim2) == SegWht(Row(x, i, dim1 * dim2), dim2)
    ensures forall q :: 0 <= q < |x| && !(RowStart(startRow, dim1 * dim2) <= q < RowStart(endRow, dim1 * dim2)) ==> y[q] == x[q]
  {
    var rs := dim1 * dim2;
    Pow2Positive(dim2);
    MulMod(dim1, dim2);
    var wht := (i: nat, r: seq<real>) => SegWht(r, dim2);
    y := x;
    var idx := startRow;
    while idx < endRow
      invariant startRow <= idx && (idx <= endRow || idx == startRow)
      invariant RowsMapped(y, x, startRow, idx, rs, wht)
      invariant SameOutside(y, x, RowStart(startRow, rs), RowStart(idx, rs))
    {
      assert RowStart(idx + 1, rs) <= |x| by {
        RowStartStep(idx, rs);
        RowsBefore(idx, endRow, rs);
      }
      var a := RowStart(idx, rs);
      var t := TransformRow(Row(y, idx, rs), dim2);
      MapNextRow(x, y, t, startRow, idx, rs, wht);
      y := Splice(y, a, t);
      idx := idx + 1;
    }
  }
}
