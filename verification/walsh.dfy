/** The unnormalised Walsh-Hadamard transform in Sylvester (natural) order,
    given twice: recursively, as the butterfly network computes it, and
    explicitly, as `out[k] = sum_j (-1)^popcount(j & k) * x[j]`. */
module WalshHadamard {
  import opened Arith

  /** Pointwise `a*u + b*v`. */
  function Lin(a: real, u: seq<real>, b: real, v: seq<real>): (r: seq<real>)
    requires |u| == |v|
    ensures |r| == |u|
    ensures forall i {:trigger r[i]} :: 0 <= i < |u| ==> r[i] == a * u[i] + b * v[i]
  {
    seq(|u|, i requires 0 <= i < |u| => a * u[i] + b * v[i])
  }

  /** Pointwise `c*u`. */
  function Scale(c: real, u: seq<real>): (r: seq<real>)
    ensures |r| == |u|
    ensures forall i {:trigger r[i]} :: 0 <= i < |u| ==> r[i] == c * u[i]
  {
    seq(|u|, i requires 0 <= i < |u| => c * u[i])
  }

  /** One butterfly over two halves: `(a, b)` becomes `(a + b, a - b)` position by position. */
  function Butterfly(lo: seq<real>, hi: seq<real>): (r: seq<real>)
    requires |lo| == |hi|
    ensures |r| == 2 * |lo|
    ensures forall t {:trigger r[t]} :: 0 <= t < |lo| ==> r[t] == lo[t] + hi[t]
    ensures forall t {:trigger r[t]} :: |lo| <= t < 2 * |lo| ==> r[t] == lo[t - |lo|] - hi[t - |lo|]
  {
    Lin(1.0, lo, 1.0, hi) + Lin(1.0, lo, -1.0, hi)
  }

  /** Sylvester recursion: H(2m) = [[H(m), H(m)], [H(m), -H(m)]]. It is only
      meant for power-of-two lengths; to keep it total, a sequence of odd length
      is returned unchanged. */
  function Sylvester(x: seq<real>): (r: seq<real>)
    ensures |r| == |x|
    decreases |x|
  {
    if |x| <= 1 || |x| % 2 == 1 then x
    else
      var m := |x| / 2;
      Butterfly(Sylvester(x[..m]), Sylvester(x[m..]))
  }

  /** One level of the Sylvester recursion, with the facts about the halves that callers need. */
  lemma SylvesterStep(x: seq<real>)
    requires IsPow2(|x|) && |x| > 1
    ensures |x| % 2 == 0 && IsPow2(|x| / 2)
    ensures Sylvester(x) == Butterfly(Sylvester(x[..|x| / 2]), Sylvester(x[|x| / 2..]))
  {
  }

  /** Both halves of a pointwise combination are the combinations of the halves. */
  lemma LinSplit(a: real, u: seq<real>, b: real, v: seq<real>, m: nat)
    requires |u| == |v| && m <= |u|
    ensures Lin(a, u, b, v)[..m] == Lin(a, u[..m], b, v[..m])
    ensures Lin(a, u, b, v)[m..] == Lin(a, u[m..], b, v[m..])
  {
    var w := Lin(a, u, b, v);
    assert forall i | 0 <= i < m :: w[..m][i] == Lin(a, u[..m], b, v[..m])[i];
    assert forall i | 0 <= i < |u| - m :: w[m..][i] == Lin(a, u[m..], b, v[m..])[i];
  }

  // ---------------------------------------------------------------------
  // Explicit formula

  /** Bitwise AND of two naturals. */
  function BitAnd(j: nat, k: nat): nat
    decreases j
  {
    if j == 0 || k == 0 then 0
    else 2 * BitAnd(j / 2, k / 2) + (if j % 2 == 1 && k % 2 == 1 then 1 else 0)
  }

  /** Number of one bits. */
  function PopCount(n: nat): nat
    decreases n
  {
    if n == 0 then 0 else n % 2 + PopCount(n / 2)
  }

  /** Entry `(j, k)` of the Sylvester-ordered Hadamard matrix, `(-1)^popcount(j & k)`,
      times `v`, written as a sign choice. */
  function Signed(j: nat, k: nat, v: real): real
  {
    SignOf(PopCount(BitAnd(j, k)), v)
  }

  /** `(-1)^p * v`. */
  function SignOf(p: nat, v: real): real
  {
    if p % 2 == 1 then -v else v
  }

  /** One more factor of -1 flips the sign. */
  lemma SignOfSucc(p: nat, v: real)
    ensures SignOf(p + 1, v) == -SignOf(p, v)
  {
    if p % 2 == 1 {
      assert (p + 1) % 2 == 0;
    } else {
      assert (p + 1) % 2 == 1;
    }
  }

  /** `sum_{t < |x|} (-1)^popcount((off + t) & k) * x[t]`. */
  function SignedSum(x: seq<real>, k: nat, off: nat): real
    decreases |x|
  {
    if |x| == 0 then 0.0 else Signed(off, k, x[0]) + SignedSum(x[1..], k, off + 1)
  }

  /** Reference definition: `out[k] = sum_j (-1)^popcount(j & k) * x[j]`. */
  function Walsh(x: seq<real>): (r: seq<real>)
    ensures |r| == |x|
  {
    seq(|x|, k requires 0 <= k < |x| => SignedSum(x, k, 0))
  }

  /** AND with zero is zero. */
  lemma BitAndZero(k: nat)
    ensures BitAnd(0, k) == 0 && BitAnd(k, 0) == 0
  {
  }

  /** The AND of two naturals is at most the first. */
  lemma BitAndBound(j: nat, k: nat)
    ensures BitAnd(j, k) <= j
    decreases j
  {
    if j != 0 && k != 0 {
      BitAndBound(j / 2, k / 2);
    }
  }

  /** Setting the bit `m` (above both operands) in one operand leaves the AND unchanged;
      setting it in both adds it to the AND. */
  lemma {:induction false} BitAndHigh(j: nat, k: nat, m: nat)
    requires IsPow2(m) && j < m && k < m
    ensures BitAnd(j + m, k) == BitAnd(j, k)
    ensures BitAnd(j, k + m) == BitAnd(j, k)
    ensures BitAnd(j + m, k + m) == BitAnd(j, k) + m
    decreases m
  {
    if m == 1 {
      assert j == 0 && k == 0;
      assert BitAnd(1, 1) == 2 * BitAnd(0, 0) + 1;
    } else {
      var m2 := m / 2;
      assert m == 2 * m2;
      BitAndHigh(j / 2, k / 2, m2);
      assert (j + m) / 2 == j / 2 + m2 && (j + m) % 2 == j % 2;
      assert (k + m) / 2 == k / 2 + m2 && (k + m) % 2 == k % 2;
      BitAndZero(k / 2);
      BitAndZero(j / 2);
      BitAndZero(k / 2 + m2);
      BitAndZero(j / 2 + m2);
    }
  }

  /** Setting a bit above every bit of `n` adds one to the count. */
  lemma {:induction false} PopCountHigh(n: nat, m: nat)
    requires IsPow2(m) && n < m
    ensures PopCount(n + m) == PopCount(n) + 1
    decreases m
  {
    if m == 1 {
      assert PopCount(1) == 1 + PopCount(0);
    } else {
      var m2 := m / 2;
      PopCountHigh(n / 2, m2);
      assert (n + m) / 2 == n / 2 + m2 && (n + m) % 2 == n % 2;
    }
  }

  /** The signs of the Hadamard matrix under the high bit `m`: a high row or a high column alone keeps the sign, both flip it. */
  lemma SignHigh(j: nat, k: nat, m: nat, v: real)
    requires IsPow2(m) && j < m && k < m
    ensures Signed(j + m, k, v) == Signed(j, k, v)
    ensures Signed(j, k + m, v) == Signed(j, k, v)
    ensures Signed(j + m, k + m, v) == -Signed(j, k, v)
  {
    SignHighOne(j, k, m, v);
    SignHighBoth(j, k, m, v);
  }

  /** A high row or a high column alone keeps the sign. */
  lemma SignHighOne(j: nat, k: nat, m: nat, v: real)
    requires IsPow2(m) && j < m && k < m
    ensures Signed(j + m, k, v) == Signed(j, k, v)
    ensures Signed(j, k + m, v) == Signed(j, k, v)
  {
    BitAndHigh(j, k, m);
    SignedSame(j, k, j + m, k, v);
    SignedSame(j, k, j, k + m, v);
  }

  /** A high row together with a high column flips the sign. */
  lemma SignHighBoth(j: nat, k: nat, m: nat, v: real)
    requires IsPow2(m) && j < m && k < m
    ensures Signed(j + m, k + m, v) == -Signed(j, k, v)
  {
    BitAndBound(j, k);
    PopCountHigh(BitAnd(j, k), m);
    BitAndHigh(j, k, m);
    SignedFlip(j, k, j + m, k + m, m, v);
  }

  /** Two entries whose ANDs agree carry the same sign. */
  lemma SignedSame(j: nat, k: nat, j2: nat, k2: nat, v: real)
    requires BitAnd(j2, k2) == BitAnd(j, k)
    ensures Signed(j2, k2, v) == Signed(j, k, v)
  {
  }

  /** An AND with one more bit set flips the sign. */
  lemma SignedFlip(j: nat, k: nat, j2: nat, k2: nat, m: nat, v: real)
    requires BitAnd(j2, k2) == BitAnd(j, k) + m
    requires PopCount(BitAnd(j, k) + m) == PopCount(BitAnd(j, k)) + 1
    ensures Signed(j2, k2, v) == -Signed(j, k, v)
  {
    var a := BitAnd(j, k);
    var p := PopCount(a);
    assert PopCount(BitAnd(j2, k2)) == p + 1;
    SignOfSucc(p, v);
  }

  /** A signed sum over a concatenation splits into the sums over the parts. */
  lemma {:induction false} SignedSumAppend(a: seq<real>, b: seq<real>, k: nat, off: nat)
    ensures SignedSum(a + b, k, off) == SignedSum(a, k, off) + SignedSum(b, k, off + |a|)
    decreases |a|
  {
    if |a| > 0 {
      assert (a + b)[1..] == a[1..] + b;
      SignedSumAppend(a[1..], b, k, off + 1);
    } else {
      assert a + b == b;
    }
  }

  /** Shifting every row index by the high bit `m` leaves the signs of a low column alone. */
  lemma {:induction false} SignedSumRowShift(x: seq<real>, k: nat, off: nat, m: nat)
    requires IsPow2(m) && k < m && off + |x| <= m
    ensures SignedSum(x, k, off + m) == SignedSum(x, k, off)
    decreases |x|
  {
    if |x| > 0 {
      SignHigh(off, k, m, x[0]);
      SignedSumRowShift(x[1..], k, off + 1, m);
    }
  }

  /** A column with the high bit `m` set gives a low block the signs of the column without it. */
  lemma {:induction false} SignedSumColShift(x: seq<real>, k: nat, off: nat, m: nat)
    requires IsPow2(m) && k < m && off + |x| <= m
    ensures SignedSum(x, k + m, off) == SignedSum(x, k, off)
    decreases |x|
  {
    if |x| > 0 {
      SignHigh(off, k, m, x[0]);
      SignedSumColShift(x[1..], k, off + 1, m);
    }
  }

  /** A high column over a high block flips every sign of its low partner. */
  lemma {:induction false} SignedSumBothShift(x: seq<real>, k: nat, off: nat, m: nat)
    requires IsPow2(m) && k < m && off + |x| <= m
    ensures SignedSum(x, k + m, off + m) == -SignedSum(x, k, off)
    decreases |x|
  {
    if |x| > 0 {
      SignHigh(off, k, m, x[0]);
      SignedSumBothShift(x[1..], k, off + 1, m);
    }
  }

  /** A low output column of the butterfly over two half transforms is the signed sum over the whole input. */
  lemma ButterflyOfWalshLow(lo: seq<real>, hi: seq<real>, k: nat)
    requires |lo| == |hi| && k < |lo|
    requires SignedSum(hi, k, |lo|) == SignedSum(hi, k, 0)
    ensures Walsh(lo)[k] + Walsh(hi)[k] == SignedSum(lo + hi, k, 0)
  {
    SignedSumAppend(lo, hi, k, 0);
    WalshAt(lo, k);
    WalshAt(hi, k);
    SumParts(Walsh(lo)[k], Walsh(hi)[k], SignedSum(lo, k, 0), SignedSum(hi, k, |lo|), SignedSum(lo + hi, k, 0));
  }

  /** Entry `k` of the explicit transform. */
  lemma WalshAt(x: seq<real>, k: nat)
    requires k < |x|
    ensures Walsh(x)[k] == SignedSum(x, k, 0)
  {
  }

  /** Two values equal to the two parts of a sum add up to it. */
  lemma SumParts(w1: real, w2: real, a: real, b: real, s: real)
    requires w1 == a && w2 == b && s == a + b
    ensures w1 + w2 == s
  {
  }

  /** A high output column of the butterfly over two half transforms is the signed sum over the whole input, given the sign shifts of `HighShifts`. */
  lemma ButterflyOfWalshHigh(lo: seq<real>, hi: seq<real>, k: nat)
    requires |lo| == |hi| && |lo| <= k < 2 * |lo|
    requires SignedSum(lo, k, 0) == SignedSum(lo, k - |lo|, 0)
    requires SignedSum(hi, k, |lo|) == -SignedSum(hi, k - |lo|, 0)
    ensures Walsh(lo)[k - |lo|] - Walsh(hi)[k - |lo|] == SignedSum(lo + hi, k, 0)
  {
    SignedSumAppend(lo, hi, k, 0);
    WalshAt(lo, k - |lo|);
    WalshAt(hi, k - |lo|);
  }

  /** The signs a high output column gives the two halves, in terms of its low partner. */
  lemma HighShifts(lo: seq<real>, hi: seq<real>, k: nat)
    requires |lo| == |hi| && IsPow2(|lo|) && |lo| <= k < 2 * |lo|
    ensures SignedSum(lo, k, 0) == SignedSum(lo, k - |lo|, 0)
    ensures SignedSum(hi, k, |lo|) == -SignedSum(hi, k - |lo|, 0)
  {
    var m := |lo|;
    SignedSumColShift(lo, k - m, 0, m);
    SignedSumBothShift(hi, k - m, 0, m);
    assert k - m + m == k;
  }

  /** One output of a butterfly over two half-size transforms, written as a signed sum. */
  lemma ButterflyOfWalsh(lo: seq<real>, hi: seq<real>, k: nat)
    requires |lo| == |hi| && IsPow2(|lo|) && k < 2 * |lo|
    ensures Butterfly(Walsh(lo), Walsh(hi))[k] == SignedSum(lo + hi, k, 0)
  {
    if k < |lo| {
      SignedSumRowShift(hi, k, 0, |lo|);
      ButterflyOfWalshLow(lo, hi, k);
    } else {
      HighShifts(lo, hi, k);
      ButterflyOfWalshHigh(lo, hi, k);
    }
  }

  /** The recursive (butterfly) transform equals the explicit popcount formula. */
  lemma {:induction false} SylvesterIsWalsh(x: seq<real>)
    requires IsPow2(|x|)
    ensures Sylvester(x) == Walsh(x)
    decreases |x|
  {
    if |x| == 1 {
      assert BitAnd(0, 0) == 0 && PopCount(0) == 0;
      assert SignedSum(x, 0, 0) == Signed(0, 0, x[0]) + SignedSum(x[1..], 0, 1);
    } else {
      SylvesterStep(x);
      var m := |x| / 2;
      var lo, hi := x[..m], x[m..];
      SylvesterIsWalsh(lo);
      SylvesterIsWalsh(hi);
      assert x == lo + hi;
      var s := Butterfly(Walsh(lo), Walsh(hi));
      forall k | 0 <= k < |x|
        ensures s[k] == Walsh(x)[k]
      {
        ButterflyOfWalsh(lo, hi, k);
      }
    }
  }

  // ---------------------------------------------------------------------
  // Algebra of the transform

  /** The butterfly commutes with pointwise linear combinations. */
  lemma ButterflyLin(a: real, u1: seq<real>, u2: seq<real>, b: real, v1: seq<real>, v2: seq<real>)
    requires |u1| == |u2| == |v1| == |v2|
    ensures Butterfly(Lin(a, u1, b, v1), Lin(a, u2, b, v2))
         == Lin(a, Butterfly(u1, u2), b, Butterfly(v1, v2))
  {
    var l := Butterfly(Lin(a, u1, b, v1), Lin(a, u2, b, v2));
    var r := Lin(a, Butterfly(u1, u2), b, Butterfly(v1, v2));
    var m := |u1|;
    forall t | 0 <= t < 2 * m
      ensures l[t] == r[t]
    {
      if t < m {
        Distrib(a, b, u1[t], v1[t], u2[t], v2[t]);
      } else {
        Distrib(a, b, u1[t - m], v1[t - m], u2[t - m], v2[t - m]);
      }
    }
  }

  /** The transform is linear (for every length, since odd lengths are left unchanged). */
  lemma {:induction false} SylvesterLinear(a: real, u: seq<real>, b: real, v: seq<real>)
    requires |u| == |v|
    ensures Sylvester(Lin(a, u, b, v)) == Lin(a, Sylvester(u), b, Sylvester(v))
    decreases |u|
  {
    if |u| > 1 && |u| % 2 == 0 {
      var m := |u| / 2;
      LinSplit(a, u, b, v, m);
      var w := Lin(a, u, b, v);
      var su1, su2 := Sylvester(u[..m]), Sylvester(u[m..]);
      var sv1, sv2 := Sylvester(v[..m]), Sylvester(v[m..]);
      assert Sylvester(w[..m]) == Lin(a, su1, b, sv1) by {
        SylvesterLinear(a, u[..m], b, v[..m]);
      }
      assert Sylvester(w[m..]) == Lin(a, su2, b, sv2) by {
        SylvesterLinear(a, u[m..], b, v[m..]);
      }
      ButterflyLin(a, su1, su2, b, sv1, sv2);
    }
  }

  /** One output of the second pass, given that each half came back scaled by its length. */
  lemma InvolutionAt(lo: seq<real>, hi: seq<real>, SA: seq<real>, SB: seq<real>, t: nat)
    requires |lo| == |hi| && t < 2 * |lo|
    requires SA == Scale(|lo| as real, lo) && SB == Scale(|hi| as real, hi)
    ensures Butterfly(Lin(1.0, SA, 1.0, SB), Lin(1.0, SA, -1.0, SB))[t]
         == Scale((2 * |lo|) as real, lo + hi)[t]
  {
    var m := |lo|;
    var l1, l2 := Lin(1.0, SA, 1.0, SB), Lin(1.0, SA, -1.0, SB);
    var z, goal := Butterfly(l1, l2), Scale((2 * m) as real, lo + hi);
    if t < m {
      DoubleEntry(z[t], l1[t], l2[t], SA[t], SB[t], goal[t], m as real, lo[t], (2 * m) as real, true);
    } else {
      var s := t - m;
      assert (lo + hi)[t] == hi[s];
      DoubleEntry(z[t], l1[s], l2[s], SA[s], SB[s], goal[t], m as real, hi[s], (2 * m) as real, false);
    }
  }

  /** The sum (`low`) or difference of `a + b` and `a - b` is twice `a` (or `b`); with that
      one `m * v`, it is `2m * v`. */
  lemma DoubleEntry(w: real, p: real, q: real, a: real, b: real, g: real, m: real, v: real, n: real, low: bool)
    requires p == 1.0 * a + 1.0 * b && q == 1.0 * a + -1.0 * b
    requires if low then w == p + q && a == m * v else w == p - q && b == m * v
    requires g == n * v && n == 2.0 * m
    ensures w == g
  {
  }

  /** Sums and differences of two linear combinations with the same coefficients. */
  lemma Distrib(a: real, b: real, u1: real, v1: real, u2: real, v2: real)
    ensures (a * u1 + b * v1) + (a * u2 + b * v2) == a * (u1 + u2) + b * (v1 + v2)
    ensures (a * u1 + b * v1) - (a * u2 + b * v2) == a * (u1 - u2) + b * (v1 - v2)
  {
  }

  /** Applying the unnormalised transform twice multiplies by the length. */
  lemma {:induction false} SylvesterInvolution(x: seq<real>)
    requires IsPow2(|x|)
    ensures Sylvester(Sylvester(x)) == Scale(|x| as real, x)
    decreases |x|
  {
    if |x| > 1 {
      SylvesterStep(x);
      var m := |x| / 2;
      var lo, hi := x[..m], x[m..];
      assert x == lo + hi;
      var A, B := Sylvester(lo), Sylvester(hi);
      var y := Sylvester(x);
      assert y[..m] == Lin(1.0, A, 1.0, B);
      assert y[m..] == Lin(1.0, A, -1.0, B);
      SylvesterStep(y);
      SylvesterLinear(1.0, A, 1.0, B);
      SylvesterLinear(1.0, A, -1.0, B);
      SylvesterInvolution(lo);
      SylvesterInvolution(hi);
      var SA, SB := Sylvester(A), Sylvester(B);
      var z := Butterfly(Lin(1.0, SA, 1.0, SB), Lin(1.0, SA, -1.0, SB));
      assert Sylvester(y) == z;
      assert |x| == 2 * |lo|;
      var goal := Scale((2 * |lo|) as real, lo + hi);
      assert goal == Scale(|x| as real, x);
      forall t | 0 <= t < |x|
        ensures z[t] == goal[t]
      {
        InvolutionAt(lo, hi, SA, SB, t);
      }
    }
  }
}
