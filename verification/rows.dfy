/** Row bookkeeping for flat row-major arrays that a loop rewrites one row at a time. */
module Rows {
  import opened Arith

  /** `y` with the positions `[a, a + |r|)` overwritten by `r`. */
  function Splice<T>(y: seq<T>, a: nat, r: seq<T>): (z: seq<T>)
    requires a + |r| <= |y|
    ensures |z| == |y|
    ensures forall q :: 0 <= q < |y| && (q < a || a + |r| <= q) ==> z[q] == y[q]
    ensures forall q :: a <= q < a + |r| ==> z[q] == r[q - a]
  {
    y[..a] + r + y[a + |r|..]
  }

  /** Overwriting a row makes that row read back as what was written. */
  lemma SpliceRow<T>(y: seq<T>, t: seq<T>, idx: nat, rs: nat)
    requires RowStart(idx, rs) + rs <= |y| && |t| == rs
    ensures Row(Splice(y, RowStart(idx, rs), t), idx, rs) == t
  {
    var a := RowStart(idx, rs);
    var zr := Splice(y, a, t)[a..a + rs];
    assert forall k | 0 <= k < rs :: zr[k] == t[k];
  }

  /** Overwriting positions after a row leaves that row alone. */
  lemma SpliceKeepsRow<T>(y: seq<T>, a: nat, r: seq<T>, i: nat, rs: nat)
    requires a + |r| <= |y| && RowStart(i, rs) + rs <= a
    ensures Row(Splice(y, a, r), i, rs) == Row(y, i, rs)
  {
    var b := RowStart(i, rs);
    var zr, yr := Splice(y, a, r)[b..b + rs], y[b..b + rs];
    assert forall k | 0 <= k < rs :: zr[k] == yr[k];
  }

  /** An earlier row ends no later than a later row begins. */
  lemma RowsBefore(i: nat, idx: nat, rs: nat)
    requires i < idx
    ensures RowStart(i, rs) + rs <= RowStart(idx, rs)
  {
    RowStartStep(i, rs);
    MulMono(i + 1, idx, rs);
  }

  /** `y` agrees with `x` outside positions `[lo, hi)`. */
  ghost predicate SameOutside<T>(y: seq<T>, x: seq<T>, lo: nat, hi: nat)
  {
    |y| == |x| && forall q :: 0 <= q < |x| && !(lo <= q < hi) ==> y[q] == x[q]
  }

  /** Writing row `idx` extends the changed range by one row. */
  lemma ReplaceRowOutside<T>(x: seq<T>, y: seq<T>, t: seq<T>, startRow: nat, idx: nat, rs: nat)
    requires startRow <= idx && RowStart(idx, rs) + rs <= |x| && |t| == rs
    requires SameOutside(y, x, RowStart(startRow, rs), RowStart(idx, rs))
    ensures SameOutside(Splice(y, RowStart(idx, rs), t), x, RowStart(startRow, rs), RowStart(idx + 1, rs))
  {
    RowStartStep(idx, rs);
    MulMono(startRow, idx, rs);
  }

  /** The row a loop is about to rewrite still holds the input. */
  lemma RowUntouched<T>(x: seq<T>, y: seq<T>, startRow: nat, idx: nat, rs: nat)
    requires startRow <= idx && RowStart(idx + 1, rs) <= |x|
    requires SameOutside(y, x, RowStart(startRow, rs), RowStart(idx, rs))
    ensures Row(y, idx, rs) == Row(x, idx, rs)
  {
    RowStartStep(idx, rs);
    MulMono(startRow, idx, rs);
    var a := RowStart(idx, rs);
    var yr, xr := y[a..a + rs], x[a..a + rs];
    assert forall k | 0 <= k < rs :: yr[k] == xr[k];
  }

  /** A row wholly outside the changed rows `[lo, hi)` reads back unchanged. */
  lemma RowOutside<T>(x: seq<T>, y: seq<T>, lo: nat, hi: nat, i: nat, rs: nat)
    requires RowStart(i + 1, rs) <= |x| && (i < lo || hi <= i)
    requires SameOutside(y, x, RowStart(lo, rs), RowStart(hi, rs))
    ensures Row(y, i, rs) == Row(x, i, rs)
  {
    RowStartStep(i, rs);
    if i < lo {
      MulMono(i + 1, lo, rs);
    } else {
      MulMono(hi, i, rs);
    }
    var a := RowStart(i, rs);
    var yr, xr := y[a..a + rs], x[a..a + rs];
    assert forall k | 0 <= k < rs :: yr[k] == xr[k];
  }

  /** Changes confined to `[lo, mid)` followed by changes confined to `[a, hi)`, with `a`
      in `[lo, mid]` or `[mid, hi]` empty, stay confined to `[lo, hi)`. */
  lemma SameOutsideChain<T>(x: seq<T>, y: seq<T>, z: seq<T>, lo: nat, mid: nat, a: nat, hi: nat)
    requires lo <= mid && lo <= a && (a <= mid || hi <= a) && (mid <= hi || hi <= a)
    requires SameOutside(y, x, lo, mid) && SameOutside(z, y, a, hi)
    ensures SameOutside(z, x, lo, if a < hi then hi else mid)
  {
  }

  /** Rows `[startRow, idx)` of `y` are `f` applied to the same rows of `x`. */
  ghost predicate RowsMapped<T>(y: seq<T>, x: seq<T>, startRow: nat, idx: nat, rs: nat, f: (nat, seq<T>) -> seq<T>)
  {
    forall i :: startRow <= i < idx ==> Row(y, i, rs) == f(i, Row(x, i, rs))
  }

  /** Writing `f` of row `idx` extends the mapped rows by one. */
  lemma ReplaceRowMapped<T>(x: seq<T>, y: seq<T>, t: seq<T>, startRow: nat, idx: nat, rs: nat,
                            f: (nat, seq<T>) -> seq<T>)
    requires |y| == |x| && RowStart(idx, rs) + rs <= |x| && |t| == rs
    requires RowsMapped(y, x, startRow, idx, rs, f)
    requires t == f(idx, Row(x, idx, rs))
    ensures RowsMapped(Splice(y, RowStart(idx, rs), t), x, startRow, idx + 1, rs, f)
  {
    var a := RowStart(idx, rs);
    forall i | startRow <= i < idx
      ensures Row(Splice(y, a, t), i, rs) == f(i, Row(x, i, rs))
    {
      RowsBefore(i, idx, rs);
      SpliceKeepsRow(y, a, t, i, rs);
    }
    SpliceRow(y, t, idx, rs);
  }

  /** One step of a row loop: when rows `[startRow, idx)` are mapped and nothing else has
      changed, writing `f` of the untouched row `idx` extends both facts by one row. */
  lemma MapNextRow<T>(x: seq<T>, y: seq<T>, t: seq<T>, startRow: nat, idx: nat, rs: nat,
                      f: (nat, seq<T>) -> seq<T>)
    requires startRow <= idx && RowStart(idx + 1, rs) <= |x| && |t| == rs
    requires RowsMapped(y, x, startRow, idx, rs, f)
    requires SameOutside(y, x, RowStart(startRow, rs), RowStart(idx, rs))
    requires t == f(idx, Row(y, idx, rs))
    ensures RowsMapped(Splice(y, RowStart(idx, rs), t), x, startRow, idx + 1, rs, f)
    ensures SameOutside(Splice(y, RowStart(idx, rs), t), x, RowStart(startRow, rs), RowStart(idx + 1, rs))
  {
    RowStartStep(idx, rs);
    RowUntouched(x, y, startRow, idx, rs);
    ReplaceRowMapped(x, y, t, startRow, idx, rs, f);
    ReplaceRowOutside(x, y, t, startRow, idx, rs);
  }

  /** A position inside the overwritten range reads what was written there. */
  lemma SpliceIn<T>(y: seq<T>, a: nat, r: seq<T>, q: nat, v: T)
    requires a + |r| <= |y| && a <= q < a + |r| && r[q - a] == v
    ensures Splice(y, a, r)[q] == v
  {
  }

  /** A position outside the overwritten range reads what was there. */
  lemma SpliceOut<T>(y: seq<T>, a: nat, r: seq<T>, q: nat)
    requires a + |r| <= |y| && q < |y| && !(a <= q < a + |r|)
    ensures Splice(y, a, r)[q] == y[q]
  {
  }
}
