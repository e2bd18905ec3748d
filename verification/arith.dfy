/** Integer facts shared by the whole model: powers of two, ceiling division,
    and the division/modulo identities that flat row-major indexing needs. */
module Arith {

  /** `n` is 1, 2, 4, 8, ... */
  predicate IsPow2(n: nat)
    decreases n
  {
    n == 1 || (n >= 2 && n % 2 == 0 && IsPow2(n / 2))
  }

  /** Start of row `i` in a flat row-major array whose rows have `stride` elements. */
  function RowStart(i: nat, stride: nat): nat
  {
    i * stride
  }

  /** The next row starts one stride later. */
  lemma RowStartStep(s: nat, c: nat)
    ensures RowStart(s + 1, c) == RowStart(s, c) + c
  {
    assert (s + 1) * c == s * c + c;
  }

  /** Row `i` of a flat row-major array with `stride` elements per row; a row that
      would run past the end is empty. */
  function Row<T>(x: seq<T>, i: nat, stride: nat): (r: seq<T>)
    ensures RowStart(i, stride) + stride <= |x| ==> r == x[RowStart(i, stride)..RowStart(i, stride) + stride]
  {
    if RowStart(i, stride) + stride <= |x| then x[RowStart(i, stride)..RowStart(i, stride) + stride] else []
  }

  /** Integer ceiling of `a / b` for non-negative `a`, as `(a + b - 1) / b`. */
  function CeilDiv(a: nat, b: nat): (r: nat)
    requires b > 0
    ensures r * b >= a
    ensures r == 0 || (r - 1) * b < a
  {
    var q := (a + b - 1) / b;
    DivModUnique(a + b - 1, b, q, (a + b - 1) % b);
    q
  }

  /** The smallest multiple of `b` that is at least `a`. */
  function RoundUp(a: nat, b: nat): (r: nat)
    requires b > 0
    ensures r % b == 0
    ensures a <= r < a + b
  {
    var q := CeilDiv(a, b);
    MulMod(q, b);
    assert q > 0 ==> q * b == (q - 1) * b + b;
    q * b
  }

  /** The smallest power of two that is at least `n`. */
  function NextPow2(n: nat): (r: nat)
    decreases n
    ensures IsPow2(r)
    ensures n <= r
    ensures r == 1 || r / 2 < n
  {
    if n <= 1 then 1 else 2 * NextPow2((n + 1) / 2)
  }

  /** No power of two at least `n` is smaller than `NextPow2(n)`. */
  lemma NextPow2IsLeast(n: nat, p: nat)
    requires IsPow2(p) && n <= p
    ensures NextPow2(n) <= p
  {
    var r := NextPow2(n);
    if r > p {
      Pow2Order(p, r);
    }
  }

  /** Powers of two are positive. */
  lemma Pow2Positive(n: nat)
    requires IsPow2(n)
    ensures n >= 1
  {
  }

  /** Doubling a power of two gives a power of two. */
  lemma Pow2Double(h: nat)
    requires IsPow2(h)
    ensures IsPow2(2 * h)
  {
    assert (2 * h) / 2 == h;
  }

  /** A smaller power of two fits twice into a larger one, evenly. */
  lemma Pow2Order(a: nat, b: nat)
    requires IsPow2(a) && IsPow2(b) && a < b
    ensures 2 * a <= b
    ensures b % (2 * a) == 0
    decreases b
  {
    if a == 1 {
      assert b >= 2 && b % 2 == 0;
    } else {
      assert a % 2 == 0 && b % 2 == 0;
      var a2, b2 := a / 2, b / 2;
      assert a == 2 * a2 && b == 2 * b2;
      Pow2Order(a2, b2);
      var k := b2 / (2 * a2);
      HalfMultiple(b2, 2 * a2, k);
      assert b == k * (2 * a) by {
        assert b2 == k * (2 * a2);
      }
      MulMod(k, 2 * a);
    }
  }

  /** A multiple of `d` is its quotient times `d`. */
  lemma HalfMultiple(n: nat, d: nat, k: nat)
    requires d > 0 && n % d == 0 && k == n / d
    ensures n == k * d
  {
  }

  /** A positive multiple of `d` is at least `d`. */
  lemma MulAtLeast(x: int, d: int)
    requires x >= 1 && d > 0
    ensures x * d >= d
  {
    assert x * d == (x - 1) * d + d;
    assert (x - 1) * d >= 0;
  }

  /** Multiplication by a natural is monotone. */
  lemma MulMono(a: nat, b: nat, d: nat)
    requires a <= b
    ensures a * d <= b * d
  {
    assert b * d == a * d + (b - a) * d;
  }

  /** Quotient and remainder are determined by any decomposition `a == q*d + r`, `0 <= r < d`. */
  lemma DivModUnique(a: int, d: int, q: int, r: int)
    requires d > 0 && 0 <= r < d && a == q * d + r
    ensures a / d == q && a % d == r
  {
    var q0, r0 := a / d, a % d;
    assert a == q0 * d + r0;
    assert (q - q0) * d == r0 - r;
    if q > q0 {
      MulAtLeast(q - q0, d);
    } else if q < q0 {
      MulAtLeast(q0 - q, d);
    }
  }

  /** A multiple of `d` leaves no remainder and gives back its factor. */
  lemma MulMod(k: nat, d: nat)
    requires d > 0
    ensures (k * d) % d == 0 && (k * d) / d == k
  {
    DivModUnique(k * d, d, k, 0);
  }

  /** Position `t` of the block that starts at `j * d` has quotient `j` and remainder `t - j*d`. */
  lemma DivBlock(t: nat, j: nat, d: nat)
    requires d > 0 && j * d <= t < j * d + d
    ensures t / d == j && t % d == t - j * d
  {
    DivModUnique(t, d, j, t - j * d);
  }

  /** Removing one `d` keeps the remainder and lowers the quotient by one. */
  lemma ModShift(a: nat, d: nat)
    requires d > 0 && a >= d
    ensures (a - d) % d == a % d && (a - d) / d == a / d - 1
  {
    DivModUnique(a - d, d, a / d - 1, a % d);
  }

  /** A number below `d` is its own remainder. */
  lemma ModSmall(a: nat, d: nat)
    requires a < d
    ensures a % d == a && a / d == 0
  {
    DivModUnique(a, d, 0, a);
  }

  /** A non-empty multiple of `d` holds at least one block of `d`, and removing it leaves a multiple. */
  lemma MultipleStep(n: nat, d: nat)
    requires d > 0 && n > 0 && n % d == 0
    ensures n >= d && (n - d) % d == 0
  {
    if n < d { ModSmall(n, d); }
    ModShift(n, d);
  }

  /** Adding `d` to a multiple of `d` gives a multiple of `d`. */
  lemma MultipleAdd(n: nat, d: nat)
    requires d > 0 && n % d == 0
    ensures (n + d) % d == 0
  {
    ModShift(n + d, d);
  }

  /** `p` inside the block `[i, i + d)` that starts at a multiple `i` of `d` has remainder `p - i`. */
  lemma ModInBlock(i: nat, p: nat, d: nat)
    requires d > 0 && i % d == 0 && i <= p < i + d
    ensures p % d == p - i
  {
    DivModUnique(p, d, i / d, p - i);
  }

  /** Between two distinct multiples of `d` there is room for a whole block. */
  lemma MultiplesGap(i: nat, n: nat, d: nat)
    requires d > 0 && i % d == 0 && n % d == 0 && i < n
    ensures i + d <= n
  {
    var a, b := i / d, n / d;
    assert i == a * d && n == b * d;
    if a >= b { MulMono(b, a, d); }
    MulMono(a + 1, b, d);
  }

  /** Divisibility is transitive. */
  lemma ModTrans(n: nat, c: nat, d: nat)
    requires c > 0 && d > 0 && n % c == 0 && c % d == 0
    ensures n % d == 0
  {
    var x, y := n / c, c / d;
    assert n == x * c && c == y * d;
    assert n == (x * y) * d;
    MulMod(x * y, d);
  }

}
