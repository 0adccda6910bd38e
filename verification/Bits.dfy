/**
 Word-level arithmetic used by the queues: powers of two, bitwise `or`/`and` on
 naturals, the round-up-to-a-power-of-two bit trick, and the circular order on
 wrapped indices. Everything is stated for every word width.
 */
module Bits {

  function Pow2(n: nat): (p: nat)
    ensures p >= 1
  {
    if n == 0 then 1 else 2 * Pow2(n - 1)
  }

  function Min(a: nat, b: nat): nat {
    if a < b then a else b
  }

  function Or(x: nat, y: nat): nat
    decreases x
  {
    if x == 0 then y
    else 2 * Or(x / 2, y / 2) + (if x % 2 == 1 || y % 2 == 1 then 1 else 0)
  }

  function And(x: nat, y: nat): nat
    decreases x
  {
    if x == 0 then 0
    else 2 * And(x / 2, y / 2) + (if x % 2 == 1 && y % 2 == 1 then 1 else 0)
  }

  ghost predicate IsPow2(x: nat) {
    exists n: nat :: x == Pow2(n)
  }

  lemma {:induction false} Pow2Add(m: nat, n: nat)
    ensures Pow2(m + n) == Pow2(m) * Pow2(n)
  {
    if m != 0 {
      Pow2Add(m - 1, n);
      assert Pow2(m + n) == 2 * Pow2(m - 1 + n);
    }
  }

  lemma {:induction false} Pow2Grows(m: nat, n: nat)
    requires m < n
    ensures 2 * Pow2(m) <= Pow2(n)
    decreases n
  {
    if m + 1 < n { Pow2Grows(m, n - 1); }
  }

  lemma Pow2Order(m: nat, n: nat)
    requires Pow2(m) <= Pow2(n)
    ensures m <= n
  {
    if n < m { Pow2Grows(n, m); }
  }

  lemma Pow2Below(m: nat, n: nat)
    requires Pow2(m) < Pow2(n)
    ensures m < n
  {
    if n < m { Pow2Grows(n, m); }
  }

  lemma DoubledIsPow2(x: nat)
    requires IsPow2(x)
    ensures IsPow2(2 * x)
  {
    var n: nat :| x == Pow2(n);
    assert 2 * x == Pow2(n + 1);
  }

  lemma {:induction false} OrBounds(n: nat, x: nat, y: nat)
    requires x < Pow2(n) && y < Pow2(n)
    ensures x <= Or(x, y) < Pow2(n) && y <= Or(x, y)
    decreases n
  {
    if n != 0 && x != 0 { OrBounds(n - 1, x / 2, y / 2); }
  }

  /** `a << k`. */
  function Shl(a: nat, k: nat): nat {
    if k == 0 then a else 2 * Shl(a, k - 1)
  }

  /** `a >> k`. */
  function Shr(a: nat, k: nat): nat {
    if k == 0 then a else Shr(a / 2, k - 1)
  }

  /** A low operand leaves the high part of the other operand alone. */
  lemma {:induction false} OrHigh(k: nat, a: nat, b: nat, c: nat)
    requires b < Pow2(k) && c < Pow2(k)
    ensures Or(Shl(a, k) + b, c) == Shl(a, k) + Or(b, c)
    decreases k
  {
    if k == 0 {
      OrZero(a);
    } else {
      var h := Shl(a, k - 1);
      assert (2 * h + b) / 2 == h + b / 2 && (2 * h + b) % 2 == b % 2;
      OrHigh(k - 1, a, b / 2, c / 2);
    }
  }

  lemma {:induction false} OrZero(a: nat)
    ensures Or(a, 0) == a
    decreases a
  {
    if a != 0 { OrZero(a / 2); }
  }

  /** Masking with `size - 1` is the remainder when `size` is a power of two. */
  lemma {:induction false} MaskIsRemainder(x: nat, k: nat)
    ensures And(x, Pow2(k) - 1) == x % Pow2(k)
    decreases k
  {
    if k == 0 {
      assert And(x, 0) == 0 by { AndZero(x); }
    } else {
      var m := Pow2(k - 1);
      assert (Pow2(k) - 1) / 2 == m - 1 && (Pow2(k) - 1) % 2 == 1;
      MaskIsRemainder(x / 2, k - 1);
      HalfRemainder(x, m);
    }
  }

  lemma HalfRemainder(x: nat, m: nat)
    requires m >= 1
    ensures x % (2 * m) == 2 * ((x / 2) % m) + x % 2
  {
    var q, r := (x / 2) / m, (x / 2) % m;
    assert x == (2 * m) * q + (2 * r + x % 2) by {
      assert x / 2 == m * q + r;
      assert (2 * m) * q == 2 * (m * q);
    }
    RemainderUnique(x, 2 * m, q, 2 * r + x % 2);
  }

  lemma RemainderUnique(x: int, d: nat, q: int, r: nat)
    requires d >= 1 && r < d && x == d * q + r
    ensures x % d == r && x / d == q
  {
    var k := x / d - q;
    assert d * k == r - x % d by {
      assert x == d * (x / d) + x % d;
      assert d * k == d * (x / d) - d * q;
    }
    SmallMultiple(d, k);
  }

  /** A multiple of `d` strictly between `-d` and `d` is zero. */
  lemma SmallMultiple(d: int, k: int)
    requires -d < d * k < d
    ensures k == 0
  {
    if k != 0 { MultipleGrows(d, k); }
  }

  lemma MultipleGrows(d: int, k: int)
    requires d > 0 && k != 0
    ensures d * k >= d || d * k <= -d
  {
    if k >= 1 { MulMono(1, k, d); } else { MulMono(1, -k, d); }
  }

  lemma DivMod(y: nat, d: nat)
    requires d >= 1
    ensures y == y / d * d + y % d && y % d < d
  {}

  lemma RemainderBelow(x: nat, size: nat)
    requires size >= 1
    ensures x % size <= x
  {
    DivMod(x, size);
    MulMono(0, x / size, size);
  }

  lemma {:induction false} AndZero(x: nat)
    ensures And(x, 0) == 0
    decreases x
  {
    if x != 0 { AndZero(x / 2); }
  }

  /** The index step `(x + 1) & sizeMask` on a power-of-two ring, without the remainder. */
  function Inc(x: nat, size: nat): (r: nat)
    requires x < size
    ensures r < size
  {
    if x + 1 == size then 0 else x + 1
  }

  lemma IncIsMaskedStep(x: nat, k: nat)
    requires x < Pow2(k)
    ensures Inc(x, Pow2(k)) == And(x + 1, Pow2(k) - 1)
  {
    var m := Pow2(k);
    MaskIsRemainder(x + 1, k);
    if x + 1 == m { RemainderUnique(x + 1, m, 1, 0); } else { RemainderUnique(x + 1, m, 0, x + 1); }
  }

  /** On a ring whose size is a power of two, the step is the masked increment. */
  lemma MaskedStep(x: nat, size: nat)
    requires IsPow2(size) && x < size
    ensures And(x + 1, size - 1) == Inc(x, size)
  {
    var k: nat :| size == Pow2(k);
    IncIsMaskedStep(x, k);
  }

  // ---------------------------------------------------------------------------
  // ceil_to_pow_2
  // ---------------------------------------------------------------------------

  /** `y` has top bit `p`, and its top `len` bits (or all of them) are ones. */
  ghost predicate Smeared(y: nat, p: nat, len: nat) {
    y < Pow2(p + 1) && y + Pow2(if len <= p + 1 then p + 1 - len else 0) >= Pow2(p + 1)
  }

  /** One smearing step, `y |= y >> n`. */
  function Smear(y: nat, n: nat): nat {
    Or(y, Shr(y, n))
  }

  lemma {:induction false} ShrBelow(y: nat, len: nat, k: nat)
    requires y < Pow2(k + len)
    ensures Shr(y, len) < Pow2(k) && Shr(y, len) <= y
    decreases len
  {
    if len != 0 { ShrBelow(y / 2, len - 1, k); }
  }

  lemma {:induction false} ShrAtLeast(y: nat, len: nat, k: nat, c: nat)
    requires y + Pow2(c + len) >= Pow2(k + len)
    ensures Shr(y, len) + Pow2(c) >= Pow2(k)
    decreases len
  {
    if len != 0 { ShrAtLeast(y / 2, len - 1, k, c); }
  }

  lemma {:induction false} ShlAtLeast(a: nat, len: nat, k: nat)
    requires a + 1 >= Pow2(len)
    ensures Shl(a, k) + Pow2(k) >= Pow2(len + k)
    decreases k
  {
    if k != 0 { ShlAtLeast(a, len, k - 1); }
  }

  /** Shifting down and up again loses only the low bits. */
  lemma {:induction false} ShrShl(y: nat, k: nat)
    ensures Shl(Shr(y, k), k) <= y < Shl(Shr(y, k), k) + Pow2(k)
    decreases k
  {
    if k != 0 { ShrShl(y / 2, k - 1); }
  }

  /** The run of leading ones, moved down by `len`, still reaches the bits below it. */
  lemma SmearLow(y: nat, p: nat, len: nat)
    requires Smeared(y, p, len) && 1 <= len <= p + 1
    ensures Shr(y, len) < Pow2(p + 1 - len)
    ensures Shr(y, len) + Pow2(if 2 * len <= p + 1 then p + 1 - 2 * len else 0) >= Pow2(p + 1 - len)
  {
    var k := p + 1 - len;
    ShrBelow(y, len, k);
    if len <= k {
      ShrAtLeast(y, len, k, k - len);
    } else {
      Pow2Grows(k, len);
      ShrAtLeast(y, len, k, 0);
    }
  }

  lemma SmearBounds(y: nat, n: nat, len: nat)
    requires y < Pow2(n)
    ensures y <= Smear(y, len) < Pow2(n)
  {
    if len != 0 { Pow2Grows(n, n + len); }
    ShrBelow(y, len, n);
    OrBounds(n, y, Shr(y, len));
  }

  /** One smearing step doubles the run of leading ones. */
  lemma SmearStep(y: nat, p: nat, len: nat)
    requires Smeared(y, p, len) && len >= 1
    ensures Smeared(Smear(y, len), p, 2 * len)
  {
    SmearBounds(y, p + 1, len);
    if len <= p + 1 {
      var k := p + 1 - len;
      SmearLow(y, p, len);
      ShrAtLeast(y, k, len, 0);
      ShlAtLeast(Shr(y, k), len, k);
      ShrShl(y, k);
      SmearCombine(k, Shr(y, k), y - Shl(Shr(y, k), k), Shr(y, len));
    }
  }

  lemma SmearCombine(k: nat, a: nat, b: nat, z: nat)
    requires b < Pow2(k) && z < Pow2(k)
    ensures Or(Shl(a, k) + b, z) >= Shl(a, k) + z
  {
    OrHigh(k, a, b, z);
    OrBounds(k, b, z);
  }

  lemma MulMono(a: nat, b: nat, c: nat)
    requires a <= b
    ensures a * c <= b * c
  {}

  /** Every positive number has a top bit. */
  lemma {:induction false} TopBit(x: nat, w: nat) returns (p: nat)
    requires 1 <= x < Pow2(w)
    ensures p < w && Pow2(p) <= x < Pow2(p + 1)
    decreases w
  {
    if x < Pow2(w - 1) {
      p := TopBit(x, w - 1);
    } else {
      p := w - 1;
    }
  }

  /** The state of the smearing loop started on `start`. */
  ghost predicate Smearing(start: nat, y: nat, p: nat, len: nat) {
    if start == 0 then y == 0 else Smeared(y, p, len)
  }

  lemma SmearingStep(start: nat, y: nat, p: nat, len: nat)
    requires Smearing(start, y, p, len) && len >= 1
    ensures Smearing(start, Smear(y, len), p, 2 * len)
  {
    if start == 0 { ShrBelow(0, len, 0); } else { SmearStep(y, p, len); }
  }

  lemma SmearStart(y: nat, w: nat) returns (p: nat)
    requires w >= 1 && y < Pow2(w)
    ensures p < w && (y > 0 ==> Pow2(p) <= y < Pow2(p + 1))
    ensures Smearing(y, Smear(Smear(Smear(y, 1), 2), 4), p, 8)
  {
    p := 0;
    if y > 0 { p := TopBit(y, w); }
    SmearingStep(y, y, p, 1);
    SmearingStep(y, Smear(y, 1), p, 2);
    SmearingStep(y, Smear(Smear(y, 1), 2), p, 4);
  }

  ghost predicate IsLeastPow2(r: nat, x: nat) {
    IsPow2(r) && x <= r && forall n: nat :: x <= Pow2(n) ==> r <= Pow2(n)
  }

  /** Clearing the spare slot: `Pow2(p) < x <= Pow2(p + 1)` pins the rounded value. */
  lemma LeastPow2Between(x: nat, p: nat)
    requires Pow2(p) < x <= Pow2(p + 1)
    ensures IsLeastPow2(Pow2(p + 1), x)
  {
    forall n: nat | x <= Pow2(n) ensures Pow2(p + 1) <= Pow2(n) {
      if n <= p {
        if n < p { Pow2Grows(n, p); }
        assert false;
      }
      if p + 1 < n { Pow2Grows(p + 1, n); }
    }
  }

  lemma LeastPow2One()
    ensures IsLeastPow2(1, 1)
  {
    assert 1 == Pow2(0);
  }

  /**
   The bit trick of both libraries, on a word of `bytes` bytes: decrement, smear the
   top bit downwards, increment. Zero and anything above the largest power of two
   of the word come out as zero (the increment wraps).
   */
  method CeilToPow2(x: nat, bytes: nat) returns (r: nat)
    requires bytes >= 1 && x < Pow2(8 * bytes)
    ensures 1 <= x <= Pow2(8 * bytes - 1) ==> IsLeastPow2(r, x)
    ensures x == 0 || x > Pow2(8 * bytes - 1) ==> r == 0
  {
    var w := 8 * bytes;
    var y: nat := if x == 0 then Pow2(w) - 1 else x - 1;
    ghost var start := y;
    ghost var p := SmearStart(y, w);
    y := Smear(y, 1);
    y := Smear(y, 2);
    y := Smear(y, 4);
    var i := 1;
    while i < bytes
      invariant 1 <= i
      invariant Smearing(start, y, p, 8 * i)
      decreases bytes - i
    {
      SmearingStep(start, y, p, 8 * i);
      y := Smear(y, 8 * i);
      i := 2 * i;
    }
    r := if y + 1 == Pow2(w) then 0 else y + 1;
    CeilResult(x, start, y, p, w, 8 * i);
  }

  /** What the increment at the end makes of a fully smeared word. */
  lemma CeilResult(x: nat, start: nat, y: nat, p: nat, w: nat, len: nat)
    requires w >= 1 && x < Pow2(w) && start == (if x == 0 then Pow2(w) - 1 else x - 1)
    requires Smearing(start, y, p, len) && len >= w && p < w
    requires start > 0 ==> Pow2(p) <= start < Pow2(p + 1)
    ensures x == 0 || x > Pow2(w - 1) ==> y + 1 == Pow2(w)
    ensures 1 <= x <= Pow2(w - 1) ==> y + 1 < Pow2(w) && IsLeastPow2(y + 1, x)
  {
    if start == 0 {
      LeastPow2One();
    } else if x == 0 || x > Pow2(w - 1) {
      if p + 2 < w { Pow2Grows(p + 1, w - 1); }
    } else {
      if p + 1 == w { assert false; }
      Pow2Grows(p + 1, w);
      LeastPow2Between(x, p);
    }
  }

  // ---------------------------------------------------------------------------
  // Wrapped indices
  // ---------------------------------------------------------------------------

  function Wrap(x: int, w: nat): (r: nat)
    ensures r < Pow2(w)
  {
    x % Pow2(w)
  }

  /** The word subtraction `a - b`. */
  function WordSub(a: nat, b: nat, w: nat): nat {
    Wrap(a - b, w)
  }

  /** `circular_less_than` on words of width `w`. */
  predicate CircularLess(a: nat, b: nat, w: nat)
    requires w >= 1
  {
    WordSub(a, b, w) > Pow2(w - 1)
  }

  /** Subtracting words gives the wrapped true difference. */
  lemma WrapSub(x: int, y: int, w: nat)
    ensures WordSub(Wrap(x, w), Wrap(y, w), w) == Wrap(x - y, w)
  {
    var m := Pow2(w);
    var q1, q2 := x / m, y / m;
    var d := x % m - y % m;
    assert x - y == m * (q1 - q2) + d by { assert m * (q1 - q2) == m * q1 - m * q2; }
    var q, r := d / m, d % m;
    assert x - y == m * (q1 - q2 + q) + r by {
      assert m * (q1 - q2 + q) == m * (q1 - q2) + m * q;
    }
    RemainderUnique(x - y, m, q1 - q2 + q, r);
  }

  /** Adding to a word gives the wrapped true sum. */
  lemma WrapSum(x: int, y: int, w: nat)
    ensures Wrap(Wrap(x, w) + y, w) == Wrap(x + y, w)
  {
    var m := Pow2(w);
    var q, d := x / m, x % m + y;
    var p, r := d / m, d % m;
    assert x + y == m * (q + p) + r by { assert m * (q + p) == m * q + m * p; }
    RemainderUnique(x + y, m, q + p, r);
  }

  lemma RemainderTwice(n: int, d: nat, c: nat)
    requires d >= 1 && c >= 1 && d * c >= 1
    ensures n % (d * c) % d == n % d
  {
    var m := d * c;
    var p, x := n / m, n % m;
    var q, r := x / d, x % d;
    assert n == d * (p * c + q) + r by { SplitTwice(n, d, c, p, q, r); }
    RemainderUnique(n, d, p * c + q, r);
  }

  lemma SplitTwice(n: int, d: nat, c: nat, p: int, q: int, r: nat)
    requires n == d * c * p + (d * q + r)
    ensures n == d * (p * c + q) + r
  {
    assert d * (p * c + q) == d * (p * c) + d * q;
    assert d * c * p == d * (p * c);
  }

  /** Masking a wrapped number with a narrower mask gives the remainder of the number itself. */
  lemma MaskedWrap(x: int, k: nat, w: nat)
    requires k <= w
    ensures And(Wrap(x, w), Pow2(k) - 1) == x % Pow2(k)
  {
    MaskIsRemainder(Wrap(x, w), k);
    Pow2Add(k, w - k);
    RemainderTwice(x, Pow2(k), Pow2(w - k));
  }

  /** On small differences the wrapped value shows the sign. */
  lemma WrapSmall(d: int, w: nat)
    requires w >= 1 && 0 - Pow2(w) <= d < Pow2(w)
    ensures Wrap(d, w) == if d >= 0 then d else d + Pow2(w)
  {
    RemainderUnique(d, Pow2(w), if d >= 0 then 0 else -1, if d >= 0 then d else d + Pow2(w));
  }

  /** Different numbers less than a whole range apart have different words. */
  lemma WordsDiffer(x: int, y: int, w: nat)
    requires x < y < x + Pow2(w)
    ensures Wrap(x, w) != Wrap(y, w)
  {
    var m := Pow2(w);
    if x % m == y % m {
      assert y - x == m * (y / m - x / m) by { assert m * (y / m - x / m) == m * (y / m) - m * (x / m); }
      SmallMultiple(m, y / m - x / m);
    }
  }

  /**
   For true indices less than half the range apart, the wrapped comparison is the
   true comparison; `CircularLessExact` gives the exact window.
   */
  lemma CircularLessAgrees(x: int, y: int, w: nat)
    requires w >= 1 && 0 - Pow2(w - 1) < x - y < Pow2(w - 1)
    ensures CircularLess(Wrap(x, w), Wrap(y, w), w) <==> x < y
  {
    WrapSub(x, y, w);
    WrapSmall(x - y, w);
  }

  /**
   The exact window: for true indices less than a whole range apart, the wrapped
   comparison agrees with the true one if and only if `y - x` is not in the upper
   half and `x - y` does not exceed half the range.
   */
  lemma CircularLessExact(x: int, y: int, w: nat)
    requires w >= 1 && 0 - Pow2(w) < x - y < Pow2(w)
    ensures (CircularLess(Wrap(x, w), Wrap(y, w), w) <==> x < y)
       <==> 0 - Pow2(w - 1) < x - y <= Pow2(w - 1)
  {
    WrapSub(x, y, w);
    WrapSmall(x - y, w);
  }
}
