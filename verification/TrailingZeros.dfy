/** fmt's removal of trailing decimal zeros by modular inverses, and the arithmetic it stands on. */
module TrailingZeros {
  import opened Arithmetic
  import opened Decimal

  function Pow2(k: nat): (p: nat)
    ensures p > 0
  {
    if k == 0 then 1 else 2 * Pow2(k - 1)
  }

  lemma {:induction false} Pow2Sum(a: nat, b: nat)
    ensures Pow2(a + b) == Pow2(a) * Pow2(b)
  {
    if a > 0 { Pow2Sum(a - 1, b); }
  }

  lemma Pow2Values()
    ensures Pow2(1) == 2 && Pow2(2) == 4 && Pow2(26) == 0x400_0000 && Pow2(30) == 0x4000_0000 && Pow2(31) == 0x8000_0000
    ensures Pow2(32) == 0x1_0000_0000 && Pow2(62) == 0x4000_0000_0000_0000 && Pow2(63) == 0x8000_0000_0000_0000
    ensures Pow2(64) == 0x1_0000_0000_0000_0000
  {
    assert Pow2(1) == 2 && Pow2(2) == 4 && Pow2(4) == 16 && Pow2(6) == 64;
    hide Pow2;
    Pow2Sum(4, 4);
    Pow2Sum(8, 8);
    Pow2Sum(16, 8);
    Pow2Sum(24, 2);
    Pow2Sum(24, 6);
    Pow2Sum(30, 1);
    Pow2Sum(16, 16);
    Pow2Sum(32, 30);
    Pow2Sum(32, 31);
    Pow2Sum(32, 32);
  }

  /** Bitwise or */
  function BitOr(a: nat, b: nat): nat {
    if a == 0 && b == 0 then 0
    else 2 * BitOr(a / 2, b / 2) + (if a % 2 == 1 || b % 2 == 1 then 1 else 0)
  }

  /** Numbers without a common bit are added. */
  lemma {:induction false} DisjointOr(a: nat, b: nat, k: nat)
    requires a < Pow2(k) && b % Pow2(k) == 0
    ensures BitOr(a, b) == a + b
    decreases k, b
  {
    if a == 0 && b == 0 {
    } else if k == 0 {
      assert b / 2 % Pow2(0) == 0;
      DisjointOr(0, b / 2, 0);
    } else {
      var h := Pow2(k - 1);
      assert b == 2 * h * (b / (2 * h));
      assert b == 2 * (h * (b / (2 * h)));
      assert b / 2 == h * (b / (2 * h)) + 0;
      ModUnique(b / 2, h, b / (2 * h), 0);
      DisjointOr(a / 2, b / 2, k - 1);
    }
  }

  function ShiftedRight(n: nat, d: nat): nat
    requires 0 < d
  {
    n / d
  }

  /** A word times a power of two, without the bits that leave the word */
  function ShiftedLeft(n: nat, h: nat, w: nat): nat
    requires 0 < w
  {
    n * h % w
  }

  /** rotr on words of `width` bits */
  function Rotr(n: nat, r: nat, width: nat): nat
    requires r < width
  {
    BitOr(ShiftedRight(n, Pow2(r)), ShiftedLeft(n, Pow2(width - r), Pow2(width)))
  }

  /** A word `m` turned right by the bits of `t`, where `h` is the weight of the lowest bit that moves to the top. */
  function Turned(m: nat, t: nat, h: nat): nat
    requires 0 < t
  {
    m / t + m % t * h
  }

  lemma OrIsTurned(n: nat, t: nat, h: nat, k: nat)
    requires 0 < t && h == Pow2(k) && n < t * h
    ensures BitOr(ShiftedRight(n, t), ShiftedLeft(n, h, t * h)) == Turned(n, t, h)
  {
    hide Pow2, BitOr;
    QuotientLess(n, t, h);
    TopBits(n, t, h);
    DisjointOr(n / t, n % t * h, k);
  }

  lemma RotrIsTurned(n: nat, r: nat, width: nat)
    requires 0 < r < width && n < Pow2(width)
    ensures Rotr(n, r, width) == Turned(n, Pow2(r), Pow2(width - r))
  {
    hide Pow2, BitOr, Turned, ShiftedLeft, ShiftedRight;
    Pow2Sum(r, width - r);
    OrIsTurned(n, Pow2(r), Pow2(width - r), width - r);
  }

  lemma Small(r: nat, m: nat)
    requires r < m
    ensures r % m == r
  {
  }

  lemma MulLess(d: nat, a: int, b: int)
    requires d * a < d * b
    ensures a < b
  {
    assert d * (b - a) == d * b - d * a;
    MulGap(d, b - a);
  }

  lemma QuotientLess(n: nat, t: nat, h: nat)
    requires 0 < t && n < t * h
    ensures n / t < h
  {
    assert t * (n / t) <= n;
    MulLess(t, n / t, h);
  }

  lemma TopBits(n: nat, t: nat, h: nat)
    requires 0 < t && 0 < h
    ensures n * h % (t * h) == n % t * h && n % t * h % h == 0
  {
    var a, b := n / t, n % t;
    assert n == t * a + b;
    Distribute(t, a, b, h);
    ModUnique(n * h, t * h, a, b * h);
    ModUnique(b * h, h, b, 0);
  }

  lemma Distribute(t: nat, a: nat, b: nat, h: nat)
    requires b < t && 0 < h
    ensures (t * a + b) * h == (t * h) * a + b * h && b * h < t * h
  {
    assert (t * a + b) * h == t * a * h + b * h;
    assert t * a * h == (t * h) * a;
    assert t * h == b * h + (t - b) * h;
  }

  // Division by a modular inverse

  /** `inv` undoes multiplication by `f` modulo `w`. */
  lemma ExactQuotient(x: nat, f: nat, w: nat, inv: nat, c: nat)
    requires 0 < f && f * inv == 1 + w * c && f * x < w
    ensures f * x * inv % w == x
  {
    Regrouped(x, f, inv);
    Expanded(w, c, x);
    MulMono(1, f, x);
    ModUnique(f * x * inv, w, c * x, x);
  }

  lemma Regrouped(x: nat, f: nat, inv: nat)
    ensures f * x * inv == f * inv * x == f * (x * inv)
  {
  }

  lemma Expanded(w: nat, c: nat, x: nat)
    ensures (1 + w * c) * x == w * (c * x) + x
  {
    assert w * c * x == w * (c * x);
  }

  lemma MulMono(a: nat, b: nat, x: nat)
    requires a <= b
    ensures a * x <= b * x && x * a <= x * b
  {
    assert b * x == a * x + (b - a) * x;
  }

  lemma Multiple(n: nat, m: nat, f: nat, w: nat, inv: nat, c: nat)
    requires 0 < w && f * inv == 1 + w * c && m == n * inv % w && n < w && f * m < w
    ensures n == f * m
  {
    MultipleOf(n, m, f, w, inv, c, n * inv / w);
  }

  lemma MultipleOf(n: nat, m: nat, f: nat, w: nat, inv: nat, c: nat, a: nat)
    requires 0 < w && f * inv == 1 + w * c && n * inv == w * a + m && n < w && f * m < w
    ensures n == f * m
  {
    Regrouped(n, f, inv);
    Expanded(w, c, n);
    Distributed(f, w, a, m);
    Difference(w, f * a, c * n);
    MulGap(w, f * a - c * n);
  }

  lemma Distributed(f: nat, w: nat, a: nat, m: nat)
    ensures f * (w * a + m) == w * (f * a) + f * m
  {
    assert f * (w * a) == w * (f * a);
  }

  lemma Difference(w: nat, x: nat, y: nat)
    ensures w * x - w * y == w * (x - y)
  {
  }

  lemma QuotientBound(n: nat, d: nat, w: nat)
    requires 0 < d && n < w
    ensures n / d <= (w - 1) / d
  {
    var q, p := n / d, (w - 1) / d;
    assert d * q <= n && w - 1 < d * p + d;
    assert d * (p + 1) == d * p + d;
    MulLess(d, q, p + 1);
  }

  lemma SmallQuotient(q: nat, d: nat, w: nat)
    requires 0 < d && 0 < w && q <= (w - 1) / d
    ensures d * q <= w - 1
  {
    var p := (w - 1) / d;
    assert d * p <= w - 1 && d * p == d * q + d * (p - q);
  }

  lemma QuotientSmall(q: nat, f: nat, t: nat, h: nat)
    requires 0 < f && f * t * q < t * h
    ensures q < h
  {
    assert f * t * q == f * (t * q);
    MulGap(t * q, f);
    assert f * (t * q) == t * q * f;
    MulLess(t, q, h);
  }

  /** A word whose lower bits are not all zero turns into a large one. */
  lemma TurnedSmall(m: nat, f: nat, t: nat, h: nat)
    requires 0 < f && 0 < t && 0 < h && f * t * Turned(m, t, h) < t * h
    ensures m == t * Turned(m, t, h)
  {
    QuotientSmall(Turned(m, t, h), f, t, h);
    TurnedLess(m, t, h);
  }

  lemma TurnedLess(m: nat, t: nat, h: nat)
    requires 0 < t && 0 < h && Turned(m, t, h) < h
    ensures m == t * Turned(m, t, h)
  {
    PartsLess(m / t, m % t, h);
  }

  lemma PartsLess(a: nat, b: nat, h: nat)
    requires a + b * h < h
    ensures b == 0
  {
    MulGap(h, b);
    assert h * b == b * h;
  }

  lemma ByInverseIf(n: nat, f: nat, t: nat, h: nat, w: nat, inv: nat, c: nat)
    requires 0 < f && 0 < t && 0 < h && w == t * h && f * inv == 1 + w * c && n < w && 0 < f * t && n % (f * t) == 0
    ensures Turned(n * inv % w, t, h) == n / (f * t) <= (w - 1) / (f * t)
  {
    var k := n / (f * t);
    assert n == f * t * k;
    assert f * t * k == f * (t * k);
    ExactQuotient(t * k, f, w, inv, c);
    ModUnique(t * k, t, k, 0);
    DivUnique(t * k, t, k);
    QuotientBound(n, f * t, w);
  }

  lemma DivUnique(x: nat, t: nat, k: nat)
    requires 0 < t && x == t * k
    ensures x / t == k
  {
    ModUnique(x, t, k, 0);
    assert t * (x / t) == t * k;
    MulGap(t, x / t - k);
    assert t * (x / t - k) == 0;
  }

  lemma ByInverseOnlyIf(n: nat, f: nat, t: nat, h: nat, w: nat, inv: nat, c: nat)
    requires 0 < f && 0 < t && 0 < h && w == t * h && f * inv == 1 + w * c && n < w && 0 < f * t
    requires Turned(n * inv % w, t, h) <= (w - 1) / (f * t)
    ensures n % (f * t) == 0
  {
    var m := n * inv % w;
    var q := Turned(m, t, h);
    SmallQuotient(q, f * t, w);
    TurnedSmall(m, f, t, h);
    assert f * t * q == f * (t * q);
    Multiple(n, m, f, w, inv, c);
    ModUnique(n, f * t, q, 0);
  }

  /** The test is exact: the turned product is small if and only if f * t divides n, and it is then the quotient. */
  lemma ByInverse(n: nat, f: nat, t: nat, h: nat, w: nat, inv: nat, c: nat)
    requires 0 < f && 0 < t && 0 < h && w == t * h && f * inv == 1 + w * c && n < w && 0 < f * t
    ensures var q := Turned(n * inv % w, t, h);
            && (q <= (w - 1) / (f * t) <==> n % (f * t) == 0)
            && (n % (f * t) == 0 ==> q == n / (f * t))
  {
    hide Turned;
    if n % (f * t) == 0 { ByInverseIf(n, f, t, h, w, inv, c); }
    if Turned(n * inv % w, t, h) <= (w - 1) / (f * t) { ByInverseOnlyIf(n, f, t, h, w, inv, c); }
  }

  // Machine words

  const TWO32: nat := 0x1_0000_0000
  const TWO64: nat := 0x1_0000_0000_0000_0000

  type U32 = n: nat | n < TWO32
  type U64 = n: nat | n < TWO64

  const INV5_32: U32 := 0xcccc_cccd
  const INV25_32: U32 := INV5_32 * INV5_32 % TWO32
  const INV5_64: U64 := 0xcccc_cccc_cccc_cccd
  const INV25_64: U64 := INV5_64 * INV5_64 % TWO64

  function Hundredth32(n: U32): nat { Rotr(n * INV25_32 % TWO32, 2, 32) }
  function Tenth32(n: U32): nat { Rotr(n * INV5_32 % TWO32, 1, 32) }
  function Hundredth64(n: U64): nat { Rotr(n * INV25_64 % TWO64, 2, 64) }
  function Tenth64(n: U64): nat { Rotr(n * INV5_64 % TWO64, 1, 64) }

  /** Divisibility by 100, on 32-bit words */
  lemma HundredthExact32(n: U32)
    ensures Hundredth32(n) <= (TWO32 - 1) / 100 <==> n % 100 == 0
    ensures n % 100 == 0 ==> Hundredth32(n) == n / 100
  {
    Pow2Values();
    hide Pow2, Rotr, Turned;
    RotrIsTurned(n * INV25_32 % TWO32, 2, 32);
    ByInverse(n, 25, 4, 0x4000_0000, TWO32, INV25_32, 19);
  }

  /** Divisibility by 10, on 32-bit words */
  lemma TenthExact32(n: U32)
    ensures Tenth32(n) <= (TWO32 - 1) / 10 <==> n % 10 == 0
    ensures n % 10 == 0 ==> Tenth32(n) == n / 10
  {
    Pow2Values();
    hide Pow2, Rotr, Turned;
    RotrIsTurned(n * INV5_32 % TWO32, 1, 32);
    ByInverse(n, 5, 2, 0x8000_0000, TWO32, INV5_32, 4);
  }

  /** Divisibility by 100, on 64-bit words */
  lemma HundredthExact64(n: U64)
    ensures Hundredth64(n) <= (TWO64 - 1) / 100 <==> n % 100 == 0
    ensures n % 100 == 0 ==> Hundredth64(n) == n / 100
  {
    Pow2Values();
    hide Pow2, Rotr, Turned;
    RotrIsTurned(n * INV25_64 % TWO64, 2, 64);
    ByInverse(n, 25, 4, 0x4000_0000_0000_0000, TWO64, INV25_64, 14);
  }

  /** Divisibility by 10, on 64-bit words */
  lemma TenthExact64(n: U64)
    ensures Tenth64(n) <= (TWO64 - 1) / 10 <==> n % 10 == 0
    ensures n % 10 == 0 ==> Tenth64(n) == n / 10
  {
    Pow2Values();
    hide Pow2, Rotr, Turned;
    RotrIsTurned(n * INV5_64 % TWO64, 1, 64);
    ByInverse(n, 5, 2, 0x8000_0000_0000_0000, TWO64, INV5_64, 4);
  }

  lemma ProductBound(a: nat, b: nat, m: nat)
    requires a < m && b < m
    ensures a * b <= (m - 1) * (m - 1)
  {
    MulMono(a, m - 1, b);
    MulMono(b, m - 1, m - 1);
  }

  lemma ByHalves(a: nat, b: nat, c: nat, d: nat)
    requires a < TWO32 && b < TWO32 && c < TWO32 && d < TWO32
    ensures (a * TWO32 + b) * (c * TWO32 + d) == a * c * TWO64 + (a * d + b * c) * TWO32 + b * d
    ensures a * c < TWO64 && a * d < TWO64 && b * c < TWO64 && b * d < TWO64
    ensures (a * TWO32 + b) * (c * TWO32 + d) < TWO64 * TWO64
  {
    ProductBound(a, c, TWO32);
    ProductBound(a, d, TWO32);
    ProductBound(b, c, TWO32);
    ProductBound(b, d, TWO32);
    ProductBound(a * TWO32 + b, c * TWO32 + d, TWO64);
    assert (a * TWO32 + b) * (c * TWO32 + d) == a * TWO32 * (c * TWO32) + a * TWO32 * d + b * (c * TWO32) + b * d;
    assert a * TWO32 * (c * TWO32) == a * c * TWO64;
  }

  /** umul128 without 128-bit integers */
  function Umul128(x: U64, y: U64): (U64, U64) {
    var a, b, c, d := x / TWO32, x % TWO32, y / TWO32, y % TWO32;
    Combined(a * c % TWO64, b * c % TWO64, a * d % TWO64, b * d % TWO64)
  }

  function Combined(ac: nat, bc: nat, ad: nat, bd: nat): (U64, U64) {
    var intermediate := (bd / TWO32 + ad % TWO32 + bc % TWO32) % TWO64;
    ((ac + intermediate / TWO32 + ad / TWO32 + bc / TWO32) % TWO64, (intermediate * TWO32 % TWO64 + bd % TWO32) % TWO64)
  }

  /** The sum of the middle terms, carried into the upper half */
  lemma Carries(ac: nat, bd1: nat, bd0: nat, ad1: nat, ad0: nat, bc1: nat, bc0: nat, i1: nat, i0: nat)
    requires i1 * TWO32 + i0 == bd1 + ad0 + bc0
    ensures (ac + i1 + ad1 + bc1) * TWO64 + (i0 * TWO32 + bd0)
         == ac * TWO64 + (ad1 * TWO32 + ad0 + (bc1 * TWO32 + bc0)) * TWO32 + (bd1 * TWO32 + bd0)
  {
  }

  lemma LowHalf(i: nat)
    ensures i * TWO32 % TWO64 == i % TWO32 * TWO32
  {
    ModUnique(i * TWO32, TWO64, i / TWO32, i % TWO32 * TWO32);
  }

  lemma HighFits(high: nat, low: nat)
    requires high * TWO64 + low < TWO64 * TWO64
    ensures high < TWO64
  {
  }

  lemma CombinedExact(ac: U64, bc: U64, ad: U64, bd: U64)
    requires ac * TWO64 + (ad + bc) * TWO32 + bd < TWO64 * TWO64
    ensures Combined(ac, bc, ad, bd).0 * TWO64 + Combined(ac, bc, ad, bd).1 == ac * TWO64 + (ad + bc) * TWO32 + bd
  {
    var i := bd / TWO32 + ad % TWO32 + bc % TWO32;
    var high, low := ac + i / TWO32 + ad / TWO32 + bc / TWO32, i % TWO32 * TWO32 + bd % TWO32;
    Carries(ac, bd / TWO32, bd % TWO32, ad / TWO32, ad % TWO32, bc / TWO32, bc % TWO32, i / TWO32, i % TWO32);
    assert high * TWO64 + low == ac * TWO64 + (ad + bc) * TWO32 + bd;
    HighFits(high, low);
    CombinedIs(ac, bc, ad, bd, i, high, low);
    hide Combined;
  }

  lemma CombinedIs(ac: U64, bc: U64, ad: U64, bd: U64, i: U64, high: U64, low: U64)
    requires i == bd / TWO32 + ad % TWO32 + bc % TWO32
    requires high == ac + i / TWO32 + ad / TWO32 + bc / TWO32 && low == i % TWO32 * TWO32 + bd % TWO32
    ensures Combined(ac, bc, ad, bd) == (high, low)
  {
    LowHalf(i);
    Small(i, TWO64);
    Small(high, TWO64);
    Small(low, TWO64);
  }

  /** The two halves are the exact product: no intermediate sum or product wraps. */
  lemma Umul128Exact(x: U64, y: U64)
    ensures Umul128(x, y).0 * TWO64 + Umul128(x, y).1 == x * y
  {
    hide Combined;
    var a, b, c, d := x / TWO32, x % TWO32, y / TWO32, y % TWO32;
    UmulHalves(x, y, a, b, c, d);
    CombinedExact(a * c, b * c, a * d, b * d);
    hide Umul128;
  }

  lemma UmulHalves(x: U64, y: U64, a: nat, b: nat, c: nat, d: nat)
    requires a == x / TWO32 && b == x % TWO32 && c == y / TWO32 && d == y % TWO32
    ensures x * y == a * c * TWO64 + (a * d + b * c) * TWO32 + b * d && x * y < TWO64 * TWO64
    ensures a * c < TWO64 && a * d < TWO64 && b * c < TWO64 && b * d < TWO64
    ensures Umul128(x, y) == Combined(a * c, b * c, a * d, b * d)
  {
    hide Combined;
    assert a < TWO32 && c < TWO32 && x == a * TWO32 + b && y == c * TWO32 + d;
    ByHalves(a, b, c, d);
    Small(a * c, TWO64);
    Small(b * c, TWO64);
    Small(a * d, TWO64);
    Small(b * d, TWO64);
  }

  const E8: nat := 100_000_000
  const MAGIC: U64 := 12379400392853802749

  /** The test with the magic number is exact, and the upper bits are then the quotient. */
  lemma MagicTest(n: U64)
    ensures var nm := Umul128(n, MAGIC);
            && (nm.0 % 0x400_0000 == 0 && nm.1 < MAGIC <==> n % E8 == 0)
            && (n % E8 == 0 ==> nm.0 / 0x400_0000 == n / E8)
  {
    var nm := Umul128(n, MAGIC);
    Umul128Exact(n, MAGIC);
    var k, j := n / E8, n % E8;
    var high, low := nm.0 / 0x400_0000, nm.0 % 0x400_0000;
    hide Umul128;
    assert n == E8 * k + j && k <= 184467440737;
    var rest := k * 875776 + j * MAGIC;
    assert n * MAGIC == k * 0x400_0000 * TWO64 + rest;
    assert rest < 0x400_0000 * TWO64;
    assert nm.0 * TWO64 + nm.1 == high * 0x400_0000 * TWO64 + (low * TWO64 + nm.1);
    assert high == k && low * TWO64 + nm.1 == rest;
  }

  // Removing the zeros

  lemma OrOne(s: nat)
    requires s % 2 == 0
    ensures BitOr(s, 1) == s + 1
  {
    OrZero(s / 2);
  }

  lemma {:induction false} OrZero(s: nat)
    ensures BitOr(s, 0) == s
  {
    if s > 0 { OrZero(s / 2); }
  }

  function Scaled(n: nat, s: nat): nat { n * Pow10(s) }

  lemma TwoMore(m: nat, s: nat)
    requires m % 100 == 0
    ensures Scaled(m, s) == Scaled(m / 100, s + 2)
  {
    assert Pow10(s + 2) == 10 * (10 * Pow10(s));
    var k := m / 100;
    assert m == 100 * k;
    assert 100 * k * Pow10(s) == k * (100 * Pow10(s));
  }

  lemma OneMore(m: nat, s: nat)
    requires m % 10 == 0
    ensures Scaled(m, s) == Scaled(m / 10, s + 1)
  {
    var k := m / 10;
    assert m == 10 * k;
    assert 10 * k * Pow10(s) == k * (10 * Pow10(s));
  }

  lemma ScaledValues(n: nat)
    ensures Scaled(n, 0) == n && Scaled(n, 8) == n * E8
  {
    assert Pow10(8) == E8;
  }

  // The comparisons of the loops, on 32 and on 64 bits

  predicate Divides32(q: nat, d: nat)
    requires d > 0
  {
    q <= (TWO32 - 1) / d
  }

  predicate Divides64(q: nat, d: nat)
    requires d > 0
  {
    q <= (TWO64 - 1) / d
  }

  lemma Tens(n: nat)
    requires n % 100 != 0 && n % 10 == 0
    ensures n / 10 < n && n / 10 % 10 != 0
  {
  }

  /** What two more zeros do to number and count; without them, at most one zero is left. */
  lemma Turn32(n: U32, s: nat)
    requires n != 0
    ensures var q := Hundredth32(n);
      if Divides32(q, 100) then 0 < q < n && Scaled(n, s) == Scaled(q, s + 2) else n % 100 != 0
  {
    hide Hundredth32, Scaled;
    HundredthExact32(n);
    if n % 100 == 0 { TwoMore(n, s); }
  }

  lemma Last32(n: U32, s: nat)
    requires n % 100 != 0 && s % 2 == 0
    ensures var q := Tenth32(n);
      if Divides32(q, 10) then q < n && q % 10 != 0 && Scaled(n, s) == Scaled(q, BitOr(s, 1)) else n % 10 != 0
  {
    hide Tenth32, Scaled, BitOr;
    TenthExact32(n);
    assert Divides32(Tenth32(n), 10) <==> n % 10 == 0;
    hide Divides32;
    OrOne(s);
    if n % 10 == 0 {
      Tens(n);
      OneMore(n, s);
    }
  }

  lemma Turn64(n: U64, s: nat)
    requires n != 0
    ensures var q := Hundredth64(n);
      if Divides64(q, 100) then 0 < q < n && Scaled(n, s) == Scaled(q, s + 2) else n % 100 != 0
  {
    hide Hundredth64, Scaled;
    HundredthExact64(n);
    if n % 100 == 0 { TwoMore(n, s); }
  }

  lemma Last64(n: U64, s: nat)
    requires n % 100 != 0 && s % 2 == 0
    ensures var q := Tenth64(n);
      if Divides64(q, 10) then q < n && q % 10 != 0 && Scaled(n, s) == Scaled(q, BitOr(s, 1)) else n % 10 != 0
  {
    hide Tenth64, Scaled, BitOr;
    TenthExact64(n);
    assert Divides64(Tenth64(n), 10) <==> n % 10 == 0;
    hide Divides64;
    OrOne(s);
    if n % 10 == 0 {
      Tens(n);
      OneMore(n, s);
    }
  }

  /** The loop on 32-bit words, starting with `start` zeros already counted. */
  method Strip32(number: U32, start: nat) returns (n: U32, s: nat)
    requires number != 0 && start % 2 == 0
    ensures Scaled(number, start) == Scaled(n, s) && n % 10 != 0
  {
    hide Hundredth32, Tenth32, Scaled, BitOr, Divides32;
    n, s := number, start;
    while true
      invariant n != 0 && s % 2 == 0 && Scaled(number, start) == Scaled(n, s)
      decreases n
    {
      var q := Hundredth32(n);
      Turn32(n, s);
      if !Divides32(q, 100) { break; }
      n := q;
      s := s + 2;
    }
    var q := Tenth32(n);
    Last32(n, s);
    if Divides32(q, 10) {
      n := q;
      s := BitOr(s, 1);
    }
  }

  /** remove_trailing_zeros (float) */
  method RemoveTrailingZeros32(number: U32) returns (n: U32, s: nat)
    requires number != 0
    ensures number == Scaled(n, s) && n % 10 != 0
  {
    ScaledValues(number);
    n, s := Strip32(number, 0);
  }

  /** The loop on 64-bit words */
  method Strip64(number: U64) returns (n: U64, s: nat)
    requires number != 0
    ensures Scaled(number, 0) == Scaled(n, s) && n % 10 != 0
  {
    hide Hundredth64, Tenth64, Scaled, BitOr, Divides64;
    n, s := number, 0;
    while true
      invariant n != 0 && s % 2 == 0 && Scaled(number, 0) == Scaled(n, s)
      decreases n
    {
      var q := Hundredth64(n);
      Turn64(n, s);
      if !Divides64(q, 100) { break; }
      n := q;
      s := s + 2;
    }
    var q := Tenth64(n);
    Last64(n, s);
    if Divides64(q, 10) {
      n := q;
      s := BitOr(s, 1);
    }
  }

  /** remove_trailing_zeros (double): if 10^8 divides the number, the quotient must fit into 32 bits. */
  method RemoveTrailingZeros64(number: U64) returns (n: U64, s: nat)
    requires number != 0 && (number % E8 == 0 ==> number / E8 < TWO32)
    ensures number == Scaled(n, s) && n % 10 != 0
  {
    hide Scaled, Umul128;
    var nm := Umul128(number, MAGIC);
    MagicTest(number);
    if nm.0 % 0x400_0000 == 0 && nm.1 < MAGIC {
      var n32: U32 := nm.0 / 0x400_0000 % TWO32;
      ScaledValues(n32);
      n, s := Strip32(n32, 8);
    } else {
      ScaledValues(number);
      n, s := Strip64(number);
    }
  }

  /** When the quotient does not fit, its truncation stands for another number: the condition is exact. */
  lemma WideQuotient(number: U64)
    requires number % E8 == 0
    ensures Scaled(number / E8 % TWO32, 8) == number <==> number / E8 < TWO32
  {
    ScaledValues(number / E8 % TWO32);
  }

  /** The number of zeros is determined by what is left. */
  lemma {:induction false} ZerosUnique(n: nat, s: nat, m: nat, t: nat)
    requires Scaled(n, s) == Scaled(m, t) && n % 10 != 0 && m % 10 != 0
    ensures s == t && n == m
    decreases s
  {
    if s > 0 { TenFold(n, s); }
    if t > 0 { TenFold(m, t); }
    hide Scaled;
    if s > 0 && t > 0 { ZerosUnique(n, s - 1, m, t - 1); } else { ScaledValues(n); ScaledValues(m); }
  }

  lemma TenFold(n: nat, s: nat)
    requires 0 < s
    ensures Scaled(n, s) == 10 * Scaled(n, s - 1) && Scaled(n, s) % 10 == 0
  {
    assert n * Pow10(s) == 10 * (n * Pow10(s - 1));
  }
}
