/** Machine words, byte strings and the small arithmetic macros shared by the image builder. */
module Words {

  type byte = b: int | 0 <= b < 0x100
  type u16 = x: int | 0 <= x < 0x1_0000
  type u32 = x: int | 0 <= x < 0x1_0000_0000

  const TWO32: int := 0x1_0000_0000

  /** DIV_ROUND_UP on values that do not wrap. */
  function DivRoundUp(x: nat, y: nat): nat
    requires y > 0
  {
    (x + y - 1) / y
  }

  lemma DivRoundUpBounds(x: nat, y: nat)
    requires y > 0
    ensures x <= DivRoundUp(x, y) * y < x + y
  {
    assert (x + y - 1) / y * y + (x + y - 1) % y == x + y - 1;
  }

  lemma DivRoundUpUnique(x: nat, y: nat, q: nat)
    requires y > 0 && x <= q * y < x + y
    ensures DivRoundUp(x, y) == q
  {
    var d := DivRoundUp(x, y);
    DivRoundUpBounds(x, y);
    MulGap(d, q, y);
    MulGap(q, d, y);
  }

  lemma MulNonNegative(a: nat, b: nat)
    ensures 0 <= a * b
  {}

  lemma MulGap(a: int, b: int, y: nat)
    ensures a < b ==> a * y + y <= b * y
  {
    if a < b {
      var c := b - a - 1;
      MulNonNegative(c, y);
      assert b * y == (a + 1 + c) * y == a * y + y + c * y;
    }
  }

  /** Unsigned division. */
  function Div(n: nat, d: nat): nat
    requires d > 0
  {
    n / d
  }

  lemma DivBounds(n: nat, d: nat)
    requires d > 0
    ensures 0 <= Div(n, d) * d <= n < Div(n, d) * d + d
    ensures Divides(d, n) ==> Div(n, d) * d == n
  {
    assert n == n / d * d + n % d;
    MulNonNegative(n / d, d);
  }

  lemma DivMonotone(a: nat, b: nat, d: nat)
    requires d > 0 && a <= b
    ensures Div(a, d) <= Div(b, d)
  {
    DivBounds(a, d);
    DivBounds(b, d);
    hide Div;
    MulGap(Div(b, d), Div(a, d), d);
  }

  /** n is a whole number of d's. */
  predicate Divides(d: nat, n: nat)
    requires d > 0
  {
    n % d == 0
  }

  lemma DividesMultiple(d: nat, q: nat)
    requires d > 0
    ensures 0 <= q * d && Divides(d, q * d) && Div(q * d, d) == q
  {
    MulNonNegative(q, d);
    ModUnique(q * d, d, q, 0);
  }

  lemma DividesSum(d: nat, a: nat, b: nat)
    requires d > 0 && Divides(d, a)
    ensures Divides(d, a + b) <==> Divides(d, b)
    ensures Div(a + b, d) == Div(a, d) + Div(b, d)
  {
    ModUnique(a + b, d, a / d + b / d, b % d) by {
      assert a == d * (a / d) && b == d * (b / d) + b % d;
      assert d * (a / d + b / d) == d * (a / d) + d * (b / d);
    }
  }

  function Min(a: int, b: int): int { if a < b then a else b }

  function Zeros(n: nat): (z: seq<byte>)
    ensures |z| == n
  {
    seq(n, _ => 0)
  }

  lemma ZerosAppend(a: nat, b: nat)
    ensures Zeros(a) + Zeros(b) == Zeros(a + b)
  {}

  // ----- little-endian fields -----

  function Le16(x: int): (s: seq<byte>)
    requires 0 <= x < 0x1_0000
    ensures |s| == 2
  {
    [x % 0x100, x / 0x100]
  }

  lemma {:induction false} SliceOfSlice<T>(d: seq<T>, at: nat, n: nat, i: nat, j: nat)
    requires at + n <= |d| && i <= j <= n
    ensures d[at..at + n][i..j] == d[at + i..at + j]
  {
    var a, b := d[at..at + n][i..j], d[at + i..at + j];
    forall k | 0 <= k < |a|
      ensures a[k] == b[k]
    {}
  }

  function Le32(x: int): (s: seq<byte>)
    requires 0 <= x < TWO32
    ensures |s| == 4
  {
    Le16(x % 0x1_0000) + Le16(x / 0x1_0000)
  }

  function FromLe16(s: seq<byte>): (x: u16)
    requires |s| == 2
  {
    var hi: int := s[1];
    s[0] + 0x100 * hi
  }

  function FromLe32(s: seq<byte>): (x: u32)
    requires |s| == 4
  {
    var hi: int := FromLe16(s[2..]);
    FromLe16(s[..2]) + 0x1_0000 * hi
  }

  lemma Le16RoundTrip(x: int)
    requires 0 <= x < 0x1_0000
    ensures FromLe16(Le16(x)) == x
  {}

  lemma Le32RoundTrip(x: int)
    requires 0 <= x < TWO32
    ensures FromLe32(Le32(x)) == x
  {
    var s := Le32(x);
    assert s[..2] == Le16(x % 0x1_0000) && s[2..] == Le16(x / 0x1_0000);
  }

  // ----- bitwise operators on natural numbers -----

  function Pow2(k: nat): (p: nat)
    ensures p >= 1
  {
    if k == 0 then 1 else 2 * Pow2(k - 1)
  }

  function Or(x: nat, y: nat): nat {
    if x == 0 && y == 0 then 0
    else 2 * Or(x / 2, y / 2) + (if x % 2 == 1 || y % 2 == 1 then 1 else 0)
  }

  function And(x: nat, y: nat): nat {
    if x == 0 || y == 0 then 0
    else 2 * And(x / 2, y / 2) + (if x % 2 == 1 && y % 2 == 1 then 1 else 0)
  }

  lemma {:induction false} OrZero(x: nat)
    ensures Or(x, 0) == x && Or(0, x) == x
  {
    if x != 0 {
      OrZero(x / 2);
    }
  }

  /** Fields that share no bit are combined by addition. */
  lemma {:induction false} OrDisjoint(a: nat, b: nat, k: nat)
    requires b < Pow2(k)
    ensures Or(a * Pow2(k), b) == a * Pow2(k) + b
  {
    if k == 0 {
      OrZero(a);
    } else {
      var p := Pow2(k - 1);
      assert a * Pow2(k) == 2 * (a * p);
      MulNonNegative(a, p);
      OrDisjoint(a, b / 2, k - 1);
    }
  }

  lemma {:induction false} Pow2Add(a: nat, b: nat)
    ensures Pow2(a + b) == Pow2(a) * Pow2(b)
  {
    if a != 0 {
      Pow2Add(a - 1, b);
      assert Pow2(a) * Pow2(b) == 2 * (Pow2(a - 1) * Pow2(b));
    }
  }

  /** The last bit of a conjunction, and the rest. */
  lemma AndStep(x: nat, y: nat)
    ensures And(x, y) == 2 * And(x / 2, y / 2) + (if x % 2 == 1 && y % 2 == 1 then 1 else 0)
  {}

  /** Masking with k ones keeps the remainder modulo 2^k. */
  lemma {:induction false} AndMask(x: nat, k: nat)
    ensures And(x, Pow2(k) - 1) == x % Pow2(k)
  {
    if k != 0 {
      var p := Pow2(k - 1);
      AndMask(x / 2, k - 1);
      ModDouble(x, p);
      AndStep(x, 2 * p - 1);
      hide And;
      assert (2 * p - 1) / 2 == p - 1;
    }
  }

  lemma MulDouble(q: nat, p: nat)
    ensures 0 <= q * p && q * (2 * p) == 2 * (q * p)
  {
    MulNonNegative(q, p);
  }

  lemma AndDouble(x: nat, y: nat)
    ensures And(x, 2 * y) == 2 * And(x / 2, y)
  {
    AndStep(x, 2 * y);
    assert 2 * y / 2 == y;
  }

  /** Masking with n ones above k zeros: the k low bits are cleared. */
  lemma {:induction false} AndHigh(x: nat, n: nat, k: nat)
    ensures 0 <= (Pow2(n) - 1) * Pow2(k)
    ensures And(x, (Pow2(n) - 1) * Pow2(k)) == x / Pow2(k) % Pow2(n) * Pow2(k)
  {
    if k == 0 {
      AndMask(x, n);
    } else {
      var p := Pow2(k - 1);
      AndHigh(x / 2, n, k - 1);
      assert Pow2(k) == 2 * p;
      hide And, Pow2;
      DivDouble(x, p);
      MulDouble(Pow2(n) - 1, p);
      MulDouble(x / (2 * p) % Pow2(n), p);
      AndDouble(x, (Pow2(n) - 1) * p);
    }
  }

  lemma DivDouble(x: nat, p: nat)
    requires p > 0
    ensures x / (2 * p) == x / 2 / p
  {
    ModDouble(x, p);
    var d := 2 * p;
    ModUnique(x, d, x / 2 / p, x % d) by {
      assert x / 2 == p * (x / 2 / p) + x / 2 % p;
      assert d * (x / 2 / p) == 2 * (p * (x / 2 / p));
    }
  }

  lemma ModDouble(x: nat, p: nat)
    requires p > 0
    ensures x % (2 * p) == 2 * (x / 2 % p) + x % 2
  {
    var q := x / 2 / p;
    var r := x / 2 % p;
    assert x / 2 == q * p + r;
    assert x == (2 * p) * q + (2 * r + x % 2);
    ModUnique(x, 2 * p, q, 2 * r + x % 2);
  }

  lemma ModUnique(x: int, d: nat, q: int, r: int)
    requires d > 0 && x == d * q + r && 0 <= r < d
    ensures x / d == q && x % d == r
  {
    var e := x / d - q;
    assert x == d * (x / d) + x % d;
    assert d * e == d * (x / d) - d * q;
    MulGap(0, e, d);
    MulGap(e, 0, d);
  }

  lemma Pow2Values()
    ensures Pow2(8) == 0x100 && Pow2(16) == 0x1_0000 && Pow2(32) == TWO32
  {
    assert Pow2(4) == 16;
    Pow2Add(4, 4);
    Pow2Add(8, 8);
    Pow2Add(16, 16);
  }

  ghost predicate IsPow2(b: nat) {
    exists k: nat :: k < 32 && b == Pow2(k)
  }

  /** (x + b - 1) & ~(b - 1) on unsigned 32-bit words. */
  function RoundUp(x: nat, b: nat): nat
    requires 0 < b <= TWO32
  {
    And((x + b - 1) % TWO32, TWO32 - b)
  }

  lemma QuotientBelow(y: nat, m: nat, b: nat)
    requires b > 0 && y < m * b
    ensures y / b < m && y / b % m == y / b
  {
    assert b * (y / b) + y % b == y;
    MulGap(m - 1, y / b, b);
  }

  lemma ClearLowBits(y: nat, n: nat, k: nat, b: nat)
    requires b == Pow2(k) && Pow2(n) * b == TWO32 && y < TWO32
    ensures b <= TWO32 && And(y, TWO32 - b) == y / b * b
  {
    hide And, Pow2;
    AndHigh(y, n, k);
    QuotientBelow(y, Pow2(n), b);
    var m := Pow2(n);
    assert (m - 1) * b == m * b - b;
    MulGap(0, m, b);
  }

  lemma Pow2Below(k: nat)
    requires k < 32
    ensures Pow2(32 - k) * Pow2(k) == TWO32 && Pow2(k) < TWO32
  {
    Pow2Values();
    Pow2Add(32 - k, k);
    assert Pow2(32 - k) >= 2;
    hide Pow2;
    MulGap(1, Pow2(32 - k), Pow2(k));
  }

  lemma RoundUpAt(x: nat, b: nat, k: nat)
    requires k < 32 && b == Pow2(k) && x + b <= TWO32
    ensures 0 < b < TWO32 && RoundUp(x, b) == DivRoundUp(x, b) * b
  {
    hide And, Pow2;
    Pow2Below(k);
    ClearLowBits(x + b - 1, 32 - k, k, b);
    assert (x + b - 1) % TWO32 == x + b - 1;
  }

  /** For a power of two the mask rounds up to a multiple. */
  lemma RoundUpIsMultiple(x: nat, b: nat)
    requires IsPow2(b) && x + b <= TWO32
    ensures 0 < b < TWO32 && RoundUp(x, b) == DivRoundUp(x, b) * b
  {
    var k: nat :| k < 32 && b == Pow2(k);
    hide RoundUp, DivRoundUp, Pow2;
    RoundUpAt(x, b, k);
  }
}
