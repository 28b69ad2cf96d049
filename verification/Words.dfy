// 32-bit words. A word is held as the signed int that the interpreter's C code
// sees; U is its unsigned reading.

module Words {

  datatype Option<T> = None | Some(value: T)

  const TWO31 := 0x8000_0000
  const TWO32 := 0x1_0000_0000

  predicate Fits(x: int) {
    -TWO31 <= x < TWO31
  }

  type Word = x: int | Fits(x)

  function U(x: int): (u: int)
    ensures 0 <= u < TWO32
  {
    x % TWO32
  }

  /** The word congruent to x modulo 2^32. */
  function Wrap(x: int): (w: Word)
    ensures U(w) == U(x)
  {
    if U(x) < TWO31 then U(x) else U(x) - TWO32
  }

  lemma WrapOfU(x: int)
    ensures Wrap(U(x)) == Wrap(x)
    ensures Fits(x) ==> Wrap(x) == x
  {
  }

  /** Addition, subtraction and multiplication respect congruence modulo 2^32. */
  lemma CongruentSum(x: int, x': int, y: int, y': int)
    requires U(x) == U(x') && U(y) == U(y')
    ensures U(x + y) == U(x' + y') && U(x - y) == U(x' - y')
  {
    var k, j := x / TWO32 - x' / TWO32, y / TWO32 - y' / TWO32;
    UPeriodic(x' + y', k + j);
    UPeriodic(x' - y', k - j);
  }

  lemma CongruentProduct(x: int, x': int, y: int, y': int)
    requires U(x) == U(x') && U(y) == U(y')
    ensures U(x * y) == U(x' * y')
  {
    var k, j := x / TWO32 - x' / TWO32, y / TWO32 - y' / TWO32;
    assert x == x' + TWO32 * k && y == y' + TWO32 * j;
    var q := k * y' + x' * j + TWO32 * (k * j);
    ProductExpand(x', y', k, j);
    assert x * y == x' * y' + TWO32 * q;
    UPeriodic(x' * y', q);
  }

  lemma ProductExpand(x: int, y: int, k: int, j: int)
    ensures (x + TWO32 * k) * (y + TWO32 * j) == x * y + TWO32 * (k * y + x * j + TWO32 * (k * j))
  {
  }

  lemma UPeriodic(x: int, q: int)
    ensures U(x + TWO32 * q) == U(x)
  {
  }

  // ----- C division: truncation towards zero -----

  function Quot(x: int, y: int): int
    requires y != 0
  {
    if (x < 0) == (y < 0) then Abs(x) / Abs(y) else -(Abs(x) / Abs(y))
  }

  function Rem(x: int, y: int): int
    requires y != 0
  {
    if x < 0 then -(Abs(x) % Abs(y)) else Abs(x) % Abs(y)
  }

  /** Division as C defines it: quotient and remainder make up x, the remainder is smaller than y and has x's sign. */
  lemma Truncates(x: int, y: int)
    requires y != 0
    ensures Quot(x, y) * y + Rem(x, y) == x
    ensures Abs(Rem(x, y)) < Abs(y) && (Rem(x, y) != 0 ==> (Rem(x, y) < 0 <==> x < 0))
  {
    var q, r, d := Abs(x) / Abs(y), Abs(x) % Abs(y), Abs(y);
    assert q * d + r == Abs(x);
    Signs(q, d);
  }

  lemma Signs(q: int, d: int)
    ensures q * -d == -(q * d) == -q * d && -q * -d == q * d
  {
  }

  /** (n + 3) & ~3 */
  function RoundUp4(n: int): (r: int)
    ensures n <= r < n + 4 && r % 4 == 0
  {
    (n + 3) / 4 * 4
  }

  /** x rounded up to a multiple of n. */
  function RoundUp(x: nat, n: nat): (r: nat)
    requires n > 0
    ensures x <= r < x + n && r % n == 0
  {
    RoundUpFacts(x, n);
    (x + n - 1) / n * n
  }

  lemma RoundUpFacts(x: nat, n: nat)
    requires n > 0
    ensures x <= (x + n - 1) / n * n < x + n
    ensures ((x + n - 1) / n * n) % n == 0
  {
    var q := (x + n - 1) / n;
    assert q * n <= x + n - 1 < q * n + n;
    ModUnique(q * n, n, q, 0);
  }

  function Abs(x: int): nat {
    if x < 0 then -x else x
  }

  lemma QuotientInRange(x: int, y: int)
    requires Fits(x) && Fits(y) && y != 0
    ensures Fits(Quot(x, y)) <==> !(x == -TWO31 && y == -1)
  {
    var q := Abs(x) / Abs(y);
    QuotientAtMost(Abs(x), Abs(y));
  }

  lemma {:induction false} ProductAtLeast(q: nat, y: nat, k: nat)
    requires k <= y
    ensures q * k <= q * y
    decreases q
  {
    if q > 0 {
      ProductAtLeast(q - 1, y, k);
      assert q * k == (q - 1) * k + k && q * y == (q - 1) * y + y;
    }
  }

  lemma QuotientAtMost(x: nat, y: nat)
    requires y > 0
    ensures x / y <= x && (y >= 2 ==> 2 * (x / y) <= x)
  {
    var q := x / y;
    assert q * y <= x;
    ProductAtLeast(q, y, 1);
    if y >= 2 { ProductAtLeast(q, y, 2); }
  }

  // ----- bit operations -----

  function Pow2(n: nat): (p: nat)
    ensures p > 0
  {
    if n == 0 then 1 else 2 * Pow2(n - 1)
  }

  /** The bitwise combination of x and y by the truth table f, which sends 0, 0 to 0. */
  function Bits(f: (int, int) -> int, x: nat, y: nat): nat
    decreases x + y
  {
    if x == 0 && y == 0 then 0
    else (if f(x % 2, y % 2) == 1 then 1 else 0) + 2 * Bits(f, x / 2, y / 2)
  }

  function AndBit(): (int, int) -> int { (a, b) => if a == 1 && b == 1 then 1 else 0 }
  function OrBit(): (int, int) -> int { (a, b) => if a == 1 || b == 1 then 1 else 0 }
  function XorBit(): (int, int) -> int { (a, b) => if a != b then 1 else 0 }

  /** Bit k of x. */
  function BitOf(x: nat, k: nat): int {
    x / Pow2(k) % 2
  }

  lemma BitNext(x: nat, k: nat)
    ensures BitOf(x, k + 1) == BitOf(x / 2, k)
  {
    var p := Pow2(k);
    var q, r := x / 2 / p, x / 2 % p;
    assert x == 2 * (q * p + r) + x % 2;
    assert q * (2 * p) == 2 * (q * p);
    ModUnique(x, 2 * p, q, 2 * r + x % 2);
  }

  /** The bitwise operators work bit by bit. */
  lemma {:induction false} BitsAt(f: (int, int) -> int, x: nat, y: nat, k: nat)
    requires f(0, 0) == 0 && forall a, b :: f(a, b) == 0 || f(a, b) == 1
    ensures BitOf(Bits(f, x, y), k) == f(BitOf(x, k), BitOf(y, k))
    decreases k
  {
    var b := Bits(f, x, y);
    if x == 0 && y == 0 {
      NoBits(k);
    } else if k == 0 {
      assert b % 2 == f(x % 2, y % 2);
    } else {
      assert b / 2 == Bits(f, x / 2, y / 2);
      BitsAt(f, x / 2, y / 2, k - 1);
      BitNext(b, k - 1);
      BitNext(x, k - 1);
      BitNext(y, k - 1);
    }
  }

  lemma NoBits(k: nat)
    ensures BitOf(0, k) == 0
  {
    ModUnique(0, Pow2(k), 0, 0);
  }

  /** Bit k of a & b, a | b and a ^ b. */
  lemma {:induction false} OperatorsBitwise(x: int, y: int, k: nat)
    ensures BitOf(U(x), k) in {0, 1} && BitOf(U(y), k) in {0, 1}
    ensures BitOf(And(x, y), k) == 1 <==> BitOf(U(x), k) == 1 && BitOf(U(y), k) == 1
    ensures BitOf(Or(x, y), k) == 1 <==> BitOf(U(x), k) == 1 || BitOf(U(y), k) == 1
    ensures BitOf(Xor(x, y), k) == 1 <==> BitOf(U(x), k) != BitOf(U(y), k)
  {
    BitsAt(AndBit(), U(x), U(y), k);
    BitsAt(OrBit(), U(x), U(y), k);
    BitsAt(XorBit(), U(x), U(y), k);
  }

  lemma {:induction false} BitsBound(f: (int, int) -> int, x: nat, y: nat, n: nat)
    requires x < Pow2(n) && y < Pow2(n)
    ensures Bits(f, x, y) < Pow2(n)
    decreases n
  {
    if x != 0 || y != 0 {
      BitsBound(f, x / 2, y / 2, n - 1);
    }
  }

  lemma {:induction false} BitsCommute(f: (int, int) -> int, x: nat, y: nat)
    requires forall a, b :: f(a, b) == f(b, a)
    ensures Bits(f, x, y) == Bits(f, y, x)
    decreases x + y
  {
    if x != 0 || y != 0 {
      BitsCommute(f, x / 2, y / 2);
    }
  }

  lemma {:induction false} AndZero(x: nat)
    ensures Bits(AndBit(), x, 0) == 0 && Bits(AndBit(), 0, x) == 0
    decreases x
  {
    if x != 0 { AndZero(x / 2); }
  }

  /** Masking with n ones keeps the value modulo 2^n. */
  lemma {:induction false} AndMask(x: nat, n: nat)
    ensures Bits(AndBit(), x, Pow2(n) - 1) == x % Pow2(n)
    decreases n
  {
    if n == 0 {
      AndZero(x);
    } else if x == 0 {
      AndZero(Pow2(n) - 1);
    } else {
      AndMask(x / 2, n - 1);
      HalfMod(x, Pow2(n - 1));
      AndMaskStep(x, Pow2(n - 1));
    }
  }

  lemma AndMaskStep(x: nat, p: nat)
    requires p > 0
    ensures Bits(AndBit(), x, 2 * p - 1) == x % 2 + 2 * Bits(AndBit(), x / 2, p - 1)
  {
    assert (2 * p - 1) % 2 == 1 && (2 * p - 1) / 2 == p - 1;
  }

  lemma HalfMod(x: nat, p: nat)
    requires p > 0
    ensures x % (2 * p) == x % 2 + 2 * ((x / 2) % p)
  {
    var q, r := (x / 2) / p, (x / 2) % p;
    assert x / 2 == q * p + r;
    assert x == q * (2 * p) + (x % 2 + 2 * r) by { assert q * (2 * p) == 2 * (q * p); }
    ModUnique(x, 2 * p, q, x % 2 + 2 * r);
  }

  lemma SmallMultiple(k: int, d: int)
    requires d > 0 && -d < k * d < d
    ensures k == 0
  {
  }

  lemma ModUnique(x: int, d: int, q: int, r: int)
    requires d > 0 && x == q * d + r && 0 <= r < d
    ensures x % d == r && x / d == q
  {
    var q', r' := x / d, x % d;
    Distribute(q, q', d);
    SmallMultiple(q - q', d);
  }

  lemma ModShift(y: int, m: int, k: int)
    requires m > 0
    ensures (y + m * k) % m == y % m
  {
    assert y + m * k == (y / m + k) * m + y % m;
    ModUnique(y + m * k, m, y / m + k, y % m);
  }

  lemma ModSmall(y: int, m: int)
    requires 0 <= y < m
    ensures y % m == y
  {
    ModUnique(y, m, 0, y);
  }

  lemma Distribute(a: int, b: int, d: int)
    ensures (a - b) * d == a * d - b * d
  {
  }

  lemma {:induction false} OrZero(x: nat)
    ensures Bits(OrBit(), x, 0) == x && Bits(XorBit(), x, 0) == x
    decreases x
  {
    if x != 0 { OrZero(x / 2); }
  }

  lemma Pow2At32()
    ensures Pow2(32) == TWO32 && Pow2(31) == TWO31
  {
    assert Pow2(8) == 256;
    assert Pow2(16) == 0x1_0000;
    assert Pow2(24) == 0x100_0000;
  }

  /** A mask bounds what it lets through. */
  lemma {:induction false} AndAtMost(x: nat, y: nat)
    ensures Bits(AndBit(), x, y) <= y
    decreases x + y
  {
    if x != 0 || y != 0 {
      AndAtMost(x / 2, y / 2);
    }
  }

  function And(x: int, y: int): nat { Bits(AndBit(), U(x), U(y)) }
  function Or(x: int, y: int): nat { Bits(OrBit(), U(x), U(y)) }
  function Xor(x: int, y: int): nat { Bits(XorBit(), U(x), U(y)) }

  /** ~x */
  function Com(x: int): int { TWO32 - 1 - U(x) }
}
