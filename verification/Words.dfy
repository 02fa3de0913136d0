/** Powers of two and the bitwise operations of the C sources, on unsigned words modelled as naturals. */
module Words {

  const TWO16 := 0x1_0000
  const TWO20 := 0x10_0000
  const TWO31 := 0x8000_0000
  const TWO32 := 0x1_0000_0000

  function Pow2(n: nat): (p: nat)
    ensures p >= 1
  {
    if n == 0 then 1 else 2 * Pow2(n - 1)
  }

  lemma {:induction false} Pow2Add(a: nat, b: nat)
    ensures Pow2(a + b) == Pow2(a) * Pow2(b)
  {
    if a == 0 {
    } else {
      Pow2Add(a - 1, b);
      assert Pow2(a + b) == 2 * Pow2((a - 1) + b);
      assert 2 * (Pow2(a - 1) * Pow2(b)) == Pow2(a) * Pow2(b);
    }
  }

  lemma {:induction false} Pow2Monotone(a: nat, b: nat)
    requires a <= b
    ensures Pow2(a) <= Pow2(b)
    decreases b - a
  {
    if a < b {
      Pow2Monotone(a + 1, b);
    }
  }

  /** The powers that appear as literal constants. */
  lemma Pow2Values()
    ensures Pow2(0) == 1 && Pow2(1) == 2 && Pow2(8) == 0x100
    ensures Pow2(12) == 0x1000
    ensures Pow2(16) == TWO16
    ensures Pow2(20) == TWO20 && Pow2(21) == 2 * TWO20
    ensures Pow2(31) == TWO31 && Pow2(32) == TWO32
    ensures Pow2(52) == TWO20 * TWO32 && Pow2(53) == 2 * TWO20 * TWO32 && Pow2(54) == 4 * TWO20 * TWO32
  {
    assert Pow2(4) == 16;
    Pow2Add(4, 4);
    Pow2Add(8, 4);
    Pow2Add(8, 8);
    Pow2Add(16, 4);
    Pow2Add(16, 16);
    assert Pow2(32) == 2 * Pow2(31);
    Pow2Add(20, 32);
    assert Pow2(53) == 2 * Pow2(52);
    assert Pow2(54) == 2 * Pow2(53);
  }

  /** A 32-bit word shifted left; the bits that leave the word are lost. */
  function ShiftLeft(w: nat, n: nat): (r: nat)
    ensures r < TWO32
  {
    ProductNonNegative(w, Pow2(n));
    (w * Pow2(n)) % TWO32
  }

  /** A word shifted right. */
  function ShiftRight(w: nat, n: nat): nat {
    ProductNonNegative(w, Pow2(n));
    w / Pow2(n)
  }

  lemma ProductNonNegative(a: nat, b: nat)
    ensures a * b >= 0 && (b > 0 ==> a / b >= 0)
  {
  }

  /** Stepping a power of two down to the next bit; below the last bit the word is zero. */
  lemma HalvePow2(k: nat)
    requires k > 0
    ensures Pow2(k) == 2 * Pow2(k - 1)
    ensures Pow2(k - 1) / 2 == if k == 1 then 0 else Pow2(k - 2)
  {
  }

  /** Bitwise or. */
  function WordOr(x: nat, y: nat): nat
    decreases x
  {
    if x == 0 then y else 2 * WordOr(x / 2, y / 2) + (if x % 2 == 1 || y % 2 == 1 then 1 else 0)
  }

  /** Or-ing into bits that are still zero is addition. */
  lemma {:induction false} WordOrDisjoint(high: nat, low: nat, n: nat)
    requires low < Pow2(n)
    ensures WordOr(high * Pow2(n), low) == high * Pow2(n) + low
    decreases n
  {
    var x := high * Pow2(n);
    if n == 0 {
      assert low == 0;
      WordOrZero(x);
    } else {
      var half := Pow2(n - 1);
      assert x == 2 * (high * half);
      assert x / 2 == high * half;
      if x == 0 {
      } else {
        WordOrDisjoint(high, low / 2, n - 1);
      }
    }
  }

  lemma {:induction false} WordOrZero(x: nat)
    ensures WordOr(x, 0) == x
  {
    if x != 0 {
      WordOrZero(x / 2);
    }
  }

  /** Or-ing a multiple of 2^n leaves the low n bits alone. */
  lemma {:induction false} WordOrKeepsLow(x: nat, c: nat, n: nat)
    ensures WordOr(x, c * Pow2(n)) % Pow2(n) == x % Pow2(n)
    decreases n
  {
    var y := c * Pow2(n);
    if n == 0 {
    } else if x == 0 {
      MultipleMod(c, Pow2(n));
    } else {
      var half := Pow2(n - 1);
      assert y == 2 * (c * half);
      assert y / 2 == c * half;
      WordOrKeepsLow(x / 2, c, n - 1);
      var o := WordOr(x / 2, y / 2);
      ModDouble(o, half, x % 2);
      ModDouble(x / 2, half, x % 2);
      assert x == 2 * (x / 2) + x % 2;
    }
  }

  lemma MultipleMod(c: nat, d: nat)
    requires d > 0
    ensures (c * d) % d == 0
  {
    DivModUnique(c * d, d, c, 0);
  }

  lemma ModDouble(o: nat, half: nat, bit: nat)
    requires half > 0 && bit <= 1
    ensures (2 * o + bit) % (2 * half) == 2 * (o % half) + bit
  {
    var k, r := o / half, o % half;
    assert o == k * half + r;
    assert 2 * o + bit == k * (2 * half) + (2 * r + bit);
    DivModUnique(2 * o + bit, 2 * half, k, 2 * r + bit);
  }

  /** Quotient and remainder are determined by a == q * d + r with 0 <= r < d. */
  lemma DivModUnique(a: int, d: int, q: int, r: int)
    requires d > 0 && 0 <= r < d && a == q * d + r
    ensures a / d == q && a % d == r
  {
    var q', r' := a / d, a % d;
    assert a == d * q' + r';
    SmallMultiple(d, q, q', r' - r);
  }

  lemma SmallMultiple(d: int, q: int, q': int, diff: int)
    requires -d < diff < d && d * q - d * q' == diff
    ensures q == q'
  {
    assert d * (q - q') == diff;
    assert d * (q' - q) == -diff;
    if q - q' >= 1 {
      MulAtLeast(d, q - q');
    } else if q' - q >= 1 {
      MulAtLeast(d, q' - q);
    }
  }

  lemma MulAtLeast(d: int, k: int)
    requires d >= 0 && k >= 1
    ensures d * k >= d
  {
  }
}
