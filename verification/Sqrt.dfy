/**
 The software square root of libm/e_sqrt.c. Every 32-bit word is a natural below 2^32;
 results that wrap in C are reduced explicitly, results that must not wrap carry a bound.
 */
module Sqrt {
  import opened Words

  // ---------------------------------------------------------------------------
  // IEEE 754 binary64, sign bit clear: the 63 remaining bits are one natural.

  const INFINITY := 0x7ff0_0000_0000_0000
  const TWO52 := 0x10_0000_0000_0000
  const TWO53 := 0x20_0000_0000_0000
  const TWO54 := 0x40_0000_0000_0000

  predicate IsFinite(bits: nat) {
    bits < INFINITY
  }

  /** The exact value of a finite non-negative double, in units of 2^-1074. */
  function Value(bits: nat): nat {
    var e, f := bits / TWO52, bits % TWO52;
    if e == 0 then f else (TWO52 + f) * Pow2(e - 1)
  }

  function Square(x: int): int {
    x * x
  }

  datatype Rounding = ToNearest | Upward | Downward | TowardZero

  /**
   z is the correctly rounded root of x, both in units of 2^-1074: the exact root is then the root
   of w = x * 2^1074, and every other double y is compared with it without taking a root. To
   nearest, the midpoint of z and y lies strictly on y's side, so no tie is ever broken.
   */
  ghost predicate CorrectlyRounded(mode: Rounding, x: nat, z: nat) {
    var w := x * Pow2(1074);
    match mode
    case ToNearest =>
      forall y: nat | IsFinite(y) ::
        && (z < Value(y) ==> 4 * w < Square(z + Value(y)))
        && (Value(y) < z ==> Square(z + Value(y)) < 4 * w)
    case Upward =>
      w <= Square(z) && forall y: nat | IsFinite(y) :: Value(y) < z ==> Square(Value(y)) < w
    case _ =>
      Square(z) <= w && forall y: nat | IsFinite(y) :: z < Value(y) ==> w < Square(Value(y))
  }

  /** Doubles are spaced by at least u = 2^k from 2^52 * u upwards. */
  lemma Spacing(y: nat, k: nat) returns (c: nat)
    ensures Value(y) < TWO52 * Pow2(k) || Value(y) == c * Pow2(k)
  {
    var e, f := y / TWO52, y % TWO52;
    c := 0;
    if e == 0 {
      MulLessEq(1, Pow2(k), TWO52);
    } else if e - 1 >= k {
      Pow2Add(e - 1 - k, k);
      c := (TWO52 + f) * Pow2(e - 1 - k);
      MulAssociates(TWO52 + f, Pow2(e - 1 - k), Pow2(k));
    } else {
      Pow2Monotone(e - 1, k - 1);
      MulLessEq(Pow2(e - 1), Pow2(k - 1), TWO52 + f);
      MulLess(TWO52 + f, TWO53, Pow2(k - 1));
    }
  }

  // ---------------------------------------------------------------------------
  // One binary digit of the root, on unbounded integers.

  /**
   The digit recurrence. Before the digit r is tried, q is the root so far, i the scaled
   remainder with 2 * (n - q^2) == i * 2r, and n < (q + 2r)^2.
   */
  lemma DigitStep(n: nat, q: nat, i: nat, r: nat)
    requires 2 * (n - Square(q)) == i * (2 * r)
    requires n < Square(q + 2 * r)
    requires r > 0
    ensures 2 * q + r <= i ==> 2 * (n - Square(q + r)) == (2 * (i - (2 * q + r))) * r
    ensures i < 2 * q + r ==> 2 * (n - Square(q)) == (2 * i) * r && n < Square(q + r)
    ensures i < 4 * q + 4 * r
  {
    hide Square;
    var t := 2 * q + r;
    SquareOfSum(q, r);
    SquareOfSum(q, 2 * r);
    TwoTimes(i, r);
    TwoTimes(i - t, r);
    MulDistributes(i, t, r);
    assert n - Square(q) == i * r;
    if i < t {
      MulLess(i, t, r);
    }
    MulAssociates(2 * q + 2 * r, 2, r);
    if i >= 4 * q + 4 * r {
      MulLessEq(4 * q + 4 * r, i, r);
      assert false;
    }
  }

  lemma SquareOfSum(q: int, r: int)
    ensures Square(q + r) == Square(q) + (2 * q + r) * r
  {
  }

  lemma TwoTimes(i: int, r: int)
    ensures i * (2 * r) == 2 * (i * r) == (2 * i) * r
  {
  }

  lemma MulDistributes(a: int, b: int, r: int)
    ensures (a - b) * r == a * r - b * r
  {
  }

  lemma MulLess(a: int, b: int, r: int)
    requires a < b && r > 0
    ensures a * r < b * r
  {
  }

  lemma MulLessEq(a: int, b: int, r: int)
    requires a <= b && r >= 0
    ensures a * r <= b * r
  {
  }

  lemma MulAssociates(a: int, b: int, c: int)
    ensures a * (b * c) == (a * b) * c
  {
  }

  // ---------------------------------------------------------------------------
  // The digit loops, libm/e_sqrt.c:139-172.

  /** A pair of 32-bit words as one number. */
  function Pair(high: nat, low: nat): nat {
    high * TWO32 + low
  }

  /** Doubling the pair ix0:ix1, as lines 140-141 do. */
  lemma Doubled(high: nat, low: nat)
    requires low < TWO32
    ensures Pair(high + high + low / TWO31, (low + low) % TWO32) == 2 * Pair(high, low)
  {
  }

  /** The loop invariant: q is the root so far, i the scaled remainder, the next digit is unit / 2. */
  ghost predicate Partial(n: nat, q: nat, i: nat, unit: nat) {
    && 2 * (n - Square(q)) == i * unit
    && n < Square(q + unit)
    && q + unit <= TWO54
  }

  /** One digit tried on whole numbers, with the outcome both loops compute. */
  lemma DigitTried(n: nat, q: nat, i: nat, r: nat)
    requires Partial(n, q, i, 2 * r) && r > 0
    ensures 2 * q + r <= i ==> Partial(n, q + r, 2 * (i - (2 * q + r)), r)
    ensures i < 2 * q + r ==> Partial(n, q, 2 * i, r)
    ensures i < 4 * TWO54
  {
    DigitStep(n, q, i, r);
  }

  /** Lines 146-153: one digit of the high word; the low words of root and digit are still zero. */
  method HighDigit(q: nat, s0: nat, i0: nat, i1: nat, r: nat) returns (q': nat, s0': nat, ix0: nat, ix1: nat)
    requires i1 < TWO32 && s0 == 2 * q
    ensures ix1 < TWO32 && s0' == 2 * q'
    ensures
      var i, t := Pair(i0, i1), 2 * Pair(q, 0) + r * TWO32;
      if t <= i then q' == q + r && Pair(ix0, ix1) == 2 * (i - t)
      else q' == q && Pair(ix0, ix1) == 2 * i
  {
    q', s0', ix0, ix1 := q, s0, i0, i1;
    var t := s0 + r;
    if t <= ix0 {
      s0' := t + r;
      ix0 := ix0 - t;
      q' := q + r;
    }
    Doubled(ix0, ix1);
    ix0, ix1 := ix0 + ix0 + ix1 / TWO31, (ix1 + ix1) % TWO32;
  }

  /** Lines 145-155: the 22 digits of the high word. */
  method HighDigits(ghost n: nat, i0: nat, i1: nat) returns (q: nat, ix0: nat, ix1: nat)
    requires i1 < TWO32
    requires Partial(n, 0, Pair(i0, i1), TWO54)
    ensures ix1 < TWO32
    ensures Partial(n, Pair(q, 0), Pair(ix0, ix1), TWO32)
  {
    hide Partial, Pow2;
    ix0, ix1, q := i0, i1, 0;
    var s0: nat, r: nat := 0, 0x20_0000;
    ghost var k: nat := 22;
    Pow2Values();
    HalvePow2(22);
    while r != 0
      invariant k <= 22 && r == if k == 0 then 0 else Pow2(k - 1)
      invariant ix1 < TWO32 && s0 == 2 * q
      invariant Partial(n, Pair(q, 0), Pair(ix0, ix1), Pow2(k) * TWO32)
      decreases k
    {
      HalvePow2(k);
      DigitTried(n, Pair(q, 0), Pair(ix0, ix1), r * TWO32);
      q, s0, ix0, ix1 := HighDigit(q, s0, ix0, ix1, r);
      r := r / 2;
      k := k - 1;
    }
  }

  /** The words of 2q, with the digit of weight 2^31 of q1 (top) pushed into s0. */
  ghost predicate TwiceRoot(q: nat, q1: nat, s0: nat, s1: nat, top: nat) {
    && (top == 0 || top == TWO31) && top <= q1
    && s1 == 2 * (q1 - top) && s0 == 2 * q + top / TWO31
  }

  /** The digits below r are still clear; every digit but the first lies below 2^31. */
  ghost predicate DigitsClear(q1: nat, top: nat, r: nat) {
    if r == TWO31 then q1 == 0 && top == 0 else top <= q1 && q1 - top + 2 * r <= TWO31
  }

  /** Adding r twice to s1 carries exactly at the first digit, and the code's test sees it. */
  lemma Carry(q1: nat, top: nat, s1: nat, r: nat)
    requires 0 < r <= TWO31 && top <= q1 && s1 == 2 * (q1 - top) && DigitsClear(q1, top, r)
    ensures s1 + r < TWO32
    ensures (s1 + r + r) % TWO32 == if r == TWO31 then 0 else s1 + r + r
    ensures (s1 + r) / TWO31 == 1 && ((s1 + r + r) % TWO32) / TWO31 == 0 <==> r == TWO31
  {
    if r != TWO31 {
      assert s1 + r + r < TWO32;
    }
  }

  /** Subtracting t:t1 from i0:i1 with a borrow. */
  lemma Borrow(i0: nat, i1: nat, t: nat, t1: nat)
    requires i1 < TWO32 && t1 < TWO32
    ensures t < i0 || (t == i0 && t1 <= i1) <==> Pair(t, t1) <= Pair(i0, i1)
    ensures Pair(t, t1) <= Pair(i0, i1) ==>
              var high := i0 - t - if i1 < t1 then 1 else 0;
              high >= 0 && Pair(high, (i1 - t1) % TWO32) == Pair(i0, i1) - Pair(t, t1)
  {
    if i1 < t1 {
      assert (i1 - t1) % TWO32 == i1 - t1 + TWO32;
    } else {
      assert (i1 - t1) % TWO32 == i1 - t1;
    }
  }

  /** Lines 159-170: one digit of the low word. */
  method LowDigit(q: nat, q1: nat, s0: nat, s1: nat, i0: nat, i1: nat, r: nat, ghost top: nat)
    returns (q1': nat, s0': nat, s1': nat, ix0: nat, ix1: nat, ghost top': nat)
    requires i1 < TWO32 && 0 < r <= TWO31
    requires TwiceRoot(q, q1, s0, s1, top) && DigitsClear(q1, top, r)
    ensures ix1 < TWO32
    ensures TwiceRoot(q, q1', s0', s1', top')
    ensures q1' - top' + r <= TWO31
    ensures
      var i, t := Pair(i0, i1), 2 * Pair(q, q1) + r;
      if t <= i then q1' == q1 + r && Pair(ix0, ix1) == 2 * (i - t)
      else q1' == q1 && Pair(ix0, ix1) == 2 * i
  {
    Carry(q1, top, s1, r);
    q1', s0', s1', ix0, ix1, top' := q1, s0, s1, i0, i1, top;
    var t1 := (s1 + r) % TWO32;
    var t := s0;
    assert t1 == s1 + r;
    assert Pair(t, t1) == 2 * Pair(q, q1) + r;
    Borrow(i0, i1, t, t1);
    if t < ix0 || (t == ix0 && t1 <= ix1) {
      s1' := (t1 + r) % TWO32;
      if t1 / TWO31 == 1 && s1' / TWO31 == 0 {
        s0' := s0 + 1;
        top' := TWO31;
      }
      ix0 := ix0 - t - if ix1 < t1 then 1 else 0;
      ix1 := (ix1 - t1) % TWO32;
      q1' := q1 + r;
    }
    Doubled(ix0, ix1);
    ix0, ix1 := ix0 + ix0 + ix1 / TWO31, (ix1 + ix1) % TWO32;
  }

  /** Lines 157-172: the 32 digits of the low word. */
  method LowDigits(ghost n: nat, q: nat, i0: nat, i1: nat) returns (q1: nat, ix0: nat, ix1: nat)
    requires i1 < TWO32
    requires Partial(n, Pair(q, 0), Pair(i0, i1), TWO32)
    ensures q1 < TWO32 && ix1 < TWO32
    ensures Partial(n, Pair(q, q1), Pair(ix0, ix1), 1)
  {
    hide Partial, Pow2;
    ix0, ix1, q1 := i0, i1, 0;
    var s0: nat, s1: nat, r: nat := 2 * q, 0, TWO31;
    ghost var k: nat := 32;
    ghost var top := 0;
    Pow2Values();
    while r != 0
      invariant k <= 32 && r == if k == 0 then 0 else Pow2(k - 1)
      invariant ix1 < TWO32 && q1 < TWO32 && r <= TWO31
      invariant TwiceRoot(q, q1, s0, s1, top) && (r != 0 ==> DigitsClear(q1, top, r))
      invariant Partial(n, Pair(q, q1), Pair(ix0, ix1), Pow2(k))
      decreases k
    {
      HalvePow2(k);
      DigitTried(n, Pair(q, q1), Pair(ix0, ix1), r);
      q1, s0, s1, ix0, ix1, top := LowDigit(q, q1, s0, s1, ix0, ix1, r, top);
      NextDigit(q1, top, r);
      r := r / 2;
      k := k - 1;
    }
  }

  lemma NextDigit(q1: nat, top: nat, r: nat)
    requires 0 < r <= TWO31
    requires (top == 0 || top == TWO31) && top <= q1 && q1 - top + r <= TWO31
    ensures q1 < TWO32 && (r / 2 != 0 ==> DigitsClear(q1, top, r / 2))
  {
  }

  // ---------------------------------------------------------------------------
  // Normalisation, libm/e_sqrt.c:119-132.

  /** sig is the 53-bit significand and m the biased exponent; subnormals get an exponent below 1. */
  ghost predicate Normalized(bits: nat, m: int, sig: nat) {
    && TWO52 <= sig < TWO53
    && -51 <= m <= 2046
    && (m >= 1 ==> Value(bits) == sig * Pow2(m - 1))
    && (m < 1 ==> sig == Value(bits) * Pow2(1 - m))
  }

  /** Shifting high:low left by i, word by word as lines 126-129 do. */
  lemma ShiftedPair(high: nat, low: nat, i: nat)
    requires low < TWO32 && 1 <= i <= 20
    ensures ShiftRight(low, 32 - i) < Pow2(i)
    ensures Pair(high * Pow2(i) + ShiftRight(low, 32 - i), ShiftLeft(low, i)) == Pair(high, low) * Pow2(i)
  {
    hide Pow2;
    Pow2Add(32 - i, i);
    Pow2Values();
    ShiftedBy(high, low, Pow2(i), Pow2(32 - i));
  }

  lemma ShiftedBy(high: nat, low: nat, p: nat, p': nat)
    requires low < TWO32 && p > 0 && p' > 0 && p' * p == TWO32
    ensures low / p' < p
    ensures high * p * TWO32 + (low / p') * TWO32 + (low * p) % TWO32 == Pair(high, low) * p
  {
    var h, b := low / p', low % p';
    assert low == p' * h + b;
    QuotientBelow(low, p, p');
    MulRegroup(p', h, b, p);
    MulLess(b, p', p);
    DivModUnique(low * p, TWO32, h, b * p);
    MulRegroup(TWO32, high, low, p);
  }

  lemma QuotientBelow(low: nat, p: nat, p': nat)
    requires p' > 0 && low < p' * p
    ensures low / p' < p
  {
    var h := low / p';
    assert low >= p' * h;
    if h >= p {
      MulLessEq(p, h, p');
      assert false;
    }
  }

  lemma MulRegroup(a: int, h: int, b: int, p: int)
    ensures (a * h + b) * p == h * (a * p) + b * p == (h * p) * a + b * p
  {
    assert (a * h) * p == h * (a * p) == (h * p) * a;
  }

  lemma TwentyOneBits(low: nat)
    requires 0 < low < TWO32
    ensures Pair(low / 0x800, (low * 0x20_0000) % TWO32) == Pair(0, low) * (2 * TWO20)
    ensures ((low * 0x20_0000) % TWO32) % (2 * TWO20) == 0 && low / 0x800 < 2 * TWO20
  {
    var h, b := low / 0x800, low % 0x800;
    DivModUnique(low * 0x20_0000, TWO32, h, b * 0x20_0000);
  }

  /** Lines 122-125: whole 21-bit steps while the high word is empty. */
  method FillHighWord(hi: nat, lo: nat) returns (s: nat, ix0: nat, ix1: nat)
    requires hi < TWO20 && lo < TWO32 && 0 < Pair(hi, lo)
    ensures 0 < ix0 < 2 * TWO20 && ix1 < TWO32
    ensures Pair(ix0, ix1) == Pair(hi, lo) * Pow2(s)
    ensures s == 0 ==> ix0 < TWO20
    ensures s > 0 ==> ix1 % (2 * TWO20) == 0
  {
    ix0, ix1, s := hi, lo, 0;
    while ix0 == 0
      invariant ix0 < 2 * TWO20 && ix1 < TWO32 && 0 < Pair(ix0, ix1)
      invariant Pair(ix0, ix1) == Pair(hi, lo) * Pow2(s)
      invariant s == 0 ==> ix0 < TWO20
      invariant s > 0 ==> ix1 % (2 * TWO20) == 0
      decreases TWO53 - Pair(ix0, ix1)
    {
      TwentyOneBits(ix1);
      ix0 := WordOr(ix0, ix1 / 0x800);
      ix1 := (ix1 * 0x20_0000) % TWO32;
      assert Pow2(s + 21) == Pow2(s) * (2 * TWO20) by {
        Pow2Add(s, 21);
        Pow2Values();
      }
      MulAssociates(Pair(hi, lo), Pow2(s), 2 * TWO20);
      s := s + 21;
    }
  }

  /** Line 126: single-bit steps until bit 20 is set. */
  method ShiftToLeadingBit(high: nat) returns (ix0: nat, i: nat)
    requires 0 < high < 2 * TWO20
    ensures i <= 20 && ix0 == high * Pow2(i) && TWO20 <= ix0 < 2 * TWO20
    ensures high < TWO20 ==> i > 0
  {
    i := 0;
    ix0 := high;
    while (ix0 / TWO20) % 2 == 0
      invariant 0 < ix0 < 2 * TWO20 && ix0 == high * Pow2(i)
      decreases 2 * TWO20 - ix0
    {
      TwoTimes(high, Pow2(i));
      ix0 := 2 * ix0;
      i := i + 1;
    }
    if i > 20 {
      ShiftTooFar(high, i);
      assert false;
    }
  }

  /** Lines 119-132. A shift count of 32 (i == 0) acts as 0, as the processor's variable shift does. */
  method Normalize(hi: nat, lo: nat) returns (m: int, ix0: nat, ix1: nat)
    requires IsFinite(Pair(hi, lo)) && lo < TWO32 && 0 < Pair(hi, lo)
    ensures ix1 < TWO32
    ensures Normalized(Pair(hi, lo), m, Pair(ix0, ix1))
  {
    hide WordOr, ShiftRight, ShiftLeft, Normalized, Pow2;
    m, ix0, ix1 := hi / TWO20, hi, lo;
    if m == 0 {
      var s, high, low := FillHighWord(hi, lo);
      var i;
      ix0, i := ShiftToLeadingBit(high);
      var shift: int := s + i;
      m := 1 - shift;
      ix0 := WordOr(ix0, ShiftRight(low, (32 - i) % 32));
      ix1 := ShiftLeft(low, i);
      ix0 := ix0 % TWO20 + TWO20;
      Subnormal(hi, lo, s, high, low, i, ix0, ix1);
    } else {
      ix0 := ix0 % TWO20 + TWO20;
      NormalValue(hi, lo);
    }
  }

  lemma ShiftTooFar(high: nat, i: nat)
    requires high > 0 && i > 20
    ensures high * Pow2(i) >= 2 * TWO20
  {
    Pow2Monotone(21, i);
    Pow2Values();
    MulLessEq(1, high, Pow2(i));
  }

  lemma NormalValue(hi: nat, lo: nat)
    requires IsFinite(Pair(hi, lo)) && lo < TWO32 && TWO20 <= hi
    ensures Normalized(Pair(hi, lo), hi / TWO20, Pair(hi % TWO20 + TWO20, lo))
  {
    var bits := Pair(hi, lo);
    var f := (hi % TWO20) * TWO32 + lo;
    DivModUnique(bits, TWO52, hi / TWO20, f);
  }

  lemma Subnormal(hi: nat, lo: nat, s: int, high: nat, low: nat, i: int, ix0: nat, ix1: nat)
    requires hi < TWO20 && lo < TWO32 && 0 < Pair(hi, lo) && s >= 0
    requires 0 < high < 2 * TWO20 && low < TWO32
    requires Pair(high, low) == Pair(hi, lo) * Pow2(s)
    requires i == 0 ==> low % (2 * TWO20) == 0
    requires 0 <= i <= 20 && TWO20 <= high * Pow2(i) < 2 * TWO20
    requires ix0 == WordOr(high * Pow2(i), ShiftRight(low, (32 - i) % 32)) % TWO20 + TWO20
    requires ix1 == ShiftLeft(low, i)
    ensures Normalized(Pair(hi, lo), 1 - (s + i), Pair(ix0, ix1))
  {
    var f := Pair(hi, lo);
    assert Value(f) == f;
    hide Value, WordOr, ShiftRight, ShiftLeft, Pow2;
    ShiftedIn(high, low, i, ix0, ix1);
    Pow2Add(s, i);
    MulAssociates(f, Pow2(s), Pow2(i));
    if s + i >= 53 {
      Pow2Monotone(53, s + i);
      Pow2Values();
      MulLessEq(1, f, Pow2(s + i));
      assert false;
    }
  }

  lemma ShiftedIn(high: nat, low: nat, i: nat, ix0: nat, ix1: nat)
    requires 0 < high < 2 * TWO20 && low < TWO32
    requires i == 0 ==> low % (2 * TWO20) == 0
    requires 0 <= i <= 20 && TWO20 <= high * Pow2(i) < 2 * TWO20
    requires ix0 == WordOr(high * Pow2(i), ShiftRight(low, (32 - i) % 32)) % TWO20 + TWO20
    requires ix1 == ShiftLeft(low, i)
    ensures Pair(ix0, ix1) == Pair(high, low) * Pow2(i)
    ensures TWO52 <= Pair(ix0, ix1) < TWO53
  {
    hide WordOr, ShiftRight, ShiftLeft, Pow2;
    if i == 0 {
      LowWordMaskedOff(high, low);
    } else {
      ShiftedPair(high, low, i);
      WordOrDisjoint(high, ShiftRight(low, 32 - i), i);
      KeepsLeadingBit(high, ShiftRight(low, 32 - i), i);
    }
  }

  /** With no shift left to do, the low word's bits that reach ix0 are all masked off. */
  lemma LowWordMaskedOff(high: nat, low: nat)
    requires TWO20 <= high * Pow2(0) < 2 * TWO20 && low < TWO32 && low % (2 * TWO20) == 0
    ensures WordOr(high * Pow2(0), ShiftRight(low, 0)) % TWO20 + TWO20 == high < 2 * TWO20 && TWO20 <= high
    ensures ShiftLeft(low, 0) == low && Pair(high, low) * Pow2(0) == Pair(high, low)
  {
    hide WordOr;
    var c := low / (2 * TWO20);
    assert low == (2 * c) * TWO20;
    assert Pow2(20) == TWO20 by { Pow2Values(); }
    WordOrKeepsLow(high, 2 * c, 20);
  }

  /** Filling the vacated low bits does not reach the leading bit. */
  lemma KeepsLeadingBit(high: nat, fill: nat, i: nat)
    requires 1 <= i <= 20 && fill < Pow2(i) && TWO20 <= high * Pow2(i) < 2 * TWO20
    ensures TWO20 <= high * Pow2(i) + fill < 2 * TWO20
  {
    hide Pow2;
    Pow2Add(21 - i, i);
    Pow2Values();
    BelowNextMultiple(high, fill, Pow2(i), Pow2(21 - i));
  }

  lemma BelowNextMultiple(high: nat, fill: nat, p: nat, p': nat)
    requires fill < p && high * p < p' * p
    ensures high * p + fill < p' * p
  {
    if high >= p' {
      MulLessEq(p', high, p);
      assert false;
    }
    MulLessEq(high + 1, p', p);
  }

  // ---------------------------------------------------------------------------
  // Rounding and packing, libm/e_sqrt.c:174-191.

  /** The significand of the result: q has one digit more than a double holds. */
  function RoundedDigits(mode: Rounding, q: nat, inexact: bool): nat {
    if !inexact then q / 2
    else match mode
      case ToNearest => (q + 1) / 2
      case Upward => q / 2 + 1
      case _ => q / 2
  }

  /**
   Lines 174-186. In floating point 1 - 1.0e-300 is 1 exactly when rounding to nearest or upward,
   and 1 + 1.0e-300 exceeds 1 exactly when rounding upward.
   */
  method RoundWords(mode: Rounding, q: nat, q1: nat, inexact: bool) returns (r: nat, r1: nat)
    requires q1 < TWO32
    ensures r1 < TWO32
    ensures Pair(r, r1) / 2 == RoundedDigits(mode, Pair(q, q1), inexact)
  {
    r, r1 := q, q1;
    HalfPair(q, q1);
    if inexact {
      if mode.ToNearest? || mode.Upward? {
        if q1 == 0xffff_ffff {
          r1 := 0;
          r := q + 1;
        } else if mode.Upward? {
          if q1 == 0xffff_fffe {
            r := q + 1;
          }
          r1 := (q1 + 2) % TWO32;
        } else {
          r1 := q1 + q1 % 2;
        }
      }
    }
    HalfPair(r, r1);
  }

  lemma HalfPair(q: nat, q1: nat)
    ensures Pair(q, q1) / 2 == q * TWO31 + q1 / 2
    ensures (Pair(q, q1) + 1) / 2 == q * TWO31 + (q1 + 1) / 2
  {
  }

  /** Lines 187-191. */
  method Pack(q: nat, q1: nat, m: int) returns (hi: int, lo: nat)
    requires q1 < TWO32
    ensures lo < TWO32
    ensures hi * TWO32 + lo == Pair(q, q1) / 2 + (m + 1022) * TWO52
  {
    hide WordOr;
    hi := q / 2 + 0x3fe0_0000;
    lo := q1 / 2;
    if q % 2 == 1 {
      SetSignBit(lo);
      lo := WordOr(TWO31, lo);
    }
    hi := hi + m * TWO20;
  }

  lemma SetSignBit(lo: nat)
    requires lo < TWO31
    ensures WordOr(TWO31, lo) == TWO31 + lo
  {
    hide WordOr;
    assert Pow2(31) == TWO31 by { Pow2Values(); }
    WordOrDisjoint(1, lo, 31);
  }

  /** The packed words denote p * 2^(m - 52); a significand rounded up to 2^53 moves into the exponent. */
  lemma PackedValue(p: nat, m: int)
    requires TWO52 <= p <= TWO53 && -1022 <= m <= 1000
    ensures IsFinite(p + (m + 1022) * TWO52)
    ensures Value(p + (m + 1022) * TWO52) == p * Pow2(m + 1022)
  {
    var bits := p + (m + 1022) * TWO52;
    if p < TWO53 {
      DivModUnique(bits, TWO52, m + 1023, p - TWO52);
    } else {
      DivModUnique(bits, TWO52, m + 1024, 0);
    }
  }

  // ---------------------------------------------------------------------------
  // Why the result is correctly rounded.

  /** q is the root of n cut to an integer. */
  ghost predicate IntegerRoot(n: nat, q: nat) {
    Square(q) <= n < Square(q + 1)
  }

  /** An odd root of an even number is never exact: the half-way case does not occur. */
  lemma OddRootInexact(n: nat, q: nat)
    requires n % 2 == 0 && q % 2 == 1
    ensures Square(q) != n
  {
    var h := q / 2;
    assert q == 2 * h + 1;
    SquareOfSum(2 * h, 1);
    assert Square(2 * h) == 2 * (2 * h * h);
  }

  lemma SquareMonotone(a: int, b: int)
    requires 0 <= a <= b
    ensures Square(a) <= Square(b)
    ensures a < b ==> Square(a) < Square(b)
  {
    SquareOfSum(a, b - a);
    if a < b {
      MulLess(0, a + b, b - a);
    }
  }

  lemma SquareOfProduct(a: int, u: int)
    ensures Square(a * u) == Square(a) * Square(u)
  {
    assert (a * u) * (a * u) == (a * a) * (u * u);
  }

  /** Comparisons with a root survive scaling by u. */
  lemma ScaledBelow(v: int, a: int, n: int, u: int)
    requires u > 0 && 0 <= a && 0 <= v <= a * u
    requires Square(a) < n || (v < a * u && Square(a) <= n)
    ensures Square(v) < n * Square(u)
  {
    SquareMonotone(v, a * u);
    SquareOfProduct(a, u);
    MulLess(0, u, u);
    if Square(a) < n {
      MulLess(Square(a), n, Square(u));
    } else {
      MulLessEq(Square(a), n, Square(u));
    }
  }

  lemma ScaledAbove(v: int, a: int, n: int, u: int)
    requires u > 0 && 0 <= a && a * u <= v && n < Square(a)
    ensures n * Square(u) < Square(v)
  {
    MulLessEq(0, a, u);
    SquareMonotone(a * u, v);
    SquareOfProduct(a, u);
    MulLess(0, u, u);
    MulLess(n, Square(a), Square(u));
  }

  /** The rounded significand against the root of n, doubled so that it stays integral. */
  lemma RoundedAgainstRoot(mode: Rounding, n: nat, q: nat, p: nat)
    requires n % 2 == 0 && IntegerRoot(n, q) && q >= TWO53
    requires p == RoundedDigits(mode, q, Square(q) < n)
    ensures p >= TWO52
    ensures mode.ToNearest? ==> n < Square(2 * p + 1) && Square(2 * p - 1) < n
    ensures mode.Upward? ==> n <= Square(2 * p) && Square(2 * p - 2) < n
    ensures mode.Downward? || mode.TowardZero? ==> Square(2 * p) <= n < Square(2 * p + 2)
  {
    hide Square;
    SquareMonotone(q + 1, if 2 * p >= q then 2 * p + 1 else q + 1);
    SquareMonotone(q - 1, q);
    if q % 2 == 1 {
      OddRootInexact(n, q);
    }
    match mode {
      case ToNearest =>
      case Upward =>
        SquareMonotone(q + 1, if 2 * p >= q + 1 then 2 * p else q + 1);
        SquareMonotone(2 * p - 2, q);
      case _ =>
        SquareMonotone(2 * p, q);
        SquareMonotone(q + 1, 2 * p + 2);
    }
  }

  /** One double y against the result z == p * u, the exact root being the root of n * u^2 / 4. */
  ghost predicate NoBetter(mode: Rounding, nuu: nat, z: nat, v: nat) {
    match mode
    case ToNearest => (z < v ==> nuu < Square(z + v)) && (v < z ==> Square(z + v) < nuu)
    case Upward => v < z ==> Square(2 * v) < nuu
    case _ => z < v ==> nuu < Square(2 * v)
  }

  lemma AgainstOther(mode: Rounding, n: nat, q: nat, p: nat, k: nat, y: nat)
    requires n % 2 == 0 && IntegerRoot(n, q) && q >= TWO53 && Square(TWO53) <= n
    requires p == RoundedDigits(mode, q, Square(q) < n)
    ensures NoBetter(mode, n * Square(Pow2(k)), p * Pow2(k), Value(y))
  {
    hide Square, Value, NoBetter, IntegerRoot;
    var u, v := Pow2(k), Value(y);
    RoundedAgainstRoot(mode, n, q, p);
    var c := Spacing(y, k);
    if v < TWO52 * u {
      AgainstSmaller(mode, n, p, u, v);
    } else {
      AgainstMultiple(mode, n, p, u, c);
    }
  }

  /** y at or above 2^52 * u is a multiple c * u. */
  lemma AgainstMultiple(mode: Rounding, n: nat, p: nat, u: nat, c: nat)
    requires u > 0 && p >= TWO52
    requires mode.ToNearest? ==> n < Square(2 * p + 1) && Square(2 * p - 1) < n
    requires mode.Upward? ==> Square(2 * p - 2) < n
    requires mode.Downward? || mode.TowardZero? ==> n < Square(2 * p + 2)
    ensures NoBetter(mode, n * Square(u), p * u, c * u)
  {
    hide Square;
    MulOrder(c, p, u);
    MulAdds(p, c, u);
    MulAdds(c, c, u);
    if c > p {
      MulLessEq(2 * p + 1, p + c, u);
      MulLessEq(2 * p + 2, c + c, u);
      match mode {
        case ToNearest => ScaledAbove(p * u + c * u, 2 * p + 1, n, u);
        case Upward =>
        case _ => ScaledAbove(2 * (c * u), 2 * p + 2, n, u);
      }
    } else if c < p {
      MulLessEq(p + c, 2 * p - 1, u);
      MulLessEq(c + c, 2 * p - 2, u);
      match mode {
        case ToNearest => ScaledBelow(p * u + c * u, 2 * p - 1, n, u);
        case Upward => ScaledBelow(2 * (c * u), 2 * p - 2, n, u);
        case _ =>
      }
    }
  }

  /** y below 2^52 * u. */
  lemma AgainstSmaller(mode: Rounding, n: nat, p: nat, u: nat, v: nat)
    requires u > 0 && p >= TWO52 && v < TWO52 * u && Square(TWO53) <= n
    requires mode.ToNearest? ==> Square(2 * p - 1) < n
    ensures NoBetter(mode, n * Square(u), p * u, v)
  {
    hide Square;
    MulLessEq(TWO52, p, u);
    match mode {
      case ToNearest =>
        if p == TWO52 {
          ScaledBelow(p * u + v, TWO53, n, u);
        } else {
          MulAdds(p, TWO52, u);
          MulLessEq(p + TWO52, 2 * p - 1, u);
          ScaledBelow(p * u + v, 2 * p - 1, n, u);
        }
      case Upward => ScaledBelow(2 * v, TWO53, n, u);
      case _ =>
    }
  }

  lemma MulAdds(a: int, b: int, u: int)
    ensures (a + b) * u == a * u + b * u
  {
  }

  lemma MulOrder(a: int, b: int, u: int)
    requires u > 0
    ensures a < b <==> a * u < b * u
    ensures a == b <==> a * u == b * u
  {
    if a < b {
      MulLess(a, b, u);
    } else if b < a {
      MulLess(b, a, u);
    }
  }

  /**
   The root of a significand sig (52 fraction bits, even exponent) is rounded correctly for every
   mode, whatever power of two scales it.
   */
  lemma RootCorrectlyRounded(mode: Rounding, x: nat, sig: nat, q: nat, p: nat, k: nat)
    requires TWO52 <= sig < TWO54 && IntegerRoot(sig * TWO54, q)
    requires p == RoundedDigits(mode, q, Square(q) < sig * TWO54)
    requires x * Pow2(1074) == sig * TWO52 * Square(Pow2(k))
    ensures TWO52 <= p <= TWO53
    ensures CorrectlyRounded(mode, x, p * Pow2(k))
  {
    hide Square, NoBetter, RoundedDigits, Value, IntegerRoot, Pow2, CorrectlyRounded;
    var n, u, w := sig * TWO54, Pow2(k), x * Pow2(1074);
    RootRange(sig, q);
    RoundedAgainstRoot(mode, n, q, p);
    RoundedRange(mode, q, Square(q) < n);
    FourTimes(sig, Square(u));
    forall y: nat | IsFinite(y)
      ensures NoBetter(mode, 4 * w, p * u, Value(y))
    {
      AgainstOther(mode, n, q, p, k, y);
    }
    ResultAgainstRoot(mode, n, p, u);
    NoneBetter(mode, x, p * u);
  }

  lemma FourTimes(sig: nat, uu: nat)
    ensures 4 * (sig * TWO52 * uu) == (sig * TWO54) * uu
  {
  }

  lemma RoundedRange(mode: Rounding, q: nat, inexact: bool)
    requires TWO53 <= q < TWO54
    ensures TWO52 <= RoundedDigits(mode, q, inexact) <= TWO53
  {
  }

  /** A result rounded upward is not below the root, one rounded downward not above it. */
  lemma ResultAgainstRoot(mode: Rounding, n: nat, p: nat, u: nat)
    requires mode.Upward? ==> n <= Square(2 * p)
    requires mode.Downward? || mode.TowardZero? ==> Square(2 * p) <= n
    ensures mode.Upward? ==> n * Square(u) <= 4 * Square(p * u)
    ensures mode.Downward? || mode.TowardZero? ==> 4 * Square(p * u) <= n * Square(u)
  {
    SquareOfProduct(p, u);
    SquareOfProduct(2, p);
    MulLessEq(0, u * u, 1);
    if mode.Upward? {
      MulLessEq(n, 4 * Square(p), Square(u));
    } else if !mode.ToNearest? {
      MulLessEq(4 * Square(p), n, Square(u));
    }
  }

  lemma NoneBetter(mode: Rounding, x: nat, z: nat)
    requires forall y: nat | IsFinite(y) :: NoBetter(mode, 4 * (x * Pow2(1074)), z, Value(y))
    requires mode.Upward? ==> x * Pow2(1074) <= Square(z)
    requires mode.Downward? || mode.TowardZero? ==> Square(z) <= x * Pow2(1074)
    ensures CorrectlyRounded(mode, x, z)
  {
    hide Square, Value, Pow2;
    forall y: nat | IsFinite(y)
      ensures Square(2 * Value(y)) == 4 * Square(Value(y))
    {
      SquareOfProduct(2, Value(y));
      SquareOfTwo();
    }
  }

  lemma SquareOfTwo()
    ensures Square(2) == 4
  {
  }

  lemma RootRange(sig: nat, q: nat)
    requires TWO52 <= sig < TWO54 && IntegerRoot(sig * TWO54, q)
    ensures TWO53 <= q < TWO54
    ensures Square(TWO53) <= sig * TWO54 && (sig * TWO54) % 2 == 0
  {
    if q < TWO53 {
      SquareMonotone(q + 1, TWO53);
      assert false;
    }
    if q >= TWO54 {
      SquareMonotone(TWO54, q);
      assert false;
    }
  }

  // ---------------------------------------------------------------------------
  // The whole function.

  /** Lines 131-137: the exponent made even and halved, against the exact value of the argument. */
  lemma EvenExponent(bits: nat, m: int, sig: nat)
    requires Normalized(bits, m, sig)
    ensures
      var e := m - 1023;
      -1022 <= e / 2 <= 1000 && Value(bits) * Pow2(1074) == (sig * (1 + e % 2)) * TWO52 * Square(Pow2(e / 2 + 1022))
  {
    hide Value, Normalized, Pow2, Square;
    var e := m - 1023;
    var h, odd := e / 2, e % 2;
    ScaledValue(bits, m, sig);
    var u := Pow2(h + 1022);
    SplitExponent(h + 1022, odd);
    MulAssociates(sig, 1 + odd, TWO52 * Square(u));
    MulAssociates(sig * (1 + odd), TWO52, Square(u));
  }

  lemma SplitExponent(k: nat, odd: nat)
    requires odd <= 1
    ensures Pow2(2 * k + odd + 52) == (1 + odd) * (TWO52 * Square(Pow2(k)))
  {
    hide Pow2;
    Pow2Values();
    Pow2Add(odd, 52 + (k + k));
    Pow2Add(52, k + k);
    Pow2Add(k, k);
    assert odd + (52 + (k + k)) == 2 * k + odd + 52;
  }

  lemma ScaledValue(bits: nat, m: int, sig: nat)
    requires Normalized(bits, m, sig)
    ensures -1022 <= (m - 1023) / 2 <= 1000 && m + 1073 >= 0
    ensures Value(bits) * Pow2(1074) == sig * Pow2(m + 1073)
  {
    var v := Value(bits);
    hide Value, Pow2;
    if m >= 1 {
      Pow2Add(m - 1, 1074);
      MulAssociates(sig, Pow2(m - 1), Pow2(1074));
    } else {
      Pow2Add(1 - m, m + 1073);
      MulAssociates(v, Pow2(1 - m), Pow2(m + 1073));
    }
  }

  datatype Outcome =
    | Argument                   // returned unchanged
    | PlusInfinity
    | NotANumber
    | Words(high: nat, low: nat)

  /** Line 110: x * x + x for an infinity or NaN. */
  function SquarePlusSelf(negative: bool, bits: nat): Outcome {
    if bits == INFINITY && !negative then PlusInfinity else NotANumber
  }

  /** Lines 139-142: the significand, doubled once more, starts the digit recurrence. */
  lemma StartDigits(sig: nat)
    requires TWO52 <= sig < TWO54
    ensures Partial(sig * TWO54, 0, 2 * sig, TWO54)
  {
    assert sig * TWO54 < Square(TWO54) by { MulLess(sig, TWO54, TWO54); }
  }

  /** The digits and the remainder that 54 steps leave. */
  lemma DigitsDone(n: nat, q: nat, rest: nat)
    requires Partial(n, q, rest, 1)
    ensures IntegerRoot(n, q) && (rest != 0 <==> Square(q) < n)
  {
    hide Square;
    assert rest * 1 == rest;
  }

  /** __ieee754_sqrt on the words of its argument, in any of the four rounding modes. */
  method SquareRoot(mode: Rounding, hi: nat, lo: nat) returns (r: Outcome)
    requires hi < TWO32 && lo < TWO32
    ensures
      var negative, bits := hi >= TWO31, Pair(hi % TWO31, lo);
      if bits > INFINITY then r == NotANumber
      else if bits == 0 then r == Argument
      else if negative then r == NotANumber
      else if bits == INFINITY then r == PlusInfinity
      else
        && r.Words? && r.low < TWO32 && IsFinite(Pair(r.high, r.low))
        && CorrectlyRounded(mode, Value(bits), Value(Pair(r.high, r.low)))
  {
    hide Partial, IntegerRoot, Value, Normalized, CorrectlyRounded, RoundedDigits, Pow2, Square;
    var bits := Pair(hi % TWO31, lo);
    if (hi / TWO20) % 0x800 == 0x7ff {
      return SquarePlusSelf(hi >= TWO31, bits);
    }
    if hi >= TWO31 || hi == 0 {
      if bits == 0 {
        return Argument;
      } else if hi >= TWO31 {
        return NotANumber;
      }
    }
    var m, ix0, ix1 := Normalize(hi, lo);
    ghost var sig := Pair(ix0, ix1);
    EvenExponent(bits, m, sig);
    SignificandRange(bits, m, sig);
    m := m - 1023;
    if m % 2 == 1 {
      Doubled(ix0, ix1);
      ix0, ix1 := ix0 + ix0 + ix1 / TWO31, (ix1 + ix1) % TWO32;
      sig := 2 * sig;
    }
    m := m / 2;
    Doubled(ix0, ix1);
    ix0, ix1 := ix0 + ix0 + ix1 / TWO31, (ix1 + ix1) % TWO32;
    StartDigits(sig);
    var q, q1;
    q, ix0, ix1 := HighDigits(sig * TWO54, ix0, ix1);
    q1, ix0, ix1 := LowDigits(sig * TWO54, q, ix0, ix1);
    ghost var root := Pair(q, q1);
    DigitsDone(sig * TWO54, root, Pair(ix0, ix1));
    q, q1 := RoundWords(mode, q, q1, ix0 != 0 || ix1 != 0);
    ghost var p := Pair(q, q1) / 2;
    RootCorrectlyRounded(mode, Value(bits), sig, root, p, m + 1022);
    PackedValue(p, m);
    var high, low := Pack(q, q1, m);
    return Words(high, low);
  }

  lemma SignificandRange(bits: nat, m: int, sig: nat)
    requires Normalized(bits, m, sig)
    ensures TWO52 <= sig < TWO53
  {
  }
}
