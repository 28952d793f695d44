/** 64-bit machine words and the page-rounding macros of `dataType.h`.

  `unsigned long` is modelled as an integer below 2^64 with explicit wrap-around, and the
  bitwise operators by recursion over the binary digits, so the mask forms of `round_up`
  and `round_down` are the source's own expressions.
 */
module Words {

  const WORD: int := 0x1_0000_0000_0000_0000
  const PAGE_SIZE: int := 4096

  type u64 = x: int | 0 <= x < WORD

  function Add64(x: u64, y: u64): u64 {
    if x + y < WORD then x + y else x + y - WORD
  }

  function Sub64(x: u64, y: u64): u64 {
    if x >= y then x - y else x - y + WORD
  }

  function Not64(x: u64): u64 {
    WORD - 1 - x
  }

  function Max64(x: u64, y: u64): u64 {
    if x > y then x else y
  }

  function BitAnd(x: nat, y: nat): nat {
    if x == 0 || y == 0 then 0 else (if x % 2 == 1 && y % 2 == 1 then 1 else 0) + 2 * BitAnd(x / 2, y / 2)
  }

  function BitOr(x: nat, y: nat): nat
    decreases x + y
  {
    if x == 0 then y
    else if y == 0 then x
    else (if x % 2 == 1 || y % 2 == 1 then 1 else 0) + 2 * BitOr(x / 2, y / 2)
  }

  function Pow2(k: nat): (p: nat)
    ensures p > 0
  {
    if k == 0 then 1 else 2 * Pow2(k - 1)
  }

  /** `round_down(x, y)`: `x & ~(y - 1)`. */
  function RoundDown(x: u64, y: u64): nat {
    BitAnd(x, Not64(Sub64(y, 1)))
  }

  /** `round_up(x, y)`: `((x - 1) | (y - 1)) + 1`, the last addition wrapping. */
  function RoundUp(x: u64, y: u64): nat {
    var b := BitOr(Sub64(x, 1), Sub64(y, 1));
    if b == WORD - 1 then 0 else b + 1
  }

  // ----- powers of two -----

  lemma {:induction false} Pow2Monotone(j: nat, k: nat)
    requires j <= k
    ensures Pow2(j) <= Pow2(k)
    decreases k
  {
    if j < k {
      Pow2Monotone(j, k - 1);
    }
  }

  lemma Pow2Word()
    ensures Pow2(64) == WORD
    ensures Pow2(12) == PAGE_SIZE
  {
    assert Pow2(4) == 16;
    assert Pow2(8) == 0x100;
    assert Pow2(12) == 0x1000;
    assert Pow2(16) == 0x1_0000;
    assert Pow2(20) == 0x10_0000;
    assert Pow2(24) == 0x100_0000;
    assert Pow2(28) == 0x1000_0000;
    assert Pow2(32) == 0x1_0000_0000;
    assert Pow2(36) == 0x10_0000_0000;
    assert Pow2(40) == 0x100_0000_0000;
    assert Pow2(44) == 0x1000_0000_0000;
    assert Pow2(48) == 0x1_0000_0000_0000;
    assert Pow2(52) == 0x10_0000_0000_0000;
    assert Pow2(56) == 0x100_0000_0000_0000;
    assert Pow2(60) == 0x1000_0000_0000_0000;
  }

  /** Dividing by 2d is dividing by 2 and then by d. */
  lemma HalfSplit(x: nat, d: nat)
    requires d > 0
    ensures x / (2 * d) == (x / 2) / d
    ensures x % (2 * d) == 2 * ((x / 2) % d) + x % 2
  {
    var h := x / 2;
    var q, r := h / d, h % d;
    assert x == 2 * h + x % 2;
    assert h == d * q + r;
    assert x == (2 * d) * q + (2 * r + x % 2) by {
      assert 2 * (d * q) == (2 * d) * q;
    }
    QuotientUnique(x, 2 * d, q, 2 * r + x % 2);
  }

  lemma MulAtLeast(d: int, n: int)
    requires d > 0
    ensures n >= 1 ==> d * n >= d
    ensures n <= -1 ==> d * n <= -d
  {
  }

  lemma QuotientUnique(x: int, d: int, q: int, r: int)
    requires 0 <= r < d && x == d * q + r
    ensures x / d == q && x % d == r
  {
    var q', r' := x / d, x % d;
    assert d * (q - q') == r' - r by {
      assert x == d * q' + r';
      assert d * (q - q') == d * q - d * q';
    }
    MulAtLeast(d, q - q');
  }

  // ----- what the masks compute -----

  /** The lowest `k` bits of `x`. */
  function LowBits(x: nat, k: nat): (r: nat)
    ensures r <= x
  {
    if k == 0 then 0 else 2 * LowBits(x / 2, k - 1) + x % 2
  }

  /** They are the remainder by `2^k`. */
  lemma {:induction false} LowBitsAreRemainder(x: nat, k: nat)
    ensures LowBits(x, k) == x % Pow2(k)
    decreases k
  {
    if k > 0 {
      LowBitsAreRemainder(x / 2, k - 1);
      HalfSplit(x, Pow2(k - 1));
    }
  }

  /** Or with the low mask fills the low bits. */
  lemma {:induction false} OrFillsLowBits(x: nat, k: nat)
    ensures BitOr(x, Pow2(k) - 1) == x - LowBits(x, k) + Pow2(k) - 1
    decreases k
  {
    if k > 0 && x > 0 {
      OrFillsLowBits(x / 2, k - 1);
      var y := Pow2(k) - 1;
      assert y / 2 == Pow2(k - 1) - 1 && y % 2 == 1;
    } else if k > 0 {
      assert LowBits(0, k) == 0;
    }
  }

  lemma OrLowMask(x: nat, k: nat)
    ensures BitOr(x, Pow2(k) - 1) == x - x % Pow2(k) + Pow2(k) - 1
  {
    OrFillsLowBits(x, k);
    LowBitsAreRemainder(x, k);
  }

  /** And with the complement of the low mask clears them. */
  lemma {:induction false} AndClearsLowBits(x: nat, k: nat, w: nat)
    requires k <= w && x < Pow2(w) && Pow2(k) <= Pow2(w)
    ensures BitAnd(x, Pow2(w) - Pow2(k)) == x - LowBits(x, k)
    decreases w
  {
    if x == 0 {
      assert LowBits(0, k) == 0;
    } else if k == 0 {
      AndClearsLowBits(x / 2, 0, w - 1);
      var y := Pow2(w) - 1;
      assert y / 2 == Pow2(w - 1) - 1 && y % 2 == 1;
    } else {
      AndClearsLowBits(x / 2, k - 1, w - 1);
      var y := Pow2(w) - Pow2(k);
      assert y / 2 == Pow2(w - 1) - Pow2(k - 1) && y % 2 == 0;
    }
  }

  lemma AndHighMask(x: nat, k: nat, w: nat)
    requires k <= w && x < Pow2(w)
    ensures Pow2(k) <= Pow2(w)
    ensures BitAnd(x, Pow2(w) - Pow2(k)) == x - x % Pow2(k)
  {
    Pow2Monotone(k, w);
    AndClearsLowBits(x, k, w);
    LowBitsAreRemainder(x, k);
  }

  // ----- the two rounding theorems -----

  ghost predicate Multiple(m: int, y: int)
    requires y > 0
  {
    m % y == 0
  }

  /** `r` is the greatest multiple of `y` not above `x`. */
  ghost predicate IsFloor(r: int, x: int, y: int)
    requires y > 0
  {
    Multiple(r, y) && r <= x && forall m :: Multiple(m, y) && m <= x ==> m <= r
  }

  /** `r` is the least multiple of `y` not below `x`. */
  ghost predicate IsCeiling(r: int, x: int, y: int)
    requires y > 0
  {
    Multiple(r, y) && x <= r && forall m :: Multiple(m, y) && x <= m ==> r <= m
  }

  lemma MultipleGap(a: int, b: int, y: int)
    requires y > 0 && a % y == 0 && b % y == 0
    ensures a < b ==> a + y <= b
  {
    var i, j := a / y, b / y;
    assert a == y * i && b == y * j;
    assert b - a == y * (j - i);
    MulAtLeast(y, j - i);
    if j == i {
      assert b - a == 0;
    }
  }

  lemma StepMultiple(a: int, y: int)
    requires y > 0 && a % y == 0
    ensures (a + y) % y == 0 && (a - y) % y == 0
  {
    var i := a / y;
    assert a == y * i;
    assert a + y == y * (i + 1) && a - y == y * (i - 1);
    QuotientUnique(a + y, y, i + 1, 0);
    QuotientUnique(a - y, y, i - 1, 0);
  }

  lemma FloorIs(r: int, x: int, y: int)
    requires y > 0 && r % y == 0 && r <= x < r + y
    ensures IsFloor(r, x, y)
  {
    forall m | Multiple(m, y) && m <= x ensures m <= r {
      MultipleGap(r, m, y);
    }
  }

  lemma CeilingIs(r: int, x: int, y: int)
    requires y > 0 && r % y == 0 && x <= r < x + y
    ensures IsCeiling(r, x, y)
  {
    forall m | Multiple(m, y) && x <= m ensures r <= m {
      MultipleGap(m, r, y);
    }
  }

  lemma ModOfDifference(x: int, y: int)
    requires y > 0
    ensures (x - x % y) % y == 0
  {
    QuotientUnique(x - x % y, y, x / y, 0);
  }

  lemma HalfDivides(x: int, d: int)
    requires d > 0 && x % (2 * d) == 0
    ensures x % d == 0
  {
    var q := x / (2 * d);
    assert x == (2 * d) * q;
    assert (2 * d) * q == d * (2 * q);
    QuotientUnique(x, d, 2 * q, 0);
  }

  lemma {:induction false} WordIsMultiple(k: nat)
    requires k <= 64
    ensures WORD % Pow2(k) == 0
    decreases 64 - k
  {
    if k == 64 {
      Pow2Word();
    } else {
      WordIsMultiple(k + 1);
      HalfDivides(WORD, Pow2(k));
    }
  }

  lemma WordAbovePow2(k: nat)
    requires k < 64
    ensures 2 * Pow2(k) <= WORD
  {
    Pow2Word();
    Pow2Monotone(k + 1, 64);
  }

  lemma RoundDownBy(x: u64, k: nat, w: nat)
    requires k < w && Pow2(w) == WORD
    ensures Pow2(k) < WORD
    ensures RoundDown(x, Pow2(k)) == x - x % Pow2(k)
  {
    Pow2Monotone(k + 1, w);
    AndHighMask(x, k, w);
  }

  lemma RoundDownValue(x: u64, k: nat)
    requires k < 64
    ensures Pow2(k) < WORD
    ensures RoundDown(x, Pow2(k)) == x - x % Pow2(k)
  {
    Pow2Word();
    RoundDownBy(x, k, 64);
  }

  /** The word-level value of `round_up`: one past the last unit of the block holding x - 1. */
  lemma RoundUpValue(x: u64, k: nat)
    requires k < 64
    ensures Pow2(k) < WORD
    ensures var e := Sub64(x, 1) - Sub64(x, 1) % Pow2(k) + Pow2(k);
      RoundUp(x, Pow2(k)) == if e == WORD then 0 else e
  {
    WordAbovePow2(k);
    OrLowMask(Sub64(x, 1), k);
  }

  /** The mask form of `round_down` is the floor, for every 64-bit value and power of two. */
  lemma RoundDownIsFloor(x: u64, k: nat)
    requires k < 64
    ensures Pow2(k) < WORD
    ensures IsFloor(RoundDown(x, Pow2(k)), x, Pow2(k))
    ensures x < RoundDown(x, Pow2(k)) + Pow2(k)
  {
    var y := Pow2(k);
    RoundDownValue(x, k);
    ModOfDifference(x, y);
    FloorIs(x - x % y, x, y);
  }

  /** Where the block of size `y` holding `t` lies, when `y` divides the word size. */
  lemma BlockOf(t: u64, y: int)
    requires 0 < y <= WORD && WORD % y == 0
    ensures var f := t - t % y;
      && f % y == 0 && (f + y) % y == 0 && f <= t < f + y <= WORD
      && (f + y == WORD <==> t >= WORD - y)
  {
    var f := t - t % y;
    ModOfDifference(t, y);
    StepMultiple(f, y);
    StepMultiple(WORD, y);
    MultipleGap(f, WORD, y);
    MultipleGap(f, WORD - y, y);
  }

  /** The mask form of `round_up` is the ceiling exactly when the ceiling still fits in a word;
      above that it wraps to zero.  Zero rounds to zero, through the wrap of `x - 1`. */
  lemma RoundUpIsCeiling(x: u64, k: nat)
    requires k < 64
    ensures Pow2(k) < WORD
    ensures IsCeiling(RoundUp(x, Pow2(k)), x, Pow2(k)) <==> x <= WORD - Pow2(k)
    ensures x <= WORD - Pow2(k) ==> RoundUp(x, Pow2(k)) < x + Pow2(k)
    ensures x > WORD - Pow2(k) ==> RoundUp(x, Pow2(k)) == 0
  {
    var y := Pow2(k);
    WordAbovePow2(k);
    RoundUpValue(x, k);
    WordIsMultiple(k);
    var t := Sub64(x, 1);
    BlockOf(t, y);
    var f := t - t % y;
    if x == 0 {
      assert RoundUp(x, y) == 0;
      CeilingIs(0, x, y);
    } else if x <= WORD - y {
      assert RoundUp(x, y) == f + y;
      CeilingIs(f + y, x, y);
    } else {
      assert RoundUp(x, y) == 0;
    }
  }

  /** Page rounding, the only instance the helper uses. */
  lemma PageRounding(x: u64)
    ensures RoundDown(x, PAGE_SIZE) % PAGE_SIZE == 0
    ensures RoundDown(x, PAGE_SIZE) <= x < RoundDown(x, PAGE_SIZE) + PAGE_SIZE
    ensures x <= WORD - PAGE_SIZE ==>
      RoundUp(x, PAGE_SIZE) % PAGE_SIZE == 0 && x <= RoundUp(x, PAGE_SIZE) < x + PAGE_SIZE
    ensures x > WORD - PAGE_SIZE ==> RoundUp(x, PAGE_SIZE) == 0
  {
    Pow2Word();
    RoundDownIsFloor(x, 12);
    RoundUpIsCeiling(x, 12);
  }

  /** Rounding a page multiple a second time changes nothing (`gpu_pin_mem` rounds merged sizes again). */
  lemma RoundUpIdempotent(x: u64)
    requires x % PAGE_SIZE == 0
    ensures RoundUp(x, PAGE_SIZE) == x
  {
    PageRounding(x);
    assert WORD % PAGE_SIZE == 0;
    MultipleGap(x, WORD, PAGE_SIZE);
    MultipleGap(x, RoundUp(x, PAGE_SIZE), PAGE_SIZE);
  }
}
