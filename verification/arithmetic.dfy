/** Division, rounding and 32-bit words. */
module Arithmetic {

  const WORD: int := 0x1_0000_0000

  // Division.

  lemma MulAtLeast(a: int, n: int)
    requires a >= 1 && n >= 0
    ensures a * n >= n
  {
    assert (a - 1) * n >= 0;
  }

  lemma DivModUnique(x: int, n: int, q: int, r: int)
    requires n > 0 && 0 <= r < n && x == q * n + r
    ensures x / n == q && x % n == r
  {
    var d := x / n;
    assert x == n * d + x % n;
    assert (q - d) * n == x % n - r;
    if q > d {
      MulAtLeast(q - d, n);
    } else if q < d {
      MulAtLeast(d - q, n);
    }
  }

  /** x rounded up to a multiple of n. */
  function Ceil(x: int, n: int): (r: int)
    requires n > 0
    ensures x <= r < x + n
  {
    Quotient(x + n - 1, n);
    (x + n - 1) / n * n
  }

  lemma Quotient(y: int, n: int)
    requires n > 0
    ensures y - n < y / n * n <= y && y / n * n % n == 0
  {
    assert y == n * (y / n) + y % n;
    DivModUnique(y / n * n, n, y / n, 0);
  }

  lemma CeilBounds(x: int, n: int)
    requires n > 0
    ensures x <= Ceil(x, n) < x + n && Ceil(x, n) % n == 0
  {
    Quotient(x + n - 1, n);
  }

  /** The only multiple of n in [x, x + n). */
  lemma CeilUnique(x: int, n: int, r: int)
    requires n > 0 && r % n == 0 && x <= r < x + n
    ensures Ceil(x, n) == r
  {
    var q := r / n;
    assert r == n * q + 0;
    assert x + n - 1 == q * n + (x + n - 1 - r);
    DivModUnique(x + n - 1, n, q, x + n - 1 - r);
  }

  lemma ModAdd(a: int, b: int, n: int)
    requires n > 0 && a % n == 0
    ensures (a + b) % n == b % n
  {
    assert a == n * (a / n) && b == n * (b / n) + b % n;
    assert a + b == (a / n + b / n) * n + b % n;
    DivModUnique(a + b, n, a / n + b / n, b % n);
  }

  lemma ModSub(a: int, b: int, n: int)
    requires n > 0 && a % n == 0 && b % n == 0
    ensures (a - b) % n == 0
  {
    assert a == n * (a / n) && b == n * (b / n);
    assert a - b == (a / n - b / n) * n + 0;
    DivModUnique(a - b, n, a / n - b / n, 0);
  }

  /** Rounding commutes with adding a multiple. */
  lemma CeilAdd(a: int, x: int, n: int)
    requires n > 0 && a % n == 0
    ensures Ceil(a + x, n) == a + Ceil(x, n)
  {
    CeilBounds(x, n);
    ModAdd(a, Ceil(x, n), n);
    CeilUnique(a + x, n, a + Ceil(x, n));
  }

  lemma Multiple(q: int, m: int, n: int)
    requires n > 0 && m % n == 0
    ensures q * m % n == 0
  {
    assert m == n * (m / n);
    assert q * m == (q * (m / n)) * n + 0;
    DivModUnique(q * m, n, q * (m / n), 0);
  }

  lemma MultipleOf(y: int, m: int, n: int)
    requires m > 0 && n > 0 && y % m == 0 && m % n == 0
    ensures y % n == 0
  {
    assert y == m * (y / m);
    Multiple(y / m, m, n);
  }

  lemma Apart(a: int, b: int, n: int)
    requires n > 0 && a % n == 0 && b % n == 0 && a < b
    ensures a + n <= b
  {
    ModSub(b, a, n);
    assert b - a == n * ((b - a) / n);
    MulAtLeast((b - a) / n, n);
  }

  lemma CeilLeast(x: int, n: int, y: int)
    requires n > 0 && y % n == 0 && x <= y
    ensures Ceil(x, n) <= y
  {
    hide Ceil;
    CeilBounds(x, n);
    if y < Ceil(x, n) {
      Apart(y, Ceil(x, n), n);
    }
  }

  /** 1 << n. */
  function Pow2(n: nat): (p: nat)
    ensures p > 0 && (n > 0 ==> p > 1)
  {
    if n == 0 then 1 else 2 * Pow2(n - 1)
  }

  // 32-bit unsigned arithmetic.

  function Word(x: int): (w: int)
    ensures 0 <= w < WORD
  {
    x % WORD
  }

  lemma SmallWord(x: int)
    requires 0 <= x < WORD
    ensures Word(x) == x
  {
  }

  /** align(a, n) for a power of two n, on 32-bit words: the sum wraps around, and masking with
      the complement of n - 1 takes the remainder off. */
  function Align(a: int, n: int): (r: int)
    requires n > 0
  {
    var x := Word(Word(a) + n - 1);
    x - x % n
  }

  /** What the wrap-around makes of a number, negative or not: the rounded value, again as a word. */
  lemma AlignIsCeil(a: int, n: int)
    requires n > 0 && WORD % n == 0
    ensures Align(a, n) == Word(Ceil(a, n))
  {
    hide Word, Ceil;
    var x := Word(Word(a) + n - 1);
    var q := Wraps(a + n - 1, Word(a) + n - 1) by {
      WordDiffers(a, n - 1);
    }
    var low := RoundDown(x, n);
    var c := q * WORD + low;
    Multiple(q, WORD, n);
    ModAdd(q * WORD, low, n);
    CeilUnique(a, n, c);
    WordIs(c, q, low);
  }

  lemma WordDiffers(a: int, b: int)
    ensures (a + b - (Word(a) + b)) % WORD == 0
  {
  }

  lemma Wraps(a: int, b: int) returns (q: int)
    requires (a - b) % WORD == 0
    ensures a == q * WORD + Word(b)
  {
    q := (a - Word(b)) / WORD;
  }

  lemma RoundDown(x: int, n: int) returns (low: int)
    requires n > 0 && x >= 0
    ensures low == x - x % n && low % n == 0 && 0 <= low <= x < low + n
  {
    Quotient(x, n);
    low := x / n * n;
    Parts(x, n);
    if low < 0 {
      Apart(low, 0, n);
    }
  }

  lemma Parts(x: int, n: int)
    requires n > 0
    ensures x == x / n * n + x % n
  {
    var q, r := x / n, x % n;
    assert x == n * q + r;
  }

  lemma WordIs(c: int, q: int, low: int)
    requires c == q * WORD + low && 0 <= low < WORD
    ensures Word(c) == low
  {
  }
}
