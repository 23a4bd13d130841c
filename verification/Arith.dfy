/** Powers of two and bit streams.  A stream that is read least significant bit first is
    a natural number here: its next `n` bits are `Low(x, n)`, and `High(x, n)` is what is
    left after them. */
module Arith {

  function Pow2(n: nat): (r: nat)
    ensures r > 0
  {
    if n == 0 then 1 else 2 * Pow2(n - 1)
  }

  function Quotient(x: nat, m: nat): nat
    requires m > 0
  {
    x / m
  }

  function Min(a: int, b: int): int {
    if a <= b then a else b
  }

  function Max(a: int, b: int): int {
    if a <= b then b else a
  }

  lemma {:induction false} Pow2Add(a: nat, b: nat)
    ensures Pow2(a + b) == Pow2(a) * Pow2(b)
  {
    if a > 0 {
      Pow2Add(a - 1, b);
      assert Pow2(a - 1 + b) == Pow2(a - 1) * Pow2(b);
      assert Pow2(a + b) == 2 * Pow2(a - 1 + b);
      MulAssoc(2, Pow2(a - 1), Pow2(b));
    }
  }

  lemma {:induction false} Pow2Mono(a: nat, b: nat)
    requires a <= b
    ensures Pow2(a) <= Pow2(b)
  {
    if a < b {
      Pow2Mono(a, b - 1);
    }
  }

  lemma MulAssoc(a: int, b: int, c: int)
    ensures a * (b * c) == (a * b) * c
  {
  }

  lemma MulMono(a: nat, b: nat, c: nat)
    requires a <= b
    ensures a * c <= b * c
  {
  }

  lemma MulLess(a: nat, b: nat, c: nat)
    requires c > 0
    ensures a < b <==> a * c < b * c
  {
    if a < b {
      MulMono(a + 1, b, c);
    } else {
      MulMono(b, a, c);
    }
  }

  /** Quotient and remainder are the only pair with their defining property. */
  lemma DivModUnique(x: int, m: int, q: int, r: int)
    requires m > 0 && 0 <= r < m && x == q * m + r
    ensures x / m == q && x % m == r
  {
    var d := q - x / m;
    assert d * m == x % m - r;
    if d != 0 {
      MulFar(d, m);
    }
  }

  lemma MulFar(d: int, m: int)
    requires d != 0 && m > 0
    ensures d * m >= m || d * m <= -m
  {
    if d > 0 {
      MulMono(1, d, m);
    } else {
      MulMono(1, -d, m);
    }
  }

  /** Taking a quotient in two steps, and the remainder that goes with it. */
  lemma DivInSteps(x: nat, m: nat, n: nat)
    requires m > 0 && n > 0 && m * n > 0
    ensures x / m / n == x / (m * n)
    ensures x % (m * n) == x % m + m * (x / m % n)
  {
    var q, r := x / m, x % m;
    var q2, r2 := q / n, q % n;
    assert q * m == (q2 * n) * m + r2 * m;
    MulAssoc(q2, n, m);
    MulMono(r2 + 1, n, m);
    DivModUnique(x, m * n, q2, r + m * r2);
  }

  lemma DivDiv(x: nat, a: nat, b: nat)
    ensures x / Pow2(a) / Pow2(b) == x / Pow2(a + b)
    ensures x % Pow2(a + b) == x % Pow2(a) + Pow2(a) * (x / Pow2(a) % Pow2(b))
  {
    Pow2Add(a, b);
    DivInSteps(x, Pow2(a), Pow2(b));
  }

  /** Appending `y` above the low `n` bits. */
  lemma JoinLow(x: nat, y: nat, n: nat)
    requires x < Pow2(n)
    ensures (x + Pow2(n) * y) % Pow2(n) == x
    ensures (x + Pow2(n) * y) / Pow2(n) == y
  {
    DivModUnique(x + Pow2(n) * y, Pow2(n), y, x);
  }

  lemma DivMono(x: nat, y: nat, m: nat)
    requires m > 0 && x <= y
    ensures x / m <= y / m
  {
    if x / m > y / m {
      assert x == (x / m) * m + x % m;
      assert y == (y / m) * m + y % m;
      MulMono(y / m + 1, x / m, m);
    }
  }

  lemma DivBound(x: nat, m: nat, k: nat)
    requires m > 0
    ensures x / m < k <==> x < k * m
  {
    assert x == (x / m) * m + x % m;
    if x / m < k {
      MulMono(x / m + 1, k, m);
    } else {
      MulMono(k, x / m, m);
    }
  }

  /** The `n` bits of `v` in the opposite order. */
  function Rev(n: nat, v: nat): (r: nat)
    ensures r < Pow2(n)
  {
    if n == 0 then 0 else (if v % 2 == 1 then Pow2(n - 1) else 0) + Rev(n - 1, v / 2)
  }

  lemma RevUnfold(n: nat, v: nat)
    requires n > 0
    ensures Rev(n, v) == (v % 2) * Pow2(n - 1) + Rev(n - 1, v / 2)
  {
  }

  lemma RevWhole(n: nat, v: nat)
    ensures Rev(n, v) % Pow2(n) == Rev(n, Quotient(v, Pow2(0))) && Rev(n, v) / Pow2(n) == Rev(0, v)
  {
    DivModUnique(Rev(n, v), Pow2(n), 0, Rev(n, v));
    assert v / Pow2(0) == v;
  }

  /** The low `m` bits of a reversed word are the high `m` bits of the word, reversed. */
  lemma {:induction false} RevLow(m: nat, n: nat, v: nat)
    requires m <= n
    ensures Rev(n, v) % Pow2(m) == Rev(m, Quotient(v, Pow2(n - m)))
    ensures Rev(n, v) / Pow2(m) == Rev(n - m, v)
    decreases n - m
  {
    hide Rev, Pow2;
    if m == n {
      RevWhole(n, v);
    } else {
      RevUnfold(n, v);
      RevUnfold(n - m, v);
      RevLow(m, n - 1, v / 2);
      HalfDiv(v, n - 1 - m);
      Pow2Add(n - 1 - m, m);
      AddMultiple(Rev(n - 1, v / 2), Pow2(m), v % 2, Pow2(n - 1 - m));
    }
  }

  lemma HalfDiv(v: nat, k: nat)
    ensures v / 2 / Pow2(k) == v / Pow2(k + 1)
    ensures v % Pow2(k + 1) == v % 2 + 2 * (v / 2 % Pow2(k))
  {
    DivInSteps(v, 2, Pow2(k));
  }

  lemma AddMultiple(x: nat, m: nat, b: nat, k: nat)
    requires m > 0
    ensures (b * (k * m) + x) % m == x % m
    ensures (b * (k * m) + x) / m == b * k + x / m
  {
    MulAssoc(b, k, m);
    DivModUnique(b * (k * m) + x, m, b * k + x / m, x % m);
  }

  /** Reversing twice gives the word back; so words with equal reversals are equal. */
  lemma {:induction false} RevRev(n: nat, v: nat)
    requires v < Pow2(n)
    ensures Rev(n, Rev(n, v)) == v
  {
    if n > 0 {
      TopBit(n, v);
      RevOfLow(n - 1, v);
      RevRev(n - 1, v % Pow2(n - 1));
      HighBit(v, Pow2(n - 1));
    }
  }

  /** The low bit of a reversal is the high bit of the word. */
  lemma {:induction false} TopBit(n: nat, v: nat)
    requires 0 < n && v < Pow2(n)
    ensures Rev(n, v) % 2 == v / Pow2(n - 1)
    ensures Rev(n, v) / 2 == Rev(n - 1, v)
  {
    if n == 1 {
      assert Rev(0, v / 2) == 0 && Pow2(0) == 1;
    } else {
      TopBit(n - 1, v / 2);
      HalfDiv(v, n - 2);
      TopStep(Rev(n - 1, v / 2), Pow2(n - 2), v % 2 == 1);
    }
  }

  lemma HighBit(v: nat, p: nat)
    requires p > 0 && v < 2 * p
    ensures v == (if v / p == 1 then p else 0) + v % p
    ensures v / p == 0 || v / p == 1
  {
    DivBound(v, p, 2);
  }

  lemma TopStep(r: nat, p: nat, b: bool)
    ensures ((if b then 2 * p else 0) + r) % 2 == r % 2
    ensures ((if b then 2 * p else 0) + r) / 2 == (if b then p else 0) + r / 2
  {
  }

  /** Only the low `n` bits matter to an `n`-bit reversal. */
  lemma {:induction false} RevOfLow(n: nat, v: nat)
    ensures Rev(n, v) == Rev(n, v % Pow2(n))
  {
    if n > 0 {
      DivDiv(v, 1, n - 1);
      assert Pow2(1) == 2;
      var w := v % Pow2(n);
      JoinLow(v % 2, v / 2 % Pow2(n - 1), 1);
      assert w % 2 == v % 2 && w / 2 == v / 2 % Pow2(n - 1);
      RevOfLow(n - 1, v / 2);
    }
  }

  lemma RevInjective(n: nat, v: nat, w: nat)
    requires v < Pow2(n) && w < Pow2(n)
    ensures Rev(n, v) == Rev(n, w) <==> v == w
  {
    RevRev(n, v);
    RevRev(n, w);
  }

  /** Zeros appended below a word disappear above its reversal. */
  lemma {:induction false} RevShift(n: nat, k: nat, v: nat)
    ensures Rev(n + k, v * Pow2(k)) == Rev(n, v)
  {
    if k > 0 {
      assert v * Pow2(k) == 2 * (v * Pow2(k - 1)) by { MulAssoc(2, v, Pow2(k - 1)); }
      var w := v * Pow2(k - 1);
      assert (2 * w) % 2 == 0 && (2 * w) / 2 == w;
      RevShift(n, k - 1, v);
    }
  }

  /** Adding one at the most significant end, carrying downwards. */
  function BackInc(n: nat, h: nat): nat
    requires h < Pow2(n)
  {
    if n == 0 then 0
    else if h < Pow2(n - 1) then h + Pow2(n - 1)
    else BackInc(n - 1, h - Pow2(n - 1))
  }

  /** Counting backwards is counting forwards on the reversed word, wrapping to zero. */
  lemma {:induction false} BackIncIsRev(n: nat, c: nat)
    requires c < Pow2(n)
    ensures BackInc(n, Rev(n, c)) == if c + 1 < Pow2(n) then Rev(n, c + 1) else 0
  {
    hide *;
    if n == 0 {
      BackIncNone(Rev(n, c));
    } else {
      var half := c / 2;
      TwicePow2(n);
      BackIncStep(n, Rev(n, c));
      RevBits(n, half);
      if c % 2 == 1 {
        RevBits(n, half + 1);
        BackIncIsRev(n - 1, half);
      }
    }
  }

  lemma BackIncNone(h: nat)
    requires h < Pow2(0)
    ensures BackInc(0, h) == 0 && Pow2(0) == 1
  {
  }

  lemma BackIncStep(n: nat, h: nat)
    requires n > 0 && h < Pow2(n)
    ensures h < Pow2(n - 1) ==> BackInc(n, h) == h + Pow2(n - 1)
    ensures h >= Pow2(n - 1) ==> h - Pow2(n - 1) < Pow2(n - 1) && BackInc(n, h) == BackInc(n - 1, h - Pow2(n - 1))
  {
  }

  lemma RevBits(n: nat, m: nat)
    requires n > 0
    ensures Rev(n, 2 * m) == Rev(n - 1, m) && Rev(n, 2 * m + 1) == Pow2(n - 1) + Rev(n - 1, m)
  {
    assert 2 * m % 2 == 0 && 2 * m / 2 == m && (2 * m + 1) % 2 == 1 && (2 * m + 1) / 2 == m;
  }

  lemma TwicePow2(n: nat)
    requires n > 0
    ensures Pow2(n) == 2 * Pow2(n - 1)
  {
  }

  // ----- Streams -----------------------------------------------------------------------

  function Low(x: nat, n: nat): (r: nat)
    ensures r < Pow2(n)
  {
    if n == 0 then 0 else x % 2 + 2 * Low(x / 2, n - 1)
  }

  function High(x: nat, n: nat): nat {
    if n == 0 then x else High(x / 2, n - 1)
  }

  /** They are remainder and quotient: a mask and a shift. */
  lemma {:induction false} LowHigh(x: nat, n: nat)
    ensures Low(x, n) == x % Pow2(n)
    ensures High(x, n) == x / Pow2(n)
  {
    if n > 0 {
      LowHigh(x / 2, n - 1);
      HalfDiv(x, n - 1);
    }
  }

  lemma EvenOdd(b: nat, y: nat)
    requires b < 2
    ensures (b + 2 * y) % 2 == b && (b + 2 * y) / 2 == y
  {
  }

  lemma {:induction false} LowLow(x: nat, a: nat, b: nat)
    requires a <= b
    ensures Low(Low(x, b), a) == Low(x, a)
    ensures High(Low(x, b), a) == Low(High(x, a), b - a)
  {
    hide *;
    if a == 0 {
      NoBits(x);
      NoBits(Low(x, b));
    } else {
      var y := Low(x, b);
      BitFirst(x, a);
      BitFirst(x, b);
      BitFirst(y, a);
      EvenOdd(x % 2, Low(x / 2, b - 1));
      LowLow(x / 2, a - 1, b - 1);
    }
  }

  lemma NoBits(x: nat)
    ensures Low(x, 0) == 0 && High(x, 0) == x
  {
  }

  lemma BitFirst(x: nat, n: nat)
    requires n > 0
    ensures Low(x, n) == x % 2 + 2 * Low(x / 2, n - 1) && High(x, n) == High(x / 2, n - 1)
  {
  }

  lemma {:induction false} HighHigh(x: nat, a: nat, b: nat)
    ensures High(High(x, a), b) == High(x, a + b)
  {
    if a > 0 {
      HighHigh(x / 2, a - 1, b);
    }
  }

  lemma Split(x: nat, n: nat)
    ensures x == Join(Low(x, n), High(x, n), n)
  {
    hide Low, High, Pow2;
    LowHigh(x, n);
  }

  /** The stream with `n` bits `lo` first and then `hi`. */
  function Join(lo: nat, hi: nat, n: nat): nat {
    lo + Pow2(n) * hi
  }

  lemma Joined(lo: nat, hi: nat, n: nat)
    requires lo < Pow2(n)
    ensures Low(Join(lo, hi, n), n) == lo
    ensures High(Join(lo, hi, n), n) == hi
  {
    hide Low, High, Pow2;
    LowHigh(Join(lo, hi, n), n);
    JoinLow(lo, hi, n);
  }

  lemma {:induction false} LowSmall(x: nat, n: nat)
    ensures x < Pow2(n) <==> Low(x, n) == x
    ensures x < Pow2(n) <==> High(x, n) == 0
  {
    if n > 0 {
      LowSmall(x / 2, n - 1);
    }
  }

  /** Reading `l` bits can be done in two steps. */
  lemma {:induction false} TwoSteps(x: nat, h: nat, r: nat, l: nat)
    requires r <= l && h < Pow2(l)
    ensures Low(x, l) == h <==> (Low(x, r) == Low(h, r) && Low(High(x, r), l - r) == High(h, r))
  {
    if r > 0 {
      TwoSteps(x / 2, h / 2, r - 1, l - 1);
    }
  }

  /** The first `m` bits of a reversed word are its high `m` bits, reversed. */
  lemma RevSplit(m: nat, n: nat, v: nat)
    requires m <= n
    ensures Low(Rev(n, v), m) == Rev(m, Quotient(v, Pow2(n - m)))
    ensures High(Rev(n, v), m) == Rev(n - m, v)
  {
    RevLow(m, n, v);
    LowHighIs(Rev(n, v), m, Rev(m, Quotient(v, Pow2(n - m))), Rev(n - m, v));
  }

  lemma LowHighIs(x: nat, n: nat, lo: nat, hi: nat)
    requires x % Pow2(n) == lo && x / Pow2(n) == hi
    ensures Low(x, n) == lo && High(x, n) == hi
  {
    LowHigh(x, n);
  }
}
