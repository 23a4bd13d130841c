/** The rolling hash of deflate: a key for every three bytes, updated a byte at a time. */
module HashKey {
  import opened Arith
  import opened BitReader

  /** The lowest `n` bits of the exclusive or. */
  function Xor(n: nat, a: nat, b: nat): (r: nat)
    ensures r < Pow2(n)
  {
    if n == 0 then 0 else (a % 2 + b % 2) % 2 + 2 * Xor(n - 1, a / 2, b / 2)
  }

  lemma XorParts(n: nat, a: nat, b: nat)
    requires n > 0
    ensures Xor(n, a, b) == (a % 2 + b % 2) % 2 + 2 * Xor(n - 1, a / 2, b / 2)
    ensures Xor(n, a, b) % 2 == (a % 2 + b % 2) % 2 && Xor(n, a, b) / 2 == Xor(n - 1, a / 2, b / 2)
  {
    EvenOdd((a % 2 + b % 2) % 2, Xor(n - 1, a / 2, b / 2));
  }

  lemma {:induction false} LowXor(n: nat, a: nat, b: nat, k: nat)
    requires k <= n
    ensures Low(Xor(n, a, b), k) == Xor(k, a, b)
  {
    if k > 0 {
      hide Low, Xor;
      LowXor(n - 1, a / 2, b / 2, k - 1);
      XorParts(n, a, b);
      XorParts(k, a, b);
      BitFirst(Xor(n, a, b), k);
    }
  }

  /** Only the lowest `n` bits matter. */
  lemma {:induction false} XorOfLow(n: nat, a: nat, a': nat, b: nat)
    requires Low(a, n) == Low(a', n)
    ensures Xor(n, a, b) == Xor(n, a', b)
  {
    hide Low;
    if n > 0 {
      LowParts(a, a', n);
      XorOfLow(n - 1, a / 2, a' / 2, b / 2);
    }
  }

  lemma LowParts(a: nat, b: nat, n: nat)
    requires n > 0 && Low(a, n) == Low(b, n)
    ensures a % 2 == b % 2 && Low(a / 2, n - 1) == Low(b / 2, n - 1)
  {
    EvenOdd(a % 2, Low(a / 2, n - 1));
    EvenOdd(b % 2, Low(b / 2, n - 1));
  }

  lemma {:induction false} XorInjective(n: nat, a: nat, b: nat, c: nat)
    requires Xor(n, a, b) == Xor(n, a, c)
    ensures Low(b, n) == Low(c, n)
  {
    hide Low, Xor;
    if n == 0 {
      NoBits(b);
      NoBits(c);
    } else {
      XorParts(n, a, b);
      XorParts(n, a, c);
      XorInjective(n - 1, a / 2, b / 2, c / 2);
      SameBit(a % 2, b % 2, c % 2);
      BitFirst(b, n);
      BitFirst(c, n);
    }
  }

  lemma SameBit(x: nat, y: nat, z: nat)
    requires x < 2 && y < 2 && z < 2 && (x + y) % 2 == (x + z) % 2
    ensures y == z
  {
  }

  /** `x << s` */
  function Shifted(x: nat, s: nat): nat {
    x * Pow2(s)
  }

  /** The low bits of a shifted number. */
  lemma LowShift(x: nat, y: nat, s: nat, n: nat)
    requires Low(x, n) == Low(y, n)
    ensures Low(Shifted(x, s), n + s) == Low(Shifted(y, s), n + s)
  {
    hide *;
    ShiftedLow(x, s, n);
    ShiftedLow(y, s, n);
  }

  lemma ShiftedLow(x: nat, s: nat, n: nat)
    ensures Low(Shifted(x, s), n + s) == Shifted(Low(x, n), s)
  {
    hide Pow2, Low;
    LowHigh(x, n);
    LowHigh(Shifted(x, s), n + s);
    ShiftedModulo(x, s, n);
  }

  lemma ShiftedModulo(x: nat, s: nat, n: nat)
    ensures x * Pow2(s) % Pow2(n + s) == x % Pow2(n) * Pow2(s)
  {
    hide Pow2;
    Pow2Add(n, s);
    DivInSteps(x * Pow2(s), Pow2(s), Pow2(n));
    DivModUnique(x * Pow2(s), Pow2(s), x, 0);
    assert Pow2(s) * (x % Pow2(n)) == x % Pow2(n) * Pow2(s);
    assert Pow2(s) * Pow2(n) == Pow2(n + s);
  }

  /** UPDATE_HASH, for a table of `Pow2(bits)` chains; the shift makes three updates push
      the oldest byte out. */
  function Shift(bits: nat): nat {
    (bits + 2) / 3
  }

  /** It is the least shift that does. */
  lemma ShiftIsLeast(bits: nat)
    requires bits > 0
    ensures 3 * Shift(bits) >= bits > 3 * (Shift(bits) - 1)
  {
  }

  function Update(bits: nat, h: nat, c: Byte): (r: nat)
    ensures r < Pow2(bits)
  {
    Xor(bits, Shifted(h, Shift(bits)), c)
  }

  /** The key of three bytes. */
  function Key3(bits: nat, b0: Byte, b1: Byte, b2: Byte): (r: nat)
    ensures r < Pow2(bits)
  {
    Update(bits, Update(bits, Update(bits, 0, b0), b1), b2)
  }

  /** Keys that agree in their low `m` bits agree in `Shift(bits)` more after an update. */
  lemma UpdateAgrees(bits: nat, h: nat, g: nat, c: Byte, m: nat, k: nat)
    requires Low(h, m) == Low(g, m) && k <= m + Shift(bits) && k <= bits
    ensures Low(Update(bits, h, c), k) == Low(Update(bits, g, c), k)
  {
    hide *;
    UpdateIs(bits, h, c);
    UpdateIs(bits, g, c);
    XorAgrees(bits, Shift(bits), h, g, c, m, k);
  }

  lemma XorAgrees(n: nat, s: nat, h: nat, g: nat, c: nat, m: nat, k: nat)
    requires Low(h, m) == Low(g, m) && k <= m + s && k <= n
    ensures Low(Xor(n, Shifted(h, s), c), k) == Low(Xor(n, Shifted(g, s), c), k)
  {
    hide *;
    var x, y := Shifted(h, s), Shifted(g, s);
    LowShift(h, g, s, m);
    LowXor(n, x, c, k);
    LowXor(n, y, c, k);
    LowLow(x, k, m + s);
    LowLow(y, k, m + s);
    XorOfLow(k, x, y, c);
  }

  lemma UpdateIs(bits: nat, h: nat, c: Byte)
    ensures Update(bits, h, c) == Xor(bits, Shifted(h, Shift(bits)), c)
  {
  }

  /** Three updates make the key forget what it was before. */
  lemma Forgets(bits: nat, h: nat, g: nat, b0: Byte, b1: Byte, b2: Byte)
    ensures Update(bits, Update(bits, Update(bits, h, b0), b1), b2)
         == Update(bits, Update(bits, Update(bits, g, b0), b1), b2)
  {
    var s := Shift(bits);
    assert Low(h, 0) == Low(g, 0);
    var m1, m2 := Min(s, bits), Min(2 * s, bits);
    hide Low, Xor, Pow2, Update;
    UpdateAgrees(bits, h, g, b0, 0, m1);
    var h1, g1 := Update(bits, h, b0), Update(bits, g, b0);
    UpdateAgrees(bits, h1, g1, b1, m1, m2);
    var h2, g2 := Update(bits, h1, b1), Update(bits, g1, b1);
    UpdateAgrees(bits, h2, g2, b2, m2, bits);
    LowSmall(Update(bits, h2, b2), bits);
    LowSmall(Update(bits, g2, b2), bits);
  }

  /** With at least 8 bits, the key tells the last byte. */
  lemma LastByte(bits: nat, h: nat, c: Byte, d: Byte)
    requires bits >= 8 && Update(bits, h, c) == Update(bits, h, d)
    ensures c == d
  {
    hide Low, Xor, Pow2;
    var x := Shifted(h, Shift(bits));
    XorInjective(bits, x, c, d);
    PowEight();
    Pow2Mono(8, bits);
    LowSmall(c, bits);
    LowSmall(d, bits);
  }

  /** The third byte need not be compared: strings with the same key and the same first two
      bytes have the same third. */
  lemma ThirdByte(bits: nat, b0: Byte, b1: Byte, c: Byte, d: Byte)
    requires bits >= 8 && Key3(bits, b0, b1, c) == Key3(bits, b0, b1, d)
    ensures c == d
  {
    hide Update;
    LastByte(bits, Update(bits, Update(bits, 0, b0), b1), c, d);
  }

  /** The running key `h` is ready for the third byte of a string that starts with `b0, b1`. */
  ghost predicate Rolls(bits: nat, h: nat, b0: Byte, b1: Byte) {
    forall c: Byte :: Update(bits, h, c) == Key3(bits, b0, b1, c)
  }

  /** After that byte it is ready for the next string. */
  lemma RollOn(bits: nat, h: nat, b0: Byte, b1: Byte, b2: Byte)
    requires Rolls(bits, h, b0, b1)
    ensures Update(bits, h, b2) == Key3(bits, b0, b1, b2)
    ensures Rolls(bits, Update(bits, h, b2), b1, b2)
  {
    hide Update;
    forall c: Byte
      ensures Update(bits, Update(bits, h, b2), c) == Key3(bits, b1, b2, c)
    {
      Forgets(bits, Update(bits, 0, b0), 0, b1, b2, c);
    }
  }

  /** Starting the running key on a string. */
  lemma RollStart(bits: nat, b0: Byte, b1: Byte)
    requires bits >= 8
    ensures Rolls(bits, Update(bits, b0, b1), b0, b1)
  {
    FirstByte(bits, b0);
    hide Update;
  }

  lemma FirstByte(bits: nat, b0: Byte)
    requires bits >= 8
    ensures Update(bits, 0, b0) == b0
  {
    PowEight();
    Pow2Mono(8, bits);
    LowSmall(b0, bits);
    assert Shifted(0, Shift(bits)) == 0;
    XorZero(bits, b0);
  }

  lemma {:induction false} XorZero(n: nat, b: nat)
    ensures Xor(n, 0, b) == Low(b, n)
  {
    if n > 0 {
      XorZero(n - 1, b / 2);
    }
  }
}
