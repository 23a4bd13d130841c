/** The Adler-32 checksum of section 2.2 of RFC 1950: with the modulo operation deferred,
    without division, and combined from the checksums of two parts. */
module Adler32 {
  import opened BitReader

  const BASE: nat := 65521
  const NMAX: nat := 5552
  const TWO_TO_THE_32: nat := 0x1_0000_0000

  // ----- The definition -------------------------------------------------------------------------

  /** The two sums, without any modulo. */
  datatype Sums = Sums(a: nat, b: nat)

  function Add(s: Sums, c: Byte): Sums {
    Sums(s.a + c, s.b + s.a + c)
  }

  function AddAll(s: Sums, data: seq<Byte>): Sums {
    if data == [] then s else Add(AddAll(s, data[..|data| - 1]), data[|data| - 1])
  }

  function Split(adler: nat): Sums {
    Sums(adler % 0x1_0000, adler / 0x1_0000)
  }

  /** Both sums modulo the largest prime below 65536, in one word. */
  function Pack(s: Sums): nat {
    s.a % BASE + 0x1_0000 * (s.b % BASE)
  }

  /** The checksum of a message whose beginning has the checksum `adler`. */
  function Adler(adler: nat, data: seq<Byte>): nat {
    Pack(AddAll(Split(adler), data))
  }

  /** Both halves are less than the modulus, as in every checksum. */
  predicate Reduced(adler: nat) {
    adler < TWO_TO_THE_32 && Split(adler).a < BASE && Split(adler).b < BASE
  }

  lemma AdlerIsReduced(adler: nat, data: seq<Byte>)
    ensures Reduced(Adler(adler, data))
  {
    hide AddAll;
    PackSplit(AddAll(Split(adler), data));
  }

  lemma PackSplit(s: Sums)
    ensures Split(Pack(s)) == Sums(s.a % BASE, s.b % BASE) && Pack(s) < TWO_TO_THE_32
  {
  }

  /** The checksum of "abc", and of nothing. */
  lemma KnownSums()
    ensures Adler(1, [0x61, 0x62, 0x63]) == 0x024d0127 && Adler(1, []) == 1
  {
    AddOne(Sums(1, 0), [], 0x61);
    AddOne(Sums(1, 0), [0x61], 0x62);
    AddOne(Sums(1, 0), [0x61, 0x62], 0x63);
    assert [0x61] + [0x62] == [0x61, 0x62] && [0x61, 0x62] + [0x63] == [0x61, 0x62, 0x63] && [] + [0x61] == [0x61];
  }

  // ----- Deferring the modulo -----------------------------------------------------------------------

  lemma {:induction false} AddAllAppend(s: Sums, t: seq<Byte>, u: seq<Byte>)
    ensures AddAll(s, t + u) == AddAll(AddAll(s, t), u)
  {
    if u == [] {
      assert t + u == t;
    } else {
      AddAllAppend(s, t, u[..|u| - 1]);
      assert (t + u)[..|t + u| - 1] == t + u[..|u| - 1];
    }
  }

  lemma AddOne(s: Sums, t: seq<Byte>, c: Byte)
    ensures AddAll(s, t + [c]) == Add(AddAll(s, t), c) && AddAll(s, []) == s
  {
    assert (t + [c])[..|t + [c]| - 1] == t;
  }

  /** The same sums modulo the base. */
  predicate Congruent(s: Sums, t: Sums) {
    s.a % BASE == t.a % BASE && s.b % BASE == t.b % BASE
  }

  lemma AddMod(x: nat, y: nat, z: nat)
    requires x % BASE == y % BASE
    ensures (x + z) % BASE == (y + z) % BASE
  {
  }

  lemma AddCongruent(x: Sums, y: Sums, c: Byte)
    requires Congruent(x, y)
    ensures Congruent(Add(x, c), Add(y, c))
  {
    AddMod(x.a, y.a, c);
    AddMod(x.b, y.b, x.a + c);
    AddMod(x.a + c, y.a + c, y.b);
  }

  lemma {:induction false} AddAllCongruent(s: Sums, t: Sums, data: seq<Byte>)
    requires Congruent(s, t)
    ensures Congruent(AddAll(s, data), AddAll(t, data))
  {
    hide *;
    if data == [] {
      AddOne(s, data, 0);
      AddOne(t, data, 0);
    } else {
      var d, c := data[..|data| - 1], data[|data| - 1];
      assert data == d + [c];
      AddAllCongruent(s, t, d);
      AddOne(s, d, c);
      AddOne(t, d, c);
      AddCongruent(AddAll(s, d), AddAll(t, d), c);
    }
  }

  /** How large the sums of `n` bytes can get. */
  lemma {:induction false} AddAllBound(s: Sums, data: seq<Byte>)
    ensures AddAll(s, data).a <= s.a + 255 * |data|
    ensures AddAll(s, data).b <= s.b + |data| * s.a + 255 * Triangle(|data|)
    ensures s.a <= AddAll(s, data).a && s.b <= AddAll(s, data).b
  {
    if data != [] {
      var n := |data| - 1;
      AddAllBound(s, data[..n]);
      assert (n + 1) * s.a == n * s.a + s.a;
      assert Triangle(n + 1) == Triangle(n) + (n + 1);
    }
  }

  function Triangle(n: nat): nat {
    if n == 0 then 0 else Triangle(n - 1) + n
  }

  lemma {:induction false} TriangleIs(n: nat)
    ensures 2 * Triangle(n) == n * (n + 1)
  {
    if n > 0 {
      TriangleIs(n - 1);
    }
  }

  /** NMAX bytes on top of sums below 65536 stay below 2^32. */
  lemma BlockFits(s: Sums, data: seq<Byte>)
    requires s.a < 0x1_0000 && s.b < 0x1_0000 && |data| <= NMAX
    ensures AddAll(s, data).a < TWO_TO_THE_32 && AddAll(s, data).b < TWO_TO_THE_32
  {
    hide AddAll, Triangle;
    AddAllBound(s, data);
    TriangleIs(|data|);
    MulBound(|data|, s.a, NMAX, 0xffff);
    MulBound(|data|, |data| + 1, NMAX, NMAX + 1);
  }

  lemma MulBound(a: nat, b: nat, c: nat, d: nat)
    requires a <= c && b <= d
    ensures a * b <= c * d
  {
    assert a * b <= a * d;
    assert a * d <= c * d;
  }

  // ----- Without division --------------------------------------------------------------------------------

  /** CHOP: 65536 is 15 more than the base. */
  function Chop(a: nat): nat {
    a % 0x1_0000 + (a / 0x1_0000 * 16 - a / 0x1_0000)
  }

  lemma ChopFacts(a: nat)
    ensures Chop(a) % BASE == a % BASE
    ensures Chop(a) <= 0xffff + 15 * (a / 0x1_0000)
  {
    var q, r := a / 0x1_0000, a % 0x1_0000;
    assert a == BASE * q + Chop(a);
  }

  /** MOD28 */
  method Mod28(a: nat) returns (r: nat)
    requires a < 0x1000_0000
    ensures r == a % BASE
  {
    ChopFacts(a);
    r := Chop(a);
    if r >= BASE {
      r := r - BASE;
    }
  }

  /** MOD */
  method Mod(a: nat) returns (r: nat)
    requires a < TWO_TO_THE_32
    ensures r == a % BASE
  {
    ChopFacts(a);
    r := Chop(a);
    r := Mod28(r);
  }

  /** MOD63: 2^32 is 225 more than a multiple of the base. */
  method Mod63(a: nat) returns (r: nat)
    requires a < 0x8000_0000_0000_0000
    ensures r == a % BASE
  {
    hide Chop;
    var tmp := a / TWO_TO_THE_32;
    HighWord(a);
    r := a % TWO_TO_THE_32 + (tmp * 256 - tmp * 32 + tmp);
    TwoChops(r);
    r := Chop(r);
    r := Chop(r);
    OneLess(r);
    if r >= BASE {
      r := r - BASE;
    }
  }

  lemma TwoChops(a: nat)
    requires a < 0x100_0000_0000
    ensures Chop(Chop(a)) % BASE == a % BASE && Chop(Chop(a)) < 2 * BASE
  {
    hide Chop;
    ChopFacts(a);
    ChopFacts(Chop(a));
  }

  lemma OneLess(r: nat)
    ensures r < BASE ==> r % BASE == r
    ensures BASE <= r < 2 * BASE ==> r % BASE == r - BASE
  {
  }

  lemma HighWord(a: nat)
    ensures (a % TWO_TO_THE_32 + 225 * (a / TWO_TO_THE_32)) % BASE == a % BASE
    ensures a < 0x8000_0000_0000_0000 ==> a % TWO_TO_THE_32 + 225 * (a / TWO_TO_THE_32) < 0x100_0000_0000
  {
    var q, r := a / TWO_TO_THE_32, a % TWO_TO_THE_32;
    assert a == q * TWO_TO_THE_32 + r;
    Fold(q, r);
    assert a < 0x8000_0000_0000_0000 ==> q < 0x8000_0000;
  }

  lemma Fold(q: nat, r: nat)
    ensures (r + 225 * q) % BASE == (q * TWO_TO_THE_32 + r) % BASE
  {
    assert q * TWO_TO_THE_32 + r == (r + 225 * q) + BASE * (65551 * q);
    PlusMultiple(r + 225 * q, 65551 * q);
  }

  lemma PlusMultiple(x: nat, k: nat)
    ensures (x + BASE * k) % BASE == x % BASE
  {
  }

  // ----- adler32_z -------------------------------------------------------------------------------------------

  /** `n` bytes from `p` on, with no modulo. */
  method AddBytes(s0: Sums, buf: seq<Byte>, p: nat, n: nat) returns (s: Sums)
    requires p + n <= |buf| && n <= NMAX && s0.a < 0x1_0000 && s0.b < 0x1_0000
    ensures s == AddAll(s0, buf[p..p + n]) && s.a < TWO_TO_THE_32 && s.b < TWO_TO_THE_32
  {
    hide AddAll;
    BlockFits(s0, buf[p..p + n]);
    s := s0;
    AddOne(s0, [], 0);
    assert buf[p..p] == [];
    var k := 0;
    while k < n
      invariant k <= n && s == AddAll(s0, buf[p..p + k])
    {
      AddOne(s0, buf[p..p + k], buf[p + k]);
      assert buf[p..p + (k + 1)] == buf[p..p + k] + [buf[p + k]];
      BlockFits(s0, buf[p..p + (k + 1)]);
      var a := s.a + buf[p + k];
      assert a < TWO_TO_THE_32 && s.b + a < TWO_TO_THE_32;
      s := Sums(a, s.b + a);
      k := k + 1;
    }
  }

  /** A block whose sums are reduced afterwards. */
  lemma Deferred(s0: Sums, buf: seq<Byte>, p: nat, n: nat, s: Sums, t: Sums)
    requires p + n <= |buf| && Congruent(s, AddAll(s0, buf[..p]))
    requires t.a == AddAll(s, buf[p..p + n]).a % BASE && t.b == AddAll(s, buf[p..p + n]).b % BASE
    ensures Congruent(t, AddAll(s0, buf[..p + n])) && t.a < BASE && t.b < BASE
  {
    hide AddAll;
    AddAllCongruent(s, AddAll(s0, buf[..p]), buf[p..p + n]);
    AddAllAppend(s0, buf[..p], buf[p..p + n]);
    assert buf[..p] + buf[p..p + n] == buf[..p + n];
  }

  /** The sums packed into one word. */
  lemma Packed(s: Sums, t: Sums)
    requires Congruent(s, t) && s.a < BASE && s.b < BASE
    ensures s.a + 0x1_0000 * s.b == Pack(t)
  {
  }

  lemma AdlerIs(adler: nat, buf: seq<Byte>)
    ensures Adler(adler, buf) == Pack(AddAll(Split(adler), buf))
  {
  }

  /** Whether the single subtractions for one byte reduce the sums fully. */
  predicate OneByteReduces(adler: nat, c: Byte) {
    Split(adler).b + (Split(adler).a + c) % BASE < 2 * BASE
  }

  lemma ReducedOneByte(adler: nat, c: Byte)
    requires Reduced(adler)
    ensures OneByteReduces(adler, c)
  {
  }

  /** ... as they do not for a start that is no checksum. */
  lemma UnreducedOneByte()
    ensures !OneByteReduces(0xffff_ffee, 0)
  {
  }

  /** A single byte. */
  method OneByte(adler: nat, c: Byte) returns (r: nat)
    requires adler < TWO_TO_THE_32
    ensures r == Adler(adler, [c]) <==> OneByteReduces(adler, c)
  {
    hide AddAll, Pack;
    var s := Split(adler);
    var a := s.a + c;
    if a >= BASE {
      a := a - BASE;
    }
    var b := s.b + a;
    if b >= BASE {
      b := b - BASE;
    }
    r := a + 0x1_0000 * b;
    OneByteIs(s, c);
    PackUnique(Sums(a, b), Sums(s.a + c, s.b + s.a + c));
  }

  lemma OneByteIs(s: Sums, c: Byte)
    ensures AddAll(s, [c]) == Sums(s.a + c, s.b + s.a + c)
  {
    AddOne(s, [], c);
    assert [] + [c] == [c];
  }

  lemma PackUnique(s: Sums, t: Sums)
    requires s.a < 0x1_0000 && s.b < 0x1_0000 && s.a == t.a % BASE && s.b % BASE == t.b % BASE
    ensures s.a + 0x1_0000 * s.b == Pack(t) <==> s.b < BASE
  {
  }

  /** Fewer than 16 bytes: one subtraction and one modulo. */
  method FewBytes(adler: nat, buf: seq<Byte>) returns (r: nat)
    requires adler < TWO_TO_THE_32 && |buf| < 16
    ensures r == Adler(adler, buf)
  {
    hide AddAll, Pack;
    var s0 := Split(adler);
    var s := AddBytes(s0, buf, 0, |buf|);
    assert buf[0..0 + |buf|] == buf;
    AddAllBound(s0, buf);
    FewBound(|buf|, s0.a);
    var a := s.a;
    if a >= BASE {
      a := a - BASE;
    }
    var b := Mod28(s.b);
    r := a + 0x1_0000 * b;
    Packed(Sums(a, b), s);
  }

  lemma FewBound(n: nat, a: nat)
    requires n < 16 && a < 0x1_0000
    ensures n * a <= 15 * 0xffff && Triangle(n) <= 120
  {
    MulBound(n, a, 15, 0xffff);
    TriangleIs(n);
    MulBound(n, n + 1, 15, 16);
  }

  /** adler32_z.  `isNull` says that there is no buffer: that is how the starting value is
      asked for. */
  method Adler32Z(adler: nat, buf: seq<Byte>, isNull: bool) returns (r: nat)
    requires adler < TWO_TO_THE_32 && (isNull ==> |buf| == 0)
    ensures isNull ==> r == 1
    ensures !isNull && |buf| != 1 ==> r == Adler(adler, buf)
    ensures |buf| == 1 ==> (r == Adler(adler, buf) <==> OneByteReduces(adler, buf[0]))
    ensures !isNull && Reduced(adler) ==> r == Adler(adler, buf)
  {
    hide AddAll, Pack, OneByteReduces, Reduced, Adler;
    if |buf| == 1 {
      assert buf == [buf[0]];
      r := OneByte(adler, buf[0]);
      if Reduced(adler) {
        ReducedOneByte(adler, buf[0]);
      }
      return;
    }
    if isNull {
      return 1;
    }
    if |buf| < 16 {
      r := FewBytes(adler, buf);
      return;
    }
    r := ManyBytes(adler, buf);
  }

  /** 16 bytes or more: blocks of NMAX, each followed by one modulo. */
  method ManyBytes(adler: nat, buf: seq<Byte>) returns (r: nat)
    requires adler < TWO_TO_THE_32 && |buf| >= 16
    ensures r == Adler(adler, buf)
  {
    hide AddAll, Pack, Adler, Congruent;
    var s := Split(adler);
    ghost var s0 := s;
    var p := 0;
    AddOne(s0, [], 0);
    assert buf[..0] == [];
    SameSums(s);
    while |buf| - p >= NMAX
      invariant p <= |buf| && s.a < 0x1_0000 && s.b < 0x1_0000 && Congruent(s, AddAll(s0, buf[..p]))
      invariant p > 0 ==> s.a < BASE && s.b < BASE
      decreases |buf| - p
    {
      s := Block(s0, buf, p, NMAX, s);
      p := p + NMAX;
    }
    if p < |buf| {
      s := Block(s0, buf, p, |buf| - p, s);
      p := |buf|;
    }
    assert buf[..p] == buf;
    r := s.a + 0x1_0000 * s.b;
    Packed(s, AddAll(s0, buf));
    AdlerIs(adler, buf);
  }

  lemma SameSums(s: Sums)
    ensures Congruent(s, s)
  {
  }

  method Block(ghost s0: Sums, buf: seq<Byte>, p: nat, n: nat, s: Sums) returns (t: Sums)
    requires p + n <= |buf| && n <= NMAX && s.a < 0x1_0000 && s.b < 0x1_0000
    requires Congruent(s, AddAll(s0, buf[..p]))
    ensures t.a < BASE && t.b < BASE && Congruent(t, AddAll(s0, buf[..p + n]))
  {
    hide AddAll, Congruent;
    t := AddBytes(s, buf, p, n);
    var a := Mod(t.a);
    var b := Mod(t.b);
    t := Sums(a, b);
    Deferred(s0, buf, p, n, s, t);
  }

  // ----- adler32_combine_ --------------------------------------------------------------------------------------

  /** What a message does to any sums, from what it does to the sums 1 and 0. */
  lemma {:induction false} AddAllFrom(s: Sums, t: seq<Byte>)
    ensures var x := AddAll(Sums(1, 0), t);
            && AddAll(s, t).a + 1 == s.a + x.a
            && AddAll(s, t).b + |t| == s.b + x.b + |t| * s.a
  {
    if t != [] {
      AddAllFrom(s, t[..|t| - 1]);
      assert (|t| - 1 + 1) * s.a == (|t| - 1) * s.a + s.a;
    }
  }

  lemma ModMul(x: nat, y: nat)
    ensures (x * y) % BASE == ((x % BASE) * (y % BASE)) % BASE
  {
    var q, r, k, a := x / BASE, x % BASE, y / BASE, y % BASE;
    var z := q * y + r * k;
    assert x == BASE * q + r && y == BASE * k + a;
    Product(q, r, y);
    Product(k, a, r);
    assert x * y == BASE * z + r * a;
  }

  lemma Product(q: nat, r: nat, y: nat)
    ensures (BASE * q + r) * y == BASE * (q * y) + r * y
    ensures y * (BASE * q + r) == BASE * (y * q) + y * r
  {
  }

  /** The sums adler32_combine_ makes before it reduces them. */
  function CombinedSums(adler1: nat, adler2: nat, n: nat): Sums {
    var s, t, rem := Split(adler1), Split(adler2), n % BASE;
    Sums(s.a + t.a + BASE - 1, (rem * s.a) % BASE + s.b + t.b + BASE - rem)
  }

  /** They are the sums of the messages one after the other. */
  lemma CombinedIs(adler: nat, s: seq<Byte>, t: seq<Byte>)
    ensures Pack(CombinedSums(Adler(adler, s), Adler(1, t), |t|)) == Adler(adler, s + t)
  {
    hide AddAll;
    var x, y := AddAll(Split(adler), s), AddAll(Sums(1, 0), t);
    assert Split(1) == Sums(1, 0);
    PackSplit(x);
    PackSplit(y);
    AddAllAppend(Split(adler), s, t);
    AddAllFrom(x, t);
    ModMul(|t|, x.a);
    FirstSum(x.a, y.a, AddAll(x, t).a);
    SecondSum(|t|, x.b, y.b, |t| * x.a, AddAll(x, t).b);
  }

  lemma FirstSum(a1: nat, a2: nat, a: nat)
    requires a + 1 == a1 + a2
    ensures (a1 % BASE + a2 % BASE + BASE - 1) % BASE == a % BASE
  {
  }

  lemma SecondSum(n: nat, b1: nat, b2: nat, m: nat, b: nat)
    requires b + n == b1 + b2 + m
    ensures (m % BASE + b1 % BASE + b2 % BASE + BASE - n % BASE) % BASE == b % BASE
  {
  }

  /** adler32_combine_ */
  method Combine(adler1: nat, adler2: nat, len2: int) returns (r: nat)
    requires adler1 < TWO_TO_THE_32 && adler2 < TWO_TO_THE_32 && len2 < 0x8000_0000_0000_0000
    ensures len2 < 0 ==> r == 0xffff_ffff
    ensures len2 >= 0 && Reduced(adler1) && Reduced(adler2) ==> r == Pack(CombinedSums(adler1, adler2, len2))
  {
    if len2 < 0 {
      return 0xffff_ffff;
    }
    var rem := Mod63(len2);
    var sum1 := Split(adler1).a;
    var sum2 := rem * sum1;
    MulBound(rem, sum1, BASE - 1, 0xffff);
    assert sum2 < TWO_TO_THE_32;
    sum2 := Mod(sum2);
    sum1 := sum1 + Split(adler2).a + BASE - 1;
    sum2 := sum2 + Split(adler1).b + Split(adler2).b + BASE - rem;
    assert sum1 < TWO_TO_THE_32 && sum2 < TWO_TO_THE_32;
    r := Recombined(sum1, sum2);
  }

  /** The conditional subtractions, and the two sums in one word. */
  method Recombined(a: nat, b: nat) returns (r: nat)
    ensures a < 3 * BASE && b < 4 * BASE ==> r == Pack(Sums(a, b))
  {
    var sum1, sum2 := a, b;
    if sum1 >= BASE {
      sum1 := sum1 - BASE;
    }
    if sum1 >= BASE {
      sum1 := sum1 - BASE;
    }
    if sum2 >= 2 * BASE {
      sum2 := sum2 - 2 * BASE;
    }
    if sum2 >= BASE {
      sum2 := sum2 - BASE;
    }
    r := sum1 + 0x1_0000 * sum2;
  }

  /** The checksum of two messages one after the other, from their checksums and the length
      of the second. */
  method CombineParts(ghost adler: nat, ghost s: seq<Byte>, ghost t: seq<Byte>, adler1: nat, adler2: nat, len2: int)
    returns (r: nat)
    requires adler1 == Adler(adler, s) && adler2 == Adler(1, t) && len2 == |t| < 0x8000_0000_0000_0000
    ensures r == Adler(adler, s + t)
  {
    hide Adler, Pack, CombinedSums, Reduced;
    CombinedIs(adler, s, t);
    AdlerIsReduced(adler, s);
    AdlerIsReduced(1, t);
    IsWord(adler1);
    IsWord(adler2);
    r := Combine(adler1, adler2, len2);
  }

  lemma IsWord(adler: nat)
    requires Reduced(adler)
    ensures adler < TWO_TO_THE_32
  {
  }
}
