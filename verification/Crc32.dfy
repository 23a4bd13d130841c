/** The cyclic redundancy check of section 8 of RFC 1952, and why it can be computed by
    tables, several bytes at a time, and from the checks of two parts: the register is
    linear over exclusive or. */
module Crc32 {

  const POLY: bv32 := 0xedb88320

  // ----- Words --------------------------------------------------------------------------------

  function Xor(a: bv32, b: bv32): bv32 {
    a ^ b
  }

  function Half(c: bv32): bv32 {
    c >> 1
  }

  predicate Odd(c: bv32) {
    c & 1 == 1
  }

  lemma XorComm(a: bv32, b: bv32)
    ensures Xor(a, b) == Xor(b, a)
  {
  }

  lemma XorAssoc(a: bv32, b: bv32, c: bv32)
    ensures Xor(Xor(a, b), c) == Xor(a, Xor(b, c))
  {
  }

  lemma XorZero(a: bv32)
    ensures Xor(a, 0) == a && Xor(0, a) == a
  {
  }

  lemma XorSelf(a: bv32)
    ensures Xor(a, a) == 0
  {
  }

  /** Sums of two sums, whichever way they are taken. */
  lemma XorFour(a: bv32, b: bv32, c: bv32, d: bv32)
    ensures Xor(Xor(a, b), Xor(c, d)) == Xor(Xor(a, c), Xor(b, d))
  {
    hide Xor;
    XorAssoc(a, b, Xor(c, d));
    XorAssoc(b, c, d);
    XorComm(b, c);
    XorAssoc(c, b, d);
    XorAssoc(a, c, Xor(b, d));
  }

  lemma HalfXor(a: bv32, b: bv32)
    ensures Half(Xor(a, b)) == Xor(Half(a), Half(b))
  {
  }

  lemma OddXor(a: bv32, b: bv32)
    ensures Odd(Xor(a, b)) <==> Odd(a) != Odd(b)
  {
  }

  // ----- The register ---------------------------------------------------------------------------

  /** One shift of the register. */
  function Step(c: bv32): bv32 {
    if Odd(c) then Xor(POLY, Half(c)) else Half(c)
  }

  function StepN(n: nat, c: bv32): bv32 {
    if n == 0 then c else Step(StepN(n - 1, c))
  }

  function LowBit(b: bv32): bv32 {
    if Odd(b) then 1 else 0
  }

  /** The lowest `k` bits of `b` go into the register, lowest first. */
  function FeedBits(c: bv32, b: bv32, k: nat): bv32
    decreases k
  {
    if k == 0 then c else FeedBits(Step(Xor(c, LowBit(b))), Half(b), k - 1)
  }

  /** The definition: every byte of the message bit by bit. */
  function Feed(c: bv32, data: seq<bv8>): bv32 {
    if data == [] then c else FeedBits(Feed(c, data[..|data| - 1]), data[|data| - 1] as bv32, 8)
  }

  function Not(c: bv32): bv32 {
    Xor(c, 0xffffffff)
  }

  /** The CRC of a message whose beginning has the CRC `crc`. */
  function Crc(crc: bv32, data: seq<bv8>): bv32 {
    Not(Feed(Not(crc), data))
  }

  // ----- The register is linear ---------------------------------------------------------------

  lemma StepXor(a: bv32, b: bv32)
    ensures Step(Xor(a, b)) == Xor(Step(a), Step(b))
  {
    hide Xor, Half, Odd;
    HalfXor(a, b);
    OddXor(a, b);
    var x, y := Half(a), Half(b);
    XorAssoc(POLY, x, y);
    XorFour(POLY, x, POLY, y);
    XorFour(POLY, x, 0, y);
    XorSelf(POLY);
    XorZero(Xor(x, y));
    XorZero(y);
    XorZero(x);
    XorZero(POLY);
    XorFour(0, x, POLY, y);
  }

  lemma {:induction false} StepNXor(n: nat, a: bv32, b: bv32)
    ensures StepN(n, Xor(a, b)) == Xor(StepN(n, a), StepN(n, b))
  {
    hide Step, Xor;
    if n > 0 {
      StepNXor(n - 1, a, b);
      StepXor(StepN(n - 1, a), StepN(n - 1, b));
    }
  }

  lemma StepZero()
    ensures Step(0) == 0
  {
  }

  lemma {:induction false} StepNZero(n: nat)
    ensures StepN(n, 0) == 0
  {
    hide Step;
    if n > 0 {
      StepNZero(n - 1);
      StepZero();
    }
  }

  lemma {:induction false} StepNAdd(m: nat, n: nat, c: bv32)
    ensures StepN(m, StepN(n, c)) == StepN(m + n, c)
  {
    hide Step;
    if m > 0 {
      StepNAdd(m - 1, n, c);
    }
  }

  lemma StepNFirst(n: nat, c: bv32)
    ensures StepN(n, Step(c)) == StepN(n + 1, c)
  {
    hide Step;
    StepNAdd(n, 1, c);
    assert StepN(1, c) == Step(StepN(0, c));
  }

  lemma StepNNone(c: bv32)
    ensures StepN(0, c) == c
  {
  }

  // ----- Bytes at once --------------------------------------------------------------------------

  lemma LowBitFacts(b: bv32)
    ensures Odd(LowBit(b)) <==> Odd(b)
    ensures Half(LowBit(b)) == 0
  {
  }

  lemma SplitBit(b: bv32)
    ensures Step(b) == Xor(Step(LowBit(b)), Half(b))
  {
    hide Xor, Half, Odd, LowBit;
    LowBitFacts(b);
    XorAssoc(POLY, 0, Half(b));
    XorZero(Half(b));
    XorZero(POLY);
  }

  /** A register with its first message bit in, and then the other bits, is one with all the
      bits in. */
  lemma FirstBit(c: bv32, b: bv32)
    ensures Xor(Step(Xor(c, LowBit(b))), Half(b)) == Step(Xor(c, b))
  {
    hide *;
    StepXor(c, b);
    StepXor(c, LowBit(b));
    SplitBit(b);
    XorAssoc(Step(c), Step(LowBit(b)), Half(b));
  }

  /** `b` has no more than `k` bits. */
  predicate Fits(b: bv32, k: nat)
    decreases k
  {
    if k == 0 then b == 0 else Fits(Half(b), k - 1)
  }

  /** Bits that arrive later may as well be put into the register at once. */
  lemma {:induction false} FeedBitsAtOnce(c: bv32, b: bv32, k: nat)
    requires Fits(b, k)
    decreases k
    ensures FeedBits(c, b, k) == StepN(k, Xor(c, b))
  {
    hide Step, StepN, Xor, LowBit, Half;
    if k > 0 {
      FeedBitsAtOnce(Step(Xor(c, LowBit(b))), Half(b), k - 1);
      FirstBit(c, b);
      StepNFirst(k - 1, Xor(c, b));
    } else {
      XorZero(c);
      StepNNone(c);
    }
  }

  lemma EightHalves(b: bv8)
    ensures Half(Half(Half(Half(Half(Half(Half(Half(b as bv32)))))))) == 0
  {
  }

  lemma FitsHalf(b: bv32, k: nat)
    requires Fits(Half(b), k)
    ensures Fits(b, k + 1)
  {
  }

  lemma ByteFits(b: bv8)
    ensures Fits(b as bv32, 8)
  {
    hide Half;
    EightHalves(b);
    var b0 := b as bv32;
    var b1 := Half(b0);
    var b2 := Half(b1);
    var b3 := Half(b2);
    var b4 := Half(b3);
    var b5 := Half(b4);
    var b6 := Half(b5);
    var b7 := Half(b6);
    assert Fits(Half(b7), 0);
    hide Fits;
    FitsHalf(b7, 0);
    FitsHalf(b6, 1);
    FitsHalf(b5, 2);
    FitsHalf(b4, 3);
    FitsHalf(b3, 4);
    FitsHalf(b2, 5);
    FitsHalf(b1, 6);
    FitsHalf(b0, 7);
  }

  lemma FeedByte(c: bv32, b: bv8)
    ensures FeedBits(c, b as bv32, 8) == StepN(8, Xor(c, b as bv32))
  {
    hide *;
    ByteFits(b);
    FeedBitsAtOnce(c, b as bv32, 8);
  }

  // ----- Messages in parts --------------------------------------------------------------------------

  lemma {:induction false} FeedAppend(c: bv32, s: seq<bv8>, t: seq<bv8>)
    ensures Feed(c, s + t) == Feed(Feed(c, s), t)
  {
    hide FeedBits;
    if t == [] {
      assert s + t == s;
    } else {
      FeedAppend(c, s, t[..|t| - 1]);
      assert (s + t)[..|s + t| - 1] == s + t[..|t| - 1];
    }
  }

  lemma FeedOn(c: bv32, s: seq<bv8>, b: bv8)
    ensures Feed(c, s + [b]) == StepN(8, Xor(Feed(c, s), b as bv32))
    ensures Feed(c, []) == c
  {
    hide StepN, Xor, FeedBits;
    FeedByte(Feed(c, s), b);
    assert (s + [b])[..|s + [b]| - 1] == s;
  }

  /** What was in the register before only shifts along with the message. */
  lemma {:induction false} FeedXor(c: bv32, d: bv32, s: seq<bv8>)
    ensures Feed(Xor(c, d), s) == Xor(Feed(c, s), StepN(8 * |s|, d))
  {
    hide *;
    if s == [] {
      StepNNone(d);
      FeedOn(c, [], 0);
      FeedOn(Xor(c, d), [], 0);
    } else {
      var t, b := s[..|s| - 1], s[|s| - 1];
      assert s == t + [b];
      FeedXor(c, d, t);
      FeedOn(c, t, b);
      FeedOn(Xor(c, d), t, b);
      var x, y := Feed(c, t), StepN(8 * |t|, d);
      XorLast(x, y, b as bv32);
      StepNXor(8, Xor(x, b as bv32), y);
      StepNAdd(8, 8 * |t|, d);
    }
  }

  lemma XorLast(x: bv32, y: bv32, z: bv32)
    ensures Xor(Xor(x, y), z) == Xor(Xor(x, z), y)
  {
    hide Xor;
    XorAssoc(x, y, z);
    XorComm(y, z);
    XorAssoc(x, z, y);
  }

  /** The CRC of two parts together: the CRC of the first, shifted past the length of the
      second, plus the CRC of the second. */
  lemma CrcOfParts(s: seq<bv8>, t: seq<bv8>)
    ensures Crc(0, s + t) == Xor(StepN(8 * |t|, Crc(0, s)), Crc(0, t))
  {
    hide Xor, StepN, Feed;
    var ones: bv32 := 0xffffffff;
    XorZero(ones);
    var r := Feed(ones, s);
    FeedAppend(ones, s, t);
    NotAsXor(r);
    FeedXor(ones, Not(r), t);
    XorLast(Feed(ones, t), StepN(8 * |t|, Not(r)), ones);
    XorComm(Xor(Feed(ones, t), ones), StepN(8 * |t|, Not(r)));
  }

  lemma NotAsXor(r: bv32)
    ensures r == Xor(0xffffffff, Not(r))
  {
  }

  /** Checking a message in parts. */
  lemma CrcInParts(crc: bv32, s: seq<bv8>, t: seq<bv8>)
    ensures Crc(crc, s + t) == Crc(Crc(crc, s), t)
  {
    hide Feed, Xor;
    FeedAppend(Not(crc), s, t);
    NotNot(Feed(Not(crc), s));
  }

  lemma NotNot(r: bv32)
    ensures Not(Not(r)) == r
  {
  }

  // ----- Tables ---------------------------------------------------------------------------------------

  /** Entry `b` of table `k`: the byte and `k` zero bytes after it. */
  function Entry(k: nat, b: bv8): bv32 {
    StepN(8 * (k + 1), b as bv32)
  }

  /** A byte as an array index. */
  function Index(b: bv8): (n: nat)
    ensures n < 256
  {
    b as nat
  }

  lemma ZeroIndex()
    ensures Index(0) == 0
  {
  }

  lemma NextIndex(b: bv8)
    ensures Index(b) + 1 < 256 ==> Index(b + 1) == Index(b) + 1
  {
  }

  /** Table `k` is as make_crc_table makes it. */
  ghost predicate Made(t: array<bv32>, k: nat)
    reads t
  {
    Filled(t, k, 256)
  }

  /** Its first `n` entries are. */
  ghost predicate Filled(t: array<bv32>, k: nat, n: nat)
    reads t
  {
    && t.Length == 256
    && forall b: bv8 :: Index(b) < n ==> t[Index(b)] == Entry(k, b)
  }

  lemma SameByte(b: bv8, c: bv8)
    ensures Index(b) == Index(c) <==> b == c
  {
  }

  /** One more entry. */
  method Enter(t: array<bv32>, k: nat, n: nat, b: bv8, c: bv32)
    requires Filled(t, k, n) && n == Index(b) && c == Entry(k, b)
    modifies t
    ensures Filled(t, k, n + 1)
  {
    hide Entry, Index;
    ghost var was := t[..];
    t[n] := c;
    forall d: bv8 | Index(d) < n + 1
      ensures t[Index(d)] == Entry(k, d)
    {
      SameByte(d, b);
      assert d != b ==> t[Index(d)] == was[Index(d)];
    }
  }

  /** The CRC of one byte, bit by bit. */
  method ByteCrc(b: bv8) returns (c: bv32)
    ensures c == Entry(0, b)
  {
    hide *;
    c := b as bv32;
    StepNNone(c);
    var k := 0;
    while k < 8
      invariant 0 <= k <= 8 && c == StepN(k, b as bv32)
    {
      StepNNext(k, b as bv32);
      c := if Odd(c) then Xor(POLY, Half(c)) else Half(c);
      k := k + 1;
    }
    EntryIs(0, b);
  }

  ghost predicate FourTables(t: seq<array<bv32>>) {
    && |t| == 4 && (forall k: nat :: k < 4 ==> t[k].Length == 256)
    && forall j: nat, k: nat :: j < k < 4 ==> t[j] != t[k]
  }

  /** make_crc_table: the first table bit by bit, the others by going on from it a byte at a
      time. */
  method MakeCrcTable(t: seq<array<bv32>>)
    requires FourTables(t)
    modifies t[0], t[1], t[2], t[3]
    ensures Made(t[0], 0) && Made(t[1], 1) && Made(t[2], 2) && Made(t[3], 3)
  {
    FourMeans(t);
    hide *;
    FirstTable(t[0]);
    MadeIs(t[0], 0);
    FilledNone(t);
    ZeroIndex();
    var n, b: bv8 := 0, 0;
    while n < 256
      invariant 0 <= n <= 256 && FilledTo(t, n) && (n < 256 ==> Index(b) == n)
    {
      OtherEntries(t, n, b);
      NextIndex(b);
      n, b := n + 1, b + 1;
    }
    AllFilled(t);
  }

  method FirstTable(t: array<bv32>)
    requires t.Length == 256
    modifies t
    ensures Made(t, 0)
  {
    hide *;
    NoneFilled(t, 0);
    ZeroIndex();
    var n, b: bv8 := 0, 0;
    while n < 256
      invariant 0 <= n <= 256 && Filled(t, 0, n) && (n < 256 ==> Index(b) == n)
    {
      var c := ByteCrc(b);
      Enter(t, 0, n, b, c);
      NextIndex(b);
      n, b := n + 1, b + 1;
    }
    MadeIs(t, 0);
  }

  /** The first table and the first `n` entries of the others are done. */
  ghost predicate FilledTo(t: seq<array<bv32>>, n: nat)
    requires FourTables(t)
    reads t
  {
    Filled(t[0], 0, 256) && Filled(t[1], 1, n) && Filled(t[2], 2, n) && Filled(t[3], 3, n)
  }

  lemma FilledNone(t: seq<array<bv32>>)
    requires FourTables(t) && Filled(t[0], 0, 256)
    ensures FilledTo(t, 0)
  {
    hide Filled;
    NoneFilled(t[1], 1);
    NoneFilled(t[2], 2);
    NoneFilled(t[3], 3);
  }

  lemma AllFilled(t: seq<array<bv32>>)
    requires FourTables(t) && FilledTo(t, 256)
    ensures Made(t[0], 0) && Made(t[1], 1) && Made(t[2], 2) && Made(t[3], 3)
  {
    hide Filled;
  }

  /** Entry `n` of the other three tables. */
  method OtherEntries(t: seq<array<bv32>>, n: nat, b: bv8)
    requires FourTables(t) && n == Index(b) && FilledTo(t, n)
    modifies t[1], t[2], t[3]
    ensures FilledTo(t, n + 1)
  {
    FourMeans(t);
    hide *;
    FilledMeans(t, n);
    EntryAt(t[0], 0, b);
    var c := t[0][n];
    var k := 1;
    while k < 4
      invariant 1 <= k <= 4 && c == Entry(k - 1, b) && Filled(t[0], 0, 256)
      invariant Filled(t[1], 1, if 1 < k then n + 1 else n)
      invariant Filled(t[2], 2, if 2 < k then n + 1 else n)
      invariant Filled(t[3], 3, if 3 < k then n + 1 else n)
    {
      EntryAt(t[0], 0, Lowest(c));
      NextEntry(k, b);
      c := Xor(t[0][Index(Lowest(c))], Shift8(c));
      Enter(t[k], k, n, b, c);
      k := k + 1;
    }
    FilledMeans(t, n + 1);
  }

  lemma FilledMeans(t: seq<array<bv32>>, n: nat)
    requires FourTables(t)
    ensures FilledTo(t, n) <==>
            Filled(t[0], 0, 256) && Filled(t[1], 1, n) && Filled(t[2], 2, n) && Filled(t[3], 3, n)
  {
  }

  lemma FourMeans(t: seq<array<bv32>>)
    requires FourTables(t)
    ensures |t| == 4
    ensures t[0] != t[1] && t[0] != t[2] && t[0] != t[3] && t[1] != t[2] && t[1] != t[3] && t[2] != t[3]
    ensures t[0].Length == 256 && t[1].Length == 256 && t[2].Length == 256 && t[3].Length == 256
  {
  }

  lemma MadeIs(t: array<bv32>, k: nat)
    ensures Made(t, k) <==> Filled(t, k, 256)
  {
  }

  lemma StepNNext(n: nat, c: bv32)
    ensures StepN(n + 1, c) == Step(StepN(n, c))
    ensures Step(StepN(n, c)) == if Odd(StepN(n, c)) then Xor(POLY, Half(StepN(n, c))) else Half(StepN(n, c))
  {
  }

  lemma NoneFilled(t: array<bv32>, k: nat)
    requires t.Length == 256
    ensures Filled(t, k, 0)
  {
  }

  lemma EntryAt(t: array<bv32>, k: nat, b: bv8)
    requires Filled(t, k, 256)
    ensures t.Length == 256 && t[Index(b)] == Entry(k, b)
  {
    SameByte(b, b);
  }

  lemma EntryIs(k: nat, b: bv8)
    ensures Entry(k, b) == StepN(8 * (k + 1), b as bv32)
  {
  }

  /** `c & 0xff` and `c >> 8`. */
  function Lowest(c: bv32): bv8 {
    (c & 0xff) as bv8
  }

  function Shift8(c: bv32): bv32 {
    c >> 8
  }

  /** `c` without its lowest byte. */
  function Above(c: bv32): bv32 {
    c >> 8 << 8
  }

  /** A register is its lowest byte and the rest. */
  lemma SplitByte(c: bv32)
    ensures c == Xor(Lowest(c) as bv32, Above(c))
  {
  }

  lemma AboveFacts(c: bv32)
    ensures Above(c) & 0xff == 0 && Above(c) >> 8 == Shift8(c)
  {
  }

  lemma HalfOfEven(x: bv32)
    requires !Odd(x)
    ensures Step(x) == Half(x)
  {
  }

  /** Eight steps shift out eight zero bits. */
  lemma StepEight(x: bv32)
    requires x & 0xff == 0
    ensures StepN(8, x) == x >> 8
  {
    hide *;
    EightEven(x);
    StepNNone(x);
    HalfOfEven(x);
    StepNNext(0, x);
    HalfOfEven(x >> 1);
    StepNNext(1, x);
    HalfOfEven(x >> 2);
    StepNNext(2, x);
    HalfOfEven(x >> 3);
    StepNNext(3, x);
    HalfOfEven(x >> 4);
    StepNNext(4, x);
    HalfOfEven(x >> 5);
    StepNNext(5, x);
    HalfOfEven(x >> 6);
    StepNNext(6, x);
    HalfOfEven(x >> 7);
    StepNNext(7, x);
  }

  lemma EightEven(x: bv32)
    requires x & 0xff == 0
    ensures !Odd(x) && !Odd(x >> 1) && !Odd(x >> 2) && !Odd(x >> 3)
    ensures !Odd(x >> 4) && !Odd(x >> 5) && !Odd(x >> 6) && !Odd(x >> 7)
    ensures Half(x) == x >> 1 && Half(x >> 1) == x >> 2 && Half(x >> 2) == x >> 3 && Half(x >> 3) == x >> 4
    ensures Half(x >> 4) == x >> 5 && Half(x >> 5) == x >> 6 && Half(x >> 6) == x >> 7 && Half(x >> 7) == x >> 8
  {
  }

  /** Eight steps at once: `crc_table[0][c & 0xff] ^ (c >> 8)`. */
  lemma EightSteps(c: bv32)
    ensures StepN(8, c) == Xor(Entry(0, Lowest(c)), Shift8(c))
  {
    hide *;
    SplitByte(c);
    StepNXor(8, Lowest(c) as bv32, Above(c));
    StepAbove(c);
    EntryIs(0, Lowest(c));
  }

  lemma StepAbove(c: bv32)
    ensures StepN(8, Above(c)) == Shift8(c)
  {
    hide *;
    AboveFacts(c);
    StepEight(Above(c));
  }

  /** The recurrence that makes table `k` from table `k - 1`. */
  lemma NextEntry(k: nat, b: bv8)
    requires k > 0
    ensures var c := Entry(k - 1, b);
            Entry(k, b) == Xor(Entry(0, Lowest(c)), Shift8(c))
  {
    hide *;
    EntryIs(k, b);
    EntryIs(k - 1, b);
    EightSteps(Entry(k - 1, b));
    StepNAdd(8, 8 * k, b as bv32);
  }

  // ----- Four bytes at a time ------------------------------------------------------------------------

  /** The tables in use. */
  ghost predicate Ready(t: seq<array<bv32>>)
    reads if |t| == 4 then {t[0], t[1], t[2], t[3]} else {}
  {
    |t| == 4 && Made(t[0], 0) && Made(t[1], 1) && Made(t[2], 2) && Made(t[3], 3)
  }

  /** One byte: `crc_table[0][(c ^ *buf++) & 0xff] ^ (c >> 8)`. */
  method OneByte(t: seq<array<bv32>>, c: bv32, b: bv8) returns (r: bv32)
    requires Ready(t)
    ensures r == StepN(8, Xor(c, b as bv32))
  {
    ReadyMeans(t);
    hide *;
    var x := Xor(c, b as bv32);
    EntryAt(t[0], 0, Lowest(x));
    EightSteps(x);
    SameShift(c, b);
    r := Xor(t[0][Index(Lowest(x))], Shift8(c));
  }

  lemma SameShift(c: bv32, b: bv8)
    ensures Shift8(Xor(c, b as bv32)) == Shift8(c)
  {
  }

  lemma ReadyMeans(t: seq<array<bv32>>)
    requires Ready(t)
    ensures |t| == 4
    ensures Filled(t[0], 0, 256) && Filled(t[1], 1, 256) && Filled(t[2], 2, 256) && Filled(t[3], 3, 256)
    ensures t[0].Length == 256 && t[1].Length == 256 && t[2].Length == 256 && t[3].Length == 256
  {
    hide Entry;
  }

  /** A word of the message: its first byte is the lowest. */
  function Word(b0: bv8, b1: bv8, b2: bv8, b3: bv8): bv32 {
    Xor(b0 as bv32, Up(Xor(b1 as bv32, Up(Xor(b2 as bv32, Up(b3 as bv32))))))
  }

  function Up(c: bv32): bv32 {
    c << 8
  }

  /** Taking a word in at once is taking its bytes in one by one. */
  lemma WordBytes(c: bv32, b0: bv8, b1: bv8, b2: bv8, b3: bv8)
    ensures Feed(c, [b0, b1, b2, b3]) == StepN(32, Xor(c, Word(b0, b1, b2, b3)))
  {
    hide *;
    FourFeeds(c, b0, b1, b2, b3);
    WordIs(b0, b1, b2, b3);
    var w3 := b3 as bv32;
    var w2 := Xor(b2 as bv32, Up(w3));
    var w1 := Xor(b1 as bv32, Up(w2));
    WordFits(b1, b2, b3);
    InWord(c, b0, w1);
    InWord(StepN(8, Xor(c, b0 as bv32)), b1, w2);
    InWord(StepN(8, Xor(StepN(8, Xor(c, b0 as bv32)), b1 as bv32)), b2, w3);
    StepNAdd(8, 8, Xor(StepN(8, Xor(StepN(8, Xor(c, b0 as bv32)), b1 as bv32)), w2));
    StepNAdd(16, 8, Xor(StepN(8, Xor(c, b0 as bv32)), w1));
    StepNAdd(24, 8, Xor(c, Xor(b0 as bv32, Up(w1))));
  }

  lemma WordIs(b0: bv8, b1: bv8, b2: bv8, b3: bv8)
    ensures Word(b0, b1, b2, b3) == Xor(b0 as bv32, Up(Xor(b1 as bv32, Up(Xor(b2 as bv32, Up(b3 as bv32))))))
  {
  }

  lemma FourFeeds(c: bv32, b0: bv8, b1: bv8, b2: bv8, b3: bv8)
    ensures Feed(c, [b0, b1, b2, b3])
         == StepN(8, Xor(StepN(8, Xor(StepN(8, Xor(StepN(8, Xor(c, b0 as bv32)), b1 as bv32)), b2 as bv32)),
                     b3 as bv32))
  {
    hide *;
    FeedOn(c, [], b0);
    FeedOn(c, [b0], b1);
    FeedOn(c, [b0, b1], b2);
    FeedOn(c, [b0, b1, b2], b3);
    assert [] + [b0] == [b0];
    assert [b0] + [b1] == [b0, b1];
    assert [b0, b1] + [b2] == [b0, b1, b2];
    assert [b0, b1, b2] + [b3] == [b0, b1, b2, b3];
  }

  predicate Fits24(w: bv32) {
    w <= 0xffffff
  }

  lemma WordFits(b1: bv8, b2: bv8, b3: bv8)
    ensures var w2 := Xor(b2 as bv32, Up(b3 as bv32));
            Fits24(b3 as bv32) && Fits24(w2) && Fits24(Xor(b1 as bv32, Up(w2)))
  {
  }

  /** A byte now and the rest of the word eight steps later, or all at once. */
  lemma InWord(c: bv32, b: bv8, w: bv32)
    requires Fits24(w)
    ensures Xor(StepN(8, Xor(c, b as bv32)), w) == StepN(8, Xor(c, Xor(b as bv32, Up(w))))
  {
    hide *;
    StepUp(w);
    StepNXor(8, Xor(c, b as bv32), Up(w));
    XorAssoc(c, b as bv32, Up(w));
  }

  lemma StepUp(w: bv32)
    requires Fits24(w)
    ensures StepN(8, Up(w)) == w
  {
    hide *;
    UpFacts(w);
    StepEight(Up(w));
  }

  lemma UpFacts(w: bv32)
    requires Fits24(w)
    ensures Up(w) & 0xff == 0 && Up(w) >> 8 == w
  {
  }

  /** The bytes of a word: `c & 0xff`, `(c >> 8) & 0xff`, `(c >> 16) & 0xff` and `c >> 24`. */
  function Second(c: bv32): bv8 {
    ((c >> 8) & 0xff) as bv8
  }

  function Third(c: bv32): bv8 {
    ((c >> 16) & 0xff) as bv8
  }

  function Fourth(c: bv32): bv8 {
    (c >> 24) as bv8
  }

  /** DOLIT4's four lookups shift the register by 32 bits. */
  lemma FourEntries(c: bv32)
    ensures StepN(32, c)
         == Xor(Xor(Xor(Entry(3, Lowest(c)), Entry(2, Second(c))), Entry(1, Third(c))), Entry(0, Fourth(c)))
  {
    hide *;
    var b0, b1, b2, b3 := Lowest(c), Second(c), Third(c), Fourth(c);
    EntryIs(3, b0);
    EntryIs(2, b1);
    EntryIs(1, b2);
    EntryIs(0, b3);
    BytesOf(c);
    WordIs(b0, b1, b2, b3);
    var w3 := b3 as bv32;
    var w2 := Xor(b2 as bv32, Up(w3));
    var w1 := Xor(b1 as bv32, Up(w2));
    WordFits(b1, b2, b3);
    ShiftIn(24, b0, w1);
    ShiftIn(16, b1, w2);
    ShiftIn(8, b2, w3);
    XorAssoc(StepN(32, b0 as bv32), StepN(24, b1 as bv32), Xor(StepN(16, b2 as bv32), StepN(8, w3)));
    XorAssoc(Xor(StepN(32, b0 as bv32), StepN(24, b1 as bv32)), StepN(16, b2 as bv32), StepN(8, w3));
  }

  lemma BytesOf(c: bv32)
    ensures Word(Lowest(c), Second(c), Third(c), Fourth(c)) == c
  {
  }

  /** Shifting a word whose lowest byte is `b`. */
  lemma ShiftIn(n: nat, b: bv8, w: bv32)
    requires Fits24(w)
    ensures StepN(n + 8, Xor(b as bv32, Up(w))) == Xor(StepN(n + 8, b as bv32), StepN(n, w))
  {
    hide *;
    StepNXor(n + 8, b as bv32, Up(w));
    StepNAdd(n, 8, Up(w));
    StepUp(w);
  }

  /** DOLIT4, at offset `p` of the message. */
  method DoLit4(t: seq<array<bv32>>, buf: seq<bv8>, p: nat, c0: bv32) returns (c: bv32)
    requires Ready(t) && p + 4 <= |buf|
    ensures c == Feed(c0, buf[p..p + 4])
  {
    ReadyMeans(t);
    hide *;
    WordBytes(c0, buf[p], buf[p + 1], buf[p + 2], buf[p + 3]);
    assert buf[p..p + 4] == [buf[p], buf[p + 1], buf[p + 2], buf[p + 3]];
    c := Xor(c0, Word(buf[p], buf[p + 1], buf[p + 2], buf[p + 3]));
    FourEntries(c);
    EntryAt(t[3], 3, Lowest(c));
    EntryAt(t[2], 2, Second(c));
    EntryAt(t[1], 1, Third(c));
    EntryAt(t[0], 0, Fourth(c));
    c := Xor(Xor(Xor(t[3][Index(Lowest(c))], t[2][Index(Second(c))]), t[1][Index(Third(c))]), t[0][Index(Fourth(c))]);
  }

  lemma Advance(c: bv32, buf: seq<bv8>, p: nat, n: nat)
    requires p + n <= |buf|
    ensures Feed(Feed(c, buf[..p]), buf[p..p + n]) == Feed(c, buf[..p + n])
  {
    hide Feed;
    FeedAppend(c, buf[..p], buf[p..p + n]);
    assert buf[..p] + buf[p..p + n] == buf[..p + n];
  }

  /** The byte at `p`. */
  method TakeByte(t: seq<array<bv32>>, ghost c0: bv32, buf: seq<bv8>, p: nat, c: bv32) returns (r: bv32)
    requires Ready(t) && p < |buf| && c == Feed(c0, buf[..p])
    ensures r == Feed(c0, buf[..p + 1])
  {
    hide *;
    r := OneByte(t, c, buf[p]);
    FeedOn(c, [], buf[p]);
    assert [] + [buf[p]] == buf[p..p + 1];
    Advance(c0, buf, p, 1);
  }

  /** The word at `p`. */
  method TakeWord(t: seq<array<bv32>>, ghost c0: bv32, buf: seq<bv8>, p: nat, c: bv32) returns (r: bv32)
    requires Ready(t) && p + 4 <= |buf| && c == Feed(c0, buf[..p])
    ensures r == Feed(c0, buf[..p + 4])
  {
    hide *;
    r := DoLit4(t, buf, p, c);
    Advance(c0, buf, p, 4);
  }

  /** crc32_little, for a message at `address`: bytes up to a word boundary, eight words at a
      time, single words, and the bytes that are left. */
  method Crc32Little(t: seq<array<bv32>>, crc: bv32, buf: seq<bv8>, address: nat) returns (r: bv32)
    requires Ready(t)
    ensures r == Crc(crc, buf)
  {
    hide *;
    var c := Not(crc);
    ghost var c0 := c;
    var p := 0;
    FeedOn(c0, [], 0);
    assert buf[..0] == [];
    while p < |buf| && (address + p) % 4 != 0
      invariant 0 <= p <= |buf| && c == Feed(c0, buf[..p])
    {
      c := TakeByte(t, c0, buf, p, c);
      p := p + 1;
    }
    while |buf| - p >= 32
      invariant 0 <= p <= |buf| && c == Feed(c0, buf[..p])
    {
      var k := 0;
      ghost var q := p;
      while k < 8
        invariant 0 <= k <= 8 && p == q + 4 * k && q + 32 <= |buf| && c == Feed(c0, buf[..p])
      {
        c := TakeWord(t, c0, buf, p, c);
        p := p + 4;
        k := k + 1;
      }
    }
    while |buf| - p >= 4
      invariant 0 <= p <= |buf| && c == Feed(c0, buf[..p])
    {
      c := TakeWord(t, c0, buf, p, c);
      p := p + 4;
    }
    while p < |buf|
      invariant 0 <= p <= |buf| && c == Feed(c0, buf[..p])
    {
      c := TakeByte(t, c0, buf, p, c);
      p := p + 1;
    }
    assert buf[..p] == buf;
    r := Not(c);
    CrcIs(crc, buf);
  }

  lemma CrcIs(crc: bv32, buf: seq<bv8>)
    ensures Crc(crc, buf) == Not(Feed(Not(crc), buf))
  {
  }

  // ----- Matrices ---------------------------------------------------------------------------------------

  function Double(c: bv32): bv32 {
    c << 1
  }

  lemma DoubleXor(a: bv32, b: bv32)
    ensures Double(Xor(a, b)) == Xor(Double(a), Double(b))
  {
  }

  /** Bit `i`. */
  function Unit(i: nat): bv32 {
    if i == 0 then 1 else Double(Unit(i - 1))
  }

  /** Row `i` of the matrix of `n` steps is what they make of bit `i`. */
  ghost predicate Rows(mat: array<bv32>, n: nat)
    reads mat
  {
    mat.Length == 32 && forall i: nat :: i < 32 ==> mat[i] == StepN(n, Unit(i))
  }

  /** `c` shifted up by `i` bits. */
  function Lift(c: bv32, i: nat): bv32 {
    if i == 0 then c else Double(Lift(c, i - 1))
  }

  lemma {:induction false} LiftXor(a: bv32, b: bv32, i: nat)
    ensures Lift(Xor(a, b), i) == Xor(Lift(a, i), Lift(b, i))
  {
    hide Xor, Double;
    if i > 0 {
      LiftXor(a, b, i - 1);
      DoubleXor(Lift(a, i - 1), Lift(b, i - 1));
    }
  }

  lemma DoubleZero()
    ensures Double(0) == 0
  {
  }

  lemma {:induction false} LiftUnit(i: nat)
    ensures Lift(1, i) == Unit(i) && Lift(0, i) == 0
  {
    hide Double;
    DoubleZero();
    if i > 0 {
      LiftUnit(i - 1);
    }
  }

  lemma {:induction false} LiftNext(c: bv32, i: nat)
    ensures Lift(Double(c), i) == Lift(c, i + 1)
  {
    hide Double;
    if i > 0 {
      LiftNext(c, i - 1);
    }
  }

  lemma HalfUp(c: bv32)
    ensures c == Xor(LowBit(c), Double(Half(c)))
  {
  }

  /** The bits of `c` from bit `i` on, with bit `i` split off. */
  lemma LiftSplit(c: bv32, i: nat)
    ensures Lift(c, i) == Xor(if Odd(c) then Unit(i) else 0, Lift(Half(c), i + 1))
  {
    hide Xor, Lift, Odd, Half, Unit, Double;
    HalfUp(c);
    LiftXor(LowBit(c), Double(Half(c)), i);
    LiftUnit(i);
    LiftNext(Half(c), i);
  }

  /** The largest word of `32 - i` bits. */
  function Room(i: nat): bv32 {
    if i == 0 then 0xffffffff else Half(Room(i - 1))
  }

  /** `c` has no bits beyond those. */
  predicate Within(c: bv32, i: nat) {
    c <= Room(i)
  }

  lemma RoomOn(i: nat)
    ensures Room(i + 8) == Half(Half(Half(Half(Half(Half(Half(Half(Room(i)))))))))
  {
    hide Half;
    assert Room(i + 2) == Half(Half(Room(i)));
    assert Room(i + 4) == Half(Half(Room(i + 2)));
    assert Room(i + 6) == Half(Half(Room(i + 4)));
  }

  lemma HalvedOnes()
    ensures Half(Half(Half(Half(Half(Half(Half(Half(0xffffffff)))))))) == 0xffffff
    ensures Half(Half(Half(Half(Half(Half(Half(Half(0xffffff)))))))) == 0xffff
    ensures Half(Half(Half(Half(Half(Half(Half(Half(0xffff)))))))) == 0xff
    ensures Half(Half(Half(Half(Half(Half(Half(Half(0xff)))))))) == 0
  {
  }

  lemma NoRoom(c: bv32)
    requires Within(c, 32)
    ensures c == 0
  {
    hide Half;
    HalvedOnes();
    RoomOn(0);
    RoomOn(8);
    RoomOn(16);
    RoomOn(24);
    assert Room(0) == 0xffffffff;
  }

  lemma HalfRoom(c: bv32, i: nat)
    requires Within(c, i)
    ensures Within(Half(c), i + 1)
  {
  }

  /** gf2_matrix_times */
  method Times(mat: array<bv32>, vec0: bv32, ghost n: nat) returns (sum: bv32)
    requires Rows(mat, n)
    ensures sum == StepN(n, vec0)
  {
    RowsMean(mat, n);
    hide *;
    sum := 0;
    var vec, i := vec0, 0;
    StartTimes(n, vec);
    while vec != 0
      invariant 0 <= i <= 32 && Within(vec, i)
      invariant StepN(n, vec0) == Xor(sum, StepN(n, Lift(vec, i)))
      decreases 32 - i
    {
      if i == 32 {
        NoRoom(vec);
        assert false;
      }
      TimesStep(n, vec, i, sum);
      HalfRoom(vec, i);
      if Odd(vec) {
        sum := Xor(sum, mat[i]);
      }
      vec := Half(vec);
      i := i + 1;
    }
    EndTimes(n, i, sum);
  }

  lemma RowsMean(mat: array<bv32>, n: nat)
    requires Rows(mat, n)
    ensures mat.Length == 32 && forall i: nat :: i < 32 ==> mat[i] == StepN(n, Unit(i))
  {
  }

  lemma StartTimes(n: nat, v: bv32)
    ensures StepN(n, v) == Xor(0, StepN(n, Lift(v, 0))) && Within(v, 0)
  {
    hide StepN, Xor;
    XorZero(StepN(n, v));
  }

  lemma TimesStep(n: nat, vec: bv32, i: nat, sum: bv32)
    ensures Xor(sum, StepN(n, Lift(vec, i)))
         == Xor(if Odd(vec) then Xor(sum, StepN(n, Unit(i))) else sum, StepN(n, Lift(Half(vec), i + 1)))
  {
    hide *;
    LiftSplit(vec, i);
    var rest := Lift(Half(vec), i + 1);
    if Odd(vec) {
      StepNXor(n, Unit(i), rest);
      XorAssoc(sum, StepN(n, Unit(i)), StepN(n, rest));
    } else {
      XorZero(rest);
    }
  }

  lemma EndTimes(n: nat, i: nat, sum: bv32)
    ensures Xor(sum, StepN(n, Lift(0, i))) == sum
  {
    hide Lift, StepN, Xor;
    LiftUnit(i);
    StepNZero(n);
    XorZero(sum);
  }

  /** The first `k` rows are right. */
  ghost predicate RowsUpTo(mat: array<bv32>, n: nat, k: nat)
    reads mat
  {
    mat.Length == 32 && forall i: nat :: i < k && i < 32 ==> mat[i] == StepN(n, Unit(i))
  }

  lemma RowsAll(mat: array<bv32>, n: nat)
    ensures Rows(mat, n) <==> RowsUpTo(mat, n, 32)
    ensures mat.Length == 32 ==> RowsUpTo(mat, n, 0)
  {
  }

  lemma RowAt(mat: array<bv32>, n: nat, i: nat)
    requires Rows(mat, n) && i < 32
    ensures mat.Length == 32 && mat[i] == StepN(n, Unit(i))
  {
  }

  method SetRow(mat: array<bv32>, i: nat, row: bv32, ghost n: nat)
    requires RowsUpTo(mat, n, i) && i < 32 && row == StepN(n, Unit(i))
    modifies mat
    ensures RowsUpTo(mat, n, i + 1)
  {
    hide StepN, Unit;
    mat[i] := row;
  }

  /** gf2_matrix_square */
  method Square(square: array<bv32>, mat: array<bv32>, ghost n: nat)
    requires Rows(mat, n) && square.Length == 32 && square != mat
    modifies square
    ensures Rows(square, 2 * n) && Rows(mat, n)
  {
    hide *;
    RowsAll(square, 2 * n);
    var i := 0;
    while i < 32
      invariant 0 <= i <= 32 && Rows(mat, n) && RowsUpTo(square, 2 * n, i)
    {
      RowAt(mat, n, i);
      StepNAdd(n, n, Unit(i));
      var row := Times(mat, mat[i], n);
      SetRow(square, i, row, 2 * n);
      i := i + 1;
    }
    RowsAll(square, 2 * n);
  }

  // ----- crc32_combine_ -----------------------------------------------------------------------------------

  /** The matrix of one step: the polynomial, then the bits shifted down by one. */
  method OneZeroBit(odd: array<bv32>)
    requires odd.Length == 32
    modifies odd
    ensures Rows(odd, 1)
  {
    hide *;
    RowsAll(odd, 1);
    FirstRow();
    SetRow(odd, 0, 0xedb88320, 1);
    var row, i := 1, 1;
    while i < 32
      invariant 1 <= i <= 32 && row == Unit(i - 1) && RowsUpTo(odd, 1, i)
    {
      NextRow(i);
      SetRow(odd, i, row, 1);
      row := Double(row);
      i := i + 1;
    }
    RowsAll(odd, 1);
  }

  lemma FirstRow()
    ensures StepN(1, Unit(0)) == 0xedb88320 && Unit(0) == 1
  {
    assert Odd(1) && Half(1) == 0;
    XorZero(POLY);
    assert StepN(0, 1) == 1;
  }

  lemma NextRow(i: nat)
    requires 0 < i < 32
    ensures StepN(1, Unit(i)) == Unit(i - 1) && Unit(i) == Double(Unit(i - 1))
  {
    hide Double, Step;
    UnitWithin(i - 1);
    HighClear(Unit(i - 1), 32 - i);
    StepDouble(Unit(i - 1));
    assert StepN(0, Unit(i)) == Unit(i);
  }

  /** Bit `i` has room for the shifts to come. */
  lemma {:induction false} UnitWithin(i: nat)
    requires i <= 31
    ensures Within(Unit(i), 31 - i)
  {
    hide Double, Room;
    if i == 0 {
      OneWithin();
    } else {
      UnitWithin(i - 1);
      DoubleWithin(Unit(i - 1), 31 - i);
    }
  }

  lemma OneWithin()
    ensures Within(1, 31)
  {
    hide Half;
    HalvedOnes();
    RoomOn(0);
    RoomOn(8);
    RoomOn(16);
    assert Room(0) == 0xffffffff;
    SevenHalves();
    assert Room(26) == Half(Half(Room(24)));
    assert Room(28) == Half(Half(Room(26)));
    assert Room(30) == Half(Half(Room(28)));
  }

  lemma SevenHalves()
    ensures Half(Half(Half(Half(Half(Half(Half(0xff))))))) == 1
  {
  }

  lemma DoubleWithin(c: bv32, i: nat)
    requires Within(c, i + 1)
    ensures Within(Double(c), i)
  {
  }

  lemma HighClear(c: bv32, i: nat)
    requires i > 0 && Within(c, i)
    ensures c & 0x80000000 == 0
  {
    RoomShrinks(i);
  }

  lemma RoomShrinks(i: nat)
    requires i > 0
    ensures Room(i) <= 0x7fffffff
  {
    hide Half;
    HalfLess(Room(i - 1));
  }

  lemma HalfLess(c: bv32)
    ensures Half(c) <= 0x7fffffff
  {
  }

  lemma StepDouble(c: bv32)
    requires c & 0x80000000 == 0
    ensures Step(Double(c)) == c
  {
  }

  /** What is left of a length after its lowest bit. */
  lemma HalvedLength(len: nat, w: nat)
    ensures len * w == len / 2 * (2 * w) + (len % 2) * w
  {
  }

  /** Applies the next bit of the length: `w` zero bytes, if it is set.  `squared` gets the
      matrix of twice as many zero bits as `mat`. */
  method NextBit(squared: array<bv32>, mat: array<bv32>, len: nat, crc: bv32, ghost w: nat, ghost total: nat,
                 ghost crc0: bv32)
    returns (len': nat, crc': bv32)
    requires Rows(mat, 4 * w) && squared.Length == 32 && squared != mat && len > 0
    requires len * w <= total && crc == StepN(8 * (total - len * w), crc0)
    modifies squared
    ensures Rows(squared, 8 * w) && len' == len / 2
    ensures len' * (2 * w) <= total && crc' == StepN(8 * (total - len' * (2 * w)), crc0)
  {
    hide *;
    HalvedLength(len, w);
    Square(squared, mat, 4 * w);
    crc' := crc;
    if len % 2 == 1 {
      crc' := Times(squared, crc, 8 * w);
      StepNAdd(8 * w, 8 * (total - len * w), crc0);
    }
    len' := len / 2;
  }

  /** crc32_combine_: two matrices take turns at being the square of the other, one for every
      bit of the length. */
  method Combine(crc1: bv32, crc2: bv32, len2: int) returns (r: bv32)
    ensures len2 <= 0 ==> r == crc1
    ensures len2 > 0 ==> r == Xor(StepN(8 * len2, crc1), crc2)
  {
    hide *;
    if len2 <= 0 {
      return crc1;
    }
    var even, odd := new bv32[32], new bv32[32];
    OneZeroBit(odd);
    Square(even, odd, 1);
    Square(odd, even, 2);
    var len: nat, crc := len2, crc1;
    ghost var w: nat := 1;
    StepNNone(crc);
    while true
      invariant len > 0 && len * w <= len2 && crc == StepN(8 * (len2 - len * w), crc1)
      invariant Rows(odd, 4 * w) && even.Length == 32 && odd.Length == 32 && even != odd
      decreases len
    {
      len, crc := NextBit(even, odd, len, crc, w, len2, crc1);
      w := 2 * w;
      if len == 0 {
        break;
      }
      len, crc := NextBit(odd, even, len, crc, w, len2, crc1);
      w := 2 * w;
      if len == 0 {
        break;
      }
    }
    assert len * w == 0;
    r := Xor(crc, crc2);
  }

  /** The CRC of two messages one after the other, from their CRCs and the length of the
      second. */
  method CombineParts(s: seq<bv8>, t: seq<bv8>, crc1: bv32, crc2: bv32) returns (r: bv32)
    requires crc1 == Crc(0, s) && crc2 == Crc(0, t)
    ensures r == Crc(0, s + t)
  {
    hide *;
    CrcOfParts(s, t);
    r := Combine(crc1, crc2, |t|);
    if |t| == 0 {
      NothingMore(s, t);
    }
  }

  lemma NothingMore(s: seq<bv8>, t: seq<bv8>)
    requires |t| == 0
    ensures Crc(0, s + t) == Crc(0, s)
  {
    assert s + t == s;
  }
}
