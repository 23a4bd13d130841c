/** The bit accumulator of inflate: bytes go in at the top, bits come out at the bottom. */
module BitReader {
  import opened Arith

  type Byte = x: nat | x < 256

  /** The accumulator and the input position. */
  datatype Bits = Bits(next: nat, hold: nat, bits: nat)

  /** All of the input as one stream of bits, zeros after its end. */
  function Stream(input: seq<Byte>): nat {
    if input == [] then 0 else input[0] + 256 * Stream(input[1..])
  }

  /** What is left of the stream from bit position `pos` on. */
  function From(input: seq<Byte>, pos: nat): nat {
    High(Stream(input), pos)
  }

  lemma EightBits(b: Byte, y: nat)
    ensures Low(b + 256 * y, 8) == b && High(b + 256 * y, 8) == y
  {
    PowEight();
    assert b + 256 * y == Join(b, y, 8);
    Joined(b, y, 8);
  }

  lemma PowEight()
    ensures Pow2(8) == 256
  {
    assert Pow2(2) == 4 by { assert Pow2(0) == 1; }
    Pow2Add(2, 2);
    Pow2Add(4, 4);
  }

  lemma {:induction false} StreamByte(input: seq<Byte>, i: nat)
    requires i < |input|
    ensures Low(From(input, 8 * i), 8) == input[i]
  {
    EightBits(input[0], Stream(input[1..]));
    if i > 0 {
      StreamByte(input[1..], i - 1);
      hide Low;
      HighHigh(Stream(input), 8, 8 * (i - 1));
    }
  }

  /** The accumulator `hold` has the `bits` bits before byte `next` that are not used yet,
      and nothing above them. */
  ghost predicate Holding(input: seq<Byte>, next: nat, hold: nat, bits: nat) {
    && next <= |input| && bits <= 8 * next
    && hold == Low(From(input, 8 * next - bits), bits)
  }

  /** The next unused bit of the stream. */
  function Pos(next: nat, bits: nat): nat
    requires bits <= 8 * next
  {
    8 * next - bits
  }

  lemma {:induction false} LowMore(x: nat, n: nat, m: nat)
    ensures Low(x, n + m) == Join(Low(x, n), Low(High(x, n), m), n)
  {
    LowHigh(x, n);
    LowHigh(x, n + m);
    LowHigh(High(x, n), m);
    hide Low, High;
    DivDiv(x, n, m);
  }

  /** PULLBYTE: one more byte above the bits already held. */
  lemma Pulled(input: seq<Byte>, next: nat, hold: nat, bits: nat)
    requires Holding(input, next, hold, bits) && next < |input|
    ensures Holding(input, next + 1, Join(hold, input[next], bits), bits + 8)
  {
    hide Low, High, Stream, Join, Pow2;
    var x := From(input, 8 * next - bits);
    LowMore(x, bits, 8);
    HighHigh(Stream(input), 8 * next - bits, bits);
    StreamByte(input, next);
  }

  /** DROPBITS: the lowest `n` bits are used. */
  lemma Dropped(input: seq<Byte>, next: nat, hold: nat, bits: nat, n: nat)
    requires Holding(input, next, hold, bits) && n <= bits
    ensures Holding(input, next, High(hold, n), bits - n)
  {
    hide Low, High, Stream;
    LowLow(From(input, 8 * next - bits), n, bits);
    HighHigh(Stream(input), 8 * next - bits, n);
  }

  /** BITS: the lowest `n` bits are the next ones of the stream. */
  lemma Peeked(input: seq<Byte>, next: nat, hold: nat, bits: nat, n: nat)
    requires Holding(input, next, hold, bits) && n <= bits
    ensures Low(hold, n) == Low(From(input, Pos(next, bits)), n)
  {
    LowLow(From(input, 8 * next - bits), n, bits);
  }

  /** The accumulator fits 32 bits as long as it holds at most 32. */
  lemma HoldFits(input: seq<Byte>, next: nat, hold: nat, bits: nat)
    requires Holding(input, next, hold, bits) && bits <= 32
    ensures hold < 0x1_0000_0000
  {
    hide Pow2, From, High;
    PowEight();
    Pow2Add(8, 8);
    Pow2Add(16, 16);
    Pow2Mono(bits, 32);
  }

  /** The accumulator at bit position `pos`, no whole byte held. */
  function Refill(avail: seq<Byte>, pos: nat): Bits
    requires pos <= 8 * |avail|
  {
    var i, m := pos / 8, pos % 8;
    if m == 0 then Bits(i, 0, 0) else Bits(i + 1, High(avail[i], m), 8 - m)
  }

  lemma RefillHolds(avail: seq<Byte>, input: seq<Byte>, pos: nat)
    requires avail <= input && pos <= 8 * |avail|
    ensures var b := Refill(avail, pos);
            && Holding(input, b.next, b.hold, b.bits) && b.bits < 8 && b.next <= |avail|
            && b.bits <= 8 * b.next && Pos(b.next, b.bits) == pos
  {
    var i, m := pos / 8, pos % 8;
    if m == 0 {
      NoBits(From(input, pos));
    } else {
      StreamByte(input, i);
      HighHigh(Stream(input), 8 * i, m);
      LowLow(From(input, 8 * i), m, 8);
    }
  }
}
