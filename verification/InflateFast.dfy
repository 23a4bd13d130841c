/** inflate_fast: decodes as long as at least 6 bytes of input and 258 bytes of room are
    left, without checking for either inside the loop. */
module InflateFast {
  import opened Arith
  import opened DecodeTable
  import opened BitReader
  import opened DeflateFormat
  import opened InflateItems
  import opened InflateProgress
  import opened SymbolDecode
  import opened InflateWindow
  import opened MatchCopy

  /** The accumulator is right and fits 32 bits; `used` bits have been used since byte
      `next0` was next and `bits0` bits were held, and no more than 6 bytes read. */
  ghost predicate Reading(input: seq<Byte>, next0: nat, bits0: nat, used: nat, b: Bits) {
    && Holding(input, b.next, b.hold, b.bits) && b.bits <= 32 && b.bits <= 8 * b.next
    && 8 * b.next - b.bits == 8 * next0 - bits0 + used
    && next0 <= b.next <= next0 + 6
  }

  /** `hold += *in++ << bits`, for a byte that is known to be there. */
  method TakeByte(avail: seq<Byte>, ghost input: seq<Byte>, b0: Bits, ghost next0: nat, ghost bits0: nat,
                  ghost used: nat)
    returns (b: Bits)
    requires Reading(input, next0, bits0, used, b0) && b0.bits <= 24 && b0.next < next0 + 6 <= |avail| && avail <= input
    ensures Reading(input, next0, bits0, used, b) && b.bits == b0.bits + 8 && b.next == b0.next + 1
  {
    Pulled(input, b0.next, b0.hold, b0.bits);
    b := Bits(b0.next + 1, Join(b0.hold, avail[b0.next], b0.bits), b0.bits + 8);
  }

  /** Makes sure of 15 bits, taking two bytes if need be. */
  method Ensure15(avail: seq<Byte>, ghost input: seq<Byte>, b0: Bits, ghost next0: nat, ghost bits0: nat,
                  ghost used: nat)
    returns (b: Bits)
    requires Reading(input, next0, bits0, used, b0) && next0 + 6 <= |avail| && avail <= input
    requires b0.bits < 15 ==> b0.next + 2 <= next0 + 6
    ensures Reading(input, next0, bits0, used, b) && 15 <= b.bits <= Max(b0.bits, 30)
    ensures b.next == if b0.bits < 15 then b0.next + 2 else b0.next
  {
    b := b0;
    if b.bits < 15 {
      b := TakeByte(avail, input, b, next0, bits0, used);
      b := TakeByte(avail, input, b, next0, bits0, used);
    }
  }

  /** Drops `n` bits. */
  method Drop(ghost input: seq<Byte>, b0: Bits, n: nat, ghost next0: nat, ghost bits0: nat, ghost used: nat)
    returns (b: Bits)
    requires Reading(input, next0, bits0, used, b0) && n <= b0.bits
    ensures Reading(input, next0, bits0, used + n, b)
    ensures b.bits == b0.bits - n && b.next == b0.next && b.hold == High(b0.hold, n)
  {
    Dropped(input, b0.next, b0.hold, b0.bits, n);
    b := Bits(b0.next, High(b0.hold, n), b0.bits - n);
  }

  /** The lookup with 15 bits at hand: one step, or two through a link. */
  method FastSymbol(T: seq<Entry>, root: nat, ghost kind: CodeType, ghost lens: seq<nat>,
                    ghost input: seq<Byte>, b0: Bits, ghost next0: nat, ghost bits0: nat, ghost used: nat)
    returns (here: Entry, b: Bits, ghost e: Entry)
    requires Decodes(T, root, kind, lens)
    requires Reading(input, next0, bits0, used, b0) && 15 <= b0.bits
    ensures Searchable(T, root) && b0.bits <= 8 * b0.next
    ensures e == Lookup(T, root, From(input, Pos(b0.next, b0.bits)))
    ensures here.op == e.op && here.val == e.val && 0 < e.bits <= 15
    ensures Reading(input, next0, bits0, used + e.bits, b)
    ensures b.next == b0.next && b.bits == b0.bits - e.bits
  {
    hide *;
    MaySearch(T, root, kind, lens);
    FirstStep(T, root, kind, lens, input, b0, next0, bits0, used);
    e := Lookup(T, root, From(input, Pos(b0.next, b0.bits)));
    here := T[Low(b0.hold, root)];
    b := Drop(input, b0, here.bits, next0, bits0, used);
    // links have neither bit 4 (length) nor bit 6 set; every other entry but a literal has one
    if IsPointer(here) {
      ghost var last := here;
      here := T[here.val + Low(b.hold, here.op)];
      b := Drop(input, b, here.bits, next0, bits0, used + last.bits);
    }
  }

  lemma FirstStep(T: seq<Entry>, root: nat, kind: CodeType, lens: seq<nat>, input: seq<Byte>, b: Bits,
                  next0: nat, bits0: nat, used: nat)
    requires Decodes(T, root, kind, lens) && Searchable(T, root)
    requires Reading(input, next0, bits0, used, b) && 15 <= b.bits
    ensures b.bits <= 8 * b.next
    ensures var e := Lookup(T, root, From(input, Pos(b.next, b.bits)));
            && 0 < e.bits <= 15 && Low(b.hold, root) < |T|
            && var e1 := T[Low(b.hold, root)];
               && e1.bits <= 15
               && (if !IsPointer(e1) then e1 == e
                   else
                     && e1.val + Low(High(b.hold, e1.bits), e1.op) < |T|
                     && var e2 := T[e1.val + Low(High(b.hold, e1.bits), e1.op)];
                        e == Entry(e2.op, e1.bits + e2.bits, e2.val))
  {
    hide Low, High, Pow2, Decodes, From;
    var x := From(input, Pos(b.next, b.bits));
    PartialLookup(T, root, kind, lens, x, b.bits);
    Shape(T, root, kind, lens, b.hold);
    Shape(T, root, kind, lens, x);
  }

  /** What is left of the stream after `n` more bits. */
  lemma FromOn(input: seq<Byte>, pos: nat, n: nat)
    ensures From(input, pos + n) == High(From(input, pos), n)
  {
    HighHigh(Stream(input), pos, n);
  }

  /** Reads `n` extra bits, of which enough are held. */
  method Extra(ghost input: seq<Byte>, b0: Bits, n: nat, ghost next0: nat, ghost bits0: nat, ghost used: nat)
    returns (v: nat, b: Bits)
    requires Reading(input, next0, bits0, used, b0) && n <= b0.bits
    ensures Reading(input, next0, bits0, used + n, b)
    ensures b.bits == b0.bits - n && b.next == b0.next
    ensures v == Low(From(input, Pos(b0.next, b0.bits)), n)
  {
    v := Low(b0.hold, n);
    Peeked(input, b0.next, b0.hold, b0.bits, n);
    b := Drop(input, b0, n, next0, bits0, used);
  }

  /** The length of a match, once its code entry `here` is read. */
  method LengthPart(avail: seq<Byte>, ghost input: seq<Byte>, here: Entry, b0: Bits, ghost next0: nat,
                    ghost bits0: nat, ghost used: nat)
    returns (len: nat, b: Bits)
    requires Reading(input, next0, bits0, used, b0) && next0 + 6 <= |avail| && avail <= input
    requires 16 <= here.op <= 21 && used <= 15 && b0.bits <= 30
    ensures Reading(input, next0, bits0, used + (here.op - 16), b) && b.bits <= 30
    ensures len == here.val + Low(From(input, Pos(b0.next, b0.bits)), here.op - 16)
  {
    hide *;
    ReadingMeans(input, next0, bits0, used, b0);
    NoBits(From(input, Pos(b0.next, b0.bits)));
    len, b := here.val, b0;
    var op := here.op % 16;
    if op != 0 {
      if b.bits < op {
        b := TakeByte(avail, input, b, next0, bits0, used);
      }
      ReadingMeans(input, next0, bits0, used, b);
      var v;
      v, b := Extra(input, b, op, next0, bits0, used);
      len := len + v;
    }
  }

  lemma ReadingMeans(input: seq<Byte>, next0: nat, bits0: nat, used: nat, b: Bits)
    requires Reading(input, next0, bits0, used, b)
    ensures 8 * b.next - b.bits == 8 * next0 - bits0 + used && b.bits <= 8 * b.next
    ensures Pos(b.next, b.bits) == 8 * b.next - b.bits
  {
  }

  /** The distance of a match, once its code entry `here` is read. */
  method DistancePart(avail: seq<Byte>, ghost input: seq<Byte>, here: Entry, b0: Bits, ghost next0: nat,
                      ghost bits0: nat, ghost used: nat)
    returns (dist: nat, b: Bits)
    requires Reading(input, next0, bits0, used, b0) && next0 + 6 <= |avail| && avail <= input
    requires 16 <= here.op <= 29 && used <= 35 && b0.bits <= 30
    ensures Reading(input, next0, bits0, used + (here.op - 16), b) && b.bits <= 30
    ensures dist == here.val + Low(From(input, Pos(b0.next, b0.bits)), here.op - 16)
  {
    hide *;
    b := b0;
    ReadingMeans(input, next0, bits0, used, b);
    var op := here.op % 16;
    if b.bits < op {
      b := TakeByte(avail, input, b, next0, bits0, used);
      ReadingMeans(input, next0, bits0, used, b);
      if b.bits < op {
        b := TakeByte(avail, input, b, next0, bits0, used);
      }
    }
    ReadingMeans(input, next0, bits0, used, b);
    var v;
    v, b := Extra(input, b, op, next0, bits0, used);
    dist := here.val + v;
  }

  /** The tables in use: for literals and lengths, and for distances. */
  datatype Tables = Tables(lcode: seq<Entry>, lenbits: nat, dcode: seq<Entry>, distbits: nat)

  ghost predicate ForCodes(t: Tables, c: Codes) {
    && GoodCodes(c)
    && Decodes(t.lcode, t.lenbits, LENS, c.lit)
    && Decodes(t.dcode, t.distbits, DISTS, c.dist)
  }

  /** A match of length `len`, begun `used` bits ago and read on from `b0`, has been read
      to its end; or its distance code was no good. */
  ghost predicate DistanceRead(c: Codes, input: seq<Byte>, len: nat, b0: Bits, next0: nat, bits0: nat,
                               used: nat, item: Item, b: Bits) {
    && GoodCodes(c) && b0.bits <= 8 * b0.next
    && var sp := SpellDistance(c, From(input, Pos(b0.next, b0.bits)), len, used);
       && item == sp.item && b.bits <= 30
       && (if item.Match? then item.len == len && 0 < item.dist && used <= sp.bits
                               && Reading(input, next0, bits0, sp.bits, b)
           else
             && item.BadDistance? && Holding(input, b.next, b.hold, b.bits) && next0 <= b.next <= next0 + 6
             && b.bits <= 8 * b.next && 8 * next0 - bits0 + used <= 8 * b.next - b.bits)
  }

  lemma MatchRead(t: Tables, c: Codes, input: seq<Byte>, len: nat, b0: Bits, next0: nat, bits0: nat,
                  used: nat, e: Entry, dist: nat, b: Bits)
    requires ForCodes(t, c) && b0.bits <= 8 * b0.next && Searchable(t.dcode, t.distbits)
    requires e == Lookup(t.dcode, t.distbits, From(input, Pos(b0.next, b0.bits))) && 16 <= e.op <= 29
    requires dist == e.val + Low(From(input, Pos(b0.next, b0.bits) + e.bits), e.op - 16)
    requires Reading(input, next0, bits0, used + e.bits + (e.op - 16), b) && b.bits <= 30
    ensures DistanceRead(c, input, len, b0, next0, bits0, used, Match(len, dist), b)
  {
    hide From, Decodes, Lookup, Low, High, SpellDistance, GoodCodes, Reading;
    DistEntry(t.dcode, t.distbits, c, From(input, Pos(b0.next, b0.bits)), len, used);
    FromOn(input, Pos(b0.next, b0.bits), e.bits);
  }

  lemma NoDistance(t: Tables, c: Codes, input: seq<Byte>, len: nat, b0: Bits, next0: nat, bits0: nat,
                   used: nat, e: Entry, n: nat, b: Bits)
    requires ForCodes(t, c) && b0.bits <= 8 * b0.next && Searchable(t.dcode, t.distbits)
    requires e == Lookup(t.dcode, t.distbits, From(input, Pos(b0.next, b0.bits))) && !(16 <= e.op <= 29)
    requires Reading(input, next0, bits0, n, b) && b.bits <= 30 && used <= n
    ensures DistanceRead(c, input, len, b0, next0, bits0, used, BadDistance, b)
  {
    hide From, Decodes, Lookup, Low, High, SpellDistance, GoodCodes;
    DistEntry(t.dcode, t.distbits, c, From(input, Pos(b0.next, b0.bits)), len, used);
  }

  /** The tests on `op` for the entries there are. */
  lemma DistOps(t: Tables, c: Codes, x: nat)
    requires ForCodes(t, c) && Searchable(t.dcode, t.distbits)
    ensures var e := Lookup(t.dcode, t.distbits, x);
            && (e.op == 64 || 16 <= e.op <= 29)
            && (Bit(e.op, 4) <==> 16 <= e.op <= 29) && (Bit(e.op, 6) <==> e.op == 64)
  {
    hide Lookup, Decodes, GoodCodes, Bit, SpellDistance, Searchable;
    DistEntry(t.dcode, t.distbits, c, x, 0, 0);
    BitTests(Lookup(t.dcode, t.distbits, x).op);
  }

  lemma LitOps(t: Tables, c: Codes, x: nat)
    requires ForCodes(t, c) && Searchable(t.lcode, t.lenbits)
    ensures var e := Lookup(t.lcode, t.lenbits, x);
            && (e.op == 0 || e.op == 96 || e.op == 64 || e.op == 77 || e.op == 202 || 16 <= e.op <= 21)
            && (Bit(e.op, 4) <==> 16 <= e.op <= 21)
            && (Bit(e.op, 5) <==> e.op == 96)
            && (Bit(e.op, 6) <==> e.op != 0 && !(16 <= e.op <= 21))
  {
    hide Lookup, Decodes, GoodCodes, Bit, Spell, SpellDistance, Searchable;
    LitEntry(t.lcode, t.lenbits, c, x);
    BitTests(Lookup(t.lcode, t.lenbits, x).op);
  }

  /** The second half of a match of length `len`, which took `used` bits so far. */
  method FastDistance(t: Tables, ghost c: Codes, avail: seq<Byte>, ghost input: seq<Byte>, len: nat, b0: Bits,
                      ghost next0: nat, ghost bits0: nat, ghost used: nat)
    returns (item: Item, b: Bits)
    requires ForCodes(t, c) && next0 + 6 <= |avail| && avail <= input
    requires Reading(input, next0, bits0, used, b0) && used <= 20 && b0.bits <= 30
    ensures DistanceRead(c, input, len, b0, next0, bits0, used, item, b)
  {
    hide DistanceRead, Decodes, Lookup, Low, High, From, Bit, Holding, GoodCodes, Searchable;
    b := Ensure15(avail, input, b0, next0, bits0, used);
    ghost var b1 := b;
    assert Pos(b1.next, b1.bits) == Pos(b0.next, b0.bits);
    var here;
    ghost var e;
    here, b, e := FastSymbol(t.dcode, t.distbits, DISTS, c.dist, input, b, next0, bits0, used);
    DistOps(t, c, From(input, Pos(b1.next, b1.bits)));
    if Bit(here.op, 4) {
      var dist;
      dist, b := DistancePart(avail, input, here, b, next0, bits0, used + e.bits);
      MatchRead(t, c, input, len, b0, next0, bits0, used, e, dist, b);
      item := Match(len, dist);
    } else {
      NoDistance(t, c, input, len, b0, next0, bits0, used, e, used + e.bits, b);
      item := BadDistance;
    }
  }

  /** `item` is what the stream spells out from `b0` on, its first code of `first` bits, and
      `b` is where it ends. */
  ghost predicate ItemRead(c: Codes, input: seq<Byte>, b0: Bits, first: nat, item: Item, b: Bits) {
    && GoodCodes(c) && b0.bits <= 8 * b0.next
    && Holding(input, b.next, b.hold, b.bits) && b.bits <= 30
    && b0.next <= b.next <= b0.next + 6
    && b.bits <= 8 * b.next && 8 * b0.next - b0.bits + first <= 8 * b.next - b.bits
    && var sp := Spell(c, From(input, Pos(b0.next, b0.bits)));
       && item == sp.item
       && (item.Literal? || item.Match? || item.EndOfBlock? ==>
           Pos(b.next, b.bits) == Pos(b0.next, b0.bits) + sp.bits)
       && (item.Match? ==> 3 <= item.len <= 258 && 0 < item.dist)
  }

  /** An item that is no match. */
  lemma PlainRead(t: Tables, c: Codes, input: seq<Byte>, b0: Bits, e: Entry, b: Bits)
    requires ForCodes(t, c) && b0.bits <= 8 * b0.next && Searchable(t.lcode, t.lenbits)
    requires e == Lookup(t.lcode, t.lenbits, From(input, Pos(b0.next, b0.bits))) && !(16 <= e.op <= 21)
    requires Reading(input, b0.next, b0.bits, e.bits, b) && b.bits <= 30
    ensures e.op == 0 ==> e.val < 256
    ensures ItemRead(c, input, b0, e.bits,
                     if e.op == 0 then Literal(e.val) else if e.op == 96 then EndOfBlock else BadLength, b)
  {
    hide From, Decodes, Lookup, Low, High, Spell, GoodCodes;
    LitEntry(t.lcode, t.lenbits, c, From(input, Pos(b0.next, b0.bits)));
  }

  /** What follows the length of a match. */
  lemma SpellsAt(t: Tables, c: Codes, input: seq<Byte>, pos: nat, e: Entry, len: nat)
    requires ForCodes(t, c) && Searchable(t.lcode, t.lenbits)
    requires e == Lookup(t.lcode, t.lenbits, From(input, pos)) && 16 <= e.op <= 21
    requires len == e.val + Low(From(input, pos + e.bits), e.op - 16)
    ensures 3 <= len <= 258
    ensures Spell(c, From(input, pos))
         == SpellDistance(c, From(input, pos + (e.bits + (e.op - 16))), len, e.bits + (e.op - 16))
  {
    hide From, Decodes, Lookup, Low, High, Spell, SpellDistance, GoodCodes, Searchable;
    LitEntry(t.lcode, t.lenbits, c, From(input, pos));
    FromOn(input, pos, e.bits);
    FromOn(input, pos + e.bits, e.op - 16);
  }

  /** A match is read when its distance is. */
  lemma LengthRead(c: Codes, input: seq<Byte>, b0: Bits, first: nat, used: nat, len: nat, b1: Bits, item: Item, b: Bits)
    requires GoodCodes(c) && b0.bits <= 8 * b0.next && 3 <= len <= 258 && first <= used
    requires Spell(c, From(input, Pos(b0.next, b0.bits)))
          == SpellDistance(c, From(input, Pos(b0.next, b0.bits) + used), len, used)
    requires Reading(input, b0.next, b0.bits, used, b1)
    requires DistanceRead(c, input, len, b1, b0.next, b0.bits, used, item, b)
    ensures ItemRead(c, input, b0, first, item, b)
  {
    hide From, Spell, SpellDistance, GoodCodes, Holding;
    assert Pos(b1.next, b1.bits) == Pos(b0.next, b0.bits) + used;
  }

  lemma PosStays(input: seq<Byte>, next0: nat, bits0: nat, used: nat, b: Bits)
    requires Reading(input, next0, bits0, used, b) && bits0 <= 8 * next0
    ensures b.bits <= 8 * b.next && Pos(b.next, b.bits) == Pos(next0, bits0) + used
  {
  }

  /** A match, after its length code `here`. */
  method FastMatch(t: Tables, ghost c: Codes, avail: seq<Byte>, ghost input: seq<Byte>, ghost b0: Bits,
                   here: Entry, ghost e: Entry,
                   b1: Bits)
    returns (item: Item, b: Bits)
    requires ForCodes(t, c) && GoodCodes(c) && b0.next + 6 <= |avail| && avail <= input
    requires b0.bits <= 8 * b0.next && Searchable(t.lcode, t.lenbits)
    requires e == Lookup(t.lcode, t.lenbits, From(input, Pos(b0.next, b0.bits))) && 16 <= e.op <= 21
    requires here.op == e.op && here.val == e.val && e.bits <= 15
    requires Reading(input, b0.next, b0.bits, e.bits, b1) && b1.bits <= 30
    ensures ItemRead(c, input, b0, e.bits, item, b)
  {
    hide *;
    ghost var pos := Pos(b0.next, b0.bits);
    PosStays(input, b0.next, b0.bits, e.bits, b1);
    var len;
    len, b := LengthPart(avail, input, here, b1, b0.next, b0.bits, e.bits);
    SpellsAt(t, c, input, pos, e, len);
    ghost var b2 := b;
    item, b := FastDistance(t, c, avail, input, len, b, b0.next, b0.bits, e.bits + (e.op - 16));
    LengthRead(c, input, b0, e.bits, e.bits + (e.op - 16), len, b2, item, b);
  }

  /** The next item of the stream, read without checking for the end of the input. */
  method FastItem(t: Tables, ghost c: Codes, avail: seq<Byte>, ghost input: seq<Byte>, b0: Bits)
    returns (item: Item, b: Bits)
    requires ForCodes(t, c) && b0.next + 6 <= |avail| && avail <= input
    requires Holding(input, b0.next, b0.hold, b0.bits) && b0.bits <= 30 && b0.bits <= 8 * b0.next
    ensures Searchable(t.lcode, t.lenbits)
    ensures ItemRead(c, input, b0, Lookup(t.lcode, t.lenbits, From(input, Pos(b0.next, b0.bits))).bits, item, b)
  {
    hide ItemRead, Decodes, Lookup, Low, High, From, Bit, Holding, GoodCodes, Searchable, DistanceRead;
    ghost var next0, bits0 := b0.next, b0.bits;
    b := Ensure15(avail, input, b0, next0, bits0, 0);
    ghost var b1 := b;
    assert Pos(b1.next, b1.bits) == Pos(b0.next, b0.bits);
    var here;
    ghost var e;
    here, b, e := FastSymbol(t.lcode, t.lenbits, LENS, c.lit, input, b, next0, bits0, 0);
    LitOps(t, c, From(input, Pos(b1.next, b1.bits)));
    if Bit(here.op, 4) {
      item, b := FastMatch(t, c, avail, input, b0, here, e, b);
    } else {
      PlainRead(t, c, input, b0, e, b);
      item := if here.op == 0 then Literal(here.val) else if Bit(here.op, 5) then EndOfBlock else BadLength;
    }
  }

  // ----- The loop ---------------------------------------------------------------------------------

  /** The number of bits of the first code of the stream from `b` on. */
  ghost function FirstBits(t: Tables, input: seq<Byte>, b: Bits): nat {
    if Searchable(t.lcode, t.lenbits) && b.bits <= 8 * b.next then
      Lookup(t.lcode, t.lenbits, From(input, Pos(b.next, b.bits))).bits
    else 0
  }

  /** Between items, having read on from `b0`: the bytes before `b0.next` are used up but for
      fewer than 8 bits, once an item has been read. */
  ghost predicate Between(c: Codes, input: seq<Byte>, r: Trace, next0: nat, begun: bool, b: Bits, total: seq<Byte>) {
    && Decoding(c, input, r, State(LEN, b, 0, 0, 0), total) && b.bits <= 30 && next0 <= b.next
    && (begun ==> 8 * next0 + b.bits < 8 * b.next + 8)
  }

  lemma BetweenMeans(c: Codes, input: seq<Byte>, r: Trace, next0: nat, begun: bool, b: Bits, total: seq<Byte>)
    requires Between(c, input, r, next0, begun, b, total)
    ensures Holding(input, b.next, b.hold, b.bits) && b.bits <= 30 && b.bits <= 8 * b.next && next0 <= b.next
  {
  }

  /** How the loop ends: between items, or with an item that ends the block or is no good. */
  ghost predicate Ended(c: Codes, input: seq<Byte>, r: Trace, next0: nat, whave: nat, put: nat, s: State,
                        total: seq<Byte>) {
    && Decoding(c, input, r, s, total) && (s.mode == LEN || s.mode == TYPE || s.mode == BAD)
    && 8 * next0 + s.b.bits < 8 * s.b.next + 8 && s.b.bits <= 30
    && (s.mode == BAD && Spell(c, From(input, r.here.pos)).item.Match? ==> s.offset > whave + put)
  }

  lemma NotFirst(c: Codes, input: seq<Byte>, r: Trace, next0: nat, begun: bool, b0: Bits, total: seq<Byte>,
                 first: nat, item: Item, b: Bits)
    requires Between(c, input, r, next0, begun, b0, total) && ItemRead(c, input, b0, first, item, b)
    requires begun || (b0.next == next0 && b0.bits < first + 8)
    ensures 8 * next0 + b.bits < 8 * b.next + 8 && b.bits <= 30 && next0 <= b.next <= b0.next + 6
  {
    hide Decoding, From, Spell, Holding, GoodCodes;
  }

  /** An item that leads on. */
  lemma ReadOn(c: Codes, input: seq<Byte>, r: Trace, next0: nat, begun: bool, b0: Bits, total: seq<Byte>,
               first: nat, item: Item, b: Bits, total': seq<Byte>)
    requires Between(c, input, r, next0, begun, b0, total) && ItemRead(c, input, b0, first, item, b)
    requires begun || (b0.next == next0 && b0.bits < first + 8)
    requires Emits(item, total, total')
    ensures b.bits <= 8 * b.next
    ensures Between(c, input, Trace(r.start, r.items + 1, Progress(Pos(b.next, b.bits), total')), next0, true, b,
                total')
  {
    NotFirst(c, input, r, next0, begun, b0, total, first, item, b);
    hide From, Spell, Holding, GoodCodes, After, CopyBack;
    Onward(c, input, r, Pos(b.next, b.bits), total');
  }

  /** The state after an item that ends the loop. */
  function LastState(item: Item, b: Bits): (s: State)
    ensures s.b == b && s.mode != LEN
  {
    if item.Match? then State(BAD, b, item.len, item.dist, 0)
    else State(if item.EndOfBlock? then TYPE else BAD, b, 0, 0, 0)
  }

  /** An item that ends the loop. */
  lemma ReadLast(c: Codes, input: seq<Byte>, r: Trace, next0: nat, begun: bool, b0: Bits, total: seq<Byte>,
                 first: nat, item: Item, b: Bits, whave: nat, put: nat)
    requires Between(c, input, r, next0, begun, b0, total) && ItemRead(c, input, b0, first, item, b)
    requires begun || (b0.next == next0 && b0.bits < first + 8)
    requires item.EndOfBlock? || item.BadLength? || item.BadDistance? || (item.Match? && item.dist > whave + put)
    ensures Ended(c, input, r, next0, whave, put, LastState(item, b), total)
  {
    hide Decoding, From, Spell, Holding;
    NotFirst(c, input, r, next0, begun, b0, total, first, item, b);
    LastInHand(c, input, r, b0, total, first, item, b);
  }

  lemma LastInHand(c: Codes, input: seq<Byte>, r: Trace, b0: Bits, total: seq<Byte>, first: nat, item: Item, b: Bits)
    requires Decoding(c, input, r, State(LEN, b0, 0, 0, 0), total) && ItemRead(c, input, b0, first, item, b)
    requires item.EndOfBlock? || item.BadLength? || item.BadDistance? || item.Match?
    ensures Decoding(c, input, r, LastState(item, b), total)
    ensures item == Spell(c, From(input, r.here.pos)).item
  {
    hide From, Spell, SpellDistance, Holding, Follows, CopyBack, Low, Pow2, GoodCodes;
  }

  lemma NoMore(c: Codes, input: seq<Byte>, r: Trace, next0: nat, b: Bits, total: seq<Byte>, whave: nat, put: nat)
    requires Between(c, input, r, next0, true, b, total)
    ensures Ended(c, input, r, next0, whave, put, State(LEN, b, 0, 0, 0), total)
  {
    hide From, Spell, Holding, GoodCodes, After, CopyBack, Follows;
  }

  /** Whole unused bytes go back to the input. */
  lemma GivenBack(c: Codes, input: seq<Byte>, r: Trace, next0: nat, whave: nat, put: nat, s: State, total: seq<Byte>)
    requires Ended(c, input, r, next0, whave, put, s, total)
    ensures var len := s.b.bits / 8;
            && next0 <= s.b.next - len && 8 * len <= s.b.bits
            && Ended(c, input, r, next0, whave, put,
                     s.(b := Bits(s.b.next - len, Low(s.b.hold, s.b.bits - 8 * len), s.b.bits - 8 * len)), total)
  {
    hide Decoding, From, Spell, Low, Holding;
    var len := s.b.bits / 8;
    var b := Bits(s.b.next - len, Low(s.b.hold, s.b.bits - 8 * len), s.b.bits - 8 * len);
    BackBits(c, input, r, s, total);
    SameState(c, input, r, s, b, total);
  }

  lemma BackBits(c: Codes, input: seq<Byte>, r: Trace, s: State, total: seq<Byte>)
    requires Decoding(c, input, r, s, total)
    ensures s.b.bits <= 8 * s.b.next
    ensures var len := s.b.bits / 8;
            && 8 * len <= s.b.bits && len <= s.b.next
            && Holding(input, s.b.next - len, Low(s.b.hold, s.b.bits - 8 * len), s.b.bits - 8 * len)
            && 8 * (s.b.next - len) - (s.b.bits - 8 * len) == 8 * s.b.next - s.b.bits
  {
    hide From, InHand, Spell, Follows, Low;
    LowLow(From(input, Pos(s.b.next, s.b.bits)), s.b.bits % 8, s.b.bits);
  }

  lemma SameState(c: Codes, input: seq<Byte>, r: Trace, s: State, b: Bits, total: seq<Byte>)
    requires Decoding(c, input, r, s, total) && Holding(input, b.next, b.hold, b.bits) && b.bits <= 32
    requires 8 * b.next - b.bits == 8 * s.b.next - s.b.bits
    ensures Decoding(c, input, r, s.(b := b), total)
  {
    hide From, InHand, Spell, After, Low, GoodCodes;
    SameHand(c, input, r.here, s, b, total);
  }

  /** Only the position matters for the item in hand. */
  lemma SameHand(c: Codes, input: seq<Byte>, q: Progress, s: State, b: Bits, total: seq<Byte>)
    requires GoodCodes(c) && s.b.bits <= 8 * s.b.next && q.pos <= Pos(s.b.next, s.b.bits)
    requires b.bits <= 8 * b.next && Pos(b.next, b.bits) == Pos(s.b.next, s.b.bits)
    requires InHand(c, input, q, s, total)
    ensures InHand(c, input, q, s.(b := b), total)
  {
    hide From, Spell, SpellDistance, GoodCodes, CopyBack, PartCopied, Low;
  }

  lemma CopiedAll(w: Window, o: seq<Byte>, dist: nat, n: nat, g: seq<Byte>)
    requires w.Valid() && Extends(w.History(), o, dist, n, g)
    ensures Emits(Match(n, dist), w.supplied + o, w.supplied + g)
  {
    hide Last, CopyBack, InOrder;
    Remembered(w.supplied, w.wsize, o, dist, n, g);
  }

  /** Writes out a literal or copies a match; or finds that it reaches too far back. */
  method Emit(w: Window, out: array<Byte>, put: nat, item: Item) returns (ok: bool, put': nat)
    requires w.Valid() && out != w.data && put + 258 <= out.Length
    requires item.Literal? || (item.Match? && 3 <= item.len <= 258 && item.dist > 0)
    modifies out
    ensures ok <==> item.Match? ==> item.dist <= w.whave + put
    ensures !ok ==> out[..] == old(out[..]) && put' == put
    ensures ok ==> put < put' <= put + 258
    ensures ok ==> Emits(item, w.supplied + old(out[..][..put]), w.supplied + out[..][..put'])
  {
    hide CopyBack, Extends, Window.Valid, Window.Shape, Window.History;
    ok, put' := true, put;
    ghost var o := out[..][..put];
    if item.Literal? {
      out[put] := item.b;
      put' := put + 1;
      assert out[..][..put'] == o + [item.b];
      assert w.supplied + (o + [item.b]) == (w.supplied + o) + [item.b];
    } else {
      MeansShape(w);
      if item.dist > put && item.dist - put > w.whave {
        ok := false;
        return;
      }
      CopyFast(w, out, put, item.len, item.dist);
      put' := put + item.len;
      CopiedAll(w, o, item.dist, item.len, out[..][..put']);
    }
  }

  lemma MeansShape(w: Window)
    requires w.Valid()
    ensures w.Shape()
  {
  }

  lemma LitTable(t: Tables, c: Codes, input: seq<Byte>, b: Bits)
    requires ForCodes(t, c) && b.bits <= 8 * b.next
    ensures Searchable(t.lcode, t.lenbits)
    ensures FirstBits(t, input, b) == Lookup(t.lcode, t.lenbits, From(input, Pos(b.next, b.bits))).bits
  {
    MaySearch(t.lcode, t.lenbits, LENS, c.lit);
  }

  /** inflate_fast.  Runs when 6 bytes of input and 258 bytes of room are there, and at most
      7 of the bits held are not part of the next code; `avail` is the input that has
      arrived.  It never reads past that, and gives no byte back that it did not take. */
  method DecodeFast(t: Tables, ghost c: Codes, w: Window, avail: seq<Byte>, ghost input: seq<Byte>,
                     out: array<Byte>, put0: nat, b0: Bits, ghost r0: Trace)
    returns (s: State, put: nat, ghost r: Trace)
    requires ForCodes(t, c) && w.Valid() && out != w.data && avail <= input
    requires b0.next + 6 <= |avail| && put0 + 258 <= out.Length
    requires b0.bits <= 30 && b0.bits < FirstBits(t, input, b0) + 8
    requires Decoding(c, input, r0, State(LEN, b0, 0, 0, 0), w.supplied + out[..][..put0])
    modifies out
    ensures put0 <= put <= out.Length
    ensures Ended(c, input, r, b0.next, w.whave, put, s, w.supplied + out[..][..put])
    ensures s.b.next <= |avail| && s.b.bits < 8 && r.start == r0.start && r0.items <= r.items
    ensures s.mode == LEN ==> put0 < put && (|avail| < s.b.next + 3 + 6 || out.Length < put + 258)
    ensures GoodCodes(c) && Reached(c, input, r.start, r0.items, r.items, |w.supplied|, w.whave)
  {
    hide *;
    var b := b0;
    put, r := put0, r0;
    CodesOf(t, c);
    ReachedNone(c, input, r.start, r.items, |w.supplied|, w.whave);
    var last, end := |avail| - 5, out.Length - 257;
    ghost var begun := false;
    Entry0(c, input, r0, b0, w.supplied + out[..][..put0]);
    while true
      invariant b.next < last && put < end && put0 <= put && w.Valid()
      invariant Between(c, input, r, b0.next, begun, b, w.supplied + out[..][..put])
      invariant begun || (b == b0 && r == r0)
      invariant begun ==> put0 < put
      invariant r.start == r0.start && r0.items <= r.items
      invariant Reached(c, input, r.start, r0.items, r.items, |w.supplied|, w.whave)
      decreases out.Length - put
    {
      ghost var total, b1 := w.supplied + out[..][..put], b;
      BetweenMeans(c, input, r, b0.next, begun, b, total);
      LitTable(t, c, input, b);
      var item;
      item, b := FastItem(t, c, avail, input, b);
      ghost var first := FirstBits(t, input, b1);
      NotFirst(c, input, r, b0.next, begun, b1, total, first, item, b);
      ItemKind(c, input, b1, first, item, b);
      if item.EndOfBlock? || item.BadLength? || item.BadDistance? {
        ReadLast(c, input, r, b0.next, begun, b1, total, first, item, b, w.whave, put);
        s := LastState(item, b);
        break;
      }
      var ok;
      ghost var was := put;
      ok, put := Emit(w, out, put, item);
      if !ok {
        ReadLast(c, input, r, b0.next, begun, b1, total, first, item, b, w.whave, put);
        s := LastState(item, b);
        break;
      }
      EmittedWithin(c, input, r, b0.next, begun, b1, total, first, item, b, |w.supplied|, was, w.whave);
      ReachedOne(c, input, r.start, r0.items, r.items, |w.supplied|, w.whave);
      ReadOn(c, input, r, b0.next, begun, b1, total, first, item, b, w.supplied + out[..][..put]);
      r, begun := Trace(r.start, r.items + 1, Progress(Pos(b.next, b.bits), w.supplied + out[..][..put])), true;
      if !(b.next < last && put < end) {
        NoMore(c, input, r, b0.next, b, w.supplied + out[..][..put], w.whave, put);
        s := State(LEN, b, 0, 0, 0);
        break;
      }
    }
    GivenBack(c, input, r, b0.next, w.whave, put, s, w.supplied + out[..][..put]);
    var unused := b.bits / 8;
    b := Bits(b.next - unused, Low(b.hold, b.bits - 8 * unused), b.bits - 8 * unused);
    s := s.(b := b);
  }

  lemma CodesOf(t: Tables, c: Codes)
    requires ForCodes(t, c)
    ensures GoodCodes(c)
  {
    hide GoodCodes, Decodes;
  }

  /** A match that was copied did not reach too far back. */
  lemma EmittedWithin(c: Codes, input: seq<Byte>, r: Trace, next0: nat, begun: bool, b0: Bits, total: seq<Byte>,
                      first: nat, item: Item, b: Bits, base: nat, put: nat, whave: nat)
    requires Between(c, input, r, next0, begun, b0, total) && ItemRead(c, input, b0, first, item, b)
    requires |total| == base + put && (item.Match? ==> item.dist <= whave + put)
    ensures GoodCodes(c) && Within(c, input, r.start, r.items, base, whave)
  {
    hide Follows, From, Spell, SpellDistance, Holding, GoodCodes, Within;
    WithinHere(c, input, r, base, whave);
  }

  lemma Entry0(c: Codes, input: seq<Byte>, r: Trace, b: Bits, total: seq<Byte>)
    requires Decoding(c, input, r, State(LEN, b, 0, 0, 0), total) && b.bits <= 30
    ensures Between(c, input, r, b.next, false, b, total)
  {
  }

  lemma ItemKind(c: Codes, input: seq<Byte>, b0: Bits, first: nat, item: Item, b: Bits)
    requires ItemRead(c, input, b0, first, item, b)
    ensures item.Match? ==> 3 <= item.len <= 258 && 0 < item.dist
  {
  }
}
