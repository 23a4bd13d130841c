/** Compressed data as RFC 1951 defines it: how literal/length and distance codes spell
    out literals and matches (section 3.2.5), and what those append to the output
    (section 3.2.3).  This is what both of inflate's decoding loops are measured against. */
module DeflateFormat {
  import opened Arith
  import opened CanonicalCode
  import opened DecodeTable
  import opened BitReader

  // ----- Lengths and distances ------------------------------------------------------------

  datatype Range = Range(base: nat, extra: nat)

  /** The lengths of code 257..285: four codes for each number of extra bits, each range
      following on from the one before; 258 has a code of its own. */
  function LengthRange(s: nat): Range
    requires 257 <= s <= 285
  {
    if s < 265 then Range(s - 254, 0)
    else if s < 285 then
      var k := (s - 261) / 4;
      Range((4 + (s - 265) % 4) * Pow2(k) + 3, k)
    else Range(258, 0)
  }

  /** The distances of code 0..29: two codes for each number of extra bits. */
  function DistRange(d: nat): Range
    requires d <= 29
  {
    if d < 4 then Range(d + 1, 0)
    else
      var k := d / 2 - 1;
      Range((2 + d % 2) * Pow2(k) + 1, k)
  }

  lemma SmallPowers()
    ensures Pow2(0) == 1 && Pow2(1) == 2 && Pow2(2) == 4 && Pow2(3) == 8 && Pow2(4) == 16
    ensures Pow2(5) == 32 && Pow2(6) == 64 && Pow2(7) == 128 && Pow2(8) == 256 && Pow2(9) == 512
    ensures Pow2(10) == 1024 && Pow2(11) == 2048 && Pow2(12) == 4096 && Pow2(13) == 8192
  {
  }

  /** The tables in inftrees.c hold these ranges. */
  lemma LengthTables(s: nat)
    requires 257 <= s <= 285
    ensures LengthBase(s - 257) == LengthRange(s).base
    ensures LengthExtra(s - 257) == 16 + LengthRange(s).extra
  {
    hide Pow2, LengthRange, LengthBase, LengthExtra;
    if s < 271 {
      ShortLengths(s);
    } else {
      LongLengths(s);
    }
  }

  lemma ShortLengths(s: nat)
    requires 257 <= s < 271
    ensures LengthBase(s - 257) == LengthRange(s).base
    ensures LengthExtra(s - 257) == 16 + LengthRange(s).extra
  {
    hide Pow2;
    SmallPowers();
  }

  lemma LongLengths(s: nat)
    requires 271 <= s <= 285
    ensures LengthBase(s - 257) == LengthRange(s).base
    ensures LengthExtra(s - 257) == 16 + LengthRange(s).extra
  {
    hide Pow2;
    SmallPowers();
  }

  lemma DistTables(d: nat)
    requires d <= 29
    ensures DistBase(d) == DistRange(d).base
    ensures DistExtra(d) == 16 + DistRange(d).extra
  {
    hide Pow2, DistRange, DistBase, DistExtra;
    if d < 10 {
      NearDistances(d);
    } else if d < 20 {
      MiddleDistances(d);
    } else {
      FarDistances(d);
    }
  }

  lemma NearDistances(d: nat)
    requires d < 10
    ensures DistBase(d) == DistRange(d).base
    ensures DistExtra(d) == 16 + DistRange(d).extra
  {
    hide Pow2;
    SmallPowers();
  }

  lemma MiddleDistances(d: nat)
    requires 10 <= d < 20
    ensures DistBase(d) == DistRange(d).base
    ensures DistExtra(d) == 16 + DistRange(d).extra
  {
    hide Pow2;
    SmallPowers();
  }

  lemma FarDistances(d: nat)
    requires 20 <= d <= 29
    ensures DistBase(d) == DistRange(d).base
    ensures DistExtra(d) == 16 + DistRange(d).extra
  {
    hide Pow2;
    SmallPowers();
  }

  /** The lengths from 3 on, one range after the other: the last but one ends with 258, which has
      a symbol of its own. */
  lemma LengthsFollow(s: nat)
    requires 257 <= s < 285
    ensures LengthRange(257).base == 3 && LengthRange(285) == Range(258, 0)
    ensures LengthRange(s).base + Pow2(LengthRange(s).extra)
         == if s < 284 then LengthRange(s + 1).base else 259
  {
    hide Pow2;
    SmallPowers();
  }

  /** How many extra bits a length takes. */
  lemma LengthExtras(s: nat)
    requires 257 <= s <= 285
    ensures LengthRange(s).extra
         == [0, 0, 0, 0, 0, 0, 0, 0, 1, 1, 1, 1, 2, 2, 2, 2, 3, 3, 3, 3, 4, 4, 4, 4, 5, 5, 5, 5, 0][s - 257]
  {
    hide Pow2;
  }

  /** The distances from 1 to 32768, one range after the other. */
  lemma DistsFollow(d: nat)
    requires d <= 29
    ensures DistRange(0).base == 1
    ensures DistRange(d).base + Pow2(DistRange(d).extra) == if d < 29 then DistRange(d + 1).base else 32769
  {
    hide *;
    NearRanges(d);
    if d >= 4 {
      var k: nat, e := d / 2 - 1, d % 2;
      SmallPowers();
      DistAt(k, e);
      if e == 0 {
        DistAt(k, 1);
      } else if d < 29 {
        DistAt(k + 1, 0);
        TwicePow2(k + 1);
      }
    }
  }

  lemma NearRanges(d: nat)
    requires d <= 29
    ensures DistRange(0).base == 1
    ensures d < 4 ==> DistRange(d).base + Pow2(DistRange(d).extra) == DistRange(d + 1).base
  {
    assert Pow2(0) == 1 && Pow2(1) == 2;
  }

  lemma DistAt(k: nat, e: nat)
    requires 1 <= k <= 13 && e < 2
    ensures DistRange(2 * k + 2 + e) == Range((2 + e) * Pow2(k) + 1, k)
  {
    hide *;
    TwoToEach(k, e);
    FarRange(2 * k + 2 + e, k, e);
  }

  lemma TwoToEach(k: nat, e: nat)
    requires e < 2
    ensures (2 * k + 2 + e) / 2 - 1 == k && (2 * k + 2 + e) % 2 == e
  {
  }

  lemma FarRange(d: nat, k: nat, e: nat)
    requires 4 <= d <= 29 && d / 2 - 1 == k && d % 2 == e
    ensures DistRange(d) == Range((2 + e) * Pow2(k) + 1, k)
  {
    hide Pow2;
  }

  lemma DistExtras(d: nat)
    requires d <= 29
    ensures DistRange(d).extra
         == [0, 0, 0, 0, 1, 1, 2, 2, 3, 3, 4, 4, 5, 5, 6, 6, 7, 7, 8, 8, 9, 9, 10, 10, 11, 11, 12, 12, 13, 13][d]
  {
    hide Pow2;
  }

  /** No length exceeds 258, whatever the extra bits. */
  lemma LengthBound(s: nat, x: nat)
    requires 257 <= s <= 285
    ensures 3 <= LengthRange(s).base + Low(x, LengthRange(s).extra) <= 258
    ensures LengthRange(s).extra <= 5
  {
    hide Pow2, Low;
    SmallPowers();
    if 265 <= s < 285 {
      var k := (s - 261) / 4;
      assert 1 <= k <= 5;
      assert (4 + (s - 265) % 4) * Pow2(k) + Pow2(k) <= 8 * Pow2(k) by {
        MulMono(4 + (s - 265) % 4 + 1, 8, Pow2(k));
      }
      Pow2Mono(k, 5);
    }
  }

  /** No distance exceeds 32768. */
  lemma DistBound(d: nat, x: nat)
    requires d <= 29
    ensures 1 <= DistRange(d).base + Low(x, DistRange(d).extra) <= 32768
    ensures DistRange(d).extra <= 13
  {
    hide Pow2, Low;
    SmallPowers();
    if 4 <= d {
      var k := d / 2 - 1;
      MulMono(2 + d % 2 + 1, 4, Pow2(k));
      Pow2Mono(k, 13);
    }
  }

  // ----- Items -----------------------------------------------------------------------------

  /** What the stream spells out next. */
  datatype Item =
    | Literal(b: Byte)
    | Match(len: nat, dist: nat)
    | EndOfBlock
    | BadLength
    | BadDistance

  /** An item and how many bits it takes. */
  datatype Spelled = Spelled(item: Item, bits: nat)

  datatype Codes = Codes(lit: seq<nat>, dist: seq<nat>)

  /** The symbol whose code starts the stream, if any. */
  datatype Found = NoSymbol | Symbol(s: nat)

  ghost function SymbolAt(lens: seq<nat>, x: nat): Found {
    if s: nat :| Starts(lens, s, x) then Symbol(s) else NoSymbol
  }

  ghost predicate GoodCodes(c: Codes) {
    && |c.lit| <= SymbolLimit(LENS) && |c.dist| <= SymbolLimit(DISTS)
    && Usable(c.lit) && Usable(c.dist)
  }

  /** The distance half of a match of length `len` whose first half took `bits` bits. */
  ghost function SpellDistance(c: Codes, x: nat, len: nat, bits: nat): Spelled
    requires GoodCodes(c)
  {
    match SymbolAt(c.dist, x)
    case NoSymbol => Spelled(BadDistance, bits)
    case Symbol(d) =>
      if d > 29 then Spelled(BadDistance, bits)
      else
        var r := DistRange(d);
        Spelled(Match(len, r.base + Low(High(x, c.dist[d]), r.extra)), bits + c.dist[d] + r.extra)
  }

  /** The next item of the stream `x`. */
  ghost function Spell(c: Codes, x: nat): Spelled
    requires GoodCodes(c)
  {
    match SymbolAt(c.lit, x)
    case NoSymbol => Spelled(BadLength, 0)
    case Symbol(s) =>
      if s < 256 then Spelled(Literal(s), c.lit[s])
      else if s == 256 then Spelled(EndOfBlock, c.lit[s])
      else if s > 285 then Spelled(BadLength, 0)
      else
        var r := LengthRange(s);
        var y := High(x, c.lit[s]);
        SpellDistance(c, High(y, r.extra), r.base + Low(y, r.extra), c.lit[s] + r.extra)
  }

  // ----- Output ----------------------------------------------------------------------------

  /** Copies `len` bytes, each from `dist` back in everything output so far, which
      includes the bytes copied just before it. */
  function CopyBack(h: seq<Byte>, dist: nat, len: nat): (h': seq<Byte>)
    requires 0 < dist <= |h|
    ensures |h'| == |h| + len && h <= h'
    decreases len
  {
    if len == 0 then h
    else
      var g := CopyBack(h, dist, len - 1);
      g + [g[|g| - dist]]
  }

  /** `h'` is the output `h` and what `item` appends. */
  ghost predicate Emits(item: Item, h: seq<Byte>, h': seq<Byte>) {
    match item
    case Literal(v) => h' == h + [v]
    case Match(len, dist) => 0 < dist <= |h| && h' == CopyBack(h, dist, len)
    case _ => false
  }

  /** Where decoding stands: the bit position and all output still remembered. */
  datatype Progress = Progress(pos: nat, out: seq<Byte>)

  /** The item leads on, to `Step`. */
  ghost predicate CanStep(c: Codes, input: seq<Byte>, p: Progress)
    requires GoodCodes(c)
  {
    var sp := Spell(c, From(input, p.pos));
    sp.item.Literal? || (sp.item.Match? && 0 < sp.item.dist <= |p.out|)
  }

  ghost function Step(c: Codes, input: seq<Byte>, p: Progress): Progress
    requires GoodCodes(c) && CanStep(c, input, p)
  {
    var sp := Spell(c, From(input, p.pos));
    match sp.item
    case Literal(b) => Progress(p.pos + sp.bits, p.out + [b])
    case Match(len, dist) => Progress(p.pos + sp.bits, CopyBack(p.out, dist, len))
  }

  datatype Reach = Stuck | At(p: Progress)

  /** Where decoding `n` items from `p` leads; `Stuck` if one of them is not a literal or
      a match within what has been output. */
  ghost function After(c: Codes, input: seq<Byte>, p: Progress, n: nat): Reach
    requires GoodCodes(c)
  {
    if n == 0 then At(p)
    else
      match After(c, input, p, n - 1)
      case Stuck => Stuck
      case At(q) => if CanStep(c, input, q) then At(Step(c, input, q)) else Stuck
  }

  /** No item leads on from `q`. */
  ghost predicate Stops(c: Codes, input: seq<Byte>, q: Progress) {
    GoodCodes(c) && !CanStep(c, input, q)
  }

  lemma {:induction false} NothingAfterStop(c: Codes, input: seq<Byte>, p: Progress, n: nat, k: nat)
    requires GoodCodes(c) && After(c, input, p, n).At? && Stops(c, input, After(c, input, p, n).p) && k > 0
    ensures After(c, input, p, n + k) == Stuck
  {
    hide GoodCodes, CanStep, Step;
    if k > 1 {
      NothingAfterStop(c, input, p, n, k - 1);
    }
  }
}
