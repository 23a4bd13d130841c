/** That there are deflate streams: codes that cover what the compressor tells can spell it
    out, and the fixed codes of section 3.2.6 of RFC 1951 cover everything. */
module Encoding {
  import opened Arith
  import opened CanonicalCode
  import opened BitReader
  import opened DeflateFormat
  import opened Lz77

  ghost predicate HasCode(lens: seq<nat>, s: nat) {
    s < |lens| && lens[s] > 0
  }

  /** The length `len` is told by symbol `s` and extra bits. */
  ghost predicate LengthBy(len: nat, s: nat) {
    257 <= s <= 285 && LengthRange(s).base <= len < LengthRange(s).base + Pow2(LengthRange(s).extra)
  }

  ghost predicate DistBy(dist: nat, d: nat) {
    d <= 29 && DistRange(d).base <= dist < DistRange(d).base + Pow2(DistRange(d).extra)
  }

  /** The codes have a code for every symbol the item needs. */
  ghost predicate Spellable(c: Codes, t: Item) {
    match t
    case Literal(b) => HasCode(c.lit, b)
    case EndOfBlock => HasCode(c.lit, 256)
    case Match(len, dist) => HasLength(c.lit, len) && HasDist(c.dist, dist)
    case _ => false
  }

  ghost predicate HasLength(lens: seq<nat>, len: nat) {
    exists s: nat :: LengthBy(len, s) && HasCode(lens, s)
  }

  ghost predicate HasDist(lens: seq<nat>, dist: nat) {
    exists d: nat :: DistBy(dist, d) && HasCode(lens, d)
  }

  // ----- One item --------------------------------------------------------------------------------

  lemma SymbolUnique(lens: seq<nat>, s: nat, x: nat)
    requires ValidLens(lens) && !OverSubscribed(lens) && Starts(lens, s, x)
    ensures SymbolAt(lens, x) == Symbol(s)
  {
    var t := SymbolAt(lens, x);
    PrefixFree(lens, s, t.s, x);
  }

  lemma CodesMean(c: Codes)
    requires GoodCodes(c)
    ensures ValidLens(c.lit) && !OverSubscribed(c.lit) && ValidLens(c.dist) && !OverSubscribed(c.dist)
  {
    hide OverSubscribed, Complete;
  }

  /** A stream that starts with the code of `s` and goes on with `y`. */
  lemma CodeFirst(lens: seq<nat>, s: nat, y: nat) returns (x: nat)
    requires ValidLens(lens) && !OverSubscribed(lens) && HasCode(lens, s)
    ensures SymbolAt(lens, x) == Symbol(s) && High(x, lens[s]) == y
  {
    x := Join(StreamCode(lens, s), y, lens[s]);
    Joined(StreamCode(lens, s), y, lens[s]);
    hide Join, OverSubscribed, StreamCode, ValidLens;
    SymbolUnique(lens, s, x);
  }

  /** A distance code and its extra bits. */
  lemma DistFirst(c: Codes, dist: nat, y: nat, len: nat, bits: nat) returns (x: nat, n: nat)
    requires GoodCodes(c) && HasDist(c.dist, dist)
    ensures SpellDistance(c, x, len, bits) == Spelled(Match(len, dist), bits + n) && High(x, n) == y
  {
    hide *;
    CodesMean(c);
    var d := DistOf(c, dist);
    var r := DistRange(d);
    var e := Join(dist - r.base, y, r.extra);
    Joined(dist - r.base, y, r.extra);
    x := CodeFirst(c.dist, d, e);
    n := c.dist[d] + r.extra;
    HighHigh(x, c.dist[d], r.extra);
    DistanceSpelled(c, x, len, bits, d);
  }

  lemma DistOf(c: Codes, dist: nat) returns (d: nat)
    requires HasDist(c.dist, dist)
    ensures d <= 29 && HasCode(c.dist, d) && d < |c.dist|
    ensures DistRange(d).base <= dist && dist - DistRange(d).base < Pow2(DistRange(d).extra)
  {
    hide DistRange, Pow2;
    d :| DistBy(dist, d) && HasCode(c.dist, d);
  }

  lemma DistanceSpelled(c: Codes, x: nat, len: nat, bits: nat, d: nat)
    requires GoodCodes(c) && SymbolAt(c.dist, x) == Symbol(d) && d <= 29 && d < |c.dist|
    ensures var r := DistRange(d);
            SpellDistance(c, x, len, bits)
            == Spelled(Match(len, r.base + Low(High(x, c.dist[d]), r.extra)), bits + (c.dist[d] + r.extra))
  {
    hide GoodCodes, SymbolAt, DistRange, Low, High;
  }

  /** A stream that spells out `t` in its first `n` bits and goes on with `y`. */
  lemma ItemFirst(c: Codes, t: Item, y: nat) returns (x: nat, n: nat)
    requires GoodCodes(c) && Spellable(c, t)
    ensures Spell(c, x) == Spelled(t, n) && High(x, n) == y
  {
    hide *;
    CodesMean(c);
    SpellableMeans(c, t);
    match t {
      case Literal(b) =>
        x := CodeFirst(c.lit, b, y);
        n := c.lit[b];
        SymbolSpelled(c, x, b);
      case EndOfBlock =>
        x := CodeFirst(c.lit, 256, y);
        n := c.lit[256];
        SymbolSpelled(c, x, 256);
      case Match(len, dist) =>
        x, n := MatchFirst(c, len, dist, y);
    }
  }

  lemma SpellableMeans(c: Codes, t: Item)
    requires Spellable(c, t)
    ensures t.Literal? ==> HasCode(c.lit, t.b) && t.b < |c.lit|
    ensures t.EndOfBlock? ==> HasCode(c.lit, 256) && 256 < |c.lit|
    ensures t.Match? ==> HasLength(c.lit, t.len) && HasDist(c.dist, t.dist)
    ensures t.Literal? || t.EndOfBlock? || t.Match?
  {
    hide HasLength, HasDist;
  }

  lemma MatchFirst(c: Codes, len: nat, dist: nat, y: nat) returns (x: nat, n: nat)
    requires GoodCodes(c) && HasLength(c.lit, len) && HasDist(c.dist, dist)
    ensures Spell(c, x) == Spelled(Match(len, dist), n) && High(x, n) == y
  {
    hide *;
    CodesMean(c);
    var s := LengthOf(c, len);
    var r := LengthRange(s);
    var before := c.lit[s] + r.extra;
    var z, k := DistFirst(c, dist, y, len, before);
    var e := Join(len - r.base, z, r.extra);
    Joined(len - r.base, z, r.extra);
    x := CodeFirst(c.lit, s, e);
    n := before + k;
    HighHigh(x, c.lit[s], r.extra);
    HighHigh(x, before, k);
    SymbolSpelled(c, x, s);
  }

  lemma LengthOf(c: Codes, len: nat) returns (s: nat)
    requires HasLength(c.lit, len)
    ensures 257 <= s <= 285 && HasCode(c.lit, s) && s < |c.lit|
    ensures LengthRange(s).base <= len && len - LengthRange(s).base < Pow2(LengthRange(s).extra)
  {
    hide LengthRange, Pow2;
    s :| LengthBy(len, s) && HasCode(c.lit, s);
  }

  lemma SymbolSpelled(c: Codes, x: nat, s: nat)
    requires GoodCodes(c) && SymbolAt(c.lit, x) == Symbol(s) && s <= 285 && s < |c.lit|
    ensures s < 256 ==> Spell(c, x) == Spelled(Literal(s), c.lit[s])
    ensures s == 256 ==> Spell(c, x) == Spelled(EndOfBlock, c.lit[s])
    ensures s > 256 ==>
              var r := LengthRange(s);
              var y := High(x, c.lit[s]);
              Spell(c, x) == SpellDistance(c, High(y, r.extra), r.base + Low(y, r.extra), c.lit[s] + r.extra)
  {
    hide GoodCodes, SymbolAt, LengthRange, Low, High, SpellDistance;
  }

  // ----- Many items --------------------------------------------------------------------------------

  /** The stream `x` spells out `ts`, one item after the other. */
  ghost predicate Spells(c: Codes, x: nat, ts: seq<Item>)
    requires GoodCodes(c)
    decreases |ts|
  {
    ts == [] || (Spell(c, x).item == ts[0] && Spells(c, High(x, Spell(c, x).bits), ts[1..]))
  }

  /** In how many bits. */
  ghost function BitCount(c: Codes, x: nat, n: nat): nat
    requires GoodCodes(c)
    decreases n
  {
    if n == 0 then 0 else Spell(c, x).bits + BitCount(c, High(x, Spell(c, x).bits), n - 1)
  }

  ghost predicate AllSpellable(c: Codes, ts: seq<Item>) {
    forall i: nat :: i < |ts| ==> Spellable(c, ts[i])
  }

  lemma {:induction false} ItemsFirst(c: Codes, ts: seq<Item>, y: nat) returns (x: nat)
    requires GoodCodes(c) && AllSpellable(c, ts)
    ensures Spells(c, x, ts) && High(x, BitCount(c, x, |ts|)) == y
    decreases |ts|
  {
    hide GoodCodes, Spellable, Spell, High;
    if ts == [] {
      x := y;
      NoBits(x);
    } else {
      var z := ItemsFirst(c, ts[1..], y);
      var n;
      x, n := ItemFirst(c, ts[0], z);
      HighHigh(x, n, BitCount(c, z, |ts| - 1));
    }
  }

  lemma {:induction false} PosShift(c: Codes, input: seq<Byte>, pos: nat, k: nat)
    requires GoodCodes(c)
    ensures PosAfter(c, input, pos, k + 1) == PosAfter(c, input, pos + Spell(c, From(input, pos)).bits, k)
  {
    hide GoodCodes, Spell, From;
    if k == 0 {
      assert PosAfter(c, input, pos, 0) == pos;
    } else {
      PosShift(c, input, pos, k - 1);
    }
  }

  lemma {:induction false} SpellsFrom(c: Codes, input: seq<Byte>, pos: nat, ts: seq<Item>)
    requires GoodCodes(c) && Spells(c, From(input, pos), ts)
    ensures SpellsOut(c, input, pos, ts)
    ensures PosAfter(c, input, pos, |ts|) == pos + BitCount(c, From(input, pos), |ts|)
    decreases |ts|
  {
    hide GoodCodes, Spell, From, High;
    if ts != [] {
      var n := Spell(c, From(input, pos)).bits;
      OnFrom(input, pos, n);
      SpellsFrom(c, input, pos + n, ts[1..]);
      forall k: nat | k < |ts|
        ensures ItemAt(c, input, pos, k) == ts[k]
      {
        if k > 0 {
          PosShift(c, input, pos, k - 1);
          assert ItemAt(c, input, pos + n, k - 1) == ts[1..][k - 1];
        }
      }
      PosShift(c, input, pos, |ts| - 1);
    }
  }

  lemma OnFrom(input: seq<Byte>, pos: nat, n: nat)
    ensures From(input, pos + n) == High(From(input, pos), n)
  {
    HighHigh(Stream(input), pos, n);
  }

  /** The bytes of a stream. */
  lemma {:induction false} BytesOf(x: nat) returns (input: seq<Byte>)
    ensures Stream(input) == x
  {
    if x == 0 {
      input := [];
    } else {
      var rest := BytesOf(x / 256);
      var b: Byte := x % 256;
      input := [b] + rest;
      assert input[1..] == rest;
    }
  }

  lemma {:induction false} ZerosAfter(input: seq<Byte>, n: nat)
    ensures Stream(input + seq(n, _ => 0)) == Stream(input)
    decreases |input|, n
  {
    var z: seq<Byte> := seq(n, _ => 0);
    if input != [] {
      assert (input + z)[1..] == input[1..] + z;
      ZerosAfter(input[1..], n);
    } else if n > 0 {
      assert ([] + z)[1..] == [] + seq(n - 1, _ => 0);
      ZerosAfter([], n - 1);
    }
  }

  // ----- Blocks -----------------------------------------------------------------------------------

  /** Codes that may be used for the blocks with items `parts`. */
  ghost predicate Covering(codes: seq<Codes>, parts: seq<seq<Item>>) {
    && |codes| == |parts|
    && forall k: nat :: k < |parts| ==>
         GoodCodes(codes[k]) && AllSpellable(codes[k], parts[k] + [EndOfBlock])
  }

  /** One block after the other from bit position `pos` on. */
  ghost predicate BlocksAt(input: seq<Byte>, pos: nat, codes: seq<Codes>, parts: seq<seq<Item>>, bs: seq<Block>)
    decreases |parts|
  {
    if parts == [] then codes == [] && bs == []
    else
      && |codes| > 0 && |bs| > 0 && GoodCodes(codes[0])
      && Spells(codes[0], From(input, pos), parts[0] + [EndOfBlock])
      && bs[0] == Coded(codes[0], pos)
      && pos + BitCount(codes[0], From(input, pos), |parts[0]| + 1) <= 8 * |input|
      && BlocksAt(input, pos + BitCount(codes[0], From(input, pos), |parts[0]| + 1), codes[1..], parts[1..], bs[1..])
  }

  /** A stream of bits, for the time being as a number, whose blocks are as they should be. */
  ghost predicate BlocksIn(x: nat, codes: seq<Codes>, parts: seq<seq<Item>>)
    decreases |parts|
  {
    if parts == [] then codes == []
    else
      && |codes| > 0 && GoodCodes(codes[0]) && Spells(codes[0], x, parts[0] + [EndOfBlock])
      && BlocksIn(High(x, BitCount(codes[0], x, |parts[0]| + 1)), codes[1..], parts[1..])
  }

  /** How many bits they take. */
  ghost function BlockBits(x: nat, codes: seq<Codes>, parts: seq<seq<Item>>): nat
    requires BlocksIn(x, codes, parts)
    decreases |parts|
  {
    if parts == [] then 0
    else
      var n := BitCount(codes[0], x, |parts[0]| + 1);
      n + BlockBits(High(x, n), codes[1..], parts[1..])
  }

  lemma {:induction false} BlocksFirst(codes: seq<Codes>, parts: seq<seq<Item>>) returns (x: nat)
    requires Covering(codes, parts)
    ensures BlocksIn(x, codes, parts)
    decreases |parts|
  {
    hide GoodCodes, AllSpellable, Spells, BitCount;
    if parts == [] {
      x := 0;
    } else {
      var y := BlocksFirst(codes[1..], parts[1..]);
      x := ItemsFirst(codes[0], parts[0] + [EndOfBlock], y);
    }
  }

  lemma {:induction false} BlocksFrom(input: seq<Byte>, pos: nat, codes: seq<Codes>, parts: seq<seq<Item>>)
    returns (bs: seq<Block>)
    requires BlocksIn(From(input, pos), codes, parts)
    requires pos + BlockBits(From(input, pos), codes, parts) <= 8 * |input|
    ensures BlocksAt(input, pos, codes, parts, bs)
    decreases |parts|
  {
    hide GoodCodes, Spells, BitCount, From;
    if parts == [] {
      bs := [];
    } else {
      var n := BitCount(codes[0], From(input, pos), |parts[0]| + 1);
      OnFrom(input, pos, n);
      var rest := BlocksFrom(input, pos + n, codes[1..], parts[1..]);
      bs := [Coded(codes[0], pos)] + rest;
      assert bs[1..] == rest;
    }
  }

  lemma {:induction false} BlockIs(input: seq<Byte>, pos: nat, codes: seq<Codes>, parts: seq<seq<Item>>,
                                   bs: seq<Block>, before: seq<Item>, k: nat)
    requires BlocksAt(input, pos, codes, parts, bs) && k < |parts|
    ensures |bs| == |parts| && Represents(input, before, parts[k], bs[k])
    decreases k
  {
    hide GoodCodes, Spells, BitCount, From, SpellsOut, Expand;
    BlockCount(input, pos, codes, parts, bs);
    if k == 0 {
      SpellsFrom(codes[0], input, pos, parts[0] + [EndOfBlock]);
    } else {
      var n := BitCount(codes[0], From(input, pos), |parts[0]| + 1);
      BlockIs(input, pos + n, codes[1..], parts[1..], bs[1..], before, k - 1);
    }
  }

  lemma {:induction false} BlockCount(input: seq<Byte>, pos: nat, codes: seq<Codes>, parts: seq<seq<Item>>,
                                      bs: seq<Block>)
    requires BlocksAt(input, pos, codes, parts, bs)
    ensures |bs| == |parts|
    decreases |parts|
  {
    hide GoodCodes, Spells, BitCount, From;
    if parts != [] {
      var n := BitCount(codes[0], From(input, pos), |parts[0]| + 1);
      BlockCount(input, pos + n, codes[1..], parts[1..], bs[1..]);
    }
  }

  /** Whatever was told, in whatever blocks, and whatever codes are taken for each, as long as
      they cover what is told: there is a stream of such blocks. */
  lemma StreamExists(codes: seq<Codes>, parts: seq<seq<Item>>) returns (input: seq<Byte>, bs: seq<Block>)
    requires Covering(codes, parts)
    ensures AllRepresent(input, parts, bs) && BlocksAt(input, 0, codes, parts, bs)
  {
    hide *;
    var x := BlocksFirst(codes, parts);
    var bytes := BytesOf(x);
    var n := BlockBits(x, codes, parts);
    ZerosAfter(bytes, n);
    input := bytes + seq(n, _ => 0);
    FromStart(input);
    bs := BlocksFrom(input, 0, codes, parts);
    BlockCount(input, 0, codes, parts, bs);
    forall k: nat | k < |parts|
      ensures Represents(input, Flat(parts[..k]), parts[k], bs[k])
    {
      BlockIs(input, 0, codes, parts, bs, Flat(parts[..k]), k);
    }
    AllAre(input, parts, bs);
  }

  lemma FromStart(input: seq<Byte>)
    ensures From(input, 0) == Stream(input)
  {
    NoBits(Stream(input));
  }

  lemma AllAre(input: seq<Byte>, parts: seq<seq<Item>>, bs: seq<Block>)
    requires |bs| == |parts| && forall k: nat :: k < |parts| ==> Represents(input, Flat(parts[..k]), parts[k], bs[k])
    ensures AllRepresent(input, parts, bs)
  {
    hide Represents, Flat;
  }

  // ----- Codes that cover everything -----------------------------------------------------------------

  lemma NextLength(s: nat)
    requires 257 <= s < 285
    ensures LengthRange(s + 1).base <= LengthRange(s).base + Pow2(LengthRange(s).extra)
  {
    hide Pow2;
    SmallPowers();
    if s < 265 {
    } else if s < 284 {
      var k, k' := (s - 261) / 4, (s - 260) / 4;
      assert 1 <= k <= 5 && (k' == k || k' == k + 1) && k' <= 5;
    }
  }

  lemma {:induction false} LengthFound(len: nat, s: nat) returns (s': nat)
    requires 257 <= s <= 285 && LengthRange(s).base <= len <= 258
    ensures s <= s' && LengthBy(len, s')
    decreases 285 - s
  {
    hide LengthRange;
    if s == 285 {
      s' := s;
      LastLength();
    } else {
      NextLength(s);
      if len < LengthRange(s + 1).base {
        s' := s;
      } else {
        s' := LengthFound(len, s + 1);
      }
    }
  }

  lemma LastLength()
    ensures LengthRange(285) == Range(258, 0) && Pow2(0) == 1 && LengthRange(257).base == 3
  {
  }

  lemma NextDist(d: nat)
    requires d < 29
    ensures DistRange(d + 1).base <= DistRange(d).base + Pow2(DistRange(d).extra)
  {
    if d < 4 {
      assert Pow2(1) == 2;
    } else {
      EvenOrOdd(d, d / 2 - 1);
    }
  }

  lemma EvenOrOdd(d: nat, k: nat)
    requires 4 <= d < 29 && k == d / 2 - 1
    ensures DistRange(d + 1).base == DistRange(d).base + Pow2(k) && DistRange(d).extra == k
  {
    hide *;
    TwicePow2(k + 1);
    if d == 2 * k + 2 {
      DistAt(d, k, 0);
      DistAt(d + 1, k, 1);
    } else {
      DistAt(d, k, 1);
      DistAt(d + 1, k + 1, 0);
    }
  }

  lemma DistAt(d: nat, k: nat, b: nat)
    requires d <= 29 && b < 2 && 1 <= k && d == 2 * k + 2 + b
    ensures DistRange(d) == Range((2 + b) * Pow2(k) + 1, k)
  {
    hide Pow2;
    assert d / 2 - 1 == k && d % 2 == b;
  }

  lemma {:induction false} DistFound(dist: nat, d: nat) returns (d': nat)
    requires d <= 29 && DistRange(d).base <= dist <= 32768
    ensures d <= d' && DistBy(dist, d')
    decreases 29 - d
  {
    hide DistRange;
    if d == 29 {
      d' := d;
      LastDist();
    } else {
      NextDist(d);
      if dist < DistRange(d + 1).base {
        d' := d;
      } else {
        d' := DistFound(dist, d + 1);
      }
    }
  }

  lemma LastDist()
    ensures DistRange(29) == Range(24577, 13) && Pow2(13) == 8192 && DistRange(0).base == 1
  {
    SmallPowers();
  }

  /** Codes with a code for every symbol. */
  ghost predicate Full(c: Codes) {
    && GoodCodes(c)
    && (forall s: nat :: s <= 285 ==> HasCode(c.lit, s))
    && forall d: nat :: d <= 29 ==> HasCode(c.dist, d)
  }

  lemma EncodableSpellable(c: Codes, ts: seq<Item>, maxDist: int)
    requires Full(c) && Encodable(ts, maxDist) && maxDist <= 32768
    ensures AllSpellable(c, ts + [EndOfBlock])
  {
    hide GoodCodes, HasCode, LengthBy, DistBy;
    forall i: nat | i < |ts|
      ensures Spellable(c, ts[i])
    {
      if ts[i].Match? {
        LastLength();
        LastDist();
        var s := LengthFound(ts[i].len, 257);
        var d := DistFound(ts[i].dist, 0);
        LengthSymbol(ts[i].len, s);
        DistSymbol(ts[i].dist, d);
      }
    }
  }

  lemma LengthSymbol(len: nat, s: nat)
    requires LengthBy(len, s)
    ensures s <= 285
  {
  }

  lemma DistSymbol(dist: nat, d: nat)
    requires DistBy(dist, d)
    ensures d <= 29
  {
  }

  // ----- The fixed codes -----------------------------------------------------------------------------

  function Run(n: nat, l: nat): (s: seq<nat>)
    ensures |s| == n && forall i: nat :: i < n ==> s[i] == l
  {
    seq(n, _ => l)
  }

  /** The fixed codes (section 3.2.6 of RFC 1951). */
  function FixedCodes(): Codes {
    Codes(Run(144, 8) + Run(112, 9) + Run(24, 7) + Run(8, 8), Run(32, 5))
  }

  /** Symbol by symbol. */
  lemma FixedLengths(s: nat)
    ensures |FixedCodes().lit| == 288 && |FixedCodes().dist| == 32
    ensures s < 288 ==> FixedCodes().lit[s] == if s <= 143 then 8 else if s <= 255 then 9 else if s <= 279 then 7 else 8
    ensures s < 32 ==> FixedCodes().dist[s] == 5
  {
  }

  lemma {:induction false} KraftRun(lens: seq<nat>, n: nat, l: nat, m: nat)
    requires 0 < l <= m
    ensures Kraft(lens + Run(n, l), m) == Kraft(lens, m) + n * Pow2(m - l)
    decreases n
  {
    hide *;
    if n == 0 {
      assert lens + Run(n, l) == lens;
    } else {
      var longer := lens + Run(n, l);
      assert longer == (lens + Run(n - 1, l)) + [l];
      KraftOn(lens + Run(n - 1, l), l, m);
      KraftRun(lens, n - 1, l, m);
      assert n * Pow2(m - l) == (n - 1) * Pow2(m - l) + Pow2(m - l);
    }
  }

  lemma KraftOn(lens: seq<nat>, l: nat, m: nat)
    requires 0 < l <= m
    ensures Kraft(lens + [l], m) == Kraft(lens, m) + Pow2(m - l)
  {
    assert (lens + [l])[..|lens + [l]| - 1] == lens;
  }

  lemma FixedKraft()
    ensures Kraft(FixedCodes().lit, MAXBITS) == Pow2(MAXBITS) && Kraft(FixedCodes().dist, MAXBITS) == Pow2(MAXBITS)
  {
    hide Pow2, Kraft;
    var a, b, c, d := Run(144, 8), Run(112, 9), Run(24, 7), Run(8, 8);
    KraftRun([], 144, 8, MAXBITS);
    KraftRun([] + a, 112, 9, MAXBITS);
    KraftRun([] + a + b, 24, 7, MAXBITS);
    KraftRun([] + a + b + c, 8, 8, MAXBITS);
    KraftRun([], 32, 5, MAXBITS);
    assert [] + a == a && [] + Run(32, 5) == Run(32, 5);
    KraftNone();
    SmallPowers();
    Pow2Add(7, 8);
  }

  lemma KraftNone()
    ensures Kraft([], MAXBITS) == 0
  {
  }

  lemma FixedFull()
    ensures Full(FixedCodes())
  {
    FixedKraft();
    hide Kraft, Pow2;
  }
}
