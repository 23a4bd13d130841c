/** What a table entry says, in terms of the format: the tests inflate makes on `op`
    follow the items of the stream. */
module InflateItems {
  import opened Arith
  import opened DecodeTable
  import opened DeflateFormat

  /** Bit `n` of `op`. */
  predicate Bit(op: nat, n: nat) {
    op / Pow2(n) % 2 == 1
  }

  lemma BitTests(op: nat)
    ensures Bit(op, 4) <==> op / 16 % 2 == 1
    ensures Bit(op, 5) <==> op / 32 % 2 == 1
    ensures Bit(op, 6) <==> op / 64 % 2 == 1
  {
    SmallPowers();
  }

  lemma FoundLookup(T: seq<Entry>, root: nat, kind: CodeType, lens: seq<nat>, x: nat)
    requires Decodes(T, root, kind, lens)
    ensures Searchable(T, root)
    ensures SymbolAt(lens, x).NoSymbol? ==> Lookup(T, root, x) == INVALID
    ensures SymbolAt(lens, x).Symbol? ==>
              var s := SymbolAt(lens, x).s;
              s < |lens| && s < SymbolLimit(kind) && 0 < lens[s] && Lookup(T, root, x) == Leaf(kind, s, lens[s])
  {
    assert Answers(kind, lens, x, Lookup(T, root, x));
    hide Lookup, Leaf, Low, High;
  }

  /** The length half of a match whose code entry is `e`. */
  function LengthOf(e: Entry, x: nat): nat
    requires 16 <= e.op
  {
    e.val + Low(High(x, e.bits), e.op - 16)
  }

  lemma LitEntry(T: seq<Entry>, root: nat, c: Codes, x: nat)
    requires GoodCodes(c) && Decodes(T, root, LENS, c.lit)
    ensures var e := Lookup(T, root, x);
            var sp := Spell(c, x);
            && (e.op == 0 ==> e.val < 256 && sp == Spelled(Literal(e.val), e.bits))
            && (e.op == 96 ==> sp == Spelled(EndOfBlock, e.bits))
            && (e.op == 64 || e.op == 77 || e.op == 202 ==> sp.item == BadLength)
            && (16 <= e.op <= 21 ==>
                && 3 <= LengthOf(e, x) <= 258
                && sp == SpellDistance(c, High(High(x, e.bits), e.op - 16), LengthOf(e, x), e.bits + (e.op - 16)))
            && (e.op == 0 || e.op == 96 || e.op == 64 || e.op == 77 || e.op == 202 || 16 <= e.op <= 21)
  {
    hide *;
    FoundLookup(T, root, LENS, c.lit, x);
    if SymbolAt(c.lit, x).Symbol? {
      LitLeaf(SymbolAt(c.lit, x).s, c.lit[SymbolAt(c.lit, x).s]);
      LitSymbol(c, x, SymbolAt(c.lit, x).s, Lookup(T, root, x));
    } else {
      NoLit(c, x);
    }
  }

  lemma NoLit(c: Codes, x: nat)
    requires GoodCodes(c) && SymbolAt(c.lit, x).NoSymbol?
    ensures Spell(c, x).item == BadLength && INVALID.op == 64
  {
  }

  /** What the entry of each literal/length symbol holds. */
  ghost predicate IsLitLeaf(s: nat, bits: nat, e: Entry) {
    && e.bits == bits
    && (s < 256 ==> e.op == 0 && e.val == s)
    && (s == 256 ==> e.op == 96)
    && (257 <= s <= 285 ==> e.op == 16 + LengthRange(s).extra && e.val == LengthRange(s).base)
    && (s == 286 ==> e.op == 77)
    && (s == 287 ==> e.op == 202)
  }

  lemma LitLeaf(s: nat, bits: nat)
    requires s < SymbolLimit(LENS)
    ensures IsLitLeaf(s, bits, Leaf(LENS, s, bits))
  {
    hide LengthBase, LengthExtra, LengthRange, DistBase, DistExtra;
    if 257 <= s <= 285 {
      LengthTables(s);
    } else if s > 285 {
      InvalidLengths(s);
    }
  }

  lemma LitSymbol(c: Codes, x: nat, s: nat, e: Entry)
    requires GoodCodes(c) && SymbolAt(c.lit, x) == Symbol(s) && s < |c.lit| && s < SymbolLimit(LENS)
    requires IsLitLeaf(s, c.lit[s], e)
    ensures var sp := Spell(c, x);
            && (e.op == 0 ==> e.val < 256 && sp == Spelled(Literal(e.val), e.bits))
            && (e.op == 96 ==> sp == Spelled(EndOfBlock, e.bits))
            && (e.op == 64 || e.op == 77 || e.op == 202 ==> sp.item == BadLength)
            && (16 <= e.op <= 21 ==>
                && 3 <= LengthOf(e, x) <= 258
                && sp == SpellDistance(c, High(High(x, e.bits), e.op - 16), LengthOf(e, x), e.bits + (e.op - 16)))
            && (e.op == 0 || e.op == 96 || e.op == 64 || e.op == 77 || e.op == 202 || 16 <= e.op <= 21)
  {
    hide SymbolAt, Low, High, Pow2, LengthRange, SpellDistance, GoodCodes;
    if 257 <= s <= 285 {
      LengthBound(s, High(x, c.lit[s]));
    }
  }

  lemma InvalidLengths(s: nat)
    requires 286 <= s < 288
    ensures LengthExtra(s - 257) == if s == 286 then 77 else 202
  {
  }

  lemma DistEntry(T: seq<Entry>, root: nat, c: Codes, x: nat, len: nat, bits: nat)
    requires GoodCodes(c) && Decodes(T, root, DISTS, c.dist)
    ensures var e := Lookup(T, root, x);
            var sp := SpellDistance(c, x, len, bits);
            && (e.op == 64 ==> sp.item == BadDistance)
            && (16 <= e.op <= 29 ==>
                && 1 <= LengthOf(e, x) <= 32768
                && sp == Spelled(Match(len, LengthOf(e, x)), bits + e.bits + (e.op - 16)))
            && (e.op == 64 || 16 <= e.op <= 29)
  {
    hide *;
    FoundLookup(T, root, DISTS, c.dist, x);
    if SymbolAt(c.dist, x).Symbol? {
      DistLeaf(SymbolAt(c.dist, x).s, c.dist[SymbolAt(c.dist, x).s]);
      DistSymbol(c, x, len, bits, SymbolAt(c.dist, x).s, Lookup(T, root, x));
    } else {
      NoDist(c, x, len, bits);
    }
  }

  lemma NoDist(c: Codes, x: nat, len: nat, bits: nat)
    requires GoodCodes(c) && SymbolAt(c.dist, x).NoSymbol?
    ensures SpellDistance(c, x, len, bits).item == BadDistance && INVALID.op == 64
  {
  }

  ghost predicate IsDistLeaf(d: nat, bits: nat, e: Entry) {
    && e.bits == bits
    && (d <= 29 ==> e.op == 16 + DistRange(d).extra && e.val == DistRange(d).base)
    && (d > 29 ==> e.op == 64)
  }

  lemma DistLeaf(d: nat, bits: nat)
    requires d < SymbolLimit(DISTS)
    ensures IsDistLeaf(d, bits, Leaf(DISTS, d, bits))
  {
    hide LengthBase, LengthExtra, DistRange, DistBase, DistExtra;
    if d <= 29 {
      DistTables(d);
    } else {
      InvalidDistances(d);
    }
  }

  lemma DistSymbol(c: Codes, x: nat, len: nat, bits: nat, d: nat, e: Entry)
    requires GoodCodes(c) && SymbolAt(c.dist, x) == Symbol(d) && d < |c.dist| && d < SymbolLimit(DISTS)
    requires IsDistLeaf(d, c.dist[d], e)
    ensures var sp := SpellDistance(c, x, len, bits);
            && (e.op == 64 ==> sp.item == BadDistance)
            && (16 <= e.op <= 29 ==>
                && 1 <= LengthOf(e, x) <= 32768
                && sp == Spelled(Match(len, LengthOf(e, x)), bits + e.bits + (e.op - 16)))
            && (e.op == 64 || 16 <= e.op <= 29)
  {
    hide SymbolAt, Low, High, Pow2, DistRange, GoodCodes;
    if d <= 29 {
      DistBound(d, High(x, c.dist[d]));
    }
  }

  lemma InvalidDistances(d: nat)
    requires 30 <= d < 32
    ensures DistExtra(d) == 64
  {
  }
}
