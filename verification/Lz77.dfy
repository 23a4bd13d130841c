/** What the compressor hands on: literals and matches, and the bytes they stand for. */
module Lz77 {
  import opened BitReader
  import opened DeflateFormat

  datatype Expansion = Nothing | Bytes(s: seq<Byte>)

  /** The bytes a sequence of items stands for (section 3.2.3 of RFC 1951). */
  function Expand(ts: seq<Item>): Expansion {
    if ts == [] then Bytes([])
    else
      match Expand(ts[..|ts| - 1])
      case Nothing => Nothing
      case Bytes(h) =>
        match ts[|ts| - 1]
        case Literal(b) => Bytes(h + [b])
        case Match(len, dist) => if 0 < dist <= |h| then Bytes(CopyBack(h, dist, len)) else Nothing
        case _ => Nothing
  }

  lemma ExpandOn(ts: seq<Item>, t: Item, h: seq<Byte>, h': seq<Byte>)
    requires Expand(ts) == Bytes(h) && Emits(t, h, h')
    ensures Expand(ts + [t]) == Bytes(h')
  {
    hide CopyBack;
    assert (ts + [t])[..|ts + [t]| - 1] == ts;
  }

  /** Items the format has codes for, with no distance beyond `maxDist`. */
  predicate Encodable(ts: seq<Item>, maxDist: int) {
    forall i: nat :: i < |ts| ==>
      ts[i].Literal? || (ts[i].Match? && 3 <= ts[i].len <= 258 && 0 < ts[i].dist <= maxDist)
  }

  /** The `n` bytes of `s` from `a` on are the bytes `d` before them. */
  ghost predicate Repeats(s: seq<Byte>, a: nat, d: nat, n: nat) {
    && 0 < d <= a && a + n <= |s|
    && forall k: nat :: a <= k < a + n ==> s[k] == s[k - d]
  }

  /** Then a match reproduces them. */
  lemma {:induction false} RepeatsCopy(s: seq<Byte>, a: nat, d: nat, n: nat)
    requires Repeats(s, a, d, n)
    ensures CopyBack(s[..a], d, n) == s[..a + n]
  {
    if n > 0 {
      RepeatsCopy(s, a, d, n - 1);
      assert s[..a + n] == s[..a + (n - 1)] + [s[a + (n - 1)]];
    }
  }

  // ----- Back again -----------------------------------------------------------------------------

  /** The bit position after the first `n` items of the stream from `pos` on. */
  ghost function PosAfter(c: Codes, input: seq<Byte>, pos: nat, n: nat): nat
    requires GoodCodes(c)
  {
    if n == 0 then pos
    else
      var q := PosAfter(c, input, pos, n - 1);
      q + Spell(c, From(input, q)).bits
  }

  /** The stream from `pos` on spells out the items `ts`. */
  ghost predicate SpellsOut(c: Codes, input: seq<Byte>, pos: nat, ts: seq<Item>)
    requires GoodCodes(c)
  {
    forall k: nat :: k < |ts| ==> ItemAt(c, input, pos, k) == ts[k]
  }

  ghost function ItemAt(c: Codes, input: seq<Byte>, pos: nat, k: nat): Item
    requires GoodCodes(c)
  {
    Spell(c, From(input, PosAfter(c, input, pos, k))).item
  }

  /** However the items are encoded, and whatever was decoded before: decoding a stream that
      spells them out appends the bytes they stand for. */
  lemma {:induction false} DecodeOfItems(c: Codes, input: seq<Byte>, pos: nat, before: seq<Item>, ts: seq<Item>,
                                         h: seq<Byte>, s: seq<Byte>)
    requires GoodCodes(c) && SpellsOut(c, input, pos, ts)
    requires Expand(before) == Bytes(h) && Expand(before + ts) == Bytes(s)
    ensures After(c, input, Progress(pos, h), |ts|) == At(Progress(PosAfter(c, input, pos, |ts|), s))
  {
    hide GoodCodes, Spell, From, CopyBack;
    if |ts| == 0 {
      assert before + ts == before;
    } else {
      var n := |ts| - 1;
      forall k: nat | k < n
        ensures ItemAt(c, input, pos, k) == ts[..n][k]
      {
        assert ts[..n][k] == ts[k];
      }
      assert (before + ts)[..|before + ts| - 1] == before + ts[..n];
      DecodeOfItems(c, input, pos, before, ts[..n], h, Expand(before + ts[..n]).s);
      assert ItemAt(c, input, pos, n) == ts[n];
    }
  }

  // ----- Blocks ----------------------------------------------------------------------------------

  /** A block of a deflate stream: one with codes of its own, whose items begin at bit position
      `pos`, or one whose `length` bytes are stored as they are from byte `at` on. */
  datatype Block = Coded(codes: Codes, pos: nat) | Stored(at: nat, length: nat)

  /** After `n` items from `start` on there is the end-of-block item. */
  ghost predicate EndsAfter(c: Codes, input: seq<Byte>, start: Progress, n: nat)
    requires GoodCodes(c)
  {
    match After(c, input, start, n)
    case Stuck => false
    case At(q) => Spell(c, From(input, q.pos)).item == EndOfBlock
  }

  lemma EndsMean(c: Codes, input: seq<Byte>, start: Progress, n: nat)
    requires GoodCodes(c) && EndsAfter(c, input, start, n)
    ensures After(c, input, start, n).At?
    ensures Spell(c, From(input, After(c, input, start, n).p.pos)).item == EndOfBlock
  {
    hide GoodCodes, After, Spell, From;
  }

  /** A block ends once. */
  lemma EndsOnce(c: Codes, input: seq<Byte>, start: Progress, n: nat, m: nat)
    requires GoodCodes(c) && EndsAfter(c, input, start, n) && EndsAfter(c, input, start, m)
    ensures n == m
  {
    hide GoodCodes, After, Spell, From;
    if n < m {
      NothingAfterStop(c, input, start, n, m - n);
    } else if m < n {
      NothingAfterStop(c, input, start, m, n - m);
    }
  }

  /** The output after one more block. */
  ghost function AfterBlock(input: seq<Byte>, h: seq<Byte>, b: Block): Expansion {
    match b
    case Stored(at, length) => if at + length <= |input| then Bytes(h + input[at..at + length]) else Nothing
    case Coded(c, pos) =>
      if n: nat :| GoodCodes(c) && EndsAfter(c, input, Progress(pos, h), n) then
        Bytes(After(c, input, Progress(pos, h), n).p.out)
      else Nothing
  }

  lemma CodedOut(c: Codes, input: seq<Byte>, pos: nat, h: seq<Byte>, n: nat)
    requires GoodCodes(c) && EndsAfter(c, input, Progress(pos, h), n)
    ensures After(c, input, Progress(pos, h), n).At?
    ensures AfterBlock(input, h, Coded(c, pos)) == Bytes(After(c, input, Progress(pos, h), n).p.out)
  {
    hide GoodCodes, After, EndsAfter;
    EndsMean(c, input, Progress(pos, h), n);
    forall m: nat | EndsAfter(c, input, Progress(pos, h), m)
      ensures m == n
    {
      EndsOnce(c, input, Progress(pos, h), n, m);
    }
  }

  /** What a stream of blocks decodes to. */
  ghost function Decoded(input: seq<Byte>, bs: seq<Block>): Expansion {
    if bs == [] then Bytes([])
    else
      match Decoded(input, bs[..|bs| - 1])
      case Nothing => Nothing
      case Bytes(h) => AfterBlock(input, h, bs[|bs| - 1])
  }

  /** Block `b` of the stream is one that a compressor may write for the items `ts` when it has
      told `before`: it spells them out and the end of the block, or stores the bytes they stand
      for. */
  ghost predicate Represents(input: seq<Byte>, before: seq<Item>, ts: seq<Item>, b: Block) {
    match b
    case Coded(c, pos) =>
      && GoodCodes(c) && SpellsOut(c, input, pos, ts + [EndOfBlock])
      && PosAfter(c, input, pos, |ts| + 1) <= 8 * |input|
    case Stored(at, length) =>
      && at + length <= |input| && Expand(before).Bytes?
      && Expand(before + ts) == Bytes(Expand(before).s + input[at..at + length])
  }

  /** All items of the blocks. */
  function Flat(parts: seq<seq<Item>>): seq<Item> {
    if parts == [] then [] else Flat(parts[..|parts| - 1]) + parts[|parts| - 1]
  }

  lemma FlatOn(parts: seq<seq<Item>>, ts: seq<Item>)
    ensures Flat(parts + [ts]) == Flat(parts) + ts
  {
    assert (parts + [ts])[..|parts + [ts]| - 1] == parts;
  }

  ghost predicate AllRepresent(input: seq<Byte>, parts: seq<seq<Item>>, bs: seq<Block>) {
    |bs| == |parts| && forall k: nat :: k < |bs| ==> Represents(input, Flat(parts[..k]), parts[k], bs[k])
  }

  lemma {:induction false} ExpandFront(before: seq<Item>, ts: seq<Item>)
    requires Expand(before + ts).Bytes?
    ensures Expand(before).Bytes?
  {
    if ts == [] {
      assert before + ts == before;
    } else {
      assert (before + ts)[..|before + ts| - 1] == before + ts[..|ts| - 1];
      ExpandFront(before, ts[..|ts| - 1]);
    }
  }

  lemma {:induction false} ExpandGrows(before: seq<Item>, ts: seq<Item>, h: seq<Byte>, s: seq<Byte>)
    requires Expand(before) == Bytes(h) && Expand(before + ts) == Bytes(s)
    ensures h <= s
  {
    hide CopyBack;
    if ts == [] {
      assert before + ts == before;
    } else {
      assert (before + ts)[..|before + ts| - 1] == before + ts[..|ts| - 1];
      ExpandGrows(before, ts[..|ts| - 1], h, Expand(before + ts[..|ts| - 1]).s);
    }
  }

  /** A block that represents items ends after them, having put out the bytes they stand for. */
  lemma CodedEnds(c: Codes, input: seq<Byte>, pos: nat, before: seq<Item>, ts: seq<Item>, h: seq<Byte>, s: seq<Byte>)
    requires GoodCodes(c) && SpellsOut(c, input, pos, ts + [EndOfBlock])
    requires Expand(before) == Bytes(h) && Expand(before + ts) == Bytes(s)
    ensures EndsAfter(c, input, Progress(pos, h), |ts|)
    ensures After(c, input, Progress(pos, h), |ts|) == At(Progress(PosAfter(c, input, pos, |ts|), s))
  {
    hide GoodCodes, Spell, From, Expand, After, PosAfter;
    var all := ts + [EndOfBlock];
    forall k: nat | k < |ts|
      ensures ItemAt(c, input, pos, k) == ts[k]
    {
      assert ItemAt(c, input, pos, k) == all[k];
    }
    assert ItemAt(c, input, pos, |ts|) == all[|ts|];
    DecodeOfItems(c, input, pos, before, ts, h, s);
  }

  lemma OneBlock(input: seq<Byte>, before: seq<Item>, ts: seq<Item>, b: Block, h: seq<Byte>, s: seq<Byte>)
    requires Represents(input, before, ts, b) && Expand(before) == Bytes(h) && Expand(before + ts) == Bytes(s)
    ensures AfterBlock(input, h, b) == Bytes(s)
  {
    hide GoodCodes, Expand, After, PosAfter, SpellsOut, EndsAfter;
    if b.Coded? {
      CodedEnds(b.codes, input, b.pos, before, ts, h, s);
      CodedOut(b.codes, input, b.pos, h, |ts|);
    }
  }

  /** However items are divided into blocks, and each block encoded: decoding the blocks one
      after the other gives the bytes all the items stand for. */
  lemma {:induction false} DecodeOfBlocks(input: seq<Byte>, parts: seq<seq<Item>>, bs: seq<Block>, s: seq<Byte>)
    requires AllRepresent(input, parts, bs) && Expand(Flat(parts)) == Bytes(s)
    ensures Decoded(input, bs) == Bytes(s)
  {
    hide Represents, AfterBlock, Expand;
    if bs == [] {
      NoItems();
    } else {
      var n := |bs| - 1;
      var front := parts[..n];
      assert Flat(parts) == Flat(front) + parts[n];
      ExpandFront(Flat(front), parts[n]);
      forall k: nat | k < n
        ensures Represents(input, Flat(front[..k]), front[k], bs[..n][k])
      {
        assert front[..k] == parts[..k];
      }
      DecodeOfBlocks(input, front, bs[..n], Expand(Flat(front)).s);
      OneBlock(input, Flat(front), parts[n], bs[n], Expand(Flat(front)).s, s);
    }
  }

  lemma NoItems()
    ensures Expand([]) == Bytes([])
  {
  }
}
