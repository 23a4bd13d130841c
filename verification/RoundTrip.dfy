/** deflate and inflate together: what the one compresses, the other gives back. */
module RoundTrip {
  import opened Arith
  import opened BitReader
  import opened DeflateFormat
  import opened Lz77
  import opened Encoding
  import opened InflateProgress
  import opened InflateFast
  import opened InflateBlock
  import opened InflateStream
  import opened InflateRuns
  import opened BlockRuns
  import opened Deflate
  import HashChain

  // ----- A finished compressor --------------------------------------------------------------------

  lemma {:induction false} EncodableParts(parts: seq<seq<Item>>, maxDist: int, k: nat)
    requires Encodable(Flat(parts), maxDist) && k < |parts|
    ensures Encodable(parts[k], maxDist)
  {
    var n := |parts| - 1;
    EncodableBoth(Flat(parts[..n]), parts[n], maxDist);
    if k < n {
      EncodableParts(parts[..n], maxDist, k);
    }
  }

  lemma EncodableBoth(ts: seq<Item>, us: seq<Item>, maxDist: int)
    requires Encodable(ts + us, maxDist)
    ensures Encodable(ts, maxDist) && Encodable(us, maxDist)
  {
    assert forall i: nat :: i < |ts| ==> (ts + us)[i] == ts[i];
    assert forall i: nat :: i < |us| ==> (ts + us)[|ts| + i] == us[i];
  }

  lemma EncodableFar(ts: seq<Item>, m: int, n: int)
    requires Encodable(ts, m) && m <= n
    ensures Encodable(ts, n)
  {
  }

  /** Whatever input a compressor was given, and however: there is a stream of the blocks it
      handed on, with the fixed codes for one, and it decodes to that input. */
  lemma Compressible(s: Deflater) returns (stream: seq<Byte>, bs: seq<Block>)
    requires s.Compressing() && s.finished
    ensures AllRepresent(stream, s.blocks, bs) && Decoded(stream, bs) == Bytes(s.input)
  {
    hide *;
    FixedFull();
    FullMeans(FixedCodes());
    EndedTokens(s);
    var codes := seq(|s.blocks|, _ => FixedCodes());
    forall k: nat | k < |s.blocks|
      ensures AllSpellable(codes[k], s.blocks[k] + [EndOfBlock])
    {
      EncodableParts(s.blocks, s.MaxDist(), k);
      EncodableSpellable(FixedCodes(), s.blocks[k], s.MaxDist());
    }
    CoveringIs(codes, s.blocks);
    stream, bs := StreamExists(codes, s.blocks);
    DecompressesToInput(s, stream, bs);
  }

  lemma FullMeans(c: Codes)
    requires Full(c)
    ensures GoodCodes(c)
  {
    hide GoodCodes;
  }

  lemma CoveringIs(codes: seq<Codes>, parts: seq<seq<Item>>)
    requires |codes| == |parts|
    requires forall k: nat :: k < |parts| ==> GoodCodes(codes[k]) && AllSpellable(codes[k], parts[k] + [EndOfBlock])
    ensures Covering(codes, parts)
  {
    hide GoodCodes, AllSpellable;
  }

  /** The blocks of a finished compressor: all its tokens, with distances less than its window. */
  lemma EndedTokens(s: Deflater)
    requires s.Compressing() && s.finished
    ensures Expand(Flat(s.blocks)) == Bytes(s.input) && Encodable(Flat(s.blocks), s.MaxDist())
    ensures s.MaxDist() < s.wsize == Pow2(s.wbits) && s.wsize <= 32768
  {
    hide Expand, Encodable, Pow2, HashChain.Chained, Loaded, Deflater.Rolled, Deflater.Pending;
    NoneInHand(s);
  }

  // ----- Inflating it -----------------------------------------------------------------------------

  /** After `k` of the items. */
  lemma Reaches(c: Codes, input: seq<Byte>, pos: nat, before: seq<Item>, ts: seq<Item>, h: seq<Byte>, k: nat)
    requires GoodCodes(c) && SpellsOut(c, input, pos, ts + [EndOfBlock]) && Expand(before) == Bytes(h)
    requires Expand(before + ts).Bytes?
    ensures k <= |ts| ==>
              && Expand(before + ts[..k]).Bytes?
              && After(c, input, Progress(pos, h), k)
                 == At(Progress(PosAfter(c, input, pos, k), Expand(before + ts[..k]).s))
              && Spell(c, From(input, PosAfter(c, input, pos, k))).item == (ts + [EndOfBlock])[k]
  {
    hide *;
    if k <= |ts| {
      SpellsSome(c, input, pos, ts, k);
      assert before + ts == (before + ts[..k]) + ts[k..];
      ExpandFront(before + ts[..k], ts[k..]);
      DecodeOfItems(c, input, pos, before, ts[..k], h, Expand(before + ts[..k]).s);
    }
  }

  lemma SpellsSome(c: Codes, input: seq<Byte>, pos: nat, ts: seq<Item>, k: nat)
    requires GoodCodes(c) && SpellsOut(c, input, pos, ts + [EndOfBlock]) && k <= |ts|
    ensures SpellsOut(c, input, pos, ts[..k])
    ensures Spell(c, From(input, PosAfter(c, input, pos, k))).item == (ts + [EndOfBlock])[k]
  {
    hide GoodCodes, Spell, From, PosAfter;
    var all := ts + [EndOfBlock];
    forall j: nat | j < k
      ensures ItemAt(c, input, pos, j) == ts[..k][j]
    {
      assert ItemAt(c, input, pos, j) == all[j];
    }
    assert ItemAt(c, input, pos, k) == all[k];
  }

  lemma {:induction false} FlatFront(parts: seq<seq<Item>>, k: nat)
    requires k <= |parts| && Expand(Flat(parts)).Bytes?
    ensures Expand(Flat(parts[..k])).Bytes?
    decreases |parts|
  {
    hide Expand;
    if k == |parts| {
      assert parts[..k] == parts;
    } else {
      var n := |parts| - 1;
      ExpandFront(Flat(parts[..n]), parts[n]);
      FlatFront(parts[..n], k);
      assert parts[..n][..k] == parts[..k];
    }
  }

  /** A stream of blocks that represent `parts`, which stand for `all`, with no distance beyond
      `maxDist`. */
  ghost predicate Carries(input: seq<Byte>, bs: seq<Block>, parts: seq<seq<Item>>, all: seq<Byte>, maxDist: int) {
    && AllRepresent(input, parts, bs) && Expand(Flat(parts)) == Bytes(all) && Encodable(Flat(parts), maxDist)
  }

  lemma CarriesMeans(input: seq<Byte>, bs: seq<Block>, parts: seq<seq<Item>>, all: seq<Byte>, maxDist: int)
    requires Carries(input, bs, parts, all, maxDist)
    ensures AllRepresent(input, parts, bs) && Expand(Flat(parts)) == Bytes(all) && Encodable(Flat(parts), maxDist)
    ensures |bs| == |parts|
  {
    hide Represents, Expand, Encodable, Flat;
  }

  lemma RepresentAt(input: seq<Byte>, parts: seq<seq<Item>>, bs: seq<Block>, k: nat)
    requires AllRepresent(input, parts, bs) && k < |bs|
    ensures |parts| == |bs| && Represents(input, Flat(parts[..k]), parts[k], bs[k])
  {
    hide Represents, Flat;
  }

  lemma FlatAt(parts: seq<seq<Item>>, k: nat)
    requires k < |parts|
    ensures Flat(parts[..k + 1]) == Flat(parts[..k]) + parts[k]
  {
    assert parts[..k + 1][..k] == parts[..k];
  }

  /** The blocks before block `k` decode to what their items stand for, a beginning of it all. */
  lemma {:induction false} SoFar(input: seq<Byte>, bs: seq<Block>, parts: seq<seq<Item>>, all: seq<Byte>,
                                 maxDist: int, k: nat)
    requires Carries(input, bs, parts, all, maxDist) && k <= |bs|
    ensures |bs| == |parts| && Decoded(input, bs[..k]) == Expand(Flat(parts[..k]))
    ensures Decoded(input, bs[..k]).Bytes? && Decoded(input, bs[..k]).s <= all
    ensures k == |bs| ==> Decoded(input, bs[..k]).s == all
    decreases |bs| - k
  {
    hide *;
    CarriesMeans(input, bs, parts, all, maxDist);
    if k == |bs| {
      assert bs[..k] == bs && parts[..k] == parts;
      DecodeOfBlocks(input, parts, bs, all);
    } else {
      SoFar(input, bs, parts, all, maxDist, k + 1);
      FlatAt(parts, k);
      ExpandFront(Flat(parts[..k]), parts[k]);
      ExpandGrows(Flat(parts[..k]), parts[k], Expand(Flat(parts[..k])).s, Expand(Flat(parts[..k + 1])).s);
      FrontRepresents(input, parts, bs, k);
      DecodeOfBlocks(input, parts[..k], bs[..k], Expand(Flat(parts[..k])).s);
    }
  }

  lemma FrontRepresents(input: seq<Byte>, parts: seq<seq<Item>>, bs: seq<Block>, k: nat)
    requires AllRepresent(input, parts, bs) && k <= |bs|
    ensures AllRepresent(input, parts[..k], bs[..k])
  {
    hide Represents, Flat;
    forall j: nat | j < k
      ensures Represents(input, Flat(parts[..k][..j]), parts[..k][j], bs[..k][j])
    {
      assert parts[..k][..j] == parts[..j];
    }
  }

  /** A coded block comes to its end, within the input, and has put out a beginning of it all. */
  lemma CodedBlock(input: seq<Byte>, bs: seq<Block>, parts: seq<seq<Item>>, all: seq<Byte>, maxDist: int,
                   k: nat, begin: seq<Byte>)
    requires Carries(input, bs, parts, all, maxDist) && k < |bs| && bs[k].Coded?
    requires Decoded(input, bs[..k]) == Bytes(begin)
    ensures |bs| == |parts| && GoodCodes(bs[k].codes) && Encodable(parts[k], maxDist)
    ensures var (c, start, n) := (bs[k].codes, Progress(bs[k].pos, begin), |parts[k]|);
            && EndsAfter(c, input, start, n) && After(c, input, start, n).At?
            && After(c, input, start, n).p.out <= all && EndPos(c, input, start, n) <= 8 * |input|
    ensures SpellsOut(bs[k].codes, input, bs[k].pos, parts[k] + [EndOfBlock])
    ensures Expand(Flat(parts[..k])) == Bytes(begin) && Expand(Flat(parts[..k]) + parts[k]).Bytes?
    ensures bs[k].pos <= 8 * |input|
  {
    hide *;
    CarriesMeans(input, bs, parts, all, maxDist);
    SoFar(input, bs, parts, all, maxDist, k);
    SoFar(input, bs, parts, all, maxDist, k + 1);
    RepresentAt(input, parts, bs, k);
    CodedIs(input, Flat(parts[..k]), parts[k], bs[k]);
    FlatAt(parts, k);
    EncodableParts(parts, maxDist, k);
    var c, pos, ts := bs[k].codes, bs[k].pos, parts[k];
    CodedEnds(c, input, pos, Flat(parts[..k]), ts, begin, Expand(Flat(parts[..k + 1])).s);
    Reaches(c, input, pos, Flat(parts[..k]), ts, begin, |ts|);
    OneOn(c, input, pos, |ts|);
    EndIs(c, input, Progress(pos, begin), |ts|, pos);
    PosGrows(c, input, pos, |ts| + 1);
  }

  lemma CodedIs(input: seq<Byte>, before: seq<Item>, ts: seq<Item>, b: Block)
    requires Represents(input, before, ts, b) && b.Coded?
    ensures GoodCodes(b.codes) && SpellsOut(b.codes, input, b.pos, ts + [EndOfBlock])
    ensures PosAfter(b.codes, input, b.pos, |ts| + 1) <= 8 * |input|
  {
    hide GoodCodes, SpellsOut, PosAfter;
  }

  lemma StoredIs(input: seq<Byte>, before: seq<Item>, ts: seq<Item>, b: Block)
    requires Represents(input, before, ts, b) && b.Stored?
    ensures b.at + b.length <= |input| && Expand(before).Bytes?
    ensures Expand(before + ts) == Bytes(Expand(before).s + input[b.at..b.at + b.length])
  {
    hide Expand;
  }

  lemma OneOn(c: Codes, input: seq<Byte>, pos: nat, n: nat)
    requires GoodCodes(c)
    ensures PosAfter(c, input, pos, n + 1)
         == PosAfter(c, input, pos, n) + Spell(c, From(input, PosAfter(c, input, pos, n))).bits
  {
    hide GoodCodes, Spell, From;
  }

  lemma {:induction false} PosGrows(c: Codes, input: seq<Byte>, pos: nat, n: nat)
    requires GoodCodes(c)
    ensures pos <= PosAfter(c, input, pos, n)
  {
    hide GoodCodes, Spell, From;
    if n > 0 {
      PosGrows(c, input, pos, n - 1);
    }
  }

  lemma EndIs(c: Codes, input: seq<Byte>, start: Progress, n: nat, pos: nat)
    requires GoodCodes(c) && After(c, input, start, n).At?
    requires After(c, input, start, n).p.pos == PosAfter(c, input, pos, n)
    ensures EndPos(c, input, start, n)
         == PosAfter(c, input, pos, n) + Spell(c, From(input, PosAfter(c, input, pos, n))).bits
  {
    hide GoodCodes, Spell, From, After, PosAfter;
  }

  /** The item at which a decoder of such a block is. */
  lemma ItemIs(c: Codes, input: seq<Byte>, pos: nat, before: seq<Item>, ts: seq<Item>, h: seq<Byte>, r: Trace)
    requires GoodCodes(c) && SpellsOut(c, input, pos, ts + [EndOfBlock])
    requires Expand(before) == Bytes(h) && Expand(before + ts).Bytes?
    requires Follows(c, input, r) && r.start == Progress(pos, h) && r.items <= |ts|
    ensures Spell(c, From(input, r.here.pos)).item == (ts + [EndOfBlock])[r.items]
  {
    hide *;
    FollowsMeans(c, input, r);
    Reaches(c, input, pos, before, ts, h, r.items);
  }

  lemma EncodableDist(ts: seq<Item>, maxDist: int, k: nat)
    requires Encodable(ts, maxDist) && k < |ts|
    ensures ts[k].Match? ==> ts[k].dist <= maxDist
  {
  }

  // ----- An Inflater on such a stream ---------------------------------------------------------------

  ghost predicate Serves(i: Inflater, parts: seq<seq<Item>>, all: seq<Byte>)
    reads i, i.w, i.w.data
  {
    i.Valid() && Carries(i.input, i.bs, parts, all, Pow2(i.w.wbits))
  }

  lemma ServesMeans(i: Inflater, parts: seq<seq<Item>>, all: seq<Byte>)
    requires Serves(i, parts, all)
    ensures i.Valid() && Carries(i.input, i.bs, parts, all, Pow2(i.w.wbits))
  {
    hide Carries, Pow2;
  }

  /** The data are never found bad. */
  lemma NeverBad(i: Inflater, parts: seq<seq<Item>>, all: seq<Byte>)
    requires Serves(i, parts, all)
    ensures !IsBad(i.bs, i.p)
  {
    hide *;
    ServesMeans(i, parts, all);
    IsValid(i);
    PlaceIs(i.bs, i.p);
    if InCoded(i.bs, i.p) {
      var k, m := i.p.k, Pow2(i.w.wbits);
      CodedMeans(i.bs, i.tables, i.input, i.p, i.r, i.begin, i.produced);
      var c := i.bs[k].codes;
      ReadyMeans(i.tables[k], c, i.input, i.r, i.p.s, i.produced);
      CodedBlock(i.input, i.bs, parts, all, m, k, i.begin);
      PutSoFar(c, i.input, |parts[k]|, i.r, i.p.s, i.produced);
      DecodingFollows(c, i.input, i.r, i.p.s, i.produced);
      ItemIs(c, i.input, i.bs[k].pos, Flat(parts[..k]), parts[k], i.begin, i.r);
      if i.r.items < |parts[k]| {
        EncodableDist(parts[k], m, i.r.items);
      }
      if IsBad(i.bs, i.p) {
        FairMeans(i.bs, i.input, i.p, i.r, i.produced, i.w.wbits);
      }
    }
  }

  /** What has been put out is a beginning of it all. */
  lemma PutIsPrefix(i: Inflater, parts: seq<seq<Item>>, all: seq<Byte>)
    requires Serves(i, parts, all)
    ensures i.produced <= all && (IsDone(i.bs, i.p) ==> i.produced == all)
  {
    hide *;
    ServesMeans(i, parts, all);
    NeverBad(i, parts, all);
    IsValid(i);
    PlaceIs(i.bs, i.p);
    RightMeans(i.bs, i.tables, i.input, i.p, i.r, i.begin, i.produced);
    DoneIs(i.bs, i.p);
    var k, m := i.p.k, Pow2(i.w.wbits);
    SoFar(i.input, i.bs, parts, all, m, k);
    if InCoded(i.bs, i.p) {
      CodedMeans(i.bs, i.tables, i.input, i.p, i.r, i.begin, i.produced);
      var c := i.bs[k].codes;
      ReadyMeans(i.tables[k], c, i.input, i.r, i.p.s, i.produced);
      CodedBlock(i.input, i.bs, parts, all, m, k, i.begin);
      WithinBlock(c, i.input, |parts[k]|, i.r, i.p.s, i.produced);
    } else if InStored(i.bs, i.p) {
      StoredMeans(i.bs, i.tables, i.input, i.p, i.r, i.begin, i.produced);
      CarriesMeans(i.input, i.bs, parts, all, m);
      SoFar(i.input, i.bs, parts, all, m, k + 1);
      RepresentAt(i.input, parts, i.bs, k);
      StoredIs(i.input, Flat(parts[..k]), parts[k], i.bs[k]);
      FlatAt(parts, k);
      PartStored(i.begin, i.input, i.bs[k].at, i.p.copied, i.bs[k].length);
    }
  }

  /** With all the stream there and room left, it does not stop before the end. */
  lemma KeepsGoing(i: Inflater, parts: seq<seq<Item>>, all: seq<Byte>, room: nat)
    requires Serves(i, parts, all) && |i.tables| == |i.bs| && room > 0
    requires Waiting(i.bs, i.tables, i.input, i.p, |i.input|, room)
    ensures IsDone(i.bs, i.p)
  {
    hide *;
    ServesMeans(i, parts, all);
    NeverBad(i, parts, all);
    IsValid(i);
    PlaceIs(i.bs, i.p);
    var k, m := i.p.k, Pow2(i.w.wbits);
    RightMeans(i.bs, i.tables, i.input, i.p, i.r, i.begin, i.produced);
    WaitingMeans(i.bs, i.tables, i.input, i.p, |i.input|, room);
    CarriesMeans(i.input, i.bs, parts, all, m);
    if k < |i.bs| {
      TablesMean(i.bs, i.tables, k);
      RepresentAt(i.input, parts, i.bs, k);
      if i.bs[k].Coded? {
        CodedBlock(i.input, i.bs, parts, all, m, k, i.begin);
        if i.p.begun {
          CodedMeans(i.bs, i.tables, i.input, i.p, i.r, i.begin, i.produced);
          var c := i.bs[k].codes;
          ReadyMeans(i.tables[k], c, i.input, i.r, i.p.s, i.produced);
          if i.p.s.mode in {LEN, LENEXT, DIST, DISTEXT} && i.p.s.b.bits < Need(i.tables[k], i.input, i.p.s) {
            BlockRuns.NotWaiting(i.tables[k], c, i.input, |parts[k]|, i.r, i.p.s, i.produced);
          }
        }
      } else {
        StoredIs(i.input, Flat(parts[..k]), parts[k], i.bs[k]);
      }
    }
  }

  lemma WaitingMeans(bs: seq<Block>, tables: seq<Tables>, input: seq<Byte>, p: Place, n: nat, room: nat)
    requires |tables| == |bs| && Waiting(bs, tables, input, p, n, room)
    ensures IsDone(bs, p) <==> p.k == |bs|
    ensures p.k < |bs| && !IsBad(bs, p) && !p.begun ==>
              8 * n < if bs[p.k].Coded? then bs[p.k].pos else 8 * bs[p.k].at
    ensures InCoded(bs, p) && !IsBad(bs, p) && room > 0 ==>
              && p.s.mode in {LEN, LENEXT, DIST, DISTEXT}
              && p.s.b.next == n && p.s.b.bits < Need(tables[p.k], input, p.s)
    ensures InStored(bs, p) && room > 0 ==> p.copied < bs[p.k].length && bs[p.k].at + p.copied == n
  {
    hide Need;
  }

  /** inflate undoes deflate, for every Inflater with a window no smaller, in whatever calls it
      has come wherever it is: what it has put out is the beginning of the input the compressor
      was given; it has found nothing bad; it stops before the end only for want of input or room;
      and at the end it has put out all the input. */
  lemma InflateUndoesDeflate(s: Deflater, i: Inflater)
    requires s.Compressing() && s.finished && AllRepresent(i.input, s.blocks, i.bs)
    requires i.Valid() && s.wbits <= i.w.wbits
    ensures Serves(i, s.blocks, s.input)
    ensures i.produced <= s.input && !IsBad(i.bs, i.p)
    ensures IsDone(i.bs, i.p) ==> i.produced == s.input
    ensures |i.tables| == |i.bs|
    ensures forall room: nat :: room > 0 && Waiting(i.bs, i.tables, i.input, i.p, |i.input|, room) ==>
              IsDone(i.bs, i.p)
  {
    hide *;
    EndedTokens(s);
    Pow2Mono(s.wbits, i.w.wbits);
    EncodableFar(Flat(s.blocks), s.MaxDist(), Pow2(i.w.wbits));
    MakeServes(i, s.blocks, s.input);
    NeverBad(i, s.blocks, s.input);
    PutIsPrefix(i, s.blocks, s.input);
    IsValid(i);
    forall room: nat | room > 0 && Waiting(i.bs, i.tables, i.input, i.p, |i.input|, room)
      ensures IsDone(i.bs, i.p)
    {
      KeepsGoing(i, s.blocks, s.input, room);
    }
  }

  lemma MakeServes(i: Inflater, parts: seq<seq<Item>>, all: seq<Byte>)
    requires i.Valid() && AllRepresent(i.input, parts, i.bs)
    requires Expand(Flat(parts)) == Bytes(all) && Encodable(Flat(parts), Pow2(i.w.wbits))
    ensures Serves(i, parts, all)
  {
    hide AllRepresent, Expand, Encodable, Pow2, Flat;
  }

  /** One call: how much of the stream there is by then, and how much room. */
  datatype Call = Call(avail: nat, room: nat)

  /** More and more of a stream of `n` bytes. */
  predicate Growing(calls: seq<Call>, n: nat) {
    && (forall k: nat :: k < |calls| ==> calls[k].avail <= n)
    && forall j: nat, k: nat :: j < k < |calls| ==> calls[j].avail <= calls[k].avail
  }

  /** Decompresses: any calls at first, with whatever is there, and then calls with all the stream
      and some room each time until the end, which always comes.  The output is the input of the
      compressor. */
  method Decompress(stream: seq<Byte>, bs: seq<Block>, tables: seq<Tables>, wbits: nat, calls: seq<Call>, room: nat,
                    ghost s: Deflater)
    returns (i: Inflater)
    requires s.Compressing() && s.finished && AllRepresent(stream, s.blocks, bs) && s.wbits <= wbits
    requires TablesFor(bs, tables) && Growing(calls, |stream|) && room > 0
    ensures fresh(i) && i.Valid() && i.bs == bs && i.input == stream && i.w.wbits == wbits
    ensures IsDone(i.bs, i.p) && i.produced == s.input
  {
    hide *;
    i := new Inflater(bs, tables, wbits, stream);
    PlaceIs(bs, i.p);
    var k := 0;
    while k < |calls|
      invariant k <= |calls| && i.Valid() && fresh(i) && fresh(i.w) && fresh(i.w.data)
      invariant i.bs == bs && i.input == stream && i.w.wbits == wbits
      invariant Taken(bs, i.p) <= if k == 0 then 0 else calls[k - 1].avail
    {
      GrowingAt(calls, |stream|, k);
      var out := new Byte[calls[k].room];
      var _ := i.Inflate(stream[..calls[k].avail], out);
      k := k + 1;
    }
    if k > 0 {
      GrowingAt(calls, |stream|, k - 1);
    }
    InflateUndoesDeflate(s, i);
    DoneIs(bs, i.p);
    while i.p.k != |bs|
      invariant i.Valid() && fresh(i) && fresh(i.w) && fresh(i.w.data)
      invariant i.bs == bs && i.input == stream && i.w.wbits == wbits && Taken(bs, i.p) <= |stream|
      invariant i.produced <= s.input && (IsDone(bs, i.p) ==> i.produced == s.input)
      invariant IsDone(bs, i.p) <==> i.p.k == |bs|
      decreases |s.input| - |i.produced|, i.p.k != |bs|
    {
      var out := new Byte[room];
      var put := i.Inflate(stream, out);
      InflateUndoesDeflate(s, i);
      DoneIs(bs, i.p);
    }
  }

  lemma GrowingAt(calls: seq<Call>, n: nat, k: nat)
    requires Growing(calls, n) && k < |calls|
    ensures calls[k].avail <= n && (k > 0 ==> calls[k - 1].avail <= calls[k].avail)
  {
  }
}
