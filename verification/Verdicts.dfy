/** When the verdict of inflate on a block depends on how the calls are cut: exactly when a
    match reaches further back than the window is wide. */
module Verdicts {
  import opened Arith
  import opened CanonicalCode
  import opened BitReader
  import opened DecodeTable
  import opened DeflateFormat
  import opened Lz77
  import opened Encoding
  import opened InflateWindow
  import opened InflateProgress
  import opened InflateFast
  import opened InflateBlock
  import opened InflateStream
  import opened BlockRuns
  import opened RoundTrip
  import InflateTable

  // ----- A stream of one block ----------------------------------------------------------------------

  const START: Progress := Progress(0, [])

  lemma StartIs()
    ensures START == Progress(0, [])
  {
  }

  /** The input is one block, which comes to its end after `n` items. */
  ghost predicate WholeBlock(c: Codes, input: seq<Byte>, n: nat) {
    && GoodCodes(c) && EndsAfter(c, input, START, n)
    && After(c, input, START, n).At? && EndPos(c, input, START, n) <= 8 * |input|
  }

  lemma BlockMeans(c: Codes, input: seq<Byte>, n: nat)
    requires WholeBlock(c, input, n)
    ensures GoodCodes(c) && EndsAfter(c, input, START, n)
    ensures After(c, input, START, n).At? && EndPos(c, input, START, n) <= 8 * |input|
  {
    hide GoodCodes, EndsAfter, After, EndPos;
  }

  /** The output of its first `k` items. */
  ghost function Out(c: Codes, input: seq<Byte>, k: nat): seq<Byte>
    requires GoodCodes(c) && After(c, input, START, k).At?
  {
    After(c, input, START, k).p.out
  }

  ghost function ItemOf(c: Codes, input: seq<Byte>, k: nat): Item
    requires GoodCodes(c) && After(c, input, START, k).At?
  {
    Spell(c, From(input, After(c, input, START, k).p.pos)).item
  }

  lemma OutMono(c: Codes, input: seq<Byte>, n: nat, k: nat, m: nat)
    requires WholeBlock(c, input, n) && k <= m <= n
    ensures GoodCodes(c) && After(c, input, START, k).At? && After(c, input, START, m).At?
    ensures |Out(c, input, k)| <= |Out(c, input, m)|
  {
    hide *;
    BlockMeans(c, input, n);
    OutputGrows(c, input, START, m, n);
    OutputGrows(c, input, START, k, m);
    OutIs(c, input, k);
    OutIs(c, input, m);
  }

  lemma OutIs(c: Codes, input: seq<Byte>, k: nat)
    requires GoodCodes(c) && After(c, input, START, k).At?
    ensures Out(c, input, k) == After(c, input, START, k).p.out
    ensures ItemOf(c, input, k) == Spell(c, From(input, After(c, input, START, k).p.pos)).item
  {
    hide GoodCodes, After, Spell, From;
  }

  /** Before the end every item leads on. */
  lemma OutGrows(c: Codes, input: seq<Byte>, n: nat, k: nat)
    requires WholeBlock(c, input, n) && k < n
    ensures GoodCodes(c) && After(c, input, START, k).At? && After(c, input, START, k + 1).At?
    ensures CanStep(c, input, After(c, input, START, k).p)
    ensures Out(c, input, k + 1) == Step(c, input, After(c, input, START, k).p).out
    ensures ItemOf(c, input, k).Match? ==>
              && 0 < ItemOf(c, input, k).dist <= |Out(c, input, k)|
              && |Out(c, input, k + 1)| == |Out(c, input, k)| + ItemOf(c, input, k).len
  {
    hide *;
    BlockMeans(c, input, n);
    OutputGrows(c, input, START, k + 1, n);
    OneStep(c, input, START, k);
    StepMeans(c, input, After(c, input, START, k).p);
    OutIs(c, input, k);
    OutIs(c, input, k + 1);
  }

  // ----- A decoder of it ------------------------------------------------------------------------------

  /** An Inflater for this one block. */
  ghost predicate Handles(i: Inflater, c: Codes, n: nat)
    reads i, i.w, i.w.data
  {
    i.Valid() && i.bs == [Coded(c, 0)] && WholeBlock(c, i.input, n)
  }

  lemma HandlesMeans(i: Inflater, c: Codes, n: nat)
    requires Handles(i, c, n)
    ensures i.Valid() && i.bs == [Coded(c, 0)] && WholeBlock(c, i.input, n) && GoodCodes(c)
    ensures |i.tables| == 1 && ForCodes(i.tables[0], c)
  {
    hide Right, FairlyBad, Window.Valid, IsBad, GoodCodes, EndsAfter, After, EndPos;
    TablesMean(i.bs, i.tables, 0);
  }

  /** It is at the beginning or inside the block, or past it. */
  lemma Inside(i: Inflater, c: Codes, n: nat)
    requires Handles(i, c, n)
    ensures InCoded(i.bs, i.p) ==>
              && i.p.k == 0 && i.r.start == START && i.p.s.mode != TYPE && |i.tables| == 1 && GoodCodes(c)
              && Decoding(c, i.input, i.r, i.p.s, i.produced)
              && i.r.items <= n && After(c, i.input, START, i.r.items) == At(i.r.here)
              && i.r.here.out == Out(c, i.input, i.r.items)
              && Spell(c, From(i.input, i.r.here.pos)).item == ItemOf(c, i.input, i.r.items)
    ensures !InCoded(i.bs, i.p) && i.p.k == 0 ==> i.produced == []
    ensures GoodCodes(c) && After(c, i.input, START, n).At? && i.p.k <= 1
    ensures i.p.k == 1 ==> i.produced == Out(c, i.input, n)
  {
    hide *;
    StartIs();
    HandlesMeans(i, c, n);
    BlockMeans(c, i.input, n);
    IsValid(i);
    PlaceIs(i.bs, i.p);
    RightMeans(i.bs, i.tables, i.input, i.p, i.r, i.begin, i.produced);
    OutIs(c, i.input, n);
    NothingDecoded(i.input, i.bs);
    if InCoded(i.bs, i.p) {
      CodedMeans(i.bs, i.tables, i.input, i.p, i.r, i.begin, i.produced);
      ReadyMeans(i.tables[0], c, i.input, i.r, i.p.s, i.produced);
      DecodingFollows(c, i.input, i.r, i.p.s, i.produced);
      WhereItIs(c, i.input, n, i.r);
      OutIs(c, i.input, i.r.items);
    }
    if i.p.k == 1 {
      CodedOut(c, i.input, 0, [], n);
      DecodedOn(i.input, i.bs, 0);
      assert i.bs[..1] == i.bs;
    }
  }

  /** With all the input there, a call returns at the end of the block, or where the data are found
      bad, or where the room ends inside an item. */
  lemma WhyItStops(i: Inflater, c: Codes, n: nat, room: nat)
    requires Handles(i, c, n) && |i.tables| == |i.bs|
    requires Waiting(i.bs, i.tables, i.input, i.p, |i.input|, room)
    ensures IsDone(i.bs, i.p) || IsBad(i.bs, i.p) || (InCoded(i.bs, i.p) && i.p.s.mode in {LIT, MATCH} && room == 0)
  {
    hide *;
    HandlesMeans(i, c, n);
    BlockMeans(c, i.input, n);
    Inside(i, c, n);
    PlaceIs(i.bs, i.p);
    StopMeans(i.bs, i.tables, i.input, i.p, |i.input|, room);
    if InCoded(i.bs, i.p) && i.p.s.mode in {LEN, LENEXT, DIST, DISTEXT}
       && i.p.s.b.bits < Need(i.tables[0], i.input, i.p.s) {
      BlockRuns.NotWaiting(i.tables[0], c, i.input, n, i.r, i.p.s, i.produced);
    }
  }

  lemma StopMeans(bs: seq<Block>, tables: seq<Tables>, input: seq<Byte>, p: Place, n: nat, room: nat)
    requires |tables| == |bs| && Waiting(bs, tables, input, p, n, room) && |bs| == 1 && bs[0].Coded? && bs[0].pos == 0
    ensures
      || IsDone(bs, p) || IsBad(bs, p)
      || (InCoded(bs, p) && p.s.mode in {LEN, LENEXT, DIST, DISTEXT}
          && p.s.b.next == n && p.s.b.bits < Need(tables[p.k], input, p.s))
      || (InCoded(bs, p) && p.s.mode in {LIT, MATCH} && room == 0)
  {
    hide Need;
  }

  /** Inside the block: how much has been put out. */
  lemma PutInside(i: Inflater, c: Codes, n: nat)
    requires Handles(i, c, n) && InCoded(i.bs, i.p)
    ensures GoodCodes(c) && i.r.items <= n && After(c, i.input, START, i.r.items).At?
    ensures |Out(c, i.input, i.r.items)| <= |i.produced|
    ensures i.p.s.mode in {LIT, MATCH} ==>
              && i.r.items < n && After(c, i.input, START, i.r.items + 1).At?
              && |i.produced| < |Out(c, i.input, i.r.items + 1)|
    ensures i.p.s.mode == LIT ==>
              |i.produced| == |Out(c, i.input, i.r.items)| && !ItemOf(c, i.input, i.r.items).Match?
    ensures i.p.s.mode == BAD ==> i.r.items < n && ItemOf(c, i.input, i.r.items).Match?
  {
    hide *;
    HandlesMeans(i, c, n);
    BlockMeans(c, i.input, n);
    Inside(i, c, n);
    PutSoFar(c, i.input, n, i.r, i.p.s, i.produced);
    if i.r.items < n {
      OutGrows(c, i.input, n, i.r.items);
    }
  }

  /** Within reach, in terms of the output. */
  lemma ReachAt(c: Codes, input: seq<Byte>, n: nat, k: nat, base: nat, whave: nat)
    requires WholeBlock(c, input, n) && k < n
    ensures GoodCodes(c) && After(c, input, START, k).At?
    ensures ItemOf(c, input, k).Match? ==>
              (Within(c, input, START, k, base, whave) <==>
               ItemOf(c, input, k).dist <= Known(|Out(c, input, k)|, base, whave))
  {
    hide *;
    BlockMeans(c, input, n);
    OutMono(c, input, n, k, n);
    OutIs(c, input, k);
    var r := Trace(START, k, After(c, input, START, k).p);
    MakeFollows(c, input, r);
    WithinHere(c, input, r, base, whave);
  }

  lemma MakeFollows(c: Codes, input: seq<Byte>, r: Trace)
    requires GoodCodes(c) && After(c, input, r.start, r.items) == At(r.here)
    ensures Follows(c, input, r)
  {
    hide GoodCodes, After;
  }

  /** A call that refused a match or passed one, in terms of what was in reach. */
  lemma JudgedAt(c: Codes, input: seq<Byte>, n: nat, from: nat, r: Trace, s: InflateProgress.State,
                 base: nat, whave: nat, k: nat)
    requires WholeBlock(c, input, n) && k < n && r.start == START && from <= k
    requires Judged(c, input, from, r, s, base, whave)
    ensures GoodCodes(c) && After(c, input, START, k).At?
    ensures k < r.items && ItemOf(c, input, k).Match? ==>
              ItemOf(c, input, k).dist <= Known(|Out(c, input, k)|, base, whave)
    ensures k == r.items && s.mode == BAD && Spell(c, From(input, r.here.pos)).item.Match?
            && ItemOf(c, input, k).Match? ==>
              ItemOf(c, input, k).dist > Known(|Out(c, input, k)|, base, whave)
  {
    hide *;
    BlockMeans(c, input, n);
    ReachAt(c, input, n, k, base, whave);
    JudgedIs(c, input, from, r, s, base, whave);
    if k < r.items {
      ReachedAt(c, input, START, from, r.items, base, whave, k);
    }
  }

  lemma ReachedAt(c: Codes, input: seq<Byte>, start: Progress, from: nat, to: nat, base: nat, whave: nat, k: nat)
    requires GoodCodes(c) && Reached(c, input, start, from, to, base, whave) && from <= k < to
    ensures Within(c, input, start, k, base, whave)
  {
    hide GoodCodes, Within;
  }

  // ----- One call -----------------------------------------------------------------------------------

  /** A decoder for the block. */
  method Start(t: Tables, c: Codes, ghost input: seq<Byte>, ghost n: nat, wbits: nat) returns (i: Inflater)
    requires ForCodes(t, c) && WholeBlock(c, input, n)
    ensures fresh(i) && fresh(i.w) && fresh(i.w.data) && Handles(i, c, n) && i.input == input
    ensures i.produced == [] && i.w.whave == 0 && i.w.wbits == wbits && i.p.k == 0 && !i.p.begun
  {
    hide *;
    OneTable(t, c);
    i := new Inflater([Coded(c, 0)], [t], wbits, input);
    MakeHandles(i, c, n);
  }

  lemma OneTable(t: Tables, c: Codes)
    requires ForCodes(t, c)
    ensures TablesFor([Coded(c, 0)], [t])
  {
    hide ForCodes;
  }

  lemma MakeHandles(i: Inflater, c: Codes, n: nat)
    requires i.Valid() && i.bs == [Coded(c, 0)] && WholeBlock(c, i.input, n)
    ensures Handles(i, c, n)
  {
    hide Right, TablesFor, FairlyBad, Window.Valid, IsBad, WholeBlock;
  }

  /** With all the input there, and room for everything, one call decodes the block, whatever
      the size of the window. */
  method InOneCall(t: Tables, c: Codes, input: seq<Byte>, ghost n: nat, room: nat, wbits: nat)
    returns (i: Inflater)
    requires ForCodes(t, c) && WholeBlock(c, input, n) && room >= |Out(c, input, n)|
    ensures fresh(i) && i.Valid() && i.w.wbits == wbits && IsDone(i.bs, i.p)
    ensures GoodCodes(c) && After(c, input, START, n).At? && i.produced == Out(c, input, n)
  {
    hide *;
    BlockMeans(c, input, n);
    i := Start(t, c, input, n, wbits);
    PlaceIs(i.bs, i.p);
    HandlesMeans(i, c, n);
    var out := new Byte[room];
    var put := i.Inflate(input, out);
    PlaceIs(i.bs, i.p);
    FirstCall(i, c, n, out.Length - put, out[..put]);
    DoneIs(i.bs, i.p);
    Inside(i, c, n);
    if InCoded(i.bs, i.p) {
      PutInside(i, c, n);
      OutMono(c, input, n, i.r.items + 1, n);
    }
  }

  /** In a first call nothing is found bad, since everything put out is in reach. */
  lemma NotBadAtFirst(i: Inflater, c: Codes, n: nat)
    requires Handles(i, c, n) && (InCoded(i.bs, i.p) ==> Judged(c, i.input, 0, i.r, i.p.s, 0, 0))
    ensures !IsBad(i.bs, i.p)
  {
    hide *;
    HandlesMeans(i, c, n);
    PlaceIs(i.bs, i.p);
    if InCoded(i.bs, i.p) {
      Inside(i, c, n);
      PutInside(i, c, n);
      if i.r.items < n {
        JudgedAt(c, i.input, n, 0, i.r, i.p.s, 0, 0, i.r.items);
        OutGrows(c, i.input, n, i.r.items);
        KnownIs(|Out(c, i.input, i.r.items)|, 0, 0);
      }
    }
  }

  /** After a first call with all the input. */
  lemma FirstCall(i: Inflater, c: Codes, n: nat, room: nat, o: seq<Byte>)
    requires i.Valid() && i.bs == [Coded(c, 0)] && WholeBlock(c, i.input, n)
    requires i.produced == [] + o && |i.tables| == |i.bs|
    requires Waiting(i.bs, i.tables, i.input, i.p, |i.input|, room)
    requires InCoded(i.bs, i.p) ==> Judged(c, i.input, 0, i.r, i.p.s, 0, 0)
    ensures Handles(i, c, n) && |i.produced| == |o|
    ensures IsDone(i.bs, i.p) || (InCoded(i.bs, i.p) && i.p.s.mode in {LIT, MATCH} && room == 0)
    ensures !IsBad(i.bs, i.p)
  {
    hide *;
    MakeHandles(i, c, n);
    WhyItStops(i, c, n, room);
    NotBadAtFirst(i, c, n);
    assert [] + o == o;
  }

  // ----- Two calls ------------------------------------------------------------------------------------

  /** A call that has room up to item `k`, a match, and no further stops in front of it. */
  method UpTo(t: Tables, c: Codes, input: seq<Byte>, ghost n: nat, ghost k: nat, room: nat, wbits: nat)
    returns (i: Inflater)
    requires ForCodes(t, c) && WholeBlock(c, input, n) && k < n && After(c, input, START, k).At?
    requires ItemOf(c, input, k).Match? && ItemOf(c, input, k).len > 0 && room == |Out(c, input, k)|
    ensures fresh(i) && fresh(i.w) && fresh(i.w.data) && Handles(i, c, n) && i.w.wbits == wbits && i.input == input
    ensures InCoded(i.bs, i.p) && i.p.s.mode == MATCH && i.r.items == k && |i.produced| == room
    ensures Taken(i.bs, i.p) <= |input|
  {
    hide *;
    BlockMeans(c, input, n);
    i := Start(t, c, input, n, wbits);
    PlaceIs(i.bs, i.p);
    HandlesMeans(i, c, n);
    var out := new Byte[room];
    var put := i.Inflate(input, out);
    PlaceIs(i.bs, i.p);
    FirstCall(i, c, n, out.Length - put, out[..put]);
    DoneIs(i.bs, i.p);
    Inside(i, c, n);
    OutGrows(c, input, n, k);
    OutMono(c, input, n, k + 1, n);
    if InCoded(i.bs, i.p) {
      PutInside(i, c, n);
      if i.r.items < k {
        OutMono(c, input, n, i.r.items + 1, k);
      } else if i.r.items > k {
        OutMono(c, input, n, k + 1, i.r.items);
      }
    }
  }

  /** If the calls are cut in front of a match that reaches further back than the window is
      wide, the data are found bad. */
  method InTwoCalls(t: Tables, c: Codes, input: seq<Byte>, ghost n: nat, ghost k: nat, first: nat, second: nat,
                    wbits: nat)
    returns (i: Inflater)
    requires ForCodes(t, c) && WholeBlock(c, input, n) && k < n && After(c, input, START, k).At?
    requires ItemOf(c, input, k).Match? && ItemOf(c, input, k).len > 0 && ItemOf(c, input, k).dist > Pow2(wbits)
    requires first == |Out(c, input, k)| && second >= |Out(c, input, n)|
    ensures fresh(i) && i.Valid() && i.w.wbits == wbits && IsBad(i.bs, i.p)
  {
    hide *;
    BlockMeans(c, input, n);
    i := UpTo(t, c, input, n, k, first, wbits);
    HandlesMeans(i, c, n);
    PlaceIs(i.bs, i.p);
    Inside(i, c, n);
    WindowHolds(i);
    ghost var base, whave := |i.produced|, i.w.whave;
    KnownIs(|Out(c, input, k)|, base, whave);
    OutGrows(c, input, n, k);
    OutMono(c, input, n, k + 1, n);
    var out := new Byte[second];
    var put := i.Inflate(input, out);
    PlaceIs(i.bs, i.p);
    SecondCall(i, c, n, k, out.Length - put, base, whave);
  }

  /** After the second call: item `k` was not passed. */
  lemma SecondCall(i: Inflater, c: Codes, n: nat, k: nat, room: nat, base: nat, whave: nat)
    requires i.Valid() && i.bs == [Coded(c, 0)] && WholeBlock(c, i.input, n) && k < n && |i.tables| == |i.bs|
    requires GoodCodes(c) && After(c, i.input, START, k).At? && After(c, i.input, START, n).At?
    requires Waiting(i.bs, i.tables, i.input, i.p, |i.input|, room)
    requires InCoded(i.bs, i.p) ==> Judged(c, i.input, k, i.r, i.p.s, base, whave)
    requires i.p.k <= |i.bs| && AllPassed(i.bs, i.input, 0, k, i.p.k, base, whave, |i.input|)
    requires ItemOf(c, i.input, k).Match? && ItemOf(c, i.input, k).dist > Known(|Out(c, i.input, k)|, base, whave)
    requires room == 0 ==> |i.produced| > |Out(c, i.input, n)|
    ensures IsBad(i.bs, i.p)
  {
    hide *;
    MakeHandles(i, c, n);
    WhyItStops(i, c, n, room);
    PlaceIs(i.bs, i.p);
    DoneIs(i.bs, i.p);
    Inside(i, c, n);
    if i.p.k == 1 {
      BlockMeans(c, i.input, n);
      WithinPassed(c, i.input, n, k, base, whave, |i.input|);
      ReachAt(c, i.input, n, k, base, whave);
    } else if InCoded(i.bs, i.p) {
      PutInside(i, c, n);
      JudgedAt(c, i.input, n, k, i.r, i.p.s, base, whave, k);
      if i.r.items < n {
        OutGrows(c, i.input, n, i.r.items);
        OutMono(c, i.input, n, i.r.items + 1, n);
      }
    }
  }

  /** If the block was passed from item `k` on, item `k` was in reach. */
  lemma WithinPassed(c: Codes, input: seq<Byte>, n: nat, k: nat, base: nat, whave: nat, have: nat)
    requires GoodCodes(c) && EndsAfter(c, input, START, n) && k < n
    requires AllPassed([Coded(c, 0)], input, 0, k, 1, base, whave, have)
    ensures Within(c, input, START, k, base, whave)
  {
    hide GoodCodes, EndsAfter, Reached, Within, AfterBlock, EndPos, After;
    var bs := [Coded(c, 0)];
    assert bs[0].Coded? && bs[..0] == [];
    assert Passed(c, input, START, k, base, whave, have);
    var m: nat :| EndsAfter(c, input, START, m) && k <= m && Reached(c, input, START, k, m, base, whave);
    EndsOnce(c, input, START, n, m);
    ReachedAt(c, input, START, k, m, base, whave, k);
  }

  lemma WindowHolds(i: Inflater)
    requires i.Valid()
    ensures i.w.whave <= Pow2(i.w.wbits)
  {
    hide Right, TablesFor, FairlyBad, IsBad, Pow2, InOrder, Last;
  }

  // ----- Such streams, and decoders for them ----------------------------------------------------------

  /** For any items there is a stream of one block, with as much as one likes after it. */
  lemma BlockExists(c: Codes, ts: seq<Item>, s: seq<Byte>, more: nat) returns (input: seq<Byte>)
    requires Full(c) && Expand(ts) == Bytes(s) && Encodable(ts, 32768)
    ensures WholeBlock(c, input, |ts|) && |input| >= more
    ensures GoodCodes(c) && SpellsOut(c, input, 0, ts + [EndOfBlock])
  {
    hide *;
    FullMeans(c);
    EncodableSpellable(c, ts, 32768);
    input := StreamOf(c, ts + [EndOfBlock], more);
    NoItems();
    assert [] + ts == ts;
    StartIs();
    CodedEnds(c, input, 0, [], ts, [], s);
    OneOn(c, input, 0, |ts|);
    EndIs(c, input, START, |ts|, 0);
    MakeWhole(c, input, |ts|);
  }

  lemma MakeWhole(c: Codes, input: seq<Byte>, n: nat)
    requires GoodCodes(c) && EndsAfter(c, input, START, n)
    requires After(c, input, START, n).At? && EndPos(c, input, START, n) <= 8 * |input|
    ensures WholeBlock(c, input, n)
  {
    hide GoodCodes, EndsAfter, After, EndPos;
  }

  lemma StreamOf(c: Codes, ts: seq<Item>, more: nat) returns (input: seq<Byte>)
    requires GoodCodes(c) && AllSpellable(c, ts)
    ensures SpellsOut(c, input, 0, ts) && PosAfter(c, input, 0, |ts|) <= 8 * |input| && |input| >= more
  {
    hide *;
    var x := ItemsFirst(c, ts, 0);
    var bytes := BytesOf(x);
    var n := BitCount(c, x, |ts|) + more;
    ZerosAfter(bytes, n);
    input := bytes + seq(n, _ => 0);
    FromStart(input);
    SpellsFrom(c, input, 0, ts);
  }

  lemma {:induction false} ExpandLiterals(n: nat)
    ensures Expand(seq(n, _ => Literal(0))) == Bytes(seq(n, _ => 0))
  {
    if n > 0 {
      var ts := seq(n, _ => Literal(0));
      assert ts[..n - 1] == seq(n - 1, _ => Literal(0));
      ExpandLiterals(n - 1);
      assert seq(n, _ => 0) == seq(n - 1, _ => 0) + [0];
    } else {
      assert seq(0, _ => Literal(0)) == [] && seq(0, _ => 0) == [];
    }
  }

  /** For any window of less than 32K there is a stream that inflate decodes in one call and
      finds bad in two. */
  lemma FarMatch(wbits: nat) returns (input: seq<Byte>, n: nat, k: nat)
    requires wbits < 15
    ensures WholeBlock(FixedCodes(), input, n) && k < n && GoodCodes(FixedCodes())
    ensures After(FixedCodes(), input, START, k).At?
    ensures ItemOf(FixedCodes(), input, k).Match? && ItemOf(FixedCodes(), input, k).len > 0
    ensures ItemOf(FixedCodes(), input, k).dist > Pow2(wbits)
  {
    hide *;
    FarPower(wbits);
    k := Pow2(wbits) + 1;
    n := k + 1;
    var c := FixedCodes();
    var ts, s := FarItems(k);
    FixedFull();
    FullMeans(c);
    input := BlockExists(c, ts, s, 0);
    NoItems();
    assert [] + ts == ts;
    StartIs();
    Reaches(c, input, 0, [], ts, [], k);
    OutIs(c, input, k);
  }

  lemma FarPower(wbits: nat)
    requires wbits < 15
    ensures Pow2(wbits) + 1 <= 32768
  {
    hide Pow2;
    PowFifteen();
    Pow2Mono(wbits + 1, 15);
    TwicePow2(wbits + 1);
  }

  /** `k` literals and a match with the first of them. */
  lemma FarItems(k: nat) returns (ts: seq<Item>, s: seq<Byte>)
    requires 0 < k <= 32768
    ensures |ts| == k + 1 && ts[k] == Match(3, k) && Expand(ts) == Bytes(s) && Encodable(ts, 32768)
    ensures (ts + [EndOfBlock])[k] == Match(3, k)
  {
    hide Expand, CopyBack;
    var literals, zeros := seq(k, _ => Literal(0)), seq(k, _ => 0);
    ExpandLiterals(k);
    ts := literals + [Match(3, k)];
    s := CopyBack(zeros, k, 3);
    ExpandOn(literals, Match(3, k), zeros, s);
  }

  /** The tables of the fixed codes. */
  method FixedTables() returns (t: Tables)
    ensures ForCodes(t, FixedCodes())
  {
    hide *;
    var lens := Run(144, 8) + Run(112, 9) + Run(24, 7) + Run(8, 8);
    var dists := Run(32, 5);
    FixedLens(lens, dists);
    var work := new nat[288];
    var lcodes, dcodes := new Entry[852], new Entry[592];
    var ret, lused, lenbits := InflateTable.Build(LENS, lens, lcodes, 9, work);
    var dused, distbits;
    ret, dused, distbits := InflateTable.Build(DISTS, dists, dcodes, 5, work);
    t := Tables(lcodes[..lused], lenbits, dcodes[..dused], distbits);
    BothBuilt(t, FixedCodes());
  }

  lemma FixedLens(lens: seq<nat>, dists: seq<nat>)
    requires lens == Run(144, 8) + Run(112, 9) + Run(24, 7) + Run(8, 8) && dists == Run(32, 5)
    ensures FixedCodes() == Codes(lens, dists) && |lens| == 288 && |dists| == 32
    ensures SymbolLimit(LENS) == 288 && SymbolLimit(DISTS) == 32
    ensures Provided(LENS, lens, 9) == 852 && Provided(DISTS, dists, 5) == 592
    ensures ValidLens(lens) && !Rejected(LENS, lens) && !TooBig(LENS, TableSize(lens, RootBits(lens, 9)))
    ensures ValidLens(dists) && !Rejected(DISTS, dists) && !TooBig(DISTS, TableSize(dists, RootBits(dists, 5)))
  {
    hide Kraft, Pow2, TableSize, RootBits, MaxUsed;
    FixedKraft();
    InflateTable.ShortSpace(lens, 9);
    InflateTable.ShortSpace(dists, 5);
    SmallPowers();
  }
}
