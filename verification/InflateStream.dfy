/** inflate over a whole stream of blocks, in any number of calls: a call goes on from block to
    block as long as there is input and room.  Where the content of a block begins is what its
    header says; the headers themselves are not looked at. */
module InflateStream {
  import opened Arith
  import opened BitReader
  import opened DeflateFormat
  import opened Lz77
  import opened InflateWindow
  import opened MatchCopy
  import opened InflateProgress
  import opened InflateFast
  import opened InflateBlock
  import opened BlockRuns

  /** The table of each coded block decodes its codes. */
  ghost predicate TablesFor(bs: seq<Block>, tables: seq<Tables>) {
    && |tables| == |bs|
    && forall k: nat :: k < |bs| && bs[k].Coded? ==> ForCodes(tables[k], bs[k].codes)
  }

  /** Which block is in hand, whether its header has been read, and how far its content has: the
      state of the decoder, or how many stored bytes were copied. */
  datatype Place = Place(k: nat, begun: bool, s: State, copied: nat)

  /** The place is right about the stream: the blocks before decode to `begin`, and the one in
      hand has come as far as `total`. */
  ghost predicate Right(bs: seq<Block>, tables: seq<Tables>, input: seq<Byte>, p: Place, r: Trace,
                        begin: seq<Byte>, total: seq<Byte>)
    requires |tables| == |bs|
  {
    && p.k <= |bs| && Decoded(input, bs[..p.k]) == Bytes(begin)
    && (p.k == |bs| ==> !p.begun)
    && if !p.begun then total == begin
       else
         match bs[p.k]
         case Coded(c, pos) =>
           Ready(tables[p.k], c, input, r, p.s, total) && r.start == Progress(pos, begin) && p.s.mode != TYPE
         case Stored(at, length) =>
           p.copied <= length && at + p.copied <= |input| && total == begin + input[at..at + p.copied]
  }

  /** The content of a coded block is being read. */
  predicate InCoded(bs: seq<Block>, p: Place) {
    p.k < |bs| && p.begun && bs[p.k].Coded?
  }

  predicate InStored(bs: seq<Block>, p: Place) {
    p.k < |bs| && p.begun && bs[p.k].Stored?
  }

  predicate IsBad(bs: seq<Block>, p: Place) {
    InCoded(bs, p) && p.s.mode == BAD
  }

  predicate IsDone(bs: seq<Block>, p: Place) {
    p.k == |bs|
  }

  /** The bytes of input used up. */
  function Taken(bs: seq<Block>, p: Place): nat {
    if InCoded(bs, p) then p.s.b.next
    else if InStored(bs, p) then bs[p.k].at + p.copied
    else 0
  }

  /** Where the content of a block begins, in bits. */
  function Content(b: Block): nat {
    if b.Coded? then b.pos else 8 * b.at
  }

  /** Why a call returns: the stream is over, or bad, or there is no more input, of which there
      are `n` bytes, or no more room. */
  ghost predicate Waiting(bs: seq<Block>, tables: seq<Tables>, input: seq<Byte>, p: Place, n: nat, room: nat)
    requires |tables| == |bs|
  {
    || IsDone(bs, p) || IsBad(bs, p)
    || (p.k < |bs| && !p.begun && 8 * n < Content(bs[p.k]))
    || (InCoded(bs, p) && p.s.mode in {LEN, LENEXT, DIST, DISTEXT}
        && p.s.b.next == n && p.s.b.bits < Need(tables[p.k], input, p.s))
    || (InCoded(bs, p) && p.s.mode in {LIT, MATCH} && room == 0)
    || (InStored(bs, p) && p.copied < bs[p.k].length && (room == 0 || bs[p.k].at + p.copied == n))
  }

  // ----- The parts of the place -----------------------------------------------------------------

  lemma CodedMeans(bs: seq<Block>, tables: seq<Tables>, input: seq<Byte>, p: Place, r: Trace,
                   begin: seq<Byte>, total: seq<Byte>)
    requires |tables| == |bs| && Right(bs, tables, input, p, r, begin, total) && InCoded(bs, p)
    ensures Ready(tables[p.k], bs[p.k].codes, input, r, p.s, total)
    ensures r.start == Progress(bs[p.k].pos, begin) && p.s.mode != TYPE
    ensures Decoded(input, bs[..p.k]) == Bytes(begin)
  {
    hide Ready, Decoded;
  }

  lemma MakeCoded(bs: seq<Block>, tables: seq<Tables>, input: seq<Byte>, p: Place, r: Trace,
                  begin: seq<Byte>, total: seq<Byte>)
    requires |tables| == |bs| && InCoded(bs, p) && Decoded(input, bs[..p.k]) == Bytes(begin)
    requires Ready(tables[p.k], bs[p.k].codes, input, r, p.s, total)
    requires r.start == Progress(bs[p.k].pos, begin) && p.s.mode != TYPE
    ensures Right(bs, tables, input, p, r, begin, total)
  {
    hide Ready, Decoded;
  }

  lemma StoredMeans(bs: seq<Block>, tables: seq<Tables>, input: seq<Byte>, p: Place, r: Trace,
                    begin: seq<Byte>, total: seq<Byte>)
    requires |tables| == |bs| && Right(bs, tables, input, p, r, begin, total) && InStored(bs, p)
    ensures p.copied <= bs[p.k].length && bs[p.k].at + p.copied <= |input|
    ensures total == begin + input[bs[p.k].at..bs[p.k].at + p.copied]
    ensures Decoded(input, bs[..p.k]) == Bytes(begin)
  {
    hide Ready, Decoded;
  }

  lemma MakeStored(bs: seq<Block>, tables: seq<Tables>, input: seq<Byte>, p: Place, r: Trace,
                   begin: seq<Byte>, total: seq<Byte>)
    requires |tables| == |bs| && InStored(bs, p) && Decoded(input, bs[..p.k]) == Bytes(begin)
    requires p.copied <= bs[p.k].length && bs[p.k].at + p.copied <= |input|
    requires total == begin + input[bs[p.k].at..bs[p.k].at + p.copied]
    ensures Right(bs, tables, input, p, r, begin, total)
  {
    hide Ready, Decoded;
  }

  lemma RightMeans(bs: seq<Block>, tables: seq<Tables>, input: seq<Byte>, p: Place, r: Trace,
                     begin: seq<Byte>, total: seq<Byte>)
    requires |tables| == |bs| && Right(bs, tables, input, p, r, begin, total)
    ensures p.k <= |bs| && Decoded(input, bs[..p.k]) == Bytes(begin)
    ensures !p.begun ==> total == begin
    ensures p.begun ==> InCoded(bs, p) || InStored(bs, p)
  {
    hide Ready, Decoded;
  }

  lemma MakeNext(bs: seq<Block>, tables: seq<Tables>, input: seq<Byte>, p: Place, r: Trace, begin: seq<Byte>)
    requires |tables| == |bs| && p.k <= |bs| && !p.begun && Decoded(input, bs[..p.k]) == Bytes(begin)
    ensures Right(bs, tables, input, p, r, begin, begin)
  {
    hide Ready, Decoded;
  }

  lemma DecodedOn(input: seq<Byte>, bs: seq<Block>, k: nat)
    requires k < |bs| && Decoded(input, bs[..k]).Bytes?
    ensures Decoded(input, bs[..k + 1]) == AfterBlock(input, Decoded(input, bs[..k]).s, bs[k])
  {
    hide AfterBlock;
    assert bs[..k + 1][..k] == bs[..k];
  }

  // ----- One block --------------------------------------------------------------------------------

  /** The header of a block, which has been read once all input before the content is there. */
  method Begin(bs: seq<Block>, tables: seq<Tables>, avail: seq<Byte>, ghost input: seq<Byte>, p0: Place,
               ghost r0: Trace, ghost begin: seq<Byte>, ghost total: seq<Byte>, ghost room: nat)
    returns (ok: bool, p: Place, ghost r: Trace)
    requires TablesFor(bs, tables) && avail <= input && Taken(bs, p0) <= |avail| && p0.k < |bs|
    requires Right(bs, tables, input, p0, r0, begin, total)
    ensures Right(bs, tables, input, p, r, begin, total) && p.k == p0.k && Taken(bs, p) <= |avail|
    ensures ok <==> p.begun
    ensures p0.begun ==> p == p0 && r == r0
    ensures !p0.begun && InCoded(bs, p) ==> p.s.mode == LEN && r.items == 0
    ensures !ok ==> Waiting(bs, tables, input, p, |avail|, room) && p == p0
  {
    hide *;
    TablesMean(bs, tables, p0.k);
    RightMeans(bs, tables, input, p0, r0, begin, total);
    ok, p, r := true, p0, r0;
    if !p.begun {
      ContentIs(bs[p.k]);
      if 8 * |avail| < Content(bs[p.k]) {
        HeaderWaits(bs, tables, input, p, |avail|, room);
        PlaceIs(bs, p);
        return false, p, r;
      }
      if bs[p.k].Coded? {
        var b := Refill(avail, bs[p.k].pos);
        RefillHolds(avail, input, bs[p.k].pos);
        p := Place(p.k, true, State(LEN, b, 0, 0, 0), 0);
        r := Trace(Progress(bs[p.k].pos, begin), 0, Progress(bs[p.k].pos, begin));
        BlockStarts(tables[p.k], bs[p.k].codes, input, r, p.s, begin);
        PlaceIs(bs, p);
        MakeCoded(bs, tables, input, p, r, begin, begin);
      } else {
        p := p.(begun := true, copied := 0);
        PlaceIs(bs, p);
        assert begin + input[bs[p.k].at..bs[p.k].at] == begin;
        MakeStored(bs, tables, input, p, r, begin, begin);
      }
    }
    PlaceIs(bs, p);
  }

  lemma TablesMean(bs: seq<Block>, tables: seq<Tables>, k: nat)
    requires TablesFor(bs, tables)
    ensures |tables| == |bs| && (k < |bs| && bs[k].Coded? ==> ForCodes(tables[k], bs[k].codes))
  {
    hide ForCodes;
  }

  lemma ContentIs(b: Block)
    ensures Content(b) == if b.Coded? then b.pos else 8 * b.at
  {
  }

  lemma PlaceIs(bs: seq<Block>, p: Place)
    ensures InCoded(bs, p) <==> p.k < |bs| && p.begun && bs[p.k].Coded?
    ensures InStored(bs, p) <==> p.k < |bs| && p.begun && bs[p.k].Stored?
    ensures InCoded(bs, p) ==> Taken(bs, p) == p.s.b.next
    ensures InStored(bs, p) ==> Taken(bs, p) == bs[p.k].at + p.copied
    ensures !p.begun ==> Taken(bs, p) == 0
    ensures IsBad(bs, p) <==> InCoded(bs, p) && p.s.mode == BAD
  {
  }

  lemma DoneIs(bs: seq<Block>, p: Place)
    ensures IsDone(bs, p) <==> p.k == |bs|
  {
  }

  lemma HeaderWaits(bs: seq<Block>, tables: seq<Tables>, input: seq<Byte>, p: Place, n: nat, room: nat)
    requires |tables| == |bs| && p.k < |bs| && !p.begun && 8 * n < Content(bs[p.k])
    ensures Waiting(bs, tables, input, p, n, room)
  {
    hide Need, Content;
  }

  lemma BlockStarts(t: Tables, c: Codes, input: seq<Byte>, r: Trace, s: State, total: seq<Byte>)
    requires ForCodes(t, c) && Holding(input, s.b.next, s.b.hold, s.b.bits) && s.b.bits < 8 && s.b.bits <= 8 * s.b.next
    requires s.mode == LEN && r == Trace(Progress(Pos(s.b.next, s.b.bits), total), 0,
                                         Progress(Pos(s.b.next, s.b.bits), total))
    ensures Ready(t, c, input, r, s, total)
  {
    hide *;
    ForMeans(t, c);
    NoItemsYet(c, input, r);
    BackToLen(t, c, input, r, s, total);
  }

  lemma NoItemsYet(c: Codes, input: seq<Byte>, r: Trace)
    requires GoodCodes(c) && r.items == 0 && r.here == r.start
    ensures Follows(c, input, r)
  {
    hide GoodCodes;
  }

  /** The content of a coded block. */
  method Decode(bs: seq<Block>, tables: seq<Tables>, w: Window, avail: seq<Byte>, ghost input: seq<Byte>,
                out: array<Byte>, put0: nat, p0: Place, ghost r0: Trace, ghost begin0: seq<Byte>)
    returns (ok: bool, p: Place, put: nat, ghost r: Trace, ghost begin: seq<Byte>)
    requires TablesFor(bs, tables) && w.Valid() && out != w.data && avail <= input && put0 <= out.Length
    requires Right(bs, tables, input, p0, r0, begin0, w.supplied + out[..][..put0])
    requires InCoded(bs, p0) && !IsBad(bs, p0) && Taken(bs, p0) <= |avail| && (put0 == 0 || p0.s.mode == LEN)
    modifies out
    ensures put0 <= put <= out.Length && Right(bs, tables, input, p, r, begin, w.supplied + out[..][..put])
    ensures Taken(bs, p) <= |avail|
    ensures ok ==> p.k == p0.k + 1 && !p.begun
    ensures ok ==> Passed(bs[p0.k].codes, input, r0.start, r0.items, |w.supplied|, w.whave, |avail|)
    ensures !ok ==> p.k == p0.k && InCoded(bs, p) && r.start == r0.start && r0.items <= r.items
    ensures !ok ==> Waiting(bs, tables, input, p, |avail|, out.Length - put)
    ensures !ok ==> Judged(bs[p.k].codes, input, r0.items, r, p.s, |w.supplied|, w.whave)
    ensures IsBad(bs, p) ==> TooFarBack(bs[p.k].codes, input, r, p.s, w.whave + put)
  {
    hide *;
    TablesMean(bs, tables, p0.k);
    PlaceIs(bs, p0);
    CodedMeans(bs, tables, input, p0, r0, begin0, w.supplied + out[..][..put0]);
    ghost var c := bs[p0.k].codes;
    var s;
    s, put, r := DecodeBlock(tables[p0.k], c, w, avail, input, out, put0, p0.s, r0);
    StoppedMeans(tables[p0.k], c, input, r, s, |avail|, out.Length - put, w.whave + put);
    if s.mode == TYPE {
      ok, p, begin := true, Place(p0.k + 1, false, s, 0), w.supplied + out[..][..put];
      BlockOver(bs, tables, input, p0.k, r, s, begin0, begin);
      PassedIs(tables[p0.k], c, input, r0.items, r, s, begin, |w.supplied|, w.whave, |avail|);
      MakeNext(bs, tables, input, p, r, begin);
    } else {
      ok, p, begin := false, p0.(s := s), begin0;
      PlaceIs(bs, p);
      MakeCoded(bs, tables, input, p, r, begin, w.supplied + out[..][..put]);
      StopWaits(bs, tables, input, p, |avail|, out.Length - put);
      JudgedIs(c, input, r0.items, r, s, |w.supplied|, w.whave);
      TooFarIs(c, input, r, s, w.whave + put);
    }
    PlaceIs(bs, p);
  }

  /** A block was passed, from item `from` on, in a call with `have` bytes of input that began
      after `base` bytes of output, `whave` of them remembered: its end was there, and every match
      up to it was in reach. */
  ghost predicate Passed(c: Codes, input: seq<Byte>, start: Progress, from: nat, base: nat, whave: nat, have: nat) {
    GoodCodes(c) &&
    exists n: nat {:trigger EndsAfter(c, input, start, n)} ::
      from <= n && EndsAfter(c, input, start, n) && After(c, input, start, n).At?
      && EndPos(c, input, start, n) <= 8 * have && Reached(c, input, start, from, n, base, whave)
  }

  lemma PassedIs(t: Tables, c: Codes, input: seq<Byte>, from: nat, r: Trace, s: State, total: seq<Byte>,
                 base: nat, whave: nat, have: nat)
    requires Ready(t, c, input, r, s, total) && s.mode == TYPE && GoodCodes(c) && from <= r.items
    requires Reached(c, input, r.start, from, r.items, base, whave) && s.b.next <= have
    ensures Passed(c, input, r.start, from, base, whave, have)
  {
    hide *;
    ReadyMeans(t, c, input, r, s, total);
    EndsHere(c, input, r, s, total);
    DecodingMeans(c, input, r, s, total);
    TypeIs(c, input, r.here, s, total);
    EndPosIs(c, input, r);
    MakePassed(c, input, r.start, from, r.items, base, whave, have);
  }

  lemma MakePassed(c: Codes, input: seq<Byte>, start: Progress, from: nat, n: nat, base: nat, whave: nat, have: nat)
    requires GoodCodes(c) && from <= n && EndsAfter(c, input, start, n) && After(c, input, start, n).At?
    requires EndPos(c, input, start, n) <= 8 * have && Reached(c, input, start, from, n, base, whave)
    ensures Passed(c, input, start, from, base, whave, have)
  {
    hide GoodCodes, After, EndsAfter, EndPos, Reached;
  }

  /** All blocks from `k0` on and before `k` were passed in a call, the first from item `from` on. */
  ghost predicate AllPassed(bs: seq<Block>, input: seq<Byte>, k0: nat, from: nat, k: nat, base: nat, whave: nat,
                            have: nat)
    requires k <= |bs|
  {
    forall j: nat :: k0 <= j < k ==>
      && Decoded(input, bs[..j]).Bytes?
      && match bs[j]
         case Coded(c, pos) =>
           Passed(c, input, Progress(pos, Decoded(input, bs[..j]).s), if j == k0 then from else 0, base, whave, have)
         case Stored(at, length) => at + length <= have
  }

  lemma NonePassed(bs: seq<Block>, input: seq<Byte>, k: nat, from: nat, base: nat, whave: nat, have: nat)
    requires k <= |bs|
    ensures AllPassed(bs, input, k, from, k, base, whave, have)
  {
  }

  lemma OneMorePassed(bs: seq<Block>, input: seq<Byte>, k0: nat, from: nat, k: nat, begin: seq<Byte>,
                      base: nat, whave: nat, have: nat)
    requires k < |bs| && k0 <= k && AllPassed(bs, input, k0, from, k, base, whave, have)
    requires Decoded(input, bs[..k]) == Bytes(begin)
    requires bs[k].Coded? ==>
               Passed(bs[k].codes, input, Progress(bs[k].pos, begin), if k == k0 then from else 0, base, whave, have)
    requires bs[k].Stored? ==> bs[k].at + bs[k].length <= have
    ensures AllPassed(bs, input, k0, from, k + 1, base, whave, have)
  {
    hide Decoded, Passed;
  }

  /** In a call that began with item `from` after `base` bytes, `whave` of them remembered: every
      match completed was in reach when it was begun, and one that is refused was not. */
  ghost predicate Judged(c: Codes, input: seq<Byte>, from: nat, r: Trace, s: State, base: nat, whave: nat) {
    && GoodCodes(c) && Reached(c, input, r.start, from, r.items, base, whave)
    && (s.mode == BAD && Spell(c, From(input, r.here.pos)).item.Match? ==>
          !Within(c, input, r.start, r.items, base, whave))
  }

  lemma JudgedIs(c: Codes, input: seq<Byte>, from: nat, r: Trace, s: State, base: nat, whave: nat)
    requires GoodCodes(c)
    ensures Judged(c, input, from, r, s, base, whave) <==>
            && Reached(c, input, r.start, from, r.items, base, whave)
            && (s.mode == BAD && Spell(c, From(input, r.here.pos)).item.Match? ==>
                  !Within(c, input, r.start, r.items, base, whave))
  {
    hide GoodCodes, Reached, Spell, From, Within;
  }

  /** A match was refused because it reaches beyond `known` bytes. */
  ghost predicate TooFarBack(c: Codes, input: seq<Byte>, r: Trace, s: State, known: int) {
    GoodCodes(c) && (Spell(c, From(input, r.here.pos)).item.Match? ==> s.offset > known)
  }

  lemma TooFarIs(c: Codes, input: seq<Byte>, r: Trace, s: State, known: int)
    requires GoodCodes(c)
    ensures TooFarBack(c, input, r, s, known) <==> (Spell(c, From(input, r.here.pos)).item.Match? ==> s.offset > known)
  {
    hide GoodCodes, Spell, From;
  }

  lemma StopWaits(bs: seq<Block>, tables: seq<Tables>, input: seq<Byte>, p: Place, n: nat, room: nat)
    requires |tables| == |bs| && InCoded(bs, p) && p.s.mode != TYPE
    requires p.s.mode in {LEN, LENEXT, DIST, DISTEXT} ==>
               p.s.b.next == n && p.s.b.bits < Need(tables[p.k], input, p.s)
    requires p.s.mode in {LIT, MATCH} ==> room == 0
    ensures Waiting(bs, tables, input, p, n, room)
  {
    hide Need;
  }

  /** The end-of-block code: the next block. */
  lemma BlockOver(bs: seq<Block>, tables: seq<Tables>, input: seq<Byte>, k: nat, r: Trace, s: State,
                  begin: seq<Byte>, total: seq<Byte>)
    requires |tables| == |bs| && k < |bs| && bs[k].Coded? && Decoded(input, bs[..k]) == Bytes(begin)
    requires Ready(tables[k], bs[k].codes, input, r, s, total) && s.mode == TYPE
    requires r.start == Progress(bs[k].pos, begin)
    ensures Decoded(input, bs[..k + 1]) == Bytes(total)
  {
    hide *;
    var c := bs[k].codes;
    ReadyMeans(tables[k], c, input, r, s, total);
    EndsHere(c, input, r, s, total);
    CodedOut(c, input, bs[k].pos, begin, r.items);
    DecodedOn(input, bs, k);
    assert bs[k] == Coded(c, bs[k].pos);
  }

  lemma EndsHere(c: Codes, input: seq<Byte>, r: Trace, s: State, total: seq<Byte>)
    requires Decoding(c, input, r, s, total) && s.mode == TYPE
    ensures GoodCodes(c) && EndsAfter(c, input, r.start, r.items) && total == r.here.out
    ensures After(c, input, r.start, r.items) == At(r.here)
  {
    hide *;
    DecodingMeans(c, input, r, s, total);
    FollowsMeans(c, input, r);
    TypeIs(c, input, r.here, s, total);
    MakeEnds(c, input, r.start, r.items, r.here);
  }

  lemma MakeEnds(c: Codes, input: seq<Byte>, start: Progress, n: nat, q: Progress)
    requires GoodCodes(c) && After(c, input, start, n) == At(q) && Spell(c, From(input, q.pos)).item == EndOfBlock
    ensures EndsAfter(c, input, start, n)
  {
    hide GoodCodes, After, Spell, From;
  }

  /** The COPY state: the content of a stored block. */
  method Copy(bs: seq<Block>, tables: seq<Tables>, w: Window, avail: seq<Byte>, ghost input: seq<Byte>,
              out: array<Byte>, put0: nat, p0: Place, ghost r: Trace, ghost begin0: seq<Byte>)
    returns (ok: bool, p: Place, put: nat, ghost begin: seq<Byte>)
    requires TablesFor(bs, tables) && out != w.data && avail <= input && put0 <= out.Length
    requires Right(bs, tables, input, p0, r, begin0, w.supplied + out[..][..put0])
    requires InStored(bs, p0) && Taken(bs, p0) <= |avail|
    modifies out
    ensures put0 <= put <= out.Length && Right(bs, tables, input, p, r, begin, w.supplied + out[..][..put])
    ensures Taken(bs, p) <= |avail|
    ensures ok ==> p.k == p0.k + 1 && !p.begun && bs[p0.k].at + bs[p0.k].length <= |avail|
    ensures !ok ==> p.k == p0.k && InStored(bs, p) && Waiting(bs, tables, input, p, |avail|, out.Length - put)
  {
    hide *;
    TablesMean(bs, tables, p0.k);
    PlaceIs(bs, p0);
    StoredMeans(bs, tables, input, p0, r, begin0, w.supplied + out[..][..put0]);
    var at, length := bs[p0.k].at, bs[p0.k].length;
    var from := at + p0.copied;
    var copy := length - p0.copied;
    if copy > |avail| - from {
      copy := |avail| - from;
    }
    if copy > out.Length - put0 {
      copy := out.Length - put0;
    }
    ghost var o := out[..][..put0];
    CopyBytes(out, put0, avail, from, copy);
    put, p, begin := put0 + copy, p0.(copied := p0.copied + copy), begin0;
    PlaceIs(bs, p);
    CopiedOn(w.supplied, o, out[..][..put], begin0, avail, input, at, p0.copied, copy);
    if p.copied == length {
      begin := w.supplied + out[..][..put];
      p := Place(p.k + 1, false, p.s, 0);
      StoredOver(bs, input, p0.k, begin0, begin);
      MakeNext(bs, tables, input, p, r, begin);
      ok := true;
    } else {
      MakeStored(bs, tables, input, p, r, begin, w.supplied + out[..][..put]);
      CopyWaits(bs, tables, input, p, |avail|, out.Length - put);
      ok := false;
    }
    PlaceIs(bs, p);
  }

  /** The zmemcpy from the input. */
  method CopyBytes(out: array<Byte>, put: nat, avail: seq<Byte>, from: nat, n: nat)
    requires from + n <= |avail| && put + n <= out.Length
    modifies out
    ensures out[..][..put + n] == old(out[..][..put]) + avail[from..from + n]
  {
    forall i | 0 <= i < n {
      out[put + i] := avail[from + i];
    }
  }

  lemma CopiedOn(all: seq<Byte>, o: seq<Byte>, o': seq<Byte>, begin: seq<Byte>, avail: seq<Byte>, input: seq<Byte>,
                 at: nat, copied: nat, n: nat)
    requires avail <= input && at + copied + n <= |avail| && o' == o + avail[at + copied..at + copied + n]
    requires all + o == begin + input[at..at + copied]
    ensures all + o' == begin + input[at..at + (copied + n)]
  {
    assert avail[at + copied..at + copied + n] == input[at + copied..at + copied + n];
    assert input[at..at + (copied + n)] == input[at..at + copied] + input[at + copied..at + copied + n];
    assert all + o' == (all + o) + input[at + copied..at + copied + n];
  }

  lemma StoredOver(bs: seq<Block>, input: seq<Byte>, k: nat, begin: seq<Byte>, total: seq<Byte>)
    requires k < |bs| && bs[k].Stored? && Decoded(input, bs[..k]) == Bytes(begin)
    requires bs[k].at + bs[k].length <= |input|
    requires total == begin + input[bs[k].at..bs[k].at + bs[k].length]
    ensures Decoded(input, bs[..k + 1]) == Bytes(total)
  {
    hide Decoded;
    DecodedOn(input, bs, k);
  }

  lemma CopyWaits(bs: seq<Block>, tables: seq<Tables>, input: seq<Byte>, p: Place, n: nat, room: nat)
    requires |tables| == |bs| && InStored(bs, p) && p.copied < bs[p.k].length
    requires room == 0 || bs[p.k].at + p.copied == n
    ensures Waiting(bs, tables, input, p, n, room)
  {
    hide Need;
  }

  /** One block: its header if that has not been read, and its content. */
  method Advance(bs: seq<Block>, tables: seq<Tables>, w: Window, avail: seq<Byte>, ghost input: seq<Byte>,
                 out: array<Byte>, put0: nat, p0: Place, ghost r0: Trace, ghost begin0: seq<Byte>)
    returns (ok: bool, p: Place, put: nat, ghost r: Trace, ghost begin: seq<Byte>)
    requires TablesFor(bs, tables) && w.Valid() && out != w.data && avail <= input && put0 <= out.Length
    requires Right(bs, tables, input, p0, r0, begin0, w.supplied + out[..][..put0]) && p0.k < |bs|
    requires !IsBad(bs, p0) && Taken(bs, p0) <= |avail| && (put0 == 0 || !p0.begun)
    modifies out
    ensures put0 <= put <= out.Length && Right(bs, tables, input, p, r, begin, w.supplied + out[..][..put])
    ensures Taken(bs, p) <= |avail|
    ensures ok ==> p.k == p0.k + 1 && !p.begun && !IsBad(bs, p)
    ensures ok && bs[p0.k].Coded? ==>
              Passed(bs[p0.k].codes, input, Progress(bs[p0.k].pos, begin0), if p0.begun then r0.items else 0,
                     |w.supplied|, w.whave, |avail|)
    ensures ok && bs[p0.k].Stored? ==> bs[p0.k].at + bs[p0.k].length <= |avail|
    ensures !ok ==> p.k == p0.k && Waiting(bs, tables, input, p, |avail|, out.Length - put)
    ensures !ok && InCoded(bs, p) ==>
              Judged(bs[p.k].codes, input, if p0.begun then r0.items else 0, r, p.s, |w.supplied|, w.whave)
    ensures IsBad(bs, p) ==> TooFarBack(bs[p.k].codes, input, r, p.s, w.whave + put)
  {
    hide *;
    TablesMean(bs, tables, p0.k);
    PlaceIs(bs, p0);
    put, begin := put0, begin0;
    ghost var total := w.supplied + out[..][..put];
    ok, p, r := Begin(bs, tables, avail, input, p0, r0, begin, total, out.Length - put);
    PlaceIs(bs, p);
    if ok {
      RightMeans(bs, tables, input, p, r, begin, total);
      if bs[p.k].Coded? {
        CodedMeans(bs, tables, input, p, r, begin, total);
        ok, p, put, r, begin := Decode(bs, tables, w, avail, input, out, put, p, r, begin);
      } else {
        ok, p, put, begin := Copy(bs, tables, w, avail, input, out, put, p, r, begin);
      }
      PlaceIs(bs, p);
    }
  }

  // ----- Any number of calls ----------------------------------------------------------------------------

  /** What is forgotten of the output lies further back than the window is wide. */
  lemma Forgotten(w: Window, dist: nat, put: nat)
    requires w.Valid() && dist > w.whave + put
    ensures dist > |w.supplied| + put || dist > Pow2(w.wbits)
  {
    HistoryHolds(w);
    hide InOrder, Window.History, Pow2;
  }

  /** The data were found bad for a distance beyond all output or wider than the window, if it was
      for a distance. */
  ghost predicate FairlyBad(bs: seq<Block>, input: seq<Byte>, p: Place, r: Trace, total: seq<Byte>, wbits: nat) {
    IsBad(bs, p) ==>
      && GoodCodes(bs[p.k].codes)
      && (Spell(bs[p.k].codes, From(input, r.here.pos)).item.Match? ==>
            p.s.offset > |total| || p.s.offset > Pow2(wbits))
  }

  /** inflate, with the state that lasts from call to call. */
  class Inflater {
    const bs: seq<Block>
    const tables: seq<Tables>
    const w: Window
    var p: Place
    /** The whole stream, what has not arrived yet included. */
    ghost const input: seq<Byte>
    ghost var r: Trace
    /** The output of the blocks before the one in hand, and all output there has been. */
    ghost var begin: seq<Byte>
    ghost var produced: seq<Byte>

    ghost predicate Valid()
      reads this, w, w.data
    {
      && TablesFor(bs, tables) && w.Valid()
      && Right(bs, tables, input, p, r, begin, produced)
      && FairlyBad(bs, input, p, r, produced, w.wbits)
      && (!IsBad(bs, p) ==> w.supplied == produced)
    }

    /** At the beginning of a stream. */
    constructor (bs: seq<Block>, tables: seq<Tables>, wbits: nat, ghost input: seq<Byte>)
      requires TablesFor(bs, tables)
      ensures Valid() && produced == [] && p.k == 0 && !p.begun
      ensures fresh(w) && fresh(w.data) && w.supplied == [] && w.whave == 0 && w.wbits == wbits
      ensures this.bs == bs && this.tables == tables && this.input == input
    {
      this.bs, this.tables, this.input := bs, tables, input;
      w := new Window(wbits);
      p, begin, produced := Place(0, false, State(LEN, Bits(0, 0, 0), 0, 0, 0), 0), [], [];
      r := Trace(Progress(0, []), 0, Progress(0, []));
      new;
      hide Window.Valid, TablesFor;
      NothingDecoded(input, bs);
    }

    /** One call, with the input up to `avail` and the space `out`. */
    method Inflate(avail: seq<Byte>, out: array<Byte>) returns (put: nat)
      requires Valid() && avail <= input && Taken(bs, p) <= |avail| && out != w.data
      modifies this`p, this`r, this`begin, this`produced, w, w.data, out
      ensures Valid() && (w.data == old(w.data) || fresh(w.data))
      ensures put <= out.Length && produced == old(produced) + out[..put] && Taken(bs, p) <= |avail|
      ensures Waiting(bs, tables, input, p, |avail|, out.Length - put) && old(p.k) <= p.k
      ensures old(IsBad(bs, p)) ==> put == 0 && p == old(p) && r == old(r)
      ensures InCoded(bs, p) && !old(IsBad(bs, p)) ==>
                Judged(bs[p.k].codes, input, if p.k == old(p.k) && old(p.begun) then old(r.items) else 0, r, p.s,
                       old(|produced|), old(w.whave))
      ensures p.k <= |bs| && AllPassed(bs, input, old(p.k), if old(p.begun) then old(r.items) else 0, p.k,
                                       old(|produced|), old(w.whave), |avail|)
    {
      hide *;
      IsValid(this);
      PlaceIs(bs, p);
      put := 0;
      NothingPut(produced, out[..]);
      if IsBad(bs, p) {
        assert out[..0] == out[..][..0];
        BadWaits(bs, tables, input, p, |avail|, out.Length);
        NonePassed(bs, input, p.k, if p.begun then r.items else 0, |produced|, w.whave, |avail|);
        return;
      }
      put := Blocks(avail, out);
      if IsBad(bs, p) {
        BadFairly(this, put, out[..]);
      } else {
        NotBad(this, w.supplied + out[..][..put]);
      }
      produced := produced + out[..put];
      assert out[..put] == out[..][..put];
      if w.wsize != 0 || (put != 0 && !IsBad(bs, p)) {
        var ret := w.Update(out, put, put, true);
        assert out[put - put..put] == out[..put];
      } else if !IsBad(bs, p) {
        NothingPut(w.supplied, out[..]);
      }
      MakeValid(this);
    }

    /** From block to block, until something is missing. */
    method Blocks(avail: seq<Byte>, out: array<Byte>) returns (put: nat)
      requires Valid() && avail <= input && Taken(bs, p) <= |avail| && out != w.data && !IsBad(bs, p)
      modifies this`p, this`r, this`begin, out
      ensures put <= out.Length && Right(bs, tables, input, p, r, begin, w.supplied + out[..][..put])
      ensures Taken(bs, p) <= |avail| && Waiting(bs, tables, input, p, |avail|, out.Length - put) && old(p.k) <= p.k
      ensures InCoded(bs, p) ==>
                Judged(bs[p.k].codes, input, if p.k == old(p.k) && old(p.begun) then old(r.items) else 0, r, p.s,
                       |w.supplied|, w.whave)
      ensures p.k <= |bs| && AllPassed(bs, input, old(p.k), if old(p.begun) then old(r.items) else 0, p.k,
                                       |w.supplied|, w.whave, |avail|)
      ensures IsBad(bs, p) ==> TooFarBack(bs[p.k].codes, input, r, p.s, w.whave + put)
    {
      hide *;
      IsValid(this);
      put := 0;
      NothingPut(w.supplied, out[..]);
      ghost var k0, from := p.k, if p.begun then r.items else 0;
      RightMeans(bs, tables, input, p, r, begin, w.supplied + out[..][..put]);
      NonePassed(bs, input, k0, from, |w.supplied|, w.whave, |avail|);
      while true
        invariant put <= out.Length && Right(bs, tables, input, p, r, begin, w.supplied + out[..][..put])
        invariant Taken(bs, p) <= |avail| && !IsBad(bs, p) && (put == 0 || !p.begun) && old(p.k) <= p.k
        invariant p.k == old(p.k) && old(p.begun) ==> p == old(p) && r == old(r)
        invariant p.k == old(p.k) && !old(p.begun) ==> !p.begun
        invariant p.k != old(p.k) ==> !p.begun
        invariant p.k <= |bs| && AllPassed(bs, input, k0, from, p.k, |w.supplied|, w.whave, |avail|)
        decreases |bs| - p.k
      {
        RightMeans(bs, tables, input, p, r, begin, w.supplied + out[..][..put]);
        if p.k == |bs| {
          DoneWaits(bs, tables, input, p, |avail|, out.Length - put);
          PlaceIs(bs, p);
          return;
        }
        var ok;
        ghost var k, begin0 := p.k, begin;
        ok, p, put, r, begin := Advance(bs, tables, w, avail, input, out, put, p, r, begin);
        PlaceIs(bs, p);
        if !ok {
          return;
        }
        OneMorePassed(bs, input, k0, from, k, begin0, |w.supplied|, w.whave, |avail|);
        RightMeans(bs, tables, input, p, r, begin, w.supplied + out[..][..put]);
      }
    }
  }

  lemma NothingDecoded(input: seq<Byte>, bs: seq<Block>)
    ensures Decoded(input, bs[..0]) == Bytes([])
  {
  }

  lemma IsValid(i: Inflater)
    requires i.Valid()
    ensures TablesFor(i.bs, i.tables) && |i.tables| == |i.bs| && i.w.Valid()
    ensures Right(i.bs, i.tables, i.input, i.p, i.r, i.begin, i.produced)
    ensures FairlyBad(i.bs, i.input, i.p, i.r, i.produced, i.w.wbits)
    ensures !IsBad(i.bs, i.p) ==> i.w.supplied == i.produced
  {
    hide Right, Window.Valid, ForCodes, FairlyBad, IsBad;
  }

  lemma MakeValid(i: Inflater)
    requires TablesFor(i.bs, i.tables) && |i.tables| == |i.bs| && i.w.Valid()
    requires Right(i.bs, i.tables, i.input, i.p, i.r, i.begin, i.produced)
    requires FairlyBad(i.bs, i.input, i.p, i.r, i.produced, i.w.wbits)
    requires !IsBad(i.bs, i.p) ==> i.w.supplied == i.produced
    ensures i.Valid()
  {
    hide Right, Window.Valid, ForCodes, FairlyBad, IsBad;
  }

  lemma BadWaits(bs: seq<Block>, tables: seq<Tables>, input: seq<Byte>, p: Place, n: nat, room: nat)
    requires |tables| == |bs| && IsBad(bs, p)
    ensures Waiting(bs, tables, input, p, n, room)
  {
    hide Need;
  }

  lemma DoneWaits(bs: seq<Block>, tables: seq<Tables>, input: seq<Byte>, p: Place, n: nat, room: nat)
    requires |tables| == |bs| && p.k == |bs|
    ensures Waiting(bs, tables, input, p, n, room)
  {
    hide Need;
  }

  lemma NotBad(i: Inflater, total: seq<Byte>)
    requires !IsBad(i.bs, i.p)
    ensures FairlyBad(i.bs, i.input, i.p, i.r, total, i.w.wbits)
  {
    hide GoodCodes, Spell, From, Pow2;
  }

  /** A match that is refused reaches beyond what is remembered. */
  lemma BadFairly(i: Inflater, put: nat, o: seq<Byte>)
    requires i.w.Valid() && IsBad(i.bs, i.p) && put <= |o|
    requires TooFarBack(i.bs[i.p.k].codes, i.input, i.r, i.p.s, i.w.whave + put)
    ensures FairlyBad(i.bs, i.input, i.p, i.r, i.w.supplied + o[..put], i.w.wbits)
  {
    hide GoodCodes, Spell, From, Pow2, Window.Valid;
    if Spell(i.bs[i.p.k].codes, From(i.input, i.r.here.pos)).item.Match? {
      Forgotten(i.w, i.p.s.offset, put);
    }
  }
}
