/** The states of inflate that decode a block, in any number of calls: input may run out
    and room may run out anywhere, and the fast loop takes over when there is enough of
    both.  Whatever the calls, the output is what the stream spells out. */
module InflateBlock {
  import opened Arith
  import opened CanonicalCode
  import opened DecodeTable
  import opened BitReader
  import opened DeflateFormat
  import opened InflateItems
  import opened SymbolDecode
  import opened InflateWindow
  import opened MatchCopy
  import opened InflateProgress
  import opened InflateFast
  import InflateTable

  /** How many bits the state in hand needs to go on. */
  ghost function Need(t: Tables, input: seq<Byte>, s: State): nat {
    match s.mode
    case LEN => FirstBits(t, input, s.b)
    case DIST => DistBits(t, input, s.b)
    case LENEXT => s.extra
    case DISTEXT => s.extra
    case _ => 0
  }

  ghost function DistBits(t: Tables, input: seq<Byte>, b: Bits): nat {
    if Searchable(t.dcode, t.distbits) && b.bits <= 8 * b.next then
      Lookup(t.dcode, t.distbits, From(input, Pos(b.next, b.bits))).bits
    else 0
  }

  /** The state is right, and no whole byte is held beyond the bits it needs. */
  ghost predicate Ready(t: Tables, c: Codes, input: seq<Byte>, r: Trace, s: State, total: seq<Byte>) {
    && Decoding(c, input, r, s, total)
    && s.b.bits < Need(t, input, s) + 8
  }

  lemma DistTable(t: Tables, c: Codes, input: seq<Byte>, b: Bits)
    requires ForCodes(t, c) && b.bits <= 8 * b.next
    ensures Searchable(t.dcode, t.distbits)
    ensures DistBits(t, input, b) == Lookup(t.dcode, t.distbits, From(input, Pos(b.next, b.bits))).bits
  {
    MaySearch(t.dcode, t.distbits, DISTS, c.dist);
  }

  lemma ReadyMeans(t: Tables, c: Codes, input: seq<Byte>, r: Trace, s: State, total: seq<Byte>)
    requires Ready(t, c, input, r, s, total)
    ensures Decoding(c, input, r, s, total) && s.b.bits < Need(t, input, s) + 8
    ensures Holding(input, s.b.next, s.b.hold, s.b.bits) && s.b.bits <= 32 && s.b.bits <= 8 * s.b.next
    ensures s.mode == LEN ==> Need(t, input, s) == FirstBits(t, input, s.b)
    ensures s.mode == DIST ==> Need(t, input, s) == DistBits(t, input, s.b)
    ensures s.mode == LENEXT ==> Need(t, input, s) == s.extra <= 5
    ensures s.mode == DISTEXT ==> Need(t, input, s) == s.extra <= 13
    ensures Pos(s.b.next, s.b.bits) == 8 * s.b.next - s.b.bits
  {
    hide Follows, Holding, Spell, SpellDistance, PartCopied, From, FirstBits, DistBits;
  }

  // ----- The tables of a block -------------------------------------------------------------------

  /** Builds both tables of a block from its code lengths; the first `nlen` of them are for
      literals and lengths, the rest for distances. */
  method BuildTables(lens: seq<nat>, nlen: nat, work: array<nat>) returns (ok: bool, t: Tables)
    requires 257 <= nlen <= 286 && nlen <= |lens| <= nlen + 30 && ValidLens(lens) && work.Length >= 288
    modifies work
    ensures ok ==> ForCodes(t, Codes(lens[..nlen], lens[nlen..]))
    ensures ok <==>
              && lens[256] != 0
              && !Rejected(LENS, lens[..nlen]) && !Rejected(DISTS, lens[nlen..])
              && (NoSymbols(lens[..nlen]) || !TooBig(LENS, TableSize(lens[..nlen], RootBits(lens[..nlen], 9))))
              && (NoSymbols(lens[nlen..]) || !TooBig(DISTS, TableSize(lens[nlen..], RootBits(lens[nlen..], 6))))
  {
    hide Rejected, NoSymbols, TooBig, TableSize, RootBits, Decodes, LaidOut, Provided;
    t := Tables([], 0, [], 0);
    if lens[256] == 0 {
      return false, t;
    }
    ProvidedIs(lens[..nlen], lens[nlen..]);
    var lcodes, dcodes := new Entry[ENOUGH_LENS], new Entry[ENOUGH_DISTS];
    var ret, lused, lenbits := InflateTable.Build(LENS, lens[..nlen], lcodes, 9, work);
    if ret != 0 {
      return false, t;
    }
    var dused, distbits;
    ret, dused, distbits := InflateTable.Build(DISTS, lens[nlen..], dcodes, 6, work);
    if ret != 0 {
      return false, t;
    }
    ok, t := true, Tables(lcodes[..lused], lenbits, dcodes[..dused], distbits);
    BothBuilt(t, Codes(lens[..nlen], lens[nlen..]));
  }

  lemma ProvidedIs(lits: seq<nat>, dists: seq<nat>)
    ensures Provided(LENS, lits, 9) == ENOUGH_LENS && Provided(DISTS, dists, 6) == ENOUGH_DISTS
  {
  }

  lemma BothBuilt(t: Tables, c: Codes)
    requires Decodes(t.lcode, t.lenbits, LENS, c.lit) && Decodes(t.dcode, t.distbits, DISTS, c.dist)
    ensures ForCodes(t, c)
  {
    hide Usable, TwoLevel, Answers, Lookup;
  }

  // ----- One state each ---------------------------------------------------------------------------

  /** The bits before `b` have been used since `b0`, and no whole byte is left over. */
  ghost predicate Used(input: seq<Byte>, b0: Bits, n: nat, b: Bits) {
    && Holding(input, b.next, b.hold, b.bits) && b.bits < 8
    && b.bits <= 8 * b.next && b0.bits <= 8 * b0.next
    && 8 * b.next - b.bits == 8 * b0.next - b0.bits + n
  }

  /** What the LEN state makes of the entry it finds. */
  function AfterLength(here: Entry, b: Bits): (s: State)
    ensures s.b == b
  {
    if here.op == 0 then State(LIT, b, here.val, 0, 0)
    else if Bit(here.op, 5) then State(TYPE, b, here.val, 0, 0)
    else if Bit(here.op, 6) then State(BAD, b, here.val, 0, 0)
    else State(LENEXT, b, here.val, 0, here.op % 16)
  }

  lemma LengthFound(t: Tables, c: Codes, input: seq<Byte>, r: Trace, total: seq<Byte>, s: State, e: Entry, b: Bits)
    requires ForCodes(t, c) && Decoding(c, input, r, s, total) && s.mode == LEN
    requires s.b.bits <= 8 * s.b.next && Searchable(t.lcode, t.lenbits)
    requires e == Lookup(t.lcode, t.lenbits, From(input, Pos(s.b.next, s.b.bits))) && Used(input, s.b, e.bits, b)
    ensures Decoding(c, input, r, AfterLength(e, b), total)
    ensures AfterLength(e, b).mode != LEN
    ensures AfterLength(e, b).mode == BAD ==> !Spell(c, From(input, r.here.pos)).item.Match?
  {
    hide *;
    ForMeans(t, c);
    StateMeans(c, input, r, s, total);
    var pos := Pos(s.b.next, s.b.bits);
    LitOps(t, c, From(input, pos));
    if 16 <= e.op <= 21 {
      var len := e.val + Low(From(input, pos + e.bits), e.op - 16);
      SpellsAt(t, c, input, pos, e, len);
      StartsMatch(c, input, r, total, s, e, len, b);
    } else {
      LitEntry(t.lcode, t.lenbits, c, From(input, pos));
      NoMatch(c, input, r, total, s, e, b);
    }
  }

  lemma StateMeans(c: Codes, input: seq<Byte>, r: Trace, s: State, total: seq<Byte>)
    requires Decoding(c, input, r, s, total) && s.mode == LEN
    ensures s.b.bits <= 8 * s.b.next && r.here == Progress(Pos(s.b.next, s.b.bits), total)
  {
  }

  lemma StartsMatch(c: Codes, input: seq<Byte>, r: Trace, total: seq<Byte>, s: State, e: Entry, len: nat, b: Bits)
    requires Decoding(c, input, r, s, total) && s.mode == LEN && Used(input, s.b, e.bits, b)
    requires GoodCodes(c) && 16 <= e.op <= 21 && !Bit(e.op, 5) && !Bit(e.op, 6)
    requires len == e.val + Low(From(input, Pos(s.b.next, s.b.bits) + e.bits), e.op - 16) && 3 <= len
    requires var pos := Pos(s.b.next, s.b.bits);
             Spell(c, From(input, pos))
             == SpellDistance(c, From(input, pos + (e.bits + (e.op - 16))), len, e.bits + (e.op - 16))
    ensures Decoding(c, input, r, AfterLength(e, b), total) && AfterLength(e, b).mode == LENEXT
  {
    hide Decoding, From, Spell, SpellDistance, Low, GoodCodes, Bit, Used;
    assert e.op % 16 == e.op - 16;
    BaseLength(c, input, r, total, s, e.bits, b, e.val, e.op - 16);
  }

  lemma BaseLength(c: Codes, input: seq<Byte>, r: Trace, total: seq<Byte>, s: State, n: nat, b: Bits,
                   base: nat, extra: nat)
    requires Decoding(c, input, r, s, total) && s.mode == LEN && Used(input, s.b, n, b)
    requires GoodCodes(c) && extra <= 5
    requires var pos := Pos(s.b.next, s.b.bits);
             var len := base + Low(From(input, pos + n), extra);
             3 <= len && Spell(c, From(input, pos)) == SpellDistance(c, From(input, pos + (n + extra)), len, n + extra)
    ensures Decoding(c, input, r, State(LENEXT, b, base, 0, extra), total)
  {
    hide *;
    DecodingMeans(c, input, r, s, total);
    UsedMeans(input, s.b, n, b);
    var s' := State(LENEXT, b, base, 0, extra);
    assert Pos(b.next, b.bits) + extra == Pos(s.b.next, s.b.bits) + (n + extra);
    LenIs(c, input, r.here, s, total);
    LenExtIs(c, input, r.here, s', total);
    MakeDecoding(c, input, r, s', total);
  }

  lemma NoMatch(c: Codes, input: seq<Byte>, r: Trace, total: seq<Byte>, s: State, e: Entry, b: Bits)
    requires Decoding(c, input, r, s, total) && s.mode == LEN && Used(input, s.b, e.bits, b)
    requires GoodCodes(c) && !(16 <= e.op <= 21)
    requires Bit(e.op, 5) <==> e.op == 96
    requires Bit(e.op, 6) <==> e.op != 0
    requires var sp := Spell(c, From(input, Pos(s.b.next, s.b.bits)));
             && (e.op == 0 ==> e.val < 256 && sp == Spelled(Literal(e.val), e.bits))
             && (e.op == 96 ==> sp == Spelled(EndOfBlock, e.bits))
             && (e.op != 0 && e.op != 96 ==> sp.item == BadLength)
    ensures Decoding(c, input, r, AfterLength(e, b), total)
    ensures AfterLength(e, b).mode in {LIT, TYPE, BAD}
    ensures AfterLength(e, b).mode == BAD ==> !Spell(c, From(input, r.here.pos)).item.Match?
  {
    hide Decoding, From, Spell, SpellDistance, Low, GoodCodes, Bit, Used;
    WholeCode(c, input, r, total, s, e.bits, b, AfterLength(e, b));
  }

  /** An item that is one code. */
  lemma WholeCode(c: Codes, input: seq<Byte>, r: Trace, total: seq<Byte>, s: State, n: nat, b: Bits, s': State)
    requires Decoding(c, input, r, s, total) && s.mode == LEN && Used(input, s.b, n, b) && s'.b == b && GoodCodes(c)
    requires var sp := Spell(c, From(input, Pos(s.b.next, s.b.bits)));
             || (s'.mode == LIT && s'.length < 256 && sp == Spelled(Literal(s'.length), n))
             || (s'.mode == TYPE && sp == Spelled(EndOfBlock, n))
             || (s'.mode == BAD && sp.item == BadLength)
    ensures Decoding(c, input, r, s', total)
    ensures s'.mode == BAD ==> !Spell(c, From(input, r.here.pos)).item.Match?
  {
    hide *;
    DecodingMeans(c, input, r, s, total);
    UsedMeans(input, s.b, n, b);
    LenIs(c, input, r.here, s, total);
    if s'.mode == LIT {
      LitIs(c, input, r.here, s', total);
    } else if s'.mode == TYPE {
      TypeIs(c, input, r.here, s', total);
    } else {
      BadIs(c, input, r.here, s', total);
    }
    MakeDecoding(c, input, r, s', total);
  }

  /** A state that waits for nothing, or whose bits are few, is ready. */
  lemma FewBits(t: Tables, c: Codes, input: seq<Byte>, r: Trace, s: State, total: seq<Byte>)
    requires Decoding(c, input, r, s, total) && s.b.bits < 8
    ensures Ready(t, c, input, r, s, total)
  {
    hide Decoding, FirstBits, DistBits;
  }

  /** The LEN state when there is too little for the fast loop. */
  method SlowLength(t: Tables, ghost c: Codes, avail: seq<Byte>, ghost input: seq<Byte>, s0: State,
                    ghost r: Trace, ghost total: seq<Byte>)
    returns (found: bool, s: State)
    requires ForCodes(t, c) && Ready(t, c, input, r, s0, total) && s0.mode == LEN
    requires avail <= input && s0.b.next <= |avail|
    ensures Ready(t, c, input, r, s, total) && s0.b.next <= s.b.next <= |avail|
    ensures found ==> s.mode != LEN && 8 * s0.b.next - s0.b.bits < 8 * s.b.next - s.b.bits
    ensures found && s.mode == BAD ==> GoodCodes(c) && !Spell(c, From(input, r.here.pos)).item.Match?
    ensures !found ==> s.mode == LEN && s.b.next == |avail| && s.b.bits < Need(t, input, s)
  {
    hide *;
    ReadyMeans(t, c, input, r, s0, total);
    LitTable(t, c, input, s0.b);
    ForMeans(t, c);
    EntryBits(t.lcode, t.lenbits, LENS, c.lit, From(input, Pos(s0.b.next, s0.b.bits)));
    var here, next, hold, bits;
    found, here, next, hold, bits :=
      DecodeSymbol(t.lcode, t.lenbits, LENS, c.lit, false, avail, input, s0.b.next, s0.b.hold, s0.b.bits);
    var b := Bits(next, hold, bits);
    ghost var e := Lookup(t.lcode, t.lenbits, From(input, Pos(s0.b.next, s0.b.bits)));
    if found {
      SymbolUsed(input, s0.b, e.bits, b);
      LengthFound(t, c, input, r, total, s0, e, b);
      SameEntry(here, e, b);
      s := AfterLength(here, b);
      FewBits(t, c, input, r, s, total);
    } else {
      s := s0.(b := b);
      PosIs(b);
      PosIs(s0.b);
      StillWaiting(t, c, input, r, s0, b, total);
    }
  }

  lemma ForMeans(t: Tables, c: Codes)
    requires ForCodes(t, c)
    ensures GoodCodes(c) && Decodes(t.lcode, t.lenbits, LENS, c.lit) && Decodes(t.dcode, t.distbits, DISTS, c.dist)
  {
  }

  lemma EntryBits(T: seq<Entry>, root: nat, kind: CodeType, lens: seq<nat>, x: nat)
    requires Decodes(T, root, kind, lens)
    ensures Searchable(T, root) && 0 < Lookup(T, root, x).bits <= MAXBITS
  {
    Shape(T, root, kind, lens, x);
  }

  lemma PosIs(b: Bits)
    requires b.bits <= 8 * b.next
    ensures Pos(b.next, b.bits) == 8 * b.next - b.bits
  {
  }

  lemma SymbolUsed(input: seq<Byte>, b0: Bits, n: nat, b: Bits)
    requires Holding(input, b.next, b.hold, b.bits) && b0.bits <= 8 * b0.next && b.bits <= 8 * b.next
    requires b0.bits < n + 8 && b0.next <= b.next
    requires Pos(b.next, b.bits) == Pos(b0.next, b0.bits) + n
    requires b0.next < b.next ==> Pos(b.next - 1, 0) < Pos(b0.next, b0.bits) + n
    ensures Used(input, b0, n, b)
    ensures b.bits < 8 && 8 * b.next - b.bits == 8 * b0.next - b0.bits + n
  {
    hide Holding;
  }

  lemma SameEntry(here: Entry, e: Entry, b: Bits)
    requires here.op == e.op && here.val == e.val
    ensures AfterLength(here, b) == AfterLength(e, b)
    ensures forall length: nat :: AfterDistance(here, b, length) == AfterDistance(e, b, length)
  {
  }

  /** More bits held, but nothing used. */
  lemma StillWaiting(t: Tables, c: Codes, input: seq<Byte>, r: Trace, s: State, b: Bits, total: seq<Byte>)
    requires Decoding(c, input, r, s, total) && Holding(input, b.next, b.hold, b.bits)
    requires s.b.bits <= 8 * s.b.next && b.bits <= 8 * b.next
    requires 8 * b.next - b.bits == 8 * s.b.next - s.b.bits
    requires b.bits < Need(t, input, s) + 8 && b.bits <= 32
    ensures Ready(t, c, input, r, s.(b := b), total)
    ensures Need(t, input, s.(b := b)) == Need(t, input, s)
  {
    hide *;
    SameState(c, input, r, s, b, total);
    SameNeed(t, input, s, b);
    MakeReady(t, c, input, r, s.(b := b), total);
  }

  lemma SameNeed(t: Tables, input: seq<Byte>, s: State, b: Bits)
    requires s.b.bits <= 8 * s.b.next && b.bits <= 8 * b.next
    requires 8 * b.next - b.bits == 8 * s.b.next - s.b.bits
    ensures Need(t, input, s.(b := b)) == Need(t, input, s)
  {
    hide Searchable, From, Lookup;
    PosIs(b);
    PosIs(s.b);
  }

  lemma MakeReady(t: Tables, c: Codes, input: seq<Byte>, r: Trace, s: State, total: seq<Byte>)
    requires Decoding(c, input, r, s, total) && s.b.bits < Need(t, input, s) + 8
    ensures Ready(t, c, input, r, s, total)
  {
    hide Decoding, Need;
  }

  /** What the DIST state makes of the entry it finds. */
  function AfterDistance(here: Entry, b: Bits, length: nat): (s: State)
    ensures s.b == b
  {
    if Bit(here.op, 6) then State(BAD, b, length, 0, 0)
    else State(DISTEXT, b, length, here.val, here.op % 16)
  }

  lemma DistanceFound(t: Tables, c: Codes, input: seq<Byte>, r: Trace, total: seq<Byte>, s: State, e: Entry, b: Bits)
    requires ForCodes(t, c) && Decoding(c, input, r, s, total) && s.mode == DIST
    requires s.b.bits <= 8 * s.b.next && Searchable(t.dcode, t.distbits)
    requires e == Lookup(t.dcode, t.distbits, From(input, Pos(s.b.next, s.b.bits))) && Used(input, s.b, e.bits, b)
    ensures Decoding(c, input, r, AfterDistance(e, b, s.length), total)
    ensures AfterDistance(e, b, s.length).mode in {DISTEXT, BAD}
    ensures AfterDistance(e, b, s.length).mode == BAD ==> !Spell(c, From(input, r.here.pos)).item.Match?
  {
    hide *;
    ForMeans(t, c);
    var pos := Pos(s.b.next, s.b.bits);
    UsedSince(c, input, r, s, total);
    DistOps(t, c, From(input, pos));
    DistEntry(t.dcode, t.distbits, c, From(input, pos), s.length, pos - r.here.pos);
    LengthOfAt(input, pos, e);
    DistanceInHand(c, input, r, total, s, e, b);
  }

  lemma LengthOfAt(input: seq<Byte>, pos: nat, e: Entry)
    ensures 16 <= e.op ==> LengthOf(e, From(input, pos)) == e.val + Low(From(input, pos + e.bits), e.op - 16)
  {
    hide From, Low;
    FromOn(input, pos, e.bits);
  }

  lemma UsedSince(c: Codes, input: seq<Byte>, r: Trace, s: State, total: seq<Byte>)
    requires Decoding(c, input, r, s, total)
    ensures s.b.bits <= 8 * s.b.next && r.here.pos <= Pos(s.b.next, s.b.bits) && GoodCodes(c)
  {
  }

  lemma DistanceInHand(c: Codes, input: seq<Byte>, r: Trace, total: seq<Byte>, s: State, e: Entry, b: Bits)
    requires Decoding(c, input, r, s, total) && s.mode == DIST && Used(input, s.b, e.bits, b)
    requires GoodCodes(c) && (e.op == 64 || 16 <= e.op <= 29) && (Bit(e.op, 6) <==> e.op == 64)
    requires r.here.pos <= Pos(s.b.next, s.b.bits)
    requires var pos := Pos(s.b.next, s.b.bits);
             var sp := SpellDistance(c, From(input, pos), s.length, pos - r.here.pos);
             var y := From(input, pos + e.bits);
             && (e.op == 64 ==> sp.item == BadDistance)
             && (16 <= e.op <= 29 ==>
                 && 1 <= e.val + Low(y, e.op - 16)
                 && sp == Spelled(Match(s.length, e.val + Low(y, e.op - 16)), pos - r.here.pos + e.bits + (e.op - 16)))
    ensures Decoding(c, input, r, AfterDistance(e, b, s.length), total)
    ensures AfterDistance(e, b, s.length).mode in {DISTEXT, BAD}
    ensures AfterDistance(e, b, s.length).mode == BAD ==> !Spell(c, From(input, r.here.pos)).item.Match?
  {
    hide Decoding, From, Spell, SpellDistance, Holding, Low, Pow2, GoodCodes, Bit, Used;
    if e.op == 64 {
      NoDistanceInHand(c, input, r, total, s, e.bits, b);
    } else {
      assert e.op % 16 == e.op - 16;
      BaseInHand(c, input, r, total, s, e.bits, b, e.val, e.op - 16);
    }
  }

  lemma NoDistanceInHand(c: Codes, input: seq<Byte>, r: Trace, total: seq<Byte>, s: State, n: nat, b: Bits)
    requires Decoding(c, input, r, s, total) && s.mode == DIST && Used(input, s.b, n, b)
    requires GoodCodes(c) && r.here.pos <= Pos(s.b.next, s.b.bits)
    requires var pos := Pos(s.b.next, s.b.bits);
             SpellDistance(c, From(input, pos), s.length, pos - r.here.pos).item == BadDistance
    ensures Decoding(c, input, r, State(BAD, b, s.length, 0, 0), total)
    ensures !Spell(c, From(input, r.here.pos)).item.Match?
  {
    hide *;
    DecodingMeans(c, input, r, s, total);
    UsedMeans(input, s.b, n, b);
    var s' := State(BAD, b, s.length, 0, 0);
    DistIs(c, input, r.here, s, total);
    BadIs(c, input, r.here, s', total);
    MakeDecoding(c, input, r, s', total);
  }

  lemma BaseInHand(c: Codes, input: seq<Byte>, r: Trace, total: seq<Byte>, s: State, n: nat, b: Bits,
                   base: nat, extra: nat)
    requires Decoding(c, input, r, s, total) && s.mode == DIST && Used(input, s.b, n, b)
    requires GoodCodes(c) && r.here.pos <= Pos(s.b.next, s.b.bits) && extra <= 13
    requires var pos := Pos(s.b.next, s.b.bits);
             var dist := base + Low(From(input, pos + n), extra);
             && 1 <= dist
             && SpellDistance(c, From(input, pos), s.length, pos - r.here.pos)
                == Spelled(Match(s.length, dist), pos - r.here.pos + n + extra)
    ensures Decoding(c, input, r, State(DISTEXT, b, s.length, base, extra), total)
  {
    hide *;
    DecodingMeans(c, input, r, s, total);
    UsedMeans(input, s.b, n, b);
    var s' := State(DISTEXT, b, s.length, base, extra);
    DistIs(c, input, r.here, s, total);
    DistExtIs(c, input, r.here, s', total);
    MakeDecoding(c, input, r, s', total);
  }

  /** The DIST state. */
  method SlowDistance(t: Tables, ghost c: Codes, avail: seq<Byte>, ghost input: seq<Byte>, s0: State,
                      ghost r: Trace, ghost total: seq<Byte>)
    returns (found: bool, s: State)
    requires ForCodes(t, c) && Ready(t, c, input, r, s0, total) && s0.mode == DIST
    requires avail <= input && s0.b.next <= |avail|
    ensures Ready(t, c, input, r, s, total) && s0.b.next <= s.b.next <= |avail|
    ensures found ==> s.mode in {DISTEXT, BAD} && 8 * s0.b.next - s0.b.bits < 8 * s.b.next - s.b.bits
    ensures found && s.mode == BAD ==> GoodCodes(c) && !Spell(c, From(input, r.here.pos)).item.Match?
    ensures !found ==> s.mode == DIST && s.b.next == |avail| && s.b.bits < Need(t, input, s)
  {
    hide *;
    ReadyMeans(t, c, input, r, s0, total);
    DistTable(t, c, input, s0.b);
    ForMeans(t, c);
    EntryBits(t.dcode, t.distbits, DISTS, c.dist, From(input, Pos(s0.b.next, s0.b.bits)));
    var here, next, hold, bits;
    found, here, next, hold, bits :=
      DecodeSymbol(t.dcode, t.distbits, DISTS, c.dist, true, avail, input, s0.b.next, s0.b.hold, s0.b.bits);
    var b := Bits(next, hold, bits);
    ghost var e := Lookup(t.dcode, t.distbits, From(input, Pos(s0.b.next, s0.b.bits)));
    if found {
      SymbolUsed(input, s0.b, e.bits, b);
      DistanceFound(t, c, input, r, total, s0, e, b);
      SameEntry(here, e, b);
      s := AfterDistance(here, b, s0.length);
      FewBits(t, c, input, r, s, total);
    } else {
      s := s0.(b := b);
      PosIs(b);
      PosIs(s0.b);
      StillWaiting(t, c, input, r, s0, b, total);
    }
  }

  /** NEEDBITS: pulls bytes until `n` bits are held, as long as there are any. */
  method NeedBits(avail: seq<Byte>, ghost input: seq<Byte>, b0: Bits, n: nat) returns (ok: bool, b: Bits)
    requires Holding(input, b0.next, b0.hold, b0.bits) && b0.bits <= 8 * b0.next && b0.bits < n + 8
    requires avail <= input && b0.next <= |avail|
    ensures Holding(input, b.next, b.hold, b.bits) && b.bits <= 8 * b.next && b.bits < n + 8
    ensures 8 * b.next - b.bits == 8 * b0.next - b0.bits && b0.next <= b.next <= |avail|
    ensures ok <==> n <= b.bits
    ensures !ok ==> b.next == |avail|
  {
    hide Holding, Low, High;
    b := b0;
    while b.bits < n
      invariant Holding(input, b.next, b.hold, b.bits) && b.bits <= 8 * b.next && b.bits < n + 8
      invariant 8 * b.next - b.bits == 8 * b0.next - b0.bits && b0.next <= b.next <= |avail|
    {
      if b.next == |avail| {
        return false, b;
      }
      Pulled(input, b.next, b.hold, b.bits);
      b := Bits(b.next + 1, Join(b.hold, avail[b.next], b.bits), b.bits + 8);
    }
    ok := true;
  }

  /** BITS and DROPBITS of `n` bits, which are held. */
  method TakeBits(ghost input: seq<Byte>, b0: Bits, n: nat) returns (v: nat, b: Bits)
    requires Holding(input, b0.next, b0.hold, b0.bits) && n <= b0.bits < n + 8 && b0.bits <= 8 * b0.next
    ensures v == Low(From(input, Pos(b0.next, b0.bits)), n) && Used(input, b0, n, b)
    ensures b.bits < 8 && b.next == b0.next && b.bits == b0.bits - n
  {
    hide Low, High, From;
    v := Low(b0.hold, n);
    Peeked(input, b0.next, b0.hold, b0.bits, n);
    Dropped(input, b0.next, b0.hold, b0.bits, n);
    b := Bits(b0.next, High(b0.hold, n), b0.bits - n);
  }

  lemma NoExtra(input: seq<Byte>, b: Bits)
    requires Holding(input, b.next, b.hold, b.bits) && b.bits < 8 && b.bits <= 8 * b.next
    ensures Low(From(input, Pos(b.next, b.bits)), 0) == 0 && Used(input, b, 0, b)
  {
  }

  lemma UsedFrom(input: seq<Byte>, b0: Bits, b1: Bits, n: nat, b: Bits)
    requires Used(input, b1, n, b) && b0.bits <= 8 * b0.next && 8 * b1.next - b1.bits == 8 * b0.next - b0.bits
    ensures Used(input, b0, n, b) && Holding(input, b.next, b.hold, b.bits) && b.bits <= 8 * b.next
  {
    hide Holding;
  }

  /** `n` extra bits, if they are there. */
  method Extra(avail: seq<Byte>, ghost input: seq<Byte>, b0: Bits, n: nat) returns (ok: bool, v: nat, b: Bits)
    requires Holding(input, b0.next, b0.hold, b0.bits) && b0.bits <= 8 * b0.next && b0.bits < n + 8
    requires avail <= input && b0.next <= |avail|
    ensures Holding(input, b.next, b.hold, b.bits) && b.bits <= 8 * b.next && b0.next <= b.next <= |avail|
    ensures ok ==> v == Low(From(input, Pos(b0.next, b0.bits)), n) && Used(input, b0, n, b)
    ensures ok ==> b.bits < 8 && 8 * b.next - b.bits == 8 * b0.next - b0.bits + n
    ensures !ok ==> b.bits < n && b.next == |avail| && 8 * b.next - b.bits == 8 * b0.next - b0.bits
  {
    hide *;
    ok, v, b := true, 0, b0;
    if n != 0 {
      ok, b := NeedBits(avail, input, b, n);
      if ok {
        PosIs(b);
        PosIs(b0);
        ghost var b1 := b;
        v, b := TakeBits(input, b, n);
        UsedFrom(input, b0, b1, n, b);
      }
    } else {
      NoExtra(input, b);
    }
  }

  /** The LENEXT and DISTEXT states: the extra bits, if there are any. */
  method ExtraBits(t: Tables, ghost c: Codes, avail: seq<Byte>, ghost input: seq<Byte>, s0: State,
                   ghost r: Trace, ghost total: seq<Byte>)
    returns (ok: bool, s: State)
    requires ForCodes(t, c) && Ready(t, c, input, r, s0, total) && s0.mode in {LENEXT, DISTEXT}
    requires avail <= input && s0.b.next <= |avail|
    ensures Ready(t, c, input, r, s, total) && s0.b.next <= s.b.next <= |avail|
    ensures ok ==> s.mode == (if s0.mode == LENEXT then DIST else MATCH)
    ensures ok ==> 8 * s0.b.next - s0.b.bits <= 8 * s.b.next - s.b.bits
    ensures !ok ==> s.mode == s0.mode && s.b.next == |avail| && s.b.bits < Need(t, input, s)
  {
    hide *;
    ReadyMeans(t, c, input, r, s0, total);
    var v, b;
    ok, v, b := Extra(avail, input, s0.b, s0.extra);
    if !ok {
      s := s0.(b := b);
      StillWaiting(t, c, input, r, s0, b, total);
      return;
    }
    if s0.mode == LENEXT {
      s := State(DIST, b, s0.length + v, s0.offset, s0.extra);
      LengthWhole(c, input, r, s0, v, b, total);
    } else {
      s := State(MATCH, b, s0.length, s0.offset + v, s0.extra);
      DistanceWhole(c, input, r, s0, v, b, total);
    }
    FewBits(t, c, input, r, s, total);
  }

  lemma UsedMeans(input: seq<Byte>, b0: Bits, n: nat, b: Bits)
    requires Used(input, b0, n, b)
    ensures Holding(input, b.next, b.hold, b.bits) && b.bits < 8 && b.bits <= 8 * b.next && b0.bits <= 8 * b0.next
    ensures Pos(b.next, b.bits) == Pos(b0.next, b0.bits) + n
  {
    hide Holding;
  }

  lemma LengthWhole(c: Codes, input: seq<Byte>, r: Trace, s: State, v: nat, b: Bits, total: seq<Byte>)
    requires Decoding(c, input, r, s, total) && s.mode == LENEXT && s.b.bits <= 8 * s.b.next
    requires v == Low(From(input, Pos(s.b.next, s.b.bits)), s.extra) && Used(input, s.b, s.extra, b)
    ensures Decoding(c, input, r, State(DIST, b, s.length + v, s.offset, s.extra), total)
  {
    hide *;
    DecodingMeans(c, input, r, s, total);
    UsedMeans(input, s.b, s.extra, b);
    var s' := State(DIST, b, s.length + v, s.offset, s.extra);
    LenExtIs(c, input, r.here, s, total);
    DistIs(c, input, r.here, s', total);
    MakeDecoding(c, input, r, s', total);
  }

  lemma DistanceWhole(c: Codes, input: seq<Byte>, r: Trace, s: State, v: nat, b: Bits, total: seq<Byte>)
    requires Decoding(c, input, r, s, total) && s.mode == DISTEXT && s.b.bits <= 8 * s.b.next
    requires v == Low(From(input, Pos(s.b.next, s.b.bits)), s.extra) && Used(input, s.b, s.extra, b)
    ensures Decoding(c, input, r, State(MATCH, b, s.length, s.offset + v, s.extra), total)
  {
    hide *;
    DecodingMeans(c, input, r, s, total);
    UsedMeans(input, s.b, s.extra, b);
    var s' := State(MATCH, b, s.length, s.offset + v, s.extra);
    DistExtIs(c, input, r.here, s, total);
    MatchIs(c, input, r.here, s', total);
    NoneCopied(total, s'.offset);
    MakeDecoding(c, input, r, s', total);
  }

  lemma NoneCopied(h: seq<Byte>, dist: nat)
    ensures PartCopied(h, dist, 0, h)
  {
  }

  // ----- Output -------------------------------------------------------------------------------------

  /** The LIT state. */
  lemma LiteralDone(t: Tables, c: Codes, input: seq<Byte>, r: Trace, s: State, total: seq<Byte>)
    requires Ready(t, c, input, r, s, total) && s.mode == LIT
    ensures s.length < 256 && s.b.bits <= 8 * s.b.next
    ensures var total' := total + [s.length];
            Ready(t, c, input, Trace(r.start, r.items + 1, Progress(Pos(s.b.next, s.b.bits), total')),
                  s.(mode := LEN), total')
  {
    hide *;
    ReadyMeans(t, c, input, r, s, total);
    DecodingMeans(c, input, r, s, total);
    LitIs(c, input, r.here, s, total);
    FewHeld(t, input, s);
    var total' := total + [s.length];
    EmitsLiteral(s.length, total);
    Onward(c, input, r, Pos(s.b.next, s.b.bits), total');
    BackToLen(t, c, input, Trace(r.start, r.items + 1, Progress(Pos(s.b.next, s.b.bits), total')),
              s.(mode := LEN), total');
  }

  lemma FewHeld(t: Tables, input: seq<Byte>, s: State)
    requires s.b.bits < Need(t, input, s) + 8 && s.mode in {LIT, MATCH, TYPE, BAD}
    ensures s.b.bits < 8
  {
  }

  lemma EmitsLiteral(v: Byte, h: seq<Byte>)
    ensures Emits(Literal(v), h, h + [v])
  {
  }

  /** Between two items. */
  lemma BackToLen(t: Tables, c: Codes, input: seq<Byte>, r: Trace, s: State, total: seq<Byte>)
    requires Follows(c, input, r) && GoodCodes(c) && Holding(input, s.b.next, s.b.hold, s.b.bits) && s.b.bits < 8
    requires s.b.bits <= 8 * s.b.next && r.here == Progress(Pos(s.b.next, s.b.bits), total) && s.mode == LEN
    ensures Ready(t, c, input, r, s, total)
  {
    hide *;
    LenIs(c, input, r.here, s, total);
    MakeDecoding(c, input, r, s, total);
    FewBits(t, c, input, r, s, total);
  }

  /** One round of the MATCH state that copied `n` bytes. */
  ghost function AfterCopy(r: Trace, s: State, n: nat, total: seq<Byte>): (Trace, State)
    requires n <= s.length && s.b.bits <= 8 * s.b.next
  {
    if n == s.length then
      (Trace(r.start, r.items + 1, Progress(Pos(s.b.next, s.b.bits), total)), s.(mode := LEN, length := 0))
    else (r, s.(length := s.length - n))
  }

  lemma CopyDone(t: Tables, c: Codes, input: seq<Byte>, r: Trace, s: State, all: seq<Byte>, o: seq<Byte>,
                 n: nat, g: seq<Byte>)
    requires Ready(t, c, input, r, s, all + o) && s.mode == MATCH
    requires Extends(all, o, s.offset, n, g) && 0 < n <= s.length && s.b.bits <= 8 * s.b.next
    ensures var (r', s') := AfterCopy(r, s, n, all + g);
            Ready(t, c, input, r', s', all + g)
  {
    hide *;
    ReadyMeans(t, c, input, r, s, all + o);
    DecodingMeans(c, input, r, s, all + o);
    FewHeld(t, input, s);
    MatchIs(c, input, r.here, s, all + o);
    CopyOn(r.here.out, s.offset, Spell(c, From(input, r.here.pos)).item.len - s.length, all, o, n, g);
    AfterCopyIs(r, s, n, all + g);
    if n == s.length {
      MatchComplete(t, c, input, r, s, all + g);
    } else {
      MatchGoesOn(t, c, input, r, s, n, all + g);
    }
  }

  /** The last byte of a match. */
  lemma MatchComplete(t: Tables, c: Codes, input: seq<Byte>, r: Trace, s: State, total: seq<Byte>)
    requires Follows(c, input, r) && GoodCodes(c) && Holding(input, s.b.next, s.b.hold, s.b.bits) && s.b.bits < 8
    requires s.b.bits <= 8 * s.b.next && r.here.pos <= Pos(s.b.next, s.b.bits)
    requires var sp := Spell(c, From(input, r.here.pos));
             && sp.item.Match? && 0 < sp.item.dist <= |r.here.out|
             && sp.bits == Pos(s.b.next, s.b.bits) - r.here.pos
             && total == CopyBack(r.here.out, sp.item.dist, sp.item.len)
    ensures Ready(t, c, input, Trace(r.start, r.items + 1, Progress(Pos(s.b.next, s.b.bits), total)),
                  s.(mode := LEN, length := 0), total)
  {
    hide *;
    var item := Spell(c, From(input, r.here.pos)).item;
    EmitsMatch(item.len, item.dist, r.here.out);
    Onward(c, input, r, Pos(s.b.next, s.b.bits), total);
    BackToLen(t, c, input, Trace(r.start, r.items + 1, Progress(Pos(s.b.next, s.b.bits), total)),
              s.(mode := LEN, length := 0), total);
  }

  lemma EmitsMatch(len: nat, dist: nat, h: seq<Byte>)
    requires 0 < dist <= |h|
    ensures Emits(Match(len, dist), h, CopyBack(h, dist, len))
  {
    hide CopyBack;
  }

  /** `n` more bytes of it, but not the last. */
  lemma MatchGoesOn(t: Tables, c: Codes, input: seq<Byte>, r: Trace, s: State, n: nat, total: seq<Byte>)
    requires Follows(c, input, r) && GoodCodes(c) && Holding(input, s.b.next, s.b.hold, s.b.bits) && s.b.bits < 8
    requires s.b.bits <= 8 * s.b.next && r.here.pos <= Pos(s.b.next, s.b.bits) && s.mode == MATCH && n < s.length
    requires var sp := Spell(c, From(input, r.here.pos));
             && sp.item.Match? && sp.item.dist == s.offset > 0 && sp.bits == Pos(s.b.next, s.b.bits) - r.here.pos
             && s.length <= sp.item.len && PartCopied(r.here.out, s.offset, sp.item.len - s.length + n, total)
    ensures Ready(t, c, input, r, s.(length := s.length - n), total)
  {
    hide *;
    var s' := s.(length := s.length - n);
    MatchIs(c, input, r.here, s', total);
    MakeDecoding(c, input, r, s', total);
    FewBits(t, c, input, r, s', total);
  }

  lemma CopyOn(h: seq<Byte>, dist: nat, done: nat, all: seq<Byte>, o: seq<Byte>, n: nat, g: seq<Byte>)
    requires PartCopied(h, dist, done, all + o) && Extends(all, o, dist, n, g) && n > 0
    ensures PartCopied(h, dist, done + n, all + g) && 0 < dist <= |h| && all + g == CopyBack(h, dist, done + n)
  {
    hide CopyBack;
    if done > 0 {
      CopyBackSplit(h, dist, done, n);
    }
  }

  lemma TooFar(t: Tables, c: Codes, input: seq<Byte>, r: Trace, s: State, total: seq<Byte>)
    requires Ready(t, c, input, r, s, total) && s.mode == MATCH
    ensures Ready(t, c, input, r, s.(mode := BAD), total)
    ensures s.offset > 0 && s.length > 0 && s.b.bits <= 8 * s.b.next
  {
    hide *;
    ReadyMeans(t, c, input, r, s, total);
    DecodingMeans(c, input, r, s, total);
    FewHeld(t, input, s);
    MatchIs(c, input, r.here, s, total);
    var s' := s.(mode := BAD);
    BadIs(c, input, r.here, s', total);
    MakeDecoding(c, input, r, s', total);
    FewBits(t, c, input, r, s', total);
  }

  /** Why decoding stops: the block is over, or the data are bad, or it needs more room or
      more input.  `n` is the number of input bytes there are and `room` the space left. */
  ghost predicate Stopped(t: Tables, c: Codes, input: seq<Byte>, r: Trace, s: State,
                          n: nat, room: nat, known: nat)
    requires GoodCodes(c)
  {
    match s.mode
    case TYPE => true
    case BAD => Spell(c, From(input, r.here.pos)).item.Match? ==> s.offset > known
    case LIT => room == 0
    case MATCH => room == 0
    case _ => s.b.next == n && s.b.bits < Need(t, input, s)
  }

  /** Before the fast loop. */
  lemma EnterFast(t: Tables, c: Codes, input: seq<Byte>, r: Trace, s: State, total: seq<Byte>)
    requires ForCodes(t, c) && Ready(t, c, input, r, s, total) && s.mode == LEN
    ensures Decoding(c, input, r, State(LEN, s.b, 0, 0, 0), total)
    ensures s.b.bits <= 30 && s.b.bits < FirstBits(t, input, s.b) + 8
  {
    hide From, Spell, SpellDistance, Holding, Follows, CopyBack, Low, Pow2, GoodCodes, Decodes, Lookup, Searchable;
    LitTable(t, c, input, s.b);
    EntryBits(t.lcode, t.lenbits, LENS, c.lit, From(input, Pos(s.b.next, s.b.bits)));
  }

  /** After it. */
  lemma LeaveFast(t: Tables, c: Codes, input: seq<Byte>, r: Trace, next0: nat, whave: nat, put: nat, s: State,
                  total: seq<Byte>, n: nat, room: nat)
    requires Ended(c, input, r, next0, whave, put, s, total) && s.b.bits < 8
    ensures Ready(t, c, input, r, s, total) && GoodCodes(c) && s.mode in {LEN, TYPE, BAD}
    ensures s.mode != LEN ==> Stopped(t, c, input, r, s, n, room, whave + put)
  {
    hide Decoding, FirstBits, DistBits, Spell, From;
    FewBits(t, c, input, r, s, total);
    UsedSince(c, input, r, s, total);
  }

  /** The MATCH state. */
  method CopyMatch(t: Tables, ghost c: Codes, w: Window, ghost input: seq<Byte>, out: array<Byte>, put0: nat,
                   s0: State, ghost r0: Trace)
    returns (bad: bool, s: State, put: nat, ghost r: Trace)
    requires w.Valid() && out != w.data && put0 < out.Length && s0.mode == MATCH
    requires Ready(t, c, input, r0, s0, w.supplied + out[..][..put0])
    modifies out
    ensures put0 <= put <= out.Length && Ready(t, c, input, r, s, w.supplied + out[..][..put])
    ensures r.start == r0.start && r0.items <= r.items && s.b == s0.b
    ensures bad ==> s.mode == BAD && put == put0 && s.offset > w.whave + put && r == r0
    ensures !bad ==> put0 < put && s.mode in {MATCH, LEN} && s0.offset <= w.whave + put0
    ensures !bad ==> if s.mode == MATCH then r == r0 && s.offset == s0.offset else r.items == r0.items + 1
  {
    hide *;
    MeansShape(w);
    ghost var o := out[..][..put0];
    TooFar(t, c, input, r0, s0, w.supplied + o);
    var length;
    bad, put, length := MatchStep(w, out, put0, s0.length, s0.offset);
    s, r := s0, r0;
    if bad {
      s := s.(mode := BAD);
    } else {
      WholeHistory(w, o, s0.offset, put - put0, out[..][..put]);
      CopyDone(t, c, input, r0, s0, w.supplied, o, put - put0, out[..][..put]);
      AfterCopyIs(r0, s0, put - put0, w.supplied + out[..][..put]);
      if length == 0 {
        r := Trace(r.start, r.items + 1, Progress(Pos(s.b.next, s.b.bits), w.supplied + out[..][..put]));
        s := s.(mode := LEN, length := 0);
      } else {
        s := s.(length := length);
      }
    }
  }

  lemma AfterCopyIs(r: Trace, s: State, n: nat, total: seq<Byte>)
    requires n <= s.length && s.b.bits <= 8 * s.b.next
    ensures AfterCopy(r, s, n, total) ==
            if n == s.length then
              (Trace(r.start, r.items + 1, Progress(Pos(s.b.next, s.b.bits), total)), s.(mode := LEN, length := 0))
            else (r, s.(length := s.length - n))
  {
  }

  lemma WholeHistory(w: Window, o: seq<Byte>, dist: nat, n: nat, g: seq<Byte>)
    requires w.Valid() && Extends(w.History(), o, dist, n, g)
    ensures Extends(w.supplied, o, dist, n, g)
  {
    hide Last, CopyBack, InOrder, Extends;
    Remembered(w.supplied, w.wsize, o, dist, n, g);
  }

  // ----- What was in reach --------------------------------------------------------------------------

  /** In a call that began after `base` bytes of output, `whave` of them remembered, with item
      `from`: every match completed was in reach when it was begun, and so is the one in hand
      if some of it was copied in this call. */
  ghost predicate InReach(c: Codes, input: seq<Byte>, from: nat, r: Trace, s: State, total: seq<Byte>,
                          base: nat, whave: nat)
    requires GoodCodes(c)
  {
    && from <= r.items && Reached(c, input, r.start, from, r.items, base, whave)
    && (s.mode == MATCH && |total| > base && |total| > |r.here.out| ==>
          s.offset <= Known(|r.here.out|, base, whave))
  }

  lemma ReachStart(c: Codes, input: seq<Byte>, r: Trace, s: State, total: seq<Byte>, base: nat, whave: nat)
    requires GoodCodes(c) && (s.mode == MATCH ==> |total| <= base)
    ensures InReach(c, input, r.items, r, s, total, base, whave)
  {
    hide GoodCodes, Within;
  }

  lemma ReachMeans(c: Codes, input: seq<Byte>, from: nat, r: Trace, s: State, total: seq<Byte>, base: nat, whave: nat)
    requires GoodCodes(c) && InReach(c, input, from, r, s, total, base, whave)
    ensures from <= r.items && Reached(c, input, r.start, from, r.items, base, whave)
  {
    hide GoodCodes, Reached;
  }

  /** More items, and none in hand. */
  lemma ReachItems(c: Codes, input: seq<Byte>, from: nat, r0: Trace, s0: State, total0: seq<Byte>, r: Trace, s: State,
                   total: seq<Byte>, base: nat, whave: nat)
    requires GoodCodes(c) && InReach(c, input, from, r0, s0, total0, base, whave)
    requires r.start == r0.start && r0.items <= r.items && s.mode != MATCH
    requires Reached(c, input, r.start, r0.items, r.items, base, whave)
    ensures InReach(c, input, from, r, s, total, base, whave)
  {
    hide GoodCodes, Reached;
    ReachedOn(c, input, r.start, from, r0.items, r.items, base, whave);
  }

  /** The item in hand is read on, but nothing is put out. */
  lemma ReachRead(c: Codes, input: seq<Byte>, from: nat, r: Trace, s0: State, s: State, total: seq<Byte>,
                  base: nat, whave: nat)
    requires GoodCodes(c) && InReach(c, input, from, r, s0, total, base, whave)
    requires Decoding(c, input, r, s0, total) && s0.mode in {LEN, LENEXT, DIST, DISTEXT}
    ensures InReach(c, input, from, r, s, total, base, whave)
  {
    hide GoodCodes, Reached, Follows, Holding, Spell, SpellDistance, From, Low;
  }

  /** A literal goes out. */
  lemma ReachLiteral(c: Codes, input: seq<Byte>, from: nat, r: Trace, s0: State, total: seq<Byte>,
                     base: nat, whave: nat, r': Trace, s: State, total': seq<Byte>)
    requires GoodCodes(c) && InReach(c, input, from, r, s0, total, base, whave)
    requires Decoding(c, input, r, s0, total) && s0.mode == LIT
    requires r'.start == r.start && r'.items == r.items + 1 && s.mode == LEN
    ensures InReach(c, input, from, r', s, total', base, whave)
  {
    hide *;
    DecodingMeans(c, input, r, s0, total);
    LitIs(c, input, r.here, s0, total);
    WithinHere(c, input, r, base, whave);
    ReachMeans(c, input, from, r, s0, total, base, whave);
    ReachedOne(c, input, r.start, from, r.items, base, whave);
    MakeReach(c, input, from, r', s, total', base, whave);
  }

  lemma MakeReach(c: Codes, input: seq<Byte>, from: nat, r: Trace, s: State, total: seq<Byte>, base: nat, whave: nat)
    requires GoodCodes(c) && from <= r.items && Reached(c, input, r.start, from, r.items, base, whave)
    requires s.mode == MATCH && |total| > base && |total| > |r.here.out| ==>
               s.offset <= Known(|r.here.out|, base, whave)
    ensures InReach(c, input, from, r, s, total, base, whave)
  {
    hide GoodCodes, Reached, Known;
  }

  /** A round of a match that was not refused. */
  lemma ReachMatch(c: Codes, input: seq<Byte>, from: nat, r: Trace, s0: State, total: seq<Byte>,
                   base: nat, whave: nat, r': Trace, s: State, total': seq<Byte>)
    requires GoodCodes(c) && InReach(c, input, from, r, s0, total, base, whave)
    requires Decoding(c, input, r, s0, total) && s0.mode == MATCH && |total| >= base
    requires s0.offset <= whave + (|total| - base)
    requires if s.mode == MATCH then r' == r && s.offset == s0.offset
             else r'.start == r.start && r'.items == r.items + 1
    ensures InReach(c, input, from, r', s, total', base, whave)
  {
    hide *;
    DecodingMeans(c, input, r, s0, total);
    MatchIs(c, input, r.here, s0, total);
    WithinHere(c, input, r, base, whave);
    MatchReaches(c, input, from, r, s0, total, base, whave);
    ReachMeans(c, input, from, r, s0, total, base, whave);
    if s.mode != MATCH {
      ReachedOne(c, input, r.start, from, r.items, base, whave);
    }
    MakeReach(c, input, from, r', s, total', base, whave);
  }

  lemma MatchReaches(c: Codes, input: seq<Byte>, from: nat, r: Trace, s0: State, total: seq<Byte>,
                     base: nat, whave: nat)
    requires GoodCodes(c) && InReach(c, input, from, r, s0, total, base, whave) && s0.mode == MATCH
    requires |total| >= base && s0.offset <= whave + (|total| - base)
    ensures s0.offset <= Known(|r.here.out|, base, whave)
  {
    hide GoodCodes, Reached;
  }

  /** A match that is refused was out of reach when it was begun. */
  lemma OutOfReach(c: Codes, input: seq<Byte>, r: Trace, s: State, total: seq<Byte>, base: nat, whave: nat)
    requires Decoding(c, input, r, s, total) && s.mode == BAD && |total| >= base && GoodCodes(c)
    requires Spell(c, From(input, r.here.pos)).item.Match? ==> s.offset > whave + (|total| - base)
    ensures Spell(c, From(input, r.here.pos)).item.Match? ==> !Within(c, input, r.start, r.items, base, whave)
  {
    hide *;
    DecodingMeans(c, input, r, s, total);
    BadIs(c, input, r.here, s, total);
    WithinHere(c, input, r, base, whave);
    OutAtMost(c, input, r, s, total);
    KnownIs(|r.here.out|, base, whave);
  }

  lemma KnownIs(size: nat, base: nat, whave: nat)
    ensures Known(size, base, whave) == whave + if size > base then size - base else 0
  {
  }

  lemma OutAtMost(c: Codes, input: seq<Byte>, r: Trace, s: State, total: seq<Byte>)
    requires Decoding(c, input, r, s, total) && GoodCodes(c)
    ensures |r.here.out| <= |total|
  {
    hide Follows, GoodCodes, Holding, Spell, SpellDistance, From, Low;
  }

  // ----- The loop --------------------------------------------------------------------------------------

  /** The states that read: one step of them. */
  method Read(t: Tables, ghost c: Codes, avail: seq<Byte>, ghost input: seq<Byte>, s0: State,
              ghost r: Trace, ghost total: seq<Byte>, ghost room: nat, ghost known: nat)
    returns (more: bool, s: State)
    requires ForCodes(t, c) && GoodCodes(c) && Ready(t, c, input, r, s0, total)
    requires s0.mode in {LEN, LENEXT, DIST, DISTEXT} && avail <= input && s0.b.next <= |avail|
    ensures Ready(t, c, input, r, s, total) && s.b.next <= |avail|
    ensures !more ==> Stopped(t, c, input, r, s, |avail|, room, known)
    ensures more ==> s.mode != TYPE && s.mode != BAD
    ensures more ==> 8 * s0.b.next - s0.b.bits <= 8 * s.b.next - s.b.bits <= 8 * |avail|
    ensures more && 8 * s0.b.next - s0.b.bits == 8 * s.b.next - s.b.bits ==> Rank(s) < Rank(s0)
  {
    hide *;
    RankIs(s0);
    if s0.mode == LEN {
      more, s := SlowLength(t, c, avail, input, s0, r, total);
      LengthStop(t, c, input, r, s, more, |avail|, room, known);
      more := more && s.mode != TYPE && s.mode != BAD;
    } else if s0.mode == DIST {
      more, s := SlowDistance(t, c, avail, input, s0, r, total);
      LengthStop(t, c, input, r, s, more, |avail|, room, known);
      more := more && s.mode != BAD;
    } else {
      more, s := ExtraBits(t, c, avail, input, s0, r, total);
      WaitStop(t, c, input, r, s, |avail|, room, known);
    }
    RankIs(s);
  }

  function Rank(s: State): nat {
    if s.mode == LENEXT || s.mode == DISTEXT then 1 else 0
  }

  lemma RankIs(s: State)
    ensures Rank(s) == if s.mode == LENEXT || s.mode == DISTEXT then 1 else 0
  {
  }

  /** The LIT state. */
  method PutLiteral(t: Tables, ghost c: Codes, w: Window, ghost input: seq<Byte>, out: array<Byte>, put0: nat,
                    s0: State, ghost r0: Trace)
    returns (s: State, put: nat, ghost r: Trace)
    requires w.Valid() && out != w.data && put0 < out.Length && s0.mode == LIT
    requires Ready(t, c, input, r0, s0, w.supplied + out[..][..put0])
    modifies out
    ensures put == put0 + 1 && Ready(t, c, input, r, s, w.supplied + out[..][..put])
    ensures r.start == r0.start && r.items == r0.items + 1 && s.b == s0.b && s.mode == LEN
  {
    hide *;
    ghost var o := out[..][..put0];
    LiteralDone(t, c, input, r0, s0, w.supplied + o);
    out[put0] := s0.length;
    put := put0 + 1;
    PutOne(w.supplied, o, s0.length, out[..], put);
    r := Trace(r0.start, r0.items + 1, Progress(Pos(s0.b.next, s0.b.bits), w.supplied + out[..][..put]));
    s := s0.(mode := LEN);
  }

  /** The states that write: one step of them. */
  method Write(t: Tables, ghost c: Codes, w: Window, ghost input: seq<Byte>, out: array<Byte>, put0: nat,
               s0: State, ghost r0: Trace, ghost n: nat, ghost from: nat)
    returns (more: bool, s: State, put: nat, ghost r: Trace)
    requires w.Valid() && out != w.data && put0 <= out.Length && s0.mode in {LIT, MATCH} && GoodCodes(c)
    requires Ready(t, c, input, r0, s0, w.supplied + out[..][..put0])
    requires InReach(c, input, from, r0, s0, w.supplied + out[..][..put0], |w.supplied|, w.whave)
    modifies out
    ensures put0 <= put <= out.Length && Ready(t, c, input, r, s, w.supplied + out[..][..put])
    ensures InReach(c, input, from, r, s, w.supplied + out[..][..put], |w.supplied|, w.whave)
    ensures r.start == r0.start && r0.items <= r.items && s.b == s0.b
    ensures !more ==> Stopped(t, c, input, r, s, n, out.Length - put, w.whave + put)
    ensures more ==> put0 < put && s.mode in {MATCH, LEN}
  {
    hide *;
    s, put, r, more := s0, put0, r0, false;
    ghost var total0 := w.supplied + out[..][..put];
    ReadyMeans(t, c, input, r, s, total0);
    if put == out.Length {
      RoomStop(t, c, input, r, s, n, w.whave + put);
    } else if s.mode == MATCH {
      var bad;
      bad, s, put, r := CopyMatch(t, c, w, input, out, put, s, r);
      BadStop(t, c, input, r, s, bad, n, out.Length - put, w.whave + put);
      more := !bad;
      ReachWrite(c, input, from, r0, s0, total0, |w.supplied|, w.whave, bad, r, s, w.supplied + out[..][..put]);
    } else {
      s, put, r := PutLiteral(t, c, w, input, out, put, s, r);
      more := true;
      ReachLiteral(c, input, from, r0, s0, total0, |w.supplied|, w.whave, r, s, w.supplied + out[..][..put]);
    }
  }

  /** After a round of MATCH. */
  lemma ReachWrite(c: Codes, input: seq<Byte>, from: nat, r: Trace, s0: State, total: seq<Byte>,
                   base: nat, whave: nat, bad: bool, r': Trace, s: State, total': seq<Byte>)
    requires GoodCodes(c) && InReach(c, input, from, r, s0, total, base, whave)
    requires Decoding(c, input, r, s0, total) && s0.mode == MATCH && |total| >= base
    requires bad ==> s.mode == BAD && r' == r
    requires !bad ==>
               && s0.offset <= whave + (|total| - base)
               && if s.mode == MATCH then r' == r && s.offset == s0.offset
                  else r'.start == r.start && r'.items == r.items + 1
    ensures InReach(c, input, from, r', s, total', base, whave)
  {
    hide *;
    if bad {
      ReachMeans(c, input, from, r, s0, total, base, whave);
      MakeReach(c, input, from, r, s, total', base, whave);
    } else {
      ReachMatch(c, input, from, r, s0, total, base, whave, r', s, total');
    }
  }

  /** The states of inflate from LEN to the end of the block, until the block ends, the data
      turn out bad, or the next state needs input or room that is not there. */
  method DecodeBlock(t: Tables, ghost c: Codes, w: Window, avail: seq<Byte>, ghost input: seq<Byte>,
                     out: array<Byte>, put0: nat, s0: State, ghost r0: Trace)
    returns (s: State, put: nat, ghost r: Trace)
    requires ForCodes(t, c) && w.Valid() && out != w.data && avail <= input
    requires put0 <= out.Length && Ready(t, c, input, r0, s0, w.supplied + out[..][..put0])
    requires s0.mode != TYPE && s0.mode != BAD && s0.b.next <= |avail| && (put0 == 0 || s0.mode == LEN)
    modifies out
    ensures put0 <= put <= out.Length && Ready(t, c, input, r, s, w.supplied + out[..][..put])
    ensures GoodCodes(c) && Stopped(t, c, input, r, s, |avail|, out.Length - put, w.whave + put)
    ensures r.start == r0.start && r0.items <= r.items && s.b.next <= |avail|
    ensures Reached(c, input, r.start, r0.items, r.items, |w.supplied|, w.whave)
    ensures s.mode == BAD && Spell(c, From(input, r.here.pos)).item.Match? ==>
              !Within(c, input, r.start, r.items, |w.supplied|, w.whave)
  {
    hide *;
    ForMeans(t, c);
    s, put, r := s0, put0, r0;
    ReachStart(c, input, r, s, w.supplied + out[..][..put], |w.supplied|, w.whave);
    var more := true;
    while more
      invariant put0 <= put <= out.Length && s.b.next <= |avail|
      invariant Ready(t, c, input, r, s, w.supplied + out[..][..put]) && w.Valid()
      invariant r.start == r0.start && r0.items <= r.items
      invariant InReach(c, input, r0.items, r, s, w.supplied + out[..][..put], |w.supplied|, w.whave)
      invariant if more then s.mode != TYPE && s.mode != BAD
                else Stopped(t, c, input, r, s, |avail|, out.Length - put, w.whave + put)
      decreases more, out.Length - put, 8 * |avail| - (8 * s.b.next - s.b.bits), Rank(s)
    {
      ghost var total := w.supplied + out[..][..put];
      if s.mode == LEN && |avail| - s.b.next >= 6 && out.Length - put >= 258 {
        EnterFast(t, c, input, r, s, total);
        ghost var next0, r1, s1 := s.b.next, r, s;
        s, put, r := DecodeFast(t, c, w, avail, input, out, put, s.b, r);
        LeaveFast(t, c, input, r, next0, w.whave, put, s, w.supplied + out[..][..put], |avail|, out.Length - put);
        more := s.mode == LEN;
        ReachItems(c, input, r0.items, r1, s1, total, r, s, w.supplied + out[..][..put], |w.supplied|, w.whave);
      } else if s.mode == LIT || s.mode == MATCH {
        more, s, put, r := Write(t, c, w, input, out, put, s, r, |avail|, r0.items);
      } else {
        ghost var s1 := s;
        ReadyMeans(t, c, input, r, s, total);
        more, s := Read(t, c, avail, input, s, r, total, out.Length - put, w.whave + put);
        ReachRead(c, input, r0.items, r, s1, s, total, |w.supplied|, w.whave);
      }
    }
    ReachMeans(c, input, r0.items, r, s, w.supplied + out[..][..put], |w.supplied|, w.whave);
    StoppedMeans(t, c, input, r, s, |avail|, out.Length - put, w.whave + put);
    ReadyMeans(t, c, input, r, s, w.supplied + out[..][..put]);
    if s.mode == BAD {
      OutOfReach(c, input, r, s, w.supplied + out[..][..put], |w.supplied|, w.whave);
    }
  }

  lemma NothingPut(all: seq<Byte>, o: seq<Byte>)
    ensures all + o[..0] == all
  {
  }

  lemma PutOne(all: seq<Byte>, o: seq<Byte>, v: Byte, o': seq<Byte>, put: nat)
    requires put <= |o'| && put == |o| + 1 && o'[..|o|] == o && o'[|o|] == v
    ensures all + o'[..put] == (all + o) + [v]
  {
  }

  lemma LengthStop(t: Tables, c: Codes, input: seq<Byte>, r: Trace, s: State, found: bool, n: nat, room: nat,
                   known: nat)
    requires GoodCodes(c)
    requires found && s.mode == BAD ==> !Spell(c, From(input, r.here.pos)).item.Match?
    requires !found ==> s.mode in {LEN, DIST} && s.b.next == n && s.b.bits < Need(t, input, s)
    ensures !found || s.mode == TYPE || s.mode == BAD ==> Stopped(t, c, input, r, s, n, room, known)
  {
    hide Need, Spell, From;
  }

  lemma WaitStop(t: Tables, c: Codes, input: seq<Byte>, r: Trace, s: State, n: nat, room: nat, known: nat)
    requires GoodCodes(c)
    ensures s.mode in {LENEXT, DISTEXT} && s.b.next == n && s.b.bits < Need(t, input, s) ==>
              Stopped(t, c, input, r, s, n, room, known)
  {
    hide Need, Spell, From;
  }

  lemma RoomStop(t: Tables, c: Codes, input: seq<Byte>, r: Trace, s: State, n: nat, known: nat)
    requires GoodCodes(c) && s.mode in {LIT, MATCH}
    ensures Stopped(t, c, input, r, s, n, 0, known)
  {
  }

  lemma BadStop(t: Tables, c: Codes, input: seq<Byte>, r: Trace, s: State, bad: bool, n: nat, room: nat, known: nat)
    requires GoodCodes(c)
    ensures bad && s.mode == BAD && s.offset > known ==> Stopped(t, c, input, r, s, n, room, known)
  {
  }

  lemma StoppedMeans(t: Tables, c: Codes, input: seq<Byte>, r: Trace, s: State, n: nat, room: nat, known: nat)
    requires GoodCodes(c) && Stopped(t, c, input, r, s, n, room, known)
    ensures s.mode in {LEN, LENEXT, DIST, DISTEXT} ==> s.b.next == n && s.b.bits < Need(t, input, s)
    ensures s.mode in {LIT, MATCH} ==> room == 0
    ensures s.mode == BAD && Spell(c, From(input, r.here.pos)).item.Match? ==> s.offset > known
  {
    hide Need, Spell, From;
  }

  // ----- However the calls are cut -----------------------------------------------------------------------------

  /** A state that has come to the end of the block, or found the data bad: in the latter
      case for a distance that reaches before all output there was. */
  ghost predicate AtStop(c: Codes, input: seq<Byte>, r: Trace, s: State, total: seq<Byte>) {
    && Decoding(c, input, r, s, total)
    && (s.mode == TYPE
        || (s.mode == BAD && (Spell(c, From(input, r.here.pos)).item.Match? ==> s.offset > |total|)))
  }

  /** An Inflater that finds the data bad stops where the stream does, if and only if it was not
      for a distance wider than its window but not than the output; with a window of 32K it
      always does. */
  lemma BadIsStop(c: Codes, input: seq<Byte>, r: Trace, s: State, total: seq<Byte>, wbits: nat)
    requires Decoding(c, input, r, s, total) && s.mode == BAD && GoodCodes(c)
    requires Spell(c, From(input, r.here.pos)).item.Match? ==> s.offset > |total| || s.offset > Pow2(wbits)
    ensures var item := Spell(c, From(input, r.here.pos)).item;
            AtStop(c, input, r, s, total) <==> !(item.Match? && Pow2(wbits) < item.dist <= |total|)
    ensures wbits >= 15 ==> AtStop(c, input, r, s, total)
  {
    hide From, Follows, Holding, After, Low, Pow2, GoodCodes, CanStep, CopyBack, Spell, SpellDistance, PartCopied;
    var x := From(input, r.here.pos);
    if Spell(c, x).item.Match? && wbits >= 15 {
      DistanceLimit(c, x);
      Pow2Mono(15, wbits);
      PowFifteen();
    }
  }

  lemma PowFifteen()
    ensures Pow2(15) == 32768
  {
    PowEight();
    Pow2Add(7, 8);
    SmallPowers();
  }

  lemma DistanceLimit(c: Codes, x: nat)
    requires GoodCodes(c) && Spell(c, x).item.Match?
    ensures Spell(c, x).item.dist <= 32768
  {
    hide Low, High, DistRange, LengthRange, StreamCode, GoodCodes;
    var s := SymbolAt(c.lit, x).s;
    var r := LengthRange(s);
    var y := High(High(x, c.lit[s]), r.extra);
    var d := SymbolAt(c.dist, y).s;
    DistBound(d, High(y, c.dist[d]));
  }

  lemma StopIsStop(c: Codes, input: seq<Byte>, r: Trace, s: State, total: seq<Byte>)
    requires AtStop(c, input, r, s, total)
    ensures Follows(c, input, r) && Stops(c, input, r.here) && total == r.here.out
  {
    hide From, Spell, Holding, After, Low, Pow2, GoodCodes;
  }

  /** Two decoders of the same block that both stopped did so at the same item, with the
      same output, however often they were called and with how much input and room. */
  lemma SameOutcome(c: Codes, input: seq<Byte>, r1: Trace, s1: State, total1: seq<Byte>,
                    r2: Trace, s2: State, total2: seq<Byte>)
    requires AtStop(c, input, r1, s1, total1) && AtStop(c, input, r2, s2, total2) && r1.start == r2.start
    ensures r1 == r2 && total1 == total2
    ensures s1.mode == s2.mode && (s1.mode == TYPE ==> 8 * s1.b.next - s1.b.bits == 8 * s2.b.next - s2.b.bits)
  {
    hide From, Spell, SpellDistance, Holding, Follows, Low, Pow2, GoodCodes, CanStep, CopyBack, PartCopied, Stops;
    StopIsStop(c, input, r1, s1, total1);
    StopIsStop(c, input, r2, s2, total2);
    SameStop(c, input, r1, r2);
  }

  lemma {:induction false} OutputGrows(c: Codes, input: seq<Byte>, p: Progress, n: nat, m: nat)
    requires GoodCodes(c) && n <= m && After(c, input, p, m).At?
    ensures After(c, input, p, n).At? && After(c, input, p, n).p.out <= After(c, input, p, m).p.out
  {
    hide *;
    if n < m {
      OneStepGrows(c, input, p, m - 1);
      OutputGrows(c, input, p, n, m - 1);
    }
  }

  lemma OneStepGrows(c: Codes, input: seq<Byte>, p: Progress, n: nat)
    requires GoodCodes(c) && After(c, input, p, n + 1).At?
    ensures After(c, input, p, n).At? && After(c, input, p, n).p.out <= After(c, input, p, n + 1).p.out
  {
    hide GoodCodes, Step, CanStep;
    StepGrows(c, input, After(c, input, p, n).p);
  }

  lemma StepGrows(c: Codes, input: seq<Byte>, q: Progress)
    requires GoodCodes(c)
    ensures CanStep(c, input, q) ==> q.out <= Step(c, input, q).out
  {
    hide GoodCodes, Spell, From, CopyBack;
  }

  /** What has been put out before the end of the block is reached is the beginning of what
      the whole block decodes to. */
  lemma OutputIsPrefix(c: Codes, input: seq<Byte>, r: Trace, s: State, total: seq<Byte>,
                       r': Trace, s': State, total': seq<Byte>)
    requires Decoding(c, input, r, s, total) && s.mode != BAD
    requires AtStop(c, input, r', s', total') && r.start == r'.start
    ensures total <= total' && r.items <= r'.items
  {
    hide *;
    StopIsStop(c, input, r', s', total');
    DecodingFollows(c, input, r, s, total);
    FollowsMeans(c, input, r);
    FollowsMeans(c, input, r');
    if r'.items < r.items {
      NothingAfterStop(c, input, r.start, r'.items, r.items - r'.items);
    }
    OutputGrows(c, input, r.start, r.items, r'.items);
    if total != r.here.out {
      PartOfMatch(c, input, r, s, total);
      if r.items < r'.items {
        OutputGrows(c, input, r.start, r.items + 1, r'.items);
      }
    }
  }

  lemma FollowsMeans(c: Codes, input: seq<Byte>, r: Trace)
    requires Follows(c, input, r)
    ensures GoodCodes(c) && After(c, input, r.start, r.items) == At(r.here)
  {
  }

  lemma DecodingFollows(c: Codes, input: seq<Byte>, r: Trace, s: State, total: seq<Byte>)
    requires Decoding(c, input, r, s, total)
    ensures Follows(c, input, r)
  {
  }

  /** Output in the middle of an item is part of a match that is going to be completed. */
  lemma PartOfMatch(c: Codes, input: seq<Byte>, r: Trace, s: State, total: seq<Byte>)
    requires Decoding(c, input, r, s, total) && s.mode != BAD && total != r.here.out && GoodCodes(c)
    ensures !Stops(c, input, r.here) && CanStep(c, input, r.here)
    ensures total <= Step(c, input, r.here).out
    ensures After(c, input, r.start, r.items + 1) == At(Step(c, input, r.here))
  {
    hide From, Holding, After, Low, Pow2, GoodCodes, Spell, SpellDistance, CopyBack;
    var item := Spell(c, From(input, r.here.pos)).item;
    CopyBackSplit(r.here.out, s.offset, item.len - s.length, s.length);
    DecodingFollows(c, input, r, s, total);
    OneMore(c, input, r);
  }

  lemma OneMore(c: Codes, input: seq<Byte>, r: Trace)
    requires Follows(c, input, r) && GoodCodes(c) && CanStep(c, input, r.here)
    ensures After(c, input, r.start, r.items + 1) == At(Step(c, input, r.here))
  {
    hide CanStep, GoodCodes, Step;
  }
}
