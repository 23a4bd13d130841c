/** How many bits inflate may hold when it is called again inside a block: as many as have arrived
    of the next code, which may be 8 and more. */
module HeldBits {
  import opened Arith
  import opened BitReader
  import opened DeflateFormat
  import opened Lz77
  import opened Encoding
  import opened InflateProgress
  import opened InflateFast
  import opened InflateBlock
  import opened InflateStream
  import opened BlockRuns
  import opened RoundTrip
  import opened Verdicts

  /** An item ends where a later one begins, or before. */
  lemma {:induction false} EndBefore(c: Codes, input: seq<Byte>, start: Progress, j: nat, k: nat)
    requires GoodCodes(c) && j < k && After(c, input, start, k).At?
    ensures After(c, input, start, j).At?
    ensures EndPos(c, input, start, j) <= After(c, input, start, k).p.pos
  {
    hide *;
    OneStep(c, input, start, k - 1);
    StepMeans(c, input, After(c, input, start, k - 1).p);
    if j < k - 1 {
      EndBefore(c, input, start, j, k - 1);
    } else {
      EndHere(c, input, start, j);
    }
  }

  lemma EndHere(c: Codes, input: seq<Byte>, start: Progress, k: nat)
    requires GoodCodes(c) && After(c, input, start, k).At?
    ensures EndPos(c, input, start, k)
         == After(c, input, start, k).p.pos + Spell(c, From(input, After(c, input, start, k).p.pos)).bits
  {
    hide GoodCodes, After, Spell, From;
  }

  /** `have` bytes hold all of the first `k` items of the block, and a part of item `k`, a literal. */
  ghost predicate CutInside(c: Codes, input: seq<Byte>, n: nat, k: nat, have: nat) {
    && WholeBlock(c, input, n) && k < n && have <= |input| && After(c, input, START, k).At?
    && After(c, input, START, k).p.pos <= 8 * have < EndPos(c, input, START, k)
    && ItemOf(c, input, k).Literal?
  }

  lemma CutMeans(c: Codes, input: seq<Byte>, n: nat, k: nat, have: nat)
    requires CutInside(c, input, n, k, have)
    ensures WholeBlock(c, input, n) && k < n && have <= |input| && GoodCodes(c) && After(c, input, START, k).At?
    ensures After(c, input, START, k).p.pos <= 8 * have < EndPos(c, input, START, k)
    ensures ItemOf(c, input, k).Literal?
  {
    hide GoodCodes, After, EndPos, ItemOf, EndsAfter;
  }

  /** The first call with so much of the input: it stops in front of item `k`, in the LEN state,
      with the bits of its code that have arrived. */
  method Cut(t: Tables, c: Codes, input: seq<Byte>, ghost n: nat, ghost k: nat, have: nat, room: nat, wbits: nat)
    returns (i: Inflater)
    requires ForCodes(t, c) && CutInside(c, input, n, k, have) && room >= |Out(c, input, k)|
    ensures fresh(i) && fresh(i.w) && fresh(i.w.data) && Handles(i, c, n) && i.input == input
    ensures InCoded(i.bs, i.p) && i.p.s.mode == LEN && i.r.items == k && i.produced == Out(c, input, k)
    ensures i.p.s.b.next == have && i.p.s.b.bits == 8 * have - After(c, input, START, k).p.pos
  {
    hide *;
    CutMeans(c, input, n, k, have);
    BlockMeans(c, input, n);
    i := Start(t, c, input, n, wbits);
    PlaceIs(i.bs, i.p);
    HandlesMeans(i, c, n);
    var out := new Byte[room];
    var put := i.Inflate(input[..have], out);
    PlaceIs(i.bs, i.p);
    MakeHandles(i, c, n);
    assert [] + out[..put] == out[..put];
    AfterCut(i, c, n, k, have, out.Length - put);
  }

  lemma AfterCut(i: Inflater, c: Codes, n: nat, k: nat, have: nat, room: nat)
    requires Handles(i, c, n) && CutInside(c, i.input, n, k, have) && |i.tables| == |i.bs|
    requires Waiting(i.bs, i.tables, i.input, i.p, have, room) && Taken(i.bs, i.p) <= have
    requires InCoded(i.bs, i.p) ==> Judged(c, i.input, 0, i.r, i.p.s, 0, 0)
    requires i.p.k <= |i.bs| && AllPassed(i.bs, i.input, 0, 0, i.p.k, 0, 0, have)
    requires room == 0 ==> |i.produced| >= |Out(c, i.input, k)|
    ensures InCoded(i.bs, i.p) && i.p.s.mode == LEN && i.r.items == k && i.produced == Out(c, i.input, k)
    ensures i.p.s.b.next == have && i.p.s.b.bits == 8 * have - After(c, i.input, START, k).p.pos
  {
    hide *;
    CutMeans(c, i.input, n, k, have);
    HandlesMeans(i, c, n);
    BlockMeans(c, i.input, n);
    Inside(i, c, n);
    NotBadAtFirst(i, c, n);
    PlaceIs(i.bs, i.p);
    DoneIs(i.bs, i.p);
    StopMeans(i.bs, i.tables, i.input, i.p, have, room);
    if i.p.k == 1 {
      NotPassed(c, i.input, n, k, have);
    } else {
      PutInside(i, c, n);
      NotBeyond(i, c, n, k, have);
      if i.r.items < k {
        OutMono(c, i.input, n, i.r.items + 1, k);
        if i.p.s.mode in {LEN, LENEXT, DIST, DISTEXT} {
          NotBefore(i, c, n, k, have);
        }
      } else {
        AtCut(i, c, n, k, have);
      }
    }
  }

  /** The end of the block has not arrived. */
  lemma NotPassed(c: Codes, input: seq<Byte>, n: nat, k: nat, have: nat)
    requires CutInside(c, input, n, k, have)
    ensures !AllPassed([Coded(c, 0)], input, 0, 0, 1, 0, 0, have)
  {
    hide *;
    CutMeans(c, input, n, k, have);
    BlockMeans(c, input, n);
    BeforeEnd(c, input, START, k, n);
    if AllPassed([Coded(c, 0)], input, 0, 0, 1, 0, 0, have) {
      PassedEnd(c, input, n, have);
    }
  }

  lemma PassedEnd(c: Codes, input: seq<Byte>, n: nat, have: nat)
    requires GoodCodes(c) && EndsAfter(c, input, START, n) && After(c, input, START, n).At?
    requires AllPassed([Coded(c, 0)], input, 0, 0, 1, 0, 0, have)
    ensures EndPos(c, input, START, n) <= 8 * have
  {
    hide GoodCodes, EndsAfter, Reached, AfterBlock, EndPos, After;
    var bs := [Coded(c, 0)];
    assert bs[0].Coded? && bs[..0] == [];
    assert Passed(c, input, START, 0, 0, 0, have);
    var m: nat :| EndsAfter(c, input, START, m) && After(c, input, START, m).At?
                  && EndPos(c, input, START, m) <= 8 * have;
    EndsOnce(c, input, START, n, m);
  }

  /** Nor has the end of item `k`. */
  lemma NotBeyond(i: Inflater, c: Codes, n: nat, k: nat, have: nat)
    requires Handles(i, c, n) && CutInside(c, i.input, n, k, have) && InCoded(i.bs, i.p)
    requires Taken(i.bs, i.p) <= have
    ensures i.r.items <= k
  {
    hide *;
    CutMeans(c, i.input, n, k, have);
    HandlesMeans(i, c, n);
    Inside(i, c, n);
    PlaceIs(i.bs, i.p);
    DecodingMeans(c, i.input, i.r, i.p.s, i.produced);
    if i.r.items > k {
      EndBefore(c, i.input, START, k, i.r.items);
    }
  }

  /** What belongs to an item in front of it has. */
  lemma NotBefore(i: Inflater, c: Codes, n: nat, k: nat, have: nat)
    requires Handles(i, c, n) && CutInside(c, i.input, n, k, have) && InCoded(i.bs, i.p)
    requires i.r.items < k && i.p.s.mode in {LEN, LENEXT, DIST, DISTEXT} && i.p.s.b.next == have
    ensures |i.tables| == |i.bs| && i.p.s.b.bits >= Need(i.tables[i.p.k], i.input, i.p.s)
  {
    hide *;
    CutMeans(c, i.input, n, k, have);
    HandlesMeans(i, c, n);
    Inside(i, c, n);
    PlaceIs(i.bs, i.p);
    DecodingMeans(c, i.input, i.r, i.p.s, i.produced);
    OutGrows(c, i.input, n, i.r.items);
    StepMeans(c, i.input, i.r.here);
    NeedInItem(i.tables[0], c, i.input, i.r, i.p.s, i.produced);
    EndPosIs(c, i.input, i.r);
    EndBefore(c, i.input, START, i.r.items, k);
  }

  /** At item `k`: none of it was read. */
  lemma AtCut(i: Inflater, c: Codes, n: nat, k: nat, have: nat)
    requires Handles(i, c, n) && CutInside(c, i.input, n, k, have) && InCoded(i.bs, i.p)
    requires i.r.items == k && Taken(i.bs, i.p) <= have && !IsBad(i.bs, i.p)
    requires i.p.s.mode == LEN ==> i.p.s.b.next == have
    ensures i.p.s.mode == LEN && i.produced == Out(c, i.input, k)
    ensures i.p.s.b.bits == 8 * have - After(c, i.input, START, k).p.pos
  {
    hide *;
    CutMeans(c, i.input, n, k, have);
    HandlesMeans(i, c, n);
    Inside(i, c, n);
    PlaceIs(i.bs, i.p);
    EndPosIs(c, i.input, i.r);
    DecodingMeans(c, i.input, i.r, i.p.s, i.produced);
    var q, s, total := i.r.here, i.p.s, i.produced;
    match s.mode {
      case LEN => LenIs(c, i.input, q, s, total);
      case LIT => LitIs(c, i.input, q, s, total);
      case LENEXT =>
        LenExtIs(c, i.input, q, s, total);
        NoLiteral(c, From(i.input, Pos(s.b.next, s.b.bits) + s.extra),
                  s.length + Low(From(i.input, Pos(s.b.next, s.b.bits)), s.extra),
                  Pos(s.b.next, s.b.bits) - q.pos + s.extra);
      case DIST =>
        DistIs(c, i.input, q, s, total);
        NoLiteral(c, From(i.input, Pos(s.b.next, s.b.bits)), s.length, Pos(s.b.next, s.b.bits) - q.pos);
      case DISTEXT => DistExtIs(c, i.input, q, s, total);
      case MATCH => MatchIs(c, i.input, q, s, total);
      case _ =>
    }
  }

  lemma NoLiteral(c: Codes, x: nat, len: nat, bits: nat)
    requires GoodCodes(c)
    ensures !SpellDistance(c, x, len, bits).item.Literal?
  {
    hide GoodCodes, DistRange, Low, High;
  }

  /** With the fixed codes: a literal of 9 bits, of which 8 have arrived, and so much after it
      that the fast loop is entered at once when the call is repeated with all the input. */
  lemma NineBits() returns (input: seq<Byte>)
    ensures CutInside(FixedCodes(), input, 1, 0, 1) && |input| >= 1 + 6
    ensures GoodCodes(FixedCodes()) && After(FixedCodes(), input, START, 0) == At(START) && START.pos == 0
  {
    hide *;
    var c := FixedCodes();
    FixedFull();
    FullMeans(c);
    OneLiteral();
    input := BlockExists(c, [Literal(144)], [144], 7);
    NoItems();
    assert [] + [Literal(144)] == [Literal(144)];
    StartIs();
    Reaches(c, input, 0, [], [Literal(144)], [], 0);
    OutIs(c, input, 0);
    AtFirst(c, input);
    assert ([Literal(144)] + [EndOfBlock])[0] == Literal(144);
    LongLiteral(c, From(input, 0));
    EndHere(c, input, START, 0);
    MakeCut(c, input, 1, 0, 1);
  }

  lemma OneLiteral()
    ensures Expand([Literal(144)]) == Bytes([144]) && Encodable([Literal(144)], 32768)
  {
    assert [Literal(144)][..0] == [];
    assert Expand([]) == Bytes([]);
  }

  lemma AtFirst(c: Codes, input: seq<Byte>)
    requires GoodCodes(c)
    ensures After(c, input, START, 0) == At(START) && PosAfter(c, input, 0, 0) == 0
  {
    hide GoodCodes;
  }

  lemma LongLiteral(c: Codes, x: nat)
    requires c == FixedCodes() && GoodCodes(c) && Spell(c, x).item == Literal(144)
    ensures Spell(c, x).bits == 9
  {
    hide GoodCodes, SymbolAt, LengthRange, Low, High, DistRange;
    LiteralAt(c, x);
  }

  lemma LiteralAt(c: Codes, x: nat)
    requires GoodCodes(c) && Spell(c, x).item.Literal?
    ensures SymbolAt(c.lit, x) == Symbol(Spell(c, x).item.b) && Spell(c, x).item.b < |c.lit|
    ensures Spell(c, x).bits == c.lit[Spell(c, x).item.b]
  {
    hide GoodCodes, LengthRange, Low, High, DistRange;
  }

  lemma MakeCut(c: Codes, input: seq<Byte>, n: nat, k: nat, have: nat)
    requires WholeBlock(c, input, n) && k < n && have <= |input| && GoodCodes(c) && After(c, input, START, k).At?
    requires After(c, input, START, k).p.pos <= 8 * have < EndPos(c, input, START, k)
    requires ItemOf(c, input, k).Literal?
    ensures CutInside(c, input, n, k, have)
  {
    hide WholeBlock, GoodCodes, After, EndPos, ItemOf;
  }
}
