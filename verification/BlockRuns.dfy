/** Decoders of a block that comes to an end after `n` items: where they can be, and that they do
    not wait for what is not part of the block. */
module BlockRuns {
  import opened Arith
  import opened BitReader
  import opened DecodeTable
  import opened DeflateFormat
  import opened Lz77
  import opened InflateItems
  import opened SymbolDecode
  import opened InflateProgress
  import opened InflateFast
  import opened InflateBlock

  // ----- Where a decoder can be ---------------------------------------------------------------------

  lemma WhereItIs(c: Codes, input: seq<Byte>, n: nat, r: Trace)
    requires GoodCodes(c) && EndsAfter(c, input, r.start, n) && Follows(c, input, r)
    ensures r.items <= n && After(c, input, r.start, r.items) == At(r.here)
    ensures r.items < n ==> CanStep(c, input, r.here)
    ensures r.items == n ==> Spell(c, From(input, r.here.pos)).item == EndOfBlock
  {
    hide *;
    FollowsMeans(c, input, r);
    EndsMean(c, input, r.start, n);
    EndIsStop(c, input, After(c, input, r.start, n).p);
    if r.items > n {
      NothingAfterStop(c, input, r.start, n, r.items - n);
    } else if r.items < n && !CanStep(c, input, r.here) {
      StopIs(c, input, r.here);
      NothingAfterStop(c, input, r.start, r.items, n - r.items);
    }
  }

  lemma EndIsStop(c: Codes, input: seq<Byte>, q: Progress)
    requires GoodCodes(c)
    ensures Spell(c, From(input, q.pos)).item == EndOfBlock ==> Stops(c, input, q)
  {
    hide GoodCodes, Spell, From;
  }

  lemma StopIs(c: Codes, input: seq<Byte>, q: Progress)
    requires GoodCodes(c) && !CanStep(c, input, q)
    ensures Stops(c, input, q)
  {
    hide GoodCodes, CanStep;
  }

  /** An item that leads on is a literal or a match within the output; it puts something out. */
  lemma StepMeans(c: Codes, input: seq<Byte>, q: Progress)
    requires GoodCodes(c) && CanStep(c, input, q)
    ensures var item := Spell(c, From(input, q.pos)).item;
            && (item.Literal? ==> |Step(c, input, q).out| == |q.out| + 1)
            && (item.Match? ==> 0 < item.dist <= |q.out| && |Step(c, input, q).out| == |q.out| + item.len)
            && (item.Literal? || item.Match?)
    ensures Step(c, input, q).pos == q.pos + Spell(c, From(input, q.pos)).bits
  {
    hide GoodCodes, Spell, From, CopyBack;
  }

  /** What is put out in each state. */
  lemma PutSoFar(c: Codes, input: seq<Byte>, n: nat, r: Trace, s: State, total: seq<Byte>)
    requires GoodCodes(c) && EndsAfter(c, input, r.start, n) && Decoding(c, input, r, s, total)
    ensures r.items <= n && |r.here.out| <= |total|
    ensures s.mode == TYPE ==> r.items == n && total == r.here.out
    ensures s.mode in {LEN, LENEXT, DIST, DISTEXT} ==> total == r.here.out
    ensures s.mode in {LIT, MATCH} ==>
              r.items < n && CanStep(c, input, r.here) && |total| < |Step(c, input, r.here).out|
    ensures s.mode == LIT ==> total == r.here.out && Spell(c, From(input, r.here.pos)).item.Literal?
    ensures s.mode == MATCH ==>
              Spell(c, From(input, r.here.pos)).item.Match? && Spell(c, From(input, r.here.pos)).item.dist == s.offset
    ensures s.mode == BAD ==>
              var item := Spell(c, From(input, r.here.pos)).item;
              r.items < n && item.Match? && item.dist == s.offset && 0 < item.dist <= |r.here.out|
  {
    hide *;
    DecodingMeans(c, input, r, s, total);
    WhereItIs(c, input, n, r);
    OutAtMost(c, input, r, s, total);
    if r.items < n {
      StepMeans(c, input, r.here);
    }
    match s.mode {
      case LIT => LitIs(c, input, r.here, s, total);
      case MATCH =>
        MatchIs(c, input, r.here, s, total);
        PartLength(r.here.out, s.offset, Spell(c, From(input, r.here.pos)).item.len - s.length, total);
      case TYPE => TypeIs(c, input, r.here, s, total);
      case BAD => BadIs(c, input, r.here, s, total);
      case LEN => LenIs(c, input, r.here, s, total);
      case LENEXT => LenExtIs(c, input, r.here, s, total);
      case DIST => DistIs(c, input, r.here, s, total);
      case DISTEXT => DistExtIs(c, input, r.here, s, total);
    }
  }

  lemma PartLength(h: seq<Byte>, dist: nat, n: nat, total: seq<Byte>)
    ensures PartCopied(h, dist, n, total) ==> |total| == |h| + n
  {
  }

  /** It has put out a beginning of what the block puts out. */
  lemma WithinBlock(c: Codes, input: seq<Byte>, n: nat, r: Trace, s: State, total: seq<Byte>)
    requires GoodCodes(c) && EndsAfter(c, input, r.start, n) && After(c, input, r.start, n).At?
    requires Decoding(c, input, r, s, total) && s.mode != BAD
    ensures total <= After(c, input, r.start, n).p.out
  {
    hide *;
    DecodingFollows(c, input, r, s, total);
    WhereItIs(c, input, n, r);
    OutputGrows(c, input, r.start, r.items, n);
    if total != r.here.out {
      PartOfMatch(c, input, r, s, total);
      if r.items == n {
        EndIsStop(c, input, r.here);
      } else {
        OutputGrows(c, input, r.start, r.items + 1, n);
      }
    }
  }

  // ----- Positions ------------------------------------------------------------------------------------

  /** The bit position after the end-of-block code. */
  ghost function EndPos(c: Codes, input: seq<Byte>, start: Progress, n: nat): nat
    requires GoodCodes(c) && After(c, input, start, n).At?
  {
    var q := After(c, input, start, n).p;
    q.pos + Spell(c, From(input, q.pos)).bits
  }

  lemma {:induction false} BeforeEnd(c: Codes, input: seq<Byte>, start: Progress, k: nat, n: nat)
    requires GoodCodes(c) && k <= n && After(c, input, start, n).At?
    ensures After(c, input, start, k).At?
    ensures EndPos(c, input, start, k) <= EndPos(c, input, start, n)
  {
    hide *;
    if k < n {
      OneStep(c, input, start, n - 1);
      BeforeEnd(c, input, start, k, n - 1);
    }
  }

  lemma OneStep(c: Codes, input: seq<Byte>, start: Progress, k: nat)
    requires GoodCodes(c) && After(c, input, start, k + 1).At?
    ensures After(c, input, start, k).At? && CanStep(c, input, After(c, input, start, k).p)
    ensures After(c, input, start, k + 1).p == Step(c, input, After(c, input, start, k).p)
    ensures EndPos(c, input, start, k) <= EndPos(c, input, start, k + 1)
  {
    hide GoodCodes, Spell, From, CanStep, Step;
    StepMeans(c, input, After(c, input, start, k).p);
  }

  /** What a state needs to go on lies within the item in hand. */
  lemma NeedInItem(t: Tables, c: Codes, input: seq<Byte>, r: Trace, s: State, total: seq<Byte>)
    requires ForCodes(t, c) && GoodCodes(c) && Decoding(c, input, r, s, total)
    requires s.mode in {LEN, LENEXT, DIST, DISTEXT} && s.b.bits <= 8 * s.b.next
    requires !Spell(c, From(input, r.here.pos)).item.BadLength?
    requires !Spell(c, From(input, r.here.pos)).item.BadDistance?
    ensures Pos(s.b.next, s.b.bits) + Need(t, input, s) <= r.here.pos + Spell(c, From(input, r.here.pos)).bits
  {
    hide *;
    DecodingMeans(c, input, r, s, total);
    NeedIs(t, input, s);
    var q, pos := r.here, Pos(s.b.next, s.b.bits);
    if s.mode == LEN {
      LenIs(c, input, q, s, total);
      LitTable(t, c, input, s.b);
      LengthBits(t, c, From(input, pos));
    } else if s.mode == LENEXT {
      LenExtIs(c, input, q, s, total);
      DistanceBits(c, From(input, pos + s.extra), s.length + Low(From(input, pos), s.extra), pos - q.pos + s.extra);
    } else if s.mode == DIST {
      DistIs(c, input, q, s, total);
      DistTable(t, c, input, s.b);
      CodeBits(t, c, From(input, pos), s.length, pos - q.pos);
    } else {
      DistExtIs(c, input, q, s, total);
    }
  }

  lemma NeedIs(t: Tables, input: seq<Byte>, s: State)
    ensures s.mode == LEN ==> Need(t, input, s) == FirstBits(t, input, s.b)
    ensures s.mode == DIST ==> Need(t, input, s) == DistBits(t, input, s.b)
    ensures s.mode in {LENEXT, DISTEXT} ==> Need(t, input, s) == s.extra
  {
    hide FirstBits, DistBits;
  }

  lemma DistanceBits(c: Codes, x: nat, len: nat, bits: nat)
    requires GoodCodes(c)
    ensures SpellDistance(c, x, len, bits).bits >= bits
  {
    hide GoodCodes, DistRange, Low, High;
  }

  lemma LengthBits(t: Tables, c: Codes, x: nat)
    requires ForCodes(t, c) && GoodCodes(c) && !Spell(c, x).item.BadLength?
    ensures Lookup(t.lcode, t.lenbits, x).bits <= Spell(c, x).bits
  {
    hide *;
    ForMeans(t, c);
    MaySearch(t.lcode, t.lenbits, LENS, c.lit);
    LitEntry(t.lcode, t.lenbits, c, x);
    var e := Lookup(t.lcode, t.lenbits, x);
    if 16 <= e.op <= 21 {
      DistanceBits(c, High(High(x, e.bits), e.op - 16), LengthOf(e, x), e.bits + (e.op - 16));
    }
  }

  lemma CodeBits(t: Tables, c: Codes, x: nat, len: nat, bits: nat)
    requires ForCodes(t, c) && GoodCodes(c) && !SpellDistance(c, x, len, bits).item.BadDistance?
    ensures bits + Lookup(t.dcode, t.distbits, x).bits <= SpellDistance(c, x, len, bits).bits
  {
    hide *;
    ForMeans(t, c);
    MaySearch(t.dcode, t.distbits, DISTS, c.dist);
    DistEntry(t.dcode, t.distbits, c, x, len, bits);
  }

  /** When all the block is there, no state waits for input. */
  lemma NotWaiting(t: Tables, c: Codes, input: seq<Byte>, n: nat, r: Trace, s: State, total: seq<Byte>)
    requires ForCodes(t, c) && GoodCodes(c) && EndsAfter(c, input, r.start, n)
    requires After(c, input, r.start, n).At? && EndPos(c, input, r.start, n) <= 8 * |input|
    requires Decoding(c, input, r, s, total)
    requires s.mode in {LEN, LENEXT, DIST, DISTEXT} && s.b.bits < Need(t, input, s)
    ensures s.b.next != |input|
  {
    hide *;
    DecodingMeans(c, input, r, s, total);
    WhereItIs(c, input, n, r);
    if r.items < n {
      StepMeans(c, input, r.here);
    }
    NeedInItem(t, c, input, r, s, total);
    BeforeEnd(c, input, r.start, r.items, n);
    EndPosIs(c, input, r);
  }

  lemma EndPosIs(c: Codes, input: seq<Byte>, r: Trace)
    requires GoodCodes(c) && After(c, input, r.start, r.items) == At(r.here)
    ensures EndPos(c, input, r.start, r.items) == r.here.pos + Spell(c, From(input, r.here.pos)).bits
  {
    hide GoodCodes, After, Spell, From;
  }
}
