/** Two Inflaters of one stream: however their calls were cut, what they put out is the same as far
    as both have come, and they come to the same end. */
module InflateRuns {
  import opened Arith
  import opened BitReader
  import opened DeflateFormat
  import opened Lz77
  import opened InflateProgress
  import opened MatchCopy
  import opened InflateFast
  import opened InflateBlock
  import opened InflateStream
  import opened BlockRuns

  // ----- What the blocks decode to ------------------------------------------------------------------

  lemma {:induction false} CodedHas(c: Codes, input: seq<Byte>, pos: nat, h: seq<Byte>) returns (n: nat)
    requires AfterBlock(input, h, Coded(c, pos)).Bytes?
    ensures GoodCodes(c) && EndsAfter(c, input, Progress(pos, h), n) && After(c, input, Progress(pos, h), n).At?
    ensures AfterBlock(input, h, Coded(c, pos)) == Bytes(After(c, input, Progress(pos, h), n).p.out)
  {
    hide GoodCodes, EndsAfter, After;
    n :| GoodCodes(c) && EndsAfter(c, input, Progress(pos, h), n);
    CodedOut(c, input, pos, h, n);
  }

  lemma AfterGrows(input: seq<Byte>, h: seq<Byte>, b: Block)
    requires AfterBlock(input, h, b).Bytes?
    ensures h <= AfterBlock(input, h, b).s
  {
    hide *;
    match b {
      case Coded(c, pos) =>
        var n := CodedHas(c, input, pos, h);
        OutputGrows(c, input, Progress(pos, h), 0, n);
        AtStart(c, input, Progress(pos, h));
      case Stored(at, length) => StoredOn(input, h, at, length);
    }
  }

  lemma AtStart(c: Codes, input: seq<Byte>, start: Progress)
    requires GoodCodes(c)
    ensures After(c, input, start, 0) == At(start)
  {
    hide GoodCodes;
  }

  lemma StoredOn(input: seq<Byte>, h: seq<Byte>, at: nat, length: nat)
    requires AfterBlock(input, h, Stored(at, length)).Bytes?
    ensures at + length <= |input| && AfterBlock(input, h, Stored(at, length)).s == h + input[at..at + length]
  {
  }

  /** The first `k` blocks decode to a beginning of what more of them decode to. */
  lemma {:induction false} DecodedFront(input: seq<Byte>, bs: seq<Block>, k: nat, m: nat)
    requires k <= m <= |bs| && Decoded(input, bs[..m]).Bytes?
    ensures Decoded(input, bs[..k]).Bytes? && Decoded(input, bs[..k]).s <= Decoded(input, bs[..m]).s
    decreases m
  {
    hide *;
    if k < m {
      DecodedBack(input, bs, m - 1);
      AfterGrows(input, Decoded(input, bs[..m - 1]).s, bs[m - 1]);
      DecodedFront(input, bs, k, m - 1);
    }
  }

  lemma DecodedBack(input: seq<Byte>, bs: seq<Block>, k: nat)
    requires k < |bs| && Decoded(input, bs[..k + 1]).Bytes?
    ensures Decoded(input, bs[..k]).Bytes?
    ensures Decoded(input, bs[..k + 1]) == AfterBlock(input, Decoded(input, bs[..k]).s, bs[k])
  {
    hide AfterBlock;
    assert bs[..k + 1][..k] == bs[..k];
  }

  // ----- One Inflater ---------------------------------------------------------------------------------

  lemma PartStored(h: seq<Byte>, input: seq<Byte>, at: nat, n: nat, length: nat)
    requires n <= length && at + length <= |input|
    ensures h + input[at..at + n] <= h + input[at..at + length]
  {
  }

  lemma HereIsPrefix(c: Codes, input: seq<Byte>, r: Trace, s: State, total: seq<Byte>)
    requires Decoding(c, input, r, s, total)
    ensures r.here.out <= total
  {
    hide From, Follows, Holding, Low, GoodCodes, Spell, SpellDistance;
  }

  /** What the blocks before the one in hand put out comes first. */
  lemma BeginIsPrefix(i: Inflater)
    requires i.Valid()
    ensures i.begin <= i.produced && i.p.k <= |i.bs| && Decoded(i.input, i.bs[..i.p.k]) == Bytes(i.begin)
  {
    hide *;
    IsValid(i);
    PlaceIs(i.bs, i.p);
    RightMeans(i.bs, i.tables, i.input, i.p, i.r, i.begin, i.produced);
    if InCoded(i.bs, i.p) {
      CodedMeans(i.bs, i.tables, i.input, i.p, i.r, i.begin, i.produced);
      var c := i.bs[i.p.k].codes;
      ReadyMeans(i.tables[i.p.k], c, i.input, i.r, i.p.s, i.produced);
      DecodingFollows(c, i.input, i.r, i.p.s, i.produced);
      FollowsMeans(c, i.input, i.r);
      AtStart(c, i.input, i.r.start);
      OutputGrows(c, i.input, i.r.start, 0, i.r.items);
      HereIsPrefix(c, i.input, i.r, i.p.s, i.produced);
    } else if InStored(i.bs, i.p) {
      StoredMeans(i.bs, i.tables, i.input, i.p, i.r, i.begin, i.produced);
    }
  }

  /** If the block in hand decodes, what has been put out is a beginning of that. */
  lemma BeforeNext(i: Inflater)
    requires i.Valid() && i.p.k < |i.bs| && Decoded(i.input, i.bs[..i.p.k + 1]).Bytes? && !IsBad(i.bs, i.p)
    ensures i.produced <= Decoded(i.input, i.bs[..i.p.k + 1]).s
  {
    hide *;
    IsValid(i);
    PlaceIs(i.bs, i.p);
    RightMeans(i.bs, i.tables, i.input, i.p, i.r, i.begin, i.produced);
    var b := i.bs[i.p.k];
    DecodedBack(i.input, i.bs, i.p.k);
    if !i.p.begun {
      AfterGrows(i.input, i.begin, b);
    } else if b.Coded? {
      CodedMeans(i.bs, i.tables, i.input, i.p, i.r, i.begin, i.produced);
      ReadyMeans(i.tables[i.p.k], b.codes, i.input, i.r, i.p.s, i.produced);
      assert b == Coded(b.codes, b.pos);
      var n := CodedHas(b.codes, i.input, b.pos, i.begin);
      WithinBlock(b.codes, i.input, n, i.r, i.p.s, i.produced);
    } else {
      StoredMeans(i.bs, i.tables, i.input, i.p, i.r, i.begin, i.produced);
      assert b == Stored(b.at, b.length);
      StoredOn(i.input, i.begin, b.at, b.length);
      PartStored(i.begin, i.input, b.at, i.p.copied, b.length);
    }
  }

  /** At the end of the stream, or where the stream itself is bad. */
  ghost predicate Ended(i: Inflater)
    reads i
  {
    || IsDone(i.bs, i.p)
    || (IsBad(i.bs, i.p) && AtStop(i.bs[i.p.k].codes, i.input, i.r, i.p.s, i.produced))
  }

  lemma EndedMeans(i: Inflater)
    ensures Ended(i) <==>
            || IsDone(i.bs, i.p)
            || (IsBad(i.bs, i.p) && AtStop(i.bs[i.p.k].codes, i.input, i.r, i.p.s, i.produced))
  {
    hide AtStop, IsBad, IsDone;
  }

  /** An Inflater that is done, or has found the data bad, has come to such an end, if and only if
      it was not for a distance wider than its window but not than the output; with a window of 32K
      always. */
  lemma WhenEnded(i: Inflater)
    requires i.Valid() && (IsDone(i.bs, i.p) || IsBad(i.bs, i.p))
    ensures IsBad(i.bs, i.p) ==>
              && i.p.k < |i.bs| && i.bs[i.p.k].Coded? && GoodCodes(i.bs[i.p.k].codes)
              && var item := Spell(i.bs[i.p.k].codes, From(i.input, i.r.here.pos)).item;
                 Ended(i) <==> !(item.Match? && Pow2(i.w.wbits) < item.dist <= |i.produced|)
    ensures IsDone(i.bs, i.p) || i.w.wbits >= 15 ==> Ended(i)
  {
    hide *;
    IsValid(i);
    EndedMeans(i);
    PlaceIs(i.bs, i.p);
    DoneIs(i.bs, i.p);
    if IsBad(i.bs, i.p) {
      CodedMeans(i.bs, i.tables, i.input, i.p, i.r, i.begin, i.produced);
      var c := i.bs[i.p.k].codes;
      ReadyMeans(i.tables[i.p.k], c, i.input, i.r, i.p.s, i.produced);
      FairMeans(i.bs, i.input, i.p, i.r, i.produced, i.w.wbits);
      BadIsStop(c, i.input, i.r, i.p.s, i.produced, i.w.wbits);
    }
  }

  lemma FairMeans(bs: seq<Block>, input: seq<Byte>, p: Place, r: Trace, total: seq<Byte>, wbits: nat)
    requires FairlyBad(bs, input, p, r, total, wbits) && IsBad(bs, p)
    ensures p.k < |bs| && bs[p.k].Coded? && GoodCodes(bs[p.k].codes)
    ensures Spell(bs[p.k].codes, From(input, r.here.pos)).item.Match? ==>
              p.s.offset > |total| || p.s.offset > Pow2(wbits)
  {
    hide GoodCodes, Spell, From, Pow2;
  }

  /** A block that decodes has no such end in it. */
  lemma EndedLast(i: Inflater)
    requires i.Valid() && Ended(i) && i.p.k < |i.bs|
    ensures !Decoded(i.input, i.bs[..i.p.k + 1]).Bytes?
  {
    hide *;
    IsValid(i);
    EndedMeans(i);
    PlaceIs(i.bs, i.p);
    DoneIs(i.bs, i.p);
    CodedMeans(i.bs, i.tables, i.input, i.p, i.r, i.begin, i.produced);
    if Decoded(i.input, i.bs[..i.p.k + 1]).Bytes? {
      var b := i.bs[i.p.k];
      ReadyMeans(i.tables[i.p.k], b.codes, i.input, i.r, i.p.s, i.produced);
      DecodedBack(i.input, i.bs, i.p.k);
      assert b == Coded(b.codes, b.pos);
      var n := CodedHas(b.codes, i.input, b.pos, i.begin);
      NoStopBefore(b.codes, i.input, n, i.r, i.p.s, i.produced);
    }
  }

  lemma NoStopBefore(c: Codes, input: seq<Byte>, n: nat, r: Trace, s: State, total: seq<Byte>)
    requires GoodCodes(c) && EndsAfter(c, input, r.start, n) && Decoding(c, input, r, s, total)
    ensures s.mode == BAD ==> !AtStop(c, input, r, s, total)
  {
    hide *;
    PutSoFar(c, input, n, r, s, total);
    if AtStop(c, input, r, s, total) {
      StopIsStop(c, input, r, s, total);
      WhereItIs(c, input, n, r);
      StopsMeans(c, input, r.here);
    }
  }

  lemma StopsMeans(c: Codes, input: seq<Byte>, q: Progress)
    ensures Stops(c, input, q) ==> GoodCodes(c) && !CanStep(c, input, q)
  {
    hide GoodCodes, CanStep;
  }

  // ----- Two of them ----------------------------------------------------------------------------------

  ghost predicate Comparable(a: seq<Byte>, b: seq<Byte>) {
    a <= b || b <= a
  }

  /** Two decoders of the same block. */
  lemma TwoIn(c: Codes, input: seq<Byte>, r1: Trace, s1: State, total1: seq<Byte>,
              r2: Trace, s2: State, total2: seq<Byte>)
    requires Decoding(c, input, r1, s1, total1) && Decoding(c, input, r2, s2, total2) && r1.start == r2.start
    requires s1.mode != BAD && s2.mode != BAD && r1.items <= r2.items
    ensures Comparable(total1, total2)
  {
    hide *;
    MakeComparable(total1, total2);
    DecodingFollows(c, input, r1, s1, total1);
    DecodingFollows(c, input, r2, s2, total2);
    FollowsMeans(c, input, r1);
    FollowsMeans(c, input, r2);
    HereIsPrefix(c, input, r1, s1, total1);
    HereIsPrefix(c, input, r2, s2, total2);
    OutputGrows(c, input, r1.start, r1.items, r2.items);
    if total1 != r1.here.out {
      if r1.items < r2.items {
        PartOfMatch(c, input, r1, s1, total1);
        OutputGrows(c, input, r1.start, r1.items + 1, r2.items);
      } else if total2 != r2.here.out {
        TwoParts(c, input, r1.here, s1, total1, s2, total2, r1, r2);
      }
    }
  }

  lemma MakeComparable(a: seq<Byte>, b: seq<Byte>)
    ensures Comparable(a, b) <==> a <= b || b <= a
  {
  }

  /** Two parts of the same match. */
  lemma TwoParts(c: Codes, input: seq<Byte>, q: Progress, s1: State, total1: seq<Byte>, s2: State, total2: seq<Byte>,
                 r1: Trace, r2: Trace)
    requires Decoding(c, input, r1, s1, total1) && Decoding(c, input, r2, s2, total2) && r1.here == q == r2.here
    requires s1.mode != BAD && s2.mode != BAD && total1 != q.out && total2 != q.out
    ensures Comparable(total1, total2)
  {
    hide *;
    var n1 := PartSize(c, input, r1, s1, total1);
    var n2 := PartSize(c, input, r2, s2, total2);
    MakeComparable(total1, total2);
    if n1 <= n2 {
      CopyBackSplit(q.out, s1.offset, n1, n2 - n1);
    } else {
      CopyBackSplit(q.out, s1.offset, n2, n1 - n2);
    }
  }

  lemma PartSize(c: Codes, input: seq<Byte>, r: Trace, s: State, total: seq<Byte>) returns (n: nat)
    requires Decoding(c, input, r, s, total) && s.mode != BAD && total != r.here.out
    ensures GoodCodes(c) && Spell(c, From(input, r.here.pos)).item.Match?
    ensures s.offset == Spell(c, From(input, r.here.pos)).item.dist
    ensures 0 < s.offset <= |r.here.out| && total == CopyBack(r.here.out, s.offset, n)
  {
    hide From, Follows, Holding, Low, GoodCodes, Spell, SpellDistance, CopyBack;
    DecodingFollows(c, input, r, s, total);
    FollowsMeans(c, input, r);
    n := Spell(c, From(input, r.here.pos)).item.len - s.length;
  }

  ghost predicate SameStream(i: Inflater, j: Inflater)
    reads i, i.w, i.w.data, j, j.w, j.w.data
  {
    i.Valid() && j.Valid() && i.bs == j.bs && i.input == j.input
  }

  lemma StreamMeans(i: Inflater, j: Inflater)
    requires SameStream(i, j)
    ensures i.Valid() && j.Valid() && i.bs == j.bs && i.input == j.input
  {
    hide Right, TablesFor, FairlyBad, IsBad;
  }

  /** One is at an earlier block. */
  lemma Behind(i: Inflater, j: Inflater)
    requires SameStream(i, j) && i.p.k < j.p.k
    ensures !Ended(i) && (!IsBad(i.bs, i.p) ==> i.produced <= j.produced)
  {
    hide *;
    StreamMeans(i, j);
    BeginIsPrefix(j);
    DecodedFront(j.input, j.bs, i.p.k + 1, j.p.k);
    if Ended(i) {
      EndedLast(i);
    }
    if !IsBad(i.bs, i.p) {
      BeforeNext(i);
    }
  }

  /** Both are at the same block. */
  lemma Level(i: Inflater, j: Inflater)
    requires SameStream(i, j) && i.p.k == j.p.k
    ensures !IsBad(i.bs, i.p) && !IsBad(j.bs, j.p) ==> Comparable(i.produced, j.produced)
    ensures Ended(j) && !IsBad(i.bs, i.p) ==> i.produced <= j.produced
    ensures Ended(i) && Ended(j) ==> i.produced == j.produced && (IsBad(i.bs, i.p) <==> IsBad(j.bs, j.p))
  {
    hide *;
    StreamMeans(i, j);
    BeginIsPrefix(i);
    BeginIsPrefix(j);
    IsValid(i);
    IsValid(j);
    PlaceIs(i.bs, i.p);
    PlaceIs(j.bs, j.p);
    DoneIs(i.bs, i.p);
    DoneIs(j.bs, j.p);
    EndedMeans(i);
    EndedMeans(j);
    MakeComparable(i.produced, j.produced);
    RightMeans(i.bs, i.tables, i.input, i.p, i.r, i.begin, i.produced);
    RightMeans(j.bs, j.tables, j.input, j.p, j.r, j.begin, j.produced);
    if i.p.begun && j.p.begun {
      if InCoded(i.bs, i.p) {
        BothCoded(i, j);
      } else {
        BothStored(i, j);
      }
    }
  }

  lemma BothCoded(i: Inflater, j: Inflater)
    requires SameStream(i, j) && i.p.k == j.p.k && InCoded(i.bs, i.p) && InCoded(j.bs, j.p) && i.begin == j.begin
    ensures !IsBad(i.bs, i.p) && !IsBad(j.bs, j.p) ==> Comparable(i.produced, j.produced)
    ensures Ended(j) && !IsBad(i.bs, i.p) ==> i.produced <= j.produced
    ensures Ended(i) && Ended(j) ==> i.produced == j.produced
  {
    hide *;
    StreamMeans(i, j);
    IsValid(i);
    IsValid(j);
    PlaceIs(i.bs, i.p);
    PlaceIs(j.bs, j.p);
    DoneIs(i.bs, i.p);
    DoneIs(j.bs, j.p);
    EndedMeans(i);
    EndedMeans(j);
    CodedMeans(i.bs, i.tables, i.input, i.p, i.r, i.begin, i.produced);
    CodedMeans(j.bs, j.tables, j.input, j.p, j.r, j.begin, j.produced);
    var c := i.bs[i.p.k].codes;
    ReadyMeans(i.tables[i.p.k], c, i.input, i.r, i.p.s, i.produced);
    ReadyMeans(j.tables[j.p.k], c, j.input, j.r, j.p.s, j.produced);
    if Ended(i) && Ended(j) {
      SameOutcome(c, i.input, i.r, i.p.s, i.produced, j.r, j.p.s, j.produced);
    } else if Ended(j) {
      if !IsBad(i.bs, i.p) {
        OutputIsPrefix(c, i.input, i.r, i.p.s, i.produced, j.r, j.p.s, j.produced);
      }
    }
    if !IsBad(i.bs, i.p) && !IsBad(j.bs, j.p) {
      MakeComparable(i.produced, j.produced);
      MakeComparable(j.produced, i.produced);
      if i.r.items <= j.r.items {
        TwoIn(c, i.input, i.r, i.p.s, i.produced, j.r, j.p.s, j.produced);
      } else {
        TwoIn(c, i.input, j.r, j.p.s, j.produced, i.r, i.p.s, i.produced);
      }
    }
  }

  lemma BothStored(i: Inflater, j: Inflater)
    requires SameStream(i, j) && i.p.k == j.p.k && InStored(i.bs, i.p) && InStored(j.bs, j.p) && i.begin == j.begin
    ensures Comparable(i.produced, j.produced)
  {
    hide *;
    StreamMeans(i, j);
    IsValid(i);
    IsValid(j);
    StoredMeans(i.bs, i.tables, i.input, i.p, i.r, i.begin, i.produced);
    StoredMeans(j.bs, j.tables, j.input, j.p, j.r, j.begin, j.produced);
    PlaceIs(i.bs, i.p);
    MakeComparable(i.produced, j.produced);
    var at := i.bs[i.p.k].at;
    if i.p.copied <= j.p.copied {
      PartStored(i.begin, i.input, at, i.p.copied, j.p.copied);
    } else {
      PartStored(i.begin, i.input, at, j.p.copied, i.p.copied);
    }
  }

  /** However the calls of two Inflaters of one stream were cut, and wherever they have come: as
      long as neither finds the data bad, what the one has put out is the beginning of what the
      other has; an end that one has come to is not passed by the other; and if both have come to
      an end, it is the same one, with the same output and verdict. */
  lemma OneOutcome(i: Inflater, j: Inflater)
    requires SameStream(i, j)
    ensures !IsBad(i.bs, i.p) && !IsBad(j.bs, j.p) ==> Comparable(i.produced, j.produced)
    ensures Ended(j) && !IsBad(i.bs, i.p) ==> i.produced <= j.produced
    ensures Ended(i) && Ended(j) ==>
              i.p.k == j.p.k && i.produced == j.produced && (IsBad(i.bs, i.p) <==> IsBad(j.bs, j.p))
  {
    hide *;
    MakeComparable(i.produced, j.produced);
    if i.p.k < j.p.k {
      Behind(i, j);
    } else if j.p.k < i.p.k {
      SameBack(i, j);
      Behind(j, i);
    } else {
      Level(i, j);
    }
  }

  lemma SameBack(i: Inflater, j: Inflater)
    requires SameStream(i, j)
    ensures SameStream(j, i)
  {
    hide Right, TablesFor, FairlyBad, IsBad;
  }
}
