/** Where inflate stands inside a block: what its state says about the items of the stream
    decoded so far and about the one in hand. */
module InflateProgress {
  import opened Arith
  import opened BitReader
  import opened DeflateFormat
  import opened InflateWindow
  import opened MatchCopy

  datatype Mode = LEN | LENEXT | DIST | DISTEXT | MATCH | LIT | TYPE | BAD

  /** The fields of inflate_state that last from call to call. */
  datatype State = State(mode: Mode, b: Bits, length: nat, offset: nat, extra: nat)

  /** `items` whole items lead from `start` to `here`. */
  datatype Trace = Trace(start: Progress, items: nat, here: Progress)

  ghost predicate Follows(c: Codes, input: seq<Byte>, r: Trace) {
    GoodCodes(c) && After(c, input, r.start, r.items) == At(r.here)
  }

  lemma Onward(c: Codes, input: seq<Byte>, r: Trace, pos: nat, h: seq<Byte>)
    requires Follows(c, input, r)
    requires var sp := Spell(c, From(input, r.here.pos));
             pos == r.here.pos + sp.bits && Emits(sp.item, r.here.out, h)
    ensures Follows(c, input, Trace(r.start, r.items + 1, Progress(pos, h)))
  {
    hide GoodCodes, Spell, From, CopyBack;
  }

  /** `total` is `h` and the first `n` bytes of a match. */
  ghost predicate PartCopied(h: seq<Byte>, dist: nat, n: nat, total: seq<Byte>) {
    if n == 0 then total == h else 0 < dist <= |h| && total == CopyBack(h, dist, n)
  }

  /** The item after `q` as far as state `s` knows it, `total` being all output so far. */
  ghost predicate InHand(c: Codes, input: seq<Byte>, q: Progress, s: State, total: seq<Byte>)
    requires GoodCodes(c) && s.b.bits <= 8 * s.b.next && q.pos <= Pos(s.b.next, s.b.bits)
  {
    var pos := Pos(s.b.next, s.b.bits);
    var sp := Spell(c, From(input, q.pos));
    var used := pos - q.pos;
    match s.mode
    case LEN => q == Progress(pos, total)
    case LIT => q.out == total && s.length < 256 && sp == Spelled(Literal(s.length), used)
    case LENEXT =>
      && q.out == total && s.extra <= 5 && 3 <= s.length + Low(From(input, pos), s.extra)
      && sp == SpellDistance(c, From(input, pos + s.extra), s.length + Low(From(input, pos), s.extra), used + s.extra)
    case DIST => q.out == total && 3 <= s.length && sp == SpellDistance(c, From(input, pos), s.length, used)
    case DISTEXT =>
      && q.out == total && s.extra <= 13 && 3 <= s.length && 0 < s.offset + Low(From(input, pos), s.extra)
      && sp == Spelled(Match(s.length, s.offset + Low(From(input, pos), s.extra)), used + s.extra)
    case MATCH =>
      && sp.item.Match? && sp.item.dist == s.offset > 0 && sp.bits == used && 0 < s.length <= sp.item.len
      && PartCopied(q.out, s.offset, sp.item.len - s.length, total)
    case TYPE => q.out == total && sp == Spelled(EndOfBlock, used)
    case BAD =>
      if sp.item.Match? then
        && sp.item.dist == s.offset > 0 && s.length <= sp.item.len
        && PartCopied(q.out, s.offset, sp.item.len - s.length, total)
      else q.out == total && (sp.item.BadLength? || sp.item.BadDistance?)
  }

  /** The state is right about the stream: what whole items made of it, and the one in hand. */
  ghost predicate Decoding(c: Codes, input: seq<Byte>, r: Trace, s: State, total: seq<Byte>) {
    && Follows(c, input, r)
    && Holding(input, s.b.next, s.b.hold, s.b.bits) && s.b.bits <= 32
    && s.b.bits <= 8 * s.b.next && r.here.pos <= Pos(s.b.next, s.b.bits)
    && InHand(c, input, r.here, s, total)
  }

  // ----- The parts of the state, one at a time ----------------------------------------------------

  lemma DecodingMeans(c: Codes, input: seq<Byte>, r: Trace, s: State, total: seq<Byte>)
    requires Decoding(c, input, r, s, total)
    ensures Follows(c, input, r) && GoodCodes(c) && Holding(input, s.b.next, s.b.hold, s.b.bits) && s.b.bits <= 32
    ensures s.b.bits <= 8 * s.b.next && r.here.pos <= Pos(s.b.next, s.b.bits)
    ensures Pos(s.b.next, s.b.bits) == 8 * s.b.next - s.b.bits && InHand(c, input, r.here, s, total)
  {
    hide InHand, Holding, After, GoodCodes;
  }

  lemma MakeDecoding(c: Codes, input: seq<Byte>, r: Trace, s: State, total: seq<Byte>)
    requires Follows(c, input, r) && GoodCodes(c) && Holding(input, s.b.next, s.b.hold, s.b.bits) && s.b.bits <= 32
    requires s.b.bits <= 8 * s.b.next && r.here.pos <= Pos(s.b.next, s.b.bits)
    requires InHand(c, input, r.here, s, total)
    ensures Decoding(c, input, r, s, total)
  {
    hide InHand, Holding, After, GoodCodes;
  }

  lemma LenIs(c: Codes, input: seq<Byte>, q: Progress, s: State, total: seq<Byte>)
    requires GoodCodes(c) && s.b.bits <= 8 * s.b.next && q.pos <= Pos(s.b.next, s.b.bits) && s.mode == LEN
    ensures InHand(c, input, q, s, total) <==> q == Progress(Pos(s.b.next, s.b.bits), total)
  {
    hide GoodCodes, Spell, From, Pos;
  }

  lemma LenExtIs(c: Codes, input: seq<Byte>, q: Progress, s: State, total: seq<Byte>)
    requires GoodCodes(c) && s.b.bits <= 8 * s.b.next && q.pos <= Pos(s.b.next, s.b.bits) && s.mode == LENEXT
    ensures var pos := Pos(s.b.next, s.b.bits);
            var len := s.length + Low(From(input, pos), s.extra);
            InHand(c, input, q, s, total) <==>
            && q.out == total && s.extra <= 5 && 3 <= len
            && Spell(c, From(input, q.pos)) == SpellDistance(c, From(input, pos + s.extra), len, pos - q.pos + s.extra)
  {
    hide GoodCodes, Spell, SpellDistance, From, Low, Pos;
  }

  lemma DistIs(c: Codes, input: seq<Byte>, q: Progress, s: State, total: seq<Byte>)
    requires GoodCodes(c) && s.b.bits <= 8 * s.b.next && q.pos <= Pos(s.b.next, s.b.bits) && s.mode == DIST
    ensures var pos := Pos(s.b.next, s.b.bits);
            InHand(c, input, q, s, total) <==>
            && q.out == total && 3 <= s.length
            && Spell(c, From(input, q.pos)) == SpellDistance(c, From(input, pos), s.length, pos - q.pos)
  {
    hide GoodCodes, Spell, SpellDistance, From, Pos;
  }

  lemma DistExtIs(c: Codes, input: seq<Byte>, q: Progress, s: State, total: seq<Byte>)
    requires GoodCodes(c) && s.b.bits <= 8 * s.b.next && q.pos <= Pos(s.b.next, s.b.bits) && s.mode == DISTEXT
    ensures var pos := Pos(s.b.next, s.b.bits);
            var dist := s.offset + Low(From(input, pos), s.extra);
            InHand(c, input, q, s, total) <==>
            && q.out == total && s.extra <= 13 && 3 <= s.length && 0 < dist
            && Spell(c, From(input, q.pos)) == Spelled(Match(s.length, dist), pos - q.pos + s.extra)
  {
    hide GoodCodes, Spell, From, Low, Pos;
  }

  lemma MatchIs(c: Codes, input: seq<Byte>, q: Progress, s: State, total: seq<Byte>)
    requires GoodCodes(c) && s.b.bits <= 8 * s.b.next && q.pos <= Pos(s.b.next, s.b.bits) && s.mode == MATCH
    ensures var sp := Spell(c, From(input, q.pos));
            InHand(c, input, q, s, total) <==>
            && sp.item.Match? && sp.item.dist == s.offset > 0 && sp.bits == Pos(s.b.next, s.b.bits) - q.pos
            && 0 < s.length <= sp.item.len && PartCopied(q.out, s.offset, sp.item.len - s.length, total)
  {
    hide GoodCodes, Spell, From, Pos, PartCopied;
  }

  lemma LitIs(c: Codes, input: seq<Byte>, q: Progress, s: State, total: seq<Byte>)
    requires GoodCodes(c) && s.b.bits <= 8 * s.b.next && q.pos <= Pos(s.b.next, s.b.bits) && s.mode == LIT
    ensures InHand(c, input, q, s, total) <==>
            && q.out == total && s.length < 256
            && Spell(c, From(input, q.pos)) == Spelled(Literal(s.length), Pos(s.b.next, s.b.bits) - q.pos)
  {
    hide GoodCodes, Spell, From, Pos;
  }

  lemma TypeIs(c: Codes, input: seq<Byte>, q: Progress, s: State, total: seq<Byte>)
    requires GoodCodes(c) && s.b.bits <= 8 * s.b.next && q.pos <= Pos(s.b.next, s.b.bits) && s.mode == TYPE
    ensures InHand(c, input, q, s, total) <==>
            q.out == total && Spell(c, From(input, q.pos)) == Spelled(EndOfBlock, Pos(s.b.next, s.b.bits) - q.pos)
  {
    hide GoodCodes, Spell, From, Pos;
  }

  lemma BadIs(c: Codes, input: seq<Byte>, q: Progress, s: State, total: seq<Byte>)
    requires GoodCodes(c) && s.b.bits <= 8 * s.b.next && q.pos <= Pos(s.b.next, s.b.bits) && s.mode == BAD
    ensures var item := Spell(c, From(input, q.pos)).item;
            InHand(c, input, q, s, total) <==>
            if item.Match? then
              && item.dist == s.offset > 0 && s.length <= item.len
              && PartCopied(q.out, s.offset, item.len - s.length, total)
            else q.out == total && (item.BadLength? || item.BadDistance?)
  {
    hide GoodCodes, Spell, From, Pos, PartCopied;
  }

  // ----- What is remembered ------------------------------------------------------------------------

  lemma BeforeLast(all: seq<Byte>, n: nat) returns (p: seq<Byte>)
    ensures all == p + Last(all, n)
  {
    p := all[..|all| - |Last(all, n)|];
  }

  /** A match copied from what is remembered is the match in all output there ever was. */
  lemma Remembered(all: seq<Byte>, wsize: nat, o: seq<Byte>, dist: nat, n: nat, g: seq<Byte>)
    requires Extends(Last(all, wsize), o, dist, n, g)
    ensures Extends(all, o, dist, n, g)
  {
    hide CopyBack, Last;
    var h := Last(all, wsize);
    var p := BeforeLast(all, wsize);
    CopyBackSuffix(p, h + o, dist, n);
    assert p + (h + o) == all + o;
    assert p + (h + g) == all + g;
  }

  // ----- How far back matches may reach ------------------------------------------------------------

  /** How far back a match that begins after `size` bytes of output may reach in a call that
      began after `base` bytes, `whave` of which were remembered. */
  function Known(size: nat, base: nat, whave: nat): nat {
    whave + if size > base then size - base else 0
  }

  /** Item `k` reaches no further back. */
  ghost predicate Within(c: Codes, input: seq<Byte>, start: Progress, k: nat, base: nat, whave: nat)
    requires GoodCodes(c)
  {
    match After(c, input, start, k)
    case Stuck => true
    case At(q) =>
      var item := Spell(c, From(input, q.pos)).item;
      item.Match? ==> item.dist <= Known(|q.out|, base, whave)
  }

  /** The items from `from` on, and before `to`, do not. */
  ghost predicate Reached(c: Codes, input: seq<Byte>, start: Progress, from: nat, to: nat, base: nat, whave: nat)
    requires GoodCodes(c)
  {
    forall k: nat :: from <= k < to ==> Within(c, input, start, k, base, whave)
  }

  lemma WithinHere(c: Codes, input: seq<Byte>, r: Trace, base: nat, whave: nat)
    requires Follows(c, input, r)
    ensures GoodCodes(c)
    ensures var item := Spell(c, From(input, r.here.pos)).item;
            Within(c, input, r.start, r.items, base, whave) <==>
            (item.Match? ==> item.dist <= Known(|r.here.out|, base, whave))
  {
    hide GoodCodes, After, Spell, From, Known;
  }

  lemma ReachedNone(c: Codes, input: seq<Byte>, start: Progress, n: nat, base: nat, whave: nat)
    requires GoodCodes(c)
    ensures Reached(c, input, start, n, n, base, whave)
  {
  }

  lemma ReachedOn(c: Codes, input: seq<Byte>, start: Progress, from: nat, n: nat, to: nat, base: nat, whave: nat)
    requires GoodCodes(c) && from <= n <= to
    requires Reached(c, input, start, from, n, base, whave)
    requires Reached(c, input, start, n, to, base, whave)
    ensures Reached(c, input, start, from, to, base, whave)
  {
    hide GoodCodes, Within;
  }

  lemma ReachedOne(c: Codes, input: seq<Byte>, start: Progress, from: nat, n: nat, base: nat, whave: nat)
    requires GoodCodes(c) && from <= n
    requires Reached(c, input, start, from, n, base, whave) && Within(c, input, start, n, base, whave)
    ensures Reached(c, input, start, from, n + 1, base, whave)
  {
    hide GoodCodes, Within;
  }

  // ----- The stop is where the stream says ------------------------------------------------------

  /** Two runs from the same start that both come to a stop come to the same one, however
      their input and output were split over calls and whichever loop decoded what. */
  lemma SameStop(c: Codes, input: seq<Byte>, r1: Trace, r2: Trace)
    requires Follows(c, input, r1) && Follows(c, input, r2) && r1.start == r2.start
    requires Stops(c, input, r1.here) && Stops(c, input, r2.here)
    ensures r1 == r2
  {
    hide GoodCodes, CanStep, After, Stops;
    if r1.items < r2.items {
      NothingAfterStop(c, input, r1.start, r1.items, r2.items - r1.items);
    } else if r2.items < r1.items {
      NothingAfterStop(c, input, r1.start, r2.items, r1.items - r2.items);
    }
  }
}
