/** The string matching of deflate: the sliding window, its hash chains, and the two ways of
    choosing matches.  Positions in the window are relative to `base`, the number of input
    bytes that have slid out of it. */
module Deflate {
  import opened Arith
  import opened BitReader
  import opened DeflateFormat
  import opened HashKey
  import opened HashChain
  import opened MatchSearch
  import opened Choices
  import opened Lz77

  const WIN_INIT: nat := MAX_MATCH
  const TWO_TO_THE_32: nat := 0x1_0000_0000

  datatype Flush = NoFlush | PartialFlush | SyncFlush | FullFlush | BlockFlush | Finish

  datatype Strategy = Default | Filtered | HuffmanOnly | Rle | Fixed

  datatype BlockState = NeedMore | BlockDone | FinishStarted | FinishDone

  /** A line of the configuration table: good_length, max_lazy, nice_length, max_chain, and
      whether deflate_slow does the work. */
  datatype Configuration = Configuration(good: nat, lazy: nat, nice: nat, chain: nat, slow: bool)

  function ConfigurationOf(level: nat): Configuration
    requires 1 <= level <= 9
  {
    if level == 1 then Configuration(4, 4, 8, 4, false)
    else if level == 2 then Configuration(4, 5, 16, 8, false)
    else if level == 3 then Configuration(4, 6, 32, 32, false)
    else if level == 4 then Configuration(4, 4, 16, 16, true)
    else if level == 5 then Configuration(8, 16, 32, 32, true)
    else if level == 6 then Configuration(8, 16, 128, 128, true)
    else if level == 7 then Configuration(8, 32, 128, 256, true)
    else if level == 8 then Configuration(32, 128, 258, 1024, true)
    else Configuration(32, 258, 258, 4096, true)
  }

  /** The table column by column. */
  lemma LevelsAre(level: nat)
    requires 1 <= level <= 9
    ensures var c := ConfigurationOf(level);
            && (c.slow <==> level >= 4)
            && c.good == [4, 4, 4, 4, 8, 8, 8, 32, 32][level - 1]
            && c.lazy == [4, 5, 6, 4, 16, 16, 32, 128, 258][level - 1]
            && c.nice == [8, 16, 32, 16, 32, 128, 128, 258, 258][level - 1]
            && c.chain == [4, 8, 32, 16, 32, 128, 256, 1024, 4096][level - 1]
  {
  }

  /** Unsigned 32-bit subtraction. */
  function Minus(a: nat, b: nat): (r: nat)
    requires a < TWO_TO_THE_32 && b < TWO_TO_THE_32
    ensures r < TWO_TO_THE_32
  {
    if b <= a then a - b else a + TWO_TO_THE_32 - b
  }

  /** The window holds the last `end` bytes of the input. */
  ghost predicate Loaded(win: seq<Byte>, input: seq<Byte>, base: nat, end: nat) {
    && end <= |win| && |input| == base + end
    && forall i: nat :: i < end ==> win[i] == input[base + i]
  }

  /** An entry of the token buffers; distance 0 marks a literal. */
  function TokenAt(d: nat, l: Byte): Item {
    if d == 0 then Literal(l) else Match(l + MIN_MATCH, d)
  }

  function Tokens(d: seq<nat>, l: seq<Byte>): seq<Item>
    requires |d| == |l|
  {
    seq(|d|, i requires 0 <= i < |d| => TokenAt(d[i], l[i]))
  }

  lemma OneToken(d: seq<nat>, l: seq<Byte>, n: nat)
    requires n < |d| && n < |l|
    ensures Tokens(d[..n + 1], l[..n + 1]) == Tokens(d[..n], l[..n]) + [TokenAt(d[n], l[n])]
  {
  }

  /** The strings among `known` in the window, by their place in it. */
  ghost function Near(known: set<nat>, base: nat): set<nat> {
    set p: nat | p in known && p > base :: p - base
  }

  lemma InNear(known: set<nat>, base: nat, p: nat)
    ensures p in Near(known, base) <==> p > 0 && base + p in known
  {
    if p > 0 && base + p in known {
      assert (base + p) - base == p;
    }
  }

  lemma NearOn(known: set<nat>, base: nat, p: nat)
    ensures Near(known + {base + p}, base) == if p == 0 then Near(known, base) else Near(known, base) + {p}
  {
    hide Near;
    forall q: nat
      ensures q in Near(known + {base + p}, base) <==> q in Near(known, base) || (q == p && p > 0)
    {
      InNear(known + {base + p}, base, q);
      InNear(known, base, q);
    }
  }

  lemma NearSlid(known: set<nat>, base: nat, wsize: nat)
    ensures Near(known, base + wsize) == SlidSet(Near(known, base), wsize)
  {
    hide Near, SlidSet;
    forall q: nat
      ensures q in Near(known, base + wsize) <==> q in SlidSet(Near(known, base), wsize)
    {
      InNear(known, base + wsize, q);
      InNear(known, base, q + wsize);
      InSlid(Near(known, base), wsize, q);
    }
  }

  /** The `n` bytes from `p` on are all the same as the one before. */
  ghost predicate RunOf(win: seq<Byte>, p: nat, n: nat) {
    0 < p && p + n <= |win| && forall i: nat :: p <= i < p + n ==> win[i] == win[p - 1]
  }

  /** From `was` to `now` some blocks were handed on, of `size` tokens each. */
  ghost predicate FullBlocks(was: seq<seq<Item>>, now: seq<seq<Item>>, size: int) {
    was <= now && forall i: nat :: |was| <= i < |now| ==> |now[i]| == size
  }

  /** From `was` to `now` some blocks were handed on, none of them empty. */
  ghost predicate NoneEmpty(was: seq<seq<Item>>, now: seq<seq<Item>>) {
    was <= now && forall i: nat :: |was| <= i < |now| ==> now[i] != []
  }

  lemma FullNotEmpty(was: seq<seq<Item>>, now: seq<seq<Item>>, size: int)
    requires FullBlocks(was, now, size) && size > 0
    ensures NoneEmpty(was, now)
  {
  }

  lemma NoneEmptyOn(was: seq<seq<Item>>, now: seq<seq<Item>>, ts: seq<Item>)
    requires NoneEmpty(was, now)
    ensures was <= now + [ts] && |was| < |now + [ts]| && (ts != [] ==> NoneEmpty(was, now + [ts]))
  {
  }

  /** The moments from number `from` on had `need` bytes to look at, or all there were. */
  ghost predicate Ample(log: seq<Moment>, from: nat, need: nat, all: int) {
    forall k: nat :: from <= k < |log| ==>
      log[k].forgets || log[k].end >= log[k].st.pos + need || log[k].end == all
  }

  lemma AmpleOn(log: seq<Moment>, from: nat, need: nat, all: int, m: Moment)
    requires Ample(log, from, need, all) && (m.forgets || m.end >= m.st.pos + need || m.end == all)
    ensures Ample(log + [m], from, need, all)
  {
  }

  lemma NoneYet(log: seq<Moment>, need: nat, all: int)
    ensures Ample(log, |log|, need, all)
  {
  }

  /** A flush that is done added an empty block after the data, unless it only ends the block. */
  ghost predicate FlushMarked(was: seq<seq<Item>>, now: seq<seq<Item>>, flush: Flush) {
    if flush == BlockFlush then NoneEmpty(was, now)
    else |now| > 0 && now[|now| - 1] == [] && NoneEmpty(was, now[..|now| - 1])
  }

  lemma Marked(was: seq<seq<Item>>, now: seq<seq<Item>>, flush: Flush)
    requires NoneEmpty(was, now)
    ensures FlushMarked(was, if flush == BlockFlush then now else now + [[]], flush)
  {
    assert (now + [[]])[..|now + [[]]| - 1] == now;
  }

  ghost predicate NoneForgets(was: seq<Moment>, now: seq<Moment>) {
    was <= now && forall k: nat :: |was| <= k < |now| ==> !now[k].forgets
  }

  lemma ForgetsMean(was: seq<Moment>, now: seq<Moment>)
    requires NoneForgets(was, now)
    ensures was <= now
  {
  }

  lemma NothingForgot(log: seq<Moment>)
    ensures NoneForgets(log, log)
  {
  }

  lemma NoneForgetsOn(was: seq<Moment>, now: seq<Moment>, m: Moment)
    requires NoneForgets(was, now) && !m.forgets
    ensures NoneForgets(was, now + [m])
  {
  }

  /** At most one block was handed on, of `size` tokens; the output is full only if one was. */
  ghost predicate OneBlockOn(was: seq<seq<Item>>, now: seq<seq<Item>>, size: int, full: bool) {
    (now == was && !full) || (|now| == |was| + 1 && FullBlocks(was, now, size))
  }

  lemma BlocksOn(was: seq<seq<Item>>, mid: seq<seq<Item>>, now: seq<seq<Item>>, size: int, full: bool)
    requires FullBlocks(was, mid, size) && OneBlockOn(mid, now, size, full)
    ensures FullBlocks(was, now, size) && was <= now && (full ==> |was| < |now|)
  {
  }

  lemma SameBlocks(was: seq<seq<Item>>, size: int)
    ensures FullBlocks(was, was, size) && OneBlockOn(was, was, size, false)
  {
  }

  lemma BlockAdded(was: seq<seq<Item>>, ts: seq<Item>, full: bool)
    ensures OneBlockOn(was, was + [ts], |ts|, full) && was <= was + [ts]
  {
  }

  class Deflater {
    const wbits: nat
    const wsize: nat
    const hashBits: nat
    const litBufsize: nat
    const goodMatch: nat
    const maxLazy: nat
    const niceMatch: nat
    const maxChain: nat
    const slow: bool
    const strategy: Strategy
    /** No string is entered: the strategy needs no chains. */
    const unhashed: bool

    const window: array<Byte>
    const head: array<nat>
    const prev: array<nat>
    const dBuf: array<nat>
    const lBuf: array<Byte>

    /** Input that has arrived but has not been read into the window. */
    var nextIn: seq<Byte>
    var strstart: nat
    var lookahead: nat
    var insert: nat
    var insH: nat
    var highWater: nat
    var blockStart: int
    var matchLength: nat
    var matchStart: nat
    var prevLength: nat
    var prevMatch: nat
    var matchAvailable: bool
    var lastLit: nat
    /** The last block has been begun. */
    var finished: bool

    /** All input read so far. */
    ghost var input: seq<Byte>
    ghost var base: nat
    /** The strings that were entered in the hash chains, by their place in the input. */
    ghost var known: set<nat>
    /** The tokens of each block handed on. */
    ghost var blocks: seq<seq<Item>>
    /** Every step taken. */
    ghost var log: seq<Moment>

    ghost predicate Sizes() {
      && 9 <= wbits <= 15 && wsize == Pow2(wbits) && 512 <= wsize <= 32768
      && 8 <= hashBits <= 16 && head.Length == Pow2(hashBits)
      && window.Length == 2 * wsize && prev.Length == wsize
      && dBuf.Length == lBuf.Length == litBufsize && 128 <= litBufsize
      && maxChain >= 4 && (slow ==> !unhashed) && (unhashed <==> strategy == HuffmanOnly || strategy == Rle)
      && head != prev && head != dBuf && prev != dBuf && window != lBuf
    }

    /** MAX_DIST */
    function MaxDist(): int {
      wsize - MIN_LOOKAHEAD
    }

    ghost function Ix(): Index
      reads this`known, this`base, window, head, prev
    {
      Index(hashBits, window[..], head[..], prev[..], Near(known, base))
    }

    /** The window holds the data before `end`; the chains hold strings before `next`. */
    ghost predicate Core(next: nat, end: nat)
      reads this`known, this`input, this`base, window, head, prev
    {
      && Sizes()
      && Loaded(window[..], input, base, end)
      && Chained(Ix(), next, end)
    }

    /** The running key is ready for the string at `p`. */
    ghost predicate Rolled(p: nat)
      reads this`insH, window
    {
      p + 1 < window.Length && Rolls(hashBits, insH, window[p], window[p + 1])
    }

    /** Between two strings. */
    ghost predicate Valid()
      reads this`known, this`input, this`base, this`insH, window, head, prev
      reads this`strstart, this`lookahead, this`insert
    {
      && insert <= 2 && insert <= strstart
      && Core(strstart - insert, strstart + lookahead)
      && (insert == 0 || lookahead + insert < MIN_MATCH)
      && (!unhashed && lookahead >= MIN_MATCH ==> Rolled(strstart))
    }

    /** deflateInit2_ and lm_init. */
    constructor (level: nat, windowBits: nat, memLevel: nat, strategy: Strategy)
      requires 1 <= level <= 9 && 8 <= windowBits <= 15 && 1 <= memLevel <= 9
      ensures Compressing() && !finished && input == [] && nextIn == [] && blocks == [] && AllTokens() == []
      ensures this.strategy == strategy && wbits == if windowBits == 8 then 9 else windowBits
      ensures hashBits == memLevel + 7 && litBufsize == Pow2(memLevel + 6)
      ensures Configuration(goodMatch, maxLazy, niceMatch, maxChain, slow)
           == ConfigurationOf(level).(slow := slow)
      ensures slow <==> ConfigurationOf(level).slow && strategy != HuffmanOnly && strategy != Rle
      ensures Ways().kind == if strategy == HuffmanOnly then Plain else if strategy == Rle then Runs
                             else if level <= 3 then Greedy else Lazy
      ensures Ways().filtered <==> strategy == Filtered
      ensures Ways().bits == hashBits && Ways().maxDist + 262 == wsize == Pow2(wbits)
      ensures Ways().good == goodMatch && Ways().lazy == maxLazy && Ways().nice == niceMatch
      ensures Ways().chain == maxChain
      ensures Leftover() == if strategy == HuffmanOnly then 0 else if strategy == Rle then 258 else 261
      ensures fresh(window) && fresh(head) && fresh(prev) && fresh(dBuf) && fresh(lBuf)
    {
      hide *;
      Constants();
      var bits := if windowBits == 8 then 9 else windowBits;
      SizesOf(bits, memLevel);
      var c := ConfigurationOf(level);
      LevelChain(level);
      var plain := strategy == HuffmanOnly || strategy == Rle;
      this.strategy, unhashed, slow := strategy, plain, c.slow && !plain;
      goodMatch, maxLazy, niceMatch, maxChain := c.good, c.lazy, c.nice, c.chain;
      wbits, wsize, hashBits, litBufsize := bits, Pow2(bits), memLevel + 7, Pow2(memLevel + 6);
      window := new Byte[2 * Pow2(bits)];
      prev := new nat[Pow2(bits)];
      head := new nat[Pow2(memLevel + 7)](_ => 0);
      dBuf := new nat[Pow2(memLevel + 6)];
      lBuf := new Byte[Pow2(memLevel + 6)];
      nextIn, strstart, lookahead, insert, insH, highWater, blockStart := [], 0, 0, 0, 0, 0, 0;
      matchLength, matchStart, prevLength, prevMatch := MIN_MATCH - 1, 0, MIN_MATCH - 1, 0;
      matchAvailable, lastLit, finished := false, 0, false;
      input, base, known, blocks, log := [], 0, {}, [], [];
      new;
      MadeSizes(this);
      MadeRules(this);
      LeftoverIs(this);
      StartsEmpty(this);
    }

    ghost function Ways(): Rules {
      Rules(if slow then Lazy else if strategy == HuffmanOnly then Plain else if strategy == Rle then Runs else Greedy,
            strategy == Filtered, hashBits, if wsize >= MIN_LOOKAHEAD then wsize - MIN_LOOKAHEAD else 0,
            goodMatch, maxLazy, niceMatch, maxChain)
    }

    /** What is held back. */
    ghost function HeldNow(): Held
      reads this`matchAvailable, this`matchLength, this`matchStart, this`strstart
    {
      if !matchAvailable then NoneHeld
      else if matchLength >= MIN_MATCH && 0 < strstart <= TWO_TO_THE_32 && matchStart < TWO_TO_THE_32 then
        AMatch(matchLength, Minus(strstart - 1, matchStart))
      else AByte
    }

    ghost function Standing(): Stand
      reads this`base, this`strstart, this`known, this`insert
      reads this`matchAvailable, this`matchLength, this`matchStart
    {
      Place().(held := HeldNow())
    }

    ghost function Now(): Moment
      reads this`input, this`base, this`strstart, this`known, this`insert
      reads this`matchAvailable, this`matchLength, this`matchStart
    {
      Moment(|input|, base, Standing(), false)
    }

    /** All tokens so far are those the rules make of the steps taken. */
    ghost predicate Recorded()
      reads this`input, this`base, this`strstart, this`known, this`insert, this`log
      reads this`matchAvailable, this`matchLength, this`matchStart, this`blocks, this`lastLit, dBuf, lBuf
    {
      && lastLit <= dBuf.Length && lastLit <= lBuf.Length
      && Tells(Ways(), input, log, Now(), AllTokens())
    }

    /** Where it stands, but for what is held back. */
    ghost function Place(): Stand
      reads this`base, this`strstart, this`known, this`insert
    {
      Stand(base + strstart, NoneHeld, known, insert)
    }

    // ----- INSERT_STRING and slide_hash --------------------------------------------------------

    method InsertString(str: nat, ghost next: nat, ghost end: nat) returns (hashHead: nat)
      requires Core(next, end) && next <= str && str + 2 < end && Rolled(str)
      modifies this`insH, this`known, head, prev
      ensures Core(str + 1, end) && Rolled(str + 1)
      ensures hashHead <= str && known == old(known) + {base + str}
      ensures str + 2 < |Ix().win| && IsLatest(Ix(), Key(Ix(), str), str, hashHead)
      ensures hashHead != 0 && str - hashHead < wsize ==> Candidate(Ix(), str, hashHead)
    {
      hide *;
      ghost var x := Ix();
      CoreMeans(this, next, end);
      NearOn(known, base, str);
      SizesMean(this);
      SlotIsMask(str, wbits);
      RollsAt(this, str);
      Insert(x, next, end, str);
      FirstCandidate(x, next, end, str);
      insH := Update(hashBits, insH, window[str + 2]);
      hashHead := head[insH];
      prev[Low(str, wbits)] := hashHead;
      head[insH] := str;
      known := known + {base + str};
      IxIs(this);
      EnteredIs(x, str, insH);
      SameKey(x, Ix(), str);
      MakeCore(this, str + 1, end);
      MakeRolled(this, str + 1);
    }

    /** One of the two tables, entry by entry from its end. */
    method SlideTable(t: array<nat>)
      modifies t
      ensures forall k: nat :: k < t.Length ==> t[k] == Slid(old(t[k]), wsize)
    {
      hide *;
      SlidIs(wsize);
      var n := t.Length;
      while n > 0
        invariant n <= t.Length
        invariant forall k: nat :: n <= k < t.Length ==> t[k] == Slid(old(t[k]), wsize)
        invariant forall k: nat :: k < n ==> t[k] == old(t[k])
      {
        n := n - 1;
        var m := t[n];
        t[n] := if m >= wsize then m - wsize else 0;
      }
    }

    method SlideHash()
      requires head != prev
      modifies head, prev
      ensures forall k: nat :: k < head.Length ==> head[k] == Slid(old(head[k]), wsize)
      ensures forall k: nat :: k < prev.Length ==> prev[k] == Slid(old(prev[k]), wsize)
    {
      SlideTable(head);
      SlideTable(prev);
    }

    /** The zmemcpy within the window. */
    method CopyDown(n: nat)
      requires n <= wsize && 2 * wsize <= window.Length
      modifies window
      ensures forall i: nat :: i < n ==> window[i] == old(window[i + wsize])
    {
      forall i | 0 <= i < n {
        window[i] := window[i + wsize];
      }
    }

    // ----- fill_window -----------------------------------------------------------------------------

    /** Moves the upper half of the window to the lower half. */
    method MoveWindow(more: nat)
      requires Valid() && strstart >= wsize + MaxDist() && strstart + lookahead + more == window.Length
      requires matchStart < TWO_TO_THE_32
      modifies this`strstart, this`matchStart, this`blockStart, this`base, window, head, prev
      ensures Valid()
      ensures strstart == old(strstart) - wsize && base == old(base) + wsize && blockStart == old(blockStart) - wsize
      ensures matchStart == Minus(old(matchStart), wsize)
    {
      hide *;
      ValidMeans(this);
      SizesMean(this);
      ghost var x: Index, next: nat, end: nat := Ix(), strstart - insert, strstart + lookahead;
      CoreMeans(this, next, end);
      CopyDown(wsize - more);
      matchStart := Minus(matchStart, wsize);
      strstart := strstart - wsize;
      blockStart := blockStart - wsize;
      SlideHash();
      NearSlid(known, base, wsize);
      base := base + wsize;
      IxIs(this);
      MovedIs(x, Ix(), end);
      AfterMove(this, x, next, end);
    }

    /** read_buf: takes up to `size` bytes of the input to the end of the data. */
    method ReadBuf(size: nat, ghost next: nat, end: nat) returns (n: nat)
      requires Core(next, end) && end + size <= window.Length
      modifies this`nextIn, this`input, window
      ensures n == Min(|old(nextIn)|, size) && nextIn == old(nextIn)[n..] && input == old(input) + old(nextIn)[..n]
      ensures Core(next, end + n)
      ensures forall i: nat :: i < end ==> window[i] == old(window[i])
    {
      hide *;
      CoreMeans(this, next, end);
      ghost var x := Ix();
      n := |nextIn|;
      if n > size {
        n := size;
      }
      MinIs(|nextIn|, size);
      CopyIn(end, n);
      input := input + nextIn[..n];
      IxIs(this);
      ReadMore(this, x, next, end, n, nextIn);
      nextIn := nextIn[n..];
    }

    /** The zmemcpy from the input. */
    method CopyIn(at: nat, n: nat)
      requires at + n <= window.Length && n <= |nextIn|
      modifies window
      ensures forall i: nat :: i < at ==> window[i] == old(window[i])
      ensures forall i: nat :: at <= i < at + n ==> window[i] == nextIn[i - at]
    {
      forall i | at <= i < at + n {
        window[i] := nextIn[i - at];
      }
    }

    /** Initializes the running key and enters the strings left over when input ran out. */
    method HashStart()
      requires insert <= 2 && insert <= strstart && Core(strstart - insert, strstart + lookahead)
      modifies this`insH, this`insert, this`known, head, prev
      ensures Valid() && Place() == Filled(old(Place()), base + strstart + lookahead)
    {
      hide *;
      Constants();
      SpotIs(this);
      if lookahead + insert >= MIN_MATCH {
        var str := strstart - insert;
        CoreMeans(this, str, strstart + lookahead);
        insH := window[str];
        insH := Update(hashBits, insH, window[str + 1]);
        RollStart(hashBits, window[str], window[str + 1]);
        MakeRolled(this, str);
        EnterLeft();
      } else {
        FilledAlready(Place(), base + strstart + lookahead);
      }
      MakeValid(this);
    }

    /** The loop over the strings left over. */
    method EnterLeft()
      requires insert <= 2 && insert <= strstart && lookahead + insert >= MIN_MATCH
      requires Core(strstart - insert, strstart + lookahead) && Rolled(strstart - insert)
      modifies this`insH, this`insert, this`known, head, prev
      ensures insert <= old(insert) && Core(strstart - insert, strstart + lookahead) && Rolled(strstart - insert)
      ensures insert == 0 || lookahead + insert < MIN_MATCH
      ensures Place() == Filled(old(Place()), base + strstart + lookahead)
    {
      hide *;
      Constants();
      SpotIs(this);
      ghost var st, from, all := Place(), base + strstart - insert, base + strstart + lookahead;
      NoneWhole(from, all);
      ghost var end := strstart + lookahead;
      var str := strstart - insert;
      while insert != 0
        invariant insert <= old(insert) && str == strstart - insert
        invariant Core(str, end) && Rolled(str) && lookahead + insert >= MIN_MATCH
        invariant known == old(known) + Whole(from, base + str, all)
      {
        var _ := InsertString(str, str, end);
        CompleteIs(base + str, all);
        WholeOn(from, base + str, all);
        str := str + 1;
        insert := insert - 1;
        if lookahead + insert < MIN_MATCH {
          break;
        }
      }
      FilledTo(st, insert, all);
      SpotIs(this);
    }

    /** Zeroes what longest_match may look at after the data and nothing has written yet. */
    method ZeroAfter()
      requires Valid()
      modifies this`highWater, window
      ensures Valid()
      ensures highWater >= Min(strstart + lookahead + WIN_INIT, window.Length)
    {
      hide *;
      ValidMeans(this);
      CoreMeans(this, strstart - insert, strstart + lookahead);
      MinIs(strstart + lookahead + WIN_INIT, window.Length);
      if highWater < window.Length {
        ghost var x := Ix();
        var curr := strstart + lookahead;
        if highWater < curr {
          var init := window.Length - curr;
          if init > WIN_INIT {
            init := WIN_INIT;
          }
          Zero(curr, init);
          highWater := curr + init;
        } else if highWater < curr + WIN_INIT {
          var init := curr + WIN_INIT - highWater;
          if init > window.Length - highWater {
            init := window.Length - highWater;
          }
          Zero(highWater, init);
          highWater := highWater + init;
        }
        IxIs(this);
        AfterZero(this, x);
      }
    }

    method Zero(at: nat, n: nat)
      requires at + n <= window.Length
      modifies window
      ensures forall i: nat :: i < at ==> window[i] == old(window[i])
    {
      forall i | 0 <= i < n {
        window[at + i] := 0;
      }
    }


    /** The part of fill_window that slides the window, if the string to come is too near its
        end.  Returns how much room there is. */
    method SlideIfFull() returns (more: nat, ghost slid: nat)
      requires Valid() && lookahead < MIN_LOOKAHEAD && matchStart < TWO_TO_THE_32
      modifies this`strstart, this`matchStart, this`blockStart, this`base, window, head, prev
      ensures Valid() && matchStart < TWO_TO_THE_32
      ensures slid == if old(strstart) >= wsize + MaxDist() then wsize else 0
      ensures base == old(base) + slid && strstart == old(strstart) - slid && blockStart == old(blockStart) - slid
      ensures wsize < TWO_TO_THE_32 && 512 <= wsize
      ensures matchStart == if slid == 0 then old(matchStart) else Minus(old(matchStart), wsize)
      ensures strstart + MIN_LOOKAHEAD <= window.Length && strstart < wsize + MaxDist()
      ensures strstart + lookahead + more == window.Length && more >= 2
    {
      hide *;
      Constants();
      ValidMeans(this);
      SizesMean(this);
      more, slid := window.Length - lookahead - strstart, 0;
      if strstart >= wsize + MaxDist() {
        MoveWindow(more);
        more := more + wsize;
        slid := wsize;
      }
    }

    /** The part that reads. */
    method ReadSome(more: nat)
      requires Valid() && strstart + lookahead + more == window.Length && more >= 2 && nextIn != []
      modifies this`nextIn, this`input, this`lookahead, this`insert, this`insH, this`known, window, head, prev
      ensures Valid() && |nextIn| < |old(nextIn)| && lookahead >= old(lookahead)
      ensures Place() == Filled(old(Place()), base + strstart + lookahead)
      ensures input + nextIn == old(input + nextIn) && old(input) <= input
    {
      hide *;
      ValidMeans(this);
      ghost var was, start := nextIn, input;
      MinIs(|was|, more);
      var n := ReadBuf(more, strstart - insert, strstart + lookahead);
      assert start + was[..n] + was[n..] == start + was;
      lookahead := lookahead + n;
      SpotIs(this);
      HashStart();
    }

    /** fill_window: reads as much input as there is room for, until there is enough
        lookahead; first slides the window if it is almost full. */
    method FillWindow() returns (ghost slid: nat)
      requires Valid() && lookahead < MIN_LOOKAHEAD && matchStart < TWO_TO_THE_32
      modifies this`nextIn, this`input, this`strstart, this`lookahead, this`insert, this`insH, this`highWater
      modifies this`matchStart, this`blockStart, this`base, this`known, window, head, prev
      ensures Valid() && matchStart < TWO_TO_THE_32
      ensures Place() == Filled(old(Place()), base + strstart + lookahead)
      ensures slid == 0 || (slid == wsize && wsize < TWO_TO_THE_32 && old(strstart) >= wsize + MaxDist())
      ensures base == old(base) + slid && strstart == old(strstart) - slid && blockStart == old(blockStart) - slid
      ensures matchStart == if slid == 0 then old(matchStart) else Minus(old(matchStart), wsize)
      ensures strstart + MIN_LOOKAHEAD <= window.Length
      ensures lookahead >= MIN_LOOKAHEAD || nextIn == []
      ensures input + nextIn == old(input + nextIn) && old(input) <= input && lookahead >= old(lookahead)
      ensures highWater >= Min(strstart + lookahead + WIN_INIT, window.Length)
    {
      hide *;
      ghost var all, start, was := input + nextIn, input, lookahead;
      slid := 0;
      AlreadyFilled(this);
      while true
        invariant Place() == Filled(old(Place()), base + strstart + lookahead)
        invariant Valid() && matchStart < TWO_TO_THE_32 && lookahead < MIN_LOOKAHEAD && lookahead >= was
        invariant slid == 0 || (slid == wsize && wsize < TWO_TO_THE_32 && strstart < wsize + MaxDist())
        invariant slid == 0 || old(strstart) >= wsize + MaxDist()
        invariant base == old(base) + slid && strstart == old(strstart) - slid && blockStart == old(blockStart) - slid
        invariant matchStart == if slid == 0 then old(matchStart) else Minus(old(matchStart), wsize)
        invariant input + nextIn == all && start <= input
        decreases |nextIn|
      {
        var more;
        ghost var d;
        ghost var st := Place();
        SpotIs(this);
        more, d := SlideIfFull();
        slid := slid + d;
        SpotIs(this);
        if nextIn == [] {
          break;
        }
        ghost var end := base + strstart + lookahead;
        ReadSome(more);
        FilledTwice(old(Place()), end, base + strstart + lookahead);
        if !(lookahead < MIN_LOOKAHEAD && nextIn != []) {
          break;
        }
      }
      ZeroAfter();
    }

    // ----- Tokens -------------------------------------------------------------------------------------

    ghost function Flushed(): seq<Item>
      reads this`blocks
    {
      Flat(blocks)
    }

    ghost function InHand(): seq<Item>
      requires lastLit <= dBuf.Length && lastLit <= lBuf.Length
      reads this`lastLit, dBuf, lBuf
    {
      Tokens(dBuf[..lastLit], lBuf[..lastLit])
    }

    /** All tokens so far, those of finished blocks included. */
    ghost function AllTokens(): seq<Item>
      requires lastLit <= dBuf.Length && lastLit <= lBuf.Length
      reads this`blocks, this`lastLit, dBuf, lBuf
    {
      Flushed() + InHand()
    }

    /** The tokens so far have codes, and they stand for the first `n` bytes of the input, and those of finished
        blocks for what lies before the block in hand. */
    ghost predicate Told(n: nat)
      reads this`blocks, this`lastLit, this`blockStart, this`input, this`base, dBuf, lBuf
    {
      && lastLit < litBufsize == dBuf.Length == lBuf.Length
      && n <= |input| && Expand(AllTokens()) == Bytes(input[..n]) && Encodable(AllTokens(), MaxDist())
      && 0 <= base + blockStart <= |input| && Expand(Flushed()) == Bytes(input[..base + blockStart])
    }

    /** _tr_tally_lit */
    method TallyLit(c: Byte) returns (bflush: bool)
      requires lastLit < litBufsize == dBuf.Length == lBuf.Length
      modifies this`lastLit, dBuf, lBuf
      ensures lastLit == old(lastLit) + 1 <= litBufsize && AllTokens() == old(AllTokens()) + [Literal(c)]
      ensures bflush <==> lastLit == litBufsize - 1
    {
      ghost var d, l := dBuf[..lastLit], lBuf[..lastLit];
      dBuf[lastLit] := 0;
      lBuf[lastLit] := c;
      OneToken(dBuf[..], lBuf[..], lastLit);
      TokenSlices(dBuf[..], lBuf[..], d, l, lastLit);
      lastLit := lastLit + 1;
      TokensNow(this);
      bflush := lastLit == litBufsize - 1;
    }

    /** _tr_tally_dist */
    method TallyDist(distance: nat, length: nat) returns (bflush: bool)
      requires lastLit < litBufsize == dBuf.Length == lBuf.Length
      requires 0 < distance <= 0xffff && length <= 255
      modifies this`lastLit, dBuf, lBuf
      ensures lastLit == old(lastLit) + 1 <= litBufsize
      ensures AllTokens() == old(AllTokens()) + [Match(length + MIN_MATCH, distance)]
      ensures bflush <==> lastLit == litBufsize - 1
    {
      ghost var d, l := dBuf[..lastLit], lBuf[..lastLit];
      var len, dist := length % 0x100, distance % 0x1_0000;
      dBuf[lastLit] := dist;
      lBuf[lastLit] := len;
      OneToken(dBuf[..], lBuf[..], lastLit);
      TokenSlices(dBuf[..], lBuf[..], d, l, lastLit);
      lastLit := lastLit + 1;
      TokensNow(this);
      bflush := lastLit == litBufsize - 1;
    }

    /** Hands the block in hand on.  Its tokens stand for the bytes from `blockStart` to
        `strstart`.  Says whether the output is full now. */
    method FlushBlock() returns (full: bool)
      requires Told(base + strstart)
      modifies this`blocks, this`lastLit, this`blockStart
      ensures Told(base + strstart) && lastLit == 0 && blockStart == strstart
      ensures blocks == old(blocks) + [old(InHand())] && Flushed() == old(AllTokens()) == AllTokens()
      ensures old(blocks) <= blocks && OneBlockOn(old(blocks), blocks, old(lastLit), full)
      ensures old(Recorded()) ==> Recorded()
    {
      hide Expand, Encodable, Tells;
      FlatOn(blocks, InHand());
      BlockAdded(blocks, InHand(), true);
      BlockAdded(blocks, InHand(), false);
      blocks := blocks + [InHand()];
      lastLit := 0;
      blockStart := strstart;
      assert AllTokens() == Flushed();
      full := *;
    }

    /** Puts out the byte at `p` as it is. */
    method EmitLiteral(p: nat, ghost next: nat, ghost end: nat) returns (bflush: bool)
      requires Core(next, end) && Told(base + p) && p < end && lastLit + 1 < litBufsize
      modifies this`lastLit, dBuf, lBuf
      ensures Core(next, end) && Told(base + p + 1) && lastLit == old(lastLit) + 1
      ensures base + p < |input| && AllTokens() == old(AllTokens()) + [Literal(input[base + p])]
      ensures bflush <==> lastLit == litBufsize - 1
    {
      hide *;
      CoreMeans(this, next, end);
      SizesMean(this);
      LoadedAt(window[..], input, base, end, p);
      ToldMeans(this, base + p);
      ghost var ts := AllTokens();
      bflush := TallyLit(window[p]);
      TellLiteral(this, ts, base + p);
    }

    /** Puts out the `len` bytes at `p` as a match. */
    method EmitMatch(p: nat, dist: nat, len: nat, ghost next: nat, ghost end: nat) returns (bflush: bool)
      requires Core(next, end) && Told(base + p) && lastLit + 1 < litBufsize
      requires Repeats(input, base + p, dist, len) && MIN_MATCH <= len <= MAX_MATCH && dist <= MaxDist()
      modifies this`lastLit, dBuf, lBuf
      ensures Core(next, end) && Told(base + p + len) && lastLit == old(lastLit) + 1
      ensures AllTokens() == old(AllTokens()) + [Match(len, dist)]
      ensures bflush <==> lastLit == litBufsize - 1
    {
      hide *;
      Constants();
      CoreMeans(this, next, end);
      SizesMean(this);
      ToldMeans(this, base + p);
      RepeatsMeans(input, base + p, dist, len);
      ghost var ts := AllTokens();
      bflush := TallyDist(dist, len - MIN_MATCH);
      TellMatch(this, ts, base + p, dist, len);
    }

    // ----- Matching ------------------------------------------------------------------------------------

    /** Before a string is looked at: there is data, and room to look past them. */
    ghost predicate AtString()
      reads this`known, this`input, this`base, this`insH, window, head, prev
      reads this`strstart, this`lookahead, this`insert
    {
      Valid() && !unhashed && lookahead > 0 && strstart + MIN_LOOKAHEAD <= window.Length
    }

    /** The string at `strstart` has been entered, if there are three bytes of it. */
    ghost predicate PastString()
      reads this`known, this`input, this`base, this`insH, window, head, prev
      reads this`strstart, this`lookahead, this`insert
    {
      && insert <= 2 && insert <= strstart && lookahead > 0 && strstart + MIN_LOOKAHEAD <= window.Length
      && Core(strstart + 1 - insert, strstart + lookahead)
      && (insert == 0 || lookahead + insert < MIN_MATCH)
      && (lookahead > MIN_MATCH ==> Rolled(strstart + 1))
    }

    /** `hashHead` is the latest string with the key of the one at `strstart`. */
    ghost predicate IsHead(hashHead: nat)
      reads this`known, this`base, this`strstart, window, head, prev
    {
      strstart + 2 < |Ix().win| && IsLatest(Ix(), Key(Ix(), strstart), strstart, hashHead)
    }

    /** Enters the string at `strstart`; 0 if it is too short for that. */
    method EnterString() returns (hashHead: nat)
      requires AtString()
      modifies this`insH, this`known, head, prev
      ensures PastString() && hashHead <= strstart
      ensures known == old(known) + Whole(base + strstart, base + strstart + 1, base + strstart + lookahead)
      ensures lookahead >= MIN_MATCH ==> IsHead(hashHead)
      ensures hashHead != 0 ==>
                && lookahead >= MIN_MATCH && insert == 0 && wsize < TWO_TO_THE_32
                && (strstart - hashHead < wsize ==> Candidate(Ix(), strstart, hashHead))
    {
      hide *;
      Constants();
      AtStringMeans(this);
      ValidMeans(this);
      SizesMean(this);
      hashHead := 0;
      CompleteIs(base + strstart, base + strstart + lookahead);
      NoneWhole(base + strstart, base + strstart + lookahead);
      OneWhole(base + strstart, base + strstart + lookahead);
      if lookahead >= MIN_MATCH {
        hashHead := InsertString(strstart, strstart, strstart + lookahead);
        MakeHead(this, hashHead);
      } else {
        NotEntered(this, strstart - insert, strstart + lookahead);
      }
      MakePast(this);
    }

    /** A match of the string at `at` was found: the `len` bytes there repeat those at `start`. */
    ghost predicate Pending(at: nat, start: nat, len: nat)
      reads this`input, this`base
    {
      && at < TWO_TO_THE_32 && start < TWO_TO_THE_32
      && MinusOk(at, start) && Repeats(input, base + at, Minus(at, start), len)
    }

    /** ... within the distance matches may have. */
    predicate MinusOk(at: nat, start: nat)
      requires at < TWO_TO_THE_32 && start < TWO_TO_THE_32
    {
      0 < Minus(at, start) <= MaxDist()
    }

    /** Calls longest_match. */
    method Search(hashHead: nat)
      requires PastString() && hashHead != 0 && hashHead <= strstart && strstart - hashHead <= MaxDist()
      requires lookahead >= MIN_MATCH && insert == 0
      requires strstart - hashHead < wsize ==> Candidate(Ix(), strstart, hashHead)
      requires 1 <= prevLength <= MAX_MATCH && matchStart < TWO_TO_THE_32 && IsHead(hashHead)
      modifies this`matchStart, this`matchLength
      ensures base + strstart + 2 < |input| == base + strstart + lookahead && Ways().chain >= 4
      ensures var f := MatchAt(Ways(), input, known, base, base + strstart, prevLength);
              && (matchLength > prevLength <==> f.len > prevLength)
              && (matchLength > prevLength ==>
                    f.len == matchLength && f.start == base + matchStart && matchStart < strstart)
      ensures PastString() && matchStart < TWO_TO_THE_32 && matchLength <= lookahead && matchLength <= MAX_MATCH
      ensures matchLength > prevLength ==> Pending(strstart, matchStart, matchLength)
      ensures matchLength <= prevLength ==> matchLength == Min(prevLength, lookahead)
    {
      hide *;
      Constants();
      PastMeans(this);
      CoreMeans(this, strstart + 1, strstart + lookahead);
      SizesMean(this);
      IsBefore(Ix(), strstart, hashHead);
      HeadMeans(this, hashHead);
      WaysAre(this);
      Searchable(this, prevLength);
      matchLength, matchStart :=
        LongestMatch(window, prev, Ix(), hashHead, strstart, lookahead, prevLength, matchStart,
                     goodMatch, niceMatch, maxChain, MaxDist());
      MadePending(this, matchStart, matchLength);
    }

    // ----- deflate_fast ----------------------------------------------------------------------------------

    ghost predicate FastState()
      reads this`known, this`input, this`base, this`insH, this`strstart, this`lookahead, this`insert
      reads this`blocks, this`lastLit, this`blockStart, this`matchStart, this`matchLength, this`prevLength
      reads this`matchAvailable, window, head, prev, dBuf, lBuf
    {
      && Valid() && Told(base + strstart) && lastLit + 1 < litBufsize
      && matchStart < TWO_TO_THE_32 && matchLength < MIN_MATCH && prevLength == MIN_MATCH - 1 && !matchAvailable
    }

    /** Enters the strings of a match after the first. */
    method EnterInside(ghost end: nat)
      requires Core(strstart + 1, end) && Rolled(strstart + 1) && matchLength >= 1 && lookahead >= MIN_MATCH
      requires strstart + 1 + matchLength + lookahead == end
      modifies this`insH, this`known, this`strstart, this`matchLength, head, prev
      ensures Core(strstart + 1, end) && Rolled(strstart + 1)
      ensures matchLength == 0 && strstart == old(strstart) + old(matchLength)
      ensures known == old(known) + Whole(base + old(strstart) + 1, base + strstart + 1, base + end)
    {
      hide *;
      Constants();
      ghost var from, stop := base + strstart + 1, strstart + matchLength;
      NoneWhole(from, base + end);
      while true
        invariant Core(strstart + 1, end) && Rolled(strstart + 1)
        invariant matchLength >= 1 && strstart + matchLength == stop
        invariant from <= base + strstart + 1 && known == old(known) + Whole(from, base + strstart + 1, base + end)
        decreases matchLength
      {
        strstart := strstart + 1;
        var _ := InsertString(strstart, strstart, end);
        CompleteIs(base + strstart, base + end);
        WholeOn(from, base + strstart, base + end);
        matchLength := matchLength - 1;
        if matchLength == 0 {
          break;
        }
      }
    }

    /** The strings that become known with those of a match at `s` that is `len` long. */
    ghost function Inside(s: nat, len: nat, end: nat): set<nat> {
      if len <= maxLazy && s + len + MIN_MATCH <= end then Whole(s + 1, s + len, end) else {}
    }

    /** Moves past a match, entering all its strings if it is short. */
    method PassMatch()
      requires PastString() && insert == 0 && MIN_MATCH <= matchLength <= lookahead && matchLength <= MAX_MATCH
      modifies this`insH, this`known, this`strstart, this`lookahead, this`matchLength, head, prev
      ensures Valid() && strstart == old(strstart) + old(matchLength)
      ensures lookahead == old(lookahead) - old(matchLength) && matchLength == 0
      ensures known == old(known) + Inside(base + old(strstart), old(matchLength), base + old(strstart + lookahead))
    {
      hide *;
      Constants();
      PastMeans(this);
      ghost var end, stop := strstart + lookahead, strstart + matchLength;
      InsideIs(this, base + strstart, matchLength, base + end);
      lookahead := lookahead - matchLength;
      if matchLength <= maxLazy && lookahead >= MIN_MATCH {
        matchLength := matchLength - 1;
        EnterInside(end);
        strstart := strstart + 1;
      } else {
        CoreMeans(this, strstart + 1, end);
        CoreLater(this, strstart + 1, end, stop);
        strstart := strstart + matchLength;
        matchLength := 0;
        insH := window[strstart];
        insH := Update(hashBits, insH, window[strstart + 1]);
        RollStart(hashBits, window[strstart], window[strstart + 1]);
        MakeRolled(this, strstart);
      }
      MakeValid(this);
    }

    /** Puts out the match that was found. */
    method TakeMatch() returns (bflush: bool)
      requires PastString() && Told(base + strstart) && lastLit + 1 < litBufsize
      requires matchStart < TWO_TO_THE_32 && MIN_MATCH <= matchLength <= lookahead && matchLength <= MAX_MATCH
      requires Pending(strstart, matchStart, matchLength)
      modifies this`insH, this`known, this`strstart, this`lookahead, this`matchLength, this`lastLit
      modifies head, prev, dBuf, lBuf
      ensures Valid() && Told(base + strstart) && (bflush <==> lastLit == litBufsize - 1)
      ensures strstart == old(strstart) + old(matchLength) && strstart + lookahead == old(strstart + lookahead)
      ensures lastLit == old(lastLit) + 1 && matchLength == 0
      ensures AllTokens() == old(AllTokens()) + [Match(old(matchLength), Minus(old(strstart), matchStart))]
      ensures known == old(known) + Inside(base + old(strstart), old(matchLength), base + strstart + lookahead)
    {
      hide *;
      Constants();
      PastMeans(this);
      SizesMean(this);
      PendingMeans(this, strstart, matchStart, matchLength);
      bflush := EmitMatch(strstart, Minus(strstart, matchStart), matchLength, strstart + 1, strstart + lookahead);
      PassMatch();
    }

    /** Puts out the byte. */
    method TakeByte() returns (bflush: bool)
      requires PastString() && Told(base + strstart) && lastLit + 1 < litBufsize
      modifies this`strstart, this`lookahead, this`lastLit, dBuf, lBuf
      ensures Valid() && Told(base + strstart) && (bflush <==> lastLit == litBufsize - 1)
      ensures strstart == old(strstart) + 1 && strstart + lookahead == old(strstart + lookahead)
      ensures lastLit == old(lastLit) + 1 && base + old(strstart) < |input|
      ensures AllTokens() == old(AllTokens()) + [Literal(input[base + old(strstart)])]
    {
      hide *;
      Constants();
      PastMeans(this);
      SizesMean(this);
      bflush := EmitLiteral(strstart, strstart + 1 - insert, strstart + lookahead);
      lookahead := lookahead - 1;
      strstart := strstart + 1;
      MakeValid(this);
    }

    /** Puts out the match that was found, or the byte. */
    method FastEmit() returns (full: bool)
      requires PastString() && Told(base + strstart) && lastLit + 1 < litBufsize
      requires matchStart < TWO_TO_THE_32 && prevLength == MIN_MATCH - 1 && !matchAvailable
      requires matchLength >= MIN_MATCH ==>
                 matchLength <= lookahead && matchLength <= MAX_MATCH && Pending(strstart, matchStart, matchLength)
      modifies this`insH, this`known, this`strstart, this`lookahead, this`matchLength
      modifies this`lastLit, this`blocks, this`blockStart, head, prev, dBuf, lBuf
      ensures FastState() && strstart > old(strstart) && strstart + lookahead == old(strstart + lookahead)
      ensures OneBlockOn(old(blocks), blocks, litBufsize - 1, full)
      ensures old(matchLength) < MIN_MATCH ==>
                && strstart == old(strstart) + 1 && known == old(known) && base + old(strstart) < |input|
                && AllTokens() == old(AllTokens()) + [Literal(input[base + old(strstart)])]
      ensures old(matchLength) >= MIN_MATCH ==>
                && strstart == old(strstart) + old(matchLength)
                && AllTokens() == old(AllTokens()) + [Match(old(matchLength), Minus(old(strstart), matchStart))]
                && known == old(known) + Inside(base + old(strstart), old(matchLength), base + strstart + lookahead)
    {
      hide *;
      Constants();
      PastMeans(this);
      SizesMean(this);
      var bflush;
      if matchLength >= MIN_MATCH {
        bflush := TakeMatch();
      } else {
        bflush := TakeByte();
      }
      ToldMeans(this, base + strstart);
      full := false;
      SameBlocks(blocks, litBufsize - 1);
      if bflush {
        full := FlushBlock();
      }
      MakeFast(this);
    }

    /** Searches for a match, if there is a string to start with. */
    method FindMatch(hashHead: nat)
      requires PastString() && hashHead <= strstart && (lookahead >= MIN_MATCH ==> IsHead(hashHead))
      requires hashHead != 0 ==>
                 && lookahead >= MIN_MATCH && insert == 0
                 && (strstart - hashHead < wsize ==> Candidate(Ix(), strstart, hashHead))
      requires prevLength == MIN_MATCH - 1 && matchLength < MIN_MATCH && matchStart < TWO_TO_THE_32
      requires base + strstart < |input| == base + strstart + lookahead && Ways().chain >= 4
      modifies this`matchStart, this`matchLength
      ensures PastString() && matchStart < TWO_TO_THE_32
      ensures matchLength >= MIN_MATCH ==>
                matchLength <= lookahead && matchLength <= MAX_MATCH && Pending(strstart, matchStart, matchLength)
      ensures var f := if lookahead >= MIN_MATCH then MatchAt(Ways(), input, known, base, base + strstart, 2)
                       else Longest(0, 0);
              && (matchLength >= MIN_MATCH <==> f.len >= MIN_MATCH)
              && (matchLength >= MIN_MATCH ==>
                    f.len == matchLength && f.start == base + matchStart && matchStart < strstart)
    {
      hide *;
      Constants();
      PastMeans(this);
      SizesMean(this);
      if lookahead >= MIN_MATCH {
        NoneFound(this, hashHead, prevLength);
      }
      if hashHead != 0 && strstart - hashHead <= MaxDist() {
        Search(hashHead);
        MinIs(prevLength, lookahead);
      }
    }

    /** Enters the string at `strstart` and searches for a match. */
    method LookUp()
      requires AtString() && prevLength == MIN_MATCH - 1 && matchLength < MIN_MATCH && matchStart < TWO_TO_THE_32
      requires base + strstart < |input| == base + strstart + lookahead && Ways().chain >= 4
      modifies this`insH, this`known, this`matchStart, this`matchLength, head, prev
      ensures PastString() && matchStart < TWO_TO_THE_32
      ensures known == old(known) + Whole(base + strstart, base + strstart + 1, |input|)
      ensures matchLength >= MIN_MATCH ==>
                matchLength <= lookahead && matchLength <= MAX_MATCH && Pending(strstart, matchStart, matchLength)
      ensures var f := if lookahead >= MIN_MATCH then MatchAt(Ways(), input, known, base, base + strstart, 2)
                       else Longest(0, 0);
              && (matchLength >= MIN_MATCH <==> f.len >= MIN_MATCH)
              && (matchLength >= MIN_MATCH ==>
                    f.len == matchLength && f.start == base + matchStart && matchStart < strstart)
    {
      hide *;
      AtStringMeans(this);
      var hashHead := EnterString();
      FindMatch(hashHead);
    }

    /** One string of deflate_fast: what is told, and where it leads, is what the rules say. */
    method FastStep() returns (full: bool)
      requires FastState() && AtString() && base + strstart < |input| && Ways().chain >= 4
      modifies this`insH, this`known, this`strstart, this`lookahead, this`matchLength, this`matchStart
      modifies this`lastLit, this`blocks, this`blockStart, head, prev, dBuf, lBuf
      ensures FastState() && strstart > old(strstart) && strstart + lookahead == old(strstart + lookahead)
      ensures OneBlockOn(old(blocks), blocks, litBufsize - 1, full)
      ensures var d := GreedyStep(Ways(), input, base, old(Place()));
              AllTokens() == old(AllTokens()) + d.told && Place() == d.to
    {
      hide *;
      Constants();
      FastMeans(this);
      SizesMean(this);
      WaysAre(this);
      AtStringMeans(this);
      InputLength(this);
      SpotIs(this);
      ghost var st := Place();
      LookUp();
      MinusIs(strstart, matchStart);
      InsideIs(this, st.pos, matchLength, |input|);
      ghost var len, start := matchLength, base + matchStart;
      full := FastEmit();
      SpotIs(this);
      GreedyDone(Ways(), input, base, st, len, start, known, Place());
    }

    /** ... and is recorded. */
    method FastNext() returns (full: bool)
      requires FastState() && AtString() && !slow && Recorded()
      modifies this`insH, this`known, this`strstart, this`lookahead, this`matchLength, this`matchStart
      modifies this`lastLit, this`blocks, this`blockStart, this`log, head, prev, dBuf, lBuf
      ensures FastState() && strstart > old(strstart) && strstart + lookahead == old(strstart + lookahead)
      ensures OneBlockOn(old(blocks), blocks, litBufsize - 1, full)
      ensures Recorded() && log == old(log + [Now()])
    {
      hide *;
      FastMeans(this);
      SizesMean(this);
      AtStringMeans(this);
      StepReady(this);
      WaysAre(this);
      ghost var m, told := Now(), AllTokens();
      MadeIs(Ways(), input, m);
      full := FastStep();
      log := log + [m];
      FastMeans(this);
      StepReadyAfter(this);
      StepRecorded(this, old(log), m, told);
    }

    // ----- What a compressor returns for ---------------------------------------------------------------

    /** All input is told, and in blocks handed on. */
    ghost predicate AllHanded()
      reads this`lookahead, this`nextIn, this`lastLit, this`blocks, this`input
    {
      lookahead == 0 && nextIn == [] && lastLit == 0 && Expand(Flushed()) == Bytes(input)
    }

    /** It needs more input: there is none, and no more than `most` bytes are left to look at.
        All blocks handed on are full ones. */
    ghost predicate Drained(was: seq<seq<Item>>, flush: Flush, most: nat)
      reads this`lookahead, this`nextIn, this`blocks
    {
      flush == NoFlush && nextIn == [] && lookahead <= most && FullBlocks(was, blocks, litBufsize - 1)
    }

    /** It needs more room: a block was handed on, and full ones only, unless all was told and the
        rest handed on for a flush. */
    ghost predicate Stalled(was: seq<seq<Item>>, flush: Flush)
      reads this`lookahead, this`nextIn, this`lastLit, this`blocks, this`input
    {
      && |was| < |blocks|
      && (FullBlocks(was, blocks, litBufsize - 1) || (flush != NoFlush && flush != Finish && AllHanded()))
    }

    // ----- deflate_rle -----------------------------------------------------------------------------------

    /** How often the byte before `strstart` is repeated: 0 if it is not three times, and at
        most 258 times and as often as there are data for. */
    method Run() returns (len: nat)
      requires 0 < strstart && strstart + MAX_MATCH < window.Length && lookahead >= MIN_MATCH
      ensures len <= lookahead && len <= MAX_MATCH && (len == 0 || len >= MIN_MATCH)
      ensures RunOf(window[..], strstart, len)
      ensures len == 0 ==> !RunOf(window[..], strstart, MIN_MATCH)
      ensures 0 < len < Min(lookahead, MAX_MATCH) ==> !RunOf(window[..], strstart, len + 1)
    {
      len := 0;
      var before := window[strstart - 1];
      if before == window[strstart] && before == window[strstart + 1] && before == window[strstart + 2] {
        var scan := 2;
        var going := true;
        while going && scan < MAX_MATCH
          invariant 2 <= scan <= MAX_MATCH && (going ==> scan % 8 == 2)
          invariant RunOf(window[..], strstart, if going then scan + 1 else scan)
          invariant !going ==> scan >= 3 && window[strstart + scan] != before
          decreases going, MAX_MATCH - scan
        {
          var k := 0;
          ghost var at := scan;
          while going && k < 8
            invariant 0 <= k <= 8 && scan == at + k && (going || 0 < k)
            invariant RunOf(window[..], strstart, if going then scan + 1 else scan)
            invariant !going ==> scan >= 3 && window[strstart + scan] != before
            decreases going, 8 - k
          {
            scan := scan + 1;
            k := k + 1;
            going := window[strstart + scan] == before;
          }
        }
        len := scan;
        if len > lookahead {
          len := lookahead;
        }
      }
    }

    /** A run of `len` bytes at `at` was put out, or the byte if that is less than three. */
    ghost predicate RunPut(told: seq<Item>, at: nat, len: nat)
      requires lastLit <= dBuf.Length && lastLit <= lBuf.Length
      reads this`strstart, this`blocks, this`lastLit, this`input, this`base, dBuf, lBuf
    {
      if len >= MIN_MATCH then strstart == at + len && AllTokens() == told + [Match(len, 1)]
      else strstart == at + 1 && base + at < |input| && AllTokens() == told + [Literal(input[base + at])]
    }

    /** Puts out a run, or one byte. */
    method EmitRun(ghost next: nat, ghost end: nat) returns (bflush: bool)
      requires Core(next, end) && Told(base + strstart) && lastLit + 1 < litBufsize && end == strstart + lookahead
      requires matchLength <= lookahead && matchLength <= MAX_MATCH && lookahead > 0
      requires matchLength >= MIN_MATCH ==> Repeats(input, base + strstart, 1, matchLength) && 1 <= MaxDist()
      modifies this`strstart, this`lookahead, this`matchLength, this`lastLit, dBuf, lBuf
      ensures Core(next, end) && Told(base + strstart) && end == strstart + lookahead && matchLength < MIN_MATCH
      ensures strstart > old(strstart) && (bflush <==> lastLit == litBufsize - 1)
      ensures RunPut(old(AllTokens()), old(strstart), old(matchLength))
    {
      hide *;
      Constants();
      ToldMeans(this, base + strstart);
      ghost var told, at, len := AllTokens(), strstart, matchLength;
      if matchLength >= MIN_MATCH {
        bflush := EmitMatch(strstart, 1, matchLength, next, end);
        lookahead := lookahead - matchLength;
        strstart := strstart + matchLength;
        matchLength := 0;
      } else {
        bflush := EmitLiteral(strstart, next, end);
        lookahead := lookahead - 1;
        strstart := strstart + 1;
      }
      ToldMeans(this, base + strstart);
      MakeRunPut(this, told, at, len);
    }

    /** How often the byte before is repeated, if there are three bytes to look at. */
    method FindRun(ghost next: nat, ghost end: nat)
      requires Core(next, end) && end == strstart + lookahead && strstart + MAX_MATCH < window.Length
      modifies this`matchLength
      ensures matchLength <= lookahead && matchLength <= MAX_MATCH && |input| == base + end
      ensures matchLength >= MIN_MATCH ==> Repeats(input, base + strstart, 1, matchLength) && 1 <= MaxDist()
      ensures var n := RunAt(input, base, base + strstart);
              (matchLength >= MIN_MATCH <==> n >= MIN_MATCH) && (n >= MIN_MATCH ==> n == matchLength)
    {
      hide *;
      Constants();
      CoreMeans(this, next, end);
      RunAtShort(input, base, base + strstart);
      MinIs(lookahead, MAX_MATCH);
      matchLength := 0;
      if lookahead >= MIN_MATCH && strstart > 0 {
        matchLength := Run();
        RunRepeats(this, next, end, matchLength);
        RunIs(this, next, end, matchLength);
      }
    }

    /** One run, or one byte, of deflate_rle: what is told is what the rules say. */
    method RleStep() returns (full: bool)
      requires FastState() && unhashed && lookahead > 0 && strstart + MAX_MATCH < window.Length
      requires base + strstart < |input|
      modifies this`strstart, this`lookahead, this`matchLength
      modifies this`lastLit, this`blocks, this`blockStart, dBuf, lBuf
      ensures FastState() && strstart > old(strstart) && strstart + lookahead == old(strstart + lookahead)
      ensures OneBlockOn(old(blocks), blocks, litBufsize - 1, full)
      ensures var d := RunStep(input, base, old(Place()));
              AllTokens() == old(AllTokens()) + d.told && Place() == d.to
    {
      hide *;
      FastMeans(this);
      SizesMean(this);
      ValidMeans(this);
      ghost var st, told := Place(), AllTokens();
      SpotIs(this);
      FindRun(strstart - insert, strstart + lookahead);
      ghost var len := matchLength;
      full := PutRun(strstart - insert, strstart + lookahead);
      SpotIs(this);
      FastMeans(this);
      RunPutMeans(this, told, st.pos - base, len);
      RunStepIs(input, base, st);
    }

    /** Puts out a run, or one byte, and the block if it is complete. */
    method PutRun(ghost next: nat, ghost end: nat) returns (full: bool)
      requires Core(next, end) && Told(base + strstart) && lastLit + 1 < litBufsize && end == strstart + lookahead
      requires matchLength <= lookahead && matchLength <= MAX_MATCH && lookahead > 0 && unhashed
      requires matchLength >= MIN_MATCH ==> Repeats(input, base + strstart, 1, matchLength) && 1 <= MaxDist()
      requires insert <= 2 && next == strstart - insert
      requires matchStart < TWO_TO_THE_32 && prevLength == MIN_MATCH - 1 && !matchAvailable
      requires insert == 0 || lookahead + insert < MIN_MATCH
      modifies this`strstart, this`lookahead, this`matchLength
      modifies this`lastLit, this`blocks, this`blockStart, dBuf, lBuf
      ensures FastState() && strstart > old(strstart) && strstart + lookahead == old(strstart + lookahead)
      ensures OneBlockOn(old(blocks), blocks, litBufsize - 1, full)
      ensures RunPut(old(AllTokens()), old(strstart), old(matchLength))
    {
      hide *;
      Constants();
      CoreMeans(this, next, end);
      SizesMean(this);
      ghost var told, at, len := AllTokens(), strstart, matchLength;
      var bflush := EmitRun(next, end);
      ToldMeans(this, base + strstart);
      RunPutMeans(this, told, at, len);
      CoreLater(this, next, end, strstart - insert);
      MakeValid(this);
      full := false;
      ToldMeans(this, base + strstart);
      SameBlocks(blocks, litBufsize - 1);
      if bflush {
        full := FlushBlock();
      }
      MakeRunPut(this, told, at, len);
      MakeFast(this);
    }

    /** ... and is recorded. */
    method RleNext() returns (full: bool)
      requires FastState() && strategy == Rle && !slow && lookahead > 0 && strstart + MAX_MATCH < window.Length
      requires Recorded()
      modifies this`strstart, this`lookahead, this`matchLength
      modifies this`lastLit, this`blocks, this`blockStart, this`log, dBuf, lBuf
      ensures FastState() && strstart > old(strstart) && strstart + lookahead == old(strstart + lookahead)
      ensures OneBlockOn(old(blocks), blocks, litBufsize - 1, full)
      ensures Recorded() && log == old(log + [Now()])
    {
      hide *;
      FastMeans(this);
      SizesMean(this);
      StepReady(this);
      WaysAre(this);
      ghost var m, told := Now(), AllTokens();
      MadeIs(Ways(), input, m);
      full := RleStep();
      log := log + [m];
      FastMeans(this);
      SizesMean(this);
      StepReadyAfter(this);
      StepRecorded(this, old(log), m, told);
    }

    /** deflate_rle: matches of distance one only; no string is looked up. */
    method DeflateRle(flush: Flush) returns (st: BlockState, full: bool)
      requires FastState() && strategy == Rle && !slow && Recorded()
      modifies this`nextIn, this`input, this`strstart, this`lookahead, this`insert, this`insH, this`highWater
      modifies this`matchStart, this`matchLength, this`prevLength, this`prevMatch, this`matchAvailable
      modifies this`blockStart, this`base, this`known, this`lastLit, this`blocks, this`log
      modifies window, head, prev, dBuf, lBuf
      ensures FastState() && input + nextIn == old(input + nextIn)
      ensures st != NeedMore ==> Settled() && lastLit == 0 && blockStart == strstart
      ensures st == FinishDone || st == FinishStarted ==> flush == Finish
      ensures st == BlockDone ==> flush != Finish && flush != NoFlush && NoneEmpty(old(blocks), blocks)
      ensures old(blocks) <= blocks && (flush == Finish && !full ==> st == FinishDone)
      ensures st == NeedMore ==>
                if full then Stalled(old(blocks), flush) else Drained(old(blocks), flush, MAX_MATCH)
      ensures Recorded() && NoneForgets(old(log), log)
      ensures Ample(log, |old(log)|, MAX_MATCH + 1, if flush == NoFlush then -1 else |old(input + nextIn)|)
    {
      hide *;
      Constants();
      full := false;
      SameBlocks(blocks, litBufsize - 1);
      NoneYet(log, MAX_MATCH + 1, if flush == NoFlush then -1 else |input + nextIn|);
      NothingForgot(log);
      while true
        invariant FullBlocks(old(blocks), blocks, litBufsize - 1) && old(blocks) <= blocks && !full
        invariant FastState() && input + nextIn == old(input + nextIn) && Recorded()
        invariant NoneForgets(old(log), log)
        invariant Ample(log, |old(log)|, MAX_MATCH + 1, if flush == NoFlush then -1 else |old(input + nextIn)|)
        decreases |nextIn| + lookahead
      {
        if lookahead < MAX_MATCH + 1 {
          FillFast();
          if lookahead < MAX_MATCH + 1 && flush == NoFlush {
            MakeDrained(this, old(blocks), flush, MAX_MATCH);
            return NeedMore, false;
          }
          if lookahead == 0 {
            break;
          }
        }
        FastMeans(this);
        ValidMeans(this);
        ghost var was := blocks;
        AmpleNow(this, old(log), MAX_MATCH + 1, if flush == NoFlush then -1 else |old(input + nextIn)|);
        full := RleNext();
        BlocksOn(old(blocks), was, blocks, litBufsize - 1, full);
        if full {
          MakeStalled(this, old(blocks), flush);
          return NeedMore, true;
        }
      }
      FastMeans(this);
      WaysAre(this);
      SizesOfState(this);
      FullNotEmpty(old(blocks), blocks, litBufsize - 1);
      AmpleNow(this, old(log), MAX_MATCH + 1, |old(input + nextIn)|);
      st, full := EndBlock(flush, old(blocks));
    }

    // ----- deflate_huff ----------------------------------------------------------------------------------

    /** One byte of deflate_huff. */
    method HuffStep() returns (full: bool)
      requires FastState() && unhashed && lookahead > 0 && base + strstart < |input|
      modifies this`strstart, this`lookahead, this`matchLength
      modifies this`lastLit, this`blocks, this`blockStart, dBuf, lBuf
      ensures FastState() && strstart > old(strstart) && strstart + lookahead == old(strstart + lookahead)
      ensures OneBlockOn(old(blocks), blocks, litBufsize - 1, full)
      ensures AllTokens() == old(AllTokens()) + [Literal(input[old(base + strstart)])]
      ensures Place() == old(Place()).(pos := old(base + strstart) + 1)
    {
      hide *;
      Constants();
      FastMeans(this);
      ValidMeans(this);
      ghost var st, told := Place(), AllTokens();
      SpotIs(this);
      SizesMean(this);
      matchLength := 0;
      full := PutRun(strstart - insert, strstart + lookahead);
      SpotIs(this);
      FastMeans(this);
      RunPutMeans(this, told, st.pos - base, 0);
    }

    /** ... and is recorded. */
    method HuffNext() returns (full: bool)
      requires FastState() && strategy == HuffmanOnly && !slow && lookahead > 0 && Recorded()
      modifies this`strstart, this`lookahead, this`matchLength
      modifies this`lastLit, this`blocks, this`blockStart, this`log, dBuf, lBuf
      ensures FastState() && strstart > old(strstart) && strstart + lookahead == old(strstart + lookahead)
      ensures OneBlockOn(old(blocks), blocks, litBufsize - 1, full)
      ensures Recorded() && log == old(log + [Now()])
    {
      hide *;
      FastMeans(this);
      SizesMean(this);
      StepReady(this);
      WaysAre(this);
      ghost var m, told := Now(), AllTokens();
      MadeIs(Ways(), input, m);
      full := HuffStep();
      log := log + [m];
      FastMeans(this);
      SizesMean(this);
      StepReadyAfter(this);
      StepRecorded(this, old(log), m, told);
    }

    /** deflate_huff: no matches at all. */
    method DeflateHuff(flush: Flush) returns (st: BlockState, full: bool)
      requires FastState() && strategy == HuffmanOnly && !slow && Recorded()
      modifies this`nextIn, this`input, this`strstart, this`lookahead, this`insert, this`insH, this`highWater
      modifies this`matchStart, this`matchLength, this`prevLength, this`prevMatch, this`matchAvailable
      modifies this`blockStart, this`base, this`known, this`lastLit, this`blocks, this`log
      modifies window, head, prev, dBuf, lBuf
      ensures FastState() && input + nextIn == old(input + nextIn)
      ensures st != NeedMore ==> Settled() && lastLit == 0 && blockStart == strstart
      ensures st == FinishDone || st == FinishStarted ==> flush == Finish
      ensures st == BlockDone ==> flush != Finish && flush != NoFlush && NoneEmpty(old(blocks), blocks)
      ensures old(blocks) <= blocks && (flush == Finish && !full ==> st == FinishDone)
      ensures st == NeedMore ==>
                if full then Stalled(old(blocks), flush) else Drained(old(blocks), flush, 0)
      ensures Recorded() && NoneForgets(old(log), log)
      ensures Ample(log, |old(log)|, 1, if flush == NoFlush then -1 else |old(input + nextIn)|)
    {
      hide *;
      Constants();
      full := false;
      SameBlocks(blocks, litBufsize - 1);
      NoneYet(log, 1, if flush == NoFlush then -1 else |input + nextIn|);
      NothingForgot(log);
      while true
        invariant FullBlocks(old(blocks), blocks, litBufsize - 1) && old(blocks) <= blocks && !full
        invariant FastState() && input + nextIn == old(input + nextIn) && Recorded()
        invariant NoneForgets(old(log), log)
        invariant Ample(log, |old(log)|, 1, if flush == NoFlush then -1 else |old(input + nextIn)|)
        decreases |nextIn| + lookahead
      {
        if lookahead < 1 {
          FillFast();
          if lookahead < 1 && flush == NoFlush {
            MakeDrained(this, old(blocks), flush, 0);
            return NeedMore, false;
          }
          if lookahead == 0 {
            break;
          }
        }
        FastMeans(this);
        ValidMeans(this);
        ghost var was := blocks;
        AmpleNow(this, old(log), 1, if flush == NoFlush then -1 else |old(input + nextIn)|);
        full := HuffNext();
        BlocksOn(old(blocks), was, blocks, litBufsize - 1, full);
        if full {
          MakeStalled(this, old(blocks), flush);
          return NeedMore, true;
        }
      }
      FastMeans(this);
      WaysAre(this);
      SizesOfState(this);
      FullNotEmpty(old(blocks), blocks, litBufsize - 1);
      AmpleNow(this, old(log), 1, |old(input + nextIn)|);
      st, full := EndBlock(flush, old(blocks));
    }

    method LeaveNone()
      requires Valid() && lookahead == 0
      modifies this`insert
      ensures Valid() && insert == 0
    {
      hide *;
      Constants();
      ValidMeans(this);
      LastTwoLeft(this, strstart - insert, strstart);
      insert := 0;
      MakeValid(this);
    }

    // ----- deflate_slow ----------------------------------------------------------------------------------

    /** The byte before `strstart` is not told yet if a match may start there. */
    ghost predicate SlowState()
      reads this`known, this`input, this`base, this`insH, this`strstart, this`lookahead, this`insert
      reads this`blocks, this`lastLit, this`blockStart, this`matchStart, this`matchLength, this`prevLength
      reads this`matchAvailable, window, head, prev, dBuf, lBuf
    {
      && Valid() && lastLit + 1 < litBufsize && matchStart < TWO_TO_THE_32
      && MIN_MATCH - 1 <= matchLength <= MAX_MATCH
      && (matchAvailable ==> strstart > 0)
      && Told(if matchAvailable then base + strstart - 1 else base + strstart)
      && (matchLength >= MIN_MATCH ==>
          matchAvailable && matchLength - 1 <= lookahead && Pending(strstart - 1, matchStart, matchLength))
    }

    /** The lazy evaluation: looks for a match better than the one a byte before. */
    method LazySearch(hashHead: nat)
      requires PastString() && SlowSearch(hashHead)
      requires base + strstart < |input| == base + strstart + lookahead && Ways().chain >= 4
      modifies this`matchStart, this`matchLength
      ensures var f := if lookahead >= MIN_MATCH && prevLength < maxLazy
                       then MatchAt(Ways(), input, known, base, base + strstart, prevLength)
                       else Longest(prevLength, 0);
              && (matchLength > prevLength <==> f.len > prevLength && !Poor(Ways(), f, base + strstart))
              && (matchLength > prevLength ==>
                    f.len == matchLength && f.start == base + matchStart && matchStart < strstart)
      ensures PastString() && matchStart < TWO_TO_THE_32 && MIN_MATCH - 1 <= matchLength <= MAX_MATCH
      ensures matchLength > prevLength ==> matchLength <= lookahead && Pending(strstart, matchStart, matchLength)
      ensures prevLength < MIN_MATCH <= matchLength ==> matchLength > prevLength
    {
      hide *;
      Constants();
      SlowSearchMeans(this, hashHead);
      PastMeans(this);
      SizesMean(this);
      WaysAre(this);
      if lookahead >= MIN_MATCH {
        NoneFound(this, hashHead, prevLength);
      }
      matchLength := MIN_MATCH - 1;
      if hashHead != 0 && prevLength < maxLazy && strstart - hashHead <= MaxDist() {
        Search(hashHead);
        MinIs(prevLength, lookahead);
        MinusIs(strstart, matchStart);
        PoorIs(this, MatchAt(Ways(), input, known, base, base + strstart, prevLength), base + strstart);
        if matchLength <= 5
           && (strategy == Filtered || (matchLength == MIN_MATCH && Minus(strstart, matchStart) > TOO_FAR)) {
          matchLength := MIN_MATCH - 1;
        }
      }
    }

    ghost predicate SlowSearch(hashHead: nat)
      reads this`known, this`base, this`strstart, this`lookahead, this`insert, this`prevLength, this`matchStart
      reads window, head, prev
    {
      && hashHead <= strstart && matchStart < TWO_TO_THE_32
      && MIN_MATCH - 1 <= prevLength <= MAX_MATCH
      && (lookahead >= MIN_MATCH ==> IsHead(hashHead))
      && (hashHead != 0 ==>
          && lookahead >= MIN_MATCH && insert == 0
          && (strstart - hashHead < wsize ==> Candidate(Ix(), strstart, hashHead)))
    }

    /** Goes on to the next string of a match and enters it, if that is not beyond `maxInsert`. */
    method NextString(maxInsert: int, ghost end: nat)
      requires insert <= 2 && insert <= strstart && Core(strstart + 1 - insert, end) && maxInsert == end - MIN_MATCH
      requires strstart + MIN_MATCH < end ==> insert == 0 && Rolled(strstart + 1)
      modifies this`insH, this`known, this`strstart, head, prev
      ensures strstart == old(strstart) + 1 && Core(strstart + 1 - insert, end)
      ensures known == old(known) + Whole(base + strstart, base + strstart + 1, base + end)
      ensures strstart + MIN_MATCH < end ==> insert == 0 && Rolled(strstart + 1)
    {
      hide *;
      Constants();
      strstart := strstart + 1;
      CompleteIs(base + strstart, base + end);
      OneWhole(base + strstart, base + end);
      if strstart <= maxInsert {
        var _ := InsertString(strstart, strstart, end);
      } else {
        NotEntered(this, strstart - insert, end);
      }
    }

    /** Moves past the match that started a byte before, entering its strings up to the last
        two bytes of the data. */
    method PassPrevious()
      requires PastString() && MIN_MATCH <= prevLength <= MAX_MATCH && prevLength - 1 <= lookahead
      modifies this`insH, this`known, this`strstart, this`lookahead, this`prevLength, head, prev
      ensures Valid() && strstart == old(strstart) + old(prevLength) - 1
      ensures strstart + lookahead == old(strstart + lookahead)
      ensures known == old(known) + Whole(base + old(strstart) + 1, base + strstart, base + strstart + lookahead)
    {
      hide *;
      Constants();
      PastMeans(this);
      ghost var from, all := base + strstart + 1, base + strstart + lookahead;
      NoneWhole(from, all);
      ghost var end, stop: nat := strstart + lookahead, strstart + prevLength - 2;
      var maxInsert := strstart + lookahead - MIN_MATCH;
      lookahead := lookahead - (prevLength - 1);
      prevLength := prevLength - 2;
      while true
        invariant insert <= 2 && insert <= strstart && Core(strstart + 1 - insert, end)
        invariant strstart + MIN_MATCH < end ==> insert == 0 && Rolled(strstart + 1)
        invariant prevLength >= 1 && strstart + prevLength == stop && stop + 1 + lookahead == end
        invariant from <= base + strstart + 1 && known == old(known) + Whole(from, base + strstart + 1, all)
        decreases prevLength
      {
        NextString(maxInsert, end);
        WholeStep(from, base + strstart, all);
        prevLength := prevLength - 1;
        if prevLength == 0 {
          break;
        }
      }
      strstart := strstart + 1;
      MakeValid(this);
    }

    /** Puts out the match that started a byte before, and moves past it. */
    method EmitPrevious() returns (bflush: bool)
      requires PastString() && MIN_MATCH <= prevLength <= MAX_MATCH && prevLength - 1 <= lookahead
      requires strstart > 0 && Told(base + strstart - 1) && lastLit + 1 < litBufsize
      requires Pending(strstart - 1, prevMatch, prevLength)
      modifies this`insH, this`known, this`strstart, this`lookahead, this`prevLength, this`lastLit
      modifies head, prev, dBuf, lBuf
      ensures Valid() && Told(base + strstart) && (bflush <==> lastLit == litBufsize - 1)
      ensures strstart == old(strstart) + old(prevLength) - 1 && strstart + lookahead == old(strstart + lookahead)
      ensures lastLit == old(lastLit) + 1 && strstart > old(strstart)
      ensures AllTokens() == old(AllTokens()) + [Match(old(prevLength), Minus(old(strstart) - 1, prevMatch))]
      ensures known == old(known) + Whole(base + old(strstart) + 1, base + strstart, base + strstart + lookahead)
    {
      hide *;
      Constants();
      PastMeans(this);
      SizesMean(this);
      PendingMeans(this, strstart - 1, prevMatch, prevLength);
      bflush := EmitMatch(strstart - 1, Minus(strstart - 1, prevMatch), prevLength,
                          strstart + 1 - insert, strstart + lookahead);
      PassPrevious();
    }

    /** ... and the block if it is complete. */
    method TakePrevious() returns (full: bool)
      requires PastString() && MIN_MATCH <= prevLength <= MAX_MATCH && prevLength - 1 <= lookahead
      requires strstart > 0 && Told(base + strstart - 1) && lastLit + 1 < litBufsize
      requires Pending(strstart - 1, prevMatch, prevLength) && matchStart < TWO_TO_THE_32
      modifies this`insH, this`known, this`strstart, this`lookahead, this`prevLength, this`matchAvailable
      modifies this`matchLength, this`lastLit, this`blocks, this`blockStart, head, prev, dBuf, lBuf
      ensures SlowState() && !matchAvailable
      ensures strstart == old(strstart) + old(prevLength) - 1 > old(strstart)
      ensures strstart + lookahead == old(strstart + lookahead)
      ensures OneBlockOn(old(blocks), blocks, litBufsize - 1, full)
      ensures AllTokens() == old(AllTokens()) + [Match(old(prevLength), Minus(old(strstart) - 1, prevMatch))]
      ensures known == old(known) + Whole(base + old(strstart) + 1, base + strstart, base + strstart + lookahead)
    {
      hide *;
      Constants();
      PastMeans(this);
      SizesMean(this);
      var bflush := EmitPrevious();
      ToldMeans(this, base + strstart);
      matchAvailable := false;
      matchLength := MIN_MATCH - 1;
      full := false;
      SameBlocks(blocks, litBufsize - 1);
      if bflush {
        full := FlushBlock();
      }
      MakeSlow(this);
    }

    /** Puts out the byte before as it is. */
    method EmitWaiting(ghost next: nat, ghost end: nat) returns (full: bool)
      requires Core(next, end) && 0 < strstart <= end && Told(base + strstart - 1) && lastLit + 1 < litBufsize
      modifies this`lastLit, this`blocks, this`blockStart, dBuf, lBuf
      ensures Core(next, end) && Told(base + strstart) && lastLit + 1 < litBufsize
      ensures OneBlockOn(old(blocks), blocks, litBufsize - 1, full)
      ensures base + strstart - 1 < |input|
      ensures AllTokens() == old(AllTokens()) + [Literal(input[base + strstart - 1])]
    {
      hide *;
      CoreMeans(this, next, end);
      SizesMean(this);
      full := false;
      SameBlocks(blocks, litBufsize - 1);
      var bflush := EmitLiteral(strstart - 1, next, end);
      ToldMeans(this, base + strstart);
      if bflush {
        full := FlushBlock();
      }
    }

    /** No match was put out: the byte before goes out as it is, if it is still there, and
        this one waits.  There was room in the output before, so that it is full only if a block
        was handed on. */
    method PassByte() returns (full: bool)
      requires PastString() && matchStart < TWO_TO_THE_32 && MIN_MATCH - 1 <= matchLength <= MAX_MATCH
      requires matchLength >= MIN_MATCH ==> matchLength <= lookahead && Pending(strstart, matchStart, matchLength)
      requires lastLit + 1 < litBufsize && (matchAvailable ==> strstart > 0)
      requires Told(if matchAvailable then base + strstart - 1 else base + strstart)
      modifies this`strstart, this`lookahead, this`matchAvailable
      modifies this`lastLit, this`blocks, this`blockStart, dBuf, lBuf
      ensures SlowState() && strstart == old(strstart) + 1 && strstart + lookahead == old(strstart + lookahead)
      ensures OneBlockOn(old(blocks), blocks, litBufsize - 1, full)
      ensures matchAvailable && (old(matchAvailable) ==> 0 < base + old(strstart) <= |input|)
      ensures AllTokens() == old(AllTokens())
                             + if old(matchAvailable) then [Literal(input[base + old(strstart) - 1])] else []
    {
      hide *;
      Constants();
      PastMeans(this);
      SizesMean(this);
      ToldMeans(this, if matchAvailable then base + strstart - 1 else base + strstart);
      ghost var told := AllTokens();
      assert told + [] == told;
      full := false;
      SameBlocks(blocks, litBufsize - 1);
      if matchAvailable {
        full := EmitWaiting(strstart + 1 - insert, strstart + lookahead);
      } else {
        matchAvailable := true;
      }
      strstart := strstart + 1;
      lookahead := lookahead - 1;
      MakeValid(this);
      MakeSlow(this);
    }

    /** Enters the string at `strstart` and looks for a match better than the one held back. */
    method LookAgain()
      requires AtString() && matchStart < TWO_TO_THE_32 && MIN_MATCH - 1 <= prevLength <= MAX_MATCH
      requires base + strstart < |input| == base + strstart + lookahead && Ways().chain >= 4
      modifies this`insH, this`known, this`matchStart, this`matchLength, head, prev
      ensures PastString() && matchStart < TWO_TO_THE_32 && MIN_MATCH - 1 <= matchLength <= MAX_MATCH
      ensures known == old(known) + Whole(base + strstart, base + strstart + 1, |input|)
      ensures matchLength > prevLength ==> matchLength <= lookahead && Pending(strstart, matchStart, matchLength)
      ensures prevLength < MIN_MATCH <= matchLength ==> matchLength > prevLength
      ensures var f := if lookahead >= MIN_MATCH && prevLength < maxLazy
                       then MatchAt(Ways(), input, known, base, base + strstart, prevLength)
                       else Longest(prevLength, 0);
              && (matchLength > prevLength <==> f.len > prevLength && !Poor(Ways(), f, base + strstart))
              && (matchLength > prevLength ==>
                    f.len == matchLength && f.start == base + matchStart && matchStart < strstart)
    {
      hide *;
      AtStringMeans(this);
      var hashHead := EnterString();
      MakeSlowSearch(this, hashHead);
      LazySearch(hashHead);
    }

    /** What is held back is `st.held`, and the match found now, if it is better, is `f`. */
    ghost predicate Weighing(st: Stand, f: Longest)
      reads this`base, this`strstart, this`insert, this`matchAvailable, this`prevLength, this`prevMatch
      reads this`matchLength, this`matchStart
    {
      && st.pos == base + strstart && st.left == insert && (st.held == NoneHeld <==> !matchAvailable)
      && (prevLength < MIN_MATCH ==> !st.held.AMatch?)
      && (prevLength >= MIN_MATCH ==>
            && 0 < strstart <= TWO_TO_THE_32 && prevMatch < TWO_TO_THE_32
            && st.held == AMatch(prevLength, Minus(strstart - 1, prevMatch)))
      && (matchLength > prevLength ==>
            f.len == matchLength && f.start == base + matchStart && matchStart < strstart)
    }

    /** Puts out the match held back, unless the new one is longer; otherwise the byte held back. */
    method Decide(ghost st: Stand, ghost f: Longest) returns (full: bool)
      requires PastString() && matchStart < TWO_TO_THE_32 && MIN_MATCH - 1 <= matchLength <= MAX_MATCH
      requires lastLit + 1 < litBufsize && (matchAvailable ==> strstart > 0)
      requires Told(if matchAvailable then base + strstart - 1 else base + strstart)
      requires MIN_MATCH - 1 <= prevLength <= MAX_MATCH
      requires prevLength >= MIN_MATCH ==>
                 matchAvailable && prevLength - 1 <= lookahead && Pending(strstart - 1, prevMatch, prevLength)
      requires matchLength > prevLength ==> matchLength <= lookahead && Pending(strstart, matchStart, matchLength)
      requires |input| == base + strstart + lookahead && Weighing(st, f)
      modifies this`insH, this`known, this`strstart, this`lookahead, this`matchLength
      modifies this`prevLength, this`matchAvailable
      modifies this`lastLit, this`blocks, this`blockStart, head, prev, dBuf, lBuf
      ensures SlowState() && strstart > old(strstart) && strstart + lookahead == old(strstart + lookahead)
      ensures OneBlockOn(old(blocks), blocks, litBufsize - 1, full)
      ensures Decided(input, st, old(prevLength), old(known), f, old(matchLength) > old(prevLength),
                      old(AllTokens()), AllTokens(), Standing())
    {
      hide *;
      Constants();
      PastMeans(this);
      SizesMean(this);
      ToldMeans(this, if matchAvailable then base + strstart - 1 else base + strstart);
      ghost var told, known1, len, better := AllTokens(), known, prevLength, matchLength > prevLength;
      WeighingMeans(this, st, f);
      MinusIs(strstart, matchStart);
      if prevLength >= MIN_MATCH && matchLength <= prevLength {
        full := TakePrevious();
      } else {
        full := PassByte();
      }
      SlowMeans(this);
      StandingIs(this);
      MakeDecided(input, st, len, known1, f, better, told, AllTokens(), Standing());
    }

    /** Holds back what was found a byte before, and looks for something better. */
    method TryAgain() returns (ghost f: Longest)
      requires SlowState() && AtString() && base + strstart < |input| && Ways().chain >= 4
      modifies this`insH, this`known, this`matchStart, this`matchLength, this`prevLength, this`prevMatch, head, prev
      ensures PastString() && matchStart < TWO_TO_THE_32 && MIN_MATCH - 1 <= matchLength <= MAX_MATCH
      ensures lastLit + 1 < litBufsize && (matchAvailable ==> strstart > 0)
      ensures Told(if matchAvailable then base + strstart - 1 else base + strstart)
      ensures MIN_MATCH - 1 <= prevLength <= MAX_MATCH
      ensures prevLength >= MIN_MATCH ==>
                matchAvailable && prevLength - 1 <= lookahead && Pending(strstart - 1, prevMatch, prevLength)
      ensures |input| == base + strstart + lookahead
      ensures matchLength > prevLength ==> matchLength <= lookahead && Pending(strstart, matchStart, matchLength)
      ensures Weighing(old(Standing()), f)
      ensures Weighed(Ways(), input, base, old(Standing()), prevLength, known, f, matchLength > prevLength)
    {
      hide *;
      Constants();
      SlowMeans(this);
      SizesMean(this);
      AtStringMeans(this);
      InputLength(this);
      WaysAre(this);
      StandingIs(this);
      ghost var st := Standing();
      PendingHeld(this);
      prevLength, prevMatch := matchLength, matchStart;
      LookAgain();
      f := if lookahead >= MIN_MATCH && prevLength < maxLazy
           then MatchAt(Ways(), input, known, base, base + strstart, prevLength) else Longest(prevLength, 0);
      MakeWeighing(this, st, f);
      MakeWeighed(Ways(), input, base, st, prevLength, known, f, matchLength > prevLength);
    }

    /** One string of deflate_slow: what is told, and where it leads, is what the rules say. */
    method SlowStep() returns (full: bool)
      requires SlowState() && AtString() && slow && base + strstart < |input| && Ways().chain >= 4
      modifies this`insH, this`known, this`strstart, this`lookahead, this`matchLength, this`matchStart
      modifies this`prevLength, this`prevMatch, this`matchAvailable
      modifies this`lastLit, this`blocks, this`blockStart, head, prev, dBuf, lBuf
      ensures SlowState() && strstart > old(strstart) && strstart + lookahead == old(strstart + lookahead)
      ensures OneBlockOn(old(blocks), blocks, litBufsize - 1, full)
      ensures 0 < old(Standing()).pos || old(Standing()).held == NoneHeld
      ensures var d := LazyStep(Ways(), input, base, old(Standing()));
              AllTokens() == old(AllTokens()) + d.told && Standing() == d.to
    {
      hide *;
      SlowMeans(this);
      SizesMean(this);
      ghost var st, told := Standing(), AllTokens();
      ghost var f := TryAgain();
      ghost var len, known1, better := prevLength, known, matchLength > prevLength;
      full := Decide(st, f);
      SlowMeans(this);
      LazyDone(Ways(), input, base, st, len, known1, f, better, told, AllTokens(), Standing());
    }

    /** ... and is recorded. */
    method SlowNext() returns (full: bool)
      requires SlowState() && AtString() && slow && Recorded()
      modifies this`insH, this`known, this`strstart, this`lookahead, this`matchLength, this`matchStart
      modifies this`prevLength, this`prevMatch, this`matchAvailable
      modifies this`lastLit, this`blocks, this`blockStart, this`log, head, prev, dBuf, lBuf
      ensures SlowState() && strstart > old(strstart) && strstart + lookahead == old(strstart + lookahead)
      ensures OneBlockOn(old(blocks), blocks, litBufsize - 1, full)
      ensures Recorded() && log == old(log + [Now()])
    {
      hide *;
      SlowMeans(this);
      SizesMean(this);
      AtStringMeans(this);
      StepReady(this);
      WaysAre(this);
      ghost var m, told := Now(), AllTokens();
      MadeIs(Ways(), input, m);
      full := SlowStep();
      log := log + [m];
      SlowMeans(this);
      SizesMean(this);
      StepReadyAfter(this);
      StepRecorded(this, old(log), m, told);
    }

    // ----- The two compressors -------------------------------------------------------------------------------

    /** fill_window leaves what was told. */
    method FillTold(ghost n: nat) returns (ghost slid: nat)
      requires Valid() && lookahead < MIN_LOOKAHEAD && matchStart < TWO_TO_THE_32 && Told(n)
      modifies this`nextIn, this`input, this`strstart, this`lookahead, this`insert, this`insH, this`highWater
      modifies this`matchStart, this`blockStart, this`base, this`known, window, head, prev
      ensures Valid() && matchStart < TWO_TO_THE_32 && Told(n)
      ensures |input| == base + strstart + lookahead && Place() == Filled(old(Place()), |input|)
      ensures slid == 0 || (slid == wsize && wsize < TWO_TO_THE_32 && old(strstart) >= wsize + MaxDist())
      ensures base == old(base) + slid && strstart == old(strstart) - slid
      ensures matchStart == if slid == 0 then old(matchStart) else Minus(old(matchStart), wsize)
      ensures strstart + MIN_LOOKAHEAD <= window.Length
      ensures lookahead >= MIN_LOOKAHEAD || nextIn == []
      ensures input + nextIn == old(input + nextIn) && old(input) <= input && lookahead >= old(lookahead)
      ensures |nextIn| + lookahead == old(|nextIn| + lookahead)
    {
      hide *;
      ValidMeans(this);
      SizesMean(this);
      ToldMeans(this, n);
      InputLength(this);
      ghost var was := input;
      slid := FillWindow();
      PrefixStays(was, input, n);
      PrefixStays(was, input, base + blockStart);
      MakeTold(this, n);
      InputLength(this);
    }

    /** fill_window between two strings of deflate_fast. */
    method FillFast()
      requires FastState() && lookahead < MIN_LOOKAHEAD && Recorded()
      modifies this`nextIn, this`input, this`strstart, this`lookahead, this`insert, this`insH, this`highWater
      modifies this`matchStart, this`blockStart, this`base, this`known, window, head, prev
      ensures FastState() && strstart + MIN_LOOKAHEAD <= window.Length && Recorded()
      ensures lookahead >= MIN_LOOKAHEAD || nextIn == []
      ensures input + nextIn == old(input + nextIn) && base + strstart == old(base + strstart)
      ensures |nextIn| + lookahead == old(|nextIn| + lookahead)
    {
      hide *;
      FastMeans(this);
      SizesMean(this);
      InputLength(this);
      ghost var was, now := input, Now();
      NowIs(this);
      StandingIs(this);
      RecordedMeans(this);
      ghost var _ := FillTold(base + strstart);
      ToldMeans(this, base + strstart);
      MakeFast(this);
      StandingIs(this);
      StillRecorded(this, was, now);
    }

    ghost predicate Settled()
      reads this`known, this`input, this`base, this`insH, this`strstart, this`lookahead, this`insert
      reads this`blocks, this`lastLit, this`blockStart, this`nextIn, window, head, prev, dBuf, lBuf
    {
      Valid() && lookahead == 0 && nextIn == [] && Told(base + strstart)
    }

    /** deflate_fast: compresses what input there is, and leaves the last bytes for later unless
        told to flush. */
    method DeflateFast(flush: Flush) returns (st: BlockState, full: bool)
      requires FastState() && !unhashed && !slow && Recorded()
      modifies this`nextIn, this`input, this`strstart, this`lookahead, this`insert, this`insH, this`highWater
      modifies this`matchStart, this`matchLength, this`prevLength, this`prevMatch, this`matchAvailable
      modifies this`blockStart, this`base, this`known, this`lastLit, this`blocks, this`log
      modifies window, head, prev, dBuf, lBuf
      ensures FastState() && input + nextIn == old(input + nextIn)
      ensures st != NeedMore ==> Settled() && lastLit == 0 && blockStart == strstart
      ensures st == FinishDone || st == FinishStarted ==> flush == Finish
      ensures st == BlockDone ==> flush != Finish && flush != NoFlush && NoneEmpty(old(blocks), blocks)
      ensures old(blocks) <= blocks && (flush == Finish && !full ==> st == FinishDone)
      ensures st == NeedMore ==>
                if full then Stalled(old(blocks), flush) else Drained(old(blocks), flush, MIN_LOOKAHEAD - 1)
      ensures Recorded() && NoneForgets(old(log), log)
      ensures Ample(log, |old(log)|, MIN_LOOKAHEAD, if flush == NoFlush then -1 else |old(input + nextIn)|)
    {
      hide *;
      Constants();
      full := false;
      SameBlocks(blocks, litBufsize - 1);
      NoneYet(log, MIN_LOOKAHEAD, if flush == NoFlush then -1 else |input + nextIn|);
      NothingForgot(log);
      while true
        invariant FullBlocks(old(blocks), blocks, litBufsize - 1) && old(blocks) <= blocks && !full
        invariant FastState() && input + nextIn == old(input + nextIn) && Recorded()
        invariant NoneForgets(old(log), log)
        invariant Ample(log, |old(log)|, MIN_LOOKAHEAD, if flush == NoFlush then -1 else |old(input + nextIn)|)
        decreases |nextIn| + lookahead
      {
        if lookahead < MIN_LOOKAHEAD {
          FillFast();
          if lookahead < MIN_LOOKAHEAD && flush == NoFlush {
            MakeDrained(this, old(blocks), flush, MIN_LOOKAHEAD - 1);
            return NeedMore, false;
          }
          if lookahead == 0 {
            break;
          }
        }
        FastMeans(this);
        MakeAtString(this);
        ghost var was := blocks;
        AmpleNow(this, old(log), MIN_LOOKAHEAD, if flush == NoFlush then -1 else |old(input + nextIn)|);
        full := FastNext();
        BlocksOn(old(blocks), was, blocks, litBufsize - 1, full);
        if full {
          MakeStalled(this, old(blocks), flush);
          return NeedMore, true;
        }
      }
      FastMeans(this);
      SizesOfState(this);
      FullNotEmpty(old(blocks), blocks, litBufsize - 1);
      AmpleNow(this, old(log), MIN_LOOKAHEAD, |old(input + nextIn)|);
      st, full := EndFast(flush, old(blocks));
    }

    /** The last strings, too short to have been entered, are left for when there is more. */
    method LeaveRest()
      requires Valid() && lookahead == 0
      modifies this`insert
      ensures Valid() && insert == Min(strstart, 2)
    {
      hide *;
      Constants();
      ValidMeans(this);
      MinIs(strstart, 2);
      LastTwoLeft(this, strstart - insert, strstart);
      insert := if strstart < MIN_MATCH - 1 then strstart else MIN_MATCH - 1;
      MakeValid(this);
    }

    /** fill_window between two strings of deflate_slow: a match waiting to be put out stays
        one, though its start may have moved to one place before the window. */
    method FillSlow()
      requires SlowState() && lookahead < MIN_LOOKAHEAD && Recorded()
      modifies this`nextIn, this`input, this`strstart, this`lookahead, this`insert, this`insH, this`highWater
      modifies this`matchStart, this`blockStart, this`base, this`known, window, head, prev
      ensures SlowState() && strstart + MIN_LOOKAHEAD <= window.Length && Recorded()
      ensures lookahead >= MIN_LOOKAHEAD || nextIn == []
      ensures input + nextIn == old(input + nextIn) && base + strstart == old(base + strstart)
      ensures |nextIn| + lookahead == old(|nextIn| + lookahead)
    {
      hide *;
      SlowMeans(this);
      SizesMean(this);
      ghost var was, now := input, Now();
      NowIs(this);
      StandingIs(this);
      InputLength(this);
      RecordedMeans(this);
      FillHolding();
      SlowMeans(this);
      StandingIs(this);
      StillRecorded(this, was, now);
    }

    /** What fill_window leaves as it is. */
    method FillHolding()
      requires SlowState() && lookahead < MIN_LOOKAHEAD
      modifies this`nextIn, this`input, this`strstart, this`lookahead, this`insert, this`insH, this`highWater
      modifies this`matchStart, this`blockStart, this`base, this`known, window, head, prev
      ensures SlowState() && strstart + MIN_LOOKAHEAD <= window.Length
      ensures lookahead >= MIN_LOOKAHEAD || nextIn == []
      ensures input + nextIn == old(input + nextIn) && base + strstart == old(base + strstart)
      ensures |nextIn| + lookahead == old(|nextIn| + lookahead) && old(input) <= input
      ensures |input| == base + strstart + lookahead && old(base) <= base
      ensures Place() == Filled(old(Place()), |input|) && HeldNow() == old(HeldNow())
      ensures base == old(base) || MaxDist() <= strstart
    {
      hide *;
      Constants();
      SlowMeans(this);
      SizesMean(this);
      ghost var n := if matchAvailable then base + strstart - 1 else base + strstart;
      PendingHeld(this);
      StandingIs(this);
      ghost var was, base0, at0, start0 := input, base, strstart - 1, matchStart;
      if matchLength >= MIN_MATCH {
        PendingIs(this, strstart - 1, matchStart, matchLength);
      }
      ghost var slid := FillTold(n);
      FilledEnough(this, slid, at0 + 1);
      if matchLength >= MIN_MATCH {
        PendingSlid(this, was, base0, at0, start0, slid);
      }
      MakeSlow(this);
      PendingHeld(this);
      StandingIs(this);
    }

    /** deflate_slow: the same with lazy evaluation. */
    method DeflateSlow(flush: Flush) returns (st: BlockState, full: bool)
      requires SlowState() && !unhashed && slow && Recorded()
      modifies this`nextIn, this`input, this`strstart, this`lookahead, this`insert, this`insH, this`highWater
      modifies this`matchStart, this`matchLength, this`prevLength, this`prevMatch, this`matchAvailable
      modifies this`blockStart, this`base, this`known, this`lastLit, this`blocks, this`log
      modifies window, head, prev, dBuf, lBuf
      ensures SlowState() && input + nextIn == old(input + nextIn)
      ensures st != NeedMore ==> Settled() && !matchAvailable && lastLit == 0 && blockStart == strstart
      ensures st == FinishDone || st == FinishStarted ==> flush == Finish
      ensures st == BlockDone ==> flush != Finish && flush != NoFlush && NoneEmpty(old(blocks), blocks)
      ensures old(blocks) <= blocks && (flush == Finish && !full ==> st == FinishDone)
      ensures st == NeedMore ==>
                if full then Stalled(old(blocks), flush) else Drained(old(blocks), flush, MIN_LOOKAHEAD - 1)
      ensures Recorded() && NoneForgets(old(log), log)
      ensures Ample(log, |old(log)|, MIN_LOOKAHEAD, if flush == NoFlush then -1 else |old(input + nextIn)|)
    {
      hide *;
      Constants();
      full := false;
      SameBlocks(blocks, litBufsize - 1);
      NoneYet(log, MIN_LOOKAHEAD, if flush == NoFlush then -1 else |input + nextIn|);
      NothingForgot(log);
      while true
        invariant FullBlocks(old(blocks), blocks, litBufsize - 1) && old(blocks) <= blocks && !full
        invariant SlowState() && input + nextIn == old(input + nextIn) && Recorded()
        invariant NoneForgets(old(log), log)
        invariant Ample(log, |old(log)|, MIN_LOOKAHEAD, if flush == NoFlush then -1 else |old(input + nextIn)|)
        decreases |nextIn| + lookahead
      {
        if lookahead < MIN_LOOKAHEAD {
          FillSlow();
          if lookahead < MIN_LOOKAHEAD && flush == NoFlush {
            MakeDrained(this, old(blocks), flush, MIN_LOOKAHEAD - 1);
            return NeedMore, false;
          }
          if lookahead == 0 {
            break;
          }
        }
        SlowMeans(this);
        MakeAtString(this);
        ghost var was := blocks;
        AmpleNow(this, old(log), MIN_LOOKAHEAD, if flush == NoFlush then -1 else |old(input + nextIn)|);
        full := SlowNext();
        BlocksOn(old(blocks), was, blocks, litBufsize - 1, full);
        if full {
          MakeStalled(this, old(blocks), flush);
          return NeedMore, true;
        }
      }
      SlowMeans(this);
      SizesOfState(this);
      FullNotEmpty(old(blocks), blocks, litBufsize - 1);
      AmpleNow(this, old(log), MIN_LOOKAHEAD, |old(input + nextIn)|);
      st, full := EndSlow(flush, old(blocks));
    }

    /** Everything is told, though the token buffer may be full. */
    ghost predicate Rested()
      reads this`known, this`input, this`base, this`insH, this`strstart, this`lookahead, this`insert
      reads this`blocks, this`lastLit, this`blockStart, this`matchStart, this`matchLength, this`prevLength
      reads this`matchAvailable, window, head, prev, dBuf, lBuf
    {
      && Valid() && Told(base + strstart) && matchStart < TWO_TO_THE_32 && !matchAvailable
      && if slow then matchLength == MIN_MATCH - 1 else matchLength < MIN_MATCH && prevLength == MIN_MATCH - 1
    }

    /** All input is told: hands the block in hand on, if there is anything in it. */
    method LastBlock(flush: Flush, ghost was: seq<seq<Item>>) returns (st: BlockState, full: bool)
      requires Rested() && Recorded()
      requires lookahead == 0 && nextIn == [] && flush != NoFlush && NoneEmpty(was, blocks)
      modifies this`lastLit, this`blocks, this`blockStart
      ensures (if slow then SlowState() else FastState()) && Settled() && Recorded()
      ensures st != NeedMore ==> lastLit == 0 && blockStart == strstart
      ensures st == FinishDone || st == FinishStarted ==> flush == Finish
      ensures st == BlockDone ==> flush != Finish && NoneEmpty(was, blocks)
      ensures was <= blocks && (flush == Finish && !full ==> st == FinishDone)
      ensures st == NeedMore ==> full && Stalled(was, flush)
    {
      hide *;
      RestedMeans(this);
      SizesMean(this);
      if flush == Finish || lastLit != 0 {
        HandSize(this);
        NoneEmptyOn(was, blocks, InHand());
        full := FlushBlock();
        MakeState(this);
        MakeSettled(this);
        HandedOn(this, was, flush);
        if full {
          return if flush == Finish then FinishStarted else NeedMore, true;
        }
        return if flush == Finish then FinishDone else BlockDone, false;
      }
      NoTokens(this, base + strstart);
      MakeState(this);
      MakeSettled(this);
      PrefixOf(was, blocks);
      return BlockDone, false;
    }

    /** The end of deflate_fast, once there is no more data. */
    method EndFast(flush: Flush, ghost was: seq<seq<Item>>) returns (st: BlockState, full: bool)
      requires FastState() && lookahead == 0 && nextIn == [] && flush != NoFlush && NoneEmpty(was, blocks)
      requires Recorded() && !slow && !unhashed
      modifies this`insert, this`lastLit, this`blocks, this`blockStart, this`log
      ensures FastState() && Settled()
      ensures st != NeedMore ==> lastLit == 0 && blockStart == strstart
      ensures st == FinishDone || st == FinishStarted ==> flush == Finish
      ensures st == BlockDone ==> flush != Finish && NoneEmpty(was, blocks)
      ensures was <= blocks && (flush == Finish && !full ==> st == FinishDone)
      ensures st == NeedMore ==> full && Stalled(was, flush)
      ensures Recorded() && log == old(log + [Now()])
    {
      hide *;
      RestTwo();
      st, full := LastBlock(flush, was);
    }

    /** The end of deflate_rle and deflate_huff. */
    method EndBlock(flush: Flush, ghost was: seq<seq<Item>>) returns (st: BlockState, full: bool)
      requires FastState() && lookahead == 0 && nextIn == [] && flush != NoFlush && NoneEmpty(was, blocks)
      requires Recorded() && !slow && unhashed
      modifies this`insert, this`lastLit, this`blocks, this`blockStart, this`log
      ensures FastState() && Settled()
      ensures st != NeedMore ==> lastLit == 0 && blockStart == strstart
      ensures st == FinishDone || st == FinishStarted ==> flush == Finish
      ensures st == BlockDone ==> flush != Finish && NoneEmpty(was, blocks)
      ensures was <= blocks && (flush == Finish && !full ==> st == FinishDone)
      ensures st == NeedMore ==> full && Stalled(was, flush)
      ensures Recorded() && log == old(log + [Now()])
    {
      hide *;
      RestNone();
      st, full := LastBlock(flush, was);
    }

    /** The end of deflate_slow, once there is no more data. */
    method EndSlow(flush: Flush, ghost was: seq<seq<Item>>) returns (st: BlockState, full: bool)
      requires SlowState() && lookahead == 0 && nextIn == [] && flush != NoFlush && NoneEmpty(was, blocks)
      requires Recorded() && slow
      modifies this`matchAvailable, this`insert, this`lastLit, this`blocks, this`blockStart, this`log, dBuf, lBuf
      ensures SlowState() && Settled() && !matchAvailable
      ensures st != NeedMore ==> lastLit == 0 && blockStart == strstart
      ensures st == FinishDone || st == FinishStarted ==> flush == Finish
      ensures st == BlockDone ==> flush != Finish && NoneEmpty(was, blocks)
      ensures was <= blocks && (flush == Finish && !full ==> st == FinishDone)
      ensures st == NeedMore ==> full && Stalled(was, flush)
      ensures Recorded() && log == old(log + [Now()])
    {
      hide *;
      TellLast();
      RestedMeans(this);
      st, full := LastBlock(flush, was);
    }

    /** The last two strings are left, which is recorded. */
    method RestTwo()
      requires FastState() && lookahead == 0 && Recorded() && !slow && !unhashed
      modifies this`insert, this`log
      ensures Rested() && Recorded() && log == old(log + [Now()])
    {
      hide *;
      FastMeans(this);
      StepReady(this);
      WaysAre(this);
      ghost var m, told := Now(), AllTokens();
      MadeIs(Ways(), input, m);
      RestIs(Ways(), input, base, m.st);
      LeaveRest();
      log := log + [m];
      MakeRested(this);
      StandingIs(this);
      NothingTold(told);
      StepRecorded(this, old(log), m, told);
    }

    /** No string is left, which is recorded. */
    method RestNone()
      requires FastState() && lookahead == 0 && Recorded() && !slow && unhashed
      modifies this`insert, this`log
      ensures Rested() && Recorded() && log == old(log + [Now()])
    {
      hide *;
      FastMeans(this);
      StepReady(this);
      WaysAre(this);
      ghost var m, told := Now(), AllTokens();
      MadeIs(Ways(), input, m);
      RestIs(Ways(), input, base, m.st);
      LeaveNone();
      log := log + [m];
      MakeRested(this);
      StandingIs(this);
      NothingTold(told);
      StepRecorded(this, old(log), m, told);
    }

    /** The byte held back is told. */
    method TellHeld()
      requires SlowState() && lookahead == 0
      modifies this`matchAvailable, this`lastLit, dBuf, lBuf
      ensures Valid() && Told(base + strstart) && !matchAvailable && matchLength == MIN_MATCH - 1
      ensures old(HeldNow()) == NoneHeld || 0 < base + strstart <= |input|
      ensures AllTokens() == old(AllTokens())
                             + if old(HeldNow()) == NoneHeld then [] else [Literal(input[base + strstart - 1])]
    {
      hide *;
      Constants();
      SlowMeans(this);
      SizesMean(this);
      ValidMeans(this);
      StandingIs(this);
      ghost var told := AllTokens();
      NothingTold(told);
      if matchAvailable {
        var _ := EmitLiteral(strstart - 1, strstart - insert, strstart + lookahead);
        matchAvailable := false;
      }
      ToldMeans(this, base + strstart);
      MakeValid(this);
    }

    /** ... and the last two strings are left, which is recorded. */
    method TellLast()
      requires SlowState() && lookahead == 0 && Recorded() && slow
      modifies this`matchAvailable, this`insert, this`lastLit, this`log, dBuf, lBuf
      ensures Rested() && Recorded() && log == old(log + [Now()])
    {
      hide *;
      SlowMeans(this);
      StepReady(this);
      WaysAre(this);
      ghost var m, told := Now(), AllTokens();
      MadeIs(Ways(), input, m);
      RestIs(Ways(), input, base, m.st);
      TellHeld();
      LeaveRest();
      log := log + [m];
      ToldMeans(this, base + strstart);
      MakeRested(this);
      StandingIs(this);
      StepRecorded(this, old(log), m, told);
    }

    // ----- Any number of calls -----------------------------------------------------------------------------

    /** Between calls. */
    ghost predicate Compressing()
      reads this, window, head, prev, dBuf, lBuf
    {
      && (if slow then SlowState() else FastState())
      && Recorded() && (finished ==> Ended())
    }

    /** All input is told. */
    ghost predicate Ended()
      reads this, window, head, prev, dBuf, lBuf
    {
      && lookahead == 0 && nextIn == [] && lastLit == 0 && !matchAvailable
      && lastLit <= dBuf.Length && lastLit <= lBuf.Length && finished
      && Expand(AllTokens()) == Bytes(input) && Encodable(AllTokens(), MaxDist())
    }

    /** A flush is followed by a block of no tokens: a coded one for a partial flush, and a stored
        one otherwise. */
    method EmptyBlock()
      requires Settled() && Compressing() && !finished && !matchAvailable && lastLit == 0 && blockStart == strstart
      modifies this`blocks
      ensures Settled() && Compressing() && blocks == old(blocks) + [[]] && AllTokens() == old(AllTokens())
    {
      hide *;
      Arrived(this);
      RecordedMeans(this);
      NowIs(this);
      SettledMeans(this);
      SizesMean(this);
      ToldMeans(this, base + strstart);
      NoneInHand(this);
      NoneMore(this, blocks);
      blocks := blocks + [[]];
      NoneInHand(this);
      NoneMore(this, blocks);
      MakeRecorded(this);
      MakeTold(this, base + strstart);
      MakeSettled(this);
      if slow {
        MakeSlow(this);
      } else {
        MakeFast(this);
      }
      MakeCompressing(this);
    }

    /** CLEAR_HASH and what goes with it for a full flush. */
    method ForgetHistory()
      requires Settled() && Compressing() && !finished && !matchAvailable && lastLit == 0 && blockStart == strstart
      modifies this`strstart, this`blockStart, this`insert, this`base, this`log, head
      ensures Compressing() && input == old(input) && AllTokens() == old(AllTokens())
      ensures strstart == 0 && base == |input| && Near(known, base) == {}
      ensures log == old(log + [Now().(forgets := true)]) && old(Now()).st.pos == |input|
    {
      hide *;
      Arrived(this);
      SettledMeans(this);
      StepReady(this);
      StandingIs(this);
      ghost var m, told := Now(), AllTokens();
      Restart();
      log := log + [m.(forgets := true)];
      StandingIs(this);
      MadeForget(Ways(), input, m.(forgets := true));
      NothingTold(told);
      StepRecorded(this, old(log), m.(forgets := true), told);
      MakeCompressing(this);
    }

    /** The window begins anew, with no string in it. */
    method Restart()
      requires Settled() && !matchAvailable && lastLit == 0 && blockStart == strstart
      requires matchStart < TWO_TO_THE_32
      requires matchLength < MIN_MATCH && if slow then matchLength == MIN_MATCH - 1 else prevLength == MIN_MATCH - 1
      modifies this`strstart, this`blockStart, this`insert, this`base, head
      ensures (if slow then SlowState() else FastState()) && Valid() && AllTokens() == old(AllTokens())
      ensures strstart == 0 && insert == 0 && base == old(base + strstart) == |input| && Near(known, base) == {}
    {
      hide *;
      SettledMeans(this);
      ToldMeans(this, base + strstart);
      ValidMeans(this);
      SizesMean(this);
      InputLength(this);
      NothingNear(this);
      NoneInHand(this);
      ClearHash();
      base := base + strstart;
      strstart, blockStart, insert := 0, 0, 0;
      NoneInHand(this);
      AfterForget(this);
    }

    method ClearHash()
      modifies head
      ensures forall h: nat :: h < head.Length ==> head[h] == 0
    {
      forall h | 0 <= h < head.Length {
        head[h] := 0;
      }
    }

    /** How many bytes a compressor may leave for later when it is not told to flush. */
    function Leftover(): nat {
      if strategy == HuffmanOnly then 0 else if strategy == Rle then MAX_MATCH else MIN_LOOKAHEAD - 1
    }

    /** Runs the compressor for the level and strategy. */
    method RunCompressor(flush: Flush) returns (st: BlockState, full: bool)
      requires (if slow then SlowState() else FastState()) && Recorded()
      modifies this`nextIn, this`input, this`strstart, this`lookahead, this`insert, this`insH, this`highWater
      modifies this`matchStart, this`matchLength, this`prevLength, this`prevMatch, this`matchAvailable
      modifies this`blockStart, this`base, this`known, this`lastLit, this`blocks, this`log
      modifies window, head, prev, dBuf, lBuf
      ensures (if slow then SlowState() else FastState()) && input + nextIn == old(input + nextIn)
      ensures st != NeedMore ==> Settled() && !matchAvailable && lastLit == 0 && blockStart == strstart
      ensures st == FinishDone || st == FinishStarted ==> flush == Finish
      ensures st == BlockDone ==> flush != Finish && flush != NoFlush && NoneEmpty(old(blocks), blocks)
      ensures old(blocks) <= blocks && (flush == Finish && !full ==> st == FinishDone)
      ensures st == NeedMore ==>
                if full then Stalled(old(blocks), flush) else Drained(old(blocks), flush, Leftover())
      ensures Recorded() && NoneForgets(old(log), log)
      ensures Ample(log, |old(log)|, Leftover() + 1, if flush == NoFlush then -1 else |old(input + nextIn)|)
    {
      hide *;
      Constants();
      LeftoverIs(this);
      HowItRuns(this);
      if slow {
        st, full := DeflateSlow(flush);
      } else if strategy == HuffmanOnly {
        st, full := DeflateHuff(flush);
        FastMeans(this);
      } else if strategy == Rle {
        st, full := DeflateRle(flush);
        FastMeans(this);
      } else {
        st, full := DeflateFast(flush);
        FastMeans(this);
      }
    }

    /** deflate, as far as the matching goes: new input arrives and a compressor runs.  What
        is told is always the beginning of the input, and all of it once a flush is done or the
        stream finished.  It returns early only if there is too little input, or if the output is
        full; then it has handed on at least one block, and none but full ones. */
    method Deflate(chunk: seq<Byte>, flush: Flush) returns (st: BlockState, full: bool)
      requires Compressing() && (finished ==> chunk == [])
      modifies this, window, head, prev, dBuf, lBuf
      ensures Compressing() && input + nextIn == old(input + nextIn) + chunk
      ensures finished <==> st == FinishDone || st == FinishStarted
      ensures flush != Finish && !old(finished) ==> !finished
      ensures finished ==> Ended()
      ensures old(blocks) <= blocks
      ensures st == NeedMore ==>
                if full then Stalled(old(blocks), flush) else Drained(old(blocks), flush, Leftover())
      ensures st == BlockDone ==> flush != NoFlush && flush != Finish && AllHanded()
      ensures flush == Finish && !full ==> finished
      ensures old(log) <= log
      ensures Ample(log, |old(log)|, Leftover() + 1, if flush == NoFlush then -1 else |input + nextIn|)
      ensures st == BlockDone ==> FlushMarked(old(blocks), blocks, flush)
      ensures if st == BlockDone && flush == FullFlush then Forgotten(old(log)) else NoneForgets(old(log), log)
    {
      hide *;
      full := false;
      if finished {
        AlreadyEnded(this);
        NoneYet(log, Leftover() + 1, if flush == NoFlush then -1 else |input + nextIn|);
        NothingForgot(log);
        return FinishDone, false;
      }
      CompressingMeans(this);
      nextIn := nextIn + chunk;
      assert input + nextIn == old(input + nextIn) + chunk;
      st, full := RunCompressor(flush);
      MakeCompressing(this);
      if st == BlockDone {
        AfterFlush(flush, old(blocks), old(log), |input + nextIn|);
      } else {
        ForgetsMean(old(log), log);
      }
      if st == FinishDone || st == FinishStarted {
        Finishing();
      }
    }

    /** All was forgotten in the last step: no string is known, and the window begins anew. */
    ghost predicate Forgotten(was: seq<Moment>)
      reads this`strstart, this`base, this`input, this`known, this`log
    {
      && strstart == 0 && base == |input| && Near(known, base) == {}
      && |was| < |log| && log[|log| - 1].forgets && log[|log| - 1].st.pos == |input|
      && NoneForgets(was, log[..|log| - 1])
    }

    /** What a flush does once all is told. */
    method AfterFlush(flush: Flush, ghost was: seq<seq<Item>>, ghost earlier: seq<Moment>, ghost all: nat)
      requires Settled() && Compressing() && !finished && !matchAvailable && lastLit == 0 && blockStart == strstart
      requires NoneEmpty(was, blocks) && NoneForgets(earlier, log) && Ample(log, |earlier|, Leftover() + 1, all)
      modifies this`blocks, this`strstart, this`blockStart, this`insert, this`base, this`log, head
      ensures Compressing() && AllHanded() && old(blocks) <= blocks && input == old(input)
      ensures FlushMarked(was, blocks, flush) && Ample(log, |earlier|, Leftover() + 1, all) && earlier <= log
      ensures if flush == FullFlush then Forgotten(earlier) else NoneForgets(earlier, log)
    {
      hide *;
      Marked(was, blocks, flush);
      ForgetsMean(earlier, log);
      if flush != BlockFlush {
        EmptyBlock();
        if flush == FullFlush {
          SettledHanded(this);
          NoneInHand(this);
          NowIs(this);
          AmpleOn(log, |earlier|, Leftover() + 1, all, Now().(forgets := true));
          ForgetHistory();
          NoneInHand(this);
          StillHanded(this);
          ForgottenNow(this, earlier);
          return;
        }
      }
      SettledHanded(this);
    }

    /** Calls without more input until the stream is finished.  Each that does not finish it found
        the output full and has handed on a full block, so it takes only so many. */
    method FinishStream()
      requires Compressing()
      modifies this, window, head, prev, dBuf, lBuf
      ensures Compressing() && finished && input == old(input + nextIn) && old(blocks) <= blocks
    {
      hide *;
      ghost var all := input + nextIn;
      while !finished
        invariant Compressing() && input + nextIn == all && old(blocks) <= blocks
        decreases |all| - |Flushed()|, !finished
      {
        ghost var was := blocks;
        CountMeans(this);
        var _, _ := Deflate([], Finish);
        CountMeans(this);
        HandedMore(this, was);
      }
      AlreadyEnded(this);
      EndedMeans(this);
    }

    /** The last block has been begun: nothing more is going to be compressed. */
    method Finishing()
      requires Compressing() && Settled() && lastLit == 0 && !matchAvailable
      modifies this`finished
      ensures Compressing() && finished && Ended()
    {
      hide *;
      Arrived(this);
      EndsHere(this);
      finished := true;
      MakeEnded(this);
      if slow {
        MakeSlow(this);
      } else {
        MakeFast(this);
      }
      MakeCompressing(this);
    }
  }

  lemma CoreMeans(s: Deflater, next: nat, end: nat)
    requires s.Core(next, end)
    ensures s.Sizes() && Chained(s.Ix(), next, end) && Loaded(s.window[..], s.input, s.base, end)
    ensures end <= s.window.Length == 2 * s.wsize && |s.Ix().prev| == s.prev.Length == s.wsize
    ensures s.Ix().win == s.window[..] && s.Ix().head == s.head[..] && s.Ix().prev == s.prev[..]
    ensures s.Ix().bits == s.hashBits >= 8 && |s.Ix().head| == s.head.Length && s.Ix().entered == Near(s.known, s.base)
    ensures s.head != s.prev && |s.input| == s.base + end
  {
    hide Chained;
  }

  lemma IxIs(s: Deflater)
    ensures s.Ix() == Index(s.hashBits, s.window[..], s.head[..], s.prev[..], Near(s.known, s.base))
  {
  }

  lemma SpotIs(s: Deflater)
    ensures s.Place() == Stand(s.base + s.strstart, NoneHeld, s.known, s.insert)
  {
  }

  lemma WeighingMeans(s: Deflater, st: Stand, f: Longest)
    requires s.Weighing(st, f)
    ensures st.pos == s.base + s.strstart && st.left == s.insert && (st.held == NoneHeld <==> !s.matchAvailable)
    ensures s.prevLength < MIN_MATCH ==> !st.held.AMatch?
    ensures s.prevLength >= MIN_MATCH ==>
              && 0 < s.strstart <= TWO_TO_THE_32 && s.prevMatch < TWO_TO_THE_32
              && st.held == AMatch(s.prevLength, Minus(s.strstart - 1, s.prevMatch))
    ensures s.matchLength > s.prevLength ==>
              f.len == s.matchLength && f.start == s.base + s.matchStart && s.matchStart < s.strstart
  {
  }

  lemma MakeWeighing(s: Deflater, st: Stand, f: Longest)
    requires st.pos == s.base + s.strstart && st.left == s.insert && (st.held == NoneHeld <==> !s.matchAvailable)
    requires s.prevLength < MIN_MATCH ==> !st.held.AMatch?
    requires s.prevLength >= MIN_MATCH ==>
               && 0 < s.strstart <= TWO_TO_THE_32 && s.prevMatch < TWO_TO_THE_32
               && st.held == AMatch(s.prevLength, Minus(s.strstart - 1, s.prevMatch))
    requires s.matchLength > s.prevLength ==>
               f.len == s.matchLength && f.start == s.base + s.matchStart && s.matchStart < s.strstart
    ensures s.Weighing(st, f)
  {
  }

  lemma PendingHeld(s: Deflater)
    requires s.SlowState()
    ensures s.matchAvailable ==> 0 < s.strstart <= TWO_TO_THE_32
    ensures s.matchLength >= MIN_MATCH ==> s.matchAvailable
  {
    hide *;
    Constants();
    SlowMeans(s);
    SizesMean(s);
    ValidMeans(s);
  }

  lemma MakeDecided(data: seq<Byte>, st: Stand, len: nat, known: set<nat>, f: Longest, better: bool,
                    told: seq<Item>, told': seq<Item>, to: Stand)
    requires st.held.AMatch? && !better ==>
               && told' == told + [Match(len, st.held.dist)] && st.pos + len > 0
               && to == Stand(st.pos + len - 1, NoneHeld, known + Whole(st.pos + 1, st.pos + len - 1, |data|), st.left)
    requires !st.held.AMatch? || better ==>
               && (st.held != NoneHeld ==> 0 < st.pos <= |data|)
               && told' == told + (if st.held == NoneHeld then [] else [Literal(data[st.pos - 1])])
               && (better ==> f.start <= st.pos)
               && to == Stand(st.pos + 1, if better then AMatch(f.len, st.pos - f.start) else AByte, known, st.left)
    ensures Decided(data, st, len, known, f, better, told, told', to)
  {
    hide Whole;
  }

  lemma MakeWeighed(r: Rules, data: seq<Byte>, base: nat, st: Stand, len: nat, known: set<nat>, f: Longest,
                    better: bool)
    requires (0 < st.pos || st.held == NoneHeld) && st.pos < |data| && r.chain >= 4
    requires len == (if st.held.AMatch? then st.held.len else MIN_MATCH - 1) && (st.held.AMatch? ==> len >= MIN_MATCH)
    requires known == st.known + Whole(st.pos, st.pos + 1, |data|)
    requires f == if st.pos + 3 <= |data| && len < r.lazy then MatchAt(r, data, known, base, st.pos, len)
                  else Longest(len, 0)
    requires better <==> f.len > len && !Poor(r, f, st.pos)
    requires better ==> f.start < st.pos
    ensures Weighed(r, data, base, st, len, known, f, better)
  {
    hide MatchAt, Whole, Poor;
  }

  lemma NowIs(s: Deflater)
    ensures s.Now() == Moment(|s.input|, s.base, s.Standing(), false)
    ensures s.Standing().pos == s.base + s.strstart && s.Standing().(held := NoneHeld) == s.Place()
  {
  }

  lemma RecordedMeans(s: Deflater)
    requires s.Recorded()
    ensures s.lastLit <= s.dBuf.Length && s.lastLit <= s.lBuf.Length
    ensures Tells(s.Ways(), s.input, s.log, s.Now(), s.AllTokens())
  {
    hide Tells, Deflater.Now, Deflater.AllTokens;
  }

  lemma MakeRecorded(s: Deflater)
    requires s.lastLit <= s.dBuf.Length && s.lastLit <= s.lBuf.Length
    requires Tells(s.Ways(), s.input, s.log, s.Now(), s.AllTokens())
    ensures s.Recorded()
  {
    hide Tells, Deflater.Now, Deflater.AllTokens;
  }

  /** Reading input and sliding the window is no step. */
  lemma StillRecorded(s: Deflater, was: seq<Byte>, now: Moment)
    requires s.lastLit <= s.dBuf.Length && s.lastLit <= s.lBuf.Length && s.Sizes()
    requires Tells(s.Ways(), was, s.log, now, s.AllTokens()) && was <= s.input && now.end == |was|
    requires s.Place() == Filled(now.st.(held := NoneHeld), |s.input|) && s.HeldNow() == now.st.held
    requires now.base <= s.base && (s.base == now.base || s.MaxDist() <= s.strstart)
    ensures s.Recorded()
  {
    hide *;
    NowIs(s);
    StandingIs(s);
    SpotIs(s);
    WaysAre(s);
    FilledIs(now.st, |s.input|);
    FilledIs(now.st.(held := NoneHeld), |s.input|);
    MoreInput(s.Ways(), was, s.log, now, s.AllTokens(), s.input, s.Now());
    MakeRecorded(s);
  }

  lemma AmpleNow(s: Deflater, was: seq<Moment>, need: nat, all: int)
    requires Ample(s.log, |was|, need, all) && s.Valid() && (s.lookahead >= need || |s.input| == all)
    requires NoneForgets(was, s.log)
    ensures Ample(s.log + [s.Now()], |was|, need, all) && NoneForgets(was, s.log + [s.Now()])
  {
    hide *;
    NowIs(s);
    InputLength(s);
    AmpleOn(s.log, |was|, need, all, s.Now());
    NoneForgetsOn(was, s.log, s.Now());
  }

  lemma SizesOfState(s: Deflater)
    requires s.Valid()
    ensures s.litBufsize - 1 > 0
  {
    hide *;
    ValidMeans(s);
    SizesMean(s);
  }

  lemma RestedMeans(s: Deflater)
    requires s.Rested()
    ensures s.Valid() && s.Told(s.base + s.strstart) && s.Sizes() && s.lastLit < s.litBufsize && !s.matchAvailable
    ensures s.dBuf.Length == s.lBuf.Length == s.litBufsize >= 128
    ensures s.matchStart < TWO_TO_THE_32 && s.matchLength < MIN_MATCH
    ensures s.slow ==> MIN_MATCH - 1 == s.matchLength
    ensures !s.slow ==> s.prevLength == MIN_MATCH - 1
  {
    hide Loaded, Chained, Deflater.Rolled, Expand, Encodable;
  }

  lemma MakeRested(s: Deflater)
    requires s.Valid() && s.Told(s.base + s.strstart) && s.matchStart < TWO_TO_THE_32 && !s.matchAvailable
    requires s.slow ==> MIN_MATCH - 1 == s.matchLength
    requires !s.slow ==> s.matchLength < MIN_MATCH && s.prevLength == MIN_MATCH - 1
    ensures s.Rested()
  {
    hide Deflater.Valid, Deflater.Told;
  }

  lemma MakeState(s: Deflater)
    requires !s.matchAvailable
    requires s.Valid() && s.Told(s.base + s.strstart) && s.lastLit + 1 < s.litBufsize
    requires s.matchStart < TWO_TO_THE_32 && s.matchLength < MIN_MATCH
    requires s.slow ==> MIN_MATCH - 1 == s.matchLength
    requires !s.slow ==> s.matchLength < MIN_MATCH && s.prevLength == MIN_MATCH - 1
    ensures if s.slow then s.SlowState() else s.FastState()
  {
    hide *;
    Constants();
    if s.slow {
      MakeSlow(s);
    } else {
      MakeFast(s);
    }
  }

  lemma HandSize(s: Deflater)
    requires s.lastLit <= s.dBuf.Length && s.lastLit <= s.lBuf.Length
    ensures |s.InHand()| == s.lastLit
  {
  }

  lemma PrefixOf(was: seq<seq<Item>>, now: seq<seq<Item>>)
    requires NoneEmpty(was, now)
    ensures was <= now
  {
  }

  lemma NothingTold(told: seq<Item>)
    ensures told + [] == told
  {
  }

  lemma HowItRuns(s: Deflater)
    requires if s.slow then s.SlowState() else s.FastState()
    ensures s.slow ==> !s.unhashed
    ensures s.unhashed <==> s.strategy == HuffmanOnly || s.strategy == Rle
  {
    hide *;
    if s.slow {
      SlowMeans(s);
    } else {
      FastMeans(s);
    }
    WaysAre(s);
  }

  /** No string of the window is known any more when its place is before it. */
  lemma NothingNear(s: Deflater)
    requires s.Valid()
    ensures Near(s.known, s.base + s.strstart) == {}
  {
    hide *;
    ValidMeans(s);
    CoreMeans(s, s.strstart - s.insert, s.strstart + s.lookahead);
    if Near(s.known, s.base + s.strstart) != {} {
      var p :| p in Near(s.known, s.base + s.strstart);
      InNear(s.known, s.base + s.strstart, p);
      InNear(s.known, s.base, p + s.strstart);
      PlacedBefore(s.Ix(), s.strstart - s.insert, s.strstart + s.lookahead, p + s.strstart);
    }
  }

  lemma PlacedBefore(x: Index, next: nat, end: nat, p: nat)
    requires Chained(x, next, end)
    ensures p in x.entered ==> p < next
  {
    hide HeadOk, LinkOk, Key;
  }

  lemma ForgottenNow(s: Deflater, was: seq<Moment>)
    requires s.strstart == 0 && s.base == |s.input| && Near(s.known, s.base) == {}
    requires s.log != [] && s.log[|s.log| - 1].forgets && s.log[|s.log| - 1].st.pos == |s.input|
    requires NoneForgets(was, s.log[..|s.log| - 1])
    ensures s.Forgotten(was) && was <= s.log
  {
    hide Near;
  }

  /** One more step is recorded. */
  lemma StepRecorded(s: Deflater, log: seq<Moment>, m: Moment, told: seq<Item>)
    requires s.Valid() && s.lastLit <= s.dBuf.Length && s.lastLit <= s.lBuf.Length
    requires Tells(s.Ways(), s.input, log, m.(forgets := false), told) && s.log == log + [m]
    requires m.end == |s.input| && Sound(s.Ways(), m.end, m.base, m.st)
    requires s.base == (if m.forgets then m.st.pos else m.base) && (m.forgets ==> m.st.held == NoneHeld)
    requires s.AllTokens() == told + Made(s.Ways(), s.input, m).told && s.Standing() == Made(s.Ways(), s.input, m).to
    ensures s.Recorded()
  {
    hide *;
    NowIs(s);
    StandingIs(s);
    ValidMeans(s);
    InputLength(s);
    FilledAlready(s.Standing(), |s.input|);
    StepLeads(s.Ways(), s.input, m, s.Now());
    OneMore(s.Ways(), s.input, log, m, told, s.Now());
    MakeRecorded(s);
  }

  lemma StepReadyAfter(s: Deflater)
    ensures !s.matchAvailable ==> s.Standing() == s.Place()
  {
    StandingIs(s);
    SpotIs(s);
  }

  /** The state before a step. */
  lemma StepReady(s: Deflater)
    requires s.Recorded() && s.Valid() && (s.matchAvailable ==> s.strstart > 0)
    ensures var m := s.Now();
            && m == Moment(|s.input|, s.base, s.Standing(), false) && Sound(s.Ways(), m.end, m.base, m.st)
            && Tells(s.Ways(), s.input, s.log, m.(forgets := false), s.AllTokens())
    ensures s.lastLit <= s.dBuf.Length && s.lastLit <= s.lBuf.Length && |s.input| == s.base + s.strstart + s.lookahead
    ensures s.Standing().pos == s.base + s.strstart && s.Standing().held == s.HeldNow()
    ensures s.Standing().known == s.known && s.Standing().left == s.insert && s.Ways().chain >= 4
    ensures !s.matchAvailable ==> s.Standing() == s.Place()
    ensures s.base <= s.Standing().pos <= |s.input| && (0 < s.Standing().pos || s.Standing().held == NoneHeld)
  {
    hide *;
    NowIs(s);
    StandingIs(s);
    SpotIs(s);
    ValidMeans(s);
    WaysAre(s);
    InputLength(s);
    RecordedMeans(s);
    SoundIs(s.Ways(), |s.input|, s.base, s.Standing());
  }

  lemma StandingIs(s: Deflater)
    ensures s.Standing() == Stand(s.base + s.strstart, s.HeldNow(), s.known, s.insert)
    ensures !s.matchAvailable ==> s.HeldNow() == NoneHeld
    ensures s.matchAvailable && s.matchLength < MIN_MATCH ==> s.HeldNow() == AByte
    ensures s.matchLength >= MIN_MATCH && 0 < s.strstart <= TWO_TO_THE_32 && s.matchStart < TWO_TO_THE_32 ==>
              (s.matchAvailable ==> s.HeldNow() == AMatch(s.matchLength, Minus(s.strstart - 1, s.matchStart)))
  {
  }

  lemma CompleteIs(p: nat, end: nat)
    ensures Complete(p, end) <==> p + MIN_MATCH <= end
  {
  }

  lemma AlreadyFilled(s: Deflater)
    requires s.Valid()
    ensures Filled(s.Place(), s.base + s.strstart + s.lookahead) == s.Place()
  {
    hide *;
    ValidMeans(s);
    SpotIs(s);
    FilledAlready(s.Place(), s.base + s.strstart + s.lookahead);
  }

  lemma WaysAre(s: Deflater)
    requires s.Sizes()
    ensures var r := s.Ways();
            && r.maxDist == s.MaxDist() > 0 && r.bits == s.hashBits && r.good == s.goodMatch && r.lazy == s.maxLazy
            && r.nice == s.niceMatch && r.chain == s.maxChain >= 4 && r.filtered == (s.strategy == Filtered)
            && r.kind == if s.slow then Lazy else if s.strategy == HuffmanOnly then Plain
                         else if s.strategy == Rle then Runs else Greedy
    ensures (s.slow ==> !s.unhashed) && (s.unhashed <==> s.strategy == HuffmanOnly || s.strategy == Rle)
  {
  }

  lemma MakeHead(s: Deflater, hashHead: nat)
    requires s.strstart + 2 < |s.Ix().win| && IsLatest(s.Ix(), Key(s.Ix(), s.strstart), s.strstart, hashHead)
    ensures s.IsHead(hashHead)
  {
    hide IsLatest, Key;
  }

  lemma HeadMeans(s: Deflater, hashHead: nat)
    requires s.IsHead(hashHead)
    ensures s.strstart + 2 < |s.Ix().win| && IsLatest(s.Ix(), Key(s.Ix(), s.strstart), s.strstart, hashHead)
  {
    hide IsLatest, Key;
  }

  lemma PoorIs(s: Deflater, f: Longest, p: nat)
    ensures Poor(s.Ways(), f, p) <==>
            f.len <= 5 && (s.strategy == Filtered || (f.len == MIN_MATCH && p - f.start > TOO_FAR))
  {
  }

  lemma InsideIs(s: Deflater, p: nat, len: nat, end: nat)
    ensures s.Inside(p, len, end)
         == if len <= s.maxLazy && p + len + MIN_MATCH <= end then Whole(p + 1, p + len, end) else {}
  {
  }

  lemma MinusIs(a: nat, b: nat)
    requires a < TWO_TO_THE_32
    ensures b <= a ==> Minus(a, b) == a - b
  {
  }

  /** The strings of the window are those of the input. */
  lemma SameStrings(s: Deflater, next: nat, end: nat)
    requires s.Core(next, end)
    ensures Same(s.window[..], s.Ix().entered, end, s.input, s.known, s.base)
    ensures s.Ix().win == s.window[..] && s.Ix().bits == s.hashBits
  {
    hide Chained, Near, Pow2;
    forall p: nat | p > 0
      ensures p in Near(s.known, s.base) <==> s.base + p in s.known
    {
      InNear(s.known, s.base, p);
    }
  }

  /** What a search in the window is going to find. */
  lemma Searchable(s: Deflater, len0: nat)
    requires s.PastString() && s.lookahead >= MIN_MATCH
    ensures s.base + s.strstart + 2 < |s.input| == s.base + s.strstart + s.lookahead && s.Ways().chain >= 4
    ensures s.strstart + s.lookahead <= s.window.Length
    ensures var list := Searched(s.Ix().bits, s.window[..], s.Ix().entered, 0, s.strstart, s.Ways().maxDist,
                                 if len0 >= s.goodMatch then s.maxChain / 4 else s.maxChain);
            && Earlier(list, s.strstart)
            && var f := Best(s.window[..], s.strstart, Min(s.lookahead, MAX_MATCH), list, Longest(len0, 0),
                             Min(s.niceMatch, s.lookahead));
               var g := MatchAt(s.Ways(), s.input, s.known, s.base, s.base + s.strstart, len0);
               g.len == f.len && (f.len > len0 ==> g.start == s.base + f.start)
  {
    hide *;
    Constants();
    PastMeans(s);
    WaysAre(s);
    CoreMeans(s, s.strstart + 1 - s.insert, s.strstart + s.lookahead);
    SameStrings(s, s.strstart + 1 - s.insert, s.strstart + s.lookahead);
    MatchFurther(s.Ways(), s.window[..], s.Ix().entered, s.strstart + s.lookahead, s.input, s.known, s.base,
                 s.strstart, len0);
  }

  /** There is nothing to search. */
  lemma NoneFound(s: Deflater, hashHead: nat, len0: nat)
    requires s.PastString() && s.lookahead >= MIN_MATCH && s.IsHead(hashHead)
    ensures s.base + s.strstart + 2 < |s.input| == s.base + s.strstart + s.lookahead && s.Ways().chain >= 4
    ensures hashHead == 0 || s.strstart - hashHead > s.MaxDist() ==>
              MatchAt(s.Ways(), s.input, s.known, s.base, s.base + s.strstart, len0).len == len0
  {
    hide *;
    Constants();
    PastMeans(s);
    WaysAre(s);
    HeadMeans(s, hashHead);
    CoreMeans(s, s.strstart + 1 - s.insert, s.strstart + s.lookahead);
    MinIs(s.lookahead, MAX_MATCH);
    MinIs(s.niceMatch, s.lookahead);
    Searchable(s, len0);
    if hashHead == 0 || s.strstart - hashHead > s.MaxDist() {
      NoMatch(s.Ways(), s.window[..], s.Ix(), s.strstart, hashHead, len0, Min(s.lookahead, MAX_MATCH),
              Min(s.niceMatch, s.lookahead));
    }
  }

  lemma RollsAt(s: Deflater, p: nat)
    requires s.Rolled(p) && p + 2 < s.window.Length
    ensures Rolls(s.hashBits, s.insH, s.window[p], s.window[p + 1])
    ensures Update(s.hashBits, s.insH, s.window[p + 2])
         == Key3(s.hashBits, s.window[p], s.window[p + 1], s.window[p + 2]) == Key(s.Ix(), p)
    ensures Rolls(s.hashBits, Update(s.hashBits, s.insH, s.window[p + 2]), s.window[p + 1], s.window[p + 2])
  {
    RollOn(s.hashBits, s.insH, s.window[p], s.window[p + 1], s.window[p + 2]);
  }

  lemma EnteredIs(x: Index, p: nat, h: nat)
    requires h < |x.head| && Slot(p, |x.prev|) < |x.prev|
    ensures Entered(x, p, h) == x.(head := x.head[h := p], prev := x.prev[Slot(p, |x.prev|) := x.head[h]],
                                   entered := if p == 0 then x.entered else x.entered + {p})
  {
  }

  lemma SameKey(x: Index, y: Index, p: nat)
    requires p + 2 < |x.win| && y.win == x.win && y.bits == x.bits
    ensures Key(y, p) == Key(x, p)
  {
  }

  lemma MakeCore(s: Deflater, next: nat, end: nat)
    requires s.Sizes() && Loaded(s.window[..], s.input, s.base, end) && Chained(s.Ix(), next, end)
    ensures s.Core(next, end)
  {
    hide Chained;
  }

  lemma MakeRolled(s: Deflater, p: nat)
    requires p + 1 < s.window.Length && Rolls(s.hashBits, s.insH, s.window[p], s.window[p + 1])
    ensures s.Rolled(p)
  {
  }

  lemma SlidIs(wsize: nat)
    ensures forall m: nat :: Slid(m, wsize) == if m >= wsize then m - wsize else 0
  {
  }

  lemma SizesMean(s: Deflater)
    requires s.Sizes()
    ensures s.wsize == s.prev.Length == Pow2(s.wbits) && s.window.Length == 2 * s.wsize && s.head != s.prev
    ensures 512 <= s.wsize <= 32768 < TWO_TO_THE_32 && s.MaxDist() <= 0xffff && s.MaxDist() == s.wsize - 262
            && s.hashBits >= 8 && s.maxChain >= 4
    ensures s.dBuf.Length == s.lBuf.Length == s.litBufsize >= 128
    ensures s.head != s.dBuf && s.prev != s.dBuf && s.window != s.lBuf
  {
  }

  lemma ValidMeans(s: Deflater)
    requires s.Valid()
    ensures s.insert <= 2 && s.insert <= s.strstart && s.Sizes()
    ensures s.insert == 0 || s.lookahead + s.insert < MIN_MATCH
    ensures s.Core(s.strstart - s.insert, s.strstart + s.lookahead)
    ensures s.strstart + s.lookahead <= s.window.Length
    ensures !s.unhashed && s.lookahead >= MIN_MATCH ==>
              && s.Rolled(s.strstart) && s.strstart + 1 < s.window.Length
              && Rolls(s.hashBits, s.insH, s.window[s.strstart], s.window[s.strstart + 1])
  {
    hide Chained, Rolls;
  }

  lemma MovedIs(x: Index, y: Index, end: nat)
    requires var wsize := |x.prev|;
      && y.bits == x.bits && |y.win| == |x.win| == 2 * wsize && |y.prev| == wsize && |y.head| == |x.head|
      && wsize <= end <= |x.win|
      && (forall i: nat :: i < end - wsize ==> y.win[i] == x.win[i + wsize])
      && (forall h: nat :: h < |x.head| ==> y.head[h] == Slid(x.head[h], wsize))
      && (forall k: nat :: k < wsize ==> y.prev[k] == Slid(x.prev[k], wsize))
      && y.entered == SlidSet(x.entered, wsize)
    ensures Moved(x, y, end)
  {
  }

  lemma LoadedMoved(win: seq<Byte>, win': seq<Byte>, input: seq<Byte>, base: nat, end: nat, wsize: nat)
    requires Loaded(win, input, base, end) && wsize <= end && |win'| == |win|
    requires forall i: nat :: i < end - wsize ==> win'[i] == win[i + wsize]
    ensures Loaded(win', input, base + wsize, end - wsize)
  {
  }

  /** The window has moved: everything is as before, a window size further down. */
  lemma AfterMove(s: Deflater, x: Index, next: nat, end: nat)
    requires s.Sizes() && |x.prev| == s.wsize && s.wsize <= s.base && s.insert <= 2
    requires Moved(x, s.Ix(), end) && Chained(x, next, end) && Loaded(x.win, s.input, s.base - s.wsize, end)
    requires s.strstart + s.wsize - s.insert == next && s.strstart + s.wsize + s.lookahead == end
    requires s.wsize + 2 <= next
    requires s.insert == 0 || s.lookahead + s.insert < MIN_MATCH
    requires !s.unhashed && s.lookahead >= MIN_MATCH ==>
               && s.strstart + s.wsize + 1 < |x.win|
               && Rolls(s.hashBits, s.insH, x.win[s.strstart + s.wsize], x.win[s.strstart + s.wsize + 1])
    ensures s.Valid()
  {
    hide Chained, Rolls, Pow2;
    Slide(x, s.Ix(), next, end);
    LoadedMoved(x.win, s.window[..], s.input, s.base - s.wsize, end, s.wsize);
  }

  lemma MakeValid(s: Deflater)
    requires s.insert <= 2 && s.insert <= s.strstart
    requires s.Core(s.strstart - s.insert, s.strstart + s.lookahead)
    requires s.insert == 0 || s.lookahead + s.insert < MIN_MATCH
    requires !s.unhashed && s.lookahead >= MIN_MATCH ==> s.Rolled(s.strstart)
    ensures s.Valid()
  {
    hide Chained, Rolls, Deflater.Core, Deflater.Rolled;
  }

  lemma Constants()
    ensures MIN_MATCH == 3 && MAX_MATCH == 258 && MIN_LOOKAHEAD == 262 && WIN_INIT == 258 && TOO_FAR == 4096
    ensures TWO_TO_THE_32 == 0x1_0000_0000
  {
  }

  lemma MinIs(a: int, b: int)
    ensures Min(a, b) == if a <= b then a else b
  {
  }

  lemma ReadMore(s: Deflater, x: Index, next: nat, end: nat, n: nat, from: seq<Byte>)
    requires s.Sizes() && Chained(x, next, end) && n <= |from| && end + n <= s.window.Length == |x.win|
    requires s.Ix() == x.(win := s.window[..]) && |s.input| >= n
    requires Loaded(x.win, s.input[..|s.input| - n], s.base, end)
    requires s.input == s.input[..|s.input| - n] + from[..n]
    requires forall i: nat :: i < end ==> s.window[i] == x.win[i]
    requires forall i: nat :: end <= i < end + n ==> s.window[i] == from[i - end]
    ensures s.Core(next, end + n)
  {
    hide Chained;
    MoreData(x, next, end, s.window[..], end + n);
  }

  lemma AfterZero(s: Deflater, x: Index)
    requires s.Sizes() && |s.input| == s.base + s.strstart + s.lookahead
    requires s.insert <= 2 && s.insert <= s.strstart && s.window.Length == |x.win|
    requires Chained(x, s.strstart - s.insert, s.strstart + s.lookahead)
    requires Loaded(x.win, s.input, s.base, s.strstart + s.lookahead)
    requires s.Ix() == x.(win := s.window[..])
    requires forall i: nat :: i < s.strstart + s.lookahead ==> s.window[i] == x.win[i]
    requires s.strstart + s.lookahead <= |x.win|
    requires s.insert == 0 || s.lookahead + s.insert < MIN_MATCH
    requires !s.unhashed && s.lookahead >= MIN_MATCH ==>
               Rolls(s.hashBits, s.insH, x.win[s.strstart], x.win[s.strstart + 1])
    ensures s.Valid()
  {
    hide Chained, Rolls, Pow2;
    MoreData(x, s.strstart - s.insert, s.strstart + s.lookahead, s.window[..], s.strstart + s.lookahead);
  }

  lemma TokenSlices(d': seq<nat>, l': seq<Byte>, d: seq<nat>, l: seq<Byte>, n: nat)
    requires |d| == |l| == n && n <= |d'| && n <= |l'|
    requires forall i: nat :: i < n ==> d'[i] == d[i] && l'[i] == l[i]
    ensures d'[..n] == d && l'[..n] == l
  {
  }

  lemma TokensNow(s: Deflater)
    requires s.lastLit <= s.dBuf.Length && s.lastLit <= s.lBuf.Length
    ensures s.AllTokens() == s.Flushed() + Tokens(s.dBuf[..][..s.lastLit], s.lBuf[..][..s.lastLit])
  {
    assert s.dBuf[..][..s.lastLit] == s.dBuf[..s.lastLit];
    assert s.lBuf[..][..s.lastLit] == s.lBuf[..s.lastLit];
  }

  lemma LoadedAt(win: seq<Byte>, input: seq<Byte>, base: nat, end: nat, p: nat)
    requires Loaded(win, input, base, end) && p < end
    ensures base + p < |input| && win[p] == input[base + p]
  {
  }

  lemma ToldMeans(s: Deflater, n: nat)
    requires s.Told(n)
    ensures s.lastLit < s.litBufsize == s.dBuf.Length == s.lBuf.Length && n <= |s.input|
    ensures Expand(s.AllTokens()) == Bytes(s.input[..n]) && Encodable(s.AllTokens(), s.MaxDist())
    ensures 0 <= s.base + s.blockStart <= |s.input|
    ensures Expand(s.Flushed()) == Bytes(s.input[..s.base + s.blockStart])
  {
    hide Expand;
  }

  lemma MakeTold(s: Deflater, n: nat)
    requires s.lastLit < s.litBufsize == s.dBuf.Length == s.lBuf.Length && n <= |s.input|
    requires Expand(s.AllTokens()) == Bytes(s.input[..n]) && Encodable(s.AllTokens(), s.MaxDist())
    requires 0 <= s.base + s.blockStart <= |s.input|
    requires Expand(s.Flushed()) == Bytes(s.input[..s.base + s.blockStart])
    ensures s.Told(n)
  {
    hide Expand;
  }

  lemma TellLiteral(s: Deflater, ts: seq<Item>, n: nat)
    requires s.lastLit < s.litBufsize == s.dBuf.Length == s.lBuf.Length && n < |s.input|
    requires Expand(ts) == Bytes(s.input[..n]) && s.AllTokens() == ts + [Literal(s.input[n])]
    requires Encodable(ts, s.MaxDist())
    requires 0 <= s.base + s.blockStart <= |s.input|
    requires Expand(s.Flushed()) == Bytes(s.input[..s.base + s.blockStart])
    ensures s.Told(n + 1)
  {
    hide Expand;
    assert s.input[..n + 1] == s.input[..n] + [s.input[n]];
    ExpandOn(ts, Literal(s.input[n]), s.input[..n], s.input[..n + 1]);
  }

  lemma RepeatsMeans(s: seq<Byte>, a: nat, d: nat, n: nat)
    requires Repeats(s, a, d, n)
    ensures 0 < d <= a && a + n <= |s|
  {
  }

  lemma TellMatch(s: Deflater, ts: seq<Item>, n: nat, dist: nat, len: nat)
    requires s.lastLit < s.litBufsize == s.dBuf.Length == s.lBuf.Length && Repeats(s.input, n, dist, len)
    requires Expand(ts) == Bytes(s.input[..n]) && s.AllTokens() == ts + [Match(len, dist)]
    requires Encodable(ts, s.MaxDist()) && 3 <= len <= 258 && dist <= s.MaxDist()
    requires 0 <= s.base + s.blockStart <= |s.input|
    requires Expand(s.Flushed()) == Bytes(s.input[..s.base + s.blockStart])
    ensures s.Told(n + len)
  {
    hide Expand, CopyBack;
    RepeatsCopy(s.input, n, dist, len);
    ExpandOn(ts, Match(len, dist), s.input[..n], s.input[..n + len]);
  }

  lemma RunPutMeans(s: Deflater, told: seq<Item>, at: nat, len: nat)
    requires s.lastLit <= s.dBuf.Length && s.lastLit <= s.lBuf.Length && s.RunPut(told, at, len)
    ensures if len >= MIN_MATCH then s.strstart == at + len && s.AllTokens() == told + [Match(len, 1)]
            else s.strstart == at + 1 && s.base + at < |s.input|
                 && s.AllTokens() == told + [Literal(s.input[s.base + at])]
  {
    hide Deflater.AllTokens;
  }

  lemma MakeRunPut(s: Deflater, told: seq<Item>, at: nat, len: nat)
    requires s.lastLit <= s.dBuf.Length && s.lastLit <= s.lBuf.Length
    requires if len >= MIN_MATCH then s.strstart == at + len && s.AllTokens() == told + [Match(len, 1)]
             else s.strstart == at + 1 && s.base + at < |s.input|
                  && s.AllTokens() == told + [Literal(s.input[s.base + at])]
    ensures s.RunPut(told, at, len)
  {
    hide Deflater.AllTokens;
  }

  /** A run is a string that agrees with the one a byte before. */
  lemma {:induction false} RunAgrees(win: seq<Byte>, p: nat, n: nat)
    requires 0 < p && p + n <= |win|
    ensures RunOf(win, p, n) <==> Agree(win, p - 1, p, n)
  {
    if n > 0 {
      RunAgrees(win, p, n - 1);
      AgreeLessOne(win, p, n);
    }
  }

  lemma AgreeLessOne(win: seq<Byte>, p: nat, n: nat)
    requires 0 < p && p + n <= |win| && n > 0
    ensures Agree(win, p - 1, p, n) <==> Agree(win, p - 1, p, n - 1) && win[p - 1 + (n - 1)] == win[p + (n - 1)]
    ensures RunOf(win, p, n) <==> RunOf(win, p, n - 1) && win[p + (n - 1)] == win[p - 1]
    ensures RunOf(win, p, n - 1) ==> win[p - 1 + (n - 1)] == win[p - 1]
  {
    if Agree(win, p - 1, p, n) {
      AgreeLess(win, p - 1, p, n, n - 1);
    }
    if Agree(win, p - 1, p, n - 1) {
      AgreeMore(win, p - 1, p, n - 1);
    }
  }

  /** The run that was counted, in terms of the input. */
  lemma RunIs(s: Deflater, next: nat, end: nat, len: nat)
    requires s.Core(next, end) && 0 < s.strstart && end == s.strstart + s.lookahead && s.lookahead >= MIN_MATCH
    requires s.strstart + MAX_MATCH < s.window.Length && len <= Min(s.lookahead, MAX_MATCH)
    requires RunOf(s.window[..], s.strstart, len) && (len == 0 || len >= MIN_MATCH)
    requires len == 0 ==> !RunOf(s.window[..], s.strstart, MIN_MATCH)
    requires 0 < len < Min(s.lookahead, MAX_MATCH) ==> !RunOf(s.window[..], s.strstart, len + 1)
    ensures |s.input| == s.base + end
    ensures len >= MIN_MATCH ==> RunAt(s.input, s.base, s.base + s.strstart) == len
    ensures len == 0 ==> RunAt(s.input, s.base, s.base + s.strstart) < MIN_MATCH
  {
    hide *;
    Constants();
    CoreMeans(s, next, end);
    MinIs(s.lookahead, MAX_MATCH);
    var win, p, cap := s.window[..], s.strstart, Min(s.lookahead, MAX_MATCH);
    SameStrings(s, next, end);
    SameMeans(win, s.Ix().entered, end, s.input, s.known, s.base);
    CommonFurther(win, end, s.input, s.base, p - 1, p, cap);
    CommonIs(win, p - 1, p, cap, len);
    CommonIs(win, p - 1, p, cap, 2);
    RunAgrees(win, p, len);
    RunAgrees(win, p, MIN_MATCH);
    if len < cap {
      RunAgrees(win, p, len + 1);
    }
    RunAtIs(s.input, s.base, s.base + p);
  }

  lemma RunAtIs(data: seq<Byte>, base: nat, s: nat)
    requires base < s && s + 3 <= |data|
    ensures Min(|data| - s, MAX_MATCH) >= 0
    ensures RunAt(data, base, s) == Common(data, s - 1, s, Min(|data| - s, MAX_MATCH))
  {
    hide Common;
  }

  lemma RunAtShort(data: seq<Byte>, base: nat, s: nat)
    requires base <= s <= |data|
    ensures s == base || s + 3 > |data| ==> RunAt(data, base, s) == 0
  {
    hide Common;
  }

  lemma RunStepIs(data: seq<Byte>, base: nat, st: Stand)
    requires base <= st.pos < |data|
    ensures var n := RunAt(data, base, st.pos);
            RunStep(data, base, st)
            == if n >= MIN_MATCH then Done([Match(n, 1)], st.(pos := st.pos + n))
               else Done([Literal(data[st.pos])], st.(pos := st.pos + 1))
  {
    hide RunAt;
  }

  /** What a run of one byte is, in terms of the input. */
  lemma RunRepeats(s: Deflater, next: nat, end: nat, len: nat)
    requires s.Core(next, end) && 0 < s.strstart && s.strstart + len <= end && s.Sizes()
    requires RunOf(s.window[..], s.strstart, len)
    ensures Repeats(s.input, s.base + s.strstart, 1, len) && 1 <= s.MaxDist()
  {
    hide Chained, Pow2;
    var win, p := s.window[..], s.strstart;
    forall k: nat | s.base + p <= k < s.base + p + len
      ensures s.input[k] == s.input[k - 1]
    {
      var i: nat := k - s.base;
      assert win[i] == s.input[s.base + i];
      assert win[i - 1] == s.input[s.base + (i - 1)];
    }
  }

  lemma AtStringMeans(s: Deflater)
    requires s.AtString()
    ensures s.Valid() && !s.unhashed && s.lookahead > 0 && s.strstart + MIN_LOOKAHEAD <= s.window.Length
  {
  }

  /** Nothing was entered. */
  lemma NotEntered(s: Deflater, next: nat, end: nat)
    requires s.Core(next, end)
    ensures s.Core(next + 1, end)
  {
    hide Chained;
    Later(s.Ix(), next, end, next + 1);
  }

  lemma CoreLater(s: Deflater, next: nat, end: nat, next': nat)
    requires s.Core(next, end) && next <= next'
    ensures s.Core(next', end)
  {
    hide Chained;
    Later(s.Ix(), next, end, next');
  }

  lemma MakePast(s: Deflater)
    requires s.insert <= 2 && s.insert <= s.strstart && s.lookahead > 0
    requires s.strstart + MIN_LOOKAHEAD <= s.window.Length
    requires s.Core(s.strstart + 1 - s.insert, s.strstart + s.lookahead)
    requires s.insert == 0 || s.lookahead + s.insert < MIN_MATCH
    requires s.lookahead > MIN_MATCH ==> s.Rolled(s.strstart + 1)
    ensures s.PastString()
  {
    hide Deflater.Core, Deflater.Rolled;
  }

  lemma PastMeans(s: Deflater)
    requires s.PastString()
    ensures s.insert <= 2 && s.insert <= s.strstart && s.lookahead > 0
    ensures s.strstart + MIN_LOOKAHEAD <= s.window.Length && s.Sizes()
    ensures s.Core(s.strstart + 1 - s.insert, s.strstart + s.lookahead)
    ensures s.insert == 0 || s.lookahead + s.insert < MIN_MATCH
    ensures s.lookahead > MIN_MATCH ==> s.Rolled(s.strstart + 1)
    ensures s.strstart < s.window.Length <= 65536
  {
    hide Loaded, Chained, Deflater.Rolled;
  }

  /** What the search found, in terms of the input. */
  lemma MadePending(s: Deflater, start: nat, len: nat)
    requires s.Core(s.strstart + 1, s.strstart + s.lookahead) && len <= s.lookahead
    requires s.strstart + MIN_LOOKAHEAD <= s.window.Length
    requires len > s.prevLength ==>
               start < s.strstart && s.strstart - start <= s.MaxDist() && Agree(s.window[..], start, s.strstart, len)
    ensures len > s.prevLength ==> s.Pending(s.strstart, start, len) && start < TWO_TO_THE_32
  {
    hide Chained, Pow2;
    if len > s.prevLength {
      var win, p := s.window[..], s.strstart;
      forall k: nat | s.base + p <= k < s.base + p + len
        ensures s.input[k] == s.input[k - (p - start)]
      {
        var i: nat := k - s.base - p;
        assert Nth(win, start, i) == Nth(win, p, i);
        assert win[p + i] == s.input[s.base + (p + i)];
        assert win[start + i] == s.input[s.base + (start + i)];
      }
    }
  }

  lemma PendingMeans(s: Deflater, at: nat, start: nat, len: nat)
    requires s.Pending(at, start, len) && s.Sizes()
    ensures at < TWO_TO_THE_32 && start < TWO_TO_THE_32
    ensures 0 < Minus(at, start) <= s.MaxDist() && Repeats(s.input, s.base + at, Minus(at, start), len)
  {
    hide Repeats;
  }

  lemma FastMeans(s: Deflater)
    requires s.FastState()
    ensures s.Valid() && s.Told(s.base + s.strstart) && s.lastLit + 1 < s.litBufsize && s.Sizes()
    ensures s.matchStart < TWO_TO_THE_32 && s.matchLength < MIN_MATCH && s.prevLength == MIN_MATCH - 1
    ensures !s.matchAvailable
    ensures s.dBuf.Length == s.lBuf.Length == s.litBufsize >= 128
  {
    hide Loaded, Chained, Deflater.Rolled, Deflater.Told;
  }

  lemma MakeFast(s: Deflater)
    requires s.Valid() && s.Told(s.base + s.strstart) && s.lastLit + 1 < s.litBufsize
    requires s.matchStart < TWO_TO_THE_32 && s.matchLength < MIN_MATCH && s.prevLength == MIN_MATCH - 1
    requires !s.matchAvailable
    ensures s.FastState()
  {
    hide Deflater.Valid, Deflater.Told;
  }

  lemma SlowMeans(s: Deflater)
    requires s.SlowState()
    ensures s.Valid() && s.lastLit + 1 < s.litBufsize && s.matchStart < TWO_TO_THE_32 && s.Sizes()
    ensures MIN_MATCH - 1 <= s.matchLength <= MAX_MATCH && (s.matchAvailable ==> s.strstart > 0)
    ensures s.Told(if s.matchAvailable then s.base + s.strstart - 1 else s.base + s.strstart)
    ensures s.matchLength >= MIN_MATCH ==>
              && s.matchAvailable && s.matchLength - 1 <= s.lookahead
              && s.Pending(s.strstart - 1, s.matchStart, s.matchLength)
    ensures s.dBuf.Length == s.lBuf.Length == s.litBufsize >= 128
  {
    hide Loaded, Chained, Deflater.Rolled, Deflater.Told, Deflater.Pending;
  }

  lemma MakeSlow(s: Deflater)
    requires s.Valid() && s.lastLit + 1 < s.litBufsize && s.matchStart < TWO_TO_THE_32
    requires MIN_MATCH - 1 <= s.matchLength <= MAX_MATCH && (s.matchAvailable ==> s.strstart > 0)
    requires s.Told(if s.matchAvailable then s.base + s.strstart - 1 else s.base + s.strstart)
    requires s.matchLength >= MIN_MATCH ==>
               && s.matchAvailable && s.matchLength - 1 <= s.lookahead
               && s.Pending(s.strstart - 1, s.matchStart, s.matchLength)
    ensures s.SlowState()
  {
    hide Deflater.Valid, Deflater.Told, Deflater.Pending;
  }

  lemma MakeSlowSearch(s: Deflater, hashHead: nat)
    requires hashHead <= s.strstart && s.matchStart < TWO_TO_THE_32
    requires MIN_MATCH - 1 <= s.prevLength <= MAX_MATCH && (s.lookahead >= MIN_MATCH ==> s.IsHead(hashHead))
    requires hashHead != 0 ==>
               && s.lookahead >= MIN_MATCH && s.insert == 0
               && (s.strstart - hashHead < s.wsize ==> Candidate(s.Ix(), s.strstart, hashHead))
    ensures s.SlowSearch(hashHead)
  {
    hide Candidate, Deflater.IsHead;
  }

  lemma SlowSearchMeans(s: Deflater, hashHead: nat)
    requires s.SlowSearch(hashHead)
    ensures hashHead <= s.strstart && s.matchStart < TWO_TO_THE_32
    ensures MIN_MATCH - 1 <= s.prevLength <= MAX_MATCH && (s.lookahead >= MIN_MATCH ==> s.IsHead(hashHead))
    ensures hashHead != 0 ==>
              && s.lookahead >= MIN_MATCH && s.insert == 0
              && (s.strstart - hashHead < s.wsize ==> Candidate(s.Ix(), s.strstart, hashHead))
  {
    hide Candidate, Deflater.IsHead;
  }

  lemma InputLength(s: Deflater)
    requires s.Valid()
    ensures |s.input| == s.base + s.strstart + s.lookahead
  {
    hide Chained, Deflater.Rolled;
  }

  lemma PrefixStays(a: seq<Byte>, b: seq<Byte>, n: nat)
    requires a <= b && n <= |a|
    ensures a[..n] == b[..n]
  {
  }

  lemma MakeAtString(s: Deflater)
    requires s.Valid() && !s.unhashed && s.lookahead > 0 && s.Sizes()
    requires s.lookahead >= MIN_LOOKAHEAD || s.strstart + MIN_LOOKAHEAD <= s.window.Length
    ensures s.AtString()
  {
    hide Chained, Deflater.Rolled;
  }

  lemma MakeSettled(s: Deflater)
    requires s.Valid() && s.lookahead == 0 && s.nextIn == [] && s.Told(s.base + s.strstart)
    ensures s.Settled()
  {
    hide Deflater.Valid, Deflater.Told;
  }

  /** With no tokens in hand the block in hand is empty. */
  lemma NoTokens(s: Deflater, n: nat)
    requires s.Told(n) && s.lastLit == 0
    ensures s.base + s.blockStart == n
  {
    hide Expand;
    assert s.AllTokens() == s.Flushed();
    assert |s.input[..n]| == n;
  }

  lemma LastTwoLeft(s: Deflater, next: nat, end: nat)
    requires s.Core(next, end)
    ensures forall n: nat :: end <= n + 2 ==> s.Core(n, end)
  {
    hide Chained;
    forall n: nat | end <= n + 2
      ensures s.Core(n, end)
    {
      LastTwo(s.Ix(), next, end, n);
    }
  }

  lemma PendingIs(s: Deflater, at: nat, start: nat, len: nat)
    requires s.Pending(at, start, len)
    ensures at < TWO_TO_THE_32 && start < TWO_TO_THE_32 && 0 < Minus(at, start) <= s.MaxDist()
    ensures Repeats(s.input, s.base + at, Minus(at, start), len)
  {
    hide Repeats;
  }

  lemma FilledEnough(s: Deflater, slid: nat, strstart0: nat)
    requires s.strstart == strstart0 - slid && s.strstart + MIN_LOOKAHEAD <= s.window.Length
    requires s.Sizes()
    requires slid == 0 || (slid == s.wsize && strstart0 >= s.wsize + s.MaxDist())
    ensures strstart0 > 0 ==> s.strstart > 0
  {
  }

  /** Sliding the window leaves differences of positions as they are, modulo 2^32. */
  lemma MinusSlid(at: nat, start: nat, wsize: nat)
    requires at < TWO_TO_THE_32 && start < TWO_TO_THE_32 && wsize <= at && wsize < TWO_TO_THE_32
    ensures Minus(at - wsize, Minus(start, wsize)) == Minus(at, start)
  {
  }

  lemma RepeatsGrows(s: seq<Byte>, s': seq<Byte>, a: nat, d: nat, n: nat)
    requires Repeats(s, a, d, n) && s <= s'
    ensures Repeats(s', a, d, n)
  {
  }

  lemma PendingSlid(s: Deflater, input0: seq<Byte>, base0: nat, at0: nat, start0: nat, slid: nat)
    requires at0 < TWO_TO_THE_32 && start0 < TWO_TO_THE_32 && 0 < Minus(at0, start0) <= s.MaxDist()
    requires Repeats(input0, base0 + at0, Minus(at0, start0), s.matchLength) && input0 <= s.input
    requires s.wsize < TWO_TO_THE_32 && (slid == 0 || (slid == s.wsize && s.wsize <= at0))
    requires s.base == base0 + slid && s.strstart > 0 && s.strstart - 1 == at0 - slid
    requires s.matchStart == if slid == 0 then start0 else Minus(start0, s.wsize)
    ensures s.Pending(s.strstart - 1, s.matchStart, s.matchLength)
    ensures s.strstart <= TWO_TO_THE_32 && s.matchStart < TWO_TO_THE_32
    ensures Minus(s.strstart - 1, s.matchStart) == Minus(at0, start0)
  {
    hide Repeats;
    RepeatsGrows(input0, s.input, base0 + at0, Minus(at0, start0), s.matchLength);
    if slid != 0 {
      MinusSlid(at0, start0, s.wsize);
    }
  }

  lemma SizesOf(bits: nat, memLevel: nat)
    requires 9 <= bits <= 15 && 1 <= memLevel <= 9
    ensures 512 <= Pow2(bits) <= 32768 && 128 <= Pow2(memLevel + 6)
  {
    SmallPowers();
    Pow2Mono(9, bits);
    Pow2Mono(bits, 15);
    Pow2Add(13, 2);
    Pow2Mono(7, memLevel + 6);
  }

  lemma LevelChain(level: nat)
    requires 1 <= level <= 9
    ensures ConfigurationOf(level).chain >= 4 && (ConfigurationOf(level).slow <==> level >= 4)
  {
  }

  lemma MadeSizes(s: Deflater)
    requires 9 <= s.wbits <= 15 && s.wsize == Pow2(s.wbits) && 512 <= s.wsize <= 32768
    requires 8 <= s.hashBits <= 16 && s.head.Length == Pow2(s.hashBits)
    requires s.window.Length == 2 * s.wsize && s.prev.Length == s.wsize
    requires s.dBuf.Length == s.lBuf.Length == s.litBufsize && 128 <= s.litBufsize && s.maxChain >= 4
    requires s.unhashed <==> s.strategy == HuffmanOnly || s.strategy == Rle
    requires s.slow ==> !s.unhashed
    requires s.head != s.prev && s.head != s.dBuf && s.prev != s.dBuf && s.window != s.lBuf
    ensures s.Sizes()
  {
    hide Pow2;
  }

  lemma MadeRules(s: Deflater)
    requires s.wsize >= 512
    requires s.slow ==> s.strategy != HuffmanOnly && s.strategy != Rle
    ensures s.Ways().kind == if s.strategy == HuffmanOnly then Plain else if s.strategy == Rle then Runs
                             else if s.slow then Lazy else Greedy
    ensures s.Ways().filtered <==> s.strategy == Filtered
    ensures s.Ways().bits == s.hashBits && s.Ways().maxDist + 262 == s.wsize
    ensures s.Ways().good == s.goodMatch && s.Ways().lazy == s.maxLazy && s.Ways().nice == s.niceMatch
    ensures s.Ways().chain == s.maxChain
  {
  }

  lemma StartsEmpty(s: Deflater)
    requires s.Sizes() && s.head.Length == Pow2(s.hashBits)
    requires forall h: nat :: h < s.head.Length ==> s.head[h] == 0
    requires s.strstart == s.lookahead == s.insert == s.base == s.lastLit == s.matchStart == 0 == s.blockStart
    requires s.matchLength == s.prevLength == MIN_MATCH - 1 && !s.matchAvailable && !s.finished
    requires s.input == [] && s.known == {} && s.blocks == [] && s.nextIn == [] && s.log == []
    ensures s.Compressing() && !s.Ended() && s.AllTokens() == []
  {
    hide *;
    Constants();
    SizesMean(s);
    StartsValid(s);
    StartsTold(s);
    StartsRecorded(s);
    if s.slow {
      MakeSlow(s);
    } else {
      MakeFast(s);
    }
    MakeCompressing(s);
    NotEnded(s);
  }

  lemma StartsValid(s: Deflater)
    requires s.Sizes() && s.head.Length == Pow2(s.hashBits) && s.strstart == s.lookahead == s.insert == s.base == 0
    requires s.input == [] && s.known == {} && forall h: nat :: h < s.head.Length ==> s.head[h] == 0
    ensures s.Valid()
  {
    hide *;
    Constants();
    SizesMean(s);
    NearNone(s.base);
    IxIs(s);
    forall h: nat | h < |s.Ix().head|
      ensures s.Ix().head[h] == 0
    {
      assert s.Ix().head[h] == s.head[h];
    }
    Cleared(s.Ix(), 0, 0);
    LoadedNone(s.window[..]);
    MakeCore(s, 0, 0);
    MakeValid(s);
  }

  lemma NearNone(base: nat)
    ensures Near({}, base) == {}
  {
  }

  lemma LoadedNone(win: seq<Byte>)
    ensures Loaded(win, [], 0, 0)
  {
  }

  lemma StartsTold(s: Deflater)
    requires s.Sizes() && s.lastLit == 0 == s.base == s.blockStart && s.input == [] && s.blocks == []
    ensures s.Told(0) && s.AllTokens() == []
  {
    hide Pow2;
    assert s.AllTokens() == [];
    assert s.input[..0] == [];
  }

  lemma StartsRecorded(s: Deflater)
    requires s.lastLit <= s.dBuf.Length && s.lastLit <= s.lBuf.Length && s.AllTokens() == []
    requires s.strstart == s.base == s.insert == 0 && !s.matchAvailable
    requires s.input == [] && s.known == {} && s.log == []
    ensures s.Recorded()
  {
    hide Deflater.AllTokens, Tells;
    Starts(s.Ways(), 0);
  }

  lemma NotEnded(s: Deflater)
    requires !s.finished
    ensures !s.Ended()
  {
    hide Expand, Encodable;
  }

  lemma CompressingMeans(s: Deflater)
    requires s.Compressing()
    ensures (if s.slow then s.SlowState() else s.FastState()) && s.Recorded()
    ensures s.Sizes() && s.lastLit <= s.dBuf.Length && s.lastLit <= s.lBuf.Length
    ensures s.finished ==> s.Ended()
    ensures s.matchStart < TWO_TO_THE_32
    ensures !s.slow ==> s.matchLength < MIN_MATCH && s.prevLength == MIN_MATCH - 1
    ensures s.slow ==> MIN_MATCH - 1 <= s.matchLength <= MAX_MATCH
    ensures s.slow && s.lookahead == 0 ==> s.matchLength < MIN_MATCH
  {
    hide Loaded, Chained, Deflater.Rolled, Expand, Deflater.Pending;
  }

  lemma MakeCompressing(s: Deflater)
    requires if s.slow then s.SlowState() else s.FastState()
    requires s.Recorded() && (s.finished ==> s.Ended())
    ensures s.Compressing()
  {
    hide Deflater.SlowState, Deflater.FastState, Deflater.Ended, Deflater.Recorded;
  }

  lemma SettledMeans(s: Deflater)
    requires s.Settled()
    ensures s.Valid() && s.lookahead == 0 && s.nextIn == [] && s.Told(s.base + s.strstart)
  {
    hide Deflater.Valid, Deflater.Told;
  }

  lemma MakeDrained(s: Deflater, was: seq<seq<Item>>, flush: Flush, most: nat)
    requires flush == NoFlush && s.nextIn == [] && s.lookahead <= most
    requires FullBlocks(was, s.blocks, s.litBufsize - 1)
    ensures s.Drained(was, flush, most) && was <= s.blocks
  {
  }

  lemma MakeStalled(s: Deflater, was: seq<seq<Item>>, flush: Flush)
    requires FullBlocks(was, s.blocks, s.litBufsize - 1) && |was| < |s.blocks|
    ensures s.Stalled(was, flush) && was <= s.blocks
  {
    hide Expand;
  }

  lemma LeftoverIs(s: Deflater)
    ensures s.Leftover() == if s.strategy == HuffmanOnly then 0 else if s.strategy == Rle then MAX_MATCH
                            else MIN_LOOKAHEAD - 1
  {
  }

  lemma SettledHanded(s: Deflater)
    requires s.Settled() && s.lastLit == 0
    ensures s.AllHanded() && s.lookahead == 0 && s.nextIn == [] && Expand(s.Flushed()) == Bytes(s.input)
  {
    hide Chained, Expand, Deflater.Rolled, Flat;
    NoneInHand(s);
    assert s.input[..|s.input|] == s.input;
  }

  lemma StillHanded(s: Deflater)
    requires s.lookahead == 0 && s.nextIn == [] && s.lastLit == 0 && Expand(s.Flushed()) == Bytes(s.input)
    ensures s.AllHanded()
  {
    hide Expand, Flat;
  }

  /** The rest was handed on. */
  lemma HandedOn(s: Deflater, was: seq<seq<Item>>, flush: Flush)
    requires s.Settled() && s.lastLit == 0 && |was| < |s.blocks| && flush != NoFlush
    ensures s.AllHanded() && (flush != Finish ==> s.Stalled(was, flush))
  {
    hide Chained, Expand, Deflater.Rolled, Flat, FullBlocks;
    NoneInHand(s);
    assert s.input[..|s.input|] == s.input;
  }

  lemma NoneMore(s: Deflater, blocks: seq<seq<Item>>)
    requires s.blocks == blocks
    ensures s.Flushed() == Flat(blocks) && Flat(blocks + [[]]) == Flat(blocks)
  {
    FlatOn(blocks, []);
    assert Flat(blocks) + [] == Flat(blocks);
  }

  lemma NoneInHand(s: Deflater)
    requires s.lastLit == 0
    ensures s.AllTokens() == s.Flushed()
  {
  }

  lemma AfterForget(s: Deflater)
    requires s.Sizes() && |s.input| == s.base && s.strstart == 0 && s.insert == 0 && s.lookahead == 0
    requires s.blockStart == 0 && s.lastLit == 0 && Near(s.known, s.base) == {} && !s.matchAvailable
    requires forall h: nat :: h < s.head.Length ==> s.head[h] == 0
    requires Expand(s.Flushed()) == Bytes(s.input[..s.base]) && Encodable(s.Flushed(), s.MaxDist())
    requires s.matchStart < TWO_TO_THE_32 && s.matchLength < MIN_MATCH
    requires if s.slow then s.matchLength == MIN_MATCH - 1 else s.prevLength == MIN_MATCH - 1
    ensures if s.slow then s.SlowState() else s.FastState()
    ensures s.Valid()
  {
    hide Pow2, Expand;
    Cleared(s.Ix(), 0, 0);
    assert s.AllTokens() == s.Flushed();
    hide Chained;
    if s.slow {
      MakeSlow(s);
    } else {
      MakeFast(s);
    }
  }

  lemma AlreadyEnded(s: Deflater)
    requires s.Compressing() && s.finished
    ensures s.Ended()
  {
  }

  /** What has to be kept of a state when something it does not depend on changes. */
  lemma Arrived(s: Deflater)
    requires s.Compressing()
    ensures s.Recorded() && (s.finished ==> s.Ended())
    ensures s.Valid() && s.lastLit + 1 < s.litBufsize && s.matchStart < TWO_TO_THE_32 && s.Sizes()
    ensures s.slow ==> !s.unhashed
    ensures s.unhashed <==> s.strategy == HuffmanOnly || s.strategy == Rle
    ensures s.slow ==>
              && MIN_MATCH - 1 <= s.matchLength <= MAX_MATCH && (s.matchAvailable ==> s.strstart > 0)
              && s.Told(if s.matchAvailable then s.base + s.strstart - 1 else s.base + s.strstart)
              && (s.matchLength >= MIN_MATCH ==>
                  && s.matchAvailable && s.matchLength - 1 <= s.lookahead
                  && s.Pending(s.strstart - 1, s.matchStart, s.matchLength))
    ensures !s.slow ==>
              && s.Told(s.base + s.strstart) && !s.matchAvailable
              && s.matchLength < MIN_MATCH && s.prevLength == MIN_MATCH - 1
  {
    hide Deflater.SlowState, Deflater.FastState, Deflater.Told, Deflater.Pending, Deflater.Valid;
    hide Deflater.Ended, Deflater.Recorded;
    if s.slow {
      SlowMeans(s);
    } else {
      FastMeans(s);
    }
  }

  lemma MakeEnded(s: Deflater)
    requires s.lookahead == 0 && s.nextIn == [] && s.lastLit == 0 && !s.matchAvailable && s.finished
    requires Expand(s.AllTokens()) == Bytes(s.input) && Encodable(s.AllTokens(), s.MaxDist())
    ensures s.Ended()
  {
    hide Expand, Encodable;
  }

  lemma EndsHere(s: Deflater)
    requires s.Settled() && s.lastLit == 0 && !s.matchAvailable
    ensures s.lastLit <= s.dBuf.Length && s.lastLit <= s.lBuf.Length && s.lookahead == 0 && s.nextIn == []
    ensures Expand(s.AllTokens()) == Bytes(s.input) && Encodable(s.AllTokens(), s.MaxDist())
  {
    hide Chained, Expand, Deflater.Rolled;
    assert s.input[..|s.input|] == s.input;
  }

  // ----- A whole stream -----------------------------------------------------------------------------

  lemma EndedMeans(s: Deflater)
    requires s.Ended()
    ensures s.nextIn == [] && s.lookahead == 0
  {
    hide Expand, Encodable;
  }

  lemma {:induction false} ExpandLength(ts: seq<Item>, maxDist: int, s: seq<Byte>)
    requires Encodable(ts, maxDist) && Expand(ts) == Bytes(s)
    ensures |ts| <= |s|
  {
    hide CopyBack;
    if ts != [] {
      var n := |ts| - 1;
      ExpandLength(ts[..n], maxDist, Expand(ts[..n]).s);
      assert ts[n].Literal? || ts[n].Match?;
    }
  }

  lemma EncodableFront(ts: seq<Item>, us: seq<Item>, maxDist: int)
    requires Encodable(ts + us, maxDist)
    ensures Encodable(ts, maxDist)
  {
    assert forall i: nat :: i < |ts| ==> (ts + us)[i] == ts[i];
  }

  /** Every token stands for a byte at least. */
  lemma CountMeans(s: Deflater)
    requires s.Compressing()
    ensures |s.Flushed()| <= |s.input| && s.litBufsize >= 128 && s.Flushed() == Flat(s.blocks)
  {
    hide *;
    Arrived(s);
    SizesMean(s);
    var n := if s.slow && s.matchAvailable then s.base + s.strstart - 1 else s.base + s.strstart;
    ToldMeans(s, n);
    AllAre(s);
    EncodableFront(s.Flushed(), s.InHand(), s.MaxDist());
    ExpandLength(s.Flushed(), s.MaxDist(), s.input[..s.base + s.blockStart]);
  }

  lemma AllAre(s: Deflater)
    requires s.lastLit <= s.dBuf.Length && s.lastLit <= s.lBuf.Length
    ensures s.AllTokens() == s.Flushed() + s.InHand() && s.Flushed() == Flat(s.blocks)
  {
  }

  lemma {:induction false} FlatGrows(was: seq<seq<Item>>, now: seq<seq<Item>>)
    requires was <= now
    ensures |Flat(was)| <= |Flat(now)|
    ensures was != now && now[|now| - 1] != [] ==> |Flat(was)| < |Flat(now)|
  {
    if was != now {
      FlatGrows(was, now[..|now| - 1]);
    }
  }

  lemma HandedMore(s: Deflater, was: seq<seq<Item>>)
    requires was <= s.blocks && s.litBufsize >= 128 && (!s.finished ==> s.Stalled(was, Finish))
    ensures |Flat(was)| <= |Flat(s.blocks)| && (!s.finished ==> |Flat(was)| < |Flat(s.blocks)|)
  {
    hide Expand, Flat;
    FlatGrows(was, s.blocks);
  }

  /** All of some pieces. */
  function Concat(chunks: seq<seq<Byte>>): seq<Byte> {
    if chunks == [] then [] else Concat(chunks[..|chunks| - 1]) + chunks[|chunks| - 1]
  }

  lemma ConcatOn(chunks: seq<seq<Byte>>, k: nat)
    requires k <= |chunks|
    ensures k == 0 ==> Concat(chunks[..k]) == []
    ensures k < |chunks| ==> Concat(chunks[..k + 1]) == Concat(chunks[..k]) + chunks[k]
    ensures k == |chunks| ==> chunks[..k] == chunks
  {
    if k < |chunks| {
      assert chunks[..k + 1][..k] == chunks[..k];
    }
  }

  /** Data that come in pieces, each with whatever flush, and the end: always comes to the end of
      the stream, whenever the output was full. */
  method Compress(level: nat, windowBits: nat, memLevel: nat, strategy: Strategy,
                  chunks: seq<seq<Byte>>, flushes: seq<Flush>)
    returns (s: Deflater)
    requires 1 <= level <= 9 && 8 <= windowBits <= 15 && 1 <= memLevel <= 9
    requires |flushes| == |chunks| && Finish !in flushes
    ensures fresh(s) && s.Compressing() && s.finished && s.input == Concat(chunks)
    ensures s.wbits == if windowBits == 8 then 9 else windowBits
  {
    hide *;
    s := new Deflater(level, windowBits, memLevel, strategy);
    ConcatOn(chunks, 0);
    var k := 0;
    while k < |chunks|
      invariant k <= |chunks| && s.Compressing() && !s.finished && s.input + s.nextIn == Concat(chunks[..k])
    {
      ConcatOn(chunks, k);
      assert flushes[k] in flushes;
      var _, _ := s.Deflate(chunks[k], flushes[k]);
      k := k + 1;
    }
    ConcatOn(chunks, k);
    s.FinishStream();
  }

  /** Compression is undone by decompression: when a compressor has ended, the blocks it handed
      on, each with whatever codes or stored as it is, decode to all the input it was given. */
  lemma DecompressesToInput(s: Deflater, stream: seq<Byte>, bs: seq<Block>)
    requires s.Compressing() && s.finished && AllRepresent(stream, s.blocks, bs)
    ensures Decoded(stream, bs) == Bytes(s.input) && s.nextIn == []
  {
    hide Expand, AllRepresent, Decoded, Deflater.SlowState, Deflater.FastState;
    NoneInHand(s);
    DecodeOfBlocks(stream, s.blocks, bs, s.input);
  }
}
