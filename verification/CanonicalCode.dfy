/** The canonical prefix code of section 3.2.2 of RFC 1951, defined from code lengths
    alone.  Nothing here knows how inflate builds or searches its tables. */
module CanonicalCode {
  import opened Arith

  const MAXBITS: nat := 15

  ghost predicate ValidLens(lens: seq<nat>) {
    forall s :: 0 <= s < |lens| ==> lens[s] <= MAXBITS
  }

  /** bl_count of the RFC: how many symbols have length `l`. */
  function Count(lens: seq<nat>, l: nat): (n: nat)
    ensures n <= |lens|
  {
    if lens == [] then 0
    else Count(lens[..|lens| - 1], l) + if lens[|lens| - 1] == l then 1 else 0
  }

  /** next_code of the RFC: the first code of length `l`. */
  function FirstCode(lens: seq<nat>, l: nat): nat {
    if l <= 1 then 0 else 2 * (FirstCode(lens, l - 1) + Count(lens, l - 1))
  }

  /** One past the last code of length `l`. */
  function EndCode(lens: seq<nat>, l: nat): nat {
    FirstCode(lens, l) + Count(lens, l)
  }

  /** How many earlier symbols have the same length. */
  function Rank(lens: seq<nat>, s: nat): nat
    requires s < |lens|
  {
    Count(lens[..s], lens[s])
  }

  /** The code of symbol `s`, most significant bit first. */
  function CodeOf(lens: seq<nat>, s: nat): nat
    requires s < |lens|
  {
    FirstCode(lens, lens[s]) + Rank(lens, s)
  }

  /** The code of `s` as it lies in the stream, whose first bit is the lowest one. */
  function StreamCode(lens: seq<nat>, s: nat): (h: nat)
    requires s < |lens|
    ensures h < Pow2(lens[s])
  {
    Rev(lens[s], CodeOf(lens, s))
  }

  /** The stream `x` starts with the code of `s`. */
  ghost predicate Starts(lens: seq<nat>, s: nat, x: nat) {
    s < |lens| && lens[s] > 0 && Low(x, lens[s]) == StreamCode(lens, s)
  }

  /** The share of all `m`-bit words taken by codes of at most `m` bits: the Kraft sum,
      scaled by 2^m. */
  function Kraft(lens: seq<nat>, m: nat): nat {
    if lens == [] then 0
    else
      Kraft(lens[..|lens| - 1], m) +
      var l := lens[|lens| - 1]; if 0 < l <= m then Pow2(m - l) else 0
  }

  ghost predicate OverSubscribed(lens: seq<nat>) {
    Kraft(lens, MAXBITS) > Pow2(MAXBITS)
  }

  ghost predicate Complete(lens: seq<nat>) {
    Kraft(lens, MAXBITS) == Pow2(MAXBITS)
  }

  // ----- The Kraft sum and the RFC's running code ---------------------------------

  lemma {:induction false} KraftStep(lens: seq<nat>, m: nat)
    ensures Kraft(lens, m + 1) == 2 * Kraft(lens, m) + Count(lens, m + 1)
  {
    if lens != [] {
      KraftStep(lens[..|lens| - 1], m);
    }
  }

  lemma {:induction false} KraftIsEnd(lens: seq<nat>, m: nat)
    requires m > 0
    ensures Kraft(lens, m) == EndCode(lens, m)
  {
    KraftStep(lens, m - 1);
    if m == 1 {
      KraftZero(lens);
    } else {
      KraftIsEnd(lens, m - 1);
    }
  }

  lemma {:induction false} KraftZero(lens: seq<nat>)
    ensures Kraft(lens, 0) == 0
  {
    if lens != [] {
      KraftZero(lens[..|lens| - 1]);
    }
  }

  lemma DoublePow(p: nat, k: nat)
    ensures p * Pow2(k + 1) == 2 * (p * Pow2(k))
  {
    MulAssoc(2, p, Pow2(k));
  }

  /** Room lost at one length is never won back at a longer one. */
  lemma {:induction false} EndGrows(lens: seq<nat>, l: nat, m: nat)
    requires 0 < l < m
    ensures FirstCode(lens, m) >= EndCode(lens, l) * Pow2(m - l)
  {
    if l + 1 < m {
      EndGrows(lens, l, m - 1);
      DoublePow(EndCode(lens, l), m - 1 - l);
      hide Pow2;
    } else {
      assert Pow2(1) == 2 by { assert Pow2(0) == 1; }
    }
  }

  lemma FitsShorter(lens: seq<nat>, l: nat, m: nat)
    requires 0 < l < m && EndCode(lens, m) <= Pow2(m)
    ensures EndCode(lens, l) <= Pow2(l)
  {
    EndGrows(lens, l, m);
    Pow2Add(l, m - l);
    MulLess(Pow2(l), EndCode(lens, l), Pow2(m - l));
  }

  /** A set that fits at the longest length fits at every length. */
  lemma FitsEveryLength(lens: seq<nat>, l: nat)
    requires !OverSubscribed(lens) && 0 < l <= MAXBITS
    ensures EndCode(lens, l) <= Pow2(l)
  {
    KraftIsEnd(lens, MAXBITS);
    if l < MAXBITS {
      FitsShorter(lens, l, MAXBITS);
    }
  }

  // ----- Ranks --------------------------------------------------------------------

  lemma {:induction false} CountPrefix(lens: seq<nat>, i: nat, l: nat)
    requires i <= |lens|
    ensures Count(lens[..i], l) <= Count(lens, l)
    ensures i < |lens| && lens[i] == l ==> Count(lens[..i], l) < Count(lens, l)
  {
    if i < |lens| {
      var front := lens[..|lens| - 1];
      assert front[..i] == lens[..i];
      CountPrefix(front, i, l);
    } else {
      assert lens[..i] == lens;
    }
  }

  lemma RankBelowCount(lens: seq<nat>, s: nat)
    requires s < |lens|
    ensures Rank(lens, s) < Count(lens, lens[s])
  {
    CountPrefix(lens, s, lens[s]);
  }

  /** Symbols of one length are ranked in symbol order. */
  lemma RankOrder(lens: seq<nat>, s: nat, t: nat)
    requires s < t < |lens| && lens[s] == lens[t]
    ensures Rank(lens, s) < Rank(lens, t)
  {
    assert lens[..t][..s] == lens[..s];
    CountPrefix(lens[..t], s, lens[s]);
  }

  /** Every rank below the count is some symbol's. */
  lemma {:induction false} SymbolOfRank(lens: seq<nat>, l: nat, r: nat) returns (s: nat)
    requires r < Count(lens, l)
    ensures s < |lens| && lens[s] == l && Rank(lens, s) == r
  {
    var n := |lens| - 1;
    var front := lens[..n];
    if r < Count(front, l) {
      s := SymbolOfRank(front, l, r);
      assert front[..s] == lens[..s];
    } else {
      s := n;
    }
  }

  // ----- Prefix-freeness and completeness ------------------------------------------

  lemma CodeBounds(lens: seq<nat>, s: nat)
    requires !OverSubscribed(lens) && s < |lens| && 0 < lens[s] <= MAXBITS
    ensures FirstCode(lens, lens[s]) <= CodeOf(lens, s) < EndCode(lens, lens[s]) <= Pow2(lens[s])
  {
    RankBelowCount(lens, s);
    FitsEveryLength(lens, lens[s]);
  }

  /** Codes of one length are in the order of their symbols, and a longer code lies above
      everything that extends a shorter one. */
  lemma CodeOrder(lens: seq<nat>, s: nat, t: nat)
    requires s < |lens| && t < |lens| && 0 < lens[s] <= lens[t] && (lens[s] < lens[t] || s < t)
    ensures CodeOf(lens, t) >= (CodeOf(lens, s) + 1) * Pow2(lens[t] - lens[s])
  {
    if lens[s] == lens[t] {
      RankOrder(lens, s, t);
    } else {
      RankBelowCount(lens, s);
      EndGrows(lens, lens[s], lens[t]);
      MulMono(CodeOf(lens, s) + 1, EndCode(lens, lens[s]), Pow2(lens[t] - lens[s]));
    }
  }

  /** The example of section 3.2.2 of RFC 1951. */
  lemma WorkedExample(s: nat)
    requires s < 8
    ensures CodeOf([3, 3, 3, 3, 3, 2, 4, 4], s) == [2, 3, 4, 5, 6, 0, 14, 15][s]
  {
    var lens := [3, 3, 3, 3, 3, 2, 4, 4];
    ExampleCounts(lens, 8);
    ExampleCounts(lens, s);
    hide Count;
    assert lens[..8] == lens;
    assert FirstCode(lens, 2) == 0;
    assert FirstCode(lens, 3) == 2;
    assert FirstCode(lens, 4) == 14;
  }

  lemma {:induction false} ExampleCounts(lens: seq<nat>, n: nat)
    requires lens == [3, 3, 3, 3, 3, 2, 4, 4] && n <= 8
    ensures Count(lens[..n], 1) == 0 && Count(lens[..n], 2) == if n <= 5 then 0 else 1
    ensures Count(lens[..n], 3) == (if n <= 5 then n else 5) && Count(lens[..n], 4) == if n <= 6 then 0 else n - 6
  {
    if n > 0 {
      ExampleCounts(lens, n - 1);
      assert lens[..n][..n - 1] == lens[..n - 1];
    }
  }

  /** No code is a prefix of another: a stream starts with at most one code. */
  lemma PrefixFree(lens: seq<nat>, s: nat, t: nat, x: nat)
    requires ValidLens(lens) && !OverSubscribed(lens)
    requires Starts(lens, s, x) && Starts(lens, t, x)
    ensures s == t
  {
    if lens[s] > lens[t] {
      ShorterIsNotPrefix(lens, t, s, x);
    } else if lens[s] < lens[t] {
      ShorterIsNotPrefix(lens, s, t, x);
    } else {
      CodeBounds(lens, s);
      CodeBounds(lens, t);
      RevInjective(lens[s], CodeOf(lens, s), CodeOf(lens, t));
      if s < t { RankOrder(lens, s, t); }
      if t < s { RankOrder(lens, t, s); }
    }
  }

  lemma ShorterIsNotPrefix(lens: seq<nat>, s: nat, t: nat, x: nat)
    requires ValidLens(lens) && !OverSubscribed(lens)
    requires s < |lens| && t < |lens| && 0 < lens[s] < lens[t]
    ensures !(Starts(lens, s, x) && Starts(lens, t, x))
  {
    hide Pow2, Rev, Low, CodeOf, EndCode, FirstCode;
    CodeBounds(lens, s);
    CodeBounds(lens, t);
    CodeOrder(lens, s, t);
    if Starts(lens, s, x) && Starts(lens, t, x) {
      LowLow(x, lens[s], lens[t]);
      LeadDiffers(lens[s], CodeOf(lens, s), lens[t], CodeOf(lens, t));
    }
  }

  /** A code at or above `(c + 1)` followed by zeros does not start with `c`. */
  lemma LeadDiffers(l: nat, c: nat, m: nat, d: nat)
    requires l <= m && c < Pow2(l) && d < Pow2(m) && d >= (c + 1) * Pow2(m - l)
    ensures Low(Rev(m, d), l) != Rev(l, c)
  {
    RevSplit(l, m, d);
    LeadFits(d, l, m);
    DivBound(d, Pow2(m - l), c + 1);
    RevInjective(l, c, d / Pow2(m - l));
  }

  lemma LeadFits(d: nat, l: nat, m: nat)
    requires l <= m && d < Pow2(m)
    ensures d / Pow2(m - l) < Pow2(l)
  {
    Pow2Add(l, m - l);
    DivBound(d, Pow2(m - l), Pow2(l));
  }

  /** A complete code starts every stream. */
  lemma CompleteCovers(lens: seq<nat>, x: nat) returns (s: nat)
    requires ValidLens(lens) && Complete(lens)
    ensures Starts(lens, s, x)
  {
    hide Pow2, Low, High, Rev, CodeOf, EndCode, Kraft;
    var w := Rev(MAXBITS, Low(x, MAXBITS));
    KraftIsEnd(lens, MAXBITS);
    s := CoverAtMost(lens, w, MAXBITS);
    RevRev(MAXBITS, Low(x, MAXBITS));
    RevSplit(lens[s], MAXBITS, w);
    LowLow(x, lens[s], MAXBITS);
  }

  /** The `l`-bit word `c` extends some code of at most `l` bits, if it is below the space
      those codes take. */
  lemma {:induction false} CoverAtMost(lens: seq<nat>, c: nat, l: nat) returns (s: nat)
    requires 0 < l && c < EndCode(lens, l)
    ensures s < |lens| && 0 < lens[s] <= l
    ensures CodeOf(lens, s) == c / Pow2(l - lens[s])
  {
    if FirstCode(lens, l) <= c {
      s := SymbolOfRank(lens, l, c - FirstCode(lens, l));
      assert Pow2(0) == 1;
    } else {
      s := CoverAtMost(lens, c / 2, l - 1);
      hide Pow2, CodeOf;
      HalfDiv(c, l - 1 - lens[s]);
    }
  }
}
