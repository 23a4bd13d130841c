/** longest_match: following a hash chain for the longest match of a string. */
module MatchSearch {
  import opened Arith
  import opened BitReader
  import opened HashChain

  const MIN_MATCH: nat := 3
  const MAX_MATCH: nat := 258
  const MIN_LOOKAHEAD: nat := MAX_MATCH + MIN_MATCH + 1

  /** Byte `i` of the string at `p`. */
  function Nth(win: seq<Byte>, p: nat, i: nat): Byte
    requires p + i < |win|
  {
    win[p + i]
  }

  /** The first `n` bytes of the strings at `p` and `s` are the same. */
  ghost predicate Agree(win: seq<Byte>, p: nat, s: nat, n: nat) {
    && p + n <= |win| && s + n <= |win|
    && forall i: nat :: i < n ==> Nth(win, p, i) == Nth(win, s, i)
  }

  lemma AgreeMore(win: seq<Byte>, p: nat, s: nat, n: nat)
    requires Agree(win, p, s, n) && p + n < |win| && s + n < |win|
    ensures win[p + n] == win[s + n] <==> Agree(win, p, s, n + 1)
  {
    assert Nth(win, p, n) == win[p + n] && Nth(win, s, n) == win[s + n];
  }

  lemma AgreeLess(win: seq<Byte>, p: nat, s: nat, n: nat, m: nat)
    requires Agree(win, p, s, n) && m <= n
    ensures Agree(win, p, s, m)
  {
  }

  lemma NotMore(win: seq<Byte>, p: nat, s: nat, n: nat, m: nat)
    ensures n <= m && !Agree(win, p, s, n) ==> !Agree(win, p, s, m)
  {
  }

  lemma DisagreeAt(win: seq<Byte>, p: nat, s: nat, n: nat, i: nat)
    requires i < n && p + i < |win| && s + i < |win| && win[p + i] != win[s + i]
    ensures !Agree(win, p, s, n)
  {
    assert Nth(win, p, i) != Nth(win, s, i);
  }

  /** How many bytes the strings at `p` and `s` have in common, of the first `cap`. */
  ghost function Common(data: seq<Byte>, p: nat, s: nat, cap: nat): (n: nat)
    requires p <= s && s + cap <= |data|
    ensures n <= cap
    decreases cap
  {
    if cap == 0 || data[p] != data[s] then 0 else 1 + Common(data, p + 1, s + 1, cap - 1)
  }

  lemma {:induction false} CommonMeans(data: seq<Byte>, p: nat, s: nat, cap: nat)
    requires p <= s && s + cap <= |data|
    ensures Agree(data, p, s, Common(data, p, s, cap))
    ensures Common(data, p, s, cap) < cap ==> !Agree(data, p, s, Common(data, p, s, cap) + 1)
    decreases cap
  {
    if cap > 0 && data[p] == data[s] {
      CommonMeans(data, p + 1, s + 1, cap - 1);
      var n := Common(data, p + 1, s + 1, cap - 1);
      forall i: nat | i < n + 1
        ensures Nth(data, p, i) == Nth(data, s, i)
      {
        if i > 0 {
          assert Nth(data, p + 1, i - 1) == Nth(data, s + 1, i - 1);
        }
      }
      AgreeTail(data, p, s, n + 1);
    } else if cap > 0 {
      DisagreeAt(data, p, s, 1, 0);
    }
  }

  lemma AgreeTail(data: seq<Byte>, p: nat, s: nat, n: nat)
    ensures Agree(data, p, s, n + 1) ==> Agree(data, p + 1, s + 1, n)
  {
    if Agree(data, p, s, n + 1) {
      forall i: nat {:trigger Nth(data, p + 1, i)} | i < n
        ensures Nth(data, p + 1, i) == Nth(data, s + 1, i)
      {
        assert Nth(data, p, i + 1) == Nth(data, s, i + 1);
      }
    }
  }

  lemma CommonIs(data: seq<Byte>, p: nat, s: nat, cap: nat, n: nat)
    requires p <= s && s + cap <= |data|
    ensures n <= cap && Agree(data, p, s, n) ==> n <= Common(data, p, s, cap)
    ensures n < cap && !Agree(data, p, s, n + 1) ==> Common(data, p, s, cap) <= n
  {
    hide Agree, Common;
    var c := Common(data, p, s, cap);
    CommonMeans(data, p, s, cap);
    if c < n && Agree(data, p, s, n) {
      AgreeLess(data, p, s, n, c + 1);
    } else if n < c {
      AgreeLess(data, p, s, c, n + 1);
    }
  }

  // ----- What a search is to find -----------------------------------------------------------------

  function Behind(base: nat, s: nat, dist: nat): nat {
    if s > base + dist then s - dist else base
  }

  /** The strings a search for the one at `s` looks at: those of its key after `base`, the latest
      at most `maxDist` back and the others less, at most `n`. */
  ghost function Searched(bits: nat, data: seq<Byte>, known: set<nat>, base: nat, s: nat, maxDist: nat, n: nat)
    : seq<nat>
    requires s + 2 < |data| && n > 0
  {
    var first := Strings(bits, data, known, s, s, Behind(base, s, maxDist + 1), 1);
    StringsMean(bits, data, known, s, s, Behind(base, s, maxDist + 1), 1);
    if first == [] then []
    else first + Strings(bits, data, known, s, first[0], Behind(base, s, maxDist), n - 1)
  }

  datatype Longest = Longest(len: nat, start: nat)

  ghost predicate Earlier(list: seq<nat>, s: nat) {
    forall i: nat :: i < |list| ==> list[i] < s
  }

  /** The longest of the strings in `list`, the first of them if there are several, but no further
      than the first that is nice enough; `f` if none is longer. */
  ghost function Best(data: seq<Byte>, s: nat, cap: nat, list: seq<nat>, f: Longest, nice: nat): Longest
    requires s + cap <= |data| && Earlier(list, s)
    decreases |list|
  {
    if list == [] then f
    else
      var n := Common(data, list[0], s, cap);
      if n > f.len && n >= nice then Longest(n, list[0])
      else Best(data, s, cap, list[1..], if n > f.len then Longest(n, list[0]) else f, nice)
  }

  /** What it finds, in terms of the strings alone. */
  ghost predicate IsBest(data: seq<Byte>, s: nat, cap: nat, list: seq<nat>, len0: nat, nice: nat, f: Longest)
    requires s + cap <= |data| && Earlier(list, s)
  {
    if f.len == len0 then forall i: nat :: i < |list| ==> Common(data, list[i], s, cap) <= len0
    else exists k: nat :: IsBestAt(data, s, cap, list, len0, nice, f, k)
  }

  /** String `k` is found: it has that many bytes in common, those before it fewer, and none of
      them enough to end the search; and unless it ended it, no string has more. */
  ghost predicate IsBestAt(data: seq<Byte>, s: nat, cap: nat, list: seq<nat>, len0: nat, nice: nat, f: Longest, k: nat)
    requires s + cap <= |data| && Earlier(list, s)
  {
    && k < |list| && f == Longest(Common(data, list[k], s, cap), list[k]) && f.len > len0
    && (forall i: nat :: i < k ==>
          Common(data, list[i], s, cap) < f.len
          && (Common(data, list[i], s, cap) <= len0 || Common(data, list[i], s, cap) < nice))
    && (f.len >= nice || forall i: nat :: i < |list| ==> Common(data, list[i], s, cap) <= f.len)
  }

  lemma {:induction false} BestMeans(data: seq<Byte>, s: nat, cap: nat, list: seq<nat>, f: Longest, nice: nat)
    requires s + cap <= |data| && Earlier(list, s)
    ensures IsBest(data, s, cap, list, f.len, nice, Best(data, s, cap, list, f, nice))
    ensures Best(data, s, cap, list, f, nice).len == f.len ==> Best(data, s, cap, list, f, nice) == f
    ensures Best(data, s, cap, list, f, nice).len >= f.len
    decreases |list|
  {
    hide Common;
    if list != [] {
      var n := Common(data, list[0], s, cap);
      if n > f.len && n >= nice {
        assert IsBestAt(data, s, cap, list, f.len, nice, Longest(n, list[0]), 0);
      } else {
        var f' := if n > f.len then Longest(n, list[0]) else f;
        BestMeans(data, s, cap, list[1..], f', nice);
        BestOn(data, s, cap, list, f, nice, f', Best(data, s, cap, list[1..], f', nice));
      }
    }
  }

  lemma BestOn(data: seq<Byte>, s: nat, cap: nat, list: seq<nat>, f: Longest, nice: nat, f': Longest, g: Longest)
    requires s + cap <= |data| && Earlier(list, s) && list != []
    requires var n := Common(data, list[0], s, cap);
             (n <= f.len || n < nice) && f' == if n > f.len then Longest(n, list[0]) else f
    requires IsBest(data, s, cap, list[1..], f'.len, nice, g) && g.len >= f'.len && (g.len == f'.len ==> g == f')
    ensures IsBest(data, s, cap, list, f.len, nice, g)
  {
    hide Common;
    if g.len == f'.len {
      if g.len > f.len {
        assert IsBestAt(data, s, cap, list, f.len, nice, g, 0);
      }
    } else {
      var k: nat :| IsBestAt(data, s, cap, list[1..], f'.len, nice, g, k);
      assert IsBestAt(data, s, cap, list, f.len, nice, g, k + 1);
    }
  }

  /** Nothing is longer than what there was, if that is as much as counts. */
  lemma {:induction false} BestStays(data: seq<Byte>, s: nat, cap: nat, list: seq<nat>, f: Longest, nice: nat)
    requires s + cap <= |data| && Earlier(list, s) && cap <= f.len
    ensures Best(data, s, cap, list, f, nice) == f
    decreases |list|
  {
    hide Common;
    if list != [] {
      BestStays(data, s, cap, list[1..], f, nice);
    }
  }

  lemma EarlierAll(bits: nat, data: seq<Byte>, known: set<nat>, base: nat, s: nat, maxDist: nat, n: nat)
    requires s + 2 < |data| && n > 0
    ensures Earlier(Searched(bits, data, known, base, s, maxDist, n), s)
    ensures forall i: nat :: i < |Searched(bits, data, known, base, s, maxDist, n)| ==>
              var p := Searched(bits, data, known, base, s, maxDist, n)[i];
              base < p < s && s - p <= maxDist && p in known && KeyAt(bits, data, p) == KeyAt(bits, data, s)
  {
    hide Strings, KeyAt;
    var first := Strings(bits, data, known, s, s, Behind(base, s, maxDist + 1), 1);
    StringsMean(bits, data, known, s, s, Behind(base, s, maxDist + 1), 1);
    if first != [] {
      StringsMean(bits, data, known, s, first[0], Behind(base, s, maxDist), n - 1);
      assert OfKey(bits, data, known, s, first[0]);
      var rest := Strings(bits, data, known, s, first[0], Behind(base, s, maxDist), n - 1);
      forall i: nat | i < |rest|
        ensures base < rest[i] < s && s - rest[i] <= maxDist && rest[i] in known
        ensures KeyAt(bits, data, rest[i]) == KeyAt(bits, data, s)
      {
        assert OfKey(bits, data, known, s, rest[i]);
      }
    }
  }

  /** The scan compares bytes in rounds of eight from the fourth byte on; the 256th
      comparison is at offset 258. */
  method Scan(window: array<Byte>, match0: nat, strstart: nat) returns (len: nat)
    requires match0 < strstart && strstart + MIN_LOOKAHEAD <= window.Length
    requires Agree(window[..], match0, strstart, 3)
    ensures 3 <= len <= MAX_MATCH && Agree(window[..], match0, strstart, len)
    ensures len < MAX_MATCH ==> !Agree(window[..], match0, strstart, len + 1)
  {
    hide Agree;
    var scan := 2;
    var going := true;
    while going && scan < MAX_MATCH
      invariant 2 <= scan <= MAX_MATCH && scan % 8 == (if going then 2 else scan % 8)
      invariant if going then Agree(window[..], match0, strstart, scan + 1)
                else scan >= 3 && Agree(window[..], match0, strstart, scan)
                     && !Agree(window[..], match0, strstart, scan + 1)
      decreases going, MAX_MATCH - scan
    {
      scan, going := Eight(window, match0, strstart, scan);
    }
    len := scan;
    if going {
      AgreeLess(window[..], match0, strstart, scan + 1, scan);
    }
  }

  /** One round. */
  method Eight(window: array<Byte>, match0: nat, strstart: nat, scan0: nat) returns (scan: nat, going: bool)
    requires match0 < strstart && strstart + scan0 + 8 < window.Length
    requires Agree(window[..], match0, strstart, scan0 + 1)
    ensures scan0 < scan <= scan0 + 8 && (going ==> scan == scan0 + 8)
    ensures if going then Agree(window[..], match0, strstart, scan + 1)
            else Agree(window[..], match0, strstart, scan) && !Agree(window[..], match0, strstart, scan + 1)
  {
    hide Agree;
    scan, going := scan0, true;
    while going && scan < scan0 + 8
      invariant scan0 <= scan <= scan0 + 8 && (going || scan0 < scan)
      invariant if going then Agree(window[..], match0, strstart, scan + 1)
                else Agree(window[..], match0, strstart, scan) && !Agree(window[..], match0, strstart, scan + 1)
      decreases going, scan0 + 8 - scan
    {
      AgreeMore(window[..], match0, strstart, scan + 1);
      scan := scan + 1;
      going := window[strstart + scan] == window[match0 + scan];
    }
  }

  /** How far the strings at `match0` and `strstart` agree; 0 if it takes no scan to see
      that this is no more than `best` bytes. */
  method Compare(window: array<Byte>, ghost x: Index, match0: nat, strstart: nat, ghost end: nat, best: nat)
    returns (len: nat)
    requires x.win == window[..] && Chained(x, strstart + 1, end) && Candidate(x, strstart, match0) && x.bits >= 8
    requires strstart + MIN_LOOKAHEAD <= window.Length && 1 <= best <= MAX_MATCH
    ensures len <= MAX_MATCH && Agree(window[..], match0, strstart, len)
    ensures len <= best && best < MAX_MATCH ==> !Agree(window[..], match0, strstart, best + 1)
    ensures len > best && len < MAX_MATCH ==> !Agree(window[..], match0, strstart, len + 1)
  {
    ghost var win := window[..];
    NoneAgree(win, match0, strstart);
    hide Agree, Chained, Candidate, Key;
    IsBefore(x, strstart, match0);
    if window[match0 + best] != window[strstart + best] {
      DisagreeAt(win, match0, strstart, best + 1, best);
      return 0;
    }
    if window[match0 + best - 1] != window[strstart + best - 1] {
      DisagreeAt(win, match0, strstart, best + 1, best - 1);
      return 0;
    }
    if window[match0] != window[strstart] {
      DisagreeAt(win, match0, strstart, best + 1, 0);
      return 0;
    }
    if window[match0 + 1] != window[strstart + 1] {
      DisagreeAt(win, match0, strstart, best + 1, 1);
      return 0;
    }
    CandidateMatches(x, strstart + 1, end, strstart, match0);
    ThreeAgree(win, match0, strstart);
    len := Scan(window, match0, strstart);
    NotMore(win, match0, strstart, len + 1, best + 1);
  }

  lemma NoneAgree(win: seq<Byte>, p: nat, s: nat)
    ensures p <= |win| && s <= |win| ==> Agree(win, p, s, 0)
  {
  }

  lemma IsBefore(x: Index, s: nat, p: nat)
    requires Candidate(x, s, p)
    ensures p < s && s + 2 < |x.win| && p + |x.prev| > s
  {
  }

  lemma IsPlaced(x: Index, s: nat, lookahead: nat, p: nat)
    requires Chained(x, s + 1, s + lookahead) && Candidate(x, s, p)
    ensures 0 < p < s && s + 2 < |x.win|
  {
    hide Key, HeadOk, LinkOk;
  }

  lemma ThreeAgree(win: seq<Byte>, p: nat, s: nat)
    requires p < s && s + 2 < |win|
    requires win[p] == win[s] && win[p + 1] == win[s + 1] && win[p + 2] == win[s + 2]
    ensures Agree(win, p, s, 3)
  {
  }

  /** The loop of a search: `f` is the best so far, and what is yet to be looked at decides about
      the rest. */
  ghost predicate Searching(win: seq<Byte>, s: nat, cap: nat, all: seq<nat>, rest: seq<nat>, best0: nat, nice: nat,
                            f: Longest) {
    && s + cap <= |win| && Earlier(all, s) && Earlier(rest, s) && 1 <= f.len <= MAX_MATCH
    && Best(win, s, cap, all, Longest(best0, 0), nice) == Best(win, s, cap, rest, f, nice)
    && (f == Longest(best0, 0) || best0 < f.len < nice)
  }

  /** longest_match. */
  method LongestMatch(window: array<Byte>, prev: array<nat>, ghost x: Index, curMatch: nat, strstart: nat,
                      lookahead: nat, prevLength: nat, matchStart0: nat,
                      goodMatch: nat, niceMatch: nat, maxChain: nat, maxDist: nat)
    returns (len: nat, matchStart: nat)
    requires x.win == window[..] && x.prev == prev[..] && x.bits >= 8
    requires Chained(x, strstart + 1, strstart + lookahead) && Candidate(x, strstart, curMatch)
    requires IsLatest(x, Key(x, strstart), strstart, curMatch)
    requires strstart + MIN_LOOKAHEAD <= window.Length && maxDist + MIN_LOOKAHEAD == prev.Length
    requires strstart - curMatch <= maxDist && 1 <= prevLength <= MAX_MATCH && maxChain >= 4
    ensures len <= lookahead && len <= MAX_MATCH && (matchStart == matchStart0 || matchStart < strstart)
    ensures var list := Searched(x.bits, window[..], x.entered, 0, strstart, maxDist,
                                 if prevLength >= goodMatch then maxChain / 4 else maxChain);
            var cap, nice := Min(lookahead, MAX_MATCH), Min(niceMatch, lookahead);
            && Earlier(list, strstart)
            && var f := Best(window[..], strstart, cap, list, Longest(prevLength, 0), nice);
               && len == Min(f.len, lookahead)
               && (len > prevLength <==> f.len > prevLength) && (len > prevLength ==> f == Longest(len, matchStart))
               && IsBest(window[..], strstart, cap, list, prevLength, nice, f)
    ensures len <= prevLength ==> len == Min(prevLength, lookahead)
    ensures len > prevLength ==>
              && matchStart < strstart && strstart - matchStart <= maxDist
              && Agree(window[..], matchStart, strstart, len)
              && (len < Min(lookahead, MAX_MATCH) ==> !Agree(window[..], matchStart, strstart, len + 1))
  {
    hide *;
    MaxMin();
    var chainLength, nice := maxChain, niceMatch;
    if prevLength >= goodMatch {
      chainLength := chainLength / 4;
    }
    if nice > lookahead {
      nice := lookahead;
    }
    var best;
    best, matchStart := FollowChain(window, prev, x, curMatch, strstart, lookahead, prevLength, matchStart0, nice,
                                    chainLength, maxDist);
    len := if best <= lookahead then best else lookahead;
    EndSearch(x, strstart, lookahead, maxDist, chainLength, prevLength, nice, matchStart, len);
  }

  /** The loop over the strings. */
  method FollowChain(window: array<Byte>, prev: array<nat>, ghost x: Index, curMatch: nat, strstart: nat,
                     lookahead: nat, prevLength: nat, matchStart0: nat, nice: nat, maxChain: nat, maxDist: nat)
    returns (best: nat, matchStart: nat)
    requires x.win == window[..] && x.prev == prev[..] && x.bits >= 8
    requires Chained(x, strstart + 1, strstart + lookahead) && Candidate(x, strstart, curMatch)
    requires IsLatest(x, Key(x, strstart), strstart, curMatch)
    requires strstart + MIN_LOOKAHEAD <= window.Length && maxDist + MIN_LOOKAHEAD == prev.Length
    requires strstart - curMatch <= maxDist && 1 <= prevLength <= MAX_MATCH && maxChain > 0 && nice <= lookahead
    ensures matchStart == matchStart0 || matchStart < strstart
    ensures var list := Searched(x.bits, window[..], x.entered, 0, strstart, maxDist, maxChain);
            && Earlier(list, strstart)
            && var f := Best(window[..], strstart, Min(lookahead, MAX_MATCH), list, Longest(prevLength, 0), nice);
               && Min(best, lookahead) == Min(f.len, lookahead)
               && (Min(best, lookahead) > prevLength <==> f.len > prevLength)
               && (Min(best, lookahead) > prevLength ==> f == Longest(Min(best, lookahead), matchStart))
  {
    hide *;
    MaxMin();
    ghost var win := window[..];
    var chainLength: nat, cur: nat := maxChain, curMatch;
    best, matchStart := prevLength, matchStart0;
    var limit := if strstart > maxDist then strstart - maxDist else 0;
    ghost var cap := Min(lookahead, MAX_MATCH);
    IsPlaced(x, strstart, lookahead, curMatch);
    ghost var all := Searched(x.bits, win, x.entered, 0, strstart, maxDist, chainLength);
    ghost var rest, f := all, Longest(prevLength, 0);
    StartSearch(x, strstart, lookahead, maxDist, chainLength, cur, limit, f, nice);
    while true
      invariant Candidate(x, strstart, cur) && strstart - cur <= maxDist && chainLength >= 1
      invariant rest == From(x, strstart, limit, cur, chainLength)
      invariant Searching(win, strstart, cap, all, rest, prevLength, nice, f)
      invariant best == f.len && (if best == prevLength then matchStart == matchStart0 else matchStart == f.start)
      invariant matchStart == matchStart0 || matchStart < strstart
      decreases chainLength
    {
      SearchingMeans(win, strstart, cap, all, rest, prevLength, nice, f);
      var n := Compare(window, x, cur, strstart, strstart + lookahead, best);
      NextCandidate(x, strstart + 1, strstart + lookahead, strstart, cur);
      IsBefore(x, strstart, cur);
      var next := prev[Slot(cur, prev.Length)];
      NextFrom(x, strstart, limit, cur, chainLength, next);
      if n > best {
        matchStart := cur;
        best := n;
        if n >= nice {
          NiceFound(win, strstart, lookahead, cap, all, rest, prevLength, nice, f, n);
          break;
        }
        GoOn(win, strstart, lookahead, cap, all, rest, prevLength, nice, f, n);
        f := Longest(n, cur);
      } else {
        NotLonger(win, strstart, cap, all, rest, prevLength, nice, f, n);
      }
      rest := rest[1..];
      if next <= limit {
        Looked(win, strstart, cap, all, prevLength, nice, f);
        break;
      }
      chainLength := chainLength - 1;
      if chainLength == 0 {
        Looked(win, strstart, cap, all, prevLength, nice, f);
        break;
      }
      cur := next;
    }
  }

  lemma MaxMin()
    ensures forall a: int, b: int :: Max(a, b) == (if a <= b then b else a) && Min(a, b) == (if a <= b then a else b)
  {
  }

  /** What is left of the strings when the one at `p` is in hand. */
  ghost function From(x: Index, s: nat, limit: nat, p: nat, n: nat): seq<nat>
    requires n > 0
  {
    if p <= s && s + 2 < |x.win| then [p] + Strings(x.bits, x.win, x.entered, s, p, limit, n - 1) else [p]
  }

  lemma NextFrom(x: Index, s: nat, limit: nat, p: nat, n: nat, q: nat)
    requires n > 0 && p < s && s + 2 < |x.win| && IsLatest(x, Key(x, s), p, q) && (q > 0 ==> q < p)
    ensures From(x, s, limit, p, n) != [] && From(x, s, limit, p, n)[0] == p
    ensures From(x, s, limit, p, n)[1..] == if q <= limit || n == 1 then [] else From(x, s, limit, q, n - 1)
  {
    hide Strings, IsLatest, Key;
    NextString(x, s, p, limit, n - 1, q);
  }

  lemma NoStrings(x: Index, s: nat, q: nat, low: nat)
    requires q <= s && s + 2 < |x.win|
    ensures Strings(x.bits, x.win, x.entered, s, q, low, 0) == []
  {
  }

  lemma StartSearch(x: Index, s: nat, lookahead: nat, maxDist: nat, n: nat, p: nat, limit: nat, f: Longest, nice: nat)
    requires s + MIN_LOOKAHEAD <= |x.win| && IsLatest(x, Key(x, s), s, p)
    requires Candidate(x, s, p) && 0 < p < s && s - p <= maxDist && n > 0
    requires limit == (if s > maxDist then s - maxDist else 0) && f.start == 0 && 1 <= f.len <= MAX_MATCH
    ensures Searched(x.bits, x.win, x.entered, 0, s, maxDist, n) == From(x, s, limit, p, n)
    ensures var all := Searched(x.bits, x.win, x.entered, 0, s, maxDist, n);
            Searching(x.win, s, Min(lookahead, MAX_MATCH), all, all, f.len, nice, f)
  {
    hide Strings, Best, IsLatest, Candidate, Key;
    NextString(x, s, s, Behind(0, s, maxDist + 1), 1, p);
    NoStrings(x, s, p, Behind(0, s, maxDist + 1));
    assert [p] + [] == [p];
    EarlierAll(x.bits, x.win, x.entered, 0, s, maxDist, n);
  }

  lemma SearchingMeans(win: seq<Byte>, s: nat, cap: nat, all: seq<nat>, rest: seq<nat>, best0: nat, nice: nat,
                       f: Longest)
    requires Searching(win, s, cap, all, rest, best0, nice, f)
    ensures s + cap <= |win| && Earlier(all, s) && Earlier(rest, s) && 1 <= f.len <= MAX_MATCH && best0 <= f.len
  {
    hide Best, Earlier;
  }

  /** One string, which is not longer than the best. */
  lemma NotLonger(win: seq<Byte>, s: nat, cap: nat, all: seq<nat>, rest: seq<nat>, best0: nat, nice: nat, f: Longest,
                  n: nat)
    requires Searching(win, s, cap, all, rest, best0, nice, f) && rest != [] && n <= f.len && cap <= MAX_MATCH
    requires f.len < MAX_MATCH ==> !Agree(win, rest[0], s, f.len + 1)
    ensures Searching(win, s, cap, all, rest[1..], best0, nice, f)
  {
    hide Agree, Common;
    CommonIs(win, rest[0], s, cap, f.len);
  }

  /** One that is longer, but not enough. */
  lemma GoOn(win: seq<Byte>, s: nat, lookahead: nat, cap: nat, all: seq<nat>, rest: seq<nat>, best0: nat, nice: nat,
             f: Longest, n: nat)
    requires Searching(win, s, cap, all, rest, best0, nice, f) && rest != [] && f.len < n < nice
    requires Agree(win, rest[0], s, n) && (n < MAX_MATCH ==> !Agree(win, rest[0], s, n + 1))
    requires nice <= lookahead && cap == Min(lookahead, MAX_MATCH) && n <= MAX_MATCH
    ensures Searching(win, s, cap, all, rest[1..], best0, nice, Longest(n, rest[0]))
  {
    hide Agree, Common;
    CommonIs(win, rest[0], s, cap, n);
  }

  /** One that ends the search. */
  lemma NiceFound(win: seq<Byte>, s: nat, lookahead: nat, cap: nat, all: seq<nat>, rest: seq<nat>, best0: nat,
                  nice: nat, f: Longest, n: nat)
    requires Searching(win, s, cap, all, rest, best0, nice, f) && rest != [] && f.len < n && nice <= n
    requires Agree(win, rest[0], s, n) && (n < MAX_MATCH ==> !Agree(win, rest[0], s, n + 1))
    requires nice <= lookahead && cap == Min(lookahead, MAX_MATCH) && n <= MAX_MATCH
    ensures Best(win, s, cap, all, Longest(best0, 0), nice)
         == if best0 < lookahead then Longest(Min(n, lookahead), rest[0]) else Longest(best0, 0)
  {
    hide Agree, Common;
    AgreeLess(win, rest[0], s, n, Min(n, lookahead));
    CommonIs(win, rest[0], s, cap, Min(n, lookahead));
    if best0 >= lookahead {
      BestStays(win, s, cap, rest, f, nice);
    }
  }

  /** All were looked at. */
  lemma Looked(win: seq<Byte>, s: nat, cap: nat, all: seq<nat>, best0: nat, nice: nat, f: Longest)
    requires Searching(win, s, cap, all, [], best0, nice, f)
    ensures Best(win, s, cap, all, Longest(best0, 0), nice) == f
    ensures f == Longest(best0, 0) || best0 < f.len < nice
  {
    hide Common;
  }

  lemma EndSearch(x: Index, s: nat, lookahead: nat, maxDist: nat, n: nat, best0: nat, nice: nat, start: nat, len: nat)
    requires s + MIN_LOOKAHEAD <= |x.win| && n > 0 && 1 <= best0 <= MAX_MATCH
    requires var list := Searched(x.bits, x.win, x.entered, 0, s, maxDist, n);
             && Earlier(list, s)
             && var f := Best(x.win, s, Min(lookahead, MAX_MATCH), list, Longest(best0, 0), nice);
                len == Min(f.len, lookahead) && (len > best0 ==> f == Longest(len, start))
    ensures var list := Searched(x.bits, x.win, x.entered, 0, s, maxDist, n);
            var f := Best(x.win, s, Min(lookahead, MAX_MATCH), list, Longest(best0, 0), nice);
            IsBest(x.win, s, Min(lookahead, MAX_MATCH), list, best0, nice, f)
    ensures len <= MAX_MATCH && (len <= best0 ==> len == Min(best0, lookahead))
    ensures len > best0 ==>
              && start < s && s - start <= maxDist && Agree(x.win, start, s, len)
              && (len < Min(lookahead, MAX_MATCH) ==> !Agree(x.win, start, s, len + 1))
  {
    hide Agree, Common, Best, Searched, Earlier;
    var list := Searched(x.bits, x.win, x.entered, 0, s, maxDist, n);
    var cap := Min(lookahead, MAX_MATCH);
    EarlierAll(x.bits, x.win, x.entered, 0, s, maxDist, n);
    BestMeans(x.win, s, cap, list, Longest(best0, 0), nice);
    var f := Best(x.win, s, cap, list, Longest(best0, 0), nice);
    if f.len > best0 {
      var k: nat :| IsBestAt(x.win, s, cap, list, best0, nice, f, k);
      CommonMeans(x.win, list[k], s, cap);
    }
  }
}
