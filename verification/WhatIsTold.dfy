/** What the rules of the compressors mean: which string a match is taken from, when a byte goes out
    as it is, where in the input each token belongs, and what is out of reach. */
module WhatIsTold {
  import opened Arith
  import opened BitReader
  import opened DeflateFormat
  import opened HashKey
  import opened HashChain
  import opened MatchSearch
  import opened Choices
  import opened Lz77
  import opened Deflate

  // ----- The strings searched -------------------------------------------------------------------------

  /** A string that is known, may be reached, and has the key of the one at `s`. */
  ghost predicate Reachable(r: Rules, data: seq<Byte>, known: set<nat>, base: nat, s: nat, p: nat)
    requires s + 2 < |data|
  {
    base < p < s && s - p < r.maxDist && OfKey(r.bits, data, known, s, p)
  }

  /** A search looks at `n` strings at most, the latest first, and at all that can be reached if
      there are no more; only the first may be just as far back as a match may reach. */
  lemma SearchedMeans(r: Rules, data: seq<Byte>, known: set<nat>, base: nat, s: nat, n: nat)
    requires s + 2 < |data| && n > 0
    ensures var l := Searched(r.bits, data, known, base, s, r.maxDist, n);
            && |l| <= n
            && (forall i: nat :: i < |l| ==>
                  base < l[i] < s && s - l[i] <= r.maxDist && OfKey(r.bits, data, known, s, l[i]))
            && (forall i: nat, j: nat :: i < j < |l| ==> l[j] < l[i])
            && (forall p: nat :: Reachable(r, data, known, base, s, p) ==>
                  p in l || (|l| == n && forall i: nat :: i < |l| ==> p < l[i]))
  {
    hide *;
    var low1, low := Behind(base, s, r.maxDist + 1), Behind(base, s, r.maxDist);
    BehindIs(base, s, r.maxDist);
    BehindIs(base, s, r.maxDist + 1);
    StringsMean(r.bits, data, known, s, s, low1, 1);
    SearchedIs(r.bits, data, known, base, s, r.maxDist, n);
    var first := Strings(r.bits, data, known, s, s, low1, 1);
    if first != [] {
      StringsMean(r.bits, data, known, s, first[0], low, n - 1);
    }
    forall p: nat | Reachable(r, data, known, base, s, p)
      ensures var l := Searched(r.bits, data, known, base, s, r.maxDist, n);
              p in l || (|l| == n && forall i: nat :: i < |l| ==> p < l[i])
    {
      ReachableMeans(r, data, known, base, s, p);
    }
  }

  lemma BehindIs(base: nat, s: nat, dist: nat)
    ensures Behind(base, s, dist) == if s > base + dist then s - dist else base
  {
  }

  lemma ReachableMeans(r: Rules, data: seq<Byte>, known: set<nat>, base: nat, s: nat, p: nat)
    requires s + 2 < |data| && Reachable(r, data, known, base, s, p)
    ensures base < p < s && s - p < r.maxDist && OfKey(r.bits, data, known, s, p)
  {
    hide OfKey;
  }

  /** A known string that agrees in three bytes is among them, unless there are more of its key
      than are looked at. */
  lemma AgreesSearched(r: Rules, data: seq<Byte>, known: set<nat>, base: nat, s: nat, n: nat, p: nat)
    requires s + 2 < |data| && n > 0
    requires p in known && base < p < s && s - p < r.maxDist && Agree(data, p, s, 3)
    ensures var l := Searched(r.bits, data, known, base, s, r.maxDist, n);
            p in l || (|l| == n && forall i: nat :: i < |l| ==> p < l[i])
  {
    SameThree(r.bits, data, p, s);
    SearchedMeans(r, data, known, base, s, n);
    hide Searched, KeyAt;
    assert Reachable(r, data, known, base, s, p);
  }

  lemma SameThree(bits: nat, data: seq<Byte>, p: nat, s: nat)
    requires Agree(data, p, s, 3)
    ensures p + 2 < |data| && s + 2 < |data| && KeyAt(bits, data, p) == KeyAt(bits, data, s)
  {
    assert Nth(data, p, 0) == Nth(data, s, 0) && Nth(data, p, 1) == Nth(data, s, 1)
        && Nth(data, p, 2) == Nth(data, s, 2);
    hide Key3;
  }

  // ----- deflate_fast ---------------------------------------------------------------------------------

  /** A literal goes out exactly if no string searched agrees in three bytes, or there are no three
      bytes; otherwise the longest match, up to the first that is nice. */
  lemma GreedyMeans(r: Rules, data: seq<Byte>, base: nat, st: Stand)
    requires r.kind.Greedy? && Sound(r, |data|, base, st) && st.pos < |data|
    ensures var d := StepOf(r, data, base, st);
            && |d.told| == 1 && d.to.held == NoneHeld && d.to.left == st.left
            && (if st.pos + 3 > |data| then d.told == [Literal(data[st.pos])] && d.to.pos == st.pos + 1 else
                  var list := Searched(r.bits, data, st.known, base, st.pos, r.maxDist,
                                       if 2 >= r.good then r.chain / 4 else r.chain);
                  var cap, nice := Min(|data| - st.pos, MAX_MATCH), Min(r.nice, |data| - st.pos);
                  && Earlier(list, st.pos)
                  && if forall i: nat :: i < |list| ==> Common(data, list[i], st.pos, cap) < 3 then
                       d.told == [Literal(data[st.pos])] && d.to.pos == st.pos + 1
                     else
                       exists f: Longest ::
                         && 3 <= f.len && base < f.start < st.pos && st.pos - f.start <= r.maxDist
                         && IsBest(data, st.pos, cap, list, 2, nice, f)
                         && d.told == [Match(f.len, st.pos - f.start)] && d.to.pos == st.pos + f.len)
  {
    hide MatchAt, Searched, Common, Whole;
    if st.pos + 3 <= |data| {
      MatchMeans(r, data, st.known, base, st.pos, 2);
      var f := MatchAt(r, data, st.known, base, st.pos, 2);
      var list := Searched(r.bits, data, st.known, base, st.pos, r.maxDist,
                           if 2 >= r.good then r.chain / 4 else r.chain);
      var cap, nice := Min(|data| - st.pos, MAX_MATCH), Min(r.nice, |data| - st.pos);
      if f.len > 2 {
        var k: nat :| IsBestAt(data, st.pos, cap, list, 2, nice, f, k);
        assert Common(data, list[k], st.pos, cap) >= 3;
      }
    }
  }

  /** The strings known after it: the one at the position, and all of a match that is not too
      long. */
  lemma GreedyKnows(r: Rules, data: seq<Byte>, base: nat, st: Stand, p: nat)
    requires r.kind.Greedy? && Sound(r, |data|, base, st) && st.pos < |data|
    ensures var d := StepOf(r, data, base, st);
            p in d.to.known <==>
            || p in st.known
            || (p + 3 <= |data|
                && (p == st.pos
                    || (st.pos < p < d.to.pos && d.to.pos - st.pos <= r.lazy && d.to.pos + 3 <= |data|)))
  {
    hide MatchAt;
    assert Complete(p, |data|) <==> p + 3 <= |data|;
  }

  // ----- deflate_slow ---------------------------------------------------------------------------------

  /** A match held back goes out unless there is a longer one at the next byte that is worth it;
      otherwise the byte held back goes out, and the new match or the next byte is held back. */
  lemma LazyMeans(r: Rules, data: seq<Byte>, base: nat, st: Stand)
    requires r.kind.Lazy? && Sound(r, |data|, base, st) && st.pos < |data|
    requires st.held.AMatch? ==> 3 <= st.held.len <= MAX_MATCH
    ensures var d := StepOf(r, data, base, st);
            var (s, len) := (st.pos, if st.held.AMatch? then st.held.len else 2);
            if s + 3 > |data| || len >= r.lazy then StepsOver(data, st, d) else
              var list := Searched(r.bits, data, st.known, base, s, r.maxDist,
                                   if len >= r.good then r.chain / 4 else r.chain);
              var cap, nice := Min(|data| - s, MAX_MATCH), Min(r.nice, |data| - s);
              && Earlier(list, s)
              && if forall i: nat :: i < |list| ==> Common(data, list[i], s, cap) <= len then StepsOver(data, st, d)
                 else
                   exists f: Longest ::
                     && len < f.len && base < f.start < s && s - f.start <= r.maxDist
                     && IsBest(data, s, cap, list, len, nice, f)
                     && if f.len <= 5 && (r.filtered || (f.len == 3 && s - f.start > 4096)) then StepsOver(data, st, d)
                        else d.told == (if st.held == NoneHeld then [] else [Literal(data[s - 1])])
                             && d.to.pos == s + 1 && d.to.held == AMatch(f.len, s - f.start)
  {
    hide MatchAt, Searched, Common, Whole;
    var len := if st.held.AMatch? then st.held.len else 2;
    if st.pos + 3 <= |data| && len < r.lazy {
      MatchMeans(r, data, st.known, base, st.pos, len);
      var f := MatchAt(r, data, st.known, base, st.pos, len);
      var list := Searched(r.bits, data, st.known, base, st.pos, r.maxDist,
                           if len >= r.good then r.chain / 4 else r.chain);
      var cap, nice := Min(|data| - st.pos, MAX_MATCH), Min(r.nice, |data| - st.pos);
      if f.len > len {
        var k: nat :| IsBestAt(data, st.pos, cap, list, len, nice, f, k);
        assert Common(data, list[k], st.pos, cap) > len;
      }
    }
  }

  /** There is nothing better: the match held back goes out; if there is none, the byte held back,
      and the next one is. */
  ghost predicate StepsOver(data: seq<Byte>, st: Stand, d: Done)
    requires (0 < st.pos || st.held == NoneHeld) && st.pos < |data|
  {
    match st.held
    case AMatch(len, dist) =>
      d.told == [Match(len, dist)] && d.to.pos == st.pos - 1 + len && d.to.held == NoneHeld
    case AByte => d.told == [Literal(data[st.pos - 1])] && d.to.pos == st.pos + 1 && d.to.held == AByte
    case NoneHeld => d.told == [] && d.to.pos == st.pos + 1 && d.to.held == AByte
  }

  /** All strings passed are known, as far as their bytes are there. */
  lemma LazyKnows(r: Rules, data: seq<Byte>, base: nat, st: Stand, p: nat)
    requires r.kind.Lazy? && Sound(r, |data|, base, st) && st.pos < |data|
    requires st.held.AMatch? ==> 3 <= st.held.len
    ensures var d := StepOf(r, data, base, st);
            p in d.to.known <==> p in st.known || (st.pos <= p < d.to.pos && p + 3 <= |data|)
  {
    hide MatchAt, Poor;
    assert Complete(p, |data|) <==> p + 3 <= |data|;
  }

  // ----- deflate_rle ------------------------------------------------------------------------------------

  /** A match of distance one goes out exactly if three bytes repeat the one before, and it is as
      long as the run, up to 258 bytes. */
  lemma RunMeans(r: Rules, data: seq<Byte>, base: nat, st: Stand)
    requires r.kind.Runs? && Sound(r, |data|, base, st) && st.pos < |data|
    ensures var (d, s) := (StepOf(r, data, base, st), st.pos);
            if s > base && s + 3 <= |data| && data[s] == data[s + 1] == data[s + 2] == data[s - 1] then
              exists n: nat ::
                && 3 <= n <= MAX_MATCH && s + n <= |data| && d.told == [Match(n, 1)] && d.to.pos == s + n
                && (forall i: nat :: s <= i < s + n ==> data[i] == data[s - 1])
                && (n == MAX_MATCH || s + n == |data| || data[s + n] != data[s - 1])
            else d.told == [Literal(data[s])] && d.to.pos == s + 1
  {
    hide Common;
    var s := st.pos;
    if s > base && s + 3 <= |data| {
      var cap: nat := Min(|data| - s, MAX_MATCH);
      var n := Common(data, s - 1, s, cap);
      CommonMeans(data, s - 1, s, cap);
      RunsAlong(data, s, n);
      if data[s] == data[s + 1] == data[s + 2] == data[s - 1] {
        RunsAgree(data, s);
        CommonIs(data, s - 1, s, cap, 3);
      }
      if n >= 3 {
        assert data[s] == data[s - 1] && data[s + 1] == data[s - 1] && data[s + 2] == data[s - 1];
        if n < cap {
          AgreeMore(data, s - 1, s, n);
          assert data[s + n - 1] == data[s - 1];
        }
      }
    }
  }

  lemma {:induction false} RunsAlong(data: seq<Byte>, s: nat, n: nat)
    requires 0 < s && Agree(data, s - 1, s, n)
    ensures forall i: nat :: s <= i < s + n ==> data[i] == data[s - 1]
  {
    if n > 0 {
      AgreeLess(data, s - 1, s, n, n - 1);
      RunsAlong(data, s, n - 1);
      assert Nth(data, s - 1, n - 1) == Nth(data, s, n - 1);
    }
  }

  lemma RunsAgree(data: seq<Byte>, s: nat)
    requires 0 < s && s + 3 <= |data| && data[s] == data[s + 1] == data[s + 2] == data[s - 1]
    ensures Agree(data, s - 1, s, 3)
  {
  }

  // ----- The end of the data ------------------------------------------------------------------------------

  /** At the end of the data the byte held back goes out.  The strings of the last two bytes are left
      over by the compressors that look for strings. */
  lemma RestMeans(r: Rules, data: seq<Byte>, base: nat, st: Stand, p: nat)
    requires Sound(r, |data|, base, st) && st.pos == |data|
    ensures var d := StepOf(r, data, base, st);
            && d.told == (if st.held == NoneHeld then [] else [Literal(data[|data| - 1])])
            && d.to.pos == |data| && d.to.held == NoneHeld && d.to.known == st.known
            && (r.kind.Greedy? || r.kind.Lazy? ==>
                  (|data| - d.to.left <= p < |data| <==> base <= p < |data| < p + 3))
            && (r.kind.Runs? || r.kind.Plain? ==> d.to.left == 0)
  {
  }

  /** When more input is there, just the strings left over whose three bytes have come become known,
      and the others are still left over. */
  lemma LeftOver(st: Stand, end: nat, p: nat)
    requires st.left <= 2 && st.left <= st.pos <= end
    ensures var st' := Filled(st, end);
            && (p in st'.known <==> p in st.known || (st.pos - st.left <= p < st.pos && p + 3 <= end))
            && st'.pos == st.pos && st'.held == st.held && st'.left <= st.left
            && (st.pos - st'.left <= p < st.pos <==> st.pos - st.left <= p < st.pos && p + 3 > end)
  {
    assert Complete(p, end) <==> p + 3 <= end;
  }

  // ----- All tokens ---------------------------------------------------------------------------------

  /** How many bytes the tokens stand for. */
  function Covered(ts: seq<Item>): nat {
    if ts == [] then 0 else Covered(ts[..|ts| - 1]) + Size(ts[|ts| - 1])
  }

  function Size(t: Item): nat {
    match t
    case Literal(_) => 1
    case Match(len, _) => len
    case _ => 0
  }

  lemma CoveredOne(ts: seq<Item>, us: seq<Item>)
    requires |us| <= 1
    ensures Covered(ts + us) == Covered(ts) + if us == [] then 0 else Size(us[0])
  {
    if us == [] {
      assert ts + us == ts;
    } else {
      assert (ts + us)[..|ts + us| - 1] == ts;
    }
  }

  /** How many bytes before the position are not told yet. */
  function Behindhand(h: Held): nat {
    if h == NoneHeld then 0 else 1
  }

  /** Only deflate_slow holds anything back, and matches have three bytes. */
  predicate Holds(r: Rules, st: Stand) {
    (r.kind.Lazy? || st.held == NoneHeld) && (st.held.AMatch? ==> st.held.len >= MIN_MATCH)
    && (0 < st.pos || st.held == NoneHeld)
  }

  /** A step tells one token at most, for the first bytes that were not told. */
  lemma StepCovers(r: Rules, data: seq<Byte>, base: nat, st: Stand)
    requires Sound(r, |data|, base, st) && Holds(r, st)
    ensures var d := StepOf(r, data, base, st);
            && |d.told| <= 1 && Holds(r, d.to)
            && st.pos - Behindhand(st.held) + (if d.told == [] then 0 else Size(d.told[0]))
               == d.to.pos - Behindhand(d.to.held)
  {
    hide MatchAt, RunAt, Whole, Poor;
    if r.kind.Runs? && st.pos < |data| {
      RunAtMost(data, base, st.pos);
    }
  }

  lemma RunAtMost(data: seq<Byte>, base: nat, s: nat)
    requires base <= s <= |data|
    ensures s + RunAt(data, base, s) <= |data|
  {
  }

  lemma MadeCovers(r: Rules, input: seq<Byte>, m: Moment)
    requires m.end <= |input| && Sound(r, m.end, m.base, m.st) && Holds(r, m.st)
    ensures var d := Made(r, input, m);
            && |d.told| <= 1 && Holds(r, d.to) && (m.forgets ==> d.told == [])
            && m.st.pos - Behindhand(m.st.held) + (if d.told == [] then 0 else Size(d.told[0]))
               == d.to.pos - Behindhand(d.to.held)
  {
    hide StepOf, Sound, Size;
    if !m.forgets {
      StepCovers(r, input[..m.end], m.base, m.st);
    }
  }

  /** All that was told stands for the input up to the position, but for what is held back. */
  lemma {:induction false} Conserved(r: Rules, input: seq<Byte>, log: seq<Moment>, now: Moment, told: seq<Item>)
    requires Tells(r, input, log, now, told)
    ensures Holds(r, now.st) && Covered(told) == now.st.pos - Behindhand(now.st.held)
    decreases |log|
  {
    hide *;
    TellsMean(r, input, log, now, told);
    if log == [] {
      NothingRan(r, input, now);
      HoldsNothing(r, input);
    } else {
      var n := |log| - 1;
      FrontTells(r, input, log, now, told);
      Conserved(r, input, log[..n], log[n], AllTold(r, input, log[..n]));
      MadeCovers(r, input, log[n]);
      CoveredOne(AllTold(r, input, log[..n]), Made(r, input, log[n]).told);
      SameHeld(r, input, log[n], now);
    }
  }

  lemma HoldsNothing(r: Rules, input: seq<Byte>)
    ensures Holds(r, START) && Behindhand(START.held) == 0 && START.pos == 0 && AllTold(r, input, []) == []
    ensures Covered([]) == 0
  {
  }

  /** The run without its last step. */
  lemma FrontTells(r: Rules, input: seq<Byte>, log: seq<Moment>, now: Moment, told: seq<Item>)
    requires Tells(r, input, log, now, told) && log != []
    ensures var n := |log| - 1;
            && log[n].end <= |input| && Sound(r, log[n].end, log[n].base, log[n].st) && Leads(r, input, log[n], now)
            && (forall k: nat :: k < n ==> log[k].end <= |input| && Sound(r, log[k].end, log[k].base, log[k].st))
            && Tells(r, input, log[..n], log[n], AllTold(r, input, log[..n]))
            && told == AllTold(r, input, log[..n]) + Made(r, input, log[n]).told
  {
    hide Leads, Sound, Made;
  }

  /** More input does not change the position, nor what is held back. */
  lemma SameHeld(r: Rules, input: seq<Byte>, m: Moment, m': Moment)
    requires Leads(r, input, m, m')
    ensures m.end <= |input| && Sound(r, m.end, m.base, m.st)
    ensures m'.st.pos == Made(r, input, m).to.pos && m'.st.held == Made(r, input, m).to.held
    ensures Holds(r, Made(r, input, m).to) ==> Holds(r, m'.st)
    ensures m.base <= m'.base && (m.forgets ==> m'.base == m.st.pos && m.st.held == NoneHeld)
  {
    hide Made, Sound;
  }

  /** Every token was told by one step, which stood just where the tokens before it end. */
  lemma {:induction false} WhoTold(r: Rules, input: seq<Byte>, log: seq<Moment>, now: Moment, told: seq<Item>, i: nat)
    returns (k: nat)
    requires Tells(r, input, log, now, told) && i < |told|
    ensures k < |log| && !log[k].forgets
    ensures log[k].end <= |input| && Sound(r, log[k].end, log[k].base, log[k].st)
    ensures Made(r, input, log[k]).told == [told[i]]
    ensures Covered(told[..i]) == log[k].st.pos - Behindhand(log[k].st.held)
    decreases |log|
  {
    hide *;
    TellsMean(r, input, log, now, told);
    if log == [] {
      HoldsNothing(r, input);
    } else {
      var n := |log| - 1;
      FrontTells(r, input, log, now, told);
      var front := AllTold(r, input, log[..n]);
      if i < |front| {
        k := WhoTold(r, input, log[..n], log[n], front, i);
        assert told[..i] == front[..i];
      } else {
        k := n;
        Conserved(r, input, log[..n], log[n], front);
        MadeCovers(r, input, log[n]);
        assert told[..i] == front;
      }
    }
  }

  // ----- What was forgotten -----------------------------------------------------------------------------

  /** Matches reach back no further than `place`: neither the one held back nor any to come. */
  predicate Within(r: Rules, place: nat, base: nat, st: Stand) {
    && place <= base && Holds(r, st)
    && (st.held.AMatch? ==> place + st.held.dist < st.pos)
  }

  /** A match told at a position. */
  predicate ReachesBack(r: Rules, st: Stand, t: Item, place: nat) {
    t.Match? && st.pos - (if r.kind.Lazy? then 1 else 0) < place + t.dist
  }

  lemma StepWithin(r: Rules, data: seq<Byte>, base: nat, st: Stand, place: nat)
    requires Sound(r, |data|, base, st) && Within(r, place, base, st)
    ensures var d := StepOf(r, data, base, st);
            && Holds(r, d.to) && (d.to.held.AMatch? ==> place + d.to.held.dist < d.to.pos)
            && forall t: Item :: t in d.told ==> !ReachesBack(r, st, t, place)
  {
    StepCovers(r, data, base, st);
    hide MatchAt, Whole, Poor, Common, RunAt;
    if st.pos < |data| && st.pos + 3 <= |data| {
      MatchMeans(r, data, st.known, base, st.pos, if st.held.AMatch? then st.held.len else 2);
    }
    if st.pos < |data| && r.kind.Runs? {
      NoRunAtBase(data, base, st.pos);
    }
  }

  lemma NoRunAtBase(data: seq<Byte>, base: nat, s: nat)
    requires base <= s <= |data|
    ensures RunAt(data, base, s) > 0 ==> s > base
  {
    hide Common;
  }

  lemma MadeWithin(r: Rules, input: seq<Byte>, m: Moment, place: nat)
    requires m.end <= |input| && Sound(r, m.end, m.base, m.st) && Within(r, place, m.base, m.st)
    ensures var d := Made(r, input, m);
            && Holds(r, d.to) && (d.to.held.AMatch? ==> place + d.to.held.dist < d.to.pos)
            && forall t: Item :: t in d.told ==> !ReachesBack(r, m.st, t, place)
  {
    hide StepOf, Sound, ReachesBack;
    if !m.forgets {
      StepWithin(r, input[..m.end], m.base, m.st, place);
    }
  }

  /** After a step that forgets, no match ever reaches back before its place. */
  lemma {:induction false} NeverBefore(r: Rules, input: seq<Byte>, log: seq<Moment>, now: Moment, told: seq<Item>,
                                       k: nat)
    requires Tells(r, input, log, now, told) && k < |log| && log[k].forgets
    ensures Within(r, log[k].st.pos, now.base, now.st)
    ensures forall j: nat :: k < j < |log| ==>
              && log[j].end <= |input| && Sound(r, log[j].end, log[j].base, log[j].st)
              && forall t: Item :: t in Made(r, input, log[j]).told ==> !ReachesBack(r, log[j].st, t, log[k].st.pos)
    decreases |log|
  {
    hide *;
    var n, place := |log| - 1, log[k].st.pos;
    TellsMean(r, input, log, now, told);
    FrontTells(r, input, log, now, told);
    Conserved(r, input, log, now, told);
    SameHeld(r, input, log[n], now);
    if k == n {
      NothingHeld(r, input, log[n]);
    } else {
      NeverBefore(r, input, log[..n], log[n], AllTold(r, input, log[..n]), k);
      MadeWithin(r, input, log[n], place);
      WithinMeans(r, place, log[n].base, log[n].st);
    }
    MakeWithin(r, place, now.base, now.st);
  }

  lemma NothingHeld(r: Rules, input: seq<Byte>, m: Moment)
    requires m.end <= |input| && Sound(r, m.end, m.base, m.st) && m.forgets
    ensures Made(r, input, m).to == m.st.(left := 0)
  {
  }

  lemma WithinMeans(r: Rules, place: nat, base: nat, st: Stand)
    requires Within(r, place, base, st)
    ensures place <= base && Holds(r, st)
  {
    hide Holds;
  }

  lemma MakeWithin(r: Rules, place: nat, base: nat, st: Stand)
    requires place <= base && Holds(r, st) && (st.held.AMatch? ==> place + st.held.dist < st.pos)
    ensures Within(r, place, base, st)
  {
    hide Holds;
  }

  // ----- A compressor ---------------------------------------------------------------------------------

  lemma {:induction false} CoveredIs(ts: seq<Item>, s: seq<Byte>)
    requires Expand(ts) == Bytes(s)
    ensures Covered(ts) == |s|
  {
    hide CopyBack;
    if ts != [] {
      CoveredIs(ts[..|ts| - 1], Expand(ts[..|ts| - 1]).s);
    }
  }

  /** Wherever a compressor has come, with whatever calls: each of its tokens was told by a step of
      its rules, which stood where the tokens before it end. */
  lemma TokenInPlace(s: Deflater, i: nat) returns (k: nat)
    requires s.Compressing()
    requires s.lastLit <= s.dBuf.Length && s.lastLit <= s.lBuf.Length && i < |s.AllTokens()|
    ensures k < |s.log| && !s.log[k].forgets
    ensures s.log[k].end <= |s.input| && Sound(s.Ways(), s.log[k].end, s.log[k].base, s.log[k].st)
    ensures Made(s.Ways(), s.input, s.log[k]).told == [s.AllTokens()[i]]
    ensures var pos := s.log[k].st.pos - Behindhand(s.log[k].st.held);
            0 <= pos <= |s.input| && Expand(s.AllTokens()[..i]) == Bytes(s.input[..pos])
  {
    hide *;
    var ts := s.AllTokens();
    CompressingMeans(s);
    RecordedMeans(s);
    k := WhoTold(s.Ways(), s.input, s.log, s.Now(), ts, i);
    var n := ToldSoFar(s);
    assert ts[..i] + ts[i..] == ts;
    ExpandFront(ts[..i], ts[i..]);
    ExpandGrows(ts[..i], ts[i..], Expand(ts[..i]).s, s.input[..n]);
    CoveredIs(ts[..i], Expand(ts[..i]).s);
  }

  lemma ToldSoFar(s: Deflater) returns (n: nat)
    requires s.Compressing()
    ensures s.lastLit <= s.dBuf.Length && s.lastLit <= s.lBuf.Length
    ensures n <= |s.input| && Expand(s.AllTokens()) == Bytes(s.input[..n])
  {
    hide *;
    Arrived(s);
    SizesMean(s);
    n := if s.slow && s.matchAvailable then s.base + s.strstart - 1 else s.base + s.strstart;
    ToldMeans(s, n);
  }

  /** No match a compressor tells after a full flush reaches back before it. */
  lemma NoneReachesBack(s: Deflater, k: nat, j: nat)
    requires s.Compressing() && k < j < |s.log| && s.log[k].forgets
    ensures s.log[j].end <= |s.input| && Sound(s.Ways(), s.log[j].end, s.log[j].base, s.log[j].st)
    ensures forall t: Item :: t in Made(s.Ways(), s.input, s.log[j]).told ==>
              !ReachesBack(s.Ways(), s.log[j].st, t, s.log[k].st.pos)
  {
    hide *;
    CompressingMeans(s);
    RecordedMeans(s);
    NeverBefore(s.Ways(), s.input, s.log, s.Now(), s.AllTokens(), k);
  }
}
