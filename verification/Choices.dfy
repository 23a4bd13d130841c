/** What a compressor tells, in terms of the input: which strings it may look at, which match
    it takes, and what it waits for.  No hash tables and no window, only the strings known so far
    and how much of the input there is. */
module Choices {
  import opened Arith
  import opened BitReader
  import opened DeflateFormat
  import opened HashChain
  import opened MatchSearch

  /** Matches of length 3 are discarded if they reach further back. */
  const TOO_FAR: nat := 4096

  /** deflate_fast, deflate_slow, deflate_rle and deflate_huff. */
  datatype Kind = Greedy | Lazy | Runs | Plain

  datatype Rules = Rules(kind: Kind, filtered: bool, bits: nat, maxDist: nat, good: nat, lazy: nat, nice: nat,
                         chain: nat)

  /** What is not told yet of the byte before: nothing, the byte, or a match that starts with it. */
  datatype Held = NoneHeld | AByte | AMatch(len: nat, dist: nat)

  /** Where a compressor stands: its position in the input, what it holds back, the strings known,
      and how many strings before the position are to be known once their bytes are there. */
  datatype Stand = Stand(pos: nat, held: Held, known: set<nat>, left: nat)

  const START: Stand := Stand(0, NoneHeld, {}, 0)

  /** One step: what is told, and where it leads. */
  datatype Done = Done(told: seq<Item>, to: Stand)

  // ----- One step -----------------------------------------------------------------------------------

  predicate Complete(p: nat, end: nat) {
    p + MIN_MATCH <= end
  }

  /** The strings from `from` on and before `to` that have three bytes before `end`. */
  ghost function Whole(from: nat, to: nat, end: nat): set<nat> {
    set p: nat | from <= p < to && Complete(p, end)
  }

  /** The match for the string at `s`, if there is one of more than `len0` bytes. */
  ghost function MatchAt(r: Rules, data: seq<Byte>, known: set<nat>, base: nat, s: nat, len0: nat): Longest
    requires s + 2 < |data| && r.chain >= 4
  {
    var n := if len0 >= r.good then r.chain / 4 else r.chain;
    EarlierAll(r.bits, data, known, base, s, r.maxDist, n);
    Best(data, s, Min(|data| - s, MAX_MATCH), Searched(r.bits, data, known, base, s, r.maxDist, n), Longest(len0, 0),
         Min(r.nice, |data| - s))
  }

  /** A match is taken at once. */
  ghost function GreedyStep(r: Rules, data: seq<Byte>, base: nat, st: Stand): Done
    requires st.pos < |data| && r.chain >= 4
  {
    var s := st.pos;
    var known := st.known + Whole(s, s + 1, |data|);
    var f := if s + 3 <= |data| then MatchAt(r, data, st.known, base, s, MIN_MATCH - 1) else Longest(0, 0);
    if f.len >= MIN_MATCH && f.start <= s then
      var inside := if f.len <= r.lazy && s + f.len + 3 <= |data| then Whole(s + 1, s + f.len, |data|) else {};
      Done([Match(f.len, s - f.start)], Stand(s + f.len, NoneHeld, known + inside, st.left))
    else Done([Literal(data[s])], Stand(s + 1, NoneHeld, known, st.left))
  }

  lemma GreedyIs(r: Rules, data: seq<Byte>, base: nat, st: Stand)
    requires st.pos < |data| && r.chain >= 4
    ensures var (s, all) := (st.pos, |data|);
            var known := st.known + Whole(s, s + 1, all);
            var f := if s + 3 <= all then MatchAt(r, data, known, base, s, 2) else Longest(0, 0);
            && (f.len < MIN_MATCH ==>
                  GreedyStep(r, data, base, st) == Done([Literal(data[s])], Stand(s + 1, NoneHeld, known, st.left)))
            && (f.len >= MIN_MATCH && f.start < s ==>
                  var inside := if f.len <= r.lazy && s + f.len + 3 <= all then Whole(s + 1, s + f.len, all) else {};
                  GreedyStep(r, data, base, st)
                  == Done([Match(f.len, s - f.start)], Stand(s + f.len, NoneHeld, known + inside, st.left)))
  {
    hide MatchAt;
    if st.pos + 3 <= |data| {
      MatchEarlier(r, data, st.known, st.known + Whole(st.pos, st.pos + 1, |data|), base, st.pos, 2);
    }
  }

  /** The step that found a match of `len` bytes at `start`, if that is three and more. */
  lemma GreedyDone(r: Rules, data: seq<Byte>, base: nat, st: Stand, len: nat, start: nat, known: set<nat>, to: Stand)
    requires st.pos < |data| && r.chain >= 4
    requires var (s, all) := (st.pos, |data|);
             var known1 := st.known + Whole(s, s + 1, all);
             var f := if s + 3 <= all then MatchAt(r, data, known1, base, s, 2) else Longest(0, 0);
             && (len >= MIN_MATCH <==> f.len >= MIN_MATCH)
             && (len >= MIN_MATCH ==> f.len == len && f.start == start < s)
             && to == Stand(if len >= MIN_MATCH then s + len else s + 1, NoneHeld, known, st.left)
             && known == known1 + if len >= MIN_MATCH && len <= r.lazy && s + len + 3 <= all
                                  then Whole(s + 1, s + len, all) else {}
    ensures GreedyStep(r, data, base, st)
         == Done([if len >= MIN_MATCH then Match(len, st.pos - start) else Literal(data[st.pos])], to)
  {
    hide MatchAt, Whole;
    GreedyIs(r, data, base, st);
  }

  /** A match that is not worth telling. */
  predicate Poor(r: Rules, f: Longest, s: nat) {
    f.len <= 5 && (r.filtered || (f.len == MIN_MATCH && s - f.start > TOO_FAR))
  }

  /** A match is held back, and taken if there is none longer a byte later. */
  ghost function LazyStep(r: Rules, data: seq<Byte>, base: nat, st: Stand): Done
    requires 0 < st.pos || st.held == NoneHeld
    requires st.pos < |data| && r.chain >= 4
  {
    var s := st.pos;
    var len := if st.held.AMatch? then st.held.len else MIN_MATCH - 1;
    var known := st.known + Whole(s, s + 1, |data|);
    var f := if s + 3 <= |data| && len < r.lazy then MatchAt(r, data, st.known, base, s, len) else Longest(len, 0);
    var better := f.len > len && f.start <= s && !Poor(r, f, s);
    if st.held.AMatch? && !better then
      var next := if s + st.held.len > 0 then s + st.held.len - 1 else 0;
      Done([Match(st.held.len, st.held.dist)], Stand(next, NoneHeld, known + Whole(s + 1, next, |data|), st.left))
    else
      Done(if st.held == NoneHeld then [] else [Literal(data[s - 1])],
           Stand(s + 1, if better then AMatch(f.len, s - f.start) else AByte, known, st.left))
  }

  /** What a step of deflate_slow weighs: the match held back of `len` bytes, or two, against the
      match found now. */
  ghost predicate Weighed(r: Rules, data: seq<Byte>, base: nat, st: Stand, len: nat, known: set<nat>, f: Longest,
                          better: bool) {
    && (0 < st.pos || st.held == NoneHeld) && st.pos < |data| && r.chain >= 4
    && len == (if st.held.AMatch? then st.held.len else MIN_MATCH - 1) && (st.held.AMatch? ==> len >= MIN_MATCH)
    && known == st.known + Whole(st.pos, st.pos + 1, |data|)
    && f == (if st.pos + 3 <= |data| && len < r.lazy then MatchAt(r, data, known, base, st.pos, len)
             else Longest(len, 0))
    && (better <==> f.len > len && !Poor(r, f, st.pos)) && (better ==> f.start < st.pos)
  }

  /** What it makes of it. */
  ghost predicate Decided(data: seq<Byte>, st: Stand, len: nat, known: set<nat>, f: Longest, better: bool,
                          told: seq<Item>, told': seq<Item>, to: Stand) {
    if st.held.AMatch? && !better then
      && told' == told + [Match(len, st.held.dist)] && st.pos + len > 0
      && to == Stand(st.pos + len - 1, NoneHeld, known + Whole(st.pos + 1, st.pos + len - 1, |data|), st.left)
    else
      && (st.held != NoneHeld ==> 0 < st.pos <= |data|)
      && told' == told + (if st.held == NoneHeld then [] else [Literal(data[st.pos - 1])])
      && (better ==> f.start <= st.pos)
      && to == Stand(st.pos + 1, if better then AMatch(f.len, st.pos - f.start) else AByte, known, st.left)
  }

  lemma LazyDone(r: Rules, data: seq<Byte>, base: nat, st: Stand, len: nat, known: set<nat>, f: Longest,
                 better: bool, told: seq<Item>, told': seq<Item>, to: Stand)
    requires Weighed(r, data, base, st, len, known, f, better)
    requires Decided(data, st, len, known, f, better, told, told', to)
    ensures (0 < st.pos || st.held == NoneHeld) && st.pos < |data| && r.chain >= 4
    ensures told' == told + LazyStep(r, data, base, st).told && to == LazyStep(r, data, base, st).to
  {
    hide MatchAt, Whole;
    if st.pos + 3 <= |data| {
      NotItself(st.known, st.pos, |data|);
      MatchEarlier(r, data, st.known, known, base, st.pos, len);
      MatchMeans(r, data, st.known, base, st.pos, len);
    }
  }

  lemma NotItself(known: set<nat>, p: nat, end: nat)
    ensures forall q: nat :: q < p ==> (q in known <==> q in known + Whole(p, p + 1, end))
  {
  }

  /** How often the byte before is repeated. */
  ghost function RunAt(data: seq<Byte>, base: nat, s: nat): nat
    requires base <= s <= |data|
  {
    if s > base && s + 3 <= |data| then Common(data, s - 1, s, Min(|data| - s, MAX_MATCH)) else 0
  }

  ghost function RunStep(data: seq<Byte>, base: nat, st: Stand): Done
    requires base <= st.pos < |data|
  {
    var n := RunAt(data, base, st.pos);
    if n >= MIN_MATCH then Done([Match(n, 1)], st.(pos := st.pos + n))
    else Done([Literal(data[st.pos])], st.(pos := st.pos + 1))
  }

  /** At the end of the data what is held back is told, and the last two strings are left. */
  ghost function RestStep(r: Rules, data: seq<Byte>, base: nat, st: Stand): Done
    requires 0 < st.pos || st.held == NoneHeld
    requires base <= st.pos <= |data|
  {
    Done(if st.held == NoneHeld then [] else [Literal(data[st.pos - 1])],
         Stand(st.pos, NoneHeld, st.known, if r.kind.Greedy? || r.kind.Lazy? then Min(st.pos - base, 2) else 0))
  }

  /** One step with the input `data`, matches reaching back no further than `base`. */
  ghost function StepOf(r: Rules, data: seq<Byte>, base: nat, st: Stand): Done
    requires Sound(r, |data|, base, st)
  {
    if st.pos == |data| then RestStep(r, data, base, st)
    else
      match r.kind
      case Greedy => GreedyStep(r, data, base, st)
      case Lazy => LazyStep(r, data, base, st)
      case Runs => RunStep(data, base, st)
      case Plain => Done([Literal(data[st.pos])], st.(pos := st.pos + 1))
  }

  predicate Sound(r: Rules, end: nat, base: nat, st: Stand) {
    r.chain >= 4 && base <= st.pos <= end && (0 < st.pos || st.held == NoneHeld)
  }

  // ----- A run ------------------------------------------------------------------------------------------

  /** One step of a run: how much of the input there was, how far back matches might reach, and
      where the compressor stood.  In a step that forgets nothing is told, and no match after it
      reaches back before it. */
  datatype Moment = Moment(end: nat, base: nat, st: Stand, forgets: bool)

  ghost function Made(r: Rules, input: seq<Byte>, m: Moment): Done
    requires m.end <= |input| && Sound(r, m.end, m.base, m.st)
  {
    if m.forgets then Done([], m.st.(left := 0)) else StepOf(r, input[..m.end], m.base, m.st)
  }

  /** More input arrives: the strings left over become known as far as their bytes are there. */
  ghost function Filled(st: Stand, end: nat): Stand {
    st.(known := st.known + Whole(if st.pos >= st.left then st.pos - st.left else 0, st.pos, end),
        left := if end >= st.pos + 2 then 0 else if end == st.pos + 1 then Min(st.left, 1) else st.left)
  }

  /** From moment `m` to the next: more input may arrive, and matches reach back to where they did
      before, or as far as they may, or to the place where all was forgotten. */
  ghost predicate Leads(r: Rules, input: seq<Byte>, m: Moment, m': Moment) {
    && m.end <= m'.end <= |input| && Sound(r, m.end, m.base, m.st)
    && m'.st == Filled(Made(r, input, m).to, m'.end) && m.base <= m'.base
    && if m.forgets then m'.base == m.st.pos && m.st.held == NoneHeld
       else m'.base == m.base || m'.base + r.maxDist <= m'.st.pos
  }

  /** The moments of a run up to `now`. */
  ghost predicate Ran(r: Rules, input: seq<Byte>, log: seq<Moment>, now: Moment)
    decreases |log|
  {
    if log == [] then now.base == 0 && now.st == START && now.end <= |input|
    else Leads(r, input, log[|log| - 1], now) && Ran(r, input, log[..|log| - 1], log[|log| - 1])
  }

  /** All that is told in it. */
  ghost function AllTold(r: Rules, input: seq<Byte>, log: seq<Moment>): seq<Item>
    requires forall k: nat :: k < |log| ==> log[k].end <= |input| && Sound(r, log[k].end, log[k].base, log[k].st)
    decreases |log|
  {
    if log == [] then []
    else AllTold(r, input, log[..|log| - 1]) + Made(r, input, log[|log| - 1]).told
  }

  /** A run that tells `told`. */
  ghost predicate Tells(r: Rules, input: seq<Byte>, log: seq<Moment>, now: Moment, told: seq<Item>) {
    && Ran(r, input, log, now)
    && (forall k: nat :: k < |log| ==> log[k].end <= |input| && Sound(r, log[k].end, log[k].base, log[k].st))
    && told == AllTold(r, input, log)
  }

  lemma Starts(r: Rules, end: nat)
    requires end == 0
    ensures Tells(r, [], [], Moment(0, 0, START, false), [])
  {
  }

  /** One more step. */
  lemma OneMore(r: Rules, input: seq<Byte>, log: seq<Moment>, m: Moment, told: seq<Item>, now: Moment)
    requires Tells(r, input, log, m.(forgets := false), told) && Leads(r, input, m, now)
    ensures Tells(r, input, log + [m], now, told + Made(r, input, m).told)
  {
    hide Leads, Made, Sound;
    assert (log + [m])[..|log + [m]| - 1] == log;
    LeadsSound(r, input, m, now);
    SameRun(r, input, log, m.(forgets := false), m);
  }

  lemma LeadsSound(r: Rules, input: seq<Byte>, m: Moment, m': Moment)
    requires Leads(r, input, m, m')
    ensures m.end <= m'.end <= |input| && Sound(r, m.end, m.base, m.st)
  {
    hide Made, Filled;
  }

  lemma SameRun(r: Rules, input: seq<Byte>, log: seq<Moment>, m: Moment, m': Moment)
    requires Ran(r, input, log, m) && m'.(forgets := m.forgets) == m
    ensures Ran(r, input, log, m')
  {
    hide Made, Filled;
  }

  /** More input, between two steps. */
  lemma MoreInput(r: Rules, input: seq<Byte>, log: seq<Moment>, now: Moment, told: seq<Item>,
                  input': seq<Byte>, now': Moment)
    requires Tells(r, input, log, now, told) && input <= input' && now.end <= now'.end <= |input'|
    requires now'.st == Filled(now.st, now'.end) && now.base <= now'.base
    requires (now'.base == now.base || now'.base + r.maxDist <= now'.st.pos) && r.maxDist > 0
    ensures Tells(r, input', log, now', told)
  {
    hide *;
    TellsMean(r, input, log, now, told);
    if log == [] {
      NothingRan(r, input, now);
      FilledStart(now'.end);
      FilledIs(now.st, now'.end);
      MakeStart(r, input', now');
    } else {
      var n := |log| - 1;
      RanMeans(r, input, log, now);
      RanLonger(r, input, log[..n], log[n], input');
      LeadsLonger(r, input, log[n], now, input', now');
      MakeRan(r, input', log, now');
    }
    ToldLonger(r, input, log, input');
    MakeTells(r, input', log, now', told);
  }

  lemma TellsMean(r: Rules, input: seq<Byte>, log: seq<Moment>, now: Moment, told: seq<Item>)
    requires Tells(r, input, log, now, told)
    ensures Ran(r, input, log, now)
    ensures forall k: nat :: k < |log| ==> log[k].end <= |input| && Sound(r, log[k].end, log[k].base, log[k].st)
    ensures told == AllTold(r, input, log)
  {
    hide Ran, AllTold, Sound;
  }

  lemma MakeTells(r: Rules, input: seq<Byte>, log: seq<Moment>, now: Moment, told: seq<Item>)
    requires Ran(r, input, log, now)
    requires forall k: nat :: k < |log| ==> log[k].end <= |input| && Sound(r, log[k].end, log[k].base, log[k].st)
    requires told == AllTold(r, input, log)
    ensures Tells(r, input, log, now, told)
  {
    hide Ran, AllTold, Sound;
  }

  lemma NothingRan(r: Rules, input: seq<Byte>, now: Moment)
    requires Ran(r, input, [], now)
    ensures now.base == 0 && now.st == START && now.st.pos == 0
  {
  }

  lemma MakeStart(r: Rules, input: seq<Byte>, now: Moment)
    requires now.base == 0 && now.st == START && now.end <= |input|
    ensures Ran(r, input, [], now)
  {
  }

  lemma FilledStart(end: nat)
    ensures Filled(START, end) == START
  {
  }

  lemma FilledIs(st: Stand, end: nat)
    ensures Filled(st, end).pos == st.pos && Filled(st, end).held == st.held
    ensures Filled(st, end).left
         == if end >= st.pos + 2 then 0 else if end == st.pos + 1 then Min(st.left, 1) else st.left
    ensures Filled(st, end).known
         == st.known + Whole(if st.pos >= st.left then st.pos - st.left else 0, st.pos, end)
  {
    hide Whole;
  }

  lemma RanMeans(r: Rules, input: seq<Byte>, log: seq<Moment>, now: Moment)
    requires Ran(r, input, log, now) && log != []
    ensures Leads(r, input, log[|log| - 1], now) && Ran(r, input, log[..|log| - 1], log[|log| - 1])
  {
    hide Leads;
  }

  lemma MakeRan(r: Rules, input: seq<Byte>, log: seq<Moment>, now: Moment)
    requires log != [] && Leads(r, input, log[|log| - 1], now) && Ran(r, input, log[..|log| - 1], log[|log| - 1])
    ensures Ran(r, input, log, now)
  {
    hide Leads;
  }

  lemma {:induction false} RanLonger(r: Rules, input: seq<Byte>, log: seq<Moment>, now: Moment, input': seq<Byte>)
    requires Ran(r, input, log, now) && input <= input'
    ensures Ran(r, input', log, now)
    decreases |log|
  {
    hide *;
    if log == [] {
      StartLonger(r, input, now, input');
    } else {
      var n := |log| - 1;
      RanMeans(r, input, log, now);
      RanLonger(r, input, log[..n], log[n], input');
      SameLeads(r, input, log[n], now, input');
      MakeRan(r, input', log, now);
    }
  }

  lemma StartLonger(r: Rules, input: seq<Byte>, now: Moment, input': seq<Byte>)
    requires Ran(r, input, [], now) && input <= input'
    ensures Ran(r, input', [], now)
  {
  }

  lemma SameMade(r: Rules, input: seq<Byte>, m: Moment, input': seq<Byte>)
    requires m.end <= |input| && input <= input' && Sound(r, m.end, m.base, m.st)
    ensures Made(r, input, m) == Made(r, input', m)
  {
    hide StepOf, Sound;
    assert input'[..m.end] == input[..m.end];
  }

  lemma SameLeads(r: Rules, input: seq<Byte>, m: Moment, m': Moment, input': seq<Byte>)
    requires Leads(r, input, m, m') && input <= input'
    ensures Leads(r, input', m, m')
  {
    hide Made, Filled;
    SameMade(r, input, m, input');
  }

  /** The last step leads to where the compressor stands when more has arrived. */
  lemma LeadsLonger(r: Rules, input: seq<Byte>, m: Moment, now: Moment, input': seq<Byte>, now': Moment)
    requires Leads(r, input, m, now) && input <= input' && now.end <= now'.end <= |input'|
    requires now'.st == Filled(now.st, now'.end) && now.base <= now'.base
    requires (now'.base == now.base || now'.base + r.maxDist <= now'.st.pos) && r.maxDist > 0
    ensures Leads(r, input', m, now')
  {
    hide Made, Filled;
    SameMade(r, input, m, input');
    var st := Made(r, input, m).to;
    FilledTwice(st, now.end, now'.end);
    FilledIs(st, now.end);
    FilledIs(st, now'.end);
    if m.forgets {
      ForgottenAt(r, input, m);
    }
  }

  lemma ForgottenAt(r: Rules, input: seq<Byte>, m: Moment)
    requires m.end <= |input| && Sound(r, m.end, m.base, m.st) && m.forgets
    ensures Made(r, input, m).to.pos == m.st.pos
  {
  }

  /** The strings left over are entered in order, until one is not complete. */
  lemma FilledTo(st: Stand, left: nat, end: nat)
    requires left <= st.left <= 2 && st.left <= st.pos <= end
    requires left == 0 || end - st.pos + left < MIN_MATCH
    requires left < st.left ==> MIN_MATCH + st.pos <= end + left + 1
    ensures Filled(st, end)
         == st.(known := st.known + Whole(st.pos - st.left, st.pos - left, end), left := left)
  {
    forall p: nat | st.pos - left <= p < st.pos
      ensures !Complete(p, end)
    {
    }
    assert Whole(st.pos - st.left, st.pos, end) == Whole(st.pos - st.left, st.pos - left, end);
  }

  lemma WholeOn(from: nat, p: nat, end: nat)
    requires from <= p && Complete(p, end)
    ensures Whole(from, p, end) + {p} == Whole(from, p + 1, end)
    ensures Whole(from, from, end) == {}
  {
  }

  lemma WholeStep(from: nat, p: nat, end: nat)
    requires from <= p
    ensures Whole(from, p, end) + Whole(p, p + 1, end) == Whole(from, p + 1, end)
  {
  }

  lemma OneWhole(p: nat, end: nat)
    ensures Whole(p, p + 1, end) == if Complete(p, end) then {p} else {}
  {
  }

  /** Nothing left over, or nothing of it complete. */
  lemma FilledAlready(st: Stand, end: nat)
    requires st.left <= 2 && st.left <= st.pos <= end && (st.left == 0 || end - st.pos + st.left < MIN_MATCH)
    ensures Filled(st, end) == st
  {
    hide Filled, Whole;
    FilledTo(st, st.left, end);
    NoneWhole(st.pos - st.left, end);
  }

  lemma NoneWhole(p: nat, end: nat)
    ensures Whole(p, p, end) == {}
  {
  }

  lemma SoundIs(r: Rules, end: nat, base: nat, st: Stand)
    ensures Sound(r, end, base, st) <==> r.chain >= 4 && base <= st.pos <= end && (0 < st.pos || st.held == NoneHeld)
  {
  }

  /** What a step with all the input makes. */
  lemma MadeIs(r: Rules, input: seq<Byte>, m: Moment)
    requires m.end == |input| && Sound(r, m.end, m.base, m.st) && !m.forgets
    ensures m.st.pos == |input| ==> Made(r, input, m) == RestStep(r, input, m.base, m.st)
    ensures m.st.pos < |input| && r.kind.Greedy? ==> Made(r, input, m) == GreedyStep(r, input, m.base, m.st)
    ensures m.st.pos < |input| && r.kind.Lazy? ==> Made(r, input, m) == LazyStep(r, input, m.base, m.st)
    ensures m.st.pos < |input| && r.kind.Runs? ==> Made(r, input, m) == RunStep(input, m.base, m.st)
    ensures m.st.pos < |input| && r.kind.Plain? ==>
              Made(r, input, m) == Done([Literal(input[m.st.pos])], m.st.(pos := m.st.pos + 1))
  {
    hide GreedyStep, LazyStep, RunStep, RestStep;
    assert input[..m.end] == input;
  }

  lemma RestIs(r: Rules, data: seq<Byte>, base: nat, st: Stand)
    requires (0 < st.pos || st.held == NoneHeld) && base <= st.pos <= |data|
    ensures RestStep(r, data, base, st)
         == Done(if st.held == NoneHeld then [] else [Literal(data[st.pos - 1])],
                 Stand(st.pos, NoneHeld, st.known, if r.kind.Greedy? || r.kind.Lazy? then Min(st.pos - base, 2) else 0))
  {
  }

  lemma MadeForget(r: Rules, input: seq<Byte>, m: Moment)
    requires m.end <= |input| && Sound(r, m.end, m.base, m.st) && m.forgets
    ensures Made(r, input, m) == Done([], m.st.(left := 0))
  {
  }

  /** A step leads to where the compressor stands then, if nothing more has arrived. */
  lemma StepLeads(r: Rules, input: seq<Byte>, m: Moment, now: Moment)
    requires m.end == now.end == |input| && Sound(r, m.end, m.base, m.st)
    requires now.st == Made(r, input, m).to && Filled(now.st, now.end) == now.st
    requires now.base == (if m.forgets then m.st.pos else m.base) && (m.forgets ==> m.st.held == NoneHeld)
    ensures Leads(r, input, m, now)
  {
    hide Made, Filled;
  }

  lemma FilledTwice(st: Stand, e: nat, e': nat)
    requires e <= e'
    ensures Filled(Filled(st, e), e') == Filled(st, e')
  {
    hide Whole;
    var from := if st.pos >= st.left then st.pos - st.left else 0;
    var left := Filled(st, e).left;
    WholeTwice(from, if st.pos >= left then st.pos - left else 0, st.pos, e, e');
  }

  lemma WholeTwice(from: nat, from': nat, to: nat, e: nat, e': nat)
    requires e <= e' && from <= from' && (from == from' || Min(from', to) + 2 <= e)
    ensures Whole(from, to, e) + Whole(from', to, e') == Whole(from, to, e')
  {
    forall p: nat
      ensures p in Whole(from, to, e) + Whole(from', to, e') <==> p in Whole(from, to, e')
    {
      assert Complete(p, e) ==> Complete(p, e');
      assert from <= p < Min(from', to) ==> Complete(p, e) || from == from';
    }
  }

  lemma {:induction false} ToldLonger(r: Rules, input: seq<Byte>, log: seq<Moment>, input': seq<Byte>)
    requires forall k: nat :: k < |log| ==> log[k].end <= |input| && Sound(r, log[k].end, log[k].base, log[k].st)
    requires input <= input'
    ensures AllTold(r, input, log) == AllTold(r, input', log)
    decreases |log|
  {
    hide Made, Sound;
    if log != [] {
      var n := |log| - 1;
      SameMade(r, input, log[n], input');
      ToldLonger(r, input, log[..n], input');
    }
  }

  // ----- The window and the input -----------------------------------------------------------------------

  lemma SearchedFurther(bits: nat, win: seq<Byte>, entered: set<nat>, end: nat, input: seq<Byte>, known: set<nat>,
                        base: nat, s: nat, maxDist: nat, n: nat)
    requires Same(win, entered, end, input, known, base) && s + 2 < end && n > 0
    ensures Searched(bits, input, known, base, base + s, maxDist, n)
         == Further(Searched(bits, win, entered, 0, s, maxDist, n), base)
  {
    hide *;
    SameMeans(win, entered, end, input, known, base);
    BehindFurther(base, s, maxDist + 1);
    BehindFurther(base, s, maxDist);
    StringsFurther(bits, win, entered, end, input, known, base, s, s, Behind(0, s, maxDist + 1), 1);
    var first := Strings(bits, win, entered, s, s, Behind(0, s, maxDist + 1), 1);
    StringsMean(bits, win, entered, s, s, Behind(0, s, maxDist + 1), 1);
    SearchedIs(bits, win, entered, 0, s, maxDist, n);
    SearchedIs(bits, input, known, base, base + s, maxDist, n);
    if first != [] {
      StringsFurther(bits, win, entered, end, input, known, base, s, first[0], Behind(0, s, maxDist), n - 1);
      FurtherBoth(first, Strings(bits, win, entered, s, first[0], Behind(0, s, maxDist), n - 1), base);
    } else {
      assert Further([], base) == [];
    }
  }

  lemma BehindFurther(base: nat, s: nat, dist: nat)
    ensures Behind(base, base + s, dist) == base + Behind(0, s, dist)
  {
  }

  lemma SearchedIs(bits: nat, data: seq<Byte>, known: set<nat>, base: nat, s: nat, maxDist: nat, n: nat)
    requires s + 2 < |data| && n > 0
    ensures var first := Strings(bits, data, known, s, s, Behind(base, s, maxDist + 1), 1);
            && |first| <= 1 && (first != [] ==> first[0] < s)
            && Searched(bits, data, known, base, s, maxDist, n)
               == if first == [] then []
                  else first + Strings(bits, data, known, s, first[0], Behind(base, s, maxDist), n - 1)
  {
    hide Strings;
    StringsMean(bits, data, known, s, s, Behind(base, s, maxDist + 1), 1);
  }

  lemma FurtherBoth(a: seq<nat>, b: seq<nat>, base: nat)
    ensures Further(a + b, base) == Further(a, base) + Further(b, base)
  {
  }

  lemma SameMeans(win: seq<Byte>, entered: set<nat>, end: nat, input: seq<Byte>, known: set<nat>, base: nat)
    requires Same(win, entered, end, input, known, base)
    ensures end <= |win| && |input| == base + end && forall i: nat :: i < end ==> win[i] == input[base + i]
  {
  }

  lemma {:induction false} CommonFurther(win: seq<Byte>, end: nat, input: seq<Byte>, base: nat, p: nat,
                                         s: nat, cap: nat)
    requires end <= |win| && |input| == base + end && forall i: nat :: i < end ==> win[i] == input[base + i]
    requires p <= s && s + cap <= end
    ensures Common(input, base + p, base + s, cap) == Common(win, p, s, cap)
    decreases cap
  {
    if cap > 0 {
      CommonFurther(win, end, input, base, p + 1, s + 1, cap - 1);
    }
  }

  lemma {:induction false} BestFurther(win: seq<Byte>, end: nat, input: seq<Byte>, base: nat, s: nat, cap: nat,
                                       list: seq<nat>, list': seq<nat>, f: Longest, f': Longest, nice: nat, len0: nat)
    requires end <= |win| && |input| == base + end && forall i: nat :: i < end ==> win[i] == input[base + i]
    requires s + cap <= end && Earlier(list, s) && |list'| == |list|
    requires forall i: nat :: i < |list| ==> list'[i] == base + list[i]
    requires f'.len == f.len >= len0 && (f.len > len0 ==> f'.start == base + f.start)
    ensures Earlier(list', base + s)
    ensures var g, g' := Best(win, s, cap, list, f, nice), Best(input, base + s, cap, list', f', nice);
            g'.len == g.len && (g.len > len0 ==> g'.start == base + g.start)
    decreases |list|
  {
    hide Common;
    if list != [] {
      CommonFurther(win, end, input, base, list[0], s, cap);
      var n := Common(win, list[0], s, cap);
      if n > f.len {
        BestFurther(win, end, input, base, s, cap, list[1..], list'[1..], Longest(n, list[0]),
                    Longest(n, list'[0]), nice, len0);
      } else {
        BestFurther(win, end, input, base, s, cap, list[1..], list'[1..], f, f', nice, len0);
      }
    }
  }

  /** A search in the window finds the match at the place in the input. */
  lemma MatchFurther(r: Rules, win: seq<Byte>, entered: set<nat>, end: nat, input: seq<Byte>, known: set<nat>,
                     base: nat, s: nat, len0: nat)
    requires Same(win, entered, end, input, known, base) && s + 2 < end && r.chain >= 4
    ensures |input| == base + end && end <= |win|
    ensures var list := Searched(r.bits, win, entered, 0, s, r.maxDist,
                                 if len0 >= r.good then r.chain / 4 else r.chain);
            && Earlier(list, s)
            && var f := Best(win, s, Min(end - s, MAX_MATCH), list, Longest(len0, 0), Min(r.nice, end - s));
               var g := MatchAt(r, input, known, base, base + s, len0);
               g.len == f.len && (f.len > len0 ==> g.start == base + f.start)
  {
    hide Searched, Best, Same, Earlier;
    var n := if len0 >= r.good then r.chain / 4 else r.chain;
    SameMeans(win, entered, end, input, known, base);
    EarlierAll(r.bits, win, entered, 0, s, r.maxDist, n);
    SearchedFurther(r.bits, win, entered, end, input, known, base, s, r.maxDist, n);
    var list := Searched(r.bits, win, entered, 0, s, r.maxDist, n);
    BestFurther(win, end, input, base, s, Min(end - s, MAX_MATCH), list, Further(list, base), Longest(len0, 0),
                Longest(len0, 0), Min(r.nice, end - s), len0);
  }

  /** The string itself and those after it do not matter. */
  lemma MatchEarlier(r: Rules, data: seq<Byte>, known: set<nat>, known': set<nat>, base: nat, s: nat, len0: nat)
    requires s + 2 < |data| && r.chain >= 4 && forall p: nat :: p < s ==> (p in known <==> p in known')
    ensures MatchAt(r, data, known, base, s, len0) == MatchAt(r, data, known', base, s, len0)
  {
    hide Strings, Best;
    var n := if len0 >= r.good then r.chain / 4 else r.chain;
    OthersKnown(r.bits, data, known, known', s, s, Behind(base, s, r.maxDist + 1), 1);
    var first := Strings(r.bits, data, known, s, s, Behind(base, s, r.maxDist + 1), 1);
    StringsMean(r.bits, data, known, s, s, Behind(base, s, r.maxDist + 1), 1);
    if first != [] {
      OthersKnown(r.bits, data, known, known', s, first[0], Behind(base, s, r.maxDist), n - 1);
    }
  }

  /** Without a string near enough there is no match. */
  lemma NoMatch(r: Rules, win: seq<Byte>, x: Index, s: nat, p: nat, len0: nat, cap: nat, nice: nat)
    requires s + 2 < |x.win| && x.bits == r.bits && r.chain >= 4 && s + cap <= |x.win|
    requires IsLatest(x, Key(x, s), s, p) && (p == 0 || s - p > r.maxDist)
    ensures var list := Searched(x.bits, x.win, x.entered, 0, s, r.maxDist,
                                 if len0 >= r.good then r.chain / 4 else r.chain);
            list == [] && Best(x.win, s, cap, list, Longest(len0, 0), nice) == Longest(len0, 0)
  {
    hide Strings, IsLatest, Key;
    NextString(x, s, s, Behind(0, s, r.maxDist + 1), 1, p);
  }

  // ----- What the steps are ---------------------------------------------------------------------------

  /** The match at `s`, if there is one: it is one of the strings searched, has just so many bytes
      in common with the one at `s`, and is the longest up to the first that is nice. */
  lemma MatchMeans(r: Rules, data: seq<Byte>, known: set<nat>, base: nat, s: nat, len0: nat)
    requires s + 2 < |data| && r.chain >= 4
    ensures var n := if len0 >= r.good then r.chain / 4 else r.chain;
            var list := Searched(r.bits, data, known, base, s, r.maxDist, n);
            var f := MatchAt(r, data, known, base, s, len0);
            && Earlier(list, s)
            && IsBest(data, s, Min(|data| - s, MAX_MATCH), list, len0, Min(r.nice, |data| - s), f)
            && f.len >= len0 && (len0 < MAX_MATCH ==> f.len <= MAX_MATCH)
            && (f.len > len0 ==> base < f.start < s && s - f.start <= r.maxDist && f.start in known)
  {
    hide Best, Searched, Common;
    var n := if len0 >= r.good then r.chain / 4 else r.chain;
    var list := Searched(r.bits, data, known, base, s, r.maxDist, n);
    var cap := Min(|data| - s, MAX_MATCH);
    EarlierAll(r.bits, data, known, base, s, r.maxDist, n);
    BestMeans(data, s, cap, list, Longest(len0, 0), Min(r.nice, |data| - s));
    var f := MatchAt(r, data, known, base, s, len0);
    if f.len > len0 {
      var k: nat :| IsBestAt(data, s, cap, list, len0, Min(r.nice, |data| - s), f, k);
    }
  }
}
