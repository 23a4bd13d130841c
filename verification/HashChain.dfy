/** The hash chains of deflate: `head` holds the latest string of every key, `prev` leads
    from a string to the one before it with the same key.  The strings are known by their
    index in the window. */
module HashChain {
  import opened Arith
  import opened BitReader
  import opened HashKey

  /** Everything a chain consists of: the window, the two tables, and the strings entered. */
  datatype Index = Index(bits: nat, win: seq<Byte>, head: seq<nat>, prev: seq<nat>, entered: set<nat>)

  /** `p & w_mask`, for a window twice as long as `prev`. */
  function Slot(p: nat, wsize: nat): nat {
    if p < wsize then p else p - wsize
  }

  lemma SlotIsMask(p: nat, wbits: nat)
    requires p < 2 * Pow2(wbits)
    ensures Slot(p, Pow2(wbits)) == Low(p, wbits)
  {
    LowHigh(p, wbits);
    if p >= Pow2(wbits) {
      DivModUnique(p, Pow2(wbits), 1, p - Pow2(wbits));
    } else {
      DivModUnique(p, Pow2(wbits), 0, p);
    }
  }

  /** The key of the string at `p`. */
  function Key(x: Index, p: nat): nat
    requires p + 2 < |x.win|
  {
    KeyAt(x.bits, x.win, p)
  }

  function KeyAt(bits: nat, data: seq<Byte>, p: nat): nat
    requires p + 2 < |data|
  {
    Key3(bits, data[p], data[p + 1], data[p + 2])
  }

  /** The strings entered lie before `next` and within the data, which end at `end`. */
  ghost predicate Placed(x: Index, next: nat, end: nat) {
    && end <= |x.win| == 2 * |x.prev|
    && forall p: nat :: p in x.entered ==> 0 < p < next && p + 2 < end
  }

  /** Every chain starts with a string of its key. */
  ghost predicate Heads(x: Index) {
    && |x.head| == Pow2(x.bits)
    && forall h: nat :: h < |x.head| ==> HeadOk(x, h)
  }

  ghost predicate HeadOk(x: Index, h: nat)
    requires h < |x.head|
  {
    IsLatest(x, h, |x.win|, x.head[h])
  }

  /** Of the strings of key `h` entered before `below`, `p` is the latest; 0 if there is none. */
  ghost predicate IsLatest(x: Index, h: nat, below: nat, p: nat) {
    && (p == 0 || (p in x.entered && p < below && p + 2 < |x.win| && Key(x, p) == h))
    && forall q: nat :: q in x.entered && p < q < below ==> q + 2 < |x.win| && Key(x, q) != h
  }

  /** From every string whose place in `prev` has not been taken by a later one the chain
      goes back to the string of the same key entered before it, or ends. */
  ghost predicate Links(x: Index) {
    && |x.win| == 2 * |x.prev|
    && forall p: nat :: p in x.entered && p + |x.prev| !in x.entered ==> LinkOk(x, p)
  }

  ghost predicate LinkOk(x: Index, p: nat) {
    && Slot(p, |x.prev|) < |x.prev| && p + 2 < |x.win|
    && IsLatest(x, Key(x, p), p, x.prev[Slot(p, |x.prev|)])
  }

  ghost predicate Chained(x: Index, next: nat, end: nat) {
    Placed(x, next, end) && Heads(x) && Links(x)
  }

  /** Nothing entered. */
  lemma Cleared(x: Index, next: nat, end: nat)
    requires end <= |x.win| == 2 * |x.prev| && |x.head| == Pow2(x.bits)
    requires x.entered == {} && forall h: nat :: h < |x.head| ==> x.head[h] == 0
    ensures Chained(x, next, end)
  {
  }

  /** Moving on without entering anything. */
  lemma Later(x: Index, next: nat, end: nat, next': nat)
    requires Chained(x, next, end) && next <= next'
    ensures Chained(x, next', end)
  {
    hide LinkOk, HeadOk, Key;
  }

  /** Strings are only entered once their three bytes are there. */
  lemma LastTwo(x: Index, next: nat, end: nat, next': nat)
    requires Chained(x, next, end) && end <= next' + 2
    ensures Chained(x, next', end)
  {
    hide LinkOk, HeadOk, Key;
  }

  /** More data, or anything else that leaves the data as they were. */
  lemma MoreData(x: Index, next: nat, end: nat, win: seq<Byte>, end': nat)
    requires Chained(x, next, end) && |win| == |x.win| && end <= end' <= |win|
    requires forall i: nat :: i < end ==> win[i] == x.win[i]
    ensures Chained(x.(win := win), next, end')
  {
    var y := x.(win := win);
    forall p: nat | p + 2 < end
      ensures Key(y, p) == Key(x, p)
    {
    }
    hide Key;
    forall h: nat | h < |x.head|
      ensures HeadOk(y, h)
    {
      assert HeadOk(x, h);
    }
    forall p: nat | p in x.entered && p + |x.prev| !in x.entered
      ensures LinkOk(y, p)
    {
      assert LinkOk(x, p);
    }
  }

  // ----- INSERT_STRING ------------------------------------------------------------------------

  /** The chains after the string at `p`, of key `h`, has been put in front of its chain. */
  function Entered(x: Index, p: nat, h: nat): Index
    requires h < |x.head| && Slot(p, |x.prev|) < |x.prev|
  {
    x.(head := x.head[h := p], prev := x.prev[Slot(p, |x.prev|) := x.head[h]],
       entered := if p == 0 then x.entered else x.entered + {p})
  }

  lemma Insert(x: Index, next: nat, end: nat, p: nat)
    requires Chained(x, next, end) && next <= p && p + 2 < end
    ensures var h := Key(x, p);
            && h < |x.head| && Slot(p, |x.prev|) < |x.prev|
            && Chained(Entered(x, p, h), p + 1, end)
  {
    hide *;
    ChainedMeans(x, next, end);
    KeyFits(x, p);
    var y := Entered(x, p, Key(x, p));
    forall k: nat | k < |y.head|
      ensures HeadOk(y, k)
    {
      NewHead(x, next, end, p, k);
    }
    NewPlaced(x, next, end, p);
    forall q: nat | q in y.entered && q + |y.prev| !in y.entered
      ensures LinkOk(y, q)
    {
      NewLink(x, next, end, p, q);
    }
    MakeChained(y, p + 1, end);
  }

  lemma ChainedMeans(x: Index, next: nat, end: nat)
    requires Chained(x, next, end)
    ensures Placed(x, next, end) && end <= |x.win| == 2 * |x.prev| && |x.head| == Pow2(x.bits)
    ensures forall h: nat :: h < |x.head| ==> HeadOk(x, h)
    ensures forall p: nat :: p in x.entered && p + |x.prev| !in x.entered ==> LinkOk(x, p)
  {
    hide HeadOk, LinkOk, Pow2;
  }

  lemma MakeChained(y: Index, next: nat, end: nat)
    requires Placed(y, next, end) && |y.win| == 2 * |y.prev| && |y.head| == Pow2(y.bits)
    requires forall h: nat :: h < |y.head| ==> HeadOk(y, h)
    requires forall p: nat :: p in y.entered && p + |y.prev| !in y.entered ==> LinkOk(y, p)
    ensures Chained(y, next, end)
  {
    hide HeadOk, LinkOk, Pow2;
  }

  lemma KeyFits(x: Index, p: nat)
    requires |x.head| == Pow2(x.bits) && p + 2 < |x.win| == 2 * |x.prev|
    ensures Key(x, p) < |x.head| && Slot(p, |x.prev|) < |x.prev|
    ensures var y := Entered(x, p, Key(x, p));
            && |y.head| == |x.head| && |y.prev| == |x.prev| && y.win == x.win && y.bits == x.bits
  {
    hide Key3, Pow2;
  }

  lemma NewPlaced(x: Index, next: nat, end: nat, p: nat)
    requires Placed(x, next, end) && next <= p && p + 2 < end
    requires Key(x, p) < |x.head| && Slot(p, |x.prev|) < |x.prev|
    ensures Placed(Entered(x, p, Key(x, p)), p + 1, end)
  {
    hide Key, Slot;
  }

  /** A later string does not matter. */
  lemma LatestStays(x: Index, y: Index, h: nat, below: nat, q: nat, p: nat)
    requires IsLatest(x, h, below, q) && y.win == x.win && y.bits == x.bits
    requires forall k: nat :: k in y.entered <==> k in x.entered || (k == p && p > 0)
    requires below <= p || (p + 2 < |x.win| && Key(x, p) != h)
    ensures IsLatest(y, h, below, q)
  {
    hide Key3;
  }

  lemma NewHead(x: Index, next: nat, end: nat, p: nat, k: nat)
    requires Placed(x, next, end) && next <= p && p + 2 < |x.win| && k < |x.head| && HeadOk(x, k)
    requires Key(x, p) < |x.head| && Slot(p, |x.prev|) < |x.prev|
    ensures HeadOk(Entered(x, p, Key(x, p)), k)
  {
    hide Key3, Slot, IsLatest;
    var y := Entered(x, p, Key(x, p));
    if k == Key(x, p) {
      NewIsLatest(x, next, end, p, y);
    } else {
      LatestStays(x, y, k, |x.win|, x.head[k], p);
    }
  }

  lemma NewIsLatest(x: Index, next: nat, end: nat, p: nat, y: Index)
    requires Placed(x, next, end) && next <= p && p + 2 < |x.win| && y.win == x.win && y.bits == x.bits
    requires forall k: nat :: k in y.entered <==> k in x.entered || (k == p && p > 0)
    ensures IsLatest(y, Key(x, p), |x.win|, p)
  {
    hide Key3;
  }

  /** The new string leads to what was at the head of its chain; the link it overwrites is that
      of a string a window size before. */
  lemma NewLink(x: Index, next: nat, end: nat, p: nat, q: nat)
    requires Placed(x, next, end) && next <= p && p + 2 < end
    requires Key(x, p) < |x.head| && Slot(p, |x.prev|) < |x.prev|
    requires HeadOk(x, Key(x, p)) && (q in x.entered && q + |x.prev| !in x.entered ==> LinkOk(x, q))
    requires var y := Entered(x, p, Key(x, p)); q in y.entered && q + |y.prev| !in y.entered
    ensures LinkOk(Entered(x, p, Key(x, p)), q)
  {
    hide Key3, IsLatest;
    var y := Entered(x, p, Key(x, p));
    if q == p {
      HeadBelow(x, next, end, p);
      LatestStays(x, y, Key(x, p), p, x.head[Key(x, p)], p);
    } else {
      LatestStays(x, y, Key(x, q), q, x.prev[Slot(q, |x.prev|)], p);
    }
  }

  lemma HeadBelow(x: Index, next: nat, end: nat, p: nat)
    requires Placed(x, next, end) && next <= p && p + 2 < end
    requires Key(x, p) < |x.head| && HeadOk(x, Key(x, p))
    ensures IsLatest(x, Key(x, p), p, x.head[Key(x, p)])
  {
    hide Key3;
  }

  // ----- slide_hash -------------------------------------------------------------------------------

  function Slid(m: nat, wsize: nat): nat {
    if m >= wsize then m - wsize else 0
  }

  /** The strings that are still in the window after it moves up by `wsize`. */
  ghost function SlidSet(s: set<nat>, wsize: nat): set<nat> {
    set p: nat | p in s && p > wsize :: p - wsize
  }

  lemma InSlid(s: set<nat>, wsize: nat, p: nat)
    ensures p in SlidSet(s, wsize) <==> p > 0 && p + wsize in s
  {
    if p > 0 && p + wsize in s {
      assert (p + wsize) - wsize == p;
    }
  }

  /** `y` is `x` after the window has moved. */
  ghost predicate Moved(x: Index, y: Index, end: nat) {
    var wsize := |x.prev|;
    && y.bits == x.bits && |y.win| == |x.win| == 2 * wsize && |y.prev| == wsize && |y.head| == |x.head|
    && wsize <= end <= |x.win|
    && (forall i: nat :: i < end - wsize ==> y.win[i] == x.win[i + wsize])
    && (forall h: nat :: h < |x.head| ==> y.head[h] == Slid(x.head[h], wsize))
    && (forall k: nat :: k < wsize ==> y.prev[k] == Slid(x.prev[k], wsize))
    && y.entered == SlidSet(x.entered, wsize)
  }

  lemma SlideKey(x: Index, y: Index, end: nat, p: nat)
    requires Moved(x, y, end) && p + |x.prev| + 2 < end
    ensures Key(y, p) == Key(x, p + |x.prev|)
  {
  }

  /** What is the latest stays the latest, or leaves the window. */
  lemma LatestSlid(x: Index, y: Index, next: nat, end: nat, h: nat, below: nat, p: nat)
    requires Moved(x, y, end) && Placed(x, next, end) && IsLatest(x, h, below + |x.prev|, p)
    ensures IsLatest(y, h, below, Slid(p, |x.prev|))
  {
    hide Key;
    var wsize, p' := |x.prev|, Slid(p, |x.prev|);
    if p' > 0 {
      InSlid(x.entered, wsize, p');
      SlideKey(x, y, end, p');
    }
    forall q: nat | q in y.entered && p' < q < below
      ensures q + 2 < |y.win| && Key(y, q) != h
    {
      InSlid(x.entered, wsize, q);
      SlideKey(x, y, end, q);
    }
  }

  lemma LatestBelow(x: Index, next: nat, end: nat, h: nat, p: nat, below: nat)
    requires Placed(x, next, end) && IsLatest(x, h, |x.win|, p) && |x.win| <= below
    ensures IsLatest(x, h, below, p)
  {
    hide Key;
  }

  lemma SlideHead(x: Index, y: Index, next: nat, end: nat, h: nat)
    requires Moved(x, y, end) && Placed(x, next, end) && h < |x.head| && HeadOk(x, h)
    ensures HeadOk(y, h)
  {
    hide IsLatest, Key;
    LatestBelow(x, next, end, h, x.head[h], |y.win| + |x.prev|);
    LatestSlid(x, y, next, end, h, |y.win|, x.head[h]);
  }

  lemma SlideLink(x: Index, y: Index, next: nat, end: nat, p: nat)
    requires Moved(x, y, end) && Placed(x, next, end) && p in y.entered && LinkOk(x, p + |x.prev|)
    ensures LinkOk(y, p)
  {
    var wsize := |x.prev|;
    InSlid(x.entered, wsize, p);
    assert Slot(p + wsize, wsize) == p;
    hide IsLatest, Key;
    SlideKey(x, y, end, p);
    LatestSlid(x, y, next, end, Key(y, p), p, x.prev[p]);
  }

  lemma Slide(x: Index, y: Index, next: nat, end: nat)
    requires Moved(x, y, end) && Chained(x, next, end) && |x.prev| <= next
    ensures Chained(y, next - |x.prev|, end - |x.prev|)
  {
    var wsize := |x.prev|;
    hide Key, Slot, Slid;
    forall p: nat | p in y.entered
      ensures 0 < p < next - wsize && p + 2 < end - wsize
    {
      InSlid(x.entered, wsize, p);
    }
    forall h: nat | h < |y.head|
      ensures HeadOk(y, h)
    {
      assert HeadOk(x, h);
      SlideHead(x, y, next, end, h);
    }
    forall p: nat | p in y.entered && p + wsize !in y.entered
      ensures LinkOk(y, p)
    {
      InSlid(x.entered, wsize, p);
      var q := p + wsize;
      assert q + wsize !in x.entered;
      assert LinkOk(x, q);
      SlideLink(x, y, next, end, p);
    }
  }

  // ----- Following a chain ------------------------------------------------------------------------------

  /** A string the search for matches of the string at `s` may look at. */
  ghost predicate Candidate(x: Index, s: nat, p: nat) {
    && p in x.entered && p < s && s + 2 < |x.win| && p + |x.prev| > s && Key(x, p) == Key(x, s)
  }

  /** The head of the chain, before the string itself is put there. */
  lemma FirstCandidate(x: Index, next: nat, end: nat, s: nat)
    requires Chained(x, next, end) && next <= s && s + 2 < end
    ensures var h := Key(x, s);
            && h < |x.head| && Slot(s, |x.prev|) < |x.prev|
            && var p := x.head[h];
               && p <= s && IsLatest(Entered(x, s, h), h, s, p)
               && (p != 0 && s - p < |x.prev| ==> Candidate(Entered(x, s, h), s, p))
  {
    assert HeadOk(x, Key(x, s));
  }

  /** The next one on the chain, if it is not too far back. */
  lemma NextCandidate(x: Index, next: nat, end: nat, s: nat, p: nat)
    requires Chained(x, next, end) && next == s + 1 && Candidate(x, s, p)
    ensures Slot(p, |x.prev|) < |x.prev|
    ensures var q := x.prev[Slot(p, |x.prev|)];
            && (q > 0 ==> q < p) && IsLatest(x, Key(x, s), p, q)
            && (q > 0 && q + |x.prev| > s ==> Candidate(x, s, q))
  {
    hide Key3;
    assert p + |x.prev| !in x.entered;
    assert LinkOk(x, p);
  }

  /** What the chain says about a candidate: if the first two bytes agree, so does the third. */
  lemma CandidateMatches(x: Index, next: nat, end: nat, s: nat, p: nat)
    requires Chained(x, next, end) && Candidate(x, s, p) && x.bits >= 8
    requires x.win[p] == x.win[s] && x.win[p + 1] == x.win[s + 1]
    ensures x.win[p + 2] == x.win[s + 2]
  {
    hide Key3;
    ThirdByte(x.bits, x.win[s], x.win[s + 1], x.win[p + 2], x.win[s + 2]);
  }

  // ----- The strings of one key ----------------------------------------------------------------------------

  /** The strings among `known` that have the key of the one at `s` and lie between `low` and `q`,
      the latest first, and at most `n` of them: what a search looks at, whatever tables it uses
      to find it. */
  ghost function Strings(bits: nat, data: seq<Byte>, known: set<nat>, s: nat, q: nat, low: nat, n: nat): seq<nat>
    requires q <= s && s + 2 < |data|
    decreases q
  {
    if n == 0 || q <= low + 1 then []
    else if q - 1 in known && KeyAt(bits, data, q - 1) == KeyAt(bits, data, s) then
      [q - 1] + Strings(bits, data, known, s, q - 1, low, n - 1)
    else Strings(bits, data, known, s, q - 1, low, n)
  }

  ghost predicate OfKey(bits: nat, data: seq<Byte>, known: set<nat>, s: nat, p: nat)
    requires s + 2 < |data|
  {
    p <= s && p in known && KeyAt(bits, data, p) == KeyAt(bits, data, s)
  }

  /** Which they are: in falling order, and all there are unless `n` of them lie further up. */
  lemma {:induction false} StringsMean(bits: nat, data: seq<Byte>, known: set<nat>, s: nat, q: nat, low: nat, n: nat)
    requires q <= s && s + 2 < |data|
    ensures var l := Strings(bits, data, known, s, q, low, n);
            && |l| <= n
            && (forall i: nat :: i < |l| ==> low < l[i] < q && OfKey(bits, data, known, s, l[i]))
            && (forall i: nat, j: nat :: i < j < |l| ==> l[j] < l[i])
            && (forall p: nat :: low < p < q && OfKey(bits, data, known, s, p) ==>
                  p in l || (|l| == n && forall i: nat :: i < |l| ==> p < l[i]))
    decreases q
  {
    hide KeyAt;
    if n > 0 && q > low + 1 {
      if OfKey(bits, data, known, s, q - 1) {
        StringsMean(bits, data, known, s, q - 1, low, n - 1);
      } else {
        StringsMean(bits, data, known, s, q - 1, low, n);
      }
    }
  }

  /** The chain leads through just these strings. */
  lemma {:induction false} NextString(x: Index, s: nat, q: nat, low: nat, n: nat, p: nat)
    requires q <= s && s + 2 < |x.win| && IsLatest(x, Key(x, s), q, p)
    ensures Strings(x.bits, x.win, x.entered, s, q, low, n)
         == if n == 0 || p <= low then [] else [p] + Strings(x.bits, x.win, x.entered, s, p, low, n - 1)
    decreases q
  {
    hide Key3;
    if n > 0 && q > low + 1 {
      if q - 1 == p {
        assert KeyAt(x.bits, x.win, p) == KeyAt(x.bits, x.win, s);
      } else {
        assert q - 1 !in x.entered || KeyAt(x.bits, x.win, q - 1) != KeyAt(x.bits, x.win, s);
        NextString(x, s, q - 1, low, n, p);
      }
    }
  }

  /** More strings known from `q` on do not matter. */
  lemma {:induction false} OthersKnown(bits: nat, data: seq<Byte>, known: set<nat>, known': set<nat>, s: nat, q: nat,
                                       low: nat, n: nat)
    requires q <= s && s + 2 < |data|
    requires forall p: nat :: low < p < q ==> (p in known <==> p in known')
    ensures Strings(bits, data, known, s, q, low, n) == Strings(bits, data, known', s, q, low, n)
    decreases q
  {
    hide KeyAt;
    if n > 0 && q > low + 1 {
      if OfKey(bits, data, known, s, q - 1) {
        OthersKnown(bits, data, known, known', s, q - 1, low, n - 1);
      } else {
        OthersKnown(bits, data, known, known', s, q - 1, low, n);
      }
    }
  }

  /** The strings of the window by their places in the input. */
  ghost predicate Same(win: seq<Byte>, entered: set<nat>, end: nat, input: seq<Byte>, known: set<nat>, base: nat) {
    && end <= |win| && |input| == base + end
    && (forall i: nat :: i < end ==> win[i] == input[base + i])
    && forall p: nat :: p > 0 ==> (p in entered <==> base + p in known)
  }

  function Further(l: seq<nat>, base: nat): (r: seq<nat>)
    ensures |r| == |l| && forall i: nat :: i < |l| ==> r[i] == base + l[i]
  {
    seq(|l|, i requires 0 <= i < |l| => base + l[i])
  }

  lemma {:induction false} StringsFurther(bits: nat, win: seq<Byte>, entered: set<nat>, end: nat, input: seq<Byte>,
                                          known: set<nat>, base: nat, s: nat, q: nat, low: nat, n: nat)
    requires Same(win, entered, end, input, known, base) && q <= s && s + 2 < end
    ensures Strings(bits, input, known, base + s, base + q, base + low, n)
         == Further(Strings(bits, win, entered, s, q, low, n), base)
    decreases q
  {
    hide Key3;
    if n > 0 && q > low + 1 {
      assert KeyAt(bits, input, base + s) == KeyAt(bits, win, s);
      var p := q - 1;
      assert KeyAt(bits, input, base + p) == KeyAt(bits, win, p);
      if OfKey(bits, win, entered, s, p) {
        StringsFurther(bits, win, entered, end, input, known, base, s, p, low, n - 1);
      } else {
        StringsFurther(bits, win, entered, end, input, known, base, s, p, low, n);
      }
    }
  }
}
