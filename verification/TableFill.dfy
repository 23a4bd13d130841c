/** What each step of filling a table establishes and what it leaves alone.  A code is
    given here by its length `l` and its stream order bits `h`. */
module TableFill {
  import opened Arith
  import opened CanonicalCode
  import opened DecodeTable
  import opened TableOrder

  /** The sub-table being filled: where it starts, its index bits, and the root index
      that links to it (-1 while the root table itself is being filled). */
  datatype Frontier = Frontier(next: nat, curr: nat, low: int)

  /** Within `size` entries from `base`, every entry whose index extends the `k`-bit code
      `h` is `leaf`. */
  ghost predicate Region(T: seq<Entry>, base: nat, size: nat, k: nat, h: nat, leaf: Entry)
    requires base + size <= |T|
  {
    forall i: nat :: (base <= i < base + size && Low(i - base, k) == h) ==> T[i] == leaf
  }

  /** Every root entry whose index extends the short code decodes to `leaf`. */
  ghost predicate PlacedShort(T: seq<Entry>, root: nat, l: nat, h: nat, leaf: Entry) {
    Pow2(root) <= |T| && Region(T, 0, Pow2(root), l, h, leaf.(bits := l))
  }

  /** The root entry for the long code links to a sub-table, every entry of which that
      extends the rest of the code decodes to `leaf`. */
  ghost predicate PlacedLong(T: seq<Entry>, root: nat, l: nat, h: nat, leaf: Entry, f: Frontier) {
    && 0 < root < l
    && Low(h, root) < |T|
    && var e := T[Low(h, root)];
       && IsPointer(e) && e.bits == root && l <= e.op + root <= MAXBITS
       && Pow2(root) <= e.val && e.val + Pow2(e.op) <= |T|
       && (if Low(h, root) == f.low then e.val == f.next && e.op == f.curr
           else e.val + Pow2(e.op) <= f.next)
       && Region(T, e.val, Pow2(e.op), l - root, High(h, root), leaf.(bits := l - root))
  }

  ghost predicate Placed(T: seq<Entry>, E: seq<Entry>, lens: seq<nat>, root: nat, s: nat, f: Frontier) {
    && s < |lens| && s < |E|
    && if lens[s] <= root then PlacedShort(T, root, lens[s], StreamCode(lens, s), E[s])
       else PlacedLong(T, root, lens[s], StreamCode(lens, s), E[s], f)
  }

  /** Which entries the replicating loop writes. */
  ghost predicate Filled(T: seq<Entry>, T': seq<Entry>, base: nat, size: nat, k: nat, h: nat, e: Entry) {
    && |T'| == |T|
    && forall i: nat :: i < |T| ==>
         T'[i] == if base <= i < base + size && Low(i - base, k) == h then e else T[i]
  }

  /** No stream starts with both codes. */
  ghost predicate Apart(l: nat, h: nat, m: nat, g: nat) {
    forall x: nat :: Low(x, l) == h ==> Low(x, m) != g
  }

  lemma CodesApart(lens: seq<nat>, s: nat, q: nat)
    requires ValidLens(lens) && !OverSubscribed(lens)
    requires s < |lens| && q < |lens| && s != q && lens[s] > 0 && lens[q] > 0
    ensures Apart(lens[s], StreamCode(lens, s), lens[q], StreamCode(lens, q))
  {
    forall x: nat | Low(x, lens[s]) == StreamCode(lens, s)
      ensures Low(x, lens[q]) != StreamCode(lens, q)
    {
      assert Starts(lens, s, x);
      if Starts(lens, q, x) {
        PrefixFree(lens, s, q, x);
      }
    }
  }

  /** Codes apart under one root prefix are apart after it. */
  lemma ApartAfterRoot(root: nat, l: nat, h: nat, m: nat, g: nat)
    requires Apart(l, h, m, g) && root <= l && root <= m && h < Pow2(l) && g < Pow2(m)
    requires Low(h, root) == Low(g, root)
    ensures Apart(l - root, High(h, root), m - root, High(g, root))
  {
    var k, k' := l - root, m - root;
    forall j: nat | Low(j, k) == High(h, root)
      ensures Low(j, k') != High(g, root)
    {
      var x := Join(Low(h, root), j, root);
      Joined(Low(h, root), j, root);
      TwoSteps(x, h, root, l);
      TwoSteps(x, g, root, m);
    }
  }

  /** A fill for one code leaves the entries of another in place. */
  lemma RegionKept(T: seq<Entry>, T': seq<Entry>, base: nat, size: nat, k: nat, h: nat, leaf: Entry,
                   base': nat, size': nat, k': nat, h': nat, e: Entry)
    requires base + size <= |T| && Region(T, base, size, k, h, leaf)
    requires Filled(T, T', base', size', k', h', e)
    requires base + size <= base' || (base == base' && Apart(k, h, k', h'))
    ensures Region(T', base, size, k, h, leaf)
  {
  }

  lemma KeepShort(T: seq<Entry>, T': seq<Entry>, root: nat, l: nat, h: nat, leaf: Entry,
                  m: nat, g: nat, e: Entry)
    requires PlacedShort(T, root, l, h, leaf) && Apart(l, h, m, g)
    requires Filled(T, T', 0, Pow2(root), m, g, e)
    ensures PlacedShort(T', root, l, h, leaf)
  {
    RegionKept(T, T', 0, Pow2(root), l, h, leaf.(bits := l), 0, Pow2(root), m, g, e);
  }

  lemma KeepLong(T: seq<Entry>, T': seq<Entry>, root: nat, l: nat, h: nat, leaf: Entry,
                 m: nat, g: nat, f: Frontier, e: Entry)
    requires PlacedLong(T, root, l, h, leaf, f) && Apart(l, h, m, g)
    requires h < Pow2(l) && g < Pow2(m) && root <= m && Pow2(root) <= f.next
    requires Low(g, root) == f.low
    requires Filled(T, T', f.next, Pow2(f.curr), m - root, High(g, root), e)
    ensures PlacedLong(T', root, l, h, leaf, f)
  {
    hide Pow2, Low, High, Region, Apart;
    var p := T[Low(h, root)];
    assert T'[Low(h, root)] == p;
    if Low(h, root) == f.low {
      ApartAfterRoot(root, l, h, m, g);
    }
    RegionKept(T, T', p.val, Pow2(p.op), l - root, High(h, root), leaf.(bits := l - root),
               f.next, Pow2(f.curr), m - root, High(g, root), e);
  }

  /** Filling for `q` leaves every other symbol placed. */
  lemma KeepOverFill(T: seq<Entry>, T': seq<Entry>, E: seq<Entry>, lens: seq<nat>, root: nat,
                     s: nat, q: nat, f: Frontier, e: Entry)
    requires ValidLens(lens) && !OverSubscribed(lens)
    requires q < |lens| && s < |lens| && s != q && 0 < lens[s] <= lens[q] && 0 < root
    requires Placed(T, E, lens, root, s, f)
    requires FillsFor(T, T', lens, root, q, f, e)
    ensures Placed(T', E, lens, root, s, f)
  {
    hide Pow2, Low, High, CodeOf, Rev, Region, Apart;
    CodesApart(lens, s, q);
    var l, h, m, g := lens[s], StreamCode(lens, s), lens[q], StreamCode(lens, q);
    if root < l {
      KeepLong(T, T', root, l, h, E[s], m, g, f, e);
    } else if root < m {
      RegionKept(T, T', 0, Pow2(root), l, h, E[s].(bits := l),
                 f.next, Pow2(f.curr), m - root, High(g, root), e);
    } else {
      KeepShort(T, T', root, l, h, E[s], m, g, e);
    }
  }

  /** The writes made for symbol `q`: into the root table if its code is short, into the
      current sub-table if it is long. */
  ghost predicate FillsFor(T: seq<Entry>, T': seq<Entry>, lens: seq<nat>, root: nat, q: nat,
                           f: Frontier, e: Entry)
    requires q < |lens|
  {
    if lens[q] <= root then Filled(T, T', 0, Pow2(root), lens[q], StreamCode(lens, q), e)
    else
      && Low(StreamCode(lens, q), root) == f.low && Pow2(root) <= f.next
      && Filled(T, T', f.next, Pow2(f.curr), lens[q] - root, High(StreamCode(lens, q), root), e)
  }

  /** Linking a new block leaves a short code placed. */
  lemma ShortOverLink(T: seq<Entry>, root: nat, l: nat, h: nat, leaf: Entry, m: nat, g: nat, e: Entry)
    requires PlacedShort(T, root, l, h, leaf) && Apart(l, h, m, g)
    requires l <= root < m && g < Pow2(m) && Low(g, root) < |T|
    ensures PlacedShort(T[Low(g, root) := e], root, l, h, leaf)
  {
    LowLow(g, l, root);
    LowSmall(g, m);
  }

  lemma LongOverLink(T: seq<Entry>, root: nat, l: nat, h: nat, leaf: Entry,
                     f: Frontier, g: Frontier, e: Entry)
    requires PlacedLong(T, root, l, h, leaf, f)
    requires 0 <= g.low < Pow2(root) && g.low < |T| && g.low != Low(h, root)
    requires g.next == f.next + Pow2(f.curr)
    ensures PlacedLong(T[g.low := e], root, l, h, leaf, g)
  {
    var p := T[Low(h, root)];
    assert T[g.low := e][Low(h, root)] == p;
    RegionBelow(T, p.val, Pow2(p.op), l - root, High(h, root), leaf.(bits := l - root), g.low, e);
  }

  lemma RegionBelow(T: seq<Entry>, base: nat, size: nat, k: nat, h: nat, leaf: Entry, i: nat, e: Entry)
    requires base + size <= |T| && Region(T, base, size, k, h, leaf)
    requires i < base && i < |T|
    ensures Region(T[i := e], base, size, k, h, leaf)
  {
  }

  /** ... and every earlier symbol, with the frontier moved on. */
  lemma KeepOverLink(T: seq<Entry>, E: seq<Entry>, lens: seq<nat>, root: nat, s: nat, q: nat,
                     f: Frontier, g: Frontier, e: Entry)
    requires ValidLens(lens) && !OverSubscribed(lens)
    requires q < |lens| && 0 < root < lens[q] && s < |lens| && lens[s] > 0 && s != q
    requires Placed(T, E, lens, root, s, f)
    requires g.low == Low(StreamCode(lens, q), root) && g.low < |T|
    requires g.next == f.next + Pow2(f.curr) && g.low < Pow2(root)
    requires root < lens[s] ==> Prefix(lens, root, s) != Prefix(lens, root, q)
    ensures Placed(T[g.low := e], E, lens, root, s, g)
  {
    var l, h := lens[s], StreamCode(lens, s);
    if l <= root {
      CodesApart(lens, s, q);
      ShortOverLink(T, root, l, h, E[s], lens[q], StreamCode(lens, q), e);
    } else {
      LowIsPrefix(lens, root, s);
      LowIsPrefix(lens, root, q);
      RevInjective(root, Prefix(lens, root, s), Prefix(lens, root, q));
      LongOverLink(T, root, l, h, E[s], f, g, e);
    }
  }

  /** The symbol whose entries were just written is placed. */
  lemma PlaceNew(T: seq<Entry>, T': seq<Entry>, E: seq<Entry>, lens: seq<nat>, root: nat,
                 q: nat, f: Frontier, e: Entry)
    requires q < |lens| && q < |E| && 0 < root <= MAXBITS && Pow2(root) <= |T|
    requires FillsFor(T, T', lens, root, q, f, e)
    requires e == E[q].(bits := if lens[q] <= root then lens[q] else lens[q] - root)
    requires root < lens[q] ==>
               && T[f.low] == Entry(f.curr, root, f.next)
               && 0 < f.curr && lens[q] <= f.curr + root <= MAXBITS && f.next + Pow2(f.curr) <= |T|
    ensures Placed(T', E, lens, root, q, f)
    ensures root < lens[q] ==> T'[f.low] == T[f.low]
  {
  }

  // ----- A table in which everything is placed ------------------------------------------

  ghost predicate NoLinks(E: seq<Entry>) {
    forall s: nat :: s < |E| ==> !IsPointer(E[s])
  }

  ghost predicate AllPlaced(T: seq<Entry>, E: seq<Entry>, lens: seq<nat>, root: nat, f: Frontier) {
    forall s: nat :: s < |lens| && lens[s] > 0 ==> Placed(T, E, lens, root, s, f)
  }

  /** Where a stream that starts with a placed code is led. */
  ghost predicate LedTo(T: seq<Entry>, root: nat, l: nat, leaf: Entry, x: nat)
    requires Pow2(root) <= |T|
  {
    var e := T[Low(x, root)];
    if l <= root then e == leaf.(bits := l)
    else
      && IsPointer(e) && e.bits == root && l <= e.op + root <= MAXBITS
      && e.val + Pow2(e.op) <= |T|
      && T[SubIndex(e, x)] == leaf.(bits := l - root)
  }

  lemma LookupShort(T: seq<Entry>, root: nat, l: nat, h: nat, leaf: Entry, x: nat)
    requires PlacedShort(T, root, l, h, leaf) && l <= root && Low(x, l) == h
    ensures LedTo(T, root, l, leaf, x)
  {
    LowLow(x, l, root);
  }

  lemma LookupLong(T: seq<Entry>, root: nat, l: nat, h: nat, leaf: Entry, f: Frontier, x: nat)
    requires PlacedLong(T, root, l, h, leaf, f) && Low(x, l) == h && h < Pow2(l) && Pow2(root) <= |T|
    ensures LedTo(T, root, l, leaf, x)
  {
    TwoSteps(x, h, root, l);
    LookupLongFrom(T, root, l, h, leaf, f, x, T[Low(h, root)], High(x, root));
  }

  lemma LookupLongFrom(T: seq<Entry>, root: nat, l: nat, h: nat, leaf: Entry, f: Frontier, x: nat,
                       e: Entry, y: nat)
    requires PlacedLong(T, root, l, h, leaf, f) && Pow2(root) <= |T|
    requires e == T[Low(h, root)] && Low(x, root) == Low(h, root)
    requires y == High(x, root) && Low(y, l - root) == High(h, root)
    ensures LedTo(T, root, l, leaf, x)
  {
    SubLookup(T, e, l - root, High(h, root), leaf.(bits := l - root), y);
  }

  lemma SubLookup(T: seq<Entry>, e: Entry, k: nat, h: nat, leaf: Entry, y: nat)
    requires e.val + Pow2(e.op) <= |T| && Region(T, e.val, Pow2(e.op), k, h, leaf)
    requires k <= e.op && Low(y, k) == h
    ensures T[e.val + Low(y, e.op)] == leaf
  {
    LowLow(y, k, e.op);
    var i := e.val + Low(y, e.op);
    assert i - e.val == Low(y, e.op);
  }

  lemma LookupPlaced(T: seq<Entry>, E: seq<Entry>, lens: seq<nat>, root: nat, s: nat, f: Frontier, x: nat)
    requires 0 < root && Pow2(root) <= |T| && Starts(lens, s, x)
    requires Placed(T, E, lens, root, s, f)
    ensures LedTo(T, root, lens[s], E[s], x)
  {
    if lens[s] <= root {
      LookupShort(T, root, lens[s], StreamCode(lens, s), E[s], x);
    } else {
      LookupLong(T, root, lens[s], StreamCode(lens, s), E[s], f, x);
    }
  }

  /** The stream `j` is led to some leaf: an entry of the root table has bits, and if it is a
      pointer its sub-table lies within the table. */
  lemma LedSomewhere(T: seq<Entry>, E: seq<Entry>, lens: seq<nat>, root: nat, f: Frontier, j: nat)
    requires ValidLens(lens) && Complete(lens) && 0 < root <= MAXBITS
    requires NoLinks(E) && Pow2(root) <= |T| && j < Pow2(root)
    requires AllPlaced(T, E, lens, root, f)
    ensures 0 < T[j].bits <= root
    ensures IsPointer(T[j]) ==> T[j].bits == root && T[j].op + root <= MAXBITS && T[j].val + Pow2(T[j].op) <= |T|
  {
    hide *;
    var s := CompleteCovers(lens, j);
    StartsUsed(lens, s, j);
    AllMeans(T, E, lens, root, f, s);
    LookupPlaced(T, E, lens, root, s, f, j);
    LowSmall(j, root);
    RootOfLed(T, root, lens[s], E[s], j);
  }

  lemma StartsUsed(lens: seq<nat>, s: nat, x: nat)
    requires Starts(lens, s, x)
    ensures s < |lens| && lens[s] > 0
  {
  }

  lemma AllMeans(T: seq<Entry>, E: seq<Entry>, lens: seq<nat>, root: nat, f: Frontier, s: nat)
    requires AllPlaced(T, E, lens, root, f) && NoLinks(E) && s < |lens| && lens[s] > 0
    ensures Placed(T, E, lens, root, s, f) && s < |E| && !IsPointer(E[s])
  {
    hide PlacedShort, PlacedLong, IsPointer;
  }

  lemma RootOfLed(T: seq<Entry>, root: nat, l: nat, leaf: Entry, j: nat)
    requires Pow2(root) <= |T| && j < Pow2(root) && Low(j, root) == j && 0 < l && 0 < root && !IsPointer(leaf)
    requires LedTo(T, root, l, leaf, j)
    ensures 0 < T[j].bits <= root
    ensures IsPointer(T[j]) ==> T[j].bits == root && T[j].op + root <= MAXBITS && T[j].val + Pow2(T[j].op) <= |T|
  {
    hide Pow2, Low;
  }

  lemma RootEntryGood(T: seq<Entry>, E: seq<Entry>, lens: seq<nat>, root: nat, f: Frontier, j: nat)
    requires ValidLens(lens) && Complete(lens) && 0 < root <= MAXBITS
    requires NoLinks(E) && Pow2(root) <= |T| && j < Pow2(root)
    requires AllPlaced(T, E, lens, root, f)
    ensures GoodRoot(T, root, T[j])
  {
    hide Complete, NoLinks, AllPlaced, GoodSub, Pow2, IsPointer;
    LedSomewhere(T, E, lens, root, f, j);
    if IsPointer(T[j]) {
      forall k | T[j].val <= k < T[j].val + Pow2(T[j].op)
        ensures GoodSub(T[j], T[k])
      {
        SubEntryGood(T, E, lens, root, f, j, k - T[j].val);
      }
    }
  }

  lemma SubEntryGood(T: seq<Entry>, E: seq<Entry>, lens: seq<nat>, root: nat, f: Frontier, j: nat, k: nat)
    requires ValidLens(lens) && Complete(lens) && 0 < root <= MAXBITS
    requires NoLinks(E) && Pow2(root) <= |T| && j < Pow2(root)
    requires AllPlaced(T, E, lens, root, f)
    requires IsPointer(T[j]) && k < Pow2(T[j].op) && T[j].bits == root
    ensures T[j].val + k < |T| && GoodSub(T[j], T[T[j].val + k])
  {
    Joined(j, k, root);
    LowSmall(k, T[j].op);
    StreamGood(T, E, lens, root, f, Join(j, k, root), j, k);
  }

  lemma StreamGood(T: seq<Entry>, E: seq<Entry>, lens: seq<nat>, root: nat, f: Frontier,
                   x: nat, j: nat, k: nat)
    requires ValidLens(lens) && Complete(lens) && 0 < root <= MAXBITS
    requires NoLinks(E) && Pow2(root) <= |T| && AllPlaced(T, E, lens, root, f)
    requires Low(x, root) == j && High(x, root) == k && IsPointer(T[j]) && T[j].bits == root
    requires Low(k, T[j].op) == k
    ensures T[j].val + k < |T| && GoodSub(T[j], T[T[j].val + k])
  {
    var t := CompleteCovers(lens, x);
    LookupPlaced(T, E, lens, root, t, f, x);
    LedToGood(T, root, lens[t], E[t], x, j, k);
  }

  lemma LedToGood(T: seq<Entry>, root: nat, l: nat, leaf: Entry, x: nat, j: nat, k: nat)
    requires Pow2(root) <= |T| && LedTo(T, root, l, leaf, x) && !IsPointer(leaf)
    requires Low(x, root) == j && High(x, root) == k && IsPointer(T[j]) && T[j].bits == root
    requires Low(k, T[j].op) == k
    ensures T[j].val + k < |T| && GoodSub(T[j], T[T[j].val + k])
  {
  }

  /** What each symbol's entries hold, before their bits are set. */
  function Leaves(kind: CodeType, n: nat): (E: seq<Entry>)
    requires n <= SymbolLimit(kind)
    ensures |E| == n && forall s: nat :: s < n ==> E[s] == Leaf(kind, s, 0)
  {
    seq(n, s requires 0 <= s < n => Leaf(kind, s, 0))
  }

  lemma LeafOf(kind: CodeType, n: nat, s: nat, bits: nat)
    requires s < n <= SymbolLimit(kind)
    ensures Leaf(kind, s, bits) == Leaves(kind, n)[s].(bits := bits)
  {
  }

  /** Once every symbol of a complete code is placed, the table decodes the code. */
  lemma PlacedDecodes(T: seq<Entry>, kind: CodeType, lens: seq<nat>, root: nat, f: Frontier)
    requires ValidLens(lens) && Complete(lens) && |lens| <= SymbolLimit(kind)
    requires 0 < root <= MAXBITS && Pow2(root) <= |T|
    requires AllPlaced(T, Leaves(kind, |lens|), lens, root, f)
    ensures Decodes(T, root, kind, lens)
  {
    hide Pow2, Low, High, Leaf, Leaves, Kraft, Placed;
    forall j: nat | j < Pow2(root)
      ensures GoodRoot(T, root, T[j])
    {
      RootEntryGood(T, Leaves(kind, |lens|), lens, root, f, j);
    }
    forall x: nat
      ensures Answers(kind, lens, x, Lookup(T, root, x))
    {
      var s := CompleteCovers(lens, x);
      LookupPlaced(T, Leaves(kind, |lens|), lens, root, s, f, x);
      LeafOf(kind, |lens|, s, lens[s]);
      forall t: nat | Starts(lens, t, x)
        ensures t == s
      {
        PrefixFree(lens, s, t, x);
      }
    }
  }

  /** The one incomplete code let through: a single symbol of length 1, whose code is 0. */
  lemma LoneDecodes(T: seq<Entry>, kind: CodeType, lens: seq<nat>, s: nat)
    requires |lens| <= SymbolLimit(kind) && s < |lens| && lens[s] == 1 && CodeOf(lens, s) == 0
    requires forall t: nat :: t < |lens| && lens[t] > 0 ==> t == s
    requires ValidLens(lens) && !OverSubscribed(lens)
    requires |T| >= 2 && T[0] == Leaf(kind, s, 1) && T[1] == INVALID
    ensures Decodes(T, 1, kind, lens)
  {
    assert Pow2(0) == 1;
    assert StreamCode(lens, s) == 0 by { assert Rev(0, 0) == 0; }
    forall x: nat
      ensures Answers(kind, lens, x, Lookup(T, 1, x))
    {
      assert Starts(lens, s, x) <==> Low(x, 1) == 0;
      forall t: nat | Starts(lens, t, x)
        ensures t == s
      {
      }
    }
  }

  /** No symbols at all: every stream runs into the invalid marker. */
  lemma EmptyDecodes(T: seq<Entry>, kind: CodeType, lens: seq<nat>)
    requires |lens| <= SymbolLimit(kind) && !OverSubscribed(lens)
    requires forall t: nat :: t < |lens| ==> lens[t] == 0
    requires |T| >= 2 && T[0] == INVALID && T[1] == INVALID
    ensures Decodes(T, 1, kind, lens)
  {
    assert Pow2(0) == 1;
    forall x: nat
      ensures Answers(kind, lens, x, Lookup(T, 1, x))
    {
    }
  }
}
