/** inflate_table: from code lengths to a two-level decoding table. */
module InflateTable {
  import opened Arith
  import opened CanonicalCode
  import opened DecodeTable
  import opened TableOrder
  import opened TableFill

  // ----- Counting and sorting --------------------------------------------------------

  method CountLengths(lens: seq<nat>) returns (count: array<nat>)
    requires ValidLens(lens)
    ensures fresh(count) && count.Length == MAXBITS + 1
    ensures forall l :: 0 <= l <= MAXBITS ==> count[l] == Count(lens, l)
  {
    count := new nat[MAXBITS + 1](_ => 0);
    var sym := 0;
    while sym < |lens|
      invariant sym <= |lens|
      invariant forall l :: 0 <= l <= MAXBITS ==> count[l] == Count(lens[..sym], l)
    {
      assert lens[..sym + 1][..sym] == lens[..sym];
      count[lens[sym]] := count[lens[sym]] + 1;
      sym := sym + 1;
    }
    assert lens[..sym] == lens;
  }

  lemma {:induction false} OffsetSnoc(lens: seq<nat>, l: nat)
    requires |lens| > 0
    ensures var last := lens[|lens| - 1];
            Offset(lens, l) == Offset(lens[..|lens| - 1], l) + if 0 < last < l then 1 else 0
  {
    if l > 1 {
      OffsetSnoc(lens, l - 1);
    }
  }

  lemma {:induction false} OffsetBound(lens: seq<nat>, l: nat)
    ensures Offset(lens, l) <= |lens|
  {
    if lens != [] {
      OffsetSnoc(lens, l);
      OffsetBound(lens[..|lens| - 1], l);
    } else if l > 1 {
      OffsetBound(lens, l - 1);
    }
  }

  /** Every place is taken. */
  lemma {:induction false} PlaceTaken(lens: seq<nat>, l: nat, p: nat) returns (s: nat)
    requires p < Offset(lens, l)
    ensures s < |lens| && 0 < lens[s] < l && Place(lens, s) == p
  {
    if p < Offset(lens, l - 1) {
      s := PlaceTaken(lens, l - 1, p);
    } else {
      s := SymbolOfRank(lens, l - 1, p - Offset(lens, l - 1));
    }
  }

  method Offsets(lens: seq<nat>, count: array<nat>) returns (offs: array<nat>)
    requires count.Length == MAXBITS + 1
    requires forall l :: 0 <= l <= MAXBITS ==> count[l] == Count(lens, l)
    ensures fresh(offs) && offs.Length == MAXBITS + 1
    ensures forall l :: 1 <= l <= MAXBITS ==> offs[l] == Offset(lens, l)
  {
    hide Count;
    offs := new nat[MAXBITS + 1](_ => 0);
    var len := 1;
    while len < MAXBITS
      invariant 1 <= len <= MAXBITS
      invariant forall l :: 1 <= l <= len ==> offs[l] == Offset(lens, l)
    {
      offs[len + 1] := offs[len] + count[len];
      len := len + 1;
    }
  }

  method SortSymbols(lens: seq<nat>, count: array<nat>, work: array<nat>)
    requires ValidLens(lens) && count.Length == MAXBITS + 1 && work.Length >= |lens|
    requires count != work
    requires forall l :: 0 <= l <= MAXBITS ==> count[l] == Count(lens, l)
    modifies work
    ensures Offset(lens, MAXBITS + 1) <= work.Length
    ensures Sorted(lens, work[..Offset(lens, MAXBITS + 1)])
  {
    hide *;
    var offs := Offsets(lens, count);
    OffsetBound(lens, MAXBITS + 1);
    StartSorting(lens, offs[..], work[..]);
    var sym: nat := 0;
    while sym < |lens|
      invariant sym <= |lens|
      invariant NextFree(lens, sym, offs[..])
      invariant SortedUpTo(lens, sym, work[..])
    {
      ghost var o, w := offs[..], work[..];
      Skip(lens, sym, o, w);
      if lens[sym] != 0 {
        work[offs[lens[sym]]] := sym;
        offs[lens[sym]] := offs[lens[sym]] + 1;
        assert offs[..] == o[lens[sym] := o[lens[sym]] + 1];
        assert work[..] == w[o[lens[sym]] := sym];
      }
      sym := sym + 1;
    }
    AllSorted(lens, work[..]);
    assert work[..][..Offset(lens, MAXBITS + 1)] == work[..Offset(lens, MAXBITS + 1)];
  }

  /** Where the next symbol of each length goes. */
  ghost predicate NextFree(lens: seq<nat>, sym: nat, offs: seq<nat>) {
    && sym <= |lens| && |offs| == MAXBITS + 1
    && forall l :: 1 <= l <= MAXBITS ==> offs[l] == Offset(lens, l) + Count(lens[..sym], l)
  }

  ghost predicate SortedUpTo(lens: seq<nat>, sym: nat, w: seq<nat>) {
    && sym <= |lens| && Offset(lens, MAXBITS + 1) <= |w|
    && forall s: nat :: s < sym && lens[s] != 0 ==> Place(lens, s) < |w| && w[Place(lens, s)] == s
  }

  lemma StartSorting(lens: seq<nat>, offs: seq<nat>, w: seq<nat>)
    requires |offs| == MAXBITS + 1 && Offset(lens, MAXBITS + 1) <= |w|
    requires forall l :: 1 <= l <= MAXBITS ==> offs[l] == Offset(lens, l)
    ensures NextFree(lens, 0, offs) && SortedUpTo(lens, 0, w)
  {
  }

  lemma Skip(lens: seq<nat>, sym: nat, offs: seq<nat>, w: seq<nat>)
    requires ValidLens(lens) && sym < |lens|
    requires NextFree(lens, sym, offs) && SortedUpTo(lens, sym, w)
    ensures lens[sym] == 0 ==> NextFree(lens, sym + 1, offs) && SortedUpTo(lens, sym + 1, w)
    ensures lens[sym] != 0 ==>
              && lens[sym] < |offs| && offs[lens[sym]] < |w|
              && NextFree(lens, sym + 1, offs[lens[sym] := offs[lens[sym]] + 1])
              && SortedUpTo(lens, sym + 1, w[offs[lens[sym]] := sym])
  {
    assert lens[..sym + 1][..sym] == lens[..sym];
    if lens[sym] != 0 {
      OwnPlace(lens, sym);
      assert offs[lens[sym]] == Place(lens, sym);
    }
  }

  lemma OwnPlace(lens: seq<nat>, sym: nat)
    requires ValidLens(lens) && sym < |lens| && lens[sym] != 0
    ensures Place(lens, sym) < Offset(lens, MAXBITS + 1)
    ensures forall s: nat :: s < sym && lens[s] != 0 ==> Place(lens, s) != Place(lens, sym)
  {
    PlaceBound(lens, sym);
    forall s: nat | s < sym && lens[s] != 0
      ensures Place(lens, s) != Place(lens, sym)
    {
      PlaceOrder(lens, s, sym);
    }
  }

  lemma AllSorted(lens: seq<nat>, w: seq<nat>)
    requires SortedUpTo(lens, |lens|, w)
    ensures Sorted(lens, w[..Offset(lens, MAXBITS + 1)])
  {
    var W := w[..Offset(lens, MAXBITS + 1)];
    forall p: nat | p < |W|
      ensures HasPlace(lens, W, p)
    {
      var s := PlaceTaken(lens, MAXBITS + 1, p);
    }
  }

  // ----- The two inner loops on a code -------------------------------------------------

  /** Adds one to the `len`-bit code `huff` at its most significant end. */
  method BackwardsIncrement(huff: nat, len: nat) returns (next: nat)
    requires 0 < len && huff < Pow2(len)
    ensures next == BackInc(len, huff)
  {
    var incr := Pow2(len - 1);
    ghost var k: nat := len;
    LowSmall(huff, len);
    while incr != 0 && huff / incr % 2 == 1
      invariant k <= len
      invariant incr == if k == 0 then 0 else Pow2(k - 1)
      invariant BackInc(len, huff) == BackInc(k, Low(huff, k))
    {
      CarryStep(huff, k);
      incr := incr / 2;
      k := k - 1;
    }
    if incr != 0 {
      CarryStep(huff, k);
      next := huff % incr;
      next := next + incr;
    } else {
      next := 0;
    }
  }

  /** A set top bit carries downwards; a clear one is set, and clears what is above it. */
  lemma CarryStep(x: nat, k: nat)
    requires 0 < k
    ensures x / Pow2(k - 1) % 2 == 1 ==> BackInc(k, Low(x, k)) == BackInc(k - 1, Low(x, k - 1))
    ensures x / Pow2(k - 1) % 2 == 0 ==> BackInc(k, Low(x, k)) == x % Pow2(k - 1) + Pow2(k - 1)
    ensures Pow2(k - 1) / 2 == if k == 1 then 0 else Pow2(k - 2)
  {
    TopOfLow(x, k);
    LowHigh(x, k - 1);
  }

  /** The low `k` bits are the low `k - 1` bits and one more. */
  lemma {:induction false} TopOfLow(x: nat, k: nat)
    requires 0 < k
    ensures Low(x, k) == Low(x, k - 1) + if High(x, k - 1) % 2 == 1 then Pow2(k - 1) else 0
  {
    if k > 1 {
      TopOfLow(x / 2, k - 1);
    } else {
      assert Low(x / 2, 0) == 0 && Pow2(0) == 1;
    }
  }

  /** Writes `here` at every index of a `curr`-bit table that extends the `k`-bit code
      `start`. */
  method Replicate(table: array<Entry>, next: nat, curr: nat, k: nat, start: nat, here: Entry)
    requires k <= curr && start < Pow2(k) && next + Pow2(curr) <= table.Length
    modifies table
    ensures Filled(old(table[..]), table[..], next, Pow2(curr), k, start, here)
  {
    var incr := Pow2(k);
    var fill := Pow2(curr);
    ghost var was := table[..];
    ghost var n := Pow2(curr - k);
    Pow2Add(curr - k, k);
    while fill != 0
      invariant fill == n * incr && fill <= Pow2(curr)
      invariant FilledFrom(was, table[..], next, fill, Pow2(curr), k, start, here)
      decreases n
    {
      StrideOnly(n, k, start);
      n := n - 1;
      fill := fill - incr;
      table[start + next + fill] := here;
    }
  }

  /** The loop has reached down to `fill`. */
  ghost predicate FilledFrom(T: seq<Entry>, T': seq<Entry>, base: nat, fill: nat, size: nat,
                             k: nat, h: nat, e: Entry) {
    && |T'| == |T|
    && forall i: nat :: i < |T| ==>
         T'[i] == if base + fill <= i < base + size && Low(i - base, k) == h then e else T[i]
  }

  /** Between two multiples of the stride, only one index extends the code. */
  lemma StrideOnly(n: nat, k: nat, start: nat)
    requires start < Pow2(k) && n > 0
    ensures (n - 1) * Pow2(k) == n * Pow2(k) - Pow2(k) >= 0
    ensures forall j: nat :: n * Pow2(k) - Pow2(k) <= j < n * Pow2(k) ==>
              (Low(j, k) == start <==> j == n * Pow2(k) - Pow2(k) + start)
  {
    MulMono(1, n, Pow2(k));
    var b := n * Pow2(k) - Pow2(k);
    forall j: nat | b <= j < b + Pow2(k)
      ensures Low(j, k) == j - b
    {
      DivModUnique(j, Pow2(k), n - 1, j - b);
      LowHigh(j, k);
    }
  }

  // ----- Sizing a sub-table ---------------------------------------------------------------

  /** What is left of the counts when `q` is the next symbol to enter. */
  ghost predicate Remaining(lens: seq<nat>, count: seq<nat>, q: nat) {
    && |count| == MAXBITS + 1 && q < |lens| && lens[q] <= MAXBITS
    && count[lens[q]] == Count(lens, lens[q]) - Rank(lens, q)
    && forall l :: lens[q] < l <= MAXBITS ==> count[l] == Count(lens, l)
  }

  /** The slots left at `curr` index bits under the prefix of `q`. */
  function Slots(lens: seq<nat>, root: nat, q: nat, curr: nat): int
    requires q < |lens| && root < lens[q]
  {
    (Prefix(lens, root, q) + 1) * Pow2(curr) -
      if curr + root == lens[q] then CodeOf(lens, q) else FirstCode(lens, curr + root)
  }

  lemma SlotsStart(lens: seq<nat>, root: nat, q: nat)
    requires q < |lens| && root < lens[q]
    requires CodeOf(lens, q) == Prefix(lens, root, q) * Pow2(lens[q] - root)
    ensures Slots(lens, root, q, lens[q] - root) == Pow2(lens[q] - root)
  {
  }

  lemma SlotsStep(lens: seq<nat>, root: nat, q: nat, curr: nat, count: seq<nat>)
    requires q < |lens| && root < lens[q] <= curr + root <= MAXBITS && Remaining(lens, count, q)
    ensures Slots(lens, root, q, curr) - count[curr + root]
         == (Prefix(lens, root, q) + 1) * Pow2(curr) - EndCode(lens, curr + root)
    ensures Slots(lens, root, q, curr + 1) == 2 * (Slots(lens, root, q, curr) - count[curr + root])
  {
    DoublePow(Prefix(lens, root, q) + 1, curr);
    var l := curr + root;
    assert FirstCode(lens, l + 1) == 2 * EndCode(lens, l);
  }

  /** The loop stops at exactly the depth the block needs. */
  lemma SizeRight(lens: seq<nat>, root: nat, q: nat, curr: nat, count: seq<nat>)
    requires ValidLens(lens) && q < |lens| && 0 < root < lens[q] <= curr + root <= MAXBITS
    requires Remaining(lens, count, q) && Slots(lens, root, q, curr) > 0
    requires CodeOf(lens, q) == Prefix(lens, root, q) * Pow2(lens[q] - root)
    requires curr + root == MaxUsed(lens, MAXBITS) || Slots(lens, root, q, curr) <= count[curr + root]
    ensures FitsBlock(lens, root, Prefix(lens, root, q), curr + root)
  {
    var b, l := Prefix(lens, root, q), curr + root;
    SlotsStep(lens, root, q, curr, count);
    forall s: nat | InBlock(lens, root, b, s)
      ensures lens[s] <= l
    {
      RankBelowCount(lens, s);
      if l < lens[s] {
        assert Count(lens, lens[s]) == 0 || l != MaxUsed(lens, MAXBITS);
        FullBlock(lens, root, b, l, s);
      }
    }
    if l == lens[q] {
      assert InBlock(lens, root, b, q);
    } else {
      RankBelowCount(lens, q);
      EndGrows(lens, lens[q], l);
      MulMono(CodeOf(lens, q), EndCode(lens, lens[q]), Pow2(l - lens[q]));
      MulAssoc(b, Pow2(lens[q] - root), Pow2(l - lens[q]));
      Pow2Add(lens[q] - root, l - lens[q]);
      BlockHas(lens, root, b, l, 0);
    }
  }

  /** How many index bits the sub-table that starts with symbol `q` needs. */
  method SizeSubTable(lens: seq<nat>, count: array<nat>, len: nat, root: nat, max: nat, ghost q: nat)
    returns (curr: nat)
    requires ValidLens(lens) && q < |lens| && lens[q] == len && 0 < root < len <= max
    requires max == MaxUsed(lens, MAXBITS) && Remaining(lens, count[..], q)
    requires CodeOf(lens, q) == Prefix(lens, root, q) * Pow2(len - root)
    ensures 0 < curr <= max - root
    ensures FitsBlock(lens, root, Prefix(lens, root, q), curr + root)
  {
    curr := len - root;
    var left: int := Pow2(curr);
    SlotsStart(lens, root, q);
    while curr + root < max
      invariant len <= curr + root <= max
      invariant left == Slots(lens, root, q, curr) > 0
      decreases max - curr
    {
      SlotsStep(lens, root, q, curr, count[..]);
      left := left - count[curr + root];
      if left <= 0 {
        break;
      }
      curr := curr + 1;
      left := left * 2;
    }
    SizeRight(lens, root, q, curr, count[..]);
  }

  // ----- The main loop -----------------------------------------------------------------------

  /** The bookkeeping when `q` is the next symbol to enter: while its code is short the
      root table is being filled; after that, a sub-table of exactly the depth its block
      needs, linked from the root and ending where the space used so far ends. */
  ghost predicate Current(T: seq<Entry>, lens: seq<nat>, root: nat, q: nat, f: Frontier, used: nat) {
    && q < |lens| && lens[q] > 0 && used <= |T|
    && if lens[q] <= root then f == Frontier(0, root, -1) && used == Pow2(root)
       else
         && f.low == Low(StreamCode(lens, q), root) && Pow2(root) <= f.next
         && f.curr > 0 && used == f.next + Pow2(f.curr)
         && T[f.low] == Entry(f.curr, root, f.next)
         && FitsBlock(lens, root, Prefix(lens, root, q), f.curr + root)
         && used == Pow2(root) + SubSizes(lens, root, Prefix(lens, root, q) + 1)
  }

  /** The first `n` symbols in order are placed. */
  ghost predicate Entered(T: seq<Entry>, E: seq<Entry>, lens: seq<nat>, root: nat, W: seq<nat>,
                          n: nat, f: Frontier)
    requires n <= |W|
  {
    forall p: nat :: p < n ==> Placed(T, E, lens, root, W[p], f) && Linked(T, lens, root, W[p])
  }

  lemma LinkKept(T: seq<Entry>, T': seq<Entry>, lens: seq<nat>, root: nat, s: nat)
    requires Linked(T, lens, root, s) && |T'| == |T|
    requires s < |lens| && root < lens[s] && Low(StreamCode(lens, s), root) < |T| ==>
               T'[Low(StreamCode(lens, s), root)] == T[Low(StreamCode(lens, s), root)]
    ensures Linked(T', lens, root, s)
  {
  }

  lemma LinkNew(T: seq<Entry>, lens: seq<nat>, root: nat, q: nat, f: Frontier, used: nat)
    requires Current(T, lens, root, q, f, used) && Pow2(root) <= |T|
    ensures Linked(T, lens, root, q)
  {
    hide Pow2, StreamCode, Prefix;
    if root < lens[q] {
      var b := Prefix(lens, root, q);
      FitsBlockIsLen(lens, root, b, f.curr + root);
      OneMoreBlock(lens, root, b, f.curr);
    }
  }

  lemma LinkOverFill(T: seq<Entry>, T': seq<Entry>, lens: seq<nat>, root: nat, s: nat, q: nat, f: Frontier, e: Entry)
    requires Linked(T, lens, root, s) && s < |lens| && q < |lens| && lens[s] <= lens[q]
    requires FillsFor(T, T', lens, root, q, f, e)
    ensures Linked(T', lens, root, s)
  {
    hide StreamCode, Prefix, SubSizes;
    LinkKept(T, T', lens, root, s);
  }

  lemma FitsWithin(lens: seq<nat>, root: nat, b: nat, l: nat, q: nat)
    requires ValidLens(lens) && FitsBlock(lens, root, b, l) && InBlock(lens, root, b, q)
    ensures lens[q] <= l <= MAXBITS
  {
  }

  /** Entering the next symbol. */
  lemma EnterNext(T: seq<Entry>, T': seq<Entry>, E: seq<Entry>, lens: seq<nat>, root: nat, W: seq<nat>,
                  n: nat, f: Frontier, used: nat, e: Entry)
    requires ValidLens(lens) && !OverSubscribed(lens) && Sorted(lens, W) && n < |W|
    requires |E| == |lens| && 0 < root <= MAXBITS && Pow2(root) <= |T|
    requires Entered(T, E, lens, root, W, n, f) && Current(T, lens, root, W[n], f, used)
    requires FillsFor(T, T', lens, root, W[n], f, e)
    requires e == E[W[n]].(bits := if lens[W[n]] <= root then lens[W[n]] else lens[W[n]] - root)
    ensures Entered(T', E, lens, root, W, n + 1, f) && Current(T', lens, root, W[n], f, used)
  {
    hide *;
    var q := W[n];
    SortedAt(lens, W, n);
    CurrentMeans(T, lens, root, q, f, used);
    PlaceNew(T, T', E, lens, root, q, f, e);
    FillsLength(T, T', lens, root, q, f, e);
    CurrentKept(T, T', lens, root, q, f, used);
    LinkNew(T', lens, root, q, f, used);
    forall p: nat | p < n
      ensures Placed(T', E, lens, root, W[p], f) && Linked(T', lens, root, W[p])
    {
      SortedAt(lens, W, p);
      PlaceOrder(lens, q, W[p]);
      EnteredAt(T, E, lens, root, W, n, f, p);
      KeepOverFill(T, T', E, lens, root, W[p], q, f, e);
      LinkOverFill(T, T', lens, root, W[p], q, f, e);
    }
    EnteredIs(T', E, lens, root, W, n + 1, f);
  }

  lemma SortedAt(lens: seq<nat>, W: seq<nat>, p: nat)
    requires Sorted(lens, W) && p < |W|
    ensures W[p] < |lens| && lens[W[p]] > 0 && Place(lens, W[p]) == p
  {
    hide Place, Offset;
    assert HasPlace(lens, W, p);
  }

  lemma CurrentMeans(T: seq<Entry>, lens: seq<nat>, root: nat, q: nat, f: Frontier, used: nat)
    requires ValidLens(lens) && Current(T, lens, root, q, f, used)
    ensures q < |lens| && lens[q] > 0
    ensures root < lens[q] ==>
              && f.low < |T| && T[f.low] == Entry(f.curr, root, f.next)
              && 0 < f.curr && lens[q] <= f.curr + root <= MAXBITS && f.next + Pow2(f.curr) <= |T|
  {
    hide Pow2, Low, StreamCode, Prefix, SubSizes;
    if root < lens[q] {
      FitsWithin(lens, root, Prefix(lens, root, q), f.curr + root, q);
    }
  }

  lemma CurrentKept(T: seq<Entry>, T': seq<Entry>, lens: seq<nat>, root: nat, q: nat, f: Frontier, used: nat)
    requires Current(T, lens, root, q, f, used) && |T'| == |T|
    requires root < lens[q] && f.low < |T| ==> T'[f.low] == T[f.low]
    ensures Current(T', lens, root, q, f, used)
  {
    hide Pow2, Low, StreamCode, Prefix, SubSizes, FitsBlock;
  }

  lemma FillsLength(T: seq<Entry>, T': seq<Entry>, lens: seq<nat>, root: nat, q: nat, f: Frontier, e: Entry)
    requires q < |lens| && FillsFor(T, T', lens, root, q, f, e)
    ensures |T'| == |T|
  {
    hide Pow2, Low, High, StreamCode;
  }

  lemma EnteredAt(T: seq<Entry>, E: seq<Entry>, lens: seq<nat>, root: nat, W: seq<nat>, n: nat, f: Frontier, p: nat)
    requires p < n <= |W| && Entered(T, E, lens, root, W, n, f)
    ensures Placed(T, E, lens, root, W[p], f) && Linked(T, lens, root, W[p])
  {
    hide Placed, Linked;
  }

  lemma EnteredIs(T: seq<Entry>, E: seq<Entry>, lens: seq<nat>, root: nat, W: seq<nat>, n: nat, f: Frontier)
    requires n <= |W|
    ensures Entered(T, E, lens, root, W, n, f) <==>
            forall p: nat :: p < n ==> Placed(T, E, lens, root, W[p], f) && Linked(T, lens, root, W[p])
  {
    hide Placed, Linked;
  }

  /** Going on to a symbol that needs no new sub-table. */
  lemma SameTable(T: seq<Entry>, lens: seq<nat>, root: nat, q: nat, r: nat, f: Frontier, used: nat)
    requires ValidLens(lens) && !OverSubscribed(lens) && 0 < root <= MAXBITS
    requires Current(T, lens, root, q, f, used) && r < |lens| && lens[r] > 0
    requires Place(lens, r) == Place(lens, q) + 1
    requires lens[r] <= root || Low(StreamCode(lens, r), root) == f.low
    ensures Current(T, lens, root, r, f, used)
  {
    PlaceOrder(lens, r, q);
    if root < lens[r] {
      LowIsPrefix(lens, root, q);
      LowIsPrefix(lens, root, r);
      RevInjective(root, Prefix(lens, root, q), Prefix(lens, root, r));
    }
  }

  /** Between two neighbours in the order no other block has codes. */
  lemma NothingBetween(lens: seq<nat>, root: nat, q: nat, r: nat, k: nat)
    requires ValidLens(lens) && 0 < root
    requires q < |lens| && r < |lens| && 0 < lens[q] && root < lens[r]
    requires Place(lens, r) == Place(lens, q) + 1
    requires k < Prefix(lens, root, r) && (root < lens[q] ==> Prefix(lens, root, q) < k)
    ensures SubSize(lens, root, k) == 0
  {
    forall s: nat | InBlock(lens, root, k, s)
      ensures false
    {
      if Place(lens, s) <= Place(lens, q) {
        PlaceOrder(lens, q, s);
        PrefixOrder(lens, root, s, q);
      } else {
        PrefixOrder(lens, root, r, s);
      }
    }
  }

  /** The space used up to a new block is the space of all blocks before it. */
  lemma SpaceBefore(lens: seq<nat>, root: nat, q: nat, r: nat)
    requires ValidLens(lens) && !OverSubscribed(lens) && 0 < root
    requires q < |lens| && r < |lens| && 0 < lens[q] && root < lens[r]
    requires Place(lens, r) == Place(lens, q) + 1
    requires root < lens[q] ==> Prefix(lens, root, q) != Prefix(lens, root, r)
    ensures root < lens[q] ==> Prefix(lens, root, q) < Prefix(lens, root, r)
    ensures SubSizes(lens, root, Prefix(lens, root, r))
         == if root < lens[q] then SubSizes(lens, root, Prefix(lens, root, q) + 1) else 0
  {
    var from := if root < lens[q] then Prefix(lens, root, q) + 1 else 0;
    if root < lens[q] {
      PrefixOrder(lens, root, q, r);
    }
    forall k | from <= k < Prefix(lens, root, r)
      ensures SubSize(lens, root, k) == 0
    {
      NothingBetween(lens, root, q, r, k);
    }
    SubSizesMono(lens, root, from, Prefix(lens, root, r));
  }

  /** Opening the sub-table of a new block keeps what was entered before ... */
  lemma OpenEntered(T: seq<Entry>, E: seq<Entry>, lens: seq<nat>, root: nat, W: seq<nat>, n: nat,
                    f: Frontier, g: Frontier, e: Entry)
    requires ValidLens(lens) && !OverSubscribed(lens) && Sorted(lens, W) && n + 1 < |W|
    requires |E| == |lens| && 0 < root <= MAXBITS && Pow2(root) <= |T|
    requires Entered(T, E, lens, root, W, n + 1, f)
    requires HasPlace(lens, W, n) && HasPlace(lens, W, n + 1) && root < lens[W[n + 1]]
    requires root < lens[W[n]] ==> Prefix(lens, root, W[n]) < Prefix(lens, root, W[n + 1])
    requires g.low == Low(StreamCode(lens, W[n + 1]), root) && 0 <= g.low < Pow2(root)
    requires g.next == f.next + Pow2(f.curr)
    ensures Entered(T[g.low := e], E, lens, root, W, n + 1, g)
  {
    var q, r := W[n], W[n + 1];
    forall p: nat | p < n + 1
      ensures Placed(T[g.low := e], E, lens, root, W[p], g) && Linked(T[g.low := e], lens, root, W[p])
    {
      assert HasPlace(lens, W, p);
      if root < lens[W[p]] {
        PlaceOrder(lens, q, W[p]);
        PrefixOrder(lens, root, W[p], q);
        LowIsPrefix(lens, root, W[p]);
        LowIsPrefix(lens, root, r);
        RevInjective(root, Prefix(lens, root, W[p]), Prefix(lens, root, r));
      }
      KeepOverLink(T, E, lens, root, W[p], r, f, g, e);
      LinkKept(T, T[g.low := e], lens, root, W[p]);
    }
  }

  /** ... and sets up the bookkeeping for it. */
  lemma OpenCurrent(T: seq<Entry>, lens: seq<nat>, root: nat, q: nat, r: nat,
                    f: Frontier, used: nat, g: Frontier)
    requires ValidLens(lens) && !OverSubscribed(lens) && 0 < root <= MAXBITS && Pow2(root) <= |T|
    requires Current(T, lens, root, q, f, used)
    requires r < |lens| && root < lens[r] && Place(lens, r) == Place(lens, q) + 1
    requires g.low == Low(StreamCode(lens, r), root) != f.low
    requires g.next == used && g.curr > 0
    requires FitsBlock(lens, root, Prefix(lens, root, r), g.curr + root)
    requires used + Pow2(g.curr) <= |T| && g.low < |T|
    ensures used == f.next + Pow2(f.curr)
    ensures root < lens[q] ==> Prefix(lens, root, q) < Prefix(lens, root, r)
    ensures Current(T[g.low := Entry(g.curr, root, g.next)], lens, root, r, g, used + Pow2(g.curr))
  {
    hide Pow2, Low, High, CodeOf, StreamCode, Prefix, Rank, Count, SubSizes, MaxUsed, FitsBlock, Current, Place;
    UsedBefore(T, lens, root, q, r, f, used);
    OneMoreBlock(lens, root, Prefix(lens, root, r), g.curr);
    NewCurrent(T[g.low := Entry(g.curr, root, g.next)], lens, root, r, g, used + Pow2(g.curr));
  }

  lemma OneMoreBlock(lens: seq<nat>, root: nat, b: nat, curr: nat)
    requires 0 < curr && FitsBlock(lens, root, b, curr + root)
    ensures SubSizes(lens, root, b + 1) == SubSizes(lens, root, b) + Pow2(curr)
  {
    FitsBlockIsLen(lens, root, b, curr + root);
  }

  lemma NewCurrent(T: seq<Entry>, lens: seq<nat>, root: nat, r: nat, g: Frontier, used: nat)
    requires r < |lens| && root < lens[r] && used <= |T|
    requires g.low == Low(StreamCode(lens, r), root) < |T| && Pow2(root) <= g.next
    requires T[g.low] == Entry(g.curr, root, g.next)
    requires g.curr > 0 && used == g.next + Pow2(g.curr)
    requires FitsBlock(lens, root, Prefix(lens, root, r), g.curr + root)
    requires used == Pow2(root) + SubSizes(lens, root, Prefix(lens, root, r) + 1)
    ensures Current(T, lens, root, r, g, used)
  {
  }

  lemma UsedBefore(T: seq<Entry>, lens: seq<nat>, root: nat, q: nat, r: nat, f: Frontier, used: nat)
    requires ValidLens(lens) && !OverSubscribed(lens) && 0 < root <= MAXBITS
    requires Current(T, lens, root, q, f, used)
    requires r < |lens| && root < lens[r] && Place(lens, r) == Place(lens, q) + 1
    requires Low(StreamCode(lens, r), root) != f.low
    ensures used == f.next + Pow2(f.curr) && Pow2(root) <= used
    ensures root < lens[q] ==> Prefix(lens, root, q) < Prefix(lens, root, r)
    ensures used == Pow2(root) + SubSizes(lens, root, Prefix(lens, root, r))
  {
    BlockDiffers(lens, root, q, r, f.low);
    SpaceBefore(lens, root, q, r);
  }

  lemma BlockDiffers(lens: seq<nat>, root: nat, q: nat, r: nat, low: int)
    requires ValidLens(lens) && !OverSubscribed(lens) && 0 < root
    requires q < |lens| && r < |lens| && 0 < lens[q] && root < lens[r]
    requires root < lens[q] ==> low == Low(StreamCode(lens, q), root)
    requires Low(StreamCode(lens, r), root) != low
    ensures root < lens[q] ==> Prefix(lens, root, q) != Prefix(lens, root, r)
    ensures Low(StreamCode(lens, r), root) < Pow2(root)
  {
    LowIsPrefix(lens, root, r);
    if root < lens[q] {
      LowIsPrefix(lens, root, q);
    }
  }

  /** Which symbol is last. */
  lemma LastPlace(lens: seq<nat>, W: seq<nat>, n: nat)
    requires ValidLens(lens) && Sorted(lens, W) && n < |W|
    ensures HasPlace(lens, W, n) && lens[W[n]] <= MaxUsed(lens, MAXBITS)
    ensures n + 1 == |W| <==>
              lens[W[n]] == MaxUsed(lens, MAXBITS) && Rank(lens, W[n]) + 1 == Count(lens, lens[W[n]])
  {
    assert HasPlace(lens, W, n);
    var q, max := W[n], MaxUsed(lens, MAXBITS);
    RankBelowCount(lens, q);
    if lens[q] < max {
      OffsetMono(lens, lens[q], max);
      OffsetMono(lens, max, MAXBITS + 1);
    } else {
      NoneAbove(lens, max, MAXBITS + 1);
    }
  }

  lemma {:induction false} NoneAbove(lens: seq<nat>, l: nat, m: nat)
    requires 0 < l < m && forall k :: l < k < m ==> Count(lens, k) == 0
    ensures Offset(lens, m) == Offset(lens, l) + Count(lens, l)
  {
    if l + 1 < m {
      NoneAbove(lens, l, m - 1);
    }
  }

  lemma NothingAfter(lens: seq<nat>, root: nat, q: nat, k: nat)
    requires ValidLens(lens) && 0 < root && q < |lens| && lens[q] > 0
    requires Place(lens, q) + 1 == Offset(lens, MAXBITS + 1)
    requires root < lens[q] ==> Prefix(lens, root, q) < k
    ensures SubSize(lens, root, k) == 0
  {
    forall s: nat | InBlock(lens, root, k, s)
      ensures false
    {
      PlaceBound(lens, s);
      PlaceOrder(lens, q, s);
      PrefixOrder(lens, root, s, q);
    }
  }

  /** All the space is accounted for once the last symbol is entered. */
  lemma SpaceInAll(T: seq<Entry>, lens: seq<nat>, root: nat, W: seq<nat>, n: nat, f: Frontier, used: nat)
    requires ValidLens(lens) && !OverSubscribed(lens) && Sorted(lens, W) && n + 1 == |W| && 0 < root
    requires Current(T, lens, root, W[n], f, used)
    ensures used == TableSize(lens, root)
  {
    assert HasPlace(lens, W, n);
    SpaceAfter(lens, root, W[n]);
  }

  lemma SpaceAfter(lens: seq<nat>, root: nat, q: nat)
    requires ValidLens(lens) && !OverSubscribed(lens) && 0 < root && q < |lens| && lens[q] > 0
    requires Place(lens, q) + 1 == Offset(lens, MAXBITS + 1)
    ensures SubSizes(lens, root, Pow2(root))
         == if root < lens[q] then SubSizes(lens, root, Prefix(lens, root, q) + 1) else 0
  {
    var from := if root < lens[q] then Prefix(lens, root, q) + 1 else 0;
    if root < lens[q] {
      LowIsPrefix(lens, root, q);
    }
    forall k | from <= k < Pow2(root)
      ensures SubSize(lens, root, k) == 0
    {
      NothingAfter(lens, root, q, k);
    }
    SubSizesMono(lens, root, from, Pow2(root));
  }

  lemma {:induction false} NothingBelow(lens: seq<nat>, l: nat)
    requires Offset(lens, l) == 0
    ensures FirstCode(lens, l) == 0
    ensures forall k :: 1 <= k < l ==> Count(lens, k) == 0
  {
    if l > 1 {
      NothingBelow(lens, l - 1);
    }
  }

  lemma {:induction false} RevZero(n: nat)
    ensures Rev(n, 0) == 0
  {
    if n > 0 {
      RevZero(n - 1);
    }
  }

  /** The order starts with the shortest length and the code of all zeros. */
  lemma FirstPlace(lens: seq<nat>, W: seq<nat>, max: nat)
    requires ValidLens(lens) && Sorted(lens, W) && 0 < |W| && max == MaxUsed(lens, MAXBITS) && 0 < max
    ensures HasPlace(lens, W, 0) && lens[W[0]] == MinUsed(lens, 1, max)
    ensures Rank(lens, W[0]) == 0 && StreamCode(lens, W[0]) == 0
  {
    assert HasPlace(lens, W, 0);
    LastPlace(lens, W, 0);
    var q := W[0];
    NothingBelow(lens, lens[q]);
    RevZero(lens[q]);
    RankBelowCount(lens, q);
  }

  /** The counts follow the order. */
  lemma CountDown(lens: seq<nat>, count: seq<nat>, q: nat, r: nat)
    requires ValidLens(lens) && q < |lens| && r < |lens| && 0 < lens[q] && 0 < lens[r]
    requires Remaining(lens, count, q) && Place(lens, r) == Place(lens, q) + 1
    ensures count[lens[q]] > 0
    ensures count[lens[q]] == 1 ==> lens[q] < lens[r]
    ensures count[lens[q]] != 1 ==> lens[q] == lens[r]
    ensures Remaining(lens, count[lens[q] := count[lens[q]] - 1], r)
  {
    NextPlace(lens, q, r);
    RankBelowCount(lens, q);
  }

  lemma SpaceBound(lens: seq<nat>, root: nat, r: nat, used: nat)
    requires ValidLens(lens) && !OverSubscribed(lens) && 0 < root && r < |lens| && root < lens[r]
    requires used == Pow2(root) + SubSizes(lens, root, Prefix(lens, root, r) + 1)
    ensures used <= TableSize(lens, root)
  {
    LowIsPrefix(lens, root, r);
    SubSizesMono(lens, root, Prefix(lens, root, r) + 1, Pow2(root));
  }

  /** What stays fixed while the codes are entered. */
  ghost predicate Setting(kind: CodeType, lens: seq<nat>, root: nat, max: nat, W: seq<nat>) {
    && ValidLens(lens) && !OverSubscribed(lens) && |lens| <= SymbolLimit(kind)
    && Sorted(lens, W)
    && 0 < root <= max == MaxUsed(lens, MAXBITS)
  }

  /** Where the loop stands in the order. */
  ghost predicate AtSymbol(lens: seq<nat>, W: seq<nat>, count: seq<nat>, sym: nat, len: nat, huff: nat) {
    && sym < |W| && HasPlace(lens, W, sym)
    && len == lens[W[sym]] && huff == StreamCode(lens, W[sym])
    && Remaining(lens, count, W[sym])
  }

  /** The first `n` symbols are entered, and the bookkeeping is that of symbol `at`. */
  ghost predicate Filling(T: seq<Entry>, kind: CodeType, lens: seq<nat>, root: nat, W: seq<nat>,
                          n: nat, at: nat, f: Frontier, used: nat)
  {
    && |lens| <= SymbolLimit(kind) && n <= |W| && at < |W| && Pow2(root) <= |T|
    && SpaceFor(kind, lens, root) <= |T|
    && Entered(T, Leaves(kind, |lens|), lens, root, W, n, f)
    && Current(T, lens, root, W[at], f, used)
    && !TooBig(kind, used) && used <= TableSize(lens, root)
  }

  /** Makes the table entries of one symbol. */
  method EnterSymbol(kind: CodeType, lens: seq<nat>, table: array<Entry>, root: nat, symbol: nat,
                     len: nat, drop: nat, huff: nat, next: nat, curr: nat,
                     ghost max: nat, ghost W: seq<nat>, ghost sym: nat, ghost f: Frontier, ghost used: nat)
    requires Setting(kind, lens, root, max, W) && sym < |W| && HasPlace(lens, W, sym)
    requires symbol == W[sym] && len == lens[symbol] && huff == StreamCode(lens, symbol)
    requires drop == if len <= root then 0 else root
    requires next == f.next && curr == f.curr
    requires Filling(table[..], kind, lens, root, W, sym, sym, f, used)
    modifies table
    ensures Filling(table[..], kind, lens, root, W, sym + 1, sym, f, used)
    ensures forall i :: used <= i < table.Length ==> table[i] == old(table[i])
  {
    hide *;
    FillingFits(table[..], kind, lens, root, max, W, sym, f, used, drop);
    Replicate(table, next, curr, len - drop, High(huff, drop), Leaf(kind, symbol, len - drop));
    FillingNext(old(table[..]), table[..], kind, lens, root, max, W, sym, f, used, drop);
    KeptBeyond(old(table[..]), table[..], f.next, Pow2(f.curr), len - drop, High(huff, drop),
               Leaf(kind, symbol, len - drop), used);
  }

  lemma KeptBeyond(T: seq<Entry>, T': seq<Entry>, base: nat, size: nat, k: nat, h: nat, e: Entry, used: nat)
    requires Filled(T, T', base, size, k, h, e) && base + size <= used
    ensures |T'| == |T| && forall i :: used <= i < |T| ==> T'[i] == T[i]
  {
  }

  lemma FillingFits(T: seq<Entry>, kind: CodeType, lens: seq<nat>, root: nat, max: nat, W: seq<nat>,
                    sym: nat, f: Frontier, used: nat, drop: nat)
    requires Setting(kind, lens, root, max, W) && sym < |W| && HasPlace(lens, W, sym)
    requires drop == if lens[W[sym]] <= root then 0 else root
    requires Filling(T, kind, lens, root, W, sym, sym, f, used)
    ensures W[sym] < SymbolLimit(kind) && f.next + Pow2(f.curr) == used <= |T|
    ensures drop < lens[W[sym]] <= drop + f.curr
    ensures High(StreamCode(lens, W[sym]), drop) < Pow2(lens[W[sym]] - drop)
  {
    hide Pow2, Low, High, CodeOf, StreamCode, Rev, Place, Current, Entered, Sorted, TableSize, SubSizes;
    WritesFit(T, lens, root, W[sym], f, used);
  }

  lemma FillingNext(T: seq<Entry>, T': seq<Entry>, kind: CodeType, lens: seq<nat>, root: nat, max: nat,
                    W: seq<nat>, sym: nat, f: Frontier, used: nat, drop: nat)
    requires Setting(kind, lens, root, max, W) && sym < |W| && HasPlace(lens, W, sym)
    requires drop == if lens[W[sym]] <= root then 0 else root
    requires Filling(T, kind, lens, root, W, sym, sym, f, used)
    requires Filled(T, T', f.next, Pow2(f.curr), lens[W[sym]] - drop, High(StreamCode(lens, W[sym]), drop),
                    Leaf(kind, W[sym], lens[W[sym]] - drop))
    ensures Filling(T', kind, lens, root, W, sym + 1, sym, f, used)
  {
    hide Pow2, Low, High, Rev, Count, FirstCode, Place, Rank, MaxUsed, Complete, Kraft, SubSizes, TableSize, Leaf,
         Leaves, StreamCode, ValidLens;
    LeafOf(kind, |lens|, W[sym], lens[W[sym]] - drop);
    AsFillsFor(T, T', lens, root, W[sym], f, used, drop, Leaf(kind, W[sym], lens[W[sym]] - drop));
    EnterNext(T, T', Leaves(kind, |lens|), lens, root, W, sym, f, used,
              Leaf(kind, W[sym], lens[W[sym]] - drop));
  }

  /** The writes for `q` stay inside the space used so far. */
  lemma WritesFit(T: seq<Entry>, lens: seq<nat>, root: nat, q: nat, f: Frontier, used: nat)
    requires ValidLens(lens) && !OverSubscribed(lens) && Current(T, lens, root, q, f, used)
    requires 0 < root <= MAXBITS
    ensures f.next + Pow2(f.curr) == used <= |T|
    ensures lens[q] <= root ==> lens[q] <= f.curr && High(StreamCode(lens, q), 0) < Pow2(lens[q])
    ensures root < lens[q] ==> lens[q] - root <= f.curr && High(StreamCode(lens, q), root) < Pow2(lens[q] - root)
  {
    hide Pow2, Low, CodeOf, Rev, FitsBlock, SubSizes, SubSize, OverSubscribed, Kraft;
    if root < lens[q] {
      FitsWithin(lens, root, Prefix(lens, root, q), f.curr + root, q);
      LowLow(StreamCode(lens, q), root, lens[q]);
      LowSmall(StreamCode(lens, q), lens[q]);
    }
  }

  /** Opens the sub-table for the block of the next symbol, unless space runs out. */
  method OpenSubTable(kind: CodeType, lens: seq<nat>, table: array<Entry>, count: array<nat>, root: nat,
                      len: nat, max: nat, huff: nat, next: nat, ghost spent: nat,
                      ghost W: seq<nat>, ghost sym: nat, ghost f: Frontier)
    returns (ret: int, curr: nat, used: nat, ghost g: Frontier)
    requires Setting(kind, lens, root, max, W) && AtSymbol(lens, W, count[..], sym + 1, len, huff)
    requires sym < |W| && HasPlace(lens, W, sym) && root < len <= max && Low(huff, root) != f.low
    requires Filling(table[..], kind, lens, root, W, sym + 1, sym, f, spent) && next == spent
    modifies table
    ensures TooBig(kind, used) <==> ret == 1
    ensures ret == 1 ==> TooBig(kind, TableSize(lens, root))
    ensures ret != 1 ==>
              && ret == 0 && g == Frontier(next, curr, Low(huff, root)) && spent <= used
              && Filling(table[..], kind, lens, root, W, sym + 1, sym + 1, g, used)
              && forall i :: used <= i < table.Length ==> table[i] == old(table[i])
  {
    hide *;
    BlockOpens(table[..], count[..], kind, lens, root, max, W, sym, len, huff, f, spent);
    curr := SizeSubTable(lens, count, len, root, max, W[sym + 1]);
    used := next + Pow2(curr);
    g := Frontier(next, curr, Low(huff, root));
    BlockSpace(table[..], count[..], kind, lens, root, max, W, sym, len, huff, f, spent, curr);
    if TooBig(kind, used) {
      ret := 1;
      return;
    }
    ret := 0;
    table[Low(huff, root)] := Entry(curr, root, next);
    ghost var T := old(table[..]);
    assert table[..] == T[g.low := Entry(g.curr, root, g.next)];
    BlockOpened(T, count[..], kind, lens, root, max, W, sym, len, huff, f, spent, g);
  }

  lemma AsFillsFor(T: seq<Entry>, T': seq<Entry>, lens: seq<nat>, root: nat, q: nat, f: Frontier,
                   used: nat, drop: nat, e: Entry)
    requires Current(T, lens, root, q, f, used)
    requires drop == if lens[q] <= root then 0 else root
    requires Filled(T, T', f.next, Pow2(f.curr), lens[q] - drop, High(StreamCode(lens, q), drop), e)
    ensures FillsFor(T, T', lens, root, q, f, e)
  {
  }

  /** The next symbol starts a block. */
  lemma BlockOpens(T: seq<Entry>, count: seq<nat>, kind: CodeType, lens: seq<nat>, root: nat, max: nat,
                   W: seq<nat>, sym: nat, len: nat, huff: nat, f: Frontier, spent: nat)
    requires Setting(kind, lens, root, max, W) && AtSymbol(lens, W, count, sym + 1, len, huff)
    requires sym < |W| && HasPlace(lens, W, sym) && root < len <= max && Low(huff, root) != f.low
    requires Filling(T, kind, lens, root, W, sym + 1, sym, f, spent)
    ensures ValidLens(lens) && 0 < root && max == MaxUsed(lens, MAXBITS)
    ensures sym + 1 < |W| && W[sym + 1] < |lens| && lens[W[sym + 1]] == len
    ensures Remaining(lens, count, W[sym + 1])
    ensures CodeOf(lens, W[sym + 1]) == Prefix(lens, root, W[sym + 1]) * Pow2(len - root)
  {
    hide Pow2, Low, High, CodeOf, StreamCode, Prefix, Place, Rank, Count, SubSizes, MaxUsed,
      Entered, FitsBlock, Sorted, Leaves, TableSize, Remaining, Current;
    UsedBefore(T, lens, root, W[sym], W[sym + 1], f, spent);
    BlockStart(lens, root, W[sym], W[sym + 1]);
  }

  lemma BlockSpace(T: seq<Entry>, count: seq<nat>, kind: CodeType, lens: seq<nat>, root: nat, max: nat,
                   W: seq<nat>, sym: nat, len: nat, huff: nat, f: Frontier, spent: nat, curr: nat)
    requires Setting(kind, lens, root, max, W) && AtSymbol(lens, W, count, sym + 1, len, huff)
    requires sym < |W| && HasPlace(lens, W, sym) && root < len <= max && Low(huff, root) != f.low
    requires Filling(T, kind, lens, root, W, sym + 1, sym, f, spent)
    requires 0 < curr && FitsBlock(lens, root, Prefix(lens, root, W[sym + 1]), curr + root)
    ensures spent == f.next + Pow2(f.curr) && spent + Pow2(curr) <= TableSize(lens, root)
    ensures TooBig(kind, spent + Pow2(curr)) ==> TooBig(kind, TableSize(lens, root))
    ensures !TooBig(kind, spent + Pow2(curr)) ==> spent + Pow2(curr) <= |T|
    ensures Low(huff, root) < Pow2(root) <= spent
    ensures Pow2(root) <= |T|
  {
    hide Pow2, Low, High, CodeOf, StreamCode, Prefix, Place, Rank, Count, SubSizes, MaxUsed,
      Entered, FitsBlock, Sorted, Leaves, TableSize;
    var r := W[sym + 1];
    LowIsPrefix(lens, root, r);
    UsedBefore(T, lens, root, W[sym], r, f, spent);
    OneMoreBlock(lens, root, Prefix(lens, root, r), curr);
    SpaceBound(lens, root, r, spent + Pow2(curr));
  }

  lemma BlockOpened(T: seq<Entry>, count: seq<nat>, kind: CodeType, lens: seq<nat>, root: nat, max: nat,
                    W: seq<nat>, sym: nat, len: nat, huff: nat, f: Frontier, spent: nat, g: Frontier)
    requires Setting(kind, lens, root, max, W) && AtSymbol(lens, W, count, sym + 1, len, huff)
    requires sym < |W| && HasPlace(lens, W, sym) && root < len <= max
    requires Filling(T, kind, lens, root, W, sym + 1, sym, f, spent)
    requires g.low == Low(huff, root) != f.low && g.low < |T| && g.next == spent
    requires 0 < g.curr && FitsBlock(lens, root, Prefix(lens, root, W[sym + 1]), g.curr + root)
    requires !TooBig(kind, spent + Pow2(g.curr)) && spent + Pow2(g.curr) <= TableSize(lens, root)
    requires spent + Pow2(g.curr) <= |T|
    ensures Filling(T[g.low := Entry(g.curr, root, g.next)], kind, lens, root, W, sym + 1, sym + 1, g,
                    spent + Pow2(g.curr))
  {
    hide Pow2, Low, High, CodeOf, StreamCode, Prefix, Rank, Count, SubSizes, MaxUsed,
      Entered, FitsBlock, Sorted, Leaves, TableSize, Remaining, Current;
    LowIsPrefix(lens, root, W[sym + 1]);
    OpenCurrent(T, lens, root, W[sym], W[sym + 1], f, spent, g);
    OpenEntered(T, Leaves(kind, |lens|), lens, root, W, sym, f, g, Entry(g.curr, root, g.next));
  }

  /** Creates a new sub-table if the next symbol needs one. */
  method NextTable(kind: CodeType, lens: seq<nat>, table: array<Entry>, count: array<nat>, root: nat,
                   len: nat, max: nat, huff: nat, drop: nat, next: nat, curr: nat, low: int, used: nat,
                   ghost W: seq<nat>, ghost sym: nat)
    returns (ret: int, drop': nat, next': nat, curr': nat, low': int, used': nat)
    requires Setting(kind, lens, root, max, W) && AtSymbol(lens, W, count[..], sym + 1, len, huff)
    requires HasPlace(lens, W, sym) && lens[W[sym]] <= len <= max
    requires Filling(table[..], kind, lens, root, W, sym + 1, sym, Frontier(next, curr, low), used)
    requires drop == if lens[W[sym]] <= root then 0 else root
    modifies table
    ensures ret == 0 || ret == 1
    ensures ret == 1 ==> TooBig(kind, TableSize(lens, root))
    ensures ret == 0 ==>
              && used <= used' && (drop' == if len <= root then 0 else root)
              && Filling(table[..], kind, lens, root, W, sym + 1, sym + 1, Frontier(next', curr', low'), used')
              && forall i :: used' <= i < table.Length ==> table[i] == old(table[i])
  {
    ret, drop', next', curr', low', used' := 0, drop, next, curr, low, used;
    ghost var f := Frontier(next, curr, low);
    if len > root && Low(huff, root) != low {
      if drop == 0 {
        drop' := root;
      }
      WritesFit(table[..], lens, root, W[sym], f, used);
      next' := next + Pow2(curr);
      ghost var g;
      ret, curr', used', g := OpenSubTable(kind, lens, table, count, root, len, max, huff, next', used, W, sym, f);
      low' := Low(huff, root);
    } else {
      LowFollows(table[..], lens, root, W[sym], f, used);
      SameTable(table[..], lens, root, W[sym], W[sym + 1], f, used);
    }
  }

  lemma LowFollows(T: seq<Entry>, lens: seq<nat>, root: nat, q: nat, f: Frontier, used: nat)
    requires Current(T, lens, root, q, f, used)
    ensures f.low < 0 <==> lens[q] <= root
  {
  }

  ghost function SpaceFor(kind: CodeType, lens: seq<nat>, root: nat): nat {
    match kind
    case LENS => ENOUGH_LENS
    case DISTS => ENOUGH_DISTS
    case CODES => TableSize(lens, root)
  }

  /** Enters all symbols in order.  Returns the backwards code after the last one. */
  method EnterCodes(kind: CodeType, lens: seq<nat>, table: array<Entry>, root: nat, min: nat, max: nat,
                    count: array<nat>, work: array<nat>, ghost W: seq<nat>)
    returns (ret: int, used: nat, huff: nat, next: nat, drop: nat, ghost f: Frontier)
    requires Setting(kind, lens, root, max, W) && 0 < |W| <= work.Length && work[..|W|] == W
    requires min == MinUsed(lens, 1, max) <= root && count.Length == MAXBITS + 1
    requires forall l :: 0 <= l <= MAXBITS ==> count[l] == Count(lens, l)
    requires table.Length >= SpaceFor(kind, lens, root)
    requires count != work
    modifies table, count
    ensures ret == if TooBig(kind, TableSize(lens, root)) then 1 else 0
    ensures ret == 0 ==>
              && used == TableSize(lens, root) <= table.Length
              && next == f.next && drop == (if max <= root then 0 else root)
              && Filling(table[..], kind, lens, root, W, |W|, |W| - 1, f, used)
              && HasPlace(lens, W, |W| - 1) && W[|W| - 1] < |lens| && lens[W[|W| - 1]] == max
              && huff == BackInc(max, StreamCode(lens, W[|W| - 1]))
              && forall i :: used <= i < table.Length ==> table[i] == old(table[i])
  {
    hide *;
    StartFilling(table[..], count[..], kind, lens, root, min, max, W);
    huff := 0;
    var sym: nat, len: nat := 0, min;
    next, drop := 0, 0;
    var curr: nat, low: int := root, -1;
    used := Pow2(root);
    f := Frontier(next, curr, low);
    if TooBig(kind, used) {
      ret := 1;
      return;
    }
    while true
      invariant AtSymbol(lens, W, count[..], sym, len, huff)
      invariant Filling(table[..], kind, lens, root, W, sym, sym, Frontier(next, curr, low), used)
      invariant drop == if len <= root then 0 else root
      invariant forall i :: used <= i < table.Length ==> table[i] == old(table[i])
      invariant work[..|W|] == W
      decreases |W| - sym
    {
      SymbolFacts(lens, W, count[..], sym, len, huff);
      EnterSymbol(kind, lens, table, root, work[sym], len, drop, huff, next, curr,
                  max, W, sym, Frontier(next, curr, low), used);
      var done;
      huff, len, done := NextSymbol(lens, count, work, sym, len, huff, max, W, kind, root);
      if done {
        break;
      }
      ret, drop, next, curr, low, used :=
        NextTable(kind, lens, table, count, root, len, max, huff, drop, next, curr, low, used, W, sym);
      if ret == 1 {
        return;
      }
      sym := sym + 1;
    }
    ret := 0;
    f := Frontier(next, curr, low);
    FillingEnds(table[..], kind, lens, root, max, W, sym, f, used);
  }

  lemma SymbolFacts(lens: seq<nat>, W: seq<nat>, count: seq<nat>, sym: nat, len: nat, huff: nat)
    requires AtSymbol(lens, W, count, sym, len, huff)
    ensures sym < |W| && HasPlace(lens, W, sym) && W[sym] < |lens|
    ensures len == lens[W[sym]] && huff == StreamCode(lens, W[sym])
  {
  }

  lemma StartFilling(T: seq<Entry>, count: seq<nat>, kind: CodeType, lens: seq<nat>, root: nat, min: nat,
                     max: nat, W: seq<nat>)
    requires Setting(kind, lens, root, max, W) && 0 < |W| && min == MinUsed(lens, 1, max) <= root
    requires |count| == MAXBITS + 1 && forall l :: 0 <= l <= MAXBITS ==> count[l] == Count(lens, l)
    requires SpaceFor(kind, lens, root) <= |T|
    ensures AtSymbol(lens, W, count, 0, min, 0) && min <= root
    ensures TooBig(kind, Pow2(root)) ==> TooBig(kind, TableSize(lens, root))
    ensures !TooBig(kind, Pow2(root)) ==>
              Filling(T, kind, lens, root, W, 0, 0, Frontier(0, root, -1), Pow2(root))
  {
    hide Place, Sorted, SubSize, Rev, Low, High, Count, Rank, MaxUsed, MinUsed, CodeOf, Leaves, Leaf, OverSubscribed;
    FirstPlace(lens, W, max);
    hide Count, Rank, Place, MaxUsed, MinUsed, Rev, Low, High, CodeOf, StreamCode, Sorted, FitsBlock, Leaves, Leaf;
    SubSizesMono(lens, root, 0, Pow2(root));
  }

  lemma FillingEnds(T: seq<Entry>, kind: CodeType, lens: seq<nat>, root: nat, max: nat, W: seq<nat>,
                    sym: nat, f: Frontier, used: nat)
    requires Setting(kind, lens, root, max, W) && sym + 1 == |W|
    requires Filling(T, kind, lens, root, W, sym + 1, sym, f, used)
    ensures used == TableSize(lens, root) <= |T| && !TooBig(kind, used)
  {
    SpaceInAll(T, lens, root, W, sym, f, used);
  }

  /** Steps to the next symbol, updating the code, the counts and the length. */
  method NextSymbol(lens: seq<nat>, count: array<nat>, work: array<nat>, sym: nat, len: nat, huff: nat,
                    max: nat, ghost W: seq<nat>, ghost kind: CodeType, ghost root: nat)
    returns (huff': nat, len': nat, done: bool)
    requires Setting(kind, lens, root, max, W)
    requires count != work && |W| <= work.Length && work[..|W|] == W
    requires AtSymbol(lens, W, count[..], sym, len, huff)
    modifies count
    ensures huff' == BackInc(lens[W[sym]], StreamCode(lens, W[sym]))
    ensures done <==> sym + 1 == |W|
    ensures done ==> lens[W[sym]] == max
    ensures !done ==> len <= len' <= max && AtSymbol(lens, W, count[..], sym + 1, len', huff')
  {
    StepSymbol(lens, W, count[..], sym, len, huff, max);
    huff' := BackwardsIncrement(huff, len);
    done := false;
    len' := len;
    count[len] := count[len] - 1;
    if count[len] == 0 {
      if len == max {
        done := true;
        return;
      }
      len' := lens[work[sym + 1]];
    }
  }

  /** Moving to the next symbol: the last one is known by its counts. */
  lemma StepSymbol(lens: seq<nat>, W: seq<nat>, count: seq<nat>, sym: nat, len: nat, huff: nat, max: nat)
    requires ValidLens(lens) && !OverSubscribed(lens) && Sorted(lens, W)
    requires max == MaxUsed(lens, MAXBITS) && AtSymbol(lens, W, count, sym, len, huff)
    ensures 0 < len <= MAXBITS && count[len] > 0
    ensures sym + 1 == |W| <==> len == max && count[len] == 1
    ensures sym + 1 < |W| ==>
              && HasPlace(lens, W, sym + 1)
              && len <= lens[W[sym + 1]] <= max
              && (count[len] != 1 ==> len == lens[W[sym + 1]])
              && AtSymbol(lens, W, count[len := count[len] - 1], sym + 1, lens[W[sym + 1]], BackInc(len, huff))
  {
    LastPlace(lens, W, sym);
    RankBelowCount(lens, W[sym]);
    if sym + 1 < |W| {
      LastPlace(lens, W, sym + 1);
      CountDown(lens, count, W[sym], W[sym + 1]);
      NextStreamCode(lens, W[sym], W[sym + 1]);
      PlaceOrder(lens, W[sym + 1], W[sym]);
    }
  }

  // ----- Once all codes are entered -------------------------------------------------------------

  /** Lengths beyond the longest only double the space. */
  lemma {:induction false} EndBeyond(lens: seq<nat>, l: nat, m: nat)
    requires 0 < l <= m && forall k :: l < k <= m ==> Count(lens, k) == 0
    ensures EndCode(lens, m) == EndCode(lens, l) * Pow2(m - l)
  {
    if l < m {
      EndBeyond(lens, l, m - 1);
      DoublePow(EndCode(lens, l), m - 1 - l);
    } else {
      assert Pow2(0) == 1;
    }
  }

  lemma CompleteAtMax(lens: seq<nat>, max: nat)
    requires 0 < max == MaxUsed(lens, MAXBITS)
    ensures Complete(lens) <==> EndCode(lens, max) == Pow2(max)
  {
    EndBeyond(lens, max, MAXBITS);
    hide Pow2, EndCode, Count, FirstCode;
    KraftIsEnd(lens, MAXBITS);
    Pow2Add(max, MAXBITS - max);
    MulLess(EndCode(lens, max), Pow2(max), Pow2(MAXBITS - max));
    MulLess(Pow2(max), EndCode(lens, max), Pow2(MAXBITS - max));
  }

  /** The backwards code after the last symbol is zero exactly for a complete code. */
  lemma AfterLast(lens: seq<nat>, W: seq<nat>, max: nat)
    requires ValidLens(lens) && !OverSubscribed(lens) && Sorted(lens, W) && 0 < |W|
    requires max == MaxUsed(lens, MAXBITS) && W[|W| - 1] < |lens| && lens[W[|W| - 1]] == max && max > 0
    ensures BackInc(max, StreamCode(lens, W[|W| - 1])) == 0 <==> Complete(lens)
  {
    hide Pow2, Rev, BackInc, Kraft;
    var q := W[|W| - 1];
    LastPlace(lens, W, |W| - 1);
    CodeBounds(lens, q);
    CompleteAtMax(lens, max);
    var c := CodeOf(lens, q);
    assert c + 1 == EndCode(lens, max);
    hide Sorted, HasPlace, MaxUsed, EndCode, Rank, Count, CodeOf, Complete;
    BackIncIsRev(max, c);
    if c + 1 < Pow2(max) {
      RevZero(max);
      RevInjective(max, c + 1, 0);
    }
  }

  /** What is entered decodes just as well without the unused rest of the array. */
  lemma Truncated(T: seq<Entry>, E: seq<Entry>, lens: seq<nat>, root: nat, s: nat, f: Frontier, used: nat)
    requires Placed(T, E, lens, root, s, f) && s < |lens| && used <= |T|
    requires Pow2(root) <= used && (root < lens[s] ==> f.next + Pow2(f.curr) == used)
    ensures Placed(T[..used], E, lens, root, s, f)
  {
    hide CodeOf, Rev, StreamCode, Pow2, Low, High;
    var l, h := lens[s], StreamCode(lens, s);
    if root < l {
      LowIn(h, root);
      var e := T[Low(h, root)];
      RegionTruncated(T, used, e.val, Pow2(e.op), l - root, High(h, root), E[s].(bits := l - root));
    } else {
      RegionTruncated(T, used, 0, Pow2(root), l, h, E[s].(bits := l));
    }
  }

  lemma RegionTruncated(T: seq<Entry>, used: nat, base: nat, size: nat, k: nat, h: nat, leaf: Entry)
    requires base + size <= used <= |T| && Region(T, base, size, k, h, leaf)
    ensures Region(T[..used], base, size, k, h, leaf)
  {
  }

  lemma LowIn(x: nat, n: nat)
    ensures Low(x, n) < Pow2(n)
  {
  }

  lemma FilledAll(T: seq<Entry>, kind: CodeType, lens: seq<nat>, root: nat, max: nat, W: seq<nat>,
                  f: Frontier, used: nat)
    requires Setting(kind, lens, root, max, W) && 0 < |W| && HasPlace(lens, W, |W| - 1)
    requires lens[W[|W| - 1]] == max
    requires Filling(T, kind, lens, root, W, |W|, |W| - 1, f, used) && Complete(lens)
    ensures Pow2(root) <= used <= |T| && Decodes(T[..used], root, kind, lens)
    ensures LaidOut(T[..used], lens, root)
  {
    hide Pow2, Low, High, CodeOf, StreamCode, Rev, Count, Rank, SubSizes, TableSize, Leaves, Leaf, Complete, Decodes;
    UsedCoversRoot(T, lens, root, W[|W| - 1], f, used);
    forall s: nat | s < |lens| && lens[s] > 0
      ensures Placed(T[..used], Leaves(kind, |lens|), lens, root, s, f)
      ensures Linked(T[..used], lens, root, s)
    {
      AtPlace(lens, W, s);
      NoneLonger(lens, max, s);
      Truncated(T, Leaves(kind, |lens|), lens, root, s, f, used);
      LinkTruncated(T, lens, root, s, used);
    }
    PlacedDecodes(T[..used], kind, lens, root, f);
  }

  lemma LinkTruncated(T: seq<Entry>, lens: seq<nat>, root: nat, s: nat, used: nat)
    requires Linked(T, lens, root, s) && Pow2(root) <= used <= |T|
    ensures Linked(T[..used], lens, root, s)
  {
    hide Pow2, Prefix, SubSizes;
    if s < |lens| && root < lens[s] {
      LowIn(StreamCode(lens, s), root);
    }
  }

  lemma NoneLonger(lens: seq<nat>, max: nat, s: nat)
    requires ValidLens(lens) && max == MaxUsed(lens, MAXBITS) && s < |lens|
    ensures lens[s] <= max
  {
    RankBelowCount(lens, s);
  }

  lemma UsedCoversRoot(T: seq<Entry>, lens: seq<nat>, root: nat, q: nat, f: Frontier, used: nat)
    requires Current(T, lens, root, q, f, used)
    ensures Pow2(root) <= used <= |T|
    ensures root < lens[q] ==> f.next + Pow2(f.curr) == used
    ensures lens[q] <= root ==> f == Frontier(0, root, -1) && used == Pow2(root)
  {
  }

  /** The lone code of one bit, with the other entry marked invalid. */
  lemma FilledLone(T: seq<Entry>, kind: CodeType, lens: seq<nat>, W: seq<nat>, f: Frontier, used: nat)
    requires Setting(kind, lens, 1, 1, W) && 0 < |W| && HasPlace(lens, W, |W| - 1)
    requires Filling(T, kind, lens, 1, W, |W|, |W| - 1, f, used) && !Complete(lens)
    ensures used == 2 <= |T| && f.next == 0 && Decodes(T[..2][1 := INVALID], 1, kind, lens)
    ensures LaidOut(T[..2][1 := INVALID], lens, 1)
    ensures BackInc(1, StreamCode(lens, W[|W| - 1])) == 1
  {
    var s := W[|W| - 1];
    NoneLonger(lens, 1, s);
    UsedCoversRoot(T, lens, 1, s, f, used);
    CompleteAtMax(lens, 1);
    RankBelowCount(lens, s);
    CodeBounds(lens, s);
    assert Pow2(0) == 1 && Pow2(1) == 2;
    assert CodeOf(lens, s) == 0;
    RevZero(1);
    forall t: nat | t < |lens| && lens[t] > 0
      ensures t == s
    {
      NoneLonger(lens, 1, t);
      RankBelowCount(lens, t);
      PlaceOrder(lens, s, t);
    }
    assert Placed(T, Leaves(kind, |lens|), lens, 1, s, f);
    assert Low(0 - 0, 1) == 0;
    assert T[0] == Leaves(kind, |lens|)[s].(bits := 1);
    LeafOf(kind, |lens|, s, 1);
    forall t: nat | t < |lens|
      ensures lens[t] <= 1
    {
      NoneLonger(lens, 1, t);
    }
    LoneDecodes(T[..2][1 := INVALID], kind, lens, s);
  }

  // ----- inflate_table ----------------------------------------------------------------------------

  method LongestLength(lens: seq<nat>, count: array<nat>) returns (max: nat)
    requires count.Length == MAXBITS + 1
    requires forall l :: 0 <= l <= MAXBITS ==> count[l] == Count(lens, l)
    ensures max == MaxUsed(lens, MAXBITS)
  {
    max := MAXBITS;
    while max >= 1 && count[max] == 0
      invariant max <= MAXBITS && MaxUsed(lens, MAXBITS) == MaxUsed(lens, max)
    {
      max := max - 1;
    }
  }

  method ShortestLength(lens: seq<nat>, count: array<nat>, max: nat) returns (min: nat)
    requires count.Length == MAXBITS + 1 && 0 < max <= MAXBITS
    requires forall l :: 0 <= l <= MAXBITS ==> count[l] == Count(lens, l)
    ensures min == MinUsed(lens, 1, max)
  {
    min := 1;
    while min < max && count[min] == 0
      invariant 1 <= min <= max && MinUsed(lens, 1, max) == MinUsed(lens, min, max)
    {
      min := min + 1;
    }
  }

  /** How many codes could still be added at the longest length; negative if the lengths
      are over-subscribed. */
  method SpaceLeft(lens: seq<nat>, count: array<nat>) returns (left: int)
    requires count.Length == MAXBITS + 1
    requires forall l :: 0 <= l <= MAXBITS ==> count[l] == Count(lens, l)
    ensures left < 0 <==> OverSubscribed(lens)
    ensures left == 0 <==> Complete(lens)
  {
    left := 1;
    var len := 1;
    while len <= MAXBITS
      invariant 1 <= len <= MAXBITS + 1
      invariant left == if len == 1 then 1 else Pow2(len - 1) - EndCode(lens, len - 1)
      invariant left >= 0
    {
      assert Pow2(0) == 1;
      left := left * 2;
      left := left - count[len];
      if left < 0 {
        if !OverSubscribed(lens) {
          FitsEveryLength(lens, len);
        }
        return;
      }
      len := len + 1;
    }
    KraftIsEnd(lens, MAXBITS);
  }

  /** Builds the decoding table of a canonical code.  -1 turns the lengths away, 1 says
      that the table would be too big, and 0 leaves in the first `used` entries a table
      that decodes the code. */
  method Build(kind: CodeType, lens: seq<nat>, table: array<Entry>, bits: nat, work: array<nat>)
    returns (ret: int, used: nat, root: nat)
    requires ValidLens(lens) && |lens| <= SymbolLimit(kind) && work.Length >= |lens|
    requires table.Length >= Provided(kind, lens, bits)
    modifies table, work
    ensures ret == -1 <==> Rejected(kind, lens)
    ensures ret == 1 <==> !Rejected(kind, lens) && !NoSymbols(lens)
                          && TooBig(kind, TableSize(lens, RootBits(lens, bits)))
    ensures ret == -1 || ret == 1 || ret == 0
    ensures ret == -1 <==>
              && (exists s: nat :: s < |lens| && lens[s] > 0)
              && (OverSubscribed(lens)
                  || (!Complete(lens) && (kind == CODES || exists s: nat :: s < |lens| && lens[s] > 1)))
    ensures ret != -1 && (exists s: nat :: s < |lens| && lens[s] > 0) ==>
              && (exists s: nat :: s < |lens| && 0 < lens[s] <= root)
              && (exists s: nat :: s < |lens| && root <= lens[s])
              && (root > bits ==> forall s: nat :: s < |lens| && lens[s] > 0 ==> root <= lens[s])
              && (root < bits ==> forall s: nat :: s < |lens| ==> lens[s] <= root)
              && (ret == 1 <==> (kind == LENS && TableSize(lens, root) > 852)
                                || (kind == DISTS && TableSize(lens, root) > 592))
    ensures ret == -1 ==> table[..] == old(table[..])
    ensures ret == 0 ==>
              && root == RootBits(lens, bits)
              && used == (if NoSymbols(lens) then 2 else TableSize(lens, root))
              && used <= table.Length
              && Decodes(table[..used], root, kind, lens)
              && LaidOut(table[..used], lens, root)
              && table[used..] == old(table[used..])
  {
    hide Count, Complete, OverSubscribed, Decodes, TableSize, Sorted, Offset, MinUsed, MaxUsed, SpaceFor, RootBits;
    RootNearest(lens, bits);
    UsedAtAll(lens);
    RootIs(lens, bits);
    var count := CountLengths(lens);
    var max := LongestLength(lens, count);
    root, used := bits, 0;
    if root > max {
      root := max;
    }
    if max == 0 {
      table[0], table[1] := INVALID, INVALID;
      used, root, ret := 2, 1, 0;
      NothingUsed(lens);
      EmptyFits(lens);
      EmptyDecodes(table[..used], kind, lens);
      return;
    }
    var min := ShortestLength(lens, count, max);
    if root < min {
      root := min;
    }
    var left := SpaceLeft(lens, count);
    if left < 0 {
      ret := -1;
      return;
    }
    if left > 0 && (kind == CODES || max != 1) {
      ret := -1;
      return;
    }
    SortSymbols(lens, count, work);
    SomeUsed(lens, max);
    SpaceProvided(kind, lens, bits, root);
    ret, used := EnterAll(kind, lens, table, root, min, max, count, work, work[..Offset(lens, MAXBITS + 1)]);
  }

  lemma RootIs(lens: seq<nat>, bits: nat)
    ensures RootBits(lens, bits)
         == if MaxUsed(lens, MAXBITS) == 0 then 1
            else Max(Min(bits, MaxUsed(lens, MAXBITS)), MinUsed(lens, 1, MaxUsed(lens, MAXBITS)))
    ensures NoSymbols(lens) <==> MaxUsed(lens, MAXBITS) == 0
    ensures forall a: int, b: int :: Max(a, b) == (if a <= b then b else a) && Min(a, b) == (if a <= b then a else b)
    ensures forall size: nat, kind: CodeType ::
              TooBig(kind, size) <==> (kind == LENS && size > 852) || (kind == DISTS && size > 592)
    ensures forall kind: CodeType ::
              Rejected(kind, lens) <==>
              !NoSymbols(lens)
              && (OverSubscribed(lens) || (!Complete(lens) && (kind == CODES || MaxUsed(lens, MAXBITS) != 1)))
  {
    hide MaxUsed, MinUsed, OverSubscribed, Complete;
  }

  /** A symbol of a length that is counted. */
  lemma {:induction false} SomeOfLength(lens: seq<nat>, l: nat) returns (s: nat)
    requires Count(lens, l) > 0
    ensures s < |lens| && lens[s] == l
  {
    var n := |lens| - 1;
    if lens[n] == l {
      s := n;
    } else {
      s := SomeOfLength(lens[..n], l);
    }
  }

  /** Whether a symbol is used at all, and whether one has a code of more than a bit. */
  lemma UsedAtAll(lens: seq<nat>)
    requires ValidLens(lens)
    ensures (exists s: nat :: s < |lens| && lens[s] > 0) <==> MaxUsed(lens, MAXBITS) > 0
    ensures (exists s: nat :: s < |lens| && lens[s] > 1) <==> MaxUsed(lens, MAXBITS) > 1
  {
    hide Count, MaxUsed;
    var max := MaxUsed(lens, MAXBITS);
    forall s: nat | s < |lens|
      ensures lens[s] <= max
    {
      NoneLonger(lens, max, s);
    }
    if max > 0 {
      var s := SomeOfLength(lens, max);
    }
  }

  /** The root is the request itself if that lies between the shortest and the longest length in
      use, and the nearer of the two otherwise. */
  lemma RootNearest(lens: seq<nat>, bits: nat)
    requires ValidLens(lens)
    ensures (exists s: nat :: s < |lens| && lens[s] > 0) ==>
              var root := RootBits(lens, bits);
              && (exists s: nat :: s < |lens| && 0 < lens[s] <= root)
              && (exists s: nat :: s < |lens| && root <= lens[s])
              && (root > bits ==> forall s: nat :: s < |lens| && lens[s] > 0 ==> root <= lens[s])
              && (root < bits ==> forall s: nat :: s < |lens| ==> lens[s] <= root)
  {
    hide Count, MaxUsed, MinUsed, RootBits;
    RootIs(lens, bits);
    UsedAtAll(lens);
    var max := MaxUsed(lens, MAXBITS);
    if max > 0 {
      var min := MinUsed(lens, 1, max);
      var s := SomeOfLength(lens, max);
      var t := SomeOfLength(lens, min);
      forall s: nat | s < |lens| && lens[s] > 0
        ensures min <= lens[s] <= max
      {
        NoneLonger(lens, max, s);
        RankBelowCount(lens, s);
      }
    }
  }

  lemma SpaceProvided(kind: CodeType, lens: seq<nat>, bits: nat, root: nat)
    requires root == RootBits(lens, bits)
    ensures SpaceFor(kind, lens, root) <= Provided(kind, lens, bits)
  {
  }

  /** Enters all symbols and marks the entry a lone code leaves over. */
  method EnterAll(kind: CodeType, lens: seq<nat>, table: array<Entry>, root: nat, min: nat, max: nat,
                  count: array<nat>, work: array<nat>, ghost W: seq<nat>)
    returns (ret: int, used: nat)
    requires Setting(kind, lens, root, max, W) && 0 < |W| <= work.Length && work[..|W|] == W
    requires min == MinUsed(lens, 1, max) <= root && count.Length == MAXBITS + 1
    requires forall l :: 0 <= l <= MAXBITS ==> count[l] == Count(lens, l)
    requires table.Length >= SpaceFor(kind, lens, root) && count != work
    requires Complete(lens) || max == 1
    modifies table, count
    ensures ret == if TooBig(kind, TableSize(lens, root)) then 1 else 0
    ensures ret == 0 ==>
              && used == TableSize(lens, root) <= table.Length
              && Decodes(table[..used], root, kind, lens)
              && LaidOut(table[..used], lens, root)
              && table[used..] == old(table[used..])
  {
    hide LaidOut, Complete, HasPlace, Filling, Decodes, StreamCode, BackInc, Setting, Count, MinUsed, SpaceFor,
      TableSize, TooBig;
    var huff, next, drop;
    ghost var f;
    ret, used, huff, next, drop, f := EnterCodes(kind, lens, table, root, min, max, count, work, W);
    if ret == 1 {
      return;
    }
    LastEntered(table[..], kind, lens, root, max, W, f, used, huff);
    if huff != 0 {
      ghost var T := table[..];
      table[next + huff] := Entry(64, max - drop, 0);
      assert table[..used] == T[..2][1 := INVALID];
    }
  }

  /** What is left to do after the last symbol: nothing, or one invalid marker. */
  lemma LastEntered(T: seq<Entry>, kind: CodeType, lens: seq<nat>, root: nat, max: nat, W: seq<nat>,
                    f: Frontier, used: nat, huff: nat)
    requires Setting(kind, lens, root, max, W) && 0 < |W| && HasPlace(lens, W, |W| - 1)
    requires W[|W| - 1] < |lens| && lens[W[|W| - 1]] == max && (Complete(lens) || max == 1)
    requires Filling(T, kind, lens, root, W, |W|, |W| - 1, f, used)
    requires huff == BackInc(max, StreamCode(lens, W[|W| - 1]))
    ensures huff == 0 ==> used <= |T| && Decodes(T[..used], root, kind, lens) && LaidOut(T[..used], lens, root)
    ensures huff != 0 ==>
              && huff == 1 && max == 1 && root == 1 && used == 2 <= |T| && f.next == 0
              && Decodes(T[..2][1 := INVALID], root, kind, lens)
              && LaidOut(T[..2][1 := INVALID], lens, root)
  {
    hide LaidOut, Filling, StreamCode, HasPlace, Decodes, Complete, MaxUsed, Pow2, BackInc;
    AfterLast(lens, W, max);
    if Complete(lens) {
      FilledAll(T, kind, lens, root, max, W, f, used);
    } else {
      FilledLone(T, kind, lens, W, f, used);
    }
  }

  lemma {:induction false} EmptyFits(lens: seq<nat>)
    requires forall t: nat :: t < |lens| ==> lens[t] == 0
    ensures Kraft(lens, MAXBITS) == 0 && !OverSubscribed(lens)
  {
    if lens != [] {
      EmptyFits(lens[..|lens| - 1]);
    }
  }

  lemma NothingUsed(lens: seq<nat>)
    requires ValidLens(lens) && MaxUsed(lens, MAXBITS) == 0
    ensures forall t: nat :: t < |lens| ==> lens[t] == 0
  {
    forall t: nat | t < |lens|
      ensures lens[t] == 0
    {
      NoneLonger(lens, 0, t);
    }
  }

  lemma SomeUsed(lens: seq<nat>, max: nat)
    requires 0 < max == MaxUsed(lens, MAXBITS)
    ensures Offset(lens, MAXBITS + 1) > 0
  {
    OffsetMono(lens, max, MAXBITS + 1);
  }

  // ----- What the contract of Build says about the space --------------------------------------------

  /** Entry `i` is one that the lookup of the stream `x` reads. */
  ghost predicate Reads(T: seq<Entry>, root: nat, x: nat, i: nat)
    requires Searchable(T, root)
  {
    i == Low(x, root) || (IsPointer(T[Low(x, root)]) && i == SubIndex(T[Low(x, root)], x))
  }

  /** Every entry of a table for a complete code is read for some stream: none of the
      space accounted for as used is left unwritten or wasted. */
  lemma EveryEntryRead(T: seq<Entry>, root: nat, kind: CodeType, lens: seq<nat>, i: nat) returns (x: nat)
    requires Complete(lens) && Decodes(T, root, kind, lens) && LaidOut(T, lens, root)
    requires i < |T| == TableSize(lens, root)
    ensures Reads(T, root, x, i)
  {
    if i < Pow2(root) {
      x := i;
      LowSmall(i, root);
    } else {
      var b := BlockAt(lens, root, i - Pow2(root), Pow2(root));
      var s := BlockMember(lens, root, b);
      hide *;
      x := SubEntryRead(T, root, lens, b, s, i);
    }
  }

  lemma SubEntryRead(T: seq<Entry>, root: nat, lens: seq<nat>, b: nat, s: nat, i: nat) returns (x: nat)
    requires ValidLens(lens) && TwoLevel(T, root) && LaidOut(T, lens, root)
    requires s < |lens| && root < lens[s] && Prefix(lens, root, s) == b
    requires SubSize(lens, root, b) == Pow2(BlockLen(lens, root, b, |lens|) - root)
    requires SubSizes(lens, root, b) <= i - Pow2(root) < SubSizes(lens, root, b) + SubSize(lens, root, b)
    ensures Reads(T, root, x, i)
  {
    hide Pow2, Low, High, StreamCode, Prefix, SubSizes, SubSize, TwoLevel, CodeOf;
    var low := Low(StreamCode(lens, s), root);
    assert Linked(T, lens, root, s);
    LowIn(StreamCode(lens, s), root);
    ShortBlocks(lens, root, b);
    FirstLevel(T, root);
    LinkRead(T, root, low, i - T[low].val);
    x := Join(low, i - T[low].val, root);
  }

  lemma FirstLevel(T: seq<Entry>, root: nat)
    requires TwoLevel(T, root)
    ensures 0 < root && Searchable(T, root)
  {
  }

  lemma ShortBlocks(lens: seq<nat>, root: nat, b: nat)
    requires ValidLens(lens)
    ensures BlockLen(lens, root, b, |lens|) <= MAXBITS
  {
  }

  lemma LinkRead(T: seq<Entry>, root: nat, low: nat, k: nat)
    requires Searchable(T, root) && low < Pow2(root) && IsPointer(T[low]) && T[low].bits == root
    requires k < Pow2(T[low].op)
    ensures Reads(T, root, Join(low, k, root), T[low].val + k)
  {
    hide Pow2, Low, High;
    Joined(low, k, root);
    LowSmall(k, T[low].op);
  }

  /** Which sub-table an offset lies in. */
  lemma {:induction false} BlockAt(lens: seq<nat>, root: nat, i: nat, n: nat) returns (b: nat)
    requires i < SubSizes(lens, root, n)
    ensures b < n && SubSizes(lens, root, b) <= i < SubSizes(lens, root, b) + SubSize(lens, root, b)
  {
    hide SubSize;
    if i < SubSizes(lens, root, n - 1) {
      b := BlockAt(lens, root, i, n - 1);
    } else {
      b := n - 1;
    }
  }

  lemma BlockMember(lens: seq<nat>, root: nat, b: nat) returns (s: nat)
    requires SubSize(lens, root, b) > 0
    ensures s < |lens| && root < lens[s] && Prefix(lens, root, s) == b
    ensures SubSize(lens, root, b) == Pow2(BlockLen(lens, root, b, |lens|) - root)
  {
    s :| s < |lens| && InBlock(lens, root, b, s);
  }

  /** The code length code, of at most 7 bits and built with 7 root bits, needs no
      sub-tables and at most 128 entries; that is why CODES is exempt from the check. */
  lemma CodeLengthSpace(lens: seq<nat>)
    requires forall s :: 0 <= s < |lens| ==> lens[s] <= 7
    ensures TableSize(lens, RootBits(lens, 7)) <= 128
  {
    ShortSpace(lens, 7);
    assert Pow2(7) == 128 by { assert Pow2(0) == 1; assert Pow2(3) == 8; }
  }

  /** A code no longer than the root index asked for needs no sub-table. */
  lemma ShortSpace(lens: seq<nat>, n: nat)
    requires 0 < n <= MAXBITS && forall s :: 0 <= s < |lens| ==> lens[s] <= n
    ensures TableSize(lens, RootBits(lens, n)) <= Pow2(n)
  {
    var max := MaxUsed(lens, MAXBITS);
    forall s: nat | s < |lens|
      ensures lens[s] <= RootBits(lens, n)
    {
      NoneLonger(lens, max, s);
    }
    if max > n {
      var s := SymbolOfRank(lens, max, 0);
    }
    RootAlone(lens, RootBits(lens, n), Pow2(RootBits(lens, n)));
    Pow2Mono(RootBits(lens, n), n);
  }
}
