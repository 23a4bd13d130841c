/** Looking a symbol up while the accumulator may hold too few bits. */
module SymbolDecode {
  import opened Arith
  import opened CanonicalCode
  import opened DecodeTable
  import opened BitReader
  import opened DeflateFormat

  /** A lookup that sees only the first `n` bits, with zeros for the rest, is right as soon
      as it answers within those bits; and it does so as soon as the right answer fits. */
  lemma PartialLookup(T: seq<Entry>, root: nat, kind: CodeType, lens: seq<nat>, x: nat, n: nat)
    requires Decodes(T, root, kind, lens)
    ensures Lookup(T, root, Low(x, n)).bits <= n || Lookup(T, root, x).bits <= n ==>
              Lookup(T, root, Low(x, n)) == Lookup(T, root, x)
  {
    var h := Low(x, n);
    hide Low, High, Pow2, StreamCode, Lookup;
    assert Answers(kind, lens, h, Lookup(T, root, h));
    assert Answers(kind, lens, x, Lookup(T, root, x));
    if s: nat :| s < |lens| && lens[s] <= n && (Starts(lens, s, h) || Starts(lens, s, x)) {
      LowLow(x, lens[s], n);
      assert Starts(lens, s, h) && Starts(lens, s, x);
    } else if Complete(lens) {
      var s := CompleteCovers(lens, h);
      var t := CompleteCovers(lens, x);
    }
  }

  /** In the code for distances every entry that is no link has a nonzero `op`, so that
      looking at its high bits alone tells links apart. */
  lemma DistanceLinks(T: seq<Entry>, root: nat, lens: seq<nat>, x: nat)
    requires Decodes(T, root, DISTS, lens)
    ensures T[Low(x, root)].op < 16 <==> IsPointer(T[Low(x, root)])
  {
    var e := T[Low(x, root)];
    if !IsPointer(e) {
      assert Answers(DISTS, lens, x, Lookup(T, root, x));
      if s: nat :| Starts(lens, s, x) {
      }
    }
  }

  lemma MaySearch(T: seq<Entry>, root: nat, kind: CodeType, lens: seq<nat>)
    requires Decodes(T, root, kind, lens)
    ensures Searchable(T, root)
  {
    hide Lookup, Low, High, Answers;
  }

  lemma Shape(T: seq<Entry>, root: nat, kind: CodeType, lens: seq<nat>, x: nat)
    requires Decodes(T, root, kind, lens)
    ensures GoodRoot(T, root, T[Low(x, root)]) && 0 < root <= MAXBITS && Searchable(T, root)
    ensures IsPointer(T[Low(x, root)]) ==>
              SubIndex(T[Low(x, root)], x) < |T| && GoodSub(T[Low(x, root)], T[SubIndex(T[Low(x, root)], x)])
    ensures 0 < Lookup(T, root, x).bits <= MAXBITS
  {
    hide Low, High, Pow2;
    var e := T[Low(x, root)];
    assert GoodRoot(T, root, e);
  }

  /** The two shifts and the mask of the second lookup. */
  lemma SecondIndex(e: Entry, hold: nat)
    ensures e.val + High(Low(hold, e.bits + e.op), e.bits) == SubIndex(e, hold)
  {
    LowLow(hold, e.bits, e.bits + e.op);
  }

  /** Nothing is used yet, and every byte pulled so far was needed. */
  ghost predicate Waiting(T: seq<Entry>, root: nat, input: seq<Byte>, x: nat,
                          next0: nat, bits0: nat, next: nat, hold: nat, bits: nat)
    requires Searchable(T, root)
  {
    && Holding(input, next, hold, bits) && next0 <= next && bits0 <= 8 * next0
    && Pos(next, bits) == Pos(next0, bits0) && x == From(input, Pos(next, bits))
    && bits <= Max(bits0, MAXBITS + 7)
    && (next0 < next ==> bits - 8 < Lookup(T, root, x).bits)
  }

  /** What the table says about the bits held. */
  lemma Held(T: seq<Entry>, root: nat, kind: CodeType, lens: seq<nat>, input: seq<Byte>, x: nat,
             next0: nat, bits0: nat, next: nat, hold: nat, bits: nat)
    requires Decodes(T, root, kind, lens)
    requires Waiting(T, root, input, x, next0, bits0, next, hold, bits)
    ensures Lookup(T, root, hold).bits <= bits || Lookup(T, root, x).bits <= bits ==>
              Lookup(T, root, hold) == Lookup(T, root, x)
    ensures Low(hold, root) < |T|
    ensures var e := T[Low(hold, root)];
            && e.bits <= root <= MAXBITS
            && (if !IsPointer(e) then Lookup(T, root, hold) == e
                else
                  && e.bits == root && SubIndex(e, hold) < |T|
                  && var e2 := T[SubIndex(e, hold)];
                     && Lookup(T, root, hold) == Entry(e2.op, e.bits + e2.bits, e2.val))
    ensures 0 < Lookup(T, root, x).bits <= MAXBITS
    ensures next <= |input| && next0 <= next && 0 < Lookup(T, root, hold).bits
  {
    hide Low, High, Pow2, Stream, From, Decodes, TwoLevel;
    PartialLookup(T, root, kind, lens, x, bits);
    Shape(T, root, kind, lens, hold);
    Shape(T, root, kind, lens, x);
  }

  /** One more byte, when the ones held do not suffice. */
  lemma PullWaiting(T: seq<Entry>, root: nat, input: seq<Byte>, x: nat,
                    next0: nat, bits0: nat, next: nat, hold: nat, bits: nat)
    requires Searchable(T, root) && Waiting(T, root, input, x, next0, bits0, next, hold, bits)
    requires next < |input| && bits < Lookup(T, root, x).bits <= MAXBITS
    ensures Waiting(T, root, input, x, next0, bits0, next + 1, Join(hold, input[next], bits), bits + 8)
    ensures forall n: nat :: n <= bits ==> Low(Join(hold, input[next], bits), n) == Low(hold, n)
  {
    hide Low, High, Pow2, Stream, From, Join, Lookup;
    Pulled(input, next, hold, bits);
    forall n: nat | n <= bits
      ensures Low(Join(hold, input[next], bits), n) == Low(hold, n)
    {
      LowLow(x, n, bits);
      LowLow(x, n, bits + 8);
    }
  }

  /** The first lookup loop: pulls bytes until the root entry takes no more than is held. */
  method FirstLookup(T: seq<Entry>, root: nat, ghost kind: CodeType, ghost lens: seq<nat>,
                     avail: seq<Byte>, ghost input: seq<Byte>, next0: nat, hold0: nat, bits0: nat, ghost x: nat)
    returns (done: bool, here: Entry, next: nat, hold: nat, bits: nat)
    requires Decodes(T, root, kind, lens)
    requires Waiting(T, root, input, x, next0, bits0, next0, hold0, bits0) && next0 <= |avail| && avail <= input
    ensures Waiting(T, root, input, x, next0, bits0, next, hold, bits) && next <= |avail|
    ensures done ==> Low(hold, root) < |T| && here == T[Low(hold, root)] && here.bits <= bits
    ensures !done ==> next == |avail| && Lookup(T, root, x).bits > bits
  {
    hide *;
    MaySearch(T, root, kind, lens);
    next, hold, bits := next0, hold0, bits0;
    while true
      invariant Waiting(T, root, input, x, next0, bits0, next, hold, bits) && next <= |avail|
      decreases |avail| - next
    {
      Held(T, root, kind, lens, input, x, next0, bits0, next, hold, bits);
      here := T[Low(hold, root)];
      if here.bits <= bits {
        done := true;
        return;
      }
      if next == |avail| {
        done := false;
        return;
      }
      PullWaiting(T, root, input, x, next0, bits0, next, hold, bits);
      hold, next, bits := Join(hold, avail[next], bits), next + 1, bits + 8;
    }
  }

  /** The second lookup loop, once the root entry `last` is a link. */
  method SecondLookup(T: seq<Entry>, root: nat, ghost kind: CodeType, ghost lens: seq<nat>, last: Entry,
                      avail: seq<Byte>, ghost input: seq<Byte>, next1: nat, hold1: nat, bits1: nat,
                      ghost x: nat, ghost next0: nat, ghost bits0: nat)
    returns (done: bool, here: Entry, next: nat, hold: nat, bits: nat)
    requires Decodes(T, root, kind, lens)
    requires Waiting(T, root, input, x, next0, bits0, next1, hold1, bits1) && next1 <= |avail| && avail <= input
    requires Low(hold1, root) < |T| && last == T[Low(hold1, root)] && IsPointer(last) && last.bits == root <= bits1
    ensures Waiting(T, root, input, x, next0, bits0, next, hold, bits) && next <= |avail|
    ensures done ==>
              && last.bits + here.bits <= bits
              && Entry(here.op, last.bits + here.bits, here.val) == Lookup(T, root, x)
    ensures !done ==> next == |avail| && Lookup(T, root, x).bits > bits
  {
    hide *;
    MaySearch(T, root, kind, lens);
    next, hold, bits := next1, hold1, bits1;
    while true
      invariant Waiting(T, root, input, x, next0, bits0, next, hold, bits) && next <= |avail|
      invariant last.bits == root <= bits && Low(hold, root) < |T| && last == T[Low(hold, root)]
      invariant IsPointer(last)
      decreases |avail| - next
    {
      Held(T, root, kind, lens, input, x, next0, bits0, next, hold, bits);
      SecondIndex(last, hold);
      here := T[last.val + High(Low(hold, last.bits + last.op), last.bits)];
      if last.bits + here.bits <= bits {
        done := true;
        return;
      }
      if next == |avail| {
        done := false;
        return;
      }
      PullWaiting(T, root, input, x, next0, bits0, next, hold, bits);
      hold, next, bits := Join(hold, avail[next], bits), next + 1, bits + 8;
    }
  }

  /** The lookups of the LEN and DIST states, when the bytes `avail` of the whole input have
      arrived.  They end when the entry found takes no more bits than are held, or when no
      byte is left to pull: so they give the symbol the stream starts with, whatever is still
      to come, and pull no byte that symbol does not need. */
  method DecodeSymbol(T: seq<Entry>, root: nat, ghost kind: CodeType, ghost lens: seq<nat>, distance: bool,
                      avail: seq<Byte>, ghost input: seq<Byte>, next0: nat, hold0: nat, bits0: nat)
    returns (found: bool, here: Entry, next: nat, hold: nat, bits: nat)
    requires Decodes(T, root, kind, lens) && (distance ==> kind == DISTS)
    requires Holding(input, next0, hold0, bits0) && bits0 <= 32 && next0 <= |avail| && avail <= input
    ensures Holding(input, next, hold, bits) && next0 <= next <= |avail|
    ensures bits <= Max(bits0, MAXBITS + 7) <= 32 && bits <= 8 * next && bits0 <= 8 * next0
    ensures found ==>
              && var e := Lookup(T, root, From(input, Pos(next0, bits0)));
                 && here.op == e.op && here.val == e.val
                 && Pos(next, bits) == Pos(next0, bits0) + e.bits
                 && (next0 < next ==> Pos(next - 1, 0) < Pos(next0, bits0) + e.bits)
    ensures !found ==>
              && next == |avail| && Pos(next, bits) == Pos(next0, bits0)
              && Lookup(T, root, From(input, Pos(next0, bits0))).bits > bits
  {
    hide *;
    MaySearch(T, root, kind, lens);
    NoneUsed(T, root, input, next0, hold0, bits0);
    ghost var x := From(input, Pos(next0, bits0));
    found, here, next, hold, bits := FirstLookup(T, root, kind, lens, avail, input, next0, hold0, bits0, x);
    WaitingMeans(T, root, input, x, next0, bits0, next, hold, bits);
    if !found {
      return;
    }
    Held(T, root, kind, lens, input, x, next0, bits0, next, hold, bits);
    if distance {
      DistanceLinks(T, root, lens, hold);
    }
    if if distance then here.op < 16 else IsPointer(here) {
      var last := here;
      found, here, next, hold, bits :=
        SecondLookup(T, root, kind, lens, last, avail, input, next, hold, bits, x, next0, bits0);
      WaitingMeans(T, root, input, x, next0, bits0, next, hold, bits);
      if !found {
        return;
      }
      DropPos(input, next, hold, bits, last.bits);
      hold, bits := High(hold, last.bits), bits - last.bits;
    }
    DropPos(input, next, hold, bits, here.bits);
    hold, bits := High(hold, here.bits), bits - here.bits;
  }

  lemma NoneUsed(T: seq<Entry>, root: nat, input: seq<Byte>, next: nat, hold: nat, bits: nat)
    requires Searchable(T, root) && Holding(input, next, hold, bits)
    ensures bits <= 8 * next && Pos(next, bits) == 8 * next - bits
    ensures Waiting(T, root, input, From(input, Pos(next, bits)), next, bits, next, hold, bits)
  {
  }

  lemma WaitingMeans(T: seq<Entry>, root: nat, input: seq<Byte>, x: nat,
                     next0: nat, bits0: nat, next: nat, hold: nat, bits: nat)
    requires Searchable(T, root) && Waiting(T, root, input, x, next0, bits0, next, hold, bits)
    ensures bits <= 8 * next && bits0 <= 8 * next0 && next0 <= next
    ensures Holding(input, next, hold, bits) && bits <= Max(bits0, MAXBITS + 7)
    ensures bits0 <= 32 ==> Max(bits0, MAXBITS + 7) <= 32
    ensures Pos(next, bits) == 8 * next - bits == 8 * next0 - bits0
    ensures next0 < next ==> Pos(next - 1, 0) == 8 * next - 8 && bits - 8 < Lookup(T, root, x).bits
  {
    hide Lookup, Searchable;
  }

  lemma DropPos(input: seq<Byte>, next: nat, hold: nat, bits: nat, n: nat)
    requires Holding(input, next, hold, bits) && n <= bits
    ensures Holding(input, next, High(hold, n), bits - n)
    ensures bits <= 8 * next && Pos(next, bits - n) == 8 * next - (bits - n)
  {
    Dropped(input, next, hold, bits, n);
  }
}
