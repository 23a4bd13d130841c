/** The order in which inflate_table meets the symbols: by length, then by number.
    Codes increase along it, so the codes under one root prefix come together. */
module TableOrder {
  import opened Arith
  import opened CanonicalCode
  import opened DecodeTable

  /** How many symbols have a nonzero length below `l`. */
  function Offset(lens: seq<nat>, l: nat): nat {
    if l <= 1 then 0 else Offset(lens, l - 1) + Count(lens, l - 1)
  }

  /** The place of symbol `s` in the order. */
  function Place(lens: seq<nat>, s: nat): nat
    requires s < |lens|
  {
    Offset(lens, lens[s]) + Rank(lens, s)
  }

  ghost predicate HasPlace(lens: seq<nat>, W: seq<nat>, p: nat)
    requires p < |W|
  {
    W[p] < |lens| && lens[W[p]] > 0 && Place(lens, W[p]) == p
  }

  /** `W` lists exactly the symbols with codes, in order. */
  ghost predicate Sorted(lens: seq<nat>, W: seq<nat>) {
    && |W| == Offset(lens, MAXBITS + 1)
    && (forall p: nat :: p < |W| ==> HasPlace(lens, W, p))
  }

  lemma {:induction false} OffsetMono(lens: seq<nat>, l: nat, m: nat)
    requires 0 < l < m
    ensures Offset(lens, m) >= Offset(lens, l) + Count(lens, l)
    ensures Offset(lens, m) == Offset(lens, l) + Count(lens, l) ==>
              forall k :: l < k < m ==> Count(lens, k) == 0
  {
    if l + 1 < m {
      OffsetMono(lens, l, m - 1);
    }
  }

  lemma PlaceBound(lens: seq<nat>, s: nat)
    requires s < |lens| && 0 < lens[s] <= MAXBITS
    ensures Place(lens, s) < Offset(lens, MAXBITS + 1)
  {
    RankBelowCount(lens, s);
    OffsetMono(lens, lens[s], MAXBITS + 1);
  }

  lemma PlaceOrder(lens: seq<nat>, s: nat, t: nat)
    requires s < |lens| && t < |lens| && lens[s] > 0 && lens[t] > 0
    ensures lens[s] < lens[t] ==> Place(lens, s) < Place(lens, t)
    ensures lens[s] == lens[t] && s < t ==> Place(lens, s) < Place(lens, t)
    ensures Place(lens, s) == Place(lens, t) ==> s == t
  {
    RankBelowCount(lens, s);
    RankBelowCount(lens, t);
    if lens[s] < lens[t] {
      OffsetMono(lens, lens[s], lens[t]);
    } else if lens[t] < lens[s] {
      OffsetMono(lens, lens[t], lens[s]);
    } else if s < t {
      RankOrder(lens, s, t);
    } else if t < s {
      RankOrder(lens, t, s);
    }
  }

  /** Every symbol with a code is found at its place. */
  lemma AtPlace(lens: seq<nat>, W: seq<nat>, s: nat)
    requires ValidLens(lens) && Sorted(lens, W)
    requires s < |lens| && lens[s] > 0
    ensures Place(lens, s) < |W| && W[Place(lens, s)] == s
  {
    PlaceBound(lens, s);
    var p := Place(lens, s);
    assert HasPlace(lens, W, p);
    PlaceOrder(lens, s, W[p]);
  }

  /** What follows the symbol `s` in the order: the next of its length, or the first of
      the next length in use. */
  lemma NextPlace(lens: seq<nat>, s: nat, t: nat)
    requires s < |lens| && t < |lens| && lens[s] > 0 && lens[t] > 0
    requires Place(lens, t) == Place(lens, s) + 1
    ensures lens[s] <= lens[t]
    ensures lens[s] == lens[t] <==> Rank(lens, s) + 1 < Count(lens, lens[s])
    ensures lens[s] == lens[t] ==> Rank(lens, t) == Rank(lens, s) + 1
    ensures lens[s] < lens[t] ==> Rank(lens, t) == 0
    ensures forall k :: lens[s] < k < lens[t] ==> Count(lens, k) == 0
  {
    PlaceOrder(lens, t, s);
    RankBelowCount(lens, s);
    RankBelowCount(lens, t);
    if lens[s] < lens[t] {
      OffsetMono(lens, lens[s], lens[t]);
    }
  }

  /** Unused lengths in between only append zeros. */
  lemma {:induction false} FirstAfterGap(lens: seq<nat>, l: nat, m: nat)
    requires 0 < l < m
    requires forall k :: l < k < m ==> Count(lens, k) == 0
    ensures FirstCode(lens, m) == EndCode(lens, l) * Pow2(m - l)
  {
    if l + 1 < m {
      FirstAfterGap(lens, l, m - 1);
      DoublePow(EndCode(lens, l), m - 1 - l);
      hide Pow2;
    } else {
      assert Pow2(1) == 2 by { assert Pow2(0) == 1; }
    }
  }

  /** The next code is one more, with zeros appended. */
  lemma NextCode(lens: seq<nat>, s: nat, t: nat)
    requires s < |lens| && t < |lens| && lens[s] > 0 && lens[t] > 0
    requires Place(lens, t) == Place(lens, s) + 1
    ensures lens[s] <= lens[t]
    ensures CodeOf(lens, t) == (CodeOf(lens, s) + 1) * Pow2(lens[t] - lens[s])
  {
    NextPlace(lens, s, t);
    RankBelowCount(lens, s);
    if lens[s] < lens[t] {
      FirstAfterGap(lens, lens[s], lens[t]);
    } else {
      assert Pow2(0) == 1;
    }
  }

  /** Counting backwards from one stream code gives the next. */
  lemma NextStreamCode(lens: seq<nat>, s: nat, t: nat)
    requires ValidLens(lens) && !OverSubscribed(lens)
    requires s < |lens| && t < |lens| && lens[s] > 0 && lens[t] > 0
    requires Place(lens, t) == Place(lens, s) + 1
    ensures BackInc(lens[s], StreamCode(lens, s)) == StreamCode(lens, t)
  {
    hide Pow2, Low, High, Rev, CodeOf, BackInc, Place;
    NextCode(lens, s, t);
    CodeBounds(lens, s);
    CodeBounds(lens, t);
    BackIncAppends(lens[s], CodeOf(lens, s), lens[t]);
  }

  lemma BackIncAppends(l: nat, c: nat, m: nat)
    requires l <= m && c < Pow2(l) && (c + 1) * Pow2(m - l) < Pow2(m)
    ensures BackInc(l, Rev(l, c)) == Rev(m, (c + 1) * Pow2(m - l))
  {
    hide *;
    BackIncIsRev(l, c);
    RevShift(l, m - l, c + 1);
    Pow2Add(l, m - l);
    MulLess(c + 1, Pow2(l), Pow2(m - l));
  }

  // ----- Blocks: the codes under one root prefix --------------------------------------

  lemma LowIsPrefix(lens: seq<nat>, root: nat, s: nat)
    requires ValidLens(lens) && !OverSubscribed(lens)
    requires s < |lens| && 0 < root <= lens[s]
    ensures Low(StreamCode(lens, s), root) == Rev(root, Prefix(lens, root, s))
    ensures Prefix(lens, root, s) < Pow2(root)
  {
    hide Pow2, Low, High, Rev, CodeOf;
    CodeBounds(lens, s);
    RevSplit(root, lens[s], CodeOf(lens, s));
    LeadFits(CodeOf(lens, s), root, lens[s]);
  }

  /** Prefixes never go down along the order. */
  lemma PrefixOrder(lens: seq<nat>, root: nat, s: nat, t: nat)
    requires s < |lens| && t < |lens| && 0 < root <= lens[s] && root <= lens[t]
    requires Place(lens, s) <= Place(lens, t)
    ensures Prefix(lens, root, s) <= Prefix(lens, root, t)
  {
    PlaceOrder(lens, t, s);
    PlaceOrder(lens, s, t);
    var l, m := lens[s], lens[t];
    var c, d := CodeOf(lens, s), CodeOf(lens, t);
    if l < m {
      CodeOrder(lens, s, t);
      DivBound(d, Pow2(m - l), c + 1);
      DivDiv(d, m - l, l - root);
      DivMono(c, d / Pow2(m - l), Pow2(l - root));
    } else {
      if s != t {
        assert s < t;
        RankOrder(lens, s, t);
      }
      DivMono(c, d, Pow2(l - root));
    }
  }

  /** A new prefix begins where its block begins. */
  lemma BlockStart(lens: seq<nat>, root: nat, s: nat, t: nat)
    requires s < |lens| && t < |lens| && 0 < root < lens[t] && 0 < lens[s]
    requires Place(lens, t) == Place(lens, s) + 1
    requires root < lens[s] ==> Prefix(lens, root, s) != Prefix(lens, root, t)
    ensures CodeOf(lens, t) == Prefix(lens, root, t) * Pow2(lens[t] - root)
  {
    NextCode(lens, s, t);
    var l, m := lens[s], lens[t];
    var c, d := CodeOf(lens, s), CodeOf(lens, t);
    if l <= root {
      Pow2Add(root - l, m - root);
      MulAssoc(c + 1, Pow2(root - l), Pow2(m - root));
      DivModUnique(d, Pow2(m - root), (c + 1) * Pow2(root - l), 0);
    } else {
      DivModUnique(d, Pow2(m - l), c + 1, 0);
      DivDiv(d, m - l, l - root);
      StepAcross(c, Pow2(l - root));
      Pow2Add(l - root, m - l);
      var b := (c + 1) / Pow2(l - root);
      MulAssoc(b, Pow2(l - root), Pow2(m - l));
    }
  }

  lemma StepAcross(c: nat, m: nat)
    requires m > 0 && c / m != (c + 1) / m
    ensures c + 1 == (c + 1) / m * m
  {
    var q, r := c / m, c % m;
    assert c == q * m + r;
    if r + 1 < m {
      DivModUnique(c + 1, m, q, r + 1);
    } else {
      DivModUnique(c + 1, m, q + 1, 0);
    }
  }

  // ----- Sizing a sub-table ------------------------------------------------------------

  /** The room left under prefix `b` for codes of length `l`. */
  function Room(lens: seq<nat>, root: nat, b: nat, l: nat): int
    requires root <= l
  {
    (b + 1) * Pow2(l - root) - FirstCode(lens, l)
  }

  /** The sub-table under `b` needs exactly `l - root` index bits: every code under `b`
      has at most `l` bits and one of them has exactly `l`. */
  ghost predicate FitsBlock(lens: seq<nat>, root: nat, b: nat, l: nat) {
    && (forall s: nat :: InBlock(lens, root, b, s) ==> lens[s] <= l)
    && (exists s: nat :: InBlock(lens, root, b, s) && lens[s] == l)
  }

  /** No longer code stays under `b` once length `l` has filled it. */
  lemma FullBlock(lens: seq<nat>, root: nat, b: nat, l: nat, s: nat)
    requires 0 < root < l && EndCode(lens, l) >= (b + 1) * Pow2(l - root)
    requires s < |lens| && l < lens[s]
    ensures Prefix(lens, root, s) > b
  {
    var m := lens[s];
    var E := EndCode(lens, l);
    EndGrows(lens, l, m);
    MulMono((b + 1) * Pow2(l - root), E, Pow2(m - l));
    Pow2Add(l - root, m - l);
    MulAssoc(b + 1, Pow2(l - root), Pow2(m - l));
    DivBound(CodeOf(lens, s), Pow2(m - root), b + 1);
  }

  /** A length in use with room left under `b`, and codes no smaller than `b`, has a
      code under `b`. */
  lemma BlockHas(lens: seq<nat>, root: nat, b: nat, l: nat, r: nat)
    requires 0 < root < l && r < Count(lens, l)
    requires b * Pow2(l - root) <= FirstCode(lens, l) + r < (b + 1) * Pow2(l - root)
    ensures exists s: nat :: InBlock(lens, root, b, s) && lens[s] == l
  {
    var s := SymbolOfRank(lens, l, r);
    var c := FirstCode(lens, l) + r;
    DivBound(c, Pow2(l - root), b + 1);
    DivBound(c, Pow2(l - root), b);
    assert InBlock(lens, root, b, s);
  }

  lemma FitsBlockIsLen(lens: seq<nat>, root: nat, b: nat, l: nat)
    requires root < l && FitsBlock(lens, root, b, l)
    ensures BlockLen(lens, root, b, |lens|) == l
    ensures SubSize(lens, root, b) == Pow2(l - root)
  {
  }
}
