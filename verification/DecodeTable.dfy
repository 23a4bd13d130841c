/** What a decoding table means: the two-level lookup that inflate performs, and the
    relation of its result to the canonical code. */
module DecodeTable {
  import opened Arith
  import opened CanonicalCode

  datatype CodeType = CODES | LENS | DISTS

  /** The C struct `code`. */
  datatype Entry = Entry(op: nat, bits: nat, val: nat)

  const LBASE: seq<nat> := [
    3, 4, 5, 6, 7, 8, 9, 10, 11, 13, 15, 17, 19, 23, 27, 31,
    35, 43, 51, 59, 67, 83, 99, 115, 131, 163, 195, 227, 258, 0, 0]
  const LEXT: seq<nat> := [
    16, 16, 16, 16, 16, 16, 16, 16, 17, 17, 17, 17, 18, 18, 18, 18,
    19, 19, 19, 19, 20, 20, 20, 20, 21, 21, 21, 21, 16, 77, 202]
  const DBASE: seq<nat> := [
    1, 2, 3, 4, 5, 7, 9, 13, 17, 25, 33, 49, 65, 97, 129, 193,
    257, 385, 513, 769, 1025, 1537, 2049, 3073, 4097, 6145,
    8193, 12289, 16385, 24577, 0, 0]
  const DEXT: seq<nat> := [
    16, 16, 16, 16, 17, 17, 18, 18, 19, 19, 20, 20, 21, 21, 22, 22,
    23, 23, 24, 24, 25, 25, 26, 26, 27, 27,
    28, 28, 29, 29, 64, 64]

  function LengthBase(i: nat): nat
    requires i < 31
  {
    LBASE[i]
  }

  function LengthExtra(i: nat): (op: nat)
    requires i < 31
    ensures op >= 16
  {
    LEXT[i]
  }

  function DistBase(i: nat): nat
    requires i < 32
  {
    DBASE[i]
  }

  function DistExtra(i: nat): (op: nat)
    requires i < 32
    ensures op >= 16
  {
    DEXT[i]
  }

  /** The alphabet each kind of code is used with: the base and extra tables have no
      entry beyond it. */
  function SymbolLimit(kind: CodeType): nat {
    match kind
    case CODES => 20
    case LENS => 288
    case DISTS => 32
  }

  const END_OF_BLOCK := 96
  const INVALID := Entry(64, 1, 0)

  /** The entry for symbol `s` whose code still has `bits` bits to go. */
  function Leaf(kind: CodeType, s: nat, bits: nat): (e: Entry)
    requires s < SymbolLimit(kind)
    ensures !IsPointer(e) && e.bits == bits
  {
    var bound := match kind case CODES => 20 case LENS => 257 case DISTS => 0;
    if s + 1 < bound then Entry(0, bits, s)
    else if s >= bound then
      match kind
      case LENS => Entry(LengthExtra(s - bound), bits, LengthBase(s - bound))
      case DISTS => Entry(DistExtra(s - bound), bits, DistBase(s - bound))
      case CODES => assert false; INVALID
    else Entry(END_OF_BLOCK, bits, 0)
  }

  /** `op` is nonzero and its high four bits are clear: a link to a sub-table. */
  predicate IsPointer(e: Entry) {
    0 < e.op < 16
  }

  // ----- Lookup --------------------------------------------------------------------

  ghost predicate Searchable(T: seq<Entry>, root: nat) {
    && Pow2(root) <= |T|
    && forall j :: 0 <= j < Pow2(root) && IsPointer(T[j]) ==> T[j].val + Pow2(T[j].op) <= |T|
  }

  /** Where the second lookup goes. */
  function SubIndex(e: Entry, x: nat): nat {
    e.val + Low(High(x, e.bits), e.op)
  }

  /** The entry the stream `x` leads to; `bits` is what both steps drop together. */
  function Lookup(T: seq<Entry>, root: nat, x: nat): Entry
    requires Searchable(T, root)
  {
    var e := T[Low(x, root)];
    if !IsPointer(e) then e
    else var e2 := T[SubIndex(e, x)]; Entry(e2.op, e.bits + e2.bits, e2.val)
  }

  /** `e` is the right answer for the stream `x`. */
  ghost predicate Answers(kind: CodeType, lens: seq<nat>, x: nat, e: Entry) {
    && (forall s: nat :: Starts(lens, s, x) ==> s < SymbolLimit(kind) && e == Leaf(kind, s, lens[s]))
    && ((forall s: nat :: !Starts(lens, s, x)) ==> e == INVALID)
  }

  /** The shape of a finished table: the first step drops at most `root` bits, links
      drop exactly `root`, and sub-tables hold no links. */
  ghost predicate TwoLevel(T: seq<Entry>, root: nat) {
    && 0 < root <= MAXBITS
    && Searchable(T, root)
    && forall j :: 0 <= j < Pow2(root) ==> GoodRoot(T, root, T[j])
  }

  ghost predicate GoodRoot(T: seq<Entry>, root: nat, e: Entry) {
    && 0 < e.bits <= root
    && (IsPointer(e) ==>
        && e.bits == root
        && e.op + root <= MAXBITS
        && e.val + Pow2(e.op) <= |T|
        && forall k :: e.val <= k < e.val + Pow2(e.op) ==> GoodSub(e, T[k]))
  }

  ghost predicate GoodSub(e: Entry, e2: Entry) {
    !IsPointer(e2) && 0 < e2.bits <= e.op
  }

  /** The codes inflate can work with: complete ones, and those of at most one bit. */
  ghost predicate Usable(lens: seq<nat>) {
    && ValidLens(lens) && !OverSubscribed(lens)
    && (Complete(lens) || forall s: nat :: s < |lens| ==> lens[s] <= 1)
  }

  /** `T` decodes the canonical code of `lens`, whatever the stream. */
  ghost predicate Decodes(T: seq<Entry>, root: nat, kind: CodeType, lens: seq<nat>) {
    && |lens| <= SymbolLimit(kind) && Usable(lens)
    && TwoLevel(T, root)
    && forall x: nat :: Answers(kind, lens, x, Lookup(T, root, x))
  }

  // ----- The space a table needs -----------------------------------------------------

  /** The root index bits of a code, as a number read most significant bit first. */
  function Prefix(lens: seq<nat>, root: nat, s: nat): nat
    requires s < |lens| && root <= lens[s]
  {
    Quotient(CodeOf(lens, s), Pow2(lens[s] - root))
  }

  ghost predicate InBlock(lens: seq<nat>, root: nat, b: nat, s: nat) {
    s < |lens| && root < lens[s] && Prefix(lens, root, s) == b
  }

  /** The longest code among the first `n` symbols that outgrows the root table under
      the prefix `b`; 0 if there is none. */
  ghost function BlockLen(lens: seq<nat>, root: nat, b: nat, n: nat): (m: nat)
    requires n <= |lens|
    ensures forall s: nat :: s < n && InBlock(lens, root, b, s) ==> lens[s] <= m
    ensures m > 0 ==> exists s: nat :: s < n && InBlock(lens, root, b, s) && lens[s] == m
  {
    if n == 0 then 0
    else
      var m := BlockLen(lens, root, b, n - 1);
      if InBlock(lens, root, b, n - 1) then Max(m, lens[n - 1]) else m
  }

  /** A sub-table exactly deep enough for the codes under `b`. */
  ghost function SubSize(lens: seq<nat>, root: nat, b: nat): nat {
    var m := BlockLen(lens, root, b, |lens|);
    if m <= root then 0 else Pow2(m - root)
  }

  ghost function SubSizes(lens: seq<nat>, root: nat, b: nat): nat {
    if b == 0 then 0 else SubSizes(lens, root, b - 1) + SubSize(lens, root, b - 1)
  }

  /** The root entry of a long code links to a sub-table of exactly the depth its block
      needs, and the sub-tables follow the root table in the order of their prefixes. */
  ghost predicate Linked(T: seq<Entry>, lens: seq<nat>, root: nat, s: nat) {
    s < |lens| && root < lens[s] ==>
      var b := Prefix(lens, root, s);
      var i := Low(StreamCode(lens, s), root);
      && i < |T| && root < BlockLen(lens, root, b, |lens|)
      && T[i] == Entry(BlockLen(lens, root, b, |lens|) - root, root, Pow2(root) + SubSizes(lens, root, b))
  }

  ghost predicate LaidOut(T: seq<Entry>, lens: seq<nat>, root: nat) {
    forall s: nat :: s < |lens| && root < lens[s] ==> Linked(T, lens, root, s)
  }

  /** The root table and one sub-table for each root prefix with longer codes. */
  ghost function TableSize(lens: seq<nat>, root: nat): nat {
    Pow2(root) + SubSizes(lens, root, Pow2(root))
  }

  lemma {:induction false} SubSizesMono(lens: seq<nat>, root: nat, a: nat, b: nat)
    requires a <= b
    ensures SubSizes(lens, root, a) <= SubSizes(lens, root, b)
    ensures (forall k :: a <= k < b ==> SubSize(lens, root, k) == 0) ==>
              SubSizes(lens, root, a) == SubSizes(lens, root, b)
  {
    hide SubSize;
    if a < b {
      SubSizesMono(lens, root, a, b - 1);
    }
  }

  /** When no code outgrows the root table there are no sub-tables; the code length
      code, at most 7 bits long and built with a 7-bit root, is such a case. */
  lemma {:induction false} RootAlone(lens: seq<nat>, root: nat, b: nat)
    requires forall s :: 0 <= s < |lens| ==> lens[s] <= root
    ensures SubSizes(lens, root, b) == 0
  {
    if b > 0 {
      RootAlone(lens, root, b - 1);
      assert SubSize(lens, root, b - 1) == 0;
    }
  }

  /** The longest and shortest lengths in use. */
  function MaxUsed(lens: seq<nat>, l: nat): (m: nat)
    ensures m <= l
    ensures m > 0 ==> Count(lens, m) > 0
    ensures forall k :: m < k <= l ==> Count(lens, k) == 0
  {
    if l == 0 then 0 else if Count(lens, l) != 0 then l else MaxUsed(lens, l - 1)
  }

  function MinUsed(lens: seq<nat>, l: nat, max: nat): (m: nat)
    requires 0 < l <= max
    ensures l <= m <= max
    ensures m < max ==> Count(lens, m) > 0
    ensures forall k :: l <= k < m ==> Count(lens, k) == 0
    decreases max - l
  {
    if l < max && Count(lens, l) == 0 then MinUsed(lens, l + 1, max) else l
  }

  /** The root size actually used for a request of `bits`: forced between the shortest
      and the longest code. */
  function RootBits(lens: seq<nat>, bits: nat): nat {
    var max := MaxUsed(lens, MAXBITS);
    if max == 0 then 1
    else Max(Min(bits, max), MinUsed(lens, 1, max))
  }

  predicate NoSymbols(lens: seq<nat>) {
    MaxUsed(lens, MAXBITS) == 0
  }

  /** The lengths inflate_table turns away. */
  ghost predicate Rejected(kind: CodeType, lens: seq<nat>) {
    !NoSymbols(lens) &&
    (OverSubscribed(lens) ||
     (!Complete(lens) && (kind == CODES || MaxUsed(lens, MAXBITS) != 1)))
  }

  const ENOUGH_LENS: nat := 852
  const ENOUGH_DISTS: nat := 592

  predicate TooBig(kind: CodeType, size: nat) {
    (kind == LENS && size > ENOUGH_LENS) || (kind == DISTS && size > ENOUGH_DISTS)
  }

  /** The table space a caller provides. */
  ghost function Provided(kind: CodeType, lens: seq<nat>, bits: nat): nat {
    match kind
    case LENS => ENOUGH_LENS
    case DISTS => ENOUGH_DISTS
    case CODES => Max(2, TableSize(lens, RootBits(lens, bits)))
  }
}
