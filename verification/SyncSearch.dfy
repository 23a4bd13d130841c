/** syncsearch: looking for the four bytes 00 00 FF FF, in any number of pieces. */
module SyncSearch {
  import opened BitReader

  const PATTERN: seq<Byte> := [0, 0, 0xff, 0xff]

  /** The bytes seen end with the first `g` bytes of the pattern. */
  predicate Ends(seen: seq<Byte>, g: nat)
    requires g <= 4
  {
    g <= |seen| && seen[|seen| - g..] == PATTERN[..g]
  }

  /** `g` is the length of the longest beginning of the pattern that the bytes seen end with. */
  ghost predicate IsBorder(seen: seq<Byte>, g: nat) {
    g <= 4 && Ends(seen, g) && forall h: nat :: g < h <= 4 ==> !Ends(seen, h)
  }

  lemma EndsOneMore(seen: seq<Byte>, b: Byte, g: nat)
    requires g < 4
    ensures Ends(seen + [b], g + 1) <==> Ends(seen, g) && b == PATTERN[g]
  {
    var t := seen + [b];
    if g <= |seen| {
      assert t[|t| - (g + 1)..] == seen[|seen| - g..] + [b];
      assert PATTERN[..g + 1] == PATTERN[..g] + [PATTERN[g]];
      if Ends(t, g + 1) {
        assert (seen[|seen| - g..] + [b])[..g] == (PATTERN[..g] + [PATTERN[g]])[..g];
        assert (seen[|seen| - g..] + [b])[g] == (PATTERN[..g] + [PATTERN[g]])[g];
      }
    }
  }

  /** What the last bytes are tells which shorter beginnings of the pattern they end with. */
  lemma Shorter(seen: seq<Byte>, g: nat, h: nat)
    requires g < 4 && h <= g && Ends(seen, g)
    ensures Ends(seen, h) <==> PATTERN[g - h..g] == PATTERN[..h]
  {
    assert seen[|seen| - h..] == seen[|seen| - g..][g - h..];
    assert PATTERN[..g][g - h..] == PATTERN[g - h..g];
  }

  /** One more byte: the three cases of the loop. */
  lemma NextBorder(seen: seq<Byte>, g: nat, b: Byte)
    requires g < 4 && IsBorder(seen, g)
    ensures IsBorder(seen + [b], OneOn(g, b))
  {
    hide Ends;
    assert Ends(seen + [b], 0) by { EndsNone(seen + [b]); }
    Grows(seen, g, b, 0);
    Grows(seen, g, b, 1);
    Grows(seen, g, b, 2);
    Grows(seen, g, b, 3);
  }

  /** The next length of what is found. */
  function OneOn(g: nat, b: Byte): nat
    requires g < 4
  {
    if b == (if g < 2 then 0 else 0xff) then g + 1 else if b != 0 then 0 else 4 - g
  }

  lemma EndsNone(t: seq<Byte>)
    ensures Ends(t, 0)
  {
    assert t[|t|..] == PATTERN[..0];
  }

  /** The bytes end with one more byte of the pattern if they ended with the bytes before it. */
  lemma Grows(seen: seq<Byte>, g: nat, b: Byte, h: nat)
    requires g < 4 && IsBorder(seen, g) && h <= 3
    ensures Ends(seen + [b], h + 1) <==> Overlaps(g, h) && b == (if h < 2 then 0 else 0xff)
  {
    hide *;
    EndsOneMore(seen, b, h);
    EndsIff(seen, g, h);
    PatternIs(h);
  }

  lemma PatternIs(h: nat)
    requires h <= 3
    ensures PATTERN[h] == if h < 2 then 0 else 0xff
  {
  }

  /** Which other beginnings of the pattern they end with. */
  lemma EndsIff(seen: seq<Byte>, g: nat, h: nat)
    requires g < 4 && IsBorder(seen, g) && h <= 3
    ensures Ends(seen, h) <==> Overlaps(g, h)
  {
    hide Ends;
    if h <= g {
      Shorter(seen, g, h);
      Beginnings(g, h);
    }
  }

  /** The first `g` bytes of the pattern end with its first `h` bytes. */
  predicate Overlaps(g: nat, h: nat) {
    h == 0 || h == g || (h == 1 && g == 2)
  }

  /** How the pattern overlaps itself. */
  lemma Beginnings(g: nat, h: nat)
    requires h <= g < 4
    ensures PATTERN[g - h..g] == PATTERN[..h] <==> Overlaps(g, h)
  {
    var p, q := PATTERN[g - h..g], PATTERN[..h];
    if h == 1 {
      assert p[0] == PATTERN[g - 1] && q[0] == 0;
    } else if h == 2 {
      assert p[1] == PATTERN[g - 1] && q[1] == 0;
    } else {
      assert h == 0 || h == g;
    }
  }

  /** The pattern does not occur, or occurs first with its end at `n`. */
  ghost predicate NotFound(s: seq<Byte>) {
    forall m: nat :: m <= |s| ==> !Ends(s[..m], 4)
  }

  ghost predicate FoundAt(s: seq<Byte>, n: nat) {
    n <= |s| && Ends(s[..n], 4) && forall m: nat :: m < n ==> !Ends(s[..m], 4)
  }

  /** There is one answer, so it does not matter how the bytes came in. */
  lemma OneAnswer(s: seq<Byte>, t: seq<Byte>, n: nat, m: nat)
    requires FoundAt(s, n) && s <= t
    ensures !NotFound(t) && (FoundAt(t, m) ==> m == n)
  {
    FoundStays(s, t, n);
  }

  lemma StillNotFound(s: seq<Byte>, b: Byte)
    requires NotFound(s)
    ensures !Ends(s + [b], 4) ==> NotFound(s + [b])
    ensures Ends(s + [b], 4) ==> FoundAt(s + [b], |s| + 1)
  {
    var t := s + [b];
    assert t[..|t|] == t;
    forall m: nat | m <= |s|
      ensures !Ends(t[..m], 4)
    {
      assert t[..m] == s[..m];
    }
  }

  /** Finding is not undone by what comes after. */
  lemma FoundStays(s: seq<Byte>, t: seq<Byte>, n: nat)
    requires FoundAt(s, n) && s <= t
    ensures FoundAt(t, n)
  {
    assert t[..n] == s[..n];
    forall m: nat | m < n
      ensures !Ends(t[..m], 4)
    {
      assert t[..m] == s[..m];
    }
  }

  /** What is found, byte by byte. */
  lemma FoundMeans(s: seq<Byte>, n: nat)
    requires FoundAt(s, n)
    ensures 4 <= n <= |s| && s[n - 4..n] == [0, 0, 0xff, 0xff]
  {
    assert s[..n][n - 4..] == s[n - 4..n];
  }

  /** syncsearch.  `seen` are the bytes of the calls before. */
  method Search(have: nat, buf: seq<Byte>, ghost seen: seq<Byte>) returns (got: nat, next: nat)
    requires NotFound(seen) && IsBorder(seen, have)
    ensures next <= |buf| && IsBorder(seen + buf[..next], got)
    ensures got == 4 ==> FoundAt(seen + buf, |seen| + next)
    ensures got == 4 ==>
              && 4 <= |seen| + next
              && (seen + buf)[|seen| + next - 4..|seen| + next] == [0, 0, 0xff, 0xff]
    ensures got < 4 ==> next == |buf| && NotFound(seen + buf)
  {
    hide *;
    got, next := have, 0;
    Halves(seen, buf, 0);
    BorderMeans(seen, have);
    while next < |buf| && got < 4
      invariant next <= |buf| && got <= 4 && IsBorder(seen + buf[..next], got)
      invariant got < 4 ==> NotFound(seen + buf[..next])
      invariant got == 4 ==> FoundAt(seen + buf[..next], |seen| + next)
    {
      OneMoreByte(seen + buf[..next], got, buf[next]);
      Halves(seen, buf, next);
      if buf[next] == (if got < 2 then 0 else 0xff) {
        got := got + 1;
      } else if buf[next] != 0 {
        got := 0;
      } else {
        got := 4 - got;
      }
      next := next + 1;
    }
    Halves(seen, buf, next);
    if got == 4 {
      FoundStays(seen + buf[..next], seen + buf, |seen| + next);
      FoundMeans(seen + buf, |seen| + next);
    }
  }

  lemma Halves(seen: seq<Byte>, buf: seq<Byte>, n: nat)
    requires n <= |buf|
    ensures seen + buf[..n] <= seen + buf && (n == |buf| ==> seen + buf[..n] == seen + buf)
    ensures n < |buf| ==> seen + buf[..n + 1] == seen + buf[..n] + [buf[n]]
    ensures n == 0 ==> seen + buf[..n] == seen
  {
  }

  /** What a byte does to the answer. */
  lemma OneMoreByte(s: seq<Byte>, g: nat, b: Byte)
    requires g < 4 && IsBorder(s, g) && NotFound(s)
    ensures var g' := if b == (if g < 2 then 0 else 0xff) then g + 1 else if b != 0 then 0 else 4 - g;
            && IsBorder(s + [b], g') && g' <= 4
            && (g' < 4 ==> NotFound(s + [b])) && (g' == 4 ==> FoundAt(s + [b], |s| + 1))
  {
    hide IsBorder, Ends, NotFound, FoundAt;
    NextBorder(s, g, b);
    StillNotFound(s, b);
    BorderMeans(s + [b], OneOn(g, b));
  }

  lemma BorderMeans(seen: seq<Byte>, g: nat)
    requires IsBorder(seen, g)
    ensures g <= 4 && (g == 4 <==> Ends(seen, 4)) && (NotFound(seen) ==> g < 4)
  {
    assert seen[..|seen|] == seen;
  }
}
