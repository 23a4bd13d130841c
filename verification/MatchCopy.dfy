/** Copying matches: the MATCH state of inflate and the four cases of inflate_fast. */
module MatchCopy {
  import opened BitReader
  import opened DeflateFormat
  import opened InflateWindow

  // ----- Matches in parts ---------------------------------------------------------------------

  /** A match can be copied in parts. */
  lemma {:induction false} CopyBackSplit(h: seq<Byte>, dist: nat, a: nat, b: nat)
    requires 0 < dist <= |h|
    ensures CopyBack(CopyBack(h, dist, a), dist, b) == CopyBack(h, dist, a + b)
  {
    if b > 0 {
      CopyBackSplit(h, dist, a, b - 1);
    }
  }

  /** A part no longer than the distance repeats bytes that are already there. */
  lemma {:induction false} CopyBackPlain(h: seq<Byte>, dist: nat, n: nat)
    requires 0 < dist <= |h| && n <= dist
    ensures CopyBack(h, dist, n) == h + h[|h| - dist..|h| - dist + n]
  {
    if n > 0 {
      CopyBackPlain(h, dist, n - 1);
      var g := h + h[|h| - dist..|h| - dist + (n - 1)];
      assert g[|g| - dist] == h[|h| - dist + (n - 1)];
      assert h[|h| - dist..|h| - dist + n] == h[|h| - dist..|h| - dist + (n - 1)] + [h[|h| - dist + (n - 1)]];
    }
  }

  /** What lies before the bytes copied from does not matter. */
  lemma {:induction false} CopyBackSuffix(p: seq<Byte>, h: seq<Byte>, dist: nat, n: nat)
    requires 0 < dist <= |h|
    ensures CopyBack(p + h, dist, n) == p + CopyBack(h, dist, n)
  {
    hide *;
    if n == 0 {
      CopyBackNext(h, dist, 0);
      CopyBackNext(p + h, dist, 0);
    } else {
      CopyBackSuffix(p, h, dist, n - 1);
      CopyBackNext(h, dist, n - 1);
      CopyBackNext(p + h, dist, n - 1);
      var g := CopyBack(h, dist, n - 1);
      var x := g[|g| - dist];
      assert (p + g)[|p + g| - dist] == x;
      assert (p + g) + [x] == p + (g + [x]);
    }
  }

  lemma CopyBackNext(h: seq<Byte>, dist: nat, n: nat)
    requires 0 < dist <= |h|
    ensures var g := CopyBack(h, dist, n);
            CopyBack(h, dist, n + 1) == g + [g[|g| - dist]]
    ensures CopyBack(h, dist, 0) == h
  {
  }

  // ----- The copying loops -----------------------------------------------------------------------

  /** The buffer `o` starts with `h` and a match of length `n` after it. */
  ghost predicate Copied(o: seq<Byte>, h: seq<Byte>, dist: nat, n: nat) {
    && 0 < dist <= |h| && |h| + n <= |o|
    && o[..|h| + n] == CopyBack(h, dist, n)
  }

  lemma NoneCopied(o: seq<Byte>, put: nat, dist: nat)
    requires 0 < dist <= put <= |o|
    ensures Copied(o, o[..put], dist, 0)
  {
  }

  /** One byte of such a copy. */
  method PutNext(out: array<Byte>, dist: nat, put: nat, k: nat, ghost h: seq<Byte>)
    requires put + k < out.Length && |h| == put && Copied(out[..], h, dist, k)
    modifies out
    ensures Copied(out[..], h, dist, k + 1)
  {
    CopyBackNext(h, dist, k);
    ghost var g := out[..][..put + k];
    hide CopyBack;
    out[put + k] := out[put + k - dist];
    assert out[..][..put + (k + 1)] == g + [g[|g| - dist]];
  }

  /** Copies `n` bytes, each from `dist` back in the same buffer. */
  method CopyWithin(out: array<Byte>, put: nat, dist: nat, n: nat)
    requires put + n <= out.Length && 0 < dist <= put
    modifies out
    ensures Copied(out[..], old(out[..][..put]), dist, n)
  {
    ghost var h := out[..][..put];
    NoneCopied(out[..], put, dist);
    hide Copied;
    var k := 0;
    while k < n
      invariant k <= n && Copied(out[..], h, dist, k)
    {
      PutNext(out, dist, put, k, h);
      k := k + 1;
    }
  }

  /** The same, three at a time. */
  method CopyWithinByThrees(out: array<Byte>, put: nat, dist: nat, n: nat)
    requires put + n <= out.Length && 0 < dist <= put
    modifies out
    ensures Copied(out[..], old(out[..][..put]), dist, n)
  {
    ghost var h := out[..][..put];
    NoneCopied(out[..], put, dist);
    hide Copied;
    var k, len: nat := 0, n;
    while len > 2
      invariant k + len == n && Copied(out[..], h, dist, k)
    {
      PutNext(out, dist, put, k, h);
      PutNext(out, dist, put, k + 1, h);
      PutNext(out, dist, put, k + 2, h);
      k := k + 3;
      len := len - 3;
    }
    if len != 0 {
      PutNext(out, dist, put, k, h);
      if len > 1 {
        PutNext(out, dist, put, k + 1, h);
      }
    }
  }

  /** Copies `n` bytes from another buffer. */
  method CopyFrom(out: array<Byte>, put: nat, src: array<Byte>, from: nat, n: nat)
    requires put + n <= out.Length && from + n <= src.Length && src != out
    modifies out
    ensures out[..][..put + n] == old(out[..][..put]) + src[from..from + n]
  {
    var k := 0;
    while k < n
      invariant k <= n
      invariant out[..][..put + k] == old(out[..][..put]) + src[from..from + k]
    {
      ghost var o := out[..][..put + k];
      out[put + k] := src[from + k];
      k := k + 1;
      assert out[..][..put + k] == o + [src[from + k - 1]];
    }
  }

  // ----- Reading the window -------------------------------------------------------------------

  /** The history `h` is what the circular buffer `d` holds in order. */
  ghost predicate Holds(d: seq<Byte>, wnext: nat, h: seq<Byte>) {
    && Indices(|d|, wnext, |h|) && h == InOrder(d, wnext, |h|)
  }

  /** Where the bytes from `op` before the end of the history on are, and how many lie
      together there. */
  function RunStart(wsize: nat, wnext: nat, op: nat): int {
    if wnext < op then wsize + wnext - op else wnext - op
  }

  function RunLength(wnext: nat, op: nat): nat {
    if wnext < op then op - wnext else op
  }

  lemma RunIs(d: seq<Byte>, wnext: nat, h: seq<Byte>, op: nat, n: nat)
    requires Holds(d, wnext, h) && 0 < op <= |h| && n <= RunLength(wnext, op)
    ensures var from := RunStart(|d|, wnext, op);
            && 0 <= from && from + n <= |d| && n <= op
            && d[from..from + n] == h[|h| - op..|h| - op + n]
  {
    InOrderAt(d, wnext, |h|);
    hide InOrder;
  }

  /** The history, the output of this call so far, and what a match of length `n` makes of
      both. */
  ghost predicate Extends(h: seq<Byte>, o: seq<Byte>, dist: nat, n: nat, g: seq<Byte>) {
    0 < dist <= |h| + |o| && CopyBack(h + o, dist, n) == h + g
  }

  /** A part of a match that comes from the window. */
  lemma WindowPart(d: seq<Byte>, wnext: nat, h: seq<Byte>, o: seq<Byte>, dist: nat, a: nat, g: seq<Byte>, n: nat)
    requires Holds(d, wnext, h) && Extends(h, o, dist, a, g) && |g| < dist <= |h| + |g|
    requires n <= RunLength(wnext, dist - |g|)
    ensures var from := RunStart(|d|, wnext, dist - |g|);
            && 0 <= from && from + n <= |d|
            && Extends(h, o, dist, a + n, g + d[from..from + n])
  {
    hide CopyBack, InOrder, Holds, RunStart;
    var op := dist - |g|;
    RunIs(d, wnext, h, op, n);
    var from := RunStart(|d|, wnext, op);
    PlainPart(h, o, dist, a, g, n, d[from..from + n]);
  }

  lemma PlainPart(h: seq<Byte>, o: seq<Byte>, dist: nat, a: nat, g: seq<Byte>, n: nat, x: seq<Byte>)
    requires Extends(h, o, dist, a, g) && |g| < dist <= |h| + |g| && n <= dist - |g|
    requires x == h[|h| - (dist - |g|)..|h| - (dist - |g|) + n]
    ensures Extends(h, o, dist, a + n, g + x)
  {
    hide CopyBack;
    CopyBackSplit(h + o, dist, a, n);
    CopyBackPlain(h + g, dist, n);
    SliceOfFirst(h, g, |h| - (dist - |g|), n);
    assert (h + g) + x == h + (g + x);
  }

  lemma SliceOfFirst(h: seq<Byte>, o: seq<Byte>, i: nat, n: nat)
    requires i + n <= |h|
    ensures (h + o)[i..i + n] == h[i..i + n]
  {
  }

  /** The rest of a match, once it reaches back no further than the output of this call. */
  lemma OutputPart(h: seq<Byte>, o: seq<Byte>, dist: nat, a: nat, g: seq<Byte>, n: nat)
    requires Extends(h, o, dist, a, g) && dist <= |g|
    ensures Extends(h, o, dist, a + n, CopyBack(g, dist, n))
  {
    CopyBackSplit(h + o, dist, a, n);
    CopyBackSuffix(h, g, dist, n);
  }

  lemma NothingYet(h: seq<Byte>, o: seq<Byte>, dist: nat)
    requires 0 < dist <= |h| + |o|
    ensures Extends(h, o, dist, 0, o)
  {
  }

  // ----- The MATCH state of inflate ------------------------------------------------------------

  /** One round of the MATCH state: copies as much of the match as lies together in the
      window or the output, and as fits the room left. */
  method MatchStep(w: Window, out: array<Byte>, put: nat, length: nat, offset: nat)
    returns (bad: bool, put': nat, length': nat)
    requires w.Shape() && out != w.data && put <= out.Length && length > 0 && offset > 0
    modifies out
    ensures bad <==> put < out.Length && offset > w.whave + put
    ensures put <= put' <= out.Length && put' - put == length - length' && length' <= length
    ensures put < put' <==> !bad && put < out.Length
    ensures offset <= w.whave + put ==>
              Extends(w.History(), old(out[..][..put]), offset, put' - put, out[..][..put'])
    ensures put' == put ==> out[..] == old(out[..])
  {
    hide *;
    bad, put', length' := false, put, length;
    ghost var h, o := w.History(), out[..][..put];
    HistoryHolds(w);
    if offset <= w.whave + put {
      NothingYet(h, o, offset);
    }
    var left := out.Length - put;
    if left == 0 {
      return;
    }
    var copy: nat := put;
    if offset > copy {
      copy := offset - copy;
      if copy > w.whave {
        bad := true;
        return;
      }
      copy := MatchFromWindow(w, out, put, length, copy, h, o);
    } else {
      copy := length;
      if copy > left {
        copy := left;
      }
      OutputPart(h, o, offset, 0, o, copy);
      CopyWithin(out, put, offset, copy);
      CopiedIs(out[..], o, offset, copy);
    }
    put' := put + copy;
    length' := length - copy;
  }

  /** ... from the window, `back` bytes before its end. */
  method MatchFromWindow(w: Window, out: array<Byte>, put: nat, length: nat, back: nat,
                         ghost h: seq<Byte>, ghost o: seq<Byte>)
    returns (copy: nat)
    requires w.Shape() && out != w.data && put < out.Length && length > 0 && o == out[..][..put]
    requires 0 < back <= |h| && w.wsize == w.data.Length && Holds(w.data[..], w.wnext, h)
    requires Extends(h, o, back + put, 0, o)
    modifies out
    ensures 0 < copy <= length && put + copy <= out.Length
    ensures Extends(h, o, back + put, copy, out[..][..put + copy])
  {
    hide CopyBack, InOrder, Holds, Extends;
    var from;
    copy := back;
    if copy > w.wnext {
      copy := copy - w.wnext;
      from := w.wsize - copy;
    } else {
      from := w.wnext - copy;
    }
    if copy > length {
      copy := length;
    }
    if copy > out.Length - put {
      copy := out.Length - put;
    }
    WindowPart(w.data[..], w.wnext, h, o, back + put, 0, o, copy);
    CopyFrom(out, put, w.data, from, copy);
  }

  lemma CopiedIs(all: seq<Byte>, o: seq<Byte>, dist: nat, n: nat)
    requires Copied(all, o, dist, n)
    ensures |o| + n <= |all| && all[..|o| + n] == CopyBack(o, dist, n)
  {
  }

  lemma HistoryHolds(w: Window)
    requires w.Shape()
    ensures |w.History()| == w.whave
    ensures w.wsize > 0 ==> w.wsize == w.data.Length && Holds(w.data[..], w.wnext, w.History())
    ensures w.wnext <= w.whave <= w.wsize
  {
  }

  // ----- The copy of inflate_fast -----------------------------------------------------------------

  /** The part of a match that lies in the window, in the three ways inflate_fast tells
      apart; then whatever is left from the output. */
  method CopyFromWindow(w: Window, out: array<Byte>, put: nat, length: nat, dist: nat)
    requires w.Shape() && out != w.data && length > 0 && put + length <= out.Length
    requires put < dist <= w.whave + put
    modifies out
    ensures Extends(w.History(), old(out[..][..put]), dist, length, out[..][..put + length])
  {
    ghost var h, o := w.History(), out[..][..put];
    HistoryHolds(w);
    NothingYet(h, o, dist);
    hide *;
    RunFacts(w.wsize, w.wnext);
    var op := dist - put;
    if w.wnext == 0 {
      CopyTail(w, out, put, put, w.wsize - op, op, length, dist, h, o);
    } else if w.wnext < op {
      CopyAround(w, out, put, length, dist, h, o);
    } else {
      CopyTail(w, out, put, put, w.wnext - op, op, length, dist, h, o);
    }
  }

  /** ... wrapping around: first from the end of the window, then from its start. */
  method CopyAround(w: Window, out: array<Byte>, put: nat, length: nat, dist: nat,
                    ghost h: seq<Byte>, ghost o: seq<Byte>)
    requires w.Shape() && out != w.data && length > 0 && put + length <= out.Length
    requires w.wsize == w.data.Length && Holds(w.data[..], w.wnext, h) && |h| == w.whave
    requires o == out[..][..put] && Extends(h, o, dist, 0, o)
    requires put < dist <= w.whave + put && 0 < w.wnext < dist - put && w.whave <= w.wsize
    modifies out
    ensures Extends(h, o, dist, length, out[..][..put + length])
  {
    hide *;
    RunFacts(w.wsize, w.wnext);
    var op := dist - put;
    var from := w.wsize + w.wnext - op;
    op := op - w.wnext;
    if op < length {
      CopyPart(w, out, put, put, from, op, dist, h, o);
      CopyTail(w, out, put, put + op, 0, w.wnext, length - op, dist, h, o);
    } else {
      CopyTail(w, out, put, put, from, op, length, dist, h, o);
    }
  }

  lemma RunFacts(wsize: nat, wnext: nat)
    ensures forall op: nat :: RunStart(wsize, wnext, op) == if wnext < op then wsize + wnext - op else wnext - op
    ensures RunStart(wsize, wnext, wnext) == 0 && RunLength(wnext, wnext) == wnext
    ensures forall op: nat :: RunLength(wnext, op) == if wnext < op then op - wnext else op
  {
  }

  /** `n` bytes of the match from the window. */
  method CopyPart(w: Window, out: array<Byte>, ghost put: nat, at: nat, from: nat, n: nat, ghost dist: nat,
                  ghost h: seq<Byte>, ghost o: seq<Byte>)
    requires w.Shape() && out != w.data && put <= at && at + n <= out.Length
    requires w.wsize == w.data.Length && Holds(w.data[..], w.wnext, h)
    requires Extends(h, o, dist, at - put, out[..][..at])
    requires at < dist <= |h| + at && from == RunStart(w.wsize, w.wnext, dist - at)
    requires n <= RunLength(w.wnext, dist - at)
    modifies out
    ensures Extends(h, o, dist, at + n - put, out[..][..at + n])
  {
    hide *;
    WindowPart(w.data[..], w.wnext, h, o, dist, at - put, out[..][..at], n);
    CopyFrom(out, at, w.data, from, n);
  }

  /** Some from the window, if the match goes on after that the rest from the output. */
  method CopyTail(w: Window, out: array<Byte>, put: nat, at: nat, from: nat, op: nat, len: nat, dist: nat,
                  ghost h: seq<Byte>, ghost o: seq<Byte>)
    requires w.Shape() && out != w.data && put <= at && at + len <= out.Length
    requires w.wsize == w.data.Length && Holds(w.data[..], w.wnext, h)
    requires Extends(h, o, dist, at - put, out[..][..at])
    requires at < dist <= |h| + at && from == RunStart(w.wsize, w.wnext, dist - at)
    requires op == RunLength(w.wnext, dist - at) && (op < len ==> op == dist - at)
    modifies out
    ensures Extends(h, o, dist, at + len - put, out[..][..at + len])
  {
    hide *;
    if op < len {
      CopyPart(w, out, put, at, from, op, dist, h, o);
      ghost var f := out[..][..at + op];
      OutputPart(h, o, dist, at + op - put, f, len - op);
      CopyWithinByThrees(out, at + op, dist, len - op);
      CopiedIs(out[..], f, dist, len - op);
    } else {
      CopyPart(w, out, put, at, from, len, dist, h, o);
    }
  }

  /** Copies a whole match, which the caller has found not to reach too far back. */
  method CopyFast(w: Window, out: array<Byte>, put: nat, length: nat, dist: nat)
    requires w.Shape() && out != w.data && length >= 3 && put + length <= out.Length
    requires 0 < dist <= w.whave + put
    modifies out
    ensures Extends(w.History(), old(out[..][..put]), dist, length, out[..][..put + length])
  {
    if dist > put {
      CopyFromWindow(w, out, put, length, dist);
    } else {
      ghost var o := out[..][..put];
      NothingYet(w.History(), o, dist);
      OutputPart(w.History(), o, dist, 0, o, length);
      hide InOrder, CopyBack, Extends, Holds, Window.History, Copied;
      CopyWithinByThrees(out, put, dist, length);
      CopiedIs(out[..], o, dist, length);
    }
  }
}
