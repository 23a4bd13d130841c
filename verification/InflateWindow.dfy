/** The sliding window of inflate: a circular buffer of the last `wsize` bytes output. */
module InflateWindow {
  import opened Arith
  import opened BitReader

  /** The last `n` elements of `s`, or all of them. */
  function Last(s: seq<Byte>, n: nat): (r: seq<Byte>)
    ensures |r| == Min(|s|, n)
  {
    if |s| <= n then s else s[|s| - n..]
  }

  /** Keeping the last `n` bytes at every stage keeps the last `n` bytes of the whole. */
  lemma LastOfLast(s: seq<Byte>, t: seq<Byte>, n: nat)
    ensures Last(Last(s, n) + t, n) == Last(s + t, n)
  {
  }

  /** The buffer read in order of age: as inflateGetDictionary does it. */
  function InOrder(d: seq<Byte>, wnext: nat, whave: nat): seq<Byte>
    requires wnext <= whave <= |d|
  {
    d[wnext..whave] + d[..wnext]
  }

  /** A memcpy of `s` to offset `at`. */
  function Overwrite(d: seq<Byte>, at: nat, s: seq<Byte>): (r: seq<Byte>)
    requires at + |s| <= |d|
    ensures |r| == |d|
  {
    d[..at] + s + d[at + |s|..]
  }

  ghost predicate Indices(wsize: nat, wnext: nat, whave: nat) {
    && wnext <= whave <= wsize
    && (whave < wsize ==> wnext == whave)
    && (wsize > 0 ==> wnext < wsize)
  }

  lemma OverwriteAt(d: seq<Byte>, at: nat, s: seq<Byte>)
    requires at + |s| <= |d|
    ensures forall i: nat :: i < |d| ==>
              Overwrite(d, at, s)[i] == if at <= i < at + |s| then s[i - at] else d[i]
  {
  }

  lemma InOrderAt(d: seq<Byte>, wnext: nat, whave: nat)
    requires wnext <= whave <= |d|
    ensures |InOrder(d, wnext, whave)| == whave
    ensures forall i: nat :: i < whave ==>
              InOrder(d, wnext, whave)[i] == if i < whave - wnext then d[wnext + i] else d[i - (whave - wnext)]
  {
  }

  lemma LastAt(h: seq<Byte>, s: seq<Byte>, n: nat)
    ensures var skip := Max(|h| + |s| - n, 0);
            && |Last(h + s, n)| == |h| + |s| - skip
            && forall i: nat :: i < |h| + |s| - skip ==>
                 Last(h + s, n)[i] == if i + skip < |h| then h[i + skip] else s[i + skip - |h|]
  {
  }

  /** More bytes than fit: the last of them fill the buffer. */
  lemma StoredWhole(d: seq<Byte>, wnext: nat, whave: nat, s: seq<Byte>)
    requires Indices(|d|, wnext, whave) && 0 < |d| <= |s|
    ensures Indices(|d|, 0, |d|)
    ensures InOrder(Overwrite(d, 0, s[|s| - |d|..]), 0, |d|) == Last(InOrder(d, wnext, whave) + s, |d|)
  {
    LastAt(InOrder(d, wnext, whave), s, |d|);
    assert Overwrite(d, 0, s[|s| - |d|..]) == s[|s| - |d|..];
  }

  /** Bytes that fit before the end of the buffer. */
  lemma StoredFlat(d: seq<Byte>, wnext: nat, whave: nat, s: seq<Byte>)
    requires Indices(|d|, wnext, whave) && |d| > 0 && |s| < |d| && wnext + |s| <= |d|
    ensures var n := if wnext + |s| == |d| then 0 else wnext + |s|;
            var h := if whave < |d| then whave + |s| else whave;
            && Indices(|d|, n, h)
            && InOrder(Overwrite(d, wnext, s), n, h) == Last(InOrder(d, wnext, whave) + s, |d|)
  {
    var n := if wnext + |s| == |d| then 0 else wnext + |s|;
    var h := if whave < |d| then whave + |s| else whave;
    OverwriteAt(d, wnext, s);
    InOrderAt(d, wnext, whave);
    InOrderAt(Overwrite(d, wnext, s), n, h);
    LastAt(InOrder(d, wnext, whave), s, |d|);
    hide Overwrite, InOrder, Last;
    assert |InOrder(Overwrite(d, wnext, s), n, h)| == |Last(InOrder(d, wnext, whave) + s, |d|)|;
  }

  /** Bytes that wrap around: the first `k` end the buffer, the rest start it. */
  lemma StoredAround(d: seq<Byte>, wnext: nat, whave: nat, s: seq<Byte>, k: nat)
    requires Indices(|d|, wnext, whave) && |s| < |d| && k == |d| - wnext < |s|
    ensures Indices(|d|, |s| - k, |d|)
    ensures InOrder(Overwrite(Overwrite(d, wnext, s[..k]), 0, s[k..]), |s| - k, |d|)
         == Last(InOrder(d, wnext, whave) + s, |d|)
  {
    var e := Overwrite(d, wnext, s[..k]);
    OverwriteAt(d, wnext, s[..k]);
    OverwriteAt(e, 0, s[k..]);
    InOrderAt(d, wnext, whave);
    InOrderAt(Overwrite(e, 0, s[k..]), |s| - k, |d|);
    LastAt(InOrder(d, wnext, whave), s, |d|);
    hide Overwrite, InOrder, Last;
    assert |InOrder(Overwrite(e, 0, s[k..]), |s| - k, |d|)| == |Last(InOrder(d, wnext, whave) + s, |d|)|;
  }

  class Window {
    const wbits: nat
    /** The allocated space; empty until the first update. */
    var data: array<Byte>
    var wsize: nat
    var whave: nat
    var wnext: nat
    /** Everything ever handed to Update. */
    ghost var supplied: seq<Byte>

    constructor (wbits: nat)
      ensures Valid() && supplied == [] && History() == [] && this.wbits == wbits
      ensures fresh(data) && whave == 0
    {
      this.wbits := wbits;
      data := new Byte[0];
      wsize, whave, wnext := 0, 0, 0;
      supplied := [];
    }

    ghost predicate Shape()
      reads this
    {
      && Indices(wsize, wnext, whave)
      && (data.Length == 0 || data.Length == Pow2(wbits))
      && (wsize == 0 || (wsize == data.Length == Pow2(wbits)))
    }

    /** The buffer holds exactly the last bytes supplied. */
    ghost predicate Valid()
      reads this, data
    {
      && Shape()
      && (wsize == 0 ==> supplied == [])
      && History() == Last(supplied, wsize)
    }

    function History(): seq<Byte>
      requires Shape()
      reads this, data
    {
      if wsize == 0 then [] else InOrder(data[..], wnext, whave)
    }

    /** memcpy into the window. */
    method Store(at: nat, out: array<Byte>, from: nat, n: nat)
      requires at + n <= data.Length && from + n <= out.Length && out != data
      modifies data
      ensures data[..] == Overwrite(old(data[..]), at, out[from..from + n])
    {
      ghost var was := data[..];
      forall i | 0 <= i < n {
        data[at + i] := out[from + i];
      }
      ghost var s := out[from..from + n];
      assert forall i: nat :: i < |was| ==>
          data[i] == if i < at then was[i] else if i < at + n then s[i - at] else was[i];
    }

    /** updatewindow: takes in the `copy` bytes of `out` before `end`.  Returns 1 if there
        is no memory for the window. */
    method Update(out: array<Byte>, end: nat, copy: nat, memory: bool) returns (ret: int)
      requires Valid() && out != data && copy <= end <= out.Length
      modifies this, data
      ensures Valid() && (data == old(data) || fresh(data))
      ensures ret == if old(data.Length) == 0 && !memory then 1 else 0
      ensures ret == 1 ==> supplied == old(supplied) && wsize == old(wsize)
      ensures ret == 0 ==> supplied == old(supplied) + out[end - copy..end] && wsize == Pow2(wbits)
    {
      if data.Length == 0 {
        if !memory {
          return 1;
        }
        data := new Byte[Pow2(wbits)];
      }
      if wsize == 0 {
        wsize := Pow2(wbits);
        wnext := 0;
        whave := 0;
      }
      ret := 0;
      LastOfLast(supplied, out[end - copy..end], wsize);
      Circulate(out, end, copy);
      supplied := supplied + out[end - copy..end];
    }

    /** Copies the last `wsize` or fewer of the bytes into the circle. */
    method Circulate(out: array<Byte>, end: nat, copy: nat)
      requires Shape() && wsize > 0 && out != data && copy <= end <= out.Length
      modifies this`whave, this`wnext, data
      ensures Shape() && InOrder(data[..], wnext, whave)
                      == Last(old(InOrder(data[..], wnext, whave)) + out[end - copy..end], wsize)
    {
      hide Overwrite, InOrder, Last;
      ghost var d, s := data[..], out[end - copy..end];
      if copy >= wsize {
        StoredWhole(d, wnext, whave, s);
        Store(0, out, end - wsize, wsize);
        assert s[|s| - wsize..] == out[end - wsize..end - wsize + wsize];
        wnext := 0;
        whave := wsize;
      } else {
        var dist := wsize - wnext;
        if dist > copy {
          dist := copy;
        }
        Store(wnext, out, end - copy, dist);
        assert s[..dist] == out[end - copy..end - copy + dist];
        var rest := copy - dist;
        if rest != 0 {
          StoredAround(d, wnext, whave, s, dist);
          Store(0, out, end - rest, rest);
          assert s[dist..] == out[end - rest..end];
          wnext := rest;
          whave := wsize;
        } else {
          StoredFlat(d, wnext, whave, s);
          assert s[..dist] == s;
          wnext := wnext + dist;
          if wnext == wsize {
            wnext := 0;
          }
          if whave < wsize {
            whave := whave + dist;
          }
        }
      }
    }

    /** inflateGetDictionary: the window contents, oldest byte first. */
    method GetDictionary(dictionary: array<Byte>)
      requires Valid() && dictionary != data && dictionary.Length >= whave
      modifies dictionary
      ensures dictionary[..whave] == Last(supplied, wsize)
    {
      if whave != 0 {
        forall i | 0 <= i < whave - wnext {
          dictionary[i] := data[wnext + i];
        }
        forall i | 0 <= i < wnext {
          dictionary[whave - wnext + i] := data[i];
        }
      }
      assert dictionary[..whave] == History();
    }
  }
}
