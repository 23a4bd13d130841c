/** The base64 decoder of libb64, which may be fed its text in any number of blocks. */
module Base64Decode {
  import opened Arith
  import opened BitReader

  /** A character of the text, as a signed char. */
  type Char = x: int | -128 <= x < 128 witness 0

  // ----- The format ---------------------------------------------------------------------------

  datatype Option = None | Some(value: nat)

  /** The alphabet of section 4 of RFC 4648. */
  function Value(c: Char): (r: Option)
    ensures r.Some? ==> r.value < 64
  {
    if 65 <= c <= 90 then Some(c - 65)          // A-Z
    else if 97 <= c <= 122 then Some(c - 71)    // a-z
    else if 48 <= c <= 57 then Some(c + 4)      // 0-9
    else if c == 43 then Some(62)               // +
    else if c == 47 then Some(63)               // /
    else None
  }

  lemma Capitals(i: nat)
    requires i < 26
    ensures |"ABCDEFGHIJKLMNOPQRSTUVWXYZ"| == 26 && "ABCDEFGHIJKLMNOPQRSTUVWXYZ"[i] as int == i + 65
  {
  }

  lemma SmallLetters(i: nat)
    requires i < 26
    ensures |"abcdefghijklmnopqrstuvwxyz"| == 26 && "abcdefghijklmnopqrstuvwxyz"[i] as int == i + 97
  {
  }

  lemma Digits(i: nat)
    requires i < 10
    ensures |"0123456789"| == 10 && "0123456789"[i] as int == i + 48
  {
  }

  /** The characters in the order of their values. */
  lemma Alphabet(i: nat)
    requires i < 64
    ensures var alphabet := "ABCDEFGHIJKLMNOPQRSTUVWXYZ" + "abcdefghijklmnopqrstuvwxyz" + "0123456789" + "+/";
            && |alphabet| == 64
            && alphabet[i] as int == if i < 26 then i + 65 else if i < 52 then i + 71 else if i < 62 then i - 4
                                     else if i == 62 then 43 else 47
  {
    Capitals(if i < 26 then i else 0);
    SmallLetters(if 26 <= i < 52 then i - 26 else 0);
    Digits(if 52 <= i < 62 then i - 52 else 0);
  }

  /** A character has the value `i` exactly if it is character `i` of the alphabet, so that one
      that is not in it has none. */
  lemma ValueMeans(c: Char, i: nat)
    requires i < 64
    ensures |"ABCDEFGHIJKLMNOPQRSTUVWXYZ" + "abcdefghijklmnopqrstuvwxyz" + "0123456789" + "+/"| == 64
    ensures Value(c) == Some(i) <==>
            c == ("ABCDEFGHIJKLMNOPQRSTUVWXYZ" + "abcdefghijklmnopqrstuvwxyz" + "0123456789" + "+/")[i] as int
  {
    Alphabet(i);
  }

  /** The values of a text; characters outside the alphabet are dropped. */
  function Values(text: seq<Char>): (vs: seq<nat>)
    ensures forall i: nat :: i < |vs| ==> vs[i] < 64
    ensures |vs| <= |text|
  {
    if text == [] then []
    else
      var vs := Values(text[..|text| - 1]);
      match Value(text[|text| - 1])
      case None => vs
      case Some(v) => vs + [v]
  }

  /** Digits read as one number, most significant first. */
  function Number(base: nat, digits: seq<nat>): nat {
    if digits == [] then 0 else Number(base, digits[..|digits| - 1]) * base + digits[|digits| - 1]
  }

  /** The bytes `out` are the whole bytes of the values put together: all their bits but the
      last few, which do not fill a byte. */
  ghost predicate Decodes(vs: seq<nat>, out: seq<Byte>) {
    && |out| == 6 * |vs| / 8
    && Number(256, out) == Quotient(Number(64, vs), Pow2(6 * |vs| % 8))
  }

  /** There is only one such sequence of bytes. */
  lemma OneDecoding(vs: seq<nat>, out: seq<Byte>, out': seq<Byte>)
    requires Decodes(vs, out) && Decodes(vs, out')
    ensures out == out'
  {
    SameDigits(out, out');
  }

  lemma {:induction false} SameDigits(s: seq<Byte>, t: seq<Byte>)
    requires |s| == |t| && Number(256, s) == Number(256, t)
    ensures s == t
  {
    if s != [] {
      var n := |s| - 1;
      assert s[n] == t[n] && Number(256, s[..n]) == Number(256, t[..n]);
      SameDigits(s[..n], t[..n]);
      assert s == s[..n] + [s[n]] && t == t[..n] + [t[n]];
    }
  }

  lemma NumberOn(base: nat, s: seq<nat>, d: nat)
    ensures Number(base, s + [d]) == Number(base, s) * base + d
  {
    assert (s + [d])[..|s + [d]| - 1] == s;
  }

  lemma {:induction false} ValuesAppend(s: seq<Char>, t: seq<Char>)
    ensures Values(s + t) == Values(s) + Values(t)
  {
    if t == [] {
      assert s + t == s;
    } else {
      ValuesAppend(s, t[..|t| - 1]);
      assert (s + t)[..|s + t| - 1] == s + t[..|t| - 1];
    }
  }

  // ----- base64_decode_value ----------------------------------------------------------------------

  /** Conversion to signed char. */
  function SignedChar(x: int): Char {
    (x + 128) % 256 - 128
  }

  /** The table, for the characters from '+' to 'z': -1 for those outside the alphabet, -2
      for '='.  It is a table of plain char, which may be unsigned. */
  const DECODING_SIZE: nat := 80

  function Decoding(i: nat, charSigned: bool): int
    requires i < DECODING_SIZE
  {
    if i == 0 then 62
    else if i == 4 then 63
    else if 5 <= i <= 14 then i + 47
    else if i == 18 then (if charSigned then -2 else 254)
    else if 22 <= i <= 47 then i - 22
    else if 54 <= i then i - 28
    else if charSigned then -1 else 255
  }

  /** The subtraction is done in a signed char and wraps around.  What is not in the alphabet
      is negative at the latest when the result is converted to signed char; before that it is
      if plain char is signed or the character lies outside the table. */
  function DecodeValue(c: Char, charSigned: bool): (v: int)
    ensures Value(c).Some? ==> v == Value(c).value
    ensures SignedChar(v) >= 0 <==> Value(c).Some?
    ensures (v >= 0 <==> Value(c).Some?) <==> charSigned || Value(c).Some? || c < 43 || c > 122
  {
    var i := SignedChar(c - 43);
    if i < 0 || i >= DECODING_SIZE then -1 else Decoding(i, charSigned)
  }

  /** The value of character `i` of the alphabet is `i`, and no other character has it. */
  lemma DecodesAlphabet(c: Char, charSigned: bool, i: nat)
    requires i < 64
    ensures |"ABCDEFGHIJKLMNOPQRSTUVWXYZ" + "abcdefghijklmnopqrstuvwxyz" + "0123456789" + "+/"| == 64
    ensures DecodeValue(c, charSigned) == i <==>
            c == ("ABCDEFGHIJKLMNOPQRSTUVWXYZ" + "abcdefghijklmnopqrstuvwxyz" + "0123456789" + "+/")[i] as int
  {
    Alphabet(i);
  }

  /** With unsigned plain char the result itself does not tell: '=' and ',' are 254 and 255. */
  lemma UnsignedTable()
    ensures DecodeValue(61, false) == 254 && Value(61) == None
    ensures DecodeValue(44, false) == 255 && Value(44) == None
  {
  }

  // ----- base64_decode_block -----------------------------------------------------------------------

  /** Where the decoder is in a group of four characters. */
  datatype Step = StepA | StepB | StepC | StepD

  /** After `vs` the bytes `out` are complete, and the highest 6, 4 or 2 bits of the next one
      are in `plain`. */
  ghost predicate Midway(step: Step, plain: nat, vs: seq<nat>, out: seq<Byte>) {
    var n, m := Number(64, vs), Number(256, out);
    match step
    case StepA => |vs| % 4 == 0 && |out| == |vs| / 4 * 3 && n == m
    case StepB => |vs| % 4 == 1 && |out| == |vs| / 4 * 3 && plain < 256 && plain % 4 == 0 && n == m * 64 + plain / 4
    case StepC => |vs| % 4 == 2 && |out| == |vs| / 4 * 3 + 1 && plain < 256 && plain % 16 == 0
                  && n == m * 16 + plain / 16
    case StepD => |vs| % 4 == 3 && |out| == |vs| / 4 * 3 + 2 && plain < 256 && plain % 64 == 0
                  && n == m * 4 + plain / 64
  }

  /** Then the bytes are what the format says. */
  lemma MidwayDecodes(step: Step, plain: nat, vs: seq<nat>, out: seq<Byte>)
    requires Midway(step, plain, vs, out)
    ensures Decodes(vs, out)
  {
    hide Number;
    var n := Number(256, out);
    var q, k := |vs| / 4, Number(64, vs);
    match step {
      case StepA => WholeBytes(k, 1, n, 0, 0);
      case StepB => WholeBytes(k, 64, n, plain / 4, 6);
      case StepC => WholeBytes(k, 16, n, plain / 16, 4);
      case StepD => WholeBytes(k, 4, n, plain / 64, 2);
    }
  }

  lemma WholeBytes(k: nat, m: nat, n: nat, r: nat, t: nat)
    requires k == n * m + r && r < m && (m, t) in {(1, 0), (64, 6), (16, 4), (4, 2)}
    ensures Quotient(k, Pow2(t)) == n
  {
    assert Pow2(0) == 1 && Pow2(2) == 4 && Pow2(4) == 16 && Pow2(6) == 64;
    hide Pow2;
    DivModUnique(k, m, n, r);
  }

  lemma Begins()
    ensures Midway(StepA, 0, [], [])
  {
  }

  /** How many bits of a byte are pending. */
  function Pending(step: Step): nat {
    match step
    case StepA => 0
    case StepB => 6
    case StepC => 4
    case StepD => 2
  }

  /** What each step makes of the next value: the byte it completes, if any, and what is
      pending then. */
  function Completed(step: Step, plain: nat, v: nat): seq<nat> {
    match step
    case StepA => []
    case StepB => [plain + v / 16]
    case StepC => [plain + v / 4]
    case StepD => [plain + v]
  }

  function PendingAfter(step: Step, v: nat): nat {
    match step
    case StepA => v * 4
    case StepB => v % 16 * 16
    case StepC => v % 4 * 64
    case StepD => 0
  }

  function Next(step: Step): Step {
    match step
    case StepA => StepB
    case StepB => StepC
    case StepC => StepD
    case StepD => StepA
  }

  lemma OneValue(step: Step, plain: nat, vs: seq<nat>, out: seq<Byte>, v: nat)
    requires Midway(step, plain, vs, out) && v < 64
    ensures forall x: nat :: x in Completed(step, plain, v) ==> x < 256
    ensures Midway(Next(step), PendingAfter(step, v), vs + [v], out + Completed(step, plain, v))
  {
    hide Number, Midway;
    match step {
      case StepA => FirstValue(plain, vs, out, v);
      case StepB => SecondValue(plain, vs, out, v);
      case StepC => ThirdValue(plain, vs, out, v);
      case StepD => FourthValue(plain, vs, out, v);
    }
  }

  lemma FirstValue(plain: nat, vs: seq<nat>, out: seq<Byte>, v: nat)
    requires Midway(StepA, plain, vs, out) && v < 64
    ensures Midway(StepB, v * 4, vs + [v], out + [])
  {
    hide Number;
    NumberOn(64, vs, v);
    NextQuarter(|vs|);
    assert |vs + [v]| == |vs| + 1 && out + [] == out;
    assert v * 4 / 4 == v && v * 4 % 4 == 0;
  }

  lemma NextQuarter(n: nat)
    ensures n % 4 == 0 ==> (n + 1) % 4 == 1 && (n + 1) / 4 == n / 4
  {
  }

  lemma SecondValue(plain: nat, vs: seq<nat>, out: seq<Byte>, v: nat)
    requires Midway(StepB, plain, vs, out) && v < 64
    ensures plain + v / 16 < 256 && Midway(StepC, v % 16 * 16, vs + [v], out + [plain + v / 16])
  {
    hide Number;
    NumberOn(64, vs, v);
    LastByte(plain, 4, v / 16, out);
  }

  lemma ThirdValue(plain: nat, vs: seq<nat>, out: seq<Byte>, v: nat)
    requires Midway(StepC, plain, vs, out) && v < 64
    ensures plain + v / 4 < 256 && Midway(StepD, v % 4 * 64, vs + [v], out + [plain + v / 4])
  {
    hide Number;
    NumberOn(64, vs, v);
    LastByte(plain, 16, v / 4, out);
  }

  lemma FourthValue(plain: nat, vs: seq<nat>, out: seq<Byte>, v: nat)
    requires Midway(StepD, plain, vs, out) && v < 64
    ensures plain + v < 256 && Midway(StepA, 0, vs + [v], out + [plain + v])
  {
    hide Number;
    NumberOn(64, vs, v);
    LastByte(plain, 64, v, out);
  }

  /** The pending bits and the rest of the byte. */
  lemma LastByte(plain: nat, m: nat, low: nat, out: seq<Byte>)
    requires plain < 256 && (m == 4 || m == 16 || m == 64) && plain % m == 0 && low < m
    ensures plain + low < 256 && Number(256, out + [plain + low]) == Number(256, out) * 256 + plain + low
  {
    hide Number;
    var b: Byte := plain + low;
    NumberOn(256, out, b);
  }

  /** The state kept between blocks. */
  class Decoder {
    /** Whether plain char is signed. */
    const charSigned: bool
    var step: Step
    var plainchar: Byte
    /** All text so far, and all bytes it gave. */
    ghost var text: seq<Char>
    ghost var produced: seq<Byte>

    ghost predicate Valid()
      reads this
    {
      Midway(step, plainchar, Values(text), produced)
    }

    /** base64_init_decodestate */
    constructor (charSigned: bool)
      ensures Valid() && text == [] && produced == [] && this.charSigned == charSigned
    {
      this.charSigned := charSigned;
      step, plainchar := StepA, 0;
      text, produced := [], [];
      new;
      Begins();
    }

    /** base64_decode_block: the bytes that the text so far completes go to `plaintext`,
        which has room for one more, and what is pending is kept for the next block. */
    method DecodeBlock(code: seq<Char>, plaintext: array<Byte>) returns (n: nat)
      requires Valid() && plaintext.Length > (6 * |code| + Pending(step)) / 8
      modifies this, plaintext
      ensures Valid() && n <= plaintext.Length
      ensures text == old(text) + code && produced == old(produced) + plaintext[..n]
      ensures Decodes(Values(text), produced)
    {
      hide *;
      var at := step;
      n := 0;
      plaintext[0] := plainchar;
      ghost var was, vs := produced, Values(text);
      StartsBlock(this, plaintext[..]);
      var k := 0;
      while k < |code|
        invariant k <= |code| && 8 * n + Pending(at) <= 6 * k + Pending(old(step)) && n < plaintext.Length
        invariant text == old(text) && produced == was && vs == Values(text + code[..k])
        invariant Midway(at, plaintext[n], vs, was + plaintext[..][..n])
      {
        NextCharacter(text, code, k, charSigned);
        var v := SignedChar(DecodeValue(code[k], charSigned));
        k := k + 1;
        if v >= 0 {
          PendingNext(at);
          n, at := TakeValue(plaintext, n, at, v, vs, was);
          vs := vs + [v];
        }
      }
      step, plainchar := at, plaintext[n];
      assert code[..k] == code;
      text := text + code;
      assert plaintext[..][..n] == plaintext[..n];
      produced := produced + plaintext[..n];
      MidwayDecodes(at, plaintext[n], Values(text), produced);
      MakeValid(this);
    }
  }

  lemma StartsBlock(d: Decoder, plaintext: seq<Byte>)
    requires d.Valid() && |plaintext| > 0 && plaintext[0] == d.plainchar
    ensures Midway(d.step, plaintext[0], Values(d.text), d.produced + plaintext[..0]) && Pending(d.step) <= 6
    ensures forall code: seq<Char> :: Values(d.text + code[..0]) == Values(d.text)
  {
    assert d.produced + plaintext[..0] == d.produced;
    forall code: seq<Char>
      ensures Values(d.text + code[..0]) == Values(d.text)
    {
      assert d.text + code[..0] == d.text;
    }
  }

  lemma MakeValid(d: Decoder)
    requires Midway(d.step, d.plainchar, Values(d.text), d.produced)
    ensures d.Valid()
  {
  }

  /** Every value brings six bits. */
  lemma PendingNext(step: Step)
    ensures Pending(step) + 6 == (if step == StepA then 0 else 8) + Pending(Next(step)) && Pending(step) <= 6
  {
  }

  lemma SmallChar(x: int)
    ensures 0 <= x < 64 ==> SignedChar(x) == x
  {
  }

  /** A character outside the alphabet adds no value. */
  lemma NextCharacter(text: seq<Char>, code: seq<Char>, k: nat, charSigned: bool)
    requires k < |code|
    ensures var v := SignedChar(DecodeValue(code[k], charSigned));
            && Values(text + code[..k + 1]) == Values(text + code[..k]) + (if v >= 0 then [v] else [])
            && v < 64
  {
    hide DecodeValue, Value, SignedChar;
    SmallChar(DecodeValue(code[k], charSigned));
    var t := text + code[..k + 1];
    assert t[..|t| - 1] == text + code[..k];
    assert t[|t| - 1] == code[k];
  }

  /** One value: fills up the byte at `n`, and starts the next. */
  method TakeValue(plaintext: array<Byte>, n: nat, at: Step, v: nat, ghost vs: seq<nat>, ghost was: seq<Byte>)
    returns (n': nat, at': Step)
    requires v < 64 && n < plaintext.Length && (at != StepA ==> n + 1 < plaintext.Length)
    requires Midway(at, plaintext[n], vs, was + plaintext[..][..n])
    modifies plaintext
    ensures n' == (if at == StepA then n else n + 1) && at' == Next(at)
    ensures Midway(at', plaintext[n'], vs + [v], was + plaintext[..][..n'])
  {
    hide Midway;
    ghost var out, plain := was + plaintext[..][..n], plaintext[n];
    OneValue(at, plain, vs, out, v);
    n', at' := n, Next(at);
    match at {
      case StepA =>
        plaintext[n'] := v % 64 * 4;
        assert was + plaintext[..][..n'] == out + [];
      case StepB =>
        CompletedByte(at, plain, v);
        plaintext[n'] := plaintext[n'] + v % 64 / 16;
        n' := n' + 1;
        plaintext[n'] := v % 16 * 16;
        assert was + plaintext[..][..n'] == out + [plain + v / 16];
      case StepC =>
        CompletedByte(at, plain, v);
        plaintext[n'] := plaintext[n'] + v % 64 / 4;
        n' := n' + 1;
        plaintext[n'] := v % 4 * 64;
        assert was + plaintext[..][..n'] == out + [plain + v / 4];
      case StepD =>
        CompletedByte(at, plain, v);
        plaintext[n'] := plaintext[n'] + v % 64;
        n' := n' + 1;
        assert was + plaintext[..][..n'] == out + [plain + v];
        AnyPlain(plaintext[n'], vs + [v], out + [plain + v]);
    }
  }

  lemma CompletedByte(at: Step, plain: nat, v: nat)
    requires at != StepA && forall x: nat :: x in Completed(at, plain, v) ==> x < 256
    ensures |Completed(at, plain, v)| == 1 && Completed(at, plain, v)[0] < 256
  {
    assert Completed(at, plain, v)[0] in Completed(at, plain, v);
  }

  /** Before the first character of a group nothing is pending. */
  lemma AnyPlain(plain: nat, vs: seq<nat>, out: seq<Byte>)
    requires Midway(StepA, 0, vs, out)
    ensures Midway(StepA, plain, vs, out)
  {
  }
}
