/**
  The runtime's UTF-8 decoder against the grammar of section 4 of RFC 3629, and
  the UTF-16 code units (sections 2.1 and 2.2 of RFC 2781) it gives a string.
 */
module Utf8 {
  type Byte = x: int | 0 <= x < 0x100
  type Unit = x: int | 0 <= x < 0x1_0000

  const REPLACEMENT := 0xfffd

  predicate Scalar(cp: int) {
    0 <= cp < 0xd800 || 0xe000 <= cp <= 0x10ffff
  }

  predicate Tail(b: Byte) {
    0x80 <= b <= 0xbf
  }

  // ------------------------------------------------------------ the decoder

  /** One decode step: the code point and the number of bytes it took. */
  datatype Decoded = Decoded(cp: int, size: nat)

  const MALFORMED := Decoded(REPLACEMENT, 1)

  /**
    Decodes the character at `i`. Masks and shifts of the bytes are written as
    remainders and products: `b & 0x3f` is `b % 0x40`, `<< 6` is `* 0x40`.
   */
  function DecodeAt(s: seq<Byte>, i: nat): Decoded {
    if i >= |s| then MALFORMED else
    var b0: int := s[i];
    if b0 < 0x80 then Decoded(b0, 1)
    else if 0xc2 <= b0 <= 0xdf && i + 1 < |s| then
      var b1: int := s[i + 1];
      if Tail(b1) then Decoded((b0 % 0x20) * 0x40 + b1 % 0x40, 2) else MALFORMED
    else if 0xe0 <= b0 <= 0xef && i + 2 < |s| then
      var b1: int, b2: int := s[i + 1], s[i + 2];
      var cp := (b0 % 0x10) * 0x1000 + (b1 % 0x40) * 0x40 + b2 % 0x40;
      if Tail(b1) && Tail(b2) && cp >= 0x800 && (cp < 0xd800 || cp > 0xdfff) then Decoded(cp, 3) else MALFORMED
    else if 0xf0 <= b0 <= 0xf4 && i + 3 < |s| then
      var b1: int, b2: int, b3: int := s[i + 1], s[i + 2], s[i + 3];
      var cp := (b0 % 0x08) * 0x4_0000 + (b1 % 0x40) * 0x1000 + (b2 % 0x40) * 0x40 + b3 % 0x40;
      if Tail(b1) && Tail(b2) && Tail(b3) && 0x1_0000 <= cp <= 0x10_ffff then Decoded(cp, 4) else MALFORMED
    else MALFORMED
  }

  function Decode(s: seq<Byte>): Decoded {
    DecodeAt(s, 0)
  }

  // ------------------------------------------- section 4 of RFC 3629

  /** `s` is one `UTF8-char` of the grammar. */
  predicate Character(s: seq<Byte>) {
    || (|s| == 1 && s[0] <= 0x7f)
    || (|s| == 2 && 0xc2 <= s[0] <= 0xdf && Tail(s[1]))
    || (|s| == 3 && Tail(s[2]) &&
        (|| (s[0] == 0xe0 && 0xa0 <= s[1] <= 0xbf)
         || (0xe1 <= s[0] <= 0xec && Tail(s[1]))
         || (s[0] == 0xed && 0x80 <= s[1] <= 0x9f)
         || (0xee <= s[0] <= 0xef && Tail(s[1]))))
    || (|s| == 4 && Tail(s[2]) && Tail(s[3]) &&
        (|| (s[0] == 0xf0 && 0x90 <= s[1] <= 0xbf)
         || (0xf1 <= s[0] <= 0xf3 && Tail(s[1]))
         || (s[0] == 0xf4 && 0x80 <= s[1] <= 0x8f)))
  }

  /** One character stands at `i`, `n` bytes long. */
  predicate CharacterAt(s: seq<Byte>, i: nat, n: nat) {
    i + n <= |s| && Character(s[i..i + n])
  }

  /** The encoding of a scalar value, section 3 of RFC 3629. */
  function Encode(cp: int): (s: seq<Byte>)
    requires Scalar(cp)
    ensures Character(s)
  {
    var a, b, c := cp / 0x40, cp / 0x40 / 0x40, cp / 0x40 / 0x40 / 0x40;
    if cp < 0x80 then [cp]
    else if cp < 0x800 then [0xc0 + a, 0x80 + cp % 0x40]
    else if cp < 0x1_0000 then [0xe0 + b, 0x80 + a % 0x40, 0x80 + cp % 0x40]
    else [0xf0 + c, 0x80 + b % 0x40, 0x80 + a % 0x40, 0x80 + cp % 0x40]
  }

  /** At most one prefix of a text is a character. */
  lemma CharacterLength(s: seq<Byte>, n: nat, m: nat)
    requires n <= |s| && m <= |s| && Character(s[..n]) && Character(s[..m])
    ensures n == m
  {
    assert s[..n][0] == s[0] && s[..m][0] == s[0];
  }

  /** The decoder takes a character of the grammar and nothing else for a character. */
  lemma DecodeAcceptsGrammar(s: seq<Byte>, i: nat)
    requires i < |s|
    ensures var d := DecodeAt(s, i);
      && 1 <= d.size <= 4 && i + d.size <= |s| && Scalar(d.cp)
      && (if exists n :: CharacterAt(s, i, n)
          then CharacterAt(s, i, d.size) && Encode(d.cp) == s[i..i + d.size]
          else d == MALFORMED)
  {
    if n :| CharacterAt(s, i, n) {
      DecodeCharacter(s, i, n);
    } else {
      NoCharacter(s, i);
    }
  }

  /** The decoder in numbers, as the table of section 3 of RFC 3629 has it; all else is one bad byte. */
  lemma DecodeTable(s: seq<Byte>, i: nat)
    requires i < |s|
    ensures var l, b0: int := |s| - i, s[i];
      var b1: int, b2: int, b3: int :=
        if l > 1 then s[i + 1] else 0, if l > 2 then s[i + 2] else 0, if l > 3 then s[i + 3] else 0;
      var two := (b0 - 0xc0) * 64 + (b1 - 0x80);
      var three := (b0 - 0xe0) * 4096 + (b1 - 0x80) * 64 + (b2 - 0x80);
      var four := (b0 - 0xf0) * 262144 + (b1 - 0x80) * 4096 + (b2 - 0x80) * 64 + (b3 - 0x80);
      DecodeAt(s, i) ==
        if b0 <= 0x7f then Decoded(b0, 1)
        else if 0xc0 <= b0 <= 0xdf && 0x80 <= b1 <= 0xbf && 0x80 <= two then Decoded(two, 2)
        else if 0xe0 <= b0 <= 0xef && 0x80 <= b1 <= 0xbf && 0x80 <= b2 <= 0xbf && 0x800 <= three
                && !(0xd800 <= three <= 0xdfff) then Decoded(three, 3)
        else if 0xf0 <= b0 <= 0xf7 && 0x80 <= b1 <= 0xbf && 0x80 <= b2 <= 0xbf && 0x80 <= b3 <= 0xbf
                && 0x1_0000 <= four <= 0x10_ffff then Decoded(four, 4)
        else Decoded(0xfffd, 1)
  {
    var l, b0: int := |s| - i, s[i];
    var b1: int, b2: int, b3: int :=
      if l > 1 then s[i + 1] else 0, if l > 2 then s[i + 2] else 0, if l > 3 then s[i + 3] else 0;
    Remainders(b0, b1, b2, b3);
  }

  lemma Remainders(b0: int, b1: int, b2: int, b3: int)
    ensures 0xc0 <= b0 <= 0xdf ==> b0 % 0x20 == b0 - 0xc0
    ensures 0xe0 <= b0 <= 0xef ==> b0 % 0x10 == b0 - 0xe0
    ensures 0xf0 <= b0 <= 0xf7 ==> b0 % 0x08 == b0 - 0xf0
    ensures 0x80 <= b1 <= 0xbf ==> b1 % 0x40 == b1 - 0x80
    ensures 0x80 <= b2 <= 0xbf ==> b2 % 0x40 == b2 - 0x80
    ensures 0x80 <= b3 <= 0xbf ==> b3 % 0x40 == b3 - 0x80
  {
  }

  lemma DecodeCharacter(s: seq<Byte>, i: nat, n: nat)
    requires CharacterAt(s, i, n)
    ensures var d := DecodeAt(s, i); d.size == n && Scalar(d.cp) && Encode(d.cp) == s[i..i + n]
  {
    hide Encode;
    var c := s[i..i + n];
    assert c[0] == s[i];
    if n == 1 {
      assert c == [s[i]];
      EncodeOne(s[i]);
    } else if n == 2 {
      assert c == [s[i], s[i + 1]];
      EncodeTwo(s[i], s[i + 1]);
    } else if n == 3 {
      assert c == [s[i], s[i + 1], s[i + 2]];
      EncodeThree(s[i], s[i + 1], s[i + 2]);
    } else if n == 4 {
      assert c == [s[i], s[i + 1], s[i + 2], s[i + 3]];
      EncodeFour(s[i], s[i + 1], s[i + 2], s[i + 3]);
    }
  }

  lemma EncodeOne(b0: Byte)
    requires Character([b0])
    ensures Scalar(b0) && Encode(b0) == [b0]
  {
  }

  lemma NoCharacter(s: seq<Byte>, i: nat)
    requires i < |s| && forall n :: !CharacterAt(s, i, n)
    ensures DecodeAt(s, i) == MALFORMED
  {
    assert !CharacterAt(s, i, 1) && !CharacterAt(s, i, 2) && !CharacterAt(s, i, 3) && !CharacterAt(s, i, 4);
    assert s[i..i + 1] == [s[i]];
    if i + 1 < |s| {
      assert s[i..i + 2] == [s[i], s[i + 1]];
    }
    if i + 2 < |s| {
      assert s[i..i + 3] == [s[i], s[i + 1], s[i + 2]];
    }
    if i + 3 < |s| {
      assert s[i..i + 4] == [s[i], s[i + 1], s[i + 2], s[i + 3]];
    }
  }

  lemma EncodeTwo(b0: Byte, b1: Byte)
    requires Character([b0, b1])
    ensures var cp := ((b0 as int) % 0x20) * 0x40 + (b1 as int) % 0x40; Scalar(cp) && Encode(cp) == [b0, b1]
  {
    var x: int, y: int := b0 - 0xc0, b1 - 0x80;
    assert (b0 as int) % 0x20 == x && (b1 as int) % 0x40 == y;
    Digits(x, y);
  }

  lemma EncodeThree(b0: Byte, b1: Byte, b2: Byte)
    requires Character([b0, b1, b2])
    ensures var cp := ((b0 as int) % 0x10) * 0x1000 + ((b1 as int) % 0x40) * 0x40 + (b2 as int) % 0x40;
      0x800 <= cp < 0x1_0000 && Scalar(cp) && Encode(cp) == [b0, b1, b2]
  {
    var x: int, y: int, z: int := b0 - 0xe0, b1 - 0x80, b2 - 0x80;
    ThreeBytes(b0, b1, b2);
    ThreeDigits(x, y, z);
    EncodeMiddle(x, y, z);
  }

  lemma ThreeBytes(b0: int, b1: int, b2: int)
    requires 0xe0 <= b0 <= 0xef && 0x80 <= b1 <= 0xbf && 0x80 <= b2 <= 0xbf
    ensures b0 % 0x10 == b0 - 0xe0 && b1 % 0x40 == b1 - 0x80 && b2 % 0x40 == b2 - 0x80
  {
  }

  lemma ThreeDigits(x: int, y: int, z: int)
    requires 0 <= x && 0 <= y < 0x40 && 0 <= z < 0x40
    ensures var cp := x * 0x1000 + y * 0x40 + z;
      cp % 0x40 == z && cp / 0x40 % 0x40 == y && cp / 0x40 / 0x40 == x
  {
    Digits(x * 0x40 + y, z);
    Digits(x, y);
    assert x * 0x1000 + y * 0x40 + z == (x * 0x40 + y) * 0x40 + z;
  }

  lemma EncodeMiddle(x: int, y: int, z: int)
    requires 0 <= x < 0x10 && 0 <= y < 0x40 && 0 <= z < 0x40
    requires var cp := x * 0x1000 + y * 0x40 + z;
      Scalar(cp) && 0x800 <= cp && cp % 0x40 == z && cp / 0x40 % 0x40 == y && cp / 0x40 / 0x40 == x
    ensures Encode(x * 0x1000 + y * 0x40 + z) == [0xe0 + x, 0x80 + y, 0x80 + z]
  {
  }

  lemma EncodeFour(b0: Byte, b1: Byte, b2: Byte, b3: Byte)
    requires Character([b0, b1, b2, b3])
    ensures var x: int, y: int, z: int, w: int := b0, b1, b2, b3;
      var cp := (x % 0x08) * 0x4_0000 + (y % 0x40) * 0x1000 + (z % 0x40) * 0x40 + w % 0x40;
      0x1_0000 <= cp <= 0x10_ffff && Encode(cp) == [b0, b1, b2, b3]
  {
    var x: int, y: int, z: int, w: int := b0 - 0xf0, b1 - 0x80, b2 - 0x80, b3 - 0x80;
    LeadAndTails(b0, b1, b2, b3);
    FourDigits(x, y, z, w);
    EncodeLong(x, y, z, w);
  }

  lemma LeadAndTails(b0: int, b1: int, b2: int, b3: int)
    requires 0xf0 <= b0 <= 0xf4 && 0x80 <= b1 <= 0xbf && 0x80 <= b2 <= 0xbf && 0x80 <= b3 <= 0xbf
    ensures b0 % 0x08 == b0 - 0xf0 && b1 % 0x40 == b1 - 0x80 && b2 % 0x40 == b2 - 0x80 && b3 % 0x40 == b3 - 0x80
  {
  }

  lemma FourDigits(x: int, y: int, z: int, w: int)
    requires 0 <= x < 8 && 0 <= y < 0x40 && 0 <= z < 0x40 && 0 <= w < 0x40
    ensures var cp := x * 0x4_0000 + y * 0x1000 + z * 0x40 + w;
      && cp % 0x40 == w && cp / 0x40 == (x * 0x40 + y) * 0x40 + z && cp / 0x40 % 0x40 == z
      && cp / 0x40 / 0x40 == x * 0x40 + y && cp / 0x40 / 0x40 % 0x40 == y && cp / 0x40 / 0x40 / 0x40 == x
  {
    Digits((x * 0x40 + y) * 0x40 + z, w);
    Digits(x * 0x40 + y, z);
    Digits(x, y);
  }

  lemma EncodeLong(x: int, y: int, z: int, w: int)
    requires 0 <= x < 8 && 0 <= y < 0x40 && 0 <= z < 0x40 && 0 <= w < 0x40
    requires var cp := x * 0x4_0000 + y * 0x1000 + z * 0x40 + w; 0x1_0000 <= cp <= 0x10_ffff
    ensures Encode(x * 0x4_0000 + y * 0x1000 + z * 0x40 + w) == [0xf0 + x, 0x80 + y, 0x80 + z, 0x80 + w]
  {
    FourDigits(x, y, z, w);
  }

  lemma Digits(high: int, low: int)
    requires 0 <= low < 0x40
    ensures (high * 0x40 + low) / 0x40 == high && (high * 0x40 + low) % 0x40 == low
  {
  }

  /** Decoding inverts encoding, wherever the character stands. */
  lemma DecodeInvertsEncode(cp: int, before: seq<Byte>, after: seq<Byte>)
    requires Scalar(cp)
    ensures DecodeAt(before + Encode(cp) + after, |before|) == Decoded(cp, |Encode(cp)|)
  {
    var s, c := before + Encode(cp) + after, Encode(cp);
    assert s[|before|..|before| + |c|] == c && CharacterAt(s, |before|, |c|);
    DecodeCharacter(s, |before|, |c|);
    EncodeInjective(cp, DecodeAt(s, |before|).cp);
  }

  /** The number an encoding stands for. */
  function Value(s: seq<Byte>): int
    requires Character(s)
  {
    var b0: int := s[0];
    var b1: int := if |s| > 1 then s[1] - 0x80 else 0;
    var b2: int := if |s| > 2 then s[2] - 0x80 else 0;
    var b3: int := if |s| > 3 then s[3] - 0x80 else 0;
    if |s| == 1 then b0
    else if |s| == 2 then (b0 - 0xc0) * 0x40 + b1
    else if |s| == 3 then ((b0 - 0xe0) * 0x40 + b1) * 0x40 + b2
    else (((b0 - 0xf0) * 0x40 + b1) * 0x40 + b2) * 0x40 + b3
  }

  lemma ValueOfEncode(cp: int)
    requires Scalar(cp)
    ensures Value(Encode(cp)) == cp
  {
    var a, b, c := cp / 0x40, cp / 0x40 / 0x40, cp / 0x40 / 0x40 / 0x40;
    assert cp == a * 0x40 + cp % 0x40 && a == b * 0x40 + a % 0x40 && b == c * 0x40 + b % 0x40;
  }

  lemma EncodeInjective(a: int, b: int)
    requires Scalar(a) && Scalar(b) && Encode(a) == Encode(b)
    ensures a == b
  {
    ValueOfEncode(a);
    ValueOfEncode(b);
  }

  // ----------------------------------------------------------- code units

  /** The code units of a code point, section 2.1 of RFC 2781. */
  function UnitsOf(cp: int): (u: seq<Unit>)
    requires Scalar(cp)
  {
    if cp < 0x1_0000 then [cp]
    else [0xd800 + (cp - 0x1_0000) / 0x400, 0xdc00 + (cp - 0x1_0000) % 0x400]
  }

  lemma StepOk(s: seq<Byte>)
    requires s != []
    ensures var d := Decode(s); 1 <= d.size <= |s| && Scalar(d.cp) && |UnitsOf(d.cp)| <= d.size
  {
    DecodeAcceptsGrammar(s, 0);
  }

  /** The characters of a text: one replacement character for each malformed byte. */
  function CodePoints(s: seq<Byte>): (r: seq<int>)
    ensures forall cp :: cp in r ==> Scalar(cp)
  {
    if s == [] then [] else
    StepOk(s);
    [Decode(s).cp] + CodePoints(s[Decode(s).size..])
  }

  /** The UTF-16 view of a text. */
  function Units(s: seq<Byte>): (u: seq<Unit>) {
    if s == [] then [] else
    StepOk(s);
    UnitsOf(Decode(s).cp) + Units(s[Decode(s).size..])
  }

  /** Section 2.2 of RFC 2781: the code points of a sequence of units, `None` for an unpaired surrogate. */
  datatype Option<T> = None | Some(value: T)

  function Decode16(u: seq<Unit>): Option<seq<int>> {
    if u == [] then Some([])
    else if !(0xd800 <= u[0] <= 0xdfff) then
      var rest := Decode16(u[1..]);
      if rest.None? then None else Some([u[0]] + rest.value)
    else if u[0] > 0xdbff || |u| < 2 || !(0xdc00 <= u[1] <= 0xdfff) then None
    else
      var rest := Decode16(u[2..]);
      if rest.None? then None else Some([(u[0] - 0xd800) * 0x400 + (u[1] - 0xdc00) + 0x1_0000] + rest.value)
  }

  /** The view of any text decodes back to its code points. */
  lemma {:induction false} UnitsDecode(s: seq<Byte>)
    ensures Decode16(Units(s)) == Some(CodePoints(s))
  {
    if s != [] {
      StepOk(s);
      var cp, rest := Decode(s).cp, s[Decode(s).size..];
      UnitsDecode(rest);
      var u := Units(s);
      if cp < 0x1_0000 {
        assert u[1..] == Units(rest);
      } else {
        assert u[2..] == Units(rest);
      }
    }
  }

  /** A view is never longer than the text; it is as long exactly when every step took one byte. */
  predicate OneByteSteps(s: seq<Byte>) {
    s == [] || (Decode(s).size == 1 && OneByteSteps(s[1..]))
  }

  lemma {:induction false} UnitsWithinBytes(s: seq<Byte>)
    ensures |Units(s)| <= |s|
    ensures |Units(s)| == |s| <==> OneByteSteps(s)
  {
    if s != [] {
      StepOk(s);
      UnitsWithinBytes(s[Decode(s).size..]);
    }
  }

  /** Every step decodes a character of the grammar. */
  predicate WellFormed(s: seq<Byte>) {
    s == [] || (StepOk(s); Character(s[..Decode(s).size]) && WellFormed(s[Decode(s).size..]))
  }

  /** Well-formed texts are the encodings of sequences of scalar values. */
  function EncodeAll(cps: seq<int>): (s: seq<Byte>)
    requires forall cp :: cp in cps ==> Scalar(cp)
  {
    if cps == [] then [] else Encode(cps[0]) + EncodeAll(cps[1..])
  }

  lemma EncodeNotEmpty(cp: int)
    requires Scalar(cp)
    ensures |Encode(cp)| > 0
  {
  }

  lemma {:induction false} EncodedIsWellFormed(cps: seq<int>)
    requires forall cp :: cp in cps ==> Scalar(cp)
    ensures WellFormed(EncodeAll(cps)) && CodePoints(EncodeAll(cps)) == cps
  {
    hide DecodeAt, Encode, Character;
    if cps != [] {
      var c, rest := Encode(cps[0]), EncodeAll(cps[1..]);
      EncodedIsWellFormed(cps[1..]);
      DecodeInvertsEncode(cps[0], [], rest);
      EncodeNotEmpty(cps[0]);
      assert [] + c + rest == c + rest == EncodeAll(cps);
      assert (c + rest)[..|c|] == c && (c + rest)[|c|..] == rest;
      assert cps == [cps[0]] + cps[1..] && |c| > 0;
    }
  }

  lemma {:induction false} WellFormedIsEncoded(s: seq<Byte>)
    requires WellFormed(s)
    ensures EncodeAll(CodePoints(s)) == s
  {
    hide DecodeAt, Encode, Character;
    if s != [] {
      StepOk(s);
      var n := Decode(s).size;
      WellFormedIsEncoded(s[n..]);
      assert s[0..0 + n] == s[..n];
      DecodeCharacter(s, 0, n);
      assert s == s[..n] + s[n..];
    }
  }
}
