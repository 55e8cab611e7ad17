/**
  Searching text by bytes finds the matches of its UTF-16 units: UTF-8
  synchronizes itself, so a well-formed needle matches only where characters start.
 */
module Search {
  import opened Utf8
  import opened TextIndex

  /** `n` occurs in `h` at position `p`. */
  predicate At<T(==)>(h: seq<T>, n: seq<T>, p: nat) {
    p + |n| <= |h| && h[p..p + |n|] == n
  }

  lemma AtIsPrefix<T>(h: seq<T>, n: seq<T>, p: nat)
    ensures At(h, n, p) <==> p <= |h| && n <= h[p..]
  {
    if p + |n| <= |h| {
      assert h[p..][..|n|] == h[p..p + |n|];
    }
  }

  // ------------------------------------------------- self-synchronization

  /** In well-formed text every byte that does not start a character is a tail byte. */
  lemma {:induction false} NonBoundaryIsTail(h: seq<Byte>, p: nat)
    requires WellFormed(h) && p < |h| && !Boundary(h, p)
    ensures Tail(h[p])
    decreases |h|
  {
    var n := Size(h);
    assert CharacterAt(h, 0, n) by {
      assert h[0..0 + n] == h[..n];
    }
    if p >= n {
      NonBoundaryIsTail(h[n..], p - n);
    } else {
      assert h[..n][p] == h[p];
    }
  }

  lemma FirstIsNotTail(n: seq<Byte>)
    requires WellFormed(n) && n != []
    ensures !Tail(n[0])
  {
    assert n[..Size(n)][0] == n[0];
  }

  lemma MatchStartsCharacter(h: seq<Byte>, n: seq<Byte>, p: nat)
    requires WellFormed(h) && WellFormed(n) && n != [] && At(h, n, p)
    ensures Boundary(h, p)
  {
    FirstIsNotTail(n);
    assert h[p..p + |n|][0] == h[p];
    if !Boundary(h, p) {
      NonBoundaryIsTail(h, p);
    }
  }

  lemma {:induction false} WellFormedAfter(s: seq<Byte>, p: nat)
    requires WellFormed(s) && Boundary(s, p)
    ensures p <= |s| && WellFormed(s[p..])
    decreases |s|
  {
    hide DecodeAt, Character;
    if p == 0 {
      assert s[0..] == s;
    } else {
      StepOk(s);
      WellFormedAfter(s[Size(s)..], p - Size(s));
      assert s[p..] == s[Size(s)..][p - Size(s)..];
    }
  }

  /** A text that begins with well-formed text begins with its characters and its units. */
  lemma {:induction false} PrefixUnits(h: seq<Byte>, n: seq<Byte>)
    requires WellFormed(n) && |n| <= |h| && h[..|n|] == n
    ensures Boundary(h, |n|) && At(Units(h), Units(n), 0)
    decreases |n|
  {
    hide DecodeAt, Units;
    if n == [] {
      NoUnits();
    } else {
      SameFirst(h, n);
      var k := Size(n);
      assert h[k..][..|n| - k] == n[k..];
      PrefixUnits(h[k..], n[k..]);
      StepOk(n);
      UnitsStep(n);
      UnitsStep(h);
      JoinPrefix(UnitsOf(Decode(n).cp), Units(n[k..]), Units(h[k..]));
    }
  }

  lemma JoinPrefix<T>(a: seq<T>, b: seq<T>, c: seq<T>)
    requires At(c, b, 0)
    ensures At(a + c, a + b, 0)
  {
  }

  lemma SameFirst(h: seq<Byte>, n: seq<Byte>)
    requires n != [] && WellFormed(n) && |n| <= |h| && h[..|n|] == n
    ensures Decode(h) == Decode(n) && Size(h) == Size(n)
  {
    var k := Size(n);
    assert n[..k] == h[0..0 + k] && n[0..0 + k] == n[..k];
    assert CharacterAt(h, 0, k) && CharacterAt(n, 0, k);
    DecodeCharacter(h, 0, k);
    DecodeCharacter(n, 0, k);
    EncodeInjective(Decode(h).cp, Decode(n).cp);
  }

  /** A byte match is a unit match, at the unit index of its byte offset. */
  lemma ByteMatchIsUnitMatch(h: seq<Byte>, n: seq<Byte>, p: nat)
    requires WellFormed(h) && WellFormed(n) && n != [] && At(h, n, p)
    ensures Boundary(h, p) && At(Units(h), Units(n), CountTo(h, p))
  {
    MatchStartsCharacter(h, n, p);
    CountToBoundary(h, p);
    UnitsSplit(h, p);
    assert h[p..][..|n|] == n;
    PrefixUnits(h[p..], n);
    ShiftMatch(Units(h[..p]), Units(h[p..]), Units(n));
  }

  lemma ShiftMatch<T>(a: seq<T>, b: seq<T>, n: seq<T>)
    requires At(b, n, 0)
    ensures At(a + b, n, |a|)
  {
    assert (a + b)[|a|..|a| + |n|] == b[..|n|];
  }

  // ------------------------------------------------ and the other way round

  /** No code point's units begin another's. */
  lemma UnitsPrefixFree(a: int, b: int, x: seq<Unit>, y: seq<Unit>)
    requires Scalar(a) && Scalar(b) && At(UnitsOf(a) + x, UnitsOf(b) + y, 0)
    ensures a == b && At(x, y, 0)
  {
    var l, r := UnitsOf(a) + x, UnitsOf(b) + y;
    assert l[..|r|] == r;
    assert l[0] == r[0];
    if |UnitsOf(a)| == 2 {
      assert l[1] == r[1];
    }
    var k := |UnitsOf(a)|;
    assert l[k..] == x && r[k..] == y;
    assert x[..|y|] == l[..|r|][k..];
  }

  lemma {:induction false} UnitPrefixBytes(h: seq<Byte>, n: seq<Byte>)
    requires WellFormed(h) && WellFormed(n) && At(Units(h), Units(n), 0)
    ensures At(h, n, 0)
    decreases |n|
  {
    hide DecodeAt, Units;
    if n != [] {
      UnitsNonEmpty(n);
      if h == [] {
        NoUnits();
      }
      StepOk(h);
      StepOk(n);
      UnitsStep(h);
      UnitsStep(n);
      UnitsPrefixFree(Decode(h).cp, Decode(n).cp, Units(h[Size(h)..]), Units(n[Size(n)..]));
      FirstEncoded(h);
      FirstEncoded(n);
      UnitPrefixBytes(h[Size(h)..], n[Size(n)..]);
      assert h == h[..Size(h)] + h[Size(h)..] && n == n[..Size(n)] + n[Size(n)..];
    }
  }

  lemma FirstEncoded(s: seq<Byte>)
    requires WellFormed(s) && s != []
    ensures Scalar(Decode(s).cp) && s[..Size(s)] == Encode(Decode(s).cp) && WellFormed(s[Size(s)..])
  {
    assert s[0..0 + Size(s)] == s[..Size(s)];
    assert CharacterAt(s, 0, Size(s));
    DecodeCharacter(s, 0, Size(s));
  }

  /** A unit match is a byte match: it starts where a character does. */
  lemma {:induction false} UnitMatchIsByteMatch(h: seq<Byte>, n: seq<Byte>, unit: nat) returns (p: nat)
    requires WellFormed(h) && WellFormed(n) && n != [] && At(Units(h), Units(n), unit)
    ensures At(h, n, p) && Boundary(h, p) && CountTo(h, p) == unit
    decreases |h|
  {
    hide DecodeAt, Units, WellFormed, Boundary, CountTo;
    AtStart(h);
    if unit == 0 {
      UnitPrefixBytes(h, n);
      return 0;
    }
    UnitsNonEmpty(n);
    if h == [] {
      NoUnits();
    }
    StepOk(h);
    UnitsStep(h);
    FirstEncoded(h);
    var k := |UnitsOf(Decode(h).cp)|;
    FirstUnit(n);
    assert Units(h)[unit..unit + |Units(n)|][0] == Units(h)[unit];
    assert unit >= k;
    var rest := h[Size(h)..];
    UnshiftMatch(UnitsOf(Decode(h).cp), Units(rest), Units(n), unit);
    var q := UnitMatchIsByteMatch(rest, n, unit - k);
    p := Size(h) + q;
    LaterMatch(h, n, Size(h), q);
    ShiftPlace(h, q);
  }

  lemma AtStart(h: seq<Byte>)
    ensures Boundary(h, 0) && CountTo(h, 0) == 0
  {
  }

  lemma ShiftPlace(h: seq<Byte>, q: nat)
    requires h != [] && Boundary(h[Size(h)..], q)
    ensures Boundary(h, Size(h) + q)
    ensures CountTo(h, Size(h) + q) == (if Astral(h) then 2 else 1) + CountTo(h[Size(h)..], q)
  {
  }

  lemma UnshiftMatch<T>(a: seq<T>, b: seq<T>, n: seq<T>, u: nat)
    requires At(a + b, n, u) && |a| <= u
    ensures At(b, n, u - |a|)
  {
    assert (a + b)[u..u + |n|] == b[u - |a|..u - |a| + |n|];
  }

  lemma SliceOfRest<T>(h: seq<T>, i: nat, p: nat, n: nat)
    requires i + p + n <= |h|
    ensures h[i..][p..p + n] == h[i + p..i + p + n]
  {
  }

  lemma LaterMatch<T>(h: seq<T>, n: seq<T>, k: nat, q: nat)
    requires k <= |h| && At(h[k..], n, q)
    ensures At(h, n, k + q)
  {
    SliceOfRest(h, k, q, |n|);
  }

  /** No text begins with the second half of a pair. */
  lemma FirstUnit(n: seq<Byte>)
    requires n != []
    ensures Units(n) != [] && !(0xdc00 <= Units(n)[0] <= 0xdfff)
  {
    StepOk(n);
    UnitsStep(n);
  }

  /** Later bytes have later unit indices. */
  lemma CountMonotone(s: seq<Byte>, a: nat, b: nat)
    requires Boundary(s, a) && Boundary(s, b)
    ensures a <= b <==> CountTo(s, a) <= CountTo(s, b)
  {
    CountToBoundary(s, a);
    CountToBoundary(s, b);
    if a < b {
      LaterBoundary(s, a, b);
    } else if b < a {
      LaterBoundary(s, b, a);
    }
  }

  // ------------------------------------------------------------ C strings

  /** The bytes a C string function sees: those before the first NUL. */
  function UpToNul(s: seq<Byte>): (r: seq<Byte>)
    ensures |r| <= |s| && (0 !in s ==> r == s)
    ensures r == s[..|r|] && 0 !in r && (|r| < |s| ==> s[|r|] == 0)
  {
    if s == [] || s[0] == 0 then [] else [s[0]] + UpToNul(s[1..])
  }

  /** Occurrences in the rest of a text, seen from its start. */
  lemma FindLater(h: seq<Byte>, n: seq<Byte>, p: int)
    requires h != []
    ensures forall q: nat :: q > 0 && At(h, n, q) ==> At(h[1..], n, q - 1)
    ensures p >= 0 && At(h[1..], n, p) ==> At(h, n, p + 1)
  {
    forall q: nat | q > 0 && At(h, n, q) ensures At(h[1..], n, q - 1) {
      SliceOfRest(h, 1, q - 1, |n|);
    }
    if p >= 0 && At(h[1..], n, p) {
      LaterMatch(h, n, 1, p);
    }
  }

  /** The first position at which `n` occurs in `h`, or -1. */
  function Find(h: seq<Byte>, n: seq<Byte>): (p: int)
    ensures p == -1 || (p >= 0 && At(h, n, p))
    ensures forall q: nat :: At(h, n, q) ==> 0 <= p <= q
    decreases |h|
  {
    if At(h, n, 0) then 0
    else if h == [] then -1
    else
      var p := Find(h[1..], n);
      FindLater(h, n, p);
      if p < 0 then -1 else p + 1
  }

  /** `strstr`, as an offset. */
  function StrStr(h: seq<Byte>, n: seq<Byte>): int {
    Find(UpToNul(h), UpToNul(n))
  }

  lemma StrStrInside(h: seq<Byte>, n: seq<Byte>)
    requires h != []
    ensures StrStr(h, n) < |h|
  {
    var a, b := UpToNul(h), UpToNul(n);
    if b == [] {
      assert At(a, b, 0);
    }
  }
}
