/**
  Byte and unit positions in a text: where characters start, which byte a unit
  belongs to, and what a slice between two characters decodes to.
 */
module TextIndex {
  import opened Utf8

  function Size(s: seq<Byte>): (n: nat)
    requires s != []
    ensures 1 <= n <= |s|
  {
    StepOk(s);
    Decode(s).size
  }

  predicate Astral(s: seq<Byte>)
    requires s != []
  {
    Decode(s).cp >= 0x1_0000
  }

  /** A decode step from the start ends at `p`. */
  predicate Boundary(s: seq<Byte>, p: nat)
    decreases |s|
  {
    p == 0 || (s != [] && Size(s) <= p && Boundary(s[Size(s)..], p - Size(s)))
  }

  /** A decode step looks at nothing before it. */
  lemma DecodeSuffix(s: seq<Byte>, i: nat)
    requires i <= |s|
    ensures DecodeAt(s, i) == Decode(s[i..])
  {
  }

  /** Nor does it depend on what follows: cutting the text after the step changes nothing. */
  lemma DecodePrefix(s: seq<Byte>, p: nat)
    requires s != [] && Size(s) <= p <= |s|
    ensures Decode(s[..p]) == Decode(s) && Size(s[..p]) == Size(s)
  {
  }

  lemma UnitsNonEmpty(s: seq<Byte>)
    requires s != []
    ensures Units(s) != []
  {
    StepOk(s);
  }

  lemma UnitsStep(s: seq<Byte>)
    requires s != []
    ensures Units(s) == UnitsOf(Decode(s).cp) + Units(s[Size(s)..])
    ensures |Units(s)| == (if Astral(s) then 2 else 1) + |Units(s[Size(s)..])|
  {
    StepOk(s);
  }

  /** The units of a text are those before a boundary followed by those after it. */
  lemma {:induction false} UnitsSplit(s: seq<Byte>, p: nat)
    requires Boundary(s, p)
    ensures p <= |s| && Units(s) == Units(s[..p]) + Units(s[p..])
    decreases |s|
  {
    hide DecodeAt, UnitsOf, Units;
    if p == 0 {
      assert s[..0] == [] && s[0..] == s;
      NoUnits();
    } else {
      var n := Size(s);
      var rest := s[n..];
      StepOk(s);
      UnitsSplit(rest, p - n);
      DecodePrefix(s, p);
      UnitsStep(s);
      UnitsStep(s[..p]);
      assert s[..p][n..] == rest[..p - n] && s[p..] == rest[p - n..];
      Associate(UnitsOf(Decode(s).cp), Units(rest[..p - n]), Units(rest[p - n..]));
    }
  }

  lemma NoUnits()
    ensures Units([]) == []
  {
  }

  lemma Associate<T>(a: seq<T>, b: seq<T>, c: seq<T>)
    ensures a + (b + c) == (a + b) + c
  {
  }

  lemma {:induction false} BoundaryBetween(s: seq<Byte>, a: nat, b: nat)
    requires Boundary(s, a) && Boundary(s, b) && a <= b
    ensures b <= |s| && Boundary(s[a..], b - a) && Boundary(s[..b], a)
    decreases |s|
  {
    hide DecodeAt, Units;
    UnitsSplit(s, b);
    if a == 0 {
      assert s[0..] == s;
    } else {
      var n := Size(s);
      BoundaryBetween(s[n..], a - n, b - n);
      DecodePrefix(s, b);
      assert s[a..] == s[n..][a - n..] && s[..b][n..] == s[n..][..b - n];
    }
  }

  lemma {:induction false} BoundaryAfter(s: seq<Byte>, a: nat, b: nat)
    requires Boundary(s, a) && a <= |s| && Boundary(s[a..], b)
    ensures Boundary(s, a + b)
    decreases |s|
  {
    if a == 0 {
      assert s[0..] == s;
    } else {
      var n := Size(s);
      assert s[a..] == s[n..][a - n..];
      BoundaryAfter(s[n..], a - n, b);
    }
  }

  lemma {:induction false} EndIsBoundary(s: seq<Byte>)
    ensures Boundary(s, |s|)
    decreases |s|
  {
    if s != [] {
      EndIsBoundary(s[Size(s)..]);
    }
  }

  /** One step on from a boundary. */
  lemma NextBoundary(s: seq<Byte>, i: nat)
    requires Boundary(s, i) && i < |s|
    ensures Boundary(s, i + Size(s[i..])) && i + Size(s[i..]) <= |s|
    ensures |Units(s[..i + Size(s[i..])])| == |Units(s[..i])| + if Astral(s[i..]) then 2 else 1
  {
    hide DecodeAt, Units, Boundary, Size, Astral;
    var n := Size(s[i..]);
    var j := i + n;
    StepIsBoundary(s[i..]);
    BoundaryAfter(s, i, n);
    UnitsBefore(s, i);
    UnitsBefore(s, j);
    UnitsStep(s[i..]);
    RestOfRest(s, i, n);
  }

  lemma UnitsBefore(s: seq<Byte>, p: nat)
    requires Boundary(s, p)
    ensures p <= |s| && |Units(s)| == |Units(s[..p])| + |Units(s[p..])|
  {
    UnitsSplit(s, p);
  }

  lemma RestOfRest<T>(s: seq<T>, i: nat, n: nat)
    requires i + n <= |s|
    ensures s[i..][n..] == s[i + n..]
  {
  }

  lemma StepIsBoundary(s: seq<Byte>)
    requires s != []
    ensures Boundary(s, Size(s))
  {
  }

  /** The units up to the next boundary. */
  lemma UnitsUpTo(s: seq<Byte>, i: nat, j: nat)
    requires Boundary(s, i) && i < |s| && j == i + Size(s[i..])
    ensures Boundary(s, j) && j <= |s| && Scalar(Decode(s[i..]).cp)
    ensures Units(s[..j]) == Units(s[..i]) + UnitsOf(Decode(s[i..]).cp)
    ensures |Units(s[..j])| <= |Units(s)| && Units(s)[..|Units(s[..j])|] == Units(s[..j])
  {
    hide DecodeAt, Units;
    NextBoundary(s, i);
    BoundaryBetween(s, i, j);
    UnitsSplit(s[..j], i);
    UnitsSplit(s, j);
    assert s[..j][..i] == s[..i] && s[..j][i..] == s[i..][..j - i];
    DecodePrefix(s[i..], j - i);
    StepOk(s[i..]);
    UnitsStep(s[i..][..j - i]);
    assert s[i..][..j - i][j - i..] == [];
    NoUnits();
  }

  lemma FullAtEnd(s: seq<Byte>, i: nat)
    requires Boundary(s, i) && i <= |s| && (i == |s| || |Units(s[..i])| >= |Units(s)|)
    ensures i == |s|
  {
    UnitsSplit(s, i);
    if i < |s| {
      UnitsNonEmpty(s[i..]);
    }
  }

  /** What lies between two boundaries decodes to exactly the units between them. */
  lemma SliceUnits(s: seq<Byte>, a: nat, b: nat)
    requires Boundary(s, a) && Boundary(s, b) && a <= b
    ensures b <= |s| && |Units(s[..a])| <= |Units(s[..b])| <= |Units(s)|
    ensures Units(s[a..b]) == Units(s)[|Units(s[..a])|..|Units(s[..b])|]
  {
    BoundaryBetween(s, a, b);
    UnitsSplit(s, a);
    UnitsSplit(s, b);
    UnitsSplit(s[..b], a);
    assert s[..b][..a] == s[..a] && s[..b][a..] == s[a..b];
  }

  lemma LaterBoundary(s: seq<Byte>, a: nat, b: nat)
    requires Boundary(s, a) && Boundary(s, b) && a < b
    ensures b <= |s| && |Units(s[..a])| < |Units(s[..b])|
  {
    SliceUnits(s, a, b);
    UnitsNonEmpty(s[a..b]);
  }

  // ------------------------------------------------- from units to bytes

  /** Where a unit position falls: a byte offset, and whether it is inside the character there. */
  datatype Place = Place(at: nat, split: bool)

  /** The walk of `__string_unit_to_byte`. */
  function Locate(s: seq<Byte>, unit: nat): Place
    decreases |s|
  {
    if s == [] || unit == 0 then Place(0, false)
    else if Astral(s) && unit == 1 then Place(0, true)
    else
      var rest := Locate(s[Size(s)..], unit - if Astral(s) then 2 else 1);
      Place(Size(s) + rest.at, rest.split)
  }

  /** Unit position `unit` lies between the two surrogates of one character. */
  predicate Splits(u: seq<Unit>, unit: nat) {
    0 < unit < |u| && 0xd800 <= u[unit - 1] <= 0xdbff
  }

  /** `Locate` finds the boundary with `unit` units before it, unless that falls inside a character. */
  lemma {:induction false} LocateIsExact(s: seq<Byte>, unit: nat)
    ensures var p := Locate(s, unit);
      && Boundary(s, p.at) && p.at <= |s| && p.split == Splits(Units(s), unit)
      && (unit >= |Units(s)| ==> p.at == |s|)
      && (unit <= |Units(s)| ==> |Units(s[..p.at])| + (if p.split then 1 else 0) == unit)
    decreases |s|
  {
    hide DecodeAt, UnitsOf, Units;
    if s == [] || unit == 0 {
      assert s[..0] == [];
      NoUnits();
      if s != [] {
        UnitsNonEmpty(s);
      }
    } else {
      StepOk(s);
      UnitsStep(s);
      var n, k := Size(s), if Astral(s) then 2 else 1;
      SplitsStep(s, unit);
      if unit < k {
        assert s[..0] == [];
        NoUnits();
      } else {
        LocateIsExact(s[n..], unit - k);
        var p := Locate(s, unit);
        BoundaryUnits(s, p.at);
      }
    }
  }

  lemma SplitsStep(s: seq<Byte>, unit: nat)
    requires s != [] && unit > 0
    ensures var k := if Astral(s) then 2 else 1;
      if unit < k then Splits(Units(s), unit) else Splits(Units(s), unit) <==> Splits(Units(s[Size(s)..]), unit - k)
  {
    StepOk(s);
    UnitsStep(s);
    hide DecodeAt, Units;
    if s[Size(s)..] != [] {
      UnitsNonEmpty(s[Size(s)..]);
    }
  }

  lemma BoundaryUnits(s: seq<Byte>, p: nat)
    requires s != [] && Size(s) <= p <= |s|
    ensures |Units(s[..p])| == (if Astral(s) then 2 else 1) + |Units(s[Size(s)..][..p - Size(s)])|
  {
    DecodePrefix(s, p);
    UnitsStep(s[..p]);
    assert s[..p][Size(s)..] == s[Size(s)..][..p - Size(s)];
  }

  // ------------------------------------------------- from bytes to units

  /** The walk of `__string_byte_to_unit`. */
  function CountTo(s: seq<Byte>, p: nat): nat
    decreases |s|
  {
    if s == [] || p == 0 then 0
    else (if Astral(s) then 2 else 1) + CountTo(s[Size(s)..], if p < Size(s) then 0 else p - Size(s))
  }

  lemma {:induction false} CountToBoundary(s: seq<Byte>, p: nat)
    requires Boundary(s, p)
    ensures p <= |s| && CountTo(s, p) == |Units(s[..p])|
    decreases |s|
  {
    hide DecodeAt, Units;
    UnitsBefore(s, p);
    if p == 0 {
      assert s[..0] == [];
      NoUnits();
    } else {
      CountToBoundary(s[Size(s)..], p - Size(s));
      BoundaryUnits(s, p);
    }
  }

  /** Unit to byte and byte to unit undo each other wherever characters start. */
  lemma IndexRoundTrip(s: seq<Byte>, p: nat, unit: nat)
    ensures Boundary(s, p) ==> Locate(s, CountTo(s, p)) == Place(p, false)
    ensures unit <= |Units(s)| && !Splits(Units(s), unit) ==>
        Boundary(s, Locate(s, unit).at) && CountTo(s, Locate(s, unit).at) == unit
  {
    LocateIsExact(s, unit);
    CountToBoundary(s, Locate(s, unit).at);
    if Boundary(s, p) {
      CountToBoundary(s, p);
      UnitsSplit(s, p);
      var u := |Units(s[..p])|;
      LocateIsExact(s, u);
      var q := Locate(s, u);
      NotSplitAtBoundary(s, p);
      if q.at < p {
        LaterBoundary(s, q.at, p);
      } else if p < q.at {
        LaterBoundary(s, p, q.at);
      }
    }
  }

  lemma NotSplitAtBoundary(s: seq<Byte>, p: nat)
    requires Boundary(s, p)
    ensures p <= |s| && !Splits(Units(s), |Units(s[..p])|)
    decreases |s|
  {
    hide DecodeAt, Units;
    UnitsBefore(s, p);
    if p == 0 {
      assert s[..0] == [];
      NoUnits();
    } else {
      var rest := s[Size(s)..];
      NotSplitAtBoundary(rest, p - Size(s));
      BoundaryUnits(s, p);
      SplitsStep(s, |Units(s[..p])|);
    }
  }

  // ----------------------------------------------- one byte to the unit

  /** When every step takes one byte, byte and unit positions are the same. */
  lemma {:induction false} OneByteIndex(s: seq<Byte>, k: nat)
    requires OneByteSteps(s)
    ensures Locate(s, k) == Place(if k < |s| then k else |s|, false)
    ensures CountTo(s, k) == if k < |s| then k else |s|
    decreases |s|
  {
    if s != [] && k != 0 {
      assert !Astral(s) by {
        DecodeAcceptsGrammar(s, 0);
        StepOk(s);
      }
      OneByteIndex(s[1..], k - 1);
    }
  }

  /** Reading the byte for the unit is right for ASCII and for nothing else. */
  lemma {:induction false} OneByteUnits(s: seq<Byte>, k: nat)
    requires OneByteSteps(s) && k < |s|
    ensures |Units(s)| == |s| && (s[k] == Units(s)[k] <==> s[k] < 0x80)
    ensures WellFormed(s) ==> s[k] < 0x80
    decreases |s|
  {
    UnitsWithinBytes(s);
    StepOk(s);
    UnitsStep(s);
    DecodeAcceptsGrammar(s, 0);
    if k > 0 {
      OneByteUnits(s[1..], k - 1);
    } else if WellFormed(s) {
      assert s[..1] == [s[0]];
    }
  }

  /**
    The test for the fast path does not mean ASCII: the bytes are the units
    exactly when each of them is below 0x80, which well-formed text ensures.
   */
  lemma FastPathIsExact(s: seq<Byte>)
    requires OneByteSteps(s)
    ensures Units(s) == s <==> forall k :: 0 <= k < |s| ==> s[k] < 0x80
    ensures WellFormed(s) ==> Units(s) == s
  {
    UnitsWithinBytes(s);
    forall k: nat | k < |s| ensures (s[k] == Units(s)[k] <==> s[k] < 0x80) && (WellFormed(s) ==> s[k] < 0x80) {
      OneByteUnits(s, k);
    }
  }

  /** A lone tail byte passes the test and is read as itself, though it decodes to a replacement character. */
  lemma FastPathOnMalformed()
    ensures OneByteSteps([0x80]) && Units([0x80]) == [REPLACEMENT]
  {
    StepOk([0x80]);
  }
}
