/** The native operations of `String` over its holder: bytes, unit count and cached UTF-16 view. */
module Strings {
  import opened Utf8
  import opened TextIndex
  import opened Search

  datatype Result<T> = Ok(value: T) | Err(error: Error)
  datatype Error = OutOfBounds | SplitCharacter | OutOfMemory

  const WORD: nat := 0x1_0000_0000

  /** The number of units of a text. */
  method Utf16Length(s: seq<Byte>) returns (units: nat)
    ensures units == |Units(s)|
  {
    hide DecodeAt, Units;
    var i := 0;
    units := 0;
    assert s[..0] == [];
    NoUnits();
    while i < |s|
      invariant Boundary(s, i) && i <= |s| && units == |Units(s[..i])|
    {
      NextBoundary(s, i);
      DecodeSuffix(s, i);
      var d := DecodeAt(s, i);
      i := i + d.size;
      units := units + if d.cp >= 0x1_0000 then 2 else 1;
    }
    assert s[..i] == s;
  }

  /** A search result as the `int` it is returned as. */
  function ToInt(x: nat): int {
    if x % WORD < WORD / 2 then x % WORD else x % WORD - WORD
  }

  predicate Searchable(h: seq<Byte>, n: seq<Byte>) {
    WellFormed(h) && WellFormed(n) && 0 !in h && 0 !in n && n != [] && |h| < WORD / 2
  }

  /** The first byte match is the first unit match. */
  lemma FirstMatch(h: seq<Byte>, n: seq<Byte>, p: int)
    requires Searchable(h, n) && p == StrStr(h, n)
    ensures p >= 0 ==> ToInt(CountTo(h, p)) == CountTo(h, p) && At(Units(h), Units(n), CountTo(h, p))
    ensures p >= 0 ==> forall u: nat :: At(Units(h), Units(n), u) ==> CountTo(h, p) <= u
    ensures p < 0 ==> forall u: nat :: !At(Units(h), Units(n), u)
  {
    hide Units, DecodeAt, WellFormed, Boundary, CountTo;
    if p >= 0 {
      ByteMatchIsUnitMatch(h, n, p);
      CountFits(h, p);
    }
    forall u: nat | At(Units(h), Units(n), u) ensures p >= 0 && CountTo(h, p) <= u {
      var q := UnitMatchIsByteMatch(h, n, u);
      CountMonotone(h, p, q);
    }
  }

  lemma CountFits(h: seq<Byte>, p: nat)
    requires Boundary(h, p) && |h| < WORD / 2
    ensures ToInt(CountTo(h, p)) == CountTo(h, p)
  {
    hide DecodeAt, Units, Boundary, CountTo, OneByteSteps;
    CountToBoundary(h, p);
    UnitsBefore(h, p);
    UnitsWithinBytes(h);
  }

  /** The last byte match is the last unit match. */
  lemma LastMatch(h: seq<Byte>, n: seq<Byte>, p: int)
    requires Searchable(h, n) && (p == -1 || (p >= 0 && At(h, n, p))) && forall q: nat :: At(h, n, q) ==> q <= p
    ensures p >= 0 ==> ToInt(CountTo(h, p)) == CountTo(h, p) && At(Units(h), Units(n), CountTo(h, p))
    ensures p >= 0 ==> forall u: nat :: At(Units(h), Units(n), u) ==> u <= CountTo(h, p)
    ensures p < 0 ==> forall u: nat :: !At(Units(h), Units(n), u)
  {
    hide Units, DecodeAt, WellFormed, Boundary, CountTo;
    if p >= 0 {
      ByteMatchIsUnitMatch(h, n, p);
      CountFits(h, p);
    }
    forall u: nat | At(Units(h), Units(n), u) ensures p >= 0 && u <= CountTo(h, p) {
      var q := UnitMatchIsByteMatch(h, n, u);
      CountMonotone(h, q, p);
    }
  }

  /** Searching from byte `i` on. */
  lemma LaterMatches(h: seq<Byte>, n: seq<Byte>, i: nat, p: int)
    requires i < |h| && 0 !in h && 0 !in n && p == StrStr(h[i..], n)
    ensures p >= 0 ==> At(h, n, i + p)
    ensures forall q: nat :: At(h, n, q) && q >= i ==> 0 <= p && i + p <= q
  {
    hide UpToNul, Find;
    assert 0 !in h[i..];
    if p >= 0 {
      LaterMatch(h, n, i, p);
    }
    forall q: nat | At(h, n, q) && q >= i ensures 0 <= p && i + p <= q {
      EarlierMatch(h, n, i, q);
    }
  }

  lemma EarlierMatch(h: seq<Byte>, n: seq<Byte>, i: nat, q: nat)
    requires i <= q && At(h, n, q)
    ensures At(h[i..], n, q - i)
  {
    SliceOfRest(h, i, q - i, |n|);
  }

  /** What a located place says of the units on either side of it. */
  lemma LocatedUnits(s: seq<Byte>, unit: nat)
    ensures var p, u := Locate(s, unit), Units(s);
      && p.at <= |s| && (p.split <==> 0 < unit < |u| && 0xd800 <= u[unit - 1] <= 0xdbff)
      && (!p.split && unit <= |u| ==> Units(s[..p.at]) == u[..unit] && Units(s[p.at..]) == u[unit..])
  {
    hide Units, DecodeAt, Boundary, Locate;
    LocateIsExact(s, unit);
    UnitsSplit(s, Locate(s, unit).at);
  }

  lemma CountedUnits(s: seq<Byte>, p: nat)
    ensures Boundary(s, p) ==> p <= |s| && CountTo(s, p) == |Units(s[..p])|
  {
    hide Units, DecodeAt, Boundary, CountTo;
    if Boundary(s, p) {
      CountToBoundary(s, p);
    }
  }

  lemma AllPrefixes(h: seq<Unit>, n: seq<Unit>)
    ensures forall k: nat :: At(h, n, k) <==> k <= |h| && n <= h[k..]
  {
    forall k: nat ensures At(h, n, k) <==> k <= |h| && n <= h[k..] {
      AtIsPrefix(h, n, k);
    }
  }

  class Holder {
    const bytes: seq<Byte>
    const charLength: nat
    var wide: array?<Unit>

    ghost predicate Valid()
      reads this, wide
    {
      && charLength == |Units(bytes)| && |bytes| < WORD
      && (wide != null ==> wide[..] == Units(bytes))
    }

    constructor (bytes: seq<Byte>)
      requires |bytes| < WORD
      ensures Valid() && this.bytes == bytes && wide == null
    {
      var units := Utf16Length(bytes);
      this.bytes := bytes;
      charLength := units;
      wide := null;
    }

    /** The test behind every fast path: it means that every decode step took one byte. */
    predicate IsNarrow() {
      charLength == |bytes|
    }

    /** Stores the units of the character at byte `i` from position `o` on. */
    method StoreUnits(out: array<Unit>, i: nat, o: nat) returns (j: nat, k: nat)
      requires i < |bytes| && o < out.Length == |Units(bytes)| && Boundary(bytes, i)
      requires o == |Units(bytes[..i])| && out[..o] == Units(bytes[..i])
      modifies out
      ensures i < j <= |bytes| && Boundary(bytes, j) && k <= out.Length
      ensures k == |Units(bytes[..j])| && out[..k] == Units(bytes[..j])
    {
      hide DecodeAt, Units;
      var d := DecodeAt(bytes, i);
      DecodeSuffix(bytes, i);
      StepOk(bytes[i..]);
      NextBoundary(bytes, i);
      j := i + d.size;
      SliceUnits(bytes, j, j);
      UnitsUpTo(bytes, i, j);
      k := o;
      if d.cp < 0x1_0000 {
        out[k] := d.cp;
        k := k + 1;
      } else {
        var v := d.cp - 0x1_0000;
        out[k] := 0xd800 + v / 0x400;
        k := k + 1;
        if k < out.Length {
          out[k] := 0xdc00 + v % 0x400;
          k := k + 1;
        }
      }
      assert out[..k] == out[..o] + UnitsOf(d.cp);
    }

    method FillUnits(out: array<Unit>)
      requires out.Length == |Units(bytes)|
      modifies out
      ensures out[..] == Units(bytes)
    {
      hide DecodeAt, Units;
      var i, o := 0, 0;
      assert bytes[..0] == [];
      NoUnits();
      while i < |bytes| && o < out.Length
        invariant i <= |bytes| && Boundary(bytes, i) && o <= out.Length
        invariant o == |Units(bytes[..i])| && out[..o] == Units(bytes[..i])
      {
        i, o := StoreUnits(out, i, o);
      }
      FullAtEnd(bytes, i);
      assert bytes[..|bytes|] == bytes;
      assert out[..o] == out[..];
    }

    /** The cached UTF-16 view, built on first use; null when the text needs none or memory is short. */
    method Wide(memory: bool) returns (view: array?<Unit>)
      requires Valid()
      modifies this`wide
      ensures Valid() && view != null ==> view[..] == Units(bytes)
      ensures Valid() && (old(wide) != null ==> wide == old(wide)) && (view == null || view == wide)
      ensures view == null <==> |Units(bytes)| == |bytes| || (old(wide) == null && !memory)
    {
      hide Units, DecodeAt;
      NoUnits();
      if charLength == |bytes| {
        return null;
      }
      if wide != null {
        return wide;
      }
      var units := charLength;
      if units == 0 {
        assert bytes != [];
        UnitsNonEmpty(bytes);
        return null;
      }
      if !memory {
        return null;
      }
      view := new Unit[units];
      FillUnits(view);
      wide := view;
    }

    /** Reading one unit: a byte on the fast path, the cached view, or a walk when there is none. */
    method CharacterAtNative(index: nat, memory: bool) returns (r: Result<Unit>)
      requires Valid()
      modifies this`wide
      ensures Valid()
      ensures r == if index >= |Units(bytes)| then Err(OutOfBounds)
        else if |Units(bytes)| == |bytes| then Ok(bytes[index]) else Ok(Units(bytes)[index])
    {
      hide Units, DecodeAt;
      UnitsWithinBytes(bytes);
      if index >= charLength {
        return Err(OutOfBounds);
      }
      if charLength == |bytes| {
        return Ok(bytes[index]);
      }
      var view := Wide(memory);
      if view != null {
        assert view[..][index] == view[index];
        return Ok(view[index]);
      }
      var unit := WalkTo(index);
      return Ok(unit);
    }

    /** The walk to a unit, for want of a view. */
    method WalkTo(index: nat) returns (unit: Unit)
      requires index < |Units(bytes)|
      ensures unit == Units(bytes)[index]
    {
      hide Units, DecodeAt;
      var i, o := 0, 0;
      unit := 0;
      assert bytes[..0] == [];
      NoUnits();
      while i < |bytes| && o <= index
        invariant i <= |bytes| && Boundary(bytes, i) && o == |Units(bytes[..i])|
        invariant o > index ==> unit == Units(bytes)[index]
      {
        var d := DecodeAt(bytes, i);
        DecodeSuffix(bytes, i);
        StepOk(bytes[i..]);
        NextBoundary(bytes, i);
        UnitsUpTo(bytes, i, i + d.size);
        SliceUnits(bytes, i, i + d.size);
        UnitsSplit(bytes, i + d.size);
        i := i + d.size;
        if d.cp < 0x1_0000 {
          if o == index {
            unit := d.cp;
          }
          o := o + 1;
        } else {
          var v := d.cp - 0x1_0000;
          if o == index {
            unit := 0xd800 + v / 0x400;
          }
          o := o + 1;
          if o == index {
            unit := 0xdc00 + v % 0x400;
          }
          o := o + 1;
        }
      }
      assert i == |bytes| ==> bytes[..i] == bytes;
    }

    /**
      All units, by the same three ways. Only the array itself must find memory
      (`room`): without memory for the view the text is decoded directly.
     */
    method GetChars(room: bool, memory: bool) returns (r: Result<array<Unit>>)
      requires Valid()
      modifies this`wide
      ensures Valid() && (r.Ok? <==> room) && (r.Err? ==> r.error == OutOfMemory)
      ensures r.Ok? ==>
        fresh(r.value) && r.value[..] == if |Units(bytes)| == |bytes| then bytes else Units(bytes)
    {
      hide Units, DecodeAt;
      UnitsWithinBytes(bytes);
      if !room {
        return Err(OutOfMemory);
      }
      var out := new Unit[charLength];
      if charLength == |bytes| {
        var i := 0;
        while i < charLength
          invariant i <= charLength && out[..i] == bytes[..i] && Valid() && out != wide
        {
          out[i] := bytes[i];
          i := i + 1;
        }
        assert out[..] == out[..i] && bytes[..i] == bytes;
        return Ok(out);
      }
      var view := Wide(memory);
      if view != null {
        forall k | 0 <= k < out.Length {
          out[k] := view[..][k];
        }
        assert out[..] == view[..];
        return Ok(out);
      }
      FillUnits(out);
      return Ok(out);
    }

    // ------------------------------------------------------- index maps

    /** The byte offset of a unit index, and whether that index falls inside a character. */
    method UnitToByte(unit: nat) returns (at: nat, split: bool)
      requires Valid()
      ensures Place(at, split) == Locate(bytes, unit)
      ensures var u := Units(bytes);
        && at <= |bytes| && (split <==> 0 < unit < |u| && 0xd800 <= u[unit - 1] <= 0xdbff)
        && (!split && unit <= |u| ==> Units(bytes[..at]) == u[..unit] && Units(bytes[at..]) == u[unit..])
    {
      hide Units, DecodeAt, Boundary, Splits;
      LocatedUnits(bytes, unit);
      UnitsWithinBytes(bytes);
      if charLength == |bytes| {
        OneByteIndex(bytes, unit);
        return if unit < |bytes| then unit else |bytes|, false;
      }
      var i, o := 0, 0;
      assert bytes[0..] == bytes;
      while i < |bytes| && o < unit
        invariant i <= |bytes| && o <= unit
        invariant Locate(bytes, unit) == Place(i + Locate(bytes[i..], unit - o).at, Locate(bytes[i..], unit - o).split)
      {
        var d := DecodeAt(bytes, i);
        DecodeSuffix(bytes, i);
        StepOk(bytes[i..]);
        assert bytes[i..][d.size..] == bytes[i + d.size..];
        if d.cp >= 0x1_0000 {
          if o + 1 == unit {
            return i, true;
          }
          o := o + 2;
        } else {
          o := o + 1;
        }
        i := i + d.size;
      }
      return i, false;
    }

    method ByteToUnit(offset: nat) returns (unit: nat)
      requires Valid()
      ensures unit == CountTo(bytes, offset)
      ensures Boundary(bytes, offset) ==> offset <= |bytes| && unit == |Units(bytes[..offset])|
    {
      hide Units, DecodeAt, Boundary;
      CountedUnits(bytes, offset);
      UnitsWithinBytes(bytes);
      if charLength == |bytes| {
        OneByteIndex(bytes, offset);
        return if offset < |bytes| then offset else charLength;
      }
      var i := 0;
      unit := 0;
      assert bytes[0..] == bytes;
      while i < |bytes| && i < offset
        invariant i <= |bytes|
        invariant CountTo(bytes, offset) == unit + CountTo(bytes[i..], if i < offset then offset - i else 0)
      {
        var d := DecodeAt(bytes, i);
        DecodeSuffix(bytes, i);
        StepOk(bytes[i..]);
        assert bytes[i..][d.size..] == bytes[i + d.size..];
        i := i + d.size;
        unit := unit + if d.cp >= 0x1_0000 then 2 else 1;
      }
    }

    // ----------------------------------------------- substring and search

    /**
      The text between two unit positions. It decodes to exactly those units of
      the original; it fails exactly when the end is out of range, also when
      `start + length` wraps around, when an end falls inside a character, or when
      there is no memory for the new text.
     */
    method Substring(start: nat, length: nat, room: bool) returns (r: Result<Holder>)
      requires Valid() && start < WORD && length < WORD
      ensures r.Ok? ==> fresh(r.value) && r.value.Valid() && start + length <= |Units(bytes)|
      ensures r.Ok? ==> Units(r.value.bytes) == Units(bytes)[start..start + length]
      ensures r == Err(OutOfBounds) <==> start + length > |Units(bytes)|
      ensures var u, end := Units(bytes), start + length;
        end <= |u| ==>
          var split := (0 < start < |u| && 0xd800 <= u[start - 1] <= 0xdbff)
            || (0 < end < |u| && 0xd800 <= u[end - 1] <= 0xdbff);
          && (r == Err(SplitCharacter) <==> split) && (r == Err(OutOfMemory) <==> !split && !room)
    {
      hide Units, DecodeAt, OneByteSteps;
      UnitsWithinBytes(bytes);
      var end := (start + length) % WORD;
      if end > charLength || end < start {
        return Err(OutOfBounds);
      }
      var from, splitStart := UnitToByte(start);
      var to, splitEnd := UnitToByte(end);
      LocateIsExact(bytes, start);
      LocateIsExact(bytes, end);
      if splitStart || splitEnd {
        return Err(SplitCharacter);
      }
      if !room {
        return Err(OutOfMemory);
      }
      if to < from {
        LaterBoundary(bytes, to, from);
      }
      SliceUnits(bytes, from, to);
      var t := new Holder(bytes[from..to]);
      return Ok(t);
    }

    /** For searchable texts, the least unit index at which the units match. */
    method IndexOf(s: Holder) returns (r: int)
      requires Valid()
      ensures r == if StrStr(bytes, s.bytes) < 0 then -1 else ToInt(CountTo(bytes, StrStr(bytes, s.bytes)))
      ensures (WellFormed(bytes) && WellFormed(s.bytes) && 0 !in bytes && 0 !in s.bytes
               && s.bytes != [] && |bytes| < 0x8000_0000) ==>
        var h, n := Units(bytes), Units(s.bytes);
        && (r >= 0 ==> r <= |h| && n <= h[r..] && forall k: nat :: k <= |h| && n <= h[k..] ==> r <= k)
        && (r < 0 ==> r == -1 && forall k: nat :: k <= |h| ==> !(n <= h[k..]))
    {
      hide Units, DecodeAt, WellFormed;
      var p := StrStr(bytes, s.bytes);
      if p >= 0 {
        var unit := ByteToUnit(p);
        r := ToInt(unit);
      } else {
        r := -1;
      }
      if Searchable(bytes, s.bytes) {
        FirstMatch(bytes, s.bytes, p);
        AllPrefixes(Units(bytes), Units(s.bytes));
      }
    }

    /** For searchable texts, the greatest unit index at which the units match. */
    method LastIndexOf(s: Holder) returns (r: int)
      requires Valid()
      ensures (WellFormed(bytes) && WellFormed(s.bytes) && 0 !in bytes && 0 !in s.bytes
               && s.bytes != [] && |bytes| < 0x8000_0000) ==>
        var h, n := Units(bytes), Units(s.bytes);
        && (r >= 0 ==> r <= |h| && n <= h[r..] && forall k: nat :: k <= |h| && n <= h[k..] ==> k <= r)
        && (r < 0 ==> r == -1 && forall k: nat :: k <= |h| ==> !(n <= h[k..]))
    {
      hide Units, DecodeAt, WellFormed, UpToNul;
      var last := -1;
      ghost var plain := Searchable(bytes, s.bytes);
      var i := 0;
      while i < |bytes|
        invariant -1 <= last < i <= |bytes| || (last == -1 && i == 0)
        invariant plain && last >= 0 ==> At(bytes, s.bytes, last)
        invariant plain ==> forall q: nat :: At(bytes, s.bytes, q) ==> q <= last || q >= i
      {
        var p := StrStr(bytes[i..], s.bytes);
        StrStrInside(bytes[i..], s.bytes);
        if plain {
          LaterMatches(bytes, s.bytes, i, p);
        }
        if p >= 0 {
          last := i + p;
          i := last;
        } else {
          break;
        }
        i := i + 1;
      }
      if plain {
        LastMatch(bytes, s.bytes, last);
      }
      if last < 0 {
        r := -1;
      } else {
        var unit := ByteToUnit(last);
        r := ToInt(unit);
      }
      if plain {
        AllPrefixes(Units(bytes), Units(s.bytes));
      }
    }
  }
}
