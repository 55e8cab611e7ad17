/**
  Bulk operations on arrays whose elements hold objects: clearing a range and
  copying a range, possibly within one array.
 */
module Arrays {
  import opened ObjectGraph
  import opened RefCount
  import opened InFlight
  import Mutator

  /** A sequence with a range replaced. */
  function Spliced<T>(q: seq<T>, at: nat, values: seq<T>): seq<T>
    requires at + |values| <= |q|
  {
    q[..at] + values + q[at + |values|..]
  }

  ghost function WithSlots(s: State, w: Ref, slots: seq<Value>): State
    requires w in s.objects
  {
    s.(objects := s.objects[w := s.objects[w].(slots := slots)])
  }

  /** `w` is an array the caller holds, with room for a range of elements. */
  ghost predicate HeldArray(iso: Isolate, w: Ref)
    reads iso
  {
    && w in iso.locals && w in iso.objects && !iso.objects[w].pending
    && iso.objects[w].cls.kind == Class && iso.objects[w].cls.hook == ArrayHook
    && iso.objects[w].cls.properties <= |iso.objects[w].slots|
  }

  // -------------------------------------------------------------- clearing

  /** Elements before `at` hold their new value, the others their old one. */
  ghost predicate Clearing(e: State, d: set<Ref>, m: map<Ref, Obj>, w: Ref, previous: Obj, at: nat) {
    && w in e.objects && w in m && at <= |previous.slots| == |e.objects[w].slots|
    && m.Keys <= e.objects.Keys && e.objects.Keys - m.Keys <= d
    && (forall o :: o in m && o != w ==> Alike(e.objects[o], m[o]))
    && Alike(previous.(slots := e.objects[w].slots[..at] + previous.slots[at..]), m[w])
  }

  /** Emptied elements support nothing the unemptied array does not. */
  ghost predicate Emptier(x: Obj, y: Obj) {
    && Alike(x, y.(slots := x.slots)) && |x.slots| == |y.slots|
    && forall k :: 0 <= k < |x.slots| ==> Target(x.slots[k]) == NULL || x.slots[k] == y.slots[k]
  }

  lemma ClearingNested(e: State, d: set<Ref>, t: State, w: Ref, previous: Obj, at: nat)
    requires Releasable(e, d) && Clearing(e, d, t.objects, w, previous, at) && t.busy == e.busy == {}
    requires NULL !in e.objects
    requires Emptier(e.objects[w], previous) && e.props <= t.props && e.locals <= t.locals
    ensures Releasable(t, d) && Doomed(t) <= d
  {
    forall o | o in t.objects && !t.objects[o].pending && o !in d ensures Supported(t, d, o) {
      assert Supported(e, d, o);
      if u: Ref :| u !in d && Owns(e, u, o) {
        ClearingOwner(e, d, t, w, previous, at, u, o);
      }
    }
    DoomedIsLeast(t, {}, d);
  }

  lemma ClearingOwner(e: State, d: set<Ref>, t: State, w: Ref, previous: Obj, at: nat, u: Ref, o: Ref)
    requires Clearing(e, d, t.objects, w, previous, at) && t.busy == e.busy == {}
    requires Emptier(e.objects[w], previous) && u !in d && Owns(e, u, o) && o != NULL
    ensures Owns(t, u, o)
  {
    if WrapEdge(e, u, o) {
      assert WrapEdge(t, u, o);
    } else {
      var i: nat :| SlotEdge(e, u, i, o);
      if u == w {
        assert e.objects[w].slots[i] == previous.slots[i];
        assert (e.objects[w].slots[..at] + previous.slots[at..])[i] == previous.slots[i];
      }
      assert SlotEdge(t, u, i, o);
    }
  }

  lemma ClearingReleased(e: State, d: set<Ref>, t: State, n: map<Ref, Obj>, w: Ref, previous: Obj, at: nat)
    requires Clearing(e, d, t.objects, w, previous, at) && Released(t, {}, n) && Doomed(t) <= d && w in n
    ensures Clearing(e, d, n, w, previous, at)
  {
  }

  /** One element: overwritten first, then its old reference released. */
  method ClearElement(iso: Isolate, w: Ref, i: nat, zero: Value, ghost e: State, ghost d: set<Ref>, ghost previous: Obj)
    requires iso.Valid() && iso.busy == {} && w in iso.locals && w in iso.objects && !iso.objects[w].pending
    requires i < |iso.objects[w].slots| && i < |previous.slots| && Target(zero) == NULL
    requires iso.objects[w].cls.kind == Class
    requires e.busy == {} && NULL !in e.objects && Releasable(e, d) && Clearing(e, d, iso.objects, w, previous, i)
    requires Emptier(e.objects[w], previous) && e.props == iso.props && e.locals == iso.locals
    requires e.objects[w].slots[i] == zero
    modifies iso`objects, iso`firstObject, iso`allocationCount, iso`linked, iso`locals, iso`props, iso`busy
    ensures iso.Valid() && iso.props == old(iso.props) && iso.locals == old(iso.locals) && iso.busy == {}
    ensures Clearing(e, d, iso.objects, w, previous, i + 1)
  {
    hide Balanced, Booked, Doomed, Released, Exact, ShapeOk, Survive, One, Releasable, Clearing, Emptier;
    ghost var m: map<Ref, Obj>, p := iso.objects, iso.props;
    var value := Target(iso.objects[w].slots[i]);
    TakeKeepsBalance(iso.Heap(), w, i);
    iso.busy := iso.busy + {(w, i)};
    iso.props := iso.props + One(value);
    Mutator.OneIs(NULL);
    assert multiset{} <= iso.props;
    Mutator.FillSlot(iso, w, i, zero);
    assert iso.busy == {} && iso.props == p + One(value);
    TakePart(iso.props, p, One(value));
    if value != NULL {
      OneMember(p, value);
    }
    ghost var t := iso.Heap().(props := p);
    ClearingWrite(e, d, m, w, previous, i);
    ClearingNested(e, d, t, w, previous, i + 1);
    NothingBusy(Doomed(t));
    iso.DecreaseProperty(value);
    HeldSurvives(t, iso.objects, w);
    ClearingReleased(e, d, t, iso.objects, w, previous, i + 1);
  }

  lemma NothingBusy(d: set<Ref>)
    ensures BusySafe({}, d)
  {
  }

  lemma ClearingWrite(e: State, d: set<Ref>, m: map<Ref, Obj>, w: Ref, previous: Obj, at: nat)
    requires Clearing(e, d, m, w, previous, at) && at < |previous.slots|
    ensures at < |m[w].slots| && Clearing(e, d, Write(m, w, at, e.objects[w].slots[at]), w, previous, at + 1)
  {
    var slots := e.objects[w].slots;
    assert (slots[..at] + previous.slots[at..])[at := slots[at]] == slots[..at + 1] + previous.slots[at + 1..];
  }

  /** The elements of `w` with a range set to `zero`. */
  ghost function Zeroed(slots: seq<Value>, at: nat, length: nat, zero: Value): seq<Value>
    requires at + length <= |slots|
  {
    Spliced(slots, at, seq(length, _ => zero))
  }

  lemma ClearingStarts(s: State, w: Ref, at: nat, length: nat, zero: Value)
    requires w in s.objects && at + length <= |s.objects[w].slots| && Target(zero) == NULL
    ensures var e := WithSlots(s, w, Zeroed(s.objects[w].slots, at, length, zero));
      && Emptier(e.objects[w], s.objects[w])
      && Clearing(e, Doomed(e), s.objects, w, s.objects[w], at)
      && forall k :: at <= k < at + length ==> e.objects[w].slots[k] == zero
  {
    var previous := s.objects[w].slots;
    var slots := Zeroed(previous, at, length, zero);
    assert slots[..at] + previous[at..] == previous;
  }

  lemma ClearingEnds(s: State, n: map<Ref, Obj>, w: Ref, at: nat, length: nat, zero: Value)
    requires w in s.objects && at + length <= |s.objects[w].slots|
    requires var e := WithSlots(s, w, Zeroed(s.objects[w].slots, at, length, zero));
      Clearing(e, Doomed(e), n, w, s.objects[w], at + length)
    ensures var e := WithSlots(s, w, Zeroed(s.objects[w].slots, at, length, zero));
      Survive(e.objects, n) && e.objects.Keys - n.Keys <= DoomedWith(e, {})
  {
    var previous := s.objects[w].slots;
    var slots := Zeroed(previous, at, length, zero);
    assert slots[..at + length] + previous[at + length..] == slots;
  }

  /**
    `Array.clearRange`: every element of the range becomes `zero`, what an
    all-zero element reads as, and exactly the objects nothing owns any more
    are freed. An invalid range is refused and changes nothing.
   */
  method ClearRange(iso: Isolate, w: Ref, offset: nat, length: nat, zero: Value) returns (ok: bool)
    requires iso.Valid() && iso.busy == {} && HeldArray(iso, w) && Target(zero) == NULL
    modifies iso`objects, iso`firstObject, iso`allocationCount, iso`linked, iso`locals, iso`props, iso`busy
    ensures iso.Valid() && iso.props == old(iso.props) && iso.locals == old(iso.locals) && iso.busy == {}
    ensures w in old(iso.objects)
    ensures ok <==> offset + length <= |old(iso.objects[w]).slots| - old(iso.objects[w]).cls.properties
    ensures !ok ==> iso.objects == old(iso.objects)
    ensures ok ==> var x := old(iso.objects[w]);
      Released(WithSlots(old(iso.Heap()), w, Zeroed(x.slots, x.cls.properties + offset, length, zero)), {}, iso.objects)
    ensures ok ==> var x := old(iso.objects[w]);
      && w in iso.objects && |iso.objects[w].slots| == |x.slots|
      && forall k :: 0 <= k < |x.slots| ==>
           iso.objects[w].slots[k]
           == if x.cls.properties + offset <= k < x.cls.properties + offset + length then zero else x.slots[k]
  {
    hide Balanced, Booked, Doomed, Released, Exact, ShapeOk, Survive, Releasable, Clearing, Emptier, Zeroed;
    var base := iso.objects[w].cls.properties;
    var size := |iso.objects[w].slots| - base;
    if length > size || offset > size - length {
      return false;
    }
    ghost var s, previous := iso.Heap(), iso.objects[w];
    ghost var e := WithSlots(s, w, Zeroed(previous.slots, base + offset, length, zero));
    ghost var d := Doomed(e);
    NullIsFree(s);
    DoomedReleasable(e);
    ClearingStarts(s, w, base + offset, length, zero);
    var i := base + offset;
    while i < base + offset + length
      invariant base + offset <= i <= base + offset + length
      invariant iso.Valid() && iso.props == s.props && iso.locals == s.locals && iso.busy == {}
      invariant Clearing(e, d, iso.objects, w, previous, i)
    {
      ClearingAt(e, d, iso.objects, w, previous, i);
      ClearElement(iso, w, i, zero, e, d, previous);
      i := i + 1;
    }
    ClearingEnds(s, iso.objects, w, base + offset, length, zero);
    SettledIsReleased(e, {}, iso.Heap());
    ZeroedSlots(previous.slots, base + offset, length, zero);
    SlotsSurvive(s, w, e.objects[w].slots, iso.objects);
    return true;
  }

  lemma ZeroedSlots(slots: seq<Value>, at: nat, length: nat, zero: Value)
    requires at + length <= |slots|
    ensures var z := Zeroed(slots, at, length, zero);
      |z| == |slots| && forall k :: 0 <= k < |slots| ==> z[k] == if at <= k < at + length then zero else slots[k]
  {
  }

  /** An object that is held keeps the slots it has been given. */
  lemma SlotsSurvive(s: State, w: Ref, slots: seq<Value>, n: map<Ref, Obj>)
    requires w in s.objects && w in s.locals && Released(WithSlots(s, w, slots), {}, n)
    ensures w in n && n[w].slots == slots
  {
    hide Released;
    HeldSurvives(WithSlots(s, w, slots), n, w);
  }

  lemma NullIsFree(s: State)
    requires Balanced(s, NULL)
    ensures NULL !in s.objects
  {
  }

  lemma ClearingAt(e: State, d: set<Ref>, m: map<Ref, Obj>, w: Ref, previous: Obj, at: nat)
    requires Clearing(e, d, m, w, previous, at)
    ensures w in m && |m[w].slots| == |previous.slots| && m[w].pending == previous.pending && m[w].cls == previous.cls
  {
  }

  // --------------------------------------------------------------- copying

  ghost function RangeSlots(w: Ref, at: nat, length: nat): set<(Ref, nat)> {
    set i: nat | at <= i < at + length :: (w, i)
  }

  /** The heap between retaining the sources and moving the block: the destination range owns nothing. */
  ghost function Midway(s: State, b: Ref, at: nat, values: seq<Value>): State {
    State(s.objects, s.props + Refs(values), s.locals, s.busy + RangeSlots(b, at, |values|))
  }

  ghost function Copied(s: State, b: Ref, at: nat, values: seq<Value>): State
    requires b in s.objects && at + |values| <= |s.objects[b].slots|
  {
    WithSlots(s, b, Spliced(s.objects[b].slots, at, values))
  }

  lemma MidwaySlot(s: State, b: Ref, at: nat, values: seq<Value>, u: Ref, i: nat, o: Ref)
    requires s.busy == {} && b in s.objects && !s.objects[b].pending && at + |values| <= |s.objects[b].slots|
    ensures (u == b && at <= i < at + |values|) ==>
      && !SlotEdge(Midway(s, b, at, values), u, i, o)
      && (SlotEdge(Copied(s, b, at, values), u, i, o) <==> Target(values[i - at]) == o)
    ensures !(u == b && at <= i < at + |values|) ==>
      (SlotEdge(Midway(s, b, at, values), u, i, o) <==> SlotEdge(Copied(s, b, at, values), u, i, o))
  {
    hide Refs;
    var slots := Spliced(s.objects[b].slots, at, values);
    assert i < |slots| ==> slots[i] == if at <= i < at + |values| then values[i - at] else s.objects[b].slots[i];
  }

  lemma MidwayOwners(s: State, b: Ref, at: nat, values: seq<Value>, u: Ref, o: Ref)
    requires s.busy == {} && o != NULL && b in s.objects && !s.objects[b].pending
    requires at + |values| <= |s.objects[b].slots|
    ensures Owns(Midway(s, b, at, values), u, o) ==> Owns(Copied(s, b, at, values), u, o)
    ensures Owns(Copied(s, b, at, values), u, o) ==>
      Owns(Midway(s, b, at, values), u, o) || (u == b && o in Refs(values))
    ensures o in Refs(values) ==> Owns(Copied(s, b, at, values), b, o)
  {
    MidwayWraps(s, b, at, values, u, o);
    MidwaySlots(s, b, at, values, u, o);
    if o in Refs(values) {
      CopiedOwns(s, b, at, values, o);
    }
    hide Refs, SlotEdge, WrapEdge, Midway, Copied;
  }

  lemma MidwaySlots(s: State, b: Ref, at: nat, values: seq<Value>, u: Ref, o: Ref)
    requires s.busy == {} && o != NULL && b in s.objects && !s.objects[b].pending
    requires at + |values| <= |s.objects[b].slots|
    ensures forall i: nat :: SlotEdge(Midway(s, b, at, values), u, i, o) ==> SlotEdge(Copied(s, b, at, values), u, i, o)
    ensures forall i: nat ::
        SlotEdge(Copied(s, b, at, values), u, i, o) ==>
          SlotEdge(Midway(s, b, at, values), u, i, o) || (u == b && o in Refs(values))
  {
    hide Refs, SlotEdge, WrapEdge, Midway, Copied;
    var m, c := Midway(s, b, at, values), Copied(s, b, at, values);
    forall i: nat
      ensures SlotEdge(m, u, i, o) ==> SlotEdge(c, u, i, o)
      ensures SlotEdge(c, u, i, o) ==> SlotEdge(m, u, i, o) || (u == b && o in Refs(values))
    {
      MidwaySlot(s, b, at, values, u, i, o);
      if SlotEdge(c, u, i, o) && u == b && at <= i < at + |values| {
        ValueIsRef(values, i - at);
      }
    }
  }

  lemma CopiedOwns(s: State, b: Ref, at: nat, values: seq<Value>, o: Ref)
    requires s.busy == {} && b in s.objects && !s.objects[b].pending && at + |values| <= |s.objects[b].slots|
    requires o in Refs(values)
    ensures Owns(Copied(s, b, at, values), b, o)
  {
    RefsMember(values, o);
    hide Refs, SlotEdge, WrapEdge, Midway, Copied;
    var k: nat :| k < |values| && Target(values[k]) == o;
    MidwaySlot(s, b, at, values, b, at + k, o);
  }

  lemma MidwayWraps(s: State, b: Ref, at: nat, values: seq<Value>, u: Ref, o: Ref)
    requires b in s.objects && at + |values| <= |s.objects[b].slots|
    ensures WrapEdge(Midway(s, b, at, values), u, o) <==> WrapEdge(Copied(s, b, at, values), u, o)
  {
    hide Refs, Spliced;
  }

  lemma ValueIsRef(values: seq<Value>, k: nat)
    requires k < |values| && Target(values[k]) != NULL
    ensures Target(values[k]) in Refs(values)
  {
    if k > 0 {
      ValueIsRef(values[1..], k - 1);
    }
  }

  /**
    As long as the destination itself survives, references in flight and
    references stored support the same objects.
   */
  lemma MidwayReleasable(s: State, b: Ref, at: nat, values: seq<Value>, d: set<Ref>)
    requires s.busy == {} && NULL !in s.objects && b in s.objects && !s.objects[b].pending
    requires at + |values| <= |s.objects[b].slots| && b !in d
    ensures Releasable(Midway(s, b, at, values), d) <==> Releasable(Copied(s, b, at, values), d)
  {
    var m, c := Midway(s, b, at, values), Copied(s, b, at, values);
    forall u: Ref, o: Ref | o != NULL
      ensures Owns(m, u, o) ==> Owns(c, u, o)
      ensures Owns(c, u, o) ==> Owns(m, u, o) || (u == b && o in Refs(values))
      ensures o in Refs(values) ==> Owns(c, b, o)
    {
      MidwayOwners(s, b, at, values, u, o);
    }
    hide Owns, Refs;
    forall o | o in s.objects && !s.objects[o].pending && o !in d ensures Supported(m, d, o) <==> Supported(c, d, o) {
    }
  }

  lemma MidwayDoomed(s: State, b: Ref, at: nat, values: seq<Value>)
    requires s.busy == {} && NULL !in s.objects && b in s.objects && !s.objects[b].pending
    requires at + |values| <= |s.objects[b].slots| && b in s.locals
    ensures Doomed(Midway(s, b, at, values)) == Doomed(Copied(s, b, at, values))
  {
    var m, c := Midway(s, b, at, values), Copied(s, b, at, values);
    LocalsNotDoomed(m, {}, b);
    LocalsNotDoomed(c, {}, b);
    DoomedReleasable(m);
    DoomedReleasable(c);
    MidwayReleasable(s, b, at, values, Doomed(m));
    MidwayReleasable(s, b, at, values, Doomed(c));
    DoomedIsLeast(m, {}, Doomed(c));
    DoomedIsLeast(c, {}, Doomed(m));
  }

  /** Retains the sources: one more property owner for each occurrence in the source range. */
  method RetainRange(iso: Isolate, a: Ref, from: nat, length: nat)
    requires iso.Valid() && a in iso.objects && !iso.objects[a].pending && from + length <= |iso.objects[a].slots|
    requires iso.busy == {}
    modifies iso`objects, iso`firstObject, iso`linked, iso`props
    ensures iso.Valid() && iso.objects.Keys == old(iso.objects.Keys) && Survive(old(iso.objects), iso.objects)
    ensures iso.props == old(iso.props) + Refs(old(iso.objects[a]).slots[from..from + length])
  {
    hide Balanced, Booked, Exact, ShapeOk, Survive, Refs, One, SlotEdge;
    ghost var m: map<Ref, Obj>, p := iso.objects, iso.props;
    ghost var slots := iso.objects[a].slots;
    SurviveReflexive(m);
    RefsNone(slots, from);
    assert p + multiset{} == p;
    var i := 0;
    while i < length
      invariant i <= length && iso.Valid() && iso.objects.Keys == m.Keys && Survive(m, iso.objects)
      invariant iso.props == p + Refs(slots[from..from + i])
    {
      RefsGrow(slots, from, from + i, p);
      SurviveAlike(m, iso.objects, a);
      var o := Target(iso.objects[a].slots[from + i]);
      Mutator.OneIs(o);
      if o != NULL {
        ghost var n: map<Ref, Obj> := iso.objects;
        SlotTarget(iso.Heap(), a, from + i);
        iso.IncreaseProperty(o);
        Mutator.RelinkedAlike(n, iso.objects, o);
        SurviveEqual(m, n, iso.objects);
      }
      i := i + 1;
    }
  }

  lemma RefsGrow(slots: seq<Value>, from: nat, i: nat, p: multiset<Ref>)
    requires from <= i < |slots|
    ensures p + Refs(slots[from..i + 1]) == p + Refs(slots[from..i]) + One(Target(slots[i]))
  {
    assert slots[from..i + 1] == slots[from..i] + [slots[i]];
    RefsAppend(slots[from..i], [slots[i]]);
  }

  lemma SurviveAlike(m: map<Ref, Obj>, n: map<Ref, Obj>, o: Ref)
    requires Survive(m, n) && o in n
    ensures o in m && Alike(m[o], n[o])
  {
  }

  lemma SurviveEqual(m: map<Ref, Obj>, n: map<Ref, Obj>, u: map<Ref, Obj>)
    requires Survive(m, n) && n.Keys == u.Keys && forall k :: k in n ==> Alike(n[k], u[k])
    ensures Survive(m, u)
  {
  }

  lemma SlotTarget(s: State, w: Ref, i: nat)
    requires Balanced(s, NULL) && w in s.objects && !s.objects[w].pending && i < |s.objects[w].slots|
    requires (w, i) !in s.busy
    requires Target(s.objects[w].slots[i]) != NULL
    ensures Target(s.objects[w].slots[i]) in s.objects && !s.objects[Target(s.objects[w].slots[i])].pending
  {
    var o := Target(s.objects[w].slots[i]);
    assert SlotEdge(s, w, i, o);
    assert Exact(s, o) && (w, i) in SlotOwners(s, o);
  }

  /** Releases the occupants of the destination, each slot going out of account as its turn comes. */
  method ReleaseRange(iso: Isolate, b: Ref, at: nat, length: nat, ghost s: State, ghost d: set<Ref>)
    requires iso.Valid() && b in iso.locals && b in iso.objects && at + length <= |iso.objects[b].slots|
    requires iso.busy == {}
    requires s == State(iso.objects, iso.props, iso.locals, RangeSlots(b, at, length)) && d == Doomed(s)
    modifies iso`objects, iso`firstObject, iso`allocationCount, iso`linked, iso`locals, iso`props, iso`busy
    ensures iso.Valid() && iso.props == old(iso.props) && iso.locals == old(iso.locals)
    ensures iso.busy == RangeSlots(b, at, length)
    ensures Released(s, {}, iso.objects)
  {
    hide Balanced, Booked, Exact, ShapeOk, Survive, One, SlotEdge, Doomed, Released, Releasing, Releasable, BusySafe;
    DoomedReleasable(s);
    LocalsSafe(s, b, at, length);
    StartReleasing(s, d);
    SurviveReflexive(s.objects);
    var i := 0;
    while i < length
      invariant i <= length && iso.Valid() && iso.props == s.props && iso.locals == s.locals
      invariant iso.busy == RangeSlots(b, at, i) && Releasing(s, d, iso.objects) && Survive(s.objects, iso.objects)
    {
      ghost var n: map<Ref, Obj> := iso.objects;
      NotPending(iso.Heap(), b);
      SurviveAlike(s.objects, n, b);
      var o := Target(iso.objects[b].slots[at + i]);
      TakeKeepsBalance(iso.Heap(), b, at + i);
      iso.busy := iso.busy + {(b, at + i)};
      iso.props := iso.props + One(o);
      TakePart(iso.props, s.props, One(o));
      if o != NULL {
        OneMember(s.props, o);
      }
      ghost var t := iso.Heap().(props := s.props);
      NestedRelease(s, d, t);
      iso.DecreaseProperty(o);
      ReleasedSurvive(t, iso.objects);
      SurviveTransitive(s.objects, n, iso.objects);
      i := i + 1;
    }
    EndReleasing(s, iso.Heap());
  }

  lemma LocalsSafe(s: State, b: Ref, at: nat, length: nat)
    requires b in s.locals && s.busy == RangeSlots(b, at, length)
    ensures b !in Doomed(s) && BusySafe(s.busy, Doomed(s))
  {
    LocalsNotDoomed(s, {}, b);
  }

  lemma StartReleasing(s: State, d: set<Ref>)
    ensures Releasing(s, d, s.objects)
  {
  }

  lemma EndReleasing(s: State, t: State)
    requires Balanced(t, NULL) && t == s.(objects := t.objects)
    requires Releasing(s, Doomed(s), t.objects) && Survive(s.objects, t.objects)
    ensures Released(s, {}, t.objects)
  {
    hide Balanced, Survive;
    SettledIsReleased(s, {}, t);
  }

  lemma NotPending(s: State, b: Ref)
    requires Balanced(s, NULL) && b in s.locals
    ensures b in s.objects && !s.objects[b].pending
  {
    BalancedAt(s, NULL, b);
  }

  /** Moves the block: each destination slot receives its value and the reference retained for it. */
  method MoveRange(iso: Isolate, b: Ref, at: nat, values: seq<Value>, ghost p: multiset<Ref>)
    requires iso.Valid() && b in iso.objects && !iso.objects[b].pending && at + |values| <= |iso.objects[b].slots|
    requires iso.objects[b].cls.kind == Class && iso.objects[b].cls.properties <= at
    requires iso.busy == RangeSlots(b, at, |values|) && iso.props == p + Refs(values)
    modifies iso`objects, iso`props, iso`busy
    ensures iso.Valid() && iso.busy == {} && iso.props == p
    ensures var x := old(iso.objects[b]);
      iso.objects == old(iso.objects)[b := x.(slots := Spliced(x.slots, at, values))]
  {
    hide Balanced, Booked, Exact, ShapeOk, Refs, One;
    ghost var x := iso.objects[b];
    assert values[0..] == values;
    assert Spliced(x.slots, at, values[..0]) == x.slots;
    var i := 0;
    while i < |values|
      invariant i <= |values| && iso.Valid()
      invariant iso.busy == RangeSlots(b, at + i, |values| - i) && iso.props == p + Refs(values[i..])
      invariant iso.objects == old(iso.objects)[b := x.(slots := Spliced(x.slots, at, values[..i]))]
    {
      RefsHead(values, i, p);
      assert (b, at + i) in iso.busy;
      assert Spliced(x.slots, at, values[..i])[at + i := values[i]] == Spliced(x.slots, at, values[..i + 1]);
      Mutator.FillSlot(iso, b, at + i, values[i]);
      i := i + 1;
      assert iso.busy == RangeSlots(b, at + i, |values| - i);
    }
    assert values[..i] == values;
    RefsEnd(values, p);
  }

  lemma RefsHead(values: seq<Value>, i: nat, p: multiset<Ref>)
    requires i < |values|
    ensures One(Target(values[i])) <= p + Refs(values[i..])
    ensures p + Refs(values[i..]) - One(Target(values[i])) == p + Refs(values[i + 1..])
  {
    assert values[i..][1..] == values[i + 1..];
  }

  lemma RefsEnd(values: seq<Value>, p: multiset<Ref>)
    ensures p + Refs(values[|values|..]) == p
  {
  }

  /**
    `Array.copyTo` once the wrapper has checked both ranges; arrays of different
    element kinds are refused. The sources are retained before the destination's
    occupants are released, so an occupant that is also a source survives, also
    when the ranges overlap in one array. The destination ends equal to the
    source range as it was, and exactly the objects nothing owns are freed.
   */
  method CopyTo(
      iso: Isolate, a: Ref, b: Ref, destOffset: nat, srcOffset: nat, length: nat, compatible: bool)
    returns (ok: bool)
    requires iso.Valid() && iso.busy == {} && HeldArray(iso, a) && HeldArray(iso, b)
    requires iso.objects[a].cls.properties + srcOffset + length <= |iso.objects[a].slots|
    requires iso.objects[b].cls.properties + destOffset + length <= |iso.objects[b].slots|
    modifies iso`objects, iso`firstObject, iso`allocationCount, iso`linked, iso`locals, iso`props, iso`busy
    ensures iso.Valid() && iso.props == old(iso.props) && iso.locals == old(iso.locals) && iso.busy == {}
    ensures ok == compatible && (!ok ==> iso.objects == old(iso.objects))
    ensures ok ==> a in old(iso.objects) && b in old(iso.objects)
    ensures ok ==>
      var from, at := old(iso.objects[a]).cls.properties + srcOffset, old(iso.objects[b]).cls.properties + destOffset;
      Released(Copied(old(iso.Heap()), b, at, old(iso.objects[a]).slots[from..from + length]), {}, iso.objects)
    ensures ok ==>
      var x, y := old(iso.objects[a]), old(iso.objects[b]);
      var from, at := x.cls.properties + srcOffset, y.cls.properties + destOffset;
      && b in iso.objects && |iso.objects[b].slots| == |y.slots|
      && forall k :: 0 <= k < |y.slots| ==>
           iso.objects[b].slots[k] == if at <= k < at + length then x.slots[from + (k - at)] else y.slots[k]
  {
    hide Balanced, Booked, Exact, ShapeOk, Survive, Refs, Released, Doomed, Copied;
    if !compatible {
      return false;
    }
    ghost var s := iso.Heap();
    var from, at := iso.objects[a].cls.properties + srcOffset, iso.objects[b].cls.properties + destOffset;
    CopyValues(iso, a, b, at, from, length, s, s.objects[a].slots[from..from + length]);
    CopiedSlots(s, b, at, s.objects[a].slots[from..from + length], iso.objects);
    return true;
  }

  /** Retains, releases and moves, in terms of slots. */
  method CopyValues(
      iso: Isolate, a: Ref, b: Ref, at: nat, from: nat, length: nat, ghost s: State, ghost values: seq<Value>)
    requires s == iso.Heap() && a in s.objects && b in s.objects && at + |values| <= |s.objects[b].slots|
    requires from + length <= |s.objects[a].slots| && values == s.objects[a].slots[from..from + length]
    requires s.objects[b].cls.properties <= at
    requires iso.Valid() && iso.busy == {} && HeldArray(iso, a) && HeldArray(iso, b)
    modifies iso`objects, iso`firstObject, iso`allocationCount, iso`linked, iso`locals, iso`props, iso`busy
    ensures iso.Valid() && iso.props == s.props && iso.locals == s.locals && iso.busy == {}
    ensures Released(Copied(s, b, at, values), {}, iso.objects)
  {
    hide Balanced, Booked, Exact, ShapeOk, Survive, Refs, Released, Doomed, Copied, Midway, Spliced, RangeSlots;
    RetainRange(iso, a, from, length);
    SurviveAlike(s.objects, iso.objects, a);
    SurviveAlike(s.objects, iso.objects, b);
    var moved := iso.objects[a].slots[from..from + length];
    ghost var m := State(iso.objects, iso.props, iso.locals, RangeSlots(b, at, length));
    ReleaseRange(iso, b, at, length, m, Doomed(m));
    NullIsFree(s);
    CopiedReleased(s, b, at, values, m, iso.objects);
    MoveRange(iso, b, at, moved, s.props);
  }

  lemma CopiedSlots(s: State, b: Ref, at: nat, values: seq<Value>, n: map<Ref, Obj>)
    requires b in s.objects && b in s.locals && at + |values| <= |s.objects[b].slots|
    requires Released(Copied(s, b, at, values), {}, n)
    ensures b in n && |n[b].slots| == |s.objects[b].slots|
    ensures forall k :: 0 <= k < |n[b].slots| ==>
      n[b].slots[k] == if at <= k < at + |values| then values[k - at] else s.objects[b].slots[k]
  {
    hide Released;
    SlotsSurvive(s, b, Spliced(s.objects[b].slots, at, values), n);
  }

  /** The state the release saw, up to counts and links, is `Midway`. */
  ghost predicate Retained(s: State, b: Ref, at: nat, values: seq<Value>, m: State) {
    && s.busy == {} && NULL !in s.objects && b in s.objects && !s.objects[b].pending && b in s.locals
    && at + |values| <= |s.objects[b].slots|
    && m.objects.Keys == s.objects.Keys && Survive(s.objects, m.objects)
    && m.props == s.props + Refs(values) && m.locals == s.locals && m.busy == RangeSlots(b, at, |values|)
  }

  lemma RetainedDoomed(s: State, b: Ref, at: nat, values: seq<Value>, m: State)
    requires Retained(s, b, at, values, m)
    ensures Doomed(m) == Doomed(Copied(s, b, at, values)) && b !in Doomed(m)
  {
    LocalsNotDoomed(m, {}, b);
    MidwayDoomed(s, b, at, values);
    assert s.busy + RangeSlots(b, at, |values|) == RangeSlots(b, at, |values|);
    assert Midway(s, b, at, values) == m.(objects := s.objects);
    DoomedIgnoresCounts(m.(objects := s.objects), m);
  }

  lemma CopiedReleased(s: State, b: Ref, at: nat, values: seq<Value>, m: State, n: map<Ref, Obj>)
    requires Retained(s, b, at, values, m) && Released(m, {}, n)
    ensures b in n && Alike(s.objects[b], n[b])
    ensures Released(Copied(s, b, at, values), {}, n[b := n[b].(slots := Spliced(n[b].slots, at, values))])
  {
    hide DoomedWith, Refs, RangeSlots;
    RetainedDoomed(s, b, at, values, m);
    forall o | o in n ensures Alike(s.objects[o], n[o]) {
      assert Alike(m.objects[o], n[o]) && Alike(s.objects[o], m.objects[o]);
    }
  }
}
