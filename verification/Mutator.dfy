/**
  What running code does to the heap: creating objects, writing property slots,
  and the bulk operations on arrays.
 */
module Mutator {
  import opened ObjectGraph
  import opened RefCount
  import opened InFlight

  // ------------------------------------------------------------ creation

  /** A new object with one local reference and empty slots. */
  function Blank(cls: Cls, size: nat, data: seq<int>): Obj {
    Obj(cls, seq(size, _ => Object(NULL)), NULL, data, 1, 0, false, false, NULL, NULL)
  }

  lemma BlankShape(cls: Cls, size: nat, data: seq<int>)
    requires cls.properties <= size && (cls.hook != ArrayHook ==> cls.properties == size)
    requires (cls.kind != Class ==> size == 0)
    ensures ShapeOk(Blank(cls, size, data))
  {
  }

  /** The heap with `x` at the unused address `at`, held by one local reference. */
  ghost function With(s: State, at: Ref, x: Obj): State {
    State(s.objects[at := x], s.props, s.locals + multiset{at}, s.busy)
  }

  /** An object that neither owns anything nor is owned yet. */
  ghost predicate Newborn(x: Obj) {
    && x.impl == NULL && (forall k :: 0 <= k < |x.slots| ==> Target(x.slots[k]) == NULL)
    && x.references == 1 && x.propertyReferences == 0 && !x.pending && !x.immortal
  }

  lemma NewKeepsBalance(s: State, at: Ref, x: Obj)
    requires Balanced(s, NULL) && at != NULL && at !in s.objects && ShapeOk(x) && Newborn(x)
    ensures Balanced(With(s, at, x), NULL)
  {
    NewIsClosed(s, at, x);
    forall o | o in With(s, at, x).objects ensures Exact(With(s, at, x), o) {
      NewIsExact(s, at, x, o);
    }
    assert Counted(With(s, at, x));
    hide Closed, Counted, Exact, ShapeOk;
  }

  lemma NewIsClosed(s: State, at: Ref, x: Obj)
    requires Closed(s) && at != NULL && at !in s.objects && ShapeOk(x) && Newborn(x)
    ensures Closed(With(s, at, x))
  {
    NewEdges(s, at, x);
    hide ShapeOk, SlotEdge, WrapEdge;
  }

  lemma NewIsExact(s: State, at: Ref, x: Obj, o: Ref)
    requires Closed(s) && Counted(s) && at != NULL && at !in s.objects && Newborn(x) && o in s.objects[at := x]
    ensures Exact(With(s, at, x), o)
  {
    assert o != NULL;
    assert o != at ==> Exact(s, o);
    NewOwners(s, at, x, o);
  }

  lemma NewEdges(s: State, at: Ref, x: Obj)
    requires at !in s.objects && Newborn(x)
    ensures var t := With(s, at, x);
      && (forall w: Ref, i: nat, o: Ref :: o != NULL ==> (SlotEdge(t, w, i, o) <==> SlotEdge(s, w, i, o)))
      && (forall w: Ref, o: Ref :: o != NULL ==> (WrapEdge(t, w, o) <==> WrapEdge(s, w, o)))
  {
  }

  lemma NewOwners(s: State, at: Ref, x: Obj, o: Ref)
    requires Closed(s) && at != NULL && at !in s.objects && o != NULL
    requires Newborn(x)
    ensures var t := With(s, at, x);
      && SlotOwners(t, o) == SlotOwners(s, o) && WrapOwners(t, o) == WrapOwners(s, o)
    ensures SlotOwners(s, at) == {} && WrapOwners(s, at) == {} && s.props[at] == 0 && s.locals[at] == 0
  {
    NewEdges(s, at, x);
    hide ShapeOk;
    assert forall w: Ref, i: nat :: SlotEdge(s, w, i, at) ==> at in s.objects;
    assert forall w: Ref :: WrapEdge(s, w, at) ==> at in s.objects;
    assert at !in s.props && at !in s.locals;
  }

  lemma NewIsBooked(s: State, l: Ledger, at: Ref, x: Obj)
    requires Balanced(s, NULL) && Booked(s.objects, l) && at != NULL && at !in s.objects
    requires Newborn(x) && x.prev == NULL && x.next == NULL
    ensures Booked(s.objects[at := x], l.(allocations := l.allocations + 1, rank := l.rank[at := 0]))
  {
    hide Closed, Counted, Held, Ranked, Threaded, ListsPropertyReferenced, Mortals;
    NewIsRanked(s, l.rank, at, x);
    NewIsThreaded(s.objects, l, at, x);
    NewIsMortal(s.objects, at, x);
  }

  lemma NewIsMortal(m: map<Ref, Obj>, at: Ref, x: Obj)
    requires at !in m && !x.immortal
    ensures |Mortals(m[at := x])| == |Mortals(m)| + 1
  {
    assert Mortals(m[at := x]) == Mortals(m) + {at};
  }

  lemma NewIsThreaded(m: map<Ref, Obj>, l: Ledger, at: Ref, x: Obj)
    requires Threaded(m, l.first, l.list) && ListsPropertyReferenced(m, l.list) && at !in m
    requires x.propertyReferences == 0 && x.prev == NULL && x.next == NULL
    ensures Threaded(m[at := x], l.first, l.list) && ListsPropertyReferenced(m[at := x], l.list)
  {
    var n := m[at := x];
    ListedPresent(m, l, at);
    forall i: nat | i < |l.list| ensures LinkedAt(n, l.list, i) {
      assert LinkedAt(m, l.list, i);
    }
  }

  lemma NewIsRanked(s: State, rank: map<Ref, nat>, at: Ref, x: Obj)
    requires Closed(s) && Ranked(s.objects, rank) && at != NULL && at !in s.objects && Newborn(x)
    ensures Ranked(s.objects[at := x], rank[at := 0])
  {
    hide ShapeOk, SlotEdge;
    var n := s.objects[at := x];
    forall w: Ref | w in n && !n[w].pending && n[w].impl in n
      ensures w in rank[at := 0] && n[w].impl in rank[at := 0] && rank[at := 0][n[w].impl] < rank[at := 0][w]
    {
      if w != at {
        assert WrapEdge(s, w, n[w].impl);
      }
    }
  }

  lemma ListedPresent(m: map<Ref, Obj>, l: Ledger, at: Ref)
    requires Threaded(m, l.first, l.list) && at !in m
    ensures at !in l.list
  {
    forall i: nat | i < |l.list| ensures l.list[i] != at {
      assert LinkedAt(m, l.list, i);
    }
  }

  /** `at` is the address the allocator returned, `NULL` if it had none. */
  method Allocate(iso: Isolate, cls: Cls, size: nat, data: seq<int>, at: Ref)
    requires iso.Valid() && at !in iso.objects
    requires cls.properties <= size && (cls.hook != ArrayHook ==> cls.properties == size)
    requires (cls.kind != Class ==> size == 0)
    modifies iso`objects, iso`allocationCount, iso`locals, iso`rank, iso`otherAllocations
    ensures iso.Valid() && iso.allocationCount == old(iso.allocationCount) + 1
    ensures at == NULL ==>
        && iso.Heap() == old(iso.Heap()) && iso.rank == old(iso.rank)
        && iso.otherAllocations == old(iso.otherAllocations) + 1
    ensures at != NULL ==>
      && iso.objects == old(iso.objects)[at := Blank(cls, size, data)]
      && iso.locals == old(iso.locals) + multiset{at} && iso.rank == old(iso.rank)[at := 0]
      && iso.otherAllocations == old(iso.otherAllocations)
      && iso.objects[at].cls == cls && iso.objects[at].data == data && iso.objects[at].impl == NULL
      && |iso.objects[at].slots| == size && (forall k :: 0 <= k < size ==> iso.objects[at].slots[k] == Object(NULL))
      && iso.objects[at].references == 1 && iso.objects[at].propertyReferences == 0
  {
    hide Balanced, Booked, ShapeOk;
    iso.allocationCount := iso.allocationCount + 1;
    if at == NULL {
      iso.otherAllocations := iso.otherAllocations + 1;
      return;
    }
    BlankShape(cls, size, data);
    NewKeepsBalance(iso.Heap(), at, Blank(cls, size, data));
    NewIsBooked(iso.Heap(), iso.Book().(allocations := iso.Book().allocations - 1), at, Blank(cls, size, data));
    iso.objects := iso.objects[at := Blank(cls, size, data)];
    iso.locals := iso.locals + multiset{at};
    iso.rank := iso.rank[at := 0];
  }

  /** The wrapper `w` with the local reference on `impl` made its own. */
  ghost function Wrapped(s: State, w: Ref, impl: Ref): State
    requires w in s.objects
  {
    State(s.objects[w := s.objects[w].(impl := impl)], s.props, s.locals - multiset{impl}, s.busy)
  }

  ghost predicate Wrappable(s: State, w: Ref, impl: Ref) {
    && w in s.objects && !s.objects[w].pending && s.objects[w].cls.kind == Interface && s.objects[w].impl == NULL
    && impl != NULL && impl in s.objects && s.locals[impl] > (if s.objects[impl].immortal then 1 else 0)
  }

  /** The wrapper starts to hold the local reference taken on its implementation. */
  lemma WrapKeepsBalance(s: State, w: Ref, impl: Ref)
    requires Balanced(s, NULL) && Wrappable(s, w, impl)
    ensures Balanced(Wrapped(s, w, impl), NULL)
  {
    WrapIsClosed(s, w, impl);
    WrapIsCounted(s, w, impl);
    WrapIsHeld(s, w, impl);
    hide Closed, Counted, Held, Wrappable, Wrapped;
  }

  lemma WrapIsCounted(s: State, w: Ref, impl: Ref)
    requires Closed(s) && Counted(s) && Wrappable(s, w, impl)
    ensures Counted(Wrapped(s, w, impl))
  {
    hide Closed, Exact;
    forall o | o in s.objects ensures Exact(Wrapped(s, w, impl), o) {
      WrapIsExact(s, w, impl, o);
    }
  }

  lemma WrapIsHeld(s: State, w: Ref, impl: Ref)
    requires Held(s, NULL) && Wrappable(s, w, impl)
    ensures Held(Wrapped(s, w, impl), NULL)
  {
  }

  lemma WrapIsClosed(s: State, w: Ref, impl: Ref)
    requires Closed(s) && Wrappable(s, w, impl)
    ensures Closed(Wrapped(s, w, impl))
  {
    assert ShapeOk(Wrapped(s, w, impl).objects[w]);
    WrapEdges(s, w, impl);
    hide ShapeOk, SlotEdge, WrapEdge;
    forall o | o in Wrapped(s, w, impl).locals ensures o in s.objects {
      assert o in s.locals;
    }
  }

  lemma WrapIsExact(s: State, w: Ref, impl: Ref, o: Ref)
    requires Closed(s) && Wrappable(s, w, impl) && o in s.objects && Exact(s, o)
    ensures Exact(Wrapped(s, w, impl), o)
  {
    hide ShapeOk, SlotEdge, WrapEdge, SlotOwners, WrapOwners;
    WrapCounts(s, w, impl, o);
  }

  lemma WrapEdges(s: State, w: Ref, impl: Ref)
    requires Wrappable(s, w, impl)
    ensures var t := Wrapped(s, w, impl);
      && (forall u: Ref, i: nat, o: Ref :: SlotEdge(t, u, i, o) <==> SlotEdge(s, u, i, o))
      && (forall u: Ref, o: Ref :: o != NULL ==> (WrapEdge(t, u, o) <==> WrapEdge(s, u, o) || (u == w && o == impl)))
      && !WrapEdge(s, w, impl)
  {
  }

  lemma WrapCounts(s: State, w: Ref, impl: Ref, o: Ref)
    requires Wrappable(s, w, impl) && o != NULL
    ensures var t := Wrapped(s, w, impl);
      && SlotOwners(t, o) == SlotOwners(s, o)
      && |WrapOwners(t, o)| == |WrapOwners(s, o)| + if o == impl then 1 else 0
  {
    var t := Wrapped(s, w, impl);
    WrapEdges(s, w, impl);
    hide SlotEdge;
    if o == impl {
      assert WrapOwners(t, o) == WrapOwners(s, o) + {w};
    } else {
      assert WrapOwners(t, o) == WrapOwners(s, o);
    }
  }

  /** `w` ranks above `impl`. */
  ghost function Above(rank: map<Ref, nat>, w: Ref, impl: Ref): map<Ref, nat> {
    var r := if impl in rank then rank[impl] else 0;
    (rank[impl := r])[w := r + 1]
  }

  /** The wrapper ranks above what it wraps; nothing wraps the wrapper yet. */
  lemma WrapIsBooked(s: State, l: Ledger, w: Ref, impl: Ref)
    requires Booked(s.objects, l) && Wrappable(s, w, impl) && impl != w
    requires forall u: Ref :: u in s.objects && !s.objects[u].pending ==> s.objects[u].impl != w
    ensures Booked(Wrapped(s, w, impl).objects, l.(rank := Above(l.rank, w, impl)))
  {
    var x := s.objects[w].(impl := impl);
    ThreadedUpdate(s.objects, l.first, l.list, w, x);
    assert Mortals(s.objects[w := x]) == Mortals(s.objects);
    WrapIsRanked(s, l.rank, w, impl);
    hide Ranked, Threaded, Above;
  }

  lemma WrapIsRanked(s: State, rank: map<Ref, nat>, w: Ref, impl: Ref)
    requires Ranked(s.objects, rank) && Wrappable(s, w, impl) && impl != w
    requires forall u: Ref :: u in s.objects && !s.objects[u].pending ==> s.objects[u].impl != w
    ensures Ranked(Wrapped(s, w, impl).objects, Above(rank, w, impl))
  {
    var m, n, above := s.objects, Wrapped(s, w, impl).objects, Above(rank, w, impl);
    forall u: Ref | u in n && !n[u].pending && n[u].impl in n
      ensures u in above && n[u].impl in above && above[n[u].impl] < above[u]
    {
      if u != w {
        assert m[u].impl in m;
      }
    }
  }

  lemma ImmortalHeld(s: State, o: Ref)
    requires Balanced(s, NULL) && o in s.objects
    ensures o != NULL && (s.objects[o].immortal ==> s.locals[o] > 0)
  {
    BalancedAt(s, NULL, o);
  }

  /** Nothing wraps an address that was unused until now. */
  lemma NothingWraps(s: State, t: State, at: Ref, impl: Ref)
    requires Balanced(s, NULL) && at != NULL && at !in s.objects && impl in s.objects
    requires exists x: Obj, y: Obj ::
        && x.impl == NULL && y.impl == s.objects[impl].impl && y.pending == s.objects[impl].pending
        && t.objects == s.objects[at := x][impl := y]
    ensures forall u: Ref :: u in t.objects && !t.objects[u].pending ==> t.objects[u].impl != at
  {
    forall u: Ref | u in s.objects && !s.objects[u].pending ensures s.objects[u].impl != at {
      assert WrapEdge(s, u, s.objects[u].impl);
    }
  }

  /** `__allocate_iface_object` with an address at hand: a wrapper that holds one reference on `impl`. */
  method AllocateWrapper(iso: Isolate, cls: Cls, impl: Ref, at: Ref)
    requires iso.Valid() && at != NULL && at !in iso.objects && impl in iso.objects && !iso.objects[impl].pending
    requires cls.kind == Interface && cls.hook != ArrayHook && cls.properties == 0
    modifies iso`objects, iso`allocationCount, iso`locals, iso`rank, iso`otherAllocations
    ensures iso.Valid() && iso.allocationCount == old(iso.allocationCount) + 1
    ensures iso.locals == old(iso.locals) + multiset{at} && iso.otherAllocations == old(iso.otherAllocations)
    ensures var x := old(iso.objects[impl]);
      var retained := Counting(old(iso.objects), impl, x.references + 1, x.propertyReferences);
      iso.objects == retained[at := Blank(cls, 0, []).(impl := impl)]
    ensures at in iso.objects && iso.objects[at].cls == cls && iso.objects[at].impl == impl
    ensures at in iso.objects && iso.objects[at].references == 1 && iso.objects[at].slots == []
    ensures impl in iso.objects && iso.objects[impl].references == old(iso.objects[impl].references) + 1
  {
    hide Balanced, Booked, ShapeOk, Above;
    ghost var s := iso.Heap();
    Allocate(iso, cls, 0, [], at);
    iso.IncreaseReference(impl);
    NothingWraps(s, iso.Heap(), at, impl);
    ImmortalHeld(s, impl);
    Wrap(iso, at, impl);
  }

  /** The new wrapper takes over the local reference on its implementation. */
  method Wrap(iso: Isolate, at: Ref, impl: Ref)
    requires iso.Valid() && Wrappable(iso.Heap(), at, impl) && impl != at
    requires forall u: Ref :: u in iso.objects && !iso.objects[u].pending ==> iso.objects[u].impl != at
    modifies iso`objects, iso`locals, iso`rank
    ensures iso.Valid() && iso.locals == old(iso.locals) - multiset{impl}
    ensures at in old(iso.objects) && iso.objects == old(iso.objects)[at := old(iso.objects)[at].(impl := impl)]
  {
    hide Balanced, Booked, ShapeOk, Above;
    ghost var t := iso.Heap();
    WrapKeepsBalance(t, at, impl);
    WrapIsBooked(t, iso.Book(), at, impl);
    iso.objects := iso.objects[at := iso.objects[at].(impl := impl)];
    iso.locals := iso.locals - multiset{impl};
    iso.rank := Above(iso.rank, at, impl);
  }

  // ------------------------------------------------------ property writes

  /** The heap while slot `i` of `w` owns nothing. */
  ghost function Vacated(s: State, w: Ref, i: nat): State {
    s.(busy := s.busy + {(w, i)})
  }

  /** The heap with `v` in slot `i` of `w`. */
  ghost function Assigned(s: State, w: Ref, i: nat, v: Value): State
    requires w in s.objects && i < |s.objects[w].slots|
  {
    s.(objects := Write(s.objects, w, i, v))
  }

  /** What an assignment needs of its caller: target and value outlive the release of the old value. */
  ghost predicate Assignable(s: State, w: Ref, i: nat, v: Value) {
    && NULL !in s.objects && w in s.objects && !s.objects[w].pending && i < |s.objects[w].slots| && (w, i) !in s.busy
    && s.objects[w].cls.kind == Class && (Target(v) != NULL ==> s.objects[w].cls.holdsObjects)
    && w !in Doomed(Vacated(s, w, i))
    && (Target(v) != NULL ==>
          Target(v) in s.objects && !s.objects[Target(v)].pending && Target(v) !in Doomed(Vacated(s, w, i)))
  }

  /** A caller that holds references of its own on the object and the value meets the requirement. */
  lemma HeldIsAssignable(s: State, w: Ref, i: nat, v: Value)
    requires w in s.locals && (Target(v) != NULL ==> Target(v) in s.locals)
    ensures w !in Doomed(Vacated(s, w, i)) && (Target(v) != NULL ==> Target(v) !in Doomed(Vacated(s, w, i)))
  {
    LocalsNotDoomed(Vacated(s, w, i), {}, w);
    if Target(v) != NULL {
      LocalsNotDoomed(Vacated(s, w, i), {}, Target(v));
    }
  }

  /** A value owned by the slot alone dies before it is stored again: the write releases first. */
  lemma SoleOwnerDies(s: State, w: Ref, i: nat, v: Ref)
    requires v in s.objects && v != NULL && Exact(s, v) && SlotEdge(s, w, i, v)
    requires !s.objects[v].immortal && !s.objects[v].pending && s.objects[v].references == 0
    requires s.objects[v].propertyReferences == 1
    ensures v in Doomed(Vacated(s, w, i)) && !Assignable(s, w, i, Object(v))
  {
    var t := Vacated(s, w, i);
    assert (w, i) in SlotOwners(s, v) && WrapOwners(s, v) == {};
    SingleMember(SlotOwners(s, v), (w, i));
    forall u: Ref ensures !Owns(t, u, v) {
      assert WrapEdge(t, u, v) ==> u in WrapOwners(s, v);
      assert forall j: nat :: SlotEdge(t, u, j, v) ==> (u, j) in SlotOwners(s, v);
    }
    forall d: set<Ref> | Releasable(t, d) ensures v in d {
      assert v !in d ==> Supported(t, d, v);
    }
  }

  lemma SingleMember<T>(x: set<T>, a: T)
    requires a in x && |x| <= 1
    ensures x == {a}
  {
    assert x == {a} + (x - {a});
  }

  lemma AssignedEdges(s: State, w: Ref, i: nat, v: Value)
    requires Assignable(s, w, i, v)
    ensures forall u: Ref, o: Ref :: Owns(Vacated(s, w, i), u, o) ==> Owns(Assigned(s, w, i, v), u, o)
    ensures forall u: Ref, o: Ref ::
        Owns(Assigned(s, w, i, v), u, o) ==> Owns(Vacated(s, w, i), u, o) || (u == w && o == Target(v))
  {
    var a, b := Vacated(s, w, i), Assigned(s, w, i, v);
    forall u: Ref, o: Ref | Owns(a, u, o) ensures Owns(b, u, o) {
      if j: nat :| SlotEdge(a, u, j, o) {
        assert SlotEdge(b, u, j, o);
      } else {
        assert WrapEdge(b, u, o);
      }
    }
    forall u: Ref, o: Ref | Owns(b, u, o) ensures Owns(a, u, o) || (u == w && o == Target(v)) {
      if j: nat :| SlotEdge(b, u, j, o) {
        assert SlotEdge(a, u, j, o) || (u == w && o == Target(v));
      } else {
        assert WrapEdge(a, u, o);
      }
    }
  }

  /** Storing a value that survives dooms no fewer objects than leaving the slot empty. */
  lemma AssignedDoomed(s: State, w: Ref, i: nat, v: Value)
    requires Assignable(s, w, i, v)
    ensures Doomed(Assigned(s, w, i, v)) == Doomed(Vacated(s, w, i))
  {
    var a, b := Vacated(s, w, i), Assigned(s, w, i, v);
    AssignedEdges(s, w, i, v);
    DoomedReleasable(a);
    DoomedReleasable(b);
    hide Owns;
    forall o | o in b.objects && !b.objects[o].pending && o !in Doomed(a) ensures Supported(b, Doomed(a), o) {
      assert Supported(a, Doomed(a), o);
    }
    DoomedIsLeast(b, {}, Doomed(a));
    forall o | o in a.objects && !a.objects[o].pending && o !in Doomed(b) ensures Supported(a, Doomed(b), o) {
      assert Supported(b, Doomed(b), o);
      if o == Target(v) {
        assert Supported(a, Doomed(a), o);
      }
    }
    DoomedIsLeast(a, {}, Doomed(b));
  }

  lemma AssignedReleased(s: State, w: Ref, i: nat, v: Value, n: map<Ref, Obj>)
    requires Assignable(s, w, i, v) && Released(Vacated(s, w, i), {}, n)
    ensures w in n && i < |n[w].slots| && Released(Assigned(s, w, i, v), {}, Write(n, w, i, v))
  {
    AssignedDoomed(s, w, i, v);
  }

  /**
    `__set_property`: the old value is released first, then the new one is
    retained, then the slot is written. Exactly the objects that nothing owns
    once the slot holds `v` are freed.
   */
  method SetProperty(iso: Isolate, w: Ref, i: nat, v: Value)
    requires iso.Valid() && Assignable(iso.Heap(), w, i, v)
    requires BusySafe(iso.busy, Doomed(Vacated(iso.Heap(), w, i)))
    modifies iso`objects, iso`firstObject, iso`allocationCount, iso`linked, iso`locals, iso`props, iso`busy
    ensures iso.Valid() && iso.props == old(iso.props) && iso.locals == old(iso.locals) && iso.busy == old(iso.busy)
    ensures Released(Assigned(old(iso.Heap()), w, i, v), {}, iso.objects)
    ensures w in old(iso.objects) && w in iso.objects && i < |old(iso.objects)[w].slots|
    ensures iso.objects[w].slots == old(iso.objects)[w].slots[i := v]
    ensures Target(v) != NULL ==> Target(v) in iso.objects
  {
    hide Balanced, Booked, Doomed, Released, BusySafe, Exact, ShapeOk, Survive, One;
    ghost var s := iso.Heap();
    var previous := Target(iso.objects[w].slots[i]);
    TakeKeepsBalance(s, w, i);
    iso.busy := iso.busy + {(w, i)};
    iso.props := iso.props + One(previous);
    TakePart(iso.props, s.props, One(previous));
    if previous != NULL {
      OneMember(s.props, previous);
    }
    assert iso.Heap().(props := iso.props - One(previous)) == Vacated(s, w, i);
    BusyAlso(s.busy, Doomed(Vacated(s, w, i)), w, i);
    iso.DecreaseProperty(previous);
    AssignedReleased(s, w, i, v, iso.objects);
    StoreValue(iso, w, i, v, s);
    AssignedSlots(s, w, i, v, iso.objects);
  }

  lemma AssignedSlots(s: State, w: Ref, i: nat, v: Value, n: map<Ref, Obj>)
    requires Assignable(s, w, i, v) && Released(Assigned(s, w, i, v), {}, n)
    ensures w in n && n[w].slots == s.objects[w].slots[i := v] && (Target(v) != NULL ==> Target(v) in n)
  {
    hide DoomedWith;
    AssignedDoomed(s, w, i, v);
  }

  lemma BusyAlso(busy: set<(Ref, nat)>, d: set<Ref>, w: Ref, i: nat)
    requires BusySafe(busy, d) && w !in d
    ensures BusySafe(busy + {(w, i)}, d)
  {
  }

  /** Retains the new value and writes it into the vacated slot. */
  method StoreValue(iso: Isolate, w: Ref, i: nat, v: Value, ghost s: State)
    requires iso.Valid() && Assignable(s, w, i, v) && (w, i) in iso.busy && iso.busy == s.busy + {(w, i)}
    requires Released(Vacated(s, w, i), {}, iso.objects)
    modifies iso`objects, iso`firstObject, iso`linked, iso`props, iso`busy
    ensures iso.Valid() && iso.props == old(iso.props) && iso.busy == s.busy
    ensures w in old(iso.objects) && i < |old(iso.objects)[w].slots| && Released(Assigned(s, w, i, v), {}, iso.objects)
  {
    hide Balanced, Booked, Doomed, Exact, ShapeOk, Survive, One, BusySafe, Assignable, Released;
    StoreTargets(s, w, i, v, iso.objects);
    AssignedReleased(s, w, i, v, iso.objects);
    ghost var n: map<Ref, Obj> := iso.objects;
    ghost var p := iso.props;
    var o := Target(v);
    if o != NULL {
      iso.IncreaseProperty(o);
      OneIs(o);
    } else {
      OneIs(o);
    }
    assert iso.props == p + One(o);
    RelinkedAlike(n, iso.objects, o);
    ReleasedAlike(Assigned(s, w, i, v), n, iso.objects, w, i, v);
    TakePart(iso.props, p, One(o));
    FillSlot(iso, w, i, v);
    assert iso.busy == s.busy;
  }

  /** Writes a slot in flight; the reference already counted for the value becomes the slot's. */
  method FillSlot(iso: Isolate, w: Ref, i: nat, v: Value)
    requires iso.Valid() && w in iso.objects && !iso.objects[w].pending && i < |iso.objects[w].slots|
    requires (w, i) in iso.busy
    requires iso.objects[w].cls.kind == Class
    requires (Target(v) != NULL ==> iso.objects[w].cls.holdsObjects || i >= iso.objects[w].cls.properties)
    requires One(Target(v)) <= iso.props
    modifies iso`objects, iso`props, iso`busy
    ensures iso.Valid() && iso.props == old(iso.props) - One(Target(v)) && iso.busy == old(iso.busy) - {(w, i)}
    ensures iso.objects == Write(old(iso.objects), w, i, v)
  {
    hide Balanced, Booked, Exact, ShapeOk, One;
    BusyWrite(iso.Heap(), w, i, v);
    BookedUpdate(iso.objects, iso.Book(), w, iso.objects[w].(slots := iso.objects[w].slots[i := v]));
    iso.objects := iso.objects[w := iso.objects[w].(slots := iso.objects[w].slots[i := v])];
    SettleKeepsBalance(iso.Heap(), w, i);
    iso.props := iso.props - One(Target(v));
    iso.busy := iso.busy - {(w, i)};
  }

  lemma OneIs(o: Ref)
    ensures One(o) == if o == NULL then multiset{} else multiset{o}
  {
  }

  lemma StoreTargets(s: State, w: Ref, i: nat, v: Value, n: map<Ref, Obj>)
    requires Assignable(s, w, i, v) && Released(Vacated(s, w, i), {}, n)
    ensures (w, i) !in s.busy && w in s.objects && i < |s.objects[w].slots|
    ensures w in n && !n[w].pending && i < |n[w].slots| && n[w].cls.kind == Class
    ensures (Target(v) != NULL ==> n[w].cls.holdsObjects)
    ensures Target(v) != NULL ==> Target(v) in n && !n[Target(v)].pending
  {
  }

  lemma RelinkedAlike(n: map<Ref, Obj>, u: map<Ref, Obj>, o: Ref)
    requires n == u || (o in n && exists r: int, p: int :: Relinked(Counting(n, o, r, p), u))
    ensures n.Keys == u.Keys && forall k :: k in n ==> Alike(n[k], u[k])
  {
  }

  lemma ReleasedAlike(s: State, n: map<Ref, Obj>, u: map<Ref, Obj>, w: Ref, i: nat, v: Value)
    requires w in n && i < |n[w].slots| && Released(s, {}, Write(n, w, i, v))
    requires n.Keys == u.Keys && forall k :: k in n ==> Alike(n[k], u[k])
    ensures |u[w].slots| == |n[w].slots| && Released(s, {}, Write(u, w, i, v))
  {
  }
}
