/**
  The object heap of one isolate as a value: every object, the references that
  come from outside the heap, and the relation "owns" between them. All the
  reference-counting and collection results are stated over this value.
 */
module ObjectGraph {
  /** The address of an object; `NULL` is never the address of one. */
  type Ref = nat
  const NULL: Ref := 0

  /** A property slot or array element: a flagged primitive or an object pointer. */
  datatype Value = Primitive(bits: int) | Object(ref: Ref)

  datatype Kind = Class | Interface | FunctionReference

  /** The native finalizer of a class, as far as the collector tells them apart. */
  datatype Hook = NoHook | ArrayHook | StringHook | OtherHook

  /** Class metadata: `properties` slots come first, array elements follow them. */
  datatype Cls = Cls(kind: Kind, hook: Hook, properties: nat, holdsObjects: bool)

  /** One object. `impl` is the implementation behind an interface wrapper. */
  datatype Obj = Obj(
    cls: Cls, slots: seq<Value>, impl: Ref, data: seq<int>,
    references: int, propertyReferences: int,
    pending: bool, immortal: bool, prev: Ref, next: Ref)

  /**
    The heap together with everything that owns an object from outside it:
    `props` are property-style owners (static slots, values in flight), `locals`
    are local references, and `busy` are slots whose count has already been
    given up although the memory still holds the old pointer.
   */
  datatype State = State(objects: map<Ref, Obj>, props: multiset<Ref>, locals: multiset<Ref>, busy: set<(Ref, nat)>)

  function Target(v: Value): Ref {
    if v.Object? then v.ref else NULL
  }

  // ---------------------------------------------------------------- owners

  /** Slot `i` of `w` is an owning property reference to `o`. */
  ghost predicate SlotEdge(s: State, w: Ref, i: nat, o: Ref) {
    && w in s.objects && !s.objects[w].pending
    && i < |s.objects[w].slots| && (w, i) !in s.busy
    && Target(s.objects[w].slots[i]) == o
  }

  /** Interface wrapper `w` holds its one local reference to `o`. */
  ghost predicate WrapEdge(s: State, w: Ref, o: Ref) {
    w in s.objects && !s.objects[w].pending && s.objects[w].impl == o
  }

  ghost predicate Owns(s: State, w: Ref, o: Ref) {
    WrapEdge(s, w, o) || exists i: nat :: SlotEdge(s, w, i, o)
  }

  ghost function SlotOwners(s: State, o: Ref): set<(Ref, nat)> {
    set w: Ref, i: nat | w in s.objects && i < |s.objects[w].slots| && SlotEdge(s, w, i, o) :: (w, i)
  }

  ghost function WrapOwners(s: State, o: Ref): set<Ref> {
    set w | w in s.objects && WrapEdge(s, w, o)
  }

  // ------------------------------------------------------------ invariants

  ghost predicate ShapeOk(x: Obj) {
    && (x.cls.kind != Class ==> x.slots == [])
    && (x.cls.kind != Interface ==> x.impl == NULL)
    && x.cls.properties <= |x.slots|
    && (x.cls.hook != ArrayHook ==> x.cls.properties == |x.slots|)
    && (!x.cls.holdsObjects ==> forall i :: 0 <= i < x.cls.properties ==> Target(x.slots[i]) == NULL)
  }

  /** No live pointer leaves the heap. */
  ghost predicate Closed(s: State) {
    && NULL !in s.objects
    && (forall o :: o in s.objects ==> ShapeOk(s.objects[o]))
    && (forall o :: o in s.props ==> o in s.objects)
    && (forall o :: o in s.locals ==> o in s.objects)
    && (forall w: Ref, i: nat, o: Ref :: SlotEdge(s, w, i, o) && o != NULL ==> o in s.objects)
    && (forall w: Ref, o: Ref :: WrapEdge(s, w, o) && o != NULL ==> o in s.objects)
  }

  /** Both counts of `o` equal its owners; an immortal object keeps a permanent local reference. */
  ghost predicate Exact(s: State, o: Ref)
    requires o in s.objects
  {
    && s.objects[o].references == s.locals[o] + |WrapOwners(s, o)|
    && (s.objects[o].immortal ==> s.locals[o] > 0 && s.objects[o].propertyReferences == 0 && !s.objects[o].pending)
    && (!s.objects[o].immortal ==> s.objects[o].propertyReferences == s.props[o] + |SlotOwners(s, o)|)
  }

  ghost predicate Counted(s: State) {
    forall o :: o in s.objects ==> Exact(s, o)
  }

  /** Only `orphan` may be waiting for its release; everything else has an owner. */
  ghost predicate Held(s: State, orphan: Ref) {
    forall o :: o in s.objects ==>
      if s.objects[o].pending then s.objects[o].references == 0 && s.objects[o].propertyReferences == 0
      else o == orphan || s.objects[o].references > 0 || s.objects[o].propertyReferences > 0
  }

  ghost predicate Balanced(s: State, orphan: Ref) {
    Closed(s) && Counted(s) && Held(s, orphan)
  }

  ghost function Active(m: map<Ref, Obj>): set<Ref> {
    set o | o in m && !m[o].pending
  }

  /** Equal in everything but counts and list links. */
  ghost predicate Alike(x: Obj, y: Obj) {
    && x.cls == y.cls && x.slots == y.slots && x.impl == y.impl && x.data == y.data
    && x.pending == y.pending && x.immortal == y.immortal
  }

  /** Every object of `n` is in `m` with the same contents. */
  ghost predicate Survive(m: map<Ref, Obj>, n: map<Ref, Obj>) {
    n.Keys <= m.Keys && forall o :: o in n ==> Alike(m[o], n[o])
  }

  /** Equal as far as ownership is concerned: a pending object owns nothing, whatever it holds. */
  ghost predicate SameOwnership(s: State, t: State) {
    && s.busy == t.busy && s.objects.Keys == t.objects.Keys
    && forall o :: o in s.objects ==>
         && s.objects[o].pending == t.objects[o].pending && s.objects[o].immortal == t.objects[o].immortal
         && (!s.objects[o].pending ==>
               s.objects[o].slots == t.objects[o].slots && s.objects[o].impl == t.objects[o].impl)
  }

  /** `t` has no edge that `s` lacks. */
  ghost predicate EdgesWithin(t: State, s: State) {
    && (forall w: Ref, i: nat, o: Ref :: SlotEdge(t, w, i, o) ==> SlotEdge(s, w, i, o))
    && (forall w: Ref, o: Ref :: WrapEdge(t, w, o) ==> WrapEdge(s, w, o))
  }

  lemma SameOwnershipEdges(s: State, t: State)
    requires SameOwnership(s, t)
    ensures EdgesWithin(s, t) && EdgesWithin(t, s)
  {
  }

  lemma SameEdges(s: State, t: State, o: Ref)
    requires EdgesWithin(s, t) && EdgesWithin(t, s)
    ensures SlotOwners(s, o) == SlotOwners(t, o) && WrapOwners(s, o) == WrapOwners(t, o)
  {
  }

  /** Removing edges and objects no edge leads to leaves no pointer dangling. */
  lemma ClosedWithin(s: State, t: State)
    requires Closed(s)
    requires forall w: Ref, i: nat, o: Ref :: o != NULL && SlotEdge(t, w, i, o) ==> SlotEdge(s, w, i, o)
    requires forall w: Ref, o: Ref :: o != NULL && WrapEdge(t, w, o) ==> WrapEdge(s, w, o)
    requires t.objects.Keys <= s.objects.Keys
    requires forall o :: o in t.objects ==> ShapeOk(t.objects[o])
    requires forall o :: o in t.props ==> o in t.objects
    requires forall o :: o in t.locals ==> o in t.objects
    requires forall o :: o in s.objects && o !in t.objects ==> SlotOwners(t, o) == {} && WrapOwners(t, o) == {}
    ensures Closed(t)
  {
    forall w: Ref, i: nat, o: Ref | SlotEdge(t, w, i, o) && o != NULL ensures o in t.objects {
      assert SlotEdge(s, w, i, o);
      assert (w, i) in SlotOwners(t, o);
    }
    forall w: Ref, o: Ref | WrapEdge(t, w, o) && o != NULL ensures o in t.objects {
      assert WrapEdge(s, w, o);
      assert w in WrapOwners(t, o);
    }
  }

  /** The counts of `o` moved together with its external owners. */
  ghost predicate CountsFollow(s: State, t: State, o: Ref)
    requires o in s.objects && o in t.objects
  {
    && s.objects[o].pending == t.objects[o].pending && s.objects[o].immortal == t.objects[o].immortal
    && t.objects[o].references + s.locals[o] == s.objects[o].references + t.locals[o]
    && (if s.objects[o].immortal then t.objects[o].propertyReferences == 0 && t.locals[o] > 0
        else t.objects[o].propertyReferences + s.props[o] == s.objects[o].propertyReferences + t.props[o])
  }

  /** Counts that move together with the external owners stay exact. */
  lemma Recount(s: State, t: State)
    requires Closed(s) && Counted(s) && SameOwnership(s, t)
    requires forall o :: o in t.objects ==> ShapeOk(t.objects[o])
    requires forall o :: o in t.props ==> o in t.objects
    requires forall o :: o in t.locals ==> o in t.objects
    requires forall o :: o in s.objects ==> CountsFollow(s, t, o)
    ensures Closed(t) && Counted(t)
  {
    SameOwnershipEdges(s, t);
    ClosedWithin(s, t);
    forall o | o in t.objects ensures Exact(t, o) {
      assert Exact(s, o) && CountsFollow(s, t, o);
      SameEdges(s, t, o);
    }
  }

  /** Neither counts nor external owners have moved. */
  lemma RecountAll(s: State, t: State)
    requires Closed(s) && Counted(s) && SameOwnership(s, t) && s.props == t.props && s.locals == t.locals
    requires forall o :: o in t.objects ==> ShapeOk(t.objects[o])
    requires forall o :: o in s.objects ==> SameCounts(s.objects[o], t.objects[o])
    ensures Closed(t) && Counted(t)
  {
    forall k | k in s.objects ensures CountsFollow(s, t, k) {
      assert Exact(s, k);
    }
    Recount(s, t);
  }

  ghost predicate SameCounts(x: Obj, y: Obj) {
    x.references == y.references && x.propertyReferences == y.propertyReferences
  }

  /** A heap that differs in list links only. */
  ghost predicate Relinked(m: map<Ref, Obj>, n: map<Ref, Obj>) {
    && m.Keys == n.Keys
    && forall o :: o in m ==> Alike(m[o], n[o]) && SameCounts(m[o], n[o])
  }

  lemma RelinkKeepsBalance(s: State, n: map<Ref, Obj>, orphan: Ref)
    requires Balanced(s, orphan) && Relinked(s.objects, n)
    ensures Balanced(s.(objects := n), orphan)
  {
    RecountAll(s, s.(objects := n));
  }

  /** The heap with the counts of `o` changed. */
  function Counting(m: map<Ref, Obj>, o: Ref, references: int, propertyReferences: int): map<Ref, Obj>
    requires o in m
  {
    m[o := m[o].(references := references, propertyReferences := propertyReferences)]
  }

  /** `t` changes only the counts and external owners of `o`, and those together. */
  ghost predicate Adjusts(s: State, t: State, o: Ref) {
    && o in s.objects && o in t.objects && t.busy == s.busy
    && t.objects == Counting(s.objects, o, t.objects[o].references, t.objects[o].propertyReferences)
    && (forall k :: k != o ==> s.props[k] == t.props[k])
    && (forall k :: k != o ==> s.locals[k] == t.locals[k])
    && CountsFollow(s, t, o)
  }

  lemma AdjustedTokens(s: State, t: State, o: Ref)
    requires Closed(s) && Adjusts(s, t, o)
    ensures forall k :: k in t.props ==> k in t.objects
    ensures forall k :: k in t.locals ==> k in t.objects
  {
    forall k | k in t.props ensures k in t.objects {
      assert k != o ==> s.props[k] > 0;
    }
    forall k | k in t.locals ensures k in t.objects {
      assert k != o ==> s.locals[k] > 0;
    }
  }

  lemma AdjustedFollows(s: State, t: State, o: Ref, k: Ref)
    requires Counted(s) && Adjusts(s, t, o) && k in s.objects
    ensures CountsFollow(s, t, k)
  {
    assert Exact(s, k);
  }

  lemma AdjustCounts(s: State, t: State, o: Ref)
    requires Closed(s) && Counted(s) && Adjusts(s, t, o)
    ensures Closed(t) && Counted(t)
  {
    AdjustedTokens(s, t, o);
    forall k | k in s.objects ensures CountsFollow(s, t, k) {
      AdjustedFollows(s, t, o, k);
    }
    Recount(s, t);
  }

  lemma AddLocal(s: State, o: Ref)
    requires Balanced(s, NULL) && o in s.objects && !s.objects[o].pending
    ensures Balanced(
      State(Counting(s.objects, o, s.objects[o].references + 1, s.objects[o].propertyReferences),
            s.props, s.locals + multiset{o}, s.busy), NULL)
  {
    var t := State(
      Counting(s.objects, o, s.objects[o].references + 1, s.objects[o].propertyReferences),
      s.props, s.locals + multiset{o}, s.busy);
    hide SlotOwners, WrapOwners, Closed;
    assert Exact(s, o);
    AdjustCounts(s, t, o);
  }

  lemma DropLocal(s: State, o: Ref)
    requires Balanced(s, NULL) && o in s.locals && (o in s.objects && s.objects[o].immortal ==> s.locals[o] > 1)
    ensures o in s.objects && !s.objects[o].pending && s.objects[o].references > 0
    ensures Balanced(
      State(Counting(s.objects, o, s.objects[o].references - 1, s.objects[o].propertyReferences),
            s.props, s.locals - multiset{o}, s.busy), o)
  {
    var t := State(
      Counting(s.objects, o, s.objects[o].references - 1, s.objects[o].propertyReferences),
      s.props, s.locals - multiset{o}, s.busy);
    hide SlotOwners, WrapOwners, Closed;
    assert Exact(s, o);
    AdjustCounts(s, t, o);
  }

  lemma AddProp(s: State, o: Ref)
    requires Balanced(s, NULL) && o in s.objects && !s.objects[o].pending
    ensures Balanced(
      State(Counting(s.objects, o, s.objects[o].references,
                     s.objects[o].propertyReferences + if s.objects[o].immortal then 0 else 1),
            s.props + multiset{o}, s.locals, s.busy), NULL)
  {
    var t := State(
      Counting(s.objects, o, s.objects[o].references,
               s.objects[o].propertyReferences + if s.objects[o].immortal then 0 else 1),
      s.props + multiset{o}, s.locals, s.busy);
    hide SlotOwners, WrapOwners, Closed;
    assert Exact(s, o);
    AdjustCounts(s, t, o);
  }

  lemma DropProp(s: State, o: Ref)
    requires Balanced(s, NULL) && o in s.props
    ensures o in s.objects && !s.objects[o].pending && (!s.objects[o].immortal ==> s.objects[o].propertyReferences > 0)
    ensures Balanced(
      State(Counting(s.objects, o, s.objects[o].references,
                     s.objects[o].propertyReferences - if s.objects[o].immortal then 0 else 1),
            s.props - multiset{o}, s.locals, s.busy), o)
  {
    var t := State(
      Counting(s.objects, o, s.objects[o].references,
               s.objects[o].propertyReferences - if s.objects[o].immortal then 0 else 1),
      s.props - multiset{o}, s.locals, s.busy);
    hide SlotOwners, WrapOwners, Closed;
    assert Exact(s, o);
    AdjustCounts(s, t, o);
  }

  /** What a balanced heap says of one object. */
  lemma BalancedAt(s: State, orphan: Ref, o: Ref)
    requires Balanced(s, orphan) && o in s.objects
    ensures o != NULL && Exact(s, o) && ShapeOk(s.objects[o])
    ensures s.objects[o].pending ==>
        !s.objects[o].immortal && s.objects[o].references == 0 && s.objects[o].propertyReferences == 0
    ensures o in s.locals || o in s.props ==> !s.objects[o].pending
  {
  }

  lemma HeldByCount(s: State, o: Ref)
    requires Balanced(s, o) && o in s.objects && !s.objects[o].pending
    requires s.objects[o].references > 0 || s.objects[o].propertyReferences > 0
    ensures Balanced(s, NULL)
  {
  }

  // --------------------------------------------------- references in slots

  function One(o: Ref): multiset<Ref> {
    if o == NULL then multiset{} else multiset{o}
  }

  /** The references held by a run of slots, with multiplicity. */
  ghost function Refs(slots: seq<Value>): multiset<Ref> {
    if slots == [] then multiset{} else One(Target(slots[0])) + Refs(slots[1..])
  }

  ghost function EdgesFrom(w: Ref, slots: seq<Value>, from: nat, o: Ref): set<(Ref, nat)> {
    set i: nat | from <= i < |slots| && Target(slots[i]) == o :: (w, i)
  }

  lemma EdgesAreRefs(w: Ref, slots: seq<Value>, from: nat, o: Ref)
    requires from <= |slots| && o != NULL
    ensures |EdgesFrom(w, slots, from, o)| == Refs(slots[from..])[o]
    decreases |slots| - from
  {
    if from == |slots| {
      assert EdgesFrom(w, slots, from, o) == {};
    } else {
      EdgesAreRefs(w, slots, from + 1, o);
      assert slots[from..][1..] == slots[from + 1..];
      if Target(slots[from]) == o {
        assert EdgesFrom(w, slots, from, o) == EdgesFrom(w, slots, from + 1, o) + {(w, from)};
        assert (w, from) !in EdgesFrom(w, slots, from + 1, o);
      } else {
        assert EdgesFrom(w, slots, from, o) == EdgesFrom(w, slots, from + 1, o);
      }
    }
  }

  /** Taking the first reference of a range out of the external owners. */
  lemma RefsStep(slots: seq<Value>, from: nat, to: nat, rest: multiset<Ref>)
    requires from < to <= |slots|
    ensures var a := One(Target(slots[from]));
            var all := rest + Refs(slots[from..to]);
            a <= all && rest <= all - a && all - a == rest + Refs(slots[from + 1..to])
  {
    assert slots[from..to][1..] == slots[from + 1..to];
  }

  lemma RefsNone(slots: seq<Value>, at: nat)
    requires at <= |slots|
    ensures Refs(slots[at..at]) == multiset{}
  {
  }

  /** The references of an object, in the order in which a detach gives them up. */
  lemma RefsOfObject(y: Obj)
    requires ShapeOk(y)
    ensures y.cls.properties <= |y.slots|
    ensures Refs(y.slots) == Refs(y.slots[0..y.cls.properties]) + Refs(y.slots[y.cls.properties..|y.slots|])
    ensures y.cls.hook != ArrayHook ==> Refs(y.slots[y.cls.properties..|y.slots|]) == multiset{}
    ensures y.cls.kind != Interface ==> One(y.impl) == multiset{}
    ensures y.cls.kind != Class || !y.cls.holdsObjects ==> Refs(y.slots[0..y.cls.properties]) == multiset{}
  {
    assert y.slots == y.slots[0..y.cls.properties] + y.slots[y.cls.properties..|y.slots|];
    RefsAppend(y.slots[0..y.cls.properties], y.slots[y.cls.properties..|y.slots|]);
    if y.cls.kind != Class || !y.cls.holdsObjects {
      RefsOfNulls(y.slots[0..y.cls.properties]);
    }
  }

  lemma OneMember(locals: multiset<Ref>, o: Ref)
    requires o != NULL
    ensures (locals + One(o))[o] == locals[o] + 1
  {
  }

  lemma TakePart(all: multiset<Ref>, rest: multiset<Ref>, part: multiset<Ref>)
    requires all == rest + part
    ensures part <= all && all - part == rest && rest <= all
  {
  }

  lemma RefsAppend(a: seq<Value>, b: seq<Value>)
    ensures Refs(a + b) == Refs(a) + Refs(b)
  {
    if a == [] {
      assert a + b == b;
    } else {
      assert (a + b)[1..] == a[1..] + b;
    }
  }

  lemma RefsMember(slots: seq<Value>, o: Ref)
    requires o in Refs(slots)
    ensures o != NULL && exists i :: 0 <= i < |slots| && Target(slots[i]) == o
  {
    if o != Target(slots[0]) || o == NULL {
      RefsMember(slots[1..], o);
      var i :| 0 <= i < |slots[1..]| && Target(slots[1..][i]) == o;
      assert Target(slots[i + 1]) == o;
    }
  }

  /** Slots that hold no object give up nothing. */
  lemma RefsOfNulls(slots: seq<Value>)
    requires forall i :: 0 <= i < |slots| ==> Target(slots[i]) == NULL
    ensures Refs(slots) == multiset{}
  {
  }

  /** A slot is emptied: the reference it held becomes an external owner. */
  ghost function Emptying(s: State, w: Ref, i: nat): State
    requires w in s.objects && i < |s.objects[w].slots|
  {
    var x := s.objects[w];
    State(s.objects[w := x.(slots := x.slots[i := Object(NULL)])], s.props + One(Target(x.slots[i])), s.locals, s.busy)
  }

  lemma EmptyingKeepsBalance(s: State, w: Ref, i: nat)
    requires Balanced(s, NULL) && w in s.objects && !s.objects[w].pending && i < |s.objects[w].slots|
    requires (w, i) !in s.busy
    ensures Balanced(Emptying(s, w, i), NULL)
  {
    EmptyingIsClosed(s, w, i);
    hide ShapeOk, SlotOwners, WrapOwners, SlotEdge, WrapEdge;
    forall o | o in s.objects ensures Exact(Emptying(s, w, i), o) {
      EmptyingIsExact(s, w, i, o);
    }
  }

  lemma EmptyingIsClosed(s: State, w: Ref, i: nat)
    requires Closed(s) && w in s.objects && !s.objects[w].pending && i < |s.objects[w].slots| && (w, i) !in s.busy
    ensures Closed(Emptying(s, w, i))
  {
    var t := Emptying(s, w, i);
    EmptyingEdges(s, w, i);
    assert SlotEdge(s, w, i, Target(s.objects[w].slots[i]));
    hide ShapeOk, SlotEdge, WrapEdge;
    ClosedWithin(s, t);
  }

  lemma EmptyingIsExact(s: State, w: Ref, i: nat, o: Ref)
    requires Closed(s) && w in s.objects && !s.objects[w].pending && i < |s.objects[w].slots| && (w, i) !in s.busy
    requires o in s.objects && Exact(s, o)
    ensures Exact(Emptying(s, w, i), o)
  {
    hide ShapeOk, SlotEdge, WrapEdge, SlotOwners, WrapOwners;
    EmptyingOwners(s, w, i, o);
  }

  lemma EmptyingEdges(s: State, w: Ref, i: nat)
    requires w in s.objects && i < |s.objects[w].slots|
    requires ShapeOk(s.objects[w])
    ensures forall u: Ref, j: nat, o: Ref :: o != NULL ==>
      (SlotEdge(Emptying(s, w, i), u, j, o) <==> SlotEdge(s, u, j, o) && !(u == w && j == i))
    ensures forall u: Ref, o: Ref :: WrapEdge(Emptying(s, w, i), u, o) <==> WrapEdge(s, u, o)
    ensures ShapeOk(Emptying(s, w, i).objects[w])
  {
  }

  lemma EmptyingOwners(s: State, w: Ref, i: nat, o: Ref)
    requires w in s.objects && !s.objects[w].pending && i < |s.objects[w].slots| && (w, i) !in s.busy && o != NULL
    requires ShapeOk(s.objects[w])
    ensures WrapOwners(Emptying(s, w, i), o) == WrapOwners(s, o)
    ensures |SlotOwners(s, o)| == |SlotOwners(Emptying(s, w, i), o)| + One(Target(s.objects[w].slots[i]))[o]
  {
    EmptyingEdges(s, w, i);
    var t := Emptying(s, w, i);
    assert SlotEdge(s, w, i, o) <==> Target(s.objects[w].slots[i]) == o;
    hide SlotEdge, WrapEdge, ShapeOk;
    if Target(s.objects[w].slots[i]) == o {
      assert SlotOwners(s, o) == SlotOwners(t, o) + {(w, i)};
      assert (w, i) !in SlotOwners(t, o);
    } else {
      assert SlotOwners(s, o) == SlotOwners(t, o);
    }
  }

  // ------------------------------------------------------ pending and freed

  /** `x` stops owning: its slots and wrapped object become external owners instead. */
  ghost function Retire(s: State, x: Ref): State
    requires x in s.objects
  {
    var o := s.objects[x];
    State(s.objects[x := o.(pending := true)], s.props + Refs(o.slots), s.locals + One(o.impl), s.busy)
  }

  lemma RetireKeepsBalance(s: State, x: Ref)
    requires Balanced(s, x) && x in s.objects && !s.objects[x].pending
    requires s.objects[x].references == 0 && s.objects[x].propertyReferences == 0
    requires forall i: nat :: (x, i) !in s.busy
    ensures Balanced(Retire(s, x), NULL)
  {
    var t := Retire(s, x);
    assert Exact(s, x);
    RetireIsClosed(s, x);
    forall o | o in t.objects ensures Exact(t, o) {
      RetireIsExact(s, x, o);
    }
  }

  /** A plain object without object slots has nothing to give up. */
  lemma NothingToRetire(s: State, x: Ref)
    requires x in s.objects && ShapeOk(s.objects[x])
    requires s.objects[x].cls.kind == Class && s.objects[x].cls.hook == NoHook && !s.objects[x].cls.holdsObjects
    ensures Retire(s, x) == s.(objects := s.objects[x := s.objects[x].(pending := true)])
  {
    RefsOfNulls(s.objects[x].slots);
  }

  lemma RetireIsClosed(s: State, x: Ref)
    requires Closed(s) && x in s.objects && !s.objects[x].pending
    requires forall i: nat :: (x, i) !in s.busy
    ensures Closed(Retire(s, x))
  {
    var t := Retire(s, x);
    var slots := s.objects[x].slots;
    forall o | o in t.props ensures o in t.objects {
      if o !in s.props {
        RefsMember(slots, o);
        var i: nat :| i < |slots| && Target(slots[i]) == o;
        assert SlotEdge(s, x, i, o);
      }
    }
    forall o | o in t.locals ensures o in t.objects {
      if o !in s.locals {
        assert WrapEdge(s, x, o);
      }
    }
    assert EdgesWithin(t, s);
    ClosedWithin(s, t);
  }

  lemma RetireIsExact(s: State, x: Ref, o: Ref)
    requires Closed(s) && x in s.objects && !s.objects[x].pending && !s.objects[x].immortal
    requires forall i: nat :: (x, i) !in s.busy
    requires o in s.objects && Exact(s, o)
    ensures Exact(Retire(s, x), o)
  {
    var slots := s.objects[x].slots;
    RetiredEdges(s, x, o);
    EdgesAreRefs(x, slots, 0, o);
    assert slots[0..] == slots;
  }

  lemma RetiredEdges(s: State, x: Ref, o: Ref)
    requires x in s.objects && !s.objects[x].pending && o != NULL
    requires forall i: nat :: (x, i) !in s.busy
    ensures |SlotOwners(s, o)| == |SlotOwners(Retire(s, x), o)| + |EdgesFrom(x, s.objects[x].slots, 0, o)|
    ensures |WrapOwners(s, o)| == |WrapOwners(Retire(s, x), o)| + One(s.objects[x].impl)[o]
  {
    RetiredSlots(s, x, o);
    var t := Retire(s, x);
    if s.objects[x].impl == o {
      assert WrapOwners(s, o) == WrapOwners(t, o) + {x};
      assert x !in WrapOwners(t, o);
    } else {
      assert WrapOwners(s, o) == WrapOwners(t, o);
    }
  }

  lemma RetiredSlots(s: State, x: Ref, o: Ref)
    requires x in s.objects && !s.objects[x].pending
    requires forall i: nat :: (x, i) !in s.busy
    ensures |SlotOwners(s, o)| == |SlotOwners(Retire(s, x), o)| + |EdgesFrom(x, s.objects[x].slots, 0, o)|
  {
    var t := Retire(s, x);
    var mine := EdgesFrom(x, s.objects[x].slots, 0, o);
    forall w: Ref, i: nat ensures SlotEdge(s, w, i, o) <==> SlotEdge(t, w, i, o) || (w, i) in mine {
    }
    assert SlotOwners(s, o) == SlotOwners(t, o) + mine;
    assert SlotOwners(t, o) !! mine;
  }

  /** A pending object can be freed: nothing refers to it any more. */
  lemma FreeKeepsBalance(s: State, x: Ref)
    requires Balanced(s, NULL) && x in s.objects && s.objects[x].pending
    ensures Balanced(Freed(s, x), NULL)
  {
    FreeIsClosed(s, x);
    FreeIsCounted(s, x);
    FreeIsHeld(s, x);
    hide Closed, Counted, Held, Freed;
  }

  lemma FreeIsClosed(s: State, x: Ref)
    requires Closed(s) && Counted(s) && Held(s, NULL) && x in s.objects && s.objects[x].pending
    ensures Closed(Freed(s, x))
  {
    var t := Freed(s, x);
    assert Exact(s, x);
    FreedEdges(s, x, x);
    hide ShapeOk;
    ClosedWithin(s, t);
  }

  lemma FreeIsCounted(s: State, x: Ref)
    requires Counted(s) && x in s.objects && s.objects[x].pending
    ensures Counted(Freed(s, x))
  {
    hide SlotOwners, WrapOwners;
    forall o | o in Freed(s, x).objects ensures Exact(Freed(s, x), o) {
      assert Exact(s, o);
      FreedEdges(s, x, o);
    }
  }

  lemma FreeIsHeld(s: State, x: Ref)
    requires Held(s, NULL)
    ensures Held(Freed(s, x), NULL)
  {
  }

  ghost function Freed(s: State, x: Ref): State {
    State(s.objects - {x}, s.props, s.locals, s.busy)
  }

  lemma FreedEdges(s: State, x: Ref, o: Ref)
    requires x in s.objects && s.objects[x].pending
    ensures EdgesWithin(Freed(s, x), s)
    ensures SlotOwners(s, o) == SlotOwners(Freed(s, x), o) && WrapOwners(s, o) == WrapOwners(Freed(s, x), o)
  {
    assert EdgesWithin(s, Freed(s, x));
    SameEdges(s, Freed(s, x), o);
  }

  // ------------------------------------------------- what a release removes

  /** `o` has an external owner, or an owner outside `d`. */
  ghost predicate Supported(s: State, d: set<Ref>, o: Ref) {
    o in s.props || o in s.locals || exists w :: w !in d && Owns(s, w, o)
  }

  /** Everything alive outside `d` is supported from outside `d`. */
  ghost predicate Releasable(s: State, d: set<Ref>) {
    forall o :: o in s.objects && !s.objects[o].pending && o !in d ==> Supported(s, d, o)
  }

  /** The least releasable set containing `seed`: what must die once `seed` does. */
  ghost function DoomedWith(s: State, seed: set<Ref>): set<Ref> {
    set o | o in s.objects && !s.objects[o].pending &&
            forall d: set<Ref> :: seed <= d && Releasable(s, d) ==> o in d
  }

  ghost function Doomed(s: State): set<Ref> {
    DoomedWith(s, {})
  }

  /** The least releasable set is releasable. */
  lemma DoomedIsReleasable(s: State, seed: set<Ref>)
    requires seed <= Active(s.objects)
    ensures Releasable(s, DoomedWith(s, seed)) && seed <= DoomedWith(s, seed)
  {
    var least := DoomedWith(s, seed);
    forall o | o in s.objects && !s.objects[o].pending && o !in least
      ensures Supported(s, least, o)
    {
      var d: set<Ref> :| seed <= d && Releasable(s, d) && o !in d;
      assert Supported(s, d, o);
      if !(o in s.props || o in s.locals) {
        var w :| w !in d && Owns(s, w, o);
        assert w !in least;
      }
    }
  }

  lemma DoomedReleasable(s: State)
    ensures Releasable(s, Doomed(s))
  {
    DoomedIsReleasable(s, {});
  }

  /** It is below every other one. */
  lemma DoomedIsLeast(s: State, seed: set<Ref>, d: set<Ref>)
    requires seed <= d && Releasable(s, d)
    ensures DoomedWith(s, seed) <= d
  {
  }

  /** A releasable set between `seed` and the least one is the least one. */
  lemma DoomedIsUnique(s: State, seed: set<Ref>, d: set<Ref>)
    requires seed <= d && Releasable(s, d) && d <= DoomedWith(s, seed)
    ensures d == DoomedWith(s, seed)
  {
    DoomedIsLeast(s, seed, d);
  }

  /** What a release leaves behind: exactly the doomed objects are gone, the rest is untouched. */
  ghost predicate Released(s: State, seed: set<Ref>, n: map<Ref, Obj>) {
    n.Keys == s.objects.Keys - DoomedWith(s, seed) && Survive(s.objects, n)
  }

  /** A positive count is an owner: a balanced heap has nothing to release. */
  lemma BalancedNothingDoomed(s: State)
    requires Balanced(s, NULL)
    ensures Releasable(s, {}) && Doomed(s) == {} && Released(s, {}, s.objects)
  {
    forall o | o in s.objects && !s.objects[o].pending ensures Supported(s, {}, o) {
      PositiveIsSupported(s, o);
    }
  }

  lemma PositiveIsSupported(s: State, o: Ref)
    requires o in s.objects && Exact(s, o)
    requires s.objects[o].references > 0 || s.objects[o].propertyReferences > 0
    ensures o in s.props || o in s.locals || exists w :: Owns(s, w, o)
  {
    if o !in s.props && o !in s.locals {
      if s.objects[o].references > 0 {
        assert WrapOwners(s, o) != {};
        var w :| w in WrapOwners(s, o);
        assert Owns(s, w, o);
      } else {
        assert SlotOwners(s, o) != {};
        var e :| e in SlotOwners(s, o);
        assert SlotEdge(s, e.0, e.1, o);
        assert Owns(s, e.0, o);
      }
    }
  }

  /** Releasability survives a step that removes objects of `d` and only adds external owners. */
  lemma ReleasableTransfer(s: State, t: State, d: set<Ref>)
    requires Releasable(s, d)
    requires t.objects.Keys <= s.objects.Keys && s.objects.Keys - t.objects.Keys <= d
    requires s.props <= t.props && s.locals <= t.locals
    requires forall o :: o in t.objects && !t.objects[o].pending ==> !s.objects[o].pending
    requires forall w: Ref, o: Ref :: w !in d && Owns(s, w, o) ==> Owns(t, w, o)
    ensures Releasable(t, d)
  {
    forall o | o in t.objects && !t.objects[o].pending && o !in d ensures Supported(t, d, o) {
      assert Supported(s, d, o);
    }
  }

  /**
    A balanced heap reached by freeing only doomed objects, `seed` included,
    has lost exactly the doomed ones.
   */
  lemma SettledIsReleased(s: State, seed: set<Ref>, t: State)
    requires Balanced(t, NULL) && t.props == s.props && t.locals == s.locals && t.busy == s.busy
    requires Survive(s.objects, t.objects)
    requires seed <= s.objects.Keys - t.objects.Keys <= DoomedWith(s, seed)
    ensures Released(s, seed, t.objects)
  {
    var gone := s.objects.Keys - t.objects.Keys;
    forall o | o in s.objects && !s.objects[o].pending && o !in gone ensures Supported(s, gone, o) {
      assert Exact(t, o);
      PositiveIsSupported(t, o);
      if w :| Owns(t, w, o) {
        assert WrapEdge(t, w, o) ==> WrapEdge(s, w, o);
        forall i: nat | SlotEdge(t, w, i, o) ensures SlotEdge(s, w, i, o) {
        }
        assert Owns(s, w, o);
      }
    }
    DoomedIsUnique(s, seed, gone);
  }

  /** `n` is on the way from `s` to the release of `d`: nothing outside `d` has been touched. */
  ghost predicate Releasing(s: State, d: set<Ref>, n: map<Ref, Obj>) {
    && n.Keys <= s.objects.Keys && s.objects.Keys - n.Keys <= d
    && (forall o :: o in n ==> (s.objects[o].pending ==> n[o].pending) && n[o].immortal == s.objects[o].immortal)
    && (forall o :: o in n && o !in d ==> Alike(s.objects[o], n[o]))
  }

  /** No slot whose value is in flight belongs to an object of `d`. */
  ghost predicate BusySafe(busy: set<(Ref, nat)>, d: set<Ref>) {
    forall w: Ref, i: nat :: (w, i) in busy ==> w !in d
  }

  /** A nested release stays inside the enclosing one. */
  lemma NestedRelease(s: State, d: set<Ref>, t: State)
    requires Releasable(s, d) && Releasing(s, d, t.objects) && t.busy <= s.busy && BusySafe(s.busy, d)
    requires s.props <= t.props && s.locals <= t.locals
    ensures Releasable(t, d) && Doomed(t) <= d && BusySafe(t.busy, Doomed(t))
    ensures forall n: map<Ref, Obj> :: Released(t, {}, n) ==> Releasing(s, d, n)
  {
    forall w: Ref, o: Ref | w !in d && Owns(s, w, o) ensures Owns(t, w, o) {
      if !WrapEdge(s, w, o) {
        var i: nat :| SlotEdge(s, w, i, o);
        assert SlotEdge(t, w, i, o);
      } else {
        assert WrapEdge(t, w, o);
      }
    }
    ReleasableTransfer(s, t, d);
    DoomedIsLeast(t, {}, d);
    forall n: map<Ref, Obj> | Released(t, {}, n) ensures Releasing(s, d, n) {
      ReleasedIsReleasing(s, d, t, n);
    }
  }

  lemma ReleasedIsReleasing(s: State, d: set<Ref>, t: State, n: map<Ref, Obj>)
    requires Releasing(s, d, t.objects) && Doomed(t) <= d && Released(t, {}, n)
    ensures Releasing(s, d, n)
  {
  }

  lemma ReleasedSurvive(t: State, n: map<Ref, Obj>)
    requires Released(t, {}, n)
    ensures Survive(t.objects, n)
  {
  }

  lemma ReleasingKeys(s: State, d: set<Ref>, n: map<Ref, Obj>)
    requires Releasing(s, d, n)
    ensures n.Keys <= s.objects.Keys && s.objects.Keys - n.Keys <= d
  {
  }

  /** An object with a local reference outlives any release. */
  lemma HeldSurvives(s: State, n: map<Ref, Obj>, o: Ref)
    requires Released(s, {}, n) && o in s.locals && o in s.objects
    ensures o in n && Alike(s.objects[o], n[o])
  {
    LocalsNotDoomed(s, {}, o);
  }

  lemma LocalsNotDoomed(s: State, seed: set<Ref>, o: Ref)
    requires o in s.locals && o !in seed
    ensures o !in DoomedWith(s, seed)
  {
    var d := s.objects.Keys - {o} + seed;
    assert Releasable(s, d);
  }

  /** A release leaves pending objects to the frame that is releasing them. */
  lemma ReleasedKeeps(s: State, n: map<Ref, Obj>, x: Ref)
    requires Released(s, {}, n) && x in s.objects && s.objects[x].pending
    ensures x in n && Alike(s.objects[x], n[x])
    ensures Survive(s.objects - {x}, n - {x})
    ensures Active(n) <= Active(s.objects)
  {
  }

  /** A write to an object that is itself being released. */
  lemma ReleasingWrite(s: State, d: set<Ref>, n: map<Ref, Obj>, x: Ref, y: Obj)
    requires Releasing(s, d, n) && x in d && x in n
    requires (n[x].pending ==> y.pending) && y.immortal == n[x].immortal
    ensures Releasing(s, d, n[x := y]) && n[x := y] - {x} == n - {x}
    ensures n[x].pending == y.pending ==> Active(n[x := y]) == Active(n)
  {
  }

  lemma SurviveReflexive(m: map<Ref, Obj>)
    ensures Survive(m, m)
  {
  }

  lemma SurviveTransitive(m: map<Ref, Obj>, n: map<Ref, Obj>, u: map<Ref, Obj>)
    requires Survive(m, n) && Survive(n, u)
    ensures Survive(m, u)
  {
  }

  lemma ReleasingImmortal(s: State, d: set<Ref>, n: map<Ref, Obj>, o: Ref)
    requires Releasing(s, d, n) && o in n
    ensures o in s.objects && n[o].immortal == s.objects[o].immortal
  {
  }

  lemma NotBusy(busy: set<(Ref, nat)>, d: set<Ref>, x: Ref)
    requires BusySafe(busy, d) && x in d
    ensures forall i: nat :: (x, i) !in busy
  {
  }

  lemma RetireIsReleasing(s: State, d: set<Ref>, x: Ref)
    requires x in s.objects && x in d
    ensures Releasing(s, d, Retire(s, x).objects)
    ensures Survive(s.objects - {x}, Retire(s, x).objects - {x})
  {
  }

  /** While `x` is pending, fewer objects are active than when its release began. */
  lemma ReleasingShrinks(s: State, d: set<Ref>, n: map<Ref, Obj>, x: Ref)
    requires Releasing(s, d, n) && x in n && n[x].pending && !s.objects[x].pending
    ensures Active(n) < Active(s.objects)
  {
    assert x in Active(s.objects) && x !in Active(n);
  }

  /** What a pending object holds is of no consequence. */
  lemma PendingWrite(s: State, x: Ref, y: Obj)
    requires Balanced(s, NULL) && x in s.objects && s.objects[x].pending
    requires y.pending && y.immortal == s.objects[x].immortal && SameCounts(y, s.objects[x]) && ShapeOk(y)
    ensures Balanced(s.(objects := s.objects[x := y]), NULL)
  {
    RecountAll(s, s.(objects := s.objects[x := y]));
  }

  /** What is doomed depends on who owns what, not on the counts kept of it. */
  lemma DoomedIgnoresCounts(s: State, t: State)
    requires s.props == t.props && s.locals == t.locals && s.busy == t.busy
    requires s.objects.Keys == t.objects.Keys && forall k :: k in s.objects ==> Alike(s.objects[k], t.objects[k])
    ensures Doomed(s) == Doomed(t) && Active(t.objects) == Active(s.objects)
    ensures forall n: map<Ref, Obj> :: Released(t, {}, n) ==> Released(s, {}, n)
  {
    SameOwnershipEdges(s, t);
    SameOwners(s, t);
    forall d: set<Ref> ensures Releasable(s, d) <==> Releasable(t, d) {
      if Releasable(s, d) {
        SameReleasable(s, t, d);
      }
      if Releasable(t, d) {
        SameReleasable(t, s, d);
      }
    }
    assert Doomed(s) == Doomed(t);
  }

  lemma CountingIsDoomed(s: State, o: Ref, references: int, propertyReferences: int)
    requires o in s.objects
    ensures var t := s.(objects := Counting(s.objects, o, references, propertyReferences));
            Doomed(s) == Doomed(t) && Active(t.objects) == Active(s.objects)
            && forall n: map<Ref, Obj> :: Released(t, {}, n) ==> Released(s, {}, n)
  {
    DoomedIgnoresCounts(s, s.(objects := Counting(s.objects, o, references, propertyReferences)));
  }

  lemma SameOwners(s: State, t: State)
    requires EdgesWithin(s, t) && EdgesWithin(t, s)
    ensures forall w: Ref, o: Ref :: Owns(s, w, o) <==> Owns(t, w, o)
  {
    forall w: Ref, o: Ref ensures Owns(s, w, o) <==> Owns(t, w, o) {
    }
  }

  lemma SameReleasable(s: State, t: State, d: set<Ref>)
    requires s.props == t.props && s.locals == t.locals
    requires s.objects.Keys == t.objects.Keys
    requires forall k :: k in s.objects ==> s.objects[k].pending == t.objects[k].pending
    requires forall w: Ref, o: Ref :: Owns(s, w, o) ==> Owns(t, w, o)
    requires Releasable(s, d)
    ensures Releasable(t, d)
  {
    forall o | o in t.objects && !t.objects[o].pending && o !in d ensures Supported(t, d, o) {
      assert Supported(s, d, o);
    }
  }

  /** A live object without counts has no owner anywhere. */
  lemma OrphanIsUnowned(s: State, x: Ref)
    requires x in s.objects && Exact(s, x) && !s.objects[x].pending
    requires s.objects[x].references == 0 && s.objects[x].propertyReferences == 0
    ensures x !in s.props && x !in s.locals && forall w: Ref :: !Owns(s, w, x)
  {
    assert SlotOwners(s, x) == {} && WrapOwners(s, x) == {};
    forall w: Ref ensures !Owns(s, w, x) {
      assert WrapEdge(s, w, x) ==> w in WrapOwners(s, x);
      assert forall i: nat :: SlotEdge(s, w, i, x) ==> (w, i) in SlotOwners(s, x);
    }
  }

  lemma OrphanIsDoomed(s: State, x: Ref)
    requires x in s.objects && Exact(s, x) && !s.objects[x].pending
    requires s.objects[x].references == 0 && s.objects[x].propertyReferences == 0
    ensures x in Doomed(s)
  {
    OrphanIsUnowned(s, x);
    forall d: set<Ref> | Releasable(s, d) ensures x in d {
      assert x !in d ==> Supported(s, d, x);
    }
  }
}
