/**
  The deep copy behind messages: a graph of one isolate is copied into fresh
  objects. `origin` maps every copy to the object it was made from.
 */
module DeepCopy {
  import opened ObjectGraph
  import opened RefCount
  import opened InFlight
  import opened CopyTables
  import opened Probing
  import opened Sharing
  import Mutator
  import Arrays

  // ------------------------------------------------------- copies and sources

  /** A value that leads nowhere is copied as it is; a reference leads to a copy of its target. */
  ghost predicate MirrorsValue(origin: map<Ref, Ref>, a: Value, b: Value) {
    if Target(a) == NULL then b == a
    else b.Object? && b.ref in origin && origin[b.ref] == Target(a)
  }

  /** Objects the copier knows how to copy: wrappers of something, and no native class without a copy hook. */
  predicate Cloneable(x: Obj) {
    if x.cls.kind == Interface then x.impl != NULL else x.cls.hook != OtherHook
  }

  ghost predicate AllCloneable(source: map<Ref, Obj>, scope: set<Ref>) {
    forall o :: o in scope && o in source ==> Cloneable(source[o])
  }

  /** The copy `y` has the class and data of `x`, and the same number of slots. */
  ghost predicate Resembles(x: Obj, y: Obj) {
    && y.cls == x.cls && |y.slots| == |x.slots| && !y.pending && !y.immortal
    && (x.cls.kind != Interface ==> y.data == x.data)
  }

  /** The first `i` slots of the copy mirror the source's; the others are still empty. */
  ghost predicate Filled(origin: map<Ref, Ref>, x: Obj, y: Obj, i: nat) {
    && i <= |x.slots| == |y.slots|
    && (forall k :: 0 <= k < i ==> MirrorsValue(origin, x.slots[k], y.slots[k]))
    && (forall k :: i <= k < |y.slots| ==> y.slots[k] == Object(NULL))
  }

  /** The copy is complete: every reference of the source leads to a copy of its target. */
  ghost predicate Mirrors(origin: map<Ref, Ref>, x: Obj, y: Obj) {
    && Filled(origin, x, y, |x.slots|)
    && MirrorsValue(origin, Object(x.impl), Object(y.impl))
  }

  /**
    What the copier needs of the objects in `scope`, which is all it reads: no
    pointer leads out, and arrays and strings have no property slots.
   */
  ghost predicate Readable(source: map<Ref, Obj>, scope: set<Ref>) {
    && NULL !in source && scope <= source.Keys
    && forall o :: o in scope ==> !source[o].pending && ReadableAt(scope, source[o])
  }

  ghost predicate ReadableAt(scope: set<Ref>, x: Obj) {
    && ShapeOk(x) && WellClassed(x.cls)
    && (forall k :: 0 <= k < |x.slots| && Target(x.slots[k]) != NULL ==> Target(x.slots[k]) in scope)
    && (x.impl != NULL ==> x.impl in scope)
  }

  predicate WellClassed(cls: Cls) {
    && (cls.hook == ArrayHook ==> cls.properties == 0 && cls.kind == Class)
    && (cls.kind == Interface || cls.hook == StringHook ==> cls.properties == 0)
  }

  /** Every cycle passes through an object that is copied once: other objects only lead to shallower ones. */
  ghost predicate Layered(source: map<Ref, Obj>, scope: set<Ref>, depth: map<Ref, nat>) {
    forall w: Ref, o: Ref ::
      (w in scope && w in source && !Single(source[w]) && Leads(source[w], o) && o != NULL
      ==> Level(source, depth, o) < Level(source, depth, w))
  }

  ghost function Level(source: map<Ref, Obj>, depth: map<Ref, nat>, o: Ref): nat {
    if o == NULL || (o in source && Single(source[o])) then 0 else 1 + if o in depth then depth[o] else 0
  }

  /** A level above everything the slots lead to. */
  ghost function Above(source: map<Ref, Obj>, depth: map<Ref, nat>, slots: seq<Value>): (top: nat)
    ensures forall k :: 0 <= k < |slots| ==> Level(source, depth, Target(slots[k])) < top
  {
    if slots == [] then 0 else
      var rest := Above(source, depth, slots[1..]);
      var first := Level(source, depth, Target(slots[0]));
      assert forall k :: 0 < k < |slots| ==> slots[k] == slots[1..][k - 1];
      if first < rest then rest else first + 1
  }

  /** Sources copied once that have no recorded copy yet. */
  ghost function Todo(source: map<Ref, Obj>, pairs: set<Pair>): set<Ref> {
    set o | o in source && Single(source[o]) && forall p :: p in pairs ==> p.src != o
  }

  // ---------------------------------------------------------- the invariant

  /** Every copy resembles its source and, unless it is under construction, mirrors it. */
  ghost predicate Faithful(
      source: map<Ref, Obj>, scope: set<Ref>, m: map<Ref, Obj>, origin: map<Ref, Ref>, open: set<Ref>) {
    && origin.Keys == m.Keys && m.Keys !! source.Keys && scope <= source.Keys
    && (forall d :: d in m ==> FaithfulAt(source, scope, m, origin, d))
    && (forall d :: d in m && d !in open ==> Mirrors(origin, source[origin[d]], m[d]))
  }

  ghost predicate FaithfulAt(source: map<Ref, Obj>, scope: set<Ref>, m: map<Ref, Obj>, origin: map<Ref, Ref>, d: Ref)
    requires d in m
  {
    && d in origin && origin[d] in scope && origin[d] in source
    && Cloneable(source[origin[d]]) && Resembles(source[origin[d]], m[d])
  }

  /** The table holds copies with their sources, and the copy of everything that is copied once. */
  ghost predicate TableFaithful(source: map<Ref, Obj>, m: map<Ref, Obj>, origin: map<Ref, Ref>, pairs: set<Pair>) {
    && (forall p :: p in pairs ==> p.dst in m && p.dst in origin && origin[p.dst] == p.src)
    && (forall d ::
          d in m && d in origin && origin[d] in source && Single(source[origin[d]]) ==> Pair(origin[d], d) in pairs)
    && (forall d, e ::
          (d in m && e in m && d in origin && e in origin && origin[d] == origin[e]
           && origin[d] in source && Single(source[origin[d]])) ==> d == e)
  }

  /** Some unused address, or `NULL` when there may be no memory. */
  method Malloc(used: set<Ref>, plenty: bool) returns (at: Ref)
    ensures at == NULL || at !in used
    ensures plenty ==> at != NULL
  {
    if !plenty {
      if * {
        return NULL;
      }
    }
    at := Address(used);
  }

  method Address(used: set<Ref>) returns (at: Ref)
    ensures at != NULL && at !in used
  {
    FreshAddress(used);
    at :| at != NULL && at !in used;
  }

  lemma FreshAddress(used: set<Ref>)
    ensures exists at: Ref :: at != NULL && at !in used
  {
    var bound := Bound(used);
    assert bound + 1 !in used;
  }

  ghost function Bound(used: set<Ref>): (b: nat)
    ensures forall o :: o in used ==> o <= b
  {
    if used == {} then 0 else
      var o :| o in used;
      var b := Bound(used - {o});
      assert forall x :: x in used ==> x == o || x in used - {o};
      if o > b then o else b
  }

  // ------------------------------------------------------ what a step keeps

  /** Every earlier object and its origin are still there, unchanged. */
  ghost predicate Grown(m: map<Ref, Obj>, n: map<Ref, Obj>, g: map<Ref, Ref>, h: map<Ref, Ref>) {
    Survive(n, m) && g.Keys <= h.Keys && forall d :: d in g ==> h[d] == g[d]
  }

  lemma GrownReflexive(m: map<Ref, Obj>, g: map<Ref, Ref>)
    ensures Grown(m, m, g, g)
  {
  }

  lemma GrownTransitive(
      m: map<Ref, Obj>, n: map<Ref, Obj>, u: map<Ref, Obj>, g: map<Ref, Ref>, h: map<Ref, Ref>, k: map<Ref, Ref>)
    requires Grown(m, n, g, h) && Grown(n, u, h, k)
    ensures Grown(m, u, g, k)
  {
  }

  /** Only counts and list links have changed. */
  ghost predicate Same(m: map<Ref, Obj>, n: map<Ref, Obj>) {
    m.Keys == n.Keys && forall o :: o in m ==> Alike(m[o], n[o])
  }

  lemma FaithfulSame(
      source: map<Ref, Obj>, scope: set<Ref>, m: map<Ref, Obj>, n: map<Ref, Obj>, origin: map<Ref, Ref>,
      open: set<Ref>)
    requires Faithful(source, scope, m, origin, open) && Same(m, n)
    ensures Faithful(source, scope, n, origin, open)
  {
  }

  /** A new copy of `src` under construction. */
  lemma FaithfulNew(
      source: map<Ref, Obj>, scope: set<Ref>, m: map<Ref, Obj>, n: map<Ref, Obj>, origin: map<Ref, Ref>,
      open: set<Ref>, src: Ref, d: Ref)
    requires Faithful(source, scope, m, origin, open) && d !in m && d !in source
    requires n.Keys == m.Keys + {d} && forall o :: o in m ==> Alike(m[o], n[o])
    requires src in scope && src in source && Cloneable(source[src]) && Resembles(source[src], n[d])
    ensures Faithful(source, scope, n, origin[d := src], open + {d}) && Grown(m, n, origin, origin[d := src])
  {
    var after := origin[d := src];
    forall e | e in n && e !in open + {d} ensures Mirrors(after, source[after[e]], n[e]) {
      assert Mirrors(origin, source[origin[e]], m[e]);
    }
  }

  /** A complete copy is no longer under construction. */
  lemma FaithfulClose(
      source: map<Ref, Obj>, scope: set<Ref>, m: map<Ref, Obj>, origin: map<Ref, Ref>, open: set<Ref>, d: Ref)
    requires Faithful(source, scope, m, origin, open + {d})
    requires d in m && Mirrors(origin, source[origin[d]], m[d])
    ensures Faithful(source, scope, m, origin, open)
  {
  }

  /** One slot has been written; counts may have changed. */
  ghost predicate Rewritten(m: map<Ref, Obj>, n: map<Ref, Obj>, d: Ref, i: nat, v: Value) {
    d in m && i < |m[d].slots| && Same(Write(m, d, i, v), n)
  }

  lemma FaithfulWrite(
      source: map<Ref, Obj>, scope: set<Ref>, m: map<Ref, Obj>, n: map<Ref, Obj>, origin: map<Ref, Ref>,
      open: set<Ref>, d: Ref, i: nat, v: Value)
    requires Faithful(source, scope, m, origin, open) && d in open && Rewritten(m, n, d, i, v)
    ensures Faithful(source, scope, n, origin, open)
  {
  }

  /** The next slot of a copy under construction is filled. */
  lemma FilledNext(origin: map<Ref, Ref>, x: Obj, y: Obj, i: nat, v: Value)
    requires Filled(origin, x, y, i) && i < |x.slots| && MirrorsValue(origin, x.slots[i], v)
    ensures Filled(origin, x, y.(slots := y.slots[i := v]), i + 1)
  {
  }

  /** Other copies being made do not disturb the filled part. */
  lemma FilledGrown(m: map<Ref, Obj>, n: map<Ref, Obj>, g: map<Ref, Ref>, h: map<Ref, Ref>, x: Obj, d: Ref, i: nat)
    requires d in m && Filled(g, x, m[d], i) && Grown(m, n, g, h)
    ensures d in n && Filled(h, x, n[d], i) && Alike(m[d], n[d])
  {
  }

  lemma TableSame(source: map<Ref, Obj>, m: map<Ref, Obj>, n: map<Ref, Obj>, origin: map<Ref, Ref>, pairs: set<Pair>)
    requires TableFaithful(source, m, origin, pairs) && m.Keys == n.Keys
    ensures TableFaithful(source, n, origin, pairs)
  {
  }

  /** A new copy of an object that may be copied more than once need not be recorded. */
  lemma TableNew(
      source: map<Ref, Obj>, m: map<Ref, Obj>, n: map<Ref, Obj>, origin: map<Ref, Ref>, pairs: set<Pair>, src: Ref,
      d: Ref)
    requires TableFaithful(source, m, origin, pairs) && n.Keys == m.Keys + {d} && d !in m && origin.Keys == m.Keys
    requires src in source && !Single(source[src])
    ensures TableFaithful(source, n, origin[d := src], pairs)
  {
    var after := origin[d := src];
    forall p | p in pairs ensures p.dst in n && p.dst in after && after[p.dst] == p.src {
    }
  }

  /** The first copy of an object that is copied once is recorded with it. */
  lemma TableNewSingle(
      source: map<Ref, Obj>, m: map<Ref, Obj>, n: map<Ref, Obj>, origin: map<Ref, Ref>, pairs: set<Pair>, src: Ref,
      d: Ref)
    requires TableFaithful(source, m, origin, pairs) && n.Keys == m.Keys + {d} && d !in m && origin.Keys == m.Keys
    requires src in source && !Covered(pairs, src)
    ensures TableFaithful(source, n, origin[d := src], pairs + {Pair(src, d)})
  {
    var after := origin[d := src];
    forall e | e in m && origin[e] in source && Single(source[origin[e]]) ensures after[e] != src {
      assert Pair(origin[e], e) in pairs;
    }
  }

  lemma TableRecord(source: map<Ref, Obj>, m: map<Ref, Obj>, origin: map<Ref, Ref>, pairs: set<Pair>, src: Ref, d: Ref)
    requires TableFaithful(source, m, origin, pairs) && d in m && d in origin && origin[d] == src
    ensures TableFaithful(source, m, origin, pairs + {Pair(src, d)})
  {
  }

  lemma TodoShrinks(source: map<Ref, Obj>, pairs: set<Pair>, more: set<Pair>)
    requires pairs <= more
    ensures |Todo(source, more)| <= |Todo(source, pairs)|
  {
    SubsetSize(Todo(source, more), Todo(source, pairs));
  }

  lemma TodoDone(source: map<Ref, Obj>, pairs: set<Pair>, src: Ref, d: Ref)
    requires src in source && Single(source[src]) && !Covered(pairs, src)
    ensures |Todo(source, pairs + {Pair(src, d)})| < |Todo(source, pairs)|
  {
    assert forall p :: p in pairs && p.src == src ==> Covered(pairs, src);
    assert src in Todo(source, pairs);
    SubsetSize(Todo(source, pairs + {Pair(src, d)}), Todo(source, pairs) - {src});
  }

  lemma SubsetSize<T>(a: set<T>, b: set<T>)
    requires a <= b
    ensures |a| <= |b|
  {
    assert b == a + (b - a);
  }

  /** What the graph says of one object and of what it leads to. */
  lemma ReadableObject(source: map<Ref, Obj>, scope: set<Ref>, depth: map<Ref, nat>, src: Ref)
    requires Readable(source, scope) && Layered(source, scope, depth) && src in scope && src in source
    ensures src != NULL && ReadableAt(scope, source[src]) && ShapeOk(source[src])
    ensures !Single(source[src]) ==> forall k :: 0 <= k < |source[src].slots| ==>
      Level(source, depth, Target(source[src].slots[k])) < Level(source, depth, src)
    ensures !Single(source[src]) ==> Level(source, depth, source[src].impl) < Level(source, depth, src)
  {
    var x := source[src];
    forall k | 0 <= k < |x.slots| ensures Leads(x, Target(x.slots[k])) {
    }
    assert Leads(x, x.impl);
    assert Level(source, depth, NULL) == 0 && (!Single(x) ==> Level(source, depth, src) > 0);
    hide Leads, Level, ShapeOk;
  }

  lemma CountsNotNegative(s: State, o: Ref)
    requires Balanced(s, NULL) && o in s.objects && !s.objects[o].immortal
    ensures s.objects[o].references >= 0 && s.objects[o].propertyReferences >= 0
  {
    assert Exact(s, o);
  }

  // ------------------------------------------------------------- placing

  /** Writes a value that holds no reference into an empty slot. */
  method PlaceValue(iso: Isolate, d: Ref, i: nat, v: Value)
    requires iso.Valid() && iso.busy == {} && d in iso.objects && !iso.objects[d].pending
    requires iso.objects[d].cls.kind == Class
    requires i < |iso.objects[d].slots| && iso.objects[d].slots[i] == Object(NULL) && Target(v) == NULL
    modifies iso`objects, iso`props, iso`busy
    ensures iso.Valid() && iso.busy == {} && iso.props == old(iso.props)
    ensures Rewritten(old(iso.objects), iso.objects, d, i, v)
  {
    hide Balanced, Booked, ShapeOk, Exact;
    ghost var m: map<Ref, Obj> := iso.objects;
    TakeKeepsBalance(iso.Heap(), d, i);
    assert iso.props + One(NULL) == iso.props;
    iso.busy := iso.busy + {(d, i)};
    Mutator.FillSlot(iso, d, i, v);
    assert iso.busy == {};
  }

  lemma RetainedSame(m: map<Ref, Obj>, n: map<Ref, Obj>, o: Ref, references: int, propertyReferences: int)
    requires o in m && Relinked(Counting(m, o, references, propertyReferences), n)
    ensures Same(m, n) && o in n && n[o].propertyReferences == propertyReferences
  {
  }

  lemma StoredIs(m: map<Ref, Obj>, n: map<Ref, Obj>, d: Ref, i: nat, v: Value)
    requires Same(m, n) && d in m && i < |m[d].slots|
    ensures d in n && i < |n[d].slots| && Alike(m[d], n[d]) && Rewritten(m, Write(n, d, i, v), d, i, v)
    ensures forall o :: o in n ==> o in Write(n, d, i, v) && SameCounts(Write(n, d, i, v)[o], n[o])
  {
  }

  /** Stores a child in an empty slot and retains it there. */
  method StoreChild(iso: Isolate, d: Ref, i: nat, child: Ref)
    requires iso.Valid() && iso.busy == {} && d in iso.objects && !iso.objects[d].pending
    requires iso.objects[d].cls.kind == Class
    requires i < |iso.objects[d].slots| && iso.objects[d].slots[i] == Object(NULL)
    requires iso.objects[d].cls.holdsObjects || i >= iso.objects[d].cls.properties
    requires child != NULL && child in iso.objects && !iso.objects[child].pending && !iso.objects[child].immortal
    modifies iso`objects, iso`firstObject, iso`linked, iso`props, iso`busy
    ensures iso.Valid() && iso.busy == {} && iso.props == old(iso.props)
    ensures Rewritten(old(iso.objects), iso.objects, d, i, Object(child))
    ensures child in iso.objects && iso.objects[child].propertyReferences > 0
  {
    hide Balanced, Booked, ShapeOk, Exact, Released, Doomed, Relinked, Counting, Same, Write, Rewritten, One;
    ghost var m: map<Ref, Obj>, p := iso.objects, iso.props;
    CountsNotNegative(iso.Heap(), child);
    TakeKeepsBalance(iso.Heap(), d, i);
    Mutator.OneIs(NULL);
    Mutator.OneIs(child);
    assert p + multiset{} == p && p + multiset{child} - multiset{child} == p;
    iso.busy := iso.busy + {(d, i)};
    iso.IncreaseProperty(child);
    RetainedSame(m, iso.objects, child, m[child].references, m[child].propertyReferences + 1);
    StoredIs(m, iso.objects, d, i, Object(child));
    Mutator.FillSlot(iso, d, i, Object(child));
    assert iso.busy == {};
  }

  /** Places a copied child in an empty slot: the slot's reference replaces the caller's. */
  method PlaceChild(iso: Isolate, d: Ref, i: nat, child: Ref)
    requires iso.Valid() && iso.busy == {} && d in iso.objects && !iso.objects[d].pending
    requires iso.objects[d].cls.kind == Class
    requires i < |iso.objects[d].slots| && iso.objects[d].slots[i] == Object(NULL)
    requires iso.objects[d].cls.holdsObjects || i >= iso.objects[d].cls.properties
    requires child != NULL && child in iso.objects && !iso.objects[child].pending && !iso.objects[child].immortal
    requires child in iso.locals
    modifies iso`objects, iso`firstObject, iso`allocationCount, iso`linked, iso`locals, iso`props, iso`busy
    ensures iso.Valid() && iso.busy == {} && iso.props == old(iso.props)
    ensures iso.locals == old(iso.locals) - multiset{child}
    ensures Rewritten(old(iso.objects), iso.objects, d, i, Object(child))
  {
    hide Balanced, Booked, ShapeOk, Exact, Released, Doomed, Rewritten, BusySafe;
    ghost var m: map<Ref, Obj> := iso.objects;
    StoreChild(iso, d, i, child);
    DropHeld(m, iso.objects, d, i, child);
    GiveUp(iso, child);
  }

  lemma DropHeld(m: map<Ref, Obj>, n: map<Ref, Obj>, d: Ref, i: nat, child: Ref)
    requires Rewritten(m, n, d, i, Object(child)) && child in m
    ensures child in n && n[child].immortal == m[child].immortal
    ensures forall u: map<Ref, Obj> :: Same(n, u) ==> Rewritten(m, u, d, i, Object(child))
  {
  }

  /** Gives up a local reference to an object that stays owned. */
  method GiveUp(iso: Isolate, o: Ref)
    requires iso.Valid() && iso.busy == {} && o != NULL && o in iso.locals && o in iso.objects
    requires !iso.objects[o].immortal
    requires iso.objects[o].propertyReferences > 0 || iso.objects[o].references > 1
    modifies iso`objects, iso`firstObject, iso`allocationCount, iso`linked, iso`locals, iso`props
    ensures iso.Valid() && iso.props == old(iso.props) && iso.locals == old(iso.locals) - multiset{o}
    ensures Same(old(iso.objects), iso.objects)
  {
    hide Balanced, Booked, ShapeOk, Exact, Released, Doomed, BusySafe;
    Arrays.NothingBusy(Doomed(iso.Heap().(locals := iso.locals - One(o))));
    iso.DecreaseReference(o);
  }

  // ------------------------------------------------------------- the copier

  ghost predicate Mortal(m: map<Ref, Obj>) {
    forall o :: o in m ==> !m[o].immortal
  }

  lemma FoundCopy(
      source: map<Ref, Obj>, scope: set<Ref>, m: map<Ref, Obj>, origin: map<Ref, Ref>, open: set<Ref>,
      pairs: set<Pair>, src: Ref, dst: Ref)
    requires Faithful(source, scope, m, origin, open) && TableFaithful(source, m, origin, pairs)
    requires Pair(src, dst) in pairs
    ensures dst in m && dst in origin && origin[dst] == src && !m[dst].pending
  {
    assert FaithfulAt(source, scope, m, origin, dst);
  }

  lemma SameKeeps(
      source: map<Ref, Obj>, scope: set<Ref>, m: map<Ref, Obj>, n: map<Ref, Obj>, origin: map<Ref, Ref>,
      open: set<Ref>, k: map<Ref, Obj>, g: map<Ref, Ref>)
    requires Faithful(source, scope, m, origin, open) && Same(m, n) && Mortal(m) && Grown(k, m, g, origin)
    ensures Faithful(source, scope, n, origin, open) && Mortal(n) && Grown(k, n, g, origin)
  {
    FaithfulSame(source, scope, m, n, origin, open);
  }

  lemma ShapeSizes(x: Obj)
    requires ShapeOk(x)
    ensures x.cls.properties <= |x.slots| && (x.cls.hook != ArrayHook ==> x.cls.properties == |x.slots|)
    ensures (x.cls.kind != Class ==> |x.slots| == 0)
  {
  }

  lemma BlankResembles(x: Obj, origin: map<Ref, Ref>)
    ensures var y := Mutator.Blank(x.cls, |x.slots|, x.data);
            Resembles(x, y) && Filled(origin, x, y, 0) && !y.immortal
  {
  }

  lemma MortalNew(m: map<Ref, Obj>, at: Ref, x: Obj)
    requires Mortal(m) && !x.immortal
    ensures Mortal(m[at := x])
  {
  }

  lemma ReadableSlot(source: map<Ref, Obj>, scope: set<Ref>, src: Ref, i: nat)
    requires Readable(source, scope) && src in scope && src in source && i < |source[src].slots|
    ensures var o := Target(source[src].slots[i]); o != NULL ==> o in scope && o in source
  {
    assert ReadableAt(scope, source[src]);
  }

  /** The slot to be filled next is empty, and may hold what the source's slot holds. */
  lemma OpenSlot(
      source: map<Ref, Obj>, scope: set<Ref>, m: map<Ref, Obj>, origin: map<Ref, Ref>, open: set<Ref>, src: Ref,
      d: Ref, i: nat)
    requires Readable(source, scope) && src in scope && src in source && i < |source[src].slots|
    requires Faithful(source, scope, m, origin, open) && d in m && d in origin && origin[d] == src
    requires Filled(origin, source[src], m[d], i)
    ensures !m[d].pending && m[d].cls.kind == Class && i < |m[d].slots| && m[d].slots[i] == Object(NULL)
    ensures Target(source[src].slots[i]) != NULL ==> m[d].cls.holdsObjects || i >= m[d].cls.properties
  {
    assert FaithfulAt(source, scope, m, origin, d) && ReadableAt(scope, source[src]);
  }

  lemma ChildUsable(
      source: map<Ref, Obj>, scope: set<Ref>, m: map<Ref, Obj>, origin: map<Ref, Ref>, open: set<Ref>, child: Ref)
    requires Faithful(source, scope, m, origin, open) && child in m
    ensures !m[child].pending && !m[child].immortal
  {
    assert FaithfulAt(source, scope, m, origin, child);
  }

  lemma StillCopy(m: map<Ref, Obj>, n: map<Ref, Obj>, g: map<Ref, Ref>, h: map<Ref, Ref>, d: Ref)
    requires Grown(m, n, g, h) && d in m && d in g
    ensures d in n && d in h && h[d] == g[d]
  {
  }

  lemma Placed(
      source: map<Ref, Obj>, scope: set<Ref>, m: map<Ref, Obj>, n: map<Ref, Obj>, origin: map<Ref, Ref>,
      open: set<Ref>, src: Ref, d: Ref, i: nat, v: Value, k: map<Ref, Obj>, g: map<Ref, Ref>)
    requires Faithful(source, scope, m, origin, open) && d in open && Rewritten(m, n, d, i, v) && Mortal(m)
    requires Grown(k, m, g, origin) && d !in k
    requires src in source && i < |source[src].slots| && Filled(origin, source[src], m[d], i)
    requires MirrorsValue(origin, source[src].slots[i], v)
    ensures Faithful(source, scope, n, origin, open) && Mortal(n) && n.Keys == m.Keys && Grown(k, n, g, origin)
    ensures d in n && Filled(origin, source[src], n[d], i + 1)
  {
    FaithfulWrite(source, scope, m, n, origin, open, d, i, v);
    FilledNext(origin, source[src], m[d], i, v);
  }

  lemma PlacedTable(
      source: map<Ref, Obj>, m: map<Ref, Obj>, n: map<Ref, Obj>, origin: map<Ref, Ref>, pairs: set<Pair>,
      failed: bool)
    requires m.Keys == n.Keys && (!failed ==> TableFaithful(source, m, origin, pairs))
    ensures !failed ==> TableFaithful(source, n, origin, pairs)
  {
  }

  lemma ReadableImpl(source: map<Ref, Obj>, scope: set<Ref>, src: Ref)
    requires Readable(source, scope) && src in scope && src in source
    ensures source[src].impl != NULL ==> source[src].impl in scope && source[src].impl in source
    ensures source[src].cls.kind == Interface ==>
        source[src].cls.hook != ArrayHook && source[src].cls.properties == 0 && source[src].slots == []
  {
    assert ReadableAt(scope, source[src]);
  }

  lemma WrapperRepeats(x: Obj)
    requires x.cls.kind == Interface
    ensures !Single(x)
  {
  }

  lemma ArrayRepeats(x: Obj)
    requires x.cls.hook == ArrayHook
    ensures !Single(x)
  {
  }

  lemma PlainIsSingle(x: Obj)
    requires x.cls.kind != Interface && x.cls.hook == NoHook
    ensures Single(x)
  {
  }

  lemma StringEmpty(source: map<Ref, Obj>, scope: set<Ref>, src: Ref)
    requires Readable(source, scope) && src in scope && src in source && source[src].cls.hook == StringHook
    ensures |source[src].slots| == 0
  {
    assert ReadableAt(scope, source[src]);
  }

  lemma KeysFaithful(source: map<Ref, Obj>, scope: set<Ref>, m: map<Ref, Obj>, origin: map<Ref, Ref>, open: set<Ref>)
    requires Faithful(source, scope, m, origin, open)
    ensures origin.Keys == m.Keys
  {
  }

  lemma LocalPresent(s: State, o: Ref)
    requires Balanced(s, NULL) && o in s.locals
    ensures o in s.objects && o != NULL
  {
  }

  lemma LocalCounts(s: State, o: Ref)
    requires Balanced(s, NULL) && o in s.locals
    ensures o in s.objects && o != NULL && s.objects[o].references > 0
  {
    assert Exact(s, o);
  }

  lemma IsMortal(m: map<Ref, Obj>, o: Ref)
    requires Mortal(m) && o in m
    ensures !m[o].immortal
  {
  }

  lemma MortalReleased(s: State, n: map<Ref, Obj>)
    requires Mortal(s.objects) && Released(s, {}, n)
    ensures Mortal(n) && n.Keys <= s.objects.Keys
  {
  }

  /** A new wrapper around the copied implementation is complete at once. */
  lemma WrapperCopied(
      source: map<Ref, Obj>, scope: set<Ref>, m: map<Ref, Obj>, n: map<Ref, Obj>, origin: map<Ref, Ref>,
      open: set<Ref>, src: Ref, d: Ref, impl: Ref)
    requires Faithful(source, scope, m, origin, open) && Mortal(m) && src in scope && src in source
    requires source[src].cls.kind == Interface && source[src].slots == []
    requires d != NULL && d !in source && d !in m && impl != NULL && impl in m && impl in origin
    requires origin[impl] == source[src].impl && source[src].impl != NULL
    requires exists r: int, p: int ::
        Same(Counting(m, impl, r, p)[d := Mutator.Blank(source[src].cls, 0, []).(impl := impl)], n)
    ensures Faithful(source, scope, n, origin[d := src], open) && Mortal(n) && n.Keys == m.Keys + {d}
    ensures Grown(m, n, origin, origin[d := src])
  {
    FaithfulNew(source, scope, m, n, origin, open, src, d);
    FaithfulClose(source, scope, n, origin[d := src], open, d);
  }

  /** Plain objects, strings and arrays can be copied, and wrappers that wrap something. */
  lemma CloneableMeans(m: map<Ref, Obj>, scope: set<Ref>)
    ensures AllCloneable(m, scope) <==>
      forall o :: o in scope && o in m ==>
        if m[o].cls.kind == Interface then m[o].impl != NULL else m[o].cls.hook in {NoHook, ArrayHook, StringHook}
  {
  }

  lemma ReadableIn(source: map<Ref, Obj>, scope: set<Ref>, src: Ref)
    requires src in scope && src in source
    ensures AllCloneable(source, scope) ==> Cloneable(source[src])
  {
  }

  // ------------------------------------------------------- what is under way

  lemma NotCovered(pairs: set<Pair>, src: Ref)
    requires forall p :: p in pairs ==> p.src != src
    ensures !Covered(pairs, src)
  {
  }

  lemma IsCovered(pairs: set<Pair>, p: Pair)
    requires p in pairs
    ensures Covered(pairs, p.src)
  {
  }

  lemma CoveredStays(pairs: set<Pair>, src: Ref, d: Ref, more: set<Pair>)
    requires pairs + {Pair(src, d)} <= more
    ensures Covered(more, src)
  {
    assert Pair(src, d) in more;
  }

  lemma CoveredMore(pairs: set<Pair>, more: set<Pair>, src: Ref)
    requires Covered(pairs, src) && pairs <= more
    ensures Covered(more, src)
  {
  }

  lemma UnrepeatedOpened(
      source: map<Ref, Obj>, origin: map<Ref, Ref>, pairs: set<Pair>, open: set<Ref>, stack: set<Ref>)
    requires Unrepeated(source, origin, pairs, open, stack)
    ensures Opened(origin, open, stack)
  {
  }

  lemma OpenedGrown(
      m: map<Ref, Obj>, n: map<Ref, Obj>, g: map<Ref, Ref>, h: map<Ref, Ref>, open: set<Ref>, stack: set<Ref>)
    requires Grown(m, n, g, h) && Opened(g, open, stack)
    ensures Opened(h, open, stack)
  {
  }

  lemma OpenedNew(origin: map<Ref, Ref>, open: set<Ref>, stack: set<Ref>, src: Ref, d: Ref)
    requires Opened(origin, open, stack) && d !in origin
    ensures Opened(origin[d := src], open, stack)
  {
  }

  /** Recording the copy completes it. */
  lemma RecordCloses(
      source: map<Ref, Obj>, origin: map<Ref, Ref>, pairs: set<Pair>, open: set<Ref>, stack: set<Ref>, src: Ref, d: Ref)
    requires Unrepeated(source, origin, pairs, open + {d}, stack + {src}) && Opened(origin, open, stack)
    requires d in origin && origin[d] == src && Beneath(source, stack, src)
    ensures Unrepeated(source, origin, pairs + {Pair(src, d)}, open, stack)
  {
    hide Unrepeated, Opened, Beneath;
    UnrepeatedMore(source, origin, pairs, pairs + {Pair(src, d)}, open + {d}, stack + {src});
    CoveredStays(pairs, src, d, pairs + {Pair(src, d)});
    UnrepeatedClose(source, origin, pairs + {Pair(src, d)}, open, stack, src, d);
  }

  lemma SlotLeads(source: map<Ref, Obj>, stack: set<Ref>, src: Ref, i: nat)
    requires Beneath(source, stack, src) && src in source && i < |source[src].slots|
    requires Target(source[src].slots[i]) != NULL
    ensures Beneath(source, stack + {src}, Target(source[src].slots[i]))
  {
    assert Leads(source[src], Target(source[src].slots[i]));
    BeneathChild(source, stack, src, Target(source[src].slots[i]));
  }

  lemma ImplLeads(source: map<Ref, Obj>, stack: set<Ref>, src: Ref)
    requires Beneath(source, stack, src) && src in source
    ensures source[src].impl != NULL ==> Beneath(source, stack + {src}, source[src].impl)
  {
    if source[src].impl != NULL {
      assert Leads(source[src], source[src].impl);
      BeneathChild(source, stack, src, source[src].impl);
    }
  }

  /**
    One run of the copier. `source` is the heap it reads; `iso` holds the
    copies made so far, which are staged on a list of their own; `used` are all
    addresses in use, whoever's objects are there.
   */
  class Copier {
    const iso: Isolate
    const table: CopyTable
    const source: map<Ref, Obj>
    const used: set<Ref>
    const plenty: bool
    ghost const scope: set<Ref>
    ghost const depth: map<Ref, nat>
    ghost const base: int
    var failed: bool
    ghost var origin: map<Ref, Ref>

    constructor (iso: Isolate, source: map<Ref, Obj>, used: set<Ref>, hash: Ref -> nat, plenty: bool,
                 ghost scope: set<Ref>, ghost depth: map<Ref, nat>)
      requires scope <= source.Keys <= used
      requires iso.Valid() && iso.busy == {} && iso.objects == map[]
      ensures this.iso == iso && this.source == source && this.used == used && this.plenty == plenty
      ensures this.scope == scope && this.depth == depth && base == iso.otherAllocations
      ensures fresh(table) && fresh(table.tab) && !failed && origin == map[] && Valid({}, {})
    {
      hide Balanced, Booked, Recorded, Indexed, Occupied, KeysOf;
      this.iso := iso;
      this.source := source;
      this.used := used;
      this.plenty := plenty;
      this.scope := scope;
      this.depth := depth;
      base := iso.otherAllocations;
      table := new CopyTable(hash);
      failed := false;
      origin := map[];
    }

    /** What holds even after a failure. */
    ghost predicate Sound()
      reads this, iso, table, table.tab
    {
      && iso.Valid() && iso.busy == {} && table.Valid()
      && source.Keys <= used && iso.objects.Keys !! used && Mortal(iso.objects) && base <= iso.otherAllocations
    }

    ghost predicate Valid(open: set<Ref>, stack: set<Ref>)
      reads this, iso, table, table.tab
    {
      && Sound()
      && Faithful(source, scope, iso.objects, origin, open)
      && (!failed ==>
            && TableFaithful(source, iso.objects, origin, table.Pairs()) && iso.otherAllocations == base
            && Unrepeated(source, origin, table.Pairs(), open, stack))
    }

    ghost predicate CopyOf(d: Ref, src: Ref)
      reads this, iso
    {
      d != NULL && d in iso.objects && d in origin && origin[d] == src
    }

    /** Nothing stands in the way of a copy: there is memory, and the graph holds nothing that cannot be cloned. */
    ghost predicate Succeeds() {
      plenty && AllCloneable(source, scope)
    }

    ghost predicate Copyable(src: Ref, stack: set<Ref>) {
      && Readable(source, scope) && Layered(source, scope, depth) && src in scope && src in source
      && Beneath(source, stack, src)
    }

    /**
      A copy of `src` with one reference for the caller, or `NULL`. Whatever
      was copied before is untouched, so that an object met again is shared.
     */
    method CopyObject(src: Ref, ghost open: set<Ref>, ghost stack: set<Ref>) returns (dst: Ref)
      requires Valid(open, stack) && (src != NULL ==> Copyable(src, stack))
      modifies this, iso, table, table.tab
      ensures Sound() && iso.props == old(iso.props) && old(iso.locals) <= iso.locals
      ensures old(failed) ==> failed
      ensures old(table.Pairs()) <= table.Pairs() && (table.tab == old(table.tab) || fresh(table.tab))
      ensures src == NULL ==> dst == NULL
      ensures Succeeds() && !old(failed) ==> !failed && (src != NULL ==> dst != NULL)
      ensures dst != NULL ==> Valid(open, stack) && CopyOf(dst, src) && iso.locals == old(iso.locals) + multiset{dst}
      ensures dst != NULL ==> Grown(old(iso.objects), iso.objects, old(origin), origin)
      decreases !failed, |Todo(source, table.Pairs())|, Level(source, depth, src), 4
    {
      hide Balanced, Booked, Faithful, TableFaithful, Unrepeated, Beneath, Covered, Grown, Filled, Mirrors, Readable,
        Layered, Todo, Recorded, Indexed, Occupied, KeysOf, Level, Mortal;
      if src == NULL || failed {
        GrownReflexive(iso.objects, origin);
        return NULL;
      }
      ReadableIn(source, scope, src);
      dst := table.Lookup(src);
      if dst != NULL {
        Share(src, dst, open, stack);
        return dst;
      }
      assert !Covered(table.Pairs(), src) by {
        NotCovered(table.Pairs(), src);
      }
      var cls := source[src].cls;
      if cls.kind == Interface {
        dst := CopyWrapper(src, open, stack);
      } else if cls.hook == ArrayHook {
        dst := CopyArray(src, open, stack);
      } else if cls.hook == StringHook {
        dst := CopyString(src, open, stack);
      } else if cls.hook == OtherHook {
        failed := true;
        dst := NULL;
      } else {
        dst := CopyPlain(src, open, stack);
      }
    }

    /** The object has been copied before: one more reference to the same copy. */
    method Share(src: Ref, dst: Ref, ghost open: set<Ref>, ghost stack: set<Ref>)
      requires Valid(open, stack) && !failed && dst != NULL && Pair(src, dst) in table.Pairs()
      modifies iso
      ensures Valid(open, stack) && CopyOf(dst, src) && iso.locals == old(iso.locals) + multiset{dst}
      ensures iso.props == old(iso.props)
      ensures Grown(old(iso.objects), iso.objects, origin, origin)
    {
      hide Balanced, Booked, Faithful, TableFaithful, Unrepeated, Beneath, Covered, Grown, Recorded, Indexed,
        Occupied, KeysOf, Mortal;
      ghost var m: map<Ref, Obj> := iso.objects;
      GrownReflexive(m, origin);
      FoundCopy(source, scope, m, origin, open, table.Pairs(), src, dst);
      iso.IncreaseReference(dst);
      SameKeeps(source, scope, m, iso.objects, origin, open, m, origin);
      TableSame(source, m, iso.objects, origin, table.Pairs());
    }

    /** The first copy of an object that is not a wrapper: allocated, still without references. */
    method Create(src: Ref, at: Ref, ghost open: set<Ref>, ghost stack: set<Ref>)
      requires Valid(open, stack) && !failed && Copyable(src, stack) && source[src].cls.kind != Interface
      requires Cloneable(source[src])
      requires at != NULL ==> at !in used && at !in iso.objects
      modifies this, iso
      ensures Sound() && iso.props == old(iso.props) && old(iso.locals) <= iso.locals
      ensures failed <==> at == NULL
      ensures origin == if at == NULL then old(origin) else old(origin)[at := src]
      ensures at != NULL ==>
        && Faithful(source, scope, iso.objects, origin, open + {at}) && CopyOf(at, src)
        && iso.locals == old(iso.locals) + multiset{at}
        && Grown(old(iso.objects), iso.objects, old(origin), origin)
        && iso.objects.Keys == old(iso.objects).Keys + {at} && iso.otherAllocations == old(iso.otherAllocations)
        && Filled(origin, source[src], iso.objects[at], 0)
        && Alike(Mutator.Blank(source[src].cls, |source[src].slots|, source[src].data), iso.objects[at])
    {
      hide Balanced, Booked, Faithful, TableFaithful, Unrepeated, Beneath, Covered, Grown, Filled, Mirrors, Readable,
        Layered, Recorded, Indexed, Occupied, KeysOf, ShapeOk, Mortal;
      ghost var m: map<Ref, Obj> := iso.objects;
      var x := source[src];
      ReadableObject(source, scope, depth, src);
      ShapeSizes(x);
      Arrays.NullIsFree(iso.Heap());
      Mutator.Allocate(iso, x.cls, |x.slots|, x.data, at);
      if at == NULL {
        failed := true;
        return;
      }
      BlankResembles(x, origin[at := src]);
      FaithfulNew(source, scope, m, iso.objects, origin, open, src, at);
      MortalNew(m, at, iso.objects[at]);
      origin := origin[at := src];
    }

    /** Copies slot `i` of `src` into the same slot of its copy `d`. */
    method CopySlot(
        src: Ref, d: Ref, i: nat, ghost open: set<Ref>, ghost stack: set<Ref>, ghost m: map<Ref, Obj>,
        ghost g: map<Ref, Ref>, ghost level: nat)
      returns (ok: bool)
      requires Valid(open, stack + {src}) && Copyable(src, stack) && CopyOf(d, src) && d in open && d !in m
      requires Grown(m, iso.objects, g, origin)
      requires i < |source[src].slots| && Filled(origin, source[src], iso.objects[d], i)
      requires Level(source, depth, Target(source[src].slots[i])) < level
      modifies this, iso, table, table.tab
      ensures Sound() && iso.props == old(iso.props) && old(iso.locals) <= iso.locals
      ensures old(failed) ==> failed
      ensures old(table.Pairs()) <= table.Pairs() && (table.tab == old(table.tab) || fresh(table.tab))
      ensures Succeeds() && !old(failed) ==> ok && !failed
      ensures ok ==> Valid(open, stack + {src}) && CopyOf(d, src) && iso.locals == old(iso.locals)
      ensures ok ==> Filled(origin, source[src], iso.objects[d], i + 1) && Grown(m, iso.objects, g, origin)
      decreases !failed, |Todo(source, table.Pairs())|, level, 1
    {
      hide Balanced, Booked, Faithful, TableFaithful, Unrepeated, Beneath, Covered, Grown, Filled, Mirrors, Readable,
        Layered, Todo, Recorded, Indexed, Occupied, KeysOf, Level, Mortal, Rewritten, ShapeOk, ReadableAt;
      var v := source[src].slots[i];
      ReadableSlot(source, scope, src, i);
      if Target(v) == NULL {
        ghost var n: map<Ref, Obj> := iso.objects;
        OpenSlot(source, scope, n, origin, open, src, d, i);
        PlaceValue(iso, d, i, v);
        Placed(source, scope, n, iso.objects, origin, open, src, d, i, v, m, g);
        PlacedTable(source, n, iso.objects, origin, table.Pairs(), failed);
        return true;
      }
      ghost var k: map<Ref, Obj>, h := iso.objects, origin;
      SlotLeads(source, stack, src, i);
      var child := CopyObject(Target(v), open, stack + {src});
      if child == NULL {
        return false;
      }
      GrownTransitive(m, k, iso.objects, g, h, origin);
      FilledGrown(k, iso.objects, h, origin, source[src], d, i);
      StillCopy(k, iso.objects, h, origin, d);
      PlaceCopy(src, d, i, child, open, stack + {src}, m, g);
      return true;
    }

    /** The copied child takes the caller's reference with it into the slot. */
    method PlaceCopy(
        src: Ref, d: Ref, i: nat, child: Ref, ghost open: set<Ref>, ghost stack: set<Ref>,
        ghost m: map<Ref, Obj>, ghost g: map<Ref, Ref>)
      requires Valid(open, stack) && Readable(source, scope) && src in scope && src in source
      requires CopyOf(d, src) && d in open && d !in m && Grown(m, iso.objects, g, origin)
      requires i < |source[src].slots| && Filled(origin, source[src], iso.objects[d], i)
      requires Target(source[src].slots[i]) != NULL && CopyOf(child, Target(source[src].slots[i]))
      requires child in iso.locals
      modifies iso
      ensures Valid(open, stack) && CopyOf(d, src) && iso.props == old(iso.props)
      ensures iso.locals == old(iso.locals) - multiset{child}
      ensures Filled(origin, source[src], iso.objects[d], i + 1) && Grown(m, iso.objects, g, origin)
    {
      hide Balanced, Booked, Faithful, TableFaithful, Unrepeated, Grown, Filled, Mirrors, Readable, Recorded, Indexed,
        Occupied, KeysOf, Mortal, Rewritten, ShapeOk;
      ghost var n: map<Ref, Obj> := iso.objects;
      OpenSlot(source, scope, n, origin, open, src, d, i);
      ChildUsable(source, scope, n, origin, open, child);
      PlaceChild(iso, d, i, child);
      Placed(source, scope, n, iso.objects, origin, open, src, d, i, Object(child), m, g);
      PlacedTable(source, n, iso.objects, origin, table.Pairs(), failed);
    }

    method CopySlots(
        src: Ref, d: Ref, ghost open: set<Ref>, ghost stack: set<Ref>, ghost m: map<Ref, Obj>, ghost g: map<Ref, Ref>,
        ghost level: nat)
      returns (ok: bool)
      requires Valid(open, stack + {src}) && Copyable(src, stack) && CopyOf(d, src) && d in open && d !in m
      requires Grown(m, iso.objects, g, origin)
      requires Filled(origin, source[src], iso.objects[d], 0)
      requires forall k :: 0 <= k < |source[src].slots| ==> Level(source, depth, Target(source[src].slots[k])) < level
      modifies this, iso, table, table.tab
      ensures Sound() && iso.props == old(iso.props) && old(iso.locals) <= iso.locals
      ensures old(failed) ==> failed
      ensures old(table.Pairs()) <= table.Pairs() && (table.tab == old(table.tab) || fresh(table.tab))
      ensures Succeeds() && !old(failed) ==> ok && !failed
      ensures ok ==> Valid(open, stack + {src}) && CopyOf(d, src) && iso.locals == old(iso.locals)
      ensures ok ==>
        Filled(origin, source[src], iso.objects[d], |source[src].slots|) && Grown(m, iso.objects, g, origin)
      decreases !failed, |Todo(source, table.Pairs())|, level, 2
    {
      hide Balanced, Booked, Faithful, TableFaithful, Unrepeated, Beneath, Covered, Grown, Filled, Mirrors, Readable,
        Layered, Todo, Recorded, Indexed, Occupied, KeysOf, Level, Mortal, Rewritten, ShapeOk, ReadableAt;
      ghost var pairs := table.Pairs();
      var i := 0;
      while i < |source[src].slots|
        invariant i <= |source[src].slots| && Valid(open, stack + {src}) && CopyOf(d, src)
        invariant Grown(m, iso.objects, g, origin)
        invariant Filled(origin, source[src], iso.objects[d], i)
        invariant iso.props == old(iso.props) && iso.locals == old(iso.locals)
        invariant old(failed) ==> failed
        invariant Succeeds() && !old(failed) ==> !failed
        invariant pairs <= table.Pairs() && (table.tab == old(table.tab) || fresh(table.tab))
      {
        TodoShrinks(source, pairs, table.Pairs());
        ok := CopySlot(src, d, i, open, stack, m, g, level);
        if !ok {
          return false;
        }
        i := i + 1;
      }
      return true;
    }

    method CopyWrapper(src: Ref, ghost open: set<Ref>, ghost stack: set<Ref>) returns (dst: Ref)
      requires Valid(open, stack) && !failed && Copyable(src, stack) && source[src].cls.kind == Interface
      requires !Covered(table.Pairs(), src)
      modifies this, iso, table, table.tab
      ensures Sound() && iso.props == old(iso.props) && old(iso.locals) <= iso.locals
      ensures old(table.Pairs()) <= table.Pairs() && (table.tab == old(table.tab) || fresh(table.tab))
      ensures Succeeds() ==> !failed && dst != NULL
      ensures dst != NULL ==> Valid(open, stack) && CopyOf(dst, src) && iso.locals == old(iso.locals) + multiset{dst}
      ensures dst != NULL ==> Grown(old(iso.objects), iso.objects, old(origin), origin)
      decreases !failed, |Todo(source, table.Pairs())|, Level(source, depth, src), 3
    {
      hide Balanced, Booked, Faithful, TableFaithful, Unrepeated, Beneath, Covered, Grown, Filled, Mirrors, Readable,
        Layered, Todo, Recorded, Indexed, Occupied, KeysOf, Level, Mortal, ShapeOk, ReadableAt, Above, Released,
        Doomed, BusySafe, Same, Single;
      ReadableObject(source, scope, depth, src);
      ReadableImpl(source, scope, src);
      WrapperRepeats(source[src]);
      ReadableIn(source, scope, src);
      ghost var m: map<Ref, Obj>, g := iso.objects, origin;
      UnrepeatedDeeper(source, g, table.Pairs(), open, stack, src);
      UnrepeatedOpened(source, g, table.Pairs(), open, stack);
      ImplLeads(source, stack, src);
      var impl := CopyObject(source[src].impl, open, stack + {src});
      if impl == NULL {
        return NULL;
      }
      ghost var n: map<Ref, Obj>, h := iso.objects, origin;
      OpenedGrown(m, n, g, h, open, stack);
      dst := Rewrap(src, impl, open, stack);
      GrownTransitive(m, n, iso.objects, g, h, origin);
    }

    /** Wraps the copied implementation again; the wrapper's reference replaces the caller's. */
    method Rewrap(src: Ref, impl: Ref, ghost open: set<Ref>, ghost stack: set<Ref>) returns (dst: Ref)
      requires Valid(open, stack + {src}) && Copyable(src, stack) && source[src].cls.kind == Interface
      requires CopyOf(impl, source[src].impl)
      requires (!failed ==> Opened(origin, open, stack)) && impl in iso.locals && source[src].impl != NULL
      modifies this, iso, table, table.tab
      ensures Valid(open, stack) && dst != NULL && CopyOf(dst, src)
      ensures Succeeds() && !old(failed) ==> !failed
      ensures iso.props == old(iso.props) && iso.locals == old(iso.locals) - multiset{impl} + multiset{dst}
      ensures old(failed) ==> failed
      ensures old(table.Pairs()) <= table.Pairs() && (table.tab == old(table.tab) || fresh(table.tab))
      ensures Grown(old(iso.objects), iso.objects, old(origin), origin)
    {
      hide Balanced, Booked, Faithful, TableFaithful, Unrepeated, Beneath, Covered, Grown, Filled, Mirrors, Readable,
        Layered, Todo, Recorded, Indexed, Occupied, KeysOf, Level, Mortal, ShapeOk, ReadableAt, Above, Released,
        Doomed, BusySafe, Same, Single;
      ReadableObject(source, scope, depth, src);
      ReadableImpl(source, scope, src);
      WrapperRepeats(source[src]);
      ghost var n: map<Ref, Obj>, h, pairs := iso.objects, origin, table.Pairs();
      KeysFaithful(source, scope, n, h, open);
      ChildUsable(source, scope, n, h, open, impl);
      dst := Address(used + iso.objects.Keys);
      WrapAndGiveUp(source[src].cls, impl, dst);
      origin := origin[dst := src];
      WrapperCopied(source, scope, n, iso.objects, h, open, src, dst, impl);
      if !failed {
        TableNew(source, n, iso.objects, h, pairs, src, dst);
        UnrepeatedNew(source, h, pairs, open, stack, src, dst);
        OpenedNew(h, open, stack, src, dst);
      }
      RecordCopy(src, dst, open, stack);
    }

    method WrapAndGiveUp(cls: Cls, impl: Ref, at: Ref)
      requires iso.Valid() && iso.busy == {} && at != NULL && at !in iso.objects
      requires impl in iso.objects && impl in iso.locals && !iso.objects[impl].pending && !iso.objects[impl].immortal
      requires cls.kind == Interface && cls.hook != ArrayHook && cls.properties == 0
      modifies iso
      ensures iso.Valid() && iso.busy == {} && iso.props == old(iso.props)
      ensures iso.otherAllocations == old(iso.otherAllocations)
      ensures iso.locals == old(iso.locals) - multiset{impl} + multiset{at}
      ensures var x := old(iso.objects[impl]);
        var retained := Counting(old(iso.objects), impl, x.references + 1, x.propertyReferences);
        Same(retained[at := Mutator.Blank(cls, 0, []).(impl := impl)], iso.objects)
    {
      hide Balanced, Booked, Same;
      LocalCounts(iso.Heap(), impl);
      Mutator.AllocateWrapper(iso, cls, impl, at);
      GiveUp(iso, impl);
    }

    method CopyArray(src: Ref, ghost open: set<Ref>, ghost stack: set<Ref>) returns (dst: Ref)
      requires Valid(open, stack) && !failed && Copyable(src, stack) && source[src].cls.kind != Interface
      requires source[src].cls.hook == ArrayHook
      requires !Covered(table.Pairs(), src)
      modifies this, iso, table, table.tab
      ensures Sound() && iso.props == old(iso.props) && old(iso.locals) <= iso.locals
      ensures old(table.Pairs()) <= table.Pairs() && (table.tab == old(table.tab) || fresh(table.tab))
      ensures Succeeds() ==> !failed && dst != NULL
      ensures dst != NULL ==> Valid(open, stack) && CopyOf(dst, src) && iso.locals == old(iso.locals) + multiset{dst}
      ensures dst != NULL ==> Grown(old(iso.objects), iso.objects, old(origin), origin)
      decreases !failed, |Todo(source, table.Pairs())|, Level(source, depth, src), 3
    {
      hide Balanced, Booked, Faithful, TableFaithful, Unrepeated, Beneath, Covered, Grown, Filled, Mirrors, Readable,
        Layered, Todo, Recorded, Indexed, Occupied, KeysOf, Level, Mortal, ShapeOk, ReadableAt, Above, Released,
        Doomed, BusySafe, Same, Single;
      ReadableObject(source, scope, depth, src);
      ghost var m: map<Ref, Obj>, g := iso.objects, origin;
      UnrepeatedOpened(source, g, table.Pairs(), open, stack);
      var at := StartArray(src, open, stack);
      if at == NULL {
        return NULL;
      }
      ArrayRepeats(source[src]);
      var ok := CopySlots(src, at, open + {at}, stack, m, g, Level(source, depth, src));
      if !ok {
        Discard(at);
        return NULL;
      }
      Finish(src, at, open, stack);
      OpenedGrown(m, iso.objects, g, origin, open, stack);
      RecordOnce(src, at, open, stack);
      return at;
    }

    /** Creates the copy of an array; it is recorded only when its elements have been copied. */
    method StartArray(src: Ref, ghost open: set<Ref>, ghost stack: set<Ref>) returns (at: Ref)
      requires Valid(open, stack) && !failed && Copyable(src, stack) && !Covered(table.Pairs(), src)
      requires source[src].cls.kind != Interface && source[src].cls.hook == ArrayHook
      modifies this, iso
      ensures Sound() && iso.props == old(iso.props) && old(iso.locals) <= iso.locals
      ensures (failed <==> at == NULL) && (plenty ==> !failed)
      ensures at != NULL ==>
        && Valid(open + {at}, stack + {src}) && CopyOf(at, src) && iso.locals == old(iso.locals) + multiset{at}
        && at !in old(iso.objects) && Grown(old(iso.objects), iso.objects, old(origin), origin)
        && Filled(origin, source[src], iso.objects[at], 0)
    {
      hide Balanced, Booked, Faithful, TableFaithful, Unrepeated, Beneath, Covered, Grown, Filled, Mirrors, Readable,
        Layered, Todo, Recorded, Indexed, Occupied, KeysOf, Level, Mortal, ShapeOk, ReadableAt, Above, Released,
        Doomed, BusySafe, Same, Single;
      ReadableObject(source, scope, depth, src);
      ArrayRepeats(source[src]);
      ghost var m: map<Ref, Obj>, g := iso.objects, origin;
      at := Malloc(used + iso.objects.Keys, plenty);
      Create(src, at, open, stack);
      if failed {
        return NULL;
      }
      KeysFaithful(source, scope, m, g, open);
      TableNew(source, m, iso.objects, g, table.Pairs(), src, at);
      UnrepeatedDeeper(source, g, table.Pairs(), open, stack, src);
      UnrepeatedOpened(source, g, table.Pairs(), open, stack);
      UnrepeatedNew(source, g, table.Pairs(), open, stack, src, at);
    }

    /** The copy `at` of `src` is complete, but not recorded yet. */
    ghost predicate Completed(src: Ref, at: Ref, open: set<Ref>, stack: set<Ref>)
      reads this, iso, table, table.tab
    {
      && Sound() && CopyOf(at, src) && Beneath(source, stack, src)
      && Faithful(source, scope, iso.objects, origin, open)
      && (!failed ==>
            && TableFaithful(source, iso.objects, origin, table.Pairs()) && iso.otherAllocations == base
            && Unrepeated(source, origin, table.Pairs(), open + {at}, stack + {src}) && Opened(origin, open, stack))
    }

    /** Records a copy unless a copy of the same object was recorded while its elements were copied. */
    method RecordOnce(src: Ref, at: Ref, ghost open: set<Ref>, ghost stack: set<Ref>)
      requires Completed(src, at, open, stack) && src != NULL
      modifies this`failed, table, table.tab
      ensures Valid(open, stack) && CopyOf(at, src) && (old(failed) ==> failed) && (plenty && !old(failed) ==> !failed)
      ensures old(table.Pairs()) <= table.Pairs() && (table.tab == old(table.tab) || fresh(table.tab))
    {
      hide Balanced, Booked, Faithful, TableFaithful, Unrepeated, Beneath, Covered, Recorded, Indexed, Occupied,
        KeysOf, Mortal;
      var recorded := table.Lookup(src);
      if recorded == NULL {
        RecordCopy(src, at, open, stack);
      } else if !failed {
        IsCovered(table.Pairs(), Pair(src, recorded));
        UnrepeatedClose(source, origin, table.Pairs(), open, stack, src, at);
      }
    }

    method RecordCopy(src: Ref, at: Ref, ghost open: set<Ref>, ghost stack: set<Ref>)
      requires Completed(src, at, open, stack) && src != NULL
      modifies this`failed, table, table.tab
      ensures Valid(open, stack) && CopyOf(at, src) && (old(failed) ==> failed) && (plenty && !old(failed) ==> !failed)
      ensures old(table.Pairs()) <= table.Pairs() && (table.tab == old(table.tab) || fresh(table.tab))
    {
      hide Balanced, Booked, Faithful, TableFaithful, Unrepeated, Beneath, Covered, Recorded, Indexed, Occupied,
        KeysOf, Mortal;
      if !failed {
        TableRecord(source, iso.objects, origin, table.Pairs(), src, at);
        RecordCloses(source, origin, table.Pairs(), open, stack, src, at);
      }
      var memory: bool := *;
      memory := memory || plenty;
      var ok := table.Record(src, at, memory);
      failed := failed || !ok;
    }

    method CopyString(src: Ref, ghost open: set<Ref>, ghost stack: set<Ref>) returns (dst: Ref)
      requires Valid(open, stack) && !failed && Copyable(src, stack) && source[src].cls.kind != Interface
      requires source[src].cls.hook == StringHook
      requires !Covered(table.Pairs(), src)
      modifies this, iso, table, table.tab
      ensures Sound() && iso.props == old(iso.props) && old(iso.locals) <= iso.locals
      ensures old(table.Pairs()) <= table.Pairs() && (table.tab == old(table.tab) || fresh(table.tab))
      ensures plenty ==> !failed && dst != NULL
      ensures dst != NULL ==> Valid(open, stack) && CopyOf(dst, src) && iso.locals == old(iso.locals) + multiset{dst}
      ensures dst != NULL ==> Grown(old(iso.objects), iso.objects, old(origin), origin)
    {
      hide Balanced, Booked, Faithful, TableFaithful, Unrepeated, Beneath, Covered, Grown, Filled, Mirrors, Readable,
        Layered, Todo, Recorded, Indexed, Occupied, KeysOf, Level, Mortal, ShapeOk, ReadableAt, Above, Released,
        Doomed, BusySafe, Same, Single;
      ReadableObject(source, scope, depth, src);
      ghost var m: map<Ref, Obj>, g := iso.objects, origin;
      var at := Malloc(used + iso.objects.Keys, plenty);
      Create(src, at, open, stack);
      if failed {
        return NULL;
      }
      StringEmpty(source, scope, src);
      Finish(src, at, open, stack);
      KeysFaithful(source, scope, m, g, open);
      TableNewSingle(source, m, iso.objects, g, table.Pairs(), src, at);
      UnrepeatedOpened(source, g, table.Pairs(), open, stack);
      UnrepeatedDeeper(source, g, table.Pairs(), open, stack, src);
      UnrepeatedNew(source, g, table.Pairs(), open, stack, src, at);
      OpenedNew(g, open, stack, src, at);
      RecordCloses(source, origin, table.Pairs(), open, stack, src, at);
      var memory: bool := *;
      memory := memory || plenty;
      var ok := table.Record(src, at, memory);
      failed := !ok;
      return at;
    }

    method CopyPlain(src: Ref, ghost open: set<Ref>, ghost stack: set<Ref>) returns (dst: Ref)
      requires Valid(open, stack) && !failed && Copyable(src, stack) && !Covered(table.Pairs(), src)
      requires source[src].cls.kind != Interface && source[src].cls.hook == NoHook
      modifies this, iso, table, table.tab
      ensures Sound() && iso.props == old(iso.props) && old(iso.locals) <= iso.locals
      ensures old(table.Pairs()) <= table.Pairs() && (table.tab == old(table.tab) || fresh(table.tab))
      ensures Succeeds() ==> !failed && dst != NULL
      ensures dst != NULL ==> Valid(open, stack) && CopyOf(dst, src) && iso.locals == old(iso.locals) + multiset{dst}
      ensures dst != NULL ==> Grown(old(iso.objects), iso.objects, old(origin), origin)
      decreases !failed, |Todo(source, table.Pairs())|, Level(source, depth, src), 3
    {
      hide Balanced, Booked, Faithful, TableFaithful, Unrepeated, Beneath, Covered, Grown, Filled, Mirrors, Readable,
        Layered, Todo, Recorded, Indexed, Occupied, KeysOf, Level, Mortal, ShapeOk, ReadableAt, Above, Released,
        Doomed, BusySafe, Same, Single, Opened;
      ghost var m: map<Ref, Obj>, g, pairs := iso.objects, origin, table.Pairs();
      ReadableObject(source, scope, depth, src);
      UnrepeatedOpened(source, g, pairs, open, stack);
      var at := StartPlain(src, open, stack);
      if at == NULL {
        return NULL;
      }
      ghost var started := table.Pairs();
      var ok := CopySlots(src, at, open + {at}, stack, m, g, Above(source, depth, source[src].slots));
      if !ok {
        return NULL;
      }
      Finish(src, at, open, stack);
      OpenedGrown(m, iso.objects, g, origin, open, stack);
      if !failed {
        CoveredMore(started, table.Pairs(), src);
        UnrepeatedClose(source, origin, table.Pairs(), open, stack, src, at);
      }
      return at;
    }

    /** Creates the copy of a plain object, and records it before anything it leads to is copied. */
    method StartPlain(src: Ref, ghost open: set<Ref>, ghost stack: set<Ref>) returns (at: Ref)
      requires Valid(open, stack) && !failed && Copyable(src, stack) && !Covered(table.Pairs(), src)
      requires source[src].cls.kind != Interface && source[src].cls.hook == NoHook
      modifies this, iso, table, table.tab
      ensures Sound() && iso.props == old(iso.props) && old(iso.locals) <= iso.locals
      ensures old(table.Pairs()) <= table.Pairs() && (table.tab == old(table.tab) || fresh(table.tab))
      ensures (plenty ==> !failed) && (at == NULL ==> failed)
      ensures at != NULL ==>
        && Valid(open + {at}, stack + {src}) && CopyOf(at, src) && iso.locals == old(iso.locals) + multiset{at}
        && at !in old(iso.objects) && Grown(old(iso.objects), iso.objects, old(origin), origin)
        && Filled(origin, source[src], iso.objects[at], 0)
      ensures !failed ==>
        Covered(table.Pairs(), src) && |Todo(source, table.Pairs())| < |Todo(source, old(table.Pairs()))|
    {
      hide Balanced, Booked, Faithful, TableFaithful, Unrepeated, Beneath, Covered, Grown, Filled, Mirrors, Readable,
        Layered, Todo, Recorded, Indexed, Occupied, KeysOf, Level, Mortal, ShapeOk, ReadableAt, Above, Released,
        Doomed, BusySafe, Same, Single, Opened;
      ReadableObject(source, scope, depth, src);
      ghost var m: map<Ref, Obj>, g, pairs := iso.objects, origin, table.Pairs();
      at := Malloc(used + iso.objects.Keys, plenty);
      Create(src, at, open, stack);
      if failed {
        return NULL;
      }
      KeysFaithful(source, scope, m, g, open);
      TableNewSingle(source, m, iso.objects, g, pairs, src, at);
      UnrepeatedOpened(source, g, pairs, open, stack);
      UnrepeatedDeeper(source, g, pairs, open, stack, src);
      UnrepeatedNew(source, g, pairs, open, stack, src, at);
      UnrepeatedMore(source, origin, pairs, pairs + {Pair(src, at)}, open + {at}, stack + {src});
      PlainIsSingle(source[src]);
      TodoDone(source, pairs, src, at);
      CoveredStays(pairs, src, at, pairs + {Pair(src, at)});
      var memory: bool := *;
      memory := memory || plenty;
      var ok := table.Record(src, at, memory);
      failed := !ok;
    }

    /** All slots of the copy are filled: it is complete. */
    ghost method Finish(src: Ref, d: Ref, open: set<Ref>, stack: set<Ref>)
      requires Sound() && Copyable(src, stack) && source[src].cls.kind != Interface
      requires Faithful(source, scope, iso.objects, origin, open + {d}) && CopyOf(d, src)
      requires Filled(origin, source[src], iso.objects[d], |source[src].slots|)
      ensures Faithful(source, scope, iso.objects, origin, open)
    {
      BalancedAt(iso.Heap(), NULL, d);
      assert FaithfulAt(source, scope, iso.objects, origin, d) && ReadableAt(scope, source[src]);
      FaithfulClose(source, scope, iso.objects, origin, open, d);
    }

    /** Gives up an unfinished copy. */
    method Discard(d: Ref)
      requires Sound() && d in iso.locals
      modifies iso, this`failed
      ensures Sound() && failed && iso.props == old(iso.props) && iso.locals == old(iso.locals) - multiset{d}
    {
      hide Balanced, Booked, Recorded, Indexed, Occupied, KeysOf, Released, Doomed, BusySafe, Mortal;
      LocalPresent(iso.Heap(), d);
      IsMortal(iso.objects, d);
      ghost var s := iso.Heap();
      Arrays.NothingBusy(Doomed(s.(locals := iso.locals - One(d))));
      iso.DecreaseReference(d);
      MortalReleased(s.(locals := iso.locals), iso.objects);
      failed := true;
    }
  }
}
