/**
  What a finished copy is: the same values on every path, plain objects,
  strings and whatever lies on no cycle copied exactly once, and an isomorphic
  graph unless an array or wrapper lies on a cycle.
 */
module Isomorphisms {
  import opened ObjectGraph
  import opened Reachability
  import opened CopyTables
  import opened DeepCopy
  import opened Sharing
  import Arrays

  /** Slot `i` of an object; past the slots, the object behind a wrapper. */
  function Step(m: map<Ref, Obj>, o: Ref, i: nat): Value {
    if o !in m then Object(NULL) else if i < |m[o].slots| then m[o].slots[i] else Object(m[o].impl)
  }

  /** The value at the end of a path of slots. */
  function Follow(m: map<Ref, Obj>, v: Value, path: seq<nat>): Value
    decreases |path|
  {
    if path == [] then v else Follow(m, Step(m, Target(v), path[0]), path[1..])
  }

  /** `m` is a finished copy of the part `scope` of `source`, and `root` the copy of `payload`. */
  ghost predicate Copied(
      source: map<Ref, Obj>, scope: set<Ref>, m: map<Ref, Obj>, origin: map<Ref, Ref>, payload: Ref, root: Ref) {
    && NULL !in source && NULL !in m && Faithful(source, scope, m, origin, {}) && origin.Keys == m.Keys
    && Once(source, m, origin)
    && root in m && origin[root] == payload
  }

  /** No two copies of an object that is copied once. */
  ghost predicate Once(source: map<Ref, Obj>, m: map<Ref, Obj>, origin: map<Ref, Ref>) {
    forall d, e ::
      d in m && e in m && d in origin && e in origin && origin[d] == origin[e] && CopiedOnce(source, origin[d]) ==>
      d == e
  }

  lemma StepMirrors(
      source: map<Ref, Obj>, scope: set<Ref>, m: map<Ref, Obj>, origin: map<Ref, Ref>, a: Value, b: Value, i: nat)
    requires NULL !in source && NULL !in m && Faithful(source, scope, m, origin, {})
    requires MirrorsValue(origin, a, b)
    ensures MirrorsValue(origin, Step(source, Target(a), i), Step(m, Target(b), i))
  {
    if Target(a) != NULL {
      var d := b.ref;
      assert FaithfulAt(source, scope, m, origin, d) && Mirrors(origin, source[origin[d]], m[d]);
    }
  }

  /** Bisimulation: from the copy, every path leads to a copy of what it leads to in the source. */
  lemma {:induction false} SameOnEveryPath(
      source: map<Ref, Obj>, scope: set<Ref>, m: map<Ref, Obj>, origin: map<Ref, Ref>, a: Value, b: Value,
      path: seq<nat>)
    requires NULL !in source && NULL !in m && Faithful(source, scope, m, origin, {})
    requires MirrorsValue(origin, a, b)
    ensures MirrorsValue(origin, Follow(source, a, path), Follow(m, b, path))
    decreases |path|
  {
    if path != [] {
      StepMirrors(source, scope, m, origin, a, b, path[0]);
      SameOnEveryPath(source, scope, m, origin, Step(source, Target(a), path[0]), Step(m, Target(b), path[0]),
        path[1..]);
    }
  }

  /**
    Along every path from the roots, source and copy show the same primitive, or
    objects of the same class and data.
   */
  lemma CopyLooksAlike(
      source: map<Ref, Obj>, scope: set<Ref>, m: map<Ref, Obj>, origin: map<Ref, Ref>, payload: Ref, root: Ref,
      path: seq<nat>)
    requires Copied(source, scope, m, origin, payload, root)
    ensures var a, b := Follow(source, Object(payload), path), Follow(m, Object(root), path);
      if a.Primitive? || a.ref == NULL then b == a
      else
        && b.Object? && b.ref in m && a.ref in source
        && m[b.ref].cls == source[a.ref].cls && |m[b.ref].slots| == |source[a.ref].slots|
        && (source[a.ref].cls.kind != Interface ==> m[b.ref].data == source[a.ref].data)
  {
    SameOnEveryPath(source, scope, m, origin, Object(payload), Object(root), path);
    var b := Follow(m, Object(root), path);
    assert Target(b) in m ==> FaithfulAt(source, scope, m, origin, Target(b));
  }

  /**
    Object by object: the same class, data and primitives, and every reference
    leads to a copy of what it leads to in the source.
   */
  lemma CopyMatchesSource(
      source: map<Ref, Obj>, scope: set<Ref>, m: map<Ref, Obj>, origin: map<Ref, Ref>, payload: Ref, root: Ref, d: Ref)
    requires Copied(source, scope, m, origin, payload, root) && d in m
    ensures root in origin && origin[root] == payload && d in origin && origin[d] in scope && origin[d] in source
    ensures var x, y := source[origin[d]], m[d];
      && y.cls == x.cls && |y.slots| == |x.slots| && (x.cls.kind != Interface ==> y.data == x.data)
      && (forall i :: 0 <= i < |x.slots| ==>
            if x.slots[i].Primitive? || x.slots[i].ref == NULL then y.slots[i] == x.slots[i]
            else y.slots[i].Object? && y.slots[i].ref in m && origin[y.slots[i].ref] == x.slots[i].ref)
      && (if x.impl == NULL then y.impl == NULL else y.impl in m && origin[y.impl] == x.impl)
  {
    assert FaithfulAt(source, scope, m, origin, d);
    assert Mirrors(origin, source[origin[d]], m[d]);
    forall i | 0 <= i < |source[origin[d]].slots|
      ensures MirrorsValue(origin, source[origin[d]].slots[i], m[d].slots[i])
    {
    }
  }

  /** Everything reachable from the payload has a copy, and nothing else has. */
  lemma CopiesWhatIsReached(s: State, m: map<Ref, Obj>, origin: map<Ref, Ref>, payload: Ref, root: Ref)
    requires s.busy == {} && payload in s.objects
    requires Copied(s.objects, ReachedFrom(s, {payload}), m, origin, payload, root)
    ensures origin.Values == ReachedFrom(s, {payload})
  {
    var scope := ReachedFrom(s, {payload});
    var covered := origin.Values;
    forall w: Ref, o: Ref | w in covered && Owns(s, w, o) && o in s.objects ensures o in covered {
      var d :| d in origin && origin[d] == w;
      assert FaithfulAt(s.objects, scope, m, origin, d) && Mirrors(origin, s.objects[w], m[d]);
      if i: nat :| SlotEdge(s, w, i, o) {
        assert MirrorsValue(origin, s.objects[w].slots[i], m[d].slots[i]);
      } else {
        assert WrapEdge(s, w, o);
      }
    }
    assert origin[root] in covered;
    ReachedIsLeast(s, {payload}, covered);
    forall o | o in covered ensures o in scope {
      var d :| d in origin && origin[d] == o;
      assert FaithfulAt(s.objects, scope, m, origin, d);
    }
  }

  /**
    A plain object or string that the payload reaches, or an array or wrapper on
    no cycle, is copied exactly once, whatever else the graph holds: objects
    that share it share its copy.
   */
  lemma CopiedExactlyOnce(s: State, m: map<Ref, Obj>, origin: map<Ref, Ref>, payload: Ref, root: Ref, o: Ref)
    requires s.busy == {} && payload in s.objects
    requires Copied(s.objects, ReachedFrom(s, {payload}), m, origin, payload, root)
    requires o in ReachedFrom(s, {payload}) && o in s.objects
    requires || !OnCycle(s.objects, o)
             || (s.objects[o].cls.kind != Interface && s.objects[o].cls.hook in {NoHook, StringHook})
    ensures exists d ::
        d in m && d in origin && origin[d] == o && forall e :: e in m && e in origin && origin[e] == o ==> e == d
  {
    CopiesWhatIsReached(s, m, origin, payload, root);
    var d :| d in origin && origin[d] == o;
    ReachedPresent(s, {payload});
    hide Faithful, ReachedFrom, Mirrors;
    assert Once(s.objects, m, origin);
  }

  /**
    If every cycle consists of plain objects, `origin` is an isomorphism: a
    bijection that keeps every slot and the implementation behind every wrapper.
   */
  lemma CopyIsIsomorphic(s: State, m: map<Ref, Obj>, origin: map<Ref, Ref>, payload: Ref, root: Ref)
    requires s.busy == {} && payload in s.objects
    requires Copied(s.objects, ReachedFrom(s, {payload}), m, origin, payload, root)
    requires forall o :: o in ReachedFrom(s, {payload}) && o in s.objects ==>
      || !OnCycle(s.objects, o)
      || (s.objects[o].cls.kind != Interface && s.objects[o].cls.hook in {NoHook, StringHook})
    ensures origin.Keys == m.Keys && origin.Values == ReachedFrom(s, {payload})
    ensures forall d, e :: d in m && e in m && origin[d] == origin[e] ==> d == e
    ensures forall d, e, i: nat :: d in m && e in m && i < |m[d].slots| ==>
      origin[d] in s.objects && |s.objects[origin[d]].slots| == |m[d].slots|
      && (Target(m[d].slots[i]) == e <==> Target(s.objects[origin[d]].slots[i]) == origin[e])
    ensures forall d, e :: d in m && e in m ==>
      origin[d] in s.objects && (m[d].impl == e <==> s.objects[origin[d]].impl == origin[e])
  {
    var scope := ReachedFrom(s, {payload});
    CopiesWhatIsReached(s, m, origin, payload, root);
    forall d | d in m
      ensures origin[d] in scope && origin[d] in s.objects && |s.objects[origin[d]].slots| == |m[d].slots|
    {
      assert FaithfulAt(s.objects, scope, m, origin, d);
    }
    forall d, e | d in m && e in m ensures m[d].impl == e <==> s.objects[origin[d]].impl == origin[e] {
      assert Mirrors(origin, s.objects[origin[d]], m[d]);
    }
    forall d, e, i: nat | d in m && e in m && i < |m[d].slots|
      ensures Target(m[d].slots[i]) == e <==> Target(s.objects[origin[d]].slots[i]) == origin[e]
    {
      assert Mirrors(origin, s.objects[origin[d]], m[d]);
      assert MirrorsValue(origin, s.objects[origin[d]].slots[i], m[d].slots[i]);
    }
  }

  /** A balanced heap is fit for copying from any live object whose graph holds ordinary classes. */
  lemma ReachedIsReadable(s: State, payload: Ref)
    requires Balanced(s, NULL) && s.busy == {} && payload in s.objects && !s.objects[payload].pending
    requires forall o :: o in ReachedFrom(s, {payload}) ==> WellClassed(s.objects[o].cls)
    ensures Readable(s.objects, ReachedFrom(s, {payload}))
  {
    hide Balanced, ReachedFrom, ReadableAt;
    var scope := ReachedFrom(s, {payload});
    ReachedIsInductive(s, {payload});
    ReachedPresent(s, {payload});
    Arrays.NullIsFree(s);
    forall o | o in scope ensures !s.objects[o].pending && ReadableAt(scope, s.objects[o]) {
      BalancedAt(s, NULL, o);
      if o != payload {
        ReachedHasReason(s, {payload}, o);
        var w :| w in scope && Owns(s, w, o);
        OwnedNotPending(s, w, o);
      }
      BalancedClosed(s);
      ReadableObjectOf(s, scope, o);
    }
  }

  lemma BalancedClosed(s: State)
    requires Balanced(s, NULL)
    ensures Closed(s)
  {
  }

  lemma ReachedPresent(s: State, seeds: set<Ref>)
    ensures ReachedFrom(s, seeds) <= s.objects.Keys
  {
  }

  lemma ReadableObjectOf(s: State, scope: set<Ref>, o: Ref)
    requires Closed(s) && s.busy == {} && Inductive(s, scope) && o in scope && o in s.objects && !s.objects[o].pending
    requires WellClassed(s.objects[o].cls)
    ensures ReadableAt(scope, s.objects[o])
  {
    forall k: nat | k < |s.objects[o].slots| && Target(s.objects[o].slots[k]) != NULL
      ensures Target(s.objects[o].slots[k]) in scope
    {
      assert SlotEdge(s, o, k, Target(s.objects[o].slots[k]));
    }
    if s.objects[o].impl != NULL {
      assert WrapEdge(s, o, s.objects[o].impl);
    }
  }

  lemma OwnedNotPending(s: State, w: Ref, o: Ref)
    requires Balanced(s, NULL) && Owns(s, w, o) && o in s.objects
    ensures !s.objects[o].pending
  {
    BalancedAt(s, NULL, o);
    if i: nat :| SlotEdge(s, w, i, o) {
      assert (w, i) in SlotOwners(s, o);
    } else {
      assert w in WrapOwners(s, o);
    }
  }
}
