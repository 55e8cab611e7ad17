/**
  The cycle collector: index the property-referenced objects and the
  implementations behind their wrappers, count the references among them, mark
  from every object with an owner the count does not explain, and break up the
  rest with ordinary releases.
 */
module Collector {
  import opened ObjectGraph
  import opened RefCount
  import opened CycleGraphs
  import opened Reachability

  // ------------------------------------------------- counting references

  /** The owning references an object enumerates to the collector. */
  ghost function Out(x: Obj): multiset<Ref> {
    Refs(x.slots) + One(x.impl)
  }

  /** References to `o` enumerated by the objects of `q`. */
  ghost function Inflow(m: map<Ref, Obj>, q: seq<Ref>, o: Ref): nat
    requires forall w :: w in q ==> w in m
  {
    if q == [] then 0 else
      assert q[|q| - 1] in q;
      Inflow(m, q[..|q| - 1], o) + Out(m[q[|q| - 1]])[o]
  }

  ghost function SlotOwnersIn(s: State, q: set<Ref>, o: Ref): set<(Ref, nat)> {
    set e | e in SlotOwners(s, o) && e.0 in q
  }

  ghost function WrapOwnersIn(s: State, q: set<Ref>, o: Ref): set<Ref> {
    set w | w in WrapOwners(s, o) && w in q
  }

  ghost function Members(q: seq<Ref>): set<Ref> {
    set w | w in q
  }

  /** What the collector counts for `o` is the number of its owners among the indexed objects. */
  lemma {:induction false} InflowCountsOwners(s: State, q: seq<Ref>, o: Ref)
    requires s.busy == {} && o != NULL && Distinct(q)
    requires forall w :: w in q ==> w in s.objects && !s.objects[w].pending
    ensures Inflow(s.objects, q, o) == |SlotOwnersIn(s, Members(q), o)| + |WrapOwnersIn(s, Members(q), o)|
  {
    hide SlotOwnersIn, WrapOwnersIn, Members, Refs, Out;
    if q == [] {
      NoOwnersIn(s, o);
    } else {
      var p, w := q[..|q| - 1], q[|q| - 1];
      assert w in q && forall x :: x in p ==> x in q;
      InflowCountsOwners(s, p, o);
      LastMember(q);
      OwnersOfOneMore(s, Members(p), w, o);
      OutSplits(s.objects[w], o);
    }
  }

  lemma OutSplits(x: Obj, o: Ref)
    ensures Out(x)[o] == Refs(x.slots)[o] + One(x.impl)[o]
  {
  }

  lemma LastMember(q: seq<Ref>)
    requires Distinct(q) && q != []
    ensures q[|q| - 1] !in Members(q[..|q| - 1]) && Members(q) == Members(q[..|q| - 1]) + {q[|q| - 1]}
  {
  }

  lemma NoOwnersIn(s: State, o: Ref)
    ensures SlotOwnersIn(s, Members([]), o) == {} && WrapOwnersIn(s, Members([]), o) == {}
  {
  }

  lemma OwnersOfOneMore(s: State, q: set<Ref>, w: Ref, o: Ref)
    requires s.busy == {} && o != NULL && w !in q && w in s.objects && !s.objects[w].pending
    ensures |SlotOwnersIn(s, q + {w}, o)| == |SlotOwnersIn(s, q, o)| + Refs(s.objects[w].slots)[o]
    ensures |WrapOwnersIn(s, q + {w}, o)| == |WrapOwnersIn(s, q, o)| + One(s.objects[w].impl)[o]
  {
    SlotsOfOneMore(s, q, w, o);
    if s.objects[w].impl == o {
      assert WrapOwnersIn(s, q + {w}, o) == WrapOwnersIn(s, q, o) + {w};
    } else {
      assert WrapOwnersIn(s, q + {w}, o) == WrapOwnersIn(s, q, o);
    }
  }

  lemma SlotsOfOneMore(s: State, q: set<Ref>, w: Ref, o: Ref)
    requires s.busy == {} && o != NULL && w !in q && w in s.objects && !s.objects[w].pending
    ensures |SlotOwnersIn(s, q + {w}, o)| == |SlotOwnersIn(s, q, o)| + Refs(s.objects[w].slots)[o]
  {
    var slots := s.objects[w].slots;
    var mine := EdgesFrom(w, slots, 0, o);
    EdgesAreRefs(w, slots, 0, o);
    assert slots[0..] == slots;
    hide Refs;
    forall e: (Ref, nat) ensures e in SlotOwnersIn(s, q + {w}, o) <==> e in SlotOwnersIn(s, q, o) || e in mine {
    }
    assert SlotOwnersIn(s, q + {w}, o) == SlotOwnersIn(s, q, o) + mine;
    assert SlotOwnersIn(s, q, o) !! mine;
  }

  /** `o` has an owner that the objects of `q` do not account for. */
  ghost predicate External(s: State, q: set<Ref>, o: Ref) {
    o in s.props || o in s.locals || exists w :: w !in q && Owns(s, w, o)
  }

  /** With exact counts, a count that the index does not explain is an external owner, and conversely. */
  lemma UnexplainedIsExternal(s: State, q: seq<Ref>, o: Ref)
    requires s.busy == {} && Distinct(q) && o != NULL && o in s.objects && Exact(s, o) && !s.objects[o].immortal
    requires forall w :: w in q ==> w in s.objects && !s.objects[w].pending
    ensures s.objects[o].references + s.objects[o].propertyReferences != Inflow(s.objects, q, o)
      <==> External(s, Members(q), o)
  {
    InflowCountsOwners(s, q, o);
    var slotsIn, wrapsIn := SlotOwnersIn(s, Members(q), o), WrapOwnersIn(s, Members(q), o);
    Subset(slotsIn, SlotOwners(s, o));
    Subset(wrapsIn, WrapOwners(s, o));
    if slotsIn == SlotOwners(s, o) && wrapsIn == WrapOwners(s, o) {
      forall w: Ref | w !in Members(q) ensures !Owns(s, w, o) {
        assert WrapEdge(s, w, o) ==> w in wrapsIn;
        assert forall i: nat :: SlotEdge(s, w, i, o) ==> (w, i) in slotsIn;
      }
    } else if slotsIn != SlotOwners(s, o) {
      var e :| e in SlotOwners(s, o) && e !in slotsIn;
      assert Owns(s, e.0, o) by {
        assert SlotEdge(s, e.0, e.1, o);
      }
    } else {
      var w :| w in WrapOwners(s, o) && w !in wrapsIn;
      assert Owns(s, w, o);
    }
  }

  lemma Subset<T>(a: set<T>, b: set<T>)
    requires a <= b
    ensures |a| <= |b| && (|a| == |b| ==> a == b)
  {
    assert b == a + (b - a);
  }

  // ------------------------------------------------------- the dead nodes

  /** Every active object is indexed or immortal or held only locally, and indexing follows wrappers. */
  ghost predicate Complete(s: State, q: set<Ref>) {
    && (forall o :: o in q ==> o in s.objects && !s.objects[o].immortal && !s.objects[o].pending)
    && (forall o :: o in s.objects && s.objects[o].propertyReferences > 0 ==> o in q)
    && (forall w: Ref ::
          w in q && s.objects[w].impl in s.objects && !s.objects[s.objects[w].impl].immortal ==>
            s.objects[w].impl in q)
  }

  /** `live` is what marking may find: its roots, closed under references among the indexed objects. */
  ghost predicate Marked(s: State, q: set<Ref>, live: set<Ref>) {
    && live <= q
    && (forall o :: o in q && (o in Finalizers(s) || External(s, q, o)) ==> o in live)
    && (forall w: Ref, o: Ref :: w in live && o in q && Owns(s, w, o) ==> o in live)
    && live <= ReachedFrom(s, Anchors(s) + Finalizers(s))
  }

  /** Objects that wrap, directly or not, something of higher rank than `o`. */
  ghost function Higher(s: State, rank: map<Ref, nat>, o: Ref): set<Ref> {
    set w | w in s.objects && o in rank && w in rank && rank[w] > rank[o]
  }

  /** An object that is not indexed is held from outside, perhaps through wrappers that are not indexed either. */
  lemma {:induction false} OutsideIsReached(s: State, q: set<Ref>, rank: map<Ref, nat>, o: Ref)
    requires Balanced(s, NULL) && Complete(s, q) && Ranked(s.objects, rank)
    requires o in s.objects && !s.objects[o].pending && o !in q
    ensures o in ReachedFrom(s, Anchors(s))
    decreases Higher(s, rank, o)
  {
    var r := ReachedFrom(s, Anchors(s));
    ReachedIsInductive(s, Anchors(s));
    assert Exact(s, o);
    if o !in s.locals {
      assert WrapOwners(s, o) != {};
      var w :| w in WrapOwners(s, o);
      assert WrapEdge(s, w, o) && Owns(s, w, o);
      assert w in Higher(s, rank, o) && w !in Higher(s, rank, w);
      OutsideIsReached(s, q, rank, w);
    }
  }

  /** Indexed objects that marking did not find are exactly the garbage. */
  lemma UnmarkedIsGarbage(s: State, q: set<Ref>, live: set<Ref>, rank: map<Ref, nat>)
    requires Balanced(s, NULL) && Complete(s, q) && Ranked(s.objects, rank) && Marked(s, q, live)
    ensures q - live == Garbage(s)
  {
    hide Balanced;
    var dead, seeds := q - live, Anchors(s) + Finalizers(s);
    var kept := s.objects.Keys - dead;
    forall w: Ref, o: Ref | w in kept && Owns(s, w, o) && o in s.objects ensures o in kept {
      assert o in q && w !in q ==> External(s, q, o);
    }
    ReachedIsLeast(s, seeds, kept);
    forall o | o in Active(s.objects) && o !in q ensures o in ReachedFrom(s, seeds) {
      OutsideIsReached(s, q, rank, o);
      MoreSeeds(s);
    }
  }

  // ---------------------------------------------- enumerating an object

  ghost function BumpedBy(nodes: seq<Node>, members: seq<Ref>, out: multiset<Ref>): seq<Node> {
    seq(|nodes|, j requires 0 <= j < |nodes| =>
      if j < |members| then nodes[j].(internal := nodes[j].internal + out[members[j]]) else nodes[j])
  }

  ghost function LitBy(nodes: seq<Node>, members: seq<Ref>, out: multiset<Ref>): seq<Node> {
    seq(|nodes|, j requires 0 <= j < |nodes| =>
      if j < |members| && members[j] in out then nodes[j].(live := true) else nodes[j])
  }

  lemma EnumerateNone(nodes: seq<Node>, members: seq<Ref>)
    ensures BumpedBy(nodes, members, multiset{}) == nodes == LitBy(nodes, members, multiset{})
  {
  }

  lemma EnumerateOne(nodes: seq<Node>, members: seq<Ref>, out: multiset<Ref>, p: Ref)
    requires forall i :: 0 <= i < |members| ==> members[i] != NULL
    ensures Bumped(BumpedBy(nodes, members, out), members, p) == BumpedBy(nodes, members, out + One(p))
    ensures Lit(LitBy(nodes, members, out), members, p) == LitBy(nodes, members, out + One(p))
  {
  }

  lemma RefsExtend(slots: seq<Value>, from: nat, i: nat)
    requires from <= i < |slots|
    ensures Refs(slots[from..i + 1]) == Refs(slots[from..i]) + One(Target(slots[i]))
  {
    assert slots[from..i + 1] == slots[from..i] + [slots[i]];
    RefsAppend(slots[from..i], [slots[i]]);
  }

  /** Enumerates a range of slots, given that `out` has been enumerated already. */
  method SlotEdges(graph: CycleGraph, x: Obj, from: nat, to: nat, ghost out: multiset<Ref>, ghost nodes: seq<Node>)
    requires graph.Valid() && from <= to <= |x.slots|
    requires !graph.marking ==> graph.nodes[..] == BumpedBy(nodes, graph.members, out)
    requires graph.marking ==> graph.nodes[..] == LitBy(nodes, graph.members, out)
    modifies graph`queued, graph.nodes, graph.queue
    ensures graph.Valid() && graph.queued >= old(graph.queued)
    ensures graph.queue[..old(graph.queued)] == old(graph.queue[..graph.queued])
    ensures !graph.marking ==>
        && graph.queued == old(graph.queued)
        && graph.nodes[..] == BumpedBy(nodes, graph.members, out + Refs(x.slots[from..to]))
    ensures graph.marking ==> graph.nodes[..] == LitBy(nodes, graph.members, out + Refs(x.slots[from..to]))
  {
    hide BumpedBy, LitBy, Refs, One, TableOk, QueueOk, Bumped, Lit, Probing.Indexed;
    graph.MembersPresent();
    ghost var queue := graph.queue[..graph.queued];
    RefsNone(x.slots, from);
    assert out + multiset{} == out;
    var i := from;
    while i < to
      invariant from <= i <= to && graph.Valid()
      invariant graph.queued >= |queue| && graph.queue[..|queue|] == queue
      invariant !graph.marking ==>
          graph.queued == |queue| && graph.nodes[..] == BumpedBy(nodes, graph.members, out + Refs(x.slots[from..i]))
      invariant graph.marking ==> graph.nodes[..] == LitBy(nodes, graph.members, out + Refs(x.slots[from..i]))
    {
      EnumerateOne(nodes, graph.members, out + Refs(x.slots[from..i]), Target(x.slots[i]));
      RefsExtend(x.slots, from, i);
      assert out + Refs(x.slots[from..i + 1]) == out + Refs(x.slots[from..i]) + One(Target(x.slots[i]));
      graph.MembersPresent();
      ghost var queued := graph.queue[..graph.queued];
      graph.Edge(Target(x.slots[i]));
      assert graph.queue[..|queue|] == graph.queue[..|queued|][..|queue|];
      i := i + 1;
    }
  }

  /** Enumerates every owning reference of an object: properties, array elements, wrapped implementation. */
  method OwnedEdges(graph: CycleGraph, x: Obj)
    requires graph.Valid() && ShapeOk(x)
    modifies graph`queued, graph.nodes, graph.queue
    ensures graph.Valid() && graph.queued >= old(graph.queued)
    ensures graph.queue[..old(graph.queued)] == old(graph.queue[..graph.queued])
    ensures !graph.marking ==>
        graph.queued == old(graph.queued) && graph.nodes[..] == BumpedBy(old(graph.nodes[..]), graph.members, Out(x))
    ensures graph.marking ==> graph.nodes[..] == LitBy(old(graph.nodes[..]), graph.members, Out(x))
  {
    hide BumpedBy, LitBy, Refs, One, TableOk, QueueOk, Bumped, Lit, Probing.Indexed, ShapeOk;
    ghost var nodes := graph.nodes[..];
    EnumerateNone(nodes, graph.members);
    graph.MembersPresent();
    RefsOfObject(x);
    ghost var p, q := Refs(x.slots[0..x.cls.properties]), Refs(x.slots[x.cls.properties..|x.slots|]);
    assert Out(x) == p + q + One(x.impl);
    if x.cls.kind == Interface {
      ShapeOfWrapper(x);
      EnumerateOne(nodes, graph.members, multiset{}, x.impl);
      assert multiset{} + One(x.impl) == Out(x);
      graph.Edge(x.impl);
      return;
    }
    assert Out(x) == p + q;
    if x.cls.kind == Class {
      assert multiset{} + p == p && p + multiset{} == p;
      if x.cls.holdsObjects {
        SlotEdges(graph, x, 0, x.cls.properties, multiset{}, nodes);
      }
      graph.MembersPresent();
      ghost var queue := graph.queue[..graph.queued];
      if x.cls.hook == ArrayHook {
        SlotEdges(graph, x, x.cls.properties, |x.slots|, p, nodes);
      }
      assert graph.queue[..old(graph.queued)] == graph.queue[..|queue|][..old(graph.queued)];
    } else {
      ShapeOfWrapper(x);
    }
  }

  lemma ShapeOfWrapper(x: Obj)
    requires ShapeOk(x) && x.cls.kind != Class
    ensures Refs(x.slots[0..x.cls.properties]) == multiset{} && Refs(x.slots[x.cls.properties..|x.slots|]) == multiset{}
  {
  }

  // ------------------------------------------------------------ indexing

  /** `q` lists mortal active objects, each once. */
  ghost predicate Indexable(s: State, q: seq<Ref>) {
    Distinct(q) && forall o :: o in q ==> o in s.objects && !s.objects[o].immortal && !s.objects[o].pending
  }

  /** A fresh node for every member, holding its two counts. */
  ghost predicate Fresh(m: map<Ref, Obj>, nodes: seq<Node>, members: seq<Ref>) {
    |members| <= |nodes| && forall j :: 0 <= j < |members| ==>
      && members[j] in m
      && nodes[j] == Node(members[j], m[members[j]].references + m[members[j]].propertyReferences, 0, false)
  }

  lemma IndexableFits(s: State, q: seq<Ref>)
    requires Indexable(s, q)
    ensures |q| <= |Mortals(s.objects)|
  {
    DistinctRefsWithin(q, Mortals(s.objects));
  }

  lemma DistinctRefsWithin(q: seq<Ref>, all: set<Ref>)
    requires Distinct(q) && forall o :: o in q ==> o in all
    ensures |q| <= |all|
  {
    if q != [] {
      DistinctRefsWithin(q[1..], all - {q[0]});
    }
  }

  lemma ListIndexable(s: State, l: Ledger)
    requires Balanced(s, NULL) && Booked(s.objects, l)
    ensures Indexable(s, l.list)
    ensures forall o :: o in s.objects && s.objects[o].propertyReferences > 0 ==> o in l.list
    ensures Threaded(s.objects, l.first, l.list) && l.first == Head(l.list) && |Mortals(s.objects)| == l.allocations
  {
    forall o | o in l.list ensures o in s.objects && !s.objects[o].immortal && !s.objects[o].pending {
      var i: nat :| i < |l.list| && l.list[i] == o;
      assert LinkedAt(s.objects, l.list, i);
      assert Exact(s, o);
    }
  }

  lemma IndexableAdd(s: State, q: seq<Ref>, w: Ref)
    requires Balanced(s, NULL) && Indexable(s, q) && w in q
    requires s.objects[w].impl != NULL
    ensures s.objects[w].impl in s.objects
    ensures s.objects[w].impl !in q && !s.objects[s.objects[w].impl].immortal ==> Indexable(s, q + [s.objects[w].impl])
  {
    var o := s.objects[w].impl;
    assert WrapEdge(s, w, o);
    assert Exact(s, o) && w in WrapOwners(s, o);
  }

  /** Indexes the property-referenced list. */
  method IndexList(iso: Isolate, graph: CycleGraph)
    requires iso.Valid() && graph.Valid() && !graph.marking && graph.queued == 0 && graph.members == []
    requires graph.nodes.Length > iso.allocationCount
    modifies graph`count, graph`members, graph`keys, graph.nodes, graph.table
    ensures graph.Valid() && !graph.marking && graph.queued == 0 && graph.members == iso.linked
    ensures Fresh(iso.objects, graph.nodes[..], graph.members)
  {
    hide Balanced, Booked, TableOk, QueueOk, Probing.Indexed, Indexable, Threaded, Fresh;
    ghost var s, l := iso.Heap(), iso.Book();
    ListIndexable(s, l);
    IndexableFits(s, l.list);
    FreshNone(s.objects, graph.nodes[..]);
    var obj := iso.firstObject;
    ghost var k := 0;
    while obj != NULL
      invariant k <= |l.list| && obj == (if k < |l.list| then l.list[k] else NULL)
      invariant graph.Valid() && !graph.marking && graph.queued == 0 && graph.members == l.list[..k]
      invariant Fresh(s.objects, graph.nodes[..], graph.members)
      decreases |l.list| - k
    {
      ListStep(s.objects, l.first, l.list, k);
      graph.MembersPresent();
      FreshAdd(s.objects, graph.nodes[..], graph.members, obj);
      graph.Add(obj, iso.objects[obj].references + iso.objects[obj].propertyReferences);
      obj := iso.objects[obj].next;
      k := k + 1;
    }
    ListDone(s.objects, l.first, l.list, k);
  }

  /** Adds the implementations held only through indexed wrappers; the index grows under the loop. */
  method IndexImplementations(iso: Isolate, graph: CycleGraph)
    requires iso.Valid() && graph.Valid() && !graph.marking && graph.queued == 0 && graph.members == iso.linked
    requires graph.nodes.Length > iso.allocationCount
    requires Fresh(iso.objects, graph.nodes[..], graph.members)
    modifies graph`count, graph`members, graph`keys, graph.nodes, graph.table
    ensures graph.Valid() && !graph.marking && graph.queued == 0
    ensures Indexable(iso.Heap(), graph.members) && Complete(iso.Heap(), Members(graph.members))
    ensures Fresh(iso.objects, graph.nodes[..], graph.members)
  {
    hide Balanced, Booked, TableOk, QueueOk, Probing.Indexed, Indexable, Threaded, Fresh, Followed, Complete;
    ghost var s, l := iso.Heap(), iso.Book();
    ListIndexable(s, l);
    graph.MembersPresent();
    FollowedNone(s.objects, l.list);
    var i := 0;
    while i < graph.count
      invariant graph.Valid() && !graph.marking && graph.queued == 0 && i <= graph.count
      invariant Fresh(s.objects, graph.nodes[..], graph.members)
      invariant Indexable(s, graph.members) && l.list <= graph.members
      invariant Followed(s.objects, graph.members, i)
      decreases graph.nodes.Length - i
    {
      graph.MembersPresent();
      FreshAt(s, graph.nodes[..], graph.members, i);
      var obj := graph.nodes[i].ref;
      ghost var q := graph.members;
      if iso.objects[obj].cls.kind == Interface {
        IndexImplementation(iso, graph, obj);
      }
      FollowedNext(s, q, graph.members, i);
      graph.MembersPresent();
      i := i + 1;
    }
    graph.MembersPresent();
    IndexIsComplete(s, l.list, graph.members);
  }

  /** Adds the implementation of one wrapper, unless it is immortal or known. */
  method IndexImplementation(iso: Isolate, graph: CycleGraph, w: Ref)
    requires iso.Valid() && graph.Valid() && !graph.marking && graph.queued == 0
    requires graph.nodes.Length > iso.allocationCount
    requires Indexable(iso.Heap(), graph.members) && w in graph.members && w in iso.objects
    requires Fresh(iso.objects, graph.nodes[..], graph.members)
    modifies graph`count, graph`members, graph`keys, graph.nodes, graph.table
    ensures graph.Valid() && !graph.marking && graph.queued == 0 && old(graph.members) <= graph.members
    ensures Indexable(iso.Heap(), graph.members) && Fresh(iso.objects, graph.nodes[..], graph.members)
    ensures iso.objects[w].impl in iso.objects && !iso.objects[iso.objects[w].impl].immortal ==>
        iso.objects[w].impl in graph.members
  {
    hide Balanced, Booked, TableOk, QueueOk, Probing.Indexed, Indexable, Fresh, Threaded, ShapeOk, Exact;
    ghost var s := iso.Heap();
    ListIndexable(s, iso.Book());
    var impl := iso.objects[w].impl;
    if impl in s.objects {
      BalancedAt(s, NULL, impl);
    }
    if impl != NULL {
      IndexableAdd(s, graph.members, w);
      if !iso.objects[impl].immortal {
        var known := graph.Contains(impl);
        if !known {
          IndexableFits(s, graph.members + [impl]);
          graph.MembersPresent();
          FreshAdd(s.objects, graph.nodes[..], graph.members, impl);
          graph.Add(impl, iso.objects[impl].references + iso.objects[impl].propertyReferences);
        }
      }
    }
  }

  lemma FollowedNone(m: map<Ref, Obj>, q: seq<Ref>)
    ensures Followed(m, q, 0)
  {
  }

  /** Wrappers among the first `i` members have their mortal implementations indexed. */
  ghost predicate Followed(m: map<Ref, Obj>, q: seq<Ref>, i: nat) {
    && i <= |q|
    && forall a: nat :: a < i && q[a] in m && m[q[a]].impl in m && !m[m[q[a]].impl].immortal ==> m[q[a]].impl in q
  }

  lemma FollowedNext(s: State, q: seq<Ref>, r: seq<Ref>, i: nat)
    requires Followed(s.objects, q, i) && q <= r && i < |q| && q[i] in s.objects
    requires s.objects[q[i]].impl in s.objects && !s.objects[s.objects[q[i]].impl].immortal ==>
      s.objects[q[i]].impl in r
    ensures Followed(s.objects, r, i + 1)
  {
  }

  lemma IndexIsComplete(s: State, list: seq<Ref>, q: seq<Ref>)
    requires Indexable(s, q) && list <= q && Followed(s.objects, q, |q|)
    requires forall o :: o in s.objects && s.objects[o].propertyReferences > 0 ==> o in list
    ensures Complete(s, Members(q))
  {
    forall w: Ref | w in Members(q) && s.objects[w].impl in s.objects && !s.objects[s.objects[w].impl].immortal
      ensures s.objects[w].impl in Members(q)
    {
      var a: nat :| a < |q| && q[a] == w;
    }
  }

  lemma ListStep(m: map<Ref, Obj>, first: Ref, q: seq<Ref>, k: nat)
    requires Threaded(m, first, q) && k < |q|
    ensures q[k] in m && q[k] != NULL && m[q[k]].next == NextIn(q, k) && q[k] !in q[..k]
    ensures q[..k + 1] == q[..k] + [q[k]]
  {
    assert LinkedAt(m, q, k);
  }

  lemma ListDone(m: map<Ref, Obj>, first: Ref, q: seq<Ref>, k: nat)
    requires Threaded(m, first, q) && k <= |q|
    ensures k < |q| ==> q[k] != NULL
    ensures k == |q| ==> q[..k] == q
  {
    assert k < |q| ==> LinkedAt(m, q, k);
  }

  lemma FreshNone(m: map<Ref, Obj>, nodes: seq<Node>)
    ensures Fresh(m, nodes, [])
  {
  }

  lemma FreshAdd(m: map<Ref, Obj>, nodes: seq<Node>, members: seq<Ref>, p: Ref)
    requires Fresh(m, nodes, members) && p in m && |members| < |nodes|
    ensures Fresh(m, nodes[|members| := Node(p, m[p].references + m[p].propertyReferences, 0, false)], members + [p])
  {
  }

  lemma FreshAt(s: State, nodes: seq<Node>, members: seq<Ref>, i: nat)
    requires Balanced(s, NULL) && Fresh(s.objects, nodes, members) && i < |members| && Indexable(s, members)
    ensures s.objects[members[i]].cls.kind != Interface || s.objects[members[i]].impl == NULL ==>
        s.objects[members[i]].impl !in s.objects
    ensures i < |nodes| && nodes[i].ref == members[i] && members[i] in members && members[i] in s.objects
    ensures ShapeOk(s.objects[members[i]])
  {
  }

  // ------------------------------------------------ counting and marking

  /** Every node holds its object's counts and the references enumerated by `q`. */
  ghost predicate Tallied(m: map<Ref, Obj>, nodes: seq<Node>, members: seq<Ref>, q: seq<Ref>)
    requires forall w :: w in q ==> w in m
  {
    |members| <= |nodes| && forall j :: 0 <= j < |members| ==>
      && members[j] in m
      && nodes[j] == Node(members[j], m[members[j]].references + m[members[j]].propertyReferences,
           Inflow(m, q, members[j]), false)
  }

  lemma TalliedNext(m: map<Ref, Obj>, nodes: seq<Node>, members: seq<Ref>, i: nat)
    requires i < |members| && forall w :: w in members ==> w in m
    requires Tallied(m, nodes, members, members[..i])
    ensures Tallied(m, BumpedBy(nodes, members, Out(m[members[i]])), members, members[..i + 1])
  {
    assert members[..i + 1][..i] == members[..i];
  }

  /** Counts the references among the indexed objects. */
  method CountInternal(iso: Isolate, graph: CycleGraph)
    requires iso.Valid() && graph.Valid() && !graph.marking && graph.queued == 0
    requires Indexable(iso.Heap(), graph.members) && Fresh(iso.objects, graph.nodes[..], graph.members)
    modifies graph`queued, graph.nodes, graph.queue
    ensures graph.Valid() && graph.queued == 0
    ensures forall w :: w in graph.members ==> w in iso.objects
    ensures Tallied(iso.objects, graph.nodes[..], graph.members, graph.members)
  {
    hide Balanced, Booked, TableOk, QueueOk, Probing.Indexed, Inflow, BumpedBy, Out, ShapeOk;
    ghost var s, q := iso.Heap(), graph.members;
    graph.MembersPresent();
    TalliedNone(s.objects, graph.nodes[..], q);
    var i := 0;
    while i < graph.count
      invariant i <= graph.count && graph.Valid() && graph.queued == 0
      invariant Tallied(s.objects, graph.nodes[..], q, q[..i])
    {
      graph.Refs();
      BalancedAt(s, NULL, q[i]);
      TalliedNext(s.objects, graph.nodes[..], q, i);
      OwnedEdges(graph, iso.objects[graph.nodes[i].ref]);
      i := i + 1;
    }
    graph.MembersPresent();
    assert q[..i] == q;
  }

  lemma TalliedNone(m: map<Ref, Obj>, nodes: seq<Node>, members: seq<Ref>)
    requires Fresh(m, nodes, members)
    ensures Tallied(m, nodes, members, members[..0])
  {
  }

  /** An object the collector keeps by itself: a native finalizer, or an owner the index does not explain. */
  ghost predicate Root(s: State, q: set<Ref>, o: Ref) {
    o in Finalizers(s) || External(s, q, o)
  }

  /** A node's two counts differ exactly when its object is a root. */
  ghost predicate Classified(s: State, nodes: seq<Node>, members: seq<Ref>, from: nat) {
    from <= |members| <= |nodes| && forall j: nat :: j < |members| ==>
      && nodes[j].ref == members[j] && !nodes[j].live
      && (nodes[j].references != nodes[j].internal <==>
            if j < from then Root(s, Members(members), members[j]) else External(s, Members(members), members[j]))
  }

  lemma TalliedIsClassified(s: State, nodes: seq<Node>, members: seq<Ref>)
    requires Balanced(s, NULL) && s.busy == {} && Indexable(s, members)
    requires Tallied(s.objects, nodes, members, members)
    ensures Classified(s, nodes, members, 0)
  {
    hide Inflow;
    forall j: nat | j < |members|
      ensures nodes[j].references != nodes[j].internal <==> External(s, Members(members), members[j])
    {
      assert members[j] in members;
      BalancedAt(s, NULL, members[j]);
      UnexplainedIsExternal(s, members, members[j]);
    }
  }

  lemma ClassifiedNext(s: State, nodes: seq<Node>, members: seq<Ref>, i: nat)
    requires Classified(s, nodes, members, i) && i < |members| && members[i] in s.objects
    requires !s.objects[members[i]].pending
    ensures s.objects[members[i]].cls.hook == OtherHook ==>
      Classified(s, nodes[i := nodes[i].(references := nodes[i].internal + 1)], members, i + 1)
    ensures s.objects[members[i]].cls.hook != OtherHook ==> Classified(s, nodes, members, i + 1)
  {
  }

  /** Retains objects whose finalizers are not the collector's business. */
  method ForceFinalizers(iso: Isolate, graph: CycleGraph)
    requires iso.Valid() && graph.Valid() && graph.queued == 0
    requires Indexable(iso.Heap(), graph.members) && Classified(iso.Heap(), graph.nodes[..], graph.members, 0)
    modifies graph.nodes
    ensures graph.Valid() && graph.queued == 0
    ensures Classified(iso.Heap(), graph.nodes[..], graph.members, |graph.members|)
  {
    hide Balanced, Booked, TableOk, QueueOk, Probing.Indexed, Classified;
    ghost var s, q := iso.Heap(), graph.members;
    graph.MembersPresent();
    var i := 0;
    while i < graph.count
      invariant i <= graph.count && graph.Valid() && graph.queued == 0
      invariant Classified(s, graph.nodes[..], q, i)
    {
      graph.Refs();
      assert q[i] in q;
      ClassifiedNext(s, graph.nodes[..], q, i);
      var obj := iso.objects[graph.nodes[i].ref];
      if obj.immortal || obj.pending || obj.cls.hook == OtherHook {
        graph.SetReferences(i, graph.nodes[i].internal + 1);
      }
      i := i + 1;
    }
  }

  /** References of a heap without slots in flight, as enumerated. */
  lemma OutIsOwns(s: State, w: Ref, o: Ref)
    requires s.busy == {} && w in s.objects && !s.objects[w].pending && o != NULL
    ensures o in Out(s.objects[w]) <==> Owns(s, w, o)
  {
    var slots := s.objects[w].slots;
    EdgesAreRefs(w, slots, 0, o);
    assert slots[0..] == slots;
    hide Refs;
    if o in Refs(slots) {
      assert EdgesFrom(w, slots, 0, o) != {};
      var e :| e in EdgesFrom(w, slots, 0, o);
      assert SlotEdge(s, w, e.1, o);
    }
    if i: nat :| SlotEdge(s, w, i, o) {
      assert (w, i) in EdgesFrom(w, slots, 0, o);
    }
  }

  /** The marker's invariant once the first `i` queued nodes have been expanded. */
  ghost predicate Marking(s: State, nodes: seq<Node>, members: seq<Ref>, done: seq<nat>) {
    && |members| <= |nodes|
    && (forall j: nat :: j < |members| ==> nodes[j].ref == members[j])
    && (forall j: nat :: j < |members| && Root(s, Members(members), members[j]) ==> nodes[j].live)
    && (forall j: nat :: j < |members| && nodes[j].live ==> members[j] in ReachedFrom(s, Anchors(s) + Finalizers(s)))
    && (forall a: nat :: a < |done| ==> done[a] < |members| && Expanded(s, nodes, members, members[done[a]]))
  }

  /** Everything `w` owns among the members is live. */
  ghost predicate Expanded(s: State, nodes: seq<Node>, members: seq<Ref>, w: Ref) {
    |members| <= |nodes| && forall k: nat :: k < |members| && Owns(s, w, members[k]) ==> nodes[k].live
  }

  /** An unexplained owner is an outside owner, or an object that is itself held from outside. */
  lemma RootIsReached(s: State, q: set<Ref>, rank: map<Ref, nat>, o: Ref)
    requires Balanced(s, NULL) && Complete(s, q) && Ranked(s.objects, rank)
    requires o in q && Root(s, q, o)
    ensures o in ReachedFrom(s, Anchors(s) + Finalizers(s))
  {
    ReachedIsInductive(s, Anchors(s) + Finalizers(s));
    if w: Ref :| w !in q && Owns(s, w, o) {
      OutsideIsReached(s, q, rank, w);
      MoreSeeds(s);
    }
  }

  lemma MarkingStarts(s: State, nodes: seq<Node>, members: seq<Ref>, rank: map<Ref, nat>)
    requires Balanced(s, NULL) && Complete(s, Members(members)) && Ranked(s.objects, rank)
    requires Classified(s, nodes, members, |members|)
    ensures Marking(s, Rooted(nodes, |members|), members, [])
  {
    hide Balanced, Complete, Ranked, ReachedFrom, Finalizers, External, Anchors;
    forall j: nat | j < |members| && Rooted(nodes, |members|)[j].live
      ensures members[j] in ReachedFrom(s, Anchors(s) + Finalizers(s))
    {
      assert members[j] in Members(members);
      RootIsReached(s, Members(members), rank, members[j]);
    }
  }

  lemma MarkingNext(s: State, nodes: seq<Node>, members: seq<Ref>, done: seq<nat>, i: nat)
    requires s.busy == {} && Indexable(s, members) && (forall k: nat :: k < |members| ==> members[k] != NULL)
    requires Marking(s, nodes, members, done) && i < |members| && nodes[i].live
    ensures i < |members| && members[i] in s.objects
    ensures Marking(s, LitBy(nodes, members, Out(s.objects[members[i]])), members, done + [i])
  {
    hide Root, ReachedFrom, Out, Finalizers, Anchors;
    var w := members[i];
    var lit := LitBy(nodes, members, Out(s.objects[w]));
    assert w in members;
    forall k: nat | k < |members| ensures members[k] in Out(s.objects[w]) <==> Owns(s, w, members[k]) {
      OutIsOwns(s, w, members[k]);
    }
    hide Owns;
    LitIsReached(s, w);
    forall j: nat | j < |members| && lit[j].live ensures members[j] in ReachedFrom(s, Anchors(s) + Finalizers(s)) {
      assert members[j] in members;
    }
    forall a: nat | a < |done + [i]|
      ensures (done + [i])[a] < |members| && Expanded(s, lit, members, members[(done + [i])[a]])
    {
      if a < |done| {
        assert Expanded(s, nodes, members, members[done[a]]);
      }
    }
  }

  lemma LitIsReached(s: State, w: Ref)
    ensures w in ReachedFrom(s, Anchors(s) + Finalizers(s)) ==>
      forall o: Ref :: Owns(s, w, o) && o in s.objects ==> o in ReachedFrom(s, Anchors(s) + Finalizers(s))
  {
    ReachedIsInductive(s, Anchors(s) + Finalizers(s));
  }

  /** Marks everything reachable from the roots. */
  method Mark(iso: Isolate, graph: CycleGraph)
    requires iso.Valid() && iso.busy == {} && graph.Valid() && graph.queued == 0
    requires Indexable(iso.Heap(), graph.members) && Complete(iso.Heap(), Members(graph.members))
    requires Classified(iso.Heap(), graph.nodes[..], graph.members, |graph.members|)
    modifies graph`queued, graph`marking, graph.nodes, graph.queue
    ensures graph.Valid() && Marked(iso.Heap(), Members(graph.members), graph.Live())
  {
    hide Balanced, Booked, TableOk, QueueOk, Probing.Indexed, Classified, Rooted, Marking, Marked, Out, LitBy,
      ShapeOk, Complete, Indexable;
    ghost var s, q := iso.Heap(), graph.members;
    graph.MembersPresent();
    NoneLive(s, graph.nodes[..], q);
    BookedRanked(s.objects, iso.Book());
    MarkingStarts(s, graph.nodes[..], q, iso.rank);
    graph.Roots();
    var i := 0;
    assert graph.queue[..0] == [];
    graph.MembersPresent();
    while i < graph.queued
      invariant i <= graph.queued <= graph.count == |q| < graph.nodes.Length == graph.queue.Length
      invariant graph.Valid() && graph.marking
      invariant Marking(s, graph.nodes[..], q, graph.queue[..i])
      decreases graph.nodes.Length - i
    {
      graph.QueueAt(i);
      ghost var j, done := graph.queue[i], graph.queue[..i];
      ghost var front := graph.queue[..graph.queued];
      MarkingNext(s, graph.nodes[..], q, done, j);
      BalancedAt(s, NULL, q[j]);
      OwnedEdges(graph, iso.objects[graph.nodes[graph.queue[i]].ref]);
      i := i + 1;
      graph.MembersPresent();
      assert graph.queue[..i] == front[..i] == done + [j];
    }
    MarkingEnds(s, graph);
  }

  lemma NoneLive(s: State, nodes: seq<Node>, members: seq<Ref>)
    requires Classified(s, nodes, members, |members|)
    ensures forall j: nat :: j < |members| ==> j < |nodes| && !nodes[j].live
  {
  }

  lemma BookedRanked(m: map<Ref, Obj>, l: Ledger)
    requires Booked(m, l)
    ensures Ranked(m, l.rank)
  {
  }

  lemma MarkingEnds(s: State, graph: CycleGraph)
    requires graph.Valid() && graph.queued <= graph.queue.Length && graph.count < graph.nodes.Length
    requires Marking(s, graph.nodes[..], graph.members, graph.queue[..graph.queued])
    ensures Marked(s, Members(graph.members), graph.Live())
  {
    hide Root, ReachedFrom, Owns, TableOk, Probing.Indexed, QueueOk;
    var q, nodes, done, live := graph.members, graph.nodes[..], graph.queue[..graph.queued], graph.Live();
    forall o | o in Members(q) && Root(s, Members(q), o) ensures o in live {
      var j: nat :| j < |q| && q[j] == o;
      assert nodes[j].live;
    }
    forall w: Ref, o: Ref | w in live && o in Members(q) && Owns(s, w, o) ensures o in live {
      var j: nat :| j < |q| && nodes[j].live && q[j] == w;
      graph.LiveIsQueued(j);
      var a: nat :| a < |done| && done[a] == j;
      assert Expanded(s, nodes, q, q[done[a]]);
      var k: nat :| k < |q| && q[k] == o;
      assert nodes[k].live;
    }
    forall o | o in live ensures o in Members(q) && o in ReachedFrom(s, Anchors(s) + Finalizers(s)) {
      var j: nat :| j < |q| && nodes[j].live && q[j] == o;
    }
    assert forall o :: o in Members(q) && (o in Finalizers(s) || External(s, Members(q), o)) ==>
      Root(s, Members(q), o) by
    {
      RootMeans(s, Members(q));
    }
  }

  lemma RootMeans(s: State, q: set<Ref>)
    ensures forall o :: o in Finalizers(s) || External(s, q, o) ==> Root(s, q, o)
  {
  }

  // ------------------------------------------------------- breaking up

  /** What is left of `x` once its slots hold no object. */
  ghost predicate Hollowed(x: Obj, y: Obj) {
    && y.impl == x.impl && y.cls == x.cls && y.pending == x.pending && y.immortal == x.immortal
    && forall k :: 0 <= k < |y.slots| ==> Target(y.slots[k]) == NULL
  }

  /** `x` with the first `i` slots of a range emptied, or the slots as they were. */
  ghost predicate Hollowing(x: Obj, y: Obj, from: nat, to: nat) {
    && y.impl == x.impl && y.cls == x.cls && y.pending == x.pending && y.immortal == x.immortal
    && |y.slots| == |x.slots| && from <= to <= |x.slots|
    && (forall k :: from <= k < to ==> Target(y.slots[k]) == NULL)
    && (forall k :: 0 <= k < |x.slots| && !(from <= k < to) ==> y.slots[k] == x.slots[k])
  }

  /** Sets one slot to null and gives its reference up, in the course of releasing `d`. */
  method ClearEdge(iso: Isolate, w: Ref, i: nat, ghost s: State, ghost d: set<Ref>)
    requires iso.Valid() && iso.busy == {} && w in iso.locals && w in iso.objects && w in d && !iso.objects[w].pending
    requires i < |iso.objects[w].slots|
    requires Releasable(s, d) && Releasing(s, d, iso.objects) && s.busy == {} && s.props <= iso.props
    requires s.locals <= iso.locals
    modifies iso`objects, iso`firstObject, iso`allocationCount, iso`linked, iso`locals, iso`props
    ensures iso.Valid() && iso.props == old(iso.props) && iso.locals == old(iso.locals)
    ensures w in iso.objects && Hollowing(old(iso.objects[w]), iso.objects[w], i, i + 1)
    ensures Releasing(s, d, iso.objects) && Survive(old(iso.objects) - {w}, iso.objects - {w})
  {
    hide Balanced, Booked, Releasable, Doomed, Releasing, Released, Survive, Active, Exact, ShapeOk, One;
    ghost var m: map<Ref, Obj> := iso.objects;
    var v := Target(iso.objects[w].slots[i]);
    if v == NULL {
      SurviveReflexive(m - {w});
      return;
    }
    var y := iso.objects[w].(slots := iso.objects[w].slots[i := Object(NULL)]);
    EmptyingKeepsBalance(iso.Heap(), w, i);
    BookedUpdate(iso.objects, iso.Book(), w, y);
    ReleasingWrite(s, d, iso.objects, w, y);
    ghost var p := iso.props;
    iso.objects := iso.objects[w := y];
    iso.props := iso.props + One(v);
    TakePart(iso.props, p, One(v));
    OneMember(p, v);
    ghost var t := iso.Heap().(props := p);
    NestedRelease(s, d, t);
    iso.DecreaseProperty(v);
    HeldSurvives(t, iso.objects, w);
    ReleasedOthers(m, w, t, iso.objects);
  }

  lemma ReleasedOthers(m: map<Ref, Obj>, w: Ref, t: State, n: map<Ref, Obj>)
    requires Released(t, {}, n) && t.objects - {w} == m - {w}
    ensures Survive(m - {w}, n - {w})
  {
  }

  /** Empties every slot an object owns references through. */
  method ClearOwnedEdges(iso: Isolate, w: Ref, ghost s: State, ghost d: set<Ref>)
    requires iso.Valid() && iso.busy == {} && w in iso.locals && w in iso.objects && w in d && !iso.objects[w].pending
    requires Releasable(s, d) && Releasing(s, d, iso.objects) && s.busy == {} && s.props <= iso.props
    requires s.locals <= iso.locals
    modifies iso`objects, iso`firstObject, iso`allocationCount, iso`linked, iso`locals, iso`props
    ensures iso.Valid() && iso.props == old(iso.props) && iso.locals == old(iso.locals)
    ensures w in iso.objects && Hollowed(old(iso.objects[w]), iso.objects[w])
    ensures Releasing(s, d, iso.objects) && Survive(old(iso.objects) - {w}, iso.objects - {w})
  {
    hide Balanced, Booked, Releasable, Releasing, Survive, Exact, Hollowing, Hollowed;
    ghost var m: map<Ref, Obj> := iso.objects;
    ghost var x := iso.objects[w];
    BalancedAt(iso.Heap(), NULL, w);
    SurviveReflexive(m - {w});
    if iso.objects[w].cls.kind != Class {
      NothingToClear(x);
      return;
    }
    var p, n := iso.objects[w].cls.properties, |iso.objects[w].slots|;
    if iso.objects[w].cls.holdsObjects {
      ClearSlots(iso, w, 0, p, s, d);
    } else {
      HollowNothing(x);
    }
    ghost var y, u: map<Ref, Obj> := iso.objects[w], iso.objects;
    HollowingKeeps(x, y, 0, p);
    SurviveReflexive(u - {w});
    if iso.objects[w].cls.hook == ArrayHook {
      ClearSlots(iso, w, p, n, s, d);
      HollowBoth(x, y, iso.objects[w]);
    } else {
      HollowProperties(x, y);
    }
    SurviveTransitive(m - {w}, u - {w}, iso.objects - {w});
  }

  method ClearSlots(iso: Isolate, w: Ref, from: nat, to: nat, ghost s: State, ghost d: set<Ref>)
    requires iso.Valid() && iso.busy == {} && w in iso.locals && w in iso.objects && w in d && !iso.objects[w].pending
    requires from <= to <= |iso.objects[w].slots|
    requires Releasable(s, d) && Releasing(s, d, iso.objects) && s.busy == {} && s.props <= iso.props
    requires s.locals <= iso.locals
    modifies iso`objects, iso`firstObject, iso`allocationCount, iso`linked, iso`locals, iso`props
    ensures iso.Valid() && iso.props == old(iso.props) && iso.locals == old(iso.locals)
    ensures w in iso.objects && Hollowing(old(iso.objects[w]), iso.objects[w], from, to)
    ensures Releasing(s, d, iso.objects) && Survive(old(iso.objects) - {w}, iso.objects - {w})
  {
    hide Balanced, Booked, Releasable, Releasing, Survive, Exact, Hollowing, ShapeOk;
    ghost var m: map<Ref, Obj> := iso.objects;
    ghost var x := iso.objects[w];
    SurviveReflexive(m - {w});
    HollowingKeeps(x, x, from, from);
    var i := from;
    while i < to
      invariant from <= i <= to && iso.Valid() && iso.props == old(iso.props) && iso.locals == old(iso.locals)
      invariant w in iso.objects && Hollowing(x, iso.objects[w], from, i)
      invariant Releasing(s, d, iso.objects) && Survive(m - {w}, iso.objects - {w})
    {
      ghost var u: map<Ref, Obj> := iso.objects;
      HollowingKeeps(x, u[w], from, i);
      ClearEdge(iso, w, i, s, d);
      HollowingNext(x, u[w], iso.objects[w], from, i);
      SurviveTransitive(m - {w}, u - {w}, iso.objects - {w});
      i := i + 1;
    }
  }

  lemma HollowingKeeps(x: Obj, y: Obj, from: nat, to: nat)
    ensures from <= |x.slots| ==> Hollowing(x, x, from, from)
    ensures Hollowing(x, y, from, to) ==> |y.slots| == |x.slots| && y.pending == x.pending && y.cls == x.cls
  {
  }

  lemma HollowingNext(x: Obj, y: Obj, z: Obj, from: nat, i: nat)
    requires from <= i && Hollowing(x, y, from, i) && Hollowing(y, z, i, i + 1)
    ensures Hollowing(x, z, from, i + 1)
  {
  }

  lemma HollowBoth(x: Obj, y: Obj, z: Obj)
    requires Hollowing(x, y, 0, x.cls.properties) && Hollowing(y, z, x.cls.properties, |x.slots|)
    ensures Hollowed(x, z)
  {
  }

  lemma HollowProperties(x: Obj, y: Obj)
    requires ShapeOk(x) && x.cls.hook != ArrayHook && Hollowing(x, y, 0, x.cls.properties)
    ensures Hollowed(x, y)
  {
  }

  lemma HollowNothing(x: Obj)
    requires ShapeOk(x) && !x.cls.holdsObjects
    ensures Hollowing(x, x, 0, x.cls.properties)
  {
  }

  lemma NothingToClear(x: Obj)
    requires ShapeOk(x) && x.cls.kind != Class
    ensures Hollowed(x, x)
  {
  }

  // -------------------------------------------------------- the collection

  /** The extra local references held on the dead members from `lo` up to `hi`. */
  ghost function Pins(nodes: seq<Node>, members: seq<Ref>, lo: nat, hi: nat): multiset<Ref>
    requires lo <= hi <= |members| <= |nodes|
    decreases hi - lo
  {
    if lo == hi then multiset{} else
      (if nodes[lo].live then multiset{} else One(members[lo])) + Pins(nodes, members, lo + 1, hi)
  }

  lemma PinsExtend(nodes: seq<Node>, members: seq<Ref>, lo: nat, hi: nat)
    requires lo <= hi < |members| <= |nodes|
    ensures Pins(nodes, members, lo, hi + 1)
      == Pins(nodes, members, lo, hi) + if nodes[hi].live then multiset{} else One(members[hi])
    decreases hi - lo
  {
    if lo == hi {
      assert Pins(nodes, members, hi + 1, hi + 1) == multiset{};
    } else {
      PinsExtend(nodes, members, lo + 1, hi);
    }
  }

  lemma PinsHold(nodes: seq<Node>, members: seq<Ref>, lo: nat, hi: nat, j: nat)
    requires lo <= j < hi <= |members| <= |nodes| && !nodes[j].live && members[j] != NULL
    ensures members[j] in Pins(nodes, members, lo, hi)
    decreases hi - lo
  {
  }

  /** The dead members: the first `i` of them emptied, the others as they were. */
  ghost predicate Cleared(s: State, m: map<Ref, Obj>, nodes: seq<Node>, members: seq<Ref>, i: nat) {
    |members| <= |nodes| && forall j: nat :: j < |members| && !nodes[j].live ==>
      && members[j] in m && members[j] in s.objects
      && (if j < i then Hollowed(s.objects[members[j]], m[members[j]]) else Alike(s.objects[members[j]], m[members[j]]))
  }

  /** Dead objects that are still there hold nothing in their slots. */
  ghost predicate Hollow(s: State, m: map<Ref, Obj>, g: set<Ref>) {
    forall o :: o in m && o in g ==> o in s.objects && Hollowed(s.objects[o], m[o])
  }

  /** `dead` selects the members that are not live. */
  ghost predicate Selects(nodes: seq<Node>, members: seq<Ref>, g: set<Ref>) {
    |members| <= |nodes| && Distinct(members)
    && (forall j: nat :: j < |members| ==> (!nodes[j].live <==> members[j] in g))
    && (forall o :: o in g ==> o in members)
  }

  lemma ClearedNext(
      s: State, m: map<Ref, Obj>, n: map<Ref, Obj>, locals: multiset<Ref>, nodes: seq<Node>, members: seq<Ref>,
      i: nat, g: set<Ref>)
    requires Selects(nodes, members, g) && Cleared(s, m, nodes, members, i) && i < |members| && !nodes[i].live
    requires members[i] in n && Hollowed(m[members[i]], n[members[i]])
    requires Survive(m - {members[i]}, n - {members[i]}) && Survive(s.objects - g, m - g)
    requires forall o :: o in locals ==> o in n
    requires forall j: nat :: j < |members| && !nodes[j].live ==> members[j] in locals
    ensures Cleared(s, n, nodes, members, i + 1) && Survive(s.objects - g, n - g)
  {
    var w := members[i];
    forall j: nat | j < |members| && !nodes[j].live
      ensures members[j] in n && members[j] in s.objects
        && if j < i + 1 then Hollowed(s.objects[members[j]], n[members[j]])
          else Alike(s.objects[members[j]], n[members[j]])
    {
      if j != i {
        assert members[j] != w;
        assert members[j] in n - {w};
        assert Alike(m[members[j]], n[members[j]]);
      }
    }
    forall o | o in n - g ensures o in s.objects && Alike(s.objects[o], n[o]) {
      assert o in n - {w};
      assert o in m - {w} && o in m - g;
    }
  }

  lemma ClearedIsHollow(s: State, m: map<Ref, Obj>, nodes: seq<Node>, members: seq<Ref>, g: set<Ref>)
    requires Selects(nodes, members, g) && Cleared(s, m, nodes, members, |members|)
    ensures Hollow(s, m, g)
  {
    forall o | o in m && o in g ensures o in s.objects && Hollowed(s.objects[o], m[o]) {
      var j: nat :| j < |members| && members[j] == o;
    }
  }

  lemma HollowStays(s: State, m: map<Ref, Obj>, n: map<Ref, Obj>, g: set<Ref>)
    requires Hollow(s, m, g) && Survive(m, n) && Survive(s.objects - g, m - g)
    ensures Hollow(s, n, g) && Survive(s.objects - g, n - g)
  {
    forall o | o in n - g ensures o in s.objects && Alike(s.objects[o], n[o]) {
      assert o in m - g;
    }
  }

  /** No finite set climbs for ever. */
  lemma {:induction false} NoClimb(x: set<Ref>, rank: map<Ref, nat>)
    requires x != {} && forall o :: o in x ==> o in rank
    ensures exists o :: o in x && forall w :: w in x ==> rank[w] <= rank[o]
  {
    var o :| o in x;
    if x != {o} {
      NoClimb(x - {o}, rank);
      var u :| u in x - {o} && forall w :: w in x - {o} ==> rank[w] <= rank[u];
      if rank[u] < rank[o] {
        assert forall w :: w in x ==> rank[w] <= rank[o];
      } else {
        assert forall w :: w in x ==> rank[w] <= rank[u];
      }
    }
  }

  /** Once the dead are emptied and unpinned, nothing owns them: they are all gone. */
  lemma NothingDeadLeft(s: State, t: State, rank: map<Ref, nat>)
    requires Balanced(t, NULL) && t.props == s.props && t.locals == s.locals && t.busy == {} && s.busy == {}
    requires t.objects.Keys <= s.objects.Keys && Ranked(t.objects, rank)
    requires Hollow(s, t.objects, Garbage(s)) && Survive(s.objects - Garbage(s), t.objects - Garbage(s))
    ensures Garbage(s) * t.objects.Keys == {}
  {
    var g := Garbage(s);
    var x := g * t.objects.Keys;
    forall o | o in x ensures exists w :: w in x && w in rank && o in rank && rank[o] < rank[w] {
      DeadIsWrapped(s, t, o);
      var w :| w in x && WrapEdge(t, w, o);
      assert t.objects[w].impl in t.objects;
    }
    if x != {} {
      NoClimb(x, rank);
    }
  }

  lemma DeadIsWrapped(s: State, t: State, o: Ref)
    requires Balanced(t, NULL) && t.props == s.props && t.locals == s.locals && t.busy == {} && s.busy == {}
    requires t.objects.Keys <= s.objects.Keys
    requires Hollow(s, t.objects, Garbage(s)) && Survive(s.objects - Garbage(s), t.objects - Garbage(s))
    requires o in Garbage(s) && o in t.objects
    ensures exists w :: w in Garbage(s) && w in t.objects && WrapEdge(t, w, o)
  {
    var g, seeds := Garbage(s), Anchors(s) + Finalizers(s);
    ReachedIsInductive(s, seeds);
    BalancedAt(t, NULL, o);
    assert t.objects[o].references > 0 || t.objects[o].propertyReferences > 0;
    PositiveIsSupported(t, o);
    var w :| Owns(t, w, o);
    if w !in g {
      assert w in t.objects - g;
      assert Alike(s.objects[w], t.objects[w]);
      assert WrapEdge(t, w, o) ==> WrapEdge(s, w, o);
      assert forall i: nat :: SlotEdge(t, w, i, o) ==> SlotEdge(s, w, i, o);
      assert Owns(s, w, o);
    }
    assert forall i: nat :: !SlotEdge(t, w, i, o);
  }

  lemma SelectsDead(s: State, graph: CycleGraph)
    requires graph.Valid() && graph.count < graph.nodes.Length
    requires Indexable(s, graph.members) && Members(graph.members) - graph.Live() == Garbage(s)
    ensures Selects(graph.nodes[..], graph.members, Garbage(s))
  {
    hide TableOk, QueueOk, Probing.Indexed, Garbage;
    var q := graph.members;
    graph.MembersPresent();
    forall j: nat | j < |q| ensures !graph.nodes[j].live <==> q[j] in Garbage(s) {
      assert q[j] in Members(q);
      if q[j] in graph.Live() {
        var k: nat :| k < |q| && graph.nodes[k].live && q[k] == q[j];
      }
    }
  }

  /** Holds every dead object so that nothing is freed while the others are emptied. */
  method Pin(iso: Isolate, graph: CycleGraph) returns (reclaimed: int)
    requires iso.Valid() && iso.busy == {} && graph.Valid()
    requires Indexable(iso.Heap(), graph.members) && Selects(graph.nodes[..], graph.members, Garbage(iso.Heap()))
    modifies iso`objects, iso`locals
    ensures iso.Valid() && |graph.members| == graph.count < graph.nodes.Length
    ensures iso.locals == old(iso.locals) + Pins(graph.nodes[..], graph.members, 0, graph.count)
    ensures iso.objects.Keys == old(iso.objects.Keys) && Survive(old(iso.objects), iso.objects)
    ensures reclaimed == |Garbage(old(iso.Heap()))|
  {
    hide Balanced, Booked, TableOk, QueueOk, Probing.Indexed, Survive, Pins, Garbage, One, Selects;
    ghost var s, q, nodes := iso.Heap(), graph.members, graph.nodes[..];
    graph.Refs();
    graph.MembersPresent();
    reclaimed := 0;
    var i := 0;
    SurviveReflexive(s.objects);
    PinsNone(nodes, q);
    while i < graph.count
      invariant i <= graph.count && iso.Valid() && iso.busy == {}
      invariant iso.locals == s.locals + Pins(nodes, q, 0, i)
      invariant iso.objects.Keys == s.objects.Keys && Survive(s.objects, iso.objects)
      invariant reclaimed == |DeadBefore(nodes, q, i)|
    {
      PinsExtend(nodes, q, 0, i);
      DeadBeforeNext(nodes, q, i, Garbage(s));
      if !graph.nodes[i].live {
        ghost var m: map<Ref, Obj> := iso.objects;
        SurviveAt(s.objects, m, q[i]);
        assert q[i] in q;
        iso.IncreaseReference(graph.nodes[i].ref);
        OneIs(q[i]);
        SurviveCounting(m, q[i], iso.objects[q[i]].references, iso.objects[q[i]].propertyReferences);
        SurviveTransitive(s.objects, m, iso.objects);
        reclaimed := reclaimed + 1;
      }
      i := i + 1;
    }
    AllDead(nodes, q, Garbage(s));
  }

  lemma OneIs(o: Ref)
    requires o != NULL
    ensures One(o) == multiset{o}
  {
  }

  lemma PinsNone(nodes: seq<Node>, members: seq<Ref>)
    requires |members| <= |nodes|
    ensures Pins(nodes, members, 0, 0) == multiset{} && DeadBefore(nodes, members, 0) == {}
  {
  }

  lemma SurviveAt(m: map<Ref, Obj>, n: map<Ref, Obj>, o: Ref)
    requires Survive(m, n) && o in n
    ensures o in m && Alike(m[o], n[o])
  {
  }

  lemma SurviveCounting(m: map<Ref, Obj>, o: Ref, references: int, propertyReferences: int)
    requires o in m
    ensures Survive(m, Counting(m, o, references, propertyReferences))
  {
  }

  ghost function DeadBefore(nodes: seq<Node>, members: seq<Ref>, i: nat): set<Ref>
    requires i <= |members| <= |nodes|
  {
    set j: nat | j < i && !nodes[j].live :: members[j]
  }

  lemma DeadBeforeNext(nodes: seq<Node>, members: seq<Ref>, i: nat, g: set<Ref>)
    requires Selects(nodes, members, g) && i < |members|
    ensures |DeadBefore(nodes, members, i + 1)| == |DeadBefore(nodes, members, i)| + if nodes[i].live then 0 else 1
    ensures !nodes[i].live <==> members[i] in g
  {
    if nodes[i].live {
      assert DeadBefore(nodes, members, i + 1) == DeadBefore(nodes, members, i);
    } else {
      assert DeadBefore(nodes, members, i + 1) == DeadBefore(nodes, members, i) + {members[i]};
      assert members[i] !in DeadBefore(nodes, members, i);
    }
  }

  lemma AllDead(nodes: seq<Node>, members: seq<Ref>, g: set<Ref>)
    requires Selects(nodes, members, g)
    ensures DeadBefore(nodes, members, |members|) == g
  {
    forall o | o in g ensures o in DeadBefore(nodes, members, |members|) {
      var j: nat :| j < |members| && members[j] == o;
    }
  }

  /** Empties every dead object through ordinary property releases. */
  method ClearDead(iso: Isolate, graph: CycleGraph, ghost s: State)
    requires iso.Valid() && iso.busy == {} && s.busy == {} && graph.Valid()
    requires |graph.members| == graph.count < graph.nodes.Length
    requires Selects(graph.nodes[..], graph.members, Garbage(s))
    requires iso.objects.Keys == s.objects.Keys && Survive(s.objects, iso.objects)
    requires iso.props == s.props && iso.locals == s.locals + Pins(graph.nodes[..], graph.members, 0, graph.count)
    modifies iso`objects, iso`firstObject, iso`allocationCount, iso`linked, iso`locals, iso`props
    ensures iso.Valid() && iso.props == old(iso.props) && iso.locals == old(iso.locals)
    ensures Releasing(s, DoomedWith(s, Garbage(s)), iso.objects)
    ensures Hollow(s, iso.objects, Garbage(s)) && Survive(s.objects - Garbage(s), iso.objects - Garbage(s))
  {
    hide Balanced, Booked, TableOk, QueueOk, Probing.Indexed, Survive, Pins, Garbage, One, Selects, Releasing,
      Releasable, DoomedWith, Cleared, Hollow, Hollowed;
    ghost var q, nodes, g := graph.members, graph.nodes[..], Garbage(s);
    ghost var d := DoomedWith(s, g);
    graph.Refs();
    graph.MembersPresent();
    GarbageDoomed(s);
    TakePart(iso.locals, s.locals, Pins(nodes, q, 0, graph.count));
    PinnedPresent(iso.Heap(), nodes, q, s.locals);
    ClearingStarts(s, iso.objects, nodes, q, g, d);
    var i := 0;
    while i < graph.count
      invariant i <= graph.count && iso.Valid() && iso.busy == {}
      invariant iso.props == s.props && iso.locals == old(iso.locals)
      invariant Releasing(s, d, iso.objects) && Cleared(s, iso.objects, nodes, q, i)
      invariant Survive(s.objects - g, iso.objects - g)
    {
      if !graph.nodes[i].live {
        ClearNode(iso, graph.nodes[i].ref, s, d, nodes, q, i);
      } else {
        ClearedSkip(s, iso.objects, nodes, q, i);
      }
      i := i + 1;
    }
    ClearedIsHollow(s, iso.objects, nodes, q, g);
  }

  /** Clears the dead object `w`, the member at `i`, which is pinned. */
  method ClearNode(
      iso: Isolate, w: Ref, ghost s: State, ghost d: set<Ref>, ghost nodes: seq<Node>, ghost q: seq<Ref>, ghost i: nat)
    requires iso.Valid() && iso.busy == {} && s.busy == {} && i < |q| <= |nodes| && w == q[i] && !nodes[i].live
    requires (forall k :: 0 <= k < |q| ==> q[k] != NULL) && Garbage(s) <= d && Releasable(s, d)
    requires Selects(nodes, q, Garbage(s)) && Releasing(s, d, iso.objects) && Cleared(s, iso.objects, nodes, q, i)
    requires Survive(s.objects - Garbage(s), iso.objects - Garbage(s)) && w in iso.locals
    requires iso.props == s.props && s.locals <= iso.locals && iso.locals == s.locals + Pins(nodes, q, 0, |q|)
    modifies iso`objects, iso`firstObject, iso`allocationCount, iso`linked, iso`locals, iso`props
    ensures iso.Valid() && iso.props == old(iso.props) && iso.locals == old(iso.locals)
    ensures Releasing(s, d, iso.objects) && Cleared(s, iso.objects, nodes, q, i + 1)
    ensures Survive(s.objects - Garbage(s), iso.objects - Garbage(s))
  {
    hide Balanced, Booked, Survive, Pins, Garbage, Selects, Releasing, Releasable, Cleared, Hollowed, Exact, ShapeOk;
    ghost var m: map<Ref, Obj>, g := iso.objects, Garbage(s);
    ClearedAt(s, m, nodes, q, i, g, d);
    BalancedAt(iso.Heap(), NULL, w);
    ClearOwnedEdges(iso, w, s, d);
    PinnedPresent(iso.Heap(), nodes, q, s.locals);
    ClearedNext(s, m, iso.objects, iso.locals, nodes, q, i, g);
  }

  lemma GarbageDoomed(s: State)
    ensures Releasable(s, DoomedWith(s, Garbage(s))) && Garbage(s) <= DoomedWith(s, Garbage(s))
    ensures forall o :: o in Garbage(s) ==> o in s.objects
  {
    DoomedIsReleasable(s, Garbage(s));
  }

  /** Every dead member is pinned, hence held and present. */
  lemma PinnedPresent(t: State, nodes: seq<Node>, members: seq<Ref>, rest: multiset<Ref>)
    requires Balanced(t, NULL) && |members| <= |nodes| && forall k :: 0 <= k < |members| ==> members[k] != NULL
    requires t.locals == rest + Pins(nodes, members, 0, |members|)
    ensures forall j: nat :: j < |members| && !nodes[j].live ==> members[j] in t.locals
    ensures forall o :: o in t.locals ==> o in t.objects && !t.objects[o].pending
  {
    forall j: nat | j < |members| && !nodes[j].live ensures members[j] in t.locals {
      PinsHold(nodes, members, 0, |members|, j);
    }
    forall o | o in t.locals ensures o in t.objects && !t.objects[o].pending {
      BalancedAt(t, NULL, o);
    }
  }

  lemma ClearingStarts(s: State, m: map<Ref, Obj>, nodes: seq<Node>, members: seq<Ref>, g: set<Ref>, d: set<Ref>)
    requires m.Keys == s.objects.Keys && Survive(s.objects, m) && Selects(nodes, members, g)
    requires forall o :: o in g ==> o in s.objects
    ensures Releasing(s, d, m) && Cleared(s, m, nodes, members, 0) && Survive(s.objects - g, m - g)
  {
  }

  lemma ClearedAt(s: State, m: map<Ref, Obj>, nodes: seq<Node>, members: seq<Ref>, i: nat, g: set<Ref>, d: set<Ref>)
    requires Cleared(s, m, nodes, members, i) && i < |members| && !nodes[i].live && Selects(nodes, members, g)
    requires g <= d
    ensures members[i] in m && members[i] in d && members[i] in s.objects
    ensures Alike(s.objects[members[i]], m[members[i]])
    ensures forall y: Obj :: Hollowed(m[members[i]], y) ==> Hollowed(s.objects[members[i]], y)
  {
  }

  lemma ClearedSkip(s: State, m: map<Ref, Obj>, nodes: seq<Node>, members: seq<Ref>, i: nat)
    requires Cleared(s, m, nodes, members, i) && i < |members| <= |nodes| && nodes[i].live
    ensures Cleared(s, m, nodes, members, i + 1)
  {
  }

  /** Takes the pins away again; each dead object goes as its last holder does. */
  method Unpin(iso: Isolate, graph: CycleGraph, ghost s: State)
    requires iso.Valid() && iso.busy == {} && s.busy == {} && graph.Valid()
    requires |graph.members| == graph.count < graph.nodes.Length
    requires Selects(graph.nodes[..], graph.members, Garbage(s)) && Indexable(s, graph.members)
    requires Releasing(s, DoomedWith(s, Garbage(s)), iso.objects)
    requires Hollow(s, iso.objects, Garbage(s)) && Survive(s.objects - Garbage(s), iso.objects - Garbage(s))
    requires iso.props == s.props && iso.locals == s.locals + Pins(graph.nodes[..], graph.members, 0, graph.count)
    modifies iso`objects, iso`firstObject, iso`allocationCount, iso`linked, iso`locals, iso`props
    ensures iso.Valid() && Released(s, Garbage(s), iso.objects) && iso.props == s.props && iso.locals == s.locals
  {
    hide Balanced, Booked, TableOk, QueueOk, Probing.Indexed, Survive, Pins, Garbage, One, Selects, Releasing,
      Releasable, Released, DoomedWith, Hollow, Hollowed, Indexable, Exact, ShapeOk;
    ghost var q, nodes, g := graph.members, graph.nodes[..], Garbage(s);
    ghost var d := DoomedWith(s, g);
    graph.Refs();
    graph.MembersPresent();
    GarbageDoomed(s);
    var i := 0;
    while i < graph.count
      invariant i <= graph.count && iso.Valid() && iso.busy == {}
      invariant iso.props == s.props && iso.locals == s.locals + Pins(nodes, q, i, graph.count)
      invariant Releasing(s, d, iso.objects) && Hollow(s, iso.objects, g) && Survive(s.objects - g, iso.objects - g)
    {
      PinsNext(nodes, q, i, graph.count, s.locals);
      if !graph.nodes[i].live {
        TakePart(iso.locals - One(q[i]), s.locals, Pins(nodes, q, i + 1, graph.count));
        MortalMember(s, d, iso.objects, q, i);
        UnpinNode(iso, graph.nodes[i].ref, s, d);
      }
      i := i + 1;
    }
    PinsDone(nodes, q, graph.count, s.locals);
    UnpinnedIsReleased(s, iso.Heap(), iso.Book());
  }

  method UnpinNode(iso: Isolate, o: Ref, ghost s: State, ghost d: set<Ref>)
    requires iso.Valid() && iso.busy == {} && s.busy == {} && d == DoomedWith(s, Garbage(s)) && Releasable(s, d)
    requires o in iso.locals && o != NULL && (o in iso.objects ==> !iso.objects[o].immortal)
    requires iso.props == s.props && s.locals <= iso.locals - One(o)
    requires Releasing(s, d, iso.objects) && Hollow(s, iso.objects, Garbage(s))
    requires Survive(s.objects - Garbage(s), iso.objects - Garbage(s))
    modifies iso`objects, iso`firstObject, iso`allocationCount, iso`linked, iso`locals, iso`props
    ensures iso.Valid() && iso.props == old(iso.props) && iso.locals == old(iso.locals) - One(o)
    ensures Releasing(s, d, iso.objects) && Hollow(s, iso.objects, Garbage(s))
    ensures Survive(s.objects - Garbage(s), iso.objects - Garbage(s))
  {
    hide Balanced, Booked, Survive, Garbage, One, Releasing, Releasable, Released, DoomedWith, Hollow, Hollowed,
      Exact, ShapeOk;
    ghost var m: map<Ref, Obj> := iso.objects;
    ghost var t := iso.Heap().(locals := iso.locals - One(o));
    NestedRelease(s, d, t);
    iso.DecreaseReference(o);
    ReleasedSurvive(t, iso.objects);
    HollowStays(s, m, iso.objects, Garbage(s));
  }

  /** With the last pin gone, nothing of the garbage is left. */
  lemma UnpinnedIsReleased(s: State, t: State, l: Ledger)
    requires s.busy == {} && Balanced(t, NULL) && Booked(t.objects, l)
    requires t.props == s.props && t.locals == s.locals && t.busy == {}
    requires Releasing(s, DoomedWith(s, Garbage(s)), t.objects)
    requires Hollow(s, t.objects, Garbage(s)) && Survive(s.objects - Garbage(s), t.objects - Garbage(s))
    ensures Released(s, Garbage(s), t.objects)
  {
    hide Balanced, Booked, Survive, Garbage, Releasing, Releasable, Released, DoomedWith, Hollow, Hollowed, Exact,
      ShapeOk;
    BookedRanked(t.objects, l);
    ReleasingKeys(s, DoomedWith(s, Garbage(s)), t.objects);
    NothingDeadLeft(s, t, l.rank);
    AllGone(s, t.objects);
    SettledIsReleased(s, Garbage(s), t);
  }

  lemma PinsNext(nodes: seq<Node>, members: seq<Ref>, i: nat, n: nat, rest: multiset<Ref>)
    requires i < n <= |members| <= |nodes| && forall k :: 0 <= k < |members| ==> members[k] != NULL
    ensures nodes[i].live ==> Pins(nodes, members, i, n) == Pins(nodes, members, i + 1, n)
    ensures !nodes[i].live ==>
      && members[i] in rest + Pins(nodes, members, i, n)
      && rest + Pins(nodes, members, i, n) - One(members[i]) == rest + Pins(nodes, members, i + 1, n)
  {
  }

  lemma PinsDone(nodes: seq<Node>, members: seq<Ref>, n: nat, rest: multiset<Ref>)
    requires n <= |members| <= |nodes|
    ensures rest + Pins(nodes, members, n, n) == rest
  {
  }

  lemma MortalMember(s: State, d: set<Ref>, m: map<Ref, Obj>, members: seq<Ref>, i: nat)
    requires Indexable(s, members) && Releasing(s, d, m) && i < |members|
    ensures members[i] in m ==> !m[members[i]].immortal
  {
    assert members[i] in members;
  }

  lemma AllGone(s: State, n: map<Ref, Obj>)
    requires Garbage(s) * n.Keys == {} && Survive(s.objects - Garbage(s), n - Garbage(s)) && n.Keys <= s.objects.Keys
    ensures Garbage(s) <= s.objects.Keys - n.Keys && Survive(s.objects, n)
  {
    var g := Garbage(s);
    hide Garbage;
    forall o | o in n ensures o !in g {
      assert o !in g * n.Keys;
    }
    assert forall o :: o in g ==> o in s.objects by {
      GarbageDoomed(s);
    }
    forall o | o in n ensures Alike(s.objects[o], n[o]) {
      assert o in n - Garbage(s);
    }
  }

  /**
    `Am.Lang.GC.collect`: frees the garbage, together with whatever only the
    garbage was keeping, and returns how many objects the garbage numbered.
    Every surviving object keeps its contents and has exact counts again. It
    does nothing while detached objects are waiting, or without room for an
    index of `allocationCount` objects, 32 words each.
   */
  method Collect(iso: Isolate, hash: Ref -> nat, word: nat, sizeMax: nat, memory: bool) returns (reclaimed: int)
    requires iso.Valid() && iso.busy == {} && word > 0
    modifies iso`objects, iso`firstObject, iso`allocationCount, iso`linked, iso`locals, iso`props
    ensures iso.Valid() && iso.props == old(iso.props) && iso.locals == old(iso.locals)
    ensures (old(iso.firstDetached) != NULL || !memory
             || old(iso.allocationCount) < 0 || old(iso.allocationCount) * 32 * word > sizeMax) ==>
      && reclaimed == 0 && iso.Heap() == old(iso.Heap()) && iso.Book() == old(iso.Book())
      && iso.allocationCount == old(iso.allocationCount)
    ensures (old(iso.firstDetached) == NULL && memory
             && 0 <= old(iso.allocationCount) && old(iso.allocationCount) * 32 * word <= sizeMax) ==>
      && Released(old(iso.Heap()), Garbage(old(iso.Heap())), iso.objects)
      && reclaimed == |Garbage(old(iso.Heap()))|
  {
    hide Balanced, Booked, Garbage, Released, TableOk, QueueOk, Probing.Indexed, Complete, Indexable, Marked, Fresh,
      Classified, Selects, Survive, Hollow, Releasing, Pins;
    if iso.firstDetached != NULL {
      return 0;
    }
    if iso.allocationCount < 0 || !Sizable(iso.allocationCount, word, sizeMax) || !memory {
      return 0;
    }
    ghost var s := iso.Heap();
    var graph := new CycleGraph(hash, iso.allocationCount);
    IndexList(iso, graph);
    IndexImplementations(iso, graph);
    CountInternal(iso, graph);
    TalliedIsClassified(s, graph.nodes[..], graph.members);
    ForceFinalizers(iso, graph);
    Mark(iso, graph);
    graph.MembersPresent();
    BookedRanked(iso.objects, iso.Book());
    UnmarkedIsGarbage(s, Members(graph.members), graph.Live(), iso.rank);
    SelectsDead(s, graph);
    reclaimed := Pin(iso, graph);
    ClearDead(iso, graph, s);
    Unpin(iso, graph, s);
  }
}
