/**
  Messages: a staged copy of an object graph leaves its sender's lists and
  counts as they were, travels, and joins the lists and counts of its receiver.
 */
module Messages {
  import opened ObjectGraph
  import opened RefCount
  import opened Reachability
  import opened CopyTables
  import opened DeepCopy
  import opened Sharing
  import opened Isomorphisms
  import opened Probing
  import Arrays

  datatype Option<T> = None | Some(value: T)

  /**
    A message in transit: its payload, the detached list of its
    property-referenced objects, how many objects it brings, and the memory
    it takes along.
   */
  datatype Message = Message(payload: Ref, chain: Ref, count: int, objects: map<Ref, Obj>)

  ghost function Contents(msg: Message): State {
    State(msg.objects, multiset{}, multiset{msg.payload}, {})
  }

  /** The graph is closed, every count in it is exact, and the payload is held by one reference. */
  ghost predicate Sealed(msg: Message, k: Ledger) {
    && Balanced(Contents(msg), NULL) && Mortal(msg.objects)
    && Booked(msg.objects, k) && k.first == msg.chain && k.allocations == msg.count
  }

  /**
    The payload has one owned reference, every object is property-referenced as
    often as slots of the message refer to it, the chain lists exactly the
    property-referenced ones, and the message counts all its objects.
   */
  lemma SealedCounts(msg: Message, k: Ledger)
    requires Sealed(msg, k)
    ensures msg.payload in msg.objects && msg.count == |msg.objects|
    ensures forall o :: o in msg.objects ==>
      && msg.objects[o].propertyReferences == |SlotOwners(Contents(msg), o)|
      && msg.objects[o].references == |WrapOwners(Contents(msg), o)| + (if o == msg.payload then 1 else 0)
      && (o in k.list <==> msg.objects[o].propertyReferences > 0)
  {
    assert msg.payload in Contents(msg).locals;
    assert Mortals(msg.objects) == msg.objects.Keys;
    forall o | o in msg.objects ensures Exact(Contents(msg), o) {
      BalancedAt(Contents(msg), NULL, o);
    }
  }

  // ------------------------------------------------------------ joining heaps

  /** Two heaps side by side. */
  ghost function Joined(s: State, t: State): State {
    State(s.objects + t.objects, s.props + t.props, s.locals + t.locals, {})
  }

  ghost predicate Apart(s: State, t: State) {
    s.objects.Keys !! t.objects.Keys && s.busy == {} && t.busy == {}
  }

  lemma JoinedEdges(s: State, t: State)
    requires Apart(s, t)
    ensures forall w: Ref, i: nat, o: Ref ::
        SlotEdge(Joined(s, t), w, i, o) <==> SlotEdge(s, w, i, o) || SlotEdge(t, w, i, o)
    ensures forall w: Ref, o: Ref :: WrapEdge(Joined(s, t), w, o) <==> WrapEdge(s, w, o) || WrapEdge(t, w, o)
  {
  }

  lemma JoinIsClosed(s: State, t: State)
    requires Apart(s, t) && Closed(s) && Closed(t)
    ensures Closed(Joined(s, t))
  {
    JoinedEdges(s, t);
    hide SlotEdge, WrapEdge, ShapeOk;
  }

  /** Nothing of one heap is owned from the other. */
  lemma JoinedOwners(s: State, t: State, o: Ref)
    requires Apart(s, t) && Closed(s) && Closed(t) && o in s.objects
    ensures SlotOwners(Joined(s, t), o) == SlotOwners(s, o) && WrapOwners(Joined(s, t), o) == WrapOwners(s, o)
    ensures Joined(s, t).props[o] == s.props[o] && Joined(s, t).locals[o] == s.locals[o]
  {
    hide Closed;
    JoinedEdges(s, t);
    KeysNotNull(s);
    NotOwned(t, o);
  }

  lemma KeysNotNull(s: State)
    requires Closed(s)
    ensures NULL !in s.objects
  {
  }

  /** What is not in a closed heap is not owned from it. */
  lemma NotOwned(t: State, o: Ref)
    requires Closed(t) && o !in t.objects && o != NULL
    ensures (forall w: Ref, i: nat :: !SlotEdge(t, w, i, o)) && (forall w: Ref :: !WrapEdge(t, w, o)) && o !in t.props
    ensures o !in t.locals
  {
  }

  lemma JoinedTokens(s: State, t: State)
    requires Apart(s, t)
    ensures Joined(s, t).objects == Joined(t, s).objects && Joined(s, t) == Joined(t, s)
  {
  }

  lemma JoinIsExact(s: State, t: State, o: Ref)
    requires Apart(s, t) && Closed(s) && Closed(t) && o in s.objects && Exact(s, o)
    ensures Exact(Joined(s, t), o)
  {
    JoinedOwners(s, t, o);
  }

  lemma JoinIsCounted(s: State, t: State)
    requires Apart(s, t) && Closed(s) && Closed(t) && Counted(s) && Counted(t)
    ensures Counted(Joined(s, t))
  {
    JoinedTokens(s, t);
    hide Closed, Exact;
    forall o | o in Joined(s, t).objects ensures Exact(Joined(s, t), o) {
      if o in s.objects {
        JoinIsExact(s, t, o);
      } else {
        JoinIsExact(t, s, o);
      }
    }
  }

  lemma JoinIsHeld(s: State, t: State)
    requires Held(s, NULL) && Held(t, NULL)
    ensures Held(Joined(s, t), NULL)
  {
  }

  lemma JoinKeepsBalance(s: State, t: State)
    requires Apart(s, t) && Balanced(s, NULL) && Balanced(t, NULL)
    ensures Balanced(Joined(s, t), NULL)
  {
    hide Closed, Counted, Held, Apart;
    JoinIsClosed(s, t);
    JoinIsCounted(s, t);
    JoinIsHeld(s, t);
  }

  ghost function JoinedRank(
      m: map<Ref, Obj>, rank: map<Ref, nat>, n: map<Ref, Obj>, more: map<Ref, nat>): map<Ref, nat> {
    map o | o in m.Keys * rank.Keys + n.Keys * more.Keys :: if o in n && o in more then more[o] else rank[o]
  }

  lemma JoinIsRanked(s: State, rank: map<Ref, nat>, t: State, more: map<Ref, nat>)
    requires Apart(s, t) && Closed(s) && Closed(t) && Ranked(s.objects, rank) && Ranked(t.objects, more)
    ensures Ranked(s.objects + t.objects, JoinedRank(s.objects, rank, t.objects, more))
  {
    ImplInside(s);
    ImplInside(t);
    hide Closed;
  }

  lemma ImplInside(s: State)
    requires Closed(s)
    ensures forall w ::
        w in s.objects && !s.objects[w].pending && s.objects[w].impl != NULL ==> s.objects[w].impl in s.objects
    ensures NULL !in s.objects
  {
    assert forall w :: w in s.objects && !s.objects[w].pending ==> WrapEdge(s, w, s.objects[w].impl);
    hide ShapeOk, SlotEdge;
  }

  lemma MortalsJoin(m: map<Ref, Obj>, n: map<Ref, Obj>)
    requires m.Keys !! n.Keys
    ensures |Mortals(m + n)| == |Mortals(m)| + |Mortals(n)|
  {
    assert Mortals(m + n) == Mortals(m) + Mortals(n);
    assert Mortals(m) !! Mortals(n);
  }

  /** The ledger of the joined heap: the second list goes in front. */
  ghost function JoinedLedger(m: map<Ref, Obj>, l: Ledger, n: map<Ref, Obj>, k: Ledger): Ledger {
    Ledger(Head(k.list + l.list), k.list + l.list, JoinedRank(m, l.rank, n, k.rank), l.allocations + k.allocations)
  }

  lemma JoinIsBooked(s: State, l: Ledger, t: State, k: Ledger, u: map<Ref, Obj>)
    requires Apart(s, t) && Balanced(s, NULL) && Balanced(t, NULL) && Booked(s.objects, l) && Booked(t.objects, k)
    requires Relinked(s.objects + t.objects, u) && Threaded(u, Head(k.list + l.list), k.list + l.list)
    ensures Booked(u, JoinedLedger(s.objects, l, t.objects, k))
  {
    hide Closed, Counted, Held, Threaded, Ranked, Mortals, JoinedRank, Relinked, ListsPropertyReferenced, Apart;
    ApartKeys(s, t);
    JoinIsRanked(s, l.rank, t, k.rank);
    MortalsJoin(s.objects, t.objects);
    MortalsRelinked(s.objects + t.objects, u);
    JoinLists(s.objects, l, t.objects, k, u);
    RelinkedRanked(s.objects + t.objects, u, JoinedRank(s.objects, l.rank, t.objects, k.rank));
  }

  lemma MortalsRelinked(m: map<Ref, Obj>, n: map<Ref, Obj>)
    requires Relinked(m, n)
    ensures Mortals(n) == Mortals(m)
  {
  }

  lemma JoinLists(m: map<Ref, Obj>, l: Ledger, n: map<Ref, Obj>, k: Ledger, u: map<Ref, Obj>)
    requires m.Keys !! n.Keys && Booked(m, l) && Booked(n, k) && Relinked(m + n, u)
    ensures ListsPropertyReferenced(u, k.list + l.list)
  {
    ListedInside(m, l);
    ListedInside(n, k);
    hide Threaded, Ranked, Mortals;
    forall o | o in u ensures o in k.list + l.list <==> u[o].propertyReferences > 0 {
      assert o in k.list + l.list <==> o in k.list || o in l.list;
    }
  }

  lemma RelinkedRanked(m: map<Ref, Obj>, n: map<Ref, Obj>, rank: map<Ref, nat>)
    requires Relinked(m, n) && Ranked(m, rank)
    ensures Ranked(n, rank)
  {
  }

  lemma ListedInside(m: map<Ref, Obj>, l: Ledger)
    requires Booked(m, l)
    ensures forall o :: o in l.list ==> o in m
  {
    forall i: nat | i < |l.list| ensures l.list[i] in m {
      assert LinkedAt(m, l.list, i);
    }
  }

  // -------------------------------------------------------------- splicing

  /** The links of the two lists joined: the last object of the first, the first object of the second. */
  function Link(m: map<Ref, Obj>, tail: Ref, first: Ref, chain: Ref): map<Ref, Obj>
    requires tail in m && chain in m && (first != NULL ==> first in m)
  {
    var a := m[tail := m[tail].(next := first)];
    var b := if first == NULL then a else a[first := a[first].(prev := tail)];
    b[chain := b[chain].(prev := NULL)]
  }

  lemma SpliceEnds(m: map<Ref, Obj>, p: seq<Ref>, n: map<Ref, Obj>, q: seq<Ref>)
    requires m.Keys !! n.Keys && Threaded(m, Head(p), p) && Threaded(n, Head(q), q) && q != []
    ensures LinkedAt(n, q, |q| - 1) && LinkedAt(n, q, 0) && (p != [] ==> LinkedAt(m, p, 0))
  {
  }

  lemma SpliceThreads(m: map<Ref, Obj>, p: seq<Ref>, n: map<Ref, Obj>, q: seq<Ref>)
    requires m.Keys !! n.Keys && Threaded(m, Head(p), p) && Threaded(n, Head(q), q) && q != []
    ensures q[0] in n && q[|q| - 1] in n && (p != [] ==> p[0] in m && p[0] != NULL)
    ensures var u := Link(m + n, q[|q| - 1], Head(p), q[0]); Threaded(u, q[0], q + p) && Relinked(m + n, u)
  {
    SpliceEnds(m, p, n, q);
    var u := Link(m + n, q[|q| - 1], Head(p), q[0]);
    assert p != [] ==> u[p[0]] == m[p[0]].(prev := q[|q| - 1]);
    assert u[q[|q| - 1]] == n[q[|q| - 1]].(next := Head(p));
    hide Threaded, Relinked, LinkedAt;
    SpliceLinks(m, p, n, q, u);
  }

  lemma SpliceLinks(m: map<Ref, Obj>, p: seq<Ref>, n: map<Ref, Obj>, q: seq<Ref>, u: map<Ref, Obj>)
    requires m.Keys !! n.Keys && Threaded(m, Head(p), p) && Threaded(n, Head(q), q) && q != []
    requires u.Keys == m.Keys + n.Keys && LinkedAt(n, q, |q| - 1) && LinkedAt(n, q, 0)
    requires (p != [] ==> LinkedAt(m, p, 0))
    requires u[q[|q| - 1]] == n[q[|q| - 1]].(next := Head(p))
    requires p != [] ==> u[p[0]] == m[p[0]].(prev := q[|q| - 1])
    requires forall o :: o in n && o != q[|q| - 1] ==> u[o] == n[o]
    requires forall o :: o in m && (p != [] ==> o != p[0]) ==> u[o] == m[o]
    ensures Threaded(u, q[0], q + p) && Relinked(m + n, u)
  {
    var r := q + p;
    forall i: nat | i < |r| ensures LinkedAt(u, r, i) {
      if i < |q| {
        assert LinkedAt(n, q, i);
      } else {
        assert LinkedAt(m, p, i - |q|);
        assert i > |q| ==> p[i - |q|] != p[0];
      }
    }
    SpliceDistinct(m, p, n, q);
    forall o | o in u && o !in r ensures u[o].prev == NULL && u[o].next == NULL {
      assert o in r <==> o in q || o in p;
      assert p != [] ==> p[0] in p;
      assert q[|q| - 1] in q;
    }
  }

  lemma ThreadedInside(m: map<Ref, Obj>, q: seq<Ref>)
    requires Threaded(m, Head(q), q)
    ensures forall i: nat :: i < |q| ==> q[i] in m && q[i] != NULL
  {
    forall i: nat | i < |q| ensures q[i] in m && q[i] != NULL {
      assert LinkedAt(m, q, i);
    }
  }

  lemma SpliceDistinct(m: map<Ref, Obj>, p: seq<Ref>, n: map<Ref, Obj>, q: seq<Ref>)
    requires m.Keys !! n.Keys && Threaded(m, Head(p), p) && Threaded(n, Head(q), q)
    ensures Distinct(q + p)
  {
    ThreadedInside(m, p);
    ThreadedInside(n, q);
    forall i, j | 0 <= i < j < |q + p| ensures (q + p)[i] != (q + p)[j] {
      assert i >= |q| ==> p[i - |q|] != p[j - |q|];
      assert i < |q| <= j ==> q[i] in n && p[j - |q|] in m;
    }
  }

  lemma SpliceNothing(m: map<Ref, Obj>, p: seq<Ref>, n: map<Ref, Obj>)
    requires m.Keys !! n.Keys && Threaded(m, Head(p), p) && Threaded(n, NULL, [])
    ensures Threaded(m + n, Head(p), p) && Relinked(m + n, m + n)
  {
    forall i: nat | i < |p| ensures LinkedAt(m + n, p, i) {
      assert LinkedAt(m, p, i);
    }
  }

  /** Puts a detached list in front of the isolate's own. `m` and `n` are the memories of the two lists. */
  method SpliceChain(iso: Isolate, chain: Ref, ghost q: seq<Ref>, ghost m: map<Ref, Obj>, ghost n: map<Ref, Obj>)
    requires m.Keys !! n.Keys && iso.objects == m + n
    requires Threaded(m, iso.firstObject, iso.linked) && Threaded(n, chain, q)
    modifies iso`objects, iso`firstObject, iso`linked
    ensures iso.linked == q + old(iso.linked) && iso.firstObject == Head(iso.linked)
    ensures Threaded(iso.objects, iso.firstObject, iso.linked) && Relinked(m + n, iso.objects)
  {
    hide Threaded, Relinked;
    if chain == NULL {
      EmptyChain(n, q);
      ChainHead(m, iso.firstObject, iso.linked);
      SpliceNothing(m, iso.linked, n);
      assert q + iso.linked == iso.linked;
      return;
    }
    ChainHead(m, iso.firstObject, iso.linked);
    ChainHead(n, chain, q);
    SpliceThreads(m, iso.linked, n, q);
    var tail := LastOf(iso, chain, q, n);
    iso.objects := Link(iso.objects, tail, iso.firstObject, chain);
    iso.firstObject := chain;
    iso.linked := q + iso.linked;
  }

  lemma ChainHead(n: map<Ref, Obj>, chain: Ref, q: seq<Ref>)
    requires Threaded(n, chain, q)
    ensures chain == Head(q) && (chain != NULL ==> q != [])
  {
  }

  lemma EmptyChain(n: map<Ref, Obj>, q: seq<Ref>)
    requires Threaded(n, NULL, q)
    ensures q == []
  {
    assert q != [] ==> LinkedAt(n, q, 0);
  }

  /** The end of a list. */
  method LastOf(iso: Isolate, chain: Ref, ghost q: seq<Ref>, ghost n: map<Ref, Obj>) returns (tail: Ref)
    requires Threaded(n, chain, q) && q != [] && n.Keys <= iso.objects.Keys
    requires forall o :: o in n ==> iso.objects[o] == n[o]
    ensures tail == q[|q| - 1] && tail in n
  {
    tail := chain;
    ghost var k := 0;
    assert LinkedAt(n, q, 0);
    while iso.objects[tail].next != NULL
      invariant k < |q| && tail == q[k] && tail in n
      decreases |q| - k
    {
      assert LinkedAt(n, q, k);
      assert k + 1 < |q| ==> LinkedAt(n, q, k + 1);
      tail := iso.objects[tail].next;
      k := k + 1;
    }
    assert LinkedAt(n, q, k);
    assert k + 1 < |q| ==> LinkedAt(n, q, k + 1);
  }

  lemma ListsOf(m: map<Ref, Obj>, l: Ledger)
    requires Booked(m, l)
    ensures Threaded(m, l.first, l.list) && l.first == Head(l.list) && l.allocations == |Mortals(m)|
  {
  }

  lemma ApartKeys(s: State, t: State)
    requires Apart(s, t)
    ensures s.objects.Keys !! t.objects.Keys
  {
  }

  // --------------------------------------------------------- send and open

  /** The graph behind `payload` can be copied: ordinary classes, and cycles only through objects copied once. */
  ghost predicate Sendable(s: State, payload: Ref, depth: map<Ref, nat>) {
    && s.busy == {} && payload in s.locals
    && (forall o :: o in ReachedFrom(s, {payload}) ==> WellClassed(s.objects[o].cls))
    && Layered(s.objects, ReachedFrom(s, {payload}), depth)
  }

  /**
    A path of references through arrays and wrappers of `scope` only, which are
    not recorded before they are walked.
   */
  ghost predicate BareWalk(source: map<Ref, Obj>, scope: set<Ref>, path: seq<Ref>) {
    && |path| >= 2 && (forall i :: 0 <= i < |path| ==> path[i] in scope && path[i] in source)
    && (forall i :: 0 <= i < |path| ==>
          source[path[i]].cls.kind == Interface || source[path[i]].cls.hook !in {NoHook, StringHook})
    && (forall i :: 0 <= i < |path| - 1 ==> Leads(source[path[i]], path[i + 1]))
  }

  /** What bare walks from `o` lead to. */
  ghost function Beyond(source: map<Ref, Obj>, scope: set<Ref>, o: Ref): set<Ref> {
    set b | b in source &&
      exists path: seq<Ref> :: BareWalk(source, scope, path) && path[0] == o && path[|path| - 1] == b
  }

  ghost predicate BareCycle(source: map<Ref, Obj>, scope: set<Ref>) {
    exists path: seq<Ref> :: BareWalk(source, scope, path) && path[0] == path[|path| - 1]
  }

  lemma BeyondGrows(source: map<Ref, Obj>, scope: set<Ref>, w: Ref, o: Ref)
    requires BareWalk(source, scope, [w, o]) && !BareCycle(source, scope)
    ensures |Beyond(source, scope, o)| < |Beyond(source, scope, w)|
  {
    var near, far := Beyond(source, scope, o), Beyond(source, scope, w);
    assert [w, o][0] == w && [w, o][|[w, o]| - 1] == o && o in source by {
      assert [w, o][1] == o && [w, o][1] in source;
    }
    assert o in far;
    assert o !in near;
    forall b | b in near ensures b in far {
      var path: seq<Ref> :| BareWalk(source, scope, path) && path[0] == o && path[|path| - 1] == b;
      WalkFrom(source, scope, w, path);
      assert ([w] + path)[|path|] == b;
    }
    SubsetSize(near + {o}, far);
  }

  lemma WalkFrom(source: map<Ref, Obj>, scope: set<Ref>, w: Ref, path: seq<Ref>)
    requires BareWalk(source, scope, path) && BareWalk(source, scope, [w, path[0]])
    ensures BareWalk(source, scope, [w] + path)
  {
    var longer := [w] + path;
    assert [w, path[0]][0] == w && [w, path[0]][1] == path[0];
    forall i | 0 <= i < |longer| - 1 ensures Leads(source[longer[i]], longer[i + 1]) {
      if i > 0 {
        assert longer[i] == path[i - 1] && longer[i + 1] == path[i];
      }
    }
  }

  /**
    The copier's recursion has a measure exactly when no cycle consists of
    arrays and wrappers alone: any such graph of ordinary classes can be sent.
   */
  lemma SendableUnlessBareCycle(s: State, payload: Ref)
    requires Balanced(s, NULL) && s.busy == {} && payload in s.locals
    requires forall o :: o in ReachedFrom(s, {payload}) && o in s.objects ==>
      var c := s.objects[o].cls;
      && (c.hook == ArrayHook ==> c.properties == 0 && c.kind == Class)
      && (c.kind == Interface || c.hook == StringHook ==> c.properties == 0)
    ensures (exists depth: map<Ref, nat> :: Sendable(s, payload, depth))
      <==> !BareCycle(s.objects, ReachedFrom(s, {payload}))
  {
    var m, scope := s.objects, ReachedFrom(s, {payload});
    LocalPresent(s, payload);
    BalancedAt(s, NULL, payload);
    ReachedPresent(s, {payload});
    assert forall o :: o in scope ==> WellClassed(m[o].cls);
    ReachedIsReadable(s, payload);
    if !BareCycle(m, scope) {
      var depth := map o | o in m :: |Beyond(m, scope, o)|;
      MeasureIsLayered(m, scope, depth);
      assert Sendable(s, payload, depth);
    }
    if depth: map<Ref, nat> :| Sendable(s, payload, depth) {
      if path: seq<Ref> :| BareWalk(m, scope, path) && path[0] == path[|path| - 1] {
        WalkDescends(m, scope, depth, path, |path| - 1);
        assert false;
      }
    }
  }

  lemma MeasureIsLayered(m: map<Ref, Obj>, scope: set<Ref>, depth: map<Ref, nat>)
    requires Readable(m, scope) && !BareCycle(m, scope) && depth == map o | o in m :: |Beyond(m, scope, o)|
    ensures Layered(m, scope, depth)
  {
    hide Beyond, BareCycle;
    forall w: Ref, o: Ref | w in scope && w in m && !Single(m[w]) && Leads(m[w], o) && o != NULL
      ensures Level(m, depth, o) < Level(m, depth, w)
    {
      assert ReadableAt(scope, m[w]);
      assert o in scope && o in m;
      if !Single(m[o]) {
        assert BareWalk(m, scope, [w, o]);
        BeyondGrows(m, scope, w, o);
      }
    }
  }

  lemma {:induction false} WalkDescends(m: map<Ref, Obj>, scope: set<Ref>, depth: map<Ref, nat>, path: seq<Ref>, k: nat)
    requires Layered(m, scope, depth) && BareWalk(m, scope, path) && 0 < k < |path| && NULL !in m
    ensures Level(m, depth, path[k]) < Level(m, depth, path[0])
  {
    assert Leads(m[path[k - 1]], path[k]) && path[k] in m;
    if k > 1 {
      WalkDescends(m, scope, depth, path, k - 1);
    }
  }

  /**
    Joins memory set aside, or brought by a message, to the isolate's own:
    `chain` goes in front of the isolate's list and `count` onto its count.
   */
  method Adopt(iso: Isolate, chain: Ref, ghost s: State, ghost l: Ledger, ghost t: State, ghost k: Ledger)
    requires Apart(s, t) && Balanced(s, NULL) && Balanced(t, NULL) && Booked(s.objects, l) && Booked(t.objects, k)
    requires chain == k.first && iso.busy == {} && iso.objects == s.objects + t.objects && iso.firstObject == l.first
    requires iso.linked == l.list && iso.otherAllocations >= 0
    requires iso.allocationCount == l.allocations + k.allocations + iso.otherAllocations
    modifies iso`objects, iso`firstObject, iso`linked, iso`props, iso`locals, iso`rank
    ensures iso.Valid() && iso.linked == k.list + l.list && Relinked(s.objects + t.objects, iso.objects)
    ensures iso.props == s.props + t.props && iso.locals == s.locals + t.locals
  {
    hide Threaded, Relinked, Balanced, Booked, Apart;
    ListsOf(s.objects, l);
    ListsOf(t.objects, k);
    ApartKeys(s, t);
    SpliceChain(iso, chain, k.list, s.objects, t.objects);
    iso.props := s.props + t.props;
    iso.locals := s.locals + t.locals;
    iso.rank := JoinedRank(s.objects, l.rank, t.objects, k.rank);
    JoinKeepsBalance(s, t);
    JoinIsBooked(s, l, t, k, iso.objects);
    RelinkKeepsBalance(Joined(s, t), iso.objects, NULL);
  }

  /** Sets the isolate's memory, list and owners aside: what is created next is accounted for on its own. */
  method Stage(iso: Isolate)
    requires iso.Valid() && iso.busy == {}
    modifies iso
    ensures iso.Valid() && iso.busy == {} && iso.objects == map[] && iso.firstObject == NULL && iso.linked == []
    ensures iso.props == multiset{} && iso.locals == multiset{}
    ensures iso.allocationCount == iso.otherAllocations == old(iso.allocationCount)
  {
    hide Balanced, Booked;
    ListsOf(iso.objects, iso.Book());
    EmptyHeap();
    iso.objects, iso.firstObject := map[], NULL;
    iso.linked, iso.props, iso.locals, iso.rank := [], multiset{}, multiset{}, map[];
    iso.otherAllocations := iso.allocationCount;
  }

  /** The staged copies become ordinary objects of the isolate: the message could not be made. */
  method Rejoin(
      iso: Isolate, objects: map<Ref, Obj>, first: Ref, ghost s: State, ghost l: Ledger, ghost other: int, count: int)
    requires iso.Valid() && iso.busy == {} && Apart(s, iso.Heap()) && Balanced(s, NULL) && Booked(s.objects, l)
    requires objects == s.objects && first == l.first && l.allocations == count - other && other >= 0
    requires iso.otherAllocations >= count
    modifies iso
    ensures iso.Valid() && iso.busy == {} && iso.props == s.props + old(iso.props)
    ensures iso.locals == s.locals + old(iso.locals)
    ensures Relinked(objects + old(iso.objects), iso.objects)
  {
    hide Balanced, Booked, Apart, Relinked;
    ghost var t, k := iso.Heap(), iso.Book();
    var chain := iso.firstObject;
    iso.objects := objects + iso.objects;
    iso.firstObject := first;
    iso.linked := l.list;
    iso.otherAllocations := other + iso.otherAllocations - count;
    Adopt(iso, chain, s, l, t, k);
  }

  /** The result of a successful send: a sealed message with a copy of the payload's graph in fresh memory. */
  ghost predicate Carries(s: State, payload: Ref, msg: Message, k: Ledger, origin: map<Ref, Ref>) {
    && Sealed(msg, k) && msg.objects.Keys !! s.objects.Keys
    && Copied(s.objects, ReachedFrom(s, {payload}), msg.objects, origin, payload, msg.payload)
  }

  /**
    Copies the payload's graph into a message. On success the sender is exactly
    as before; on failure its earlier objects are, and its list and counts are
    exact. A send succeeds only if everything reached can be cloned, and fails
    otherwise only for want of memory.
   */
  method MessageCreate(
      iso: Isolate, payload: Ref, used: set<Ref>, hash: Ref -> nat, plenty: bool, ghost depth: map<Ref, nat>)
    returns (r: Option<Message>, ghost k: Ledger, ghost origin: map<Ref, Ref>)
    requires iso.Valid() && Sendable(iso.Heap(), payload, depth) && iso.objects.Keys <= used
    modifies iso
    ensures iso.Valid() && iso.busy == {}
    ensures r.Some? ==>
        && iso.Heap() == old(iso.Heap()) && iso.Book() == old(iso.Book())
        && iso.allocationCount == old(iso.allocationCount)
    ensures r.Some? ==> Carries(old(iso.Heap()), payload, r.value, k, origin) && r.value.objects.Keys !! used
    ensures r.Some? ==>
      forall o :: o in ReachedFrom(old(iso.Heap()), {payload}) && o in old(iso.objects) ==>
        var x := old(iso.objects)[o];
        if x.cls.kind == Interface then x.impl != NULL else x.cls.hook in {NoHook, ArrayHook, StringHook}
    ensures plenty
      && (forall o :: o in ReachedFrom(old(iso.Heap()), {payload}) && o in old(iso.objects) ==>
            var x := old(iso.objects)[o];
            if x.cls.kind == Interface then x.impl != NULL else x.cls.hook in {NoHook, ArrayHook, StringHook})
      ==> r.Some?
    ensures r.None? ==> iso.props == old(iso.props) && old(iso.locals) <= iso.locals
    ensures r.None? ==> Survive(iso.objects, old(iso.objects)) && iso.objects.Keys * used <= old(iso.objects).Keys
  {
    hide Balanced, Booked, Faithful, Readable, Layered, ReachedFrom, Mortal, Carries, Sendable, Apart, Survive, Once,
      WellClassed, AllCloneable;
    ghost var s, l, other := iso.Heap(), iso.Book(), iso.otherAllocations;
    SendableIsReadable(s, payload, depth);
    CloneableMeans(s.objects, ReachedFrom(s, {payload}));
    var objects, first, count := iso.objects, iso.firstObject, iso.allocationCount;
    Stage(iso);
    var copy, failed;
    copy, failed, origin := CopyStaged(iso, objects, payload, used, hash, plenty, ReachedFrom(s, {payload}), depth);
    k := iso.Book();
    ghost var t := iso.Heap();
    var memory: bool := *;
    memory := memory || plenty;
    if failed || copy == NULL || !memory {
      StagedApart(s, t);
      GiveBack(iso, objects, first, copy, s, l, other, count);
      return None, k, origin;
    }
    var msg := Message(copy, iso.firstObject, iso.allocationCount - count, iso.objects);
    assert Contents(msg) == t;
    CarriesCopy(s, payload, msg, k, origin);
    CarriesCloneable(s, payload, msg, k, origin);
    Restore(iso, objects, first, count, s, l, other);
    return Some(msg), k, origin;
  }

  /** The copies leave with the message: the isolate takes up its list and count where it left them. */
  method Restore(
      iso: Isolate, objects: map<Ref, Obj>, first: Ref, count: int, ghost s: State, ghost l: Ledger, ghost other: int)
    requires Balanced(s, NULL) && Booked(s.objects, l) && other >= 0 && iso.busy == s.busy
    requires objects == s.objects && first == l.first && l.allocations == count - other
    modifies iso
    ensures iso.Valid() && iso.Heap() == s && iso.Book() == l && iso.allocationCount == count
  {
    hide Balanced, Booked;
    iso.objects, iso.firstObject, iso.allocationCount := objects, first, count;
    iso.linked, iso.props, iso.locals, iso.rank, iso.otherAllocations := l.list, s.props, s.locals, l.rank, other;
  }

  /** Runs the copier over the staged isolate. */
  method CopyStaged(
      iso: Isolate, objects: map<Ref, Obj>, payload: Ref, used: set<Ref>, hash: Ref -> nat, plenty: bool,
      ghost scope: set<Ref>, ghost depth: map<Ref, nat>)
    returns (copy: Ref, failed: bool, ghost origin: map<Ref, Ref>)
    requires iso.Valid() && iso.busy == {} && iso.objects == map[] && iso.props == multiset{}
    requires iso.locals == multiset{}
    requires payload != NULL && payload in scope && payload in objects && scope <= objects.Keys <= used
    requires Readable(objects, scope) && Layered(objects, scope, depth)
    modifies iso
    ensures iso.Valid() && iso.busy == {} && iso.props == multiset{} && iso.objects.Keys !! used && Mortal(iso.objects)
    ensures old(iso.otherAllocations) <= iso.otherAllocations
    ensures plenty && AllCloneable(objects, scope) ==> copy != NULL && !failed
    ensures copy != NULL ==> copy in iso.objects && iso.locals == multiset{copy}
    ensures copy != NULL && !failed ==>
      && iso.otherAllocations == old(iso.otherAllocations) && copy in origin && origin[copy] == payload
      && Faithful(objects, scope, iso.objects, origin, {}) && Once(objects, iso.objects, origin)
  {
    hide Balanced, Booked, Faithful, TableFaithful, Unrepeated, Readable, Layered, Recorded, Indexed, Occupied,
      KeysOf, Mortal, Grown, Todo, Once, AllCloneable;
    var copier := new Copier(iso, objects, used, hash, plenty, scope, depth);
    copy := copier.CopyObject(payload, {}, {});
    origin := copier.origin;
    failed := copier.failed;
    if copy != NULL && !failed {
      TableIsOnce(objects, iso.objects, origin, copier.table.Pairs());
    }
  }

  lemma TableIsOnce(source: map<Ref, Obj>, m: map<Ref, Obj>, origin: map<Ref, Ref>, pairs: set<Pair>)
    requires TableFaithful(source, m, origin, pairs) && Unrepeated(source, origin, pairs, {}, {})
    ensures Once(source, m, origin)
  {
    hide Covered, OnCycle;
  }

  /** Undoes a send that failed: the staged copies join the isolate, and the root, if any, is released. */
  method GiveBack(
      iso: Isolate, objects: map<Ref, Obj>, first: Ref, copy: Ref, ghost s: State, ghost l: Ledger, ghost other: int,
      count: int)
    requires iso.Valid() && iso.busy == {} && Apart(s, iso.Heap()) && Balanced(s, NULL) && Booked(s.objects, l)
    requires Mortal(iso.objects)
    requires objects == s.objects && first == l.first && l.allocations == count - other && other >= 0
    requires iso.otherAllocations >= count
    requires iso.props == multiset{} && (copy != NULL ==> copy in iso.objects && iso.locals == multiset{copy})
    modifies iso
    ensures iso.Valid() && iso.busy == {} && iso.props == s.props && s.locals <= iso.locals
    ensures Survive(iso.objects, s.objects) && iso.objects.Keys <= s.objects.Keys + old(iso.objects).Keys
  {
    hide Balanced, Booked, Apart, Mortal, Relinked, Released, Doomed, BusySafe, Survive;
    ghost var t := iso.Heap();
    Rejoin(iso, objects, first, s, l, other, count);
    RejoinedSurvive(s, t, iso.objects);
    RejoinedKeys(s.objects + t.objects, iso.objects);
    if copy != NULL {
      ghost var u := iso.Heap().(locals := iso.locals - One(copy));
      Arrays.NothingBusy(Doomed(u));
      RejoinedMortal(s, t, iso.objects, copy);
      assert u.locals == s.locals && u.props == s.props;
      iso.DecreaseReference(copy);
      OldSurvive(s, t, u, iso.objects);
      ReleasedFewer(u, iso.objects);
    }
  }

  lemma RejoinedKeys(m: map<Ref, Obj>, n: map<Ref, Obj>)
    requires Relinked(m, n)
    ensures n.Keys == m.Keys
  {
  }

  lemma ReleasedFewer(s: State, n: map<Ref, Obj>)
    requires Released(s, {}, n)
    ensures n.Keys <= s.objects.Keys
  {
  }

  lemma StagedApart(s: State, t: State)
    requires s.objects.Keys !! t.objects.Keys && s.busy == {} && t.busy == {}
    ensures Apart(s, t)
  {
  }

  lemma RejoinedSurvive(s: State, t: State, u: map<Ref, Obj>)
    requires Apart(s, t) && Relinked(s.objects + t.objects, u)
    ensures Survive(u, s.objects)
  {
  }

  lemma RejoinedMortal(s: State, t: State, u: map<Ref, Obj>, o: Ref)
    requires Apart(s, t) && Relinked(s.objects + t.objects, u) && o in t.objects && Mortal(t.objects)
    ensures o in u && !u[o].immortal
  {
  }

  /** Releasing copies frees none of the objects that were there before. */
  lemma OldSurvive(s: State, t: State, u: State, n: map<Ref, Obj>)
    requires Apart(s, t) && Balanced(s, NULL) && Relinked(s.objects + t.objects, u.objects) && Released(u, {}, n)
    requires u.props == s.props && u.locals == s.locals && u.busy == {}
    ensures Survive(n, s.objects)
  {
    BalancedNothingDoomed(s);
    forall o | o in u.objects && !u.objects[o].pending && o !in t.objects ensures Supported(u, t.objects.Keys, o) {
      assert Supported(s, {}, o);
      if w :| Owns(s, w, o) {
        OldEdge(s, t, u, w, o);
      }
    }
    DoomedIsLeast(u, {}, t.objects.Keys);
    hide Balanced, Releasable, DoomedWith;
  }

  lemma OldEdge(s: State, t: State, u: State, w: Ref, o: Ref)
    requires Apart(s, t) && Relinked(s.objects + t.objects, u.objects) && u.busy == {} && Owns(s, w, o)
    ensures w !in t.objects && Owns(u, w, o)
  {
    if i: nat :| SlotEdge(s, w, i, o) {
      assert SlotEdge(u, w, i, o);
    } else {
      assert WrapEdge(u, w, o);
    }
  }

  lemma CarriesCloneable(s: State, payload: Ref, msg: Message, k: Ledger, origin: map<Ref, Ref>)
    requires Carries(s, payload, msg, k, origin) && s.busy == {} && payload in s.objects
    ensures AllCloneable(s.objects, ReachedFrom(s, {payload}))
  {
    hide Sealed, ReachedFrom, Mirrors, Once;
    var scope := ReachedFrom(s, {payload});
    CopiesWhatIsReached(s, msg.objects, origin, payload, msg.payload);
    forall o | o in scope && o in s.objects ensures Cloneable(s.objects[o]) {
      var d :| d in origin && origin[d] == o;
      assert FaithfulAt(s.objects, scope, msg.objects, origin, d);
    }
  }

  lemma CarriesCopy(s: State, payload: Ref, msg: Message, k: Ledger, origin: map<Ref, Ref>)
    requires Balanced(s, NULL) && Balanced(Contents(msg), NULL) && Mortal(msg.objects)
    requires Booked(msg.objects, k) && k.first == msg.chain && k.allocations == msg.count
    requires msg.objects.Keys !! s.objects.Keys
    requires Faithful(s.objects, ReachedFrom(s, {payload}), msg.objects, origin, {})
    requires Once(s.objects, msg.objects, origin)
    requires msg.payload in msg.objects && msg.payload in origin && origin[msg.payload] == payload
    ensures Carries(s, payload, msg, k, origin)
  {
    Arrays.NullIsFree(s);
    Arrays.NullIsFree(Contents(msg));
    KeysFaithful(s.objects, ReachedFrom(s, {payload}), msg.objects, origin, {});
    hide Balanced, Booked, Faithful, ReachedFrom, Mortal;
  }

  lemma SendableIsReadable(s: State, payload: Ref, depth: map<Ref, nat>)
    requires Balanced(s, NULL) && Sendable(s, payload, depth)
    ensures s.busy == {} && payload != NULL && payload in s.objects && payload in ReachedFrom(s, {payload})
    ensures Readable(s.objects, ReachedFrom(s, {payload})) && Layered(s.objects, ReachedFrom(s, {payload}), depth)
    ensures ReachedFrom(s, {payload}) <= s.objects.Keys
  {
    LocalPresent(s, payload);
    BalancedAt(s, NULL, payload);
    ReachedIsReadable(s, payload);
    ReachedIsInductive(s, {payload});
  }

  lemma RelinkedContents(m: map<Ref, Obj>, n: map<Ref, Obj>)
    requires Relinked(m, n)
    ensures n.Keys == m.Keys
    ensures forall o :: o in m ==>
      n[o].cls == m[o].cls && n[o].slots == m[o].slots && n[o].impl == m[o].impl && n[o].data == m[o].data
  {
  }

  method MessageOpen(iso: Isolate, msg: Message, ghost k: Ledger) returns (payload: Ref)
    requires iso.Valid() && iso.busy == {} && Sealed(msg, k) && msg.objects.Keys !! iso.objects.Keys
    modifies iso
    ensures iso.Valid() && iso.busy == {} && payload == msg.payload
    ensures iso.props == old(iso.props) && iso.locals == old(iso.locals) + multiset{payload}
    ensures iso.allocationCount == old(iso.allocationCount) + msg.count
    ensures iso.otherAllocations == old(iso.otherAllocations)
    ensures iso.linked == k.list + old(iso.linked)
    ensures Relinked(old(iso.objects) + msg.objects, iso.objects)
    ensures forall o :: o in msg.objects ==>
      && o in iso.objects && iso.objects[o].cls == msg.objects[o].cls && iso.objects[o].slots == msg.objects[o].slots
      && iso.objects[o].impl == msg.objects[o].impl && iso.objects[o].data == msg.objects[o].data
  {
    hide Balanced, Booked, Relinked;
    ghost var s, l := iso.Heap(), iso.Book();
    iso.objects := iso.objects + msg.objects;
    iso.allocationCount := iso.allocationCount + msg.count;
    Adopt(iso, msg.chain, s, l, Contents(msg), k);
    RelinkedContents(s.objects + msg.objects, iso.objects);
    payload := msg.payload;
  }

  /**
    Opens a message only to release its payload: of the joined heap exactly
    what then has no owner left dies, and nothing the isolate had before.
   */
  method MessageDiscard(iso: Isolate, msg: Message, ghost k: Ledger)
    requires iso.Valid() && iso.busy == {} && Sealed(msg, k) && msg.objects.Keys !! iso.objects.Keys
    modifies iso
    ensures iso.Valid() && iso.busy == {} && iso.props == old(iso.props) && iso.locals == old(iso.locals)
    ensures Released(State(old(iso.objects) + msg.objects, old(iso.props), old(iso.locals), {}), {}, iso.objects)
    ensures Survive(iso.objects, old(iso.objects))
  {
    hide Balanced, Booked, Relinked, Released, Doomed, BusySafe, Mortal;
    ghost var s := iso.Heap();
    OpenedMortal(msg, k, s);
    var payload := MessageOpen(iso, msg, k);
    OpenedAlike(s.objects + msg.objects, iso.objects, payload);
    ghost var u := iso.Heap().(locals := iso.locals - One(payload));
    Arrays.NothingBusy(Doomed(u));
    assert u.locals == s.locals;
    DoomedIgnoresCounts(State(s.objects + msg.objects, s.props, s.locals, {}), u);
    iso.DecreaseReference(payload);
    OldSurvive(s, Contents(msg), u, iso.objects);
  }

  lemma OpenedMortal(msg: Message, k: Ledger, s: State)
    requires Sealed(msg, k) && msg.objects.Keys !! s.objects.Keys && s.busy == {}
    ensures msg.payload in msg.objects && msg.payload != NULL && !msg.objects[msg.payload].immortal
    ensures Apart(s, Contents(msg))
  {
    LocalPresent(Contents(msg), msg.payload);
  }

  lemma OpenedAlike(m: map<Ref, Obj>, n: map<Ref, Obj>, o: Ref)
    requires Relinked(m, n) && o in m
    ensures n.Keys == m.Keys && n[o].immortal == m[o].immortal && forall k :: k in m ==> Alike(m[k], n[k])
  {
  }
}
