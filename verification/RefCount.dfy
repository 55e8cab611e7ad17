/**
  Automatic reference counting: the counts, the per-isolate list of
  property-referenced objects, and the recursive release.
 */
module RefCount {
  import opened ObjectGraph

  // ------------------------------------------------------------- the list

  ghost predicate Distinct(q: seq<Ref>) {
    forall i, j :: 0 <= i < j < |q| ==> q[i] != q[j]
  }

  function PrevIn(q: seq<Ref>, i: nat): Ref
    requires i < |q|
  {
    if i == 0 then NULL else q[i - 1]
  }

  function NextIn(q: seq<Ref>, i: nat): Ref
    requires i < |q|
  {
    if i + 1 == |q| then NULL else q[i + 1]
  }

  /** Element `i` of `q` is an object whose links agree with `q`. */
  ghost predicate LinkedAt(m: map<Ref, Obj>, q: seq<Ref>, i: nat)
    requires i < |q|
  {
    q[i] in m && q[i] != NULL && m[q[i]].prev == PrevIn(q, i) && m[q[i]].next == NextIn(q, i)
  }

  function Head(q: seq<Ref>): Ref {
    if q == [] then NULL else q[0]
  }

  /** `first` and the link fields thread exactly `q`; every other object is unlinked. */
  ghost predicate Threaded(m: map<Ref, Obj>, first: Ref, q: seq<Ref>) {
    && Distinct(q)
    && first == Head(q)
    && (forall i: nat :: i < |q| ==> LinkedAt(m, q, i))
    && (forall o :: o in m && o !in q ==> m[o].prev == NULL && m[o].next == NULL)
  }

  /** The list holds exactly the objects with a positive property count. */
  ghost predicate ListsPropertyReferenced(m: map<Ref, Obj>, q: seq<Ref>) {
    forall o :: o in m ==> (o in q <==> m[o].propertyReferences > 0)
  }

  ghost function Mortals(m: map<Ref, Obj>): set<Ref> {
    set o | o in m && !m[o].immortal
  }

  /** Wrappers are created after what they wrap, so following `impl` always descends. */
  ghost predicate Ranked(m: map<Ref, Obj>, rank: map<Ref, nat>) {
    forall w :: w in m && !m[w].pending && m[w].impl in m ==>
      w in rank && m[w].impl in rank && rank[m[w].impl] < rank[w]
  }

  function Without(q: seq<Ref>, at: nat): seq<Ref>
    requires at < |q|
  {
    q[..at] + q[at + 1..]
  }

  lemma WithoutMembers(q: seq<Ref>, at: nat)
    requires at < |q| && Distinct(q)
    ensures Distinct(Without(q, at))
    ensures forall o :: o in Without(q, at) <==> o in q && o != q[at]
  {
    var r := Without(q, at);
    forall o ensures o in r <==> o in q && o != q[at] {
      if o in q && o != q[at] {
        var k :| 0 <= k < |q| && q[k] == o;
        assert r[if k < at then k else k - 1] == o;
      }
    }
  }

  lemma LinkThreads(m: map<Ref, Obj>, n: map<Ref, Obj>, first: Ref, q: seq<Ref>, o: Ref)
    requires Threaded(m, first, q) && o in m && o !in q && o != NULL
    requires m.Keys == n.Keys && n[o] == m[o].(next := first)
    requires first != NULL ==> LinkedAt(m, q, 0) && n[first] == m[first].(prev := o)
    requires forall k :: k in m && k != o && (first != NULL ==> k != first) ==> n[k] == m[k]
    ensures Threaded(n, o, [o] + q) && Relinked(m, n)
  {
    var r := [o] + q;
    assert q != [] ==> LinkedAt(m, q, 0) && q[0] in q;
    assert forall k :: k in q ==> k in r;
    forall i: nat | i < |r| ensures LinkedAt(n, r, i) {
      if i > 0 {
        assert LinkedAt(m, q, i - 1);
        assert q[i - 1] == first <==> i == 1;
      }
    }
  }

  lemma UnlinkThreads(m: map<Ref, Obj>, n: map<Ref, Obj>, q: seq<Ref>, at: nat)
    requires at < |q| && Threaded(m, Head(q), q)
    requires LinkedAt(m, q, at) && m.Keys == n.Keys && n[q[at]] == m[q[at]].(prev := NULL, next := NULL)
    requires at > 0 ==> LinkedAt(m, q, at - 1) && n[q[at - 1]] == m[q[at - 1]].(next := NextIn(q, at))
    requires at + 1 < |q| ==> LinkedAt(m, q, at + 1) && n[q[at + 1]] == m[q[at + 1]].(prev := PrevIn(q, at))
    requires forall k ::
        k in m && k != q[at] && (at > 0 ==> k != q[at - 1]) && (at + 1 < |q| ==> k != q[at + 1]) ==> n[k] == m[k]
    ensures var r := Without(q, at); Threaded(n, Head(r), r) && Relinked(m, n)
  {
    var r := Without(q, at);
    WithoutMembers(q, at);
    forall i: nat | i < |r| ensures LinkedAt(n, r, i) {
      var j := if i < at then i else i + 1;
      WithoutLinks(q, at, i);
      assert LinkedAt(m, q, j);
      hide Without, PrevIn, NextIn;
    }
    hide LinkedAt, Without, PrevIn, NextIn;
  }

  lemma LinksAround(m: map<Ref, Obj>, first: Ref, q: seq<Ref>, at: nat)
    requires Threaded(m, first, q) && at < |q|
    ensures first == Head(q) && LinkedAt(m, q, at) && (q[at] == first <==> at == 0)
    ensures at > 0 ==> LinkedAt(m, q, at - 1) && q[at - 1] != q[at]
    ensures at + 1 < |q| ==> LinkedAt(m, q, at + 1) && q[at + 1] != q[at] && (at > 0 ==> q[at - 1] != q[at + 1])
    ensures Head(Without(q, at)) == if at > 0 then first else NextIn(q, at)
  {
  }

  /** Neighbours are as before, but where they were the element taken out. */
  lemma WithoutLinks(q: seq<Ref>, at: nat, i: nat)
    requires at < |q| && Distinct(q) && i < |q| - 1
    ensures |Without(q, at)| == |q| - 1
    ensures var j := if i < at then i else i + 1;
      && Without(q, at)[i] == q[j] && q[j] != q[at]
      && (at > 0 ==> (q[j] == q[at - 1] <==> j + 1 == at))
      && (at + 1 < |q| ==> (q[j] == q[at + 1] <==> j == at + 1))
      && PrevIn(Without(q, at), i) == (if j == at + 1 then PrevIn(q, at) else PrevIn(q, j))
      && NextIn(Without(q, at), i) == if j + 1 == at then NextIn(q, at) else NextIn(q, j)
  {
  }

  /** An isolate's bookkeeping: the list, the order of wrapping, the mortal objects it has allocated. */
  datatype Ledger = Ledger(first: Ref, list: seq<Ref>, rank: map<Ref, nat>, allocations: int)

  ghost predicate Booked(m: map<Ref, Obj>, l: Ledger) {
    && Threaded(m, l.first, l.list)
    && ListsPropertyReferenced(m, l.list)
    && Ranked(m, l.rank)
    && l.allocations == |Mortals(m)|
  }

  lemma BookedAt(m: map<Ref, Obj>, l: Ledger, o: Ref)
    requires Booked(m, l) && o in m
    ensures Threaded(m, l.first, l.list) && Distinct(l.list) && (o in l.list <==> m[o].propertyReferences > 0)
  {
  }

  lemma ThreadedUpdate(m: map<Ref, Obj>, first: Ref, q: seq<Ref>, o: Ref, x: Obj)
    requires Threaded(m, first, q) && o in m && x.prev == m[o].prev && x.next == m[o].next
    ensures Threaded(m[o := x], first, q)
  {
    var n := m[o := x];
    forall i: nat | i < |q| ensures LinkedAt(n, q, i) {
      assert LinkedAt(m, q, i);
    }
  }

  /** Changing an object that keeps its place in the bookkeeping. */
  lemma BookedUpdate(m: map<Ref, Obj>, l: Ledger, o: Ref, x: Obj)
    requires Booked(m, l) && o in m
    requires x.prev == m[o].prev && x.next == m[o].next && x.impl == m[o].impl && x.immortal == m[o].immortal
    requires m[o].pending ==> x.pending
    requires x.propertyReferences > 0 <==> m[o].propertyReferences > 0
    ensures Booked(m[o := x], l)
  {
    ThreadedUpdate(m, l.first, l.list, o, x);
    assert Mortals(m[o := x]) == Mortals(m);
  }

  /** `o` has entered or left the list because its property count is now `count`. */
  lemma BookedListChange(m: map<Ref, Obj>, l: Ledger, n: map<Ref, Obj>, first: Ref, q: seq<Ref>, o: Ref, count: int)
    requires Booked(m, l) && o in m
    requires Relinked(Counting(m, o, m[o].references, count), n) && Threaded(n, first, q)
    requires forall k :: k != o ==> (k in q <==> k in l.list)
    requires o in q <==> count > 0
    ensures Booked(n, l.(first := first, list := q))
  {
    hide Threaded, ListsPropertyReferenced, Ranked;
    ListChange(m, l.list, n, q, o, count);
    RankUnchanged(m, n, l.rank, o, count);
    assert Mortals(n) == Mortals(m);
  }

  lemma ListChange(m: map<Ref, Obj>, list: seq<Ref>, n: map<Ref, Obj>, q: seq<Ref>, o: Ref, count: int)
    requires ListsPropertyReferenced(m, list) && o in m && Relinked(Counting(m, o, m[o].references, count), n)
    requires forall k :: k != o ==> (k in q <==> k in list)
    requires o in q <==> count > 0
    ensures ListsPropertyReferenced(n, q)
  {
  }

  lemma RankUnchanged(m: map<Ref, Obj>, n: map<Ref, Obj>, rank: map<Ref, nat>, o: Ref, count: int)
    requires Ranked(m, rank) && o in m && Relinked(Counting(m, o, m[o].references, count), n)
    ensures Ranked(n, rank)
  {
  }

  /** Freeing an object that is not on the list. */
  lemma BookedFree(m: map<Ref, Obj>, l: Ledger, x: Ref)
    requires Booked(m, l)
    requires x in m && m[x].propertyReferences <= 0 && !m[x].immortal
    ensures Booked(m - {x}, l.(allocations := l.allocations - 1))
  {
    var n := m - {x};
    forall i: nat | i < |l.list| ensures LinkedAt(n, l.list, i) {
      assert LinkedAt(m, l.list, i);
      assert l.list[i] in l.list;
    }
    assert Mortals(n) == Mortals(m) - {x};
  }

  lemma RelinkedSame()
    ensures forall m: map<Ref, Obj> :: Relinked(m, m)
  {
  }

  lemma ThreadedHead(m: map<Ref, Obj>, first: Ref, q: seq<Ref>)
    requires Threaded(m, first, q)
    ensures first == Head(q)
  {
  }

  lemma RelinkedAt(m: map<Ref, Obj>, n: map<Ref, Obj>, o: Ref)
    requires Relinked(m, n) && o in m
    ensures o in n && Alike(m[o], n[o]) && SameCounts(m[o], n[o])
  {
  }

  lemma RelinkedCounting(m: map<Ref, Obj>, n: map<Ref, Obj>, o: Ref, references: int, propertyReferences: int)
    requires Relinked(m, n) && o in m
    ensures Relinked(Counting(m, o, references, propertyReferences), Counting(n, o, references, propertyReferences))
  {
  }

  /** The first property owner puts `o` at the front of the list. */
  lemma EnterList(s: State, l: Ledger, n: map<Ref, Obj>, o: Ref)
    requires Balanced(s, NULL) && Booked(s.objects, l) && o in s.objects && !s.objects[o].pending
    requires !s.objects[o].immortal
    requires s.objects[o].propertyReferences == 0 && Relinked(s.objects, n) && Threaded(n, o, [o] + l.list)
    ensures var u := Counting(n, o, n[o].references, 1);
            && Balanced(State(u, s.props + multiset{o}, s.locals, s.busy), NULL)
            && Booked(u, l.(first := o, list := [o] + l.list))
            && Relinked(Counting(s.objects, o, s.objects[o].references, 1), u)
  {
    hide Balanced, Booked;
    RelinkKeepsBalance(s, n, NULL);
    AddProp(s.(objects := n), o);
    RelinkedCounting(s.objects, n, o, n[o].references, 1);
    ThreadedUpdate(n, o, [o] + l.list, o, n[o].(propertyReferences := 1));
    BookedListChange(s.objects, l, Counting(n, o, n[o].references, 1), o, [o] + l.list, o, 1);
  }

  /** Losing its last property owner takes `o` off the list. */
  lemma LeaveList(s: State, l: Ledger, n: map<Ref, Obj>, first: Ref, o: Ref, at: nat)
    requires Balanced(s, NULL) && Booked(s.objects, l) && o in s.props && !s.objects[o].immortal
    requires s.objects[o].propertyReferences == 1 && at < |l.list| && l.list[at] == o
    requires Relinked(Counting(s.objects, o, s.objects[o].references, 0), n) && Threaded(n, first, Without(l.list, at))
    ensures Balanced(State(n, s.props - multiset{o}, s.locals, s.busy), o)
    ensures Booked(n, l.(first := first, list := Without(l.list, at)))
    ensures o in n && n[o].references == s.objects[o].references && n[o].propertyReferences == 0
    ensures n[o].pending == s.objects[o].pending
    ensures Active(n) == Active(s.objects)
    ensures Doomed(State(n, s.props - multiset{o}, s.locals, s.busy)) == Doomed(s.(props := s.props - multiset{o}))
    ensures forall u: map<Ref, Obj> ::
        Released(State(n, s.props - multiset{o}, s.locals, s.busy), {}, u) ==>
          Released(s.(props := s.props - multiset{o}), {}, u)
  {
    hide Balanced, Booked, Doomed, Released, Releasable, Active, Threaded, Exact, ShapeOk;
    DropProp(s, o);
    BookedAt(s.objects, l, o);
    DoomedIgnoresCounts(s.(props := s.props - multiset{o}), State(n, s.props - multiset{o}, s.locals, s.busy));
    WithoutMembers(l.list, at);
    var left := Counting(s.objects, o, s.objects[o].references, 0);
    RelinkKeepsBalance(State(left, s.props - multiset{o}, s.locals, s.busy), n, o);
    BookedListChange(s.objects, l, n, first, Without(l.list, at), o, 0);
  }

  /** The object after the references in a range of its slots have been given up. */
  ghost predicate Emptied(x: Obj, y: Obj, from: nat, to: nat)
    requires from <= to
  {
    && y.pending == x.pending && y.cls == x.cls && y.impl == x.impl && |y.slots| == |x.slots|
    && (forall k :: 0 <= k < |x.slots| && !(from <= k < to) ==> y.slots[k] == x.slots[k])
    && (forall k ::
          from <= k < to && k < |x.slots| ==>
            y.slots[k] == if Target(x.slots[k]) == NULL then x.slots[k] else Object(NULL))
  }

  lemma ShapeIgnoresPending(x: Obj, y: Obj)
    requires ShapeOk(x) && y == x.(pending := true)
    ensures ShapeOk(y)
  {
  }

  lemma EmptiedAt(x: Obj, y: Obj, from: nat, to: nat)
    requires from <= to
    ensures Emptied(x, x, from, from)
    ensures Emptied(x, y, from, to) ==>
        y.pending == x.pending && |y.slots| == |x.slots| && (to < |x.slots| ==> y.slots[to] == x.slots[to])
  {
  }

  /** Slots before the range keep their references. */
  lemma EmptiedOutside(x: Obj, y: Obj, from: nat, to: nat)
    requires from <= to && Emptied(x, y, from, to) && from <= |x.slots|
    ensures |y.slots| == |x.slots| && y.slots[0..from] == x.slots[0..from] && y.pending == x.pending && y.cls == x.cls
    ensures y.impl == x.impl
  {
  }

  lemma EmptiedNext(x: Obj, y: Obj, z: Obj, from: nat, at: nat)
    requires from <= at && Emptied(x, y, from, at) && Emptied(y, z, at, at + 1)
    ensures Emptied(x, z, from, at + 1)
  {
  }

  /** A heap without objects: nothing is counted, nothing listed. */
  lemma EmptyHeap()
    ensures Balanced(State(map[], multiset{}, multiset{}, {}), NULL) && Booked(map[], Ledger(NULL, [], map[], 0))
  {
    assert Mortals(map[]) == {};
  }

  class Isolate {
    var objects: map<Ref, Obj>
    var firstObject: Ref
    var firstDetached: Ref
    var allocationCount: int

    ghost var linked: seq<Ref>
    ghost var props: multiset<Ref>
    ghost var locals: multiset<Ref>
    ghost var busy: set<(Ref, nat)>
    ghost var rank: map<Ref, nat>
    // Allocations counted without a mortal object to show for them: immortal objects, failed allocations.
    ghost var otherAllocations: int

    constructor ()
      ensures Valid() && objects == map[] && allocationCount == otherAllocations == 0 && firstObject == NULL
      ensures firstDetached == NULL
      ensures props == multiset{} && locals == multiset{} && busy == {}
    {
      objects, firstObject, firstDetached, allocationCount := map[], NULL, NULL, 0;
      linked, props, locals, busy, rank, otherAllocations := [], multiset{}, multiset{}, {}, map[], 0;
      new;
      hide Balanced, Booked;
      EmptyHeap();
    }

    ghost function Heap(): State
      reads this
    {
      State(objects, props, locals, busy)
    }

    ghost function Book(): Ledger
      reads this
    {
      Ledger(firstObject, linked, rank, allocationCount - otherAllocations)
    }

    ghost predicate Inv(orphan: Ref)
      reads this
    {
      Balanced(Heap(), orphan) && Booked(objects, Book()) && otherAllocations >= 0
    }

    ghost predicate Valid()
      reads this
    {
      Inv(NULL)
    }

    /**
      What a valid isolate's counts say: local references are counted with the
      wrappers, property references are the slots and static owners, the list
      holds the property-referenced objects in both directions, and the
      allocation count is the mortal objects and the failed and immortal ones.
     */
    lemma CountsAreOwners()
      requires Valid()
      ensures forall o :: o in objects ==>
        && objects[o].references == locals[o] + |WrapOwners(Heap(), o)|
        && (!objects[o].immortal ==> objects[o].propertyReferences == props[o] + |SlotOwners(Heap(), o)|)
        && (o in linked <==> objects[o].propertyReferences > 0)
      ensures allocationCount == otherAllocations + |set o | o in objects && !objects[o].immortal|
      ensures firstObject == (if linked == [] then NULL else linked[0])
      ensures forall k :: 0 <= k < |linked| ==>
        && linked[k] in objects
        && objects[linked[k]].prev == (if k == 0 then NULL else linked[k - 1])
        && objects[linked[k]].next == (if k + 1 == |linked| then NULL else linked[k + 1])
    {
      hide Closed, SlotOwners, WrapOwners, Ranked;
      forall o | o in objects ensures Exact(Heap(), o) {
      }
      assert Mortals(objects) == set o | o in objects && !objects[o].immortal;
      forall k | 0 <= k < |linked|
        ensures linked[k] in objects
        ensures objects[linked[k]].prev == (if k == 0 then NULL else linked[k - 1])
        ensures objects[linked[k]].next == (if k + 1 == |linked| then NULL else linked[k + 1])
      {
        assert LinkedAt(objects, linked, k);
      }
    }

    // ------------------------------------------------ list surgery

    method Link(o: Ref)
      requires Threaded(objects, firstObject, linked)
      requires o in objects && o !in linked && o != NULL
      modifies this`objects, this`firstObject, this`linked
      ensures Threaded(objects, firstObject, linked) && linked == [o] + old(linked)
      ensures Relinked(old(objects), objects)
    {
      ghost var m := objects;
      assert linked != [] ==> LinkedAt(objects, linked, 0);
      objects := objects[o := objects[o].(next := firstObject)];
      if firstObject != NULL {
        objects := objects[firstObject := objects[firstObject].(prev := o)];
      }
      LinkThreads(m, objects, firstObject, linked, o);
      firstObject := o;
      linked := [o] + linked;
    }

    method Unlink(o: Ref, ghost at: nat)
      requires Threaded(objects, firstObject, linked)
      requires at < |linked| && linked[at] == o
      modifies this`objects, this`firstObject, this`linked
      ensures Threaded(objects, firstObject, linked) && linked == Without(old(linked), at)
      ensures Relinked(old(objects), objects)
    {
      hide Threaded, Relinked, Without, Distinct;
      ghost var m := objects;
      LinksAround(objects, firstObject, linked, at);
      if o == firstObject {
        firstObject := objects[o].next;
        objects := objects[o := objects[o].(next := NULL)];
        if firstObject != NULL {
          objects := objects[firstObject := objects[firstObject].(prev := NULL)];
        }
      } else {
        var p, n := objects[o].prev, objects[o].next;
        objects := objects[p := objects[p].(next := n)];
        if n != NULL {
          objects := objects[n := objects[n].(prev := p)];
        }
        objects := objects[o := objects[o].(prev := NULL, next := NULL)];
      }
      UnlinkThreads(m, objects, linked, at);
      linked := Without(linked, at);
    }

    // ------------------------------------------------ counts

    method IncreaseReference(o: Ref)
      requires Valid() && o in objects && !objects[o].pending
      modifies this`objects, this`locals
      ensures Valid()
      ensures locals == old(locals) + multiset{o}
      ensures objects == Counting(old(objects), o, old(objects[o].references) + 1, old(objects[o].propertyReferences))
    {
      hide Balanced, Booked;
      AddLocal(Heap(), o);
      BookedUpdate(objects, Book(), o, objects[o].(references := objects[o].references + 1));
      objects := objects[o := objects[o].(references := objects[o].references + 1)];
      locals := locals + multiset{o};
    }

    method IncreaseProperty(o: Ref)
      requires Valid() && o in objects && !objects[o].pending
      modifies this`objects, this`firstObject, this`linked, this`props
      ensures Valid()
      ensures props == old(props) + multiset{o}
      ensures var first := old(objects[o].propertyReferences == 0 && !objects[o].immortal);
        linked == if first then [o] + old(linked) else old(linked)
      ensures var x := old(objects[o]);
        var count := x.propertyReferences + if x.immortal then 0 else 1;
        Relinked(Counting(old(objects), o, x.references, count), objects)
    {
      hide Balanced, Booked, Exact, ShapeOk, Threaded, Relinked;
      ghost var s, l := Heap(), Book();
      AddProp(s, o);
      BalancedAt(s, NULL, o);
      BookedAt(objects, l, o);
      RelinkedSame();
      props := props + multiset{o};
      if objects[o].immortal {
        assert objects == Counting(s.objects, o, objects[o].references, objects[o].propertyReferences);
        return;
      }
      if objects[o].propertyReferences == 0 {
        Link(o);
        RelinkedAt(s.objects, objects, o);
        ThreadedHead(objects, firstObject, linked);
        EnterList(s, l, objects, o);
      } else {
        BookedUpdate(objects, l, o, objects[o].(propertyReferences := objects[o].propertyReferences + 1));
      }
      objects := objects[o := objects[o].(propertyReferences := objects[o].propertyReferences + 1)];
    }

    // ------------------------------------------------ release

    method DecreaseReference(o: Ref)
      requires Valid()
      requires o != NULL ==> o in locals && (o in objects && objects[o].immortal ==> locals[o] > 1)
      requires BusySafe(busy, Doomed(Heap().(locals := locals - One(o))))
      modifies this`objects, this`firstObject, this`allocationCount, this`linked, this`locals, this`props
      ensures Valid() && locals == old(locals) - One(o) && props == old(props)
      ensures Released(old(Heap()).(locals := old(locals) - One(o)), {}, objects)
      ensures old(o != NULL && o in objects && (objects[o].references > 1 || objects[o].propertyReferences > 0)) ==>
        && linked == old(linked) && allocationCount == old(allocationCount)
        && objects == Counting(old(objects), o, old(objects[o].references) - 1, old(objects[o].propertyReferences))
      decreases Active(objects), 3
    {
      hide Balanced, Booked, Releasable, Doomed, Released, BusySafe, Exact, ShapeOk, Active;
      if o == NULL {
        BalancedNothingDoomed(Heap());
        return;
      }
      ghost var s, l := Heap(), Book();
      DropLocal(s, o);
      BookedUpdate(objects, l, o, objects[o].(references := objects[o].references - 1));
      objects := objects[o := objects[o].(references := objects[o].references - 1)];
      locals := locals - multiset{o};
      ghost var t := Heap();
      CountingIsDoomed(s.(locals := locals), o, objects[o].references, objects[o].propertyReferences);
      BalancedAt(t, o, o);
      if objects[o].references == 0 && objects[o].propertyReferences == 0 {
        Deallocate(o);
      } else {
        HeldByCount(t, o);
        BalancedNothingDoomed(t);
      }
    }

    method DecreaseProperty(o: Ref)
      requires Valid()
      requires o != NULL ==> o in props
      requires BusySafe(busy, Doomed(Heap().(props := props - One(o))))
      modifies this`objects, this`firstObject, this`allocationCount, this`linked, this`locals, this`props
      ensures Valid() && props == old(props) - One(o) && locals == old(locals)
      ensures Released(old(Heap()).(props := old(props) - One(o)), {}, objects)
      decreases Active(objects), 3
    {
      hide Balanced, Booked, Releasable, Doomed, Released, Threaded, Relinked, Without, BusySafe, Exact, ShapeOk,
        Active;
      if o == NULL {
        BalancedNothingDoomed(Heap());
        return;
      }
      ghost var s, l := Heap(), Book();
      DropProp(s, o);
      BalancedAt(s, NULL, o);
      BookedAt(objects, l, o);
      props := props - multiset{o};
      assert s.props == props + multiset{o} && s.(props := props) == Heap();
      if objects[o].immortal {
        assert objects == Counting(s.objects, o, objects[o].references, objects[o].propertyReferences);
        HeldByCount(Heap(), o);
        BalancedNothingDoomed(Heap());
        return;
      }
      if objects[o].propertyReferences == 1 {
        Unlist(o);
        if objects[o].references == 0 {
          Deallocate(o);
          return;
        }
      } else {
        BookedUpdate(s.objects, l, o, objects[o].(propertyReferences := objects[o].propertyReferences - 1));
        objects := objects[o := objects[o].(propertyReferences := objects[o].propertyReferences - 1)];
        CountingIsDoomed(s.(props := props), o, objects[o].references, objects[o].propertyReferences);
      }
      HeldByCount(Heap(), o);
      BalancedNothingDoomed(Heap());
    }

    /** The last property owner of `o`, already taken out of `props`, goes: `o` leaves the list. */
    method Unlist(o: Ref)
      requires Balanced(Heap().(props := props + multiset{o}), NULL) && Booked(objects, Book()) && otherAllocations >= 0
      requires o in objects && !objects[o].immortal && objects[o].propertyReferences == 1
      modifies this`objects, this`firstObject, this`linked
      ensures Inv(o)
      ensures o in objects && objects[o].references == old(objects[o].references)
      ensures objects[o].propertyReferences == 0 && objects[o].pending == old(objects[o].pending)
      ensures Active(objects) == old(Active(objects)) && Doomed(Heap()) == Doomed(old(Heap()))
      ensures forall u: map<Ref, Obj> :: Released(Heap(), {}, u) ==> Released(old(Heap()), {}, u)
    {
      hide Balanced, Booked, Releasable, Doomed, Released, Threaded, Relinked, Without, Exact, ShapeOk, Active;
      ghost var s, l := Heap().(props := props + multiset{o}), Book();
      assert s.props - multiset{o} == props;
      assert s.(props := props) == Heap();
      BookedAt(objects, l, o);
      objects := objects[o := objects[o].(propertyReferences := objects[o].propertyReferences - 1)];
      ThreadedUpdate(s.objects, firstObject, linked, o, objects[o]);
      ghost var at :| 0 <= at < |linked| && linked[at] == o;
      Unlink(o, at);
      LeaveList(s, l, objects, firstObject, o, at);
    }

    method Deallocate(x: Ref)
      requires Inv(x) && x in objects && !objects[x].pending
      requires objects[x].references == 0 && objects[x].propertyReferences == 0
      requires BusySafe(busy, Doomed(Heap()))
      modifies this`objects, this`firstObject, this`allocationCount, this`linked, this`props, this`locals
      ensures Valid() && props == old(props) && locals == old(locals)
      ensures Released(old(Heap()), {}, objects)
      decreases Active(objects), 2
    {
      hide Balanced, Booked, Releasable, DoomedWith, Exact, BusySafe, Released, ShapeOk;
      ghost var s, d := Heap(), Doomed(Heap());
      BalancedAt(s, x, x);
      OrphanIsDoomed(s, x);
      NotBusy(busy, d, x);
      RetireKeepsBalance(s, x);
      var cls := objects[x].cls;
      if cls.hook == NoHook && !cls.holdsObjects && cls.kind == Class {
        NothingToRetire(s, x);
        BookedUpdate(objects, Book(), x, objects[x].(pending := true));
        objects := objects[x := objects[x].(pending := true)];
      } else {
        Detach(x);
      }
      ghost var t := Heap();
      allocationCount := allocationCount - 1;
      BalancedAt(t, NULL, x);
      FreeKeepsBalance(t, x);
      BookedFree(objects, Book().(allocations := Book().allocations + 1), x);
      objects := objects - {x};
      SettledIsReleased(s, {}, Heap());
    }

    /** Marks `x` pending and gives up everything it owns; `x` itself stays until it is freed. */
    method Detach(x: Ref)
      requires Inv(x) && x in objects && !objects[x].pending
      requires objects[x].references == 0 && objects[x].propertyReferences == 0
      requires BusySafe(busy, Doomed(Heap()))
      modifies this`objects, this`firstObject, this`allocationCount, this`linked, this`props, this`locals
      ensures Valid() && props == old(props) && locals == old(locals)
      ensures x in objects && objects[x].pending
      ensures Releasing(old(Heap()), Doomed(old(Heap())), objects)
      ensures Survive(old(objects) - {x}, objects - {x})
      decreases Active(objects), 1
    {
      hide Balanced, Booked, Releasable, Doomed, Releasing, Released, BusySafe, Survive, Active, Emptied, Refs, One,
        ShapeOk;
      ghost var s, d := Heap(), Doomed(Heap());
      BalancedAt(s, x, x);
      OrphanIsDoomed(s, x);
      DoomedReleasable(s);
      NotBusy(busy, d, x);
      RetireKeepsBalance(s, x);
      BookedUpdate(objects, Book(), x, objects[x].(pending := true));
      objects := objects[x := objects[x].(pending := true)];
      ghost var y := objects[x];
      var cls, impl := objects[x].cls, objects[x].impl;
      props := props + Refs(y.slots);
      locals := locals + One(impl);
      RetireIsReleasing(s, d, x);
      ReleasingShrinks(s, d, objects, x);
      assert ShapeOk(y) by {
        ShapeIgnoresPending(s.objects[x], y);
      }
      ghost var m: map<Ref, Obj> := objects - {x};
      if impl in s.objects {
        BalancedAt(s, x, impl);
      }
      DetachRest(x, s, d);
      SurviveTransitive(s.objects - {x}, m, objects - {x});
    }

    /** The body of the detach once `x` is pending: native release hook, interface reference, property slots. */
    method DetachRest(x: Ref, ghost s: State, ghost d: set<Ref>)
      requires Valid() && x in objects && objects[x].pending && x in d
      requires props == s.props + Refs(objects[x].slots) && locals == s.locals + One(objects[x].impl)
      requires ShapeOk(objects[x])
      requires objects[x].impl in s.objects && s.objects[objects[x].impl].immortal ==> objects[x].impl in s.locals
      requires Releasable(s, d) && Releasing(s, d, objects) && BusySafe(busy, d) && s.busy == busy
      modifies this`objects, this`firstObject, this`allocationCount, this`linked, this`props, this`locals
      ensures Valid() && props == s.props && locals == s.locals
      ensures x in objects && objects[x].pending
      ensures Releasing(s, d, objects) && Survive(old(objects) - {x}, objects - {x})
      decreases Active(objects), 6
    {
      hide Balanced, Booked, Releasable, Doomed, Releasing, Released, BusySafe, Survive, Active, Emptied, Refs, One,
        Inv, ShapeOk;
      var cls, impl := objects[x].cls, objects[x].impl;
      ghost var y, m: map<Ref, Obj> := objects[x], objects - {x};
      RefsOfObject(y);
      ghost var a, b := Refs(y.slots[0..cls.properties]), Refs(y.slots[cls.properties..|y.slots|]);
      TakePart(props, s.props + a, b);
      TakePart(s.props + a, s.props, a);
      SurviveReflexive(m);
      if cls.hook == ArrayHook {
        ReleaseSlots(x, cls.properties, |objects[x].slots|, s, d);
        EmptiedOutside(y, objects[x], cls.properties, |y.slots|);
      }
      ghost var n: map<Ref, Obj> := objects - {x};
      if cls.kind == Interface {
        ReleaseImplementation(x, impl, s, d);
        SurviveTransitive(m, n, objects - {x});
      }
      ghost var z: Obj, u: map<Ref, Obj> := objects[x], objects - {x};
      if cls.kind == Class && cls.holdsObjects {
        ReleaseSlots(x, 0, cls.properties, s, d);
        EmptiedAt(z, objects[x], 0, cls.properties);
        SurviveTransitive(m, u, objects - {x});
      }
    }

    method ReleaseImplementation(x: Ref, impl: Ref, ghost s: State, ghost d: set<Ref>)
      requires Valid() && x in objects && objects[x].pending && x in d
      requires locals == s.locals + One(impl) && s.props <= props
      requires impl in s.objects && s.objects[impl].immortal ==> impl in s.locals
      requires Releasable(s, d) && Releasing(s, d, objects) && BusySafe(busy, d) && s.busy == busy
      modifies this`objects, this`firstObject, this`allocationCount, this`linked, this`props, this`locals
      ensures Valid() && props == old(props) && locals == s.locals
      ensures x in objects && Alike(old(objects[x]), objects[x])
      ensures Releasing(s, d, objects) && Survive(old(objects) - {x}, objects - {x})
      ensures Active(objects) <= old(Active(objects))
      decreases Active(objects), 4
    {
      hide Balanced, Booked, Releasable, Doomed, Releasing, Released, BusySafe, Survive, Active, One, Inv;
      TakePart(locals, s.locals, One(impl));
      ghost var t := Heap().(locals := locals - One(impl));
      NestedRelease(s, d, t);
      if impl != NULL {
        OneMember(s.locals, impl);
      }
      if impl in objects {
        ReleasingImmortal(s, d, objects, impl);
      }
      DecreaseReference(impl);
      ReleasedKeeps(t, objects, x);
    }

    /** Gives up the references in a range of the slots of an object that is being released. */
    method ReleaseSlots(x: Ref, from: nat, to: nat, ghost s: State, ghost d: set<Ref>)
      requires Valid() && x in objects && objects[x].pending && x in d
      requires from <= to <= |objects[x].slots| && Refs(objects[x].slots[from..to]) <= props
      requires Releasable(s, d) && Releasing(s, d, objects) && BusySafe(busy, d) && s.busy == busy
      requires s.props <= props - Refs(objects[x].slots[from..to]) && s.locals <= locals
      modifies this`objects, this`firstObject, this`allocationCount, this`linked, this`props, this`locals
      ensures Valid() && props == old(props) - Refs(old(objects[x].slots)[from..to]) && locals == old(locals)
      ensures x in objects && Emptied(old(objects[x]), objects[x], from, to)
      ensures Releasing(s, d, objects) && Survive(old(objects) - {x}, objects - {x})
      ensures Active(objects) <= old(Active(objects))
      decreases Active(objects), 5
    {
      hide Balanced, Booked, Releasable, DoomedWith, Releasing, BusySafe, Survive, Active, Emptied, Refs, Target, One,
        Inv;
      ghost var m: map<Ref, Obj> := objects;
      ghost var slots, rest := objects[x].slots, props - Refs(objects[x].slots[from..to]);
      var i := from;
      EmptiedAt(m[x], m[x], from, from);
      RefsNone(slots, to);
      ghost var active := Active(objects);
      SurviveReflexive(objects - {x});
      while i < to
        invariant from <= i <= to && Valid() && locals == old(locals)
        invariant x in objects && Emptied(m[x], objects[x], from, i)
        invariant props == rest + Refs(slots[i..to])
        invariant Releasing(s, d, objects) && Survive(m - {x}, objects - {x})
        invariant Active(objects) <= active
      {
        RefsStep(slots, i, to, rest);
        EmptiedAt(m[x], objects[x], from, i);
        ghost var n: map<Ref, Obj> := objects;
        ReleaseSlot(x, i, s, d);
        SurviveTransitive(m - {x}, n - {x}, objects - {x});
        EmptiedNext(m[x], n[x], objects[x], from, i);
        i := i + 1;
      }
    }

    method ReleaseSlot(x: Ref, i: nat, ghost s: State, ghost d: set<Ref>)
      requires Valid() && x in objects && objects[x].pending && x in d
      requires i < |objects[x].slots| && One(Target(objects[x].slots[i])) <= props
      requires Releasable(s, d) && Releasing(s, d, objects) && BusySafe(busy, d) && s.busy == busy
      requires s.props <= props - One(Target(objects[x].slots[i])) && s.locals <= locals
      modifies this`objects, this`firstObject, this`allocationCount, this`linked, this`props, this`locals
      ensures Valid() && props == old(props) - One(Target(old(objects[x].slots)[i])) && locals == old(locals)
      ensures x in objects && Emptied(old(objects[x]), objects[x], i, i + 1)
      ensures Releasing(s, d, objects) && Survive(old(objects) - {x}, objects - {x})
      ensures Active(objects) <= old(Active(objects))
      decreases Active(objects), 4
    {
      hide Balanced, Booked, Releasable, DoomedWith, Releasing, Released, Survive, Active;
      var v := Target(objects[x].slots[i]);
      if v == NULL {
        SurviveReflexive(objects - {x});
        return;
      }
      ghost var t := Heap().(props := props - One(v));
      NestedRelease(s, d, t);
      DecreaseProperty(v);
      ghost var u := Heap();
      ReleasedKeeps(t, objects, x);
      BalancedAt(u, NULL, x);
      objects := objects[x := objects[x].(slots := objects[x].slots[i := Object(NULL)])];
      PendingWrite(u, x, objects[x]);
      BookedUpdate(u.objects, Book(), x, objects[x]);
      ReleasingWrite(s, d, u.objects, x, objects[x]);
    }
  }
}
