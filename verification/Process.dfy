/**
  A process: its isolates with their heaps, and the messages between them with
  the memory they take along. It does what the accounting of `Transfers` says.
 */
module Processes {
  import opened ObjectGraph
  import opened RefCount
  import opened Messages
  import opened DeepCopy
  import opened Isomorphisms
  import opened Reachability
  import Arrays
  import Collector
  import Mutator
  import T = Transfers

  /** Whose memory an address is. */
  datatype Owner = Heap(iso: T.Id) | Parcel(msg: T.Msg)

  // ------------------------------------------------- counting over disjoint parts

  ghost predicate Disjoint(m: map<nat, set<Ref>>) {
    forall i, j :: i in m && j in m && i != j ==> m[i] !! m[j]
  }

  ghost function Union(m: map<nat, set<Ref>>): set<Ref> {
    set i, a | i in m && a in m[i] :: a
  }

  ghost function Sizes(m: map<nat, set<Ref>>): map<nat, int> {
    map i | i in m :: |m[i]|
  }

  /** Disjoint parts add up. */
  lemma {:induction false} UnionSize(m: map<nat, set<Ref>>)
    requires Disjoint(m)
    ensures |Union(m)| == T.Sum(Sizes(m))
    decreases |m|
  {
    if m == map[] {
      NothingToAdd();
    } else {
      hide Union, Sizes, T.Sum;
      var k :| k in m;
      UnionSize(m - {k});
      SizesWithout(m, k);
      T.SumWithout(Sizes(m), k);
      UnionWithout(m, k);
    }
  }

  lemma NothingToAdd()
    ensures Union(map[]) == {} && Sizes(map[]) == map[]
  {
  }

  lemma SizesWithout(m: map<nat, set<Ref>>, k: nat)
    requires k in m
    ensures k in Sizes(m) && Sizes(m)[k] == |m[k]| && Sizes(m) - {k} == Sizes(m - {k})
  {
  }

  lemma UnionWithout(m: map<nat, set<Ref>>, k: nat)
    requires Disjoint(m) && k in m
    ensures |Union(m)| == |m[k]| + |Union(m - {k})|
  {
    var rest := m - {k};
    forall a ensures a in Union(m) <==> a in m[k] || a in Union(rest) {
      InUnion(m, k, a);
    }
    assert Union(m) == m[k] + Union(rest);
    forall a | a in m[k] ensures a !in Union(rest) {
      InUnion(m, k, a);
    }
    assert m[k] !! Union(rest);
  }

  lemma InUnion(m: map<nat, set<Ref>>, k: nat, a: Ref)
    requires Disjoint(m) && k in m
    ensures a in Union(m) <==> a in m[k] || a in Union(m - {k})
    ensures a in m[k] ==> a !in Union(m - {k})
  {
    var rest := m - {k};
    if a in Union(m) {
      var i :| i in m && a in m[i];
      assert i != k ==> i in rest && a in rest[i];
    }
    if a in Union(rest) {
      var i :| i in rest && a in rest[i];
      assert i in m && a in m[i];
    }
  }

  ghost predicate Owned(owner: map<Ref, Owner>, m: map<Ref, Obj>, o: Owner) {
    forall a :: a in m ==> a in owner && owner[a] == o
  }

  /** The mortal objects of each heap. */
  ghost function Mortality(heaps: map<nat, map<Ref, Obj>>): map<nat, set<Ref>> {
    map i | i in heaps :: Mortals(heaps[i])
  }

  /** Every mortal object of the isolates and of the messages. */
  ghost function Living(heaps: map<nat, map<Ref, Obj>>, parcels: map<nat, map<Ref, Obj>>): set<Ref> {
    Union(Mortality(heaps)) + Union(Mortality(parcels))
  }

  ghost predicate AllOwned(owner: map<Ref, Owner>, heaps: map<nat, map<Ref, Obj>>, parcels: map<nat, map<Ref, Obj>>) {
    && (forall i :: i in heaps ==> Owned(owner, heaps[i], Heap(i)))
    && (forall m :: m in parcels ==> Owned(owner, parcels[m], Parcel(m)))
  }

  /** Memory that has one owner each is counted by adding up the heaps and the messages. */
  lemma LivingSize(owner: map<Ref, Owner>, heaps: map<nat, map<Ref, Obj>>, parcels: map<nat, map<Ref, Obj>>)
    requires AllOwned(owner, heaps, parcels)
    ensures |Living(heaps, parcels)| == T.Sum(Sizes(Mortality(heaps))) + T.Sum(Sizes(Mortality(parcels)))
  {
    OwnedDisjoint(owner, heaps, parcels);
    UnionSize(Mortality(heaps));
    UnionSize(Mortality(parcels));
  }

  lemma OwnedDisjoint(owner: map<Ref, Owner>, heaps: map<nat, map<Ref, Obj>>, parcels: map<nat, map<Ref, Obj>>)
    requires AllOwned(owner, heaps, parcels)
    ensures Disjoint(Mortality(heaps)) && Disjoint(Mortality(parcels))
    ensures Union(Mortality(heaps)) !! Union(Mortality(parcels))
  {
    forall i, j | i in heaps && j in heaps && i != j ensures Mortals(heaps[i]) !! Mortals(heaps[j]) {
      assert forall a :: a in heaps[i] ==> owner[a] == Heap(i);
      assert forall a :: a in heaps[j] ==> owner[a] == Heap(j);
    }
    forall i, j | i in parcels && j in parcels && i != j ensures Mortals(parcels[i]) !! Mortals(parcels[j]) {
      assert forall a :: a in parcels[i] ==> owner[a] == Parcel(i);
      assert forall a :: a in parcels[j] ==> owner[a] == Parcel(j);
    }
    forall a | a in Union(Mortality(heaps)) ensures a !in Union(Mortality(parcels)) {
      var i :| i in heaps && a in Mortals(heaps[i]);
      assert owner[a] == Heap(i);
      assert forall m :: m in parcels && a in Mortals(parcels[m]) ==> owner[a] == Parcel(m);
    }
  }

  // --------------------------------------------------------- the allocator

  /** The addresses of `from` go back to the allocator, `keys` are in use for `to`. */
  function Reowned(owner: map<Ref, Owner>, from: set<Owner>, keys: set<Ref>, to: Owner): map<Ref, Owner> {
    (map a | a in owner && owner[a] !in from :: owner[a]) + (map a | a in keys :: to)
  }

  /** `keys` were free, or used by `from`. */
  ghost predicate Obtainable(owner: map<Ref, Owner>, from: set<Owner>, keys: set<Ref>) {
    forall a :: a in keys && a in owner ==> owner[a] in from
  }

  lemma OwnedStays(owner: map<Ref, Owner>, from: set<Owner>, keys: set<Ref>, to: Owner, m: map<Ref, Obj>, o: Owner)
    requires Owned(owner, m, o) && o !in from && Obtainable(owner, from, keys)
    ensures Owned(Reowned(owner, from, keys, to), m, o)
  {
  }

  /** An isolate's heap has changed, using memory that was its own or free. */
  lemma HeapReowned(
      owner: map<Ref, Owner>, heaps: map<nat, map<Ref, Obj>>, parcels: map<nat, map<Ref, Obj>>,
      i: nat, n: map<Ref, Obj>)
    requires AllOwned(owner, heaps, parcels) && Obtainable(owner, {Heap(i)}, n.Keys)
    ensures AllOwned(Reowned(owner, {Heap(i)}, n.Keys, Heap(i)), heaps[i := n], parcels)
  {
    var u := Reowned(owner, {Heap(i)}, n.Keys, Heap(i));
    forall j | j in heaps && j != i ensures Owned(u, heaps[j], Heap(j)) {
      OwnedStays(owner, {Heap(i)}, n.Keys, Heap(i), heaps[j], Heap(j));
    }
    forall m | m in parcels ensures Owned(u, parcels[m], Parcel(m)) {
      OwnedStays(owner, {Heap(i)}, n.Keys, Heap(i), parcels[m], Parcel(m));
    }
  }

  /** A message has been made of memory that was free. */
  lemma ParcelReowned(
      owner: map<Ref, Owner>, heaps: map<nat, map<Ref, Obj>>, parcels: map<nat, map<Ref, Obj>>,
      k: nat, n: map<Ref, Obj>)
    requires AllOwned(owner, heaps, parcels) && k !in parcels && n.Keys !! owner.Keys
    ensures AllOwned(Reowned(owner, {}, n.Keys, Parcel(k)), heaps, parcels[k := n])
  {
    var u := Reowned(owner, {}, n.Keys, Parcel(k));
    forall j | j in heaps ensures Owned(u, heaps[j], Heap(j)) {
      OwnedStays(owner, {}, n.Keys, Parcel(k), heaps[j], Heap(j));
    }
    forall m | m in parcels ensures Owned(u, parcels[m], Parcel(m)) {
      OwnedStays(owner, {}, n.Keys, Parcel(k), parcels[m], Parcel(m));
    }
  }

  /** A message's memory has gone to the isolate that opened it. */
  lemma OpenedReowned(
      owner: map<Ref, Owner>, heaps: map<nat, map<Ref, Obj>>, parcels: map<nat, map<Ref, Obj>>,
      i: nat, k: nat, n: map<Ref, Obj>)
    requires AllOwned(owner, heaps, parcels) && i in heaps && k in parcels
    requires n.Keys <= heaps[i].Keys + parcels[k].Keys
    ensures AllOwned(Reowned(owner, {Heap(i), Parcel(k)}, n.Keys, Heap(i)), heaps[i := n], parcels - {k})
  {
    var from := {Heap(i), Parcel(k)};
    var u := Reowned(owner, from, n.Keys, Heap(i));
    assert Obtainable(owner, from, n.Keys);
    forall j | j in heaps && j != i ensures Owned(u, heaps[j], Heap(j)) {
      OwnedStays(owner, from, n.Keys, Heap(i), heaps[j], Heap(j));
    }
    forall m | m in parcels && m != k ensures Owned(u, parcels[m], Parcel(m)) {
      OwnedStays(owner, from, n.Keys, Heap(i), parcels[m], Parcel(m));
    }
  }

  lemma OwnedApart(owner: map<Ref, Owner>, heaps: map<nat, map<Ref, Obj>>, parcels: map<nat, map<Ref, Obj>>, i: nat)
    requires AllOwned(owner, heaps, parcels) && i in heaps
    ensures heaps[i].Keys <= owner.Keys && forall k :: k in parcels ==> parcels[k].Keys !! heaps[i].Keys
    ensures Obtainable(owner, {Heap(i)}, heaps[i].Keys)
  {
    forall k | k in parcels ensures parcels[k].Keys !! heaps[i].Keys {
      assert Owned(owner, parcels[k], Parcel(k)) && Owned(owner, heaps[i], Heap(i));
    }
  }

  // ---------------------------------------------------------- the accounting

  /** `t` is what the accounting makes of `s` and the step `e`. */
  ghost predicate Follows(s: T.State, e: T.Step, t: T.State) {
    T.Inv(s) && T.Enabled(s, e) && t == T.Apply(s, e)
  }

  /** Where both sums are the number of objects, the counts decide it. */
  lemma FollowsBySums(s: T.State, e: T.Step, t: T.State)
    requires T.Inv(s) && T.Enabled(s, e) && T.Inv(t)
    requires t.places == T.Moved(s.places, e)
    requires t.counts == T.Apply(s, e).counts && t.sizes == T.Apply(s, e).sizes
    ensures Follows(s, e, t)
  {
    T.StepKeepsSum(s, e);
    hide T.Once, T.Drained, T.InTransit, T.Sum, T.Moved, T.PlaceEnabled;
  }

  /** Where the messages are after a step, whatever the accounting says of it. */
  ghost predicate Located(p: T.Places, isolates: set<T.Id>, messages: set<T.Msg>) {
    && T.Once(p) && T.Drained(p) && p.known == isolates
    && (forall m :: m in messages <==> T.InTransit(p, m))
  }

  lemma LocatedStep(s: T.State, e: T.Step)
    requires T.Inv(s) && T.Enabled(s, e)
    ensures Located(T.Apply(s, e).places, T.Apply(s, e).counts.Keys, T.Apply(s, e).sizes.Keys)
  {
    T.StepKeepsInv(s, e);
    hide T.Once, T.Drained, T.InTransit, T.Sum, T.Apply, T.Enabled;
  }

  lemma MoveApplied(s: T.State, e: T.Step)
    requires T.Inv(s) && T.Enabled(s, e)
    requires !e.Birth? && !e.Allocate? && !e.Create? && !e.Open?
    ensures T.Apply(s, e) == s.(places := T.Moved(s.places, e))
  {
  }

  /** A message has been opened, and then the isolate has worked on its heap. */
  ghost predicate FollowsOpening(s: T.State, i: T.Id, m: T.Msg, t: T.State) {
    && T.Inv(s) && T.Enabled(s, T.Open(i, m)) && T.Inv(T.Apply(s, T.Open(i, m)))
    && i in t.counts && i in T.Apply(s, T.Open(i, m)).counts
    && Follows(T.Apply(s, T.Open(i, m)), T.Allocate(i, t.counts[i] - T.Apply(s, T.Open(i, m)).counts[i]), t)
  }

  /** If it has only taken over the message's count, it has done nothing else. */
  lemma OnlyOpened(s: T.State, i: T.Id, m: T.Msg, t: T.State)
    requires FollowsOpening(s, i, m, t) && m in s.sizes && i in s.counts && t.counts[i] == s.counts[i] + s.sizes[m]
    ensures Follows(s, T.Open(i, m), t)
  {
    OpenApplied(s, i, m);
    var mid := T.Apply(s, T.Open(i, m));
    assert mid.counts[i := mid.counts[i] + 0] == mid.counts;
    hide T.Once, T.Drained, T.InTransit, T.Sum, T.Moved, T.PlaceEnabled;
  }

  lemma CollectedFewer(s: State, seed: set<Ref>, n: map<Ref, Obj>)
    requires n == s.objects || Released(s, seed, n)
    ensures n.Keys <= s.objects.Keys
  {
  }

  class Process {
    var isolates: map<T.Id, Isolate>
    var messages: map<T.Msg, Message>
    var places: T.Places
    /** The system's allocator: every address in use, and what for. */
    var owner: map<Ref, Owner>
    ghost var ledgers: map<T.Msg, Ledger>

    ghost function Heaps(): map<nat, map<Ref, Obj>>
      reads this`isolates, isolates.Values
    {
      map i | i in isolates :: isolates[i].objects
    }

    ghost function Parcels(): map<nat, map<Ref, Obj>>
      reads this`messages
    {
      map m | m in messages :: messages[m].objects
    }

    ghost function Counts(): map<T.Id, int>
      reads this`isolates, isolates.Values
    {
      map i | i in isolates :: isolates[i].allocationCount - isolates[i].otherAllocations
    }

    ghost function Loads(): map<T.Msg, int>
      reads this`messages
    {
      map m | m in messages :: messages[m].count
    }

    /** What the accounting sees: counts, messages in transit, and the mortal objects that there are. */
    ghost function Abstract(): T.State
      reads this, isolates.Values
    {
      T.State(places, Counts(), Loads(), |Living(Heaps(), Parcels())|)
    }

    ghost predicate Distinct()
      reads this`isolates
    {
      forall i, j :: i in isolates && j in isolates && i != j ==> isolates[i] != isolates[j]
    }

    ghost predicate Sound(i: T.Id)
      requires i in isolates
      reads this`isolates, isolates[i]
    {
      isolates[i].Valid() && isolates[i].busy == {}
    }

    ghost predicate Carried(m: T.Msg)
      requires m in messages
      reads this`messages, this`ledgers
    {
      m in ledgers && Sealed(messages[m], ledgers[m])
    }

    ghost predicate Valid()
      reads this, isolates.Values
    {
      && Distinct() && Located(places, isolates.Keys, messages.Keys)
      && (forall i :: i in isolates ==> Sound(i))
      && (forall m :: m in messages ==> Carried(m))
      && AllOwned(owner, Heaps(), Parcels())
    }

    /** With exact heaps and messages in disjoint memory, the counts add up to the objects there are. */
    lemma CountsAreObjects()
      requires Valid()
      ensures T.Sum(Counts()) + T.Sum(Loads()) == |Living(Heaps(), Parcels())|
      ensures T.Inv(Abstract())
    {
      hide T.Once, T.Drained, T.InTransit, T.Sum, Living, Sizes, Mortality, AllOwned, Sound, Carried, Distinct;
      LivingSize(owner, Heaps(), Parcels());
      CountsMortals();
      LoadsMortals();
    }

    lemma CountsMortals()
      requires forall i :: i in isolates ==> Sound(i)
      ensures Counts() == Sizes(Mortality(Heaps()))
    {
      hide Mortals, Sound;
      forall i | i in isolates ensures Counts()[i] == |Mortals(isolates[i].objects)| {
        SoundCount(i);
      }
    }

    lemma SoundCount(i: T.Id)
      requires i in isolates && Sound(i)
      ensures isolates[i].allocationCount - isolates[i].otherAllocations == |Mortals(isolates[i].objects)|
    {
      hide Balanced, Booked, Mortals;
      ListsOf(isolates[i].objects, isolates[i].Book());
    }

    lemma LoadsMortals()
      requires forall m :: m in messages ==> Carried(m)
      ensures Loads() == Sizes(Mortality(Parcels()))
    {
      hide Mortals, Carried;
      forall m | m in messages ensures Loads()[m] == |Mortals(messages[m].objects)| {
        CarriedCount(m);
      }
    }

    lemma CarriedCount(m: T.Msg)
      requires m in messages && Carried(m)
      ensures messages[m].count == |Mortals(messages[m].objects)|
    {
      hide Balanced, Booked, Mortals;
      ListsOf(messages[m].objects, ledgers[m]);
    }

    /** The state has followed the accounting if the counts have. */
    lemma HasFollowed(s: T.State, e: T.Step)
      requires T.Inv(s) && T.Enabled(s, e) && Valid() && places == T.Moved(s.places, e)
      requires Counts() == T.Apply(s, e).counts && Loads() == T.Apply(s, e).sizes
      ensures Follows(s, e, Abstract())
    {
      hide T.Inv, T.Enabled, T.Apply, T.Moved, Located, AllOwned, Sound, Carried, Distinct, Living;
      CountsAreObjects();
      FollowsBySums(s, e, Abstract());
    }

    constructor ()
      ensures Valid() && Abstract() == T.INITIAL
    {
      isolates, messages, places, owner, ledgers := map[], map[], T.INITIAL.places, map[], map[];
      new;
      assert Living(Heaps(), Parcels()) == {};
    }

    /** The steps that move messages between places, and concern no heap. */
    method Move(e: T.Step)
      requires Valid() && T.PlaceEnabled(places, e)
      requires e.Post? || e.Take? || e.Close? || e.Abandon? || e.Drop? || e.DrainEnds? || e.Destroy?
      modifies this`places
      ensures Valid() && Follows(old(Abstract()), e, Abstract())
      ensures places == T.Moved(old(places), e)
    {
      hide T.Moved, T.PlaceEnabled, T.Once, T.Drained, T.InTransit, Located, AllOwned, Sound, Carried, Distinct,
        Living, T.Sum;
      CountsAreObjects();
      ghost var s := Abstract();
      LocatedStep(s, e);
      MoveApplied(s, e);
      assert s.counts.Keys == isolates.Keys && s.sizes.Keys == messages.Keys;
      places := T.Moved(places, e);
      HasFollowed(s, e);
    }

    /** One isolate has worked on its own heap, and its memory is entered with the allocator. */
    lemma HeapWorked(i: T.Id, s: T.State, heaps: map<nat, map<Ref, Obj>>, was: map<Ref, Owner>)
      requires T.Inv(s) && places == s.places && i in places.live && i in isolates && i in s.counts
      requires Distinct() && Located(places, isolates.Keys, messages.Keys)
      requires (forall j :: j in isolates ==> Sound(j)) && forall m :: m in messages ==> Carried(m)
      requires AllOwned(was, heaps, Parcels()) && Heaps() == heaps[i := isolates[i].objects]
      requires Obtainable(was, {Heap(i)}, isolates[i].objects.Keys)
      requires owner == Reowned(was, {Heap(i)}, isolates[i].objects.Keys, Heap(i))
      requires Loads() == s.sizes && Counts() == s.counts[i := Counts()[i]]
      ensures Valid() && Follows(s, T.Allocate(i, Counts()[i] - s.counts[i]), Abstract())
    {
      hide Located, AllOwned, Sound, Carried, Distinct, Living, T.Sum, T.Once, T.Drained, T.InTransit, Reowned;
      HeapReowned(was, heaps, Parcels(), i, isolates[i].objects);
      hide T.Inv;
      HasFollowed(s, T.Allocate(i, Counts()[i] - s.counts[i]));
    }

    /** Only the isolate `i` has changed. */
    twostate lemma OthersAlike(i: T.Id)
      requires old(Distinct()) && isolates == old(isolates) && i in isolates
      requires forall j :: j in isolates && j != i ==> unchanged(isolates[j])
      requires old(forall j :: j in isolates ==> Sound(j)) && Sound(i)
      ensures Distinct() && forall j :: j in isolates ==> Sound(j)
    {
      hide Sound, Distinct;
      forall j | j in isolates && j != i ensures Sound(j) {
        assert old(Sound(j));
      }
    }

    twostate lemma OthersSame(i: T.Id)
      requires isolates == old(isolates) && i in isolates
      requires forall j :: j in isolates && j != i ==> unchanged(isolates[j])
      ensures Heaps() == old(Heaps())[i := isolates[i].objects]
      ensures Counts() == old(Counts())[i := isolates[i].allocationCount - isolates[i].otherAllocations]
    {
    }

    /** Work of one isolate on its own heap is a change of its count, and of the objects by as many. */
    twostate lemma Worked(i: T.Id)
      requires old(Valid()) && T.Inv(old(Abstract())) && i in isolates && i in places.live
      requires isolates == old(isolates) && messages == old(messages) && ledgers == old(ledgers)
      requires places == old(places)
      requires (forall j :: j in isolates && j != i ==> unchanged(isolates[j])) && Sound(i)
      requires Obtainable(old(owner), {Heap(i)}, isolates[i].objects.Keys)
      requires owner == Reowned(old(owner), {Heap(i)}, isolates[i].objects.Keys, Heap(i))
      ensures Valid() && Follows(old(Abstract()), T.Allocate(i, Counts()[i] - old(Counts()[i])), Abstract())
    {
      hide Located, AllOwned, Living, Carried, Sound, Distinct, T.Inv, Follows, Reowned, Obtainable;
      OthersAlike(i);
      OthersSame(i);
      HeapWorked(i, old(Abstract()), old(Heaps()), old(owner));
    }

    /** Memory for a new object of the isolate; `at` is `NULL` when there is none. */
    method NewObject(i: T.Id, cls: Cls, size: nat, data: seq<int>, at: Ref)
      requires Valid() && i in isolates && i in places.live && at !in owner
      requires cls.properties <= size && (cls.hook != ArrayHook ==> cls.properties == size)
      requires cls.kind != Class ==> size == 0
      modifies this`owner, isolates[i]
      ensures Valid() && Follows(old(Abstract()), T.Allocate(i, if at == NULL then 0 else 1), Abstract())
      ensures isolates[i].objects == if at == NULL then old(isolates[i].objects)
        else old(isolates[i].objects)[at := Mutator.Blank(cls, size, data)]
    {
      hide Valid, Abstract, Balanced, Booked, T.Inv, Follows;
      Known(i);
      var iso := isolates[i];
      Mutator.Allocate(iso, cls, size, data, at);
      owner := Reowned(owner, {Heap(i)}, iso.objects.Keys, Heap(i));
      Worked(i);
    }

    lemma Known(i: T.Id)
      requires Valid() && i in isolates
      ensures T.Inv(Abstract()) && Distinct() && Sound(i)
      ensures isolates[i].objects.Keys <= owner.Keys && Obtainable(owner, {Heap(i)}, isolates[i].objects.Keys)
      ensures forall m :: m in messages ==> Carried(m) && messages[m].objects.Keys !! isolates[i].objects.Keys
    {
      hide Located, AllOwned, Sound, Carried, Living, T.Inv;
      CountsAreObjects();
      HeapOwned(i);
    }

    /** What an isolate has in its hands is a message that is there. */
    lemma OpenKnown(i: T.Id, m: T.Msg)
      requires Valid() && T.PlaceEnabled(places, T.Open(i, m))
      ensures i in isolates && m in messages && Carried(m) && T.Inv(Abstract()) && T.Enabled(Abstract(), T.Open(i, m))
    {
      hide Sound, Carried, AllOwned, Living, T.Inv, T.QueuedAt;
      CountsAreObjects();
    }

    lemma CreateKnown(i: T.Id, m: T.Msg)
      requires Valid() && i in places.live && m !in messages && m !in places.finished
      ensures T.Inv(Abstract()) && forall n: int :: T.Enabled(Abstract(), T.Create(i, m, n))
      ensures forall n: int :: T.PlaceEnabled(places, T.Create(i, m, n))
    {
      hide Sound, Carried, AllOwned, Living, T.Inv, T.QueuedAt;
      CountsAreObjects();
    }

    lemma HeapOwned(i: T.Id)
      requires Valid() && i in isolates
      ensures isolates[i].objects.Keys <= owner.Keys && Obtainable(owner, {Heap(i)}, isolates[i].objects.Keys)
      ensures forall m :: m in messages ==> messages[m].objects.Keys !! isolates[i].objects.Keys
    {
      hide Located, AllOwned, Sound, Carried;
      OwnedApart(owner, Heaps(), Parcels(), i);
      assert forall m :: m in messages ==> m in Parcels() && Parcels()[m] == messages[m].objects;
    }

    /** A local reference is given up: what it alone kept alive dies, and its memory is free again. */
    method Release(i: T.Id, o: Ref)
      requires Valid() && i in isolates && i in places.live
      requires o in isolates[i].locals && o in isolates[i].objects && !isolates[i].objects[o].immortal
      modifies this`owner, isolates[i]
      ensures Valid() && Follows(old(Abstract()), T.Allocate(i, Counts()[i] - old(Counts()[i])), Abstract())
      ensures isolates[i].locals == old(isolates[i].locals) - multiset{o}
      ensures Released(old(isolates[i].Heap()).(locals := isolates[i].locals), {}, isolates[i].objects)
    {
      hide Valid, Abstract, Balanced, Booked, T.Inv, Follows, BusySafe, Released, Doomed;
      Known(i);
      var iso := isolates[i];
      BalancedAt(iso.Heap(), NULL, o);
      ghost var u := iso.Heap().(locals := iso.locals - One(o));
      Arrays.NothingBusy(Doomed(u));
      iso.DecreaseReference(o);
      ReleasedFewer(u, iso.objects);
      owner := Reowned(owner, {Heap(i)}, iso.objects.Keys, Heap(i));
      Worked(i);
    }

    /** Runs the cycle collector of the isolate: its garbage, and what that alone kept alive, is gone. */
    method CollectGarbage(i: T.Id, hash: Ref -> nat, word: nat, sizeMax: nat, memory: bool) returns (reclaimed: int)
      requires Valid() && i in isolates && i in places.live && word > 0
      modifies this`owner, isolates[i]
      ensures Valid() && Follows(old(Abstract()), T.Allocate(i, Counts()[i] - old(Counts()[i])), Abstract())
      ensures isolates[i].props == old(isolates[i].props) && isolates[i].locals == old(isolates[i].locals)
      ensures var c := old(isolates[i].allocationCount);
        if old(isolates[i].firstDetached) == NULL && memory && 0 <= c && c * 32 * word <= sizeMax
        then Released(old(isolates[i].Heap()), Garbage(old(isolates[i].Heap())), isolates[i].objects)
        else isolates[i].objects == old(isolates[i].objects)
    {
      hide Valid, Abstract, Balanced, Booked, T.Inv, Follows, Released, Garbage;
      Known(i);
      var iso := isolates[i];
      ghost var s := iso.Heap();
      reclaimed := Collector.Collect(iso, hash, word, sizeMax, memory);
      CollectedFewer(s, Garbage(s), iso.objects);
      owner := Reowned(owner, {Heap(i)}, iso.objects.Keys, Heap(i));
      Worked(i);
    }

    // ------------------------------------------------------- messages

    /** A message that was in the hands of the isolate has been joined to its heap. */
    twostate lemma Received(e: T.Step)
      requires e.Open? && old(Valid()) && T.Inv(old(Abstract())) && T.Enabled(old(Abstract()), e)
      requires e.iso in isolates && isolates == old(isolates) && e.msg in old(messages)
      requires messages == old(messages) - {e.msg}
      requires ledgers == old(ledgers) && places == T.Moved(old(places), e)
      requires (forall j :: j in isolates && j != e.iso ==> unchanged(isolates[j])) && Sound(e.iso)
      requires isolates[e.iso].objects.Keys <= old(isolates[e.iso].objects).Keys + old(messages[e.msg]).objects.Keys
      requires owner == Reowned(old(owner), {Heap(e.iso), Parcel(e.msg)}, isolates[e.iso].objects.Keys, Heap(e.iso))
      ensures Valid() && FollowsOpening(old(Abstract()), e.iso, e.msg, Abstract())
    {
      hide Located, AllOwned, Living, Carried, Sound, Distinct, T.Inv, T.Enabled, T.Apply, T.Moved, Reowned, Owned;
      OpenApplied(old(Abstract()), e.iso, e.msg);
      OthersAlike(e.iso);
      OthersSame(e.iso);
      StillCarried();
      LoadsWithout(e.msg);
      MessageJoined(e.iso, e.msg, old(Abstract()), old(Heaps()), old(Parcels()), old(owner));
    }

    twostate lemma LoadsWithout(m: T.Msg)
      requires m in old(messages) && messages == old(messages) - {m}
      ensures Parcels() == old(Parcels()) - {m} && Loads() == old(Loads()) - {m}
    {
    }

    /** The state after opening, from the state before. */
    lemma MessageJoined(
        i: T.Id, m: T.Msg, s: T.State, heaps: map<nat, map<Ref, Obj>>, parcels: map<nat, map<Ref, Obj>>,
        was: map<Ref, Owner>)
      requires T.Inv(s) && T.Enabled(s, T.Open(i, m)) && i in isolates && i in heaps && m in parcels
      requires Distinct() && (forall j :: j in isolates ==> Sound(j)) && forall k :: k in messages ==> Carried(k)
      requires AllOwned(was, heaps, parcels) && isolates[i].objects.Keys <= heaps[i].Keys + parcels[m].Keys
      requires owner == Reowned(was, {Heap(i), Parcel(m)}, isolates[i].objects.Keys, Heap(i))
      requires Heaps() == heaps[i := isolates[i].objects] && Parcels() == parcels - {m}
      requires Loads() == s.sizes - {m} && Counts() == s.counts[i := Counts()[i]]
      requires s.counts.Keys == isolates.Keys && places == T.Moved(s.places, T.Open(i, m))
      ensures Valid() && FollowsOpening(s, i, m, Abstract())
    {
      hide Located, AllOwned, Living, Carried, Sound, Distinct, T.Inv, T.Enabled, T.Apply, T.Moved, Reowned, Owned;
      ghost var mid := T.Apply(s, T.Open(i, m));
      OpenApplied(s, i, m);
      OpenedReowned(was, heaps, parcels, i, m, isolates[i].objects);
      assert mid.counts.Keys == isolates.Keys && mid.sizes.Keys == messages.Keys;
      AllocateApplied(mid, i, Counts()[i] - mid.counts[i]);
      HasFollowed(mid, T.Allocate(i, Counts()[i] - mid.counts[i]));
    }

    twostate lemma StillCarried()
      requires old(forall m :: m in messages ==> Carried(m)) && ledgers == old(ledgers)
      requires messages.Keys <= old(messages).Keys && forall m :: m in messages ==> messages[m] == old(messages)[m]
      ensures forall m :: m in messages ==> Carried(m)
    {
      hide Sealed;
      forall m | m in messages ensures Carried(m) {
        assert old(Carried(m));
      }
    }

    /** Opens a message that is in the isolate's hands: its objects and its payload are the isolate's now. */
    method Open(i: T.Id, m: T.Msg) returns (payload: Ref)
      requires Valid() && i in isolates && m in messages
      requires i in places.live && m in places.hands && places.hands[m] == i
      modifies this, isolates[i]
      ensures Valid() && Follows(old(Abstract()), T.Open(i, m), Abstract())
      ensures isolates == old(isolates) && messages == old(messages) - {m}
      ensures places == old(places).(hands := old(places).hands - {m}, finished := old(places).finished + {m})
      ensures payload == old(messages[m].payload) && isolates[i].locals == old(isolates[i].locals) + multiset{payload}
      ensures isolates[i].props == old(isolates[i].props)
      ensures Relinked(old(isolates[i].objects) + old(messages[m].objects), isolates[i].objects)
    {
      hide Valid, Living, Balanced, Booked, T.Inv, T.Enabled, FollowsOpening, Follows, T.Moved, Sealed, Relinked;
      OpenMoves(places, i, m);
      OpenKnown(i, m);
      Known(i);
      var iso, msg := isolates[i], messages[m];
      ghost var s, k := iso.objects, ledgers[m];
      payload := MessageOpen(iso, msg, k);
      RejoinedKeys(s + msg.objects, iso.objects);
      places := T.Moved(places, T.Open(i, m));
      messages := messages - {m};
      owner := Reowned(owner, {Heap(i), Parcel(m)}, iso.objects.Keys, Heap(i));
      Received(T.Open(i, m));
      OnlyOpened(old(Abstract()), i, m, Abstract());
    }

    /** Opens a message only to release its payload, as for one that was refused or is drained. */
    method Discard(i: T.Id, m: T.Msg)
      requires Valid() && i in isolates && m in messages
      requires i in places.live && m in places.hands && places.hands[m] == i
      modifies this, isolates[i]
      ensures Valid() && FollowsOpening(old(Abstract()), i, m, Abstract())
      ensures isolates == old(isolates) && messages == old(messages) - {m}
      ensures places == old(places).(hands := old(places).hands - {m}, finished := old(places).finished + {m})
      ensures isolates[i].props == old(isolates[i].props) && isolates[i].locals == old(isolates[i].locals)
      ensures Survive(isolates[i].objects, old(isolates[i].objects))
    {
      hide Valid, Abstract, Balanced, Booked, T.Inv, T.Enabled, FollowsOpening, T.Moved, Sealed, Released, Survive;
      OpenMoves(places, i, m);
      OpenKnown(i, m);
      Known(i);
      var iso, msg := isolates[i], messages[m];
      ghost var s, k := State(iso.objects + msg.objects, iso.props, iso.locals, {}), ledgers[m];
      MessageDiscard(iso, msg, k);
      ReleasedFewer(s, iso.objects);
      places := T.Moved(places, T.Open(i, m));
      messages := messages - {m};
      owner := Reowned(owner, {Heap(i), Parcel(m)}, iso.objects.Keys, Heap(i));
      Received(T.Open(i, m));
    }

    /** A message has been made by the isolate `e.iso`, of memory that nobody else uses. */
    twostate lemma Sent(e: T.Step)
      requires e.Create? && old(Valid()) && T.Inv(old(Abstract())) && T.Enabled(old(Abstract()), e)
      requires e.iso in isolates && isolates == old(isolates) && e.msg in messages && e.msg !in old(messages)
      requires messages == old(messages)[e.msg := messages[e.msg]] && e.msg in ledgers
      requires ledgers == old(ledgers)[e.msg := ledgers[e.msg]] && places == T.Moved(old(places), e)
      requires (forall j :: j in isolates && j != e.iso ==> unchanged(isolates[j])) && Sound(e.iso)
      requires isolates[e.iso].Heap() == old(isolates[e.iso].Heap())
      requires isolates[e.iso].Book() == old(isolates[e.iso].Book())
      requires Sealed(messages[e.msg], ledgers[e.msg]) && messages[e.msg].count == e.size
      requires messages[e.msg].objects.Keys !! old(owner).Keys
      requires owner == Reowned(old(owner), {}, messages[e.msg].objects.Keys, Parcel(e.msg))
      ensures Valid() && Follows(old(Abstract()), e, Abstract())
    {
      hide Located, AllOwned, Living, Carried, Sound, Distinct, T.Inv, T.Enabled, T.Apply, T.Moved, Reowned, Owned,
        Sealed;
      OthersAlike(e.iso);
      OthersSame(e.iso);
      OneMoreCarried(e.msg);
      LoadsWith(e.msg);
      SameCounts(e.iso);
      MessageMade(e, old(Abstract()), old(Heaps()), old(Parcels()), old(owner));
    }

    twostate lemma SameCounts(i: T.Id)
      requires i in isolates && i in old(isolates)
      requires isolates[i].Heap() == old(isolates[i].Heap()) && isolates[i].Book() == old(isolates[i].Book())
      ensures isolates[i].objects == old(isolates[i].objects)
      ensures isolates[i].allocationCount - isolates[i].otherAllocations
        == old(isolates[i].allocationCount - isolates[i].otherAllocations)
    {
      assert isolates[i].Book().allocations == old(isolates[i].Book().allocations);
    }

    twostate lemma OneMoreCarried(m: T.Msg)
      requires old(forall k :: k in messages ==> Carried(k)) && m in messages && m in ledgers
      requires messages == old(messages)[m := messages[m]] && ledgers == old(ledgers)[m := ledgers[m]]
      requires Sealed(messages[m], ledgers[m])
      ensures forall k :: k in messages ==> Carried(k)
    {
      hide Sealed;
      forall k | k in messages && k != m ensures Carried(k) {
        assert old(Carried(k));
      }
    }

    twostate lemma LoadsWith(m: T.Msg)
      requires m in messages && messages == old(messages)[m := messages[m]]
      ensures Parcels() == old(Parcels())[m := messages[m].objects]
      ensures Loads() == old(Loads())[m := messages[m].count]
    {
    }

    /** The state after a message has been made, from the state before. */
    lemma MessageMade(
        e: T.Step, s: T.State, heaps: map<nat, map<Ref, Obj>>, parcels: map<nat, map<Ref, Obj>>, was: map<Ref, Owner>)
      requires e.Create? && T.Inv(s) && T.Enabled(s, e) && e.msg in messages && e.msg !in parcels
      requires Distinct() && (forall j :: j in isolates ==> Sound(j)) && forall k :: k in messages ==> Carried(k)
      requires AllOwned(was, heaps, parcels) && messages[e.msg].objects.Keys !! was.Keys
      requires owner == Reowned(was, {}, messages[e.msg].objects.Keys, Parcel(e.msg))
      requires Heaps() == heaps && Parcels() == parcels[e.msg := messages[e.msg].objects]
      requires Loads() == s.sizes[e.msg := e.size] && Counts() == s.counts
      requires places == T.Moved(s.places, e)
      ensures Valid() && Follows(s, e, Abstract())
    {
      hide Located, AllOwned, Living, Carried, Sound, Distinct, T.Inv, T.Enabled, T.Apply, T.Moved, Reowned, Owned;
      LocatedStep(s, e);
      CreateApplied(s, e);
      ParcelReowned(was, heaps, parcels, e.msg, messages[e.msg].objects);
      assert s.counts.Keys == isolates.Keys && Loads().Keys == messages.Keys;
      HasFollowed(s, e);
    }

    /**
      Copies the payload's graph into a message, and keeps it in hand. The
      accounting moves by the message alone; a send that fails makes none.
     */
    method Create(
        i: T.Id, payload: Ref, m: T.Msg, hash: Ref -> nat, plenty: bool, ghost depth: map<Ref, nat>)
      returns (made: bool, ghost origin: map<Ref, Ref>)
      requires Valid() && i in isolates && i in places.live && m !in messages && m !in places.finished
      requires Sendable(isolates[i].Heap(), payload, depth)
      modifies this, isolates[i]
      ensures Valid() && isolates == old(isolates)
      ensures made ==>
        && m in messages && messages == old(messages)[m := messages[m]]
        && Follows(old(Abstract()), T.Create(i, m, messages[m].count), Abstract())
        && places == old(places).(hands := old(places).hands[m := i])
        && isolates[i].Heap() == old(isolates[i].Heap()) && isolates[i].linked == old(isolates[i].linked)
        && m in ledgers && Carries(old(isolates[i].Heap()), payload, messages[m], ledgers[m], origin)
      ensures !made ==>
        && messages == old(messages) && places == old(places)
        && Follows(old(Abstract()), T.Allocate(i, Counts()[i] - old(Counts()[i])), Abstract())
        && Survive(isolates[i].objects, old(isolates[i].objects))
      ensures made ==>
        forall o :: o in ReachedFrom(old(isolates[i].Heap()), {payload}) && o in old(isolates[i].objects) ==>
          var x := old(isolates[i].objects)[o];
          if x.cls.kind == Interface then x.impl != NULL else x.cls.hook in {NoHook, ArrayHook, StringHook}
      ensures plenty
        && (forall o :: o in ReachedFrom(old(isolates[i].Heap()), {payload}) && o in old(isolates[i].objects) ==>
              var x := old(isolates[i].objects)[o];
              if x.cls.kind == Interface then x.impl != NULL else x.cls.hook in {NoHook, ArrayHook, StringHook})
        ==> made
    {
      hide Valid, Abstract, Balanced, Booked, T.Inv, T.Enabled, T.Apply, Follows, T.Moved, Sealed, Survive, Carries,
        Sendable, ReachedFrom;
      Known(i);
      CreateKnown(i, m);
      var iso := isolates[i];
      var r;
      ghost var k;
      r, k, origin := MessageCreate(iso, payload, owner.Keys, hash, plenty, depth);
      made := r.Some?;
      if r.None? {
        owner := Reowned(owner, {Heap(i)}, iso.objects.Keys, Heap(i));
        Worked(i);
        return;
      }
      CarriesSealed(old(iso.Heap()), payload, r.value, k, origin);
      places := T.Moved(places, T.Create(i, m, r.value.count));
      messages, ledgers := messages[m := r.value], ledgers[m := k];
      owner := Reowned(owner, {}, r.value.objects.Keys, Parcel(m));
      Sent(T.Create(i, m, r.value.count));
      CreateMoves(old(places), i, m, r.value.count);
    }

    twostate lemma BornSound(i: T.Id)
      requires old(forall j :: j in isolates ==> Sound(j)) && i in isolates && Sound(i)
      requires isolates == old(isolates)[i := isolates[i]] && i !in old(isolates)
      requires forall j :: j in old(isolates) ==> unchanged(old(isolates)[j])
      ensures forall j :: j in isolates ==> Sound(j)
    {
      hide Isolate.Valid;
      forall j | j in isolates && j != i ensures Sound(j) {
        assert old(Sound(j)) && isolates[j] == old(isolates)[j];
      }
    }

    twostate lemma BornEmpty(i: T.Id)
      requires old(Distinct()) && i in isolates && isolates[i] !in old(isolates).Values
      requires isolates == old(isolates)[i := isolates[i]] && i !in old(isolates)
      requires forall j :: j in old(isolates) ==> unchanged(old(isolates)[j])
      requires isolates[i].objects == map[] && isolates[i].allocationCount == isolates[i].otherAllocations
      ensures Distinct() && Heaps() == old(Heaps())[i := map[]] && Counts() == old(Counts())[i := 0]
    {
      hide Heaps, Counts, Distinct;
      BornApart(i);
      BornHeaps(i);
      BornCounts(i);
    }

    twostate lemma BornApart(i: T.Id)
      requires old(Distinct()) && i in isolates && isolates[i] !in old(isolates).Values
      requires isolates == old(isolates)[i := isolates[i]] && i !in old(isolates)
      ensures Distinct()
    {
    }

    twostate lemma BornHeaps(i: T.Id)
      requires i in isolates && isolates == old(isolates)[i := isolates[i]] && i !in old(isolates)
      requires forall j :: j in old(isolates) ==> unchanged(old(isolates)[j])
      requires isolates[i].objects == map[]
      ensures Heaps() == old(Heaps())[i := map[]]
    {
    }

    twostate lemma BornCounts(i: T.Id)
      requires i in isolates && isolates == old(isolates)[i := isolates[i]] && i !in old(isolates)
      requires forall j :: j in old(isolates) ==> unchanged(old(isolates)[j])
      requires isolates[i].allocationCount == isolates[i].otherAllocations
      ensures Counts() == old(Counts())[i := 0]
    {
    }

    /** A message in hand goes to the end of an open place, and stays in hand before a closed one. */
    method Post(a: T.Id, m: T.Msg, f: T.Place) returns (accepted: bool)
      requires Valid() && m in places.hands && places.hands[m] == a && f in places.boxes && f.iso in places.live
      modifies this`places
      ensures Valid() && Follows(old(Abstract()), T.Post(a, m, f), Abstract())
      ensures accepted <==> !old(places).boxes[f].closed
      ensures places == if !accepted then old(places) else old(places).(
        hands := old(places).hands - {m},
        boxes := old(places).boxes[f := T.Box(old(places).boxes[f].queue + [m], false)])
    {
      hide Valid, Abstract, Follows, T.Moved, T.PlaceEnabled;
      accepted := !places.boxes[f].closed;
      PostMoves(places, a, m, f);
      Move(T.Post(a, m, f));
    }

    /** The first message of one's own mailbox, or one's boot message, comes into hand. */
    method Take(i: T.Id, f: T.Place) returns (m: T.Msg)
      requires Valid() && f.iso == i && i in places.live && f in places.boxes && places.boxes[f].queue != []
      modifies this`places
      ensures Valid() && Follows(old(Abstract()), T.Take(i, f), Abstract())
      ensures m == old(places).boxes[f].queue[0]
      ensures var box := old(places).boxes[f];
        places == old(places).(
          hands := old(places).hands[m := i], boxes := old(places).boxes[f := T.Box(box.queue[1..], box.closed)])
    {
      hide Valid, Abstract, Follows, T.Moved, T.PlaceEnabled;
      m := places.boxes[f].queue[0];
      TakeMoves(places, i, f);
      Move(T.Take(i, f));
    }

    /** The same for a place whose isolate nobody holds, by whoever frees it. */
    method TakeDropped(c: T.Id, f: T.Place) returns (m: T.Msg)
      requires Valid() && c in places.live && f.iso !in places.live && f in places.boxes && places.boxes[f].queue != []
      modifies this`places
      ensures Valid() && Follows(old(Abstract()), T.Drop(c, f), Abstract())
      ensures m == old(places).boxes[f].queue[0]
      ensures var box := old(places).boxes[f];
        places == old(places).(
          hands := old(places).hands[m := c], boxes := old(places).boxes[f := T.Box(box.queue[1..], box.closed)])
    {
      hide Valid, Abstract, Follows, T.Moved, T.PlaceEnabled;
      m := places.boxes[f].queue[0];
      DropMoves(places, c, f);
      Move(T.Drop(c, f));
    }

    method Close(i: T.Id)
      requires Valid() && i in places.live && T.Inbox(i) in places.boxes
      modifies this`places
      ensures Valid() && Follows(old(Abstract()), T.Close(i), Abstract())
      ensures places == old(places).(
        boxes := old(places).boxes[T.Inbox(i) := T.Box(old(places).boxes[T.Inbox(i)].queue, true)])
    {
      hide Valid, Abstract, Follows, T.Moved, T.PlaceEnabled;
      CloseMoves(places, i);
      Move(T.Close(i));
    }

    /** Nobody holds the isolate any more. */
    method Abandon(i: T.Id)
      requires Valid() && i in places.live && forall m :: m in places.hands ==> places.hands[m] != i
      modifies this`places
      ensures Valid() && Follows(old(Abstract()), T.Abandon(i), Abstract())
      ensures places == old(places).(live := old(places).live - {i})
    {
      hide Valid, Abstract, Follows, T.Moved, T.PlaceEnabled;
      AbandonMoves(places, i);
      Move(T.Abandon(i));
    }

    // -------------------------------------------- sending and receiving

    /**
      `__amlc_send`: the copy is posted to `b`, and discarded again when `b` has
      closed its mailbox. A null payload is refused; a send that cannot make a
      message changes no place.
     */
    method Send(
        a: T.Id, b: T.Id, payload: Ref, m: T.Msg, hash: Ref -> nat, plenty: bool, ghost depth: map<Ref, nat>)
      returns (made: bool, ghost origin: map<Ref, Ref>)
      requires Valid() && a in isolates && a in places.live && m !in messages && m !in places.finished
      requires b in places.live && T.Inbox(b) in places.boxes
      requires payload == NULL || Sendable(isolates[a].Heap(), payload, depth)
      modifies this, isolates[a]
      ensures Valid() && isolates == old(isolates)
      ensures made && !old(places).boxes[T.Inbox(b)].closed ==>
        && m in messages && messages == old(messages)[m := messages[m]] && m in ledgers
        && places.boxes == old(places).boxes[T.Inbox(b) := T.Box(old(places).boxes[T.Inbox(b)].queue + [m], false)]
        && isolates[a].Heap() == old(isolates[a].Heap())
        && Carries(old(isolates[a].Heap()), payload, messages[m], ledgers[m], origin)
      ensures !made || old(places).boxes[T.Inbox(b)].closed ==>
        && messages == old(messages) && places.boxes == old(places).boxes
        && Survive(isolates[a].objects, old(isolates[a].objects))
      ensures payload == NULL ==> !made && isolates[a].Heap() == old(isolates[a].Heap()) && places == old(places)
      ensures made ==>
        forall o :: o in ReachedFrom(old(isolates[a].Heap()), {payload}) && o in old(isolates[a].objects) ==>
          var x := old(isolates[a].objects)[o];
          if x.cls.kind == Interface then x.impl != NULL else x.cls.hook in {NoHook, ArrayHook, StringHook}
      ensures plenty && payload != NULL
        && (forall o :: o in ReachedFrom(old(isolates[a].Heap()), {payload}) && o in old(isolates[a].objects) ==>
              var x := old(isolates[a].objects)[o];
              if x.cls.kind == Interface then x.impl != NULL else x.cls.hook in {NoHook, ArrayHook, StringHook})
        ==> made
    {
      hide Valid, Abstract, Carries, Sendable, ReachedFrom, Follows, Survive, FollowsOpening;
      if payload == NULL {
        SurviveReflexive(isolates[a].objects);
        return false, map[];
      }
      made, origin := Create(a, payload, m, hash, plenty, depth);
      if !made {
        return;
      }
      var accepted := Post(a, m, T.Inbox(b));
      if !accepted {
        AddedAndTaken(old(messages), m, messages[m]);
        Discard(a, m);
      }
    }

    /** `__amlc_receive` without waiting: opens the first message of the mailbox, if there is one. */
    method Receive(i: T.Id) returns (payload: Ref, ghost m: T.Msg)
      requires Valid() && i in isolates && i in places.live && T.Inbox(i) in places.boxes
      modifies this, isolates[i]
      ensures Valid() && isolates == old(isolates)
      ensures old(places.boxes[T.Inbox(i)].queue) == [] ==>
        && payload == NULL && places == old(places) && messages == old(messages)
        && isolates[i].Heap() == old(isolates[i].Heap())
      ensures old(places.boxes[T.Inbox(i)].queue) != [] ==>
        && m == old(places.boxes[T.Inbox(i)].queue)[0] && m in old(messages) && messages == old(messages) - {m}
        && payload == old(messages)[m].payload
        && isolates[i].locals == old(isolates[i].locals) + multiset{payload}
        && Relinked(old(isolates[i].objects) + old(messages)[m].objects, isolates[i].objects)
      ensures old(places.boxes[T.Inbox(i)].queue) != [] ==>
        && T.Inbox(i) in places.boxes
        && places.boxes == old(places.boxes)[T.Inbox(i) := places.boxes[T.Inbox(i)]]
        && places.boxes[T.Inbox(i)].queue == old(places.boxes[T.Inbox(i)].queue)[1..]
        && places.boxes[T.Inbox(i)].closed == old(places.boxes[T.Inbox(i)].closed)
    {
      hide Valid, Abstract, Relinked, Follows;
      if places.boxes[T.Inbox(i)].queue == [] {
        return NULL, 0;
      }
      QueuedIsThere(T.Inbox(i), 0);
      var first := Take(i, T.Inbox(i));
      payload := Open(i, first);
      m := first;
    }

    lemma QueuedIsThere(f: T.Place, k: nat)
      requires Valid() && f in places.boxes && k < |places.boxes[f].queue|
      ensures places.boxes[f].queue[k] in messages && places.boxes[f].queue[k] !in places.hands
      ensures places.boxes[f].queue[k] !in places.finished
    {
      hide AllOwned, Sound, Carried, Distinct;
      assert T.QueuedAt(places, places.boxes[f].queue[k], f, k);
    }

    /** The messages of `ms` as a set. */
    ghost function Set(ms: seq<T.Msg>): set<T.Msg> {
      set k: nat | k < |ms| :: ms[k]
    }

    /**
      The mailbox part of `__amlc_isolate_teardown`: the mailbox is closed, so
      that nothing more can be posted, and what is left in it is discarded.
     */
    method Teardown(i: T.Id)
      requires Valid() && i in isolates && i in places.live && T.Inbox(i) in places.boxes
      modifies this, isolates[i]
      ensures Valid() && isolates == old(isolates)
      ensures places.boxes == old(places).boxes[T.Inbox(i) := T.Box([], true)]
      ensures places.hands == old(places).hands && places.live == old(places).live
      ensures messages == old(messages) - Set(old(places).boxes[T.Inbox(i)].queue)
      ensures Survive(isolates[i].objects, old(isolates[i].objects))
    {
      hide Valid, Abstract, Follows, FollowsOpening, Survive;
      ghost var q := places.boxes[T.Inbox(i)].queue;
      ghost var n := 0;
      Close(i);
      SurviveReflexive(isolates[i].objects);
      SetUpTo(q);
      while places.boxes[T.Inbox(i)].queue != []
        invariant Valid() && isolates == old(isolates) && i in places.live && places.live == old(places).live
        invariant n <= |q| && places.boxes == old(places).boxes[T.Inbox(i) := T.Box(q[n..], true)]
        invariant places.hands == old(places).hands && messages == old(messages) - Set(q[..n])
        invariant Survive(isolates[i].objects, old(isolates[i].objects))
        decreases |q| - n
      {
        ghost var before: map<Ref, Obj> := isolates[i].objects;
        QueuedIsThere(T.Inbox(i), 0);
        var m := Take(i, T.Inbox(i));
        Discard(i, m);
        SurviveTransitive(isolates[i].objects, before, old(isolates[i].objects));
        NextOfSet(q, n);
        n := n + 1;
      }
      assert n == |q|;
    }

    /**
      `__amlc_isolate_free`: whoever lets go of an isolate last discards what is
      left in its mailbox, and its boot message, before both are destroyed.
     */
    method FreeIsolate(c: T.Id, i: T.Id)
      requires Valid() && c in isolates && c in places.live && i !in places.live
      requires T.Inbox(i) in places.boxes && T.Boot(i) in places.boxes
      modifies this, isolates[c]
      ensures Valid() && isolates == old(isolates)
      ensures places.boxes == old(places).boxes - {T.Inbox(i), T.Boot(i)}
      ensures messages ==
        old(messages) - Set(old(places).boxes[T.Inbox(i)].queue) - Set(old(places).boxes[T.Boot(i)].queue)
      ensures Survive(isolates[c].objects, old(isolates[c].objects))
    {
      hide Valid, Abstract, Follows, Survive, T.Moved, T.PlaceEnabled, Set;
      DrainPlace(c, T.Inbox(i));
      ghost var before: map<Ref, Obj> := isolates[c].objects;
      DrainPlace(c, T.Boot(i));
      SurviveTransitive(isolates[c].objects, before, old(isolates[c].objects));
      DestroyMoves(places, i);
      Move(T.Destroy(i));
    }

    /** Discards what is left in a place whose isolate nobody holds, and finds it empty. */
    method DrainPlace(c: T.Id, f: T.Place)
      requires Valid() && c in isolates && c in places.live && f.iso !in places.live && f in places.boxes
      modifies this, isolates[c]
      ensures Valid() && isolates == old(isolates) && places.live == old(places).live
      ensures places.boxes == old(places).boxes[f := T.Box([], old(places).boxes[f].closed)]
      ensures places.drained == old(places).drained + {f}
      ensures messages == old(messages) - Set(old(places).boxes[f].queue)
      ensures Survive(isolates[c].objects, old(isolates[c].objects))
    {
      hide Valid, Abstract, Follows, FollowsOpening, Survive, T.Moved, T.PlaceEnabled;
      ghost var q, closed := places.boxes[f].queue, places.boxes[f].closed;
      ghost var n := 0;
      SurviveReflexive(isolates[c].objects);
      SetUpTo(q);
      while places.boxes[f].queue != []
        invariant Valid() && isolates == old(isolates) && c in places.live && places.live == old(places).live
        invariant n <= |q| && places.boxes == old(places).boxes[f := T.Box(q[n..], closed)]
        invariant places.drained == old(places).drained && messages == old(messages) - Set(q[..n])
        invariant Survive(isolates[c].objects, old(isolates[c].objects))
        decreases |q| - n
      {
        ghost var before: map<Ref, Obj> := isolates[c].objects;
        QueuedIsThere(f, 0);
        var m := TakeDropped(c, f);
        Discard(c, m);
        SurviveTransitive(isolates[c].objects, before, old(isolates[c].objects));
        NextOfSet(q, n);
        n := n + 1;
      }
      assert n == |q|;
      EndMoves(places, f);
      Move(T.DrainEnds(f));
    }

    lemma SetUpTo(q: seq<T.Msg>)
      ensures Set(q[..0]) == {} && q[..|q|] == q && q[0..] == q
    {
    }

    lemma NextOfSet(q: seq<T.Msg>, n: nat)
      requires n < |q|
      ensures q[n..][0] == q[n] && q[n..][1..] == q[n + 1..] && Set(q[..n + 1]) == Set(q[..n]) + {q[n]}
    {
      assert q[..n + 1] == q[..n] + [q[n]];
      forall m | m in Set(q[..n]) + {q[n]} ensures m in Set(q[..n + 1]) {
        if m == q[n] {
          assert q[..n + 1][n] == m;
        } else {
          var k: nat :| k < n && q[..n][k] == m;
          assert q[..n + 1][k] == m;
        }
      }
    }

    /**
      A message from one isolate to another whose mailbox is open and empty: if
      it can be made, a finished copy of the payload's graph becomes part of the
      receiver's heap, and the sender's heap is as it was.
     */
    method Deliver(
        a: T.Id, b: T.Id, payload: Ref, m: T.Msg, hash: Ref -> nat, plenty: bool, ghost depth: map<Ref, nat>)
      returns (arrived: bool, root: Ref, ghost origin: map<Ref, Ref>, ghost copies: map<Ref, Obj>)
      requires Valid() && a in isolates && b in isolates && a != b && a in places.live && b in places.live
      requires m !in messages && m !in places.finished && Sendable(isolates[a].Heap(), payload, depth)
      requires T.Inbox(b) in places.boxes && places.boxes[T.Inbox(b)] == T.Box([], false)
      modifies this, isolates[a], isolates[b]
      ensures Valid() && isolates == old(isolates)
      ensures arrived ==>
        && isolates[a].Heap() == old(isolates[a].Heap()) && messages == old(messages)
        && Copied(
             old(isolates[a].objects), ReachedFrom(old(isolates[a].Heap()), {payload}), copies, origin, payload, root)
        && copies.Keys !! old(isolates[b].objects).Keys
        && Relinked(old(isolates[b].objects) + copies, isolates[b].objects)
        && isolates[b].locals == old(isolates[b].locals) + multiset{root}
      ensures arrived ==>
        forall o :: o in ReachedFrom(old(isolates[a].Heap()), {payload}) && o in old(isolates[a].objects) ==>
          var x := old(isolates[a].objects)[o];
          if x.cls.kind == Interface then x.impl != NULL else x.cls.hook in {NoHook, ArrayHook, StringHook}
      ensures plenty
        && (forall o :: o in ReachedFrom(old(isolates[a].Heap()), {payload}) && o in old(isolates[a].objects) ==>
              var x := old(isolates[a].objects)[o];
              if x.cls.kind == Interface then x.impl != NULL else x.cls.hook in {NoHook, ArrayHook, StringHook})
        ==> arrived
    {
      hide Valid, Abstract, Carries, Sendable, ReachedFrom, Copied, Relinked, Follows;
      hide T.Inv, T.Enabled, T.Apply, T.Moved, T.PlaceEnabled;
      IsolatesApart(a, b);
      arrived, origin := Create(a, payload, m, hash, plenty, depth);
      root, copies := NULL, map[];
      if !arrived {
        return;
      }
      copies := messages[m].objects;
      CarriesCopied(old(isolates[a].Heap()), payload, messages[m], ledgers[m], origin);
      ApartFrom(b, m);
      AddedAndTaken(old(messages), m, messages[m]);
      root := HandOver(a, b, m);
    }

    /** A message that `a` has in hand is posted to `b`, taken and opened. */
    method HandOver(a: T.Id, b: T.Id, m: T.Msg) returns (payload: Ref)
      requires Valid() && a in isolates && b in isolates && m in messages && a in places.live && b in places.live
      requires m in places.hands && places.hands[m] == a
      requires T.Inbox(b) in places.boxes && places.boxes[T.Inbox(b)] == T.Box([], false)
      modifies this, isolates[b]
      ensures Valid() && isolates == old(isolates) && messages == old(messages) - {m}
      ensures payload == old(messages[m].payload) && isolates[b].locals == old(isolates[b].locals) + multiset{payload}
      ensures Relinked(old(isolates[b].objects) + old(messages[m].objects), isolates[b].objects)
    {
      hide Valid, Abstract, Relinked, Follows, T.Inv, T.Enabled, T.Apply, T.Moved, T.PlaceEnabled;
      PostAndTake(places, a, b, m);
      Move(T.Post(a, m, T.Inbox(b)));
      Move(T.Take(b, T.Inbox(b)));
      payload := Open(b, m);
    }

    lemma ApartFrom(i: T.Id, m: T.Msg)
      requires Valid() && i in isolates && m in messages
      ensures messages[m].objects.Keys !! isolates[i].objects.Keys
    {
      hide Valid;
      HeapOwned(i);
    }

    lemma IsolatesApart(a: T.Id, b: T.Id)
      requires Valid() && a in isolates && b in isolates && a != b
      ensures isolates[a] != isolates[b]
    {
      hide Located, Sound, Carried, AllOwned;
    }

    /** One isolate more, with nothing in it. */
    twostate lemma Born(i: T.Id)
      requires old(Valid()) && T.Inv(old(Abstract())) && T.Enabled(old(Abstract()), T.Birth(i))
      requires i in isolates && isolates == old(isolates)[i := isolates[i]] && i !in old(isolates)
      requires forall j :: j in old(isolates) ==> unchanged(old(isolates)[j])
      requires isolates[i] !in old(isolates).Values
      requires messages == old(messages) && ledgers == old(ledgers) && owner == old(owner)
      requires places == T.Moved(old(places), T.Birth(i)) && Sound(i)
      requires isolates[i].objects == map[] && isolates[i].allocationCount == isolates[i].otherAllocations
      ensures Valid() && Follows(old(Abstract()), T.Birth(i), Abstract())
    {
      hide Located, Living, Carried, Sound, Distinct, T.Inv, T.Enabled, T.Apply, T.Moved, Owned;
      ghost var s := old(Abstract());
      BornSound(i);
      BornEmpty(i);
      BirthApplied(s, i);
      LocatedStep(s, T.Birth(i));
      NothingOwned(owner, i);
      assert Counts().Keys == isolates.Keys && s.sizes.Keys == messages.Keys;
      HasFollowed(s, T.Birth(i));
    }

    /** A new isolate, with an empty heap and mailbox. */
    method Birth(i: T.Id)
      requires Valid() && i !in places.known
      modifies this
      ensures Valid() && Follows(old(Abstract()), T.Birth(i), Abstract())
      ensures i in isolates && fresh(isolates[i]) && isolates == old(isolates)[i := isolates[i]]
      ensures isolates[i].objects == map[] && isolates[i].allocationCount == 0
      ensures messages == old(messages)
      ensures places == old(places).(
        boxes := old(places).boxes[T.Inbox(i) := T.Box([], false)][T.Boot(i) := T.Box([], false)],
        live := old(places).live + {i}, known := old(places).known + {i})
    {
      hide Valid, Abstract, Balanced, Booked, T.Inv, T.Enabled, T.Apply, Follows, T.Moved;
      BirthKnown(i);
      BirthMoves(places, i);
      var iso := new Isolate();
      isolates := isolates[i := iso];
      places := T.Moved(places, T.Birth(i));
      Born(i);
    }

    lemma BirthKnown(i: T.Id)
      requires Valid() && i !in places.known
      ensures i !in isolates && T.Inv(Abstract()) && T.Enabled(Abstract(), T.Birth(i))
      ensures T.PlaceEnabled(places, T.Birth(i))
    {
      hide Sound, Carried, AllOwned, Living, T.Inv, T.QueuedAt;
      CountsAreObjects();
    }
  }

  lemma BirthApplied(s: T.State, i: T.Id)
    requires T.Inv(s) && T.Enabled(s, T.Birth(i))
    ensures T.Apply(s, T.Birth(i)).places == T.Moved(s.places, T.Birth(i)) && T.Apply(s, T.Birth(i)).sizes == s.sizes
    ensures T.Apply(s, T.Birth(i)).counts == s.counts[i := 0]
  {
    hide T.Once, T.Sum, T.Drained;
  }

  lemma NothingOwned(owner: map<Ref, Owner>, i: nat)
    ensures Owned(owner, map[], Heap(i))
  {
  }

  lemma OpenApplied(s: T.State, i: T.Id, m: T.Msg)
    requires T.Inv(s) && T.Enabled(s, T.Open(i, m))
    ensures var mid := T.Apply(s, T.Open(i, m));
      && T.Inv(mid) && mid.places == T.Moved(s.places, T.Open(i, m)) && i in mid.places.live
      && mid.sizes == s.sizes - {m} && m in s.sizes && i in s.counts
      && mid.counts == s.counts[i := s.counts[i] + s.sizes[m]]
      && Located(mid.places, mid.counts.Keys, mid.sizes.Keys)
  {
    T.StepKeepsInv(s, T.Open(i, m));
    LocatedStep(s, T.Open(i, m));
    hide T.Once, T.Sum, Located;
  }

  lemma CreateApplied(s: T.State, e: T.Step)
    requires T.Inv(s) && T.Enabled(s, e) && e.Create?
    ensures T.Apply(s, e).places == T.Moved(s.places, e) && T.Apply(s, e).counts == s.counts
    ensures T.Apply(s, e).sizes == s.sizes[e.msg := e.size]
  {
    hide T.Once, T.Sum, T.Drained;
  }

  lemma PostAndTake(p: T.Places, a: T.Id, b: T.Id, m: T.Msg)
    requires m in p.hands && p.hands[m] == a && a in p.live && b in p.live
    requires T.Inbox(b) in p.boxes && p.boxes[T.Inbox(b)] == T.Box([], false)
    ensures T.PlaceEnabled(p, T.Post(a, m, T.Inbox(b)))
    ensures T.PlaceEnabled(T.Moved(p, T.Post(a, m, T.Inbox(b))), T.Take(b, T.Inbox(b)))
    ensures var q := T.Moved(T.Moved(p, T.Post(a, m, T.Inbox(b))), T.Take(b, T.Inbox(b)));
      T.PlaceEnabled(q, T.Open(b, m))
  {
  }

  lemma AddedAndTaken(messages: map<T.Msg, Message>, m: T.Msg, msg: Message)
    requires m !in messages
    ensures messages[m := msg] - {m} == messages
  {
  }

  lemma OpenMoves(p: T.Places, i: T.Id, m: T.Msg)
    requires i in p.live && m in p.hands && p.hands[m] == i
    ensures T.PlaceEnabled(p, T.Open(i, m))
    ensures T.Moved(p, T.Open(i, m)) == p.(hands := p.hands - {m}, finished := p.finished + {m})
  {
  }

  lemma BirthMoves(p: T.Places, i: T.Id)
    requires i !in p.known
    ensures T.PlaceEnabled(p, T.Birth(i))
    ensures T.Moved(p, T.Birth(i)) == p.(
      boxes := p.boxes[T.Inbox(i) := T.Box([], false)][T.Boot(i) := T.Box([], false)],
      live := p.live + {i}, known := p.known + {i})
  {
  }

  lemma PostMoves(p: T.Places, a: T.Id, m: T.Msg, f: T.Place)
    requires m in p.hands && p.hands[m] == a && f in p.boxes && f.iso in p.live
    ensures T.PlaceEnabled(p, T.Post(a, m, f))
    ensures T.Moved(p, T.Post(a, m, f)) ==
      if p.boxes[f].closed then p
      else p.(hands := p.hands - {m}, boxes := p.boxes[f := T.Box(p.boxes[f].queue + [m], false)])
  {
  }

  lemma TakeMoves(p: T.Places, i: T.Id, f: T.Place)
    requires f.iso == i && i in p.live && f in p.boxes && p.boxes[f].queue != []
    ensures T.PlaceEnabled(p, T.Take(i, f))
    ensures T.Moved(p, T.Take(i, f)) ==
      p.(hands := p.hands[p.boxes[f].queue[0] := i],
         boxes := p.boxes[f := T.Box(p.boxes[f].queue[1..], p.boxes[f].closed)])
  {
  }

  lemma DropMoves(p: T.Places, c: T.Id, f: T.Place)
    requires c in p.live && f.iso !in p.live && f in p.boxes && p.boxes[f].queue != []
    ensures T.PlaceEnabled(p, T.Drop(c, f))
    ensures T.Moved(p, T.Drop(c, f)) ==
      p.(hands := p.hands[p.boxes[f].queue[0] := c],
         boxes := p.boxes[f := T.Box(p.boxes[f].queue[1..], p.boxes[f].closed)])
  {
  }

  lemma CloseMoves(p: T.Places, i: T.Id)
    requires i in p.live && T.Inbox(i) in p.boxes
    ensures T.PlaceEnabled(p, T.Close(i))
    ensures T.Moved(p, T.Close(i)) == p.(boxes := p.boxes[T.Inbox(i) := T.Box(p.boxes[T.Inbox(i)].queue, true)])
  {
  }

  lemma AbandonMoves(p: T.Places, i: T.Id)
    requires i in p.live && forall m :: m in p.hands ==> p.hands[m] != i
    ensures T.PlaceEnabled(p, T.Abandon(i)) && T.Moved(p, T.Abandon(i)) == p.(live := p.live - {i})
  {
  }

  lemma EndMoves(p: T.Places, f: T.Place)
    requires f.iso !in p.live && f in p.boxes && p.boxes[f].queue == []
    ensures T.PlaceEnabled(p, T.DrainEnds(f)) && T.Moved(p, T.DrainEnds(f)) == p.(drained := p.drained + {f})
  {
  }

  lemma DestroyMoves(p: T.Places, i: T.Id)
    requires T.Inbox(i) in p.drained && T.Boot(i) in p.drained
    ensures T.PlaceEnabled(p, T.Destroy(i))
    ensures T.Moved(p, T.Destroy(i)) == p.(boxes := p.boxes - {T.Inbox(i), T.Boot(i)})
  {
  }

  lemma CreateMoves(p: T.Places, i: T.Id, m: T.Msg, n: int)
    requires T.PlaceEnabled(p, T.Create(i, m, n))
    ensures T.Moved(p, T.Create(i, m, n)) == p.(hands := p.hands[m := i])
  {
  }

  lemma CarriesCopied(s: State, payload: Ref, msg: Message, k: Ledger, origin: map<Ref, Ref>)
    requires Carries(s, payload, msg, k, origin)
    ensures Copied(s.objects, ReachedFrom(s, {payload}), msg.objects, origin, payload, msg.payload)
  {
  }

  lemma CarriesSealed(s: State, payload: Ref, msg: Message, k: Ledger, origin: map<Ref, Ref>)
    requires Carries(s, payload, msg, k, origin)
    ensures Sealed(msg, k)
  {
  }

  lemma AllocateApplied(s: T.State, i: T.Id, n: int)
    requires T.Inv(s) && i in s.places.live
    ensures T.Enabled(s, T.Allocate(i, n)) && T.Moved(s.places, T.Allocate(i, n)) == s.places && i in s.counts
    ensures T.Apply(s, T.Allocate(i, n)) == s.(counts := s.counts[i := s.counts[i] + n], objects := s.objects + n)
  {
    hide T.Once, T.Sum;
  }
}
