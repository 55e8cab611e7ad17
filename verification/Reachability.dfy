/**
  Reachability over the owning references of a heap, what the collector may
  call garbage, and how the two relate to the objects a release removes.
 */
module Reachability {
  import opened ObjectGraph

  /** Following an owning reference never leaves `r`. */
  ghost predicate Inductive(s: State, r: set<Ref>) {
    forall w: Ref, o: Ref :: w in r && Owns(s, w, o) && o in s.objects ==> o in r
  }

  /** The least set containing `seeds` that owning references do not leave. */
  ghost function ReachedFrom(s: State, seeds: set<Ref>): set<Ref> {
    set o | o in s.objects && forall r: set<Ref> :: seeds <= r && Inductive(s, r) ==> o in r
  }

  /** Objects with an owner outside the heap. */
  ghost function Anchors(s: State): set<Ref> {
    set o | o in s.objects && (o in s.props || o in s.locals)
  }

  /** Objects whose native finalizer the collector knows nothing about. */
  ghost function Finalizers(s: State): set<Ref> {
    set o | o in s.objects && !s.objects[o].pending && s.objects[o].cls.hook == OtherHook
  }

  /** Live objects that neither an outside owner nor a native finalizer reaches. */
  ghost function Garbage(s: State): set<Ref> {
    Active(s.objects) - ReachedFrom(s, Anchors(s) + Finalizers(s))
  }

  lemma ReachedIsInductive(s: State, seeds: set<Ref>)
    requires seeds <= s.objects.Keys
    ensures seeds <= ReachedFrom(s, seeds) && Inductive(s, ReachedFrom(s, seeds))
  {
  }

  lemma ReachedIsLeast(s: State, seeds: set<Ref>, r: set<Ref>)
    requires seeds <= r && Inductive(s, r)
    ensures ReachedFrom(s, seeds) <= r
  {
  }

  /** A reached object is a seed or is owned by a reached object. */
  lemma ReachedHasReason(s: State, seeds: set<Ref>, o: Ref)
    requires seeds <= s.objects.Keys && o in ReachedFrom(s, seeds) && o !in seeds
    ensures exists w :: w in ReachedFrom(s, seeds) && Owns(s, w, o)
  {
    var r := ReachedFrom(s, seeds);
    ReachedIsInductive(s, seeds);
    if forall w :: w in r ==> !Owns(s, w, o) {
      var smaller := r - {o};
      assert Inductive(s, smaller);
      ReachedIsLeast(s, seeds, smaller);
    }
  }

  // ------------------------------------------------------------------ paths

  /** A path of owning references, from its first object to its last. */
  ghost predicate Path(s: State, path: seq<Ref>) {
    && path != []
    && (forall i :: 0 <= i < |path| ==> path[i] in s.objects)
    && (forall i :: 0 <= i < |path| - 1 ==> Owns(s, path[i], path[i + 1]))
  }

  ghost predicate HasPath(s: State, seeds: set<Ref>, o: Ref) {
    exists path :: Path(s, path) && path[0] in seeds && path[|path| - 1] == o
  }

  /** The least-set definition of reachability is reachability by paths. */
  lemma ReachedIffPath(s: State, seeds: set<Ref>, o: Ref)
    requires seeds <= s.objects.Keys
    ensures o in ReachedFrom(s, seeds) <==> HasPath(s, seeds, o)
  {
    var r := set x | x in s.objects && HasPath(s, seeds, x);
    forall x | x in seeds ensures x in r {
      assert Path(s, [x]);
    }
    forall w: Ref, x: Ref | w in r && Owns(s, w, x) && x in s.objects ensures x in r {
      var path :| Path(s, path) && path[0] in seeds && path[|path| - 1] == w;
      assert Path(s, path + [x]);
    }
    ReachedIsLeast(s, seeds, r);
    if HasPath(s, seeds, o) {
      var path :| Path(s, path) && path[0] in seeds && path[|path| - 1] == o;
      PathStaysReached(s, seeds, path);
    }
  }

  lemma {:induction false} PathStaysReached(s: State, seeds: set<Ref>, path: seq<Ref>)
    requires seeds <= s.objects.Keys && Path(s, path) && path[0] in seeds
    ensures path[|path| - 1] in ReachedFrom(s, seeds)
  {
    ReachedIsInductive(s, seeds);
    if |path| > 1 {
      var front := path[..|path| - 1];
      PathStaysReached(s, seeds, front);
      assert Owns(s, path[|path| - 2], path[|path| - 1]);
    }
  }

  // ------------------------------------------- what a collection takes along

  /** Nothing an outside owner reaches is released with the garbage. */
  lemma AnchoredSurvives(s: State, o: Ref)
    requires o in ReachedFrom(s, Anchors(s))
    ensures o !in DoomedWith(s, Garbage(s))
  {
    var kept := ReachedFrom(s, Anchors(s));
    var d := Active(s.objects) - kept;
    ReachedIsInductive(s, Anchors(s));
    forall x | x in s.objects && !s.objects[x].pending && x !in d ensures Supported(s, d, x) {
      if x !in Anchors(s) {
        ReachedHasReason(s, Anchors(s), x);
      }
    }
    MoreSeeds(s);
    DoomedIsLeast(s, Garbage(s), d);
  }

  lemma MoreSeeds(s: State)
    ensures ReachedFrom(s, Anchors(s)) <= ReachedFrom(s, Anchors(s) + Finalizers(s))
  {
    ReachedIsInductive(s, Anchors(s) + Finalizers(s));
    ReachedIsLeast(s, Anchors(s), ReachedFrom(s, Anchors(s) + Finalizers(s)));
  }

  /**
    A collection releases the garbage and nothing more exactly when every
    object with a native finalizer has an owner that is not itself garbage.
   */
  lemma ReleasesOnlyGarbage(s: State)
    ensures DoomedWith(s, Garbage(s)) == Garbage(s)
      <==> forall f :: f in Finalizers(s) ==> Supported(s, Garbage(s), f)
  {
    var g, seeds := Garbage(s), Anchors(s) + Finalizers(s);
    DoomedIsReleasable(s, g);
    ReachedIsInductive(s, seeds);
    assert forall f :: f in Finalizers(s) ==> f !in g;
    if forall f :: f in Finalizers(s) ==> Supported(s, g, f) {
      forall x | x in s.objects && !s.objects[x].pending && x !in g ensures Supported(s, g, x) {
        if x !in seeds {
          ReachedHasReason(s, seeds, x);
        }
      }
      DoomedIsLeast(s, g, g);
    }
  }

  /** Without native finalizers a collection leaves exactly what the outside owners reach. */
  lemma KeepsExactlyReached(s: State, n: map<Ref, Obj>)
    requires Finalizers(s) == {} && Released(s, Garbage(s), n)
    ensures Active(n) == Active(s.objects) * ReachedFrom(s, Anchors(s))
  {
    ReleasesOnlyGarbage(s);
    assert Anchors(s) + Finalizers(s) == Anchors(s);
  }

  // ------------------------------------------------ in terms of owners alone

  /** Owned from outside the heap, or by an object of `k`. */
  ghost predicate OwnedWithin(s: State, k: set<Ref>, o: Ref) {
    o in s.props || o in s.locals || exists w :: w in k && Owns(s, w, o)
  }

  /**
    A release keeps the greatest set of live objects that needs nothing outside
    itself: every survivor has an outside owner or an owner that survives, and
    every set of objects of which that is true survives.
   */
  lemma ReleaseKeepsTheOwned(s: State, seed: set<Ref>, n: map<Ref, Obj>, k: set<Ref>)
    requires Released(s, seed, n) && seed <= Active(s.objects)
    ensures forall o :: o in n && !s.objects[o].pending ==> o !in seed && OwnedWithin(s, n.Keys, o)
    ensures k <= Active(s.objects) - seed && (forall o :: o in k ==> OwnedWithin(s, k, o)) ==> k <= n.Keys
  {
    DoomedIsReleasable(s, seed);
    forall o | o in n && !s.objects[o].pending ensures OwnedWithin(s, n.Keys, o) {
      assert Supported(s, DoomedWith(s, seed), o);
      if w :| w !in DoomedWith(s, seed) && Owns(s, w, o) {
        assert w in n;
      }
    }
    if k <= Active(s.objects) - seed && forall o :: o in k ==> OwnedWithin(s, k, o) {
      var d := Active(s.objects) - k;
      forall o | o in s.objects && !s.objects[o].pending && o !in d ensures Supported(s, d, o) {
        assert OwnedWithin(s, k, o);
      }
      DoomedIsLeast(s, seed, d);
    }
  }

  /** Survivors keep everything but their counts and list links. */
  lemma SurvivorsAreUnchanged(s: State, seed: set<Ref>, n: map<Ref, Obj>, o: Ref)
    requires Released(s, seed, n) && o in n
    ensures o in s.objects
    ensures var x := s.objects[o];
      && n[o].cls == x.cls && n[o].slots == x.slots && n[o].impl == x.impl && n[o].data == x.data
      && n[o].pending == x.pending && n[o].immortal == x.immortal
  {
  }

  /**
    The garbage in terms of paths: the live objects to which none leads from an
    outside owner, nor from an object with a native finalizer other than those
    of arrays and strings.
   */
  lemma GarbageIffNoPath(s: State, o: Ref)
    requires o in s.objects && !s.objects[o].pending
    ensures o in Garbage(s) <==>
      forall path :: Path(s, path) && path[|path| - 1] == o ==>
        && path[0] !in s.props && path[0] !in s.locals
        && s.objects[path[0]].cls.hook in {NoHook, ArrayHook, StringHook}
  {
    var seeds := Anchors(s) + Finalizers(s);
    ReachedIffPath(s, seeds, o);
    if HasPath(s, seeds, o) {
      var path :| Path(s, path) && path[0] in seeds && path[|path| - 1] == o;
      assert path[0] in s.props || path[0] in s.locals || s.objects[path[0]].cls.hook == OtherHook;
    } else {
      forall path | Path(s, path) && path[|path| - 1] == o
        ensures path[0] !in s.props && path[0] !in s.locals
        ensures s.objects[path[0]].cls.hook in {NoHook, ArrayHook, StringHook}
      {
        StartNotPending(s, path);
        assert path[0] !in seeds;
      }
    }
  }

  /** Only its last object can be pending. */
  lemma StartNotPending(s: State, path: seq<Ref>)
    requires Path(s, path) && !s.objects[path[|path| - 1]].pending
    ensures !s.objects[path[0]].pending
  {
    if |path| > 1 {
      assert Owns(s, path[0], path[1]);
    }
  }

  /**
    A collection frees every live object to which no path of owning references
    leads from an outside owner, or from an object with a native finalizer that
    is neither an array's nor a string's: cycles of plain objects, arrays,
    strings and wrappers are no reason to stay.
   */
  lemma UnreachedIsCollected(s: State, n: map<Ref, Obj>, o: Ref)
    requires Released(s, Garbage(s), n) && o in s.objects && !s.objects[o].pending
    requires forall path :: Path(s, path) && path[|path| - 1] == o ==>
      && path[0] !in s.props && path[0] !in s.locals
      && s.objects[path[0]].cls.hook in {NoHook, ArrayHook, StringHook}
    ensures o !in n
  {
    GarbageIffNoPath(s, o);
    DoomedIsReleasable(s, Garbage(s));
  }

  /** And keeps, with its contents, every object to which one leads from an outside owner. */
  lemma ReachedIsKept(s: State, n: map<Ref, Obj>, path: seq<Ref>)
    requires Released(s, Garbage(s), n) && Path(s, path) && (path[0] in s.props || path[0] in s.locals)
    ensures path[|path| - 1] in n && n[path[|path| - 1]].slots == s.objects[path[|path| - 1]].slots
    ensures n[path[|path| - 1]].data == s.objects[path[|path| - 1]].data
  {
    assert path[0] in Anchors(s);
    PathStaysReached(s, Anchors(s), path);
    AnchoredSurvives(s, path[|path| - 1]);
  }

  // --------------------------------------------- a finalizer taken along

  /** Object 1 owns itself and object 2; object 2 has a native finalizer. */
  function FinalizerHeap(): State {
    var plain := Obj(Cls(Class, NoHook, 2, true), [Object(1), Object(2)], NULL, [], 0, 1, false, false, NULL, 2);
    var native := Obj(Cls(Class, OtherHook, 0, false), [], NULL, [], 0, 1, false, false, 1, NULL);
    State(map[1 := plain, 2 := native], multiset{}, multiset{}, {})
  }

  lemma FinalizerHeapBalanced()
    ensures Balanced(FinalizerHeap(), NULL)
  {
    var s := FinalizerHeap();
    FinalizerHeapOwners();
    FinalizerHeapClosed();
    assert s.objects.Keys == {1, 2};
    hide SlotOwners, WrapOwners, Closed;
    assert Exact(s, 1) && Exact(s, 2);
  }

  lemma FinalizerHeapOwners()
    ensures var s := FinalizerHeap();
      && SlotOwners(s, 1) == {(1, 0)} && SlotOwners(s, 2) == {(1, 1)}
      && WrapOwners(s, 1) == {} && WrapOwners(s, 2) == {}
  {
    assert FinalizerHeap().objects.Keys == {1, 2};
  }

  lemma FinalizerHeapClosed()
    ensures Closed(FinalizerHeap())
  {
    assert FinalizerHeap().objects.Keys == {1, 2};
  }

  /** The finalizer object is never garbage, yet the collection releases it: its only owner is. */
  lemma FinalizerIsTakenAlong()
    ensures Balanced(FinalizerHeap(), NULL)
    ensures Garbage(FinalizerHeap()) == {1}
    ensures DoomedWith(FinalizerHeap(), {1}) == {1, 2}
  {
    FinalizerHeapBalanced();
    var s := FinalizerHeap();
    hide Balanced;
    assert SlotEdge(s, 1, 0, 1) && SlotEdge(s, 1, 1, 2);
    forall w: Ref, o: Ref | Owns(s, w, o) && o in s.objects ensures w == 1 {
    }
    assert Anchors(s) == {} && Finalizers(s) == {2};
    ReachedIsLeast(s, {2}, {2});
    ReachedIsInductive(s, {2});
    assert Active(s.objects) == {1, 2};
    assert Releasable(s, {1, 2});
    forall d: set<Ref> | {1} <= d && Releasable(s, d) ensures 2 in d {
      assert 2 !in d ==> Supported(s, d, 2);
    }
  }
}
