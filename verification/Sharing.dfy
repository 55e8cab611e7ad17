/**
  Which objects a deep copy copies once: plain objects and strings, which are
  recorded before anything they lead to is copied, and everything else that
  lies on no cycle.
 */
module Sharing {
  import opened ObjectGraph
  import opened CopyTables

  /** Plain objects and strings: recorded as soon as their copy exists, hence copied once. */
  predicate Single(x: Obj) {
    x.cls.kind != Interface && (x.cls.hook == NoHook || x.cls.hook == StringHook)
  }

  ghost predicate Leads(x: Obj, o: Ref) {
    x.impl == o || exists k :: 0 <= k < |x.slots| && Target(x.slots[k]) == o
  }

  // ------------------------------------------------------------------ cycles

  ghost predicate Hop(source: map<Ref, Obj>, a: Ref, b: Ref) {
    a in source && b != NULL && Leads(source[a], b)
  }

  ghost predicate Walk(source: map<Ref, Obj>, path: seq<Ref>) {
    |path| >= 2 && forall i :: 0 <= i < |path| - 1 ==> Hop(source, path[i], path[i + 1])
  }

  /** A path of one reference or more leads from `a` to `b`. */
  ghost predicate Before(source: map<Ref, Obj>, a: Ref, b: Ref) {
    exists path: seq<Ref> :: Walk(source, path) && path[0] == a && path[|path| - 1] == b
  }

  ghost predicate OnCycle(source: map<Ref, Obj>, o: Ref) {
    Before(source, o, o)
  }

  ghost predicate CopiedOnce(source: map<Ref, Obj>, o: Ref) {
    o in source && (Single(source[o]) || !OnCycle(source, o))
  }

  lemma HopIsBefore(source: map<Ref, Obj>, a: Ref, b: Ref)
    requires Hop(source, a, b)
    ensures Before(source, a, b)
  {
    assert Walk(source, [a, b]);
  }

  lemma BeforeNext(source: map<Ref, Obj>, a: Ref, b: Ref, c: Ref)
    requires Before(source, a, b) && Hop(source, b, c)
    ensures Before(source, a, c)
  {
    var path: seq<Ref> :| Walk(source, path) && path[0] == a && path[|path| - 1] == b;
    var longer := path + [c];
    forall i | 0 <= i < |longer| - 1 ensures Hop(source, longer[i], longer[i + 1]) {
      assert longer[i] == path[i] && (i + 1 < |path| ==> longer[i + 1] == path[i + 1]);
    }
    assert Walk(source, longer);
  }

  // -------------------------------------------------------- what is under way

  /** Everything on the stack leads to `src`. */
  ghost predicate Beneath(source: map<Ref, Obj>, stack: set<Ref>, src: Ref) {
    forall s :: s in stack ==> Before(source, s, src)
  }

  lemma BeneathChild(source: map<Ref, Obj>, stack: set<Ref>, src: Ref, child: Ref)
    requires Beneath(source, stack, src) && Hop(source, src, child)
    ensures Beneath(source, stack + {src}, child)
  {
    HopIsBefore(source, src, child);
    forall s | s in stack ensures Before(source, s, child) {
      BeforeNext(source, s, src, child);
    }
  }

  ghost predicate Covered(pairs: set<Pair>, o: Ref) {
    exists p :: p in pairs && p.src == o
  }

  /** The sources of copies under construction are on the stack. */
  ghost predicate Opened(origin: map<Ref, Ref>, open: set<Ref>, stack: set<Ref>) {
    forall d :: d in open ==> d in origin && origin[d] in stack
  }

  /**
    `stack` holds the sources that are being copied. A complete copy has been
    recorded, and is not of one of these; two copies of an object mean that it
    lies on a cycle.
   */
  ghost predicate Unrepeated(
      source: map<Ref, Obj>, origin: map<Ref, Ref>, pairs: set<Pair>, open: set<Ref>, stack: set<Ref>) {
    && open <= origin.Keys && Opened(origin, open, stack)
    && (forall d :: d in origin && d !in open ==> Covered(pairs, origin[d]))
    && (forall d :: d in origin && d !in open && origin[d] in stack ==> OnCycle(source, origin[d]))
    && (forall d, e :: d in origin && e in origin && origin[d] == origin[e] ==> d == e || OnCycle(source, origin[d]))
  }

  /** The copying of `src` begins. */
  lemma UnrepeatedDeeper(
      source: map<Ref, Obj>, origin: map<Ref, Ref>, pairs: set<Pair>, open: set<Ref>, stack: set<Ref>, src: Ref)
    requires Unrepeated(source, origin, pairs, open, stack) && !Covered(pairs, src)
    ensures Unrepeated(source, origin, pairs, open, stack + {src})
  {
    hide Covered, OnCycle;
  }

  /** A copy of `src` is under construction: it is the first, unless there is a way back to `src`. */
  lemma UnrepeatedNew(
      source: map<Ref, Obj>, origin: map<Ref, Ref>, pairs: set<Pair>, open: set<Ref>, stack: set<Ref>, src: Ref, d: Ref)
    requires Unrepeated(source, origin, pairs, open, stack + {src}) && Opened(origin, open, stack)
    requires Beneath(source, stack, src) && d !in origin
    ensures Unrepeated(source, origin[d := src], pairs, open + {d}, stack + {src})
  {
    hide Covered, Before;
  }

  lemma UnrepeatedMore(
      source: map<Ref, Obj>, origin: map<Ref, Ref>, pairs: set<Pair>, more: set<Pair>, open: set<Ref>, stack: set<Ref>)
    requires Unrepeated(source, origin, pairs, open, stack) && pairs <= more
    ensures Unrepeated(source, origin, more, open, stack)
  {
    forall d | d in origin && d !in open ensures Covered(more, origin[d]) {
      assert Covered(pairs, origin[d]);
    }
    hide Covered, OnCycle;
  }

  /** And it is complete and recorded. */
  lemma UnrepeatedClose(
      source: map<Ref, Obj>, origin: map<Ref, Ref>, pairs: set<Pair>, open: set<Ref>, stack: set<Ref>, src: Ref, d: Ref)
    requires Unrepeated(source, origin, pairs, open + {d}, stack + {src}) && Opened(origin, open, stack)
    requires d in origin && origin[d] == src && Covered(pairs, src) && Beneath(source, stack, src)
    ensures Unrepeated(source, origin, pairs, open, stack)
  {
    hide Covered, Before;
  }
}
