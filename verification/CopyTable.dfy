/** The message copier's table from source objects to their copies. */
module CopyTables {
  import opened ObjectGraph
  import opened Probing

  datatype Pair = Pair(src: Ref, dst: Ref)

  ghost function KeysOf(tab: seq<Pair>): seq<Ref> {
    seq(|tab|, t requires 0 <= t < |tab| => tab[t].src)
  }

  /** The pairs a table holds. */
  ghost function Recorded(tab: seq<Pair>): set<Pair> {
    set t: nat | t < |tab| && tab[t].src != NULL :: tab[t]
  }

  lemma RecordedStore(tab: seq<Pair>, slot: nat, p: Pair)
    requires slot < |tab| && tab[slot].src == NULL && p.src != NULL
    ensures Recorded(tab[slot := p]) == Recorded(tab) + {p}
    ensures KeysOf(tab[slot := p]) == KeysOf(tab)[slot := p.src]
  {
    var after := tab[slot := p];
    forall q | q in Recorded(tab) ensures q in Recorded(after) {
      var t: nat :| t < |tab| && tab[t].src != NULL && tab[t] == q;
      assert after[t] == q;
    }
    assert after[slot] == p;
  }

  lemma RecordedNext(tab: seq<Pair>, i: nat)
    requires i < |tab|
    ensures Recorded(tab[..i + 1]) == Recorded(tab[..i]) + if tab[i].src == NULL then {} else {tab[i]}
    ensures |Occupied(KeysOf(tab[..i + 1]))| == |Occupied(KeysOf(tab[..i]))| + if tab[i].src == NULL then 0 else 1
  {
    var a, b := tab[..i], tab[..i + 1];
    forall q | q in Recorded(b) ensures q in Recorded(a) || (tab[i].src != NULL && q == tab[i]) {
      var t: nat :| t < |b| && b[t].src != NULL && b[t] == q;
      assert t < i ==> a[t] == q;
    }
    forall q | q in Recorded(a) ensures q in Recorded(b) {
      var t: nat :| t < |a| && a[t].src != NULL && a[t] == q;
      assert b[t] == q;
    }
    assert tab[i].src != NULL ==> b[i] in Recorded(b);
    if tab[i].src == NULL {
      assert Occupied(KeysOf(b)) == Occupied(KeysOf(a));
    } else {
      assert Occupied(KeysOf(b)) == Occupied(KeysOf(a)) + {i};
    }
  }

  lemma EmptyTable(tab: seq<Pair>, hash: Ref -> nat)
    requires |tab| > 0 && forall t :: 0 <= t < |tab| ==> tab[t].src == NULL
    ensures Recorded(tab) == {} && Occupied(KeysOf(tab)) == {} && Indexed(KeysOf(tab), Home(hash, |tab|))
  {
  }

  /** Stores a pair in the first empty slot of its probe path. */
  method InsertRaw(tab: array<Pair>, hash: Ref -> nat, src: Ref, dst: Ref)
    requires src != NULL && tab.Length > 0
    requires Indexed(KeysOf(tab[..]), Home(hash, tab.Length)) && |Occupied(KeysOf(tab[..]))| < tab.Length
    modifies tab
    ensures Indexed(KeysOf(tab[..]), Home(hash, tab.Length))
    ensures |Occupied(KeysOf(tab[..]))| == |Occupied(KeysOf(old(tab[..])))| + 1
    ensures Recorded(tab[..]) == Recorded(old(tab[..])) + {Pair(src, dst)}
  {
    hide Indexed, Recorded, Occupied;
    ghost var before := tab[..];
    ghost var keys, home := KeysOf(before), Home(hash, tab.Length);
    HasEmpty(keys);
    ghost var empty: nat :| empty < |keys| && keys[empty] == NULL;
    var slot: nat := hash(src) % tab.Length;
    while tab[slot].src != NULL
      invariant tab[..] == before && slot < tab.Length && Passed(keys, home(src), NULL, slot)
      decreases Distance(slot, empty, |keys|)
    {
      assert keys[slot] == tab[..][slot].src;
      ProbeStep(keys, home(src), NULL, slot, empty);
      slot := Next(slot, tab.Length);
    }
    assert keys[slot] == tab[..][slot].src;
    ProbeInsert(keys, home, src, slot);
    RecordedStore(tab[..], slot, Pair(src, dst));
    tab[slot] := Pair(src, dst);
    assert tab[..] == old(tab[..])[slot := Pair(src, dst)];
  }

  class CopyTable {
    const hash: Ref -> nat
    var tab: array<Pair>
    var count: nat

    ghost predicate Valid()
      reads this, tab
    {
      && (tab.Length == 0 ==> count == 0)
      && (tab.Length > 0 ==>
            && tab.Length >= 64 && 2 * count <= tab.Length
            && Indexed(KeysOf(tab[..]), Home(hash, tab.Length)) && |Occupied(KeysOf(tab[..]))| == count)
      && (forall p :: p in Recorded(tab[..]) ==> p.dst != NULL)
    }

    ghost function Pairs(): set<Pair>
      reads this, tab
    {
      Recorded(tab[..])
    }

    constructor (hash: Ref -> nat)
      ensures Valid() && Pairs() == {} && fresh(tab)
    {
      this.hash := hash;
      tab := new Pair[0];
      count := 0;
    }

    /** The copy recorded for `src`, or `NULL` if there is none. */
    method Lookup(src: Ref) returns (dst: Ref)
      requires Valid() && src != NULL
      ensures dst != NULL ==> Pair(src, dst) in Pairs()
      ensures dst == NULL ==> forall p :: p in Pairs() ==> p.src != src
    {
      hide Indexed, Occupied;
      if tab.Length == 0 {
        return NULL;
      }
      ghost var keys, home := KeysOf(tab[..]), Home(hash, tab.Length);
      HasEmpty(keys);
      ghost var empty: nat :| empty < |keys| && keys[empty] == NULL;
      var slot: nat := hash(src) % tab.Length;
      while tab[slot].src != NULL && tab[slot].src != src
        invariant slot < tab.Length && Passed(keys, home(src), src, slot)
        decreases Distance(slot, empty, |keys|)
      {
        ProbeStep(keys, home(src), src, slot, empty);
        slot := Next(slot, tab.Length);
      }
      if tab[slot].src == src {
        assert tab[..][slot] in Recorded(tab[..]);
        return tab[slot].dst;
      }
      ProbeEnd(keys, home, src, slot);
      forall p | p in Pairs() ensures p.src != src {
        var t: nat :| t < tab.Length && tab[..][t] == p;
        assert keys[t] == p.src;
      }
      return NULL;
    }

    /** Records a pair; the table doubles, rehashing every pair, before it is more than half full. */
    method Record(src: Ref, dst: Ref, memory: bool) returns (ok: bool)
      requires Valid() && src != NULL && dst != NULL
      modifies this, tab
      ensures Valid() && (tab == old(tab) || fresh(tab))
      ensures ok <==> memory || 2 * (old(count) + 1) <= old(tab.Length)
      ensures Pairs() == old(Pairs()) + if ok then {Pair(src, dst)} else {}
    {
      hide Indexed, Recorded, Occupied;
      if tab.Length == 0 || 2 * (count + 1) > tab.Length {
        if !memory {
          return false;
        }
        Grow();
      }
      InsertRaw(tab, hash, src, dst);
      count := count + 1;
      return true;
    }

    method Grow()
      requires Valid()
      modifies this`tab
      ensures Valid() && fresh(tab) && Pairs() == old(Pairs()) && count == old(count)
      ensures tab.Length > 0 && 2 * (count + 1) <= tab.Length
    {
      hide Indexed, Recorded, Occupied;
      var size := if tab.Length == 0 then 64 else tab.Length * 2;
      var bigger := new Pair[size](_ => Pair(NULL, NULL));
      EmptyTable(bigger[..], hash);
      RecordedNothing();
      var i := 0;
      ghost var before := tab[..];
      assert before[..0] == [];
      while i < tab.Length
        invariant i <= tab.Length && tab[..] == before && fresh(bigger) && bigger.Length == size
        invariant Indexed(KeysOf(bigger[..]), Home(hash, size))
        invariant |Occupied(KeysOf(bigger[..]))| == |Occupied(KeysOf(before[..i]))| <= i
        invariant Recorded(bigger[..]) == Recorded(before[..i])
      {
        RecordedNext(before, i);
        if tab[i].src != NULL {
          InsertRaw(bigger, hash, tab[i].src, tab[i].dst);
          assert before[i] == Pair(tab[i].src, tab[i].dst);
        }
        i := i + 1;
      }
      assert before[..i] == before;
      tab := bigger;
    }
  }

  lemma RecordedNothing()
    ensures Recorded([]) == {} && Occupied(KeysOf([])) == {}
  {
  }
}
