/**
  Open addressing with linear probing, shared by the collector's object index
  and the message copier's table. A table is seen as the sequence of its keys,
  with `NULL` for an empty slot; `home` is any hash into the table.
 */
module Probing {
  import opened ObjectGraph

  function Next(slot: nat, size: nat): nat {
    if slot + 1 == size then 0 else slot + 1
  }

  /** Slot `s` lies on the probe path that leads from `h` to `t`, `t` excluded. */
  predicate InRun(h: nat, s: nat, t: nat) {
    if h <= t then h <= s < t else s >= h || s < t
  }

  /** No empty slot interrupts the probe path of the key in slot `t`. */
  ghost predicate Reachable(keys: seq<Ref>, home: Ref -> nat, t: nat)
    requires t < |keys|
  {
    forall s: nat :: s < |keys| && InRun(home(keys[t]), s, t) ==> keys[s] != NULL
  }

  ghost predicate Indexed(keys: seq<Ref>, home: Ref -> nat) {
    && (forall p :: home(p) < |keys|)
    && (forall t: nat :: t < |keys| && keys[t] != NULL ==> Reachable(keys, home, t))
  }

  /** The probe for `p` has passed every slot before `slot` without meeting `p` or an empty slot. */
  ghost predicate Passed(keys: seq<Ref>, h: nat, p: Ref, slot: nat) {
    forall s: nat :: s < |keys| && InRun(h, s, slot) ==> keys[s] != NULL && keys[s] != p
  }

  ghost function Occupied(keys: seq<Ref>): set<nat> {
    set t: nat | t < |keys| && keys[t] != NULL
  }

  /** Steps left before a probe at `slot` reaches the slot `goal`. */
  function Distance(slot: nat, goal: nat, size: nat): int {
    if slot <= goal then goal - slot else goal + size - slot
  }

  /** A table that is not full has an empty slot. */
  lemma HasEmpty(keys: seq<Ref>)
    requires |Occupied(keys)| < |keys|
    ensures exists e: nat :: e < |keys| && keys[e] == NULL
  {
    assert (forall e: nat :: e < |keys| ==> keys[e] != NULL) ==> Occupied(keys) == Below(|keys|);
  }

  function Below(n: nat): (s: set<nat>)
    ensures |s| == n && forall i: nat :: i in s <==> i < n
  {
    if n == 0 then {} else Below(n - 1) + {n - 1}
  }

  /** Distinct indices below `n` number at most `n`. */
  lemma DistinctBelow(q: seq<nat>, n: nat)
    requires forall i, j :: 0 <= i < j < |q| ==> q[i] != q[j]
    requires forall i :: 0 <= i < |q| ==> q[i] < n
    ensures |q| <= n
  {
    DistinctWithin(q, Below(n));
  }

  lemma DistinctWithin(q: seq<nat>, all: set<nat>)
    requires forall i, j :: 0 <= i < j < |q| ==> q[i] != q[j]
    requires forall i :: 0 <= i < |q| ==> q[i] in all
    ensures |q| <= |all|
  {
    if q != [] {
      DistinctWithin(q[1..], all - {q[0]});
    }
  }

  /** One step of a probe past an occupied slot: it comes nearer to any empty slot. */
  lemma ProbeStep(keys: seq<Ref>, h: nat, p: Ref, slot: nat, empty: nat)
    requires h < |keys| && slot < |keys| && empty < |keys|
    requires Passed(keys, h, p, slot) && keys[slot] != NULL && keys[slot] != p && keys[empty] == NULL
    ensures Passed(keys, h, p, Next(slot, |keys|))
    ensures 0 <= Distance(Next(slot, |keys|), empty, |keys|) < Distance(slot, empty, |keys|)
  {
    var next := Next(slot, |keys|);
    assert next == h ==> InRun(h, empty, slot) || empty == slot;
    forall s: nat | s < |keys| && InRun(h, s, next) ensures keys[s] != NULL && keys[s] != p {
      assert InRun(h, s, slot) || s == slot;
    }
  }

  /** A probe that ends at an empty slot has proved the key absent. */
  lemma ProbeEnd(keys: seq<Ref>, home: Ref -> nat, p: Ref, slot: nat)
    requires Indexed(keys, home) && slot < |keys| && p != NULL
    requires Passed(keys, home(p), p, slot) && keys[slot] == NULL
    ensures p !in keys
  {
    forall t: nat | t < |keys| && keys[t] != NULL ensures keys[t] != p {
      assert Reachable(keys, home, t);
      assert t != slot ==> InRun(home(p), slot, t) || InRun(home(p), t, slot);
    }
  }

  lemma PassedAny(keys: seq<Ref>, h: nat, p: Ref, slot: nat)
    requires Passed(keys, h, p, slot)
    ensures Passed(keys, h, NULL, slot)
  {
  }

  /** The home slot of each key in a table of the given size. */
  function Home(hash: Ref -> nat, size: nat): Ref -> nat {
    (p: Ref) => if size == 0 then 0 else hash(p) % size
  }

  /** Storing a key at the first empty slot of its probe path keeps every key reachable. */
  lemma ProbeInsert(keys: seq<Ref>, home: Ref -> nat, p: Ref, slot: nat)
    requires Indexed(keys, home) && slot < |keys| && p != NULL
    requires Passed(keys, home(p), NULL, slot) && keys[slot] == NULL
    ensures Indexed(keys[slot := p], home)
    ensures |Occupied(keys[slot := p])| == |Occupied(keys)| + 1
  {
    var after := keys[slot := p];
    forall t: nat | t < |after| && after[t] != NULL ensures Reachable(after, home, t) {
      if t != slot {
        assert Reachable(keys, home, t);
      }
    }
    assert Occupied(after) == Occupied(keys) + {slot};
  }
}
