/**
  The cycle collector's reachability index: a node per object, a hash table
  from objects to nodes, and the queue of nodes found live.
 */
module CycleGraphs {
  import opened ObjectGraph
  import opened Probing

  datatype Node = Node(ref: Ref, references: int, internal: int, live: bool)

  // -------------------------------------------------- workspace arithmetic

  /** Bytes of a node record of four machine words. */
  function NodeBytes(word: nat): nat { 4 * word }

  /** The guard that rejects a collection too large to size: its eightfold node array must fit. */
  predicate Sizable(count: nat, word: nat, sizeMax: nat): (fits: bool)
    requires word > 0
    ensures fits <==> count * 32 * word <= sizeMax
  {
    QuotientBound(count, 8 * NodeBytes(word), sizeMax);
    count <= sizeMax / (8 * NodeBytes(word))
  }

  lemma QuotientBound(count: nat, d: nat, limit: nat)
    requires d > 0
    ensures count <= limit / d <==> count * d <= limit
  {
    var q := limit / d;
    assert q * d <= limit < q * d + d;
    if count <= q {
      Times(count, q, d);
    } else {
      Times(q + 1, count, d);
    }
  }

  lemma Times(a: nat, b: nat, d: nat)
    requires a <= b
    ensures a * d <= b * d
  {
  }

  /** Doubling from 16 until twice the node count fits. */
  function TableSize(count: nat, size: nat): (r: nat)
    requires size > 0
    ensures r >= 2 * count && r >= size
    ensures r == size || r < 4 * count
    decreases 2 * count - size
  {
    if size < count * 2 then TableSize(count, size * 2) else size
  }

  /** No step of the workspace computation leaves the range of an address-sized integer. */
  lemma WorkspaceFits(count: nat, word: nat, sizeMax: nat)
    requires word >= 4 && sizeMax >= 0xffff_ffff && count * 32 * word <= sizeMax
    requires word == 4 || (word == 8 && sizeMax >= 0xffff_ffff_ffff_ffff)
    ensures 2 * TableSize(count, 16) <= sizeMax
    ensures (count + 1) * NodeBytes(word) + TableSize(count, 16) * word + (count + 1) * word <= sizeMax
  {
    assert count * (32 * word) <= sizeMax;
  }

  /** The nodes after one more internal reference to `p` has been counted. */
  ghost function Bumped(nodes: seq<Node>, members: seq<Ref>, p: Ref): seq<Node> {
    seq(|nodes|, j requires 0 <= j < |nodes| =>
      if j < |members| && members[j] == p && p != NULL then nodes[j].(internal := nodes[j].internal + 1) else nodes[j])
  }

  /** The nodes after `p` has been found live. */
  ghost function Lit(nodes: seq<Node>, members: seq<Ref>, p: Ref): seq<Node> {
    seq(|nodes|, j requires 0 <= j < |nodes| =>
      if j < |members| && members[j] == p then nodes[j].(live := true) else nodes[j])
  }

  /** Slot contents, node objects and the ghost views agree. */
  ghost predicate TableOk(nodes: seq<Node>, table: seq<nat>, members: seq<Ref>, keys: seq<Ref>) {
    && |members| <= |nodes| && |keys| == |table|
    && (forall i, j :: 0 <= i < j < |members| ==> members[i] != members[j])
    && (forall i :: 0 <= i < |members| ==> members[i] != NULL && nodes[i].ref == members[i])
    && (forall t ::
          0 <= t < |table| ==>
            if table[t] == 0 then keys[t] == NULL else table[t] <= |members| && keys[t] == members[table[t] - 1])
    && (forall i :: 0 <= i < |members| ==> members[i] in keys)
  }

  /** The queue holds exactly the live nodes, each once. */
  ghost predicate QueueOk(nodes: seq<Node>, queue: seq<nat>, count: nat, queued: nat) {
    && count <= |nodes| && queued <= |queue|
    && (forall a, b :: 0 <= a < b < queued ==> queue[a] != queue[b])
    && (forall a :: 0 <= a < queued ==> queue[a] < count && nodes[queue[a]].live)
    && (forall j: nat :: j < count && nodes[j].live ==> j in queue[..queued])
    && (forall j: nat :: count <= j < |nodes| ==> nodes[j].internal == 0 && !nodes[j].live)
  }

  /** The first `count` nodes marked where their references are not all internal. */
  ghost function Rooted(nodes: seq<Node>, count: nat): seq<Node> {
    seq(|nodes|, j requires 0 <= j < |nodes| =>
      if j < count && nodes[j].references != nodes[j].internal then nodes[j].(live := true)
      else nodes[j])
  }

  lemma RootedNone(nodes: seq<Node>)
    ensures Rooted(nodes, 0) == nodes
  {
  }

  lemma RootedNext(nodes: seq<Node>, i: nat)
    requires i < |nodes|
    ensures Rooted(nodes, i)[i] == nodes[i]
    ensures Rooted(nodes, i + 1)
      == if nodes[i].references != nodes[i].internal
         then Rooted(nodes, i)[i := nodes[i].(live := true)]
         else Rooted(nodes, i)
  {
  }

  lemma EdgeMisses(nodes: seq<Node>, members: seq<Ref>, p: Ref)
    requires p == NULL ==> forall i :: 0 <= i < |members| ==> members[i] != NULL
    requires p != NULL ==> p !in members
    ensures Bumped(nodes, members, p) == nodes == Lit(nodes, members, p)
  {
  }

  lemma EdgeHits(nodes: seq<Node>, members: seq<Ref>, p: Ref, i: nat)
    requires |members| <= |nodes| && i < |members| && members[i] == p && p != NULL
    requires forall i, j :: 0 <= i < j < |members| ==> members[i] != members[j]
    ensures Bumped(nodes, members, p) == nodes[i := nodes[i].(internal := nodes[i].internal + 1)]
    ensures Lit(nodes, members, p) == nodes[i := nodes[i].(live := true)]
    ensures nodes[i].live ==> Lit(nodes, members, p) == nodes
  {
  }

  lemma TableEntry(nodes: seq<Node>, table: seq<nat>, members: seq<Ref>, keys: seq<Ref>, slot: nat)
    requires TableOk(nodes, table, members, keys) && slot < |table| && table[slot] != 0
    ensures table[slot] <= |members| <= |nodes| && nodes[table[slot] - 1].ref == members[table[slot] - 1]
  {
  }

  lemma MembersDistinct(nodes: seq<Node>, table: seq<nat>, members: seq<Ref>, keys: seq<Ref>)
    requires TableOk(nodes, table, members, keys)
    ensures forall i, j :: 0 <= i < j < |members| ==> members[i] != members[j]
    ensures forall i :: 0 <= i < |members| ==> members[i] != NULL
  {
  }

  lemma TableFrame(nodes: seq<Node>, table: seq<nat>, members: seq<Ref>, keys: seq<Ref>, i: nat, x: Node)
    requires TableOk(nodes, table, members, keys) && i < |nodes| && x.ref == nodes[i].ref
    ensures TableOk(nodes[i := x], table, members, keys)
  {
  }

  lemma QueueFrame(nodes: seq<Node>, queue: seq<nat>, count: nat, queued: nat, i: nat, x: Node)
    requires QueueOk(nodes, queue, count, queued) && i < count && x.live == nodes[i].live
    ensures QueueOk(nodes[i := x], queue, count, queued)
  {
  }

  lemma TableAdd(
      nodes: seq<Node>, table: seq<nat>, members: seq<Ref>, keys: seq<Ref>, after: seq<Node>, p: Ref, slot: nat)
    requires TableOk(nodes, table, members, keys) && |members| < |nodes| && slot < |table| && table[slot] == 0
    requires p != NULL && p !in members
    requires |after| == |nodes| && after[|members|].ref == p
    requires forall i :: 0 <= i < |members| ==> after[i] == nodes[i]
    ensures TableOk(after, table[slot := |members| + 1], members + [p], keys[slot := p])
  {
    var k := keys[slot := p];
    forall i | 0 <= i < |members| ensures members[i] in k {
      var t :| 0 <= t < |keys| && keys[t] == members[i];
      assert k[t] == members[i];
    }
    assert k[slot] == p;
  }

  /** The next node to be filled is all zero, and filling it leaves the queue as it is. */
  lemma QueueBlank(nodes: seq<Node>, queue: seq<nat>, count: nat, p: Ref, references: int)
    requires QueueOk(nodes, queue, count, 0) && count < |nodes|
    ensures nodes[count].internal == 0 && !nodes[count].live
    ensures QueueOk(nodes[count := Node(p, references, 0, false)], queue, count + 1, 0)
  {
  }

  lemma QueueAdd(nodes: seq<Node>, queue: seq<nat>, count: nat, queued: nat, i: nat)
    requires QueueOk(nodes, queue, count, queued) && i < count && !nodes[i].live && queued < |queue|
    ensures QueueOk(nodes[i := nodes[i].(live := true)], queue[queued := i], count, queued + 1)
  {
    var n, q := nodes[i := nodes[i].(live := true)], queue[queued := i];
    assert q[..queued + 1] == queue[..queued] + [i];
    assert i !in queue[..queued];
  }

  lemma QueueFits(nodes: seq<Node>, queue: seq<nat>, count: nat, queued: nat)
    requires QueueOk(nodes, queue, count, queued)
    ensures queued <= count <= |nodes|
    ensures forall j: nat :: j < count && !nodes[j].live ==> queued < count
  {
    DistinctBelow(queue[..queued], count);
    forall j: nat | j < count && !nodes[j].live ensures queued < count {
      assert j !in queue[..queued];
      DistinctBelow(queue[..queued] + [j], count);
    }
  }

  class CycleGraph {
    const hash: Ref -> nat
    const nodes: array<Node>
    const table: array<nat>
    const queue: array<nat>
    var count: nat
    var queued: nat
    var marking: bool

    ghost var members: seq<Ref>
    ghost var keys: seq<Ref>

    ghost predicate Valid()
      reads this, nodes, table, queue
    {
      && table != queue
      && queue.Length == nodes.Length && count < nodes.Length
      && table.Length >= 2 * (nodes.Length - 1) && table.Length >= 16
      && |members| == count && |keys| == table.Length
      && TableOk(nodes[..], table[..], members, keys)
      && Indexed(keys, Home(hash, table.Length))
      && |Occupied(keys)| == count
      && QueueOk(nodes[..], queue[..], count, queued)
    }

    /** The objects found live so far. */
    ghost function Live(): set<Ref>
      reads this, nodes
      requires count <= nodes.Length && |members| == count
    {
      set j: nat | j < count && nodes[j].live :: members[j]
    }

    constructor (hash: Ref -> nat, capacity: nat)
      ensures Valid() && fresh(nodes) && fresh(table) && fresh(queue)
      ensures nodes.Length == capacity + 1 && count == 0 && queued == 0 && !marking && members == []
    {
      this.hash := hash;
      var size := TableSize(capacity, 16);
      nodes := new Node[capacity + 1](_ => Node(NULL, 0, 0, false));
      table := new nat[size](_ => 0);
      queue := new nat[capacity + 1](_ => 0);
      count, queued, marking := 0, 0, false;
      members, keys := [], seq(size, _ => NULL);
      new;
      assert Occupied(keys) == {};
    }

    lemma MembersPresent()
      requires Valid()
      ensures forall i, j :: 0 <= i < j < |members| ==> members[i] != members[j]
      ensures forall i :: 0 <= i < |members| ==> members[i] != NULL
      ensures queued <= count == |members| < queue.Length == nodes.Length
    {
      QueueFits(nodes[..], queue[..], count, queued);
    }

    lemma QueueAt(a: nat)
      requires Valid() && a < queued
      ensures a < queue.Length && queue[a] < count == |members| < nodes.Length
      ensures nodes[queue[a]].live && nodes[queue[a]].ref == members[queue[a]]
    {
    }

    lemma LiveIsQueued(j: nat)
      requires Valid() && j < count && nodes[j].live
      ensures exists a: nat :: a < queued <= queue.Length && queue[a] == j
    {
      assert j in queue[..queued];
    }

    lemma Refs()
      requires Valid()
      ensures |members| == count < nodes.Length && forall j: nat :: j < count ==> nodes[j].ref == members[j]
    {
    }

    /** Changing the recorded reference count of a node. */
    method SetReferences(i: nat, references: int)
      requires Valid() && i < count < nodes.Length
      modifies nodes
      ensures Valid() && nodes[..] == old(nodes[..])[i := old(nodes[i]).(references := references)]
    {
      hide Indexed, TableOk, QueueOk;
      QueueFits(nodes[..], queue[..], count, queued);
      TableFrame(nodes[..], table[..], members, keys, i, nodes[i].(references := references));
      QueueFrame(nodes[..], queue[..], count, queued, i, nodes[i].(references := references));
      nodes[i] := nodes[i].(references := references);
      assert nodes[..] == old(nodes[..])[i := nodes[i]];
    }

    /** Linear probing: the slot that holds `p`, or the empty slot where it belongs. */
    method Find(p: Ref) returns (slot: nat)
      requires Valid() && p != NULL
      ensures slot < table.Length
      ensures table[slot] != 0 ==> table[slot] <= |members| && members[table[slot] - 1] == p
      ensures table[slot] == 0 ==>
          && p !in members && p !in keys && |keys| == table.Length && keys[slot] == NULL
          && Passed(keys, Home(hash, table.Length)(p), p, slot)
    {
      hide Indexed, QueueOk;
      ghost var home := Home(hash, table.Length);
      slot := hash(p) % table.Length;
      HasEmpty(keys);
      ghost var empty: nat :| empty < |keys| && keys[empty] == NULL;
      while table[slot] != 0 && nodes[table[slot] - 1].ref != p
        invariant slot < table.Length && Passed(keys, home(p), p, slot)
        decreases Distance(slot, empty, |keys|)
      {
        ProbeStep(keys, home(p), p, slot, empty);
        slot := Next(slot, table.Length);
      }
      if table[slot] == 0 {
        ProbeEnd(keys, home, p, slot);
      }
    }

    method Add(p: Ref, references: int)
      requires Valid() && !marking && queued == 0 && p != NULL && p !in members && count + 1 < nodes.Length
      modifies this`count, this`members, this`keys, nodes, table
      ensures Valid() && members == old(members) + [p] && count == old(count) + 1
      ensures nodes[..] == old(nodes[..])[old(count) := Node(p, references, 0, false)]
    {
      hide Indexed, Passed, TableOk, QueueOk;
      var slot := Find(p);
      QueueBlank(nodes[..], queue[..], count, p, references);
      MembersPresent();
      nodes[count] := nodes[count].(ref := p, references := references);
      PassedAny(keys, Home(hash, table.Length)(p), p, slot);
      ProbeInsert(keys, Home(hash, table.Length), p, slot);
      assert nodes[..] == old(nodes[..])[count := Node(p, references, 0, false)];
      TableAdd(old(nodes[..]), table[..], members, keys, nodes[..], p, slot);
      count := count + 1;
      table[slot] := count;
      members := members + [p];
      keys := keys[slot := p];
    }

    method Contains(p: Ref) returns (found: bool)
      requires Valid() && p != NULL
      ensures found <==> p in members
    {
      var slot := Find(p);
      found := table[slot] != 0;
    }

    /** Marks a node live and queues it. */
    method Light(i: nat)
      requires Valid() && i < count && !nodes[i].live
      modifies this`queued, nodes, queue
      ensures Valid() && queued == old(queued) + 1 && queue[..old(queued)] == old(queue[..queued])
      ensures nodes[..] == old(nodes[..])[i := old(nodes[i]).(live := true)]
    {
      hide Indexed, TableOk, QueueOk;
      ghost var n, q := nodes[..], queue[..];
      QueueFits(n, q, count, queued);
      QueueAdd(n, q, count, queued, i);
      TableFrame(n, table[..], members, keys, i, nodes[i].(live := true));
      nodes[i] := nodes[i].(live := true);
      queue[queued] := i;
      queued := queued + 1;
      assert nodes[..] == n[i := n[i].(live := true)] && queue[..] == q[queued - 1 := i];
    }

    /** One owning reference to `p`: counted before marking starts, followed afterwards. */
    method Edge(p: Ref)
      requires Valid()
      modifies this`queued, nodes, queue
      ensures Valid() && queued >= old(queued) && queue[..old(queued)] == old(queue[..queued])
      ensures !marking ==> queued == old(queued) && nodes[..] == Bumped(old(nodes[..]), members, p)
      ensures marking ==> nodes[..] == Lit(old(nodes[..]), members, p)
    {
      hide Indexed, TableOk, QueueOk, Bumped, Lit, Passed;
      ghost var n := nodes[..];
      MembersDistinct(n, table[..], members, keys);
      if p == NULL {
        EdgeMisses(n, members, p);
        return;
      }
      var slot := Find(p);
      if table[slot] == 0 {
        EdgeMisses(n, members, p);
        return;
      }
      TableEntry(n, table[..], members, keys, slot);
      var i := table[slot] - 1;
      EdgeHits(n, members, p, i);
      if !marking {
        TableFrame(n, table[..], members, keys, i, nodes[i].(internal := nodes[i].internal + 1));
        QueueFrame(n, queue[..], count, queued, i, nodes[i].(internal := nodes[i].internal + 1));
        nodes[i] := nodes[i].(internal := nodes[i].internal + 1);
        assert nodes[..] == n[i := n[i].(internal := n[i].internal + 1)];
      } else if !nodes[i].live {
        Light(i);
      }
    }

    /** Starts marking: any node with an owner the graph does not explain is live. */
    method Roots()
      requires Valid() && queued == 0 && forall j: nat :: j < count ==> !nodes[j].live
      modifies this`queued, this`marking, nodes, queue
      ensures Valid() && marking
      ensures nodes[..] == Rooted(old(nodes[..]), count)
    {
      hide Indexed, TableOk, QueueOk, Rooted;
      marking := true;
      ghost var n := nodes[..];
      RootedNone(n);
      var i := 0;
      while i < count
        invariant i <= count && Valid() && marking
        invariant nodes[..] == Rooted(n, i)
      {
        RootedNext(n, i);
        if nodes[i].references != nodes[i].internal {
          Light(i);
        }
        i := i + 1;
      }
    }
  }
}
