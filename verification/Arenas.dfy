/**
  The fast-lane arenas of an isolate: a bump allocator whose arenas count their
  live objects, are reset in place when empty, and are kept or handed back.
 */
module Arenas {
  import opened ObjectGraph
  import opened RefCount

  const ALIGN: nat := 8

  /**
    What depends on the platform: the size of an arena, of its own record in
    front of its data, and of the word in front of each object, and how many
    empty arenas are kept: 32 KB, 56 bytes, 8 bytes and 4 on 64-bit systems,
    8 KB, 28 bytes, 4 bytes and 4 on AmigaOS.
   */
  datatype Build = Build(size: nat, record: nat, word: nat, keep: nat)

  predicate Aligned(n: nat) {
    n % ALIGN == 0
  }

  function Round(n: nat): (r: nat)
    ensures n <= r < n + 8 && r % 8 == 0
  {
    (n + ALIGN - 1) / ALIGN * ALIGN
  }

  datatype Arena = Arena(next: Ref, prev: Ref, nextFree: Ref, data: nat, capacity: nat, used: nat, live: nat)

  /** The slot of a live object: its arena, its offset there, its size. */
  datatype Block = Block(arena: Ref, at: nat, size: nat)

  // ------------------------------------------------------------- the lists

  ghost predicate ChainedAt(m: map<Ref, Arena>, q: seq<Ref>, i: nat)
    requires i < |q|
  {
    q[i] in m && q[i] != NULL && m[q[i]].prev == PrevIn(q, i) && m[q[i]].next == NextIn(q, i)
  }

  /** `first` and the links thread `q`, which lists every arena once. */
  ghost predicate Chained(m: map<Ref, Arena>, first: Ref, q: seq<Ref>) {
    && Distinct(q) && first == Head(q)
    && (forall i: nat :: i < |q| ==> ChainedAt(m, q, i))
    && (forall a :: a in m ==> a in q)
  }

  /** The free list, linked through `nextFree`. */
  ghost predicate FreeListed(m: map<Ref, Arena>, free: Ref, f: seq<Ref>) {
    && Distinct(f) && free == Head(f) && NULL !in f
    && (forall i: nat :: i < |f| ==> f[i] in m && m[f[i]].nextFree == NextIn(f, i))
  }

  // ------------------------------------------------------------ the blocks

  ghost function Within(blocks: set<Block>, a: Ref): set<Block> {
    set b | b in blocks && b.arena == a
  }

  /** The slot is aligned and inside the used part of its arena. */
  ghost predicate Fits(m: map<Ref, Arena>, b: Block) {
    b.arena in m && Aligned(b.at) && Aligned(b.size) && b.size > 0 && b.at + b.size <= m[b.arena].used
  }

  ghost predicate Tallied(m: map<Ref, Arena>, blocks: set<Block>) {
    forall a :: a in m ==> m[a].live == |Within(blocks, a)|
  }

  /** Live slots are aligned, disjoint, inside the used part of an arena, and counted by it. */
  ghost predicate Packed(m: map<Ref, Arena>, blocks: set<Block>) {
    && (forall b :: b in blocks ==> Fits(m, b))
    && (forall b, c :: b in blocks && c in blocks && b != c ==> Apart(b, c))
    && Tallied(m, blocks)
  }

  predicate Apart(b: Block, c: Block) {
    b.arena != c.arena || b.at + b.size <= c.at || c.at + c.size <= b.at
  }

  ghost predicate Sound(build: Build, a: Arena) {
    && a.capacity == build.size && a.used <= a.capacity && Aligned(a.used) && Aligned(a.data)
    && (a.live == 0 ==> a.used == 0)
  }

  /** No arena but `spare` is stranded: each is the current one, kept for reuse, or holds a live object. */
  ghost predicate Placed(m: map<Ref, Arena>, current: Ref, f: seq<Ref>, spare: Ref) {
    && (current != NULL ==> current in m && current !in f) && spare !in f
    && (forall a :: a in f ==> a in m && m[a].live == 0)
    && (forall a :: a in m ==> a == current || a == spare || a in f || m[a].live > 0)
  }

  /** The memory of each arena, as the system's allocator hands it out. */
  ghost predicate Regions(build: Build, m: map<Ref, Arena>) {
    && (forall a :: a in m ==> m[a].data == Round(a + build.record))
    && (forall a, b ::
          a in m && b in m && a != b ==>
            a + build.record + build.size + ALIGN <= b || b + build.record + build.size + ALIGN <= a)
  }

  /** The objects of two live slots occupy disjoint, aligned memory, whatever arenas they are in. */
  lemma ObjectsApart(build: Build, m: map<Ref, Arena>, blocks: set<Block>, b: Block, c: Block)
    requires Packed(m, blocks) && Regions(build, m) && (forall a :: a in m ==> Sound(build, m[a]))
    requires b in blocks && c in blocks && b != c
    ensures b.arena in m && c.arena in m
    ensures var x, y := m[b.arena].data + b.at, m[c.arena].data + c.at;
      x % 8 == 0 && (x + b.size <= y || y + c.size <= x)
    ensures var x := m[b.arena].data + b.at;
      b.arena + build.record <= x && x + b.size <= b.arena + build.record + build.size + 8
  {
    hide Packed, Regions, Sound, Round, Aligned;
    PackedPair(m, blocks, b, c);
    ArenaMemory(build, m, b.arena);
    ArenaMemory(build, m, c.arena);
    Multiples(m[b.arena].data, b.at);
    AlignedMeans(m[b.arena].data + b.at);
    if b.arena != c.arena {
      ArenasApart(build, m, b.arena, c.arena);
    }
  }

  lemma PackedPair(m: map<Ref, Arena>, blocks: set<Block>, b: Block, c: Block)
    requires Packed(m, blocks) && b in blocks && c in blocks && b != c
    ensures Apart(b, c) && Aligned(b.at)
    ensures b.arena in m && b.at + b.size <= m[b.arena].used && c.arena in m && c.at + c.size <= m[c.arena].used
  {
    hide Tallied, Apart, Aligned;
    assert Fits(m, b) && Fits(m, c);
  }

  lemma AlignedMeans(n: nat)
    ensures Aligned(n) <==> n % 8 == 0
  {
  }

  /** The object area of an arena lies inside its region, behind its record. */
  lemma ArenaMemory(build: Build, m: map<Ref, Arena>, a: Ref)
    requires Regions(build, m) && a in m && Sound(build, m[a])
    ensures Aligned(m[a].data) && a + build.record <= m[a].data < a + build.record + 8 && m[a].used <= build.size
  {
    hide Aligned, Round;
  }

  lemma ArenasApart(build: Build, m: map<Ref, Arena>, a: Ref, b: Ref)
    requires Regions(build, m) && a in m && b in m && a != b
    ensures a + build.record + build.size + 8 <= b || b + build.record + build.size + 8 <= a
  {
    hide Round;
  }

  lemma Multiples(x: nat, y: nat)
    requires Aligned(x) && Aligned(y)
    ensures Aligned(x + y)
  {
  }

  /** A new slot at the end of the used part. */
  lemma BumpKeepsPacked(build: Build, m: map<Ref, Arena>, blocks: set<Block>, a: Ref, size: nat)
    requires Packed(m, blocks) && a in m && Sound(build, m[a]) && size > 0 && Aligned(size)
    requires m[a].used + size <= m[a].capacity
    ensures Block(a, m[a].used, size) !in blocks
    ensures Packed(m[a := m[a].(used := m[a].used + size, live := m[a].live + 1)], blocks + {Block(a, m[a].used, size)})
    ensures Sound(build, m[a].(used := m[a].used + size, live := m[a].live + 1))
  {
    hide Packed, Tallied, Apart, Fits, Aligned, Sound;
    var b := Block(a, m[a].used, size);
    var n := m[a := m[a].(used := m[a].used + size, live := m[a].live + 1)];
    PackedParts(m, blocks);
    SoundBump(build, m[a], size);
    BumpTallied(m, blocks, a, size);
    forall c | c in blocks ensures Fits(n, c) && Apart(c, b) && Apart(b, c) && c != b {
      BumpApart(m, c, b);
    }
    BumpFits(n, b);
    PackedMore(m, n, blocks, b);
  }

  lemma PackedParts(m: map<Ref, Arena>, blocks: set<Block>)
    requires Packed(m, blocks)
    ensures Tallied(m, blocks) && forall b :: b in blocks ==> Fits(m, b)
  {
    hide Tallied, Fits, Apart;
  }

  lemma SoundBump(build: Build, x: Arena, size: nat)
    requires Sound(build, x) && Aligned(size) && x.used + size <= x.capacity
    ensures Aligned(x.used) && Aligned(x.used + size) && Sound(build, x.(used := x.used + size, live := x.live + 1))
  {
    Multiples(x.used, size);
  }

  lemma PackedMore(m: map<Ref, Arena>, n: map<Ref, Arena>, blocks: set<Block>, b: Block)
    requires Packed(m, blocks) && Fits(n, b) && Tallied(n, blocks + {b})
    requires forall c :: c in blocks ==> Fits(n, c) && Apart(c, b) && Apart(b, c)
    ensures Packed(n, blocks + {b})
  {
    hide Fits, Apart, Tallied;
  }

  lemma BumpFits(n: map<Ref, Arena>, b: Block)
    requires b.arena in n && Aligned(b.at) && Aligned(b.size) && b.size > 0 && b.at + b.size <= n[b.arena].used
    ensures Fits(n, b)
  {
  }

  lemma BumpApart(m: map<Ref, Arena>, c: Block, b: Block)
    requires Fits(m, c) && b.arena in m && b.at == m[b.arena].used && b.size > 0
    ensures Apart(c, b) && Apart(b, c) && c != b
    ensures Fits(m[b.arena := m[b.arena].(used := m[b.arena].used + b.size, live := m[b.arena].live + 1)], c)
  {
  }

  lemma BumpTallied(m: map<Ref, Arena>, blocks: set<Block>, a: Ref, size: nat)
    requires a in m && Tallied(m, blocks) && (forall c :: c in blocks ==> Fits(m, c)) && size > 0
    ensures var n := m[a := m[a].(used := m[a].used + size, live := m[a].live + 1)];
      Tallied(n, blocks + {Block(a, m[a].used, size)})
  {
    hide Within;
    CountMore(m, blocks, Block(a, m[a].used, size));
  }

  lemma CountMore(m: map<Ref, Arena>, blocks: set<Block>, b: Block)
    requires b !in blocks
    ensures forall x :: x in m ==> |Within(blocks + {b}, x)| == |Within(blocks, x)| + if x == b.arena then 1 else 0
  {
    forall x | x in m ensures |Within(blocks + {b}, x)| == |Within(blocks, x)| + if x == b.arena then 1 else 0 {
      assert Within(blocks + {b}, x) == Within(blocks, x) + if x == b.arena then {b} else {};
    }
  }

  /** One live slot fewer. */
  lemma DropKeepsPacked(m: map<Ref, Arena>, blocks: set<Block>, b: Block)
    requires Packed(m, blocks) && b in blocks
    ensures b.arena in m && m[b.arena].live > 0
    ensures Packed(m[b.arena := m[b.arena].(live := m[b.arena].live - 1)], blocks - {b})
  {
    var less := blocks - {b};
    assert b in Within(blocks, b.arena);
    forall x | x in m ensures |Within(less, x)| == |Within(blocks, x)| - if x == b.arena then 1 else 0 {
      if x == b.arena {
        assert Within(less, x) == Within(blocks, x) - {b};
      } else {
        assert Within(less, x) == Within(blocks, x);
      }
    }
  }

  /** An arena without live slots can be reset, or its links changed. */
  lemma ResetKeepsPacked(m: map<Ref, Arena>, blocks: set<Block>, a: Ref, x: Arena)
    requires Packed(m, blocks) && a in m && x.live == m[a].live && (x.used >= m[a].used || x.live == 0)
    ensures Packed(m[a := x], blocks)
  {
    if x.live == 0 {
      assert forall b :: b in blocks && b.arena == a ==> b in Within(blocks, a);
    }
  }

  /** An arena without live slots can be handed back. */
  lemma RemoveKeepsPacked(m: map<Ref, Arena>, blocks: set<Block>, a: Ref)
    requires Packed(m, blocks) && a in m && m[a].live == 0
    ensures Packed(m - {a}, blocks)
  {
    assert forall b :: b in blocks && b.arena == a ==> b in Within(blocks, a);
  }

  lemma AddKeepsPacked(m: map<Ref, Arena>, blocks: set<Block>, a: Ref, x: Arena)
    requires Packed(m, blocks) && a !in m && x.live == 0
    ensures Packed(m[a := x], blocks)
  {
    assert Within(blocks, a) == {};
  }

  // ---------------------------------------------------------- list surgery

  lemma ChainedUpdate(m: map<Ref, Arena>, first: Ref, q: seq<Ref>, a: Ref, x: Arena)
    requires Chained(m, first, q) && a in m && x.prev == m[a].prev && x.next == m[a].next
    ensures Chained(m[a := x], first, q)
  {
    var n := m[a := x];
    forall i: nat | i < |q| ensures ChainedAt(n, q, i) {
      assert ChainedAt(m, q, i);
    }
  }

  lemma PushChains(m: map<Ref, Arena>, n: map<Ref, Arena>, first: Ref, q: seq<Ref>, a: Ref)
    requires Chained(m, first, q) && a !in m && a != NULL
    requires n.Keys == m.Keys + {a} && n[a].next == first && n[a].prev == NULL
    requires q != [] ==> ChainedAt(m, q, 0) && n[first] == m[first].(prev := a)
    requires forall k :: k in m && (q != [] ==> k != first) ==> n[k] == m[k]
    ensures Chained(n, a, [a] + q)
  {
    var r := [a] + q;
    forall i: nat | i < |q| ensures q[i] != a && (q[i] == first <==> i == 0) {
      assert ChainedAt(m, q, i);
    }
    forall i: nat | i < |r| ensures ChainedAt(n, r, i) {
      if i > 0 {
        assert ChainedAt(m, q, i - 1);
      }
    }
    assert forall k :: k in q ==> k in r;
  }

  lemma RemoveChains(m: map<Ref, Arena>, n: map<Ref, Arena>, q: seq<Ref>, at: nat)
    requires at < |q| && Chained(m, Head(q), q) && n.Keys == m.Keys - {q[at]}
    requires at > 0 ==> ChainedAt(m, q, at - 1) && n[q[at - 1]] == m[q[at - 1]].(next := NextIn(q, at))
    requires at + 1 < |q| ==> ChainedAt(m, q, at + 1) && n[q[at + 1]] == m[q[at + 1]].(prev := PrevIn(q, at))
    requires forall k :: k in n && (at > 0 ==> k != q[at - 1]) && (at + 1 < |q| ==> k != q[at + 1]) ==> n[k] == m[k]
    ensures var r := Without(q, at); Chained(n, Head(r), r)
  {
    var r := Without(q, at);
    WithoutMembers(q, at);
    hide Without, ChainedAt, PrevIn, NextIn;
    forall i: nat | i < |r| ensures ChainedAt(n, r, i) {
      WithoutLinks(q, at, i);
      assert ChainedAt(m, q, if i < at then i else i + 1);
      RemoveChainsAt(m, n, q, at, i);
    }
  }

  lemma RemoveChainsAt(m: map<Ref, Arena>, n: map<Ref, Arena>, q: seq<Ref>, at: nat, i: nat)
    requires at < |q| && Distinct(q) && n.Keys == m.Keys - {q[at]} && i < |q| - 1
    requires ChainedAt(m, q, if i < at then i else i + 1)
    requires at > 0 ==> q[at - 1] in m && n[q[at - 1]] == m[q[at - 1]].(next := NextIn(q, at))
    requires at + 1 < |q| ==> q[at + 1] in m && n[q[at + 1]] == m[q[at + 1]].(prev := PrevIn(q, at))
    requires forall k :: k in n && (at > 0 ==> k != q[at - 1]) && (at + 1 < |q| ==> k != q[at + 1]) ==> n[k] == m[k]
    ensures |Without(q, at)| == |q| - 1 && ChainedAt(n, Without(q, at), i)
  {
    WithoutLinks(q, at, i);
    hide Without, PrevIn, NextIn, Distinct;
  }

  lemma FreeUpdate(m: map<Ref, Arena>, n: map<Ref, Arena>, free: Ref, f: seq<Ref>)
    requires FreeListed(m, free, f) && forall a :: a in f ==> a in n && (a in m ==> n[a].nextFree == m[a].nextFree)
    ensures FreeListed(n, free, f)
  {
    assert forall i: nat :: i < |f| ==> f[i] in f;
  }

  lemma FreePop(m: map<Ref, Arena>, free: Ref, f: seq<Ref>)
    requires FreeListed(m, free, f) && free != NULL
    ensures f != [] && free in m && FreeListed(m, m[free].nextFree, f[1..]) && free !in f[1..]
    ensures forall a :: a in f <==> a == free || a in f[1..]
  {
    var r := f[1..];
    assert f == [free] + r;
    forall i: nat | i < |r| ensures r[i] in m && m[r[i]].nextFree == NextIn(r, i) {
      assert r[i] == f[i + 1] && NextIn(r, i) == NextIn(f, i + 1);
    }
    assert f[0] == free && m[f[0]].nextFree == NextIn(f, 0);
  }

  lemma FreePush(m: map<Ref, Arena>, free: Ref, f: seq<Ref>, a: Ref)
    requires FreeListed(m, free, f) && a in m && a != NULL && a !in f && m[a].nextFree == free
    ensures FreeListed(m, a, [a] + f)
  {
    var r := [a] + f;
    forall i: nat | i < |r| ensures r[i] in m && m[r[i]].nextFree == NextIn(r, i) {
      if i > 0 {
        assert r[i] == f[i - 1];
      }
    }
  }

  /** The region at `a` is free for another arena. */
  ghost predicate Room(build: Build, m: map<Ref, Arena>, a: Ref) {
    && a != NULL
    && forall b :: b in m ==>
         || a + build.record + build.size + ALIGN <= b
         || b + build.record + build.size + ALIGN <= a
  }

  // ------------------------------------------------------- steps on arenas

  /** Everything about the arenas but where each belongs: lists, slots, memory. */
  ghost predicate Wired(
      build: Build, m: map<Ref, Arena>, first: Ref, q: seq<Ref>, free: Ref, f: seq<Ref>, blocks: set<Block>) {
    NULL !in m && Chained(m, first, q) && FreeListed(m, free, f) && Packed(m, blocks) && Regions(build, m)
  }

  /** A step on one arena that keeps its place in the lists. */
  lemma TouchArena(
      build: Build, m: map<Ref, Arena>, first: Ref, q: seq<Ref>, free: Ref, f: seq<Ref>, blocks: set<Block>, a: Ref,
      x: Arena)
    requires Wired(build, m, first, q, free, f, blocks) && a in m
    requires x.prev == m[a].prev && x.next == m[a].next && x.data == m[a].data
    requires (a in f ==> x.nextFree == m[a].nextFree)
    requires x.live == m[a].live && (x.used >= m[a].used || x.live == 0)
    ensures Wired(build, m[a := x], first, q, free, f, blocks)
  {
    hide Packed, Chained, FreeListed;
    ChainedUpdate(m, first, q, a, x);
    FreeUpdate(m, m[a := x], free, f) by {
      FreePresent(m, free, f);
    }
    ResetKeepsPacked(m, blocks, a, x);
  }

  lemma FreePresent(m: map<Ref, Arena>, free: Ref, f: seq<Ref>)
    requires FreeListed(m, free, f)
    ensures (forall a :: a in f ==> a in m) && (free == NULL ==> f == []) && (free != NULL ==> free in f)
  {
    assert f != [] ==> f[0] in f;
  }

  lemma BumpArena(
      build: Build, m: map<Ref, Arena>, first: Ref, q: seq<Ref>, free: Ref, f: seq<Ref>, blocks: set<Block>, a: Ref,
      size: nat)
    requires Wired(build, m, first, q, free, f, blocks) && a in m && Sound(build, m[a]) && size > 0 && Aligned(size)
    requires m[a].used + size <= m[a].capacity
    ensures Block(a, m[a].used, size) !in blocks
    ensures var x := m[a].(used := m[a].used + size, live := m[a].live + 1);
      Sound(build, x) && Wired(build, m[a := x], first, q, free, f, blocks + {Block(a, m[a].used, size)})
  {
    hide Packed, Chained, FreeListed;
    var x := m[a].(used := m[a].used + size, live := m[a].live + 1);
    ChainedUpdate(m, first, q, a, x);
    FreePresent(m, free, f);
    FreeUpdate(m, m[a := x], free, f);
    BumpKeepsPacked(build, m, blocks, a, size);
  }

  lemma DropBlock(
      build: Build, m: map<Ref, Arena>, first: Ref, q: seq<Ref>, free: Ref, f: seq<Ref>, blocks: set<Block>, b: Block)
    requires Wired(build, m, first, q, free, f, blocks) && b in blocks
    ensures b.arena in m && m[b.arena].live > 0
    ensures Wired(build, m[b.arena := m[b.arena].(live := m[b.arena].live - 1)], first, q, free, f, blocks - {b})
  {
    hide Packed, Chained, FreeListed;
    DropKeepsPacked(m, blocks, b);
    ChainedUpdate(m, first, q, b.arena, m[b.arena].(live := m[b.arena].live - 1));
    FreePresent(m, free, f);
    FreeUpdate(m, m[b.arena := m[b.arena].(live := m[b.arena].live - 1)], free, f);
  }

  lemma PopArena(build: Build, m: map<Ref, Arena>, first: Ref, q: seq<Ref>, free: Ref, f: seq<Ref>, blocks: set<Block>)
    requires Wired(build, m, first, q, free, f, blocks) && free != NULL
    ensures f != [] && f[0] == free && free in m && free in f && free !in f[1..]
    ensures Wired(build, m, first, q, m[free].nextFree, f[1..], blocks)
    ensures forall a :: a in f <==> a == free || a in f[1..]
  {
    hide Packed, Chained, Regions;
    FreePop(m, free, f);
  }

  lemma PushArena(
      build: Build, m: map<Ref, Arena>, first: Ref, q: seq<Ref>, free: Ref, f: seq<Ref>, blocks: set<Block>, a: Ref)
    requires Wired(build, m, first, q, free, f, blocks) && a in m && a !in f && m[a].nextFree == free
    ensures Wired(build, m, first, q, a, [a] + f, blocks)
  {
    hide Packed, Chained, Regions, FreeListed;
    FreePush(m, free, f, a);
  }

  /** A new arena at `a`, in front of the list. */
  function WithArena(build: Build, m: map<Ref, Arena>, first: Ref, a: Ref): map<Ref, Arena> {
    var n := m[a := Arena(first, NULL, NULL, Round(a + build.record), build.size, 0, 0)];
    if first in n then n[first := n[first].(prev := a)] else n
  }

  lemma FirstPresent(m: map<Ref, Arena>, first: Ref, q: seq<Ref>)
    requires Chained(m, first, q)
    ensures first != NULL ==> first in m && q != [] && q[0] == first && ChainedAt(m, q, 0)
    ensures first == NULL ==> q == []
  {
    assert q != [] ==> ChainedAt(m, q, 0);
  }

  lemma AddArenaAt(
      build: Build, m: map<Ref, Arena>, first: Ref, q: seq<Ref>, free: Ref, f: seq<Ref>, blocks: set<Block>, a: Ref)
    requires Wired(build, m, first, q, free, f, blocks) && Room(build, m, a)
    ensures a !in m && first != a && Wired(build, WithArena(build, m, first, a), a, [a] + q, free, f, blocks)
  {
    hide Packed, Chained, FreeListed, Placed;
    assert a !in m;
    FirstPresent(m, first, q);
    FreePresent(m, free, f);
    AddKeepsMemory(build, m, blocks, first, a);
    hide Regions;
    PushChains(m, WithArena(build, m, first, a), first, q, a);
    FreeUpdate(m, WithArena(build, m, first, a), free, f);
  }

  lemma AddKeepsRegions(build: Build, m: map<Ref, Arena>, first: Ref, a: Ref)
    requires Regions(build, m) && Room(build, m, a) && a !in m && first != a
    ensures Regions(build, WithArena(build, m, first, a))
  {
    WithArenaAt(build, m, first, a);
    hide Round, WithArena;
  }

  lemma WithArenaAt(build: Build, m: map<Ref, Arena>, first: Ref, a: Ref)
    requires a !in m && first != a
    ensures var n := WithArena(build, m, first, a);
      && n.Keys == m.Keys + {a} && n[a].data == Round(a + build.record)
      && forall x :: x in m ==> n[x].data == m[x].data
  {
    hide Round;
  }

  lemma NotInRoom(build: Build, m: map<Ref, Arena>, a: Ref)
    requires Room(build, m, a)
    ensures a !in m && a != NULL
  {
  }

  lemma AddKeepsMemory(build: Build, m: map<Ref, Arena>, blocks: set<Block>, first: Ref, a: Ref)
    requires Packed(m, blocks) && Regions(build, m) && Room(build, m, a) && first != a
    ensures Packed(WithArena(build, m, first, a), blocks) && Regions(build, WithArena(build, m, first, a))
  {
    hide Packed, Regions;
    NotInRoom(build, m, a);
    AddKeepsRegions(build, m, first, a);
    var n := m[a := Arena(first, NULL, NULL, Round(a + build.record), build.size, 0, 0)];
    AddKeepsPacked(m, blocks, a, n[a]);
    if first in m {
      ResetKeepsPacked(n, blocks, first, n[first].(prev := a));
    }
  }

  /** The arenas without `a`, whose neighbours are linked to each other. */
  function WithoutArena(m: map<Ref, Arena>, a: Ref): map<Ref, Arena>
    requires a in m
  {
    var p, n := m[a].prev, m[a].next;
    var u := if p in m then m[p := m[p].(next := n)] else m;
    (if n in u then u[n := u[n].(prev := p)] else u) - {a}
  }

  lemma RemoveArenaAt(
      build: Build, m: map<Ref, Arena>, first: Ref, q: seq<Ref>, free: Ref, f: seq<Ref>, blocks: set<Block>, a: Ref,
      at: nat)
    requires Wired(build, m, first, q, free, f, blocks) && a in m && a !in f && m[a].live == 0 && at < |q| && q[at] == a
    ensures m[a].prev != NULL <==> at > 0
    ensures m[a].prev != NULL ==> m[a].prev in m && m[a].prev != a
    ensures m[a].next != NULL ==> m[a].next in m && m[a].next != a
    ensures var front := if m[a].prev != NULL then first else m[a].next;
      Wired(build, WithoutArena(m, a), front, Without(q, at), free, f, blocks)
  {
    UnlinkKeepsPacked(m, blocks, a);
    UnlinkKeepsRegions(build, m, a);
    UnlinkChains(m, first, q, a, at);
    hide Packed, Regions, Chained, Without;
    FreePresent(m, free, f);
    FreeUpdate(m, WithoutArena(m, a), free, f);
  }

  lemma UnlinkChains(m: map<Ref, Arena>, first: Ref, q: seq<Ref>, a: Ref, at: nat)
    requires NULL !in m && Chained(m, first, q) && a in m && at < |q| && q[at] == a
    ensures m[a].prev != NULL <==> at > 0
    ensures m[a].prev != NULL ==> m[a].prev in m && m[a].prev != a
    ensures m[a].next != NULL ==> m[a].next in m && m[a].next != a
    ensures Chained(WithoutArena(m, a), if m[a].prev != NULL then first else m[a].next, Without(q, at))
  {
    NeighboursOf(m, first, q, at);
    hide Chained, Without;
    RemoveChains(m, WithoutArena(m, a), q, at);
  }

  lemma UnlinkKeepsPacked(m: map<Ref, Arena>, blocks: set<Block>, a: Ref)
    requires Packed(m, blocks) && a in m && m[a].live == 0
    ensures Packed(WithoutArena(m, a), blocks)
  {
    hide Packed;
    var p, n := m[a].prev, m[a].next;
    var u := if p in m then m[p := m[p].(next := n)] else m;
    if p in m {
      ResetKeepsPacked(m, blocks, p, u[p]);
    }
    var v := if n in u then u[n := u[n].(prev := p)] else u;
    if n in u {
      ResetKeepsPacked(u, blocks, n, v[n]);
    }
    RemoveKeepsPacked(v, blocks, a);
  }

  lemma UnlinkKeepsRegions(build: Build, m: map<Ref, Arena>, a: Ref)
    requires Regions(build, m) && a in m
    ensures Regions(build, WithoutArena(m, a))
  {
    var n := WithoutArena(m, a);
    assert forall x :: x in n ==> x in m && n[x].data == m[x].data;
    hide WithoutArena;
  }

  lemma NeighboursOf(m: map<Ref, Arena>, first: Ref, q: seq<Ref>, at: nat)
    requires NULL !in m && Chained(m, first, q) && at < |q|
    ensures first == Head(q) && ChainedAt(m, q, at)
    ensures at > 0 ==> ChainedAt(m, q, at - 1) && q[at - 1] != q[at]
    ensures at + 1 < |q| ==> ChainedAt(m, q, at + 1) && q[at + 1] != q[at] && (at > 0 ==> q[at - 1] != q[at + 1])
    ensures Head(Without(q, at)) == if at > 0 then first else NextIn(q, at)
  {
  }

  datatype Option<T> = None | Some(value: T)

  class Pool {
    const build: Build
    var arenas: map<Ref, Arena>
    var current: Ref
    var first: Ref
    var free: Ref
    var freeCount: nat

    ghost var list: seq<Ref>
    ghost var kept: seq<Ref>
    ghost var blocks: set<Block>

    /** All but `loose` are sound; all but `spare` are in their place. */
    ghost predicate Inv(spare: Ref, loose: Ref)
      reads this
    {
      && build.word > 0 && NULL !in arenas && Wired(build, arenas, first, list, free, kept, blocks)
      && freeCount == |kept| <= build.keep
      && Placed(arenas, current, kept, spare)
      && (forall a :: a in arenas && a != loose ==> Sound(build, arenas[a]))
    }

    ghost predicate Valid()
      reads this
    {
      Inv(NULL, NULL)
    }

    constructor (build: Build)
      requires build.word > 0
      ensures Valid() && blocks == {} && this.build == build
    {
      this.build := build;
      arenas, current, first, free, freeCount := map[], NULL, NULL, NULL, 0;
      list, kept, blocks := [], [], {};
    }

    /** An empty arena: a kept one, or one in the new region at `region`, `NULL` if the system has none. */
    method New(region: Ref) returns (a: Ref)
      requires Valid() && (region != NULL ==> Room(build, arenas, region))
      modifies this`arenas, this`first, this`list, this`free, this`kept, this`freeCount
      ensures a == if old(free) != NULL then old(free) else region
      ensures a != NULL && old(free) == NULL ==> a !in old(arenas)
      ensures a == NULL ==> Valid()
      ensures a != NULL ==> Inv(a, NULL) && a in arenas && arenas[a].used == 0 && arenas[a].live == 0 && a != current
      ensures forall x :: x in old(arenas) && x != a ==> x in arenas && arenas[x].live == old(arenas)[x].live
    {
      hide Wired, Placed, Room, Round;
      FreeIsNull(build, arenas, first, list, free, kept, blocks);
      a := free;
      if a != NULL {
        TakeKept();
        return a;
      }
      if region == NULL {
        return NULL;
      }
      a := region;
      AddArenaAt(build, arenas, first, list, free, kept, blocks, a);
      ghost var m := arenas;
      arenas := arenas[a := Arena(first, NULL, NULL, Round(a + build.record), build.size, 0, 0)];
      FirstIn(build, m, first, list, free, kept, blocks);
      if first != NULL {
        arenas := arenas[first := arenas[first].(prev := a)];
      }
      assert arenas == WithArena(build, m, first, a);
      PlacedAdded(m, arenas, current, kept, a);
      first := a;
      list := [a] + list;
    }

    /** The first of the arenas kept, empty as it is, leaves the free list. */
    method TakeKept()
      requires Valid() && free != NULL
      modifies this`arenas, this`free, this`kept, this`freeCount
      ensures var a := old(free);
        Inv(a, NULL) && a in arenas && arenas[a].used == 0 && arenas[a].live == 0 && a != current
      ensures forall x :: x in old(arenas) && x != old(free) ==> x in arenas && arenas[x].live == old(arenas)[x].live
    {
      hide Wired, Placed;
      var a := free;
      PopArena(build, arenas, first, list, free, kept, blocks);
      free := arenas[a].nextFree;
      freeCount := freeCount - 1;
      PlacedTaken(arenas, current, kept, arenas[a].(nextFree := NULL, used := 0));
      kept := kept[1..];
      TouchArena(build, arenas, first, list, free, kept, blocks, a, arenas[a].(nextFree := NULL, used := 0));
      arenas := arenas[a := arenas[a].(nextFree := NULL, used := 0)];
    }

    /**
      `__amlc_arena_allocate`: a slot of the current arena, of an empty one, or
      none at all. A slot is a word and the object, each rounded up to 8 bytes.
     */
    method Allocate(size: nat, region: Ref) returns (r: Option<Block>)
      requires Valid()
      requires region != NULL ==>
        forall b :: b in arenas ==>
          || region + build.record + build.size + 8 <= b
          || b + build.record + build.size + 8 <= region
      modifies this
      ensures Valid()
      ensures r.None? ==> blocks == old(blocks)
      ensures var slot := (build.word + 7) / 8 * 8 + (size + 7) / 8 * 8;
        var fits := old(current) in old(arenas) && old(current) != NULL
          && old(arenas)[old(current)].used + slot <= build.size;
        && (r.None? <==> slot > build.size || (!fits && old(free) == NULL && region == NULL))
        && (r.Some? ==>
              && r.value !in old(blocks) && blocks == old(blocks) + {r.value} && r.value.size == slot
              && r.value.at % 8 == 0 && r.value.at + slot <= build.size
              && r.value.arena in arenas && current == r.value.arena)
        && (r.Some? && fits ==>
              && r.value.arena == old(current) && arenas.Keys == old(arenas).Keys
              && r.value.at == old(arenas)[old(current)].used)
        && (r.Some? && !fits ==>
              r.value.arena == (if old(free) != NULL then old(free) else region) && r.value.at == 0)
    {
      hide Wired, Aligned;
      CurrentIsSound();
      var slot := Round(build.word) + Round(size);
      if slot > build.size {
        return None;
      }
      SlotIsAligned(size);
      var a := current;
      if a == NULL || arenas[a].used + slot > arenas[a].capacity {
        ghost var m, c := arenas, current;
        assert c != NULL ==> Sound(build, m[c]) && m[c].live > 0;
        a := New(region);
        if a == NULL {
          return None;
        }
        current := a;
      }
      var b := Bump(a, slot);
      r := Some(b);
    }

    lemma SlotIsAligned(size: nat)
      requires build.word > 0
      ensures Aligned(Round(build.word) + Round(size)) && Round(build.word) > 0
    {
    }

    lemma CurrentIsSound()
      requires Valid()
      ensures NULL !in arenas && build.word > 0
      ensures current != NULL ==>
        && current in arenas && arenas[current].capacity == build.size && arenas[current].used % 8 == 0
    {
    }

    /** Every arena is the current one, is kept, or holds a live object; no more than the limit are kept. */
    lemma NoneStranded()
      requires Valid()
      ensures |kept| <= build.keep
      ensures forall a :: a in arenas ==> a == current || a in kept || exists b :: b in blocks && b.arena == a
      ensures forall b :: b in blocks ==> b.arena in arenas && b.arena !in kept
    {
      hide Chained, FreeListed, Regions;
      forall a | a in arenas && a != current && a !in kept ensures exists b :: b in blocks && b.arena == a {
        var b :| b in Within(blocks, a);
        assert b in blocks && b.arena == a;
      }
      forall b | b in blocks ensures b.arena in arenas && b.arena !in kept {
        assert Fits(arenas, b) && b in Within(blocks, b.arena);
      }
    }

    /** Takes the next slot of the current arena. */
    method Bump(a: Ref, slot: nat) returns (b: Block)
      requires Valid() && a == current && a in arenas && slot > 0 && Aligned(slot)
      requires arenas[a].used + slot <= build.size
      modifies this`arenas, this`blocks
      ensures Valid() && b !in old(blocks) && blocks == old(blocks) + {b} && b == Block(a, old(arenas[a].used), slot)
      ensures arenas.Keys == old(arenas).Keys
    {
      hide Wired;
      b := Block(a, arenas[a].used, slot);
      BumpArena(build, arenas, first, list, free, kept, blocks, a, slot);
      arenas := arenas[a := arenas[a].(used := arenas[a].used + slot, live := arenas[a].live + 1)];
      blocks := blocks + {b};
    }

    /** An object dies: its arena counts one less, and is recycled when that was the last. */
    method Free(b: Block)
      requires Valid() && b in blocks
      modifies this
      ensures Valid() && blocks == old(blocks) - {b}
    {
      hide Wired;
      var a := b.arena;
      DropBlock(build, arenas, first, list, free, kept, blocks, b);
      arenas := arenas[a := arenas[a].(live := arenas[a].live - 1)];
      blocks := blocks - {b};
      if arenas[a].live == 0 {
        NotNull(build, arenas, first, list, free, kept, blocks, a);
        Recycle(a);
      }
    }

    /** `__amlc_arena_recycle`: resets an empty arena, and keeps it or hands it back. */
    method Recycle(a: Ref)
      requires Inv(a, a) && a in arenas && arenas[a].live == 0 && Sound(build, arenas[a].(used := 0))
      modifies this`arenas, this`first, this`list, this`free, this`kept, this`freeCount
      ensures Valid()
      ensures a == current ==>
        a in arenas && arenas[a].used == 0 && kept == old(kept) && arenas.Keys == old(arenas).Keys
      ensures a != current && old(freeCount) < build.keep ==> kept == [a] + old(kept) && arenas.Keys == old(arenas).Keys
      ensures a != current && old(freeCount) >= build.keep ==>
        kept == old(kept) && arenas.Keys == old(arenas).Keys - {a}
    {
      hide Wired;
      NotNull(build, arenas, first, list, free, kept, blocks, a);
      TouchArena(build, arenas, first, list, free, kept, blocks, a, arenas[a].(used := 0));
      arenas := arenas[a := arenas[a].(used := 0)];
      if a == current {
        return;
      }
      if freeCount < build.keep {
        Keep(a);
      } else {
        HandBack(a);
      }
    }

    /** Puts an arena on the free list. */
    method Keep(a: Ref)
      requires Inv(a, NULL) && a in arenas && arenas[a].live == 0 && a != current && freeCount < build.keep
      modifies this`arenas, this`free, this`kept, this`freeCount
      ensures Valid() && kept == [a] + old(kept) && arenas.Keys == old(arenas).Keys
    {
      hide Wired, Placed, Sound;
      ghost var m := arenas;
      SparedIsFree(m, current, kept, a);
      TouchArena(build, arenas, first, list, free, kept, blocks, a, arenas[a].(nextFree := free));
      arenas := arenas[a := arenas[a].(nextFree := free)];
      PushArena(build, arenas, first, list, free, kept, blocks, a);
      PlacedKept(m, current, kept, a, arenas[a]);
      assert Sound(build, m[a]) && Sound(build, arenas[a]) by {
        SoundIgnoresLinks(build, m[a], free);
      }
      free := a;
      freeCount := freeCount + 1;
      kept := [a] + kept;
    }

    /** Unlinks an arena, without a walk, and frees it. */
    method HandBack(a: Ref)
      requires Inv(a, NULL) && a in arenas && arenas[a].live == 0 && a != current
      modifies this`arenas, this`first, this`list
      ensures Valid() && arenas.Keys == old(arenas).Keys - {a}
    {
      hide Wired, Without, WithoutArena;
      ghost var m, at := arenas, IndexOf(build, arenas, first, list, free, kept, blocks, a);
      RemoveArenaAt(build, m, first, list, free, kept, blocks, a, at);
      RemovedKeys(build, m, a);
      Unlink(a);
      list := Without(list, at);
    }

    method Unlink(a: Ref)
      requires NULL !in arenas && a in arenas
      requires arenas[a].prev != NULL ==> arenas[a].prev in arenas && arenas[a].prev != a
      requires arenas[a].next != NULL ==> arenas[a].next in arenas && arenas[a].next != a
      modifies this`arenas, this`first
      ensures arenas == WithoutArena(old(arenas), a)
      ensures first == if old(arenas[a]).prev != NULL then old(first) else old(arenas[a]).next
    {
      var p, n := arenas[a].prev, arenas[a].next;
      if p != NULL {
        arenas := arenas[p := arenas[p].(next := n)];
      } else {
        first := n;
      }
      if n != NULL {
        arenas := arenas[n := arenas[n].(prev := p)];
      }
      arenas := arenas - {a};
    }
  }

  /** An arena is taken from those kept. */
  lemma PlacedTaken(m: map<Ref, Arena>, current: Ref, f: seq<Ref>, x: Arena)
    requires Placed(m, current, f, NULL) && NULL !in m && f != [] && f[0] !in f[1..] && f[0] in m
    requires x.live == m[f[0]].live
    ensures Placed(m[f[0] := x], current, f[1..], f[0]) && f[0] != current && m[f[0]].live == 0
  {
    assert f[0] in f && f == [f[0]] + f[1..];
  }

  lemma SparedIsFree(m: map<Ref, Arena>, current: Ref, f: seq<Ref>, a: Ref)
    requires Placed(m, current, f, a)
    ensures a !in f
  {
  }

  /** An arena joins those kept. */
  lemma PlacedKept(m: map<Ref, Arena>, current: Ref, f: seq<Ref>, a: Ref, x: Arena)
    requires Placed(m, current, f, a) && NULL !in m && a in m && a != current && m[a].live == 0 == x.live
    ensures Placed(m[a := x], current, [a] + f, NULL)
  {
  }

  lemma SoundIgnoresLinks(build: Build, x: Arena, next: Ref)
    requires Sound(build, x)
    ensures Sound(build, x.(nextFree := next))
  {
  }

  /** And one more comes from the system. */
  lemma PlacedAdded(m: map<Ref, Arena>, n: map<Ref, Arena>, current: Ref, f: seq<Ref>, a: Ref)
    requires Placed(m, current, f, NULL) && NULL !in m && a !in m && a != NULL && n.Keys == m.Keys + {a}
    requires forall x :: x in m ==> n[x].live == m[x].live
    ensures Placed(n, current, f, a) && a != current
  {
  }

  lemma RemovedKeys(build: Build, m: map<Ref, Arena>, a: Ref)
    requires a in m
    ensures WithoutArena(m, a).Keys == m.Keys - {a}
    ensures forall x ::
        x in m && x != a ==>
          var y := WithoutArena(m, a)[x]; y.live == m[x].live && (Sound(build, m[x]) ==> Sound(build, y))
  {
  }

  lemma FreeIsNull(
      build: Build, m: map<Ref, Arena>, first: Ref, q: seq<Ref>, free: Ref, f: seq<Ref>, blocks: set<Block>)
    requires Wired(build, m, first, q, free, f, blocks)
    ensures free == NULL ==> f == []
  {
    FreePresent(m, free, f);
  }

  lemma FirstIn(build: Build, m: map<Ref, Arena>, first: Ref, q: seq<Ref>, free: Ref, f: seq<Ref>, blocks: set<Block>)
    requires Wired(build, m, first, q, free, f, blocks)
    ensures (first != NULL ==> first in m) && NULL !in m
  {
    FirstPresent(m, first, q);
  }

  lemma NotNull(
      build: Build, m: map<Ref, Arena>, first: Ref, q: seq<Ref>, free: Ref, f: seq<Ref>, blocks: set<Block>, a: Ref)
    requires Wired(build, m, first, q, free, f, blocks) && a in m
    ensures a != NULL && NULL !in m
  {
  }

  ghost function IndexOf(
      build: Build, m: map<Ref, Arena>, first: Ref, q: seq<Ref>,
      free: Ref, f: seq<Ref>, blocks: set<Block>, a: Ref): (at: nat)
    requires Wired(build, m, first, q, free, f, blocks) && a in m
    ensures at < |q| && q[at] == a
  {
    var at :| 0 <= at < |q| && q[at] == a;
    at
  }
}
