/** A mailbox's queue: messages linked from head to tail. */
module Mailboxes {
  import opened ObjectGraph
  import opened RefCount

  class Mailbox {
    var head: Ref
    var tail: Ref
    var closed: bool
    /** The `next` field of every message in memory. */
    var next: map<Ref, Ref>
    ghost var queue: seq<Ref>

    ghost predicate Valid()
      reads this
    {
      && Distinct(queue) && NULL !in queue
      && head == Head(queue) && tail == (if queue == [] then NULL else queue[|queue| - 1])
      && forall i: nat :: i < |queue| ==> queue[i] in next && next[queue[i]] == NextIn(queue, i)
    }

    constructor ()
      ensures Valid() && queue == [] && !closed
    {
      head, tail, closed, next := NULL, NULL, false, map[];
      queue := [];
    }

    /** A message goes to the end of the queue, or is refused when the mailbox is closed. */
    method Post(msg: Ref) returns (accepted: bool)
      requires Valid() && msg != NULL && msg !in queue
      modifies this
      ensures Valid() && closed == old(closed) && accepted == !closed
      ensures queue == if accepted then old(queue) + [msg] else old(queue)
    {
      next := next[msg := NULL];
      if closed {
        return false;
      }
      if tail != NULL {
        next := next[tail := msg];
      } else {
        head := msg;
      }
      tail := msg;
      queue := queue + [msg];
      return true;
    }

    /** From now on messages are refused; what is queued stays to be taken. */
    method Close()
      requires Valid()
      modifies this`closed
      ensures Valid() && closed && queue == old(queue)
    {
      closed := true;
    }

    /** Takes out what is left of a closed mailbox, in order, as its owner does at the end. */
    method Drain() returns (msgs: seq<Ref>)
      requires Valid()
      modifies this
      ensures Valid() && closed == old(closed) && queue == [] && msgs == old(queue)
    {
      hide Valid;
      msgs := [];
      HeadIsNull();
      while head != NULL
        invariant Valid() && closed == old(closed) && msgs + queue == old(queue) && (head == NULL <==> queue == [])
        decreases |queue|
      {
        ghost var before := queue;
        var msg := PopLocked();
        assert before == [msg] + queue;
        msgs := msgs + [msg];
        HeadIsNull();
      }
    }

    lemma HeadIsNull()
      requires Valid()
      ensures head == NULL <==> queue == []
    {
    }

    /** The first message leaves the queue; `NULL` if there is none. */
    method PopLocked() returns (msg: Ref)
      requires Valid()
      modifies this
      ensures Valid() && closed == old(closed) && msg == Head(old(queue))
      ensures queue == if old(queue) == [] then [] else old(queue)[1..]
    {
      msg := head;
      if msg != NULL {
        ghost var before := queue;
        queue := queue[1..];
        assert forall i: nat :: i < |queue| ==> queue[i] == before[i + 1] && NextIn(queue, i) == NextIn(before, i + 1);
        assert next[before[0]] == NextIn(before, 0);
        head := next[msg];
        if head == NULL {
          tail := NULL;
        }
        next := next[msg := NULL];
      }
    }
  }
}

/**
  The Exec backend: the queue is edited atomically, but a poster signals the
  owner only after its edit, and the owner waits only after it has looked.
 */
module ExecMailbox {
  datatype Owner = Unbound | Awake | Checked | Gone

  datatype State = State(
    queue: seq<nat>, closed: bool,
    mask: bool,             // a signal is allocated and published
    posters: multiset<nat>, // have enqueued, read the mask, and will signal
    signal: bool,           // pending at the owner's task; Exec signals are sticky
    owner: Owner,
    accepted: seq<nat>, taken: seq<nat>)

  datatype Step =
    | Bind(granted: bool)
    | Post(poster: nat, msg: nat)
    | Signal(poster: nat)
    | Take(wait: bool)
    | Wake
    | Close

  const INITIAL := State([], false, false, multiset{}, false, Unbound, [], [])

  predicate Enabled(s: State, e: Step) {
    match e
    case Bind(_) => s.owner == Unbound
    case Post(_, _) => true
    case Signal(p) => p in s.posters
    case Take(wait) => s.owner == Awake || (s.owner == Gone && !wait)
    case Wake => s.owner == Checked && s.signal
    case Close => s.owner == Awake
  }

  function Apply(s: State, e: Step): State {
    match e
    case Bind(granted) => s.(owner := Awake, mask := granted)
    case Post(p, m) =>
      if s.closed then s
      else s.(queue := s.queue + [m], accepted := s.accepted + [m],
            posters := s.posters + if s.mask then multiset{p} else multiset{})
    case Signal(p) => s.(posters := s.posters - multiset{p}, signal := true)
    case Take(wait) =>
      if s.queue != [] then s.(queue := s.queue[1..], taken := s.taken + [s.queue[0]])
      else if !wait || s.closed || !s.mask then s
      else s.(owner := Checked)
    case Wake => s.(owner := Awake, signal := false)
    case Close => s.(closed := true, mask := false, owner := Gone)
  }

  /**
    What was taken, followed by what is queued, is what was accepted, in order;
    and an owner that is about to wait, or waits, on a non-empty queue has its
    signal pending or a poster about to send it.
   */
  predicate Inv(s: State) {
    && s.taken + s.queue == s.accepted
    && (s.owner == Checked ==> s.mask && !s.closed && (s.queue == [] || s.signal || s.posters != multiset{}))
    && (s.closed <==> s.owner == Gone)
  }

  lemma StepKeepsInv(s: State, e: Step)
    requires Inv(s) && Enabled(s, e)
    ensures Inv(Apply(s, e))
  {
    var t := Apply(s, e);
    if e.Take? && s.queue != [] {
      assert s.queue == [s.queue[0]] + s.queue[1..];
      assert t.taken + t.queue == s.taken + s.queue;
    }
    if e.Post? && !s.closed && s.mask {
      assert e.poster in t.posters;
    }
    if e.Post? {
      assert s.taken + (s.queue + [e.msg]) == (s.taken + s.queue) + [e.msg];
    }
  }

  predicate Run(s: State, steps: seq<Step>)
    decreases |steps|
  {
    steps == [] || (Enabled(s, steps[0]) && Run(Apply(s, steps[0]), steps[1..]))
  }

  function After(s: State, steps: seq<Step>): State
    decreases |steps|
  {
    if steps == [] then s else After(Apply(s, steps[0]), steps[1..])
  }

  /** The messages of a run that found the mailbox open. */
  function AcceptedBy(s: State, steps: seq<Step>): seq<nat>
    decreases |steps|
  {
    if steps == [] then []
    else (if steps[0].Post? && !s.closed then [steps[0].msg] else []) + AcceptedBy(Apply(s, steps[0]), steps[1..])
  }

  /** In every run messages come out in the order in which they were accepted. */
  lemma {:induction false} InOrder(s: State, steps: seq<Step>)
    requires Inv(s) && Run(s, steps)
    ensures Inv(After(s, steps)) && After(s, steps).accepted == s.accepted + AcceptedBy(s, steps)
    ensures After(s, steps).taken <= s.accepted + AcceptedBy(s, steps)
    decreases |steps|
  {
    hide Apply, Enabled;
    if steps == [] {
      assert s.taken <= s.taken + s.queue;
    } else {
      var t, rest := Apply(s, steps[0]), AcceptedBy(Apply(s, steps[0]), steps[1..]);
      StepKeepsInv(s, steps[0]);
      StepAccepts(s, steps[0]);
      InOrder(t, steps[1..]);
      var first := if steps[0].Post? && !s.closed then [steps[0].msg] else [];
      assert s.accepted + (first + rest) == (s.accepted + first) + rest;
    }
  }

  lemma StepAccepts(s: State, e: Step)
    ensures Apply(s, e).accepted == s.accepted + if e.Post? && !s.closed then [e.msg] else []
  {
  }

  /** In every run of a new mailbox what was taken is a prefix of what was accepted. */
  lemma EveryRun(steps: seq<Step>)
    requires Run(INITIAL, steps)
    ensures Inv(After(INITIAL, steps)) && After(INITIAL, steps).taken <= AcceptedBy(INITIAL, steps)
  {
    InOrder(INITIAL, steps);
    assert INITIAL.accepted + AcceptedBy(INITIAL, steps) == AcceptedBy(INITIAL, steps);
  }

  /**
    What a take does. It waits, and the owner can do nothing before it has been
    signalled, exactly when it was asked to and the mailbox is empty, open, and
    bound to a signal.
   */
  lemma TakeWaitsOnlyIfEmpty(s: State, wait: bool)
    requires Inv(s) && s.owner == Awake
    ensures Enabled(s, Take(wait))
    ensures s.queue != [] ==>
      Apply(s, Take(wait)) == s.(queue := s.queue[1..], taken := s.taken + [s.queue[0]])
    ensures s.queue == [] && wait && !s.closed && s.mask ==>
      var t := Apply(s, Take(wait));
      && t == s.(owner := Checked) && !Enabled(t, Take(true)) && !Enabled(t, Take(false)) && !Enabled(t, Close)
      && (Enabled(t, Wake) <==> s.signal)
    ensures s.queue == [] && !(wait && !s.closed && s.mask) ==> Apply(s, Take(wait)) == s
  {
  }

  /** A message posted to an owner that waits wakes it up and is what it takes. */
  lemma PostWakesOwner(s: State, p: nat, m: nat)
    requires Inv(s) && s.owner == Awake && s.queue == [] && s.mask && !s.closed
    ensures Run(s, [Take(true), Post(p, m), Signal(p), Wake, Take(true)])
    ensures var t := After(s, [Take(true), Post(p, m), Signal(p), Wake, Take(true)]);
      t.taken == s.taken + [m] && t.queue == [] && t.owner == Awake && t.posters == s.posters
  {
    hide Run, After;
    var s1 := s.(owner := Checked);
    var s2 := s1.(queue := [m], accepted := s.accepted + [m], posters := s.posters + multiset{p});
    var s3 := s2.(posters := s.posters, signal := true);
    var s4 := s3.(owner := Awake, signal := false);
    var s5 := s4.(queue := [], taken := s.taken + [m]);
    assert s.queue + [m] == [m] && s.posters + multiset{p} - multiset{p} == s.posters && [m][1..] == [];
    RunNone(s5);
    RunOne(s4, Take(true), s5, []);
    assert [Take(true)] + [] == [Take(true)];
    RunOne(s3, Wake, s4, [Take(true)]);
    assert [Wake] + [Take(true)] == [Wake, Take(true)];
    RunOne(s2, Signal(p), s3, [Wake, Take(true)]);
    assert [Signal(p)] + [Wake, Take(true)] == [Signal(p), Wake, Take(true)];
    RunOne(s1, Post(p, m), s2, [Signal(p), Wake, Take(true)]);
    assert [Post(p, m)] + [Signal(p), Wake, Take(true)] == [Post(p, m), Signal(p), Wake, Take(true)];
    RunOne(s, Take(true), s1, [Post(p, m), Signal(p), Wake, Take(true)]);
    assert [Take(true)] + [Post(p, m), Signal(p), Wake, Take(true)]
      == [Take(true), Post(p, m), Signal(p), Wake, Take(true)];
  }

  /** So it is from the beginning: a bound mailbox delivers what is posted to its waiting owner. */
  lemma BoundMailboxDelivers(p: nat, m: nat)
    ensures Run(INITIAL, [Bind(true), Take(true), Post(p, m), Signal(p), Wake, Take(true)])
    ensures After(INITIAL, [Bind(true), Take(true), Post(p, m), Signal(p), Wake, Take(true)]).taken == [m]
  {
    hide Run, After;
    var s := INITIAL.(owner := Awake, mask := true);
    PostWakesOwner(s, p, m);
    RunOne(INITIAL, Bind(true), s, [Take(true), Post(p, m), Signal(p), Wake, Take(true)]);
    assert [Bind(true)] + [Take(true), Post(p, m), Signal(p), Wake, Take(true)]
      == [Bind(true), Take(true), Post(p, m), Signal(p), Wake, Take(true)];
  }

  lemma RunNone(s: State)
    ensures Run(s, []) && After(s, []) == s
  {
  }

  lemma RunOne(s: State, e: Step, t: State, rest: seq<Step>)
    requires Enabled(s, e) && t == Apply(s, e)
    ensures Run(s, [e] + rest) == Run(t, rest) && After(s, [e] + rest) == After(t, rest)
  {
    assert ([e] + rest)[1..] == rest;
  }

  /** An open mailbox takes every message, at its end. */
  lemma OpenAccepts(s: State, p: nat, m: nat)
    requires Inv(s) && !s.closed
    ensures Enabled(s, Post(p, m)) && Apply(s, Post(p, m)).queue == s.queue + [m]
    ensures s.mask ==> Enabled(Apply(s, Post(p, m)), Signal(p))
  {
  }

  /** Once its owner has closed it none, in any run; what was queued can be drained, in order. */
  lemma {:induction false} ClosedAccepts(s: State, steps: seq<Step>)
    requires Inv(s) && s.closed && Run(s, steps)
    ensures After(s, steps).closed && After(s, steps).accepted == s.accepted
    ensures Inv(After(s, steps)) && s.taken <= After(s, steps).taken
    decreases |steps|
  {
    if steps != [] {
      StepKeepsInv(s, steps[0]);
      ClosedAccepts(Apply(s, steps[0]), steps[1..]);
    }
  }

  lemma NothingAfterClose(s: State, steps: seq<Step>)
    requires Inv(s) && s.owner == Awake && Run(s, [Close] + steps)
    ensures var t := After(s, [Close] + steps); t.closed && t.accepted == s.accepted && t.taken + t.queue == s.accepted
  {
    StepKeepsInv(s, Close);
    RunOne(s, Close, Apply(s, Close), steps);
    ClosedAccepts(Apply(s, Close), steps);
  }

  /** No wake-up is lost: with a message queued, the owner wakes at once or after some poster's next step. */
  lemma OwnerWakes(s: State)
    requires Inv(s) && s.owner == Checked && s.queue != []
    ensures Enabled(s, Wake) || exists p :: Enabled(s, Signal(p)) && Enabled(Apply(s, Signal(p)), Wake)
  {
    if !s.signal {
      var p :| p in s.posters;
      assert Enabled(s, Signal(p)) && Enabled(Apply(s, Signal(p)), Wake);
    }
  }

  /** Before any of these steps, for the poster `p`, the owner has closed its mailbox. */
  ghost predicate SignalsGone(s: State, steps: seq<Step>, p: nat) {
    exists k: nat ::
      k < |steps| && steps[k] == Signal(p) && Run(s, steps[..k]) && After(s, steps[..k]).owner == Gone
  }

  /**
    A poster reads the owner before and signals it after the queue is free
    again. A signal reaches an owner that has closed and gone, in some run, if
    and only if the poster was already on its way when the owner closed.
   */
  lemma SignalAfterClose(s: State, p: nat)
    requires Inv(s) && s.owner == Awake
    ensures (exists steps :: Run(Apply(s, Close), steps) && SignalsGone(Apply(s, Close), steps, p)) <==> p in s.posters
  {
    var t := Apply(s, Close);
    StepKeepsInv(s, Close);
    if p in s.posters {
      var steps := [Signal(p)];
      assert steps[..0] == [] && steps[1..] == [];
      assert Run(t, []) && After(t, steps[..0]).owner == Gone;
      assert Run(t, steps) && SignalsGone(t, steps, p);
    }
    if steps :| Run(t, steps) && SignalsGone(t, steps, p) {
      var k: nat :|
        k < |steps| && steps[k] == Signal(p) && Run(t, steps[..k]) && After(t, steps[..k]).owner == Gone;
      NoNewPosters(t, steps, k);
    }
  }

  /** A closed mailbox gets no new posters. */
  lemma {:induction false} NoNewPosters(s: State, steps: seq<Step>, k: nat)
    requires Inv(s) && s.closed && Run(s, steps) && k < |steps| && steps[k].Signal?
    ensures steps[k].poster in s.posters
    decreases |steps|
  {
    if k > 0 {
      StepKeepsInv(s, steps[0]);
      assert steps[1..][k - 1] == steps[k];
      NoNewPosters(Apply(s, steps[0]), steps[1..], k - 1);
    }
  }
}

/**
  Messages between isolates: where each is while it is on its way, and who
  counts its objects. `Process` shows that real heaps and messages do this.
 */
module Transfers {
  type Id = nat
  type Msg = nat

  /** Where messages wait: the mailbox of an isolate, or the message its thread is started with. */
  datatype Place = Inbox(iso: Id) | Boot(iso: Id)

  datatype Box = Box(queue: seq<Msg>, closed: bool)

  /**
    Where the messages are. `live` are the isolates that somebody holds, that
    is, whose handle count is positive; `known` are those there have ever been;
    `drained` are places that were found empty when nobody held their isolate.
   */
  datatype Places = Places(
    boxes: map<Place, Box>, hands: map<Msg, Id>, finished: set<Msg>,
    live: set<Id>, known: set<Id>, drained: set<Place>)

  datatype State = State(
    places: Places,
    counts: map<Id, int>,   // the objects each isolate counts as its own
    sizes: map<Msg, int>,   // the objects each message in transit brings
    objects: int)           // the objects in memory

  datatype Step =
    | Birth(iso: Id)
    | Allocate(iso: Id, many: int)
    | Create(iso: Id, msg: Msg, size: int)
    | Post(iso: Id, msg: Msg, target: Place)
    | Take(iso: Id, from: Place)
    | Open(iso: Id, msg: Msg)
    | Close(iso: Id)
    | Abandon(iso: Id)
    | Drop(caller: Id, from: Place)
    | DrainEnds(from: Place)
    | Destroy(iso: Id)

  const INITIAL := State(Places(map[], map[], {}, {}, {}, {}), map[], map[], 0)

  // --------------------------------------------------------------- places

  /** The steps that concern places, and when they can be taken. */
  predicate PlaceEnabled(p: Places, e: Step) {
    match e
    case Birth(i) => i !in p.known
    case Allocate(i, _) => i in p.live
    case Create(i, m, _) => i in p.live && m !in p.hands && m !in p.finished
    case Post(i, m, t) => m in p.hands && p.hands[m] == i && t in p.boxes && t.iso in p.live
    case Take(i, f) => i in p.live && f.iso == i && f in p.boxes && p.boxes[f].queue != []
    case Open(i, m) => i in p.live && m in p.hands && p.hands[m] == i
    case Close(i) => i in p.live && Inbox(i) in p.boxes
    case Abandon(i) => i in p.live && forall m :: m in p.hands ==> p.hands[m] != i
    case Drop(c, f) => c in p.live && f.iso !in p.live && f in p.boxes && p.boxes[f].queue != []
    case DrainEnds(f) => f.iso !in p.live && f in p.boxes && p.boxes[f].queue == []
    case Destroy(i) => Inbox(i) in p.drained && Boot(i) in p.drained
  }

  function Posted(p: Places, m: Msg, t: Place): Places
    requires t in p.boxes
  {
    if p.boxes[t].closed then p
    else p.(hands := p.hands - {m}, boxes := p.boxes[t := p.boxes[t].(queue := p.boxes[t].queue + [m])])
  }

  function Taken(p: Places, f: Place, to: Id): Places
    requires f in p.boxes && p.boxes[f].queue != []
  {
    var box := p.boxes[f];
    p.(hands := p.hands[box.queue[0] := to], boxes := p.boxes[f := box.(queue := box.queue[1..])])
  }

  /**
    A refused `Post` leaves the message with its sender, who opens it to discard
    it; `Drop` is the drain of an isolate that nobody holds by whoever frees it,
    and `Destroy` the end of its places, which looks into none of them.
   */
  function Moved(p: Places, e: Step): Places
    requires PlaceEnabled(p, e)
  {
    match e
    case Birth(i) =>
      p.(boxes := p.boxes[Inbox(i) := Box([], false)][Boot(i) := Box([], false)],
         live := p.live + {i}, known := p.known + {i})
    case Allocate(_, _) => p
    case Create(i, m, _) => p.(hands := p.hands[m := i])
    case Post(_, m, t) => Posted(p, m, t)
    case Take(i, f) => Taken(p, f, i)
    case Open(_, m) => p.(hands := p.hands - {m}, finished := p.finished + {m})
    case Close(i) => p.(boxes := p.boxes[Inbox(i) := p.boxes[Inbox(i)].(closed := true)])
    case Abandon(i) => p.(live := p.live - {i})
    case Drop(c, f) => Taken(p, f, c)
    case DrainEnds(f) => p.(drained := p.drained + {f})
    case Destroy(i) => p.(boxes := p.boxes - {Inbox(i), Boot(i)})
  }

  /** The message `m` waits at position `k` of the place `f`. */
  predicate QueuedAt(p: Places, m: Msg, f: Place, k: nat) {
    f in p.boxes && k < |p.boxes[f].queue| && p.boxes[f].queue[k] == m
  }

  /** No message is in two places or has been opened, and those in hand are with isolates that are live. */
  ghost predicate Once(p: Places) {
    && (forall m :: m in p.hands ==> m !in p.finished && p.hands[m] in p.live)
    && (forall m, f, k: nat :: QueuedAt(p, m, f, k) ==> m !in p.hands && m !in p.finished)
    && (forall m, f, k: nat, g, l: nat :: QueuedAt(p, m, f, k) && QueuedAt(p, m, g, l) ==> f == g && k == l)
  }

  /** What was found empty stays empty: nobody can post there any more. */
  ghost predicate Drained(p: Places) {
    && p.live <= p.known && (forall f :: f in p.boxes || f in p.drained ==> f.iso in p.known)
    && (forall f :: f in p.drained ==> f.iso !in p.live)
    && (forall f :: f in p.drained && f in p.boxes ==> p.boxes[f].queue == [])
  }

  /** The message is somewhere: in the hands of a live isolate, or in a place that exists. */
  ghost predicate InTransit(p: Places, m: Msg) {
    m in p.hands || exists f, k: nat :: QueuedAt(p, m, f, k)
  }

  // ------------------------------------------------------------ accounting

  ghost predicate Enabled(s: State, e: Step) {
    && PlaceEnabled(s.places, e)
    && match e
       case Create(_, m, _) => m !in s.sizes
       case _ => true
  }

  /**
    `Allocate` also stands for freeing, with a negative number. `Create` leaves
    the sender's count as it was, and only `Open` moves objects to a count.
   */
  ghost function Apply(s: State, e: Step): State
    requires Inv(s) && Enabled(s, e)
  {
    var p := Moved(s.places, e);
    match e
    case Birth(i) => s.(places := p, counts := s.counts[i := 0])
    case Allocate(i, n) => s.(places := p, counts := s.counts[i := s.counts[i] + n], objects := s.objects + n)
    case Create(_, m, n) => s.(places := p, sizes := s.sizes[m := n], objects := s.objects + n)
    case Open(i, m) =>
      s.(places := p, counts := s.counts[i := s.counts[i] + s.sizes[m]], sizes := s.sizes - {m})
    case _ => s.(places := p)
  }

  ghost function Sum(m: map<nat, int>): int {
    if m == map[] then 0 else
      var k :| k in m;
      m[k] + Sum(m - {k})
  }

  /** Any key may be taken first. */
  lemma {:induction false} SumWithout(m: map<nat, int>, k: nat)
    requires k in m
    ensures Sum(m) == m[k] + Sum(m - {k})
    decreases |m|
  {
    var j :| j in m && Sum(m) == m[j] + Sum(m - {j});
    if j != k {
      SumWithout(m - {j}, k);
      SumWithout(m - {k}, j);
      assert m - {j} - {k} == m - {k} - {j};
    }
  }

  lemma SumWith(m: map<nat, int>, k: nat, v: int)
    ensures Sum(m[k := v]) == v + Sum(m - {k})
  {
    SumWithout(m[k := v], k);
    assert m[k := v] - {k} == m - {k};
  }

  /**
    Every object in memory is counted by one isolate or by one message in
    transit; messages in transit are exactly those with a size.
   */
  ghost predicate Inv(s: State) {
    && Sum(s.counts) + Sum(s.sizes) == s.objects
    && Once(s.places) && Drained(s.places)
    && s.places.known == s.counts.Keys
    && (forall m :: m in s.sizes <==> InTransit(s.places, m))
  }

  lemma StepKeepsSum(s: State, e: Step)
    requires Inv(s) && Enabled(s, e)
    ensures var t := Apply(s, e); Sum(t.counts) + Sum(t.sizes) == t.objects
  {
    hide Once;
    match e
    case Birth(i) =>
      SumWith(s.counts, i, 0);
      assert s.counts - {i} == s.counts;
    case Allocate(i, n) =>
      SumWithout(s.counts, i);
      SumWith(s.counts, i, s.counts[i] + n);
    case Create(i, m, n) =>
      SumWith(s.sizes, m, n);
      assert s.sizes - {m} == s.sizes;
    case Open(i, m) =>
      SumWithout(s.counts, i);
      SumWith(s.counts, i, s.counts[i] + s.sizes[m]);
      SumWithout(s.sizes, m);
    case _ =>
  }

  // ------------------------------------------------- every step keeps it

  /** The places of the messages after a post: those before, and one more. */
  lemma PostPlaces(p: Places, m: Msg, t: Place, j: Msg, f: Place, k: nat)
    requires t in p.boxes && !p.boxes[t].closed
    ensures QueuedAt(Posted(p, m, t), j, f, k)
      <==> QueuedAt(p, j, f, k) || (j == m && f == t && k == |p.boxes[t].queue|)
  {
  }

  /** And after a take: one fewer, the rest of the queue one place further up. */
  lemma TakePlaces(p: Places, t: Place, to: Id, j: Msg, f: Place, k: nat)
    requires t in p.boxes && p.boxes[t].queue != []
    ensures QueuedAt(Taken(p, t, to), j, f, k) <==> QueuedAt(p, j, f, if f == t then k + 1 else k)
  {
  }

  lemma TakenPlaces(p: Places, t: Place, to: Id)
    requires t in p.boxes && p.boxes[t].queue != []
    ensures forall j, f, k: nat ::
      QueuedAt(Taken(p, t, to), j, f, k) <==> QueuedAt(p, j, f, if f == t then k + 1 else k)
    ensures QueuedAt(p, p.boxes[t].queue[0], t, 0)
  {
    forall j, f, k: nat
      ensures QueuedAt(Taken(p, t, to), j, f, k) <==> QueuedAt(p, j, f, if f == t then k + 1 else k)
    {
      TakePlaces(p, t, to, j, f, k);
    }
  }

  lemma TakeOnce(p: Places, t: Place, to: Id)
    requires Once(p) && t in p.boxes && p.boxes[t].queue != [] && to in p.live
    ensures Once(Taken(p, t, to))
  {
    TakenPlaces(p, t, to);
    var u := Taken(p, t, to);
    hide QueuedAt;
    forall j, f, k: nat | QueuedAt(u, j, f, k) ensures j !in u.hands && j !in u.finished {
      assert QueuedAt(p, j, f, if f == t then k + 1 else k);
    }
    forall j, f, k: nat, g, l: nat | QueuedAt(u, j, f, k) && QueuedAt(u, j, g, l) ensures f == g && k == l {
      assert QueuedAt(p, j, f, if f == t then k + 1 else k) && QueuedAt(p, j, g, if g == t then l + 1 else l);
    }
  }

  lemma TakeTransit(p: Places, t: Place, to: Id, m: Msg)
    requires Once(p) && t in p.boxes && p.boxes[t].queue != []
    ensures InTransit(Taken(p, t, to), m) <==> InTransit(p, m)
  {
    TakenPlaces(p, t, to);
    var u := Taken(p, t, to);
    hide QueuedAt;
    if f, k: nat :| QueuedAt(p, m, f, k) {
      if f == t && k == 0 {
        assert m == p.boxes[t].queue[0];
      } else {
        assert QueuedAt(u, m, f, if f == t then k - 1 else k);
      }
    }
    if f, k: nat :| QueuedAt(u, m, f, k) {
      assert QueuedAt(p, m, f, if f == t then k + 1 else k);
    }
  }

  lemma PostedPlaces(p: Places, m: Msg, t: Place)
    requires t in p.boxes && !p.boxes[t].closed
    ensures forall j, f, k: nat ::
      QueuedAt(Posted(p, m, t), j, f, k) <==> QueuedAt(p, j, f, k) || (j == m && f == t && k == |p.boxes[t].queue|)
  {
    forall j, f, k: nat
      ensures QueuedAt(Posted(p, m, t), j, f, k)
        <==> QueuedAt(p, j, f, k) || (j == m && f == t && k == |p.boxes[t].queue|)
    {
      PostPlaces(p, m, t, j, f, k);
    }
  }

  lemma PostOnce(p: Places, m: Msg, t: Place)
    requires Once(p) && t in p.boxes && !p.boxes[t].closed && m in p.hands
    ensures Once(Posted(p, m, t))
  {
    PostedPlaces(p, m, t);
    hide QueuedAt;
  }

  lemma PostTransit(p: Places, m: Msg, t: Place, j: Msg)
    requires t in p.boxes && !p.boxes[t].closed && m in p.hands
    ensures InTransit(Posted(p, m, t), j) <==> InTransit(p, j)
  {
    PostedPlaces(p, m, t);
    var u := Posted(p, m, t);
    hide QueuedAt;
    if j == m {
      assert QueuedAt(u, m, t, |p.boxes[t].queue|);
    }
    if f, k: nat :| QueuedAt(p, j, f, k) {
      assert QueuedAt(u, j, f, k);
    }
  }

  /** Steps that neither fill nor empty a place. */
  ghost predicate SameQueues(p: Places, u: Places) {
    forall m, f, k: nat :: QueuedAt(u, m, f, k) <==> QueuedAt(p, m, f, k)
  }

  lemma QueuesStay(p: Places, e: Step)
    requires PlaceEnabled(p, e) && Drained(p) && Once(p) && !e.Post? && !e.Take? && !e.Drop?
    ensures SameQueues(p, Moved(p, e))
  {
    hide Once;
    forall m, f, k: nat ensures QueuedAt(Moved(p, e), m, f, k) <==> QueuedAt(p, m, f, k) {
    }
  }

  lemma SameTransit(p: Places, u: Places, m: Msg)
    requires SameQueues(p, u) && (m in p.hands <==> m in u.hands)
    ensures InTransit(u, m) <==> InTransit(p, m)
  {
    if f, k: nat :| QueuedAt(p, m, f, k) {
      assert QueuedAt(u, m, f, k);
    }
  }

  lemma OnceStep(p: Places, e: Step)
    requires PlaceEnabled(p, e) && Once(p) && Drained(p) && (e.Create? ==> !InTransit(p, e.msg))
    ensures Once(Moved(p, e))
  {
    hide Drained;
    if e.Take? {
      TakeOnce(p, e.from, e.iso);
    } else if e.Drop? {
      TakeOnce(p, e.from, e.caller);
    } else if e.Post? {
      if !p.boxes[e.target].closed {
        PostOnce(p, e.msg, e.target);
      }
    } else {
      QueuesStay(p, e);
      hide QueuedAt;
    }
  }

  lemma DrainedStep(p: Places, e: Step)
    requires PlaceEnabled(p, e) && Drained(p)
    ensures Drained(Moved(p, e))
  {
  }

  lemma TransitStep(s: State, e: Step, m: Msg)
    requires Inv(s) && Enabled(s, e)
    ensures m in Apply(s, e).sizes <==> InTransit(Apply(s, e).places, m)
  {
    hide Sum;
    var p := s.places;
    if e.Take? {
      TakeTransit(p, e.from, e.iso, m);
    } else if e.Drop? {
      TakeTransit(p, e.from, e.caller, m);
    } else if e.Post? {
      if !p.boxes[e.target].closed {
        PostTransit(p, e.msg, e.target, m);
      }
    } else {
      QueuesStay(p, e);
      OtherTransit(p, e, m);
    }
  }

  lemma OtherTransit(p: Places, e: Step, m: Msg)
    requires PlaceEnabled(p, e) && Once(p) && !e.Post? && !e.Take? && !e.Drop? && SameQueues(p, Moved(p, e))
    ensures (e.Create? || e.Open?) && e.msg == m ==> (InTransit(Moved(p, e), m) <==> e.Create?)
    ensures !((e.Create? || e.Open?) && e.msg == m) ==> (InTransit(Moved(p, e), m) <==> InTransit(p, m))
  {
    var u := Moved(p, e);
    if (e.Create? || e.Open?) && e.msg == m {
      assert e.Open? ==> forall f, k: nat :: !QueuedAt(p, m, f, k);
    } else {
      SameTransit(p, u, m);
    }
  }

  /** Every step, in any order, keeps the sum and loses or duplicates no message. */
  lemma StepKeepsInv(s: State, e: Step)
    requires Inv(s) && Enabled(s, e)
    ensures Inv(Apply(s, e))
  {
    StepKeepsSum(s, e);
    KnownStep(s, e);
    PlacesStep(s, e);
    forall m ensures m in Apply(s, e).sizes <==> InTransit(Apply(s, e).places, m) {
      TransitStep(s, e, m);
    }
    hide Sum, Once, Drained, Apply, InTransit;
  }

  lemma KnownStep(s: State, e: Step)
    requires Inv(s) && Enabled(s, e)
    ensures Apply(s, e).places.known == Apply(s, e).counts.Keys
  {
    hide Sum, Once, InTransit;
  }

  lemma PlacesStep(s: State, e: Step)
    requires Inv(s) && Enabled(s, e)
    ensures Once(Apply(s, e).places) && Drained(Apply(s, e).places)
  {
    OnceStep(s.places, e);
    DrainedStep(s.places, e);
    hide Sum, Once, Drained, InTransit, Moved;
  }

  lemma InitialInv()
    ensures Inv(INITIAL)
  {
    assert Sum(map[]) == 0;
  }

  /** Posting, taking, opening, refusing and draining move objects, but neither make nor lose any. */
  lemma TransferConserves(s: State, e: Step)
    requires Inv(s) && Enabled(s, e) && !e.Allocate? && !e.Create?
    ensures Sum(Apply(s, e).counts) + Sum(Apply(s, e).sizes) == Sum(s.counts) + Sum(s.sizes)
  {
    StepKeepsSum(s, e);
    hide Sum, Once, Drained, InTransit;
  }

  /** When an isolate's places are destroyed, which nobody looks into, no message is in them. */
  lemma NothingDestroyed(s: State, i: Id, m: Msg, f: Place, k: nat)
    requires Inv(s) && Enabled(s, Destroy(i)) && f.iso == i
    ensures !QueuedAt(s.places, m, f, k) && (m in s.places.hands ==> s.places.hands[m] != i)
  {
    hide Sum, InTransit;
    assert f == Inbox(i) || f == Boot(i);
  }

  // ----------------------------------------------------------- every run

  ghost predicate Run(s: State, steps: seq<Step>)
    requires Inv(s)
    decreases |steps|
  {
    steps == [] || (Enabled(s, steps[0]) && (StepKeepsInv(s, steps[0]); Run(Apply(s, steps[0]), steps[1..])))
  }

  ghost function After(s: State, steps: seq<Step>): (t: State)
    requires Inv(s) && Run(s, steps)
    ensures Inv(t)
    decreases |steps|
  {
    if steps == [] then s else
    StepKeepsInv(s, steps[0]);
    After(Apply(s, steps[0]), steps[1..])
  }

  /** A message that has been opened is opened no second time, in any run. */
  lemma {:induction false} OpenedOnce(s: State, steps: seq<Step>, m: Msg)
    requires Inv(s) && Run(s, steps) && m in s.places.finished
    ensures m in After(s, steps).places.finished
    ensures forall i :: Open(i, m) !in steps
    decreases |steps|
  {
    hide Sum, Drained;
    if steps != [] {
      StepKeepsInv(s, steps[0]);
      FinishedStays(s, steps[0], m);
      OpenedOnce(Apply(s, steps[0]), steps[1..], m);
      assert steps == [steps[0]] + steps[1..];
    }
  }

  lemma FinishedStays(s: State, e: Step, m: Msg)
    requires Inv(s) && Enabled(s, e) && m in s.places.finished
    ensures m in Apply(s, e).places.finished && forall i :: e != Open(i, m)
  {
    hide Sum, Drained, InTransit;
  }

  /** The messages a run creates. */
  ghost function Created(steps: seq<Step>): set<Msg> {
    set k: nat | k < |steps| && steps[k].Create? :: steps[k].msg
  }

  /**
    Since the process began, every message created has been opened, is in the
    hands of an isolate that is live, or waits in one place that exists: it is
    opened once or still on its way, and never lost with a place.
   */
  lemma NoneIsLost(steps: seq<Step>, m: Msg)
    requires (InitialInv(); Run(INITIAL, steps)) && m in Created(steps)
    ensures Inv(INITIAL)
    ensures var p := After(INITIAL, steps).places;
      || m in p.finished
      || (m in p.hands && p.hands[m] in p.live)
      || exists f, k: nat :: QueuedAt(p, m, f, k)
  {
    InitialInv();
    hide Sum, Drained;
    CreatedAreOpenedOrInTransit(INITIAL, steps);
  }

  lemma {:induction false} CreatedAreOpenedOrInTransit(s: State, steps: seq<Step>)
    requires Inv(s) && Run(s, steps)
    ensures var t := After(s, steps);
      t.places.finished + t.sizes.Keys == s.places.finished + s.sizes.Keys + Created(steps)
    decreases |steps|
  {
    hide Inv, Apply, Created, Enabled;
    if steps == [] {
      NoneCreated();
    } else {
      StepKeepsInv(s, steps[0]);
      StepCreates(s, steps[0]);
      CreatedAreOpenedOrInTransit(Apply(s, steps[0]), steps[1..]);
      CreatedStep(steps);
    }
  }

  lemma NoneCreated()
    ensures Created([]) == {}
  {
  }

  lemma StepCreates(s: State, e: Step)
    requires Inv(s) && Enabled(s, e)
    ensures var t := Apply(s, e);
      t.places.finished + t.sizes.Keys == s.places.finished + s.sizes.Keys + if e.Create? then {e.msg} else {}
  {
    hide Sum, Drained;
  }

  lemma CreatedStep(steps: seq<Step>)
    requires steps != []
    ensures Created(steps) == (if steps[0].Create? then {steps[0].msg} else {}) + Created(steps[1..])
  {
    forall m | m in Created(steps)
      ensures m in (if steps[0].Create? then {steps[0].msg} else {}) + Created(steps[1..])
    {
      var k: nat :| k < |steps| && steps[k].Create? && steps[k].msg == m;
      assert k > 0 ==> steps[1..][k - 1] == steps[k];
    }
    forall m | m in Created(steps[1..]) ensures m in Created(steps) {
      var k: nat :| k < |steps[1..]| && steps[1..][k].Create? && steps[1..][k].msg == m;
      assert steps[k + 1] == steps[1..][k];
    }
  }

  // ---------------------------------------------------- closing a mailbox

  /** Only its own closing closes a mailbox; a new one is open, and one destroyed does not come back. */
  lemma ClosedStep(s: State, e: Step, i: Id)
    requires Inv(s) && Enabled(s, e)
    ensures var t := Apply(s, e);
      && (Inbox(i) in t.places.boxes ==>
            (t.places.boxes[Inbox(i)].closed <==>
               e == Close(i) || (Inbox(i) in s.places.boxes && s.places.boxes[Inbox(i)].closed)))
      && (Inbox(i) in s.places.boxes && Inbox(i) !in t.places.boxes ==> i in t.places.known)
      && (i in s.places.known && Inbox(i) !in s.places.boxes ==>
            i in t.places.known && Inbox(i) !in t.places.boxes)
      && (e == Close(i) ==> Inbox(i) in s.places.boxes && Inbox(i) in t.places.boxes)
  {
    hide Sum, Once, InTransit;
  }

  /** A mailbox without a place any more gets none. */
  lemma {:induction false} DestroyedStays(s: State, steps: seq<Step>, i: Id)
    requires Inv(s) && Run(s, steps) && i in s.places.known && Inbox(i) !in s.places.boxes
    ensures Inbox(i) !in After(s, steps).places.boxes
    decreases |steps|
  {
    hide Inv, Enabled, Apply;
    if steps != [] {
      StepKeepsInv(s, steps[0]);
      ClosedStep(s, steps[0], i);
      DestroyedStays(Apply(s, steps[0]), steps[1..], i);
    }
  }

  lemma {:induction false} ClosedBy(s: State, steps: seq<Step>, i: Id)
    requires Inv(s) && Run(s, steps) && Inbox(i) in After(s, steps).places.boxes
    ensures After(s, steps).places.boxes[Inbox(i)].closed
      <==> Close(i) in steps || (Inbox(i) in s.places.boxes && s.places.boxes[Inbox(i)].closed)
    decreases |steps|
  {
    hide Inv, Enabled, Apply;
    if steps != [] {
      var t := Apply(s, steps[0]);
      StepKeepsInv(s, steps[0]);
      ClosedStep(s, steps[0], i);
      assert steps == [steps[0]] + steps[1..];
      if Inbox(i) in s.places.boxes && Inbox(i) !in t.places.boxes {
        DestroyedStays(t, steps[1..], i);
      }
      ClosedBy(t, steps[1..], i);
    }
  }

  lemma {:induction false} RunBoth(s: State, a: seq<Step>, b: seq<Step>)
    requires Inv(s)
    ensures Run(s, a + b) <==> Run(s, a) && Run(After(s, a), b)
    ensures Run(s, a + b) ==> After(s, a + b) == After(After(s, a), b)
    decreases |a|
  {
    hide Inv, Enabled, Apply;
    if a == [] {
      assert a + b == b;
    } else {
      assert (a + b)[0] == a[0] && (a + b)[1..] == a[1..] + b;
      if Enabled(s, a[0]) {
        StepKeepsInv(s, a[0]);
        RunBoth(Apply(s, a[0]), a[1..], b);
      }
    }
  }

  /**
    Since the process began, a post to an isolate's mailbox is refused, and the
    message stays in its sender's hands, if and only if the isolate has closed
    it; until then the message goes to the end of the queue.
   */
  lemma PostRefusedIffClosed(steps: seq<Step>, j: Id, m: Msg, i: Id)
    requires (InitialInv(); Run(INITIAL, steps + [Post(j, m, Inbox(i))]))
    ensures Inv(INITIAL) && Run(INITIAL, steps) && Inbox(i) in After(INITIAL, steps).places.boxes
    ensures Inbox(i) in After(INITIAL, steps + [Post(j, m, Inbox(i))]).places.boxes
    ensures var q := After(INITIAL, steps).places.boxes[Inbox(i)].queue;
      var t := After(INITIAL, steps + [Post(j, m, Inbox(i))]).places;
      && (Close(i) in steps ==> m in t.hands && t.hands[m] == j && t.boxes[Inbox(i)].queue == q && m !in q)
      && (Close(i) !in steps ==> m !in t.hands && t.boxes[Inbox(i)].queue == q + [m])
  {
    hide Inv, Enabled, Apply;
    InitialInv();
    RunBoth(INITIAL, steps, [Post(j, m, Inbox(i))]);
    var s := After(INITIAL, steps);
    PostStep(s, j, m, i);
    assert [Post(j, m, Inbox(i))][1..] == [];
    ClosedBy(INITIAL, steps, i);
    assert INITIAL.places.boxes == map[];
  }

  lemma PostStep(s: State, j: Id, m: Msg, i: Id)
    requires Inv(s) && Enabled(s, Post(j, m, Inbox(i)))
    ensures Inv(Apply(s, Post(j, m, Inbox(i)))) && Inbox(i) in s.places.boxes
    ensures var b, t := s.places.boxes[Inbox(i)], Apply(s, Post(j, m, Inbox(i))).places;
      && Inbox(i) in t.boxes
      && (b.closed ==> m in t.hands && t.hands[m] == j && t.boxes[Inbox(i)].queue == b.queue && m !in b.queue)
      && (!b.closed ==> m !in t.hands && t.boxes[Inbox(i)].queue == b.queue + [m])
  {
    hide Sum, Drained, InTransit, Once;
    StepKeepsInv(s, Post(j, m, Inbox(i)));
    QueuedNotInHand(s.places, Inbox(i));
  }

  lemma QueuedNotInHand(p: Places, f: Place)
    requires Once(p) && f in p.boxes
    ensures forall m :: m in p.boxes[f].queue ==> m !in p.hands
  {
    forall m | m in p.boxes[f].queue ensures m !in p.hands {
      var k: nat :| k < |p.boxes[f].queue| && p.boxes[f].queue[k] == m;
      assert QueuedAt(p, m, f, k);
    }
  }

  // ------------------------------------------------------------ in turn

  /** Who takes a message out of the place `f` in this step, if it is such a step. */
  function Taker(e: Step, f: Place): Option<Id> {
    match e
    case Take(i, g) => if f == g then Some(i) else None
    case Drop(c, g) => if f == g then Some(c) else None
    case _ => None
  }

  datatype Option<T> = None | Some(value: T)

  /** How often this happens. */
  function Takings(steps: seq<Step>, f: Place): nat {
    if steps == [] then 0 else (if Taker(steps[0], f).Some? then 1 else 0) + Takings(steps[1..], f)
  }

  lemma TurnStep(s: State, e: Step, m: Msg, f: Place, k: nat)
    requires Inv(s) && Enabled(s, e) && QueuedAt(s.places, m, f, k) && (e.Destroy? ==> e.iso != f.iso)
    ensures var p, taker := Apply(s, e).places, Taker(e, f);
      if taker.None? then QueuedAt(p, m, f, k)
      else if k > 0 then QueuedAt(p, m, f, k - 1)
      else m in p.hands && p.hands[m] == taker.value
  {
    hide Sum, Once, InTransit;
  }

  lemma NotDestroyed(s: State, e: Step, m: Msg, f: Place, k: nat)
    requires Inv(s) && Enabled(s, e) && QueuedAt(s.places, m, f, k)
    ensures e.Destroy? ==> e.iso != f.iso
  {
    if e.Destroy? && e.iso == f.iso {
      NothingDestroyed(s, e.iso, m, f, k);
    }
  }

  /**
    A queue is served in turn, in every run: a message with `k` before it waits
    until `k` have been taken out of its place, and then the next taker gets it.
   */
  lemma {:induction false} TakenInTurn(s: State, steps: seq<Step>, e: Step, m: Msg, f: Place, k: nat)
    requires Inv(s) && Run(s, steps + [e]) && QueuedAt(s.places, m, f, k)
    ensures Run(s, steps)
    ensures Takings(steps, f) <= k ==> QueuedAt(After(s, steps).places, m, f, k - Takings(steps, f))
    ensures Takings(steps, f) == k && Taker(e, f).Some? ==>
      var p := After(s, steps + [e]).places;
      m in p.hands && p.hands[m] == Taker(e, f).value
    decreases |steps|
  {
    hide Inv, Enabled, Apply, QueuedAt;
    RunBoth(s, steps, [e]);
    if steps == [] {
      assert [] + [e] == [e] && [e][1..] == [];
      StepKeepsInv(s, e);
      NotDestroyed(s, e, m, f, k);
      TurnStep(s, e, m, f, k);
    } else {
      assert (steps + [e])[0] == steps[0] && (steps + [e])[1..] == steps[1..] + [e];
      StepKeepsInv(s, steps[0]);
      NotDestroyed(s, steps[0], m, f, k);
      TurnStep(s, steps[0], m, f, k);
      if Taker(steps[0], f).None? {
        TakenInTurn(Apply(s, steps[0]), steps[1..], e, m, f, k);
      } else if k > 0 {
        TakenInTurn(Apply(s, steps[0]), steps[1..], e, m, f, k - 1);
      }
    }
  }

  /** A closed mailbox only empties: what was refused stays with its sender. */
  lemma ClosedOnlyEmpties(s: State, e: Step, f: Place)
    requires Inv(s) && Enabled(s, e) && f in s.places.boxes && s.places.boxes[f].closed
    ensures var p := Apply(s, e).places;
      f in p.boxes ==> p.boxes[f].closed && |p.boxes[f].queue| <= |s.places.boxes[f].queue|
    ensures e.Post? && e.target == f ==> Apply(s, e) == s && e.msg in s.places.hands && s.places.hands[e.msg] == e.iso
  {
    hide Sum, Once, InTransit;
  }
}
