/**
  The life of isolates and their threads, as atomic steps in any order: handle
  counts, starting, joining or detaching, and the one moment of freeing.
 */
module Lifecycle {
  type Id = nat

  /** Where an isolate's own thread has got to. */
  datatype Worker =
    | Starting   // created by `start`, which is still running
    | Prepared   // the thread's handle is counted, the thread not yet created
    | Never      // `start` failed: there will be no thread
    | Running
    | Finished   // torn down, `done` is set
    | Decided    // joined or detached
    | Exited     // the thread's handle is given up

  /**
    One isolate. `joined` says that somebody has claimed the join of its thread;
    `refused` and `reaped` record what became of that claim.
   */
  datatype Isolate = Isolate(
    count: int, parent: Id, isMain: bool, worker: Worker, native: bool, launched: bool,
    joined: bool, detached: bool, done: bool, refused: bool, reaped: bool)

  /** A new isolate, held by the handle that `start` was called on. */
  function Newborn(parent: Id): Isolate {
    Isolate(1, parent, false, Starting, false, false, false, false, false, false, false)
  }

  /**
    What holds a count on an isolate: a handle object (`home` is the isolate it
    lives in), the isolate's own thread, or the parent link of a child.
   */
  datatype Token = Handle(name: nat, home: Id) | ThreadOf(iso: Id) | ParentOf(child: Id)

  /** What the owner of a handle is doing with it. */
  datatype Activity =
    | Launching   // inside `start`
    | Claimed     // has claimed the join, not yet called `pthread_join`
    | Waiting     // blocked in `pthread_join`
    | Refused     // `pthread_join` has reported a deadlock
    | Polling     // waiting for `done`

  /** A claim of which it is not yet known what becomes of it. */
  predicate Pending(a: Activity) {
    a == Claimed || a == Waiting
  }

  datatype State = State(
    isolates: map<Id, Isolate>,     // in memory
    tokens: map<Token, Id>,         // and the isolate each holds
    busy: map<Token, Activity>,
    dying: set<Id>,                 // count at zero, about to be freed
    freed: set<Id>)

  datatype Step =
    | Create(creator: Id, child: Id, handle: Token)
    | BootFails(handle: Token)
    | Prepare(handle: Token)
    | Spawn(handle: Token)
    | SpawnFails(handle: Token)
    | MarkLaunched(handle: Token)
    | CopyHandle(from: Token, to: Token)
    | HandleToSelf(iso: Id, to: Token)
    | HandleToParent(iso: Id, to: Token)
    | DropHandle(handle: Token)
    | Join(handle: Token)
    | EnterJoin(handle: Token)
    | JoinReturns(handle: Token)
    | Finish(iso: Id)
    | Decide(iso: Id)
    | Exit(iso: Id)
    | Free(iso: Id)
    | ReleaseParent(child: Id)

  function Initial(boss: Id): State {
    State(map[boss := Newborn(boss).(isMain := true, worker := Running)], map[ThreadOf(boss) := boss], map[], {}, {})
  }

  // ------------------------------------------------------------- invariant

  ghost function Holders(tokens: map<Token, Id>, i: Id): set<Token> {
    set t | t in tokens && tokens[t] == i
  }

  /** Each count is the number of its holders, and nothing holds what is not in memory. */
  ghost predicate Counted(s: State) {
    && (forall i :: i in s.isolates ==> s.isolates[i].count == |Holders(s.tokens, i)|)
    && (forall t :: t in s.tokens ==> s.tokens[t] in s.isolates)
    && (forall i :: i in s.dying <==> i in s.isolates && s.isolates[i].count == 0)
    && s.isolates.Keys !! s.freed
  }

  /** The thread and the parent link of an isolate hold exactly when they should. */
  ghost predicate Linked(s: State) {
    && (forall i {:trigger ThreadOf(i)} :: ThreadOf(i) in s.tokens ==> i in s.isolates && s.tokens[ThreadOf(i)] == i)
    && (forall i {:trigger ThreadOf(i)} ::
          i in s.isolates ==>
            (ThreadOf(i) in s.tokens <==> s.isolates[i].worker in {Prepared, Running, Finished, Decided}))
    && (forall c {:trigger ParentOf(c)} :: ParentOf(c) in s.tokens ==> c in s.isolates || c in s.freed)
    && (forall i {:trigger ParentOf(i)} ::
          i in s.isolates && !s.isolates[i].isMain ==>
            ParentOf(i) in s.tokens && s.tokens[ParentOf(i)] == s.isolates[i].parent)
  }

  /** The flags of one isolate agree with where its thread is. */
  predicate Settled(x: Isolate) {
    && (x.done <==> x.worker in {Finished, Decided, Exited})
    && (x.joined ==> x.launched) && (x.launched ==> x.native && x.worker !in {Starting, Prepared, Never})
    && (x.native ==> x.worker != Starting) && (!x.isMain && x.worker !in {Starting, Never} ==> x.native)
    && (x.worker in {Decided, Exited} ==> x.joined != x.detached)
    && (x.worker !in {Decided, Exited} ==> !x.detached)
    && (x.worker in {Starting, Prepared, Never} ==> !x.joined)
    && (x.refused || x.reaped ==> x.joined) && !(x.refused && x.reaped) && (x.reaped ==> x.worker == Exited)
    && (x.isMain ==> x.worker == Running && !x.native)
  }

  predicate Launcher(s: State, t: Token) {
    t in s.busy && t in s.tokens && s.busy[t] == Launching
  }

  predicate Joiner(s: State, t: Token) {
    t in s.busy && t in s.tokens && Pending(s.busy[t])
  }

  /** No isolate is being started, or claimed for joining, twice at a time. */
  ghost predicate Alone(s: State) {
    && (forall t, u :: Launcher(s, t) && Launcher(s, u) && s.tokens[t] == s.tokens[u] ==> t == u)
    && (forall t, u :: Joiner(s, t) && Joiner(s, u) && s.tokens[t] == s.tokens[u] ==> t == u)
  }

  /** A claim that is pending is on an isolate whose claim has had no outcome. */
  predicate Open(x: Isolate) {
    x.joined && !x.refused && !x.reaped
  }

  /** Who is inside `start` or `join` holds a handle, and its own thread is running. */
  ghost predicate Inside(s: State) {
    forall t :: t in s.busy ==>
      t.Handle? && t in s.tokens && t.home in s.isolates && s.isolates[t.home].worker == Running
  }

  ghost predicate ClaimsOpen(s: State) {
    forall t :: Joiner(s, t) ==> s.tokens[t] in s.isolates && Open(s.isolates[s.tokens[t]])
  }

  ghost predicate LaunchesFresh(s: State) {
    forall t :: Launcher(s, t) ==>
      && s.tokens[t] in s.isolates
      && !s.isolates[s.tokens[t]].launched && !s.isolates[s.tokens[t]].isMain
  }

  /** Who is inside `start` or `join` holds the isolate it is working on; at most one joins it. */
  ghost predicate Occupied(s: State) {
    Inside(s) && ClaimsOpen(s) && Alone(s) && LaunchesFresh(s)
  }

  /** `h` waits for a thread that itself waits in `pthread_join` for the thread of `h`. */
  ghost predicate Mutual(s: State, h: Token) {
    h.Handle? && h in s.tokens && exists g :: WaitsBack(s, h, g)
  }

  predicate WaitsBack(s: State, h: Token, g: Token)
    requires h.Handle? && h in s.tokens
  {
    && g in s.busy && s.busy[g] == Waiting && g.Handle? && g in s.tokens
    && g.home == s.tokens[h] && s.tokens[g] == h.home
  }

  /** What `pthread_join` reports as a deadlock: a join of oneself, or of a thread that is joining the caller. */
  ghost predicate Deadlocked(s: State, h: Token) {
    h.Handle? && h in s.tokens && (h.home == s.tokens[h] || Mutual(s, h))
  }

  ghost predicate Claims(s: State, i: Id) {
    exists t :: Joiner(s, t) && s.tokens[t] == i
  }

  /** Every open claim is pending with somebody, and who was refused still stands where it was refused. */
  ghost predicate Joining(s: State) {
    && (forall i :: i in s.isolates && Open(s.isolates[i]) ==> Claims(s, i))
    && (forall t :: t in s.busy && s.busy[t] == Refused ==> Deadlocked(s, t))
  }

  ghost predicate Inv(s: State) {
    Counted(s) && Linked(s) && Occupied(s) && Joining(s) && AllSettled(s)
  }

  // ---------------------------------------------------------------- guards

  /** The thread of `i` is running its own code, not inside `start` or `join`. */
  predicate Active(s: State, i: Id) {
    && i in s.isolates && s.isolates[i].worker == Running
    && forall t :: t in s.busy && t.Handle? ==> t.home != i
  }

  predicate FreshHandle(s: State, t: Token) {
    t.Handle? && t !in s.tokens
  }

  predicate Holds(s: State, t: Token) {
    t.Handle? && t in s.tokens
  }

  /** `start` on the handle `t` has got to the point where its isolate is in state `w`. */
  predicate Launches(s: State, t: Token, w: Worker)
    requires Inv(s)
  {
    Holds(s, t) && t in s.busy && s.busy[t] == Launching && s.isolates[s.tokens[t]].worker == w
  }

  /**
    Which steps can be taken. The invariant is required only because guards and
    effects read isolates: it is what says that those are still in memory.
   */
  ghost predicate Enabled(s: State, e: Step)
    requires Inv(s)
  {
    match e
    case Create(p, c, h) => Active(s, p) && c !in s.isolates && c !in s.freed && FreshHandle(s, h) && h.home == p
    case BootFails(h) => Launches(s, h, Starting)
    case Prepare(h) => Launches(s, h, Starting)
    case Spawn(h) => Launches(s, h, Prepared)
    case SpawnFails(h) => Launches(s, h, Prepared)
    case MarkLaunched(h) =>
      && Holds(s, h) && h in s.busy && s.busy[h] == Launching
      && s.isolates[s.tokens[h]].worker !in {Starting, Prepared, Never}
    case CopyHandle(from, to) => Holds(s, from) && FreshHandle(s, to)
    case HandleToSelf(i, to) => Active(s, i) && FreshHandle(s, to)
    case HandleToParent(i, to) => Active(s, i) && !s.isolates[i].isMain && FreshHandle(s, to)
    case DropHandle(h) => Holds(s, h) && h !in s.busy
    case Join(h) => Holds(s, h) && h !in s.busy && Active(s, h.home)
    case EnterJoin(h) => Holds(s, h) && h in s.busy && s.busy[h] == Claimed
    case JoinReturns(h) => CanReturn(s, h)
    case Finish(i) => Active(s, i) && !s.isolates[i].isMain
    case Decide(i) => i in s.isolates && s.isolates[i].worker == Finished
    case Exit(i) => i in s.isolates && s.isolates[i].worker == Decided
    case Free(i) => i in s.dying
    case ReleaseParent(c) => c in s.freed && ParentOf(c) in s.tokens
  }

  /**
    `pthread_join` returns when the thread has exited, and at once, with an
    error that is ignored, when it has been refused; polling ends with `done`.
   */
  predicate CanReturn(s: State, h: Token)
    requires Inv(s)
  {
    && Holds(s, h) && h in s.busy
    && match s.busy[h]
       case Waiting => s.isolates[s.tokens[h]].worker == Exited
       case Refused => true
       case Polling => s.isolates[s.tokens[h]].done
       case _ => false
  }

  // --------------------------------------------------------------- effects

  function Retain(s: State, t: Token, i: Id): State
    requires i in s.isolates
  {
    var x := s.isolates[i];
    s.(isolates := s.isolates[i := x.(count := x.count + 1)], tokens := s.tokens[t := i])
  }

  /** `__amlc_isolate_release`: whoever takes the count to zero goes on to free the isolate. */
  function Release(s: State, t: Token): State
    requires t in s.tokens && s.tokens[t] in s.isolates
  {
    var i := s.tokens[t];
    var x := s.isolates[i];
    s.(isolates := s.isolates[i := x.(count := x.count - 1)], tokens := s.tokens - {t},
       dying := if x.count - 1 == 0 then s.dying + {i} else s.dying)
  }

  function Update(s: State, i: Id, x: Isolate): State {
    s.(isolates := s.isolates[i := x])
  }

  function Created(s: State, p: Id, c: Id, h: Token): State
    requires p in s.isolates && p != c
  {
    var born := Update(s, c, Newborn(p));
    Retain(born.(tokens := s.tokens[h := c], busy := s.busy[h := Launching]), ParentOf(c), p)
  }

  function Joined(s: State, h: Token, i: Id): State
    requires i in s.isolates
  {
    var x := s.isolates[i];
    if !x.native then s
    else if x.launched && !x.joined && !x.detached then Update(s, i, x.(joined := true)).(busy := s.busy[h := Claimed])
    else s.(busy := s.busy[h := Polling])
  }

  /** The call of `pthread_join` on a claimed thread. */
  ghost function Entered(s: State, h: Token, i: Id): State
    requires i in s.isolates
  {
    if Deadlocked(s, h) then Update(s, i, s.isolates[i].(refused := true)).(busy := s.busy[h := Refused])
    else s.(busy := s.busy[h := Waiting])
  }

  function Returned(s: State, h: Token, i: Id): State
    requires i in s.isolates && h in s.busy
  {
    if s.busy[h] == Waiting then Update(s, i, s.isolates[i].(reaped := true)).(busy := s.busy - {h})
    else s.(busy := s.busy - {h})
  }

  function Freed(s: State, i: Id): State {
    s.(isolates := s.isolates - {i}, dying := s.dying - {i}, freed := s.freed + {i})
  }

  /** The effect on an isolate of a step on the handle `h`, which it holds. */
  function OnHeld(s: State, h: Token, worker: Worker, native: bool, launched: bool): State
    requires h in s.tokens && s.tokens[h] in s.isolates
  {
    Update(s, s.tokens[h], s.isolates[s.tokens[h]].(worker := worker, native := native, launched := launched))
  }

  function OnIsolate(s: State, i: Id, worker: Worker, detached: bool, done: bool): State
    requires i in s.isolates
  {
    Update(s, i, s.isolates[i].(worker := worker, detached := detached, done := done))
  }

  ghost function Apply(s: State, e: Step): State
    requires Inv(s) && Enabled(s, e)
  {
    StepReads(s, e);
    match e
    case Create(p, c, h) => Created(s, p, c, h)
    case BootFails(h) => OnHeld(s, h, Never, false, false).(busy := s.busy - {h})
    case Prepare(h) => Retain(OnHeld(s, h, Prepared, true, false), ThreadOf(s.tokens[h]), s.tokens[h])
    case Spawn(h) => OnHeld(s, h, Running, true, false)
    case SpawnFails(h) => Release(OnHeld(s, h, Never, true, false).(busy := s.busy - {h}), ThreadOf(s.tokens[h]))
    case MarkLaunched(h) => OnHeld(s, h, s.isolates[s.tokens[h]].worker, true, true).(busy := s.busy - {h})
    case CopyHandle(from, to) => Retain(s, to, s.tokens[from])
    case HandleToSelf(i, to) => Retain(s, to, i)
    case HandleToParent(i, to) => Retain(s, to, s.isolates[i].parent)
    case DropHandle(h) => Release(s, h)
    case Join(h) => Joined(s, h, s.tokens[h])
    case EnterJoin(h) => Entered(s, h, s.tokens[h])
    case JoinReturns(h) => Returned(s, h, s.tokens[h])
    case Finish(i) => OnIsolate(s, i, Finished, false, true)
    case Decide(i) => OnIsolate(s, i, Decided, !s.isolates[i].joined, true)
    case Exit(i) => Release(OnIsolate(s, i, Exited, s.isolates[i].detached, true), ThreadOf(i))
    case Free(i) => Freed(s, i)
    case ReleaseParent(c) => Release(s, ParentOf(c))
  }

  /** Every isolate a step touches is in memory: nothing is used after it was freed. */
  lemma StepReads(s: State, e: Step)
    requires Inv(s) && Enabled(s, e)
    ensures forall t :: t in s.tokens ==> s.tokens[t] in s.isolates
    ensures e.Create? ==> e.creator in s.isolates && e.creator != e.child
    ensures e.BootFails? || e.Prepare? || e.Spawn? || e.SpawnFails? || e.MarkLaunched? ==> e.handle in s.tokens
    ensures e.DropHandle? || e.Join? || e.EnterJoin? || e.JoinReturns? ==> e.handle in s.tokens
    ensures e.JoinReturns? ==> e.handle in s.busy
    ensures e.SpawnFails? ==>
      var own := ThreadOf(s.tokens[e.handle]);
      own in s.tokens && s.tokens[own] == s.tokens[e.handle]
    ensures e.CopyHandle? ==> e.from in s.tokens
    ensures e.HandleToSelf? || e.HandleToParent? || e.Finish? || e.Decide? || e.Exit? || e.Free? ==> e.iso in s.isolates
    ensures e.HandleToParent? ==> s.isolates[e.iso].parent in s.isolates
    ensures e.Exit? ==> ThreadOf(e.iso) in s.tokens && s.tokens[ThreadOf(e.iso)] == e.iso
    ensures e.ReleaseParent? ==> ParentOf(e.child) in s.tokens
  {
    hide Holders, Occupied, Joining, Settled;
    assert e.HandleToParent? ==> s.tokens[ParentOf(e.iso)] in s.isolates;
  }

  lemma InitialInv(boss: Id)
    ensures Inv(Initial(boss))
  {
    assert Holders(Initial(boss).tokens, boss) == {ThreadOf(boss)};
  }

  // ---------------------------------------------------- every step keeps it

  lemma HoldersMore(tokens: map<Token, Id>, t: Token, i: Id, k: Id)
    requires t !in tokens
    ensures |Holders(tokens[t := i], k)| == |Holders(tokens, k)| + if k == i then 1 else 0
  {
    assert Holders(tokens[t := i], k) == Holders(tokens, k) + if k == i then {t} else {};
  }

  lemma HoldersFewer(tokens: map<Token, Id>, t: Token, k: Id)
    requires t in tokens
    ensures |Holders(tokens - {t}, k)| == |Holders(tokens, k)| - if k == tokens[t] then 1 else 0
  {
    assert tokens[t] == k ==> t in Holders(tokens, k);
    assert Holders(tokens - {t}, k) == Holders(tokens, k) - if k == tokens[t] then {t} else {};
  }

  lemma Held(tokens: map<Token, Id>, t: Token)
    requires t in tokens
    ensures |Holders(tokens, tokens[t])| > 0
  {
    assert t in Holders(tokens, tokens[t]);
  }

  lemma NotHeld(tokens: map<Token, Id>, i: Id)
    requires |Holders(tokens, i)| == 0
    ensures forall t :: t in tokens ==> tokens[t] != i
  {
    assert forall t :: t in tokens && tokens[t] == i ==> t in Holders(tokens, i);
  }

  lemma RetainCounted(s: State, t: Token, i: Id)
    requires Counted(s) && i in s.isolates && i !in s.dying && t !in s.tokens
    ensures Counted(Retain(s, t, i))
  {
    hide Holders;
    var u := Retain(s, t, i);
    forall k | k in s.isolates ensures u.isolates[k].count == |Holders(u.tokens, k)| {
      HoldersMore(s.tokens, t, i, k);
    }
  }

  lemma ReleaseCounted(s: State, t: Token)
    requires Counted(s) && t in s.tokens
    ensures s.tokens[t] in s.isolates && Counted(Release(s, t))
  {
    hide Holders;
    Held(s.tokens, t);
    var u := Release(s, t);
    forall k | k in s.isolates ensures u.isolates[k].count == |Holders(u.tokens, k)| {
      HoldersFewer(s.tokens, t, k);
    }
  }

  lemma UpdateCounted(s: State, i: Id, x: Isolate)
    requires Counted(s) && i in s.isolates && x.count == s.isolates[i].count
    ensures Counted(Update(s, i, x))
  {
    hide Holders;
  }

  lemma BusyCounted(s: State, busy: map<Token, Activity>)
    requires Counted(s)
    ensures Counted(s.(busy := busy))
  {
    hide Holders;
  }

  /** What is held is in memory and not dying. */
  lemma HeldNotDying(s: State, t: Token)
    requires Counted(s) && t in s.tokens
    ensures s.tokens[t] in s.isolates && s.tokens[t] !in s.dying
  {
    hide Holders;
    Held(s.tokens, t);
  }

  lemma CreateCounted(s: State, c: Id, x: Isolate, h: Token)
    requires Counted(s) && c !in s.isolates && c !in s.freed && h !in s.tokens && x.count == 1
    ensures Counted(Update(s, c, x).(tokens := s.tokens[h := c]))
  {
    hide Holders;
    var u := Update(s, c, x).(tokens := s.tokens[h := c]);
    NobodyHolds(s.tokens, c);
    forall k | k in u.isolates ensures u.isolates[k].count == |Holders(u.tokens, k)| {
      HoldersMore(s.tokens, h, c, k);
    }
  }

  lemma NobodyHolds(tokens: map<Token, Id>, i: Id)
    requires forall t :: t in tokens ==> tokens[t] != i
    ensures |Holders(tokens, i)| == 0
  {
    assert Holders(tokens, i) == {};
  }

  lemma FreeCounted(s: State, i: Id)
    requires Counted(s) && i in s.dying
    ensures Counted(s.(isolates := s.isolates - {i}, dying := s.dying - {i}, freed := s.freed + {i}))
  {
    hide Holders;
    NotHeld(s.tokens, i);
  }

  // What each kind of change leaves of the other parts of the invariant.

  predicate InJoin(a: Activity) {
    a == Claimed || a == Waiting || a == Refused
  }

  /** The joins in progress and what is recorded of claims are the same in `t`. */
  ghost predicate SameJoins(s: State, t: State) {
    && (forall h :: h in s.busy && InJoin(s.busy[h]) ==> h in t.busy && t.busy[h] == s.busy[h])
    && (forall h :: h in t.busy && InJoin(t.busy[h]) ==> h in s.busy && t.busy[h] == s.busy[h])
    && (forall h :: h in s.busy && InJoin(s.busy[h]) && h in s.tokens ==> h in t.tokens && t.tokens[h] == s.tokens[h])
    && (forall i :: i in t.isolates && Open(t.isolates[i]) ==> i in s.isolates && Open(s.isolates[i]))
  }

  lemma JoiningSame(s: State, t: State)
    requires Joining(s) && SameJoins(s, t)
    ensures Joining(t)
  {
    forall i | i in t.isolates && Open(t.isolates[i]) ensures Claims(t, i) {
      assert Claims(s, i);
      var h :| Joiner(s, h) && s.tokens[h] == i;
      assert Joiner(t, h);
    }
    forall h | h in t.busy && t.busy[h] == Refused ensures Deadlocked(t, h) {
      DeadlockStays(s, t, h);
    }
  }

  lemma DeadlockStays(s: State, t: State, h: Token)
    requires SameJoins(s, t) && Joining(s) && h in t.busy && t.busy[h] == Refused
    ensures Deadlocked(t, h)
  {
    assert h in s.busy && Deadlocked(s, h);
    if h.home != s.tokens[h] {
      var g :| WaitsBack(s, h, g);
      assert WaitsBack(t, h, g);
    }
  }

  predicate Working(w: Worker) {
    w in {Prepared, Running, Finished, Decided}
  }

  /** Nobody enters `start` or `join`, and who is inside keeps its token. */
  ghost predicate NoneEnters(s: State, t: State) {
    forall h :: h in t.busy ==>
      && h in s.busy && t.busy[h] == s.busy[h]
      && (h in s.tokens ==> h in t.tokens && t.tokens[h] == s.tokens[h])
      && (h in t.tokens ==> h in s.tokens)
  }

  lemma AloneStays(s: State, t: State)
    requires Alone(s) && NoneEnters(s, t)
    ensures Alone(t)
  {
    assert forall h :: Launcher(t, h) ==> Launcher(s, h) && t.tokens[h] == s.tokens[h];
    assert forall h :: Joiner(t, h) ==> Joiner(s, h) && t.tokens[h] == s.tokens[h];
    hide Launcher, Joiner;
  }

  /** Counts apart, every isolate that somebody works on is as it was. */
  ghost predicate SameWork(s: State, t: State) {
    forall i :: i in s.isolates ==>
      && i in t.isolates && t.isolates[i].worker == s.isolates[i].worker
      && (Open(s.isolates[i]) ==> Open(t.isolates[i]))
      && (t.isolates[i].launched ==> s.isolates[i].launched) && t.isolates[i].isMain == s.isolates[i].isMain
  }

  lemma OccupiedStays(s: State, t: State)
    requires Occupied(s) && NoneEnters(s, t) && SameWork(s, t)
    ensures Occupied(t)
  {
    hide Inside, ClaimsOpen, Alone, LaunchesFresh, NoneEnters, SameWork;
    InsideStays(s, t);
    OpenStays(s, t);
    AloneStays(s, t);
    FreshStays(s, t);
  }

  lemma InsideStays(s: State, t: State)
    requires Inside(s) && NoneEnters(s, t) && SameWork(s, t)
    ensures Inside(t)
  {
    hide Open;
  }

  lemma OpenStays(s: State, t: State)
    requires ClaimsOpen(s) && NoneEnters(s, t) && SameWork(s, t)
    ensures ClaimsOpen(t)
  {
    hide Open;
    assert forall h :: Joiner(t, h) ==> Joiner(s, h) && t.tokens[h] == s.tokens[h];
  }

  lemma FreshStays(s: State, t: State)
    requires LaunchesFresh(s) && NoneEnters(s, t) && SameWork(s, t)
    ensures LaunchesFresh(t)
  {
    hide Open;
    assert forall h :: Launcher(t, h) ==> Launcher(s, h) && t.tokens[h] == s.tokens[h];
  }

  lemma RetainHandle(s: State, t: Token, i: Id)
    requires t.Handle? && t !in s.tokens && i in s.isolates
    ensures Linked(s) ==> Linked(Retain(s, t, i))
    ensures Occupied(s) ==> Occupied(Retain(s, t, i))
    ensures AllSettled(s) ==> AllSettled(Retain(s, t, i))
  {
    hide Occupied, Linked, AllSettled;
    RetainLinked(s, t, i);
    RetainOther(s, t, i);
  }

  lemma RetainLinked(s: State, t: Token, i: Id)
    requires t.Handle? && t !in s.tokens && i in s.isolates
    ensures Linked(s) ==> Linked(Retain(s, t, i))
  {
  }

  lemma ReleaseLinked(s: State, t: Token)
    requires t.Handle? && t in s.tokens && s.tokens[t] in s.isolates
    ensures Linked(s) ==> Linked(Release(s, t))
  {
  }

  lemma RetainJoining(s: State, t: Token, i: Id)
    requires Joining(s) && t !in s.tokens && i in s.isolates
    ensures Joining(Retain(s, t, i))
  {
    hide Joining;
    JoiningSame(s, Retain(s, t, i));
  }

  lemma ReleaseJoining(s: State, t: Token)
    requires Joining(s) && t in s.tokens && s.tokens[t] in s.isolates && t !in s.busy
    ensures Joining(Release(s, t))
  {
    hide Joining;
    JoiningSame(s, Release(s, t));
  }

  lemma UpdateJoining(s: State, i: Id, x: Isolate)
    requires Joining(s) && i in s.isolates && (Open(x) ==> Open(s.isolates[i]))
    ensures Joining(Update(s, i, x))
  {
    hide Joining;
    JoiningSame(s, Update(s, i, x));
  }

  /** `h` enters or leaves something that is no join. */
  lemma BusyJoining(s: State, h: Token, a: Activity)
    requires Joining(s) && (h in s.busy ==> !InJoin(s.busy[h]))
    ensures Joining(s.(busy := s.busy - {h})) && (!InJoin(a) ==> Joining(s.(busy := s.busy[h := a])))
  {
    hide Joining;
    JoiningSame(s, s.(busy := s.busy - {h}));
    if !InJoin(a) {
      JoiningSame(s, s.(busy := s.busy[h := a]));
    }
  }

  lemma ReleaseHandle(s: State, t: Token)
    requires t in s.tokens && s.tokens[t] in s.isolates && t !in s.busy
    ensures Linked(s) && t.Handle? ==> Linked(Release(s, t))
    ensures Occupied(s) ==> Occupied(Release(s, t))
    ensures AllSettled(s) ==> AllSettled(Release(s, t))
  {
    hide Occupied, Linked;
    if t.Handle? {
      ReleaseLinked(s, t);
    }
    if Occupied(s) {
      OccupiedStays(s, Release(s, t));
    }
  }

  ghost predicate AllSettled(s: State) {
    forall i :: i in s.isolates ==> Settled(s.isolates[i])
  }

  lemma LinkedUpdate(s: State, i: Id, x: Isolate)
    requires Linked(s) && i in s.isolates && x.parent == s.isolates[i].parent && x.isMain == s.isolates[i].isMain
    requires Working(x.worker) <==> Working(s.isolates[i].worker)
    ensures Linked(Update(s, i, x))
  {
  }

  lemma OccupiedUpdate(s: State, i: Id, x: Isolate)
    requires Occupied(s) && i in s.isolates && x.isMain == s.isolates[i].isMain
    requires (Open(s.isolates[i]) ==> Open(x)) && (x.launched ==> s.isolates[i].launched)
    requires s.isolates[i].worker == Running && x.worker != Running ==> Active(s, i)
    ensures Occupied(Update(s, i, x))
  {
  }

  lemma SettledAt(s: State, i: Id)
    requires AllSettled(s) && i in s.isolates
    ensures Settled(s.isolates[i])
  {
  }

  lemma OccupiedIdle(s: State, h: Token)
    requires Occupied(s)
    ensures Occupied(s.(busy := s.busy - {h})) && (AllSettled(s) ==> AllSettled(s.(busy := s.busy - {h})))
  {
  }

  lemma SettledUpdate(s: State, i: Id, x: Isolate)
    requires AllSettled(s) && Settled(x)
    ensures AllSettled(Update(s, i, x))
  {
  }

  /** A step that moves one isolate on, without changing what is held. */
  lemma Moved(s: State, i: Id, x: Isolate)
    requires Inv(s) && i in s.isolates && Settled(x)
    requires x.count == s.isolates[i].count && x.parent == s.isolates[i].parent && x.isMain == s.isolates[i].isMain
    requires Working(x.worker) <==> Working(s.isolates[i].worker)
    requires (Open(x) <==> Open(s.isolates[i])) && (x.launched ==> s.isolates[i].launched)
    requires s.isolates[i].worker == Running && x.worker != Running ==> Active(s, i)
    ensures Inv(Update(s, i, x))
  {
    hide Counted, Linked, Occupied, Joining, Settled, Update;
    UpdateJoining(s, i, x);
    UpdateCounted(s, i, x);
    LinkedUpdate(s, i, x);
    OccupiedUpdate(s, i, x);
    SettledUpdate(s, i, x);
  }

  lemma Idle(s: State, h: Token)
    requires Inv(s) && (h in s.busy ==> !InJoin(s.busy[h]))
    ensures Inv(s.(busy := s.busy - {h}))
  {
    hide Counted, Linked, Occupied, Joining, Settled;
    BusyLinked(s, s.busy - {h});
    BusyJoining(s, h, Polling);
    BusyCounted(s, s.busy - {h});
    OccupiedIdle(s, h);
  }

  /** One more handle on an isolate that is held. */
  lemma MoreHandles(s: State, holder: Token, t: Token)
    requires Inv(s) && holder in s.tokens && t.Handle? && t !in s.tokens
    ensures s.tokens[holder] in s.isolates && Inv(Retain(s, t, s.tokens[holder]))
  {
    hide Counted, Linked, Occupied, Joining, Settled;
    RetainJoining(s, t, s.tokens[holder]) by {
      HeldNotDying(s, holder);
    }
    HeldNotDying(s, holder);
    RetainCounted(s, t, s.tokens[holder]);
    RetainHandle(s, t, s.tokens[holder]);
  }

  /** The thread's own token comes with its state, and goes with it. */
  lemma ThreadRetained(s: State, i: Id, x: Isolate)
    requires Linked(s) && i in s.isolates && !Working(s.isolates[i].worker) && Working(x.worker)
    requires x.parent == s.isolates[i].parent && x.isMain == s.isolates[i].isMain
    ensures Linked(Retain(Update(s, i, x), ThreadOf(i), i))
  {
  }

  lemma ThreadReleased(s: State, i: Id, x: Isolate)
    requires Linked(s) && i in s.isolates && Working(s.isolates[i].worker) && !Working(x.worker)
    requires x.parent == s.isolates[i].parent && x.isMain == s.isolates[i].isMain
    ensures ThreadOf(i) in s.tokens && s.tokens[ThreadOf(i)] == i && Linked(Release(Update(s, i, x), ThreadOf(i)))
  {
  }

  lemma BusyLinked(s: State, busy: map<Token, Activity>)
    requires Linked(s)
    ensures Linked(s.(busy := busy))
  {
  }

  /** A new token belongs to nobody inside `start` or `join`. */
  lemma RetainOther(s: State, t: Token, i: Id)
    requires t !in s.tokens && i in s.isolates
    ensures Occupied(s) ==> Occupied(Retain(s, t, i))
    ensures AllSettled(s) ==> AllSettled(Retain(s, t, i))
  {
    hide Occupied;
    if Occupied(s) {
      BusyHeld(s);
      OccupiedStays(s, Retain(s, t, i));
    }
  }

  lemma BusyHeld(s: State)
    requires Occupied(s)
    ensures forall t :: t in s.busy ==> t in s.tokens
  {
  }

  lemma BusyAreHandles(s: State)
    requires Occupied(s)
    ensures forall t :: t in s.busy ==> t.Handle?
  {
  }

  lemma CreateLinked(s: State, p: Id, c: Id, h: Token)
    requires Linked(s) && c !in s.isolates && c !in s.freed && p in s.isolates && h.Handle?
    requires forall t :: t in s.tokens ==> s.tokens[t] != c
    ensures Linked(Created(s, p, c, h))
  {
  }

  lemma CreateOccupied(s: State, p: Id, c: Id, h: Token)
    requires Occupied(s) && c !in s.isolates && Active(s, p) && h.Handle? && h !in s.tokens && h.home == p
    requires ParentOf(c) !in s.tokens
    requires forall t :: t in s.tokens ==> s.tokens[t] in s.isolates
    ensures Occupied(Created(s, p, c, h))
  {
    hide Occupied;
    var x := Newborn(p);
    BornOccupied(s, c, x, h);
    RetainOther(Update(s, c, x).(tokens := s.tokens[h := c], busy := s.busy[h := Launching]), ParentOf(c), p);
  }

  lemma BornOccupied(s: State, c: Id, x: Isolate, h: Token)
    requires Occupied(s) && c !in s.isolates && h.Handle? && h !in s.tokens && Active(s, h.home) && !x.launched
    requires !x.isMain
    requires forall t :: t in s.tokens ==> s.tokens[t] in s.isolates
    ensures Occupied(Update(s, c, x).(tokens := s.tokens[h := c], busy := s.busy[h := Launching]))
  {
    hide Alone;
    BornAlone(s, c, x, h);
  }

  lemma BornAlone(s: State, c: Id, x: Isolate, h: Token)
    requires Occupied(s) && c !in s.isolates && h !in s.tokens
    requires forall t :: t in s.tokens ==> s.tokens[t] in s.isolates
    ensures Alone(Update(s, c, x).(tokens := s.tokens[h := c], busy := s.busy[h := Launching]))
  {
  }

  lemma CreateSettled(s: State, p: Id, c: Id, h: Token)
    requires AllSettled(s) && c !in s.isolates && p in s.isolates
    ensures AllSettled(Created(s, p, c, h))
  {
  }

  lemma CreateKeeps(s: State, p: Id, c: Id, h: Token)
    requires Inv(s) && Enabled(s, Create(p, c, h))
    ensures Inv(Apply(s, Create(p, c, h)))
  {
    hide Counted, Linked, Occupied, Joining, AllSettled;
    ThreadToken(s, p);
    OwnThread(s, p);
    ParentLinks(s, c);
    HeldNotDying(s, ThreadOf(p));
    NotDangling(s);
    CreatedCounted(s, p, c, h);
    CreateLinked(s, p, c, h);
    CreateOccupied(s, p, c, h);
    CreateSettled(s, p, c, h);
    NotYetBusy(s, h);
    JoiningSame(s, Created(s, p, c, h));
  }

  lemma CreatedCounted(s: State, p: Id, c: Id, h: Token)
    requires Counted(s) && c !in s.isolates && c !in s.freed && h !in s.tokens && h.Handle?
    requires p in s.isolates && p !in s.dying && ParentOf(c) !in s.tokens
    ensures Counted(Created(s, p, c, h))
  {
    hide Counted;
    CreateCounted(s, c, Newborn(p), h);
    var born := Update(s, c, Newborn(p)).(tokens := s.tokens[h := c]);
    BusyCounted(born, s.busy[h := Launching]);
    UpdatedDying(s, c, Newborn(p), h, p);
    RetainCounted(born.(busy := s.busy[h := Launching]), ParentOf(c), p);
  }

  lemma NotYetBusy(s: State, h: Token)
    requires Occupied(s) && h !in s.tokens
    ensures h !in s.busy
  {
  }

  lemma NotDangling(s: State)
    requires Counted(s)
    ensures forall t :: t in s.tokens ==> s.tokens[t] in s.isolates
  {
  }

  lemma ParentLinks(s: State, c: Id)
    requires Linked(s) && c !in s.isolates && c !in s.freed
    ensures ParentOf(c) !in s.tokens
  {
  }

  lemma UpdatedDying(s: State, c: Id, x: Isolate, h: Token, p: Id)
    requires p !in s.dying
    ensures p !in Update(s, c, x).(tokens := s.tokens[h := c], busy := s.busy[h := Launching]).dying
  {
  }

  lemma BootFailsKeeps(s: State, h: Token)
    requires Inv(s) && Enabled(s, BootFails(h))
    ensures Inv(Apply(s, BootFails(h)))
  {
    hide Counted, Linked, Occupied, Joining;
    NotDangling(s);
    var i := s.tokens[h];
    LaunchingFlags(s, h);
    SettledAt(s, i);
    Moved(s, i, s.isolates[i].(worker := Never, native := false, launched := false));
    Idle(OnHeld(s, h, Never, false, false), h);
  }

  lemma PrepareKeeps(s: State, h: Token)
    requires Inv(s) && Enabled(s, Prepare(h))
    ensures Inv(Apply(s, Prepare(h)))
  {
    hide Counted, Linked, Occupied, Joining, AllSettled;
    HeldNotDying(s, h);
    ThreadToken(s, s.tokens[h]);
    LaunchingFlags(s, h);
    SettledAt(s, s.tokens[h]);
    var i := s.tokens[h];
    var x := s.isolates[i].(worker := Prepared, native := true, launched := false);
    UpdateCounted(s, i, x);
    RetainCounted(Update(s, i, x), ThreadOf(i), i);
    ThreadRetained(s, i, x);
    OccupiedUpdate(s, i, x);
    SettledUpdate(s, i, x);
    RetainOther(Update(s, i, x), ThreadOf(i), i);
    UpdateJoining(s, i, x);
    RetainJoining(Update(s, i, x), ThreadOf(i), i);
  }

  lemma ThreadToken(s: State, i: Id)
    requires Linked(s) && i in s.isolates
    ensures ThreadOf(i) in s.tokens <==> Working(s.isolates[i].worker)
  {
  }

  lemma SpawnKeeps(s: State, h: Token)
    requires Inv(s) && Enabled(s, Spawn(h))
    ensures Inv(Apply(s, Spawn(h)))
  {
    hide Counted, Linked, Occupied, Joining;
    NotDangling(s);
    LaunchingFlags(s, h);
    SettledAt(s, s.tokens[h]);
    Moved(s, s.tokens[h], s.isolates[s.tokens[h]].(worker := Running, native := true, launched := false));
  }

  lemma LaunchingFlags(s: State, h: Token)
    requires Occupied(s) && h in s.busy && s.busy[h] == Launching
    ensures h in s.tokens && s.tokens[h] in s.isolates && !s.isolates[s.tokens[h]].launched
    ensures !s.isolates[s.tokens[h]].isMain
  {
  }

  lemma SpawnFailsKeeps(s: State, h: Token)
    requires Inv(s) && Enabled(s, SpawnFails(h))
    ensures Inv(Apply(s, SpawnFails(h)))
  {
    hide Counted, Linked, Occupied, Joining, AllSettled;
    NotDangling(s);
    LaunchingFlags(s, h);
    BusyAreHandles(s);
    SettledAt(s, s.tokens[h]);
    var i := s.tokens[h];
    var x := s.isolates[i].(worker := Never, native := true, launched := false);
    assert Settled(x);
    hide Settled;
    SettledUpdate(s, i, x);
    UpdateJoining(s, i, x);
    BusyJoining(Update(s, i, x), h, Polling);
    ReleaseJoining(Update(s, i, x).(busy := s.busy - {h}), ThreadOf(i)) by {
      ThreadToken(s, i);
      OwnThread(s, i);
    }
    ThreadReleased(s, i, x);
    UpdateCounted(s, i, x);
    BusyCounted(Update(s, i, x), s.busy - {h});
    ReleaseCounted(Update(s, i, x).(busy := s.busy - {h}), ThreadOf(i));
    OccupiedUpdate(s, i, x);
    OccupiedIdle(Update(s, i, x), h);
    ReleaseHandle(Update(s, i, x).(busy := s.busy - {h}), ThreadOf(i));
    BusyLinked(Release(Update(s, i, x), ThreadOf(i)), s.busy - {h});
    assert Release(Update(s, i, x).(busy := s.busy - {h}), ThreadOf(i))
      == Release(Update(s, i, x), ThreadOf(i)).(busy := s.busy - {h});
  }

  lemma LaunchedOccupied(s: State, h: Token)
    requires Occupied(s) && h in s.busy && s.busy[h] == Launching && h in s.tokens && s.tokens[h] in s.isolates
    ensures Occupied(OnHeld(s, h, s.isolates[s.tokens[h]].worker, true, true).(busy := s.busy - {h}))
  {
    var u := OnHeld(s, h, s.isolates[s.tokens[h]].worker, true, true).(busy := s.busy - {h});
    AloneStays(s, u);
    assert forall t :: Joiner(u, t) ==> Joiner(s, t);
    assert Launcher(s, h);
    forall t | Launcher(u, t) ensures Launcher(s, t) && u.tokens[t] != s.tokens[h] {
      assert Launcher(s, t);
    }
    hide Alone, Launcher, Joiner, Open;
  }

  lemma MarkLaunchedKeeps(s: State, h: Token)
    requires Inv(s) && Enabled(s, MarkLaunched(h))
    ensures Inv(Apply(s, MarkLaunched(h)))
  {
    hide Counted, Linked, Occupied, Joining, AllSettled;
    NotDangling(s);
    LaunchingFlags(s, h);
    SettledAt(s, s.tokens[h]);
    var i := s.tokens[h];
    var x := s.isolates[i].(native := true, launched := true);
    UpdateJoining(s, i, x);
    BusyJoining(Update(s, i, x), h, Polling);
    UpdateCounted(s, i, x);
    BusyCounted(Update(s, i, x), s.busy - {h});
    LinkedUpdate(s, i, x);
    BusyLinked(Update(s, i, x), s.busy - {h});
    LaunchedOccupied(s, h);
    SettledUpdate(s, i, x);
    SettledBusy(Update(s, i, x), s.busy - {h});
  }

  lemma CopyHandleKeeps(s: State, from: Token, to: Token)
    requires Inv(s) && Enabled(s, CopyHandle(from, to))
    ensures Inv(Apply(s, CopyHandle(from, to)))
  {
    hide Counted, Linked, Occupied, Joining, Settled;
    MoreHandles(s, from, to);
  }

  lemma HandleToSelfKeeps(s: State, i: Id, to: Token)
    requires Inv(s) && Enabled(s, HandleToSelf(i, to))
    ensures Inv(Apply(s, HandleToSelf(i, to)))
  {
    hide Counted, Linked, Occupied, Joining, Settled;
    ThreadToken(s, i);
    OwnThread(s, i);
    MoreHandles(s, ThreadOf(i), to);
  }

  lemma HandleToParentKeeps(s: State, i: Id, to: Token)
    requires Inv(s) && Enabled(s, HandleToParent(i, to))
    ensures Inv(Apply(s, HandleToParent(i, to)))
  {
    hide Counted, Linked, Occupied, Joining, Settled;
    OwnParent(s, i);
    MoreHandles(s, ParentOf(i), to);
  }

  lemma DropHandleKeeps(s: State, h: Token)
    requires Inv(s) && Enabled(s, DropHandle(h))
    ensures Inv(Apply(s, DropHandle(h)))
  {
    hide Counted, Linked, Occupied, Joining, Settled;
    ReleaseCounted(s, h);
    ReleaseHandle(s, h);
    ReleaseJoining(s, h);
  }

  lemma JoinSettles(x: Isolate)
    requires Settled(x) && x.launched && !x.joined && !x.detached
    ensures Settled(x.(joined := true)) && Open(x.(joined := true)) && !Open(x)
  {
  }

  lemma SettledBusy(s: State, busy: map<Token, Activity>)
    ensures AllSettled(s) ==> AllSettled(s.(busy := busy))
  {
  }

  lemma PollOccupied(s: State, h: Token)
    requires Occupied(s) && h.Handle? && h in s.tokens && h !in s.busy && Active(s, h.home)
    ensures Occupied(s.(busy := s.busy[h := Polling]))
  {
  }

  lemma ClaimOccupied(s: State, h: Token, x: Isolate)
    requires Occupied(s) && h.Handle? && h in s.tokens && h !in s.busy && s.tokens[h] in s.isolates && Active(s, h.home)
    requires !Open(s.isolates[s.tokens[h]]) && Open(x)
    requires x == s.isolates[s.tokens[h]].(joined := true)
    ensures Occupied(Update(s, s.tokens[h], x).(busy := s.busy[h := Claimed]))
  {
    hide Alone;
    ClaimAlone(s, h, x);
  }

  lemma ClaimAlone(s: State, h: Token, x: Isolate)
    requires Occupied(s) && h in s.tokens && h !in s.busy && s.tokens[h] in s.isolates
    requires !Open(s.isolates[s.tokens[h]])
    ensures Alone(Update(s, s.tokens[h], x).(busy := s.busy[h := Claimed]))
  {
    var u := Update(s, s.tokens[h], x).(busy := s.busy[h := Claimed]);
    forall t, v | Joiner(u, t) && Joiner(u, v) && u.tokens[t] == u.tokens[v] ensures t == v {
      assert t != h ==> Joiner(s, t);
      assert v != h ==> Joiner(s, v);
    }
    assert forall t :: Launcher(u, t) ==> Launcher(s, t);
  }

  lemma ClaimJoining(s: State, h: Token, x: Isolate)
    requires Joining(s) && h in s.tokens && h !in s.busy && s.tokens[h] in s.isolates
    ensures Joining(Update(s, s.tokens[h], x).(busy := s.busy[h := Claimed]))
  {
    var u := Update(s, s.tokens[h], x).(busy := s.busy[h := Claimed]);
    forall i | i in u.isolates && Open(u.isolates[i]) ensures Claims(u, i) {
      if i == s.tokens[h] {
        assert Joiner(u, h);
      } else {
        assert Claims(s, i);
        var g :| Joiner(s, g) && s.tokens[g] == i;
        assert Joiner(u, g);
      }
    }
    forall t | t in u.busy && u.busy[t] == Refused ensures Deadlocked(u, t) {
      StillDeadlocked(s, u, t);
    }
  }

  /** What made a join a deadlock does not go away while both threads stand where they are. */
  lemma StillDeadlocked(s: State, u: State, t: Token)
    requires Deadlocked(s, t) && u.tokens == s.tokens
    requires forall g :: g in s.busy && s.busy[g] == Waiting ==> g in u.busy && u.busy[g] == Waiting
    ensures Deadlocked(u, t)
  {
    if t.home != s.tokens[t] {
      var g :| WaitsBack(s, t, g);
      assert WaitsBack(u, t, g);
    }
  }

  lemma JoinKeeps(s: State, h: Token)
    requires Inv(s) && Enabled(s, Join(h))
    ensures Inv(Apply(s, Join(h)))
  {
    hide Counted, Linked, Occupied, Joining, AllSettled;
    NotDangling(s);
    var i := s.tokens[h];
    SettledAt(s, i);
    var x := s.isolates[i].(joined := true);
    if x.native {
      if x.launched && !s.isolates[i].joined && !x.detached {
        ClaimKeeps(s, h);
      } else {
        PollKeeps(s, h);
      }
    }
  }

  lemma ClaimKeeps(s: State, h: Token)
    requires Inv(s) && h.Handle? && h in s.tokens && h !in s.busy && s.tokens[h] in s.isolates && Active(s, h.home)
    requires var x := s.isolates[s.tokens[h]]; x.launched && !x.joined && !x.detached
    ensures Inv(Update(s, s.tokens[h], s.isolates[s.tokens[h]].(joined := true)).(busy := s.busy[h := Claimed]))
  {
    hide Counted, Linked, Occupied, Joining, AllSettled, Settled, Open;
    var i := s.tokens[h];
    var x := s.isolates[i].(joined := true);
    SettledAt(s, i);
    JoinSettles(s.isolates[i]);
    ClaimOccupied(s, h, x);
    ClaimJoining(s, h, x);
    SettledUpdate(s, i, x);
    SettledBusy(Update(s, i, x), s.busy[h := Claimed]);
    UpdateCounted(s, i, x);
    BusyCounted(Update(s, i, x), s.busy[h := Claimed]);
    LinkedUpdate(s, i, x);
    BusyLinked(Update(s, i, x), s.busy[h := Claimed]);
  }

  lemma PollKeeps(s: State, h: Token)
    requires Inv(s) && h.Handle? && h in s.tokens && h !in s.busy && Active(s, h.home)
    ensures Inv(s.(busy := s.busy[h := Polling]))
  {
    hide Counted, Linked, Occupied, Joining, AllSettled;
    PollOccupied(s, h);
    BusyJoining(s, h, Polling);
    SettledBusy(s, s.busy[h := Polling]);
    BusyCounted(s, s.busy[h := Polling]);
    BusyLinked(s, s.busy[h := Polling]);
  }

  // Entering `pthread_join`: blocked, or refused.

  lemma WaitOccupied(s: State, h: Token)
    requires Occupied(s) && h in s.busy && s.busy[h] == Claimed
    ensures Occupied(s.(busy := s.busy[h := Waiting]))
  {
    WaitAlone(s, h);
    var u := s.(busy := s.busy[h := Waiting]);
    assert forall t :: Joiner(u, t) <==> Joiner(s, t);
    assert forall t :: Launcher(u, t) <==> Launcher(s, t);
    hide Alone, Open, Joiner, Launcher;
  }

  lemma WaitAlone(s: State, h: Token)
    requires Alone(s) && h in s.busy && s.busy[h] == Claimed
    ensures Alone(s.(busy := s.busy[h := Waiting]))
  {
    var u := s.(busy := s.busy[h := Waiting]);
    assert forall t :: Joiner(u, t) <==> Joiner(s, t);
    assert forall t :: Launcher(u, t) <==> Launcher(s, t);
    hide Joiner, Launcher;
  }

  lemma WaitJoining(s: State, h: Token)
    requires Joining(s) && h in s.busy && s.busy[h] == Claimed
    ensures Joining(s.(busy := s.busy[h := Waiting]))
  {
    var u := s.(busy := s.busy[h := Waiting]);
    assert forall t :: Joiner(u, t) <==> Joiner(s, t);
    forall i | i in u.isolates && Open(u.isolates[i]) ensures Claims(u, i) {
      assert Claims(s, i);
      var g :| Joiner(s, g) && s.tokens[g] == i;
      assert Joiner(u, g);
    }
    forall t | t in u.busy && u.busy[t] == Refused ensures Deadlocked(u, t) {
      StillDeadlocked(s, u, t);
    }
  }

  /** An outcome for the claim of `h`: it stops being pending, and its isolate's claim is closed. */
  ghost predicate Closes(s: State, u: State, h: Token) {
    && h in s.busy && Pending(s.busy[h]) && h in s.tokens && s.tokens[h] in s.isolates
    && u.tokens == s.tokens && u.isolates.Keys == s.isolates.Keys
    && !Open(u.isolates[s.tokens[h]])
    && (forall i :: i in s.isolates && i != s.tokens[h] ==> u.isolates[i] == s.isolates[i])
    && (forall t :: t != h ==> (t in u.busy <==> t in s.busy) && (t in s.busy ==> u.busy[t] == s.busy[t]))
    && (h in u.busy ==> u.busy[h] == Refused)
  }

  lemma ClosedJoining(s: State, u: State, h: Token)
    requires Joining(s) && Closes(s, u, h) && (h in u.busy ==> Deadlocked(u, h))
    requires forall t :: t in u.busy && t != h && u.busy[t] == Refused ==> Deadlocked(u, t)
    ensures Joining(u)
  {
    forall i | i in u.isolates && Open(u.isolates[i]) ensures Claims(u, i) {
      assert Claims(s, i);
      var g :| Joiner(s, g) && s.tokens[g] == i;
      assert Joiner(u, g);
    }
  }

  lemma ClosedOccupied(s: State, u: State, h: Token)
    requires Occupied(s) && Closes(s, u, h)
    requires var x, y := s.isolates[s.tokens[h]], u.isolates[s.tokens[h]];
      x.worker == y.worker && x.isMain == y.isMain && x.launched == y.launched
    ensures Occupied(u)
  {
    hide Inside, ClaimsOpen, Alone, LaunchesFresh, Closes;
    ClosedInside(s, u, h);
    ClosedAlone(s, u, h);
    ClosedOpen(s, u, h);
    ClosedFresh(s, u, h);
  }

  lemma ClosedInside(s: State, u: State, h: Token)
    requires Inside(s) && Closes(s, u, h) && s.isolates[s.tokens[h]].worker == u.isolates[s.tokens[h]].worker
    ensures Inside(u)
  {
    hide Open;
    forall t | t in u.busy
      ensures t.Handle? && t in u.tokens && t.home in u.isolates && u.isolates[t.home].worker == Running
    {
      assert t in s.busy;
    }
  }

  lemma ClosedFresh(s: State, u: State, h: Token)
    requires LaunchesFresh(s) && Closes(s, u, h)
    requires var x, y := s.isolates[s.tokens[h]], u.isolates[s.tokens[h]];
      x.isMain == y.isMain && x.launched == y.launched
    ensures LaunchesFresh(u)
  {
    hide Open;
    assert forall t :: Launcher(u, t) ==> Launcher(s, t);
  }

  lemma ClosedAlone(s: State, u: State, h: Token)
    requires Alone(s) && Closes(s, u, h)
    ensures Alone(u)
  {
    assert forall t :: Joiner(u, t) ==> Joiner(s, t);
    assert forall t :: Launcher(u, t) ==> Launcher(s, t);
    hide Joiner, Launcher;
  }

  lemma ClosedOpen(s: State, u: State, h: Token)
    requires ClaimsOpen(s) && Alone(s) && Closes(s, u, h)
    ensures ClaimsOpen(u)
  {
    assert Joiner(s, h);
    forall t | Joiner(u, t) ensures u.tokens[t] in u.isolates && Open(u.isolates[u.tokens[t]]) {
      assert t != h && Joiner(s, t);
      assert s.tokens[t] != s.tokens[h];
    }
  }

  lemma EnterJoinKeeps(s: State, h: Token)
    requires Inv(s) && Enabled(s, EnterJoin(h))
    ensures Inv(Apply(s, EnterJoin(h)))
  {
    hide Counted, Linked, Occupied, Joining, AllSettled;
    NotDangling(s);
    if Deadlocked(s, h) {
      RefuseKeeps(s, h);
    } else {
      WaitOccupied(s, h);
      WaitJoining(s, h);
      SettledBusy(s, s.busy[h := Waiting]);
      BusyCounted(s, s.busy[h := Waiting]);
      BusyLinked(s, s.busy[h := Waiting]);
    }
  }

  lemma RefuseKeeps(s: State, h: Token)
    requires Inv(s) && Enabled(s, EnterJoin(h)) && Deadlocked(s, h) && s.tokens[h] in s.isolates
    ensures Inv(Update(s, s.tokens[h], s.isolates[s.tokens[h]].(refused := true)).(busy := s.busy[h := Refused]))
  {
    hide Counted, Linked, Occupied, Joining, AllSettled;
    var i := s.tokens[h];
    var x := s.isolates[i].(refused := true);
    var u := Update(s, i, x).(busy := s.busy[h := Refused]);
    ClaimIsOpen(s, h);
    SettledAt(s, i);
    ClosedOccupied(s, u, h);
    RefusedStay(s, u, h);
    StillDeadlocked(s, u, h);
    ClosedJoining(s, u, h);
    SettledUpdate(s, i, x);
    SettledBusy(Update(s, i, x), u.busy);
    UpdateCounted(s, i, x);
    BusyCounted(Update(s, i, x), u.busy);
    LinkedUpdate(s, i, x);
    BusyLinked(Update(s, i, x), u.busy);
  }

  lemma ClaimIsOpen(s: State, h: Token)
    requires Occupied(s) && h in s.busy && Pending(s.busy[h])
    ensures h.Handle? && h in s.tokens && s.tokens[h] in s.isolates && Open(s.isolates[s.tokens[h]])
  {
  }

  lemma RefusedStay(s: State, u: State, h: Token)
    requires Joining(s) && u.tokens == s.tokens && h in s.busy && s.busy[h] == Claimed && u.busy == s.busy[h := Refused]
    ensures forall t :: t in u.busy && t != h && u.busy[t] == Refused ==> Deadlocked(u, t)
  {
    forall t | t in u.busy && t != h && u.busy[t] == Refused ensures Deadlocked(u, t) {
      StillDeadlocked(s, u, t);
    }
  }

  lemma JoinReturnsKeeps(s: State, h: Token)
    requires Inv(s) && Enabled(s, JoinReturns(h))
    ensures Inv(Apply(s, JoinReturns(h)))
  {
    hide Counted, Linked, Occupied, Joining, AllSettled;
    NotDangling(s);
    if s.busy[h] == Waiting {
      ReapKeeps(s, h);
    } else if s.busy[h] == Refused {
      LeaveKeeps(s, h);
    } else {
      Idle(s, h);
    }
  }

  lemma ReapKeeps(s: State, h: Token)
    requires Inv(s) && h in s.busy && s.busy[h] == Waiting && h in s.tokens && s.tokens[h] in s.isolates
    requires s.isolates[s.tokens[h]].worker == Exited
    ensures Inv(Update(s, s.tokens[h], s.isolates[s.tokens[h]].(reaped := true)).(busy := s.busy - {h}))
  {
    hide Counted, Linked, Occupied, Joining, AllSettled;
    var i := s.tokens[h];
    var x := s.isolates[i].(reaped := true);
    var u := Update(s, i, x).(busy := s.busy - {h});
    ClaimIsOpen(s, h);
    SettledAt(s, i);
    ClosedOccupied(s, u, h);
    RefusedOutlast(s, u, h);
    ClosedJoining(s, u, h);
    SettledUpdate(s, i, x);
    SettledBusy(Update(s, i, x), u.busy);
    UpdateCounted(s, i, x);
    BusyCounted(Update(s, i, x), u.busy);
    LinkedUpdate(s, i, x);
    BusyLinked(Update(s, i, x), u.busy);
  }

  /** The join that refused another one cannot return first: it waits for a thread that is still in `join`. */
  lemma RefusedOutlast(s: State, u: State, h: Token)
    requires Occupied(s) && Joining(s) && u.tokens == s.tokens && u.busy == s.busy - {h}
    requires h in s.tokens && s.tokens[h] in s.isolates && s.isolates[s.tokens[h]].worker == Exited
    ensures forall t :: t in u.busy && t != h && u.busy[t] == Refused ==> Deadlocked(u, t)
  {
    forall t | t in u.busy && t != h && u.busy[t] == Refused ensures Deadlocked(u, t) {
      assert Deadlocked(s, t);
      if t.home != s.tokens[t] {
        var g :| WaitsBack(s, t, g);
        assert s.isolates[t.home].worker == Running;
        assert WaitsBack(u, t, g);
      }
    }
  }

  lemma LeaveKeeps(s: State, h: Token)
    requires Inv(s) && h in s.busy && s.busy[h] == Refused
    ensures Inv(s.(busy := s.busy - {h}))
  {
    hide Counted, Linked, Occupied, Joining, AllSettled;
    LeaveJoining(s, h);
    OccupiedIdle(s, h);
    BusyCounted(s, s.busy - {h});
    BusyLinked(s, s.busy - {h});
  }

  lemma LeaveJoining(s: State, h: Token)
    requires Joining(s) && h in s.busy && s.busy[h] == Refused
    ensures Joining(s.(busy := s.busy - {h}))
  {
    var u := s.(busy := s.busy - {h});
    forall i | i in u.isolates && Open(u.isolates[i]) ensures Claims(u, i) {
      assert Claims(s, i);
      var g :| Joiner(s, g) && s.tokens[g] == i;
      assert Joiner(u, g);
    }
    forall t | t in u.busy && u.busy[t] == Refused ensures Deadlocked(u, t) {
      StillDeadlocked(s, u, t);
    }
  }

  lemma FinishKeeps(s: State, i: Id)
    requires Inv(s) && Enabled(s, Finish(i))
    ensures Inv(Apply(s, Finish(i)))
  {
    hide Counted, Linked, Occupied, Joining, AllSettled;
    SettledAt(s, i);
    Moved(s, i, s.isolates[i].(worker := Finished, detached := false, done := true));
  }

  lemma DecideKeeps(s: State, i: Id)
    requires Inv(s) && Enabled(s, Decide(i))
    ensures Inv(Apply(s, Decide(i)))
  {
    hide Counted, Linked, Occupied, Joining, AllSettled;
    SettledAt(s, i);
    Moved(s, i, s.isolates[i].(worker := Decided, detached := !s.isolates[i].joined, done := true));
  }

  lemma ExitKeeps(s: State, i: Id)
    requires Inv(s) && Enabled(s, Exit(i))
    ensures Inv(Apply(s, Exit(i)))
  {
    hide Counted, Linked, Occupied, Joining, AllSettled;
    BusyAreHandles(s);
    SettledAt(s, i);
    var x := s.isolates[i].(worker := Exited, done := true);
    assert Settled(x);
    ThreadToken(s, i);
    OwnThread(s, i);
    UpdateJoining(s, i, x);
    ReleaseJoining(Update(s, i, x), ThreadOf(i));
    hide Settled;
    SettledUpdate(s, i, x);
    ThreadReleased(s, i, x);
    UpdateCounted(s, i, x);
    ReleaseCounted(Update(s, i, x), ThreadOf(i));
    OccupiedUpdate(s, i, x);
    ReleaseHandle(Update(s, i, x), ThreadOf(i));
  }

  lemma FreeLinked(s: State, i: Id)
    requires Linked(s) && forall t :: t in s.tokens ==> s.tokens[t] != i
    ensures Linked(Freed(s, i))
  {
  }

  lemma FreeOccupied(s: State, i: Id)
    requires Occupied(s) && (forall t :: t in s.tokens ==> s.tokens[t] != i)
    requires (i in s.isolates ==> s.isolates[i].worker != Running)
    ensures Occupied(Freed(s, i))
  {
  }

  lemma FreeKeeps(s: State, i: Id)
    requires Inv(s) && Enabled(s, Free(i))
    ensures Inv(Apply(s, Free(i)))
  {
    hide Holders, Settled, Linked, Occupied, Joining;
    JoiningSame(s, Freed(s, i));
    FreeCounted(s, i);
    NotHeld(s.tokens, i);
    ThreadToken(s, i);
    FreeLinked(s, i);
    FreeOccupied(s, i);
  }

  lemma ParentReleased(s: State, c: Id)
    requires Linked(s) && ParentOf(c) in s.tokens && c !in s.isolates && s.tokens[ParentOf(c)] in s.isolates
    ensures Linked(Release(s, ParentOf(c)))
  {
  }

  lemma FreedGone(s: State, c: Id)
    requires Counted(s) && c in s.freed
    ensures c !in s.isolates
  {
  }

  lemma ReleaseParentKeeps(s: State, c: Id)
    requires Inv(s) && Enabled(s, ReleaseParent(c))
    ensures Inv(Apply(s, ReleaseParent(c)))
  {
    hide Counted, Linked, Occupied, Joining, AllSettled;
    NotDangling(s);
    BusyAreHandles(s);
    FreedGone(s, c);
    ReleaseJoining(s, ParentOf(c));
    ReleaseCounted(s, ParentOf(c));
    ReleaseHandle(s, ParentOf(c));
    ParentReleased(s, c);
  }

  /** Every step keeps the invariant. */
  lemma StepKeepsInv(s: State, e: Step)
    requires Inv(s) && Enabled(s, e)
    ensures Inv(Apply(s, e))
  {
    hide Inv, Apply, Enabled;
    match e
    case Create(p, c, h) => CreateKeeps(s, p, c, h);
    case BootFails(h) => BootFailsKeeps(s, h);
    case Prepare(h) => PrepareKeeps(s, h);
    case Spawn(h) => SpawnKeeps(s, h);
    case SpawnFails(h) => SpawnFailsKeeps(s, h);
    case MarkLaunched(h) => MarkLaunchedKeeps(s, h);
    case CopyHandle(from, to) => CopyHandleKeeps(s, from, to);
    case HandleToSelf(i, to) => HandleToSelfKeeps(s, i, to);
    case HandleToParent(i, to) => HandleToParentKeeps(s, i, to);
    case DropHandle(h) => DropHandleKeeps(s, h);
    case Join(h) => JoinKeeps(s, h);
    case EnterJoin(h) => EnterJoinKeeps(s, h);
    case JoinReturns(h) => JoinReturnsKeeps(s, h);
    case Finish(i) => FinishKeeps(s, i);
    case Decide(i) => DecideKeeps(s, i);
    case Exit(i) => ExitKeeps(s, i);
    case Free(i) => FreeKeeps(s, i);
    case ReleaseParent(c) => ReleaseParentKeeps(s, c);
  }

  // ----------------------------------------------------------- every run

  /** `steps` can be taken one after the other from `s`. */
  ghost predicate Run(s: State, steps: seq<Step>)
    requires Inv(s)
    decreases |steps|
  {
    steps == [] || (Enabled(s, steps[0]) && (StepKeepsInv(s, steps[0]); Run(Apply(s, steps[0]), steps[1..])))
  }

  ghost function After(s: State, steps: seq<Step>): (t: State)
    requires Inv(s) && Run(s, steps)
    ensures Inv(t)
    decreases |steps|
  {
    if steps == [] then s else
    StepKeepsInv(s, steps[0]);
    After(Apply(s, steps[0]), steps[1..])
  }

  /** An isolate that has been freed stays freed: it never comes back, and no step frees it again. */
  lemma {:induction false} FreedOnce(s: State, steps: seq<Step>, i: Id)
    requires Inv(s) && Run(s, steps) && i in s.freed
    ensures i in After(s, steps).freed && i !in After(s, steps).isolates
    ensures Free(i) !in steps
    decreases |steps|
  {
    hide Inv, Enabled, Apply;
    FreedIsGone(s, i);
    if steps != [] {
      StepKeepsInv(s, steps[0]);
      FreedStays(s, steps[0], i);
      FreedOnce(Apply(s, steps[0]), steps[1..], i);
      assert steps == [steps[0]] + steps[1..];
    }
  }

  lemma FreedIsGone(s: State, i: Id)
    requires Inv(s) && i in s.freed
    ensures i !in s.isolates
  {
    hide Linked, Occupied, Joining, AllSettled, Holders;
  }

  lemma FreedStays(s: State, e: Step, i: Id)
    requires Inv(s) && Enabled(s, e) && i in s.freed
    ensures i in Apply(s, e).freed && e != Free(i)
  {
    hide Linked, Occupied, Settled, Holders;
  }

  /** No run frees an isolate twice. */
  lemma FreedAtMostOnce(s: State, before: seq<Step>, later: seq<Step>, i: Id)
    requires Inv(s) && Run(s, before + [Free(i)] + later)
    ensures Free(i) !in later
    decreases |before|
  {
    var steps := before + [Free(i)] + later;
    StepKeepsInv(s, steps[0]);
    if before == [] {
      assert steps[0] == Free(i) && steps[1..] == later;
      FreedOnce(Apply(s, Free(i)), later, i);
    } else {
      assert steps[1..] == before[1..] + [Free(i)] + later;
      FreedAtMostOnce(Apply(s, steps[0]), before[1..], later, i);
    }
  }

  // ---------------------------------------------------- what the counts say

  /** The handle count: live handles, the running thread, and parent links of children. */
  lemma CountIsOwners(s: State, i: Id)
    requires Inv(s) && i in s.isolates
    ensures s.isolates[i].count ==
      |set t | t in s.tokens && t.Handle? && s.tokens[t] == i|
      + (if Working(s.isolates[i].worker) then 1 else 0)
      + |set t | t in s.tokens && t.ParentOf? && s.tokens[t] == i|
  {
    ThreadToken(s, i);
    OwnThread(s, i);
    HoldersSplit(s.tokens, i);
    hide Linked, Occupied, Settled, Holders;
  }

  lemma OwnParent(s: State, i: Id)
    requires Linked(s) && i in s.isolates && !s.isolates[i].isMain
    ensures ParentOf(i) in s.tokens && s.tokens[ParentOf(i)] == s.isolates[i].parent
  {
  }

  lemma OwnThread(s: State, i: Id)
    requires Linked(s)
    ensures ThreadOf(i) in s.tokens ==> s.tokens[ThreadOf(i)] == i
    ensures forall k :: ThreadOf(k) in s.tokens && s.tokens[ThreadOf(k)] == i ==> k == i
  {
  }

  lemma ThreadHolders(tokens: map<Token, Id>, i: Id)
    requires ThreadOf(i) in tokens ==> tokens[ThreadOf(i)] == i
    requires forall k :: ThreadOf(k) in tokens && tokens[ThreadOf(k)] == i ==> k == i
    ensures (set t | t in tokens && t.ThreadOf? && tokens[t] == i)
      == if ThreadOf(i) in tokens then {ThreadOf(i)} else {}
  {
    forall t | t in tokens && t.ThreadOf? && tokens[t] == i ensures t == ThreadOf(i) {
      assert t == ThreadOf(t.iso);
    }
  }

  lemma Partition(tokens: map<Token, Id>, i: Id)
    ensures Holders(tokens, i) == (set t | t in tokens && t.Handle? && tokens[t] == i)
      + (set t | t in tokens && t.ThreadOf? && tokens[t] == i) + (set t | t in tokens && t.ParentOf? && tokens[t] == i)
  {
  }

  lemma HoldersSplit(tokens: map<Token, Id>, i: Id)
    requires ThreadOf(i) in tokens ==> tokens[ThreadOf(i)] == i
    requires forall k :: ThreadOf(k) in tokens && tokens[ThreadOf(k)] == i ==> k == i
    ensures |Holders(tokens, i)| ==
      |set t | t in tokens && t.Handle? && tokens[t] == i|
      + (if ThreadOf(i) in tokens then 1 else 0)
      + |set t | t in tokens && t.ParentOf? && tokens[t] == i|
  {
    hide Holders;
    ThreadHolders(tokens, i);
    Partition(tokens, i);
    Three(set t | t in tokens && t.Handle? && tokens[t] == i, set t | t in tokens && t.ThreadOf? && tokens[t] == i,
      set t | t in tokens && t.ParentOf? && tokens[t] == i);
  }

  lemma Three<T>(a: set<T>, b: set<T>, c: set<T>)
    requires a !! b && b !! c && a !! c
    ensures |a + b + c| == |a| + |b| + |c|
  {
  }

  /** An isolate is freed only when no handle, child or thread of it is left. */
  lemma FreedWhenUnheld(s: State, i: Id)
    requires Inv(s) && Enabled(s, Free(i))
    ensures i in s.isolates && !Working(s.isolates[i].worker)
    ensures forall t :: t in s.tokens ==> s.tokens[t] != i
  {
    NotHeld(s.tokens, i);
    ThreadToken(s, i);
    hide Linked, Occupied, Settled, Holders;
  }

  /** And nothing keeps it from being freed once that is so. */
  lemma UnheldIsFreed(s: State, i: Id)
    requires Inv(s) && i in s.isolates && forall t :: t in s.tokens ==> s.tokens[t] != i
    ensures Enabled(s, Free(i))
  {
    NobodyHolds(s.tokens, i);
    hide Occupied, Settled, Holders;
  }

  // ------------------------------------------------------- join and detach

  /**
    A thread is never both reaped by a join and detached, and at most one joiner
    is after it. By the time it is gone and no claim is pending it has been
    reaped or detached if and only if its claimed join was not refused.
   */
  lemma JoinedOrDetached(s: State, i: Id)
    requires Inv(s) && i in s.isolates
    ensures var x := s.isolates[i];
      && !(x.reaped && x.detached)
      && (x.worker == Exited && !Claims(s, i) ==> (x.reaped || x.detached <==> !x.refused))
    ensures forall t, u :: Joiner(s, t) && Joiner(s, u) && s.tokens[t] == i && s.tokens[u] == i ==> t == u
  {
    hide Counted, Linked, Holders, Joiner;
    SettledAt(s, i);
  }

  /** A claimed join is refused exactly when it is a join of oneself or of a thread that is joining the caller. */
  lemma RefusedIfDeadlocked(s: State, h: Token)
    requires Inv(s) && Enabled(s, EnterJoin(h))
    ensures s.tokens[h] in s.isolates && s.tokens[h] in Apply(s, EnterJoin(h)).isolates
    ensures Apply(s, EnterJoin(h)).isolates[s.tokens[h]].refused <==> Deadlocked(s, h)
  {
    hide Counted, Linked, Joining, AllSettled, Alone, LaunchesFresh, Deadlocked;
    NotDangling(s);
    ClaimIsOpen(s, h);
  }

  /**
    A `join` that waits returns with the thread done if and only if it was not
    refused, that is, unless it is a join of oneself or a mutual one.
   */
  lemma JoinReturnsWhenDone(s: State, h: Token)
    requires Inv(s) && Enabled(s, JoinReturns(h))
    ensures s.tokens[h] in s.isolates
    ensures s.isolates[s.tokens[h]].done <==> !Deadlocked(s, h)
  {
    hide Counted, Linked, AllSettled, Alone, ClaimsOpen, LaunchesFresh, Claims;
    NotDangling(s);
    SettledAt(s, s.tokens[h]);
    if Deadlocked(s, h) {
      DeadlockedIsRunning(s, h);
    }
  }

  lemma DeadlockedIsRunning(s: State, h: Token)
    requires Inside(s) && h in s.busy && Deadlocked(s, h)
    ensures s.tokens[h] in s.isolates && s.isolates[s.tokens[h]].worker == Running
  {
    if h.home != s.tokens[h] {
      var g :| WaitsBack(s, h, g);
    }
  }

  /** What was refused stays so: in every run the thread remains neither reaped nor detached. */
  lemma {:induction false} RefusedIsLost(s: State, steps: seq<Step>, i: Id)
    requires Inv(s) && Run(s, steps) && i in s.isolates && s.isolates[i].refused && i in After(s, steps).isolates
    ensures var x := After(s, steps).isolates[i]; x.refused && !x.reaped && !x.detached
    decreases |steps|
  {
    hide Counted, Linked, Occupied, Joining, AllSettled;
    SettledAt(s, i);
    if steps != [] {
      var e := steps[0];
      StepKeepsInv(s, e);
      if i in Apply(s, e).isolates {
        RefusedStays(s, e, i);
        RefusedIsLost(Apply(s, e), steps[1..], i);
      } else {
        GoneStaysGone(s, e, i);
        FreedOnce(Apply(s, e), steps[1..], i);
      }
    }
  }

  /** What an isolate does not go back on. */
  predicate Later(x: Isolate, y: Isolate) {
    (x.refused ==> y.refused) && (x.worker == Never ==> y.worker == Never)
  }

  ghost predicate LaterAt(s: State, u: State, i: Id) {
    i in s.isolates && i in u.isolates && Later(s.isolates[i], u.isolates[i])
  }

  lemma UpdateLater(s: State, k: Id, x: Isolate, i: Id)
    requires i in s.isolates && (k in s.isolates ==> Later(s.isolates[k], x))
    ensures LaterAt(s, Update(s, k, x), i)
  {
  }

  lemma RetainLater(s: State, u: State, t: Token, k: Id, i: Id)
    requires LaterAt(s, u, i) && k in u.isolates
    ensures LaterAt(s, Retain(u, t, k), i)
  {
  }

  lemma ReleaseLater(s: State, u: State, t: Token, i: Id)
    requires LaterAt(s, u, i) && t in u.tokens && u.tokens[t] in u.isolates
    ensures LaterAt(s, Release(u, t), i)
  {
  }

  lemma BusyLater(s: State, u: State, v: State, i: Id)
    requires LaterAt(s, u, i) && v.isolates == u.isolates
    ensures LaterAt(s, v, i)
  {
  }

  lemma Unchanged(s: State, i: Id)
    requires i in s.isolates
    ensures LaterAt(s, s, i)
  {
  }

  lemma UpdateKeys(s: State, k: Id, x: Isolate)
    ensures Update(s, k, x).isolates.Keys == s.isolates.Keys + {k} && Update(s, k, x).tokens == s.tokens
  {
  }

  lemma CreatedLater(s: State, p: Id, c: Id, h: Token, i: Id)
    requires i in s.isolates && p in s.isolates && p != c && c !in s.isolates
    ensures LaterAt(s, Created(s, p, c, h), i)
  {
    hide Retain, Update, LaterAt;
    var born := Update(s, c, Newborn(p));
    UpdateLater(s, c, Newborn(p), i);
    UpdateKeys(s, c, Newborn(p));
    var u := born.(tokens := s.tokens[h := c], busy := s.busy[h := Launching]);
    BusyLater(s, born, u, i);
    RetainLater(s, u, ParentOf(c), p, i);
  }

  lemma HeldLater(s: State, h: Token, worker: Worker, native: bool, launched: bool, i: Id)
    requires i in s.isolates && h in s.tokens && s.tokens[h] in s.isolates
    requires s.isolates[s.tokens[h]].worker == Never ==> worker == Never
    ensures var u := OnHeld(s, h, worker, native, launched);
      LaterAt(s, u, i) && u.isolates.Keys == s.isolates.Keys && u.tokens == s.tokens
  {
  }

  lemma IsolateLater(s: State, k: Id, worker: Worker, detached: bool, done: bool, i: Id)
    requires i in s.isolates && k in s.isolates && s.isolates[k].worker != Never
    ensures var u := OnIsolate(s, k, worker, detached, done);
      LaterAt(s, u, i) && u.isolates.Keys == s.isolates.Keys && u.tokens == s.tokens
  {
  }

  lemma JoinedLater(s: State, h: Token, k: Id, i: Id)
    requires i in s.isolates && k in s.isolates
    ensures LaterAt(s, Joined(s, h, k), i) && LaterAt(s, Entered(s, h, k), i)
    ensures h in s.busy ==> LaterAt(s, Returned(s, h, k), i)
  {
    hide Deadlocked;
  }

  lemma FreedLater(s: State, k: Id, i: Id)
    requires i in s.isolates
    ensures if k == i then i in Freed(s, k).freed && i !in Freed(s, k).isolates else LaterAt(s, Freed(s, k), i)
  {
  }

  /** An isolate is there after a step and has not gone back on anything, or it has been freed. */
  lemma StepIsLater(s: State, e: Step, i: Id)
    requires Inv(s) && Enabled(s, e) && i in s.isolates
    ensures if e == Free(i) then i in Apply(s, e).freed && i !in Apply(s, e).isolates else LaterAt(s, Apply(s, e), i)
  {
    if e.Join? || e.EnterJoin? || e.JoinReturns? {
      JoinIsLater(s, e, i);
    } else if e.Finish? {
      FinishIsLater(s, e.iso, i);
    } else if e.Decide? {
      DecideIsLater(s, e.iso, i);
    } else if e.Exit? {
      ExitIsLater(s, e.iso, i);
    } else if e.Free? {
      FreedLater(s, e.iso, i);
    } else {
      HoldIsLater(s, e, i);
    }
    hide Inv, Enabled, Freed, LaterAt;
  }

  lemma HoldIsLater(s: State, e: Step, i: Id)
    requires Inv(s) && Enabled(s, e) && i in s.isolates && !e.Finish? && !e.Decide? && !e.Exit? && !e.Free?
    requires !e.Join? && !e.EnterJoin? && !e.JoinReturns?
    ensures LaterAt(s, Apply(s, e), i)
  {
    NotDangling(s);
    Unchanged(s, i);
    OwnTokens(s);
    hide LaterAt, Retain, Release, OnIsolate;
    match e
    case Create(p, c, h) => CreatedLater(s, p, c, h, i);
    case BootFails(_) => LaunchIsLater(s, e, i);
    case Prepare(_) => LaunchIsLater(s, e, i);
    case Spawn(_) => LaunchIsLater(s, e, i);
    case SpawnFails(_) => LaunchIsLater(s, e, i);
    case MarkLaunched(_) => LaunchIsLater(s, e, i);
    case CopyHandle(from, to) => RetainLater(s, s, to, s.tokens[from], i);
    case HandleToSelf(k, to) => RetainLater(s, s, to, k, i);
    case HandleToParent(k, to) => ParentLater(s, k, to, i);
    case DropHandle(h) => ReleaseLater(s, s, h, i);
    case ReleaseParent(c) => ReleaseLater(s, s, ParentOf(c), i);
    hide Inv, LaterAt, Created, Holds;
  }

  lemma JoinIsLater(s: State, e: Step, i: Id)
    requires Inv(s) && Enabled(s, e) && i in s.isolates && (e.Join? || e.EnterJoin? || e.JoinReturns?)
    ensures LaterAt(s, Apply(s, e), i)
  {
    NotDangling(s);
    JoinedLater(s, e.handle, s.tokens[e.handle], i);
    hide Inv, LaterAt, Joined, Entered, Returned, Deadlocked;
  }

  lemma DecideIsLater(s: State, k: Id, i: Id)
    requires Inv(s) && Enabled(s, Decide(k)) && i in s.isolates
    ensures LaterAt(s, Apply(s, Decide(k)), i)
  {
    IsolateLater(s, k, Decided, !s.isolates[k].joined, true, i);
    hide Inv, LaterAt, OnIsolate;
  }

  lemma ExitIsLater(s: State, k: Id, i: Id)
    requires Inv(s) && Enabled(s, Exit(k)) && i in s.isolates
    ensures LaterAt(s, Apply(s, Exit(k)), i)
  {
    ThreadHolds(s, k);
    IsolateLater(s, k, Exited, s.isolates[k].detached, true, i);
    ReleaseLater(s, OnIsolate(s, k, Exited, s.isolates[k].detached, true), ThreadOf(k), i);
    hide Inv, LaterAt, Release, OnIsolate;
  }

  lemma ThreadHolds(s: State, k: Id)
    requires Inv(s) && k in s.isolates && s.isolates[k].worker == Decided
    ensures ThreadOf(k) in s.tokens && s.tokens[ThreadOf(k)] == k
  {
    hide Occupied, Joining, AllSettled, Holders;
  }

  lemma FinishIsLater(s: State, k: Id, i: Id)
    requires Inv(s) && Enabled(s, Finish(k)) && i in s.isolates
    ensures LaterAt(s, Apply(s, Finish(k)), i)
  {
    IsolateLater(s, k, Finished, false, true, i);
    hide Inv, LaterAt, OnIsolate;
  }

  /** An isolate is held by its thread, while there is one, and holds its parent. */
  lemma OwnTokens(s: State)
    requires Inv(s)
    ensures forall k {:trigger ThreadOf(k)} :: k in s.isolates && s.isolates[k].worker in {Prepared, Decided} ==>
      ThreadOf(k) in s.tokens && s.tokens[ThreadOf(k)] == k
    ensures forall k :: k in s.isolates && !s.isolates[k].isMain ==> s.isolates[k].parent in s.isolates
  {
    hide Occupied, Joining, AllSettled, Holders;
    forall k | k in s.isolates && !s.isolates[k].isMain ensures s.isolates[k].parent in s.isolates {
      assert s.tokens[ParentOf(k)] == s.isolates[k].parent;
    }
  }

  lemma ParentLater(s: State, k: Id, to: Token, i: Id)
    requires Inv(s) && Enabled(s, HandleToParent(k, to)) && i in s.isolates
    ensures LaterAt(s, Apply(s, HandleToParent(k, to)), i)
  {
    NotDangling(s);
    OwnTokens(s);
    Unchanged(s, i);
    hide Inv, LaterAt, Retain, FreshHandle;
    RetainLater(s, s, to, s.isolates[k].parent, i);
  }

  lemma LaunchIsLater(s: State, e: Step, i: Id)
    requires Inv(s) && Enabled(s, e) && i in s.isolates
    requires e.BootFails? || e.Prepare? || e.Spawn? || e.SpawnFails? || e.MarkLaunched?
    ensures LaterAt(s, Apply(s, e), i)
  {
    NotDangling(s);
    OwnTokens(s);
    hide Inv, Retain, Release, OnHeld, LaterAt;
    var h, k := e.handle, s.tokens[e.handle];
    match e
    case BootFails(_) => HeldLater(s, h, Never, false, false, i);
      BusyLater(s, OnHeld(s, h, Never, false, false), OnHeld(s, h, Never, false, false).(busy := s.busy - {h}), i);
    case Prepare(_) => HeldLater(s, h, Prepared, true, false, i);
      RetainLater(s, OnHeld(s, h, Prepared, true, false), ThreadOf(k), k, i);
    case Spawn(_) => HeldLater(s, h, Running, true, false, i);
    case SpawnFails(_) => HeldLater(s, h, Never, true, false, i);
      var u := OnHeld(s, h, Never, true, false).(busy := s.busy - {h});
      BusyLater(s, OnHeld(s, h, Never, true, false), u, i);
      ReleaseLater(s, u, ThreadOf(k), i);
    case MarkLaunched(_) => HeldLater(s, h, s.isolates[k].worker, true, true, i);
      var u := OnHeld(s, h, s.isolates[k].worker, true, true);
      BusyLater(s, u, u.(busy := s.busy - {h}), i);
  }

  lemma RefusedStays(s: State, e: Step, i: Id)
    requires Inv(s) && Enabled(s, e) && i in s.isolates && s.isolates[i].refused && i in Apply(s, e).isolates
    ensures Apply(s, e).isolates[i].refused
  {
    StepIsLater(s, e, i);
    hide Inv, Enabled, Apply;
  }

  lemma GoneStaysGone(s: State, e: Step, i: Id)
    requires Inv(s) && Enabled(s, e) && i in s.isolates && i !in Apply(s, e).isolates
    ensures i in Apply(s, e).freed
  {
    StepIsLater(s, e, i);
    hide Inv, Enabled, Apply;
  }

  /** A `join` does not wait exactly when there is no thread behind the handle that `start` has made. */
  lemma JoinWithoutThread(s: State, h: Token)
    requires Inv(s) && Enabled(s, Join(h))
    ensures s.tokens[h] in s.isolates
    ensures var x := s.isolates[s.tokens[h]];
      h !in Apply(s, Join(h)).busy <==> x.isMain || x.worker == Starting || (x.worker == Never && !x.native)
  {
    hide Counted, Linked, Occupied, Joining, AllSettled;
    NotDangling(s);
    SettledAt(s, s.tokens[h]);
  }

  /** After a `start` that could not create its thread, a `join` waits for ever: no run lets it return. */
  lemma {:induction false} JoinOfNothing(s: State, steps: seq<Step>, h: Token)
    requires Inv(s) && Run(s, steps) && h in s.busy && s.busy[h] == Polling && h in s.tokens
    requires s.tokens[h] in s.isolates
    requires s.isolates[s.tokens[h]].worker == Never
    ensures JoinReturns(h) !in steps
    decreases |steps|
  {
    hide Counted, Linked, Occupied, Joining, AllSettled;
    if steps != [] {
      var e := steps[0];
      StepKeepsInv(s, e);
      NothingStays(s, e, h);
      JoinOfNothing(Apply(s, e), steps[1..], h);
      assert steps == [e] + steps[1..];
    }
  }

  lemma NothingStays(s: State, e: Step, h: Token)
    requires Inv(s) && Enabled(s, e) && h in s.busy && s.busy[h] == Polling && h in s.tokens
    requires s.tokens[h] in s.isolates
    requires s.isolates[s.tokens[h]].worker == Never
    ensures e != JoinReturns(h)
    ensures var t := Apply(s, e);
      && h in t.busy && t.busy[h] == Polling && h in t.tokens && t.tokens[h] == s.tokens[h]
      && s.tokens[h] in t.isolates && t.isolates[s.tokens[h]].worker == Never
  {
    hide Counted, Linked, Occupied, Joining, AllSettled, Apply, Enabled;
    PollerNotDone(s, e, h);
    PollerStays(s, e, h);
    StepKeepsInv(s, e);
    NotDangling(Apply(s, e));
    NeverStays(s, e, s.tokens[h]);
  }

  lemma PollerNotDone(s: State, e: Step, h: Token)
    requires Inv(s) && Enabled(s, e) && h in s.busy && s.busy[h] == Polling && h in s.tokens
    requires s.tokens[h] in s.isolates
    requires s.isolates[s.tokens[h]].worker == Never
    ensures e != JoinReturns(h)
  {
    hide Counted, Linked, Occupied, Joining, AllSettled, Apply;
    SettledAt(s, s.tokens[h]);
  }

  lemma PollerStays(s: State, e: Step, h: Token)
    requires Inv(s) && Enabled(s, e) && e != JoinReturns(h) && h in s.busy && s.busy[h] == Polling && h in s.tokens
    ensures h in Apply(s, e).busy && Apply(s, e).busy[h] == Polling
    ensures h in Apply(s, e).tokens && Apply(s, e).tokens[h] == s.tokens[h]
  {
    hide Counted, Linked, Occupied, Joining, AllSettled, Deadlocked;
    BusyAreHandles(s);
  }

  lemma NeverStays(s: State, e: Step, i: Id)
    requires Inv(s) && Enabled(s, e) && i in s.isolates && s.isolates[i].worker == Never && i in Apply(s, e).isolates
    ensures Apply(s, e).isolates[i].worker == Never
  {
    StepIsLater(s, e, i);
    hide Inv, Enabled, Apply;
  }

  // --------------------------------------------------- what the steps achieve

  /** Dropping a handle takes it away and no other, and the last holder's going lets the isolate be freed at once. */
  lemma DropHandleFrees(s: State, h: Token)
    requires Inv(s) && h.Handle? && h in s.tokens && h !in s.busy
    ensures Enabled(s, DropHandle(h)) && Inv(Apply(s, DropHandle(h))) && s.tokens[h] in s.isolates
    ensures var t := Apply(s, DropHandle(h));
      && t.tokens == s.tokens - {h} && t.isolates.Keys == s.isolates.Keys && t.busy == s.busy && t.freed == s.freed
      && t.isolates[s.tokens[h]].count == s.isolates[s.tokens[h]].count - 1
      && ((forall g :: g in s.tokens && s.tokens[g] == s.tokens[h] ==> g == h) ==> Enabled(t, Free(s.tokens[h])))
  {
    hide Inv;
    NoneDangles(s);
    StepKeepsInv(s, DropHandle(h));
    if forall g :: g in s.tokens && s.tokens[g] == s.tokens[h] ==> g == h {
      UnheldIsFreed(Apply(s, DropHandle(h)), s.tokens[h]);
    }
  }

  /** The parent of a freed isolate loses this holder, and can be freed at once if it was the last. */
  lemma FreedReleasesParent(s: State, c: Id)
    requires Inv(s) && Enabled(s, Free(c)) && c in s.isolates && !s.isolates[c].isMain
    ensures var p := s.isolates[c].parent;
      && ParentOf(c) in s.tokens && s.tokens[ParentOf(c)] == p
      && Inv(Apply(s, Free(c))) && Enabled(Apply(s, Free(c)), ReleaseParent(c))
    ensures var p, t := s.isolates[c].parent, Apply(Apply(s, Free(c)), ReleaseParent(c));
      && Inv(t) && t.tokens == s.tokens - {ParentOf(c)} && c !in t.isolates && c in t.freed
      && ((forall g :: g in s.tokens && s.tokens[g] == p ==> g == ParentOf(c)) ==> Enabled(t, Free(p)))
  {
    hide Inv, Freed, Release;
    ParentHolds(s, c);
    FreeStep(s, c);
    StepKeepsInv(s, Free(c));
    FreedFacts(s, c);
    var t := Freed(s, c);
    ReleaseParentStep(t, c);
    ReleaseFacts(t, ParentOf(c));
    var u := Release(t, ParentOf(c));
    var p := s.isolates[c].parent;
    if forall g :: g in s.tokens && s.tokens[g] == p ==> g == ParentOf(c) {
      UnheldIsFreed(u, p);
    }
  }

  lemma FreedFacts(s: State, c: Id)
    requires Inv(s) && Enabled(s, Free(c))
    ensures var t := Freed(s, c);
      && t.tokens == s.tokens && t.isolates == s.isolates - {c} && c in t.freed
      && forall g :: g in t.tokens ==> t.tokens[g] in t.isolates
  {
    hide Linked, Occupied, Joining, AllSettled, Holders;
    NobodyHas(s, c);
  }

  lemma NobodyHas(s: State, c: Id)
    requires Inv(s) && c in s.dying
    ensures forall g :: g in s.tokens ==> s.tokens[g] != c
  {
    hide Linked, Occupied, Joining, AllSettled, Holders;
    NotHeld(s.tokens, c);
  }

  lemma ReleaseFacts(s: State, t: Token)
    requires t in s.tokens && s.tokens[t] in s.isolates
    ensures var u := Release(s, t);
      u.tokens == s.tokens - {t} && u.isolates.Keys == s.isolates.Keys && u.freed == s.freed && u.busy == s.busy
  {
  }

  lemma NoneDangles(s: State)
    requires Inv(s)
    ensures forall t :: t in s.tokens ==> s.tokens[t] in s.isolates
  {
    hide Linked, Occupied, Joining, AllSettled, Holders;
  }

  lemma ParentHolds(s: State, c: Id)
    requires Inv(s) && c in s.isolates && !s.isolates[c].isMain
    ensures ParentOf(c) in s.tokens && s.tokens[ParentOf(c)] == s.isolates[c].parent
  {
    hide Occupied, Joining, AllSettled, Holders;
  }

  /** A copy of a handle names the same isolate, which is held once more. */
  lemma CopiedHandleNames(s: State, from: Token, to: Token)
    requires Inv(s) && from.Handle? && from in s.tokens && to.Handle? && to !in s.tokens
    ensures Enabled(s, CopyHandle(from, to)) && s.tokens[from] in s.isolates
    ensures var i, t := s.tokens[from], Apply(s, CopyHandle(from, to));
      && t.tokens == s.tokens[to := i] && t.isolates.Keys == s.isolates.Keys
      && t.isolates[i].count == s.isolates[i].count + 1
  {
    hide Inv;
    NoneDangles(s);
  }

  /** A thread's own handle names its isolate, and its parent handle the isolate that started it. */
  lemma OwnHandlesName(s: State, i: Id, to: Token)
    requires Inv(s) && i in s.isolates && s.isolates[i].worker == Running && to.Handle? && to !in s.tokens
    requires forall t :: t in s.busy && t.Handle? ==> t.home != i
    ensures Enabled(s, HandleToSelf(i, to))
    ensures var t := Apply(s, HandleToSelf(i, to));
      t.tokens == s.tokens[to := i] && t.isolates[i].count == s.isolates[i].count + 1
    ensures !s.isolates[i].isMain ==> Enabled(s, HandleToParent(i, to)) && s.isolates[i].parent in s.isolates
    ensures !s.isolates[i].isMain ==>
      var p, t := s.isolates[i].parent, Apply(s, HandleToParent(i, to));
      && p in t.isolates && t.tokens == s.tokens[to := p] && t.isolates[p].count == s.isolates[p].count + 1
  {
    hide Inv;
    OwnTokens(s);
  }

  /** A join that comes second, or to a thread that is detached or was never launched, polls until it is done. */
  lemma LateJoinPolls(s: State, h: Token)
    requires Inv(s) && h.Handle? && h in s.tokens && h !in s.busy && s.tokens[h] in s.isolates
    requires h.home in s.isolates && s.isolates[h.home].worker == Running
    requires forall t :: t in s.busy && t.Handle? ==> t.home != h.home
    requires var x := s.isolates[s.tokens[h]]; x.native && (!x.launched || x.joined || x.detached)
    ensures Enabled(s, Join(h)) && Apply(s, Join(h)) == s.(busy := s.busy[h := Polling])
    ensures Inv(s.(busy := s.busy[h := Polling]))
    ensures Enabled(s.(busy := s.busy[h := Polling]), JoinReturns(h)) <==> s.isolates[s.tokens[h]].done
  {
    hide Inv;
    StepKeepsInv(s, Join(h));
  }

  // ------------------------------------------------------------ whole lives

  /** The thread of `p` runs its own code. */
  ghost predicate ActiveParent(s: State, p: Id) {
    && p in s.isolates && s.isolates[p].worker == Running
    && forall t :: t in s.busy && t.Handle? ==> t.home != p
  }

  /** Nothing names the isolate `c` yet, and `h` is a new handle of `p`, which is held. */
  ghost predicate Unborn(s: State, p: Id, c: Id, h: Token) {
    && h.Handle? && h.home == p && p in s.isolates && p != c && c !in s.isolates && c !in s.freed && c !in s.dying
    && h !in s.tokens && h !in s.busy && ThreadOf(c) !in s.tokens && ParentOf(c) !in s.tokens
    && (forall t :: t in s.busy && t.Handle? ==> t.home != c) && s.isolates[p].count > 0
  }

  /** The state with the child `c` of `p` as `x`, the handle `h` on it, and its thread's handle or not. */
  ghost function Child(
      s: State, p: Id, c: Id, h: Token, x: Isolate, own: bool, busy: map<Token, Activity>): State
    requires p in s.isolates
  {
    var held := s.tokens[h := c][ParentOf(c) := p];
    s.(isolates := s.isolates[p := s.isolates[p].(count := s.isolates[p].count + 1)][c := x],
       tokens := if own then held[ThreadOf(c) := c] else held, busy := busy)
  }

  lemma FreshIsUnborn(s: State, p: Id, c: Id, h: Token)
    requires Inv(s) && ActiveParent(s, p) && c !in s.isolates && c !in s.freed && h.Handle? && h.home == p
    requires h !in s.tokens
    ensures Unborn(s, p, c, h) && p in s.isolates && p != c
  {
    Held(s.tokens, ThreadOf(p)) by {
      OwnTokens(s);
    }
    hide Joining, AllSettled;
  }

  /** What can be read of that state. */
  lemma ChildFacts(s: State, p: Id, c: Id, h: Token, x: Isolate, own: bool, busy: map<Token, Activity>)
    requires Unborn(s, p, c, h)
    ensures var u := Child(s, p, c, h, x, own, busy);
      && c in u.isolates && u.isolates[c] == x && h in u.tokens && u.tokens[h] == c && h.Handle? && u.busy == busy
      && (own ==> ThreadOf(c) in u.tokens && u.tokens[ThreadOf(c)] == c) && (own <== ThreadOf(c) in u.tokens)
      && p in u.isolates && u.isolates[p].worker == s.isolates[p].worker && p == h.home
    ensures forall t :: t in s.busy && t.Handle? ==> t.home != c
    ensures h !in s.busy
  {
  }

  lemma UnbornParent(s: State, p: Id, c: Id, h: Token)
    requires Unborn(s, p, c, h)
    ensures p in s.isolates && p != c && c !in s.isolates
  {
  }

  lemma UpdatedChild(s: State, p: Id, c: Id, h: Token, x: Isolate, own: bool, busy: map<Token, Activity>, y: Isolate)
    requires Unborn(s, p, c, h)
    ensures Update(Child(s, p, c, h, x, own, busy), c, y) == Child(s, p, c, h, y, own, busy)
  {
  }

  lemma HeldChild(
      s: State, p: Id, c: Id, h: Token, x: Isolate, own: bool, busy: map<Token, Activity>,
      worker: Worker, native: bool, launched: bool)
    requires Unborn(s, p, c, h)
    ensures var u := Child(s, p, c, h, x, own, busy);
      && h in u.tokens && u.tokens[h] in u.isolates
      && OnHeld(u, h, worker, native, launched)
         == Child(s, p, c, h, x.(worker := worker, native := native, launched := launched), own, busy)
  {
    hide Child, Update, Unborn;
    UnbornParent(s, p, c, h);
    ChildFacts(s, p, c, h, x, own, busy);
    UpdatedChild(s, p, c, h, x, own, busy, x.(worker := worker, native := native, launched := launched));
  }

  lemma EndedChild(
      s: State, p: Id, c: Id, h: Token, x: Isolate, own: bool, busy: map<Token, Activity>,
      worker: Worker, detached: bool, done: bool)
    requires Unborn(s, p, c, h)
    ensures var u := Child(s, p, c, h, x, own, busy);
      && c in u.isolates
      && OnIsolate(u, c, worker, detached, done)
         == Child(s, p, c, h, x.(worker := worker, detached := detached, done := done), own, busy)
  {
    hide Child, Update, Unborn;
    UnbornParent(s, p, c, h);
    ChildFacts(s, p, c, h, x, own, busy);
    UpdatedChild(s, p, c, h, x, own, busy, x.(worker := worker, detached := detached, done := done));
  }

  lemma RetainedChild(s: State, p: Id, c: Id, h: Token, x: Isolate, busy: map<Token, Activity>)
    requires Unborn(s, p, c, h)
    ensures var u := Child(s, p, c, h, x, false, busy);
      c in u.isolates && Retain(u, ThreadOf(c), c) == Child(s, p, c, h, x.(count := x.count + 1), true, busy)
  {
  }

  lemma ReleasedChild(s: State, p: Id, c: Id, h: Token, x: Isolate, busy: map<Token, Activity>)
    requires Unborn(s, p, c, h) && x.count == 2
    ensures var u := Child(s, p, c, h, x, true, busy);
      && ThreadOf(c) in u.tokens && u.tokens[ThreadOf(c)] in u.isolates
      && Release(u, ThreadOf(c)) == Child(s, p, c, h, x.(count := 1), false, busy)
  {
    var u := Child(s, p, c, h, x, true, busy);
    assert u.tokens - {ThreadOf(c)} == s.tokens[h := c][ParentOf(c) := p];
  }

  lemma IdleChild(s: State, p: Id, c: Id, h: Token, x: Isolate, own: bool, a: Activity)
    requires Unborn(s, p, c, h)
    ensures s.busy[h := a] - {h} == s.busy
    ensures Child(s, p, c, h, x, own, s.busy[h := a]).(busy := s.busy[h := a] - {h})
      == Child(s, p, c, h, x, own, s.busy)
    ensures s.busy[h := a][h := Waiting] == s.busy[h := Waiting]
  {
  }

  lemma BusyChild(
      s: State, p: Id, c: Id, h: Token, x: Isolate, own: bool, a: map<Token, Activity>, b: map<Token, Activity>)
    requires Unborn(s, p, c, h)
    ensures Child(s, p, c, h, x, own, a).(busy := b) == Child(s, p, c, h, x, own, b)
  {
  }

  lemma ExitStep(s: State, c: Id)
    requires Inv(s) && c in s.isolates && s.isolates[c].worker == Decided
    ensures Enabled(s, Exit(c)) && Inv(Apply(s, Exit(c)))
    ensures var u := OnIsolate(s, c, Exited, s.isolates[c].detached, true);
      && ThreadOf(c) in u.tokens && u.tokens[ThreadOf(c)] in u.isolates
      && Apply(s, Exit(c)) == Release(u, ThreadOf(c))
  {
    hide Inv, Release;
    ThreadHolds(s, c);
    StepKeepsInv(s, Exit(c));
  }

  lemma SpawnFailsStep(s: State, h: Token)
    requires Inv(s) && Enabled(s, SpawnFails(h)) && h in s.tokens && s.tokens[h] in s.isolates
    ensures Inv(Apply(s, SpawnFails(h)))
    ensures var u := OnHeld(s, h, Never, true, false).(busy := s.busy - {h});
      && ThreadOf(s.tokens[h]) in u.tokens && u.tokens[ThreadOf(s.tokens[h])] in u.isolates
      && Apply(s, SpawnFails(h)) == Release(u, ThreadOf(s.tokens[h]))
  {
    hide Inv, Release, Launches;
    StepReads(s, SpawnFails(h));
    StepKeepsInv(s, SpawnFails(h));
  }

  lemma CreatedChild(s: State, p: Id, c: Id, h: Token)
    requires Unborn(s, p, c, h)
    ensures Created(s, p, c, h) == Child(s, p, c, h, Newborn(p), false, s.busy[h := Launching])
  {
  }

  lemma CreateChild(s: State, p: Id, c: Id, h: Token)
    requires Inv(s) && ActiveParent(s, p) && Unborn(s, p, c, h)
    ensures Enabled(s, Create(p, c, h))
    ensures var u := Child(s, p, c, h, Newborn(p), false, s.busy[h := Launching]);
      Apply(s, Create(p, c, h)) == u && Inv(u)
  {
    hide Inv, Child, Created;
    CreatedChild(s, p, c, h);
    StepKeepsInv(s, Create(p, c, h));
  }

  lemma PrepareChild(s: State, p: Id, c: Id, h: Token, x: Isolate)
    requires Unborn(s, p, c, h) && Inv(Child(s, p, c, h, x, false, s.busy[h := Launching])) && x.worker == Starting
    ensures var u := Child(s, p, c, h, x, false, s.busy[h := Launching]);
      var y := x.(worker := Prepared, native := true, launched := false, count := x.count + 1);
      var v := Child(s, p, c, h, y, true, s.busy[h := Launching]);
      Enabled(u, Prepare(h)) && Apply(u, Prepare(h)) == v && Inv(v)
  {
    hide Inv, Child, Unborn, Retain, Release, OnHeld, OnIsolate, Joined, Returned, Entered, Deadlocked, Update;
    UnbornParent(s, p, c, h);
    var u := Child(s, p, c, h, x, false, s.busy[h := Launching]);
    ChildFacts(s, p, c, h, x, false, s.busy[h := Launching]);
    HeldChild(s, p, c, h, x, false, s.busy[h := Launching], Prepared, true, false);
    RetainedChild(s, p, c, h, x.(worker := Prepared, native := true, launched := false), s.busy[h := Launching]);
    StepKeepsInv(u, Prepare(h));
  }

  lemma BootFailsChild(s: State, p: Id, c: Id, h: Token, x: Isolate)
    requires Unborn(s, p, c, h) && Inv(Child(s, p, c, h, x, false, s.busy[h := Launching])) && x.worker == Starting
    ensures var u := Child(s, p, c, h, x, false, s.busy[h := Launching]);
      var y := x.(worker := Never, native := false, launched := false);
      var v := Child(s, p, c, h, y, false, s.busy);
      Enabled(u, BootFails(h)) && Apply(u, BootFails(h)) == v && Inv(v)
  {
    hide Inv, Child, Unborn, Retain, Release, OnHeld, OnIsolate, Joined, Returned, Entered, Deadlocked, Update;
    UnbornParent(s, p, c, h);
    var u := Child(s, p, c, h, x, false, s.busy[h := Launching]);
    ChildFacts(s, p, c, h, x, false, s.busy[h := Launching]);
    HeldChild(s, p, c, h, x, false, s.busy[h := Launching], Never, false, false);
    IdleChild(s, p, c, h, x.(worker := Never, native := false, launched := false), false, Launching);
    StepKeepsInv(u, BootFails(h));
  }

  lemma SpawnChild(s: State, p: Id, c: Id, h: Token, x: Isolate)
    requires Unborn(s, p, c, h) && Inv(Child(s, p, c, h, x, true, s.busy[h := Launching])) && x.worker == Prepared
    ensures var u := Child(s, p, c, h, x, true, s.busy[h := Launching]);
      var y := x.(worker := Running, native := true, launched := false);
      var v := Child(s, p, c, h, y, true, s.busy[h := Launching]);
      Enabled(u, Spawn(h)) && Apply(u, Spawn(h)) == v && Inv(v)
  {
    hide Inv, Child, Unborn, Retain, Release, OnHeld, OnIsolate, Joined, Returned, Entered, Deadlocked, Update;
    UnbornParent(s, p, c, h);
    var u := Child(s, p, c, h, x, true, s.busy[h := Launching]);
    ChildFacts(s, p, c, h, x, true, s.busy[h := Launching]);
    HeldChild(s, p, c, h, x, true, s.busy[h := Launching], Running, true, false);
    StepKeepsInv(u, Spawn(h));
  }

  lemma SpawnFailsChild(s: State, p: Id, c: Id, h: Token, x: Isolate)
    requires Unborn(s, p, c, h) && Inv(Child(s, p, c, h, x, true, s.busy[h := Launching])) && x.worker == Prepared
    requires x.count == 2
    ensures var u := Child(s, p, c, h, x, true, s.busy[h := Launching]);
      var y := x.(worker := Never, native := true, launched := false, count := 1);
      var v := Child(s, p, c, h, y, false, s.busy);
      Enabled(u, SpawnFails(h)) && Apply(u, SpawnFails(h)) == v && Inv(v)
  {
    hide Inv, Child, Unborn, Apply, Release, OnHeld;
    UnbornParent(s, p, c, h);
    var u := Child(s, p, c, h, x, true, s.busy[h := Launching]);
    ChildFacts(s, p, c, h, x, true, s.busy[h := Launching]);
    HeldChild(s, p, c, h, x, true, s.busy[h := Launching], Never, true, false);
    IdleChild(s, p, c, h, x.(worker := Never, native := true, launched := false), true, Launching);
    ReleasedChild(s, p, c, h, x.(worker := Never, native := true, launched := false), s.busy);
    assert Enabled(u, SpawnFails(h));
    SpawnFailsStep(u, h);
  }

  lemma LaunchChild(s: State, p: Id, c: Id, h: Token, x: Isolate)
    requires Unborn(s, p, c, h) && Inv(Child(s, p, c, h, x, true, s.busy[h := Launching])) && x.worker == Running
    ensures var u := Child(s, p, c, h, x, true, s.busy[h := Launching]);
      var y := x.(native := true, launched := true);
      var v := Child(s, p, c, h, y, true, s.busy);
      Enabled(u, MarkLaunched(h)) && Apply(u, MarkLaunched(h)) == v && Inv(v)
  {
    hide Inv, Child, Unborn, Retain, Release, OnHeld, OnIsolate, Joined, Returned, Entered, Deadlocked, Update;
    UnbornParent(s, p, c, h);
    var u := Child(s, p, c, h, x, true, s.busy[h := Launching]);
    ChildFacts(s, p, c, h, x, true, s.busy[h := Launching]);
    HeldChild(s, p, c, h, x, true, s.busy[h := Launching], x.worker, true, true);
    IdleChild(s, p, c, h, x.(native := true, launched := true), true, Launching);
    StepKeepsInv(u, MarkLaunched(h));
  }

  lemma JoinedChild(s: State, p: Id, c: Id, h: Token, x: Isolate)
    requires Unborn(s, p, c, h) && x.launched && x.native && !x.joined && !x.detached
    ensures var u := Child(s, p, c, h, x, true, s.busy);
      c in u.isolates && Joined(u, h, c) == Child(s, p, c, h, x.(joined := true), true, s.busy[h := Claimed])
  {
    hide Child, Update, Unborn;
    UnbornParent(s, p, c, h);
    ChildFacts(s, p, c, h, x, true, s.busy);
    UpdatedChild(s, p, c, h, x, true, s.busy, x.(joined := true));
    BusyChild(s, p, c, h, x.(joined := true), true, s.busy, s.busy[h := Claimed]);
  }

  /** Nobody can be waiting in the child, so its parent's join is not refused. */
  lemma EnteredChild(s: State, p: Id, c: Id, h: Token, x: Isolate)
    requires Unborn(s, p, c, h)
    ensures var u := Child(s, p, c, h, x, true, s.busy[h := Claimed]);
      c in u.isolates && Entered(u, h, c) == Child(s, p, c, h, x, true, s.busy[h := Waiting])
  {
    hide Child, Unborn;
    UnbornParent(s, p, c, h);
    ChildFacts(s, p, c, h, x, true, s.busy[h := Claimed]);
    IdleChild(s, p, c, h, x, true, Claimed);
    BusyChild(s, p, c, h, x, true, s.busy[h := Claimed], s.busy[h := Waiting]);
    assert p != c;
  }

  lemma ReapedChild(s: State, p: Id, c: Id, h: Token, x: Isolate)
    requires Unborn(s, p, c, h)
    ensures var u := Child(s, p, c, h, x, false, s.busy[h := Waiting]);
      && c in u.isolates && h in u.busy
      && Returned(u, h, c) == Child(s, p, c, h, x.(reaped := true), false, s.busy)
  {
    hide Child, Update, Unborn;
    UnbornParent(s, p, c, h);
    ChildFacts(s, p, c, h, x, false, s.busy[h := Waiting]);
    UpdatedChild(s, p, c, h, x, false, s.busy[h := Waiting], x.(reaped := true));
    IdleChild(s, p, c, h, x.(reaped := true), false, Waiting);
  }

  lemma JoinChild(s: State, p: Id, c: Id, h: Token, x: Isolate)
    requires Unborn(s, p, c, h) && Inv(Child(s, p, c, h, x, true, s.busy)) && x.launched && x.native && !x.joined
    requires !x.detached && ActiveParent(s, p)
    ensures var u := Child(s, p, c, h, x, true, s.busy);
      var y := x.(joined := true);
      var v := Child(s, p, c, h, y, true, s.busy[h := Claimed]);
      Enabled(u, Join(h)) && Apply(u, Join(h)) == v && Inv(v)
  {
    hide Inv, Child, Unborn, Retain, Release, OnHeld, OnIsolate, Joined, Returned, Entered, Deadlocked, Update;
    UnbornParent(s, p, c, h);
    var u := Child(s, p, c, h, x, true, s.busy);
    ChildFacts(s, p, c, h, x, true, s.busy);
    JoinedChild(s, p, c, h, x);
    StepKeepsInv(u, Join(h));
  }

  lemma EnterChild(s: State, p: Id, c: Id, h: Token, x: Isolate)
    requires Unborn(s, p, c, h) && Inv(Child(s, p, c, h, x, true, s.busy[h := Claimed]))
    ensures var u := Child(s, p, c, h, x, true, s.busy[h := Claimed]);
      var v := Child(s, p, c, h, x, true, s.busy[h := Waiting]);
      Enabled(u, EnterJoin(h)) && Apply(u, EnterJoin(h)) == v && Inv(v)
  {
    hide Inv, Child, Unborn, Retain, Release, OnHeld, OnIsolate, Joined, Returned, Entered, Deadlocked, Update;
    UnbornParent(s, p, c, h);
    var u := Child(s, p, c, h, x, true, s.busy[h := Claimed]);
    ChildFacts(s, p, c, h, x, true, s.busy[h := Claimed]);
    EnteredChild(s, p, c, h, x);
    StepKeepsInv(u, EnterJoin(h));
  }

  lemma FinishChild(s: State, p: Id, c: Id, h: Token, x: Isolate)
    requires Unborn(s, p, c, h) && Inv(Child(s, p, c, h, x, true, s.busy)) && x.worker == Running && !x.isMain
    ensures var u := Child(s, p, c, h, x, true, s.busy);
      var y := x.(worker := Finished, detached := false, done := true);
      var v := Child(s, p, c, h, y, true, s.busy);
      Enabled(u, Finish(c)) && Apply(u, Finish(c)) == v && Inv(v)
  {
    hide Inv, Child, Unborn, Retain, Release, OnHeld, OnIsolate, Joined, Returned, Entered, Deadlocked, Update;
    UnbornParent(s, p, c, h);
    var u := Child(s, p, c, h, x, true, s.busy);
    ChildFacts(s, p, c, h, x, true, s.busy);
    EndedChild(s, p, c, h, x, true, s.busy, Finished, false, true);
    StepKeepsInv(u, Finish(c));
  }

  lemma FinishJoined(s: State, p: Id, c: Id, h: Token, x: Isolate)
    requires Unborn(s, p, c, h) && Inv(Child(s, p, c, h, x, true, s.busy[h := Waiting])) && x.worker == Running
    requires !x.isMain
    ensures var u := Child(s, p, c, h, x, true, s.busy[h := Waiting]);
      var y := x.(worker := Finished, detached := false, done := true);
      var v := Child(s, p, c, h, y, true, s.busy[h := Waiting]);
      Enabled(u, Finish(c)) && Apply(u, Finish(c)) == v && Inv(v)
  {
    hide Inv, Child, Unborn, Retain, Release, OnHeld, OnIsolate, Joined, Returned, Entered, Deadlocked, Update;
    UnbornParent(s, p, c, h);
    var u := Child(s, p, c, h, x, true, s.busy[h := Waiting]);
    ChildFacts(s, p, c, h, x, true, s.busy[h := Waiting]);
    EndedChild(s, p, c, h, x, true, s.busy[h := Waiting], Finished, false, true);
    StepKeepsInv(u, Finish(c));
  }

  lemma DecideChild(s: State, p: Id, c: Id, h: Token, x: Isolate)
    requires Unborn(s, p, c, h) && Inv(Child(s, p, c, h, x, true, s.busy)) && x.worker == Finished
    ensures var u := Child(s, p, c, h, x, true, s.busy);
      var y := x.(worker := Decided, detached := !x.joined, done := true);
      var v := Child(s, p, c, h, y, true, s.busy);
      Enabled(u, Decide(c)) && Apply(u, Decide(c)) == v && Inv(v)
  {
    hide Inv, Child, Unborn, Retain, Release, OnHeld, OnIsolate, Joined, Returned, Entered, Deadlocked, Update;
    UnbornParent(s, p, c, h);
    var u := Child(s, p, c, h, x, true, s.busy);
    ChildFacts(s, p, c, h, x, true, s.busy);
    EndedChild(s, p, c, h, x, true, s.busy, Decided, !x.joined, true);
    StepKeepsInv(u, Decide(c));
  }

  lemma DecideJoined(s: State, p: Id, c: Id, h: Token, x: Isolate)
    requires Unborn(s, p, c, h) && Inv(Child(s, p, c, h, x, true, s.busy[h := Waiting])) && x.worker == Finished
    ensures var u := Child(s, p, c, h, x, true, s.busy[h := Waiting]);
      var y := x.(worker := Decided, detached := !x.joined, done := true);
      var v := Child(s, p, c, h, y, true, s.busy[h := Waiting]);
      Enabled(u, Decide(c)) && Apply(u, Decide(c)) == v && Inv(v)
  {
    hide Inv, Child, Unborn, Retain, Release, OnHeld, OnIsolate, Joined, Returned, Entered, Deadlocked, Update;
    UnbornParent(s, p, c, h);
    var u := Child(s, p, c, h, x, true, s.busy[h := Waiting]);
    ChildFacts(s, p, c, h, x, true, s.busy[h := Waiting]);
    EndedChild(s, p, c, h, x, true, s.busy[h := Waiting], Decided, !x.joined, true);
    StepKeepsInv(u, Decide(c));
  }

  lemma ExitChild(s: State, p: Id, c: Id, h: Token, x: Isolate)
    requires Unborn(s, p, c, h) && Inv(Child(s, p, c, h, x, true, s.busy)) && x.worker == Decided && x.count == 2
    ensures var u := Child(s, p, c, h, x, true, s.busy);
      var y := x.(worker := Exited, done := true, count := 1);
      var v := Child(s, p, c, h, y, false, s.busy);
      Enabled(u, Exit(c)) && Apply(u, Exit(c)) == v && Inv(v)
  {
    hide Inv, Child, Unborn, Enabled, Apply, Release, OnIsolate;
    UnbornParent(s, p, c, h);
    var u := Child(s, p, c, h, x, true, s.busy);
    ChildFacts(s, p, c, h, x, true, s.busy);
    EndedChild(s, p, c, h, x, true, s.busy, Exited, x.detached, true);
    ReleasedChild(s, p, c, h, x.(worker := Exited, done := true), s.busy);
    ExitStep(u, c);
  }

  lemma ExitJoined(s: State, p: Id, c: Id, h: Token, x: Isolate)
    requires Unborn(s, p, c, h) && Inv(Child(s, p, c, h, x, true, s.busy[h := Waiting])) && x.worker == Decided
    requires x.count == 2
    ensures var u := Child(s, p, c, h, x, true, s.busy[h := Waiting]);
      var y := x.(worker := Exited, done := true, count := 1);
      var v := Child(s, p, c, h, y, false, s.busy[h := Waiting]);
      Enabled(u, Exit(c)) && Apply(u, Exit(c)) == v && Inv(v)
  {
    hide Inv, Child, Unborn, Enabled, Apply, Release, OnIsolate;
    UnbornParent(s, p, c, h);
    var u := Child(s, p, c, h, x, true, s.busy[h := Waiting]);
    ChildFacts(s, p, c, h, x, true, s.busy[h := Waiting]);
    EndedChild(s, p, c, h, x, true, s.busy[h := Waiting], Exited, x.detached, true);
    ReleasedChild(s, p, c, h, x.(worker := Exited, done := true), s.busy[h := Waiting]);
    ExitStep(u, c);
  }

  lemma ReturnChild(s: State, p: Id, c: Id, h: Token, x: Isolate)
    requires Unborn(s, p, c, h) && Inv(Child(s, p, c, h, x, false, s.busy[h := Waiting])) && x.worker == Exited
    ensures var u := Child(s, p, c, h, x, false, s.busy[h := Waiting]);
      var y := x.(reaped := true);
      var v := Child(s, p, c, h, y, false, s.busy);
      Enabled(u, JoinReturns(h)) && Apply(u, JoinReturns(h)) == v && Inv(v)
  {
    hide Inv, Child, Unborn, Retain, Release, OnHeld, OnIsolate, Joined, Returned, Entered, Deadlocked, Update;
    UnbornParent(s, p, c, h);
    var u := Child(s, p, c, h, x, false, s.busy[h := Waiting]);
    ChildFacts(s, p, c, h, x, false, s.busy[h := Waiting]);
    ReapedChild(s, p, c, h, x);
    StepKeepsInv(u, JoinReturns(h));
  }

  lemma DropStep(s: State, h: Token)
    requires Inv(s) && Enabled(s, DropHandle(h)) && h in s.tokens && s.tokens[h] in s.isolates
    ensures Apply(s, DropHandle(h)) == Release(s, h)
  {
    hide Inv, Release, Holds;
  }

  lemma FreeStep(s: State, c: Id)
    requires Inv(s) && Enabled(s, Free(c))
    ensures Apply(s, Free(c)) == Freed(s, c) && Inv(Freed(s, c))
  {
    hide Inv, Freed;
    StepKeepsInv(s, Free(c));
  }

  lemma ReleaseParentStep(s: State, c: Id)
    requires Inv(s) && c in s.freed && ParentOf(c) in s.tokens && s.tokens[ParentOf(c)] in s.isolates
    ensures Enabled(s, ReleaseParent(c)) && Apply(s, ReleaseParent(c)) == Release(s, ParentOf(c))
    ensures Inv(Release(s, ParentOf(c)))
  {
    hide Inv, Release;
    StepKeepsInv(s, ReleaseParent(c));
  }

  /** With its last handle the child goes, and its parent is held as it was. */
  lemma GoneIs(s: State, p: Id, c: Id, h: Token, x: Isolate)
    requires Unborn(s, p, c, h) && x.count == 1
    ensures var u := Child(s, p, c, h, x, false, s.busy);
      && h in u.tokens && u.tokens[h] == c && c in u.isolates
      && var v := Freed(Release(u, h), c);
         && ParentOf(c) in v.tokens && v.tokens[ParentOf(c)] in v.isolates && c in v.freed
         && Release(v, ParentOf(c)) == s.(freed := s.freed + {c})
  {
    var u := Child(s, p, c, h, x, false, s.busy);
    var v := Freed(Release(u, h), c);
    assert v.tokens == s.tokens[ParentOf(c) := p] && v.dying == s.dying && v.busy == s.busy;
    assert v.isolates == s.isolates[p := s.isolates[p].(count := s.isolates[p].count + 1)];
    ParentIs(s, p, c, v);
  }

  lemma ParentIs(s: State, p: Id, c: Id, v: State)
    requires p in s.isolates && ParentOf(c) !in s.tokens && s.isolates[p].count > 0
    requires v.tokens == s.tokens[ParentOf(c) := p] && v.dying == s.dying && v.busy == s.busy
    requires v.isolates == s.isolates[p := s.isolates[p].(count := s.isolates[p].count + 1)]
    ensures ParentOf(c) in v.tokens && v.tokens[ParentOf(c)] in v.isolates
    ensures Release(v, ParentOf(c)) == s.(freed := v.freed)
  {
    TakenOut(s.tokens, ParentOf(c), p);
    PutBack(s.isolates, p, v.isolates[p]);
  }

  lemma TakenOut<K, V>(m: map<K, V>, k: K, v: V)
    requires k !in m
    ensures m[k := v] - {k} == m
  {
  }

  lemma PutBack<K, V>(m: map<K, V>, k: K, v: V)
    requires k in m
    ensures m[k := v][k := m[k]] == m
  {
  }

  lemma OnlyHandle(s: State, p: Id, c: Id, h: Token, x: Isolate)
    requires Inv(s) && Unborn(s, p, c, h)
    ensures var u := Child(s, p, c, h, x, false, s.busy); forall g :: g in u.tokens && u.tokens[g] == c ==> g == h
  {
    hide Linked, Occupied, Joining, AllSettled, Holders;
    NotDangling(s);
  }

  /** The run `steps` leads from `s` to `t`. */
  ghost predicate Leads(s: State, steps: seq<Step>, t: State) {
    Inv(s) && Run(s, steps) && After(s, steps) == t
  }

  lemma LeadsNowhere(s: State)
    requires Inv(s)
    ensures Leads(s, [], s)
  {
  }

  lemma LeadsOn(s: State, steps: seq<Step>, t: State, e: Step, u: State)
    requires Leads(s, steps, t) && Inv(t) && Enabled(t, e) && Apply(t, e) == u && Inv(u)
    ensures Leads(s, steps + [e], u)
  {
    hide Inv, Enabled, Apply;
    assert [e][1..] == [];
    assert Run(t, [e]) && After(t, [e]) == u;
    RunBoth(s, steps, [e]);
  }

  lemma LeadsBoth(s: State, a: seq<Step>, t: State, b: seq<Step>, u: State)
    requires Leads(s, a, t) && Leads(t, b, u)
    ensures Run(s, a + b) && After(s, a + b) == u
  {
    hide Inv, Run, After;
    RunBoth(s, a, b);
  }

  function Last(c: Id, h: Token): seq<Step> {
    [DropHandle(h), Free(c), ReleaseParent(c)]
  }

  lemma LastHandle(s: State, p: Id, c: Id, h: Token, x: Isolate)
    requires Inv(s) && Unborn(s, p, c, h) && Inv(Child(s, p, c, h, x, false, s.busy)) && x.count == 1
    ensures Leads(Child(s, p, c, h, x, false, s.busy), Last(c, h), s.(freed := s.freed + {c}))
  {
    hide Inv, Child, Unborn, Enabled, Apply, Release, Freed, Run, After, Leads;
    UnbornParent(s, p, c, h);
    var u := Child(s, p, c, h, x, false, s.busy);
    ChildFacts(s, p, c, h, x, false, s.busy);
    OnlyHandle(s, p, c, h, x);
    GoneIs(s, p, c, h, x);
    DropHandleFrees(u, h);
    DropStep(u, h);
    var v := Release(u, h);
    FreeStep(v, c);
    var w := Freed(v, c);
    ReleaseParentStep(w, c);
    LeadsNowhere(u);
    LeadsOn(u, [], u, DropHandle(h), v);
    LeadsOn(u, [] + [DropHandle(h)], v, Free(c), w);
    LeadsOn(u, [] + [DropHandle(h)] + [Free(c)], w, ReleaseParent(c), Release(w, ParentOf(c)));
    assert [] + [DropHandle(h)] + [Free(c)] + [ReleaseParent(c)] == Last(c, h);
  }

  lemma RunNothing(s: State)
    requires Inv(s)
    ensures Run(s, []) && After(s, []) == s
  {
  }

  lemma {:induction false} RunBoth(s: State, a: seq<Step>, b: seq<Step>)
    requires Inv(s) && Run(s, a) && Run(After(s, a), b)
    ensures Run(s, a + b) && After(s, a + b) == After(After(s, a), b)
    decreases |a|
  {
    hide Inv, Enabled, Apply;
    if a == [] {
      assert a + b == b;
    } else {
      StepKeepsInv(s, a[0]);
      RunBoth(Apply(s, a[0]), a[1..], b);
      assert (a + b)[0] == a[0] && (a + b)[1..] == a[1..] + b;
    }
  }

  function Unjoined(p: Id, c: Id, h: Token): seq<Step> {
    [Create(p, c, h), Prepare(h), Spawn(h), MarkLaunched(h), Finish(c), Decide(c), Exit(c)]
  }

  /** Started and never joined: the thread ends detached, and only the handle still holds it. */
  lemma UnjoinedThread(s: State, p: Id, c: Id, h: Token)
    requires Inv(s) && ActiveParent(s, p) && c !in s.isolates && c !in s.freed
    requires h.Handle? && h.home == p && h !in s.tokens
    ensures Unborn(s, p, c, h) && p in s.isolates
    ensures var x := Isolate(1, p, false, Exited, true, true, false, true, true, false, false);
      var t := Child(s, p, c, h, x, false, s.busy);
      Leads(s, Unjoined(p, c, h), t) && Inv(t)
  {
    hide Inv, Child, Unborn, Enabled, Apply, ActiveParent, Run, After, Leads;
    FreshIsUnborn(s, p, c, h);
    CreateChild(s, p, c, h);
    var x1 := Newborn(p);
    PrepareChild(s, p, c, h, x1);
    var x2 := x1.(worker := Prepared, native := true, launched := false, count := x1.count + 1);
    SpawnChild(s, p, c, h, x2);
    var x3 := x2.(worker := Running, native := true, launched := false);
    LaunchChild(s, p, c, h, x3);
    var x4 := x3.(native := true, launched := true);
    FinishChild(s, p, c, h, x4);
    var x5 := x4.(worker := Finished, detached := false, done := true);
    DecideChild(s, p, c, h, x5);
    var x6 := x5.(worker := Decided, detached := !x5.joined, done := true);
    ExitChild(s, p, c, h, x6);
    var x7 := x6.(worker := Exited, done := true, count := 1);
    var r0: seq<Step> := [];
    LeadsNowhere(s);
    var u1 := Child(s, p, c, h, x1, false, s.busy[h := Launching]);
    LeadsOn(s, r0, s, Create(p, c, h), u1);
    var r1 := r0 + [Create(p, c, h)];
    var u2 := Child(s, p, c, h, x2, true, s.busy[h := Launching]);
    LeadsOn(s, r1, u1, Prepare(h), u2);
    var r2 := r1 + [Prepare(h)];
    var u3 := Child(s, p, c, h, x3, true, s.busy[h := Launching]);
    LeadsOn(s, r2, u2, Spawn(h), u3);
    var r3 := r2 + [Spawn(h)];
    var u4 := Child(s, p, c, h, x4, true, s.busy);
    LeadsOn(s, r3, u3, MarkLaunched(h), u4);
    var r4 := r3 + [MarkLaunched(h)];
    var u5 := Child(s, p, c, h, x5, true, s.busy);
    LeadsOn(s, r4, u4, Finish(c), u5);
    var r5 := r4 + [Finish(c)];
    var u6 := Child(s, p, c, h, x6, true, s.busy);
    LeadsOn(s, r5, u5, Decide(c), u6);
    var r6 := r5 + [Decide(c)];
    var u7 := Child(s, p, c, h, x7, false, s.busy);
    LeadsOn(s, r6, u6, Exit(c), u7);
    var r7 := r6 + [Exit(c)];
    assert r7 == Unjoined(p, c, h);
  }

  function JoinedOnce(p: Id, c: Id, h: Token): seq<Step> {
    [Create(p, c, h), Prepare(h), Spawn(h), MarkLaunched(h), Join(h), EnterJoin(h),
     Finish(c), Decide(c), Exit(c), JoinReturns(h)]
  }

  /** Started and joined from its parent, which waits until the thread has exited: it ends reaped. */
  lemma JoinedThread(s: State, p: Id, c: Id, h: Token)
    requires Inv(s) && ActiveParent(s, p) && c !in s.isolates && c !in s.freed
    requires h.Handle? && h.home == p && h !in s.tokens
    ensures Unborn(s, p, c, h) && p in s.isolates
    ensures var x := Isolate(1, p, false, Exited, true, true, true, false, true, false, true);
      var t := Child(s, p, c, h, x, false, s.busy);
      Leads(s, JoinedOnce(p, c, h), t) && Inv(t)
  {
    hide Inv, Child, Unborn, Enabled, Apply, ActiveParent, Run, After, Leads;
    FreshIsUnborn(s, p, c, h);
    CreateChild(s, p, c, h);
    var x1 := Newborn(p);
    PrepareChild(s, p, c, h, x1);
    var x2 := x1.(worker := Prepared, native := true, launched := false, count := x1.count + 1);
    SpawnChild(s, p, c, h, x2);
    var x3 := x2.(worker := Running, native := true, launched := false);
    LaunchChild(s, p, c, h, x3);
    var x4 := x3.(native := true, launched := true);
    JoinChild(s, p, c, h, x4);
    var x5 := x4.(joined := true);
    EnterChild(s, p, c, h, x5);
    var x6 := x5;
    FinishJoined(s, p, c, h, x6);
    var x7 := x6.(worker := Finished, detached := false, done := true);
    DecideJoined(s, p, c, h, x7);
    var x8 := x7.(worker := Decided, detached := !x7.joined, done := true);
    ExitJoined(s, p, c, h, x8);
    var x9 := x8.(worker := Exited, done := true, count := 1);
    ReturnChild(s, p, c, h, x9);
    var x10 := x9.(reaped := true);
    var r0: seq<Step> := [];
    LeadsNowhere(s);
    var u1 := Child(s, p, c, h, x1, false, s.busy[h := Launching]);
    LeadsOn(s, r0, s, Create(p, c, h), u1);
    var r1 := r0 + [Create(p, c, h)];
    var u2 := Child(s, p, c, h, x2, true, s.busy[h := Launching]);
    LeadsOn(s, r1, u1, Prepare(h), u2);
    var r2 := r1 + [Prepare(h)];
    var u3 := Child(s, p, c, h, x3, true, s.busy[h := Launching]);
    LeadsOn(s, r2, u2, Spawn(h), u3);
    var r3 := r2 + [Spawn(h)];
    var u4 := Child(s, p, c, h, x4, true, s.busy);
    LeadsOn(s, r3, u3, MarkLaunched(h), u4);
    var r4 := r3 + [MarkLaunched(h)];
    var u5 := Child(s, p, c, h, x5, true, s.busy[h := Claimed]);
    LeadsOn(s, r4, u4, Join(h), u5);
    var r5 := r4 + [Join(h)];
    var u6 := Child(s, p, c, h, x6, true, s.busy[h := Waiting]);
    LeadsOn(s, r5, u5, EnterJoin(h), u6);
    var r6 := r5 + [EnterJoin(h)];
    var u7 := Child(s, p, c, h, x7, true, s.busy[h := Waiting]);
    LeadsOn(s, r6, u6, Finish(c), u7);
    var r7 := r6 + [Finish(c)];
    var u8 := Child(s, p, c, h, x8, true, s.busy[h := Waiting]);
    LeadsOn(s, r7, u7, Decide(c), u8);
    var r8 := r7 + [Decide(c)];
    var u9 := Child(s, p, c, h, x9, false, s.busy[h := Waiting]);
    LeadsOn(s, r8, u8, Exit(c), u9);
    var r9 := r8 + [Exit(c)];
    var u10 := Child(s, p, c, h, x10, false, s.busy);
    LeadsOn(s, r9, u9, JoinReturns(h), u10);
    var r10 := r9 + [JoinReturns(h)];
    assert r10 == JoinedOnce(p, c, h);
  }

  function Unbooted(p: Id, c: Id, h: Token): seq<Step> {
    [Create(p, c, h), BootFails(h)]
  }

  /** A `start` whose runnable cannot be copied. */
  lemma BootFailed(s: State, p: Id, c: Id, h: Token)
    requires Inv(s) && ActiveParent(s, p) && c !in s.isolates && c !in s.freed
    requires h.Handle? && h.home == p && h !in s.tokens
    ensures Unborn(s, p, c, h) && p in s.isolates
    ensures var x := Isolate(1, p, false, Never, false, false, false, false, false, false, false);
      var t := Child(s, p, c, h, x, false, s.busy);
      Leads(s, Unbooted(p, c, h), t) && Inv(t)
  {
    hide Inv, Child, Unborn, Enabled, Apply, ActiveParent, Run, After, Leads;
    FreshIsUnborn(s, p, c, h);
    CreateChild(s, p, c, h);
    var x1 := Newborn(p);
    BootFailsChild(s, p, c, h, x1);
    var x2 := x1.(worker := Never, native := false, launched := false);
    var r0: seq<Step> := [];
    LeadsNowhere(s);
    var u1 := Child(s, p, c, h, x1, false, s.busy[h := Launching]);
    LeadsOn(s, r0, s, Create(p, c, h), u1);
    var r1 := r0 + [Create(p, c, h)];
    var u2 := Child(s, p, c, h, x2, false, s.busy);
    LeadsOn(s, r1, u1, BootFails(h), u2);
    var r2 := r1 + [BootFails(h)];
    assert r2 == Unbooted(p, c, h);
  }

  function Unspawned(p: Id, c: Id, h: Token): seq<Step> {
    [Create(p, c, h), Prepare(h), SpawnFails(h)]
  }

  /** A `start` whose thread cannot be created. */
  lemma SpawnFailed(s: State, p: Id, c: Id, h: Token)
    requires Inv(s) && ActiveParent(s, p) && c !in s.isolates && c !in s.freed
    requires h.Handle? && h.home == p && h !in s.tokens
    ensures Unborn(s, p, c, h) && p in s.isolates
    ensures var x := Isolate(1, p, false, Never, true, false, false, false, false, false, false);
      var t := Child(s, p, c, h, x, false, s.busy);
      Leads(s, Unspawned(p, c, h), t) && Inv(t)
  {
    hide Inv, Child, Unborn, Enabled, Apply, ActiveParent, Run, After, Leads;
    FreshIsUnborn(s, p, c, h);
    CreateChild(s, p, c, h);
    var x1 := Newborn(p);
    PrepareChild(s, p, c, h, x1);
    var x2 := x1.(worker := Prepared, native := true, launched := false, count := x1.count + 1);
    SpawnFailsChild(s, p, c, h, x2);
    var x3 := x2.(worker := Never, native := true, launched := false, count := 1);
    var r0: seq<Step> := [];
    LeadsNowhere(s);
    var u1 := Child(s, p, c, h, x1, false, s.busy[h := Launching]);
    LeadsOn(s, r0, s, Create(p, c, h), u1);
    var r1 := r0 + [Create(p, c, h)];
    var u2 := Child(s, p, c, h, x2, true, s.busy[h := Launching]);
    LeadsOn(s, r1, u1, Prepare(h), u2);
    var r2 := r1 + [Prepare(h)];
    var u3 := Child(s, p, c, h, x3, false, s.busy);
    LeadsOn(s, r2, u2, SpawnFails(h), u3);
    var r3 := r2 + [SpawnFails(h)];
    assert r3 == Unspawned(p, c, h);
  }

  /**
    A whole life leaves no trace: whichever way the thread's start and end go,
    once the last handle is dropped the isolate is freed and nothing else is
    different from what it was before.
   */
  lemma LifeLeavesNoTrace(s: State, p: Id, c: Id, h: Token, life: seq<Step>)
    requires Inv(s) && p in s.isolates && s.isolates[p].worker == Running && c !in s.isolates && c !in s.freed
    requires forall t :: t in s.busy && t.Handle? ==> t.home != p
    requires h.Handle? && h.home == p && h !in s.tokens
    requires life in {Unjoined(p, c, h), JoinedOnce(p, c, h), Unbooted(p, c, h), Unspawned(p, c, h)}
    ensures Run(s, life + [DropHandle(h), Free(c), ReleaseParent(c)])
    ensures After(s, life + [DropHandle(h), Free(c), ReleaseParent(c)]) == s.(freed := s.freed + {c})
  {
    hide Inv, Child, Unborn, Enabled, Apply, Unjoined, JoinedOnce, Unbooted, Unspawned, Run, After, Leads;
    FreshIsUnborn(s, p, c, h);
    var x: Isolate;
    if life == Unjoined(p, c, h) {
      UnjoinedThread(s, p, c, h);
      x := Isolate(1, p, false, Exited, true, true, false, true, true, false, false);
    } else if life == JoinedOnce(p, c, h) {
      JoinedThread(s, p, c, h);
      x := Isolate(1, p, false, Exited, true, true, true, false, true, false, true);
    } else if life == Unbooted(p, c, h) {
      BootFailed(s, p, c, h);
      x := Isolate(1, p, false, Never, false, false, false, false, false, false, false);
    } else {
      SpawnFailed(s, p, c, h);
      x := Isolate(1, p, false, Never, true, false, false, false, false, false, false);
    }
    LastHandle(s, p, c, h, x);
    LeadsBoth(s, life, Child(s, p, c, h, x, false, s.busy), Last(c, h), s.(freed := s.freed + {c}));
  }

  // ------------------------------------------------- joins that are refused

  lemma RunStep(s: State, e: Step, rest: seq<Step>)
    requires Inv(s) && Enabled(s, e) && Inv(Apply(s, e)) && Run(Apply(s, e), rest)
    ensures Run(s, [e] + rest) && After(s, [e] + rest) == After(Apply(s, e), rest)
  {
    assert ([e] + rest)[1..] == rest;
  }

  /** A thread joins itself: the call is refused and returns at once, and then the thread ends. */
  function SelfJoin(h: Token): seq<Step>
    requires h.Handle?
  {
    [Join(h), EnterJoin(h), JoinReturns(h), Finish(h.home), Decide(h.home), Exit(h.home)]
  }

  /** `h` is a handle to its own thread, whose `start` has completed and whose join is still to be claimed. */
  ghost predicate OwnHandle(s: State, h: Token)
    requires Inv(s)
  {
    && Enabled(s, Join(h)) && h.home == s.tokens[h] && h.home in s.isolates
    && s.isolates[h.home].launched && !s.isolates[h.home].joined
  }

  /** The state after a claim, and after its refusal. */
  function AfterClaim(s: State, h: Token, i: Id): State
    requires i in s.isolates
  {
    Update(s, i, s.isolates[i].(joined := true)).(busy := s.busy[h := Claimed])
  }

  function AfterRefusal(s: State, h: Token, i: Id): State
    requires i in s.isolates
  {
    Update(s, i, s.isolates[i].(refused := true)).(busy := s.busy[h := Refused])
  }

  lemma ClaimStep(s: State, h: Token)
    requires Inv(s) && Enabled(s, Join(h)) && s.tokens[h] in s.isolates
    requires var x := s.isolates[s.tokens[h]]; x.launched && !x.joined && !x.detached
    ensures var t := AfterClaim(s, h, s.tokens[h]); Apply(s, Join(h)) == t && Inv(t) && Enabled(t, EnterJoin(h))
  {
    hide Counted, Linked, Occupied, Joining, AllSettled;
    SettledAt(s, s.tokens[h]);
    StepKeepsInv(s, Join(h));
  }

  lemma RefuseStep(s: State, h: Token)
    requires Inv(s) && Enabled(s, EnterJoin(h)) && Deadlocked(s, h) && s.tokens[h] in s.isolates
    ensures var t := AfterRefusal(s, h, s.tokens[h]);
      Apply(s, EnterJoin(h)) == t && Inv(t) && Enabled(t, JoinReturns(h))
  {
    hide Counted, Linked, Occupied, Joining, AllSettled;
    StepKeepsInv(s, EnterJoin(h));
  }

  lemma LeaveStep(s: State, h: Token)
    requires Inv(s) && Enabled(s, JoinReturns(h)) && s.busy[h] == Refused
    ensures Apply(s, JoinReturns(h)) == s.(busy := s.busy - {h}) && Inv(s.(busy := s.busy - {h}))
  {
    hide Counted, Linked, Occupied, Joining, AllSettled;
    StepKeepsInv(s, JoinReturns(h));
  }

  /** A worker that is in no call can end at any time. */
  lemma EndSteps(s: State, i: Id)
    requires Inv(s) && Active(s, i) && !s.isolates[i].isMain
    ensures Run(s, [Finish(i), Decide(i), Exit(i)])
    ensures i in After(s, [Finish(i), Decide(i), Exit(i)]).isolates
    ensures After(s, [Finish(i), Decide(i), Exit(i)]).isolates[i].worker == Exited
  {
    hide Counted, Linked, Occupied, Joining, AllSettled;
    var s1 := Apply(s, Finish(i));
    StepKeepsInv(s, Finish(i));
    var s2 := Apply(s1, Decide(i));
    StepKeepsInv(s1, Decide(i));
    StepKeepsInv(s2, Exit(i));
    RunStep(s2, Exit(i), []);
    RunStep(s1, Decide(i), [Exit(i)]);
    RunStep(s, Finish(i), [Decide(i), Exit(i)]);
    assert [Decide(i)] + [Exit(i)] == [Decide(i), Exit(i)];
    assert [Finish(i)] + [Decide(i), Exit(i)] == [Finish(i), Decide(i), Exit(i)];
    assert [Exit(i)] + [] == [Exit(i)];
  }

  lemma OwnHandleOpen(s: State, h: Token)
    requires Inv(s) && OwnHandle(s, h)
    ensures h.Handle? && h in s.tokens
    ensures var x := s.isolates[h.home];
      x.worker == Running && !x.detached && !x.done && !x.isMain && Enabled(s, Join(h)) && s.tokens[h] in s.isolates
  {
    hide Counted, Linked, Occupied, Joining, AllSettled;
    SettledAt(s, h.home);
  }

  /** The join of its own handle is refused and returns while the thread is running. */
  lemma SelfJoinReturnsEarly(s: State, h: Token)
    requires Inv(s) && OwnHandle(s, h)
    ensures Run(s, [Join(h), EnterJoin(h)])
    ensures var t := After(s, [Join(h), EnterJoin(h)]);
      && t == AfterRefusal(AfterClaim(s, h, h.home), h, h.home)
      && Enabled(t, JoinReturns(h)) && !t.isolates[h.home].done
  {
    hide Inv, Apply, Enabled, Mutual;
    OwnHandleOpen(s, h);
    ClaimStep(s, h);
    var s1 := AfterClaim(s, h, h.home);
    RefuseStep(s1, h);
    RunStep(s1, EnterJoin(h), []);
    RunStep(s, Join(h), [EnterJoin(h)]);
    assert [EnterJoin(h)] + [] == [EnterJoin(h)];
    assert [Join(h)] + [EnterJoin(h)] == [Join(h), EnterJoin(h)];
  }

  /** The thread that joined itself can end, and then it is neither reaped nor detached. */
  lemma SelfJoinLosesThread(s: State, h: Token)
    requires Inv(s) && OwnHandle(s, h)
    ensures Run(s, SelfJoin(h)) && h.home in After(s, SelfJoin(h)).isolates
    ensures var x := After(s, SelfJoin(h)).isolates[h.home];
      x.worker == Exited && !x.reaped && !x.detached
  {
    hide Inv, Enabled, Mutual;
    OwnHandleOpen(s, h);
    var i := h.home;
    OwnHandleActive(s, h);
    hide Apply;
    ClaimStep(s, h);
    var s1 := AfterClaim(s, h, i);
    RefuseStep(s1, h);
    var s2 := AfterRefusal(s1, h, i);
    LeaveStep(s2, h);
    var s3 := s2.(busy := s2.busy - {h});
    EndSteps(s3, i);
    RefusedIsLost(s3, [Finish(i), Decide(i), Exit(i)], i);
    RunStep(s2, JoinReturns(h), [Finish(i), Decide(i), Exit(i)]);
    RunStep(s1, EnterJoin(h), [JoinReturns(h)] + [Finish(i), Decide(i), Exit(i)]);
    RunStep(s, Join(h), [EnterJoin(h)] + ([JoinReturns(h)] + [Finish(i), Decide(i), Exit(i)]));
    assert SelfJoin(h) == [Join(h)] + ([EnterJoin(h)] + ([JoinReturns(h)] + [Finish(i), Decide(i), Exit(i)]));
  }

  lemma OwnHandleActive(s: State, h: Token)
    requires Inv(s) && OwnHandle(s, h)
    ensures Active(s, h.home)
  {
  }

  /** `a` and `b` are handles of two threads to each other, neither joined yet. */
  ghost predicate EachOther(s: State, a: Token, b: Token)
    requires Inv(s)
  {
    && Enabled(s, Join(a)) && Enabled(s, Join(b)) && a.home != b.home
    && s.tokens[a] == b.home && s.tokens[b] == a.home && a.home in s.isolates && b.home in s.isolates
    && s.isolates[a.home].launched && !s.isolates[a.home].joined
    && s.isolates[b.home].launched && !s.isolates[b.home].joined
  }

  function MutualJoin(a: Token, b: Token): seq<Step> {
    [Join(a), EnterJoin(a), Join(b), EnterJoin(b)]
  }

  /** When two threads join each other the second call returns while its target is waiting in the first. */
  lemma MutualJoinReturnsEarly(s: State, a: Token, b: Token)
    requires Inv(s) && EachOther(s, a, b)
    ensures Run(s, MutualJoin(a, b))
    ensures var t := After(s, MutualJoin(a, b));
      && Enabled(t, JoinReturns(b)) && a.home in t.isolates && !t.isolates[a.home].done
      && t.isolates[a.home].refused
  {
    hide Inv, Apply, Enabled, Mutual;
    EachOtherOpen(s, a, b);
    ClaimStep(s, a);
    var s1 := AfterClaim(s, a, b.home);
    FirstNotDeadlocked(s, a, b);
    WaitStep(s1, a);
    var s2 := s1.(busy := s1.busy[a := Waiting]);
    SecondJoins(s, a, b);
    ClaimStep(s2, b);
    var s3 := AfterClaim(s2, b, a.home);
    assert WaitsBack(s3, b, a);
    BackIsMutual(s3, b, a);
    RefuseStep(s3, b);
    RunStep(s3, EnterJoin(b), []);
    RunStep(s2, Join(b), [EnterJoin(b)] + []);
    RunStep(s1, EnterJoin(a), [Join(b)] + ([EnterJoin(b)] + []));
    RunStep(s, Join(a), [EnterJoin(a)] + ([Join(b)] + ([EnterJoin(b)] + [])));
    assert MutualJoin(a, b)
      == [Join(a)] + ([EnterJoin(a)] + ([Join(b)] + ([EnterJoin(b)] + [])));
  }

  lemma EachOtherOpen(s: State, a: Token, b: Token)
    requires Inv(s) && EachOther(s, a, b)
    ensures a.Handle? && b.Handle? && a in s.tokens && b in s.tokens && a !in s.busy && b !in s.busy && a != b
    ensures !s.isolates[a.home].detached && !s.isolates[b.home].detached && !s.isolates[a.home].done
    ensures Enabled(s, Join(a)) && Enabled(s, Join(b))
  {
    hide Counted, Linked, Occupied, Joining, AllSettled;
    SettledAt(s, a.home);
    SettledAt(s, b.home);
  }

  /** Nobody in the thread of `b` is in a call, so the first join is no deadlock. */
  lemma FirstNotDeadlocked(s: State, a: Token, b: Token)
    requires Inv(s) && EachOther(s, a, b)
    ensures !Deadlocked(AfterClaim(s, a, b.home), a)
  {
    hide Counted, Linked, Joining, AllSettled, Alone, ClaimsOpen, LaunchesFresh;
  }

  lemma WaitStep(s: State, h: Token)
    requires Inv(s) && Enabled(s, EnterJoin(h)) && !Deadlocked(s, h)
    ensures var t := s.(busy := s.busy[h := Waiting]); Apply(s, EnterJoin(h)) == t && Inv(t)
  {
    hide Counted, Linked, Occupied, Joining, AllSettled;
    StepKeepsInv(s, EnterJoin(h));
  }

  lemma SecondJoins(s: State, a: Token, b: Token)
    requires Inv(s) && EachOther(s, a, b)
    requires Inv(AfterClaim(s, a, b.home).(busy := s.busy[a := Claimed][a := Waiting]))
    ensures Enabled(AfterClaim(s, a, b.home).(busy := s.busy[a := Claimed][a := Waiting]), Join(b))
  {
    hide Counted, Linked, Occupied, Joining, AllSettled;
  }

  lemma BackIsMutual(s: State, h: Token, g: Token)
    requires h.Handle? && h in s.tokens && WaitsBack(s, h, g)
    ensures Deadlocked(s, h)
  {
  }

  /**
    A state in which both happen: isolate 0 has started isolate 1, which has
    started isolate 2; 1 has a handle to itself, and 2 one to its parent.
   */
  function Begun(): State {
    State(
      map[0 := Newborn(0).(count := 2, isMain := true, worker := Running),
          1 := Newborn(0).(count := 5, worker := Running, native := true, launched := true),
          2 := Newborn(1).(count := 2, worker := Running, native := true, launched := true)],
      map[ThreadOf(0) := 0, ParentOf(1) := 0,
          ThreadOf(1) := 1, ParentOf(2) := 1, Handle(0, 0) := 1, Handle(1, 1) := 1, Handle(2, 2) := 1,
          ThreadOf(2) := 2, Handle(3, 1) := 2],
      map[], {}, {})
  }

  lemma BegunHolders()
    ensures Holders(Begun().tokens, 0) == {ThreadOf(0), ParentOf(1)}
    ensures Holders(Begun().tokens, 1) == {ThreadOf(1), ParentOf(2), Handle(0, 0), Handle(1, 1), Handle(2, 2)}
    ensures Holders(Begun().tokens, 2) == {ThreadOf(2), Handle(3, 1)}
  {
  }

  lemma BegunCounts()
    ensures Counted(Begun())
  {
    hide Holders;
    BegunHolders();
  }

  lemma BegunThread(i: Id)
    ensures ThreadOf(i) in Begun().tokens <==> i in Begun().isolates
    ensures i in Begun().isolates ==> Begun().tokens[ThreadOf(i)] == i && Begun().isolates[i].worker == Running
  {
  }

  lemma BegunParent(c: Id)
    ensures ParentOf(c) in Begun().tokens <==> c in Begun().isolates && !Begun().isolates[c].isMain
    ensures ParentOf(c) in Begun().tokens ==> Begun().tokens[ParentOf(c)] == Begun().isolates[c].parent
  {
  }

  lemma BegunLinks()
    ensures Linked(Begun())
  {
    hide Begun;
    forall i {:trigger ThreadOf(i)}
      ensures ThreadOf(i) in Begun().tokens <==> i in Begun().isolates
      ensures i in Begun().isolates ==> Begun().tokens[ThreadOf(i)] == i && Begun().isolates[i].worker == Running
    {
      BegunThread(i);
    }
    forall c {:trigger ParentOf(c)}
      ensures ParentOf(c) in Begun().tokens <==> c in Begun().isolates && !Begun().isolates[c].isMain
      ensures ParentOf(c) in Begun().tokens ==> Begun().tokens[ParentOf(c)] == Begun().isolates[c].parent
    {
      BegunParent(c);
    }
  }

  lemma BegunInv()
    ensures Inv(Begun())
  {
    hide Counted, Linked;
    BegunCounts();
    BegunLinks();
  }

  /** There a thread can join itself, and two threads each other. */
  lemma BegunHandles()
    ensures Inv(Begun()) && OwnHandle(Begun(), Handle(1, 1)) && EachOther(Begun(), Handle(3, 1), Handle(2, 2))
  {
    hide Counted, Linked, Occupied, Joining, AllSettled;
    BegunInv();
  }

  /** The run in which the thread of isolate 1 ends neither reaped nor detached. */
  lemma SelfJoinExample()
    ensures Inv(Begun()) && Run(Begun(), SelfJoin(Handle(1, 1)))
    ensures 1 in After(Begun(), SelfJoin(Handle(1, 1))).isolates
    ensures var x := After(Begun(), SelfJoin(Handle(1, 1))).isolates[1];
      x.worker == Exited && !x.reaped && !x.detached
  {
    hide Inv, OwnHandle, EachOther;
    BegunHandles();
    SelfJoinLosesThread(Begun(), Handle(1, 1));
  }

  /** The run in which isolate 1 joins isolate 2, which joins its parent: the second join returns early. */
  lemma MutualJoinExample()
    ensures var a, b := Handle(3, 1), Handle(2, 2);
      && Inv(Begun()) && Run(Begun(), MutualJoin(a, b))
      && Enabled(After(Begun(), MutualJoin(a, b)), JoinReturns(b))
    ensures 1 in After(Begun(), MutualJoin(Handle(3, 1), Handle(2, 2))).isolates
    ensures !After(Begun(), MutualJoin(Handle(3, 1), Handle(2, 2))).isolates[1].done
  {
    hide Inv, OwnHandle, EachOther, Apply, Enabled;
    BegunHandles();
    MutualJoinReturnsEarly(Begun(), Handle(3, 1), Handle(2, 2));
  }

  // --------------------------------------------------- runs from the start

  /** Whatever has happened since the process began, the invariant holds. */
  lemma EveryRun(boss: Id, steps: seq<Step>)
    requires (InitialInv(boss); Run(Initial(boss), steps))
    ensures Inv(Initial(boss)) && Inv(After(Initial(boss), steps))
  {
    InitialInv(boss);
  }

  /** No run of the process frees an isolate twice. */
  lemma NoneFreedTwice(boss: Id, before: seq<Step>, later: seq<Step>, i: Id)
    requires (InitialInv(boss); Run(Initial(boss), before + [Free(i)] + later))
    ensures Free(i) !in later
  {
    InitialInv(boss);
    FreedAtMostOnce(Initial(boss), before, later, i);
  }
}
