/** The byte rings between a console handler and its program. */
module Rings {
  type Byte = x: int | 0 <= x < 0x100

  const RING_SIZE: nat := 0x1_0000

  /** `n` bytes of a ring's memory from position `from` on, going round at the end. */
  ghost function Around(s: seq<Byte>, from: nat, n: nat): seq<Byte>
    requires from < |s| && n <= |s|
  {
    seq(n, k requires 0 <= k < n => s[if from + k < |s| then from + k else from + k - |s|])
  }

  /** Writing the byte behind the last one makes it the last. */
  lemma AroundGrows(s: seq<Byte>, from: nat, n: nat, at: nat, b: Byte)
    requires from < |s| && n < |s| && at == (if from + n < |s| then from + n else from + n - |s|)
    ensures Around(s[at := b], from, n + 1) == Around(s, from, n) + [b]
  {
  }

  lemma AroundShrinks(s: seq<Byte>, from: nat, n: nat)
    requires from < |s| && 0 < n <= |s|
    ensures Around(s, from, n) == [s[from]] + Around(s, if from + 1 == |s| then 0 else from + 1, n - 1)
  {
  }

  class Ring {
    const data: array<Byte>
    var head: nat
    var tail: nat
    var count: nat
    /** Every byte ever accepted, and how many of them have been taken out. */
    ghost var accepted: seq<Byte>
    ghost var popped: nat

    ghost predicate Valid()
      reads this, data
    {
      && data.Length == RING_SIZE && head < RING_SIZE && tail < RING_SIZE && count <= RING_SIZE
      && head == (if tail + count < RING_SIZE then tail + count else tail + count - RING_SIZE)
      && popped + count == |accepted| && Around(data[..], tail, count) == accepted[popped..]
    }

    constructor ()
      ensures Valid() && accepted == [] && popped == 0 && count == 0 && fresh(data)
    {
      data := new Byte[RING_SIZE](_ => 0);
      head, tail, count := 0, 0, 0;
      accepted, popped := [], 0;
    }

    /** Accepts as many of the bytes as there is room for, in order. */
    method Push(src: seq<Byte>) returns (pushed: nat)
      requires Valid()
      modifies this, data
      ensures Valid() && popped == old(popped)
      ensures pushed == (if |src| <= 65536 - old(count) then |src| else 65536 - old(count))
      ensures accepted == old(accepted) + src[..pushed] && count == old(count) + pushed
    {
      hide Around;
      pushed := 0;
      while pushed < |src| && count < RING_SIZE
        invariant Valid() && pushed <= |src| && popped == old(popped)
        invariant accepted == old(accepted) + src[..pushed] && count == old(count) + pushed
      {
        AroundGrows(data[..], tail, count, head, src[pushed]);
        data[head] := src[pushed];
        head := (head + 1) % RING_SIZE;
        count := count + 1;
        assert src[..pushed + 1] == src[..pushed] + [src[pushed]];
        accepted := accepted + [src[pushed]];
        pushed := pushed + 1;
      }
    }

    /** Takes out the oldest bytes: what comes out continues where the last call stopped. */
    method Pop(n: nat) returns (bytes: seq<Byte>)
      requires Valid()
      modifies this
      ensures Valid() && accepted == old(accepted)
      ensures |bytes| == (if n <= old(count) then n else old(count)) && count == old(count) - |bytes|
      ensures popped == old(popped) + |bytes| && bytes == accepted[old(popped)..popped]
    {
      hide Around;
      bytes := [];
      while |bytes| < n && count > 0
        invariant Valid() && accepted == old(accepted) && |bytes| <= n
        invariant |bytes| + count == old(count) && popped == old(popped) + |bytes|
        invariant bytes == accepted[old(popped)..popped]
      {
        AroundShrinks(data[..], tail, count);
        assert accepted[popped..][1..] == accepted[popped + 1..] && accepted[popped..][0] == accepted[popped];
        assert data[tail] == data[..][tail] == accepted[popped];
        assert accepted[old(popped)..popped + 1] == accepted[old(popped)..popped] + [accepted[popped]];
        bytes := bytes + [data[tail]];
        tail := (tail + 1) % RING_SIZE;
        count := count - 1;
        popped := popped + 1;
      }
    }
  }
}

/**
  The console handler's packet loop. Each method is one section that runs with
  task switching forbidden; the program's own task calls `WriteInput`,
  `ReadOutput`, `RequestShutdown` and `ForceDie`, the child's exit `ChildExit`,
  and the system `Arrive` and `TimerFires`, between any two of them.
 */
module Console {
  import opened Rings

  datatype Option<T> = None | Some(value: T)

  datatype Kind =
    | Read | Write | FindInput | FindOutput | End | Die | WaitChar | ScreenMode | Other(res1: int, res2: int)

  /**
    A packet: `arg` is its first argument, `n` the length it asks for, `data`
    what it writes. `own` marks the handler's message to itself, `reachable` a
    packet that names a reply port.
   */
  datatype Packet = Packet(id: nat, kind: Kind, arg: int, n: nat, data: seq<Byte>, own: bool, reachable: bool)

  /** What becomes of a packet: a reply, or nothing because its sender is gone. */
  datatype Answer = Sent(res1: int, res2: int, data: seq<Byte>) | Dropped

  /** The one timer request: not in use, running, or completed and waiting on the timer port. */
  datatype Timer = Idle | Running(id: nat) | Complete(id: nat)

  const DOSTRUE: int := -1
  const DOSFALSE: int := 0
  const DRAIN_LIMIT: nat := 64

  // ------------------------------------------------ the terminal's size

  const SEMICOLON: Byte := 0x3b

  /** A number in decimal digits. */
  function Decimal(n: nat): (s: seq<Byte>)
    ensures s != [] && forall k :: 0 <= k < |s| ==> 0x30 <= s[k] <= 0x39
  {
    if n < 10 then [0x30 + n] else Decimal(n / 10) + [0x30 + n % 10]
  }

  /** Reading digits up to the first byte that is none, as the asking program does. */
  function Number(s: seq<Byte>, so: nat): (r: (nat, seq<Byte>))
    ensures |r.1| <= |s|
  {
    if s == [] || !(0x30 <= s[0] <= 0x39) then (so, s) else Number(s[1..], so * 10 + (s[0] - 0x30))
  }

  lemma {:induction false} NumberOfDecimal(n: nat, rest: seq<Byte>)
    requires rest != [] && !(0x30 <= rest[0] <= 0x39)
    ensures Number(Decimal(n) + rest, 0) == (n, rest)
  {
    DigitsAdd(n, rest, 0);
    assert Power(|Decimal(n)|) * 0 == 0;
  }

  function Power(k: nat): nat {
    if k == 0 then 1 else 10 * Power(k - 1)
  }

  lemma {:induction false} DigitsAdd(n: nat, rest: seq<Byte>, so: nat)
    ensures Number(Decimal(n) + rest, so) == Number(rest, so * Power(|Decimal(n)|) + n)
  {
    if n < 10 {
      assert ([0x30 + n] + rest)[1..] == rest;
      assert Power(1) == 10 * Power(0);
    } else {
      var last: seq<Byte> := [0x30 + n % 10];
      assert Decimal(n) + rest == Decimal(n / 10) + (last + rest);
      DigitsAdd(n / 10, last + rest, so);
      assert (last + rest)[1..] == rest;
      assert Power(|Decimal(n)|) == 10 * Power(|Decimal(n / 10)|);
      OneMoreDigit(so, Power(|Decimal(n / 10)|), n);
    }
  }

  lemma OneMoreDigit(so: nat, p: nat, n: nat)
    ensures (so * p + n / 10) * 10 + n % 10 == so * (10 * p) + n
  {
    assert n == n / 10 * 10 + n % 10;
    assert so * (10 * p) == so * p * 10;
  }

  /** The digits are found from the last to the first, and written the other way round. */
  method Digits(n: nat) returns (s: seq<Byte>)
    requires n > 0
    ensures s == Decimal(n)
  {
    var tmp: seq<Byte>, left: nat := [], n;
    s := [];
    while left > 0
      invariant |tmp| > 0 || left == n
      invariant Decimal(n) == (if left == 0 then [] else Decimal(left)) + Reverse(tmp)
      invariant left == 0 ==> tmp != []
      decreases left
    {
      ghost var before := tmp;
      tmp := tmp + [0x30 + left % 10];
      ReverseOne(before, 0x30 + left % 10);
      left := left / 10;
    }
    while tmp != []
      invariant s + Reverse(tmp) == Decimal(n)
      decreases |tmp|
    {
      ghost var before := tmp;
      var d: Byte := tmp[|tmp| - 1];
      tmp := tmp[..|tmp| - 1];
      assert before == tmp + [d];
      ReverseOne(tmp, d);
      s := s + [d];
    }
  }

  ghost function Reverse(q: seq<Byte>): seq<Byte> {
    if q == [] then [] else [q[|q| - 1]] + Reverse(q[..|q| - 1])
  }

  lemma ReverseOne(q: seq<Byte>, d: Byte)
    ensures Reverse(q + [d]) == [d] + Reverse(q)
  {
    assert (q + [d])[..|q|] == q;
  }

  function AtLeastOne(n: int): int {
    if n < 1 then 1 else n
  }

  /** The answer to the size query: a header of five bytes, the rows, the columns. */
  function SizeReply(rows: int, cols: int): seq<Byte> {
    [0x9b, 0x31, SEMICOLON, 0x31, SEMICOLON] + Decimal(if rows < 1 then 24 else rows) + [SEMICOLON]
    + Decimal(if cols < 1 then 80 else cols) + [0x20, 0x72]
  }

  /** What a program reads out of it: the rows from the sixth byte on, and the columns behind the semicolon. */
  lemma SizeReplyReads(rows: int, cols: int)
    ensures |SizeReply(rows, cols)| > 5
    ensures var (r, after) := Number(SizeReply(rows, cols)[5..], 0);
      && r == (if rows < 1 then 24 else rows) && after != [] && after[0] == SEMICOLON
      && Number(after[1..], 0) == (if cols < 1 then 80 else cols, [0x20, 0x72])
  {
    var h: seq<Byte> := [0x9b, 0x31, SEMICOLON, 0x31, SEMICOLON];
    var r, c := Decimal(if rows < 1 then 24 else rows), Decimal(if cols < 1 then 80 else cols);
    var tail: seq<Byte> := [0x20, 0x72];
    assert SizeReply(rows, cols) == h + (r + ([SEMICOLON] + (c + tail)));
    assert SizeReply(rows, cols)[5..] == r + ([SEMICOLON] + (c + tail));
    NumberOfDecimal(if rows < 1 then 24 else rows, [SEMICOLON] + (c + tail));
    assert ([SEMICOLON] + (c + tail))[1..] == c + tail;
    NumberOfDecimal(if cols < 1 then 80 else cols, tail);
  }

  function Ids(ps: seq<Packet>): set<nat> {
    set k: nat | k < |ps| :: ps[k].id
  }

  ghost predicate DistinctIds(ps: seq<Packet>) {
    forall j, k :: 0 <= j < k < |ps| ==> ps[j].id != ps[k].id
  }

  function IdOf(p: Option<Packet>): set<nat> {
    if p.Some? then {p.value.id} else {}
  }

  /** Nothing that has been answered is answered again. */
  ghost predicate Extends(before: map<nat, Answer>, now: map<nat, Answer>) {
    before.Keys <= now.Keys && forall id :: id in before ==> now[id] == before[id]
  }

  // --------------------------------------------------------- the accounts

  /**
    Every packet taken has been answered, is parked, or is in `current`, being
    dealt with: exactly one of these.
   */
  ghost predicate Accounted(
      taken: set<nat>, answers: map<nat, Answer>, read: Option<Packet>, wait: Option<Packet>, current: set<nat>) {
    && taken == answers.Keys + IdOf(read) + IdOf(wait) + current
    && answers.Keys !! IdOf(read) && answers.Keys !! IdOf(wait) && IdOf(read) !! IdOf(wait)
    && (answers.Keys + IdOf(read) + IdOf(wait)) !! current
  }

  lemma AnswerCurrent(
      taken: set<nat>, answers: map<nat, Answer>, read: Option<Packet>, wait: Option<Packet>, id: nat, a: Answer)
    requires Accounted(taken, answers, read, wait, {id})
    ensures id !in answers && Accounted(taken, answers[id := a], read, wait, {}) && Extends(answers, answers[id := a])
  {
  }

  lemma AnswerRead(
      taken: set<nat>, answers: map<nat, Answer>, read: Option<Packet>, wait: Option<Packet>, current: set<nat>,
      a: Answer)
    requires Accounted(taken, answers, read, wait, current) && read.Some?
    ensures read.value.id !in answers && Accounted(taken, answers[read.value.id := a], None, wait, current)
    ensures Extends(answers, answers[read.value.id := a])
  {
  }

  lemma AnswerWait(
      taken: set<nat>, answers: map<nat, Answer>, read: Option<Packet>, wait: Option<Packet>, current: set<nat>,
      a: Answer)
    requires Accounted(taken, answers, read, wait, current) && wait.Some?
    ensures wait.value.id !in answers && Accounted(taken, answers[wait.value.id := a], read, None, current)
    ensures Extends(answers, answers[wait.value.id := a])
  {
  }

  lemma ParkRead(taken: set<nat>, answers: map<nat, Answer>, wait: Option<Packet>, pkt: Packet)
    requires Accounted(taken, answers, None, wait, {pkt.id})
    ensures pkt.id !in answers && Accounted(taken, answers, Some(pkt), wait, {})
  {
  }

  lemma ParkWait(taken: set<nat>, answers: map<nat, Answer>, read: Option<Packet>, pkt: Packet)
    requires Accounted(taken, answers, read, None, {pkt.id})
    ensures pkt.id !in answers && Accounted(taken, answers, read, Some(pkt), {})
  {
  }

  lemma TakeNew(taken: set<nat>, answers: map<nat, Answer>, read: Option<Packet>, wait: Option<Packet>, id: nat)
    requires Accounted(taken, answers, read, wait, {}) && id !in taken
    ensures Accounted(taken + {id}, answers, read, wait, {id}) && id !in IdOf(read) && id !in IdOf(wait)
  {
  }

  lemma NothingParked(taken: set<nat>, answers: map<nat, Answer>)
    requires Accounted(taken, answers, None, None, {})
    ensures answers.Keys == taken
  {
  }

  lemma ExtendsTransitive(a: map<nat, Answer>, b: map<nat, Answer>, c: map<nat, Answer>)
    requires Extends(a, b) && Extends(b, c)
    ensures Extends(a, c)
  {
  }

  lemma ExtendsAt(a: map<nat, Answer>, b: map<nat, Answer>, id: nat)
    requires Extends(a, b) && id in a
    ensures id in b && b[id] == a[id]
  {
  }

  lemma ExtendsAll(a: map<nat, Answer>, b: map<nat, Answer>)
    requires Extends(a, b)
    ensures forall id :: id in a ==> id in b && b[id] == a[id]
  {
  }

  lemma ExtendsReflexive(a: map<nat, Answer>)
    ensures Extends(a, a)
  {
  }

  /**
    No timer but its own can end the parked wait. It has one, unless another
    wait came in between its completion and the handler's look at it.
   */
  predicate Timed(
      wait: Option<Packet>, timer: Timer, expiring: Option<nat>, waitTimer: nat, overtaken: bool, lastTimer: nat) {
    && (timer.Running? || timer.Complete? ==> timer.id <= lastTimer) && (expiring.Some? ==> timer == Idle)
    && (wait.Some? ==>
          && (timer == Idle || timer.id == waitTimer) && (expiring.Some? ==> expiring.value == waitTimer)
          && (overtaken <==> timer == Idle && expiring.None?))
  }

  /** What can happen next: to the handler, around it, or by it. */
  datatype Event =
    | Arrives(pkt: Packet)
    | TimerCompletes
    | Input(bytes: seq<Byte>)
    | Output(n: nat)
    | ChildExits
    | Shutdown(force: bool)
    | TimerMessage
    | Expiry
    | Resize(rows: int, cols: int)
    | Turn(childThere: bool)

  class Handler {
    const input: Ring
    const output: Ring
    const hasTimer: bool
    var port: seq<Packet>
    var deferredRead: Option<Packet>
    var deferredWait: Option<Packet>
    var timer: Timer
    var timerPending: bool
    var expiring: Option<nat>   // a timer message taken, its effect still to come
    var writerClosed: bool
    var childExited: bool
    var shutdownRequested: bool
    var forceDie: bool
    var rawMode: bool
    var rows: int               // the size of the terminal, as last reported
    var cols: int
    var openCount: nat
    var anyOpen: bool
    var running: bool
    var left: bool              // the packet loop has been broken off

    var taken: set<nat>              // every packet received so far
    var answers: map<nat, Answer>    // what has become of the packets
    ghost var delivered: seq<Byte>   // by reads, in order
    ghost var waitTimer: nat         // the use of the timer request for the parked wait
    ghost var overtaken: bool        // which has been used up by another wait
    var lastTimer: nat               // numbers the uses of the timer request

    constructor (hasTimer: bool)
      ensures Valid() && running && !left && port == [] && taken == {} && answers == map[]
      ensures this.hasTimer == hasTimer && timer == Idle && expiring.None? && Parked() == {}
      ensures !shutdownRequested && !writerClosed && input.count == 0 && output.count == 0 && output.accepted == []
      ensures fresh(input) && fresh(input.data) && fresh(output) && fresh(output.data)
      ensures rows == 24 && cols == 80
    {
      input := new Ring();
      output := new Ring();
      this.hasTimer := hasTimer;
      port, deferredRead, deferredWait, timer, timerPending, expiring := [], None, None, Idle, false, None;
      writerClosed, childExited, shutdownRequested, forceDie, rawMode := false, false, false, false, false;
      openCount, anyOpen, running, left, rows, cols := 0, false, true, false, 24, 80;
      taken, answers, delivered, waitTimer, lastTimer, overtaken := {}, map[], [], 0, 0, false;
    }

    ghost function Parked(): set<nat>
      reads this
    {
      IdOf(deferredRead) + IdOf(deferredWait)
    }

    /** All that always holds, except that parked packets may have become due. */
    ghost predicate Sound(current: set<nat>)
      reads this`port, this`deferredRead, this`deferredWait, this`timer, this`timerPending, this`expiring
      reads this`childExited, this`shutdownRequested, this`taken, this`answers, this`delivered, this`waitTimer
      reads this`overtaken, this`lastTimer
      reads input, input.data, output, output.data
    {
      && input != output && input.data != output.data && input.Valid() && output.Valid()
      && Accounted(taken, answers, deferredRead, deferredWait, current)
      && DistinctIds(port) && Ids(port) !! taken
      && delivered == input.accepted[..input.popped]
      && (timerPending <==> timer != Idle) && (!hasTimer ==> timer == Idle)
      && (childExited ==> shutdownRequested)
      && Timed(deferredWait, timer, expiring, waitTimer, overtaken, lastTimer)
    }

    /** No packet stays parked while there is something for it. */
    ghost predicate NothingDue()
      reads this`deferredRead, this`deferredWait, this`writerClosed, input
    {
      deferredRead.Some? || deferredWait.Some? ==> input.count == 0 && !writerClosed
    }

    ghost predicate Valid()
      reads this, input, input.data, output, output.data
    {
      Sound({}) && NothingDue()
    }

    /** May this packet be replied to: its reply port is the handler's own, or its sender still exists. */
    predicate CanReply(pkt: Packet, alive: set<nat>)
      reads this`childExited
    {
      pkt.reachable && (pkt.own || !childExited || pkt.id in alive)
    }

    /** What `rp_pkt_reply_ex` does: replies, or leaves the packet of a dead sender alone. */
    function Outcome(pkt: Packet, res1: int, res2: int, data: seq<Byte>, alive: set<nat>): (a: Answer)
      reads this`childExited
      ensures a == Dropped <==> !pkt.reachable || (childExited && !pkt.own && pkt.id !in alive)
      ensures a.Sent? ==> a == Sent(res1, res2, data)
    {
      if CanReply(pkt, alive) then Sent(res1, res2, data) else Dropped
    }

    method Reply(pkt: Packet, res1: int, res2: int, data: seq<Byte>, alive: set<nat>)
      requires Sound({pkt.id})
      modifies this`answers
      ensures Sound({}) && Extends(old(answers), answers)
      ensures answers == old(answers)[pkt.id := Outcome(pkt, res1, res2, data, alive)]
    {
      hide Accounted, Timed, DistinctIds, Ids, Extends;
      AnswerCurrent(taken, answers, deferredRead, deferredWait, pkt.id, Outcome(pkt, res1, res2, data, alive));
      answers := answers[pkt.id := Outcome(pkt, res1, res2, data, alive)];
    }

    static function AtMost(n: nat, limit: nat): (m: nat)
      ensures m <= n && m <= limit && (m == n || m == limit)
    {
      if n <= limit then n else limit
    }

    /** The answers with one more for a packet that was parked, if there was one. */
    ghost function Also(
        m: map<nat, Answer>, p: Option<Packet>, res1: int, data: seq<Byte>, alive: set<nat>): map<nat, Answer>
      reads this`childExited
    {
      if p.None? then m else m[p.value.id := Outcome(p.value, res1, 0, data, alive)]
    }

    /** Answers the parked read. */
    method ReplyRead(res1: int, data: seq<Byte>, alive: set<nat>, ghost current: set<nat>)
      requires Sound(current) && deferredRead.Some?
      modifies this`answers, this`deferredRead
      ensures Sound(current) && Extends(old(answers), answers) && deferredRead.None?
      ensures var pkt := old(deferredRead).value;
        answers == old(answers)[pkt.id := Outcome(pkt, res1, 0, data, alive)]
    {
      hide Accounted, Timed, DistinctIds, Ids, Extends;
      var pkt := deferredRead.value;
      AnswerRead(taken, answers, deferredRead, deferredWait, current, Outcome(pkt, res1, 0, data, alive));
      deferredRead := None;
      answers := answers[pkt.id := Outcome(pkt, res1, 0, data, alive)];
    }

    /** Answers the parked wait. */
    method ReplyWait(res1: int, alive: set<nat>, ghost current: set<nat>)
      requires Sound(current) && deferredWait.Some?
      modifies this`answers, this`deferredWait
      ensures Sound(current) && Extends(old(answers), answers) && deferredWait.None?
      ensures var pkt := old(deferredWait).value;
        answers == old(answers)[pkt.id := Outcome(pkt, res1, 0, [], alive)]
    {
      hide Accounted, DistinctIds, Ids, Extends;
      var pkt := deferredWait.value;
      AnswerWait(taken, answers, deferredRead, deferredWait, current, Outcome(pkt, res1, 0, [], alive));
      deferredWait := None;
      answers := answers[pkt.id := Outcome(pkt, res1, 0, [], alive)];
    }

    /** Takes bytes out of the input ring for a read. */
    method PopInput(n: nat, ghost current: set<nat>) returns (bytes: seq<Byte>)
      requires Sound(current)
      modifies input, this`delivered
      ensures Sound(current) && input.accepted == old(input.accepted) && delivered == old(delivered) + bytes
      ensures |bytes| == (if n <= old(input.count) then n else old(input.count))
      ensures input.count == old(input.count) - |bytes|
    {
      hide Accounted, Timed, DistinctIds, Ids;
      bytes := input.Pop(n);
      delivered := delivered + bytes;
      assert input.accepted[..input.popped]
        == input.accepted[..old(input.popped)] + input.accepted[old(input.popped)..input.popped];
    }

    /** Ends the parked wait and aborts its timer, which completes at once or a little later. */
    method FulfilWait(alive: set<nat>, ghost current: set<nat>)
      requires Sound(current) && deferredWait.Some?
      modifies this`deferredWait, this`timer, this`answers
      ensures Sound(current) && Extends(old(answers), answers) && deferredWait.None?
      ensures answers == Also(old(answers), old(deferredWait), DOSTRUE, [], alive)
    {
      hide Accounted, DistinctIds, Ids, Extends;
      ReplyWait(DOSTRUE, alive, current);
      if timerPending && hasTimer {
        if * {
          timer := Complete(timer.id);
        }
      }
    }

    /** Answers the parked packets that have become due: a wait first, then a read. */
    method FulfilDeferred(alive: set<nat>, ghost current: set<nat>)
      requires Sound(current)
      modifies this`deferredRead, this`deferredWait, this`timer, this`answers, this`delivered, input
      ensures Sound(current) && Extends(old(answers), answers) && input.accepted == old(input.accepted)
      ensures old(input.count == 0 && !writerClosed && !shutdownRequested) ==>
          && answers == old(answers) && deferredRead == old(deferredRead) && deferredWait == old(deferredWait)
          && input.count == 0
      ensures old(input.count > 0 || writerClosed || shutdownRequested) ==>
        deferredRead.None? && deferredWait.None? && old(delivered) <= delivered
      ensures old(input.count > 0 || writerClosed || shutdownRequested) ==>
        var bytes := delivered[|old(delivered)|..];
        && |bytes| == (if old(deferredRead).None? then 0 else AtMost(old(deferredRead).value.n, old(input.count)))
        && answers == Also(
             Also(old(answers), old(deferredWait), DOSTRUE, [], alive), old(deferredRead), |bytes|, bytes, alive)
    {
      hide Accounted, Timed, DistinctIds, Ids, Extends;
      ExtendsReflexive(answers);
      if deferredWait.Some? && (input.count > 0 || writerClosed || shutdownRequested) {
        FulfilWait(alive, current);
      }
      if deferredRead.None? || (input.count == 0 && !writerClosed && !shutdownRequested) {
        return;
      }
      ghost var before := answers;
      var bytes := PopInput(deferredRead.value.n, current);
      ReplyRead(|bytes|, bytes, alive, current);
      ExtendsTransitive(old(answers), before, answers);
    }

    // --------------------------------------------- the system and the program

    /** A packet arrives at the handler's port. */
    method Arrive(pkt: Packet)
      requires Valid() && pkt.id !in taken && pkt.id !in Ids(port)
      modifies this`port
      ensures Valid() && port == old(port) + [pkt]
    {
      ghost var before := port;
      port := port + [pkt];
      IdsAppend(before, pkt);
    }

    /** The timer request completes. */
    method TimerFires()
      requires Valid()
      modifies this`timer
      ensures Valid() && timer == if old(timer).Running? then Complete(old(timer).id) else old(timer)
    {
      if timer.Running? {
        timer := Complete(timer.id);
      }
    }

    /** The program writes to the child: as much as fits is accepted, and whoever waits for it is answered. */
    method WriteInput(bytes: seq<Byte>, alive: set<nat>) returns (written: nat)
      requires Valid()
      modifies this`deferredRead, this`deferredWait, this`timer, this`answers, this`delivered, input, input.data
      ensures Valid() && Extends(old(answers), answers)
      ensures written == (if |bytes| <= RING_SIZE - old(input.count) then |bytes| else RING_SIZE - old(input.count))
      ensures input.accepted == old(input.accepted) + bytes[..written]
      ensures written > 0 ==> Parked() == {}
      ensures written == 0 && !shutdownRequested && old(Parked()) != {} ==>
        answers == old(answers) && Parked() == old(Parked())
      ensures written > 0 && old(deferredWait).Some? ==>
        var w := old(deferredWait).value;
        w.id in answers && answers[w.id] == Outcome(w, -1, 0, [], alive)
      ensures written > 0 && old(deferredRead).Some? ==>
        var w, got := old(deferredRead).value, bytes[..AtMost(old(deferredRead).value.n, written)];
        w.id in answers && answers[w.id] == Outcome(w, |got|, 0, got, alive) && delivered == old(delivered) + got
    {
      hide Accounted, Timed, DistinctIds, Ids, Extends, Sound, Outcome, CanReply, Also;
      ParkedApart({});
      NothingLeft();
      ghost var had := delivered;
      written := PushInput(bytes);
      FulfilDeferred(alive, {});
      if written > 0 {
        AlsoAnswers(old(answers), old(deferredWait), old(deferredRead), delivered[|had|..], alive);
      }
      if written > 0 && old(deferredRead).Some? {
        ParkedApart({});
        NextBytes(had, bytes[..written], delivered);
      }
    }

    /** Both parked packets get their answers. */
    lemma AlsoAnswers(
        m: map<nat, Answer>, wait: Option<Packet>, read: Option<Packet>, got: seq<Byte>, alive: set<nat>)
      requires read.Some? && wait.Some? ==> read.value.id != wait.value.id
      ensures var n := Also(Also(m, wait, DOSTRUE, [], alive), read, |got|, got, alive);
        && (wait.Some? ==> wait.value.id in n && n[wait.value.id] == Outcome(wait.value, -1, 0, [], alive))
        && (read.Some? ==> read.value.id in n && n[read.value.id] == Outcome(read.value, |got|, 0, got, alive))
    {
      hide Outcome, CanReply;
    }

    method PushInput(bytes: seq<Byte>) returns (written: nat)
      requires Valid()
      modifies input, input.data
      ensures written == (if |bytes| <= RING_SIZE - old(input.count) then |bytes| else RING_SIZE - old(input.count))
      ensures Sound({}) && input.accepted == old(input.accepted) + bytes[..written]
      ensures input.count == old(input.count) + written
    {
      hide Accounted, Timed, DistinctIds, Ids;
      ghost var before, popped := input.accepted, input.popped;
      written := input.Push(bytes);
      SamePrefix(before, bytes[..written], popped);
    }

    /** While a read is parked, all input has been delivered. */
    lemma NothingLeft()
      requires Valid()
      ensures input.popped <= |input.accepted| && input.popped + input.count == |input.accepted|
      ensures Parked() != {} ==> input.count == 0 && delivered == input.accepted && !writerClosed
    {
    }

    lemma ParkedApart(current: set<nat>)
      requires Sound(current)
      ensures deferredRead.Some? && deferredWait.Some? ==> deferredRead.value.id != deferredWait.value.id
      ensures delivered == input.accepted[..input.popped]
    {
    }

    /** The program reads what the child wrote. */
    method ReadOutput(n: nat) returns (bytes: seq<Byte>)
      requires Valid()
      modifies output
      ensures Valid() && output.accepted == old(output.accepted)
      ensures old(output.popped) <= output.popped <= |output.accepted|
      ensures bytes == output.accepted[old(output.popped)..output.popped]
    {
      hide Accounted, Timed, DistinctIds, Ids, Extends;
      bytes := output.Pop(n);
    }

    /** The child has exited: its input is closed and nothing stays parked. */
    method ChildExit(alive: set<nat>)
      requires Valid()
      modifies this`childExited, this`shutdownRequested, this`writerClosed
      modifies this`deferredRead, this`deferredWait, this`timer, this`answers, this`delivered, input
      ensures Valid() && Extends(old(answers), answers) && childExited && shutdownRequested && Parked() == {}
      ensures old(deferredWait).Some? ==>
        var w := old(deferredWait).value;
        w.id in answers && answers[w.id] == Outcome(w, -1, 0, [], alive)
      ensures old(deferredRead).Some? ==>
        var w := old(deferredRead).value;
        w.id in answers && answers[w.id] == Outcome(w, 0, 0, [], alive) && delivered == old(delivered)
    {
      ParkedApart({});
      hide Accounted, DistinctIds, Ids, Extends;
      childExited := true;
      shutdownRequested := true;
      writerClosed := true;
      FulfilDeferred(alive, {});
    }

    method RequestShutdown(force: bool)
      requires Valid()
      modifies this`shutdownRequested, this`forceDie
      ensures Valid() && shutdownRequested && forceDie == (old(forceDie) || force)
    {
      shutdownRequested := true;
      forceDie := forceDie || force;
    }

    /** The program reports the size of its terminal. */
    method Resize(rows: int, cols: int)
      requires Valid()
      modifies this`rows, this`cols
      ensures Valid() && this.rows == AtLeastOne(rows) && this.cols == AtLeastOne(cols)
    {
      this.rows, this.cols := AtLeastOne(rows), AtLeastOne(cols);
    }

    // ------------------------------------------------------------ the timer

    /** The handler takes a message off its timer port. */
    method TakeTimerMessage()
      requires Valid() && timer.Complete? && expiring.None?
      modifies this`timer, this`timerPending, this`expiring
      ensures Valid() && expiring == Some(old(timer).id) && timer == Idle
    {
      expiring := Some(timer.id);
      timer := Idle;
      timerPending := false;
    }

    /** And answers the parked wait, if there still is one: it is the one the timer was started for. */
    method Expire(alive: set<nat>)
      requires Valid() && expiring.Some?
      modifies this`deferredWait, this`expiring, this`answers
      ensures Valid() && Extends(old(answers), answers) && expiring.None? && deferredWait.None?
      ensures old(deferredWait).None? ==> answers == old(answers)
      ensures old(deferredWait).Some? ==>
        && old(waitTimer) == old(expiring).value
        && answers == Also(old(answers), old(deferredWait), DOSFALSE, [], alive)
    {
      hide Accounted, DistinctIds, Ids, Extends;
      ExtendsReflexive(answers);
      if deferredWait.Some? {
        ReplyWait(DOSFALSE, alive, {});
      }
      expiring := None;
    }

    // ---------------------------------------------------------- the packets

    /** The first packet leaves the port. */
    method TakePacket() returns (pkt: Packet)
      requires Valid() && port != []
      modifies this`port, this`taken
      ensures Sound({pkt.id}) && NothingDue() && pkt == old(port)[0] && port == old(port)[1..]
      ensures taken == old(taken) + {pkt.id} && deferredRead != Some(pkt) && deferredWait != Some(pkt)
    {
      hide Accounted, Timed;
      pkt := port[0];
      IdsFirst(port);
      TakeNew(taken, answers, deferredRead, deferredWait, pkt.id);
      port := port[1..];
      taken := taken + {pkt.id};
    }

    /** A read gets the next bytes, or is answered with none, or parked. */
    twostate predicate ReadDealt(pkt: Packet)
      reads this, input
    {
      && old(input.popped) <= |old(input.accepted)| && |old(delivered)| <= |delivered|
      && var got := delivered[|old(delivered)|..];
         && delivered == old(delivered) + got && got <= old(input.accepted)[old(input.popped)..]
         && |got| == (if pkt.n <= old(input.count) then pkt.n else old(input.count))
         && input.count == old(input.count) - |got|
         && if old(input.count) > 0 || old(writerClosed) || old(rawMode) then
              && deferredRead == old(deferredRead)
              && answers == old(answers)[pkt.id := if pkt.reachable then Sent(|got|, 0, got) else Dropped]
            else
              && deferredRead == Some(pkt)
              && answers == if old(deferredRead).None? then old(answers) else old(answers)[
                   old(deferredRead).value.id := if old(deferredRead).value.reachable then Sent(0, 0, []) else Dropped]
    }

    /** A wait is answered at once, or parked with the timer running for it. */
    twostate predicate WaitDealt(pkt: Packet)
      reads this, input
    {
      && (old(deferredWait).Some? ==> overtaken == (old(overtaken) || old(timer).Complete?))
      && if old(input.count) > 0 || old(writerClosed) then
           && answers == old(answers)[pkt.id := if pkt.reachable then Sent(-1, 0, []) else Dropped]
           && deferredWait == old(deferredWait)
         else if hasTimer && !old(timer).Running? && old(deferredWait).None? && pkt.arg >= 2000 then
           && answers == old(answers) && deferredWait == Some(pkt)
           && timer == Running(waitTimer) && waitTimer > old(lastTimer)
         else
           && answers == old(answers)[pkt.id := if pkt.reachable then Sent(0, 0, []) else Dropped]
           && deferredWait == old(deferredWait)
    }

    /** A write goes to the output as far as there is room, the size query is answered in the input. */
    twostate predicate WriteDealt(pkt: Packet)
      reads this, input, output
    {
      && old(output.count) <= RING_SIZE && old(input.count) <= RING_SIZE
      && pkt.id in answers && answers[pkt.id] == (if pkt.reachable then Sent(|pkt.data|, 0, []) else Dropped)
      && if pkt.data == [0x9b, 0x30, 0x20, 0x71] then
           var reply := SizeReply(rows, cols);
           && output.accepted == old(output.accepted)
           && input.accepted == old(input.accepted) + reply[..AtMost(|reply|, RING_SIZE - old(input.count))]
         else
           && input.accepted == old(input.accepted)
           && output.accepted
              == old(output.accepted) + pkt.data[..AtMost(|pkt.data|, RING_SIZE - old(output.count))]
           && answers == old(answers)[pkt.id := if pkt.reachable then Sent(|pkt.data|, 0, []) else Dropped]
    }

    /** The packets that are answered at once, whatever the input. */
    twostate predicate OtherDealt(pkt: Packet)
      reads this
    {
      && answers == old(answers)[pkt.id :=
           if !pkt.reachable then Dropped
           else if pkt.kind.Other? then Sent(pkt.kind.res1, pkt.kind.res2, [])
           else Sent(-1, 0, [])]
      && rawMode == (if pkt.kind == ScreenMode then pkt.arg != 0 else old(rawMode))
      && openCount == (if pkt.kind == FindInput || pkt.kind == FindOutput then old(openCount) + 1
                       else if pkt.kind == End && old(openCount) > 0 then old(openCount) - 1
                       else old(openCount))
    }

    /**
      One turn of the packet loop. While no shutdown has been requested, a read
      gets the next bytes of the input, as many as it asks for and there are. On
      an empty ring it is answered with none once the writer has closed, or in
      raw mode; else it is parked, and takes the place of one parked before.
     */
    method HandlePacket(alive: set<nat>, childThere: bool)
      requires Valid() && !left && expiring.None? && port != []
      modifies this, input, input.data, output, output.data
      ensures Valid() && Extends(old(answers), answers)
      ensures old(taken) + {old(port)[0].id} <= taken && expiring.None? && output.popped == old(output.popped)
      ensures old(shutdownRequested) ==>
        var pkt := old(port)[0];
        var res1 := if pkt.kind == Write then |pkt.data|
          else if pkt.kind in {Read, FindInput, FindOutput} then 0 else -1;
        && pkt.id in answers && answers[pkt.id] == Outcome(pkt, res1, 0, [], alive)
        && rawMode == old(rawMode) && openCount == old(openCount)
      ensures !old(shutdownRequested) ==>
        && !left && running == old(running) && !shutdownRequested && !childExited && !old(childExited)
        && port == old(port)[1..] && taken == old(taken) + {old(port)[0].id}
      ensures !old(shutdownRequested) && old(port)[0].kind == Read ==>
        && ReadDealt(old(port)[0])
        && old(input.popped) <= |old(input.accepted)|
        && var pkt, n := old(port)[0], if old(port)[0].n <= old(input.count) then old(port)[0].n else old(input.count);
           && (n > 0 && pkt.reachable ==>
                 && n <= |old(input.accepted)[old(input.popped)..]|
                 && pkt.id in answers && answers[pkt.id] == Sent(n, 0, old(input.accepted)[old(input.popped)..][..n])
                 && delivered == old(delivered) + old(input.accepted)[old(input.popped)..][..n])
           && (old(input.count) == 0 && !old(writerClosed) && !old(rawMode) ==>
                 && deferredRead == Some(pkt) && pkt.id !in answers
                 && (old(deferredRead).Some? && old(deferredRead).value.reachable ==>
                       && old(deferredRead).value.id in answers
                       && answers[old(deferredRead).value.id] == Sent(0, 0, [])))
           && (old(input.count) == 0 && (old(writerClosed) || old(rawMode)) && pkt.reachable ==>
                 pkt.id in answers && answers[pkt.id] == Sent(0, 0, []))
      ensures !old(shutdownRequested) && old(port)[0].kind == WaitChar ==>
        && WaitDealt(old(port)[0])
        && var pkt := old(port)[0];
           pkt.id !in answers <==>
             && old(input.count) == 0 && !old(writerClosed) && hasTimer && !old(timer).Running?
             && old(deferredWait).None? && pkt.arg >= 2000
      ensures !old(shutdownRequested) && old(port)[0].kind == Write ==> WriteDealt(old(port)[0])
      ensures !old(shutdownRequested) && old(port)[0].kind !in {Read, WaitChar, Write} ==> OtherDealt(old(port)[0])
    {
      hide Accounted, Timed, DistinctIds, Ids, Extends, Sound, NothingDue, Outcome, CanReply, Brief;
      HeadIsNew();
      var pkt := TakePacket();
      SoundFacts({pkt.id});
      if shutdownRequested {
        HandleShutdown(pkt, alive, childThere);
      } else {
        Dispatch(pkt, alive);
      }
    }

    lemma HeadIsNew()
      requires Valid() && port != []
      ensures port[0].id !in answers && port[0].id !in IdOf(deferredRead)
    {
      assert port[0].id in Ids(port);
    }

    method Dispatch(pkt: Packet, alive: set<nat>)
      requires Sound({pkt.id}) && NothingDue() && expiring.None? && !shutdownRequested && deferredRead != Some(pkt)
      modifies this`openCount, this`anyOpen, this`shutdownRequested, this`running, this`rawMode, this`answers
      modifies this`deferredRead, this`deferredWait, this`timer, this`timerPending, this`waitTimer, this`lastTimer
      modifies this`overtaken, this`delivered, input, input.data, output, output.data
      ensures Valid() && Extends(old(answers), answers) && output.popped == old(output.popped)
      ensures running == old(running) && !shutdownRequested
      ensures pkt.kind == Read ==> ReadDealt(pkt)
      ensures pkt.kind == WaitChar ==> WaitDealt(pkt)
      ensures pkt.kind == Write ==> WriteDealt(pkt)
      ensures pkt.kind !in {Read, WaitChar, Write} ==> OtherDealt(pkt)
    {
      hide Accounted, Timed, DistinctIds, Ids, Extends, Sound, NothingDue, CanReply;
      SoundFacts({pkt.id});
      match pkt.kind
      case FindInput => HandleFind(pkt, alive);
      case FindOutput => HandleFind(pkt, alive);
      case End => HandleEnd(pkt, alive);
      case Write => HandleWrite(pkt, alive);
      case Read => HandleRead(pkt, alive);
      case WaitChar => HandleWaitChar(pkt, alive);
      case ScreenMode => HandleScreenMode(pkt, alive);
      case Die => HandleOther(pkt, DOSTRUE, 0, alive);
      case Other(res1, res2) => HandleOther(pkt, res1, res2, alive);
    }

    lemma InputFacts(current: set<nat>)
      requires Sound(current)
      ensures input.popped <= |input.accepted| && input.popped + input.count == |input.accepted|
      ensures delivered == input.accepted[..input.popped]
    {
    }

    lemma SoundFacts(current: set<nat>)
      requires Sound(current)
      ensures input != output && input.data != output.data && output.count <= RING_SIZE
      ensures (childExited ==> shutdownRequested)
    {
    }

    lemma ParkedIsUnanswered()
      requires Valid() && deferredWait.Some?
      ensures deferredWait.value.id !in answers
    {
    }

    /** Raw mode makes reads of an empty ring return at once. */
    method HandleScreenMode(pkt: Packet, alive: set<nat>)
      requires Sound({pkt.id}) && NothingDue()
      modifies this`rawMode, this`answers
      ensures Valid() && Extends(old(answers), answers) && rawMode == (pkt.arg != 0)
      ensures answers == old(answers)[pkt.id := Outcome(pkt, DOSTRUE, 0, [], alive)]
    {
      hide Accounted, Timed, DistinctIds, Ids, Extends;
      rawMode := pkt.arg != 0;
      Reply(pkt, DOSTRUE, 0, [], alive);
    }

    /** Packets that only want an answer. */
    method HandleOther(pkt: Packet, res1: int, res2: int, alive: set<nat>)
      requires Sound({pkt.id}) && NothingDue()
      modifies this`answers
      ensures Valid() && Extends(old(answers), answers)
      ensures answers == old(answers)[pkt.id := Outcome(pkt, res1, res2, [], alive)]
    {
      hide Accounted, Timed, DistinctIds, Ids, Extends;
      Reply(pkt, res1, res2, [], alive);
    }

    /** Once shutdown is requested: the packet is answered, and the handler leaves unless the child is still there. */
    method HandleShutdown(pkt: Packet, alive: set<nat>, childThere: bool)
      requires Sound({pkt.id}) && NothingDue()
      modifies this`port, this`taken, this`answers, this`running, this`left
      ensures Valid() && Extends(old(answers), answers) && old(taken) <= taken
      ensures
        var res1 := if pkt.kind == Write then |pkt.data|
          else if pkt.kind in {Read, FindInput, FindOutput} then 0 else -1;
        pkt.id in answers && answers[pkt.id] == Outcome(pkt, res1, 0, [], alive)
      ensures left == (old(left) || !childThere || forceDie) && running == (old(running) && childThere && !forceDie)
    {
      hide Accounted, Timed, DistinctIds, Ids, Extends, Sound, NothingDue, Outcome, CanReply;
      ShutdownReply(pkt, alive);
      if forceDie || !childThere {
        ghost var before := answers;
        Drain(alive);
        ExtendsAt(before, answers, pkt.id);
        ExtendsTransitive(old(answers), before, answers);
        running := false;
        left := true;
      }
    }

    /** The quick replies of the shutdown branch. */
    method ShutdownReply(pkt: Packet, alive: set<nat>)
      requires Sound({pkt.id}) && NothingDue()
      modifies this`answers
      ensures Valid() && Extends(old(answers), answers)
      ensures answers == old(answers)[pkt.id := Outcome(pkt, Brief(pkt), 0, [], alive)]
    {
      hide Accounted, Timed, DistinctIds, Ids, Extends;
      Reply(pkt, Brief(pkt), 0, [], alive);
    }

    static function Brief(pkt: Packet): int {
      match pkt.kind
      case Read => 0
      case Write => |pkt.data|
      case FindInput => DOSFALSE
      case FindOutput => DOSFALSE
      case _ => DOSTRUE
    }

    /** Answers what is on the port now, up to a limit. */
    method Drain(alive: set<nat>)
      requires Valid()
      modifies this`port, this`taken, this`answers
      ensures Valid() && Extends(old(answers), answers) && old(taken) <= taken
      ensures port == if |old(port)| <= 64 then [] else old(port)[64..]
      ensures forall k :: 0 <= k < |old(port)| && k < 64 ==>
        var pkt := old(port)[k];
        var res1 := if pkt.kind == Write then |pkt.data|
          else if pkt.kind in {Read, FindInput, FindOutput} then 0 else -1;
        pkt.id in answers && answers[pkt.id] == Outcome(pkt, res1, 0, [], alive)
    {
      hide Accounted, Timed, DistinctIds, Ids, Extends;
      var left: nat := DRAIN_LIMIT;
      ExtendsReflexive(answers);
      while left > 0 && port != []
        invariant Valid() && Extends(old(answers), answers) && old(taken) <= taken
        invariant left <= DRAIN_LIMIT && |old(port)| >= DRAIN_LIMIT - left && port == old(port)[DRAIN_LIMIT - left..]
        invariant forall k :: 0 <= k < DRAIN_LIMIT - left ==>
          var pkt := old(port)[k];
          pkt.id in answers && answers[pkt.id] == Outcome(pkt, Brief(pkt), 0, [], alive)
      {
        ghost var before := answers;
        left := left - 1;
        var pkt := TakePacket();
        ShutdownReply(pkt, alive);
        ExtendsAll(before, answers);
        ExtendsTransitive(old(answers), before, answers);
      }
      assert |port| == |old(port)| - (DRAIN_LIMIT - left);
    }

    method HandleFind(pkt: Packet, alive: set<nat>)
      requires Sound({pkt.id}) && NothingDue()
      modifies this`openCount, this`anyOpen, this`answers
      ensures Valid() && Extends(old(answers), answers)
      ensures openCount == old(openCount) + (if childExited then 0 else 1) && anyOpen == (old(anyOpen) || !childExited)
      ensures answers == old(answers)[pkt.id := Outcome(pkt, if childExited then DOSFALSE else DOSTRUE, 0, [], alive)]
    {
      hide Accounted, Timed, DistinctIds, Ids, Extends;
      if !childExited {
        openCount := openCount + 1;
        anyOpen := true;
      }
      Reply(pkt, if childExited then DOSFALSE else DOSTRUE, 0, [], alive);
    }

    /**
      A handle is closed. The last one would end the handler after the child's
      exit, but then shutdown has been requested and packets no longer come here.
     */
    method HandleEnd(pkt: Packet, alive: set<nat>)
      requires Sound({pkt.id}) && NothingDue()
      modifies this`openCount, this`shutdownRequested, this`running, this`answers
      ensures Valid() && Extends(old(answers), answers)
      ensures answers == old(answers)[pkt.id := Outcome(pkt, DOSTRUE, 0, [], alive)]
      ensures openCount == (if old(openCount) > 0 then old(openCount) - 1 else 0)
      ensures running == (old(running) && !(childExited && openCount == 0 && anyOpen))
      ensures shutdownRequested == (old(shutdownRequested) || (childExited && openCount == 0 && anyOpen))
      ensures !old(shutdownRequested) ==> running == old(running) && !shutdownRequested
    {
      hide Accounted, Timed, DistinctIds, Ids, Extends;
      if openCount > 0 {
        openCount := openCount - 1;
      }
      Reply(pkt, DOSTRUE, 0, [], alive);
      if childExited && openCount == 0 && anyOpen {
        shutdownRequested := true;
        running := false;
      }
    }

    /**
      A write is answered with its whole length, whether or not the ring had
      room for all of it; the terminal-size query is answered through the input.
     */
    method HandleWrite(pkt: Packet, alive: set<nat>)
      requires Sound({pkt.id}) && NothingDue() && pkt.kind == Write
      modifies this`deferredRead, this`deferredWait, this`timer, this`answers, this`delivered
      modifies input, input.data, output, output.data
      ensures Valid() && Extends(old(answers), answers)
      ensures pkt.id in answers && answers[pkt.id] == Outcome(pkt, |pkt.data|, 0, [], alive)
      ensures output.popped == old(output.popped) && old(output.count) <= RING_SIZE && old(input.count) <= RING_SIZE
      ensures childExited ==> output.accepted == old(output.accepted) && input.accepted == old(input.accepted)
      ensures !childExited && pkt.data == [0x9b, 0x30, 0x20, 0x71] ==>
        var reply := SizeReply(rows, cols);
        && output.accepted == old(output.accepted)
        && input.accepted == old(input.accepted) + reply[..AtMost(|reply|, RING_SIZE - old(input.count))]
      ensures !childExited && pkt.data != [0x9b, 0x30, 0x20, 0x71] ==>
        && input.accepted == old(input.accepted)
        && output.accepted == old(output.accepted) + pkt.data[..AtMost(|pkt.data|, RING_SIZE - old(output.count))]
      ensures pkt.data != [0x9b, 0x30, 0x20, 0x71] ==>
        answers == old(answers)[pkt.id := Outcome(pkt, |pkt.data|, 0, [], alive)]
    {
      hide Accounted, Timed, DistinctIds, Ids, Extends;
      if childExited {
        Reply(pkt, |pkt.data|, 0, [], alive);
        return;
      }
      if pkt.data == [0x9b, 0x30, 0x20, 0x71] {
        ghost var before, popped := input.accepted, input.popped;
        var response := ReplyToSize();
        var pushed := input.Push(response);
        SamePrefix(before, response[..pushed], popped);
        FulfilDeferred(alive, {pkt.id});
        ghost var fulfilled := answers;
        Reply(pkt, |pkt.data|, 0, [], alive);
        ExtendsTransitive(old(answers), fulfilled, answers);
        return;
      }
      var pushed := output.Push(pkt.data);
      Reply(pkt, |pkt.data|, 0, [], alive);
    }

    method ReplyToSize() returns (reply: seq<Byte>)
      ensures reply == SizeReply(rows, cols)
    {
      var r: nat, c: nat := if rows < 1 then 24 else rows, if cols < 1 then 80 else cols;
      reply := [0x9b, 0x31, SEMICOLON, 0x31, SEMICOLON];
      var digits := Digits(r);
      reply := reply + digits + [SEMICOLON];
      digits := Digits(c);
      reply := reply + digits + [0x20, 0x72];
    }

    /** A read gets what there is; in cooked mode it is parked when there is nothing. */
    method HandleRead(pkt: Packet, alive: set<nat>)
      requires Sound({pkt.id}) && NothingDue() && pkt.kind == Read && deferredRead != Some(pkt)
      modifies this`deferredRead, this`answers, this`delivered, input
      ensures Valid() && Extends(old(answers), answers) && input.accepted == old(input.accepted)
      ensures old(input.popped) <= |old(input.accepted)| && |old(delivered)| <= |delivered|
      ensures var got := delivered[|old(delivered)|..];
        && delivered == old(delivered) + got && got <= old(input.accepted)[old(input.popped)..]
        && |got| == (if childExited then 0 else AtMost(pkt.n, old(input.count)))
        && input.count == old(input.count) - |got|
        && (old(input.count) > 0 || childExited || writerClosed || rawMode ==>
              && deferredRead == old(deferredRead)
              && answers == old(answers)[pkt.id := Outcome(pkt, |got|, 0, got, alive)])
      ensures old(input.count) == 0 && !childExited && !writerClosed && !rawMode ==>
        && deferredRead == Some(pkt)
        && answers == if old(deferredRead).None? then old(answers) else old(answers)[
             old(deferredRead).value.id := Outcome(old(deferredRead).value, 0, 0, [], alive)]
    {
      hide Accounted, Timed, DistinctIds, Ids, Extends;
      InputFacts({pkt.id});
      assert delivered[|delivered|..] == [];
      if childExited {
        Reply(pkt, 0, 0, [], alive);
      } else if input.count > 0 {
        var bytes := PopInput(pkt.n, {pkt.id});
        Reply(pkt, |bytes|, 0, bytes, alive);
      } else if writerClosed || rawMode {
        Reply(pkt, 0, 0, [], alive);
      } else {
        ExtendsReflexive(answers);
        if deferredRead.Some? {
          ReplyRead(0, [], alive, {pkt.id});
        }
        ParkRead(taken, answers, deferredWait, pkt);
        deferredRead := Some(pkt);
      }
    }

    /** A wait for input is answered at once, or parked with a timer of its own. */
    method HandleWaitChar(pkt: Packet, alive: set<nat>)
      requires Sound({pkt.id}) && NothingDue() && expiring.None?
      modifies this`deferredWait, this`timer, this`timerPending, this`waitTimer, this`lastTimer, this`overtaken
      modifies this`answers
      ensures Valid() && Extends(old(answers), answers)
      ensures old(deferredWait).Some? ==> (overtaken <==> old(overtaken) || old(timer).Complete?)
      ensures old(input.count) > 0 || writerClosed ==>
        && answers == old(answers)[pkt.id := Outcome(pkt, -1, 0, [], alive)] && deferredWait == old(deferredWait)
      ensures old(input.count) == 0 && !writerClosed ==>
        if hasTimer && !old(timer).Running? && old(deferredWait).None? && pkt.arg >= 2000 then
          && answers == old(answers) && deferredWait == Some(pkt) && pkt.id !in answers
          && timer == Running(waitTimer) && waitTimer > old(lastTimer)
        else answers == old(answers)[pkt.id := Outcome(pkt, 0, 0, [], alive)] && deferredWait == old(deferredWait)
    {
      hide Accounted, DistinctIds, Ids, Extends, Timed, Sound;
      ExtendsReflexive(answers);
      ReclaimTimer({pkt.id});
      if input.count > 0 || writerClosed {
        Reply(pkt, DOSTRUE, 0, [], alive);
      } else if hasTimer && !timerPending && deferredWait.None? && pkt.arg >= 2000 {
        ParkWithTimer(pkt);
      } else {
        Reply(pkt, DOSFALSE, 0, [], alive);
      }
    }

    /** A timer request that has completed is taken back, whoever it was started for. */
    method ReclaimTimer(ghost current: set<nat>)
      requires Sound(current) && expiring.None?
      modifies this`timer, this`timerPending, this`overtaken
      ensures Sound(current) && timer == (if old(timer).Complete? then Idle else old(timer))
      ensures timerPending == (timer != Idle)
      ensures (deferredWait.Some? ==> overtaken == (old(overtaken) || old(timer).Complete?))
    {
      hide Accounted, DistinctIds, Ids;
      if timerPending && hasTimer && timer.Complete? {
        timer := Idle;
        timerPending := false;
        overtaken := true;
      }
    }

    /** Parks a wait and starts the timer for it. */
    method ParkWithTimer(pkt: Packet)
      requires Sound({pkt.id}) && hasTimer && timer == Idle && expiring.None? && deferredWait.None?
      modifies this`deferredWait, this`timer, this`timerPending, this`waitTimer, this`lastTimer, this`overtaken
      ensures Sound({}) && deferredWait == Some(pkt) && pkt.id !in answers
      ensures timer == Running(waitTimer) && waitTimer > old(lastTimer) && !overtaken
    {
      hide Accounted, DistinctIds, Ids;
      ParkWait(taken, answers, deferredRead, pkt);
      deferredWait := Some(pkt);
      timerPending := true;
      lastTimer := lastTimer + 1;
      waitTimer := lastTimer;
      timer := Running(lastTimer);
      overtaken := false;
    }

    /** The loop has ended: the timer is reclaimed and the parked packets are answered. */
    method Exit(alive: set<nat>)
      requires Valid() && !running && (left || port == []) && expiring.None?
      modifies this`timer, this`timerPending, this`deferredWait, this`deferredRead, this`answers
      ensures Valid() && Extends(old(answers), answers) && Parked() == {} && answers.Keys == taken
      ensures timer == Idle
      ensures answers
        == Also(Also(old(answers), old(deferredWait), DOSFALSE, [], alive), old(deferredRead), 0, [], alive)
    {
      hide Accounted, DistinctIds, Ids, Extends;
      ExtendsReflexive(answers);
      if deferredWait.Some? {
        ReplyWait(DOSFALSE, alive, {});
      }
      timer := Idle;
      timerPending := false;
      if deferredRead.Some? {
        ghost var before := answers;
        ReplyRead(0, [], alive, {});
        ExtendsTransitive(old(answers), before, answers);
      }
      NothingParked(taken, answers);
    }

    /**
      A timeout is lost. Whenever a wait is parked with its timer running, and
      the timer completes with another wait, whatever that asks for, next on the
      port, the timer is taken back: the parked wait stays, without one.
     */
    method Overtake(second: Packet, alive: set<nat>)
      requires Valid() && !left && !shutdownRequested && expiring.None? && port == [] && second.id !in taken
      requires deferredWait.Some? && timer.Running? && second.kind == WaitChar
      modifies this, input, input.data, output, output.data
      ensures Valid() && deferredWait == old(deferredWait) && overtaken && timer == Idle && expiring.None?
      ensures second.id in answers && second.id !in old(answers)
    {
      hide Accounted, DistinctIds, Extends, Outcome, CanReply;
      SecondIsNew(second.id);
      TimerFires();
      Arrive(second);
      HandlePacket(alive, true);
    }

    lemma SecondIsNew(id: nat)
      requires Valid() && id !in taken
      ensures id !in answers && id !in Ids([]) && (port == [] ==> id !in Ids(port))
    {
    }

    /**
      Any run: the events in any order, those that cannot happen passed over,
      then the handler's exit if its loop has ended. By then every packet it
      took has exactly one answer, or was dropped with its sender gone.
     */
    method Serve(events: seq<(Event, set<nat>)>)
      requires Valid() && expiring.None?
      modifies this, input, input.data, output, output.data
      ensures Valid() && Extends(old(answers), answers)
      ensures !running && (left || port == []) ==> Parked() == {} && answers.Keys == taken
    {
      hide Accounted, Timed, DistinctIds, Ids, Extends;
      ExtendsReflexive(answers);
      var i := 0;
      while i < |events|
        invariant i <= |events| && Valid() && Extends(old(answers), answers)
      {
        ghost var before := answers;
        ExtendsReflexive(answers);
        Happen(events[i].0, events[i].1);
        ExtendsTransitive(old(answers), before, answers);
        i := i + 1;
      }
      ghost var before := answers;
      ExtendsReflexive(answers);
      if expiring.Some? {
        Expire({});
      }
      ghost var expired := answers;
      ExtendsTransitive(old(answers), before, expired);
      if !running && (left || port == []) {
        Exit({});
        ExtendsTransitive(old(answers), expired, answers);
      }
    }

    /** One event, if it can happen now; `alive` are the packets whose senders still exist. */
    method Happen(e: Event, alive: set<nat>)
      requires Valid()
      modifies this, input, input.data, output, output.data
      ensures Valid() && Extends(old(answers), answers)
      ensures old(overtaken) && old(deferredWait).Some? && !e.Input? && !e.ChildExits? && !e.Turn? ==>
        deferredWait == old(deferredWait) && overtaken
      ensures e.Arrives? && e.pkt.id !in old(taken) && e.pkt.id !in Ids(old(port)) ==> port == old(port) + [e.pkt]
      ensures e.Turn? && !old(left) && old(expiring).None? && old(port) != [] ==> old(port)[0].id in taken
      ensures e.ChildExits? ==> childExited && shutdownRequested && Parked() == {}
      ensures e.Shutdown? ==> shutdownRequested && forceDie == (old(forceDie) || e.force)
      ensures e.Resize? ==> rows == (if e.rows < 1 then 1 else e.rows) && cols == (if e.cols < 1 then 1 else e.cols)
      ensures e.Input? && |e.bytes| <= 65536 - old(input.count) ==> input.accepted == old(input.accepted) + e.bytes
      ensures e.TimerCompletes? ==> timer == if old(timer).Running? then Complete(old(timer).id) else old(timer)
      ensures e.TimerMessage? && old(running) && old(timer).Complete? && old(expiring).None? ==>
        expiring == Some(old(timer).id) && timer == Idle
      ensures e.Expiry? && old(expiring).Some? ==> expiring.None? && deferredWait.None?
    {
      hide Accounted, DistinctIds, Ids, Extends;
      ExtendsReflexive(answers);
      match e
      case Arrives(pkt) =>
        if pkt.id !in taken && pkt.id !in Ids(port) {
          Arrive(pkt);
        }
      case TimerCompletes => TimerFires();
      case Input(bytes) => var written := WriteInput(bytes, alive);
      case Output(n) => var bytes := ReadOutput(n);
      case ChildExits => ChildExit(alive);
      case Shutdown(force) => RequestShutdown(force);
      case TimerMessage =>
        if running && timer.Complete? && expiring.None? {
          TakeTimerMessage();
        }
      case Expiry =>
        if expiring.Some? {
          Expire(alive);
        }
      case Resize(rows, cols) => Resize(rows, cols);
      case Turn(childThere) =>
        if !left && expiring.None? && port != [] {
          HandlePacket(alive, childThere);
        }
    }
  }

  /** It happens to a handler that has just begun: one wait with a timeout, and another behind it. */
  method LoseTimeout(first: Packet, second: Packet, alive: set<nat>) returns (h: Handler)
    requires first.kind == WaitChar && first.arg >= 2000 && second.kind == WaitChar && second.id != first.id
    ensures h.Valid() && h.deferredWait == Some(first) && h.overtaken && h.timer == Idle && h.expiring.None?
    ensures second.id in h.answers && first.id !in h.answers
  {
    hide Accounted, DistinctIds, Extends, Handler.Outcome, Handler.CanReply;
    h := new Handler(true);
    h.Arrive(first);
    h.HandlePacket(alive, true);
    h.Overtake(second, alive);
    h.ParkedIsUnanswered();
  }

  /** A write that finds the ring full is answered with its length, and all of it is lost. */
  method LoseOutput(first: Packet, second: Packet, alive: set<nat>) returns (h: Handler)
    requires first.kind == second.kind == Write && |first.data| == RING_SIZE && second.id != first.id
    requires second.data != [] && first.reachable && second.reachable
    ensures h.Valid() && h.output.accepted == first.data
    ensures second.id in h.answers && h.answers[second.id] == Sent(|second.data|, 0, [])
  {
    hide Accounted, Timed, DistinctIds, Extends;
    h := new Handler(true);
    h.Arrive(first);
    h.HandlePacket(alive, true);
    h.Arrive(second);
    h.HandlePacket(alive, true);
  }

  lemma NextBytes(had: seq<Byte>, more: seq<Byte>, now: seq<Byte>)
    requires |had| <= |now| <= |had + more| && now == (had + more)[..|now|]
    ensures now == had + more[..|now| - |had|] && now[|had|..] == more[..|now| - |had|]
  {
  }

  lemma SamePrefix(a: seq<Byte>, b: seq<Byte>, n: nat)
    requires n <= |a|
    ensures (a + b)[..n] == a[..n]
  {
  }

  lemma IdsAppend(ps: seq<Packet>, p: Packet)
    ensures Ids(ps + [p]) == Ids(ps) + {p.id}
  {
    forall id | id in Ids(ps) + {p.id} ensures id in Ids(ps + [p]) {
      if id in Ids(ps) {
        var k: nat :| k < |ps| && ps[k].id == id;
        assert (ps + [p])[k].id == id;
      } else {
        assert (ps + [p])[|ps|].id == id;
      }
    }
  }

  lemma IdsFirst(ps: seq<Packet>)
    requires ps != [] && DistinctIds(ps)
    ensures Ids(ps) == {ps[0].id} + Ids(ps[1..]) && ps[0].id !in Ids(ps[1..]) && DistinctIds(ps[1..])
  {
    forall id | id in Ids(ps) ensures id in {ps[0].id} + Ids(ps[1..]) {
      var k: nat :| k < |ps| && ps[k].id == id;
      assert k > 0 ==> ps[1..][k - 1].id == id;
    }
    forall id | id in Ids(ps[1..]) ensures id in Ids(ps) && id != ps[0].id {
      var k: nat :| k < |ps[1..]| && ps[1..][k].id == id;
      assert ps[k + 1].id == id;
    }
  }
}
