# Verification model of the AmLang C runtime

AmLang programs run on a small C runtime: share-nothing threads ("isolates"),
automatic reference counting with a per-isolate list of property-referenced
objects, a cycle collector, bump arenas, deep-copied messages between isolates,
UTF-8 strings indexed by UTF-16 units, and, on the Amiga, a DOS packet handler
that is the console of a child process. This project models those parts in Dafny
and proves what they promise.

## How it is organised

| file | what it holds |
|---|---|
| ObjectGraph.dfy | the heap of one isolate as a value: objects, owners, exact counts, and the least set a release removes |
| RefCount.dfy | `Isolate`: the list surgery, retains, releases and the mutually recursive death of objects |
| Reachability.dfy | garbage and reachability as least sets and as paths; what a collection removes |
| Probing.dfy, CycleGraph.dfy | linear probing; the collector's node array, hash index and marking queue |
| Collector.dfy | `collect`: index, count, mark, pin, clear, unpin |
| InFlight.dfy, Mutator.dfy | slots whose count and contents are momentarily apart; allocation and property writes |
| Arrays.dfy | `clearRange` and `copyTo` |
| CopyTable.dfy, Sharing.dfy, DeepCopy.dfy | the growing copy table, which objects are copied once, and the graph copier |
| Isomorphism.dfy, Message.dfy | what a finished copy is; messages |
| Utf8.dfy, TextIndex.dfy, Search.dfy, Strings.dfy | the decoder against section 4 of RFC 3629, index maps, self-synchronization, the string operations |
| Arenas.dfy | the fast-lane arenas, for any arena, record and word size |
| Lifecycle.dfy | isolates, threads, handles, join and its refusal, the one moment of freeing, and whole lives from `start` to it |
| Mailbox.dfy | the queue of a mailbox, its wake-ups, and the accounting of messages over all places where they wait |
| Process.dfy | the whole process: the heaps of all isolates, the messages between them with their memory, sending, receiving and teardown, and the proof that they do what the accounting says |
| Console.dfy | the byte rings, the packet handler, and its answer to the terminal-size query |
| Calendar.dfy | civil time from seconds and back |

Objects that the runtime updates in place are classes with the runtime's fields
(`Isolate`, `CycleGraph`, `CopyTable`, `Copier`, `Mailbox`, `Process`, `Pool`,
`Holder`, `Ring`, `Handler`). Memory is a map from addresses to objects; freeing removes
the key, so a use after a free or a second free cannot be written down. Ghost
state stands for owners outside the heap: `locals` (references in running code),
`props` (static slots), `busy` (slots in the middle of a write). `Valid()` says
that every count equals its owners, that exactly the property-referenced objects
are on the linked list, and that the allocation count is right. Every operation
requires and ensures it, so it holds after any sequence of operations.

What a release frees is stated without mentioning counts or recursion:
`Doomed(s)` is the least set `d` of objects such that everything outside `d` has
an outside owner or an owner outside `d`; `Released(s, seed, n)` says that the
new heap `n` has lost exactly the doomed objects (with `seed` among them) and
that every other object keeps its contents.

Concurrent parts are state machines over atomic steps; their theorems hold for
every order of steps. The packet handler is a class whose methods are the
sections the source runs with task switching forbidden, plus what the program
and the system do in between.

## Results that differ from what the source's comments suggest

- `collect` retains native-finalizer objects and what they reach, but a
  finalizer object whose only owners are garbage is released together with
  them (`FinalizerIsTakenAlong`). `ReleasesOnlyGarbage` gives the exact
  condition under which a collection frees the garbage and nothing else.
- `char_length == length` does not mean ASCII: it means that every decode step
  took one byte. `FastPathIsExact` says when the fast path then agrees with the
  decoder (every byte below 0x80), `FastPathOnMalformed` gives an input where it
  does not.
- `join` ignores the error of `pthread_join`, which refuses two calls: a join of
  the caller's own thread, and a join of a thread that is itself waiting in
  `pthread_join` for the caller. A refused `join` returns at once, before the
  thread is done (`SelfJoinReturnsEarly`, `MutualJoinReturnsEarly`, with
  `SelfJoinExample` and `MutualJoinExample` for a run of each), and the thread
  then ends neither joined nor detached, because the claim stays taken
  (`SelfJoinLosesThread`, `RefusedIsLost`). `JoinReturnsWhenDone` shows that a
  `join` that returns finds the thread done if and only if it was not such a
  call, and `JoinedOrDetached` that a thread ends joined or detached if and only
  if its join was not refused.
- After a `start` that could not create its thread, `join` polls for ever
  (`JoinOfNothing`). `JoinWithoutThread` says when it does not wait at all.
- On the Amiga a poster signals the mailbox's owner after it has let go of the
  mailbox: the owner may have closed it and gone. That can happen if and only if
  the poster was between the two when the owner closed
  (`ExecMailbox.SignalAfterClose`).
- A parked timed wait can lose its timeout: when a second wait packet comes in
  after the timer completed and before the handler has looked at its timer port,
  reclaiming the request takes the first wait's expiry away
  (`Console.Handler.HandleWaitChar` says exactly when, `Console.Handler.Overtake`
  takes any parked wait there, `Console.LoseTimeout` a new handler; from then on
  no timer event ends that wait, `Console.Handler.Happen`). No wait is ever ended
  by another wait's timer.
- A console write is answered with its full length even when the ring accepted
  only part of it (`Console.Handler.HandleWrite`), or nothing
  (`Console.LoseOutput`).
- The branch in which the last closed handle ends the packet handler after the
  child's exit is never reached: the exit has requested shutdown, and then
  packets are answered elsewhere (`Console.Handler.HandleEnd`).
- The copier copies plain objects, strings, and whatever lies on no cycle exactly
  once (`Isomorphisms.CopiedExactlyOnce`). An array or wrapper on a cycle can be
  copied again before its first copy is recorded; the result still looks the same
  along every path (`Isomorphisms.CopyLooksAlike`).

## Model

| member | source | states |
|---|---|---|
| ObjectGraph.AddLocal | src/native-c/libc/core_inline_functions.h:225-239 | a retain keeps every count equal to its owners |
| ObjectGraph.DropLocal | src/native-c/libc/core_inline_functions.h:183-203 | dropping one local owner keeps all counts exact; the object may be left for its release |
| ObjectGraph.AddProp | src/native-c/libc/core_inline_functions.h:353-402 | a property retain keeps every count exact, immortal objects keeping none |
| ObjectGraph.DropProp | src/native-c/libc/core.c:861-876 | a property release keeps every count exact, immortal objects keeping none |
| ObjectGraph.RetireKeepsBalance | src/native-c/libc/core.c:900-919 | an object marked pending stops owning: its slots and wrapped object become owners to be given up, all counts stay exact |
| ObjectGraph.RetiredEdges | src/native-c/libc/core.c:931-971 | the owners an object gives up are exactly its slots and its implementation, with multiplicity |
| ObjectGraph.FreeKeepsBalance | src/native-c/libc/core.c:832-847 | nothing refers to a pending object, so freeing it leaves no dangling pointer |
| ObjectGraph.DoomedIsReleasable | src/native-c/libc/core.c:772-984 | the set of objects a release must remove exists: the intersection of all closed sets is closed |
| ObjectGraph.DoomedIsUnique | src/native-c/libc/core.c:772-984 | and any closed set below it is that set |
| ObjectGraph.SettledIsReleased | src/native-c/libc/core.c:772-984 | a heap with exact counts reached by freeing only doomed objects has lost exactly the doomed ones |
| ObjectGraph.NestedRelease | src/native-c/libc/core.c:894-896 | a release started inside another stays inside the set that one removes |
| ObjectGraph.OrphanIsDoomed | src/native-c/libc/core_inline_functions.h:200-203 | an object without counts is in that set |
| ObjectGraph.LocalsNotDoomed | src/native-c/libc/core_inline_functions.h:200-203 | an object with a local reference is never in it |
| RefCount.LinkThreads | src/native-c/libc/core_inline_functions.h:384-391 | pushing at the head keeps prev and next consistent and changes nothing else |
| RefCount.UnlinkThreads | src/native-c/libc/core.c:877-892 | unlinking at any position keeps the rest of the list in order |
| RefCount.EnterList | src/native-c/libc/core_inline_functions.h:384-392 | the first property owner puts the object on the list, and then it is on it because its count is positive |
| RefCount.LeaveList | src/native-c/libc/core.c:866-892 | losing the last property owner takes it off |
| RefCount.Isolate.constructor | src/native-c/libc/core.c:2160-2177 | a new isolate has an empty heap, list and count |
| RefCount.Isolate.CountsAreOwners | src/native-c/libc/core.c:566-600 | what validity says of every object, written out: local references are counted with the wrappers, property references are the slots and static owners, the list holds exactly the property-referenced objects with both links right, and the allocation count is the mortal objects and the other allocations |
| RefCount.Isolate.Link | src/native-c/libc/core_inline_functions.h:384-391 | the list becomes the object followed by the old list |
| RefCount.Isolate.Unlink | src/native-c/libc/core.c:877-892 | the list loses exactly that element |
| RefCount.Isolate.IncreaseReference | src/native-c/libc/core_inline_functions.h:225-239 | only this count changes, one local owner more |
| RefCount.Isolate.IncreaseProperty | src/native-c/libc/core_inline_functions.h:353-402 | one property owner more; listed exactly when the count was zero and the object is mortal |
| RefCount.Isolate.DecreaseReference | src/native-c/libc/core_inline_functions.h:183-223 | exactly the objects without remaining support are freed, the others keep their contents and exact counts; nothing is freed while another owner remains |
| RefCount.Isolate.DecreaseProperty | src/native-c/libc/core.c:861-899 | the same for a property owner |
| RefCount.Isolate.Deallocate | src/native-c/libc/core.c:772-859 | frees exactly the doomed set, fast case included, and terminates |
| RefCount.Isolate.Detach | src/native-c/libc/core.c:900-984 | the object stays pending and hollow while everything only it kept alive goes |
| RefCount.Isolate.ReleaseSlots | src/native-c/libc/Am/Lang/Array.c:18-45 | a run of slots is given up in order, each reference once, whatever the nested releases free |
| Reachability.ReachedIffPath | src/native-c/libc/Am/Lang/GC.c:61-115 | reachable as a least set is reachable by a path of owning references |
| Reachability.ReleaseKeepsTheOwned | src/native-c/libc/core.c:772-984 | a release keeps the greatest set of objects that needs nothing outside itself: each survivor has an outside owner or one that survives, and every set of which that is true survives |
| Reachability.SurvivorsAreUnchanged | src/native-c/libc/core.c:772-984 | a survivor keeps its class, slots, wrapped object and data |
| Reachability.GarbageIffNoPath | src/native-c/libc/Am/Lang/GC.c:83-90 | an object is garbage if and only if no path leads to it from a local or static owner, nor from an object whose hook is other than none, the array's and the string's |
| Reachability.UnreachedIsCollected | src/native-c/libc/Am/Lang/GC.c:61-115 | a collection frees every such object: cyclic garbage of plain objects, arrays, strings and wrappers |
| Reachability.ReachedIsKept | src/native-c/libc/Am/Lang/GC.c:61-115 | and keeps, with its contents, whatever a path leads to from an outside owner |
| Reachability.AnchoredSurvives | src/native-c/libc/Am/Lang/GC.c:83-110 | nothing an outside owner reaches is freed by a collection |
| Reachability.ReleasesOnlyGarbage | src/native-c/libc/Am/Lang/GC.c:83-90 | a collection frees the garbage and nothing more if and only if every finalizer object has an owner that is not garbage, or an outside one |
| Reachability.KeepsExactlyReached | src/native-c/libc/Am/Lang/GC.c:61-115 | without native finalizers the survivors are exactly what outside owners reach |
| Reachability.FinalizerIsTakenAlong | src/native-c/libc/Am/Lang/GC.c:83-90 | a heap with exact counts where an object with a native finalizer is freed although it is never garbage |
| Probing.ProbeStep | src/native-c/libc/gc_graph.h:75-87 | a probe comes closer to an empty slot with every step |
| Probing.ProbeEnd | src/native-c/libc/gc_graph.h:67-74 | a probe that ends at an empty slot has proved the key absent |
| Probing.ProbeInsert | src/native-c/libc/gc_graph.h:61-66 | inserting keeps every key reachable from its home slot |
| CycleGraphs.WorkspaceFits | src/native-c/libc/gc_graph.h:29-40 | no more than `SIZE_MAX` / 32 words of objects are admitted, and then the workspace computation does not wrap around, with 4-byte and 8-byte words |
| CycleGraphs.QueueFits | src/native-c/libc/gc_graph.h:82-94 | each node is queued at most once, so there is room for any node not yet live |
| CycleGraphs.CycleGraph.Find | src/native-c/libc/gc_graph.h:67-74 | the probe ends at the key's slot, or at an empty slot and then the key is absent |
| CycleGraphs.CycleGraph.Add | src/native-c/libc/gc_graph.h:61-66 | the index gains exactly this node |
| CycleGraphs.CycleGraph.Contains | src/native-c/libc/gc_graph.h:67-74 | membership, both ways |
| CycleGraphs.CycleGraph.Edge | src/native-c/libc/gc_graph.h:75-87 | an edge counts once before marking, and marks and queues once during it |
| CycleGraphs.CycleGraph.Roots | src/native-c/libc/gc_graph.h:88-96 | exactly the nodes whose references differ from their internal count become live |
| Collector.InflowCountsOwners | src/native-c/libc/Am/Lang/GC.c:11-33 | what the collector counts for an object is the number of its owners among the indexed objects |
| Collector.UnexplainedIsExternal | src/native-c/libc/gc_graph.h:88-96 | with exact counts, a node has an unexplained reference if and only if it has an owner outside the index |
| Collector.OutsideIsReached | src/native-c/libc/Am/Lang/GC.c:66-80 | an object that is not indexed is reached from an outside owner, through any chain of wrappers |
| Collector.UnmarkedIsGarbage | src/native-c/libc/Am/Lang/GC.c:91-92 | the indexed nodes that marking does not find are exactly the garbage |
| Collector.IndexList | src/native-c/libc/Am/Lang/GC.c:69-72 | the index holds exactly the list, in its order |
| Collector.IndexImplementations | src/native-c/libc/Am/Lang/GC.c:73-80 | the growing index ends up holding every object that could be garbage, each once |
| Collector.CountInternal | src/native-c/libc/Am/Lang/GC.c:81-82 | internal counts are the references from indexed objects |
| Collector.ForceFinalizers | src/native-c/libc/Am/Lang/GC.c:83-90 | native finalizers other than those of arrays and strings become roots, others are classified as before |
| Collector.Mark | src/native-c/libc/Am/Lang/GC.c:91-92 | the live nodes are the closure of the roots under owning references |
| Collector.ClearOwnedEdges | src/native-c/libc/Am/Lang/GC.c:41-60 | all object slots of a dead object are emptied, wrappers keep their implementation, no pinned or live object is touched |
| Collector.Pin | src/native-c/libc/Am/Lang/GC.c:106-108 | exactly the garbage gets one local owner each, and is counted |
| Collector.ClearDead | src/native-c/libc/Am/Lang/GC.c:109 | all garbage is hollow, still in memory, and nothing outside it has changed |
| Collector.NothingDeadLeft | src/native-c/libc/Am/Lang/GC.c:105-110 | with the pins gone no garbage can remain, whatever the order of wrappers and implementations |
| Collector.Unpin | src/native-c/libc/Am/Lang/GC.c:110 | removing the pins frees the garbage, each object once |
| Collector.Collect | src/native-c/libc/Am/Lang/GC.c:61-115 | with no detached object waiting, memory for the index, and an allocation count of at least 0 for which 32 words each are at most `SIZE_MAX`, a collection frees exactly the garbage and what only garbage kept alive, returns the size of the garbage, keeps every survivor's contents and leaves all counts exact; in every other case it returns 0 and changes nothing |
| InFlight.TakeKeepsBalance | src/native-c/libc/core_inline_functions.h:414-416 | a slot's reference can be given up before the slot is overwritten |
| InFlight.SettleKeepsBalance | src/native-c/libc/core_inline_functions.h:436-439 | and a retained value can be written into the slot afterwards |
| Mutator.Allocate | src/native-c/libc/core.c:566-600 | a new object has one local owner and no edges; the allocation count rises even when memory is short |
| Mutator.AllocateWrapper | src/native-c/libc/core.c:286-321 | a wrapper holds one local reference of its own on the implementation |
| Mutator.SetProperty | src/native-c/libc/core_inline_functions.h:404-440 | the slot holds the new value, all other slots what they held, and exactly the objects that nothing then owns are freed, although the old value is released before the new one is retained |
| Mutator.HeldIsAssignable | src/native-c/libc/core_inline_functions.h:404-440 | a caller with references of its own on object and value meets the requirement of a write |
| Mutator.SoleOwnerDies | src/native-c/libc/core_inline_functions.h:414-416 | a value owned only by the slot it is stored into again is freed first: the requirement is needed |
| Mutator.AssignedDoomed | src/native-c/libc/core_inline_functions.h:413-439 | releasing first and retaining later dooms the same objects as an instantaneous write |
| Arrays.ClearRange | src/native-c/libc/Am/Lang/Array.c:221-246 | slot by slot, the range holds the zero value and the rest what it held, and exactly what nothing then owns is freed; an invalid range changes nothing |
| Arrays.MidwayDoomed | src/native-c/libc/Am/Lang/Array.c:121-132 | after the retains, the releases free what an instantaneous copy would free, overlap included |
| Arrays.CopyTo | src/native-c/libc/Am/Lang/Array.c:111-152 | slot by slot, the destination holds the old source range and the rest what it held, also when ranges overlap, and exactly what nothing then owns is freed |
| CopyTables.InsertRaw | src/native-c/libc/core.c:2304-2310 | a pair is added and every pair stays reachable |
| CopyTables.CopyTable.Lookup | src/native-c/libc/core.c:2293-2302 | a recorded pair for the source, or the proof that there is none |
| CopyTables.CopyTable.Record | src/native-c/libc/core.c:2312-2326 | one pair more; it fails only when the table must grow and memory is short |
| CopyTables.CopyTable.Grow | src/native-c/libc/core.c:2313-2323 | doubling and rehashing keep exactly the same pairs |
| Sharing.UnrepeatedNew | src/native-c/libc/core.c:2351-2370 | a copy begun while other copies are under way is the first of its object, unless a path leads back to it |
| Sharing.UnrepeatedClose | src/native-c/libc/core.c:2351-2356 | once complete and recorded, an object is not copied again |
| DeepCopy.FaithfulNew | src/native-c/libc/core.c:2367-2377 | a fresh copy resembles its source and disturbs no earlier copy |
| DeepCopy.FaithfulClose | src/native-c/libc/core.c:2378-2392 | a copy whose slots are all filled mirrors its source |
| DeepCopy.TableNewSingle | src/native-c/libc/core.c:2368-2370 | recording before the slots are walked keeps at most one copy per plain object |
| DeepCopy.TableNew | src/native-c/libc/core.c:2351-2356 | objects recorded late may be copied again without making the table wrong |
| DeepCopy.TodoDone | src/native-c/libc/core.c:2367-2370 | each plain object copied leaves fewer to copy, so the recursion ends on cyclic graphs |
| DeepCopy.Copier.CopyObject | src/native-c/libc/core.c:2328-2393 | a copy with one owned reference, all earlier copies untouched, sharing kept, counts exact; with enough memory it succeeds unless a class reached cannot be cloned |
| DeepCopy.Copier.CopyPlain | src/native-c/libc/core.c:2367-2392 | the same for plain objects, including cycles through the object itself |
| DeepCopy.Copier.CopyWrapper | src/native-c/libc/core.c:2338-2347 | the wrapper's copy wraps the implementation's copy |
| DeepCopy.Copier.CopyArray | src/native-c/libc/Am/Lang/Array.c:171-216 | every element leads to a copy of the source's element; the half-made copy is given up on failure |
| DeepCopy.Copier.CopyString | src/native-c/libc/Am/Lang/String.c:492-518 | a string is re-created with the same data, and with enough memory always |
| DeepCopy.Copier.CopySlot | src/native-c/libc/core.c:2378-2391 | one slot: values are copied, references lead to the child's copy, whose reference moves into the slot |
| Isomorphisms.SameOnEveryPath | src/native-c/libc/core.c:2328-2393 | from corresponding values every path of slots leads to corresponding values, for graphs with arrays and wrappers on cycles too |
| Isomorphisms.CopyMatchesSource | src/native-c/libc/core.c:2328-2393 | object by object: the same class, data and primitives, and every reference and every wrapped object leads to a copy of what it leads to in the source |
| Isomorphisms.CopyLooksAlike | src/native-c/libc/core.c:2328-2393 | along every path from the payload source and copy show the same primitive, or objects of the same class and data |
| Isomorphisms.CopiesWhatIsReached | src/native-c/libc/core.c:2328-2393 | everything reachable from the payload is copied and nothing else |
| Isomorphisms.CopiedExactlyOnce | src/native-c/libc/core.c:2330-2334 | each plain object and string of any graph, and each array and wrapper on no cycle, has exactly one copy: what is shared stays shared |
| Isomorphisms.CopyIsIsomorphic | src/native-c/libc/core.c:2328-2393 | when every cycle consists of plain objects, arrays and wrappers included, the correspondence is a bijection that keeps every slot and every implementation |
| Isomorphisms.ReachedIsReadable | src/native-c/libc/core.c:2328-2393 | a heap with exact counts is always fit to be copied from |
| Messages.SealedCounts | src/native-c/libc/core.c:2451-2461 | in a message the payload has one owned reference, every property count is the in-degree, the chain lists exactly the property-referenced objects, and the count is the number of objects |
| Messages.JoinKeepsBalance | src/native-c/libc/core.c:2464-2470 | two heaps side by side have exact counts when each has |
| Messages.SpliceThreads | src/native-c/libc/core.c:2401-2410 | the chain followed by the old list is one well-formed list |
| Messages.SpliceChain | src/native-c/libc/core.c:2401-2410 | splicing changes links only |
| Messages.Stage | src/native-c/libc/core.c:2413-2423 | the staged copies are accounted for on their own |
| Messages.MessageCreate | src/native-c/libc/core.c:2412-2462 | on success the message carries a finished copy in memory that nobody uses, in whatever isolate or message, and the sender is exactly as before; otherwise its objects are untouched and its list and counts exact. A message is made only if every object reached is a wrapper with an implementation or has no hook, the array's or the string's; and if so it is made, memory permitting |
| Messages.SendableUnlessBareCycle | src/native-c/libc/core.c:2328-2393 | what is required of a payload, that the recursion has a measure, is met if and only if no cycle consists of arrays and wrappers alone |
| Messages.MessageOpen | src/native-c/libc/core.c:2464-2470 | the receiver's list is the chain and then its own, its count grows by the message's, its counts stay exact, and all objects of both keep their contents |
| Messages.MessageDiscard | src/native-c/libc/core.c:2472-2475 | exactly what the payload alone kept alive dies, and nothing the isolate had before |
| Messages.OldSurvive | src/native-c/libc/core.c:2430-2437 | releasing copies frees none of the objects that were there before |
| Utf8.DecodeAcceptsGrammar | src/native-c/libc/core.c:323-359 | the decoder takes exactly the characters of section 4 of RFC 3629, else one byte for U+FFFD, and never reads past the end |
| Utf8.DecodeTable | src/native-c/libc/core.c:323-359 | the decoder in numbers, as the table of section 3 of RFC 3629 has it: which first and following bytes give which code point and length, all else one byte for U+FFFD |
| Utf8.CharacterLength | src/native-c/libc/core.c:323-359 | at most one prefix of a text is a character |
| Utf8.DecodeInvertsEncode | src/native-c/libc/core.c:323-359 | decoding inverts encoding for every scalar value, wherever it stands |
| Utf8.EncodeInjective | src/native-c/libc/core.c:323-359 | no two scalar values have the same encoding |
| Utf8.UnitsDecode | src/native-c/libc/core.c:386-398 | the UTF-16 view of any text decodes (section 2.2 of RFC 2781) to its code points |
| Utf8.UnitsWithinBytes | src/native-c/libc/core.c:361-368 | there are never more units than bytes, and as many exactly when every step took one byte |
| Utf8.EncodedIsWellFormed | src/native-c/libc/core.c:323-359 | encoded text is well formed and decodes to what was encoded |
| Utf8.WellFormedIsEncoded | src/native-c/libc/core.c:323-359 | and well-formed text is the encoding of its code points |
| TextIndex.UnitsSplit | src/native-c/libc/core.c:409-446 | cutting at a character boundary of any byte string cuts its units |
| TextIndex.SliceUnits | src/native-c/libc/Am/Lang/String.c:369-398 | a slice between two boundaries decodes to exactly the units between them |
| TextIndex.LocateIsExact | src/native-c/libc/core.c:409-433 | unit to byte finds the boundary with that many units before it, and reports a split exactly between two surrogates |
| TextIndex.IndexRoundTrip | src/native-c/libc/core.c:409-446 | byte to unit and unit to byte undo each other at boundaries |
| TextIndex.OneByteIndex | src/native-c/libc/core.c:413-416 | the one-byte fast path equals the walk, for malformed text too |
| TextIndex.FastPathIsExact | src/native-c/libc/core.c:373-376 | when every step takes one byte, the bytes are the units if and only if all are below 0x80, as in well-formed text |
| TextIndex.FastPathOnMalformed | src/native-c/libc/Am/Lang/String.c:262-268 | a one-byte text that the fast path reads as itself but that decodes to U+FFFD |
| Search.MatchStartsCharacter | src/native-c/libc/Am/Lang/String.c:311-314 | a well-formed needle matches a well-formed text only where a character starts |
| Search.ByteMatchIsUnitMatch | src/native-c/libc/Am/Lang/String.c:311-318 | a byte match is a match of the units at the converted index |
| Search.UnitMatchIsByteMatch | src/native-c/libc/Am/Lang/String.c:311-318 | and every match of the units comes from a byte match |
| Search.Find | src/native-c/libc/Am/Lang/String.c:314 | the least byte position at which the needle occurs |
| Strings.Utf16Length | src/native-c/libc/core.c:361-368 | the number of units of any byte string |
| Strings.Holder.Wide | src/native-c/libc/core.c:370-407 | the cached view is complete and equal to the units; when there is none, and why |
| Strings.Holder.CharacterAtNative | src/native-c/libc/Am/Lang/String.c:251-301 | the unit asked for by each of the three paths; the raw byte exactly when there are as many units as bytes; an error exactly when out of range |
| Strings.Holder.GetChars | src/native-c/libc/Am/Lang/String.c:430-485 | all units by the same three paths, the raw bytes when there are as many units as bytes; fails exactly when there is no memory for the array, not when there is none for the view |
| Strings.Holder.UnitToByte | src/native-c/libc/core.c:409-433 | the walk and the fast path both give the located place |
| Strings.Holder.ByteToUnit | src/native-c/libc/core.c:435-446 | the walk and the fast path both give the count of units |
| Strings.Holder.Substring | src/native-c/libc/Am/Lang/String.c:354-404 | the substring decodes to exactly the units asked for; each of the three errors occurs exactly when it should, 32-bit overflow and lack of memory included |
| Strings.Holder.IndexOf | src/native-c/libc/Am/Lang/String.c:303-324 | for well-formed NUL-free texts and a non-empty needle, the least index at which the needle's units begin in the text's, -1 exactly when there is none |
| Strings.Holder.LastIndexOf | src/native-c/libc/Am/Lang/String.c:326-352 | the greatest such index |
| Arenas.ObjectsApart | src/native-c/libc/core.c:2085-2097 | live objects start at multiples of 8 and occupy disjoint memory inside their region, in one arena or in two |
| Arenas.BumpKeepsPacked | src/native-c/libc/core_inline_functions.h:99-103 | a new slot overlaps no live one and stays inside its arena |
| Arenas.DropKeepsPacked | src/native-c/libc/core.c:2124-2127 | the live count of each arena is the number of live slots in it |
| Arenas.RemoveArenaAt | src/native-c/libc/core.c:2111-2117 | unlinking in constant time keeps the list of all arenas well formed |
| Arenas.Pool.New | src/native-c/libc/core.c:2057-2078 | an empty arena from the free list or the system, none only when neither has one |
| Arenas.Pool.Allocate | src/native-c/libc/core.c:2080-2098 | a fresh slot disjoint from all live ones, of header and object each rounded up to 8 bytes, or none exactly when it is too big or there is no memory; a replaced arena still holds live objects |
| Arenas.Pool.Free | src/native-c/libc/core.c:2119-2128 | the live slots lose exactly this one, and every arena is current, kept, or holds a live object |
| Arenas.Pool.Recycle | src/native-c/libc/core.c:2100-2117 | an empty arena is reset and stays current, is kept (up to the limit), or is handed back |
| Arenas.Pool.NoneStranded | src/native-c/libc/core.c:2100-2117 | every arena is the current one, is kept, or holds a live object, no more than the limit are kept, and no kept arena holds one |
| Lifecycle.StepReads | src/native-c/libc/Am/Threading/Thread.c:71-230 | no step reads an isolate that has been freed |
| Lifecycle.StepKeepsInv | src/native-c/libc/Am/Threading/Thread.c:71-230 | every step of start, handle copy and drop, join, worker exit and free keeps the protocol's invariant (what each step achieves is in the rows below) |
| Lifecycle.CountIsOwners | src/native-c/libc/core.c:2160-2253 | the handle count is live handles plus the running thread plus parent links of children |
| Lifecycle.FreedAtMostOnce | src/native-c/libc/core.c:2222-2253 | no run frees an isolate twice |
| Lifecycle.NoneFreedTwice | src/native-c/libc/core.c:2222-2253 | so it is since the process began |
| Lifecycle.EveryRun | src/native-c/libc/Am/Threading/Thread.c:71-230 | the protocol's invariant holds after every run since the process began |
| Lifecycle.FreedOnce | src/native-c/libc/core.c:2222-2253 | a freed isolate never comes back |
| Lifecycle.FreedWhenUnheld | src/native-c/libc/core.c:2246-2253 | it is freed only when no handle, child or thread of it is left |
| Lifecycle.UnheldIsFreed | src/native-c/libc/core.c:2246-2253 | and can be freed as soon as that is so |
| Lifecycle.DropHandleFrees | src/native-c/libc/Am/Threading/Thread.c:71-80 | after a handle is dropped it names nothing and every other holder is as before; if it was the last the isolate can be freed at once |
| Lifecycle.FreedReleasesParent | src/native-c/libc/core.c:2239-2243 | after a freed child has let go of its parent nothing of the child is left, every other holder is as before, and if that link was the parent's last holder the parent can be freed at once |
| Lifecycle.CopiedHandleNames | src/native-c/libc/Am/Threading/Thread.c:107-111 | a copied handle names the isolate of the one it was copied from, whose count is one more |
| Lifecycle.OwnHandlesName | src/native-c/libc/Am/Threading/Thread.c:263-287 | a handle made for the caller names the caller, and one for the parent the parent |
| Lifecycle.UnjoinedThread | src/native-c/libc/Am/Threading/Thread.c:118-162 | from any state in which a thread may start another, a start whose thread nobody joins can run to its end: the isolate is then exited, done and detached, held by the one handle |
| Lifecycle.JoinedThread | src/native-c/libc/Am/Threading/Thread.c:208-221 | one that is joined ends exited, done and reaped, never detached |
| Lifecycle.BootFailed | src/native-c/libc/Am/Threading/Thread.c:186-189 | a start whose runnable cannot be copied leaves an isolate without native data |
| Lifecycle.SpawnFailed | src/native-c/libc/Am/Threading/Thread.c:195-203 | one whose thread cannot be created gives the thread's own hold back |
| Lifecycle.LifeLeavesNoTrace | src/native-c/libc/Am/Threading/Thread.c:118-206 | whichever of the four ways a start goes, once its handle is dropped the isolate is freed, its parent is let go of, and the state is what it was before, but for the isolate being freed |
| Lifecycle.JoinedOrDetached | src/native-c/libc/Am/Threading/Thread.c:152-156 | a thread is never both joined and detached; once it has exited and nobody is inside its join, it is one of them if and only if its join was not refused; at most one joiner has claimed it |
| Lifecycle.JoinReturnsWhenDone | src/native-c/libc/Am/Threading/Thread.c:208-230 | a join that returns finds the thread done if and only if it was neither a join of the caller's own thread nor of a thread joining the caller |
| Lifecycle.LateJoinPolls | src/native-c/libc/Am/Threading/Thread.c:222-227 | a join that comes second, or to a thread that is detached or was not launched, polls, and can return if and only if the thread is done |
| Lifecycle.RefusedIfDeadlocked | src/native-c/libc/Am/Threading/Thread.c:218-221 | `pthread_join` refuses exactly these two |
| Lifecycle.RefusedIsLost | src/native-c/libc/Am/Threading/Thread.c:152-156 | in every run a thread whose join was refused is never joined and never detached |
| Lifecycle.JoinOfNothing | src/native-c/libc/Am/Threading/Thread.c:222-227 | after a failed thread creation no run lets a join return |
| Lifecycle.JoinWithoutThread | src/native-c/libc/Am/Threading/Thread.c:211-214 | join does not wait exactly for the main isolate and for handles whose start got no further |
| Lifecycle.SelfJoinReturnsEarly | src/native-c/libc/Am/Threading/Thread.c:215-221 | joining one's own started thread returns before it is done, in every state |
| Lifecycle.SelfJoinLosesThread | src/native-c/libc/Am/Threading/Thread.c:152-156 | and such a thread can run to its end neither joined nor detached |
| Lifecycle.MutualJoinReturnsEarly | src/native-c/libc/Am/Threading/Thread.c:215-221 | when two threads join each other the second call returns while its target is still waiting in the first |
| Lifecycle.MutualJoinExample | src/native-c/libc/Am/Threading/Thread.c:215-221 | a run from a concrete state in which that happens |
| Lifecycle.SelfJoinExample | src/native-c/libc/Am/Threading/Thread.c:215-221 | a run from a concrete state in which that happens, and the thread ends neither joined nor detached |
| Mailboxes.Mailbox.Post | src/native-c/libc/core.c:1966-1987 | a message goes to the end of the linked queue, or is refused when closed |
| Mailboxes.Mailbox.PopLocked | src/native-c/libc/core.c:1989-1997 | the first message leaves the queue |
| Mailboxes.Mailbox.Close | src/native-c/libc/core.c:2021-2041 | from then on messages are refused; what is queued stays |
| Mailboxes.Mailbox.Drain | src/native-c/libc/core.c:2259-2263 | what is left is taken out in order |
| ExecMailbox.StepKeepsInv | src/native-c/libc/core.c:1966-2019 | whenever the owner is about to wait on a non-empty queue, its signal is pending or a poster is about to send it |
| ExecMailbox.OwnerWakes | src/native-c/libc/core.c:1999-2011 | no wake-up is lost: it wakes at once or after one poster's next step |
| ExecMailbox.TakeWaitsOnlyIfEmpty | src/native-c/libc/core.c:1999-2011 | a take returns the first message if there is one; it waits, and the owner can do nothing before it is signalled, if and only if it was asked to and the mailbox is empty, open and bound |
| ExecMailbox.PostWakesOwner | src/native-c/libc/core.c:1966-2011 | a post to an owner that waits wakes it, and is what it takes |
| ExecMailbox.BoundMailboxDelivers | src/native-c/libc/core.c:1966-2011 | so it is from the mailbox's creation |
| ExecMailbox.OpenAccepts | src/native-c/libc/core.c:1971-1973 | an open mailbox takes every message, at its end |
| ExecMailbox.NothingAfterClose | src/native-c/libc/core.c:2021-2034 | once closed it takes none, in any run, and what was accepted is taken or still queued |
| ExecMailbox.InOrder | src/native-c/libc/core.c:1966-2019 | in every run messages are taken in the order in which they were accepted |
| ExecMailbox.EveryRun | src/native-c/libc/core.c:1966-2019 | both hold since the mailbox was created |
| ExecMailbox.SignalAfterClose | src/native-c/libc/core.c:1973-1976 | a task is signalled after it has closed and gone if and only if a poster had read its address before the close and not signalled yet |
| Transfers.StepKeepsInv | src/native-c/libc/core.c:2412-2495 | every step keeps the sum of isolate counts and counts in transit equal to the objects there are, and every message in exactly one place |
| Transfers.TransferConserves | src/native-c/libc/core.c:2451-2495 | posting, taking, opening, refusing, draining and destroying move objects and change neither their number nor the sum |
| Transfers.NothingDestroyed | src/native-c/libc/core.c:2222-2236 | when the mailbox and boot message of a freed isolate are destroyed, no message is in them |
| Transfers.NoneIsLost | src/native-c/libc/core.c:2222-2241 | since the process began every message created has been opened, is in the hands of a live isolate, or waits in a mailbox that exists |
| Transfers.OpenedOnce | src/native-c/libc/core.c:2464-2495 | no message is opened twice |
| Transfers.CreatedAreOpenedOrInTransit | src/native-c/libc/core.c:2464-2495 | what a run creates is what it then has opened or in transit, and nothing else |
| Transfers.ClosedOnlyEmpties | src/native-c/libc/core.c:2484-2487 | a closed mailbox takes no message; a refused one stays with its sender |
| Transfers.PostRefusedIffClosed | src/native-c/libc/core.c:1970-1973 | in every run since the process began, a post to an isolate's mailbox leaves the message in its sender's hands and the queue without it if the isolate has closed it before; otherwise the message is last in the queue |
| Transfers.TakenInTurn | src/native-c/libc/core.c:1989-1997 | a message at position k of a place leaves it by the take that follows k others, in every run, and comes into the hands of whoever takes it |
| Processes.LivingSize | src/native-c/libc/core.c:2412-2495 | memory with one owner each is counted by adding up the heaps and the messages |
| Processes.OwnedDisjoint | src/native-c/libc/core.c:2412-2462 | no object belongs to two isolates, two messages, or one of each |
| Processes.Process.CountsAreObjects | src/native-c/libc/core.c:2412-2470 | with exact heaps and sealed messages, the allocation counts of all isolates and the counts of all messages add up to the objects in memory |
| Processes.Process.constructor | src/native-c/libc/core.c:2189-2194 | an empty process is where the accounting begins |
| Processes.Process.Birth | src/native-c/libc/core.c:2196-2204 | a new isolate brings an empty heap and nothing else |
| Processes.Process.NewObject | src/native-c/libc/core.c:566-600 | one object more in this isolate, in memory nobody uses; every other heap and message is as before |
| Processes.Process.Release | src/native-c/libc/core_inline_functions.h:183-223 | exactly the objects freed leave the isolate's count and the process |
| Processes.Process.CollectGarbage | src/native-c/libc/Am/Lang/GC.c:61-115 | under the conditions of `Collect` exactly the garbage leaves the isolate's count and the process, otherwise nothing; no other isolate or message is touched |
| Processes.Process.Create | src/native-c/libc/core.c:2412-2462 | a message takes memory away from nobody: the objects there are grow by its count alone, and it is in its maker's hands; a failed send makes no message and changes only the sender's own count. When it is made is stated by kind and hook, as for `MessageCreate` |
| Processes.Process.Open | src/native-c/libc/core.c:2464-2470 | a message made by any isolate is joined to any other's heap, whose count grows by the message's; nothing is made or lost |
| Processes.Process.Discard | src/native-c/libc/core.c:2472-2487 | a refused or drained message is opened and then released; nothing the isolate had before dies, and the books balance again |
| Processes.Process.Deliver | src/native-c/libc/core.c:2477-2495 | a payload sent by one isolate and received by another arrives as a finished copy in the receiver's heap, held by one local reference; the sender's heap and the messages in transit are as they were. It arrives only if everything reached is a wrapper with an implementation or has no hook, the array's or the string's, and if so, memory permitting |
| Processes.Process.Move | src/native-c/libc/core.c:1966-2030 | posting, taking, closing, draining and destroying touch no heap and keep the whole process valid; the seven rows below say what each does |
| Processes.Process.Post | src/native-c/libc/core.c:1966-1987 | accepted if and only if the place is open; then the message is last in its queue, else still in hand |
| Processes.Process.Take | src/native-c/libc/core.c:1989-2019 | the first message of the queue comes into hand, the rest stays in order |
| Processes.Process.TakeDropped | src/native-c/libc/core.c:2226-2230 | the same for an isolate nobody holds, by whoever frees it |
| Processes.Process.Close | src/native-c/libc/core.c:2021-2041 | the mailbox is closed and keeps its queue |
| Processes.Process.Abandon | src/native-c/libc/core.c:2246-2253 | an isolate that holds no message is no longer live |
| Processes.Process.DrainPlace | src/native-c/libc/core.c:2226-2234 | the place is left empty, each message in it is released, nothing the caller had before dies |
| Processes.Process.FreeIsolate | src/native-c/libc/core.c:2222-2236 | mailbox and boot message of a freed isolate are emptied and then gone, and so are exactly the messages that were in them |
| Processes.Process.Send | src/native-c/libc/core.c:2477-2489 | the message is last in an open mailbox; before a closed one it is released again, quietly, and a null payload is refused; when a message is made is stated by kind and hook |
| Processes.Process.Receive | src/native-c/libc/core.c:2491-2495 | the first message is opened: the receiver gains its objects and one local reference on its payload, and the queue loses it; nothing from an empty mailbox |
| Processes.Process.Teardown | src/native-c/libc/core.c:2255-2263 | the mailbox is closed and empty, exactly the messages that were in it are gone, nothing the isolate had before dies |
| Rings.Ring.Push | src/native-c/amigaos/Am/Lang/RunningProcess.c:172-180 | accepts in order as many bytes as fit |
| Rings.Ring.Pop | src/native-c/amigaos/Am/Lang/RunningProcess.c:182-190 | what comes out continues where the last call stopped: a prefix of the bytes accepted |
| Console.AnswerCurrent | src/native-c/amigaos/Am/Lang/RunningProcess.c:583-592 | a packet that is answered was not answered before and is not parked |
| Console.Handler.FulfilDeferred | src/native-c/amigaos/Am/Lang/RunningProcess.c:743-769 | afterwards nothing is parked for which there is input, end of input or shutdown |
| Console.Handler.HandleRead | src/native-c/amigaos/Am/Lang/RunningProcess.c:1156-1196 | answered with the next bytes, as many as asked for and there are; with none once the writer has closed or in raw mode; else parked, and an earlier parked read is answered with none |
| Console.Handler.HandleWaitChar | src/native-c/amigaos/Am/Lang/RunningProcess.c:1197-1244 | answered at once or parked with a timer of its own; exactly when an earlier wait's completed timer is reclaimed that wait has lost its timeout |
| Console.Handler.Overtake | src/native-c/amigaos/Am/Lang/RunningProcess.c:1220-1226 | whenever a parked wait's timer completes with another wait next on the port, the parked wait is left without a timer |
| Console.LoseTimeout | src/native-c/amigaos/Am/Lang/RunningProcess.c:1220-1226 | from a new handler, one wait with a timeout and any other behind it lead there |
| Console.Handler.Happen | src/native-c/amigaos/Am/Lang/RunningProcess.c:771-1497 | every event keeps the accounts and does what it is: an arrival is last on the port, a turn takes the first, a timer message is for the wait its timer was started for; and no timer event, output, arrival, resize or shutdown request ends a wait that has lost its timeout |
| Console.Handler.HandleWrite | src/native-c/amigaos/Am/Lang/RunningProcess.c:1048-1155 | the ring accepts what fits, the answer is the whole length; the size query puts its answer into the input as far as there is room, and nothing into the output |
| Console.SizeReplyReads | src/native-c/amigaos/Am/Lang/RunningProcess.c:1101-1139 | what a program reads from the sixth byte of that answer on are the rows, a semicolon, and the columns, 24 and 80 when none are set, for any numbers of digits |
| Console.Digits | src/native-c/amigaos/Am/Lang/RunningProcess.c:1124-1127 | the digits of a number, most significant first |
| Console.Handler.Resize | src/native-c/amigaos/Am/Lang/RunningProcess.c:2643-2666 | the size reported from then on, at least 1 by 1 |
| Console.LoseOutput | src/native-c/amigaos/Am/Lang/RunningProcess.c:1048-1155 | a write to a full ring is answered with its whole length although none of it is kept |
| Console.Handler.HandleEnd | src/native-c/amigaos/Am/Lang/RunningProcess.c:1018-1043 | the packet is answered and a handle fewer is open; the handler's ending in this place, after the child's exit, is unreachable, since shutdown has then been requested |
| Console.Handler.HandleShutdown | src/native-c/amigaos/Am/Lang/RunningProcess.c:898-987 | the packet is answered, a write by its length, a read, or the opening of a file, by 0, all others by -1, or dropped because its sender is gone; the handler leaves unless the child is still there and no force was asked for |
| Console.Handler.Drain | src/native-c/amigaos/Am/Lang/RunningProcess.c:963-985 | answers the first 64 packets of the port, in order and in the same way, and leaves the rest |
| Console.Handler.Expire | src/native-c/amigaos/Am/Lang/RunningProcess.c:819-828 | a timer message ends the parked wait it was started for and no other |
| Console.Handler.ChildExit | src/native-c/amigaos/Am/Lang/RunningProcess.c:1567-1593 | nothing stays parked when the child has exited: the wait is answered -1, the read with no data |
| Console.Handler.WriteInput | src/native-c/amigaos/Am/Lang/RunningProcess.c:2500-2515 | as much as fits reaches the ring in order; if anything did, the parked wait is answered -1, and the parked read with the first bytes of it, as many as it asked for |
| Console.Handler.HandlePacket | src/native-c/amigaos/Am/Lang/RunningProcess.c:831-1464 | one turn of the loop takes the first packet and answers none a second time. While no shutdown is requested: a read gets the next bytes of the input, or 0 at end of input or in raw mode, or is parked and answers an earlier one with 0; a wait is answered -1 if there is input, is parked exactly when it has a timeout and the timer is free, else answered 0; a write goes to the output as far as there is room; all others are answered at once, with their effect on raw mode and the open count |
| Console.Handler.Exit | src/native-c/amigaos/Am/Lang/RunningProcess.c:1467-1497 | every packet ever taken has been answered, or dropped because its sender is gone |
| Console.Handler.Serve | src/native-c/amigaos/Am/Lang/RunningProcess.c:771-1497 | the same for any sequence of packets, timer events, program calls and child exit |
| Calendar.YearStartClosed | src/native-c/amigaos/Am/Lang/DateTime.c:98-101 | the sum over years in closed form, leap days by Appendix C of RFC 3339 |
| Calendar.MonthsFillYear | src/native-c/amigaos/Am/Lang/DateTime.c:38-44 | twelve months make a year |
| Calendar.MonthLengths | src/native-c/amigaos/Am/Lang/DateTime.c:38-44 | the length of each month |
| Calendar.MonthStartClosed | src/native-c/amigaos/Am/Lang/DateTime.c:100-102 | the sum over months in closed form |
| Calendar.SecondsClosed | src/native-c/amigaos/Am/Lang/DateTime.c:92-110 | seconds since 1970 of a civil time in closed form, without any sum |
| Calendar.SecondsInjective | src/native-c/amigaos/Am/Lang/DateTime.c:92-110 | no two valid civil times are the same second |
| Calendar.Decompose | src/native-c/amigaos/Am/Lang/DateTime.c:56-87 | a valid civil time that is this second, its weekday, and a year that fits an int for every 64-bit input |
| Calendar.FindDay | src/native-c/amigaos/Am/Lang/DateTime.c:69-84 | the two walks find the day and never pass December |
| Calendar.Compose | src/native-c/amigaos/Am/Lang/DateTime.c:92-110 | the second of a civil time in its zone, never before 1970 |
| Calendar.InverseConversions | src/native-c/amigaos/Am/Lang/DateTime.c:56-110 | the two conversions undo each other for any offset that keeps both sides from 1970 on |

## Left out

- Collector.Collect: requires that no slot is in the middle of a write; only a release hook could call it there, and hooks are assumed not to touch the heap, so such a call is not covered.
- Collector.Collect: `AM_GC_TRACE` output is not modelled.
- RefCount.Isolate.Deallocate: release hooks other than those of arrays and strings are assumed not to touch the heap, and the shortcut for objects in an arena is the ordinary death of an object without slots; arenas are modelled on their own.
- Mutator.AllocateWrapper: does not cover a call without memory, in which the source writes through a null pointer.
- DeepCopy.Copier.CopyObject: every cycle must pass through a plain object, else the source's recursion does not end (`SendableUnlessBareCycle` shows that this is all the requirement says). The copy hook of thread handles, which copies the name and retains the isolate, is not modelled, and a thread handle counts as a class that cannot be cloned; the retain itself is `CopyHandle` in Lifecycle.dfy. A string without a holder is not modelled.
- Messages.MessageCreate: after a failure the partial graph is accounted for, but not claimed to be freed.
- Utf8.DecodeAcceptsGrammar: masks and shifts of bytes are written as remainders and products.
- Strings.Holder.LastIndexOf: nothing is claimed for malformed texts, for texts with a NUL, or for an empty needle, where the source returns the index of the last byte.
- Console.Handler.FulfilDeferred: an aborted timer request completes at once or later, as the environment chooses.
- Console.Handler.HandlePacket: the results of packets that only inspect or fail (disk info, examine, seek, lock packets) are parameters; tracing, counters and the lock pool are left out, and so are the handler's self-sent replies.
- Lifecycle.StepKeepsInv: priorities, names, finalizers run by a thread and `getCurrent` caching are left out; a handle may be copied into any isolate at any time.
- Lifecycle.RefusedIfDeadlocked: which joins `pthread_join` refuses is that of the GNU C library, the caller's own thread or one that is joining the caller; longer rings of joins block, and are not reported.
- Transfers.StepKeepsInv: POSIX condition variables are not modelled; the queue discipline is. That nobody holds an isolate, which Lifecycle.dfy proves of a freed one, is here the step `Abandon`; an isolate's `Close` may come at any time while it is live.
- Processes.Process.Create: property writes, array copies and wrappers inside an isolate are not repeated at the level of the process, where they would be further cases of work on one heap.
- Hash functions of both tables are arbitrary functions of the address.
- Elements of object, any-typed and primitive arrays are one kind of slot; element sizes are not modelled, and `clearRange` takes the zero value as a parameter.
- Exit-time mark and sweep, the out-of-memory singleton, exceptions, stack traces, debug tracking, reflection, weak references and immortal-object setup.
- Integer widths of the counts: they are unbounded here.
- `copyTo` bounds are checked by generated code that is not part of this model.
- String hashing, concatenation, conversion of numbers, and the byte-array constructors.
- File, process, environment and random wrappers, and the older copy of the packet handler for another platform.
- Continuations and the root rendezvous counter, which are single atomic operations.
