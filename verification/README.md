# Verified core of a skynet server

Dafny models and proofs for the parts of this repository that carry the weight: the Lua garbage collector, the
skynet actor runtime (scheduling, queues, handles, timers, sockets), the number formatter, the shared configuration
table, the stream protocols and the key exchange. `dafny verify dfyconfig.toml` checks everything.

| file | about |
|---|---|
| `GcHeap.dfy`, `GcCycle.dfy`, `GcTrail.dfy`, `Gc.dfy` | incremental tri-colour collection with barriers, ephemeron tables, userdata, several threads |
| `GcProgram.dfy` | what a program reads and writes, with and without the collector |
| `GcAssertion.dfy`, `GcBits.dfy` | when an assertion of the collector holds and when it fails; the colours as bits |
| `Scheduler.dfy`, `SchedulerProgress.dfy` | who holds which message queue, in every interleaving; which step moves which message; that no run gets stuck |
| `MessageQueue.dfy`, `HandleStorage.dfy` | the ring of a queue; the handle and name registry |
| `TimerWheel.dfy` | the 256 + 4 x 64 slot wheel against a flat list of deadlines |
| `Bignum.dfy`, `BigProduct.dfy`, `Dtoa.dfy` | word-array arithmetic and the correctly rounded conversion to decimal digits |
| `SocketWriter.dfy` | two-priority writing, half-close, write events |
| `ShareTable.dfy` | the immutable chained hash table |
| `NetPack.dfy`, `Harbor.dfy`, `Seri.dfy` | packet reassembly, the node-to-node link, value serialization |
| `PowMod.dfy` | modular exponentiation and the exchange built on it |
| `Common.dfy`, `Arith.dfy` | what the models share |

How the models are made:

- Code that changes things in place is a class or a method on an array, proved against a function or predicate on
  values. The scheduler, whose steps are lock-protected sections of many threads, is a state machine on values whose
  `Step` is one section; runs are arbitrary sequences of steps of any number of tasks.
- What the operating system decides is arbitrary: how much a `write` takes, which events arrive, how a byte stream is
  chunked, which task runs next, in which order a Lua table is traversed.
- Machine arithmetic is explicit where it matters: 64-bit wrap in `PowMod`, 32-bit words with carries in `Bignum`,
  the 2^32 time wrap in `TimerWheel`, 32-bit keys in `ShareTable`. A mask by a power of two minus one is written as a
  remainder, and an arithmetic shift as a division that rounds down.

Where the code differs from what it says of itself, the model follows the code:

- `client/lua-5.3.4/src/lgc.c:986` asserts that no ephemeron table is linked when the atomic step starts. It holds
  exactly if no entry that the propagation before it looks at is white on both sides (`Gc.Collector.BeforeAtomic`), in
  particular if the gray list is empty then, which only a forward barrier prevents (`Gc.Collector.ForwardWrite`).
  `GcAssertion.AssertionFails` is a state in which setting a metatable makes it fail. No other proof uses it.
- `powmodp` returns P itself instead of 0 for base P and exponent 1, and is right in every other case
  (`PowMod.Powmodp`).
- `skynet_handle_init` says that handle 0 is reserved. `HandleStorage.Storage.Register` says exactly when number 0 is
  issued, and `HandleStorage.RunOut` is a run that gets it.
- A launcher writes to the context of its new service after giving up its reference
  (`3rd/skynet/skynet-src/skynet_server.c:168-176`). `Scheduler.LateTouch` is a run in which the context has been freed
  by then, and `Scheduler.AllocatedExactly` says when it has not.
- The shared table keeps 64-bit integer keys in an `int`: an index outside 32 bits finds the entry of its low 32 bits
  (`ShareTable.AgreesExactly`, `ShareTable.WideKeysExactly`, `ShareTable.WideKeyExample`).
- A package that completes a chunk on its own is returned at once by `filter_data_`, past packages still in the ring.
  A stream's order is kept exactly if that never happens while a package of the stream waits
  (`NetPack.InOrderExactly`); `NetPack.OvertakingRun` is a run in which it happens. Nothing is lost or doubled in any
  run (`NetPack.Conserved`).
- `remote_send_handle` answers with an error for a link that is down, but only if the slave has no socket, and
  `close_harbor` leaves the socket number in place: no reachable state answers (`Harbor.Slave.NeverAnswered`), and the
  message goes to the closed socket (`Harbor.DeadPeer`).
- `cmp` tells a zero with a word from a zero without one, and `multadd` cannot add to a number without words
  (`Bignum.Cmp`, `Bignum.Bigint.MultAdd`); the conversion produces neither case.

## Model

| member | source | states |
|---|---|---|
| `Gc.Collector.Run` | client/lua-5.3.4/src/lgc.c:1044-1101 | Any program of allocations, loads, stores, stack and thread changes, interleaved in any way with single collector steps and full collections, keeps the invariant; everything the program can still get hold of by any pointer is allocated, and step by step the view changes as the operation says |
| `Gc.Collector.Execute` | client/lua-5.3.4/src/lgc.c:1044-1174 | One operation: a program operation changes the program's view exactly as its meaning says, whatever phase the collector is in; a collector step keeps what is reachable, empties only entries with unreachable keys and makes progress; a full collection leaves exactly the reachable objects |
| `Gc.Collector.SingleStep` | client/lua-5.3.4/src/lgc.c:1044-1101 | Every phase step keeps the invariant, changes the program's view only by removing unreachable things, moves through the phases in order and makes progress in a well-founded order, so that a cycle ends |
| `Gc.Collector.FullGc` | client/lua-5.3.4/src/lgc.c:1158-1174 | A full collection started in any phase frees exactly the unreachable objects (ephemeron reachability) and leaves the others as they were up to entries with dead keys |
| `Gc.Collector.RunToPause` | client/lua-5.3.4/src/lgc.c:1103-1107 | Sweeping runs to the pause and takes away dead objects only |
| `Gc.Collector.ReallyMark` | client/lua-5.3.4/src/lgc.c:235-282 | Marks a white object; what is marked stays inside any given closed set, and strings, userdata with their values and metatables are settled at once |
| `Gc.Collector.TraverseStrong` | client/lua-5.3.4/src/lgc.c:433-448 | Afterwards all references of the table are marked; entries with a nil value lose an unmarked key |
| `Gc.Collector.TraverseEphemeron` | client/lua-5.3.4/src/lgc.c:394-430 | Reports whether a value was marked; if not, the table keeps everything it must; it is linked to grayagain while propagating, afterwards to ephemeron exactly if an entry was white on both sides, and to allweak exactly if not and a key was white |
| `Gc.Collector.PropagateMark` | client/lua-5.3.4/src/lgc.c:559-600 | Takes one gray object, settles it and keeps the tri-colour invariant; either a white object was marked or the gray list is shorter |
| `Gc.Collector.PropagateAll` | client/lua-5.3.4/src/lgc.c:603-605 | Empties the gray list, keeping the invariant; an ephemeron table was linked exactly if an entry looked at was white on both sides |
| `Gc.Collector.ConvergeEphemerons` | client/lua-5.3.4/src/lgc.c:608-623 | Ends, with a marked set that is closed under strong references and under value of a marked key, inside every closed set that the marked set started in: the least fixed point |
| `Gc.Collector.ClearKeys` | client/lua-5.3.4/src/lgc.c:639-651 | Of the listed tables, exactly the entries with an unmarked key lose their value and have the key retagged |
| `Gc.Collector.AtomicPhase` | client/lua-5.3.4/src/lgc.c:981-1024 | After the atomic step the marked objects are closed, contain the roots and lie inside any closed set containing the roots; unmarked objects are those with the old white |
| `Gc.Collector.RestartCollection` | client/lua-5.3.4/src/lgc.c:337-344 | A new cycle starts from empty lists with the main thread, the registry and the metatables of the basic types marked |
| `Gc.Collector.SweepList` | client/lua-5.3.4/src/lgc.c:734-751 | Removes the dead among at most count objects and repaints the others; the objects already passed all carry the current white |
| `Gc.Collector.EnterSweep` | client/lua-5.3.4/src/lgc.c:958-963 | The sweep position found by skipping dead objects is one from which the sweep stays right although objects are created in front of it |
| `Gc.Collector.NewObject` | client/lua-5.3.4/src/lgc.c:208-217 | A new object gets the current white and the front of the list; the invariant holds in every phase, and a sweep position moves with its object |
| `Gc.Collector.TableWrite` | client/lua-5.3.4/src/lgc.c:171-176 | A store into a table with the backward barrier as coded keeps the invariant in every phase |
| `Gc.Collector.ForwardWrite` | client/lua-5.3.4/src/lgc.c:155-164 | A store with the forward barrier as coded (mark while the invariant is kept, whiten during sweep) keeps the invariant in every phase; the gray list changes only when a black object gets a white reference while marking, and then by the table or thread stored |
| `Gc.Collector.BeforeAtomic` | client/lua-5.3.4/src/lgc.c:1061-1064 | Before the atomic function no ephemeron table is linked if and only if no entry looked at by this propagation was white on both sides at that moment; an empty gray list suffices |
| `GcTrail.NoneWhite` | client/lua-5.3.4/src/lgc.c:394-430 | If no ephemeron table has an entry white on both sides beforehand, none is found |
| `GcTrail.UnreachedWhite` | client/lua-5.3.4/src/lgc.c:394-430 | If a gray ephemeron table has an entry whose key and value marking does not reach, one is found |
| `GcTrail.ScanLogEntry` | client/lua-5.3.4/src/lgc.c:407-421 | The scan's flag for white on both sides is that of the entries looked at so far |
| `GcAssertion.AssertionFails` | client/lua-5.3.4/src/lgc.c:981-986 | After a metatable is set in the state between propagation and atomic step, the forward barrier and the propagation leave an ephemeron table linked where the source asserts that there is none |
| `GcAssertion.DoubtfulInv` | client/lua-5.3.4/src/lgc.c:981-986 | That state satisfies the invariant of every run |
| `Gc.Collector.Store` | client/lua-5.3.4/src/lgc.h:118-128 | Whatever place of whatever object is written, the barrier chosen for it keeps the invariant and the object has the new contents |
| `GcProgram.StoreLaw` | client/lua-5.3.4/src/lapi.c:800-826 | After a store the place reads as the value, past the end as a new last one, an entry has its key, and every other place of the object, its kind and its mode are as before |
| `GcProgram.SetLoad` | client/lua-5.3.4/src/lapi.c:800-895 | Storing a slot in an object and loading from there pushes the value, for elements, entries, metatables and user values, exactly where a program may store; elsewhere nothing happens |
| `GcProgram.MoveLoad` | client/lua-5.3.4/src/lapi.c:118-132 | A value moved to another thread is on top of that thread's stack |
| `GcProgram.FreshLaw` | client/lua-5.3.4/src/lapi.c:683-693 | A new object has its kind, keeps its keys strongly, and everything in it reads as nil |
| `GcProgram.PushLaw` | client/lua-5.3.4/src/lapi.c:237-242 | Pushing puts the value on top and changes nothing else |
| `GcProgram.NoCollector` | client/lua-5.3.4/src/lgc.c:1044-1101 | A run without collector steps ends with the fold of its operations |
| `GcProgram.CollectorInvisible` | client/lua-5.3.4/src/lgc.c:1044-1174 | A run of a program without weak tables, with any collector steps in between, reaches the same objects with the same contents as the run without them, up to the keys of empty entries, which cannot be read |
| `Gc.Collector.constructor` | client/lua-5.3.4/src/lstate.c:184-196 | A new state, with the main thread and the registry that holds it and the table of globals, satisfies the invariant |
| `GcCycle.ReachableIsAccessible` | client/lua-5.3.4/src/lgc.h:14-25 | Whatever ephemeron reachability keeps can be got hold of by following pointers |
| `GcCycle.Write` | client/lua-5.3.4/src/lgc.h:118-128 | A store without a barrier is safe unless a black object gets a white reference while the invariant is kept |
| `GcCycle.WriteBack` | client/lua-5.3.4/src/lgc.c:171-176 | Turning the black table gray and linking it to grayagain makes any store safe |
| `GcCycle.ForwardDone` | client/lua-5.3.4/src/lgc.c:155-164 | Marking the stored white value makes the store safe while marking |
| `GcCycle.Created` | client/lua-5.3.4/src/lgc.c:208-217 | Creating an object keeps the invariant in every phase |
| `GcCycle.FullCycle` | client/lua-5.3.4/src/lgc.c:1158-1174 | The objects left by a cycle that ran from pause to pause are those reachable when the full collection was asked for, also when it had to finish a sweep first |
| `GcCycle.SweepDead` | client/lua-5.3.4/src/lgc.c:734-751 | Unlinking a dead object changes nothing of what is live |
| `GcCycle.AtomicSurvivors` | client/lua-5.3.4/src/lgc.c:981-1024 | Across the atomic step what is reachable stays and changes only by cleared entries |
| `GcCycle.ReachSetSwept` | client/lua-5.3.4/src/lgc.c:734-751 | Sweeping dead objects does not change what is reachable |
| `GcHeap.ReachSetClosed` | client/lua-5.3.4/src/lgc.h:14-25 | The reachable set contains the roots and is closed under keeping, so it is the least such set |
| `GcHeap.ConvergedClosed` | client/lua-5.3.4/src/lgc.c:608-623 | When no gray table is left to look at again, the marked set is closed |
| `GcHeap.ClearedRefClosed` | client/lua-5.3.4/src/lgc.c:639-651 | After clearing, no marked object has any pointer to an unmarked one |
| `GcHeap.AtomicFinish` | client/lua-5.3.4/src/lgc.c:1004-1022 | Clearing both lists of weak tables and flipping the white gives the state the sweep needs |
| `GcHeap.PrunedClosed` | client/lua-5.3.4/src/lgc.c:125-131 | Retagging keys of empty entries does not change which sets are closed |
| `GcBits.BitsAreColours` | client/lua-5.3.4/src/lgc.h:65-101 | The bit tests and bit changes on a mark byte read and write the colours, whatever the other bits |
| `GcBits.TestsAreSets` | client/lua-5.3.4/src/lgc.h:87-96 | Over all objects the bit tests pick out the white, the marked and the live objects of the collector's state |
| `GcBits.ChangesArePaint` | client/lua-5.3.4/src/lgc.c:66-71 | Each bit change is the repainting of one object that marking, visiting, barriers and sweeping do |
| `Scheduler.StepInv` | 3rd/skynet/skynet-src/skynet_server.c:297-351 | Every critical section of every task keeps the invariant on places, wake-ups, counts and history |
| `Scheduler.RunInv` | 3rd/skynet/skynet-src/skynet_server.c:297-351 | So does every interleaving of any number of workers, senders, launchers and retirers |
| `Scheduler.Exclusive` | 3rd/skynet/skynet-src/skynet_mq.c:44-75 | In every reachable state a queue is in the global list once, or in one task's hand, or nowhere; two tasks never run one service's callback at once |
| `Scheduler.NeverFreedInUse` | 3rd/skynet/skynet-src/skynet_mq.c:231-250 | A queue is not freed while a task owns it, and a context not while a task has a reference to it or is about to delete it |
| `Scheduler.AllocatedExactly` | 3rd/skynet/skynet-src/skynet_server.c:164-176 | In every run a context is allocated if and only if it is registered, referred to or about to be deleted: the exact condition for the launcher's touches after its release |
| `Scheduler.LateTouch` | 3rd/skynet/skynet-src/skynet_server.c:164-176 | A run of a launcher and a retirement in which the launcher is about to write to a context that has been freed |
| `Scheduler.NoLostWakeup` | 3rd/skynet/skynet-src/skynet_mq.c:138-228 | A queue with a message, or marked for release, is in the global list or in a task's hand |
| `Scheduler.ExactlyOnce` | 3rd/skynet/skynet-src/skynet_mq.c:138-250 | The messages pushed are those delivered, then those dropped, then those still queued, in order; nothing is dropped while the context exists |
| `Scheduler.GoneForGood` | 3rd/skynet/skynet-src/skynet_server.c:209-239 | Once the count has reached zero nothing more is pushed in any continuation, and a freed queue stays freed |
| `SchedulerProgress.SendBegins` | 3rd/skynet/skynet-src/skynet_server.c:230-239 | A send to a registered service takes a reference and has exactly this message in hand; to any other it does nothing |
| `SchedulerProgress.LaunchBegins` | 3rd/skynet/skynet-src/skynet_server.c:124-163 | A launch registers a new service with two references and an empty queue that nobody lists |
| `SchedulerProgress.RetireBegins` | 3rd/skynet/skynet-src/skynet_handle.c:70-106 | Retiring takes a registered service out of the table and leaves the task its reference to give back |
| `SchedulerProgress.StepLogged` | 3rd/skynet/skynet-src/skynet_mq.c:138-209 | Every step pushes exactly the message of a task that goes from sending to done, and delivers exactly the first message of a queue whose task goes from the dispatch loop into the callback; no message in hand stays behind |
| `SchedulerProgress.LoggedRun` | 3rd/skynet/skynet-src/skynet_mq.c:138-209 | In every run the messages pushed are those of the sending steps, and the messages delivered those handed to callbacks, in the order of the steps |
| `SchedulerProgress.SentIsConsumed` | 3rd/skynet/skynet-src/skynet_mq.c:138-250 | In every run what was sent is what was handed to callbacks, then what was dropped, then what waits, in order |
| `SchedulerProgress.Deliverable` | 3rd/skynet/skynet-src/skynet_server.c:297-351 | No run gets stuck: from every reachable state the first message of a registered service can be the next one its callback is handed, unless its launch has failed and it is about to be retired |
| `SchedulerProgress.Endable` | 3rd/skynet/skynet-src/skynet_server.c:209-219 | No context leaks: from every reachable state a retired service's context can still be freed, however many tasks refer to it |
| `SchedulerProgress.Freeable` | 3rd/skynet/skynet-src/skynet_mq.c:231-250 | No queue leaks: from every reachable state the queue of a service that is gone can still be drained and freed |
| `SchedulerProgress.WorkersStay` | 3rd/skynet/skynet-src/skynet_server.c:297-351 | In every run a worker stays a worker, and no sender, launcher or retirer becomes one |
| `SchedulerProgress.DeleterEnds` | 3rd/skynet/skynet-src/skynet_server.c:164-176 | A launcher whose release deleted the context lists the queue and ends, and never touches the context again |
| `MessageQueue.Mq.Push` | 3rd/skynet/skynet-src/skynet_mq.c:190-209 | Appends in order, across the growth of the ring, and asks for listing exactly when the queue was not listed |
| `MessageQueue.Mq.Pop` | 3rd/skynet/skynet-src/skynet_mq.c:138-172 | Takes the oldest message; an empty queue is unlisted and its watermark reset |
| `MessageQueue.Mq.ExpandQueue` | 3rd/skynet/skynet-src/skynet_mq.c:175-187 | Growth keeps the messages in order |
| `MessageQueue.Raised` | 3rd/skynet/skynet-src/skynet_mq.c:156-163 | The overload watermark ends at or above the length and below twice the length when it had to rise |
| `HandleStorage.Storage.Register` | 3rd/skynet/skynet-src/skynet_handle.c:35-67 | Returns a handle that was not in use, the first free one from the index on in the table that may have grown, and adds exactly this registration; the rehash assertion cannot fail and one doubling suffices; number 0 is issued if and only if the search passes the last number, everything on the way is taken and slot 0 is free |
| `HandleStorage.ZeroExactly` | 3rd/skynet/skynet-src/skynet_handle.c:41-52 | The first free number is 0 exactly under that condition |
| `HandleStorage.RunOut` | 3rd/skynet/skynet-src/skynet_handle.c:35-106 | Registering and retiring one service 2^24 - 1 times makes the next registration return handle 0 |
| `HandleStorage.Storage.Rehash` | 3rd/skynet/skynet-src/skynet_handle.c:54-64 | A full table moved to twice the size has the same registrations, each at the residue of its handle, no two of them meet, and there is room |
| `HandleStorage.Storage.Grab` | 3rd/skynet/skynet-src/skynet_handle.c:133-149 | Finds a context if and only if it is registered under that handle |
| `HandleStorage.Storage.Retire` | 3rd/skynet/skynet-src/skynet_handle.c:70-106 | Removes exactly that handle and exactly its names |
| `HandleStorage.Storage.FindName` | 3rd/skynet/skynet-src/skynet_handle.c:152-179 | Binary search is exact: the handle of the name, or 0 when no entry has it |
| `HandleStorage.Storage.InsertName` | 3rd/skynet/skynet-src/skynet_handle.c:181-229 | Inserts a new name at its place, refuses a name that is taken; the array stays sorted without duplicates |
| `HandleStorage.NoClash` | 3rd/skynet/skynet-src/skynet_handle.c:57-61 | Two handles with different residues have different residues modulo twice the size |
| `HandleStorage.Reach` | 3rd/skynet/skynet-src/skynet_handle.c:42-45 | Counting through a table's size of handles meets every slot |
| `HandleStorage.WithoutSorted` | 3rd/skynet/skynet-src/skynet_handle.c:84-95 | Compaction keeps the order and exactly the names of other handles |
| `HandleStorage.Transitive` | 3rd/skynet/skynet-src/skynet_handle.c:160-175 | String comparison is transitive |
| `HandleStorage.Antisymmetric` | 3rd/skynet/skynet-src/skynet_handle.c:160-175 | String comparison is antisymmetric |
| `TimerWheel.Run` | 3rd/skynet/skynet-src/skynet_timer.c:74-184 | For any sequence of additions and updates, with additions also slipping into the unlocked windows of an update, update number k dispatches exactly the events, handle and session, of the additions whose time plus delay is that update's, in the order of addition |
| `TimerWheel.SentAsPromised` | 3rd/skynet/skynet-src/skynet_timer.c:95-150 | In every run the events dispatched by an update are those promised for it by the additions made so far, with the times read off the operations alone |
| `TimerWheel.EachOnceAtItsDeadline` | 3rd/skynet/skynet-src/skynet_timer.c:159-184 | In the flat list every timer fires once, in the update that reaches its deadline, and timers with one deadline fire in the order in which they were added |
| `TimerWheel.PlaceStable` | 3rd/skynet/skynet-src/skynet_timer.c:118-138 | After a tick and its cascade every node is again where add_node would put it, across the 2^32 wrap |
| `TimerWheel.Timer.AddNode` | 3rd/skynet/skynet-src/skynet_timer.c:74-93 | Links the node at the slot that its distance from the current time selects |
| `TimerWheel.Timer.TimerShift` | 3rd/skynet/skynet-src/skynet_timer.c:117-138 | Advances the time by one and re-places the slot that comes due for cascading |
| `TimerWheel.Timer.TimerExecute` | 3rd/skynet/skynet-src/skynet_timer.c:158-169 | Dispatches exactly the nodes due now, in order of insertion |
| `TimerWheel.Timer.TimerUpdate` | 3rd/skynet/skynet-src/skynet_timer.c:171-184 | One update dispatches exactly the nodes that come due and keeps the agreement with the flat list |
| `Bignum.Bigint.MultAdd` | 3rd/lua-cjson/dtoa.c:612-667 | The number becomes m times itself plus a, growing by a word when needed, if and only if it has a word or a is zero |
| `Bignum.Cmp` | 3rd/lua-cjson/dtoa.c:1034-1066 | The sign of the result is the sign of the difference, except for two zeros of different word counts |
| `Bignum.QuoRem` | 3rd/lua-cjson/dtoa.c:2119-2241 | For a divisor with exactly four leading zero bits and a quotient below 10, returns the quotient and leaves the remainder, with a right word count |
| `Bignum.Estimate` | 3rd/lua-cjson/dtoa.c:2146-2149 | The quotient of the top words is the quotient or one less |
| `Bignum.SubMulWords` | 3rd/lua-cjson/dtoa.c:2160-2190 | Subtracts q times the divisor exactly, borrows included |
| `Bignum.Lshift` | 3rd/lua-cjson/dtoa.c:974-1032 | The result is the number times 2 to the k, exactly |
| `BigProduct.Mult` | 3rd/lua-cjson/dtoa.c:805-911 | The exact product, within the words allocated, without zero words at the top |
| `BigProduct.AddRow` | 3rd/lua-cjson/dtoa.c:847-858 | One row adds a word times the other factor at its place |
| `BigProduct.PowerCache.Pow5Mult` | 3rd/lua-cjson/dtoa.c:917-972 | The number times 5 to the k for every k; node i of the cache stays 5 to the 4 times 2 to the i, and the cache only grows |
| `Dtoa.Hi0Bits` | 3rd/lua-cjson/dtoa.c:707-740 | The count that moves the highest set bit of a word to the top |
| `Dtoa.Dshift` | 3rd/lua-cjson/dtoa.c:2106-2117 | The shift that, with the one already due, leaves exactly four leading zero bits in the top word |
| `Dtoa.FixedDigits` | 3rd/lua-cjson/dtoa.c:4284-4329 | The digits are the decimal of at most n digits for b / S rounded half to even, with no zero at either end, and the exponent raised exactly when all digits were 9 |
| `Dtoa.RoundUp` | 3rd/lua-cjson/dtoa.c:4314-4322 | The 9-carry adds one unit in the last place |
| `Dtoa.TrimZeros` | 3rd/lua-cjson/dtoa.c:4323-4329 | Dropping zeros at the end does not change the number |
| `Dtoa.RoundHalfEvenNearest` | 3rd/lua-cjson/dtoa.c:4306-4311 | The rounding used is nearest, and even on a tie |
| `Dtoa.DenotesUnique` | 3rd/lua-cjson/dtoa.c:4284-4329 | A value has only one such decimal |
| `Dtoa.Convert` | 3rd/lua-cjson/dtoa.c:4101-4168 | From powers of two and five through scaling, normalization and the correction of the exponent estimate: the digits are those of the exact quotient |
| `Dtoa.FormatFixed` | 3rd/lua-cjson/dtoa.c:3844-3863 | For a mantissa b, a binary exponent j and an estimate of the decimal exponent that is right or one too large, the printed digits and decimal point are those of b / 2^j rounded half to even to n digits, and so differ from it by at most half a unit of the n-th place |
| `Dtoa.PrintedNear` | 3rd/lua-cjson/dtoa.c:4284-4329 | Digits and decimal point that come from the rounded fraction denote, as a real number, b / 2^j up to half a unit of the n-th place |
| `SocketWriter.Socket.Serve` | 3rd/skynet/skynet-src/socket_server.c:1202-1282 | In any run of requests and events with any partial writes: the wire carries whole packages and then at most one prefix, each priority in the order of acceptance; each event has its effect, and the accepted packages are those of the sends taken, in order; a socket released without error, shutdown or peer close has written every accepted package |
| `SocketWriter.Socket.Handle` | 3rd/skynet/skynet-src/socket_server.c:1202-1282 | Each event has its effect: a send on a connecting or connected socket is accepted, offered at once or queued by priority, a write event flushes, a close releases or half-closes; wb_size stays the unsent bytes and the write event stays on while anything waits |
| `SocketWriter.Socket.SendSocket` | 3rd/skynet/skynet-src/socket_server.c:692-761 | Accepts for a connecting or connected socket only; the package is queued by priority, or offered to the system at once when nothing waits, and then the rest of it is what remains |
| `SocketWriter.Socket.SendDirect` | 3rd/skynet/skynet-src/socket_server.c:709-747 | What the system does not take of a package goes to the high list, whatever its priority |
| `SocketWriter.Socket.SendBuffer` | 3rd/skynet/skynet-src/socket_server.c:609-638 | Packages are offered in order, high before low; when the system takes all it is offered, nothing is left, every pending package has been written and a half-closed socket is released; otherwise the socket is released only on a write error |
| `SocketWriter.Socket.SendList` | 3rd/skynet/skynet-src/socket_server.c:475-505 | Writes from the head on; only the head may be left partly written; wb_size falls by what was written |
| `SocketWriter.Socket.RaiseUncomplete` | 3rd/skynet/skynet-src/socket_server.c:584-599 | A low package that was begun becomes the head of the empty high list; the order of writing is the same |
| `SocketWriter.Socket.CloseSocket` | 3rd/skynet/skynet-src/socket_server.c:784-809 | Flushes first; releases at once when nothing waits then or on shutdown, and otherwise half-closes with everything still pending |
| `SocketWriter.Socket.StartSocket` | 3rd/skynet/skynet-src/socket_server.c:828-858 | Only a pending accept or listen changes its kind |
| `SocketWriter.Socket.ReportConnect` | 3rd/skynet/skynet-src/socket_server.c:1103-1135 | The write event goes off only when nothing waits |
| `SocketWriter.Socket.ForwardMessage` | 3rd/skynet/skynet-src/socket_server.c:999-1043 | Data changes nothing on the write side; end of stream and errors release the socket |
| `SocketWriter.Socket.ForceClose` | 3rd/skynet/skynet-src/socket_server.c:331-352 | Releases the socket; exactly what was pending is lost |
| `SocketWriter.AppendHigh` | 3rd/skynet/skynet-src/socket_server.c:668-672 | A high package may pass low ones without disturbing the order within either priority |
| `SocketWriter.HalfCloseEnds` | 3rd/skynet/skynet-src/socket_server.c:609-638 | Two write events in which the system takes all it is offered end a half-closed socket, with every accepted package written |
| `ShareTable.Table.constructor` | 3rd/skynet/lualib-src/lua-sharedata.c:274-323 | From any keys that stay distinct and in their part when cut to 32 bits, in any order, with any border below 2^31 for the array part: an empty slot is always found, and the table built agrees with its source under the cut keys |
| `ShareTable.Table.FillNoColliding` | 3rd/skynet/lualib-src/lua-sharedata.c:210-233 | After the first pass every main position in use holds a key of its own |
| `ShareTable.Table.FillColliding` | 3rd/skynet/lualib-src/lua-sharedata.c:235-270 | After the second pass every key has one slot, on the chain of its main position |
| `ShareTable.Table.LookupKey` | 3rd/skynet/lualib-src/lua-sharedata.c:499-528 | Ends, and finds the slot of a key or shows that no slot has it, also when it enters another key's chain in the middle |
| `ShareTable.Table.Index` | 3rd/skynet/lualib-src/lua-sharedata.c:530-564 | Returns the source's value under the key cut to 32 bits, nil when there is none |
| `ShareTable.AgreesExactly` | 3rd/skynet/lualib-src/lua-sharedata.c:540-553 | This agrees with the source if and only if the key is there or no key has its low 32 bits |
| `ShareTable.WideKeysExactly` | 3rd/skynet/lualib-src/lua-sharedata.c:540-553 | For a source with 32-bit keys: if and only if the key fits 32 bits or its low 32 bits are no key |
| `ShareTable.WideKeyExample` | 3rd/skynet/lualib-src/lua-sharedata.c:540-553 | Key 2^32 + 5 finds the entry of key 5 |
| `ShareTable.Table.NextKey` | 3rd/skynet/lualib-src/lua-sharedata.c:587-644 | The key after a given one: next array position in use, or the next slot |
| `ShareTable.Table.Traverse` | 3rd/skynet/lualib-src/lua-sharedata.c:577-644 | Iterating from the start visits exactly the source's keys, each once |
| `ShareTable.CountSize` | 3rd/skynet/lualib-src/lua-sharedata.c:65-87 | The number of entries outside the array part |
| `ShareTable.CalcHash` | 3rd/skynet/lualib-src/lua-sharedata.c:89-98 | The loop computes the string hash folded over every step-th character |
| `ShareTable.HashValues` | 3rd/skynet/lualib-src/lua-sharedata.c:89-98 | The hashes of some strings and integers, and the step for some lengths, in numbers |
| `ShareTable.SomeFree` | 3rd/skynet/lualib-src/lua-sharedata.c:250-257 | While an entry has no slot, a slot is free |
| `ShareTable.NoRepeat` | 3rd/skynet/lualib-src/lua-sharedata.c:258-261 | A chain never comes back to a slot |
| `ShareTable.LinkChains` | 3rd/skynet/lualib-src/lua-sharedata.c:258-266 | Linking behind the main position gives right chains again |
| `NetPack.Filter.Serve` | 3rd/skynet/lualib-src/lua-netpack.c:335-408 | For any interleaving of chunks of many streams, closed streams and pops, the packages returned and those waiting are those of the flow of the events |
| `NetPack.Conserved` | 3rd/skynet/lualib-src/lua-netpack.c:225-305 | In every such run the packages of a stream that were returned or wait are exactly those of its bytes, none lost and none doubled |
| `NetPack.InOrderExactly` | 3rd/skynet/lualib-src/lua-netpack.c:257-297 | A stream's packages keep their order if and only if no chunk of it returns a package at once while another one waits |
| `NetPack.OvertakingRun` | 3rd/skynet/lualib-src/lua-netpack.c:257-297 | Two packages in one chunk and a third one in the next come out as third, first, second |
| `NetPack.Filter.FilterData` | 3rd/skynet/lualib-src/lua-netpack.c:225-305 | One chunk emits what its bytes complete, a lone package with nothing behind it at once and others through the queue, keeps the rest, and touches no other stream |
| `NetPack.Filter.FindUncomplete` | 3rd/skynet/lualib-src/lua-netpack.c:90-112 | Takes the begun package of a stream out of the shared chain and leaves the others |
| `NetPack.Filter.PushMore` | 3rd/skynet/lualib-src/lua-netpack.c:186-213 | Queues every whole package and keeps the rest |
| `NetPack.Filter.PushData` | 3rd/skynet/lualib-src/lua-netpack.c:131-165 | Appends to the ring in order, growing it |
| `NetPack.Filter.Pop` | 3rd/skynet/lualib-src/lua-netpack.c:394-408 | Takes the oldest package |
| `NetPack.Filter.CloseUncomplete` | 3rd/skynet/lualib-src/lua-netpack.c:215-223 | Drops what the stream has begun and nothing else |
| `NetPack.ParseAppend` | 3rd/skynet/lualib-src/lua-netpack.c:225-305 | Cutting a stream does not depend on where it was chunked |
| `NetPack.RoundTrip` | 3rd/skynet/lualib-src/lua-netpack.c:428-450 | Packed data, put one after the other, is cut into the same data |
| `Harbor.LinkDelivers` | 3rd/skynet/service-src/service_harbor.c:408-501 | Whatever part of the sender's bytes has arrived, the receiver has forwarded the first of the accepted messages with the same source, destination, type, session and payload, in order; all of them when all has arrived |
| `Harbor.Converse` | 3rd/skynet/service-src/service_harbor.c:408-633 | Two new slaves that connect and accept, send in both directions before, during and after the handshake and get each other's bytes in any chunks: both forward a prefix of what the other accepted, the connecting one is up and has sent all once a byte has come, and both have forwarded all when all bytes have come |
| `Harbor.Slave.PushSocketData` | 3rd/skynet/service-src/service_harbor.c:408-501 | In any chunks: the right number ends the handshake, also when it comes alone, and everything queued goes out; what is forwarded is what the bytes after it complete; the link goes down exactly on a wrong number or a length of 2^24 or more |
| `Harbor.Slave.RemoteSendHandle` | 3rd/skynet/service-src/service_harbor.c:517-554 | A message for a peer is framed, or queued until the link is up, and nothing accepted is lost or reordered; on a link that is down it is answered with an error if and only if there is no socket, and otherwise handed to the closed one |
| `Harbor.Slave.NeverAnswered` | 3rd/skynet/service-src/service_harbor.c:230-241 | No state that the operations reach is down without a socket, and none has answered |
| `Harbor.DeadPeer` | 3rd/skynet/service-src/service_harbor.c:417-436 | A run: a wrong number closes the link, and a message sent then is neither carried nor answered |
| `Harbor.Slave.Connect` | 3rd/skynet/service-src/service_harbor.c:589-633 | The handshake byte goes first, and an accepted link sends its queue at once |
| `Harbor.Slave.DispatchQueue` | 3rd/skynet/service-src/service_harbor.c:389-406 | Sends the queue in order and ends it |
| `Harbor.MsgQueue.Push` | 3rd/skynet/service-src/service_harbor.c:91-119 | Appends in order, doubling when one slot is left |
| `Harbor.MsgQueue.Pop` | 3rd/skynet/service-src/service_harbor.c:121-129 | Takes the oldest message |
| `Harbor.ParseAppend` | 3rd/skynet/service-src/service_harbor.c:428-499 | Cutting a stream into frames does not depend on where it was chunked |
| `Harbor.FrameBack` | 3rd/skynet/service-src/service_harbor.c:328-342 | A frame is read back exactly when payload and header are below 2^24 bytes; longer ones stop the stream |
| `Harbor.DeliverBack` | 3rd/skynet/service-src/service_harbor.c:308-326 | Forwarding restores source, type, session, payload and the low destination bits |
| `Seri.RoundTrip` | 3rd/skynet/lualib-src/lua-seri.c:553-610 | Unpacking what was packed gives the values back, for every list of values that pack accepts and any order of the pairs of a table |
| `Seri.AcceptsOne` | 3rd/skynet/lualib-src/lua-seri.c:294-338 | Pack accepts a value if and only if everything in it has a format and lies within the depth limit |
| `Seri.IntegerBack` | 3rd/skynet/lualib-src/lua-seri.c:357-398 | Every 64-bit integer is read back from the width chosen for it |
| `Seri.StringBack` | 3rd/skynet/lualib-src/lua-seri.c:188-211 | Every string is read back from its short or long form |
| `Seri.IntegerBytes` | 3rd/skynet/lualib-src/lua-seri.c:150-186 | The tag byte and the width of every 64-bit integer, in numbers: 0 is the byte 2, 5 the bytes 10 and 5, a word has tag 18, a dword 34, a qword 50 |
| `Seri.Shortest` | 3rd/skynet/lualib-src/lua-seri.c:357-398 | No bytes that are read as an integer are fewer than those written for it |
| `Seri.StringBytes` | 3rd/skynet/lualib-src/lua-seri.c:188-211 | Up to 31 bytes the tag holds the length, then tag 21 with a word and from 2^16 on tag 37 with a dword |
| `Seri.PlainBytes` | 3rd/skynet/lualib-src/lua-seri.c:128-186 | The bytes of nil, booleans, reals and pointers, in numbers |
| `Seri.TableBytes` | 3rd/skynet/lualib-src/lua-seri.c:213-236 | Up to 30 array elements the tag holds their number, then tag 254 is followed by it as an integer |
| `Seri.DepthExactly` | 3rd/skynet/lualib-src/lua-seri.c:294-300 | Tables one in the other are accepted if and only if they are at most 32 |
| `Seri.PackValues` | 3rd/skynet/lualib-src/lua-seri.c:597-610 | The program's packing, through the block chain, yields the format's bytes, or fails exactly when the format does |
| `Seri.UnpackValues` | 3rd/skynet/lualib-src/lua-seri.c:553-595 | The program's reading loop yields the format's values, or fails exactly when the stream is invalid |
| `Seri.WriteBlock.Push` | 3rd/skynet/lualib-src/lua-seri.c:63-83 | Appends any number of bytes across 128-byte blocks |
| `Seri.WriteBlock.Flatten` | 3rd/skynet/lualib-src/lua-seri.c:532-551 | The flattened chain is exactly the bytes appended |
| `Seri.WriteBlock.WriteOne` | 3rd/skynet/lualib-src/lua-seri.c:294-338 | Appends exactly the bytes of the value |
| `Seri.ReadBlock.ReadOne` | 3rd/skynet/lualib-src/lua-seri.c:521-530 | Reads one value as the format says, array sizes cut to an int, and leaves the rest |
| `Seri.ReadBlock.ReadPairs` | 3rd/skynet/lualib-src/lua-seri.c:454-462 | Reads pairs up to the closing nil |
| `PowMod.MulModP` | 3rd/skynet/lualib-src/lua-crypt.c:665-684 | The product modulo P in wrapping 64-bit arithmetic |
| `PowMod.PowModP` | 3rd/skynet/lualib-src/lua-crypt.c:687-698 | The power modulo P |
| `PowMod.Powmodp` | 3rd/skynet/lualib-src/lua-crypt.c:701-705 | Equals the power modulo P if and only if not both the base is P and the exponent 1 |
| `PowMod.DhSecret` | 3rd/skynet/lualib-src/lua-crypt.c:723-737 | The secret is a power of the other side's public value, P for base P and exponent 1; zero arguments are refused |
| `PowMod.Agree` | 3rd/skynet/lualib-src/lua-crypt.c:723-757 | Both sides of an exchange get the same secret, and neither is refused |
| `PowMod.SharedSecret` | 3rd/skynet/lualib-src/lua-crypt.c:723-757 | The two secrets are the same power of the generator |
| `PowMod.PublicNonZero` | 3rd/skynet/lualib-src/lua-crypt.c:740-757 | A public value is never zero |

## Left out

- The collector: finalizers, weak values, open upvalues, the string cache, the debt and pause arithmetic. Prototypes
  and closures are traversed like tables and are not modelled apart. The contents of `grayagain` after the atomic step
  have no meaning in the source and none here.
- GcProgram.CollectorInvisible: programs with weak tables are not covered, since those can tell that an entry has
  gone; for them `Gc.Collector.Execute` says of each step what may go. New objects get names not used before.
- Gc.Collector.constructor: strings and tables that the Lua state creates and never collects are not in the heap.
- Scheduler.RunInv: identifiers of services are never used twice, so a handle that is registered again after 2^24
  others is not covered; steps are sequentially consistent at the granularity of the locks; `skynet_context_dispatchall`,
  which runs only before the process exits, is not a step.
- Scheduler.LateTouch: writing to a freed context is a step without effect; what it does to memory is not modelled.
- Scheduler.ExactlyOnce: a message that reaches a service without a callback counts as delivered.
- SchedulerProgress.Freeable: the error report that draining sends to the source of a dropped message is a send like any
  other, not tied to the drop.
- The linked lists of the wheel, of the write buffers, of the begun packages and of the power cache are sequences:
  node addresses, tail pointers and freeing are not modelled.
- HandleStorage.Storage.Register: the table must not already hold 2^24 handles, where the source asserts.
- HandleStorage.Storage.InsertName: the name array must not already be at its maximal capacity, where the source asserts.
- Dtoa.FormatFixed: the mantissa, the binary exponent and the estimate of the decimal exponent are given; extracting
  them from a double, the quick floating-point path and the floating-point estimate are not modelled, nor are
  the shortest-string modes with their `diff`, and `strtod`.
- SocketWriter.Socket.Serve: one TCP socket with plain buffers; user objects, UDP, bound descriptors, the reuse of a
  slot, a write interrupted and repeated, and the assertion in `new_fd` are not modelled.
- ShareTable.Table.constructor: strings are kept as such and not as indices into the string table; nested tables are
  values; keys that are tables, and integer keys that coincide or fall into the array part when cut to 32 bits, are not
  covered.
- NetPack.Filter.FilterData: chunks are not empty, as the socket layer never delivers an empty one.
- Harbor.Slave.Connect: the socket's own close event, which only reports to another service, is not modelled.
- Harbor.LinkDelivers: messages addressed by name are not covered; the handshake byte that the accepting side's Lua
  code reads is not part of the stream.
- Harbor.Slave.RemoteSendHandle: the model is the slot of one peer; messages for services of the own node, which are
  handed over locally, and the choice of the slot are not modelled.
- Harbor.Slave.PushSocketData: a length below 12, which no sender produces, is excluded.
- Seri.UnpackValues: a string length of 2^31 or more in a stream, which the program keeps in an int, is read as an
  invalid stream.
- Seri.RoundTrip: tables with a `__pairs` metamethod are not covered; a table is its array part and its pairs, so two
  tables that are one object are read back as two; lengths of 2^31 and more do not occur.
- Name-addressed harbor queues, cluster, bson, base64, DES, the gate service, the Lua compiler and virtual machine,
  and the glue around OpenSSL: not part of this model.
