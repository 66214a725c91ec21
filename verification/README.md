# Verified models of yue's core data structures and protocols

yue is a framework for coroutine servers that talk MessagePack RPC.  This project models
the parts of it that everything else rests on, in Dafny, and proves what they promise:

- **Chunked queue** (`Queue*.dfy`).  Producers reserve a slot with fetch-and-add, store
  into it and publish in order by compare-and-swap; one consumer pops and recycles chunks.
  `QueueProtocol` is an interleaved step machine for any number of producers; its invariant
  is proved step by step, and the theorems are about every run.  `QueueSequential` is the
  same queue as a class used by one thread, each operation a run of the machine, and
  `QueueProgress` says that pushes always end.
- **Timing wheel** (`Timer*.dfy`).  `TimerWheel.TaskGroup` is the class with its slot
  lists, revolution counts, catch-up loop and counter rebasing.  It refines `TimerSpec`, a
  plain deadline scheduler, about which `TimerDeadlines` says when a timer runs.
- **MessagePack serializer** (`Mpak*.dfy`, `ReadBuffer.dfy`).  The resumable parse stack,
  the printers of values and of parsed objects, the receive buffer and the read loop of a
  connection.  The reference is a recursive-descent reader, `MpakFormat.Read`.
- **Zero-copy buffers** (`BufferLifetime.dfy`).  The reference counts shared by a receive
  buffer and the objects whose blobs point into it.
- **Emitter mailbox** (`Emitter.dfy`, `EmitterProgress.dfy`, `Watchers.dfy`).  A locked command list with an owner
  word that lets one thread at a time run an emitter's commands, and the intrusive list of
  watchers those commands call.
- **Hash table, allocator and yield table** (`Links.dfy`, `FreeList.dfy`, `ElementPool.dfy`,
  `HashMap.dfy`, `YieldTable.dfy`, `YieldProtocol.dfy`).  Collision chains and used and free
  lists as linked fields, refining a finite map; the iteration whose callbacks erase and
  insert; fibers that wait for messages.  `ElementPool` says what the locked sections of
  the table do to its elements, as values; the class is proved to do that, and
  `YieldProtocol` is a step machine over them for any number of threads, in which values
  are copied and entries filled outside the lock.
- **Socket writer** (`WriteBuffer.dfy`): two buffers, partial writes, attach flag.  The class
  refines a writer seen from outside, `Conn`, about which conservation and draining are
  proved over whole runs.
- **Codecs**: streaming base64 (`Base64.dfy`, `Base64Coder.dfy`), WebSocket masking
  (`Masking.dfy`), the prime sieve that sizes hash tables (`Prime.dfy`).

Protocols between threads are state machines whose steps touch shared memory at most once;
sequential code is classes and methods proved against specification functions.  History
variables (`log`, `published`, `popped`, `done`, `accepted`, `written`, `ran`, `freed`,
`expired`, `ended`, `lost`, `copies`, `takes`, `fills`) record what happened and decide
nothing.

## Where the code does less than one would expect

Each of these is stated exactly by the lemma or contract named with it.

- `hash::remove` frees the element and unlocks the table before its caller copies the value
  (src/util/map.h:418-421 and 681-695).  The copy is the removed value exactly when the
  element was not given back to the heap and nothing wrote it in between (`CopyIsSoundIff`);
  when callers use new message ids and wait for a yield to return, that means: no
  allocation took it (`OrderlyCopyIff`).  Otherwise one fiber can be resumed twice and
  another never (`ResumedTwice`), and with a single thread a shrinking table reads memory
  that was freed (`CopyRightAfterIff`, `CopyCanFail`, `Fabric.Resume`).
- A timer with start index 0 that is drained while the last slot is current gets a slot
  past the table (`SlotInTableIff`); with 16-bit indices the revolution count can overflow
  on a one-slot wheel only (`FitsIff`); closing a timer that was not drained yet changes its
  start index instead of cancelling it (`TaskGroup.Close`).
- The serializer returns negative integers as unsigned ones, unless they were packed as 64
  bits or as negative fixnums, and unsigned ones from 2^63 on as negative (`FaithfulIff`).
  Printing keeps one byte of the buffer free and leaves a partial value behind when it is
  refused (`Packer.Pack`).
- A parsed object that is printed again comes back exactly when it is no container and holds
  no integer outside the unsigned 32-bit range: container headers are not written and
  integers are cut to 32 bits (`ComesBackIff`, `DoesNotComeBack`).  `push_map` lacks a
  comparison with zero after its keys and reports an error after the first one, so it
  succeeds for the empty map only (`Packer.PushMap`, `Packer.OnePairIsRefused`); maps are
  packed here as a length and elements, the way the serializer's clients do.
- `base64::buffsize` leaves no room for line breaks beyond the third (`BufferFitsIff`), and
  the decoding table is read one entry past its end for the character 123
  (`LookupInBoundsIff`).
- A send that starts a new command writes one byte past the buffer when its size with the
  header is a power of two times the capacity (`SpareIff`, `OverrunLandsOnLimit`,
  `SpareCanFail`).
- A connection that dies in the middle of an object leaves the blocks of that object
  allocated (`UnfinishedLeaks`).
- A second yield for a message that is already waited for takes over its entry, and the
  first fiber is not resumed (`Fabric.Yield`).

## Model

| member | source | states |
|---|---|---|
| QueueInvariant.InitInv | src/util/queue.h:43-54 | a queue just initialised satisfies the invariant every step keeps |
| QueueTheorems.StepInv | src/util/queue.h:125-243 | every atomic step of any producer and of the consumer keeps the invariant: live chunks hold consecutive slot numbers, the free list is a chain outside them, each unpublished reservation is held by the thread that made it, published unread slots hold the published values |
| QueueTheorems.RunInv | src/util/queue.h:76-195 | the invariant holds in every state of every run, for any number of producers and any interleaving |
| QueueTheorems.Fifo | src/util/queue.h:76-195 | in every run the popped values are exactly the first published values in publication order, and publication follows reservation order |
| QueueTheorems.ExactlyOnce | src/util/queue.h:125-195 | each thread's completed pushes are exactly its published entries, in its own order, none lost or duplicated |
| QueueTheorems.NothingLostWhenQuiet | src/util/queue.h:76-195 | with nobody inside an operation and the queue empty, every reservation was published and popped, and each thread's pushes are all among them |
| QueueTheorems.StepHistory | src/util/queue.h:125-195 | a step of pop hands out the next published value; other steps only append to the history |
| QueueTheorems.HistoryGrows | src/util/queue.h:125-195 | what was reserved, published or popped is never rewritten later in the run |
| QueueTheorems.EmptyExactlyWhenEqual | src/util/queue.h:201-201 | between two pops m_rp == m_wp holds exactly when everything published was popped |
| QueueTheorems.OwnedSlotIsPrivate | src/util/queue.h:177-192 | a slot a producer is writing lies in a live chunk, neither cached nor being freed, holds nothing the consumer still reads, and belongs to no other thread |
| QueueTheorems.ReadsLiveSlot | src/util/queue.h:91-124 | the consumer reads only slots that were written, in live chunks |
| QueueTheorems.RecycledIsDead | src/util/queue.h:208-235 | the chunk the consumer recycles is neither live nor cached, the consumer reads elsewhere, and no producer holds a slot of it, is about to link it or will publish into it next |
| QueueTheorems.NextIsNeverSet | src/util/queue.h:143-147 | the thread at position N never finds a next chunk already set, so expand() always supplies it |
| QueueTheorems.NoDeadlock | src/util/queue.h:132-195 | while a push is under way some thread can move it or another push on without the consumer; that this comes to an end is QueueProgress.EveryPushCompletes |
| QueueTheorems.ConsumerMoves | src/util/queue.h:76-124 | a pop under way can always take its next step |
| QueueProgress.EveryPushCompletes | src/util/queue.h:125-195 | from every reachable state and under every schedule of the producers, all pushes under way are completed after finitely many steps without new pushes or a consumer, each in its thread's order, and everything reserved is published |
| QueueProgress.PopKeepsRank | src/util/queue.h:76-124 | steps of the consumer do not undo any progress of the pushes |
| QueueSequential.Queue.constructor | src/util/queue.h:43-54 | a new queue is empty |
| QueueSequential.Queue.Push | src/util/queue.h:91-124 | push appends its value to the contents, across chunk changes and recycled chunks |
| QueueSequential.Queue.Pop | src/util/queue.h:76-124 | pop returns and removes the oldest value, or reports an empty queue and changes nothing |
| TimerSpec.SlotInTableIff | src/handler/timerfd.h:205-215 | the slot insert_timer computes lies in the table exactly when the index is positive or the current slot is not the last |
| TimerSpec.FitsIff | src/handler/timerfd.h:205-217 | with 16-bit indices the revolution count fits 15 bits exactly when the wheel has two slots or the index is at most 32768 |
| TimerSpec.InsertMeetsDeadline | src/handler/timerfd.h:205-218 | slot and revolution count place a timer where it is found with no revolution left at tick n + index, for every wheel size |
| TimerSpec.FoundWhenDue | src/handler/timerfd.hpp:46-69 | a visited timer has no revolution left exactly when it is due now; otherwise it stays in step, with one revolution less |
| TimerSpec.RebaseKeepsTurns | src/handler/timerfd.hpp:101-105 | dropping whole turns from the counter keeps the next slot |
| TimerSpec.TicksAreEvents | src/handler/timerfd.hpp:46-99 | ticks whose callbacks add timers are a sequence of additions and ticks, so what is proved about event sequences holds of them |
| TimerDeadlines.RunsExactlyAtDeadlines | src/handler/timerfd.hpp:46-99 | a timer drained at tick n with start index s and interval k runs at exactly the ticks n+s, n+s+k, n+s+2k, ... as long as its callback agrees, whatever is added or cancelled meanwhile |
| TimerDeadlines.CancelledNeverRuns | src/handler/timerfd.hpp:58-62 | a cancelled timer never runs again |
| TimerPlacement.OnePlace | src/handler/timerfd.h:148-181 | a timer is live exactly when it is in one slot list or in the list of timers to be inserted, never in two places |
| TimerPlacement.PlacedTake | src/handler/timerfd.hpp:46-53 | taking a slot's list for a visit keeps every other timer in the list of its slot and in step |
| TimerPlacement.VisitIsTick | src/handler/timerfd.hpp:56-80 | visiting one slot runs exactly the timers due at this tick, each once, and is one step of the deadline scheduler, whatever timers the callbacks add and whether they close themselves |
| TimerPlacement.DrainIsStart | src/handler/timerfd.hpp:81-98 | draining gives each waiting timer its first deadline, or frees it when it does not fit |
| TimerPlacement.ConservedFree | src/handler/timerfd.h:148-181 | every timer numbered so far is either live or was freed, not both; freeing a live one keeps that |
| TimerWheel.TaskGroup.constructor | src/handler/timerfd.h:109-117 | a new wheel stands for the empty scheduler |
| TimerWheel.TaskGroup.AddTimer | src/handler/timerfd.h:133-170 | adding is refused exactly for intervals outside 1..65535; otherwise a fresh timer waits with the low 16 bits of its start index |
| TimerWheel.TaskGroup.Close | src/handler/timerfd.h:145-147 | closing cancels a timer exactly when it is in the wheel; before that it makes its start index odd |
| TimerWheel.TaskGroup.InsertTimer | src/handler/timerfd.h:182-219 | the timer joins the list of its slot with its revolution count, or nothing changes when the count does not fit |
| TimerWheel.TaskGroup.RemoveTimer | src/handler/timerfd.h:174-176 | only a live entry is freed, and none is freed twice |
| TimerWheel.TaskGroup.AddAll | src/handler/timerfd.h:133-170 | the timers a callback adds during a tick join the waiting ones with fresh numbers, and nothing being visited is disturbed |
| TimerWheel.TaskGroup.RunTask | src/handler/timerfd.hpp:69-79 | a due timer runs, may add timers and close itself, and is inserted anew or freed |
| TimerWheel.TaskGroup.VisitTask | src/handler/timerfd.hpp:56-80 | one visited timer: freed, delayed or run; nothing else is touched, and timers are added exactly when its callback runs |
| TimerWheel.TaskGroup.RunTick | src/handler/timerfd.hpp:46-99 | one round of the loop is one tick of the deadline scheduler with the timers its callbacks asked for added just before it, and the callbacks run are the jobs due, each once |
| TimerWheel.TaskGroup.CatchUp | src/handler/timerfd.hpp:46-100 | missed ticks are run each once and in order, equal to that many scheduler ticks, each with what its callbacks added; expirations that arrive meanwhile are only counted |
| TimerWheel.TaskGroup.Rebase | src/handler/timerfd.hpp:101-105 | rebasing keeps the schedule, the next slot and the backlog |
| TimerWheel.TaskGroup.ProcessOneShot | src/handler/timerfd.hpp:40-109 | a call under way makes a nested call do nothing; otherwise the ticks up to the count that was read are run, the counters are rebased past the maximum, and later expirations stay as backlog |
| TimerWheel.TaskGroup.Fire | src/handler/timerfd.hpp:35-39 | c expirations are counted and every tick not run yet is run, once and in order; while another call is under way the expirations are only counted |
| TimerWheel.TaskGroup.FireTwice | src/handler/timerfd.hpp:35-109 | expirations that arrive while one call runs its ticks, also across a rebase, are served by the next: then as many ticks were run as expirations were counted |
| MpakFormat.DigitsBack | src/serializer/mpak/mpak.h:397-409 | reading back n written in w bytes in network order gives n modulo 256^w |
| MpakFormat.Read | src/serializer/mpak/mpak.h:683-937 | the reader consumes a prefix of at least one byte |
| MpakMachine.StepProgress | src/serializer/mpak/mpak.h:683-937 | an iteration keeps the stack well-formed and below 16 entries at the loop head, reads only what has arrived, and decreases unread bytes or stack rank |
| MpakMachine.Run | src/serializer/mpak/mpak.h:683-937 | unpack ends on every input and leaves a suffix of the bytes unread |
| MpakParsing.MachineReads | src/serializer/mpak/mpak.h:683-937 | the parse stack computes what the recursive-descent reader does: same object, same bytes consumed, a wait on input cut short, an error on input malformed or nested too deep |
| MpakParsing.FirstByte | src/serializer/mpak/mpak.h:688-777 | the branches on the first byte and the 28-entry table are the format's type codes |
| MpakStream.RunMore | src/serializer/mpak/mpak.h:683-937 | a suspended call resumes on more input exactly where it stopped; an ended call is not changed by more input |
| MpakStream.FragmentationIndependent | src/handler/socket.hpp:76-134 | however a stream is split, the same objects are delivered in the same order and the parser ends in the same state as on the whole input |
| MpakStream.DecodeIsReadAll | src/handler/socket.hpp:100-134 | the objects delivered are those the reader finds one after the other, and the parser dies exactly on malformed input |
| MpakPrinter.IntRoundTrip | src/serializer/mpak/mpak.h:475-516 | each integer type's encoding is read back as the integer the parser makes of it |
| MpakPrinter.RoundTrip | src/serializer/mpak/mpak.h:466-670 | reading back a packed value returns it and consumes exactly its bytes if it nests no deeper than the reader has room for, and fails otherwise |
| MpakPrinter.FaithfulIff | src/serializer/mpak/mpak.h:839-848 | the round trip preserves a value if and only if its integers are non-negative below 2^63, 64-bit signed, or negative fixnums |
| MpakDataPrinter.ComesBackIff | src/serializer/mpak/mpak.h:549-590 | what operator<<(const data&) writes is read back as the object exactly when it is no container and its integers lie in the unsigned 32-bit range |
| MpakDataPrinter.DoesNotComeBack | src/serializer/mpak/mpak.h:564-583 | an array of nil comes back as nil, an empty array is not written, and -1 comes back as 2^32 - 1 |
| MpakRoundTrip.ParsePacked | src/serializer/mpak/mpak.h:683-937 | unpacking a packed value, whatever follows it, returns it if it nests at most 15 deep and fails if deeper |
| MpakRoundTrip.TruncatedWaits | src/serializer/mpak/mpak.h:833-837 | a packed value cut short anywhere makes the parser wait |
| MpakRoundTrip.StreamRoundTrip | src/handler/socket.hpp:76-134 | packed values sent one after the other and received in chunks of any sizes come out in order with nothing left over |
| MpakRoundTrip.FaithfulStream | src/handler/socket.hpp:76-134 | a stream comes out as it went in if and only if all its integers survive |
| MpakParser.Unpacker.constructor | src/serializer/mpak/mpak.h:383-387 | a new parse context has one entry that starts |
| MpakParser.Unpacker.FirstByte | src/serializer/mpak/mpak.h:688-777 | the first-byte branches of the loop do one machine step in place |
| MpakParser.Unpacker.CheckLength | src/serializer/mpak/mpak.h:792-832 | the length check pops an empty container, pushes the first child of another, or goes on to the data |
| MpakParser.Unpacker.Iterate | src/serializer/mpak/mpak.h:687-906 | one iteration over the array of stack entries is one machine step; a wait changes nothing |
| MpakParser.Unpacker.Unpack | src/serializer/mpak/mpak.h:683-937 | unpack is the run of the stack machine on the unread bytes, with SUCCESS exactly when nothing is left unread |
| MpakParser.Connection.ReadStream | src/handler/socket.hpp:76-134 | one socket read of any size extends what the connection has decoded as if all bytes had come at once |
| MpakPacker.Packer.Pack | src/serializer/mpak/mpak.h:457-670 | packing succeeds exactly when the encoding leaves a byte of the buffer free, and then appends it; refused, it leaves a prefix behind |
| MpakPacker.Packer.PackData | src/serializer/mpak/mpak.h:549-590 | printing an object appends the bytes of its elements without headers when they leave a byte free, and otherwise a prefix |
| MpakPacker.Packer.PushMap | src/serializer/mpak/mpak.h:671-679 | push_map succeeds exactly for the empty map whose header leaves a byte free; otherwise it leaves the header, if that fits, and what fits of the first key |
| MpakPacker.Packer.OnePairIsRefused | src/serializer/mpak/mpak.h:671-679 | a map of one pair is refused however much room there is, with its header and key left behind |
| ReadBuffer.Pbuf.Reserve | src/util/sbuf.h:97-130 | room for sz bytes is made by doubling and compaction; the unread bytes stay the same and old memory is not written |
| ReadBuffer.Pbuf.Fill | src/util/sbuf.h:80-83 | received bytes join the unread ones and no byte before them changes |
| BufferLifetime.StepInv | src/util/sbuf.h:39-187 | every buffer and object operation keeps counts exact and blobs readable |
| BufferLifetime.BlobsStayReadable | src/serializer/mpak/mpak.h:863-867 | each blob of an object that was not finished points into allocated memory that still holds the bytes parsed there, across reads, reallocations and other objects' ends |
| BufferLifetime.BlobsOnlyEndWithFin | src/util/sbuf.h:164-177 | no step takes a blob from an object except its own end |
| BufferLifetime.CountsAreExact | src/util/sbuf.h:39-54 | a block's count is the number of references held to it, it is freed exactly when the last goes, and no freed block is counted again |
| BufferLifetime.NothingLeaks | src/util/sbuf.h:164-177 | when the buffer is gone and every object was finished no block is left |
| BufferLifetime.LeftBehind | src/util/sbuf.h:39-54 | when the buffer is gone the blocks left are exactly those of objects not finished |
| BufferLifetime.UnfinishedLeaks | src/serializer/mpak/mpak.h:379-390 | a connection that dies in the middle of an object leaves exactly that object's blocks, the last one parsed among them |
| Emitter.WorkInv | src/emittable.hpp:31-90 | every step of adding and processing commands keeps the mailbox invariant |
| Emitter.OwnerIsTheOnlyToken | src/emittable.hpp:12-15 | the owner is set exactly when one emit task is being pushed, queued or run for the emitter, and it is that thread |
| Emitter.RunnerIsOwner | src/emittable.hpp:43-48 | a thread inside process_commands is the owner, so two threads never run an emitter's commands at once |
| Emitter.ExactlyOnceInOrder | src/emittable.hpp:31-79 | commands run in append order, each once, even when batches are taken by different threads |
| Emitter.NoLostWakeUp | src/emittable.hpp:31-90 | when no thread is mid-step, commands that were not run have an owner with exactly one task queued |
| Emitter.Progress | src/emittable.hpp:31-90 | while a command was not run, some thread can go on without further commands |
| EmitterProgress.WorkRanks | src/emittable.hpp:31-90 | every step of any thread other than the start of an addition leaves strictly less to do |
| EmitterProgress.EverythingRuns | src/emittable.hpp:31-90 | from every reachable state and under every schedule without further commands, after finitely many steps every command was run and nobody is inside the mailbox |
| Watchers.WatcherList.Add | src/emittable.h:359-365 | a watcher becomes the first of the list |
| Watchers.WatcherList.Remove | src/emittable.h:367-417 | exactly the given watcher leaves the list, or nothing changes when it is gone already; without a watcher all of them are freed |
| Watchers.WatcherList.Emit | src/emittable.h:304-323 | every watcher is called once in list order; those that stay are in reverse order afterwards |
| Watchers.WatcherList.EmitOne | src/emittable.h:324-358 | the first watcher is called and leaves, or moves to the end |
| Links.PushFront | src/util/array.h:280-286 | pushing an element in front keeps a doubly linked list |
| Links.Unlink | src/util/map.h:406-418 | joining the neighbours of an element takes exactly it out of a doubly linked list |
| FreeList.Allocator.constructor | src/util/array.h:232-260 | all elements start on the free list |
| FreeList.Allocator.Alloc | src/util/array.h:262-344 | an unused element becomes first of the used list, from the free list or, when allowed, from the heap; counters follow |
| FreeList.Allocator.FreeElm | src/util/array.h:291-328 | the element leaves the used list and goes back to the heap or to the free list by the half-use rule |
| FreeList.Allocator.Free | src/util/array.h:352-374 | an element that is not in use is refused; any other is freed once, used and free stay disjoint and m_use and m_max count them |
| HashMap.Table.constructor | src/util/map.h:183-216 | a new table is the empty map |
| HashMap.Table.Find | src/util/map.h:301-323 | the chain walk finds the element of a key exactly when the map has the key |
| HashMap.Table.Get | src/util/map.h:301-323 | get is map lookup |
| HashMap.Table.Insert | src/util/map.h:336-375 | insert is map update with the functor's value; it fails only for a new key with no element to be had, and a new key takes the element the allocator hands out |
| HashMap.Table.Remove | src/util/map.h:385-422 | remove returns the address of what was there and deletes the key exactly when the functor agrees; by then the element is free, or given back to the heap |
| HashMap.Table.FindAndErase | src/util/map.h:681-695 | the value copied afterwards is the removed one exactly when the element was not given back to the heap |
| HashMap.Table.UseIsSize | src/util/array.h:352-374 | the allocator's m_use is the size of the map |
| HashMap.Table.Sweep | src/util/map.h:240-254 | an iteration whose callbacks erase the visited entry, insert others or end it with a negative result does what those visits do one after the other, in the order of the used list at the start |
| HashMap.WalkVisits | src/util/map.h:240-254 | entries are visited in order and each once, and only a negative result cuts that short |
| HashMap.WalkKeeps | src/util/map.h:240-254 | an entry nobody inserts over is gone exactly when its callback erased it, and otherwise unchanged |
| HashMap.WalkAdds | src/util/map.h:240-254 | what the callbacks of visited entries insert under a new key is there at the end |
| HashMap.OnlyErasing | src/util/map.h:240-254 | callbacks that only erase visit every entry once and leave exactly those not erased |
| HashMap.CopiesIntact | src/util/array.h:312-317 | in an iteration over elements that are not from the heap every copy of an erased value is sound |
| ElementPool.CopyRightAfterIff | src/util/map.h:418-421 | a value copied right after its removal is sound exactly when the half-use rule did not give the element back |
| ElementPool.NextAllocationTakesIt | src/util/array.h:262-324 | the next allocation takes the very element that was erased, and the copy is then what it put there |
| ElementPool.CopyCanFail | src/util/array.h:312-317 | three keys in a pool made for one: the copy after the third removal reads memory that is gone |
| YieldTable.Fabric.Yield | src/fiber/fabric.h:212-219 | yielding enters the fiber under its message id, replacing a previous entry if there is one (in one thread; YieldProtocol has the filling as a step of its own) |
| YieldTable.Fabric.Resume | src/fiber/fabric.h:265-273 | a removable fiber found under the id is gone; it is the one resumed, and was never resumed before, exactly when its element was not given back to the heap |
| YieldTable.Fabric.CheckTimeout | src/fiber/fabric.h:43-63 | exactly the entries past their limit are erased, none of their fibers was resumed before, and those whose copies are sound are resumed |
| YieldProtocol.RunInv | src/fiber/fabric.h:43-64 | the invariant of the yield table holds in every state of every run: any number of threads, any interleaving of allocation, filling, removal, copy, timeout look and erasure |
| YieldProtocol.BackIff | src/util/array.h:312-317 | an erased element is given back exactly when it is from the heap and at most half of the elements are in use, itself still counted |
| YieldProtocol.CopyIsSoundIff | src/util/map.h:681-695 | in every run the value copied is the removed one exactly when the element was not given back, not allocated again and not filled late |
| YieldProtocol.OrderlyCopyIff | src/util/map.h:681-695 | with new message ids and no entry looked for before its yield returned: exactly when the element was not given back and no allocation took it |
| YieldProtocol.OrderlyNeverBroken | src/fiber/fabric.h:212-219 | under the same discipline no thread follows the null fiber of an unfilled entry or fills memory given back |
| YieldProtocol.ResumedAtMostOnce | src/fiber/fabric.h:231-238 | as long as no copy was disturbed, a removable yield is resumed at most once by response, event or timeout |
| YieldProtocol.ResumedTwice | src/fiber/fabric.h:265-273 | a run under the discipline in which an allocation between removal and copy makes one fiber resumed twice and another never |
| WriteBuffer.ExactFitIff | src/util/sbuf.h:100-116 | doubling the capacity ends exactly at the requested size when that is the capacity times a power of two |
| WriteBuffer.SpareIff | src/net/wbuf.h:343-366 | a send that starts a new command stays within the buffer exactly when its size with the header is not a power of two times the capacity |
| WriteBuffer.OverrunLandsOnLimit | src/net/wbuf.h:82-88 | otherwise exactly the last byte of the data goes outside, at the index that is the capacity |
| WriteBuffer.SpareCanFail | src/net/wbuf.h:293-300 | first sends of 16368, 32752, 65520, ... bytes do not fit a fresh buffer |
| WriteBuffer.ConservedInEveryRun | src/net/wbuf.h:343-463 | after any sequence of sends and write calls with any kernel room, what was sent is what was written, then what curr and next hold, in order; a detached writer has written everything |
| WriteBuffer.Drains | src/net/wbuf.h:384-463 | once the sends stop, write calls that get at least a byte through write everything and detach the writer, within a bound |
| WriteBuffer.Wbuf.Conserved | src/net/wbuf.h:343-463 | accepted bytes are the written ones, then those unsent in curr and next, in order; a detached writer has written everything |
| WriteBuffer.Wbuf.NewCommandsStartEmpty | src/net/wbuf.h:396-396 | a send that starts a new command finds its buffer empty |
| WriteBuffer.Wbuf.Send | src/net/wbuf.h:343-383 | a send appends its bytes to what is accepted and attaches the writer, or writes past the buffer, exactly when it starts a command whose size with the header is a power of two times the capacity |
| WriteBuffer.Wbuf.WriteCommand | src/net/wbuf.h:384-463 | a call swaps the buffers when curr is done, detaching exactly when both are empty; otherwise it moves exactly the bytes the kernel takes from the front of curr to the wire, and an error changes nothing |
| WriteBuffer.Wbuf.Swap | src/net/wbuf.h:386-427 | the buffers are exchanged, and the writer stays attached exactly when the new curr has something to send |
| WriteBuffer.Wbuf.WriteChunks | src/net/wbuf.h:428-462 | the walk takes what was sent from the front of curr and cuts finished commands off |
| Base64.AlphabetInverse | src/util/exlib/b64/src/cdecode.c:12-19 | the decoding table inverts the alphabet, padding and newlines are no digits |
| Base64.LookupInBoundsIff | src/util/exlib/b64/src/cdecode.c:12-19 | with signed characters and the bound check as written, the table is read within its bounds exactly for characters other than 123 |
| Base64.LookupPastTheEnd | src/util/exlib/b64/src/cdecode.c:12-19 | 123 passes the bound check and reads the first index past the table |
| Base64.DecodeValueIs | src/util/exlib/b64/src/cdecode.c:12-19 | what the 80 entries of the table say of each character |
| Base64.EncodeBlocks | src/util/exlib/b64/src/cencode.c:28-87 | encoding in two blocks is encoding at once |
| Base64.DecodeBlocks | src/util/exlib/b64/src/cdecode.c:27-88 | decoding in two blocks is decoding at once |
| Base64.RoundTrip | src/util/exlib/b64/src/cdecode.c:27-88 | decoding the encoded text, newlines and padding included, returns the bytes |
| Base64.WrapperRoundTrip | src/util/util.cpp:40-56 | what base64::encode writes, with the zero it puts for the last newline, decodes to the bytes |
| Base64.StreamingRoundTrip | src/util/exlib/b64/src/cencode.c:28-110 | bytes encoded in any blocks and decoded in any blocks come back |
| Base64.LinesFit | src/util/exlib/b64/src/cencode.c:77-82 | no output line is longer than 72 characters and the text ends with a newline |
| Base64.EncodedLength | src/util/exlib/b64/src/cencode.c:28-110 | n bytes encode to 4 characters per started group of three, a newline per 54 bytes and a final one |
| Base64.BufferFitsIff | src/util/util.h:146-151 | the encoded text fits the size buffsize computes exactly for inputs below 216 bytes |
| Base64Coder.Encoder.EncodeBlock | src/util/exlib/b64/src/cencode.c:28-87 | the resumable loop writes the encoding of its block behind what was there and saves the state |
| Base64Coder.Encoder.EncodeBlockEnd | src/util/exlib/b64/src/cencode.c:89-110 | the end of the text is written for each of the three states |
| Base64Coder.Decoder.DecodeBlock | src/util/exlib/b64/src/cdecode.c:27-88 | the resumable loop writes the decoded bytes and saves the byte under construction |
| Masking.WordMask | src/net/protocol/ws.hpp:223-226 | masking a 32-bit word masks its four octets |
| Masking.MaskPayload | src/net/protocol/ws.hpp:212-236 | the buffer is masked octet by octet from the given key position, and the next position is returned |
| Masking.AnyPieces | src/net/protocol/ws.hpp:212-236 | a payload masked in any pieces, the position carried over, is masked as a whole |
| Masking.MaskTwice | src/net/protocol/ws.hpp:212-236 | masking twice restores the payload |
| Prime.Mark | src/util/util.cpp:804-808 | the inner loop marks exactly the multiples, so p says which numbers have a factor up to i |
| Prime.SkipMarked | src/util/util.cpp:801-803 | a marked number's multiples are marked already |
| Prime.SmallFactor | src/util/util.cpp:796-800 | stopping at the square root loses no composite number |
| Prime.Prime | src/util/util.cpp:780-823 | up to 3 the argument is returned; above, the largest prime that is not larger |

## Left out

- `mpop` with several consumers: its readable check is separate from its step (src/util/queue.h:79-81).
- Weak memory ordering: shared memory is taken to be sequentially consistent.
- Allocation failure, pthread errors and the ASSERT-only paths after them.
- TimerWheel.TaskGroup.Fire: callbacks and threads that close other timers while a tick is under way, because then it depends on the order of the slot list whether the other timer still runs; cancellations between ticks, additions between ticks or by callbacks, and callbacks that close their own timer are covered.
- TimerWheel.TaskGroup.RunTick: requires that no timer to be drained, nor one a callback asks for at this tick, has start index 0 while the last slot is current, because the program writes past its table there; `SlotInTableIff` is the exact condition.
- `get_duration_index`: floating point; the index is a parameter.  The 32-bit counter of the mobile builds is not modelled.
- MpakPrinter.RoundTrip: raw data below 2^31 bytes and containers below 2^32 elements, because the parser's offset is advanced by a signed 32-bit number and lengths are cut to 32 bits.
- MpakMachine.Run: a length of a 0xd6 or 0xd7 object other than 4 and 8 and raw data from 2^31 bytes on violate an assertion of the program and count as parse errors; floating-point numbers are kept as their bits.
- MpakParser.Unpacker.Unpack: object pointers into parent objects are modelled as values handed to the parent entry when the child is complete, and an entry that starts carries no left-over fields; memory sharing is the subject of BufferLifetime.
- MpakDataPrinter.ComesBackIff: floating-point numbers of parsed objects are the eight bytes of a double; the widening of a parsed float is not modelled.
- MpakPacker.Packer.PushMap: the position is taken to be below 2^31, so that its conversion to int is not zero.
- BufferLifetime.StepInv: one receive buffer with any number of objects; `pbuf::copy`, which lets two buffers share a block, is used only in a build variant.
- DESTROY commands: no code creates one.  In the mailbox, running a command is one step of its thread; what it does to the watcher list is Watchers.
- Watchers.WatcherList.EmitOne: watchers that return IGNORE, after which the list would keep pointers to watchers that were called out of order (src/emittable.h:342-347).
- EmitterProgress.EverythingRuns: without further commands; with commands added for ever, that each one is run needs a fair scheduler, which is not modelled.
- HashMap.Table: one partition, its operations one after the other; what other threads do between the locked sections is YieldProtocol.  Key hashing and comparison are an arbitrary function into bucket range and equality; elements are addresses with maps for their fields.
- HashMap.Table.Sweep: callbacks that erase entries other than the visited one; threads that erase the entry the iteration is about to go on to.
- YieldProtocol.CopyIsSoundIff: an entry is copied and filled in one step each, because only its fiber is used after the copy; what a thread does with memory it reads after it was given back is not modelled.
- YieldTable.Fabric.CheckTimeout: fibers that yield again when they get the timeout error; for the table that is HashMap.Table.Sweep, for the threads YieldProtocol.
- TimerWheel.TaskGroup.ProcessOneShot: a thread that read the trigger count before another one's rebase and enters after it, which takes more than 2^63 expirations.
- `wbuf` IOVEC, FILE and DGRAM commands, `obj` and `obj2`, and the roll-back when attaching fails.
- WriteBuffer.Wbuf.Send: after a byte was written past the buffer nothing is promised.
- Base64.DecodeOne: not defined for the character 123, for which the decoding table is read past its end.
- Sockets, polling, Lua bindings, signals, HTTP and WebSocket frame parsing, session and RPC layers, third-party hash and random generators.
