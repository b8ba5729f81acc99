# DisVM: a verified model

DisVM runs programs for the Dis virtual machine; its Limbo compiler writes the `.dis` modules that it loads. This project
models the parts of both whose correctness is hard to see from the code, and proves what they promise, for every input,
every run and every interleaving. `dafny verify dfyconfig.toml` checks everything.

| file | what it models |
|---|---|
| `Channel.dfy` | one channel: bounded ring buffer, two queues of waiting requests, one request token per thread; class `Channel` works in place and is proved against functions on values |
| `Scheduler.dfy` | runnable queue, blocked set, held threads, collection every 256 picks; the execute loop and the states it ends in |
| `Protocol.dfy`, `ProtocolSafety.dfy`, `ProtocolTheorems.dfy`, `ProtocolRecords.dfy`, `ProtocolAlts.dfy`, `ProtocolOrder.dfy`, `ProtocolTurns.dfy` | send, receive and alt of any number of threads over any number of channels, as a state machine whose steps are the locked sections; the invariant, its preservation by every step, and what follows for every run: transfers and logs, when an alt may come out empty, in which order waiting threads are served and runnable ones picked |
| `RefCount.dfy` | reference counts of a heap with pointer fields, lists, modules, the frames and registers of all threads and the collector's list; the instructions that move references |
| `PointerMaps.dfy`, `TypeMaps.dfy`, `Collector.dfy`, `Collection.dfy` | pointer maps, as the compiler makes them from types and the machine follows them; the mark stack, three rotating colours, sweeping; a whole collection, which sweeps by colour and frees by reference counts |
| `DisFormat.dfy`, `DataSection.dfy`, `DataMeaning.dfy`, `ModuleFormat.dfy` | the `.dis` format: operands, the chunked reader, coalesced data runs and the memory they build, whole modules, written by the compiler and read by the loader; what the operands of a loaded instruction refer to |
| `BoolCompiler.dfy`, `CaseTable.dfy` | backpatched boolean code; range tables against jump tables |
| `PagedStack.dfy`, `Exceptions.dfy` | the paged call stack; exception search against unwinding |
| `Utf8.dfy`, `Md5.dfy`, `Md5Vectors.dfy` | sections 3 and 4 of RFC 3629; sections 3.1 to 3.5 of RFC 1321, in C and in Limbo, and a digest of its appendix A.5 |

Code that works in place is a class or a method over arrays, proved against a function of the old state; the theorems are
about those functions. A `nat` or `int` is unbounded; where the source's width matters (the case tables, MD5, the UTF-8
register, the `.dis` operands) wrap-around is written out.

## What the proofs found

The model follows the code; these are the places where the code does less than one would expect, each with an exact
condition that is proved.

* A range table stores `stop + 1` in 32 bits, so a label that ends at 2^31 - 1 is never selected, while a jump table does
  select it (`FormsAgreeIff`, `LastLabelIsLost`). The loops that expand ranges and gaps count in 32 bits too and run over
  the end of their array exactly when such a label is expanded (`Cases.DoGoto`, `Cases.CaseCom`; two programs for which
  they do: `ExpansionOverruns`, `FillingOverruns`).
* The loop test `i + 63 < inputLen` of `MD5Update` wraps: it goes past the input exactly when the buffered bytes and the
  new ones together reach 2^32 (`OverrunsIff`, `GuardCanWrap`, `Context.Update`). Such an input needs a buffer of nearly
  2^32 bytes, which a 32-bit process cannot hold; nothing else limits a message or how it is split.
* `count_codepoints` reports one byte, not zero, when there is no character at the start (`CountCodepoints`).
* The compiler's data cache grows in steps of 1024 bytes in a loop that sets the size instead of adding to it: a single
  item of 1024 bytes or more that does not fit already never gets room (`GrowthEndsIff`, `LongItemsGetNoRoom`,
  `LongIsLaidIff`).
* The loader rejects initialised arrays that are empty or nested deeper than four, though the compiler writes them; this
  is exactly when a module cannot be read back (`StoredIff`, `Reload`).
* The empty string as an exception id is taken by the entry that only marks the absence of a default handler, where no
  handler can take it (`SearchIsExactIff`, `MarkerIsTaken`).
* `consmp` counts the references of its element before it checks the tail's type; when that check fails they stay counted
  for ever (`Machine.Consmp`, `CountLeaks`). The failed check breaks the thread, which ends the machine.
* `mcall` into a module of the machine that has no data dereferences the null pointer, which a thread started in that
  module does not (`Machine.MCall`).
* `char2byte` of a word that is no character number fails an assertion of debug builds; without it the count is a
  difference with the null pointer (`SysChar2Byte`).

## Model

| member | source | states |
|---|---|---|
| Channels.SendRefinesFifo | src/vm/channel.cpp:70-139 | a send appends its word to the queue made of buffer and live waiting senders; it is handed over directly only when that queue is empty; a spent token means nothing happens |
| Channels.ReceiveRefinesFifo | src/vm/channel.cpp:141-223 | a receive takes exactly the head of that queue, also when a waiting sender refills the buffer, and waits only when the queue is empty |
| Channels.CancelRefinesFifo | src/vm/channel.cpp:225-248 | cancelling a thread whose token is spent loses no word |
| Channels.SendServesInOrder | src/vm/channel.cpp:88-127 | a send serves, of the receivers still live, the one that has waited longest; a sender that waits goes behind all live ones; the order of the rest stays |
| Channels.ReceiveServesInOrder | src/vm/channel.cpp:159-195 | the same for a receive: the oldest live sender is served, a receiver that waits goes to the back |
| Channels.CancelKeepsOrder | src/vm/channel.cpp:225-248 | a cancellation leaves the order of all other live requests as it is |
| Channels.WaitsIffNotServed | src/vm/channel.cpp:88-111 | a call with a live token waits exactly when no live partner waits and the buffer has no room, or no word |
| Channels.SendKeepsSettled | src/vm/channel.cpp:88-127 | waiting receivers keep meaning an empty buffer and no senders, waiting senders a full buffer |
| Channels.ReceiveKeepsSettled | src/vm/channel.cpp:159-214 | the same for a receive: the slot it frees is always there for the sender it matched |
| Channels.CancelKeepsSettled | src/vm/channel.cpp:225-248 | the same for a cancellation |
| Channels.SendWaiters | src/vm/channel.cpp:88-131 | no thread but the sender starts waiting, no live waiter but the matched receiver stops |
| Channels.ReceiveWaiters | src/vm/channel.cpp:159-195 | the same for a receive |
| Channels.Channel.TrySendToBuffer | src/vm/channel.cpp:258-282 | in the ring buffer: refused exactly when full, else one more word at the end and the token spent |
| Channels.Channel.TryReceiveFromBuffer | src/vm/channel.cpp:284-309 | in the ring buffer: the oldest word, refused exactly when empty |
| Channels.Channel.SendData | src/vm/channel.cpp:70-139 | the retry loop over stale receivers does exactly one send step on ring buffer, queues and tokens |
| Channels.Channel.ReceiveData | src/vm/channel.cpp:141-223 | the same for a receive; room for the matched sender's word is certain |
| Channels.Channel.CancelRequest | src/vm/channel.cpp:225-248 | the first request of the thread goes, from the receivers before the senders |
| ProtocolTheorems.StepKeeps | src/vm/execution_table.cpp:1123-1305 | every step of every thread and worker keeps the invariant of the whole protocol |
| ProtocolTheorems.RunsAreSafe | src/vm/execution_table.cpp:1123-1305 | the invariant holds after every run |
| ProtocolTheorems.ExactlyOneTransfer | src/vm/execution_table.cpp:1205-1305 | in every interleaving a finished operation took part in exactly one transfer, reports the index of its channel, and a send gave up the word of that operand; only a non-blocking alt may report the channel count, and then nothing moved |
| ProtocolTheorems.NextInstructionStartsClean | src/vm/execution_table.cpp:1181-1203 | a thread outside channel instructions has no request in any queue, no live token and no callback coming, so setting its token again revives nothing |
| ProtocolTheorems.WakeUpsAreNeitherLostNorDoubled | src/vm/execution_table.cpp:1219-1230 | a blocked thread has either its token with a queued request at every operand, or exactly one callback on its way |
| ProtocolTheorems.CallbackFindsThreadBlocked | src/vm/scheduler.cpp:229-268 | a callback that gets the ownership lock finds its thread in the blocked set |
| ProtocolTheorems.ChannelsAreFifo | src/vm/channel.cpp:88-127 | over any run what a channel gave out and still buffers is what it took, in order; waiting receivers mean an empty buffer and no senders, waiting senders a full one |
| ProtocolTheorems.ThreadsHaveOnePlace | src/vm/scheduler.cpp:288-358 | in every run each thread is once in the runnable queue, or blocked, or held by one worker; the running count is the number held; collection only when none is held |
| ProtocolTheorems.HeldThreadsCanMove | src/vm/scheduler.cpp:229-268 | no held thread is ever stuck: its next step is possible, or it runs a callback whose thread another worker holds, and that thread can move |
| ProtocolRecords.LogsAreRecords | src/vm/channel.cpp:88-127 | over every run what a channel gave out is exactly, in order, the words that threads recorded as received from it, and what it took those recorded as sent to it |
| ProtocolRecords.StepGrows | src/vm/channel.cpp:159-207 | in each step a channel's history grows by one word exactly when one thread records that word at an operand on the channel |
| ProtocolRecords.NonBlockingWaitsOnlyWhenServed | src/vm/execution_table.cpp:1281-1303 | if no try_lock of a live token fails, a non-blocking alt only ever waits for the callback of a transfer that has been made |
| ProtocolRecords.RestsLiveIff | src/vm/execution_table.cpp:1281-1303 | an alt comes to rest with its token live exactly if it is blocking or its try_lock fails |
| ProtocolAlts.EmptyAltTriedAll | src/vm/execution_table.cpp:1239-1303 | over every run, an alt that moved nothing was non-blocking and, between its begin and its end, called each of its channels while no partner, word or room for that operand was there |
| ProtocolAlts.ServableAltMoves | src/vm/execution_table.cpp:1239-1279 | an operation with an operand that can be served when it begins makes its one transfer if no other thread acts before it ends |
| ProtocolAlts.OwnMovesOn | src/vm/execution_table.cpp:1242-1280 | the loop goes on to the next channel with a live token only after a call that could not be served, and withdraws only behind the last channel |
| ProtocolOrder.WaitersAreServedInOrder | src/vm/channel.cpp:88-127 | over every run, the thread that a call is matched with queued at that channel before every other live one that waits there |
| ProtocolOrder.QueuesAreLined | src/vm/channel.cpp:95-107 | over every run both queues of each channel are in the order in which their requests came |
| ProtocolTurns.LongestRunnableIsPicked | src/vm/scheduler.cpp:324-339 | over every run a worker picks, of all runnable threads, the one that became runnable first |
| ProtocolTurns.CollectsEvery256Picks | src/vm/scheduler.cpp:315-334 | over every run a worker that has not waited collects before its pick exactly when 255, 511 and so on threads have been picked, and then none is held |
| Scheduling.CollectsOnlyWhenNoneHeld | src/vm/scheduler.cpp:310-386 | a worker that starts a collection does so while no thread is held |
| Scheduling.ScheduledKeepsOnePlace | src/vm/scheduler.cpp:142-171 | a new thread gets one place |
| Scheduling.PickedKeepsOnePlace | src/vm/scheduler.cpp:324-339 | picking moves the first runnable thread to the worker, and only that one |
| Scheduling.PutBackKeepsOnePlace | src/vm/scheduler.cpp:292-308 | giving a thread back puts it in the one place its state asks for |
| Scheduling.WokenKeepsOnePlace | src/vm/scheduler.cpp:229-268 | a woken thread moves from blocked to runnable and is never refused |
| Scheduling.Execute | src/vm/thread.cpp:221-338 | the loop stops at the first instruction that leaves the running state or throws, or after its quanta; user exceptions break the thread, others leave the execution |
| Scheduling.FinalStateIs | src/vm/thread.cpp:221-338 | the state in which an execution ends, by the instruction that ends it or the end of the quanta |
| Scheduling.Run | src/vm/execution_table.cpp:1570-1593 | the state while and after each kind of instruction that writes it, send, receive, alt, ret, spawn, exit and calls into built-in modules |
| Scheduling.ExecuteIsAccepted | src/vm/scheduler.cpp:388-448 | whatever state an execution ends in, the scheduler does not refuse it; it ends the machine exactly after a user exception, while system exceptions and termination requests leave the execution before the scheduler is asked |
| Scheduling.Scheduler.PickThread | src/vm/scheduler.cpp:310-339 | in place: one pass of the worker's loop, with collection and waiting |
| Scheduling.Scheduler.EnqueueBlockedThread | src/vm/scheduler.cpp:229-268 | in place: moves a blocked thread, refuses any other |
| RefCount.Machine.DecRef | src/vm/vm_memory.cpp:121-129 | the count drops by one, the allocation is freed exactly with its last reference, the cascade through fields and tails ends, and all counts are the references again |
| RefCount.Machine.DecRefs | src/vm/vm_memory.cpp:99-119 | the same for all pointer fields of something destroyed |
| RefCount.Machine.Movp | src/vm/execution_table.cpp:507-521 | after a pointer move counts equal references, the destination holds the pointer and no other slot or field of a live allocation changed |
| RefCount.Machine.Headp | src/vm/execution_table.cpp:1006-1014 | the element reaches the destination with counts right; a nil list throws and changes nothing |
| RefCount.Machine.Tail | src/vm/execution_table.cpp:1026-1042 | the tail reaches the destination with counts right; a nil list throws and changes nothing |
| RefCount.Machine.New | src/vm/execution_table.cpp:1324-1340 | for every destination that address modes can name: the old contents are released, the new allocation is all nil, tracked exactly when it has pointers, and counted once or twice accordingly |
| RefCount.Machine.Link | src/vm/list.cpp:27-44 | a list in front of a tail: the tail's count is unchanged because the destination's reference moves into the list |
| RefCount.Machine.Cons | src/vm/execution_table.cpp:915-933 | an element without pointers; a tail of another element type throws and changes nothing |
| RefCount.Machine.Consp | src/vm/execution_table.cpp:935-959 | a pointer element: counts equal references, the list is tracked exactly when the element is not nil; a tail of another type throws and changes nothing |
| RefCount.Machine.Consmp | src/vm/execution_table.cpp:961-988 | several pointers: as for one, but when the types differ the counts are right exactly if all of them are nil |
| RefCount.Machine.MCall | src/vm/execution_table.cpp:1513-1604 | the caller's registers move to the frame, the target and its data are counted once more, nothing else changes; a built-in module returns at once with the caller's registers and without the frame; a module without data is dereferenced |
| RefCount.Machine.Ret | src/vm/execution_table.cpp:1468-1490 | the frame and its references go, the registers of the caller are back, counts equal references |
| RefCount.Machine.CallAndReturn | src/vm/execution_table.cpp:1468-1604 | a call into another module and the return give back the registers, and free nothing but what the frame's pointers kept; without pointers every count is as before |
| RefCount.Machine.Spawn | src/vm/execution_table.cpp:1622-1644 | the new thread has a copy of the frame and references of its own to module, data and arguments; counts equal the references of all threads |
| RefCount.Machine.Switch | src/vm/scheduler.cpp:288-358 | a worker goes on with another thread: the references are the same |
| RefCount.Machine.End | src/vm/thread.cpp:98-105 | a thread with an empty stack gives up the references of its registers; counts equal references |
| RefCount.CountLeaks | src/vm/execution_table.cpp:961-988 | a run after which counts no longer equal references |
| RefCount.Machine.Track | src/vm/garbage_collector.cpp:137-149 | tracking takes one reference for the collector |
| RefCount.Machine.Untrack | src/vm/garbage_collector.cpp:240-248 | the allocation is freed exactly if the collector's reference was the only one left |
| RefCount.Machine.Sweep | src/vm/garbage_collector.cpp:237-250 | the dead entries are gone from the list, the others keep their order, counts equal references |
| RefCount.ReachedSurvives | src/vm/garbage_collector.cpp:237-250 | nothing that a chain of references reaches from a frame, a register or a tracked allocation is ever freed, and it keeps its contents |
| RefCount.FreedOnlyWithItsHolders | src/vm/vm_memory.cpp:99-129 | what is freed was referred to only from outside by what was given up, or by allocations freed with it |
| RefCount.FreeCounts | src/vm/vm_memory.cpp:121-129 | at count zero nothing refers to the allocation any more, so freeing it leaves no dangling reference |
| PointerMaps.EnumPointerFields | src/include/vm_memory.hpp:56-82 | the loop over bytes and bits visits the non-nil pointer fields in order |
| PointerMaps.FieldsAreAll | src/vm/vm_memory.cpp:131-154 | those are exactly the offsets for which `is_offset_pointer` holds and the memory is not nil, each once |
| PointerMaps.FlagsAreDigits | src/include/vm_memory.hpp:70-80 | the flags of a byte are its binary digits, the highest for the first word |
| TypeMaps.TDescMap | limbo/compiler/types.b:2205-2261 | the compiler sets exactly the bits of the type's pointers, through alts, case tables and nested fields, and answers where the last one is |
| TypeMaps.DescMap | limbo/compiler/types.b:2180-2203 | the same for a list of declarations |
| TypeMaps.MkTDesc | limbo/compiler/types.b:2112-2132 | the descriptor, cut behind the last pointer, names only pointers of the type, and all of them when offsets ascend |
| TypeMaps.DescribeAndEnumerate | src/include/vm_memory.hpp:56-82 | what the compiler describes the machine enumerates: exactly the pointers of the type that are not nil, in order |
| TypeMaps.OrBits | limbo/compiler/types.b:2220-2244 | a byte or-ed with another has exactly the bits of both |
| Collector.Collector.Mark | src/vm/garbage_collector.cpp:163-235 | marking ends, with the current colour on exactly what had it before, all module data, and all that the roots reach through allocations without that colour; other colours stay |
| Collector.MarkShrinks | src/vm/garbage_collector.cpp:225-235 | each round lowers the number of uncoloured allocations, or keeps it and lowers the number of coloured entries on the stack |
| Collector.ClosedHoldsPath | src/vm/garbage_collector.cpp:163-196 | a set with the roots that is closed under unmarked steps holds everything reached |
| Collector.Collector.Collect | src/vm/garbage_collector.cpp:252-288 | a tracked allocation is swept exactly when it is two epochs old and neither the last collection nor this one left it the current colour; with nothing tracked no epoch passes |
| Collector.Collector.TrackAllocation | src/vm/garbage_collector.cpp:137-149 | a new entry has the colour and the date of the current epoch |
| Collector.Collector.Sweep | src/vm/garbage_collector.cpp:237-250 | exactly the entries of the colour go; both parts keep their order |
| Collector.ColoursRotate | src/vm/garbage_collector.cpp:74-85 | the colour swept was current two epochs ago, and three epochs in a row have different colours |
| Collector.ColourTellsEpoch | src/vm/garbage_collector.cpp:74-85 | among the last three epochs a colour tells which |
| Collector.SweptIff | src/vm/garbage_collector.cpp:252-288 | after marking, the sweeper's colour is on exactly the dead, and every other colour dates its allocation |
| Collector.InUseIsMarked | src/vm/garbage_collector.cpp:198-235 | after marking, the data of every module that a thread or a frame is in, and whatever a pointer of a frame or of an allocation just coloured points to, have the current colour |
| Collection.Collect | src/vm/garbage_collector.cpp:237-288 | a whole collection: what is removed from the list is dead by its colours, what is freed was dead or only freed allocations referred to it, and in the end an allocation is live exactly if something refers to it |
| Collection.Freed | src/vm/garbage_collector.cpp:237-250 | what a sweep frees was dead, or some allocation freed with it referred to it |
| DisFormat.OperandRoundTrip | limbo/compiler/dis.b:11-29 | every operand from -2^29 to 2^29 - 1, written in one, two or four bytes, is read back |
| DisFormat.OperandBytes | limbo/compiler/dis.b:11-29 | the bytes at the borders of the three lengths of an operand, and of words |
| DisFormat.ParseOperand | src/vm/module_reader.cpp:76-135 | no bytes at all are read as an operand outside that range |
| DisFormat.WordRoundTrip | limbo/compiler/dis.b:31-37 | every 32-bit word is read back |
| DisFormat.NameRoundTrip | src/include/buffered_reader.hpp:98-117 | every name without a NUL is read back |
| DisFormat.ManyRoundTrip | src/vm/module_reader.cpp:275-344 | a list is read back when its elements are |
| DisFormat.BufferedReader.CheckBufferContent | src/include/buffered_reader.hpp:131-148 | a refill loses and repeats no byte; zero means the end |
| DisFormat.BufferedReader.GetNextBytes | src/include/buffered_reader.hpp:36-74 | the next bytes of the stream whatever the buffer holds, or fewer only at the end |
| DisFormat.BufferedReader.GetBytesUntilZero | src/include/buffered_reader.hpp:98-117 | everything before the next NUL, across any number of refills; false exactly when there is none |
| DisFormat.ReadNextOperand | src/vm/module_reader.cpp:76-135 | the operand that the stream starts with, independent of buffer size |
| DisFormat.ReadNextWord | src/vm/module_reader.cpp:137-154 | the word that the stream starts with, independent of buffer size |
| DataSection.RunsJoin | limbo/compiler/dis.b:425-444 | storing two adjoining runs is storing one |
| DataSection.GrowthEndsIff | limbo/compiler/dis.b:438-443 | growing the cache ends exactly for items shorter than 1024 bytes, or that fit already |
| DataSection.LongIsLaidIff | limbo/compiler/dis.b:425-444 | raw bytes of 1024 or more get room exactly where they fit into the cache as it is |
| DataSection.ShortIsLaid | limbo/compiler/dis.b:425-444 | shorter ones always get room, in every value and at every state of the cache |
| DataSection.LongItemsGetNoRoom | limbo/compiler/dis.b:438-443 | an item that never gets room |
| DataSection.DisWriter.Disflush | limbo/compiler/dis.b:425-444 | the cached run is kept when the datum goes on where it ends, else written as it was asked for |
| DataSection.DisWriter.Disdatum | limbo/compiler/dis.b:170-326 | fails exactly when a run in the value never gets room; otherwise the items written and cached mean what storing the value by itself means |
| DataSection.DisWriter.Disvar | limbo/compiler/dis.b:115-132 | all globals: unless a run never gets room, the coalesced runs mean, on every memory, what storing each value by itself in order means |
| DataSection.ItemRoundTrip | src/vm/module_reader.cpp:383-520 | an item that is written is read back |
| DataSection.ItemBytes | limbo/compiler/dis.b:39-47 | the first bytes of items of each kind |
| DataSection.ItemsRoundTrip | src/vm/module_reader.cpp:383-520 | reading a written data section does what its items mean, and fails only where they do |
| DataSection.ReadDataSection | src/vm/module_reader.cpp:383-520 | the image depends on the bytes alone, not on how the reader gets them |
| DataSection.ReadItem | src/vm/module_reader.cpp:399-519 | one item, from its code on, stored as it is read |
| DataSection.ReadRun | src/vm/module_reader.cpp:421-447 | a run of cells stored as it is read has the effect of the whole run |
| DataSection.StoredIff | src/vm/module_reader.cpp:479-512 | a value can be loaded exactly when its initialised arrays are non-empty and nested at most four deep |
| DataSection.StoredInside | src/vm/module_reader.cpp:416-457 | values that lie inside the module's data, and elements inside their arrays, are loaded without a store outside any object |
| DataSection.DataRoundTrip | limbo/compiler/dis.b:170-300 | what the loader builds from the coalesced runs is what storing every initial value by itself builds |
| DataMeaning.StoredShows | src/vm/module_reader.cpp:398-519 | storing a value whose parts do not overlap leaves it in memory, part by part, arrays as objects of their own, and changes nothing else |
| DataMeaning.GlobalsAreShown | src/vm/module_reader.cpp:383-520 | the memory of a loaded module shows every initial value at its place |
| ModuleFormat.InstRoundTrip | limbo/compiler/dis.b:486-560 | opcode, operands and the machine's named address modes for the compiler's modes are read back |
| ModuleFormat.OperandsMeanWhatIsListed | src/vm/address_decoding.inc:14-157 | for all registers and memory, source, middle and destination of an instruction written, read and decoded refer to what the compiler's listing of it says; without a middle operand it is the destination |
| ModuleFormat.ModesSurvive | src/vm/module_reader.cpp:201-214 | the machine takes the address code apart into the modes that the compiler put together |
| ModuleFormat.WrittenKeepsInstructions | limbo/compiler/dis.b:486-496 | only markers are dropped, no instruction of the machine is |
| ModuleFormat.MagicNumbers | src/vm/module_reader.cpp:217-245 | only the two magic numbers are accepted, and the compiler's modules begin with the bytes of one |
| ModuleFormat.TypeRoundTrip | limbo/compiler/dis.b:102-113 | a descriptor is read back |
| ModuleFormat.LinkRoundTrip | limbo/compiler/dis.b:49-82 | an export is read back under its qualified name |
| ModuleFormat.ImportsRoundTrip | limbo/compiler/dis.b:134-168 | the functions wanted from one module are read back |
| ModuleFormat.ExceptRoundTrip | limbo/compiler/dis.b:328-364 | a handler is read back, with its wildcard entry last |
| ModuleFormat.FrontRoundTrip | src/vm/module_reader.cpp:217-381 | header, instructions and descriptors are read back, and the entry point passes the range check |
| ModuleFormat.BackRoundTrip | src/vm/module_reader.cpp:523-698 | name, exports, imports and handlers are read back, each present exactly when its flag says so |
| ModuleFormat.ModuleRoundTrip | src/vm/module_reader.cpp:763-790 | reading a written module gives that module with the image that storing every initial value builds; it fails only where that image cannot be built |
| ModuleFormat.Modcom | limbo/compiler/com.b:289-316 | the emitter in place writes exactly the sections of the format, in order, and fails exactly when the data never fit its cache |
| ModuleFormat.Disinst | limbo/compiler/dis.b:486-516 | the instruction buffer, flushed when it might overflow, loses and reorders nothing, and skips only the markers that handlers leave in the code |
| ModuleFormat.Disexc | limbo/compiler/dis.b:328-364 | only the handlers that can be reached are written and counted |
| ModuleFormat.Disldt | limbo/compiler/dis.b:134-168 | the import section, ended by its zero |
| ModuleFormat.ReadModule | src/vm/module_reader.cpp:763-790 | the section readers in place give what the bytes mean, whatever the buffer size |
| ModuleFormat.Reload | src/vm/module_reader.cpp:763-790 | compiling and loading any program, with any buffer size: written exactly when every run gets room, loaded exactly when moreover no array is empty or nested too deep, with the same header, instructions, descriptors, data, exports, imports and handlers; data laid out inside the module stay inside it, and the memory shows every initial value that no other overlaps |
| BoolCompiler.CodeGen.BCom | limbo/compiler/ecom.b:1874-1950 | for every condition the code falls through exactly when the condition equals `iftrue`, evaluates in short-circuit order, leaves otherwise by pending branches of its own, and disturbs no outer list |
| BoolCompiler.CodeGen.AndAnd | limbo/compiler/ecom.b:1952-1959 | a conjunction compiled to fall through when it holds, or its dual, keeps that promise |
| BoolCompiler.CodeGen.OrOr | limbo/compiler/ecom.b:1961-1969 | a disjunction likewise: its own branches are patched behind it, the outer ones stay pending |
| BoolCompiler.CodeGen.Leaf | limbo/compiler/ecom.b:1924-1949 | a comparison, inverted and mirrored as needed, with operands computed left to right as their temporaries ask |
| BoolCompiler.CodeGen.Patch | limbo/compiler/gen.b:483-491 | every branch of the chain gets the target, no other instruction changes |
| BoolCompiler.LeafMeans | limbo/compiler/ecom.b:1924-1946 | inverting the relation and swapping the operands branches exactly when the condition is not what is wanted |
| BoolCompiler.OperandsArePrepared | limbo/compiler/ecom.b:1930-1942 | in every evaluation of every condition, an operand that cannot be addressed has been computed right before it is compared |
| BoolCompiler.MoreTemporariesFirst | limbo/compiler/ecom.b:1934-1942 | of two operands that are computed, the one that needs more temporaries goes first |
| BoolCompiler.ExecuteSplit | limbo/compiler/gen.b:280-302 | code put together from two pieces runs as one after the other |
| BoolCompiler.ExecutePatched | limbo/compiler/gen.b:483-491 | branches patched to the end of the next piece turn leaving into falling through |
| BoolCompiler.PatchedConditionMeans | limbo/compiler/ecom.b:1874-1969 | whatever is compiled afterwards, once patched the finished instructions reach the target or fall through according to the condition's value, with its events in short-circuit order |
| BoolCompiler.PendingListsAreDisjoint | limbo/compiler/ecom.b:1952-1969 | inner and outer pending lists share no branch |
| CaseTable.RangeTableMeans | src/vm/execution_table.cpp:595-627 | the range search selects the right body for every 32-bit value outside a label that ends at 2^31 - 1 |
| CaseTable.JumpTableMeans | limbo/compiler/com.b:802-819 | wrapped subtraction, two tests and the indexed goto select the right body for every 32-bit value |
| CaseTable.FormsAgreeIff | limbo/compiler/com.b:679-717 | both forms select the same body for every value exactly when the last label does not end at 2^31 - 1 or is the default anyway |
| CaseTable.DenseIff | limbo/compiler/com.b:689-690 | the jump table is chosen exactly for three values or more and at most three a label, whatever the 32-bit difference wraps to |
| CaseTable.LastLabelIsLost | limbo/compiler/dis.b:205-212 | a label that the range form never selects |
| CaseTable.ExpansionOverruns | limbo/compiler/com.b:697-707 | a range for which the expanding loop runs over its array |
| CaseTable.FillingOverruns | limbo/compiler/com.b:733-734 | a case statement for which recording the bodies runs over the array |
| CaseTable.Case | src/vm/execution_table.cpp:595-627 | the loop over the table in place is the search |
| CaseTable.Dispatch | limbo/compiler/com.b:802-819 | the four instructions in front of a jump table |
| CaseTable.Cases.DoGoto | limbo/compiler/com.b:679-717 | chooses the jump table exactly when dense enough and then has one label for each value; fails exactly when a loop counts past 2^31 - 1 |
| CaseTable.Cases.FindLab | limbo/compiler/typecheck.b:2953-2972 | the binary search finds the label that contains the value |
| CaseTable.Cases.FillRange | limbo/compiler/com.b:719-735 | every value of a range gets its body, no other value changes |
| CaseTable.Cases.CaseCom | limbo/compiler/com.b:748-886 | afterwards each entry has the body of its label, or of its value with defaults filled in; the only failure is a loop that counts past 2^31 - 1 |
| CaseTable.Cases.RangeWords | limbo/compiler/dis.b:200-216 | the words written are the range table |
| CaseTable.Cases.JumpWords | limbo/compiler/dis.b:252-261 | the words written are the jump table |
| PagedStack.PopUndoesAllocation | src/vm/stack.cpp:209-299 | a pop restores exactly the pages and tops from before the matching allocation |
| PagedStack.AllocatedPushes | src/vm/stack.cpp:209-243 | on the plain stack, allocation pushes |
| PagedStack.PoppedPops | src/vm/stack.cpp:261-299 | on the plain stack, a pop removes the last frame |
| PagedStack.AllocatedKeepsOk | src/vm/stack.cpp:209-243 | frames stay in order inside their pages, pages apart |
| PagedStack.PoppedKeepsOk | src/vm/stack.cpp:261-299 | the same after a pop, and only the single page may be empty |
| PagedStack.FramesNeverOverlap | src/vm/stack.cpp:209-243 | two live frames never share a byte |
| PagedStack.FrameInside | src/vm/stack.cpp:73-90 | a frame lies inside the allocation of its page |
| PagedStack.NewPageIff | src/vm/stack.cpp:209-243 | a page is begun exactly when the top page has a frame and the new one would reach its limit |
| PagedStack.Stack.AllocFrame | src/vm/stack.cpp:209-243 | in place: page and frame headers in memory are those of the abstract pages; a frame that is too large is refused |
| PagedStack.Stack.PushFrame | src/vm/stack.cpp:245-259 | in place: the frame allocated last becomes the top one |
| PagedStack.Stack.PopFrame | src/vm/stack.cpp:261-299 | in place: the address test drops the top page exactly when the frame below is on another one |
| PagedStack.Stack.PopAll | src/vm/stack.cpp:195-207 | popping everything leaves the first page, empty |
| Exceptions.HandlerOfIs | src/vm/vm_exception_handler.cpp:20-75 | the search finds something exactly when some handler covers the pc and has an entry for the exception, or a marker takes the empty one; unless a marker may, it is the first such handler at its first such entry |
| Exceptions.SearchIsExactIff | src/vm/vm_exception_handler.cpp:43-57 | for every table, pc and id the search finds something exactly where a handler can take the exception, unless the id is empty, none can, and a marker covers the pc |
| Exceptions.MarkerIsTaken | src/vm/vm_exception_handler.cpp:43-57 | a table for which the empty exception is taken by a marker |
| Exceptions.NearestHandler | src/vm/vm_exception_handler.cpp:20-75 | the frame found is the nearest that can handle the exception |
| Exceptions.ReturnUndoesCall | src/vm/execution_table.cpp:1468-1562 | after a call and the matching return module and MP are the caller's |
| Exceptions.ReturnsKeepModuleAndMp | src/vm/execution_table.cpp:1740-1761 | any number of returns leaves MP the data of the module register |
| Exceptions.Thread.FindExceptionHandler | src/vm/vm_exception_handler.cpp:20-75 | the walk in place finds the first frame whose module, as plain returns would leave it, takes the exception |
| Exceptions.Thread.Raise | src/vm/execution_table.cpp:1686-1783 | unwinds to exactly the frame the search found, with the registers that plain returns down to it leave, its memory cleared and the exception stored; changes nothing when no frame takes it |
| Exceptions.Thread.CallAndRaise | src/vm/vm_exception_handler.cpp:59-66 | an exception that no handler of a called function takes goes as if the call itself had raised it: a handler of the caller takes it exactly if it covers the pc of the call |
| Exceptions.CallShifts | src/vm/vm_exception_handler.cpp:59-71 | after a call into the same or another module, the search in the frames below is the search from the call, one frame later |
| Exceptions.Thread.Unwind | src/vm/execution_table.cpp:1740-1761 | popping until the target is on top equals that many returns |
| Exceptions.Thread.Ret | src/vm/execution_table.cpp:1468-1490 | one return in place |
| Exceptions.Thread.Call | src/vm/execution_table.cpp:1492-1508 | a call inside a module keeps the registers |
| Exceptions.Thread.MCall | src/vm/execution_table.cpp:1513-1562 | a call into another module leaves the caller's in the frame |
| Utf8.TableIsAutomaton | src/vm/utf8.cpp:20-56 | every table entry is the successor that the grammar of section 4 of RFC 3629 asks for |
| Utf8.AcceptsExactlyRfc3629 | src/vm/utf8.cpp:44-56 | the automaton ends in the accepting state exactly for the byte strings of section 4 of RFC 3629 |
| Utf8.AcceptsPrefix | src/vm/utf8.cpp:44-56 | it stands there exactly at the ends of well-formed prefixes |
| Utf8.DecodeStep | src/vm/utf8.cpp:44-56 | one step of state and code point register |
| Utf8.PrefixIsWellFormed | src/vm/utf8.cpp:58-83 | the prefix that is counted is well formed |
| Utf8.PrefixIsLongest | src/vm/utf8.cpp:58-83 | no longer prefix is |
| Utf8.AcceptsCountChars | src/vm/utf8.cpp:58-83 | the accepting positions number the characters of that prefix, and the last is its end |
| Utf8.CountCodepoints | src/vm/utf8.cpp:58-83 | character count and length of the longest well-formed prefix; when no character starts the input the length is reported as one |
| Utf8.Decode | src/vm/utf8.cpp:85-107 | the first character of a NUL-terminated string, the empty string, or an error |
| Utf8.DecodingUndoesEncoding | src/vm/utf8.cpp:109-145 | encoding gives one character exactly for scalar values, and decoding gives the value back |
| Utf8.EncodingUndoesDecoding | src/vm/utf8.cpp:109-145 | every character is the encoding of its number |
| Utf8.Encode | src/vm/utf8.cpp:109-145 | in place: exactly the bytes of section 3 of RFC 3629 and nothing else; beyond 0x10FFFF nothing and the null pointer |
| Utf8.SysByte2Char | src/vm/sys/Sysmod.cpp:302-338 | a character with its length, an error of one byte exactly when no continuation could help, or an incomplete character |
| Utf8.SysChar2Byte | src/vm/sys/Sysmod.cpp:340-376 | for every word: writes the encoding exactly when it fits, else writes nothing and answers 0; an index out of range throws; a word that is no character number is unsupported |
| Utf8.Byte2CharUndoesChar2Byte | src/vm/sys/Sysmod.cpp:302-376 | what char2byte stored, byte2char reads back, except surrogates |
| Md5.Transform | src/asm/rfc1321/md5c.c:187-275 | the unrolled rounds are the 64 operations of section 3.4 of RFC 1321 |
| Md5.Decode | src/asm/rfc1321/md5c.c:298-310 | little-endian words of a block |
| Md5.Encode | src/asm/rfc1321/md5c.c:280-292 | little-endian bytes of words |
| Md5.FoldAppend | src/asm/rfc1321/md5c.c:116-153 | digesting two pieces of whole blocks is digesting them in turn |
| Md5.Context.Update | src/asm/rfc1321/md5c.c:116-153 | any split of a message: the context stands for the old bytes followed by the new ones; a call goes past its input exactly when buffered and new bytes reach 2^32 |
| Md5.Context.AddCount | src/asm/rfc1321/md5c.c:126-130 | the two-word bit count carries correctly |
| Md5.Context.Final | src/asm/rfc1321/md5c.c:158-183 | the digest is the block function folded over the padded message; the context is wiped |
| Md5.OverrunsIff | src/asm/rfc1321/md5c.c:141-142 | the 32-bit loop test goes past the input exactly when buffered and new bytes reach 2^32 |
| Md5.GuardCanWrap | src/asm/rfc1321/md5c.c:141-142 | two calls for which it does |
| Md5.LeftRotateRotates | limbo/md5sum.b:35-48 | signed shifts with a mask rotate, for every amount that occurs |
| Md5.LimboIndex | limbo/md5sum.b:50-90 | the computed word index is the listed one |
| Md5.Accumulate | limbo/md5sum.b:50-90 | the loop with rotating registers is the same block function as the unrolled C code |
| Md5.PadBlock | limbo/md5sum.b:92-140 | the last one or two blocks are the rest of the message with the padding of sections 3.1 and 3.2 of RFC 1321 |
| Md5.FileDigest | limbo/md5sum.b:156-199 | the bytes printed for a file are the digest that the C code computes |
| Md5Vectors.DigestOfAlphabet | src/asm/rfc1321/md5c.c:187-275 | the digest of the letters a to z is the one in appendix A.5 of RFC 1321, which fixes every constant |

## Left out

- Protocol: one step is one locked section. The random order of an alt is any order; a failed `try_lock` of a non-blocking
  alt is any choice (in the code it fails while a call spends the token, or spuriously). A plain send or receive is a
  blocking alt on one channel.
- Protocol: the channels of one alt are distinct, as the assertion at src/vm/execution_table.cpp:1192 assumes. A nil channel
  breaks the thread, which ends the machine; broken threads, the debugger and shutdown are not modelled.
- Protocol: lock order, condition variables and with them freedom from deadlock and starvation.
- Channels: words stand for the data of any type; reference counts of pointers in transit are not followed.
- TypeMaps: what is a type's pointer is given by its kind; sizes and offsets are those that the layout pass gives out. Sharing
  of equal descriptors is not modelled.
- Collector: a heap is given as a map at each collection and may be any heap before the next; it is not claimed that cycles
  are reclaimed or that everything reachable is marked, only what the code does.
- Scheduling.Execute: an instruction is what it does to the thread state, in eight kinds; pc, memory and the debugger's
  states are not followed. The kinds are all the places of src/vm/execution_table.cpp that write the state.
- RefCount.Machine.New: clears its destination before the release; in the code the stale pointer stays there until it is
  overwritten. Destinations inside arrays, which no reference keeps, are left out with arrays.
- RefCount.Machine.MCall: a frame that keeps a caller's module also keeps the reference to its data in the model; in the
  code that reference has no place of its own. Only `ret` gives it back, so frames are popped by `ret` here.
- RefCount: arrays and slices, channels, strings, `movmp` and `headmp`, allocation failure. What a built-in module does to
  the heap, and exceptions that it throws. One instruction is one step, whatever thread it belongs to.
- Collection.Collect: the heap that is marked is given as a map with the live allocations as its keys; that its pointers
  are the machine's references is not required, since lists have no pointer map to mark through.
- ModuleFormat.Reload: a store outside the module's data writes to other memory in the code; the image is a map that takes
  any address, and `StoredInside` says when there is no such store. Operands that do not fit end the compiler, so they are
  excluded by `requires`. The default element and label expansion of array initialisers are given as the parts they expand
  to; Tcase and Tiface data are words. Signature and `must compile` flags are carried, not interpreted. Descriptor numbers
  out of range and the array assertions that only debug builds check count as failure. The text reader for `.sbl` files is
  not modelled.
- ModuleFormat: exports are compared as a multiset, as the loader's multimap keeps them.
- BoolCompiler: an instruction list is a sequence, so `next` links are positions; operands have no side effects, and the
  code that computes one is a single event. `foldbranch` and the other passes over finished code are not modelled.
- CaseTable: 32-bit selectors only (`casel` and `casec` differ in the comparison); a pick that needs no default; parsing,
  sorting and merging of labels, which `requires` states the result of.
- PagedStack.PopUndoesAllocation: allocating again without a push; sizes and alignment are numbers that the caller gives.
- Exceptions: ids are ASCII, comparison is equality; built-in modules, the debugger, reference counts of the exception.
- Md5.FileDigest: shifts are iterated one-bit shifts; `sys->read` returns whole blocks until the end of the file.
- Left out altogether: module search, file descriptors, formatted printing, floating-point opcodes, the rest of the Limbo
  compiler, the debugger.
