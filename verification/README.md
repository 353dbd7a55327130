# linx-apd: verified model

A Dafny model of the stateful core of the linx-apd host monitor, and proofs about it.
`dafny verify dfyconfig.toml` checks everything.

What is modelled, by file:

- **Thread pool** (`ThreadPool`, `ThreadPoolSafety`, `ThreadPoolTheorems`, `ThreadPoolControl`,
  `ThreadPoolShutdown`, `TaskQueue`). Every
  critical section of the workers, the submitters, pause, resume, terminate and destroy is one
  atomic step of a protocol, with spurious wake-ups; theorems quantify over every finite run
  of any number of workers. `TaskQueue` holds the same sections as methods on the linked list
  in memory, each proved to do what the protocol step says.
- **YAML tree builder and paths** (`YamlMachine`, `YamlRoundTrip`, `YamlErrors`,
  `YamlLoader`, `YamlFree`, `YamlConfig`, `YamlStack`, `YamlPath`, `CText`). The event loop as a machine on values, the same loop as a
  class over nodes with child links, the recursive free, and dotted path lookup with the C
  text routines it uses.
- **Event codec** (`Codec`, `CodecRoundTrip`, `RingBuffer`, `Generator`). The store functions
  on the 65536-byte scratch buffer, as functions and as methods on an array; the generator of
  encoder programs.
- **Event decoding and field names** (`FieldTables`, `EventRich`, `EventEndToEnd`,
  `EventPipeline`).
- **Stores shared by several actors** (`ProcessCache`, `LogQueue`): each critical section one step,
  as functions and as methods on the table and the array. `LogService` joins the log with the
  thread pool it runs in. `Basics` holds what all share.

Where the code and its documentation or intent disagree, the model follows the code. What the
proofs say about such places:

- A pool worker sets its state to RUNNING when it starts (line 40) and so overwrites a
  TERMINATING mark that destroy made earlier. Such a late worker may start any number of queued
  tasks after the marking loop (`AnyNumberMayStart`), and if it is then paused destroy does not
  return until somebody wakes it (`LateWorkerMayBlockDestroy`). `StartsAfterMarking` says
  exactly when the number of further starts is bounded by the workers already past their state
  test, and `DestroyReturnsExactly` exactly when every run that comes to rest has ended with
  destroy's return; both hold whenever every worker had begun before its mark
  (`SettledNonePasses`).
- `task_runing` is one slot for all workers: with two, a running task can miss the stop flag
  (`TwoWorkersMayMissOne`); `DestroyTellsAll` says exactly when none does.
- The YAML loader keeps one `in_sequence` bit for all levels, and never initialises it. A list
  with a scalar after a nested collection does not load faithfully; every other document with
  a collection root and scalar keys does, whatever the bit started with (`LoadRoundTrip`).
  Documents with collections as keys are outside the statement: a node's key is a string.
- A path segment that is not a number never matches inside a sequence: the branch asks the
  sequence, not the item, for the key (`SearchItems`).
- A helper read that fails while the payload position is exactly 32768 scribbles on the header
  of an event that is still accepted (`FullThenFaultIsNotClean`); `RoundTripExactly` shows this
  is the only way to lose bytes in an accepted event. No shipped tail call stores that much.
- `recvfrom_x` stores two parameters where its table declares three, which shifts the names
  (`RecvfromIsShifted`).
- `update_field_base` names a table "fd" that is never registered, so the tables after it are
  never rebound and the function reports failure (`UpdateFieldBase`).
- A negative number as argument of a field path is not refused: `evt.arg.-1` to `evt.arg.-32`
  give slots 31 to 0 of `rawarg`, lower ones other fields or memory outside the record, and a
  number below the range of `long` gives slot 0 of `arg`; the type is read from before the
  event's parameters (`NegativeArgument`, `NegativePathSlot`).
- Cache entries made from an event carry no start time, so the next cleaner pass removes them
  whatever their age (`CleanExactly`); a process that reuses the pid of a dead entry is
  recorded as dead, whether it is read from `/proc` or seen in an event (`ReusedPidStaysDead`);
  `CachedAliveIff` says exactly when a living process is cached as alive.
- The log's consumer in graceful mode can leave behind messages that arrive between its last
  pop and its test of the flag (`MessageMayBeStranded`); `DrainsThenStops` says exactly when.
- Shutting the log down right after it was started can lose every message: its worker is marked
  before it has taken the log's task and leaves without it (`AllMessagesMayBeLost`);
  `MessagesAfterDeinit` says what is written in either case.
- The `filter_pids` loop does not test for more than 64 entries and then writes behind the field
  (`FillPids`).

## Model

| member | source | states |
|---|---|---|
| ThreadPoolSafety.KeepInv | userspace/linx_thread/linx_thread_pool.c:15-123 | Every critical section keeps the invariant: ledger of tasks, who executes what, the running slot, the active counter, and enough awake workers for the queued tasks |
| ThreadPoolTheorems.TasksConserved | userspace/linx_thread/linx_thread_pool.c:64-105 | In every interleaving, submission order is dequeue order, then the queue, then what destroy discarded; no task is dequeued twice; a dequeued task is either completed or in the hands of exactly one worker |
| ThreadPoolTheorems.NoLostWakeup | userspace/linx_thread/linx_thread_pool.c:48-71 | While a worker of an open pool sleeps on the queue, at least as many workers are awake on the way to it as tasks are queued; a worker asleep on its pause condition is still paused |
| ThreadPoolTheorems.ShutdownIsFinal | userspace/linx_thread/linx_thread_pool.c:279-285 | Once shutdown is set it never changes, no submission is accepted, no stop flag changes, and in mode 2 no task is ever started |
| ThreadPoolTheorems.DestroyTellsAll | userspace/linx_thread/linx_thread_pool.c:287-302 | The running slot names no task or one in execution and not freed; destroy tells every uncompleted task to stop if and only if no worker executes a task other than the slot's |
| ThreadPoolTheorems.OneWorkerTellsAll | userspace/linx_thread/linx_thread_pool.c:287-302 | With one worker every uncompleted task carries the shutdown mode in every state after destroy's first section |
| ThreadPoolTheorems.TwoWorkersMayMissOne | userspace/linx_thread/linx_thread_pool.c:287-302 | A run of two workers after which a task in execution has not been told |
| ThreadPoolTheorems.HeldWorkerStartsAtMostOne | userspace/linx_thread/linx_thread_pool.c:45-90 | During an unbroken paused or terminating interval a worker starts at most one task, and none unless it was already past its state test |
| ThreadPoolControl.ControlIsLocal | userspace/linx_thread/linx_thread_pool.c:437-543 | Pausing, resuming and terminating change no other worker, and nothing for an index that names none |
| ThreadPoolControl.TerminateMarks | userspace/linx_thread/linx_thread_pool.c:511-543 | A running or paused worker is put on its way out, and woken if it sleeps on its pause condition |
| ThreadPoolControl.TerminateIsFinal | userspace/linx_thread/linx_thread_pool.c:511-543 | In every continuation a terminated worker stays on its way out, never sleeps on its pause condition, leaves at its next state test, and starts at most one more task |
| ThreadPoolControl.PauseLasts | userspace/linx_thread/linx_thread_pool.c:437-458 | A paused worker stays paused in every run that neither resumes, terminates nor marks it; it starts at most one more task, and its next state test puts it to sleep |
| ThreadPoolControl.ResumeContinues | userspace/linx_thread/linx_thread_pool.c:471-495 | A resumed worker is awake and its next state test lets it pass |
| ThreadPoolControl.PauseThenResume | userspace/linx_thread/linx_thread_pool.c:437-495 | A pause that is lifted at once leaves everything as it was |
| ThreadPoolShutdown.StartsAfterMarking | userspace/linx_thread/linx_thread_pool.c:313-328 | After the marking loop no more tasks start than workers had passed their state test (at most one per worker), whatever happens, if and only if the mode is 2, no more are queued than that, or no worker may still pass the test |
| ThreadPoolShutdown.SettledNonePasses | userspace/linx_thread/linx_thread_pool.c:313-328 | No worker may pass any more if every worker had begun before its mark |
| ThreadPoolShutdown.LateWorkerMayDrain | userspace/linx_thread/linx_thread_pool.c:40-62 | In mode 1 any worker that may still pass the test can take every queued task |
| ThreadPoolShutdown.AnyNumberMayStart | userspace/linx_thread/linx_thread_pool.c:40-62 | For every k there is a run from creation through the marking loop with k tasks queued and none started, after which all k are started |
| ThreadPoolTheorems.DestroyIsBounded | userspace/linx_thread/linx_thread_pool.c:330-352 | After destroy has begun, workers and destroyer together take at most the weight of the state plus the number of pause wake-ups, whatever other threads do |
| ThreadPoolTheorems.DestroyStopsOnlyWhenDone | userspace/linx_thread/linx_thread_pool.c:330-343 | If none of them can step, destroy has returned or joins a worker that began late and was paused afterwards |
| ThreadPoolShutdown.DestroyReturnsExactly | userspace/linx_thread/linx_thread_pool.c:330-352 | After the marking loop every run that comes to rest has ended with destroy's return if and only if no worker may still come to its state test; workers and destroyer take at most the weight of the state in steps, plus the wake-ups when a worker may block, and without them when destroy is sure to return |
| ThreadPoolShutdown.BlockWorker | userspace/linx_thread/linx_thread_pool.c:45-50 | Any worker that may can be brought to sleep on its pause condition while destroy joins |
| ThreadPoolShutdown.BlockedUntilWoken | userspace/linx_thread/linx_thread_pool.c:48-50 | It then sleeps on, and destroy does not return, in every run without a wake-up |
| ThreadPoolTheorems.LateWorkerMayBlockDestroy | userspace/linx_thread/linx_thread_pool.c:40-62 | A run that ends in exactly that blocked state |
| TaskQueue.SharedPool.LinkLast | userspace/linx_thread/linx_thread_pool.c:405-414 | Linking at the tail appends to the list; head, tail, links and size stay in agreement |
| TaskQueue.SharedPool.UnlinkFirst | userspace/linx_thread/linx_thread_pool.c:81-87 | Unlinking the head removes the first task |
| TaskQueue.SharedPool.AddTask | userspace/linx_thread/linx_thread_pool.c:372-425 | Accepted exactly when open and memory suffices; then the memory stands for the protocol's next state |
| TaskQueue.SharedPool.TakeTask | userspace/linx_thread/linx_thread_pool.c:64-96 | Waits, leaves or dequeues as the protocol step does; the branch for a missing task is unreachable |
| TaskQueue.SharedPool.FinishTask | userspace/linx_thread/linx_thread_pool.c:98-105 | Clears the running slot as the protocol step does |
| TaskQueue.SharedPool.BeginDestroy | userspace/linx_thread/linx_thread_pool.c:263-302 | Refused if already shut down; else the mode is written to every queued task and to the slot's task |
| TaskQueue.SharedPool.DrainQueue | userspace/linx_thread/linx_thread_pool.c:348-352 | Frees exactly the discarded tasks, in order |
| YamlRoundTrip.LoadRoundTrip | userspace/linx_yaml/linx_yaml_load.c:98-225 | Loading the events of a document with a collection root always ends with a finished root and no error; the root is the document, with nothing pending, if and only if no list in it has a scalar after a nested collection, whatever the bit started with |
| YamlRoundTrip.MixedListIsLost | userspace/linx_yaml/linx_yaml_load.c:165-209 | A list of an empty mapping and a scalar is such a document |
| YamlMachine.EndAddsOne | userspace/linx_yaml/linx_yaml_load.c:213-225 | Closing a collection adds exactly one child below, and leaves the pending key and the bit as the code does |
| YamlErrors.ErrorIff | userspace/linx_yaml/linx_yaml_load.c:74-81 | A run ends in an error if and only if, before the first end of the stream, there is a parser failure or an end that exceeds the starts before it |
| YamlErrors.RootIff | userspace/linx_yaml/linx_yaml_load.c:112-123 | Without an error there is a root if and only if a collection is started before the stream ends |
| YamlErrors.NothingAfterEnd | userspace/linx_yaml/linx_yaml_load.c:88-91 | Events behind the end of the stream do not count |
| YamlErrors.QuietEventsDropOut | userspace/linx_yaml/linx_yaml_load.c:85-97 | Starts of stream and document, document ends and events of other kinds can be left out anywhere |
| YamlLoader.Loader.StartCollection | userspace/linx_yaml/linx_yaml_load.c:98-159 | The node links stand for the machine's next state, and every stack entry stays the last child of the one below |
| YamlLoader.Loader.AddText | userspace/linx_yaml/linx_yaml_load.c:160-212 | Item, value or key by the same three branches |
| YamlLoader.Loader.EndCollection | userspace/linx_yaml/linx_yaml_load.c:213-225 | Pops, or records the error of an empty stack |
| YamlLoader.Loader.Load | userspace/linx_yaml/linx_yaml_load.c:74-231 | For every event stream whatsoever the linked nodes stand for the machine's run, and stay a forest whose stack is one line of last children |
| YamlLoader.ChildOnStack | userspace/linx_yaml/linx_yaml_load.c:113-127 | A child link leads onto the stack only from the entry below, as its last child |
| YamlConfig.LoadConfig | userspace/linx_yaml/linx_yaml_load.c:39-248 | There is a tree if and only if a collection is started and neither a parser failure nor a surplus end comes before the end of the stream; after one of those every node under the root is released exactly once; else the tree is the root, as far as it was filled; for the events of a document, the document if and only if it is in the class |
| YamlFree.OneParent | userspace/linx_yaml/linx_yaml_node.c:90-116 | No node is linked from two places |
| YamlFree.Free | userspace/linx_yaml/linx_yaml_node.c:49-79 | The recursive free terminates and releases the nodes in the order that the two following rows are about |
| YamlFree.FreeReleasesEachOnce | userspace/linx_yaml/linx_yaml_node.c:49-79 | It releases exactly the nodes below its argument, each once |
| YamlFree.ReleasesChildrenFirst | userspace/linx_yaml/linx_yaml_node.c:65-78 | No node is released before one of its children |
| YamlStack.NodeArray.Push | userspace/linx_yaml/linx_yaml_stack.c:81-102 | Appends, doubling when full; fails, changing nothing, only when growth is needed and there is no memory |
| YamlStack.NodeArray.Pop | userspace/linx_yaml/linx_yaml_stack.c:104-111 | Removes the last entry, or nothing from an empty stack |
| YamlStack.NodeArray.Top | userspace/linx_yaml/linx_yaml_stack.c:113-120 | The last entry, if any |
| YamlStack.NodeArray.At | userspace/linx_yaml/linx_yaml_node.c:160-171 | The child at an index in range, else none |
| YamlPath.FindByKey | userspace/linx_yaml/linx_yaml_node.c:128-144 | In a mapping the first child that carries the key, and nothing if and only if none does; nothing in other nodes |
| YamlPath.SearchItems | userspace/linx_yaml/linx_yaml_get.c:44-58 | The branch for a non-numeric segment in a sequence never finds anything |
| YamlPath.GetNodeByPath | userspace/linx_yaml/linx_yaml_get.c:16-72 | The token loop computes the path's recursive meaning |
| YamlPath.PathsCompose | userspace/linx_yaml/linx_yaml_get.c:16-72 | For all strings p and q, looking up p.q is looking up q from the result of p |
| YamlPath.MappingAnswers | userspace/linx_yaml/linx_yaml_get.c:32-34 | In a mapping a word answers the first child that carries it, and nothing if and only if no child does |
| YamlPath.SequenceAnswers | userspace/linx_yaml/linx_yaml_get.c:36-58 | In a sequence a word answers the child at the whole number it is, and nothing if it is none in range |
| YamlPath.PrintedIndexAnswers | userspace/linx_yaml/linx_yaml_get.c:36-43 | A printed int answers the child at that index, and nothing out of range |
| YamlPath.ScalarAnswers | userspace/linx_yaml/linx_yaml_get.c:60-63 | Nothing lies below a scalar |
| YamlPath.IntAnswers | userspace/linx_yaml/linx_yaml_get.c:110-128 | The fallback for a missing node, a collection and a scalar that is no whole number; else the number |
| YamlPath.OwnPathFindsNode | userspace/linx_yaml/linx_yaml_get.c:16-72 | With usable, unique keys every node is found by its own path, segments joined by dots, decimal indices included |
| YamlPath.LoadThenFind | userspace/linx_yaml/linx_yaml_load.c:98-225 | A faithfully loaded document answers every printed path with its own part |
| YamlPath.FillPids | userspace/linx_config/linx_config.c:98-103 | As many words are filled as the sequence at the path has children, each with the configured number modulo 2^32; with at most 64 entries nothing behind the field changes, with more the further words are overwritten by the rest |
| YamlPath.PidOfOther | userspace/linx_config/linx_config.c:98-103 | A configured entry that is no whole number counts as 0 |
| YamlPath.NumberRead | userspace/linx_yaml/linx_yaml_get.c:110-128 | A printed number in the int range is read back as that number |
| CText.NextToken | userspace/linx_yaml/linx_yaml_get.c:24-67 | One tokenising call yields the first remaining dot-free piece and leaves the others |
| CText.TokensJoin | userspace/linx_yaml/linx_yaml_get.c:24-67 | The pieces of p.q are the pieces of p and then those of q |
| CText.StrtolOfPrinted | userspace/linx_yaml/linx_yaml_get.c:37-43 | Reading a printed number consumes it whole and gives it back, clamped to the range of long |
| CText.StrtolReads | userspace/linx_yaml/linx_yaml_get.c:37-43 | Blanks, an optional sign and digits give the signed value of the digits, clamped, up to the first other character |
| CText.StrtolReadsNothing | userspace/linx_yaml/linx_yaml_get.c:37-43 | Without a digit there nothing is consumed |
| CText.DecimalForm | userspace/linx_config/linx_config.c:100 | A printed number has no leading zeros and the value it was printed from |
| CText.ToIntIs | userspace/linx_yaml/linx_yaml_get.c:42 | The narrowing to int keeps the number modulo 2^32 |
| CodecRoundTrip.MaskedWritesFit | kernel/ebpf/include/ringbuf_func.h:29-35 | Writes of a given length stay inside the scratch buffer at every position if and only if the length is at most 32769 |
| CodecRoundTrip.ExecAllPos | kernel/ebpf/include/ringbuf_func.h:31-44 | The payload position always is where it started plus the sizes stored, even when writes wrapped |
| CodecRoundTrip.DroppedIff | kernel/ebpf/include/ringbuf_func.h:291-304 | Submit drops an event exactly when header and payloads together exceed the maximum |
| CodecRoundTrip.StoreContributes | kernel/ebpf/include/ringbuf_func.h:306-546 | What each kind of store contributes, case by case: null, failed and empty reads, the smaller of two lengths with a final NUL for arrays, the order of both ends for connections |
| Codec.EventLayout | include/linx_event.h:6-25 | The offsets used for the header are where C puts its members |
| CodecRoundTrip.ExecEffect | kernel/ebpf/include/ringbuf_func.h:306-466 | A store that fits adds its size to the table and its payload, NUL patch included, at the position and changes nothing earlier |
| CodecRoundTrip.RoundTrip | kernel/ebpf/include/ringbuf_func.h:291-466 | In an accepted event of at most 32 stores the slice the decoder computes for parameter i is exactly what store i contributed; the size field is the length; the earlier header is untouched |
| CodecRoundTrip.RoundTripExactly | kernel/ebpf/include/ringbuf_func.h:351-452 | That holds for every previous content of the buffer if and only if no read fails with the position at the maximum |
| CodecRoundTrip.FullThenFaultIsNotClean | kernel/ebpf/include/ringbuf_func.h:351-406 | A program that fills the event and then has a read fail is accepted with its first header byte overwritten |
| CodecRoundTrip.EventArrives | kernel/ebpf/include/ringbuf_func.h:263-304 | The event also carries the header that was loaded, field by field, both packed identifiers split as the code splits them |
| RingBuffer.Ringbuf.LoadEvent | kernel/ebpf/include/ringbuf_func.h:263-289 | Writes the header fields in place and resets the cursors |
| RingBuffer.Ringbuf.SubmitEvent | kernel/ebpf/include/ringbuf_func.h:291-304 | Drops, changing nothing, or records the size and emits exactly the used prefix |
| RingBuffer.Ringbuf.StoreCharPointer | kernel/ebpf/include/ringbuf_func.h:351-429 | Null, failed, empty and ordinary text, in place, as the value form of a store |
| RingBuffer.Ringbuf.StoreByteBuf | kernel/ebpf/include/ringbuf_func.h:382-452 | Null, zero length, failed and ordinary buffers likewise |
| RingBuffer.Ringbuf.StoreCharArray | kernel/ebpf/include/ringbuf_func.h:454-466 | Caps the length, stores the buffer, and replaces its last byte by NUL if any was stored |
| RingBuffer.Ringbuf.StoreSockTuple | kernel/ebpf/include/ringbuf_func.h:468-546 | Family and both ends in the order the direction asks for, or an empty parameter |
| RingBuffer.Ringbuf.Emit | kernel/ebpf/tail_calls/059-execve.bpf.c:23-80 | A whole program on the array emits what the value form submits |
| RingBuffer.ArraySteps | kernel/ebpf/include/ringbuf_func.h:454-466 | Storing an array is storing a buffer and then patching, exactly when something was stored |
| Generator.ParseEnterParams | scripts/generate_bpf_files.py:153-167 | The loop returns the pairs of stripped comma-separated items, dropping an odd last one |
| Generator.ParseOfPrint | scripts/generate_bpf_files.py:153-167 | Parsing a printed parameter list returns it if and only if every type and name is comma-free and stripped |
| Generator.ItemsArePieces | scripts/generate_bpf_files.py:154-155 | Whatever stands between the commas, there is one item per piece, and it is the piece stripped |
| Generator.StripPadded | scripts/generate_bpf_files.py:155 | Blanks around an item do not count |
| Generator.TypeMapFits | scripts/generate_bpf_files.py:17-75 | For every C type the cast width equals the width the chosen store function writes |
| Generator.TypeMapIsC | scripts/generate_bpf_files.py:17-75 | Text types are stored as text, listed pointers at their pointee's size, plain types at theirs, all others as a full register |
| Generator.PointerByAddress | scripts/generate_bpf_files.py:102-105 | A pointer type without an entry is stored as a 64-bit address |
| Generator.GenerateStores | scripts/generate_bpf_files.py:77-114 | One block per parameter, in order, block i reading register i under the type map |
| Generator.Truncated | kernel/ebpf/include/ringbuf_func.h:31-35 | A register stored in a C width reads back modulo that width |
| Generator.GeneratedEventsArrive | scripts/generate_bpf_files.py:77-151 | A generated program is never dropped (at most 4112 + 6 * 4096 bytes for six parameters); parameter i of its event is, by its C type alone, the text at register i, what a pointer in register i points at, or register i cut to the type's size; with the loaded header |
| FieldTables.HashMap.CreateTable | userspace/linx_hash_map/linx_hash_map.c:67-92 | Refused, changing nothing, when the table exists or memory is missing |
| FieldTables.HashMap.AddField | userspace/linx_hash_map/linx_hash_map.c:113-145 | Refused for a missing table, a known field or missing memory |
| FieldTables.HashMap.AddFieldBatch | userspace/linx_hash_map/linx_hash_map.c:147-168 | Succeeds exactly for a new table, distinct names and enough memory; else leaves the longest prefix without a repetition or a failed allocation |
| FieldTables.FieldsOfDistinct | userspace/linx_hash_map/linx_hash_map.c:170-200 | After a successful batch every mapping is found unchanged |
| FieldTables.HashMap.UpdateTablesBase | userspace/linx_hash_map/linx_hash_map.c:294-310 | Rebinds exactly the tables listed before the first missing name; reports success only if none is missing |
| FieldTables.HashMap.GetFieldByPath | userspace/linx_hash_map/linx_hash_map.c:202-234 | Table, field and argument are the first three words of the path |
| FieldTables.HashMap.GetValuePtr | userspace/linx_hash_map/linx_hash_map.c:236-274 | A whole number selects that place, negative ones included and wrapping at 64 bits; any other argument the least parameter of that name; none for an index past the parameters |
| FieldTables.PathAnswersNothing | userspace/linx_hash_map/linx_hash_map.c:202-264 | No answer for too short a path, an unknown table or field, or an unbound table; else none if and only if the argument is an index or a name past the parameters |
| FieldTables.NumberOrName | userspace/linx_hash_map/linx_hash_map.c:249-268 | A parameter is reached by its position and by its first-occurring, non-numeric name alike |
| EventRich.EvtMappingsBind | userspace/linx_event_rich/linx_event_rich.c:29-53 | The event fields bind without a clash, and both slot arrays are found at their offsets |
| EventEndToEnd.SlotShows | userspace/linx_event_rich/linx_event_rich.c:111-136 | For an encoded event the slot of a user or process parameter is the name of the number stored for it, or "unknown"; every other slot points at exactly the bytes stored |
| EventRich.EventRecord.FillSlots | userspace/linx_event_rich/linx_event_rich.c:104-140 | Slot i of both arrays holds the decoding of parameter i at the 64-bit sum of the sizes before it; later slots keep their old content |
| EventRich.EventRecord.CleanSlots | userspace/linx_event_rich/linx_event_rich.c:89-102 | Clears exactly the slots that the new event fills with names |
| EventRich.EventRecord.Enrich | userspace/linx_event_rich/linx_event_rich.c:173-227 | One event: type, name, direction, signed result and failure flag, all slots, and the rebinding |
| EventRich.EventRecord.UpdateFieldBase | userspace/linx_event_rich/linx_event_rich.c:16-27 | The event table is bound; without a table "fd" nothing else changes and failure is reported; with all five tables each is bound to its own structure |
| EventEndToEnd.PathDesignatesSlot | userspace/linx_hash_map/linx_hash_map.c:202-274 | evt.arg.X and evt.rawarg.X resolve to slot i when X means parameter i, and to nothing past the table |
| EventEndToEnd.FieldPathDesignatesMember | userspace/linx_event_rich/linx_event_rich.c:29-53 | For each of the ten fields, evt.F leads to where C puts member F of the record, with its registered type |
| EventEndToEnd.IndexLands | userspace/linx_hash_map/linx_hash_map.c:262-267 | For every index below the parameter count, which slot of which array its address falls on, and whether it stays in the record, for both arrays |
| EventEndToEnd.NegativeArgument | userspace/linx_hash_map/linx_hash_map.c:249-268 | A negative number is resolved to exactly those places, with a type that is none of this event's parameters |
| EventEndToEnd.NegativePathSlot | userspace/linx_hash_map/linx_hash_map.c:202-274 | The paths evt.arg.-1 to evt.arg.-32 lead to slots 31 to 0 of rawarg, numbers below the range of long to slot 0 of arg |
| EventEndToEnd.Located | userspace/linx_event_rich/linx_event_rich.c:104-140 | The decoder's position for parameter i is where the encoder put store i, and the sum does not wrap |
| EventEndToEnd.ArgumentReachesStore | userspace/linx_event_rich/linx_event_rich.c:173-227 | The event type survives; once the event is decoded and the path looked up, the pointer is to slot i with its type, and the slot shows the bytes stored for parameter i, or the name they stand for |
| EventPipeline.Bind | userspace/linx_event_rich/linx_event_rich.c:166-171 | Initialisation succeeds exactly with memory for all of it; then the event fields are registered, and in any case no other table is |
| EventPipeline.Deliver | userspace/linx_event_rich/linx_event_rich.c:173-227 | End to end through the code's own steps, for one event after another: from conditions on program, table and path alone, encoding, decoding and looking up the path give parameter i its type and show what store i contributed; the record has the event's type, name and direction, and its result as the signed number the system call returned, with failure if and only if it is not 0; without a table "fd" failure is reported all the same |
| EventEndToEnd.UnstoredIsPastEnd | userspace/linx_event_rich/linx_event_rich.c:104-140 | For every program that stores less than the table declares, the first parameter not stored points past the end of the event |
| EventEndToEnd.RecvfromIsShifted | kernel/ebpf/tail_calls/045-recvfrom.bpf.c:39-56 | With two stores against three declared parameters, "data" shows the socket tuple and "tuple" points past the event |
| ProcessCache.StepKeepsInv | userspace/linx_process_cache/linx_process_cache.c:262-332 | Every section keeps: key is pid, dead exactly when an exit time is set; and changes a kept entry only as its life cycle allows |
| ProcessCache.RunKeepsInv | userspace/linx_process_cache/linx_process_cache.c:246-587 | So every reachable cache has these properties |
| ProcessCache.LifeCycle | userspace/linx_process_cache/linx_process_cache.c:262-332 | Over any run, while a pid stays cached its creation time is constant, it never comes back to life, and its exit time is set once |
| ProcessCache.MonitorMarks | userspace/linx_process_cache/linx_process_cache.c:320-326 | A monitor pass makes exactly the plain living entries whose process is gone dead and Exited, with its own clock as exit time, and changes nothing else |
| ProcessCache.DeathsAreMarked | userspace/linx_process_cache/linx_process_cache.c:320-326 | In every run from the empty cache, the exit time of a dead entry is the clock of a monitor pass of the run that found it alive and gone, and it has been dead ever since |
| ProcessCache.DeleteExactly | userspace/linx_process_cache/linx_process_cache.c:568-587 | Deletion removes the entry of that pid and nothing else |
| ProcessCache.CleanupExactly | userspace/linx_process_cache/linx_process_cache.c:589-616 | Cleanup keeps, unchanged, exactly the living and those dead for at most 20 seconds |
| ProcessCache.CleanExactly | userspace/linx_process_cache/linx_process_cache.c:345-359 | A cleaner pass keeps, unchanged, exactly the entries not made from an event that are alive or died at most 20 seconds ago |
| ProcessCache.CleanupIsWeaker | userspace/linx_process_cache/linx_process_cache.c:589-616 | Cleanup at the same instant removes no more than the cleaner, and does not change what the cleaner then leaves |
| ProcessCache.DeadAreRetained | userspace/linx_process_cache/linx_process_cache.c:345-359 | A dead entry survives every run that neither deletes it, remakes it from an event, nor cleans after its 20 seconds |
| ProcessCache.DeadAreRemoved | userspace/linx_process_cache/linx_process_cache.c:345-359 | Either remover takes it as soon as they have passed |
| ProcessCache.CachedAliveIff | userspace/linx_process_cache/linx_process_cache.c:549-558 | A process just read as living, from /proc or an event, is cached as alive if and only if its pid was not cached as dead; else it takes over the old death; it keeps an old creation time, is new in all else, and no other entry changes |
| ProcessCache.ReusedPidStaysDead | userspace/linx_process_cache/linx_process_cache.c:262-274 | For either path, a run from the empty cache that ends with a living process cached as dead |
| ProcessCache.ProcessTable.Update | userspace/linx_process_cache/linx_process_cache.c:535-566 | Replaces the entry, keeping creation time and death |
| ProcessCache.ProcessTable.UpdateTask | userspace/linx_process_cache/linx_process_cache.c:246-282 | Does nothing when told to stop or when the process cannot be read |
| ProcessCache.ProcessTable.MarkDead | userspace/linx_process_cache/linx_process_cache.c:316-328 | The loop marks exactly the living plain entries whose process is gone |
| ProcessCache.ProcessTable.CleanExpired | userspace/linx_process_cache/linx_process_cache.c:345-361 | The loop removes exactly the expired entries |
| ProcessCache.ProcessTable.CleanDead | userspace/linx_process_cache/linx_process_cache.c:589-616 | Removes exactly the dead and expired; the result is how much the cache shrank |
| ProcessCache.ProcessTable.Stats | userspace/linx_process_cache/linx_process_cache.c:618-662 | Counts all, living and dead entries; total is their sum |
| ProcessCache.ProcessTable.GetAll | userspace/linx_process_cache/linx_process_cache.c:464-496 | A copy of every entry, each once |
| LogQueue.LogRuns | userspace/linx_log/linx_log.c:146-191 | In every interleaving: size within capacity, capacity 0 or 16 doubled; accepted messages are those written, then the one in hand, then the queue; at most one popped message is never written, and none after a graceful exit |
| LogQueue.GracefulExit | userspace/linx_log/linx_log.c:146-191 | After a graceful exit the written messages are exactly, in order, those the run accepted before the consumer's last pop |
| LogQueue.AcceptedIsHistory | userspace/linx_log/linx_log.c:57-92 | The accepted messages are those of the run's submissions that pass level and memory |
| LogQueue.FilterByLevel | userspace/linx_log/linx_log.c:338-373 | With memory, exactly the messages at or above the level, in order |
| LogQueue.SubmitExactly | userspace/linx_log/linx_log.c:57-92 | A message is dropped if and only if its level is too low or the queue is full without memory to grow; else it is last, and the queue grows to 16 or double when full and only then |
| LogQueue.ForcedStops | userspace/linx_log/linx_log.c:162-187 | Told to stop at once, the consumer stops after at most three steps and writes at most the message for which it had passed its first test |
| LogQueue.DrainsThenStops | userspace/linx_log/linx_log.c:162-187 | Stopped gracefully and left alone the consumer stops after an exact number of steps, having written everything if and only if nothing arrived behind a pop that had found the queue empty |
| LogQueue.MessageMayBeStranded | userspace/linx_log/linx_log.c:162-187 | A run from the start in which an accepted message is never written |
| LogService.StepKeepsInv | userspace/linx_log/linx_log.c:261-272 | Pool and log joined: the loop's flag is the task's, the loop runs only inside the task, the task ends only when the loop has |
| LogService.MessagesAfterDeinit | userspace/linx_log/linx_log.c:290-323 | After deinitialisation, in every interleaving: the loop has ended if and only if the log's task was dequeued; then, gracefully, exactly the messages accepted by the last pop are written; otherwise none is |
| LogService.AllMessagesMayBeLost | userspace/linx_log/linx_log.c:290-323 | A run in which a graceful deinitialisation loses an accepted message because the task is never dequeued |
| LogQueue.Queue.Push | userspace/linx_log/linx_log.c:57-92 | Appends, growing to 16 or double; without memory for that the message is dropped |
| LogQueue.Queue.LogMessage | userspace/linx_log/linx_log.c:338-350 | Messages below the level change nothing |
| LogQueue.Queue.PopMessage | userspace/linx_log/linx_log.c:103-132 | Removes the first message; the shifting loop keeps the rest in order |

## Left out

- Slot look-up of a new worker (userspace/linx_thread/linx_thread_pool.c:24-36) can race with the creating loop; each worker is taken to find its slot.
- `task_runing` is never set at creation; it is taken to start empty.
- TaskQueue.SharedPool.FinishTask: the release of the task's memory shows only in the protocol, as completion.
- Failures of thread creation and of the mutex and condition calls; reading thread state, queue size and active threads.
- Task functions themselves: a task runs between two steps and returns, or does not; that it returns is what `DestroyIsBounded` measures.
- YamlLoader.Loader.StartCollection: no failing allocation; the source then sets the error flag and ends the loop, which is the effect of a parse failure here.
- YamlLoader.Loader.AddText: no failing allocation, in the same way.
- YamlLoader.Loader.Load: keeps the stack and the child lists as sequences; their growing arrays are `YamlStack`, on their own.
- libyaml's scanner: the events of a document are taken from section 3.2.2 of the YAML 1.1 specification; aliases and several documents in one stream are only covered by the results about arbitrary event streams.
- `linx_yaml_get_bool`, the `filter_comms` loop and the other fixed configuration keys: one branch each.
- YamlPath.FillPids: what lies behind the field is taken as words, as far as the loop writes.
- C strings are NUL-free sequences of characters; `strtol` is modelled with its clamping, `%d` without locale.
- CodecRoundTrip.RoundTrip: the payload position is a natural number, so a 64-bit wrap of it is not modelled; it would take more than 2^48 stores of the greatest length.
- RingBuffer.Ringbuf.StoreCharPointer: limits above 32769 bytes are excluded, as such a write can leave the buffer (`MaskedWritesFit`); the tail calls ask for at most 4096.
- RingBuffer.Ringbuf.StoreByteBuf: lengths above 32769 are excluded for the same reason.
- RingBuffer.Ringbuf.StoreCharArray: capped lengths above 32769 are excluded for the same reason.
- RingBuffer.Ringbuf.StoreSockTuple: takes addresses and ports as already read from the socket or the user's address and converted to host order.
- eBPF helpers, task, file and socket walking: a read is any bytes within its limit, or a fault that may leave any bytes behind; the command line in the header is given.
- The handwritten tail calls, except through lists of stores; the event, system call and macro tables as data.
- Parts of the generator around the store calls: regular expression over the macro header, file names, comments and variable names in the emitted text.
- EventRich.EventRecord.CleanSlots: clears the slots as the code does, by the new event's type, but not the ownership of the freed texts.
- EventRich.EventRecord.Enrich: requires that user and process parameters lie within the event and that the type is in the table, as the code reads both unchecked; `IdsReadable` proves the first for encoded events. The formatted time and the cache update of `rich_execve_exit` are not in it; that update is `Enrich` of `ProcessCache`.
- FieldTables.HashMap.GetValuePtr: for a negative index the type is left open; the source reads it from what lies before the event's parameters in the table.
- EventEndToEnd.NegativeArgument: leaves that type open in the same way.
- Removing and listing field tables; a failing copy of a table's name, which the source does not test for.
- ProcessCache.ProcessTable.GetAll: the order of the copy, which is the hash table's.
- Reading `/proc`; `linx_process_cache_get` for an uncached pid, which reads `/proc` and does not change the cache; calls before the cache exists.
- Formatting of log lines and the file they go to; the failures of `linx_log_init`, and messages that arrive while `linx_log_deinit` frees the queue.
- The rule engine: its lexer rests on a foreign regular expression library.
- Event processor, event queue, alert outputs, signals and command line.
