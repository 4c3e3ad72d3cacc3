# Verified model of the secure telemetry gateway

This project models, in Dafny 4.11, the path of a telemetry frame through the gateway: the blocking
MPMC queue with shutdown, the SQLite storage engine, the node that joins callbacks, worker thread
and destructor, the text that is stored, and dotted configuration lookup. `dafny verify
dfyconfig.toml` checks everything.

Concurrent code is modelled as step systems over an unbounded set of threads: a stay under a mutex
is one step, and whatever happens between two stays (a notification, an unlocked flag test) is a step
of its own. Theorems quantify over every run. Objects that the source updates in place are classes
whose methods are proved against functions on values; the step systems use the same functions.
SQLite is reduced to committed rows, an optional open transaction and an oracle that may refuse any
call, so the storage theorems hold for every pattern of faults. Every induction is written out; the
prover's automatic induction is switched off.

| file | contents |
|---|---|
| Wrappers, Tally | optional values; sums of per-thread weights |
| QueueSpec, BlockingQueue, QueueProtocol | `utils::ConcurrentQueue`: sections and histories, the class, all interleavings |
| Numerals, JsonText, PayloadText, Ordering, Frames | six-decimal numbers, JSON strings, the hand-written JSON, stable sorting, frames and rows |
| Sqlite, StorageSpec, Storage, StorageProtocol | the database machine, the engine as a value, as a class, under concurrency |
| BoundedQueue, Ingestion, Pipeline, GatewayNode | `containers::ConcurrentQueue`, parsing and publishing, all interleavings of the node, the node as a class |
| Config | `ConfigManager` |

## What the code does and its documentation does not say

* `insert_telemetry` is documented to return true on success. After a COMMIT (or a ROLLBACK) that
  failed and left its transaction open, an insert is acknowledged into that transaction and is not
  durable. `StorageSpec.LeftOpenExactly` states exactly when a batch leaves its transaction open,
  `StorageProtocol.LostExactly` exactly which acknowledged rows are lost over a run, and
  `StorageSpec.AcknowledgedButLost` is a concrete run that loses one.
* The ready flag is read outside the mutex, so a call can reach its section after `close` has run.
  `StorageProtocol.NullUseIffClosed` states exactly when an insert or batch does. Afterwards no insert
  and no batch succeeds (`StorageProtocol.DeadAcknowledgesNothing`), but a purge that had passed its
  check still answers true: `StorageProtocol.DeadAnswers` states exactly which calls do, and
  `StorageProtocol.ClosedInBetween` gives the runs. In the node it never happens
  (`Pipeline.NoInsertAfterClose`).
* As written, every packet is refused: the node passes (ciphertext, tag, key, iv), the definition of
  `decrypt_aes_gcm` binds (ciphertext, key, iv, tag), so that the 32-byte key arrives as an iv of which
  12 bytes are asked (`src/security/security_engine.cpp:66`). Then nothing is ever parsed, queued or stored
  (`Pipeline.NothingWithoutDecryption`). What follows about the pipeline shows once the order is mended.
* The callback answers true for a frame that the full queue dropped (`Pipeline.DroppedOnFull`), and a
  burst that the worker does not follow fills the queue (`Pipeline.FloodDrops`).
* The payload column reads back as the stored readings exactly for finite numbers and keys that need no
  escaping (`PayloadText.PrinterInvertible`). A key with a quote in it may even print as a valid object
  of other readings (`PayloadText.ForgedReading`).
* `idx_robot_timestamp` compares signed times: its order is that of the frames exactly when each
  robot's timestamps lie on one side of 2^63 (`Frames.IndexOrder`).
* JSON documents of a wrong type, and numbers that no double can hold, leave `parse_and_validate` as
  exceptions it does not catch; array and scalar documents are accepted.
* `navigate_path` is documented to return an undefined node when the path does not exist. It does so
  exactly when only the last segment is missing from a mapping (`Config.NavigateUndefinedExactly`);
  otherwise it returns a default `YAML::Node`, which is a defined null, as for `a.b` in an empty mapping
  (`Config.MissingButDefined`). `get` treats both alike.
* A trailing dot of a configuration path is ignored; an empty segment elsewhere finds nothing in a tree
  whose keys are non-empty and dot-free (`Config.NavigateOverGap`).

## Model

| member | source | states |
|---|---|---|
| QueueProtocol.NoLostWakeups | include/secure_telemetry_gateway/utils/concurrent_queue.hpp:46-115 | in every reachable state without shutdown, if a consumer is parked then the queued items are at most the pushers still owing a notify_one plus the consumers released but not re-checked; likewise free places and producers; with spurious wakeups and timeouts |
| QueueProtocol.Linearizable | include/secure_telemetry_gateway/utils/concurrent_queue.hpp:46-127 | every interleaving is a history of the sequential bounded FIFO queue: accepted items equal delivered items followed by the contents, the capacity is respected, and each finished operation stands in the history with its answer, after its call |
| QueueProtocol.CallsAreAnswered | include/secure_telemetry_gateway/utils/concurrent_queue.hpp:46-127 | in every interleaving a thread is inside the operation it called, and once finished that very operation, with its item and its answer, stands in the history after the call |
| QueueProtocol.FirstStay | include/secure_telemetry_gateway/utils/concurrent_queue.hpp:46-124 | any operation can be called by a thread that is back, and its first stay under the lock waits, refuses, appends, takes the front, gives up or sets the flag exactly when the queue says so |
| QueueProtocol.SpuriousIsHarmless | include/secure_telemetry_gateway/utils/concurrent_queue.hpp:46-115 | a parked thread can always wake spuriously; while its condition is false it ends up waiting again in the very same state |
| QueueProtocol.RealTimeOrder | include/secure_telemetry_gateway/utils/concurrent_queue.hpp:46-127 | an operation called after another one finished comes later in the history |
| QueueProtocol.StuckExactly | include/secure_telemetry_gateway/utils/concurrent_queue.hpp:46-115 | without shutdown a state is at rest if and only if every thread is back, or is an untimed consumer on an empty queue or a producer on a full one; never both kinds when the capacity is positive |
| QueueProtocol.TimedPopReturns | include/secure_telemetry_gateway/utils/concurrent_queue.hpp:97-115 | a parked pop_for can always time out, and then ends with the front item or, on an empty queue, with nothing |
| QueueProtocol.EveryRunSettles | include/secure_telemetry_gateway/utils/concurrent_queue.hpp:46-115 | without shutdown each call pays for at most five steps of the operations and each spurious wakeup or timeout for two, and such a step is enabled if and only if some thread is neither back nor waiting on an empty or full queue for others |
| QueueProtocol.ShutdownTerminates | include/secure_telemetry_gateway/utils/concurrent_queue.hpp:120-127 | once the flag is set nobody parks again, and the number of steps of started operations is bounded by a sum of per-thread ranks that falls at every step |
| QueueProtocol.ShutdownReleasesEveryone | include/secure_telemetry_gateway/utils/concurrent_queue.hpp:120-127 | after the flag some started operation can move until all have returned, and that is when the rank sum is zero |
| QueueProtocol.ShutdownIsPromised | include/secure_telemetry_gateway/utils/concurrent_queue.hpp:120-127 | in every reachable state with the flag set, while anybody is parked on a condition variable some shutdown call still owes the matching notify_all |
| QueueProtocol.DrainsAfterShutdown | include/secure_telemetry_gateway/utils/concurrent_queue.hpp:54-83 | from any reachable state after shutdown no push is accepted and pops deliver exactly the leftover items in order |
| QueueSpec.NothingIsFinal | include/secure_telemetry_gateway/utils/concurrent_queue.hpp:78-80 | an untimed pop answers nullopt only after shutdown with everything delivered, and nothing is accepted or delivered later |
| QueueSpec.NothingMeansEmpty | include/secure_telemetry_gateway/utils/concurrent_queue.hpp:98-107 | pop and pop_for answer nullopt only on an empty queue |
| QueueSpec.Fifo | include/secure_telemetry_gateway/utils/concurrent_queue.hpp:46-127 | every history is bounded and first-in first-out, and the flag is set exactly when a shutdown is in it |
| QueueSpec.ClosedAfterFlag | include/secure_telemetry_gateway/utils/concurrent_queue.hpp:54-56 | no push succeeds after the shutdown flag |
| BlockingQueue.ConcurrentQueue.PushSection | include/secure_telemetry_gateway/utils/concurrent_queue.hpp:46-64 | one stay of push under the lock: it waits exactly when full and open, refuses exactly after shutdown, and otherwise appends; a finished stay is a move of the abstract queue |
| BlockingQueue.ConcurrentQueue.PopSection | include/secure_telemetry_gateway/utils/concurrent_queue.hpp:70-88 | one stay of pop under the lock: it waits exactly when empty and open, answers nullopt exactly when empty after shutdown, and otherwise takes the front item |
| BlockingQueue.ConcurrentQueue.PopForSection | include/secure_telemetry_gateway/utils/concurrent_queue.hpp:97-115 | one stay of pop_for; after a timeout the predicate is evaluated once more, and only an empty queue gives nullopt |
| BlockingQueue.ConcurrentQueue.ShutdownSection | include/secure_telemetry_gateway/utils/concurrent_queue.hpp:120-124 | the flag is set under the lock |
| StorageProtocol.AcknowledgedIsDurable | src/storage/storage_engine.cpp:82-183 | over every run of concurrent calls and every fault pattern the table holds exactly the acknowledged rows whose section found no open transaction; if the answers of the library leave no batch open (StorageSpec.LeavesOpen) these are all acknowledged rows and no transaction is open between calls |
| StorageProtocol.LostExactly | src/storage/storage_engine.cpp:82-183 | over every run the table misses exactly one acknowledged row for each insert acknowledged into an open transaction, and holds them all if and only if there was none |
| StorageProtocol.DurableWithoutRefusal | src/storage/storage_engine.cpp:82-183 | if every failing statement makes SQLite roll back, acknowledged means durable over every run |
| StorageSpec.LeftOpenExactly | src/storage/storage_engine.cpp:135-180 | a batch leaves its transaction open if and only if BEGIN was granted and either all items were and COMMIT was refused, or the first failing item was refused and so was the ROLLBACK after it |
| StorageProtocol.LeaksExactly | src/storage/storage_engine.cpp:172-180 | among all steps of concurrent calls, exactly the sections of such batches leave a transaction open |
| StorageProtocol.FrozenWhileOpen | src/storage/storage_engine.cpp:121-183 | as long as a transaction stays open the committed rows are fixed, whatever is called |
| StorageProtocol.OpenStep | src/storage/storage_engine.cpp:135-140 | with a transaction left open every batch that reaches the lock answers false |
| StorageProtocol.OpenedOnce | src/storage/storage_engine.cpp:17-76 | the database is opened at most once, and whenever the mutex is free the flag is set exactly when connection and statement are non-null |
| StorageProtocol.FlagRisesOnce | src/storage/storage_engine.cpp:28-76 | the ready flag's history is false, then true, then false for good |
| StorageProtocol.DeadStaysDead | src/storage/storage_engine.cpp:209-227 | after a failed init, or a close that followed init, the engine never becomes ready again |
| StorageProtocol.DeadAnswers | src/storage/storage_engine.cpp:82-207 | from then on a call answers true if and only if it is a purge or query that had passed its ready check before |
| StorageProtocol.DeadAcknowledgesNothing | src/storage/storage_engine.cpp:82-183 | from then on no insert or batch succeeds, and the table is fixed |
| StorageProtocol.ClosedInBetween | src/storage/storage_engine.cpp:82-207 | concrete runs in which a close comes between check and section: a purge answers true on the closed engine, an insert uses a null statement |
| StorageProtocol.NullUseIffClosed | src/storage/storage_engine.cpp:85-93 | a call that passed the unlocked ready check uses a null statement or connection if and only if a close took the lock in between |
| StorageProtocol.AloneIsThePublicCall | src/storage/storage_engine.cpp:82-183 | the steps of an uninterrupted insert or batch add up to the public call |
| StorageProtocol.AloneAnswers | src/storage/storage_engine.cpp:23-26 | run alone, init, purge and query answer whether the engine is ready after initialisation, and close is one stay under the lock |
| StorageProtocol.ReadersAnswerTheCheck | src/storage/storage_engine.cpp:185-207 | a purge or query answers whether the engine was ready at its check, whatever other threads do before it takes the lock |
| StorageProtocol.CallsAreKept | src/storage/storage_engine.cpp:82-227 | in every interleaving a thread is inside the call it started |
| StorageSpec.BatchAllOrNothing | src/storage/storage_engine.cpp:121-182 | insert_batch answers true if and only if the whole batch was committed in order, and otherwise not one row was, under every fault pattern; an empty batch answers whether the engine is ready |
| StorageSpec.BatchSucceeds | src/storage/storage_engine.cpp:135-182 | on a ready engine a non-empty batch succeeds if and only if no transaction was left open and BEGIN, every item and COMMIT are granted |
| StorageSpec.InsertDurable | src/storage/storage_engine.cpp:82-119 | an acknowledged single insert is committed if and only if no transaction was left open |
| StorageSpec.AcknowledgedButLost | src/storage/storage_engine.cpp:172-177 | a concrete run in which an acknowledged row is lost |
| StorageSpec.InsertSucceeds | src/storage/storage_engine.cpp:113-118 | on an initialised engine an insert answers true exactly when it is ready and its step is granted |
| StorageSpec.InitSucceeds | src/storage/storage_engine.cpp:28-76 | init succeeds if and only if open, both PRAGMAs, the schema and the prepare do |
| StorageSpec.FailureIsRecorded | src/storage/storage_engine.cpp:28-76 | after the first call init_failed_ says exactly whether initialisation failed |
| StorageSpec.CloseReleases | src/storage/storage_engine.cpp:209-227 | closing releases connection and statement, clears both flags, discards an open transaction and keeps the table |
| StorageSpec.BatchingRefines | src/storage/storage_engine.cpp:82-183 | without faults and without an open transaction a batch leaves the same rows as a loop of single inserts, and two batches the same as their concatenation, on new, ready and closed engines alike |
| Storage.StorageEngine.InitInternal | src/storage/storage_engine.cpp:28-76 | initialisation step by step, with cleanup on every failure |
| Storage.StorageEngine.EnsureInitialized | src/storage/storage_engine.cpp:17-21 | init_internal runs in the first call only |
| Storage.StorageEngine.InsertTelemetry | src/storage/storage_engine.cpp:82-119 | binds the row image of the frame and steps the statement |
| Storage.StorageEngine.InsertItems | src/storage/storage_engine.cpp:142-170 | the batch loop, which stops at the first failing item |
| Storage.StorageEngine.InsertBatch | src/storage/storage_engine.cpp:121-183 | the transaction around the loop; an empty batch is answered by the ready flag alone |
| Storage.StorageEngine.Close | src/storage/storage_engine.cpp:209-227 | statement and connection are released and the flags cleared |
| PayloadText.PrintPayload | src/storage/storage_engine.cpp:95-103 | the printing loop produces the comma-joined object |
| PayloadText.PrinterInvertible | src/storage/storage_engine.cpp:147-155 | an independent reader recovers the readings from the printed text if and only if no key needs escaping and every number is finite |
| PayloadText.PrintsJson | src/storage/storage_engine.cpp:95-103 | with keys that need no escaping the text is a JSON object exactly when every number is finite, and then it is the object of the stored readings |
| PayloadText.ForgedReading | src/storage/storage_engine.cpp:95-103 | the failing input: a key that holds a quoted member prints the text of two readings nobody sent |
| JsonText.UncleanName | src/storage/storage_engine.cpp:100 | a key that needs escaping is never read back as itself by a JSON reader that decodes every escape sequence |
| PayloadText.OrderDoesNotMatter | src/storage/storage_engine.cpp:95-103 | for every iteration order the text of finite numbers means the same map, each number at six decimals |
| Numerals.RoundHalfEven | src/storage/storage_engine.cpp:100 | rounding goes to the nearest millionth, ties to the even one |
| Numerals.RenderShape | src/storage/storage_engine.cpp:100 | the text has a minus exactly for negative numbers, an integer without superfluous zeros, a dot and exactly six digits |
| Numerals.ReadRendered | src/storage/storage_engine.cpp:100 | reading a printed number gives the stored number and consumes nothing more |
| Numerals.ReadDouble | src/storage/storage_engine.cpp:100 | the text of a double starts a JSON number if and only if the double is finite |
| Numerals.StoredError | src/storage/storage_engine.cpp:100 | a stored number is within 0.0000005 of the original |
| Numerals.StoredExact | src/storage/storage_engine.cpp:152 | a number is stored unchanged if and only if it is a whole multiple of one millionth |
| Numerals.StoredMonotone | src/storage/storage_engine.cpp:152 | storing keeps the order of numbers |
| Frames.RowRoundTrip | src/storage/storage_engine.cpp:105-111 | a row decodes to its frame, counters intact over 64 bits and numbers at six decimals, if and only if the texts have no NUL, the keys need no escaping and the numbers are finite |
| Frames.CStrKeeps | src/storage/storage_engine.cpp:105-111 | a bound text is the original up to its first NUL |
| Frames.TimestampOrder | src/storage/storage_engine.cpp:107-108 | the signed column orders two timestamps like the unsigned field if and only if both are on the same side of 2^63 |
| Ordering.SortIsStable | src/storage/storage_engine.cpp:259-260 | the order of an index read: sorted by robot and time, the same elements, equal keys in order of insertion |
| Frames.IndexOrder | src/storage/storage_engine.cpp:259-260 | for every batch, sorting the encoded rows by the index columns gives the encoding of the frames sorted by bound robot name and time, if and only if the timestamps of each bound name all lie below 2^63 or all at or above it; names without a NUL are bound whole |
| Pipeline.PipelineConserves | src/ros/gateway_node.cpp:79-136 | in every interleaving queued frames equal processed frames, then the worker's hand, then the queue; at most 1000 are queued; each processed frame was published; the table grew by exactly the rows of the frames whose insert succeeded, in order |
| Pipeline.EveryFrameAccounted | src/ros/gateway_node.cpp:103-113 | each parsed frame is counted once among queued, dropped, and still held by its callback |
| Pipeline.EveryFrameWasDelivered | src/ros/gateway_node.cpp:97-112 | in every interleaving the parsed frames are, in order, what the delivered packets decode to, and whatever is queued, in the worker's hand or processed is among them |
| Pipeline.EveryRowWasDelivered | src/ros/gateway_node.cpp:97-126 | every row the node adds is the row of a frame that a delivered packet decodes to |
| Pipeline.EveryMessageWasDelivered | src/ros/gateway_node.cpp:97-171 | every message that goes out is that of the document in a delivered packet |
| Pipeline.PacketEndings | src/ros/gateway_node.cpp:97-110 | a packet is answered false exactly when it is not decrypted or is not JSON, raises exactly when the parser cannot hold a number or a member has the wrong type, and otherwise gives a frame |
| Pipeline.DroppedOnFull | src/ros/gateway_node.cpp:112-113 | a frame is dropped exactly when 1000 are queued, and the callback answers true either way |
| Pipeline.FloodDrops | src/ros/gateway_node.cpp:79-114 | when n packets come in before the worker moves, the queue fills up to 1000 and exactly the rest is dropped |
| Pipeline.NoInsertAfterClose | src/ros/gateway_node.cpp:23-36 | no insert of the worker ever uses a null statement, despite the unlocked ready check, although the destructor does release statement and connection |
| Pipeline.NothingWithoutDecryption | src/ros/gateway_node.cpp:97-101 | if decryption refuses every packet, no run parses, queues, processes or publishes anything and the table is fixed |
| Pipeline.AtJoin | src/ros/gateway_node.cpp:23-36 | after the join the hand is empty and the table holds the rows of exactly the processed frames that were stored |
| Pipeline.JoinIsReached | src/ros/gateway_node.cpp:116-136 | once running_ is cleared or ROS stops, the worker exits after at most five steps of its own and completes at most one more frame |
| Pipeline.RunsUntilStopped | src/ros/gateway_node.cpp:16-25 | the loop guard holds in a run exactly until the destructor clears running_ or ROS shuts down |
| Pipeline.DestructorCompletes | src/ros/gateway_node.cpp:23-36 | from every state the destructor can be run to its end within eight steps, worker steps included |
| Pipeline.QueueIsServed | src/ros/gateway_node.cpp:116-136 | while the node runs the worker is alive and a non-empty queue loses its front frame within five of the worker's steps |
| Pipeline.EveryFrameIsServed | src/ros/gateway_node.cpp:116-136 | while the node runs the frame at position k of the queue is processed within 5k + 8 of the worker's steps, at its place in the order |
| GatewayNode.GatewayNode.constructor | src/ros/gateway_node.cpp:8-21 | storage is initialised before the worker may run |
| GatewayNode.GatewayNode.ProcessIncomingRawPayload | src/ros/gateway_node.cpp:79-114 | exactly which packets are answered true, answered false or raise, in terms of decryption and parsing, and the effect on the queue |
| GatewayNode.GatewayNode.WorkerThreadLoop | src/ros/gateway_node.cpp:116-136 | run alone, the loop stores and publishes the first frames of the queue in order, one for each passed guard test |
| GatewayNode.GatewayNode.PublishRosMessages | src/ros/gateway_node.cpp:138-171 | for a frame parsed from a document it publishes exactly the message of that document: topic of its first class member, name of its robot, and the member's number or zero |
| GatewayNode.GatewayNode.Destroy | src/ros/gateway_node.cpp:23-36 | storage is closed and the queue is left as it is |
| GatewayNode.ReachedStep | src/ros/gateway_node.cpp:119-133 | one more pass of the worker stores and publishes one more frame from the front, or changes nothing when there is none |
| GatewayNode.PassIsIterate | src/ros/gateway_node.cpp:119-133 | the worker of the interleaving model, undisturbed for one pass, does what one pass of the loop does |
| BoundedQueue.ConcurrentQueue.Push | include/secure_telemetry_gateway/containers/concurrent_queue.hpp:30-38 | appends, or refuses exactly when full |
| BoundedQueue.ConcurrentQueue.PopInto | include/secure_telemetry_gateway/containers/concurrent_queue.hpp:43-51 | takes the front item, or leaves the output untouched when empty |
| BoundedQueue.ConcurrentQueue.Pop | include/secure_telemetry_gateway/containers/concurrent_queue.hpp:56-64 | takes the front item, or answers nothing when empty |
| Ingestion.ParseAndValidate | src/ingestion/telemetry_ingestion_engine.cpp:7-61 | how each parse ends, uncaught exceptions included, and on success, whatever the output held before, name, class, both counters and the payload as the document has them, with the default for each missing member |
| Ingestion.FrameSays | src/ingestion/telemetry_ingestion_engine.cpp:15-55 | every frame of a document holds the document's own name, class, counters and numeric members, or the defaults |
| Ingestion.PayloadOfOthers | src/ingestion/telemetry_ingestion_engine.cpp:38-44 | documents that are no objects: array items under their positions, a lone number under the empty key, nothing else |
| Ingestion.CollectNumbers | src/ingestion/telemetry_ingestion_engine.cpp:38-44 | the payload map holds exactly the numeric items |
| Ingestion.ProcessPayload | src/ingestion/telemetry_ingestion_engine.cpp:63-75 | QUEUE_FULL exactly for a good document on a full queue; only SUCCESS changes the queue |
| Ingestion.CounterConversion | src/ingestion/telemetry_ingestion_engine.cpp:24-32 | counters keep every number in range up to its fraction, and negative integers modulo 2^64 |
| Ingestion.FrameIsDetermined | src/ingestion/telemetry_ingestion_engine.cpp:11-57 | corollary of Ingestion.ParseAndValidate: two frames of one document and clock agree, and so do their messages, up to the order of the payload map |
| Ingestion.PublishesTheMember | src/ros/gateway_node.cpp:138-171 | the message goes out on the topic of the first class member present in the document and carries that member's number, or zero when it is not numeric |
| Ingestion.ArrayItemsAt | src/ingestion/telemetry_ingestion_engine.cpp:40-44 | an array document yields readings keyed by decimal position |
| Config.ConfigManager.NavigatePath | src/utils/config_manager.cpp:45-58 | the getline loop equals recursive descent on the split path |
| Config.ConfigManager.LoadFile | src/utils/config_manager.cpp:13-38 | a failed load keeps the old tree but marks the manager as not loaded |
| Config.ConfigManager.Get | include/secure_telemetry_gateway/utils/config_manager.hpp:46-64 | for every tree get answers from the flat index of paths, with the default on every missing, null or ill-typed path; in trees of plain keys from the index of dotted paths |
| Config.NavigateIsIndexed | src/utils/config_manager.cpp:45-58 | for every tree and every path the lookup finds a node exactly where the flat index has one at the split path |
| Config.NavigateUndefinedExactly | src/utils/config_manager.cpp:45-58 | the result is an undefined node if and only if the path without its last segment leads to a mapping that lacks that segment; any other path that finds nothing gives a null |
| Config.MissingButDefined | src/utils/config_manager.cpp:51-53 | the failing input: in an empty mapping the path a.b gives a defined null |
| Config.NavigateByDottedPath | src/utils/config_manager.cpp:45-58 | in a tree whose keys are non-empty and dot-free the dotted paths themselves serve as the index |
| Config.NavigateComposes | src/utils/config_manager.cpp:45-58 | lookup of p.q is lookup of q in the result of p, for every tree, every q and every non-empty p without a final dot |
| Config.NavigateOverGap | src/utils/config_manager.cpp:45-58 | for any other p the joined path finds nothing in a tree whose keys are non-empty and dot-free |
| Config.SegmentsOfJoin | src/utils/config_manager.cpp:46-50 | how the getline loop splits a joined path, for all strings |

## Left out

- AES-GCM, random bytes and the rate limiter stub: decryption is an arbitrary partial function, and the limiter always admits.
- The argument order of `decrypt_aes_gcm` is not modelled: the pipeline theorems hold whatever decryption answers.
- `query_telemetry` and `purge_older_than` beyond their ready check: their bodies are stubs.
- SQLite internals, WAL, the filesystem and the schema text: reduced to rows, a transaction and the oracle. A refused COMMIT is taken to have written nothing, and constraint checks are part of the oracle.
- Parsing of JSON and YAML text: documents are values, and a JSON parse may also end in a syntax error or a number overflow.
- StorageSpec.InsertSection: a null statement only answers false, whereas SQLite's default build dereferences the null pointer in sqlite3_clear_bindings; what a run does after such a use (counted in nullUses) is not meaningful.
- StorageProtocol.DeadAnswers: a query's answer is modelled as true or false although both are the same empty list.
- Floating point: finite doubles are exact reals, so negative zero, the rounding of 64-bit integers to double and of the battery percentage to float are not modelled. The conversion of an out-of-range double to uint64_t is an arbitrary function.
- Character encodings: strings are sequences of characters.
- PayloadText.ReadObject: does not read white space between tokens or exponents in numbers, because the printer writes neither.
- PayloadText.PrintsJson: says nothing about keys that need escaping, whose text may or may not be JSON; that it never means the same readings is PayloadText.PrinterInvertible.
- Frames.IndexOrder: SQLite compares the bytes of names, the model their characters.
- Ingestion.CollectNumbers: the iteration order of unordered_map is unspecified; the order in the model is one possible order and no theorem depends on it.
- GatewayNode.GatewayNode.WorkerThreadLoop: the sleep on an empty queue only lets time pass, and the method runs alone; interleavings are in Pipeline.
- Weak memory and object lifetime: steps are sequentially consistent and objects outlive the threads that use them. call_once is one step, so that waiting for another thread's initialisation is not visible.
- Fairness: termination results bound the steps of started operations and show that one can move; that the scheduler lets it move is not stated.
- ROS executors, QoS, message stamps, logging, the dashboard, launch files, the benchmark and mock clients.
- The size and empty accessors of both queues.
