# A model of the skynet runtime and the C libraries built with it

This project models the parts of the repository whose correctness rests on an argument that no single
function shows, and proves that argument. Each module is one component; all files are verified together
(`dafny verify dfyconfig.toml`).

| module | component | main results |
|---|---|---|
| `TimerWheel` | hierarchical timer wheel, `skynet_timer.c` | `Run`: over every run, wrap of the 32-bit clock included, every request fires exactly once, in the tick in which its delay has elapsed, in request order. `ShiftLayout`: after every tick each node is in the list that `add_node` would choose now |
| `SendLists`, `SendProtocol` | TCP send path, `socket_server.c` | `IntegrityHolds`: bytes of different packets never interleave, for any partial writes and any interleaving of threads. `OrderHolds`: over every interleaving one sender's high-priority packets stay in the order of submission, because of the double check and of a counter that drops only after the append; `LowOrderHolds`: so do its low-priority packets. `EverythingLeaves`: whatever was submitted gets on the wire once the kernel accepts it |
| `MessageQueue`, `Scheduler` | message queues, run queue, contexts: `skynet_mq.c`, `skynet_server.c`, `skynet_handle.c` | in every reachable state: one owner per queue, no lost wake-up, context lifetime. `SentIsKept`: everything sent is dispatched, dropped with an answer, or queued, in order. `EachInTurn`: every queue gets its turn |
| `Stm` | `rwlock.h` and `lua-stm.c` | exclusion for any number of threads; a copy's count is its holders and it is freed exactly when it has none; the current copy is the one stored last, and `NeverOlder`: a read begun after an update has returned never delivers an older copy |
| `PerfectHash` | `perfect.c` | `FindHash`: from the keys to an injective hash below the table size; a failed `apply` restores every table exactly, and a failed search is exhausted |
| `Bignum`, `Dtoa` | `dtoa.c` | exact big-integer arithmetic; `Quorem` needs one correction at most; `Convert` gives the round-half-even decimal |
| `Seri` | `lua-seri.c` | unpacking what was packed gives the same values, across blocks, widths and nesting; no shorter format is read as them |
| `Netpack` | `lua-netpack.c` | framing does not depend on how the streams are cut into chunks or interleaved |
| `Handle` | `skynet_handle.c` | slot table and sorted name array refine finite maps; `Serve`: no handle comes again before the index has gone round |
| `SpMap` | pbc `map.c` | coalesced hash map refines a finite map; iteration visits each entry once |
| `Des`, `DesFips` | DES of `lua-crypt.c` | decryption undoes encryption for every key and text; the cipher is that of FIPS 46-3 |
| `Dh` | Diffie-Hellman arithmetic of `lua-crypt.c` | products and powers modulo P, both sides' secrets are equal |
| `Prelude` | | options, bytes and powers, shared by the others |

Concurrency is modelled as a state machine: a run is any sequence of events, each naming the thread that
moves; every load, store, atomic operation or region under a lock is one step, under sequential consistency.
Properties of whole runs are lemmas over `After(n, events)` for all `n` and all event sequences.

Four properties turned out to hold on all inputs but some, and are stated exactly.

* `powmodp(P, 1)` returns P instead of 0, because `a > P` lets P itself through. `PowMod64` is right on all
  other arguments.
* In the DES decoder the scan for the padding compares a signed index with an unsigned bound. The model gives a
  read in front of the buffer the outcome `OutOfBounds`; `DesDecode` has it if and only if the data is a single
  block that decrypts to eight zeros. `ZeroBlockDecrypts` gives such a block for every key, and
  `ZeroBlockIsNoText` shows that `ldesencode` never produces it.
* The creator of a service goes on using the context after it has dropped its own reference: it stores to
  `ctx->init`, passes the pointer to `skynet_error` for the log line after the queue has been listed, and
  returns it to `cmd_launch`, which reads `inst->handle`. `CreatorFindsGone` says for each of these accesses when
  the context is deleted by then: if and only if the handle has been retired and every grab released.
  `StoreAfterFree` is a run in which the store meets a deleted context, `StoreInTime` with `LogAfterFree` one in
  which the store is in time and the two later reads are not. `NoUseAfterFree` covers the threads that hold a
  reference, delete the context or own its queue.
* Handle 0 is reserved by starting the index at 1, but the search goes round. `ZeroIsGiven` says when local
  handle 0 is given: if and only if it is free and every handle from the index up to the last clashes. `GoesRound`
  is a run in which it is.

The comment on `augment` asks for a mark higher than any in the tables, and `perfect` passes `i+1`, which need not
be. `MarkIsNew` shows why that does no harm within one attempt: no two calls share a number. `hash_ab` repeats the
attempt on the same tables with the old marks still in them; `Perfect` says what a failure then means: the search is
exhausted but for the b that carry the same mark from before.

## Model

| member | source | states |
|---|---|---|
| `TimerWheel.PlaceStable` | skynet/skynet-src/skynet_timer.c:74-139 | one tick of the clock, wrap included, changes the list of an expiry only if it is in the single list that `timer_shift` cascades |
| `TimerWheel.ShiftLayout` | skynet/skynet-src/skynet_timer.c:108-139 | canonical placement and stability: after a tick every pending node is in the list `add_node` would choose, and nodes of equal expiry stay in insertion order |
| `TimerWheel.AddLayout` | skynet/skynet-src/skynet_timer.c:74-106 | adding a node keeps the canonical layout, the new node last among those of its expiry |
| `TimerWheel.FireLayout` | skynet/skynet-src/skynet_timer.c:159-170 | the current near list holds exactly the nodes that expire now, in insertion order; clearing it leaves the others laid out |
| `TimerWheel.NothingDue` | skynet/skynet-src/skynet_timer.c:159-170 | with nothing due the current near list is empty |
| `TimerWheel.ExpireIsDue` | skynet/skynet-src/skynet_timer.c:95-106 | among pending requests the wrapped 32-bit expiry identifies the unwrapped due time |
| `TimerWheel.DueAfterTwice` | skynet/skynet-src/skynet_timer.c:172-185 | what is due at a later tick is not touched by an earlier one, so nothing fires twice or is lost |
| `TimerWheel.Timer.AddNode` | skynet/skynet-src/skynet_timer.c:74-93 | the node is appended to the list that `Place` gives for expiry and clock; every other list is unchanged |
| `TimerWheel.Timer.TimerAdd` | skynet/skynet-src/skynet_timer.c:95-106 | the wheel then represents the old requests and the new one, due after exactly its delay |
| `TimerWheel.Timer.MoveList` | skynet/skynet-src/skynet_timer.c:108-116 | the list is emptied and its nodes are appended, in order, each to its place under the new clock |
| `TimerWheel.Timer.TimerShift` | skynet/skynet-src/skynet_timer.c:118-139 | the clock advances by one modulo 2^32 and exactly the one list that must be cascaded is |
| `TimerWheel.Timer.TimerExecute` | skynet/skynet-src/skynet_timer.c:141-170 | exactly the requests due now are dispatched, once, in order; requests made by others while the lock is released stay pending |
| `TimerWheel.Timer.TimerUpdate` | skynet/skynet-src/skynet_timer.c:172-185 | one tick dispatches exactly what is due at the new time and keeps the rest |
| `TimerWheel.Run` | skynet/skynet-src/skynet_timer.c:95-185 | exact firing over every run: the k-th tick dispatches the requests whose delay has then elapsed exactly, in request order |
| `SendLists.DrainContinues` | skynet/skynet-src/socket_server.c:550-580 | for any answers of `write`: packets completed and remaining are the packets there were, and the bytes continue the wire where the head left off |
| `SendLists.DrainExhausts` | skynet/skynet-src/socket_server.c:550-580 | when a pass stops, told by the answers: each one used, but possibly the last, is an interruption or writes the whole buffer whose turn it is; the pass ends when the list is empty or the answers are used up, else at EAGAIN or a short write, which advances the head |
| `SendLists.SendListTcp` | skynet/skynet-src/socket_server.c:550-580 | the loop does what one pass over the kernel's answers prescribes, and uses the answers as far as they let it |
| `SendLists.FlushContinues` | skynet/skynet-src/socket_server.c:665-763 | a flush of both lists keeps packet boundaries, the order of high-priority packets, the untouched low list and the byte count |
| `SendLists.FlushAll` | skynet/skynet-src/socket_server.c:695-763 | a kernel that accepts everything, interruptions apart, empties both lists and the direct-write buffer: every packet is out, whole and in line |
| `SendLists.AppendBalanced` | skynet/skynet-src/socket_server.c:765-868 | appending keeps the invariant and puts a high-priority packet behind all others |
| `SendLists.AppendFirst` | skynet/skynet-src/socket_server.c:813-868 | with nothing listed a packet of either priority is next in line; otherwise a low-priority one waits behind the low list |
| `SendLists.FlushInLine` | skynet/skynet-src/socket_server.c:695-763 | packets leave in line: high list, then low list, raising a started low packet changes nothing |
| `SendLists.AppendLowInLine` | skynet/skynet-src/socket_server.c:813-868 | a low-priority packet goes behind all others of its kind, in whichever list |
| `SendLists.FlushEnd` | skynet/skynet-src/socket_server.c:702-718 | the assertion of step 4 holds: with both lists empty `wb_size` is 0 |
| `SendLists.Socket.RaiseUncomplete` | skynet/skynet-src/socket_server.c:665-680 | the head of the low list becomes the only element of the high list |
| `SendLists.Socket.SendBufferLocked` | skynet/skynet-src/socket_server.c:695-735 | lists, `wb_size` and wire after `send_buffer_` are those of a flush, its run-time assertions proved |
| `SendLists.Socket.SendLow` | skynet/skynet-src/socket_server.c:702-715 | the low list is drained, and a started head becomes the high list |
| `SendLists.Socket.SendBuffer` | skynet/skynet-src/socket_server.c:737-763 | as above with a pending direct write first; the wire stays whole packets and one started one; with a kernel that accepts everything nothing is left and the wire is whole packets |
| `SendLists.Socket.SendSocket` | skynet/skynet-src/socket_server.c:813-868 | the packet joins the right list and nothing on the wire changes |
| `SendProtocol.IntegrityHolds` | skynet/skynet-src/socket_server.c:1073-1589 | over every interleaving the fd has received whole packets and part of at most one more; `wb_size` is the unsent bytes; `sending` counts the requests in flight |
| `SendProtocol.PipeClearKept` | skynet/skynet-src/socket_server.c:1073-1141 | a worker whose first check has read `sending` as 0 has nothing of its own in the pipe until its direct write |
| `SendProtocol.WindowClearKept` | skynet/skynet-src/socket_server.c:1520-1589 | hence nothing of its own is appended while it checks for the second time |
| `SendProtocol.OrderHolds` | skynet/skynet-src/socket_server.c:1520-1589 | over every interleaving of workers, pipe and socket thread, every sender's high-priority packets are in the order of submission |
| `SendProtocol.WirePrefix` | skynet/skynet-src/socket_server.c:1520-1589 | in every run the high-priority packets of a sender on the wire are a prefix of what it sent |
| `SendProtocol.LowHeadWhole` | skynet/skynet-src/socket_server.c:656-697 | in every reachable state the head of the low list is not partly sent, as `send_buffer_` asserts on entry |
| `SendProtocol.LowOrderHolds` | skynet/skynet-src/socket_server.c:1593-1609 | over every interleaving every sender's low-priority packets are in the order of submission, through both lists |
| `SendProtocol.LowWirePrefix` | skynet/skynet-src/socket_server.c:1593-1609 | in every run the low-priority packets of a sender on the wire are a prefix of what it sent |
| `SendProtocol.OneLowHolds` | skynet/skynet-src/socket_server.c:702-715 | in every reachable state a high-priority packet that waits has at most one low-priority packet before it |
| `SendProtocol.DirectSend` | skynet/skynet-src/socket_server.c:1527-1589 | with nothing in the way, both checks succeed and the packet is written by its sender at once |
| `SendProtocol.EverythingLeaves` | skynet/skynet-src/socket_server.c:1106-1141 | nothing is lost or held back for good: from any reachable state with idle workers, once the pipe has been read one flush that the kernel accepts puts on the wire, for every sender and each priority, exactly what it submitted in order |
| `SendProtocol.KernelCanAccept` | skynet/skynet-src/socket_server.c:550-580 | such a kernel is possible in every state: one byte count for each buffer |
| `MessageQueue.Queue.Length` | skynet/skynet-src/skynet_mq.c:111-125 | the number of queued messages, across the wrap |
| `MessageQueue.Queue.Pop` | skynet/skynet-src/skynet_mq.c:137-172 | the oldest message, or none with `in_global` cleared; the overload threshold doubles until it is no longer below the length, and no further |
| `MessageQueue.Queue.ExpandQueue` | skynet/skynet-src/skynet_mq.c:174-187 | a full ring is doubled with its messages in order |
| `MessageQueue.Queue.Push` | skynet/skynet-src/skynet_mq.c:189-209 | the message is appended, growing when needed; the queue is listed exactly when it was not |
| `MessageQueue.Queue.MarkRelease` | skynet/skynet-src/skynet_mq.c:219-228 | messages stay; the caller must list the queue exactly when it is not listed |
| `MessageQueue.RingPush` | skynet/skynet-src/skynet_mq.c:189-209 | storing at the tail appends to the ring, or fills it so that head and tail meet |
| `Scheduler.Reachable` | skynet/skynet-src/skynet_server.c:115-351 | every reachable state, for any number of threads and services, satisfies the invariant of every service |
| `Scheduler.OneOwner` | skynet/skynet-src/skynet_mq.c:43-75 | a queue is in the run queue at most once, never there while a thread owns it, never owned by two threads |
| `Scheduler.NoLostWakeup` | skynet/skynet-src/skynet_mq.c:137-209 | a queue neither listed nor owned is empty |
| `Scheduler.Conservation` | skynet/skynet-src/skynet_server.c:296-351 | accepted messages leave in push order, each once, for dispatch and then, after release, for drop; the error replies are exactly one to the source of each dropped message, in order; none is left when the queue is freed |
| `Scheduler.SentIsKept` | skynet/skynet-src/skynet_server.c:229-239 | told by the events alone: the messages whose sender grabbed the service and has made its next move, in that order, are those dispatched, then those dropped, then those queued; every pop takes one |
| `Scheduler.PushWakes` | skynet/skynet-src/skynet_mq.c:189-209 | that move appends the message and lists the queue if it was not listed |
| `Scheduler.EachInTurn` | skynet/skynet-src/skynet_mq.c:43-75 | every queue gets its turn: the one with k others before it in the run queue goes to the worker that makes the (k+1)-th take, whatever happens meanwhile |
| `Scheduler.Served` | skynet/skynet-src/skynet_server.c:296-351 | a free worker that takes a listed queue dispatches its oldest message |
| `Scheduler.FreedInTheEnd` | skynet/skynet-src/skynet_mq.c:230-250 | a listed queue whose service is deleted is emptied and freed, one error reply for each message |
| `Scheduler.Launched` | skynet/skynet-src/skynet_server.c:125-172 | a service whose init succeeds ends initialised, listed and with the slot's reference alone |
| `Scheduler.InitFailed` | skynet/skynet-src/skynet_server.c:173-181 | one whose init fails leaves neither slot nor context nor queue and was never listed |
| `Scheduler.Lifetime` | skynet/skynet-src/skynet_server.c:115-239 | a context's count is its slot reference plus all grabs, and it is deleted exactly when none is left |
| `Scheduler.NoUseAfterFree` | skynet/skynet-src/skynet_server.c:195-239 | whoever has a reference, deletes or owns the queue finds it allocated |
| `Scheduler.DispatchInitialised` | skynet/skynet-src/skynet_server.c:260-351 | the assertion that a dispatched context is initialised never fails |
| `Scheduler.PushFindsAbsent` | skynet/skynet-src/skynet_mq.c:43-57 | the assertion that a queue pushed to the run queue is not linked never fails |
| `Scheduler.CreatorFindsGone` | skynet/skynet-src/skynet_server.c:163-172 | each access of the creator after its release (store to `ctx->init`, log line, read of the handle) meets a deleted context if and only if the handle has been retired and all grabs released by then |
| `Scheduler.StoreAfterFree` | skynet/skynet-src/skynet_server.c:163-172 | a run in which the store does |
| `Scheduler.StoreInTime` | skynet/skynet-src/skynet_server.c:163-172 | a run in which the store is in time and the service is launched |
| `Scheduler.LogAfterFree` | skynet/skynet-src/skynet_server.c:168-172 | its continuation: the service exits, and log line and read of the handle meet a deleted context |
| `Stm.StepLock` | skynet/skynet-src/rwlock.h:17-48 | every step keeps: `read` counts the readers, one thread has the write flag, nobody reads beside a writer |
| `Stm.Exclusion` | skynet/skynet-src/rwlock.h:17-48 | in every run a thread inside the write lock is alone inside |
| `Stm.StepCurrent` | skynet/lualib-src/lua-stm.c:93-115 | whoever looked at `obj->copy` under the lock still finds it there |
| `Stm.StepCounts` | skynet/lualib-src/lua-stm.c:47-115 | every step keeps each copy's count equal to its holders |
| `Stm.CopyLifetime` | skynet/lualib-src/lua-stm.c:47-115 | in every run a copy is allocated exactly as long as somebody holds it, and its count says how many do |
| `Stm.NoDanglingUse` | skynet/lualib-src/lua-stm.c:93-115 | no statement touches a copy that has been freed |
| `Stm.ReadIsCurrent` | skynet/lualib-src/lua-stm.c:205-235 | the copy a read returns was `obj->copy` at a step of that same call inside its lock |
| `Stm.CopyIsStored` | skynet/lualib-src/lua-stm.c:106-115 | an update takes effect: in every run the current copy is that of the last update, or NULL of the last close, whose store has run, as told by the program counters |
| `Stm.WriteStores` | skynet/lualib-src/lua-stm.c:57-115 | an update or close that has returned has stored what it brought, at one of its own steps |
| `Stm.ReadTakes` | skynet/lualib-src/lua-stm.c:205-235 | a read that has returned leaves in its box what was stored last at one moment of the call |
| `Stm.NeverOlder` | skynet/lualib-src/lua-stm.c:93-115 | a read begun after an update has returned delivers that update's copy or one stored later, never an older one |
| `Stm.SoloRead` | skynet/lualib-src/lua-stm.c:205-235 | an undisturbed read completes with the current copy and exact counts |
| `Stm.SoloUpdate` | skynet/lualib-src/lua-stm.c:106-115 | an undisturbed update completes with its copy current and the old one released |
| `Stm.SoloClose` | skynet/lualib-src/lua-stm.c:57-71 | an undisturbed close completes with no current copy and the old one released |
| `PerfectHash.InitTab` | 3rd/perfect-hash/perfect.c:153-188 | TRUE exactly when no two keys share (a, b); every key is then in the list of its b once |
| `PerfectHash.PlacedIsPerfect` | 3rd/perfect-hash/perfect.c:534-569 | a table in which every b with keys is mapped is injective on the keys and below the table size |
| `PerfectHash.ForwardDone` | 3rd/perfect-hash/perfect.c:375-429 | a path applied without collision maps the root as well and keeps everything else mapped |
| `PerfectHash.BackAgain` | 3rd/perfect-hash/perfect.c:375-429 | once every b of the path is back, both tables are what they were |
| `PerfectHash.Builder.Erase` | 3rd/perfect-hash/perfect.c:396-405 | exactly the entries of this b's keys disappear |
| `PerfectHash.Builder.Rollback` | 3rd/perfect-hash/perfect.c:375-429 | wherever the attempt stopped, `val_b` and `tabh` are restored exactly |
| `PerfectHash.Builder.Apply` | 3rd/perfect-hash/perfect.c:375-429 | either one more b is mapped, all on the path with their new values, or nothing has changed; in a tree as the search builds it the latter exactly when the new values make two keys of the path collide |
| `PerfectHash.Builder.Scan` | 3rd/perfect-hash/perfect.c:481-509 | a value gets through exactly if it fits and hits at most one b, not explored yet |
| `PerfectHash.Builder.Children` | 3rd/perfect-hash/perfect.c:475-527 | one node of the spanning tree: all its children are queued and marked, or the path from it is applied |
| `PerfectHash.Builder.Augment` | 3rd/perfect-hash/perfect.c:451-530 | TRUE maps the item as well, FALSE leaves the hash as it was and means that the search is exhausted: every value of every node has been tried, who alone is in the way is a node, and with nobody in the way the path collides with itself; only b that carried the mark before are passed over; the queue never outgrows its blen+1 entries |
| `PerfectHash.Builder.Perfect` | 3rd/perfect-hash/perfect.c:534-569 | TRUE means that a^scramble[val_b] is injective on the keys and below highhash, FALSE that for some b the search is exhausted, but for marks that an earlier attempt on the same tables has left |
| `PerfectHash.MarkIsNew` | 3rd/perfect-hash/perfect.c:534-569 | the mark of the next b is in the tables only if it was there before the attempt |
| `PerfectHash.NoVacancy` | 3rd/perfect-hash/perfect.c:519-528 | with distinct keys an exhausted search means that no value finds the places of all keys of the item free |
| `PerfectHash.FindHash` | 3rd/perfect-hash/perfect.c:858-931 | one attempt from the keys on: refused exactly if two keys share (a, b); a mapping found makes a^scramble[val_b] injective on the keys and below the table size; none is found only when the search from some b is exhausted |
| `Bignum.I2b` | 3rd/cjson/dtoa.c:789-803 | a one-word number |
| `Bignum.MultAdd` | 3rd/cjson/dtoa.c:612-667 | exactly b*m + a, no 64-bit overflow, the buffer large enough |
| `Bignum.Mult` | 3rd/cjson/dtoa.c:805-913 | exactly the product, trimmed, in a buffer of 2^k words that suffices |
| `Bignum.Powers.Power` | 3rd/cjson/dtoa.c:934-969 | entry i of the cache is 5^(4*2^i); the cache only grows |
| `Bignum.Powers.Pow5Mult` | 3rd/cjson/dtoa.c:917-972 | exactly b * 5^k, cache kept |
| `Bignum.LShift` | 3rd/cjson/dtoa.c:974-1032 | exactly b * 2^k in a buffer that suffices |
| `Bignum.Cmp` | 3rd/cjson/dtoa.c:1034-1066 | the sign of the difference of trimmed numbers |
| `Bignum.Diff` | 3rd/cjson/dtoa.c:1068-1160 | exactly the absolute difference, with the sign of a - b, trimmed |
| `Dtoa.Hi0Bits` | 3rd/cjson/dtoa.c:707-739 | the number of leading zero bits |
| `Dtoa.DShift` | 3rd/cjson/dtoa.c:2106-2117 | modulo 32, the shift that leaves four leading zero bits |
| `Dtoa.Scale` | 3rd/cjson/dtoa.c:4145-4159 | the same fraction, with a divisor whose top word is in [2^27, 2^28) |
| `Dtoa.Estimate` | 3rd/cjson/dtoa.c:2143-2160 | the quotient of the top words is the true quotient or one less |
| `Dtoa.Quorem` | 3rd/cjson/dtoa.c:2119-2241 | b becomes b mod S and the result is b / S, with one correction at most |
| `Dtoa.Generate` | 3rd/cjson/dtoa.c:4284-4296 | the digits and the remainder make up b/S exactly; early exit exactly when nothing remains |
| `Dtoa.RoundUp` | 3rd/cjson/dtoa.c:4314-4322 | one unit more in the last place, nines dropped, or a single 1 one place higher |
| `Dtoa.TrimZeros` | 3rd/cjson/dtoa.c:4323-4329 | trailing zeros removed, value kept |
| `Dtoa.FixedDigits` | 3rd/cjson/dtoa.c:4284-4329 | from 1 <= b/S < 10: the digits are the integer nearest to b/S * 10^(ilim-1), ties to even, no trailing zero; k grows exactly when the rounding carries out |
| `Dtoa.NearestUnique` | 3rd/cjson/dtoa.c:4306-4329 | there is only one such integer |
| `Dtoa.FewDigits` | 3rd/cjson/dtoa.c:4169-4180 | with no digit to give, nothing or a single 1 is the nearest multiple of the place to round to, ties to nothing |
| `Dtoa.CorrectExponent` | 3rd/cjson/dtoa.c:4160-4180 | the same from 1/10 <= b/S, with the exponent guess corrected |
| `Dtoa.Convert` | 3rd/cjson/dtoa.c:4145-4329 | scaling, exponent correction, digits and rounding together give the round-half-even decimal of (b*2^b2)/(S*2^s2), for any ilim |
| `Seri.RoundTrip` | skynet/lualib-src/lua-seri.c:296-340 | reading the format of a value, with anything behind it, gives the value and what was behind |
| `Seri.IntTrip` | skynet/lualib-src/lua-seri.c:142-174 | every 64-bit integer comes back, whatever width it was given |
| `Seri.StrTrip` | skynet/lualib-src/lua-seri.c:190-213 | short and long strings come back |
| `Seri.TableTrip` | skynet/lualib-src/lua-seri.c:217-257 | tables come back: array part, also of 31 or more items, and pairs up to the nil |
| `Seri.MessageRoundTrip` | skynet/lualib-src/lua-seri.c:342-349 | a whole list of values within the nesting limit comes back |
| `Seri.Shortest` | skynet/lualib-src/lua-seri.c:142-257 | the format is the shortest the reader understands: no bytes read as a value are fewer than those written for it |
| `Seri.IntShortest` | skynet/lualib-src/lua-seri.c:142-174 | in particular every integer gets the narrowest width that is read back as it |
| `Seri.UnLeSnoc` | skynet/lualib-src/lua-seri.c:142-174 | numbers are little-endian: a byte put behind counts 256 to the number of bytes before it |
| `Seri.WriteBlock.Push` | skynet/lualib-src/lua-seri.c:65-85 | the bytes follow what was written, over any number of 128-byte blocks |
| `Seri.WriteBlock.Flatten` | skynet/lualib-src/lua-seri.c:534-553 | one buffer with exactly the bytes written |
| `Seri.WriteBlock.PackInteger` | skynet/lualib-src/lua-seri.c:142-174 | appends the integer's format |
| `Seri.WriteBlock.PackString` | skynet/lualib-src/lua-seri.c:190-213 | appends the string's format |
| `Seri.WriteBlock.PackTable` | skynet/lualib-src/lua-seri.c:217-294 | appends the table's format; fails exactly if something inside cannot be packed |
| `Seri.WriteBlock.PackOne` | skynet/lualib-src/lua-seri.c:296-340 | appends the value's format; fails exactly for unsupported types and nesting beyond 32 |
| `Seri.Pack` | skynet/lualib-src/lua-seri.c:599-612 | succeeds exactly for packable values, and its buffer reads back as those values |
| `Seri.ReadBlock.Read` | skynet/lualib-src/lua-seri.c:118-128 | the next bytes, or nothing taken when there are fewer |
| `Seri.ReadBlock.GetInteger` | skynet/lualib-src/lua-seri.c:359-400 | agrees with the reader of the format on every input |
| `Seri.ReadBlock.UnpackTable` | skynet/lualib-src/lua-seri.c:434-465 | agrees with the reader of the format on every input |
| `Seri.ReadBlock.UnpackOne` | skynet/lualib-src/lua-seri.c:467-532 | agrees with the reader of the format on every input, failures included |
| `Seri.Unpack` | skynet/lualib-src/lua-seri.c:555-597 | all values of the buffer, or failure, as the reader of the format says |
| `Netpack.DecodeSplit` | skynet/lualib-src/lua-netpack.c:182-307 | decoding a stream in two parts, the rest of the first before the second, is decoding it at once |
| `Netpack.RestIsIncomplete` | skynet/lualib-src/lua-netpack.c:182-215 | what is left over holds no complete packet |
| `Netpack.PackRoundTrip` | skynet/lualib-src/lua-netpack.c:430-452 | messages packed one after the other decode to those messages |
| `Netpack.Queue.FindUncomplete` | skynet/lualib-src/lua-netpack.c:92-114 | takes out the packet of this socket, the others' pending bytes unchanged |
| `Netpack.Queue.SaveUncomplete` | skynet/lualib-src/lua-netpack.c:169-180 | this socket's pending bytes are those of the packet, the others' unchanged |
| `Netpack.Queue.ExpandQueue` | skynet/lualib-src/lua-netpack.c:133-148 | a full ring grows by 1024 with its packets in order |
| `Netpack.Queue.PushData` | skynet/lualib-src/lua-netpack.c:150-167 | the packet is queued last, growing when needed |
| `Netpack.Queue.PushMore` | skynet/lualib-src/lua-netpack.c:188-215 | queues all packets of the buffer and keeps the rest pending |
| `Netpack.Queue.FilterData` | skynet/lualib-src/lua-netpack.c:227-307 | for any chunk: what is returned or queued and what stays pending are the frames and rest of pending bytes plus chunk |
| `Netpack.Queue.CloseUncomplete` | skynet/lualib-src/lua-netpack.c:217-225 | forgets this socket's pending bytes only |
| `Netpack.Queue.Pop` | skynet/lualib-src/lua-netpack.c:396-410 | the oldest packet, across the wrap |
| `Netpack.Serve` | skynet/lualib-src/lua-netpack.c:227-307 | for any interleaving of sockets and any chunks, each socket's delivered packets are the frames of its whole stream |
| `Handle.Storage.Register` | skynet/skynet-src/skynet_handle.c:34-67 | the first handle from the index on whose low bits no handle in use has, all others unchanged; the index moves one past it; at most one doubling; fails exactly when 2^24 slots are in use |
| `Handle.Storage.Probe` | skynet/skynet-src/skynet_handle.c:42-54 | the same for one array: finds a free slot exactly if there is one |
| `Handle.Serve` | skynet/skynet-src/skynet_handle.c:34-106 | over every sequence of registrations and retirements, a handle comes again only when the index has gone round all 2^24, so after at least 2^24 / slot size registrations |
| `Handle.ZeroIsGiven` | skynet/skynet-src/skynet_handle.c:43-51 | local handle 0, reserved at the start, is given exactly when it is free and every handle from the index up to the last clashes |
| `Handle.GoesRound` | skynet/skynet-src/skynet_handle.c:34-67 | a run that gives it: 2^24 - 1 services started and stopped one by one, then one more |
| `Handle.Storage.Grow` | skynet/skynet-src/skynet_handle.c:55-65 | twice the slots, the same holders, room left |
| `Handle.MoveOne` | skynet/skynet-src/skynet_handle.c:58-62 | the assertion that doubling never collides |
| `Handle.Storage.Grab` | skynet/skynet-src/skynet_handle.c:132-149 | the holder of the handle, or none |
| `Handle.Storage.Retire` | skynet/skynet-src/skynet_handle.c:69-106 | the handle and exactly its names disappear |
| `Handle.Storage.DropNames` | skynet/skynet-src/skynet_handle.c:82-93 | compaction keeps exactly the other names, in order |
| `Handle.WithoutDirectory` | skynet/skynet-src/skynet_handle.c:82-93 | removing a handle's entries from the sorted array removes exactly its names from the map |
| `Handle.Storage.Search` | skynet/skynet-src/skynet_handle.c:207-223 | the position of the name, or the place where it belongs |
| `Handle.Storage.FindName` | skynet/skynet-src/skynet_handle.c:151-179 | the map's handle of the name, 0 if it has none |
| `Handle.Storage.InsertBefore` | skynet/skynet-src/skynet_handle.c:181-205 | the entry is spliced in at its place, shifting or reallocating |
| `Handle.Storage.InsertName` | skynet/skynet-src/skynet_handle.c:207-240 | refused exactly if the name is taken; otherwise the map gets it and the array stays strictly sorted |
| `SpMap.InsertLink` | 3rd/pbc/src/map.c:287-299 | a key linked into its home chain keeps every key reachable, the chains acyclic, and the map right |
| `SpMap.InsertHome` | 3rd/pbc/src/map.c:281-287 | the same for a key in its own free home slot |
| `SpMap.Map.Insert` | 3rd/pbc/src/map.c:277-304 | a fresh key is added to the map; the table doubles exactly when it was full |
| `SpMap.Map.Rehash` | 3rd/pbc/src/map.c:306-322 | twice the slots, the same map |
| `SpMap.Map.Find` | 3rd/pbc/src/map.c:379-399 | the walk ends and finds the key exactly if it is in the map |
| `SpMap.Map.Query` | 3rd/pbc/src/map.c:379-399 | the map's pointer, or NULL |
| `SpMap.Map.QueryInsert` | 3rd/pbc/src/map.c:324-365 | the key's slot; a new key enters the map with NULL, an old one leaves it unchanged |
| `SpMap.Map.Store` | 3rd/pbc/src/map.c:373-377 | a store through the returned pointer changes this key only |
| `SpMap.Map.Next` | 3rd/pbc/src/map.c:462-481 | the first entry with a pointer behind the slot of the key |
| `SpMap.ListedOnce` | 3rd/pbc/src/map.c:423-433 | in slot order every entry with a pointer occurs exactly once |
| `SpMap.Traverse` | 3rd/pbc/src/map.c:423-481 | iterating from the start visits each non-null entry of the map exactly once |
| `Des.FpIp` | skynet/lualib-src/lua-crypt.c:204-226 | the final permutation undoes the initial one |
| `Des.IpFp` | skynet/lualib-src/lua-crypt.c:204-226 | and the other way round |
| `Des.RoundsBack` | skynet/lualib-src/lua-crypt.c:230-243 | any number of rounds is undone by the same rounds with reversed subkeys on swapped words |
| `Des.CryptBack` | skynet/lualib-src/lua-crypt.c:316-338 | a block comes back under reversed subkeys, for any subkeys |
| `Des.MainKs` | skynet/lualib-src/lua-crypt.c:247-312 | the sixteen subkeys; `DesFips.ScheduleIsFips` says which they are |
| `Des.PaddedOnce` | skynet/lualib-src/lua-crypt.c:384-394 | the padding can be taken off in one way only |
| `Des.Unpad` | skynet/lualib-src/lua-crypt.c:424-437 | gives a text exactly if the data is that text padded; reads in front of the buffer exactly for eight zeros |
| `Des.CryptAllBack` | skynet/lualib-src/lua-crypt.c:366-423 | block-wise decryption undoes block-wise encryption for data of any length |
| `Des.DesEncode` | skynet/lualib-src/lua-crypt.c:366-399 | the padded text encrypted block by block; refused exactly for keys of another length; `DesFips.TextIsFips` says what the blocks are |
| `Des.DesDecode` | skynet/lualib-src/lua-crypt.c:401-439 | gives back every text that `DesEncode` encrypted under the same key, accepts otherwise exactly properly padded data, and reads out of bounds exactly for one block that decrypts to zeros |
| `Des.ZeroBlockDecrypts` | skynet/lualib-src/lua-crypt.c:424-437 | under every key there is a block that decrypts to eight zeros |
| `Des.ZeroBlockIsNoText` | skynet/lualib-src/lua-crypt.c:366-437 | no encrypted text is that block |
| `DesFips.IpIsFips` | skynet/lualib-src/lua-crypt.c:204-213 | DES_IP is the initial permutation of FIPS 46-3, each half rotated by one |
| `DesFips.FpIsFips` | skynet/lualib-src/lua-crypt.c:217-226 | DES_FP is the inverse permutation of FIPS 46-3 |
| `DesFips.Box1` | skynet/lualib-src/lua-crypt.c:16-33 | table SB1 is S-box 1 of the standard followed by permutation P |
| `DesFips.Box8` | skynet/lualib-src/lua-crypt.c:149-166 | table SB8 is S-box 8 of the standard followed by permutation P; Box2 to Box7 likewise |
| `DesFips.FIsFips` | skynet/lualib-src/lua-crypt.c:230-243 | a round adds f(R, K) of FIPS 46-3 |
| `DesFips.ScheduleIsFips` | skynet/lualib-src/lua-crypt.c:247-312 | the subkeys are those of PC-1, the shift table and PC-2, of the key as a block of the standard |
| `DesFips.CryptIsFips` | skynet/lualib-src/lua-crypt.c:316-338 | for every key and block, taken as blocks of the standard byte by byte, `des_crypt` computes the enciphering of FIPS 46-3 |
| `DesFips.BlockBits` | skynet/lualib-src/lua-crypt.c:186-200 | how eight bytes are a block: bit n of the standard, from the left, is bit 7 - (n-1) mod 8 of byte (n-1)/8 |
| `DesFips.TextIsFips` | skynet/lualib-src/lua-crypt.c:366-399 | every block of an encoded text is the enciphering of the corresponding block of the padded text |
| `DesFips.BlockOnce` | skynet/lualib-src/lua-crypt.c:186-200 | eight bytes are determined by their block, so the standard decides every byte of the ciphertext |
| `Dh.MulModP` | skynet/lualib-src/lua-crypt.c:717-737 | a*b mod P for a up to P, in spite of 64-bit wrap-around |
| `Dh.PowModP` | skynet/lualib-src/lua-crypt.c:739-750 | a^b mod P for b >= 2, a for b = 1 |
| `Dh.PowMod64` | skynet/lualib-src/lua-crypt.c:752-758 | a^b mod P if and only if not (a = P and b = 1), where it is P |
| `Dh.Exchange` | skynet/lualib-src/lua-crypt.c:792-810 | refused exactly for 0, otherwise 5^x mod P |
| `Dh.Secret` | skynet/lualib-src/lua-crypt.c:775-788 | refused exactly for a 0, otherwise x^y mod P if and only if not (x = P and y = 1), where it is P |
| `Dh.SameSecret` | skynet/lualib-src/lua-crypt.c:775-810 | both sides of an exchange compute the same secret, for all exponents |
| `Dh.Agree` | skynet/lualib-src/lua-crypt.c:775-810 | both sides' calls succeed for all exponents but 0 and end in the same secret, 5^(x*y) mod P |
| `Dh.ExchangeIsNonZero` | skynet/lualib-src/lua-crypt.c:775-810 | an exchanged number is never 0, so the other side accepts it |

## Left out

- Operating-system plumbing: sockets, epoll, DNS, files, daemon code. `write` is any sequence of answers (a prefix length, EINTR, EAGAIN).
- UDP, user-object buffers, HALFCLOSE, write errors that close the socket, id reuse and the size warnings of `socket_server.c`: one TCP socket stays connected with a fixed id.
- The Lua stack API, garbage collection, metatables (`__pairs`): Lua values are a datatype; a table is its array part and its other pairs in traversal order, so the skip of array keys during traversal is part of the representation.
- Memory models weaker than sequential consistency; fairness and progress of the spin loops under contention.
- Scheduler.Reachable: a handle names one service for ever (fewer than 2^24 registrations while an old queue lives), the context's handle and queue are set together with its registration, work that a service does while it is dispatched is done by other threads of the pool, and a worker pops any positive number of messages per turn instead of a weighted number.
- Scheduler.Lifetime: the creator's accesses after its release have no effect once the context is gone; what they read or overwrite then is not modelled (`CreatorFindsGone` says when it happens).
- Scheduler.Conservation: an error reply is recorded when its message is dropped; its delivery is a message like any other, which some thread sends.
- SendProtocol.IntegrityHolds: the socket thread's flush under the lock is one step; the workers' field reads, the append and the counter updates are separate steps. A worker that finds `sending` at 65535 waits, as in the source: its step is not enabled.
- SendProtocol.OrderHolds: an unlocked read of the lists or the direct-write buffer that falls into a flush may also see them empty, which allows more runs than the code has; the id and type fields stay as they are.
- Stm.CopyLifetime: freeing of the object itself (`stm_releasereader` with several last readers) is not claimed; copies are numbered, so an address is not reused while somebody still holds it.
- TimerWheel.Run: delays are 1 to 2^31-1, because `skynet_timeout` answers others at once; reading the clock and repeating the tick is the caller's.
- PerfectHash.Builder.Perfect: the initial hash of every key must lie inside the table and `smax` must not exceed 65536, as the code assumes; key hashing, `permute` and the choice of table sizes are not modelled, nor is how often the search succeeds.
- PerfectHash.InitTab: `checkdup`, which ends the program on identical keys, is not modelled.
- Bignum.Mult: free lists and `Bfree` are not modelled; a new number gets fresh storage with unspecified words.
- Bignum.LShift: the words are combined with + where the source uses a bitwise or, the operands sharing no bit.
- Dtoa.Convert: the floating-point fast path, the shortest-digits mode, `strtod` and the decomposition of the double are not modelled; the caller supplies b, S and the powers of two.
- Seri.ReadBlock.UnpackTable: a NaN or repeated key in a hostile stream is kept as a pair where Lua would raise an error or overwrite.
- Seri.Unpack: a NaN or repeated key in a hostile stream is kept as a pair where Lua would raise an error or overwrite.
- Netpack.Serve: the gate pops everything after `more`; the queue object exists from the start instead of on first use.
- SpMap.Map.Insert: the key must be new, since the source does not overwrite; the hash function is any function.
- Handle.Storage.Register: contexts carry their handle from registration on; retiring all handles at exit is not modelled.
- Dh.Secret: the little-endian byte strings of the keys are taken as numbers.
- Harbor, monitor, logging, the protobuf message codecs of pbc, base64, SHA-1 and HMAC of lua-crypt.c, sdsl-lite, Python scripts: they would add members without adding harder properties.
