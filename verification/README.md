# Turbine runtime: model and proofs

Turbine runs a dataflow language on top of a write-once data store.  A datum has read and write
reference counts; it is closed when its last write reference is gone; a rule releases its action
once, after all of its inputs are closed.  This project models six parts of that runtime in Dafny
and proves what they promise.  Automatic induction is switched off on every lemma that has a proof, so
each proof by induction is written out.

**Deep waiting** (`DeepWait*.dfy`).  `deeprule` runs an action when every container down to a nesting
level, and every reference at the bottom, is closed.  It finds out through a tree of signal variables
and a scan that suspends itself.  The state machine works at the grain of one data-store operation, so
tasks interleave anywhere and user data may close at any moment.  `DeepWaitRuntime` holds the
procedures as loops over fields; each is proved to be a run of the state machine.

**Create-if-absent** (`CreateNested*.dfy`).  Any number of workers race on one subscript of a container:
reserve, create, store, or poll.  The data server's atomic calls are the steps; refused calls and failed
creates are steps too.

**Serializer** (`Bytes`, `Sorting`, `Values`, `Pack*.dfy`).  Prefix type lists, the recursive packer with
lengths written into reserved space, the self-describing unpacker, canonical order, and the
`xpt_pack`/`xpt_unpack` commands.  `PackBuffer` and `PackFields` hold the buffer and the loops;
`PackTruncated`, `PackBags` and `PackLimits` say where packing and unpacking fall short, and when.

**Asynchronous executors** (`Async*.dfy`).  The ring of get requests, the slot account, completion batches,
the callbacks' reference counts, an executor over an array of slots and one over a table of jobs.

**Worker cache** (`Cache*.dfy`).  The table and tree of entries, and the procedures of `data.tcl` that read
through it on many workers; `CacheSystem` puts the two together.  `CacheIntent` is the one module that models an intent and not the code: how the
cache is meant to shrink.

**Containers and references** (`Build*.dfy`, `Inserts.dfy`).  `build_rec` and `enumerate_rec`; deferred inserts
that hold a container open.

`Options` and `Refcounts` hold what several of them share.

## What the code does differently from its comments

The models follow the code.  Where it falls short of what it is meant to do, a lemma shows it and another, or
the same, says exactly when it does not.

- code/src/turbine/cache.c:230-250: memory is unsigned, so the loop that is to shrink the cache never runs.
  A store keeps the budget exactly if the item fits into what is left and what the victim gives back
  (`CacheTheorems.BudgetKeptIff`, `CacheTheorems.BudgetExceeded`).  What the loop is meant to do, with a signed
  memory and victims that leave table and tree, always keeps it (`CacheIntent`).
- code/src/turbine/cache.c:145-148: with a capacity of one the first store looks for a victim in an empty
  tree (`Cache.Cache.Store`).
- code/src/tcl/adlb/tcl-adlb.c:2378-2411 and 2459-2483: a dict that is cut off, or followed by other bytes,
  is returned as a success, because the jump to the exit leaves the return code at success; a list that is
  cut off is returned with elements that were never set (`PackLimits`).  A cut is noticed if and only if it
  reaches into the header (`PackTruncated.TruncationNoticedIff`).
- code/src/tcl/adlb/tcl-adlb.c:1911-1962: containers and multisets are packed with a type list of one code,
  which always fails (`PackLimits.ToBinaryOnlyScalars`).
- code/src/tcl/adlb/tcl-adlb.c:2145-2158: a multiset is sorted by the text of its elements, and the text of a
  dict depends on the order in which it was built (`PackBags.SuchBagsExist`).  Bags are packed canonically if
  and only if the texts of equal elements sort on the same side of every other (`PackBags.CanonicalBagsIff`).
- code/lib/container.tcl:1150-1163: reading back an empty multiset of references to containers fails, as the
  variable that is returned was never set; nothing else but a scalar fails (`BuildRuntime.Store.EnumerateRec`).
- code/src/turbine/async_exec.c:544-606: a callback that fails keeps its references and those of the rest of
  the batch, and so does one that only unsets the result variable (`AsyncTasks.UnsetExample`).  The references
  are given back if and only if every callback of the batch ends well: the result variable can be set before it
  and unset after it, its script does not fail, and no launch is refused that it does not catch
  (`AsyncLoop.CheckTasks`, `AsyncLoop.SucceedsUnlessFails`).
- code/lib/data.tcl:172-176 and code/src/tcl/adlb/tcl-adlb.c:2677-2683: a read that hits the cache succeeds
  although the datum was collected, or is of another type than was asked for; without the cache it fails
  (`CacheClients.LateReadExample`, `CacheClients.OtherTypeExample`).  Other operations do not differ, and the data
  store never does (`CacheClients.CachesAreInvisible`, `CacheSystem.WorkersAreInvisible`).
- code/src/tcl/adlb/tcl-adlb.c:4374-4394: after an error between reserving a subscript and storing into it the
  subscript stays reserved (`CreateNestedTheorems.OrphanedForever`); as long as there was none, some worker can
  always go on (`CreateNestedTheorems.NoDeadlock`).
- code/lib/container.tcl:341-398 and 540-551: an insert issued with no write reference to drop, or one through
  a reference datum that stores none, can find its container closed.  It does exactly if nothing else has a
  write reference (`Inserts.FaultIff`).
- code/lib/container.tcl:240: `build_rec` stores a scalar without passing on how many write references to drop,
  so that it is always one (`BuildRuntime.Store.BuildRec`).
- code/src/turbine/executors/coaster_executor.c:473-477: a launch that the service refuses still takes a slot
  (`AsyncExecutors.CoasterExecutor.Execute`).  Once all slots are lost the executor waits with nothing running, and
  only then (`AsyncLoop.WaitHasTask`).
- code/lib/data.tcl:164-167: zero written with more than one digit is trimmed to the empty text
  (`CacheClients.TrimKeepsNumber`).

One misnomer has no effect: code/lib/data.tcl:547-557 names the two drops of `container_insert` read and write,
but passes them on to a command that takes write, then read; callers give them by position.

## Model

| member | source | states |
|---|---|---|
| DeepWaitTheorems.ActionRunsAfterDeepClose | code/lib/container.tcl:784-830 | in every reachable state an action has run at most once, and if it has, every container down to its nesting level is closed and at the bottom every `ref` datum itself and the status of every `file_ref` datum |
| DeepWaitTermination.DeepWaitTerminates | code/lib/container.tcl:792-987 | from any reachable state the protocol's tasks make at most `Measure` steps in any order; when none can move, exactly the calls with deeply closed inputs have run, once, and all their signals are stored and dropped |
| DeepWaitTermination.StepLowers | code/lib/container.tcl:881-978 | every operation of every task lowers the measure, including a scan that suspends and comes back |
| DeepWaitTheorems.SignalsAreWriteOnce | code/lib/container.tcl:943-987 | no run stores a signal twice or drops its reference twice, and an open signal still has its reference |
| DeepWaitTheorems.NoSignalLeftBehind | code/lib/container.tcl:815-822 | when an action has run, every signal allocated for its call at any level was stored once and dropped once |
| DeepWaitTheorems.QuietMeansStored | code/lib/container.tcl:949-978 | when nothing can move, every signal of a call with deeply closed inputs is stored, also one passed down through containers of one member |
| DeepWaitTheorems.QuietMeansRun | code/lib/container.tcl:826-829 | when nothing can move, a call's action has run if and only if its inputs are deeply closed |
| DeepWaitTheorems.RunInv | code/lib/container.tcl:792-987 | the protocol's invariant holds in every state of every run, against any later set of closed data |
| DeepWaitTheorems.SystemMay | code/lib/container.tcl:792-987 | the states this speaks of: from the start, and from each of them after any new call, any closing of more data, and any step of any task that can move |
| DeepWaitSafety.StepKeepsInv | code/lib/container.tcl:792-987 | every operation of every task, every new call and every closing of user data keeps the invariant |
| DeepWaitRuntime.RunsReachable | code/lib/container.tcl:792-987 | what the procedures below do from a reachable state is reachable |
| DeepWaitRuntime.CallReachable | code/lib/container.tcl:792-830 | a call of `deeprule` from any state of the system leads to another |
| DeepWaitRuntime.Runtime.CallDeeprule | code/lib/container.tcl:792-830 | the loop over the inputs is a run of the state machine and ends in the rule that waits for all signals |
| DeepWaitRuntime.Runtime.RunDeepruleAction | code/lib/container.tcl:873-876 | drops the allocated signals in turn, then runs the action: a run of the state machine |
| DeepWaitSafety.WaitForContainer | code/lib/container.tcl:881-904 | the rule that `container_deep_wait` leaves is where the protocol may stand: whenever the signal stands for the deep closing of the container, waiting for it is right at every nesting level and base type |
| DeepWaitRuntime.Runtime.ContainerDeepWaitIterate | code/lib/container.tcl:906-941 | the scan in chunks of 64 is a run of the state machine, whether it ends or suspends |
| DeepWaitRuntime.Runtime.ContainerRecDeepWait | code/lib/container.tcl:949-972 | the three cases by number of members are runs of the state machine |
| DeepWaitRuntime.Runtime.DeepruleFireSignal | code/lib/container.tcl:974-978 | drops the inner signals, then stores the outer one |
| DeepWaitRuntime.Runtime.DeepruleFinish | code/lib/container.tcl:982-987 | drops one reference of each signal in order |
| CreateNestedTheorems.ExactlyOneCreates | code/src/tcl/adlb/tcl-adlb.c:4313-4429 | in every run, at most one worker creates, all finished workers return the same id, some worker created it, and a reserved slot has exactly one worker between reserve and store |
| CreateNestedTheorems.RefcountsConserved | code/src/tcl/adlb/tcl-adlb.c:4357-4399 | in every run the outer container has lost exactly what the finished workers were to take; what they were to get is exactly what callers hold or have dropped; and share, held, dropped and let go are together what the datum was created with and what was added |
| CreateNestedTheorems.ShareSuffices | code/src/tcl/adlb/tcl-adlb.c:4357-4371 | in every run whose requests add up to at most `2 << 24`, also with the outer container closed or collected on the way, serving them touches no count of the inner datum unless the share of its kind was let go before |
| CreateNestedTheorems.OpenWhileNeeded | code/src/tcl/adlb/tcl-adlb.c:4390-4392 | the outer container is open for every unfinished worker when it started with the references the workers take |
| CreateNestedTheorems.OrphanedForever | code/src/tcl/adlb/tcl-adlb.c:4374-4394 | after an error between reserve and store, in every later state of the run the slot is reserved and nobody has been served |
| CreateNestedTheorems.WorkerStepsCount | code/src/tcl/adlb/tcl-adlb.c:4404-4415 | a worker's step changes nothing or brings the workers closer to their end |
| CreateNestedTheorems.NoDeadlock | code/src/tcl/adlb/tcl-adlb.c:4313-4429 | while a worker is under way and the slot is not orphaned, some worker has a step that counts |
| CreateNestedTheorems.EventsMay | code/src/tcl/adlb/tcl-adlb.c:4313-4429 | what may happen in a state of a run: any worker's next call, a create that fails, callers dropping what they hold, and the loss of the share with the outer container |
| CreateNestedTheorems.StepKeepsInv | code/src/tcl/adlb/tcl-adlb.c:4313-4429 | every step keeps one winner, the conservation of counts and the outer account |
| CreateNestedRuntime.Server.CreateNested | code/src/tcl/adlb/tcl-adlb.c:4238-4440 | the function's calls, with the others' steps in between, extend the run, and how it ends is decided by what they find: refused at the first call it fails; a value is returned at once; the winner creates a new datum and returns it unless the create fails or the outer container is closed at the store, which orphan the slot; others poll while the slot is reserved, until a poll finds the value or the container gone. Whoever is served gets its references from the share as far as that goes |
| CreateNestedRuntime.PlayedIsAnyRun | code/src/tcl/adlb/tcl-adlb.c:4238-4440 | what may happen between two calls of a worker is any sequence of the others' steps |
| PackTheorems.RoundTrip | code/src/tcl/adlb/tcl-adlb.c:1784-1909 | packing a value of any type succeeds, and unpacking returns the value, as `lsort` leaves it at every level when a canonical order was asked for |
| PackTheorems.NormIsLsorted | code/src/tcl/adlb/tcl-adlb.c:2050-2158 | in canonical order the keys of dicts ascend, and so do the texts of the elements of lists, those with the same text in the order they had, at every level |
| Sorting.SortIsStable | code/src/tcl/adlb/tcl-adlb.c:2068-2084 | the sort asked of Tcl: ascending, nothing lost or added, equal keys in the order they had |
| Sorting.LeIs | code/src/tcl/adlb/tcl-adlb.c:2068-2084 | a text goes before another if it is its beginning or has the smaller byte where they first differ |
| PackTheorems.AppendReadsOneType | code/src/tcl/adlb/tcl-adlb.c:1762-1782 | packing depends on the codes of its own type only, for any value, so it never passes their end |
| PackRoundTrip.UnpackOfEntries | code/src/tcl/adlb/tcl-adlb.c:2378-2408 | the loop over packed entries anywhere in a buffer takes exactly their bytes and yields exactly them |
| PackRoundTrip.UnpackOfElems | code/src/tcl/adlb/tcl-adlb.c:2452-2476 | the same for the elements of a list |
| PackRoundTrip.ReadFramed | code/src/tcl/adlb/tcl-adlb.c:1840-1875 | an entry is read back with its length, prefixed or written into ten reserved bytes |
| PackCanonical.CanonicalPacking | code/src/tcl/adlb/tcl-adlb.c:2050-2103 | in canonical order two values have the same bytes if and only if they are equal as maps and bags, for types without bags of compound values |
| PackCanonical.SameBytesSameOrder | code/src/tcl/adlb/tcl-adlb.c:2145-2158 | for every type, the canonical bytes are the same if and only if the values are the same once sorted |
| PackCanonical.SameBytesIff | code/src/tcl/adlb/tcl-adlb.c:2050-2158 | for every type, the canonical bytes are the same if and only if dicts are the same as maps and bags agree element by element in the order of their texts |
| PackCanonical.AppendSorted | code/src/tcl/adlb/tcl-adlb.c:2050-2158 | packing in canonical order is packing the sorted value in its own order |
| PackLimits.LeftOverBytesAccepted | code/src/tcl/adlb/tcl-adlb.c:2405-2421 | any bytes after a packed dict or list are ignored |
| PackLimits.CutOffDictAccepted | code/src/tcl/adlb/tcl-adlb.c:2378-2421 | a dict with fewer entries than announced is returned with those that are there |
| PackLimits.CutOffListUndefined | code/src/tcl/adlb/tcl-adlb.c:2452-2489 | a list with fewer elements than announced is returned with elements never set |
| PackLimits.ToBinaryOnlyScalars | code/src/tcl/adlb/tcl-adlb.c:1911-1962 | this entry point packs a value if and only if the type is a scalar that can be packed |
| PackTruncated.TruncationNoticedIff | code/src/tcl/adlb/tcl-adlb.c:2344-2497 | a packed dict or list that is cut anywhere is refused if and only if the cut is within its header |
| PackTruncated.CutDict | code/src/tcl/adlb/tcl-adlb.c:2378-2421 | a packed dict cut after its header comes back, as a success, as exactly the entries whose bytes are whole |
| PackTruncated.CutListBytes | code/src/tcl/adlb/tcl-adlb.c:2452-2489 | a packed list cut after its header comes back with elements never set |
| PackTruncated.FitIsMost | code/src/tcl/adlb/tcl-adlb.c:2378-2408 | the entries that come back take no more bytes than are left, and one more would take more |
| PackTruncated.UnpackCutEntries | code/src/tcl/adlb/tcl-adlb.c:2378-2408 | the loop over packed entries that end early, anywhere in a buffer |
| PackBags.CanonicalBagsIff | code/src/tcl/adlb/tcl-adlb.c:2145-2158 | bags of any size of one type have canonical bytes if and only if equal elements sort by their texts on the same side of every other element |
| PackBags.PairCanonicalIff | code/src/tcl/adlb/tcl-adlb.c:2145-2158 | for one given pair: exchanging an element for an equal one keeps the bytes if and only if its text sorts on the same side of the other |
| PackBags.SuchBagsExist | code/src/tcl/adlb/tcl-adlb.c:2145-2158 | two equal bags of dicts with different canonical bytes |
| PackBuffer.Buffer.BinAppend | code/src/tcl/adlb/tcl-adlb.c:1819-1909 | succeeds exactly if the value can be packed and fits, and appends exactly the framed bytes, the length being filled in afterwards |
| PackBuffer.Buffer.WriteLength | code/src/tcl/adlb/tcl-adlb.c:1874-1879 | overwriting the reserved zeros leaves the framed value and nothing else changed |
| PackBuffer.Buffer.DictToPacked | code/src/tcl/adlb/tcl-adlb.c:2018-2134 | appends the header and the entries in packing order, or fails exactly when that cannot be |
| PackBuffer.Buffer.AppendKeyVal | code/src/tcl/adlb/tcl-adlb.c:1989-2016 | appends one key and its value |
| PackBuffer.Buffer.ListToPacked | code/src/tcl/adlb/tcl-adlb.c:2136-2194 | appends the header and the elements in packing order |
| PackFields.ParseIffFlattened | code/src/tcl/adlb/tcl-adlb.c:5023-5098 | reading a type succeeds with a type and a position if and only if exactly that type is written there, and takes exactly its tokens |
| PackFields.GetCompoundType | code/src/tcl/adlb/tcl-adlb.c:5023-5098 | the loop returns the tokens of the one type, an error, or fails its assertion, as the grammar says |
| PackFields.FieldsRoundTrip | code/src/tcl/adlb/tcl-adlb.c:5115-5221 | any sequence of fields comes back from its packed bytes, and the unpacker stops exactly at their end |
| PackFields.XptPack | code/src/tcl/adlb/tcl-adlb.c:5115-5160 | returns the packed fields, or fails exactly when they cannot be packed or do not fit |
| PackFields.XptUnpack | code/src/tcl/adlb/tcl-adlb.c:5167-5221 | returns one value for each type name, or fails |
| PackFields.PackedContainerToDict | code/src/tcl/adlb/tcl-adlb.c:2344-2421 | the loop computes the unpacked dict, with its early exits |
| PackFields.PackedMultisetToList | code/src/tcl/adlb/tcl-adlb.c:2424-2497 | the loop computes the unpacked list, with its early exits |
| AsyncWorker.Worker.Loop | code/src/turbine/async_exec.c:255-354 | in every pass slots used plus requests outstanding stay within the slots, the work units run are those answered, in order, each once, and the result variable can be set unless a work unit left it otherwise; it makes all passes it is given unless one ends it: it stops only for a shutdown answer and breaks only for an error; after a shutdown all callbacks' counts are back where they were |
| AsyncWorker.Worker.Pass | code/src/turbine/async_exec.c:299-344 | tasks are asked for exactly when a slot is free; completed ones are looked for exactly when that went well and something is then running, and with all slots taken the call waits until there is one; the look goes well if and only if the client answered, reported jobs of the table only, and every callback ended well; the slots in use are followed launch by launch |
| AsyncWorker.Worker.GetTasks | code/src/turbine/async_exec.c:360-468 | issues exactly as many requests as bring those outstanding up to the smaller of the free slots and the buffers, then asks for the answers to the oldest in turn and runs their work units until one is not answered, fails, or none is outstanding; the code says which; only the first is waited for, and that exactly when nothing is running |
| AsyncWorker.Worker.RunNext | code/src/turbine/async_exec.c:406-462 | the oldest request's own payload is run, with a free slot for what it launches |
| AsyncWorker.Worker.RunWork | code/src/turbine/async_exec.c:449-457 | a work unit fails if and only if its script ends in an error, of its own or for a refused launch it does not catch, and it leaves the references those of the running tasks either way |
| AsyncWorker.Worker.constructor | code/src/turbine/async_exec.c:256-297 | at most 256 buffers are used, and the invariant holds at the start |
| AsyncRing.GetReqState.Issue | code/src/turbine/async_exec.c:379-404 | as many new requests as asked for go to the head, none into a buffer of an outstanding request, and the call blocks only with nothing running |
| AsyncRing.GetReqState.Advance | code/src/turbine/async_exec.c:455-457 | the answered request leaves at the tail and the ring holds the others in order |
| AsyncRing.GetReqState.HeadFollowsTail | code/src/turbine/async_exec.c:56-67 | the head is the tail plus the outstanding requests, modulo the size |
| AsyncRing.BuffersFree | code/src/turbine/async_exec.c:384-388 | the buffers of new requests differ from each other and from every buffer in use |
| AsyncLoop.CheckTasks | code/src/turbine/async_exec.c:512-559 | a batch of running tasks within the buffer leaves the executor, with the outcomes that were reported, and the matching callback of each runs once, in order, unless the result variable refuses to be set; the call succeeds, and the references held are again those of the running tasks, if and only if every callback of the batch ends well; one that does not stops the loop, and exactly it and the rest keep their own |
| AsyncLoop.FinishBatch | code/src/turbine/async_exec.c:536-556 | the loop goes through the whole batch if and only if every callback ends well, and otherwise stops at the first that does not |
| AsyncLoop.RunCallback | code/src/turbine/async_exec.c:561-624 | the result variable is set, the callback chosen by success or failure runs, what it launches joins the executor, and the variable is unset; the call succeeds if and only if there is no callback or all of this goes well |
| AsyncLoop.SucceedsUnlessFails | code/src/turbine/async_exec.c:536-624 | when no launch is refused, every callback of a batch ends well if and only if no matching one is kept from starting by the result variable, fails, or unsets that variable |
| AsyncLoop.SafeTasksSucceed | code/src/turbine/async_exec.c:536-624 | known before the call: if the result variable can be set and no callback of a running task can fail or unset it, the batch ends well, whichever tasks it holds |
| AsyncLoop.WaitHasTask | code/src/turbine/async_exec.c:332-344 | with all slots taken a task is running if and only if not all slots were lost to refused launches |
| AsyncTasks.UnsetExample | code/src/turbine/async_exec.c:602-606 | a callback that ends without an error and fails the call |
| AsyncExecutors.NoopExecutor.Execute | code/src/turbine/executors/noop_executor.c:162-201 | the first free slot is found and the task joins the bag with its callbacks' references |
| AsyncExecutors.NoopExecutor.ChooseCompleted | code/src/turbine/executors/noop_executor.c:203-228 | some active slot is freed and its task reported |
| AsyncExecutors.NoopExecutor.FillCompleted | code/src/turbine/executors/noop_executor.c:230-257 | one or two tasks leave the bag, as successes, within the buffer, and the count of used slots with them |
| AsyncExecutors.NoopExecutor.Stop | code/src/turbine/executors/noop_executor.c:126-153 | gives back exactly the references of what is still running |
| AsyncExecutors.ActivesSize | code/src/turbine/executors/noop_executor.c:171-187 | there is a free slot if and only if fewer tasks run than there are slots |
| AsyncExecutors.CoasterExecutor.Execute | code/src/turbine/executors/coaster_executor.c:462-503 | the job joins the table and the bag, or the slot is lost |
| AsyncExecutors.CoasterExecutor.CheckCompleted | code/src/turbine/executors/coaster_executor.c:506-634 | the batch holds the tasks of the jobs reported, in order, each with the outcome reported for it; those jobs and no others left the table, and the tasks the bag, with the count of used slots; it stops when the buffer is full or at a chunk that comes back short, and fails if and only if the client does not answer or reports a job not in the table; when it waits it succeeds with at least one, and not with an empty table |
| AsyncExecutors.CoasterExecutor.Stop | code/src/turbine/executors/coaster_executor.c:391-428 | gives back exactly the references of the jobs still in the table |
| AsyncExecutors.TableBagRemove | code/src/turbine/executors/coaster_executor.c:541-545 | taking a job out of the table takes its task out of the bag, whatever the order |
| AsyncTasks.BatchRefsSplit | code/src/turbine/async_exec.c:536-556 | a batch that leaves the bag takes exactly its own references along |
| Cache.Cache.constructor | code/src/turbine/cache.c:73-86 | an empty cache with its budget |
| Cache.Cache.Check | code/src/turbine/cache.c:88-98 | a hit if and only if the cache is enabled and holds the datum |
| Cache.Cache.Retrieve | code/src/turbine/cache.c:100-126 | returns the item and makes it the most recent one; table and tree stay in step |
| Cache.Cache.Store | code/src/turbine/cache.c:135-155 | the item becomes the most recent one, the least recent one leaving when there is room for one more only; a crash if and only if the capacity is one |
| Cache.Cache.CacheAdd | code/src/turbine/cache.c:183-197 | a new entry in both structures and the budget |
| Cache.Cache.CacheReplace | code/src/turbine/cache.c:199-228 | the victim's entry is reused; both structures and the budget follow |
| Cache.Cache.Leftmost | code/src/turbine/cache.c:206-208 | the leftmost node of the tree is the least recently used entry |
| CacheTheorems.KeepsMostRecentlyUsed | code/src/turbine/cache.c:59-64 | after any history the cache holds exactly the `capacity - 1` items used last, in the order of their last use |
| CacheTheorems.BudgetKeptIff | code/src/turbine/cache.c:230-250 | a store keeps the lengths within the budget if and only if the item fits into what is left and what the victim gives back |
| CacheTheorems.BudgetExceeded | code/src/turbine/cache.c:230-250 | an item larger than the whole budget stays in the cache |
| CacheIntent.SignedCache.Store | code/src/turbine/cache.c:135-155 | intent: a store followed by the shrinking that is meant leaves what that makes of the list, within the budget, in table and tree |
| CacheIntent.SignedCache.Shrink | code/src/turbine/cache.c:230-250 | intent: the loop ends, with the budget kept, whatever was stored |
| CacheIntent.ShrunkIsShortest | code/src/turbine/cache.c:230-250 | intent: what leaves is the shortest oldest part of the list whose loss brings the rest within the budget |
| CacheIntent.ShrunkIs | code/src/turbine/cache.c:230-250 | intent: what is left is the only end of the list that fits and would not fit with the item before it |
| CacheIntent.NewItemStaysIff | code/src/turbine/cache.c:230-250 | intent: the new item stays if and only if it fits into the budget by itself, and otherwise nothing stays |
| CacheIntent.KeepsLongestThatFits | code/src/turbine/cache.c:59-64 | intent: after any history the cache holds the items used last, as many as fit: no longer end of the history fits into its capacity and its budget |
| CacheClients.CachesAreInvisible | code/lib/data.tcl:161-234 | in any interleaving of stores, cached reads and evictions on many workers the data and read references are always those without caches, and an operation returns the same value or error if and only if it does not hit a cache after the datum was collected or under another type |
| CacheClients.InvisibleFromAnyPoint | code/lib/data.tcl:172-192 | an operation of a run is the same with and without caches, whatever they hold before it, if and only if without caches it is not a read of a collected datum dropping nothing, nor one under another type |
| CacheClients.OtherTypeExample | code/src/tcl/adlb/tcl-adlb.c:2677-2683 | an integer read as a string, which only a cache allows |
| CacheClients.LateReadExample | code/lib/data.tcl:172-178 | a datum read after its last reference was dropped, which only a cache allows |
| CacheSystem.StepIsClients | code/src/turbine/cache.c:100-155 | a worker with a least-recently-used cache does what a client with the same entries does, and then may lose an entry |
| CacheSystem.WorkersAreInvisible | code/lib/data.tcl:161-234 | in any interleaving of any number of such workers the data and read references are always those without caches, and an operation returns the same if and only if it does not hit its cache after the datum was collected or under another type |
| CacheClients.CachedGetIsGet | code/lib/data.tcl:172-192 | a cached read and a plain read leave the same data store, and differ if and only if the cache holds the datum and it was collected and nothing is to be dropped, or it is of another type and its references can be dropped |
| CacheClients.GetDrops | code/lib/data.tcl:172-192 | a plain read takes its references, and with the last of them the datum, if and only if there are so many, also when it fails for the type |
| CacheClients.NeverStoresCached | code/lib/data.tcl:161-192 | what is put into a worker's cache was not in it |
| CacheClients.TrimKeepsNumber | code/lib/data.tcl:161-170 | trimming zeros keeps the number, and leaves the empty text exactly for zeros other than a single one |
| CacheWorker.Worker.Store | code/lib/data.tcl:161-170 | the datum is written once and under its type, an error otherwise, and the cache keeps it as the most recent item, or the worker dies with a cache for one entry |
| CacheWorker.Worker.Retrieve | code/lib/data.tcl:172-192 | the value written under the name, from the cache, whatever the type asked for, or from the data store under its type, with exactly its read references fewer; a hit makes the item the most recent one, a miss keeps it |
| CacheWorker.Worker.MultiRetrieve | code/lib/data.tcl:469-485 | each value read is the one written under its name and each read leaves its datum exactly so many references fewer, cached or not, whatever other workers do in between; it stops at the first that cannot be read, with or without a type to check |
| BuildRuntime.RoundTrip | code/lib/container.tcl:1036-1170 | a value of any nesting is built if and only if its scalars can be stored; it is read back if and only if it is not a scalar and has no empty multiset of references to containers or multisets inside; then it comes back up to order with the same keys, lengths and nesting and each word as its type yields it, and the same altogether when every scalar reads back as it was given |
| Build.SameFinds | code/lib/container.tcl:1046-1170 | what "the same up to order" means: each entry and element of either side has its partner on the other, at every depth |
| Build.StoredIsRestored | code/lib/container.tcl:182-240 | what a value is stored as has its keys, lengths and nesting, and at every leaf the word its type yields |
| Build.RestoredIsOne | code/lib/container.tcl:182-240 | there is one such value only, and it is the value itself when every scalar reads back as it was given |
| BuildRuntime.Store.BuildRec | code/lib/container.tcl:132-246 | succeeds if and only if every scalar can be stored; then the datum stands for the value, each word as its type yields it, and has lost its write references, one for a scalar, every new datum is stored and closed, and no other datum changes |
| Build.BuildingNext | code/lib/container.tcl:167-179 | building the next of the new data leaves those built before closed and standing for their values, and nothing else stored |
| BuildRuntime.Store.BuildMembers | code/lib/container.tcl:153-185 | one new datum for each value, all of them built, if and only if every scalar in them can be stored |
| BuildRuntime.Store.EnumerateRec | code/lib/container.tcl:1046-1170 | reads the value back up to order, and fails exactly on scalars and on such empty multisets; the read references of the outer datum are dropped exactly when its own members could be read, and no other count changes |
| BuildRuntime.Store.ReadMembers | code/lib/container.tcl:1147-1163 | the list of results is unset exactly when there is no member and members are to be read in turn |
| Build.StandsLater | code/lib/container.tcl:132-246 | what a closed structure stands for never changes |
| Inserts.InsertsAreSafe | code/lib/container.tcl:332-398 | in every run of every program the container's references add up, as many members were put in as inserts are over, and it is open while an insert is pending that brought a write reference of its own; only others have ever met it closed |
| Inserts.OpenWhilePending | code/lib/container.tcl:341-398 | a pending insert with a write reference of its own counts, or through a reference datum that stores one, keeps the write count positive |
| Inserts.ClosedIff | code/lib/container.tcl:540-593 | the container is closed if and only if neither the program, nor an insert, nor a live reference datum has a write reference |
| Inserts.GivesBackWhatItTakes | code/lib/container.tcl:546-551 | acquiring through a reference datum and inserting leave the counts as they were |
| Inserts.DeferAndInsert | code/lib/container.tcl:341-398 | a deferred insert costs, from its issue to its end, what it was to drop less the one reference it may have taken to hold the container open: nothing by default |
| Inserts.LastReaderReleases | code/lib/container.tcl:541-551 | a reference datum lets go of the references stored in it with its last reader, and not before |
| Inserts.PendingMoves | code/lib/container.tcl:341-663 | a pending insert that has met no closed container can take its step |
| Inserts.ProgramMay | code/lib/container.tcl:332-398 | the program's calls need only the references it has |
| Inserts.StepKeepsInv | code/lib/container.tcl:341-663 | every step of every program keeps the accounts |
| Inserts.FaultIff | code/lib/container.tcl:540-551 | an insert, of its own or through a reference datum, finds the container closed if and only if nothing has a write reference, and its step is done otherwise |
| Inserts.ReadOnlyExample | code/lib/container.tcl:540-551 | the steps of a program that gets there |

## Left out

- MPI, the ADLB server (which refuses a store under another type than the datum's), the coaster client and the Tcl interpreter: their calls are steps or methods with the
  effects assumed above; failures of memory allocation other than of the packing buffer are not modelled.
- Byte formats of integers, of container headers and of scalars: any self-delimiting length and any scalar
  codec serve; values are words, dicts and lists, not Tcl's texts that can be read as either.
- Lengths beyond 64 bits: the round trips are stated for packed forms below that, as a length is a `size_t`.
- Struct types in `deeprule`, in the serializer and in `build_rec`/`enumerate_rec`.
- Handles and subscripts: joining and splitting texts at dots, which would only add easy members.
- Builds with `NDEBUG`, in which the checks of code/src/tcl/util.h:224-236 do nothing.
- `deeprule` with lists of different lengths or negative nesting levels, which its checks refuse; the action itself.
- Data that was collected: the deep-wait model counts it as closed and keeps the members of closed containers.
- DeepWaitRuntime.Runtime.ContainerDeepWaitIterate: runs without interruption by other tasks; the interleavings are those of the state machine in `DeepWait`.
- CreateNestedRuntime.Server.CreateNested: polls as often as it is given turns, as nothing bounds the source's loop.
- A subscript already set to a read-only reference by hand, and values that are no references, in create-nested.
- AsyncWorker.Worker.Loop: runs for a given number of passes, as the source's loop has no bound.
- Random choice, sleeps and unlimited slots of executors; the content of the result variable; more than one
  launch by one script.
- AsyncExecutors.CheckJobs: a call of the client that never returns counts as one that does not answer.
- AsyncExecutors.NoopExecutor.ChooseCompleted: picks an active slot directly, where the source draws slots until one is active.
- Cache.Cache.CacheShrink: the body of the loop, which is never entered, is modelled only as it is meant, in `CacheIntent`.
- Blobs, files, void variables and the `multi_retrieve_*_decr` procedures, which do not parse.
- Build from values of the wrong shape, containers in place inside containers, and file leaves.
- Collection of data without read references, in `BuildRuntime`: counts are kept, no datum goes away; keys of
  containers are as they read back.
- BuildRuntime.Store.BuildRec: what is left of a build that fails.
- Inserts.StepKeepsInv: one container, modelled on values; the bodies' other reads (`retrieve_decr`) are not counted.
