# A verified model of the PMIx test harness

This project models, in Dafny 4.11, the data structures and protocols inside the PMIx test harness
(`unit/` and `prrte/debug/`), and proves what they keep on every input and in every run. It is checked with

    dafny verify dfyconfig.toml

## What is modelled

**The emulated servers** (`unit/test_server.c`). A set of n server processes forms a star around
server 0, which also has a pipe to itself. `Bytes` and `ProcTable` give the wire format of the
rank-to-server tables, `NspaceTable` the routines that pack and unpack them, `Exchange` what laying
all servers' tables over each other comes to, `Partition` the split of the ranks over the servers.
`StarServer` is one process: what `server_read_cb` makes of a message, as a function and as the routine
that updates the counters, buffers and callbacks step by step. `StarCalls` does the same for the calls a
process makes. `StarSystem` puts n processes and their FIFO pipes together:
a step is a call, the delivery of one message, an answer of the library, or the end of a wait.
`StarFlight`, `StarInvariant`, `StarSteps` and `StarReceive` build the one invariant of the system: the
multiset of all messages under way is exactly what an observer's history says it must be. `StarOwners`
and `StarLaunches` follow the rank tables through whole runs. `StarTheorems` and `StarProgress` draw the
conclusions.

**The intrusive list** (`unit/unit_list.[ch]`): `UnitList` keeps the real `next`, `prev`, owner and
length fields of a circular list with a sentinel, and ties them to a ghost sequence. `FenceExpansion`
runs the loop of `unit/test_fence.c` that rewrites such a list while walking it.

**The class system** (`unit/pmix_object.[ch]`): `ClassTables` builds the constructor and destructor
tables in their one allocation and follows the registry of allocations and the epoch.

**Parsers and printers**: `FenceGrammar` and `FenceReading` (the fence specification: that printed
specifications are read back, and what is read of a text or rejected), `Options`, `OptionReading` and
`OptionPrinting` (parse_cmd option by option, over whole vectors, and against set_client_argv), `ArgvSplit` and `ArgvArray` (`unit/argv.c`), `RankList` (the rank
lists and process maps a server registers), on the C string routines of `CStrings` and the two notions of
`Sequences`.

**State machines over runs**: `ClientStages` and `ClientRuns` (the life of the forked clients),
`ProgressThreads` and `ProgressRuns` (the reference-counted progress threads).

**Comparing outputs**: `Renaming` (the numbering of strings in `prrte/debug/tcfilter.c`) and
`Comparison` (`prrte/debug/compare.py`).

Where the code works by changing things in place, the model does too: methods with loops on fields and
arrays, each proved equal to a function of the old state, about which the lemmas speak. History
variables (a log of stages, of calls, of hooks run) record what happened; the code does not have them.

## Facts about the code that the proofs settle

- `unit_list_insert` at index 0 adds 1 to the length twice, so that the list is well-formed afterwards
  exactly when the index was not 0; `unit_list_get_size` then aborts. Its documentation rejects indexes
  greater than the length; the code rejects equal ones too, and that is what is modelled.
- Servers agree on the owners of a namespace exactly when no rank of it was launched by two of them. With
  `--ns-dist` all servers launch namespaces of the same names and each claims every rank, so that with
  two servers or more the tables agree on no rank; `-s 2 -n 2 --ns-dist 1` is the smallest case.
- cli_terminate frees the namespace string of a client and leaves the pointer. The finalized callback
  reads such a string exactly when an ended client of the same rank stands before the one it is meant
  for, as with `-n 4 --ns-dist 3:1`, and is lost if the freed bytes still read as the name asked for.
  What is proved of the clients' runs holds whatever those bytes are.
- `pmix_argv_delete` keeps the caller's count right exactly when all entries to be deleted existed.
- `pmix_argv_join_range` computes a length of -1 in an unsigned variable exactly when the range takes no
  entry of a non-empty vector and does not start behind its end.
- Splitting with empty fields forgets one empty field at the very end, and nothing else.
- The epoch test of the class system tells current tables from freed ones in every run of fewer than
  2147483647 finalize calls, and in no longer run.
- A `--test-replace` text without a colon makes parse_replace subtract from a null pointer.
- The test `-s` for the namespace in parse_cmd cannot be reached. A negative `--test-internal`, a
  replacement text with a leading dash and `--collect-corrupt` without `-c` do not survive the round trip.
- The filter ends the program on a full table even for strings it knows.
- The rank list is built whole or not at all: it fails exactly from rank 10^9 on.

Sizes that the repository takes from PMIx headers are `PMIX_MAX_NSLEN` = 255 and the wildcard and
undefined ranks; pmix_common.h is not part of this model. The client fields `alive` and `exit_code`, which
`unit/test_server.c` uses and `unit/cli_stages.h` does not declare, are part of the client entry here, and
`pmix_list_t` stands for the same sequence as `unit_list_t`.

## Model

| member | source | states |
|---|---|---|
| StarTheorems.BarrierSafety | unit/test_server.c:502-589 | In every reachable world of n servers, no server has left more barriers than any other has entered, and each waits in at most one. |
| StarTheorems.BarrierAccounting | unit/test_server.c:569-589 | The hub's counter plus the number of barrier requests under way, every copy counted, is the number of servers that asked and were not answered; every such request is from a server to the hub. |
| StarTheorems.FenceRounds | unit/test_server.c:590-627 | The k-th completion at any server fires the callback of its own k-th contribution with the concatenation, in one order common to all servers, of exactly the n k-th contributions; that order is a permutation of the servers. |
| StarTheorems.FenceInStep | unit/test_server.c:590-675 | A server has at most one contribution open, and completes no round before every server has contributed to it. |
| StarTheorems.TableAgreement | unit/test_server.c:243-299 | Whatever ranks the servers claim, and however many namespaces they launch: once all have completed an exchange, their tables name the same owners of that namespace if and only if no rank was claimed by two servers. |
| StarTheorems.LaunchedOwner | unit/test_server.c:243-299 | After an exchange, however many follow, a server's table names itself for its own claims and else the first claimant in the order of arrival at the hub, or nobody. |
| StarTheorems.SplitAgreement | unit/test_server.c:1023-1035 | One namespace split over the servers: once a server's exchange has completed, its map is total and gives every rank the one server whose interval holds it, whatever the arrival order. |
| StarTheorems.SharedNamesDisagree | unit/pmix_test.c:116-132 | With `--ns-dist` no two servers agree on the owner of any rank. |
| StarTheorems.WholeNsExchange | unit/pmix_test.c:116-132 | Exchanging tables in which every server claims every rank changes none of them. |
| StarTheorems.NsDistInput | unit/test_server.c:1009-1018 | The smallest failing input: two servers, one rank, two owners. |
| StarLaunches.TablesSettle | unit/test_server.c:466-500 | After its first k completions in any run a server's table is the one that the launches and arrival orders determine; later exchanges, which send every older namespace again, change nothing. |
| StarTheorems.ModexAnswers | unit/test_server.c:628-645 | Every completed modex fired the callback its requester stored, with the data answered to this request at the server that the requester's table names, and still names, as the rank's owner. |
| StarTheorems.ModexAsksOwner | unit/test_server.c:729-771 | In every reachable world each open request is addressed to the server that the requester's table names, and still names, as the rank's owner. |
| StarTheorems.ModexAsksLauncher | unit/test_server.c:711-771 | In every run a server is asked only for a rank that it launched itself, however the ranks were launched. |
| StarTheorems.ModexSplitOwner | unit/test_server.c:711-771 | With one namespace split over the servers every request, open or answered, went to the one server whose interval holds the rank. |
| StarOwners.UnpackKnows | unit/test_server.c:243-299 | Unpacking any bytes at all keeps every owner already known. |
| StarOwners.RunKnown | unit/test_server.c:537-771 | No step of any run makes a server forget or change an owner that one of its requests relies on. |
| StarTheorems.ModexReachesOwner | unit/test_server.c:628-639 | The requests before a server's library are exactly the open requests addressed to it that it has received, each once. |
| StarTheorems.ModexRoutes | unit/test_server.c:729-771 | A call for a known rank sends one request, addressed to the server the table names as owner, and opens it in the log. |
| StarTheorems.StarRouting | unit/test_server.c:402-452 | A message waits only in its sender's pipe to the hub and then in the pipe of its destination. |
| StarTheorems.ForwardedOnce | unit/test_server.c:562-566 | A message read by the hub for another server moves unread to the end of that server's pipe, and nothing else changes; only messages of leaves are forwarded. |
| StarProgress.InternalStep | unit/test_server.c:537-651 | Every delivery, library answer and wake-up lowers a potential. |
| StarProgress.NoDeadlock | unit/test_server.c:502-527 | When all n servers have entered k barriers and made r contributions, a run of internal steps is no longer than the potential, and ends only with all k barriers left, all r rounds completed, every modex answered, and no server that made just these contributions still waiting in server_send_procs unless it aborted. |
| StarProgress.BarrierReleases | unit/test_server.c:502-527 | At rest, every server has left its k-th barrier once all have entered it. |
| StarProgress.FenceReleases | unit/test_server.c:590-627 | At rest, every server has completed its k-th contribution once all have made it. |
| StarProgress.ModexReleases | unit/test_server.c:711-771 | At rest, no modex is open. |
| StarProgress.ProcsRelease | unit/test_server.c:466-500 | At rest a server waits in server_send_procs only while another has contributed less, or after an abort. |
| StarReceive.NextInv | unit/test_server.c:537-651 | Every step of the system keeps the invariant: messages under way, counters, buffers, callback slots and tables are what the history demands. |
| StarServer.ServerProcess.Receive | unit/test_server.c:537-651 | Handling one message, branch by branch, has the effect of the specification on counters, buffer, table, links, messages sent and callbacks fired. |
| StarServer.ServerProcess.SendMsg | unit/test_server.c:427-452 | The hub picks the destination's pipe, a leaf its only one. |
| StarCalls.ServerBarrier | unit/test_server.c:502-527 | Locks the own link and sends one request to the hub. |
| StarCalls.ServerFenceContrib | unit/test_server.c:653-675 | Stores the callback in the own link and sends the data to the hub. |
| StarCalls.ServerSendProcs | unit/test_server.c:466-500 | Stores the table callback, locks the link and sends the packed table. |
| StarCalls.ServerDmdxGet | unit/test_server.c:729-771 | Looks the owner up, stores the callback in the link that leads there and sends one request to the owner; fails exactly when nothing is sent, namely when the first namespace of that name names no owner at that rank or no link leads there, and then changes nothing. |
| StarCalls.RequestExact | unit/test_server.c:729-771 | The same of the step of the system, said of the task map and the links: when it fails, and else which request goes where and which slot holds the callback. |
| StarCalls.CallsAreSteps | unit/test_server.c:466-527 | The steps of the system that a process takes by itself are exactly these routines. |
| NspaceTables.NspaceTable.FindServer | unit/test_server.c:124-134 | The owner in the map of the first namespace with that name; apart: no such namespace, and a rank outside the map, negative ones included. |
| NspaceTables.NspaceTable.Pack | unit/test_server.c:301-351 | The bytes written are the packed table, and fill the buffer exactly when the cached local counts are right. |
| NspaceTables.NspaceTable.Unpack | unit/test_server.c:243-299 | Reading a buffer merges it into the table as specified, or stops at bytes that no sender writes. |
| ProcTable.PackedSizeExact | unit/test_server.c:301-351 | The size computed beforehand equals the bytes written if and only if the local counts add up to the ranks owned by the sender. |
| ProcTable.HeaderFields | unit/test_server.c:326-340 | Where server, name and the two sizes of an entry stand in the bytes. |
| ProcTable.UnpackPackProcs | unit/test_server.c:243-351 | Unpacking a packed table with anything behind it consumes exactly its bytes, merges it, and goes on with the rest: a concatenation is unpacked one by one. |
| ProcTable.RoundTrip | unit/test_server.c:243-351 | An empty receiver rebuilds every namespace with its sizes and exactly the sender's ranks. |
| ProcTable.DmdxRoundTrip | unit/test_server.c:677-709 | Sender, namespace and rank of a modex request survive the wire. |
| Exchange.UnpackRound | unit/test_server.c:243-299 | Unpacking the buffers of all servers in any order settles the namespace launched last: own claims stay, every other rank goes to the first claimant; older namespaces do not change. |
| Partition.SharesPartition | unit/test_server.c:915-917 | The quotient and remainder intervals partition the ranks: a rank is in the interval of exactly one server. |
| Partition.BaseClosedForm | unit/pmix_test.c:107-111 | The loop value is the interval start in closed form: i times the quotient, and one more for each of the first servers that share the remainder. |
| Partition.ComputeBaseRank | unit/pmix_test.c:107-111 | The loop arrives at the start of the server's interval, which ends within the job. |
| Partition.FillTaskMap | unit/test_server.c:1023-1035 | The map a server starts with names it for its interval and nobody for the rest. |
| Partition.GatherAgrees | unit/test_server.c:243-299 | Unpacking the n packed tables in any order over any server's own gives the same total map. |
| UnitList.List.Splice | unit/unit_list.c:193-216 | A range of one well-formed ring moves in front of a node of another: both stay well-formed with right lengths and owners, and nothing else moves; within one list it is a block move. |
| UnitList.List.Join | unit/unit_list.c:178-190 | All items of another list move in front of a node; the other list is left empty. |
| UnitList.Transfer | unit/unit_list.c:148-175 | Six pointer assignments cut the range out of one ring and link it into the other. |
| UnitList.MovedPermutes | unit/unit_list.c:193-216 | Splicing within one list is a permutation. |
| UnitList.MovedIsCutAndPasted | unit/unit_list.c:193-216 | Within one list the block is cut out, the rest keeps its order, and the block stands whole in front of the node. |
| UnitList.List.Insert | unit/unit_list.c:106-145 | Inserts at the index if it is below the length, and leaves a well-formed list exactly when the index is not 0. |
| UnitList.List.InsertPlaces | unit/unit_list.c:106-145 | The item stands at the index asked for; for a negative one behind the first item. |
| UnitList.List.RemoveItem | unit/unit_list.h:474-512 | Takes out an item of the list and returns its predecessor; leaves the list alone when the item is not in it. |
| UnitList.List.RemoveFirst | unit/unit_list.h:629-668 | Takes out the first item, or reports an empty list. |
| UnitList.List.RemoveLast | unit/unit_list.h:687-725 | Takes out the last item, or reports an empty list. |
| UnitList.List.Append | unit/unit_list.h:532-564 | Adds one item at the end. |
| UnitList.List.Prepend | unit/unit_list.h:580-610 | Adds one item at the front. |
| UnitList.List.InsertPos | unit/unit_list.h:736-762 | Adds one item in front of a node. |
| UnitList.List.GetSize | unit/unit_list.h:428-450 | Returns the number of items, and aborts exactly if the cached length is another. |
| FenceExpansion.ExpandWildcards | unit/test_fence.c:164-182 | The loop ends although the list grows under it; it fails exactly when a wildcard's namespace cannot be resolved, and else leaves the concrete participants in order followed by what each wildcard has left in turn: ranks 0, 1, ... up to the size of its namespace, in a well-formed ring. |
| FenceExpansion.ResolvableExact | unit/test_fence.c:164-182 | The loop fails exactly if some wildcard is of a namespace to which `--ns-dist` gives no ranks. |
| FenceExpansion.ExpandedNotWild | unit/test_fence.c:164-182 | No wildcard is left. |
| FenceExpansion.GetAllRanks | unit/test_common.c:615-653 | The ranks 0, 1, ... of a namespace in order; there are as many as the size given for all, or as the namespace's number in `--ns-dist` says; fails exactly for a number that is not there or 0. |
| FenceExpansion.RanksExact | unit/test_common.c:615-653 | Which namespaces have a size, which size, and which ranks. |
| ClassTables.FillTables | unit/pmix_object.c:119-155 | Two moving pointers fill the one allocation exactly: constructors root first, end marker, destructors leaf first, end marker. |
| ClassTables.CountHooks | unit/pmix_object.c:101-117 | The walk to the root counts the depth and the hooks that are not NULL. |
| ClassTables.TablesExtendParent | unit/pmix_object.c:119-155 | A class's constructor table is its parent's and then its own constructor; its destructor table its own destructor and then its parent's. |
| ClassTables.ClassSystem.Initialize | unit/pmix_object.c:73-163 | Builds, stamps and registers the tables when the stamp is not the current epoch; changes nothing else. |
| ClassTables.ClassSystem.SaveClass | unit/pmix_object.c:195-223 | The registry grows by one entry, in a larger array if the old one is full. |
| ClassTables.ClassSystem.Finalize | unit/pmix_object.c:169-192 | Frees every allocation ever made and not yet freed, each once, empties the registry and moves the epoch on. |
| ClassTables.ClassSystem.StampedIsLive | unit/pmix_object.h:421-436 | A class stamped with the current epoch has its tables built, registered and not freed, if and only if the stamp is not a multiple of 2147483647 finalize calls old. |
| ClassTables.ClassSystem.LiveWithinBound | unit/pmix_object.c:169-177 | In a run of fewer than 2147483647 finalize calls every class stamped with the current epoch has its tables built, registered and not freed. |
| ClassTables.EpochTestSound | unit/pmix_object.c:169-177 | In all runs of up to a bound of finalize calls equal stamps mean the same epoch, if and only if the bound is below 2147483647. |
| ClassTables.EpochStep | unit/pmix_object.c:173-177 | The epoch counts up from 1 and wraps to 1. |
| ClassTables.Object.RunConstructors | unit/pmix_object.h:375-386 | Runs exactly the constructors of the hierarchy, root first. |
| ClassTables.Object.RunDestructors | unit/pmix_object.h:397-408 | Runs exactly the destructors of the hierarchy, leaf first. |
| ClassTables.Object.Release | unit/pmix_object.h:286-297 | Drops a reference; the last one runs the destructors, once. |
| ClassTables.ClassSystem.New | unit/pmix_object.h:421-436 | A new object with one reference, constructed from live tables. |
| FenceGrammar.ParsePrintedSpecs | unit/test_common.c:319-504 | For every list of descriptors in the documented syntax, both passes accept the printed text and yield one descriptor per bracket group, in order, with exactly the ranks meant. |
| FenceReading.ReadEach | unit/test_common.c:482-504 | Several descriptors are read one by one, each as it would be alone. |
| FenceReading.ReadGroups | unit/test_common.c:329-382 | A descriptor is read with its own two flags, and its groups one after the other. |
| FenceReading.ReadPicks | unit/test_common.c:404-474 | The participants of two lists of ranks in a row are those of the one followed by those of the other. |
| FenceReading.ReadRange | unit/test_common.c:404-474 | The printed range a-b of namespace n is read as the b-a+1 participants smoky_nspace-n with ranks a, a+1, ... b. |
| FenceReading.ReadOne | unit/test_common.c:404-474 | A single rank is read as that one participant. |
| FenceReading.ReadEveryone | unit/test_common.c:404-416 | A group without ranks is read as the wildcard of its namespace. |
| FenceReading.RangeExact | unit/test_common.c:417-473 | Any two texts with a dash between: the ranks read, only the second number if the first is not below it, and that it is malformed exactly if one of them is no number. |
| FenceReading.RanksInTurn | unit/test_common.c:417-473 | The parts between commas are read in turn, and one malformed part makes the whole malformed. |
| FenceReading.DescRejected | unit/test_common.c:329-382 | A descriptor is malformed exactly for a flag other than d, b and blank before the bar, or for a malformed group. |
| FenceReading.GroupRejected | unit/test_common.c:383-403 | A group is malformed exactly without a colon, without a number before it, or for its ranks. |
| FenceReading.FencesRejected | unit/test_common.c:482-504 | Every malformed bracket group adds one to the count, and a bracket that stays open is reported. |
| FenceGrammar.RangeInclusive | unit/test_common.c:418-430 | A range a-b stands for all ranks from a to b, both included. |
| FenceGrammar.FenceParser.ParseFence | unit/test_common.c:482-504 | The bracket loop counts the malformed descriptors or appends the descriptors read; an open bracket gives 1. |
| FenceGrammar.ParseDesc | unit/test_common.c:329-382 | The flags before the bar, blanks ignored, and the groups behind it. |
| FenceGrammar.ScanRanks | unit/test_common.c:404-474 | The character loop with its two variables reads a list of ranks and ranges as specified. |
| ClientRuns.FinalizedCountExact | unit/server_callbacks.c:73-105 | While test_abort is false, finalized_count is the number of clients in FIN or TERM, even after callbacks that read freed names. |
| ClientRuns.AbortExact | unit/cli_stages.c:85-94 | test_abort is raised exactly by an abort callback, a client finalized twice, or a client gone without having finalized. |
| ClientRuns.CleanHistories | unit/cli_stages.c:186-196 | If the test ends without abort, every client went through FORKED, FIN and TERM once each, in that order. |
| ClientRuns.PidsOfTheRunning | unit/cli_stages.c:129-142 | An entry names a process exactly while its client is FORKED or FIN; it is given TERM once at most, and then last. |
| ClientRuns.EndedForGood | unit/cli_stages.c:198-248 | No event changes a client in TERM; none is reaped twice. |
| ClientRuns.WaitAllExact | unit/cli_stages.c:198-248 | In every reached state, when waitpid names a process every entry with that pid ends in TERM and every other entry is as before; test_abort is set exactly if it was, or one of them was still FORKED. |
| ClientRuns.ChildExact | unit/test_server.c:785-837 | The same for one child of the SIGCHLD handler, which ends the first entry with its pid, notes the exit code, and declares the test complete exactly when nobody is alive. |
| ClientRuns.ChildrenInTurn | unit/test_server.c:785-837 | Several children are handled one after the other, before the handler asks whether anybody is alive. |
| ClientRuns.KillAllTerminates | unit/cli_stages.c:250-267 | cli_kill_all leaves every launched client in TERM. |
| ClientRuns.KillAllExact | unit/cli_stages.c:250-267 | cli_kill_all ends exactly the clients that run, leaves all others alone, and raises test_abort exactly if one of them had not finalized. |
| ClientRuns.ReleasedOnce | unit/server_callbacks.c:94-100 | The published list is released at most once, and without abort only when all clients have finalized. |
| ClientRuns.CompleteWhenGone | unit/test_server.c:785-837 | When the SIGCHLD handler declares the test complete, every launched client is in TERM. |
| ClientRuns.FreedNameRead | unit/cli_stages.c:129-142 | The callback reads a freed name exactly if an ended client of that rank stands before the one it is meant for. |
| ClientRuns.CallbackCounted | unit/server_callbacks.c:73-105 | A callback for a running client is counted for it exactly if no freed name in the way reads as the name asked for; else no client changes. |
| ClientRuns.OneNamespaceSafe | unit/server_callbacks.c:73-105 | When no two clients share a rank, a running client's callback reads no freed name and is counted. |
| ClientRuns.TwoNamespacesTouch | unit/server_callbacks.c:73-105 | The run of `-n 4 --ns-dist 3:1` in which nothing has gone wrong and a callback reads a freed name and can be lost. |
| ClientStages.ClientTable.CliCleanup | unit/cli_stages.c:144-183 | The recursion ends and takes the entry through the remaining stages, freeing its name. |
| ClientStages.ClientTable.FinalizedCallback | unit/server_callbacks.c:73-105 | The first entry with that rank whose name, or what is left of it, compares equal is finalized and counted, unless it has ended; whether a freed name was read is noted. |
| ClientStages.ClientTable.TestTerminated | unit/cli_stages.c:186-196 | True exactly if all clients have ended or the test was aborted. |
| ClientStages.ClientTable.ReapAll | unit/cli_stages.c:213-226 | Every entry with the reaped pid is cleaned up. |
| ClientStages.ClientTable.KillEveryone | unit/cli_stages.c:250-267 | Every entry that was launched and has not ended is cleaned up. |
| ClientStages.ClientTable.SigchldHandler | unit/test_server.c:785-837 | For each reaped child the first entry with its pid is cleaned up and no longer alive; complete is set if nobody is alive. |
| ArgvSplit.JoinOfSplit | unit/argv.c:197-269 | Joining the fields of a string gives it back, less a delimiter at its end. |
| ArgvSplit.SplitOfJoin | unit/argv.c:197-352 | Splitting a joined vector of delimiter-free entries gives it back, less an empty last entry. |
| ArgvSplit.RoundTripExact | unit/argv.c:197-352 | It gives the vector back if and only if that is empty or its last entry is not. |
| ArgvSplit.SplitFilters | unit/argv.c:260-269 | Split is split_with_empty without the empty fields, none of which holds the delimiter. |
| ArgvSplit.SplitStable | unit/argv.c:197-352 | Joining the fields found by split and splitting again finds the same fields. |
| ArgvSplit.TokensAreSplit | unit/argv.c:260-269 | The fields are those that strtok yields. |
| ArgvSplit.SplitLoop | unit/argv.c:197-257 | The nested pointer loops cut the string into the fields specified. |
| ArgvSplit.Fill | unit/argv.c:325-346 | The fill loop writes exactly the sum of the lengths plus one less than the number of entries, the joined string, and its pointers never pass the last entry. |
| ArgvSplit.JoinAll | unit/argv.c:303-352 | Joins all entries, or gives the empty string for none. |
| ArgvSplit.JoinRangeLoop | unit/argv.c:359-408 | Joins the entries of the range that exist, or runs into the underflow, as specified. |
| ArgvSplit.RangesCompose | unit/argv.c:359-408 | When exactly the length underflows; and two adjacent ranges joined and put together are the whole range joined. |
| ArgvSplit.RangeTakes | unit/argv.c:359-408 | An end past the last entry counts as the last, one entry is itself, and there is nothing in an empty vector or behind its end. |
| ArgvArray.Argv.Append | unit/argv.c:51-89 | One more entry at the end of a reallocated, NULL-terminated array. |
| ArgvArray.Argv.Prepend | unit/argv.c:91-123 | One more entry in front, the others shifted by one. |
| ArgvArray.Argv.AppendUniqueIdx | unit/argv.c:125-151 | The index of the first equal entry, which is appended only if there was none. |
| ArgvArray.Argv.Delete | unit/argv.c:463-513 | What is removed, what is returned, and what becomes of the count in every case; a count that was right stays right if and only if all entries to delete existed, or nothing was deleted. |
| ArgvArray.Argv.Insert | unit/argv.c:516-567 | The entries go in at the start given, or to the end if it is behind it. |
| ArgvArray.Argv.InsertElement | unit/argv.c:569-606 | The same for one entry. |
| ArgvArray.InsertedAt | unit/argv.c:516-567 | Where every old and new entry stands after an insertion. |
| ArgvArray.DeletedAt | unit/argv.c:463-513 | Which entries are left after a deletion, and where. |
| ArgvArray.DeleteUndoesInsert | unit/argv.c:463-567 | Deleting what was inserted gives the vector back, wherever it went. |
| ArgvArray.InsertUndoesDelete | unit/argv.c:463-567 | Inserting what was deleted, as much as was there, gives the vector back. |
| Options.ParseLoop | unit/test_common.c:71-248 | The loop over the arguments does what the option by option specification says, including the exits. |
| OptionReading.NumberRead | unit/test_common.c:123-152 | `-s`, `-t` and `-r` with a number, in either spelling, set their one field, a timeout of 0 meaning 10, and leave every other field alone. |
| OptionReading.NspaceNumberRead | unit/test_common.c:71-248 | The same for `--ns-size`, `--ns-id`, `--base-rank` and `-n`, which fills in the size of the namespace only if that is unset. |
| OptionReading.SettingsRead | unit/test_common.c:71-248 | Any vector of options is applied one option after the other, in either spelling. |
| OptionReading.LastNumberDecides | unit/test_common.c:71-248 | The last occurrence of a numeric option decides; a field whose option does not occur keeps its value. |
| OptionReading.NspaceSizeDecides | unit/test_common.c:71-248 | The size of the namespace is the last `--ns-size`, or else what it was, or else the first `-n`. |
| OptionReading.LastTextDecides | unit/test_common.c:71-248 | The last occurrence of a text option decides; a flag is set exactly if it was or its option occurs. |
| OptionReading.FinishExact | unit/test_common.c:225-234 | The binary has a default, the namespace is never set, and `--collect-corrupt` collects exactly on odd ranks. |
| OptionReading.ArgumentMissing | unit/test_common.c:71-248 | An option without its argument at the end of the vector changes nothing, save `--test-replace` and `--test-internal` with their defaults, and `--gds`, which crashes. |
| Options.ParseReplace | unit/test_common.c:532-595 | Crashes exactly on a text without a colon; else accepts exactly the texts with a count and keys below it, and stores those keys in order. |
| OptionReading.ReplaceExact | unit/test_common.c:532-595 | The printed count and keys are accepted exactly if every key is below the count, and those keys are stored. |
| OptionReading.WrongKey | unit/test_common.c:532-595 | A key that is empty or no number is rejected wherever it stands. |
| OptionReading.NoiseExact | unit/test_common.c:506-530 | A noise text is accepted exactly without a bracket, or with one that is closed at the end around a well-formed list. |
| OptionReading.FencesExact | unit/test_common.c:482-504 | A fence text without brackets is accepted, one with an open bracket rejected, and else the first descriptor and the rest decide. |
| Options.NspaceNeverRead | unit/test_common.c:123-149 | No argument vector ever sets the namespace. |
| OptionPrinting.SetClientArgv | unit/utils.c:21-96 | The chain of conditional appends prints the binary and then the options specified, in order. |
| OptionPrinting.PrintedIsRead | unit/test_common.c:71-248 | Reading any printed list of options applies their effects one after the other. |
| OptionPrinting.RereadFields | unit/utils.c:21-96 | What becomes of every flag, text and number on the way through printing and parsing, for all parameters and arbitrary texts; the program exits exactly when a specification is rejected, and crashes when that is a replacement text without a colon. |
| OptionPrinting.RoundTripExact | unit/utils.c:21-96 | Every printed field is restored if and only if the parameters are well-formed. |
| OptionPrinting.PrintedFencesAccepted | unit/test_common.c:156-164 | Fence specifications in the documented syntax pass on to the clients. |
| RankList.FillSeqRanksArray | unit/test_server.c:102-122 | Below 10^9 nothing is truncated and the result is the joined decimal ranks; from 10^9 on there is none. |
| RankList.BuildProcMap | unit/test_server.c:193-221 | With two servers and a rank on each, either server builds the same process map. |
| RankList.ProcMapListsAll | unit/test_server.c:193-221 | Split at its separators that map lists every rank once, in order. |
| ProgressRuns.RegistryAccounts | unit/unit_progress_threads.c:109-314 | In every run names are unique, a reference count is inits less stops and at least one, and an engine is active exactly while its handle is live. |
| ProgressRuns.GuardNeverRefuses | unit/test_common.c:37-56 | The handle guard never refuses a start, and finalize never changes anything. |
| ProgressRuns.FreedOnce | unit/unit_progress_threads.c:55-68 | Every event base is held once or freed once, every thread runs once or is joined once. |
| ProgressRuns.FreedAtLastStop | unit/unit_progress_threads.c:192-227 | An event base is freed by the stop that matches the last init outstanding, and by nothing else. |
| ProgressRuns.InitExact | unit/unit_progress_threads.c:134-190 | A tracked name gets the base it has, counted up; a new name a new base and a thread that no one had before. |
| ProgressRuns.StopExact | unit/unit_progress_threads.c:192-227 | Stop succeeds exactly while more inits than stops were made of the name, and what becomes of tracker, base and thread. |
| ProgressRuns.PauseExact | unit/unit_progress_threads.c:262-287 | Pause succeeds exactly for a tracked name, and joins its thread if that runs. |
| ProgressRuns.ResumeExact | unit/unit_progress_threads.c:289-314 | Resume is busy exactly if the engine is active, and gives a paused one a new thread. |
| ProgressRuns.FinalizeExact | unit/unit_progress_threads.c:229-260 | Finalize changes nothing and tells whether the name is tracked. |
| ProgressRuns.OthersUntouched | unit/unit_progress_threads.c:134-314 | No operation touches the tracker of another name. |
| ProgressRuns.PauseResume | unit/unit_progress_threads.c:262-314 | A pause and a resume leave an engine running on a new thread; of all else only the thread it had is joined, if it was running. |
| ProgressThreads.Registry.ThreadInit | unit/unit_progress_threads.c:134-190 | Counts up a known name, or creates and starts a tracker. |
| ProgressThreads.Registry.ThreadStop | unit/unit_progress_threads.c:192-227 | Counts down, and at zero joins the thread, frees the base and forgets the name. |
| ProgressThreads.Registry.ThreadResume | unit/unit_progress_threads.c:289-314 | Starts a paused engine; busy, if it is active. |
| Renaming.Filter.ReplaceText | prrte/debug/tcfilter.c:94-138 | The match's number is its place in the table, at the end of which a new match is put; its tag stands in its place, with the text before and behind untouched; fails exactly on a full table. |
| Renaming.AssignExact | prrte/debug/tcfilter.c:94-138 | The number of a match is its first place in the new table, which grows by exactly the new matches. |
| Renaming.SameNumberExact | prrte/debug/tcfilter.c:89-138 | Two matches get the same number if and only if they are equal; numbers count first occurrences. |
| Renaming.SameNumbersExact | prrte/debug/tcfilter.c:89-138 | Two runs use the same numbers if and only if their matches differ by a one-to-one renaming. |
| Renaming.ExitExact | prrte/debug/tcfilter.c:101-105 | The program gets through exactly the sequences with at most 99 different strings before the last match. |
| Renaming.TagsDistinct | prrte/debug/tcfilter.c:131-133 | Tags are equal exactly when their numbers are. |
| Comparison.Compare | prrte/debug/compare.py:27-120 | The nested loops compute the report specified. |
| Comparison.ReportExact | prrte/debug/compare.py:46-120 | Which lines are missing, extra and mismatched, with their counts, in terms of both files. |
| Comparison.ExitZeroExact | prrte/debug/compare.py:118-120 | The exit code is 0 if and only if the files are equal as multisets of lines. |
| Comparison.OrderIrrelevant | prrte/debug/compare.py:118-120 | The order of the output's lines does not change the exit code. |

## Left out

- StarServer.ServerProcess.Receive: messages arrive whole; partial reads and writes and their error codes are not modelled. A message that makes the code abort or call an unset callback sets `aborted`.
- StarTheorems.FenceRounds: callers keep one contribution and one modex open per link, as the single callback slot of a link demands; what overlapping calls would do is not modelled.
- StarTheorems.TableAgreement: the servers launch the same namespaces in the same rounds, under distinct names, as the main program does; a fence of an early client that meets another server's launch in one round is not covered.
- StarTheorems.ModexRoutes: the table names existing servers, as it does after an exchange; a rank outside the map of its namespace is excluded, as the code would read outside the array.
- NspaceTables.NspaceTable.Pack: is called with a requested size of 0, as its only caller does; a positive one makes the code clear more than it allocated.
- ProcTable.RoundTrip: bytes of a name behind its NUL are taken as zero.
- UnitList.List.Join: a list is not joined with itself; the code does not support that either.
- UnitList.List.RemoveItem: the search of the debug configuration is modelled, which rejects items of other lists.
- FenceExpansion.ExpandWildcards: sizes in `--ns-dist` are ranks, neither negative nor the wildcard.
- ClassTables.ClassSystem.Initialize: the preinitialised root class, whose tables are NULL, is outside the system; the second look at the stamp under the mutex is the same as the first, as calls do not overlap.
- ClassTables.Object.Release: an object is not released after its class was finalized, when its destructor table is gone.
- ClientStages.ClientTable.CliCleanup: CONNECTED and DISCONN cannot be reached with the table set in cli_init; their branches are not modelled.
- ClientStages.ClientTable.FinalizedCallback: a read of freed memory yields some bytes, that is some outcome of the comparison; that it ends the process is not modelled. Callbacks name a rank of a process, not PMIX_RANK_UNDEF.
- ClientStages.ClientTable.LaunchOne: forking a client is one step, and no more clients are launched than the table holds.
- ArgvSplit.JoinRangeLoop: a start beyond the range of int, which the code casts, is not modelled.
- Options.ParseReplace: keys of more than 31 characters, which overrun a buffer, are not modelled.
- Options.ParseLoop: the SLURM and environment fallbacks behind the loop are left out.
- RankList.FillSeqRanksArray: the ranks and the buffer size are within the range of int.
- ProgressThreads.Registry.ThreadInit: allocations and thread creation succeed.
- Renaming.Filter.ReplaceText: texts fit the fixed buffers; the rescan loop and the regular expressions that yield the matches are left out.
- unit_list_sort and qsort; publish, lookup and unpublish over the published list, which are linear searches.
- cli_connect and cli_disconnect, the polling loop around cli_wait_all and its time limits, signals, fork and exec.
- The PMIx library, libevent, logging, debug file and line tags, and failures of malloc.
- The stand-alone clients, the API checks of `unit/test_*.c` other than the wildcard loop, and the Python drivers: linear scripts.
