# A verified model of the secure-kernel RPC stack

The repository lets a normal world (an ordinary operating system) call trusted applications in a secure world. A call
goes through a client library with reference-counted context ids, a byte codec, a transport, and a server that keeps
contexts, sessions and registered memory in linked tables under random 16-byte handles. This project models that
stack and proves what it keeps.

How the parts fit together:

| file | part |
|---|---|
| `Bytes`, `Fields`, `Wire`, `Packing` | big-endian bytes, bounds-checked fields, the nine message kinds, and their packing and unpacking routines |
| `Manifest`, `HexTools` | the packed TApp manifest, and the hexadecimal printer and parser of the manifest tool |
| `Rc4`, `HandlePlugin` | the in-place generator, and handles drawn from it into slots |
| `ServerModel`, `ServerRequests`, `ServerRuns`, `ServerAnswers`, `Counting` | the secure world's table as a value, its request handlers, what holds over every run, and what each request is answered when |
| `SessionChains`, `ConnectionTable`, `RegisteredMemory`, `ServerTapi` | the same table in memory: classes with next and prev pointers, updated in place and proved against the value |
| `ClientModel`, `ClientRuns`, `ClientAnswers`, `NwldTapi`, `ClientExamples` | the normal world's table as a value, over every run, what each call returns when, in memory, and its two failures at an input |
| `HandleLinks`, `Channel`, `EndToEnd`, `Granted`, `FirstRun` | client and servers together, over every run, through packed bytes, and what a granted call means at its server |
| `CommStream`, `Comm` | the TCP marshalling of operations over two byte streams |

Each request handler exists twice. The function on values is the specification; the method of the class that updates
fields, arrays and pointers in place ensures that its answer and its new state are the specification's. The theorems
about runs are stated over the functions, so they hold of the methods.

Main results:

* A client's stored handles never dangle (`EndToEnd.HandlesNeverDangle`): over every run of a client and its servers,
  each open connection names an active context of its own and each open session an active session of that very
  context. Two assumptions go in: the channel is reliable, and no slot opened gets the handle of another slot.
* What a success told to the caller means at the server (`Granted.SessionGranted`, `Granted.CommandGranted`,
  `Granted.RegionGranted`), and the exact conditions of every answer on either side (`ServerAnswers`, `ClientAnswers`).
* The server's invariant over every run of arbitrary bytes (`ServerRuns.EveryReachableState`), kept by pointer surgery
  in memory (`ConnectionTable`, `ServerTapi`).
* Exact conditions under which assertions of the server fire, where the code does not keep the law its assertions
  express (`ServerRuns.CountIsExact`, `ServerRuns.OpenContextHaltsWhen`, `ServerRuns.CloseContextHaltsWhen`,
  `ServerRuns.OpenSessionHaltsWhen`), with a run for each failure (`ServerRuns.FourRequestsToHalt`,
  `ServerRuns.FourRequestsPastTheTable`) and the condition on runs under which the counter stays exact
  (`ServerRuns.CleanRunsNeverHaltThere`).
* Exact reference counts of the client, leaks included (`ClientRuns.EveryReachableClient`, `ClientRuns.ReleasedWhen`),
  the exact condition for a leak on what the caller passes, the tables and the answer (`ClientRuns.LeaksWhen`), and what
  a leak costs (`ClientRuns.LostForGood`).
* A complete TCP call leaves both streams in step and moves exactly the buffers with an odd flag (`Comm.Rpc`,
  `CommStream.RequestTells`).
* Every message and the manifest are bijective prefix codecs; RC4 keeps its permutation, never merges states and never
  enters its short cycle; the hexadecimal parser undoes the printer.

Conventions. An assertion of the source (`SYSV_ASSERT`, which ends the process in non-release builds) is either proved
to hold or modelled as an outcome (`Halt`, `Aborted`, `Stopped`). Capacities are parameters. The normal world's calls
take what the channel returns as a parameter, so their theorems hold for any reply bytes; `EndToEnd` then puts a server
behind the channel. The server's handlers take what lies outside the program as an `Env`: results of the TApp loader,
the TApp, the allocator and the memory driver, and the stack bytes that an error reply carries in its handle field.
`Table.draws`, `Table.stale` and `Client.leaks` record history that the program does not keep; no decision reads them.

Where the code and its comments disagree, the model follows the code:

* The slot scan of open_context is followed by an assertion marked as unreachable (src/swld/tapi.c:622). It is
  reachable, because close_context decrements the count also when it has refused to remove the context
  (src/swld/tapi.c:752-760).
* Buffers flagged `SKTEEC_MEMREF_INOUT` (2) do not have the bit that the transport tests, so their contents are not
  sent to the secure world (src/platform/tcp/nwld/sk_drv_nwld_comm.c:204); `SKTEEC_MEM_ALLOCATE` (3) has it.
* Only the first connection gets a session table, and closing it discards the table
  (src/nwld/sk_drv_nwld_tapi.c:146-161, src/nwld/sk_drv_nwld_tapi.c:567); a session agreed on any other connection
  ends the client (`ClientRuns.PerformKeeps`, with the run in `ClientExamples.ASecondConnectionAborts`).
* An open_context that fails after it has taken its count gives nothing back (src/nwld/sk_drv_nwld_tapi.c:297-393), so
  the context id's slot is never free again (`ClientExamples.ARefusedOpenLeaks`).

## Model

| member | source | states |
|---|---|---|
| EndToEnd.HandlesNeverDangle | src/nwld/sk_drv_nwld_tapi.c:396-401 | In every state of every run of client and servers over reliable channels with fresh handles, each open connection's stored handle finds an active context of its server, and find_objects succeeds for each of its open sessions. |
| EndToEnd.ContextsAreTheirOwn | src/nwld/sk_drv_nwld_tapi.c:396-401 | In those states two open connections to one server stand for two different contexts. |
| EndToEnd.OpenSessionsAreServed | src/nwld/sk_drv_nwld_tapi.c:834-847 | In those states invoke_command and close_session on an open session meet no firing assertion at the server: the first brings the TApp's verdict, the second succeeds. |
| EndToEnd.StepKeeps | src/nwld/sk_drv_nwld_tapi.c:207-1228 | Any of the seven calls of the client, whatever state its server is in, keeps that invariant, provided handles given out in the step are fresh. |
| EndToEnd.RunKeeps | src/nwld/sk_drv_nwld_tapi.c:207-1228 | Any number of calls keeps it. |
| EndToEnd.NeverAnotherCommand | src/nwld/sk_drv_nwld_tapi.c:365-373 | The client's wrong-command branch is dead: no reply of a server carries the header of another command. |
| EndToEnd.StepIsPerform | src/nwld/sk_drv_nwld_tapi.c:207-1228 | A step of the two worlds is the client's call with what its server sends back, so what holds of calls with any reply holds of steps. |
| Granted.SessionGranted | src/swld/tapi.c:783-979 | A session the client is told to be open: the server had room in the connection's context and a free slot, the TApp has loaded and started, the slot has joined that context with the TApp's id, and the handle stored under the number returned is the slot's. |
| Granted.CommandGranted | src/swld/tapi.c:1167-1289 | A command the client is told to have run: its handles named a session of the connection's context, and the TApp has taken the command. |
| Granted.RegionGranted | src/swld/tapi.c:1291-1439 | Memory the client is told to be registered: the server holds the region, with the size and flag asked for, under the id and at the address handed to the caller. |
| Channel.AnswersOrIsDown | src/swld/tapi.c:460-549 | A server answers and goes on, or it is down for good. |
| EndToEnd.OpenContextSound | src/nwld/sk_drv_nwld_tapi.c:379-401 | After open_context the new connection's handle finds the context just opened and no other connection has it. |
| EndToEnd.CloseContextSound | src/nwld/sk_drv_nwld_tapi.c:519-567 | After close_context the other connections keep their contexts, also when the server still had sessions in the closed one. |
| EndToEnd.OpenSessionSound | src/nwld/sk_drv_nwld_tapi.c:682-707 | After open_session the stored session handle finds the session just opened, in the connection's own context. |
| EndToEnd.CloseSessionSound | src/nwld/sk_drv_nwld_tapi.c:834-847 | After close_session the remaining sessions of the connection, and all other connections, are as good as before. |
| EndToEnd.UnmovedSound | src/nwld/sk_drv_nwld_tapi.c:856-1228 | invoke_command, register_memory and unregister_memory change no link between client and server. |
| EndToEnd.ReachedIsSound | src/nwld/sk_drv_nwld_tapi.c:110-180 | From a client without connections and freshly initialised servers every reachable pair of states satisfies the invariant. |
| FirstRun.ASessionCanBeOpened | src/nwld/sk_drv_nwld_tapi.c:207-716 | There are such runs: with one slot of each kind, from any generator state, a client opens a context and a session in it, with fresh handles. |
| FirstRun.TwoContextsCanBeOpened | src/nwld/sk_drv_nwld_tapi.c:207-418 | A run that opens two contexts at one server: its handles are fresh if and only if the generator's first block is neither zero nor equal to its second. |
| Channel.AnswerEffect | src/swld/tapi.c:356-458 | A packed request sent to a server either changes nothing in its table and brings no reply, or makes exactly the one move it asks for and brings the handler's answer back to the client undistorted. |
| ClientModel.JudgeReply | src/nwld/sk_drv_nwld_tapi.c:351-382 | What the client concludes from an honest reply is the status in it. |
| Channel.WrongAddress | src/swld/tapi.c:378-390 | A request for another context id or security machine id is turned away before any handler. |
| Channel.ReplyFits | src/both/sk_tapi_byte_pack.c:78-413 | No reply is longer than 36 bytes. |
| Channel.OpenSessionEffect | src/swld/tapi.c:783-979 | A positive answer to open_session carries the handle of the session just attached to the named context; in every other case at most such an attachment happens. |
| Channel.CloseSessionEffect | src/swld/tapi.c:981-1165 | close_session on handles that find a session detaches that session and answers success. |
| HandleLinks.NameKept | src/swld/tapi.c:51-83 | A handle that finds an active context finds the same one after any request with fresh handles that does not close it. |
| HandleLinks.FindKept | src/swld/tapi.c:86-124 | Handles for which find_objects succeeds keep finding the same context and session until that session or context is closed. |
| HandleLinks.NewName | src/swld/tapi.c:627-661 | The handle open_context returns finds the new context, and no active context had it before. |
| HandleLinks.NewSession | src/swld/tapi.c:870-963 | The handle open_session returns finds the new session in the named context, and no session found before has it. |
| ServerRuns.EveryReachableState | src/swld/tapi.c:356-458 | After any byte sequences, the session counter equals both the active session slots and the sum of the per-context counts, the chains are pairwise disjoint and hold exactly the active sessions, the connection counter falls short of the active contexts by exactly the closes answered with sessions open, and every handle slot is accounted for. |
| ServerRuns.RunKeeps | src/swld/tapi.c:356-458 | The invariant, the handle accounting and the count of stale closes are kept along any run. |
| ServerRuns.ProcessKeeps | src/swld/tapi.c:356-458 | The same for one processed message, accepted or refused. |
| ServerRuns.CountIsExact | src/swld/tapi.c:752-760 | num_ctable_elements equals the number of active contexts exactly when no close was answered while sessions were open. |
| ServerRuns.StaleGrowsWhen | src/swld/tapi.c:747-760 | The gap grows by one exactly on an answered close of a context whose session list is not empty, and by nothing else. |
| ServerRuns.OpenContextHaltsWhen | src/swld/tapi.c:600-622 | The assertion after the slot scan fires if and only if every slot is active and such a close has happened. |
| ServerRuns.CloseContextHaltsWhen | src/swld/tapi.c:725-760 | close_context ends the process if and only if the handle finds an inactive slot or the stale closes have used up the counter. |
| ServerRuns.OpenSessionHaltsWhen | src/swld/tapi.c:839-872 | open_session runs past the session table if and only if no slot is free while the context's own count leaves room (or the handle finds an inactive context). |
| ServerRuns.FourRequestsToHalt | src/swld/tapi.c:752-760 | A concrete run, from any generator state, in which four well-formed requests bring the process to an end: the counter law fails of this code. |
| ServerRuns.CleanRunsNeverHaltThere | src/swld/tapi.c:600-622 | After any run in which no close was answered while its context had sessions, the counter is exact, open_context meets no firing assertion, and close_context never finds the counter at 0. |
| ServerRuns.FourRequestsPastTheTable | src/swld/tapi.c:856-872 | A concrete run for the other failure: two contexts, one session slot, a session in the first; the request for one in the second runs past the table if and only if the two handles drawn differ. |
| ServerRuns.UniqueHandlesKept | src/swld/tapi.c:178-226 | If handles just drawn differ from every other slot's, the handle of an active slot never occurs in another slot, although removal leaves handle bytes behind. |
| ServerRuns.MoveAccounted | src/swld/my_tapi_handle_generator_plugin.c:97-108 | Each handle slot is the exclusive or of exactly the keystream blocks drawn for it, and the generator stands 16 steps per draw from ready. |
| ServerRuns.BlocksAreConsecutive | src/swld/my_tapi_handle_generator_plugin.c:97-165 | The blocks drawn for contexts and sessions together are consecutive pieces of one keystream: no keystream byte is used twice. |
| ServerRuns.ReplyMatchesRequest | src/swld/tapi.c:356-458 | Whenever a reply is sent it fits the send buffer, starts with the request's header and decodes as an answer to that very command. |
| ServerRuns.AcceptsWellFormed | src/swld/tapi.c:370-395 | A packed request with the service's own ids reaches the handler of its command with all its fields. |
| ServerRuns.Accept | src/swld/tapi.c:370-458 | A message that gets past header, addressee, command and length checks is a request of the command its header names, decoded from the received bytes. |
| ServerRequests.ServeMoves | src/swld/tapi.c:551-1686 | Every request, answered or refused, is one legal move of the table, including opens whose TApp fails to load or start, and is answered as the command it was. |
| ServerRequests.ServeKeepsInv | src/swld/tapi.c:551-1686 | Every request keeps the table's invariant. |
| ServerRequests.FindObjects | src/swld/tapi.c:51-124 | Success means slots that hold the two handles, an active context and an active session that hangs off it; a missing handle is one that no slot holds. |
| ServerAnswers.OpenContextAnswers | src/swld/tapi.c:578-600 | open_context is answered SUCCESS exactly for the service's own context id while the count leaves room, and each error exactly in its case. |
| ServerAnswers.OpenContextTakes | src/swld/tapi.c:605-651 | A granted open_context takes the first free slot, draws over its old handle bytes, returns them, and changes nothing else. |
| ServerAnswers.CloseContextAnswers | src/swld/tapi.c:700-766 | close_context is answered SUCCESS exactly if the handle's first slot is active and the count is not used up, and refused exactly for unknown handles. |
| ServerAnswers.CloseContextFrees | src/swld/tapi.c:747-760 | A granted close_context lowers the count, clears the active flag exactly if the context has no sessions, and changes nothing else. |
| ServerAnswers.OpenSessionSucceedsWhen | src/swld/tapi.c:815-963 | open_session is answered SUCCESS if and only if the handle names an active context with room, a session slot is free, and the TApp loads and starts; each refusal exactly in its case. |
| ServerAnswers.OpenSessionVerdict | src/swld/tapi.c:888-963 | With both slots found the status is TAPP_LOAD exactly on a failed load, TAPP_TIMEOUT exactly on a start that timed out, TAPP_CALL exactly on any other failed start, else SUCCESS with the slot's handle; in every case the slot has joined the context with the requested TApp id, and no other slot differs. |
| ServerAnswers.LookupAnswers | src/swld/tapi.c:51-124 | find_objects finds the two slots exactly if they are the first with these handles, active, and attached; each error exactly in its case. |
| ServerAnswers.StrayHandles | src/swld/tapi.c:1017-1038 | Handles that are unknown, or do not go together, and what close_session and invoke_command make of each. |
| ServerAnswers.SessionRequestsSucceedWhen | src/swld/tapi.c:981-1289 | close_session succeeds exactly on handles that go together, invoke_command exactly if the TApp agrees besides. |
| ServerAnswers.CloseSessionAnswers | src/swld/tapi.c:126-190 | A granted close_session clears the slot's flag and TApp id, takes it out of its context's list, keeps its handle bytes, and touches no other slot. |
| ServerAnswers.InvokeAnswers | src/swld/tapi.c:1240-1271 | The TApp's verdict: TAPP_TIMEOUT exactly on a time-out, TAPP_CALL exactly on any other error, else SUCCESS. |
| ServerAnswers.RegisterAnswers | src/swld/tapi.c:1332-1431 | register_memory is answered exactly if the handle is found with its offset inside the table, memory is left and the driver agrees; then one region more is held, with the request's size and flag and the address and id that are answered; each error exactly in its case. |
| ServerAnswers.UnregisterAnswers | src/swld/tapi.c:1482-1590 | unregister_memory removes the first region with the id, also when the driver cannot free it; each outcome exactly in its case. |
| ServerAnswers.RegisteredCanGo | src/swld/tapi.c:1291-1602 | Memory that was registered can be unregistered under the id that was answered, through the same handle; if the id was new the server is then as before. |
| ServerAnswers.WhoTouchesRegions | src/swld/tapi.c:551-1686 | Only the two memory requests change the regions, and they change no table. |
| ServerAnswers.CheckAnswers | src/swld/tapi.c:1638-1675 | check succeeds exactly if every active context has a session, and stops the process otherwise. |
| ServerAnswers.TurnedAwayWhen | src/swld/tapi.c:370-451 | What stands before a handler, in order: a whole header, the right context, the right machine, a known command number, and the length it needs; with the error of each, by number. |
| ServerAnswers.ProcessOutcome | src/swld/tapi.c:393-454 | Behind those checks the handler decides: its new state is kept whatever becomes of the reply, and a refusal carries the error of the command by its number. |
| ServerModel.AttachKeepsInv | src/swld/tapi.c:892-922 | Appending a session to one list keeps lists disjoint and counters exact, and the assertions on the context's own count and on the global count hold. |
| ServerModel.DetachKeepsInv | src/swld/tapi.c:126-190 | Deleting a session, at head, middle or tail, keeps lists disjoint and counters exact and shortens exactly that list by one. |
| ServerModel.CloseSlotKeepsInv | src/swld/tapi.c:747-760 | Closing keeps the invariant whether or not sessions are open. |
| ServerModel.ActivateKeepsInv | src/swld/tapi.c:624-644 | Opening a context in a free slot keeps the invariant. |
| ServerModel.DetachAllEmpties | src/swld/tapi.c:200-210 | Forced removal terminates, empties the list, deactivates exactly its sessions, lowers the global count by the old length and leaves every other context alone. |
| ServerModel.MoveKeepsInv | src/swld/tapi.c:126-230 | Every legal move keeps the invariant and the table sizes. |
| ServerModel.EmptyInv | src/swld/tapi.c:306-326 | The table as init leaves it satisfies the invariant. |
| SessionChains.Unlink | src/swld/tapi.c:134-175 | The pointer surgery turns the chain into the chain without that element, touches no session of another chain, and returns the successor. |
| SessionChains.Link | src/swld/tapi.c:892-916 | The walk to the end and the new link turn the chain into the chain with the session appended, touching no other chain. |
| SessionChains.OnChain | src/swld/tapi.c:111-120 | The walk reports membership exactly. |
| SessionChains.Last | src/swld/tapi.c:904-906 | The walk ends at the last session of a chain that is not empty. |
| SessionChains.NextAndPrevAreInverse | src/swld/tapi.c:126-190 | next and prev undo each other along a chain and are null exactly at its two ends. |
| SessionChains.NoCycle | src/swld/tapi.c:111-120 | Following next from start visits the chain in order and reaches null after exactly its length: no cycles. |
| SessionChains.CutIsLinked | src/swld/tapi.c:140-175 | With one element cut out and its neighbours joined, the links describe the chain without it. |
| SessionChains.AppendIsLinked | src/swld/tapi.c:902-916 | With the last element pointing to the new one and back, the links describe the longer chain. |
| ConnectionTable.Connections.RemoveSession | src/swld/tapi.c:126-190 | remove_session in memory is the deletion of that element from that list, with flags, TApp id and both counters; its assertions hold. |
| ConnectionTable.Connections.RemoveSessions | src/swld/tapi.c:203-210 | The removal loop ends, with exactly that list emptied. |
| ConnectionTable.Connections.RemoveContext | src/swld/tapi.c:192-230 | Without force a context with sessions is refused unchanged; otherwise its list is emptied and the context deactivated. |
| ConnectionTable.Connections.CloseContext | src/swld/tapi.c:747-760 | The removal's verdict is ignored and the counter decremented; it reports failure exactly when the counter is 0. |
| ConnectionTable.Connections.OpenContext | src/swld/tapi.c:640-644 | Setting the context object is the opening of that slot in the model; the assertion on the count holds behind the caller's check. |
| ConnectionTable.Connections.OpenSession | src/swld/tapi.c:888-922 | Configuring and linking a session is its attachment to that list in the model; the assertions on both counts hold. |
| ConnectionTable.Connections.FreeContext | src/swld/tapi.c:608-618 | The scan finds the first inactive context slot. |
| ConnectionTable.Connections.FreeSession | src/swld/tapi.c:856-865 | The scan finds the first inactive session slot, or stops one past the table. |
| ConnectionTable.Connections.IsAttached | src/swld/tapi.c:108-120 | Whether a session belongs to a context. |
| ConnectionTable.Connections.EveryContextHasSession | src/swld/tapi.c:1638-1675 | With nothing old enough to expire, the walk of check_nw gets through exactly when every active context has a session. |
| ConnectionTable.Connections.constructor | src/swld/tapi.c:303-326 | init yields the empty table. |
| ServerTapi.Tapi.constructor | src/swld/tapi.c:232-330 | init yields an empty service whose generator stands at the key schedule of its entropy. |
| ServerTapi.Tapi.DrawContextHandle | src/swld/tapi.c:627-636 | Generating a context handle changes that slot's bytes and the generator as the model's draw does. |
| ServerTapi.Tapi.DrawSessionHandle | src/swld/tapi.c:870-879 | The same for a session handle. |
| ServerTapi.Tapi.OpenContextNw | src/swld/tapi.c:551-669 | open_context on the tables in memory gives the answer, error or halt, and the new state, of the request's specification. |
| ServerTapi.Tapi.CloseContextNw | src/swld/tapi.c:671-781 | close_context on the tables in memory gives the answer, error or halt, and the new state, of the request's specification. |
| ServerTapi.Tapi.OpenSessionNw | src/swld/tapi.c:783-979 | open_session on the tables in memory gives the answer, error or halt, and the new state, of the request's specification. |
| ServerTapi.Tapi.CloseSessionNw | src/swld/tapi.c:981-1165 | close_session on the tables in memory gives the answer, error or halt, and the new state, of the request's specification. |
| ServerTapi.Tapi.InvokeCommandNw | src/swld/tapi.c:1167-1289 | invoke_command on the tables in memory gives the answer, error or halt, and the new state, of the request's specification. |
| ServerTapi.Tapi.RegisterMemoryNw | src/swld/tapi.c:1291-1439 | register_memory on the tables in memory gives the answer, error or halt, and the new state, of the request's specification. |
| ServerTapi.Tapi.UnregisterMemoryNw | src/swld/tapi.c:1441-1602 | unregister_memory on the tables in memory gives the answer, error or halt, and the new state, of the request's specification. |
| ServerTapi.Tapi.CheckNw | src/swld/tapi.c:1604-1686 | check on the tables in memory gives the answer, error or halt, and the new state, of the request's specification. |
| ServerTapi.Tapi.FindObjects | src/swld/tapi.c:51-124 | find_objects in memory: first matching slots, active checks and membership, as specified. |
| ServerTapi.Tapi.Admit | src/swld/tapi.c:370-395 | The checks before a handler, on the received bytes. |
| ServerTapi.Tapi.Dispatch | src/swld/tapi.c:393-454 | The command switch reaches the handler of the decoded request. |
| ServerTapi.Tapi.Process | src/swld/tapi.c:356-458 | process on received bytes leaves in memory exactly the state, the send buffer contents and size, the error or the halt that the specification gives. |
| RegisteredMemory.RegionList.Register | src/swld/tapi.c:1395-1414 | Registration appends to the list and the count follows. |
| RegisteredMemory.RegionList.Search | src/swld/tapi.c:1499-1507 | The search stops at the first region with the given id. |
| RegisteredMemory.RegionList.Remove | src/swld/tapi.c:1519-1570 | The surgery deletes exactly that element; links and count stay consistent and the assertion on the count holds. |
| RegisteredMemory.RegionList.Unregister | src/swld/tapi.c:1499-1570 | The first region with the id is deleted, or the list is unchanged if there is none. |
| RegisteredMemory.RegisterThenUnregister | src/swld/tapi.c:1395-1570 | Registering a fresh id and unregistering it restores the list, also with other registrations in between. |
| RegisteredMemory.WithoutRegionAt | src/swld/tapi.c:1519-1549 | Deletion by id is deletion at the first position that has it. |
| ClientRuns.EveryReachableClient | src/nwld/sk_drv_nwld_tapi.c:207-1228 | Whatever the channel returns, in every reachable client the reference counts add up to the open connections plus the open_context calls that failed after being counted. |
| ClientRuns.BeginKeeps | src/nwld/sk_drv_nwld_tapi.c:231-310 | Up to the request no assertion fires, the invariant holds while the request is under way, and slots in use keep their context id. |
| ClientRuns.FinishKeeps | src/nwld/sk_drv_nwld_tapi.c:351-852 | With any reply bytes the invariant holds afterwards; the only assertion that can fire is the one on a null session table. |
| ClientRuns.PerformKeeps | src/nwld/sk_drv_nwld_tapi.c:207-1228 | Whole calls, with the refusal of empty buffers: the invariant holds afterwards, and a call aborts exactly when a session is agreed for a connection without session table. |
| ClientRuns.SlotsAreSafe | src/nwld/sk_drv_nwld_tapi.c:530-556 | A connection that stays open keeps its information slot, which stays in use under the same context id: never unregistered or reassigned. |
| ClientRuns.ReleasedWhen | src/nwld/sk_drv_nwld_tapi.c:530-556 | A close frees the slot if and only if it closed the slot's last connection and no count has leaked there. |
| ClientRuns.LeaksWhen | src/nwld/sk_drv_nwld_tapi.c:221-393 | A count leaks if and only if open_context takes one (buffers given, id not 0, id known or room for it) and then a new id's channel cannot be registered, the request does not fit, the answer is no agreement, or no connection is free; nothing takes it back. |
| ClientRuns.FailsWhen | src/nwld/sk_drv_nwld_tapi.c:281-393 | An open_context that has taken its count returns, and fails exactly on those four conditions. |
| ClientRuns.LeakedIsLost | src/nwld/sk_drv_nwld_tapi.c:530-556 | An information slot with a leaked count stays in use under the same context id, whatever is called. |
| ClientRuns.LostForGood | src/nwld/sk_drv_nwld_tapi.c:530-556 | The same along any run: the slot is lost for every other context id. |
| ClientExamples.ARefusedOpenLeaks | src/nwld/sk_drv_nwld_tapi.c:231-373 | The first open_context of any fresh client, refused, leaves its slot in use with a count of 1 and no connection. |
| ClientExamples.ASecondConnectionAborts | src/nwld/sk_drv_nwld_tapi.c:682-690 | A run that ends the client: two contexts opened under one id, then a session agreed on the second connection. |
| ClientRuns.TablesNeverReturn | src/nwld/sk_drv_nwld_tapi.c:146-161 | Session tables never change size, and a connection loses its table for good when it closes. |
| ClientRuns.ReferencesAddUp | src/nwld/sk_drv_nwld_tapi.c:530-556 | Counted slot by slot or all at once, the references are the open connections. |
| ClientRuns.AddedKeeps | src/nwld/sk_drv_nwld_tapi.c:239-268 | Taking a free slot for a new context id keeps the invariant. |
| ClientRuns.TakenKeeps | src/nwld/sk_drv_nwld_tapi.c:297-310 | Counting another opening of a known id keeps it. |
| ClientRuns.BoundKeeps | src/nwld/sk_drv_nwld_tapi.c:387-401 | Binding a connection turns a provisional count into a reference. |
| ClientRuns.UnboundKeeps | src/nwld/sk_drv_nwld_tapi.c:527-567 | Releasing a connection keeps counts, used flags and totals consistent. |
| ClientRuns.CloseIsDefined | src/nwld/sk_drv_nwld_tapi.c:530-561 | The three assertions of close_context hold. |
| ClientRuns.SessionRemovedKeeps | src/nwld/sk_drv_nwld_tapi.c:843-847 | The assertion of close_session holds and the session count follows. |
| ClientRuns.FreshInv | src/nwld/sk_drv_nwld_tapi.c:110-180 | init yields a client that satisfies the invariant. |
| ClientModel.Judge | src/nwld/sk_drv_nwld_tapi.c:351-382 | A reply is accepted only if its bytes decode as a message with the accepted body, the command that was sent and the status of success; a failed communication is reported exactly when there is no reply or it is too short. |
| ClientModel.FindId | src/nwld/sk_drv_nwld_tapi.c:51-67 | The slot found is in use with that id; none is found only if no slot in use has it. |
| ClientAnswers.JudgeExact | src/nwld/sk_drv_nwld_tapi.c:351-382 | A reply is taken for a failed communication, a wrong command, a failure or an agreement exactly by its length, command number and status. |
| ClientAnswers.StaysIn | src/nwld/sk_drv_nwld_tapi.c:420-470 | Why a request on a connection does not go out: empty buffer, closed connection, closed session, small buffer, in this order and with these errors; nothing changes. |
| ClientAnswers.SessionHanded | src/nwld/sk_drv_nwld_tapi.c:682-709 | open_session hands out the number of the session just stored: it was not open before, it holds the handle in the reply, and every other session and connection is as before. |
| ClientAnswers.OpenSessionReturns | src/nwld/sk_drv_nwld_tapi.c:577-716 | open_session succeeds exactly if the request goes out, the server agrees and a session is free; SESSION_HANDLE_NOT_FOUND exactly if none is. |
| ClientAnswers.ConnectionHanded | src/nwld/sk_drv_nwld_tapi.c:385-412 | open_context hands out the number of the connection just stored: it was not open before, it has the context id, a slot with that id and the handle in the reply, and every other connection is as before. |
| ClientAnswers.OpenContextReturns | src/nwld/sk_drv_nwld_tapi.c:221-293 | Each error of open_context exactly in its case, and success exactly if a count is taken and none of the later conditions fails. |
| ClientAnswers.ConnectionClosed | src/nwld/sk_drv_nwld_tapi.c:519-567 | A successful close_context clears that connection and no other, and takes one reference from its slot and no other, clearing it with the last; otherwise nothing changes. |
| ClientAnswers.SessionClosed | src/nwld/sk_drv_nwld_tapi.c:834-847 | A successful close_session clears that session and no other; otherwise nothing changes. |
| ClientAnswers.Invoked | src/nwld/sk_drv_nwld_tapi.c:856-982 | invoke_command succeeds exactly if the request goes out and is agreed to. |
| ClientAnswers.RegionHanded | src/nwld/sk_drv_nwld_tapi.c:1083-1106 | register_memory hands out the address and the id in the reply, exactly if the server agrees and the platform opens the region. |
| ClientAnswers.RegionGone | src/nwld/sk_drv_nwld_tapi.c:1206-1226 | unregister_memory succeeds exactly if the server agrees and the platform closes the region. |
| NwldTapi.Exchange | src/nwld/sk_drv_nwld_tapi.c:327-382 | Packing, the channel's answer, unpacking and the header and status checks, as specified; the send buffer holds the packed request. |
| NwldTapi.Tapi.constructor | src/nwld/sk_drv_nwld_tapi.c:110-180 | init: all slots and connections clear, one session table, on the first connection. |
| NwldTapi.Tapi.FindContextId | src/nwld/sk_drv_nwld_tapi.c:51-67 | The scan for a context id. |
| NwldTapi.Tapi.GetConnHandle | src/nwld/sk_drv_nwld_tapi.c:69-85 | The scan finds the first free connection. |
| NwldTapi.Tapi.GetSessionHandle | src/nwld/sk_drv_nwld_tapi.c:87-103 | The scan finds the first free session. |
| NwldTapi.Tapi.TakeContextId | src/nwld/sk_drv_nwld_tapi.c:231-310 | The part of open_context before the request. |
| NwldTapi.Tapi.OpenContextFor | src/nwld/sk_drv_nwld_tapi.c:207-418 | open_context on the arrays in memory returns, and leaves behind, what the specification says for these reply bytes; the invariant holds. |
| NwldTapi.Tapi.CloseContextOf | src/nwld/sk_drv_nwld_tapi.c:420-574 | The same for close_context; it never aborts. |
| NwldTapi.Tapi.OpenSessionOn | src/nwld/sk_drv_nwld_tapi.c:577-716 | The same for open_session, including its abort. |
| NwldTapi.Tapi.CloseSessionOn | src/nwld/sk_drv_nwld_tapi.c:718-854 | The same for close_session; it never aborts. |
| NwldTapi.Tapi.Invoke | src/nwld/sk_drv_nwld_tapi.c:856-982 | The same for invoke_command, which changes nothing. |
| NwldTapi.Tapi.Register | src/nwld/sk_drv_nwld_tapi.c:984-1108 | The same for register_memory, with the address and id handed to the caller; it changes no table. |
| NwldTapi.Tapi.Unregister | src/nwld/sk_drv_nwld_tapi.c:1110-1228 | The same for unregister_memory; it changes no table. |
| Rc4.Prng.Ready | src/swld/my_rc4_prng.c:30-66 | ready leaves the key schedule of the seeded key in the buffer and both indices at 0. |
| Rc4.Prng.Init | src/swld/my_rc4_prng.c:68-76 | init sets the key length to 0 and leaves the other index and the buffer alone. |
| Rc4.Prng.Seed | src/swld/my_rc4_prng.c:78-107 | Seeding appends to the key, up to 256 bytes. |
| Rc4.Prng.Read | src/swld/my_rc4_prng.c:109-136 | read masks exactly the requested stretch with the keystream and advances the state by its length. |
| Rc4.ScheduleIsPermutation | src/swld/my_rc4_prng.c:37-63 | For any key of 1 to 256 bytes the schedule is a permutation of 0..255. |
| Rc4.ReachableIsPermutation | src/swld/my_rc4_prng.c:119-133 | Every state reached by reading holds a permutation. |
| Rc4.StepIsBijective | src/swld/my_rc4_prng.c:123-130 | One step of the generator can be undone, and is a step from what undoing gives. |
| Rc4.DistinctStatesNeverMerge | src/swld/my_rc4_prng.c:119-133 | States that differ stay different after any number of steps. |
| Rc4.ShortCycleIsClosedBothWays | src/swld/my_rc4_prng.c:119-133 | A state with y = x+1 and 1 at y is followed and preceded only by such states. |
| Rc4.NeverInShortCycle | src/swld/my_rc4_prng.c:62-133 | From ready the generator never enters that short cycle. |
| Rc4.FirstByte | src/swld/my_rc4_prng.c:119-133 | The first byte read after ready, in terms of the table ready has left. |
| Rc4.SecondByteIsZero | src/swld/my_rc4_prng.c:119-133 | A table with 0 in place 2 and not 2 in place 1 makes the second byte 0. |
| Rc4.FirstRounds | src/swld/my_rc4_prng.c:48-59 | The first two rounds of the key schedule, for every key. |
| Rc4.KnownAnswer | src/swld/my_rc4_prng.c:30-136 | The key 0, 0, 255, 254, .., 2, once seeded, leaves the table as it was, and the first bytes read are 2, 5, 7. |
| Rc4.ReadsCompose | src/swld/my_rc4_prng.c:109-136 | Reading n then m bytes is reading n+m. |
| Rc4.ReadRestores | src/swld/my_rc4_prng.c:109-136 | Reading a buffer twice with equally seeded generators restores it. |
| Rc4.SeedsCompose | src/swld/my_rc4_prng.c:78-107 | Seeding with a then b is seeding with their concatenation, cut at 256 bytes. |
| Rc4.ScheduleReadsOnlyTheKey | src/swld/my_rc4_prng.c:48-59 | The schedule depends on the seeded bytes only, not on what else the buffer held. |
| Rc4.MaskedIsXorStream | src/swld/my_rc4_prng.c:119-133 | Masking in place is the exclusive or with the keystream on that stretch and nothing elsewhere. |
| Rc4.KeystreamAdds | src/swld/my_rc4_prng.c:119-133 | The keystream from one state continues from the state reached. |
| HandlePlugin.Initialize | src/swld/my_tapi_handle_generator_plugin.c:32-66 | init, seed and ready: the generator stands at the key schedule of the entropy string. |
| HandlePlugin.Generate | src/swld/my_tapi_handle_generator_plugin.c:87-108 | The slot's bytes are combined with the next 16 keystream bytes; no other slot changes. |
| HandlePlugin.FindHandle | src/swld/my_tapi_handle_generator_plugin.c:110-140 | The byte offset of the first matching slot, active or not; an empty table is an invalid parameter. |
| HandlePlugin.Find | src/swld/my_tapi_handle_generator_plugin.c:127-134 | The first slot with the handle; none only if no slot has it. |
| HandlePlugin.FindUnique | src/swld/my_tapi_handle_generator_plugin.c:127-134 | A handle held by one slot only finds that slot. |
| Bytes.BytePut | src/both/sysv_byte_packing.c:32-47 | put stores the big-endian bytes in place and nothing else, or stores nothing when they would pass the limit. |
| Bytes.ByteGet | src/both/sysv_byte_packing.c:49-63 | get reads the big-endian value, accumulated in 32 bits. |
| Bytes.GetAfterPut | src/both/sysv_byte_packing.c:32-63 | get after put of any width returns the value modulo 2 to the power 8 times the smaller of the width and 4. |
| Bytes.SignedRoundTrip | src/both/sk_tapi_byte_unpack.c:32-35 | Every 32-bit signed status survives the unsigned conversion both ways (section 6.3.1.3 of ISO/IEC 9899:2011). |
| Bytes.XorAt | src/swld/my_rc4_prng.c:128-131 | A bit of the exclusive or is set exactly where the operands' bits differ. |
| Bytes.ValueOfBigEndian | src/both/sysv_byte_packing.c:32-63 | The value of the bytes stored is the value modulo 256 to the width. |
| Bytes.BigEndianOfValue | src/both/sysv_byte_packing.c:32-63 | The bytes of the value of a byte sequence are that sequence. |
| Fields.DecodeEncode | src/both/sk_tapi_byte_unpack.c:38-42 | Reading back stored fields returns them, whatever follows. |
| Fields.EncodeDecode | src/both/sk_tapi_byte_unpack.c:38-42 | Storing fields that were read reproduces the bytes they came from. |
| Fields.Packer.StoreWord | src/both/sk_tapi_byte_pack.c:31-37 | A store succeeds exactly when the field fits, appends exactly its bytes and never writes past the limit. |
| Fields.Packer.StoreBuffer | src/both/sk_tapi_byte_pack.c:31-37 | The same for a byte buffer. |
| Fields.Unpacker.ReadWord | src/both/sk_tapi_byte_unpack.c:30-42 | A read succeeds exactly when enough bytes are left and consumes exactly those. |
| Fields.Unpacker.ReadBuffer | src/both/sk_tapi_byte_unpack.c:30-42 | The same for a byte buffer. |
| Wire.UnpackPack | src/both/sk_tapi_byte_unpack.c:63-417 | Unpacking undoes packing, for every message kind and direction, whatever follows in the buffer. |
| Wire.PackUnpack | src/both/sk_tapi_byte_pack.c:42-413 | Unpacking fails exactly on buffers shorter than the wire size; packing what was unpacked reproduces the bytes consumed. |
| Wire.HeaderOfMessage | src/both/sk_tapi_byte_unpack.c:44-61 | The header routine reads from any packed message the header it was packed with. |
| Wire.LayoutSize | src/both/sk_tapi_byte_pack.c:42-413 | The wire size of every kind and direction, in bytes. |
| Wire.OnTheWire | src/both/sk_tapi_byte_pack.c:42-413 | Every message byte by byte: context id, security machine id and command number first, then the fields of each body in their order. |
| Wire.WordBytes | src/both/sysv_byte_packing.c:32-47 | A word's four bytes most significant first, and a signed status in two's complement. |
| Wire.HeaderWords | src/both/sk_tapi_byte_unpack.c:44-61 | The header is the first three words of what is received. |
| Packing.Pack | src/both/sk_tapi_byte_pack.c:42-413 | Any of the nine routines: succeeds exactly when the buffer holds the wire size, reports that size, stores exactly the encoding and leaves the rest of the buffer alone; an unknown system type is refused untouched. |
| Packing.PackOpenContext | src/both/sk_tapi_byte_pack.c:78-118 | open_context_pack stores the message of either direction, or fails exactly when it does not fit. |
| Packing.PackCloseContext | src/both/sk_tapi_byte_pack.c:120-159 | close_context_pack stores the message of either direction, or fails exactly when it does not fit. |
| Packing.PackOpenSession | src/both/sk_tapi_byte_pack.c:161-202 | open_session_pack stores the message of either direction, or fails exactly when it does not fit. |
| Packing.PackCloseSession | src/both/sk_tapi_byte_pack.c:204-244 | close_session_pack stores the message of either direction, or fails exactly when it does not fit. |
| Packing.PackInvokeCommand | src/both/sk_tapi_byte_pack.c:246-287 | invoke_command_pack stores the message of either direction, or fails exactly when it does not fit. |
| Packing.PackRegisterMemory | src/both/sk_tapi_byte_pack.c:289-333 | register_memory_pack stores the message of either direction, or fails exactly when it does not fit. |
| Packing.PackUnregisterMemory | src/both/sk_tapi_byte_pack.c:335-375 | unregister_memory_pack stores the message of either direction, or fails exactly when it does not fit. |
| Packing.PackCheck | src/both/sk_tapi_byte_pack.c:377-413 | check_pack stores the message of either direction, or fails exactly when it does not fit. |
| Packing.PackSystem | src/both/sk_tapi_byte_pack.c:42-76 | sys_tapi_pack stores the message of either direction, or fails exactly when it does not fit. |
| Packing.UnpackOpenContext | src/both/sk_tapi_byte_unpack.c:97-135 | open_context_unpack reads the message of the requested direction whose fields make up the bytes, or fails exactly when they are too few. |
| Packing.UnpackCloseContext | src/both/sk_tapi_byte_unpack.c:137-174 | close_context_unpack reads the message of the requested direction whose fields make up the bytes, or fails exactly when they are too few. |
| Packing.UnpackOpenSession | src/both/sk_tapi_byte_unpack.c:176-215 | open_session_unpack reads the message of the requested direction whose fields make up the bytes, or fails exactly when they are too few. |
| Packing.UnpackCloseSession | src/both/sk_tapi_byte_unpack.c:217-255 | close_session_unpack reads the message of the requested direction whose fields make up the bytes, or fails exactly when they are too few. |
| Packing.UnpackInvokeCommand | src/both/sk_tapi_byte_unpack.c:257-296 | invoke_command_unpack reads the message of the requested direction whose fields make up the bytes, or fails exactly when they are too few. |
| Packing.UnpackRegisterMemory | src/both/sk_tapi_byte_unpack.c:298-340 | register_memory_unpack reads the message of the requested direction whose fields make up the bytes, or fails exactly when they are too few. |
| Packing.UnpackUnregisterMemory | src/both/sk_tapi_byte_unpack.c:342-380 | unregister_memory_unpack reads the message of the requested direction whose fields make up the bytes, or fails exactly when they are too few. |
| Packing.UnpackCheck | src/both/sk_tapi_byte_unpack.c:382-417 | check_unpack reads the message of the requested direction whose fields make up the bytes, or fails exactly when they are too few. |
| Packing.UnpackSystem | src/both/sk_tapi_byte_unpack.c:63-95 | sys_tapi_unpack reads the message of the requested direction whose fields make up the bytes, or fails exactly when they are too few. |
| Packing.Unpack | src/both/sk_tapi_byte_unpack.c:63-417 | Any of the nine routines agrees with the decoder of its form and reports success exactly then; an empty buffer is an invalid parameter to six of them and too short for the others. |
| Packing.UnpackHeader | src/both/sk_tapi_byte_unpack.c:44-61 | header_unpack agrees with the header decoder. |
| Manifest.UnpackPack | src/swld/tapp_manifest_pack.c:53-109 | A packed manifest reads back as itself, whatever follows. |
| Manifest.PackUnpack | src/swld/tapp_manifest_pack.c:53-109 | Reading fails exactly below 1050 bytes; packing what was read reproduces the bytes. |
| Manifest.Put | src/swld/tapp_manifest_pack.c:53-81 | put succeeds exactly when the buffer holds the packed size, and stores exactly the encoding. |
| Manifest.Get | src/swld/tapp_manifest_pack.c:83-109 | get agrees with the decoder. |
| Manifest.LayoutSize | src/swld/tapp_manifest_pack.c:53-109 | The packed size is 1050 bytes. |
| Manifest.PackedBytes | src/swld/tapp_manifest_pack.c:53-81 | The packed manifest byte by byte. |
| Comm.Rpc | src/platform/tcp/nwld/sk_drv_nwld_comm.c:147-322 | A complete call on idle streams: the server has the message and the contents of the buffers with an odd flag, whose parameters are as before at the client; of every other parameter the client ends up with the server's contents; it has the reply, and both streams are idle again. |
| Comm.Serve | src/platform/tcp/swld/sk_drv_server_comm.c:107-267 | The server's turn of a call: it has seen exactly the flagged buffers, and answers with the work's reply and contents. |
| Comm.SendRequest | src/platform/tcp/nwld/sk_drv_nwld_comm.c:158-223 | The client sends message, structure and flagged buffers, and nothing else. |
| Comm.RecvResponse | src/platform/tcp/nwld/sk_drv_nwld_comm.c:232-318 | The client's reading of a response, with its errors, as specified for any stream. |
| Comm.RecvParam | src/platform/tcp/nwld/sk_drv_nwld_comm.c:281-313 | One buffer of the response: refused when larger than the client's, otherwise placed at its front; OUT buffers are not touched. |
| Comm.RecvRequest | src/platform/tcp/swld/sk_drv_server_comm.c:107-176 | The server's reading of a request, with its errors, as specified for any stream; every parameter gets a block of its size. |
| Comm.SendResponse | src/platform/tcp/swld/sk_drv_server_comm.c:180-267 | The server sends reply, structure and the buffers not flagged OUT behind their sizes, and nothing else. |
| Comm.FillParams | src/platform/tcp/swld/sk_drv_server_comm.c:144-170 | Every parameter gets a block, those flagged OUT with the client's contents. |
| CommStream.RequestParses | src/platform/tcp/swld/sk_drv_server_comm.c:116-173 | What the client sent is taken apart by the server into the same message, structure and flagged buffers, and the stream goes on right behind them. |
| CommStream.ResponseParses | src/platform/tcp/nwld/sk_drv_nwld_comm.c:232-318 | What the server sent is taken apart by the client into the reply and the merged operation, and the stream goes on right behind them. |
| CommStream.PlainResponseParses | src/platform/tcp/nwld/sk_drv_nwld_comm.c:232-262 | The same for a call without operation. |
| CommStream.TakeOutsOf | src/platform/tcp/swld/sk_drv_server_comm.c:154-170 | The server reads exactly the flagged buffers and nothing beyond them. |
| CommStream.TakeBacksOf | src/platform/tcp/nwld/sk_drv_nwld_comm.c:279-315 | The client reads exactly the other buffers and nothing beyond them. |
| CommStream.OnlyOutsTravel | src/platform/tcp/nwld/sk_drv_nwld_comm.c:202-222 | Which buffer contents travel to the server: those with an odd flag, and no others. |
| CommStream.RequestTells | src/platform/tcp/nwld/sk_drv_nwld_comm.c:158-223 | Two operations that differ in buffer contents alone give the same request if and only if they agree on the buffers with an odd flag. |
| CommStream.ContentsByFlag | src/both/include/sk_both_tapi.h:102-105 | By flag: contents behind IN (0) and INOUT (2) never reach the server, those behind OUT (1) and ALLOCATE (3) do. |
| CommStream.TakeBackShorter | src/platform/tcp/nwld/sk_drv_nwld_comm.c:281-313 | What comes back for a buffer goes to its front and leaves the rest; more than fits is refused. |
| CommStream.FewerComeBack | src/platform/tcp/nwld/sk_drv_nwld_comm.c:232-318 | A response about fewer parameters merges those, leaves the others, and sets the client's count. |
| CommStream.FrameBytes | src/platform/tcp/nwld/sk_drv_nwld_comm.c:158-223 | The frames in bytes: length words first, most significant byte first, and 116 or 0 before the structure. |
| CommStream.ImageBytes | src/both/include/sk_both_tapi.h:111-128 | The raw operation structure byte by byte. |
| CommStream.ImageRoundTrip | src/both/include/sk_both_tapi.h:111-128 | The raw operation structure is 116 bytes and arrives with every field intact. |
| HexTools.ConvertHexToAscii | src/tools/tapp_manifest.c:73-136 | The two characters are the byte's two digits. |
| HexTools.ReadBytes | src/tools/common_tools.c:69-135 | read_bytes, with its end-of-file behaviour, stores, counts and returns what the reading function says and leaves the rest of the array alone. |
| HexTools.Absorb | src/tools/common_tools.c:84-131 | One character: a digit is taken in, a separator ends a lone digit, a stop character ends the reading. |
| HexTools.ReadsBackWhatWasPrinted | src/tools/common_tools.c:69-135 | Bytes printed two digits each with any separators are read back exactly, with code 0, for any limit from their number on. |
| HexTools.ReadsWhatIsSpelled | src/tools/common_tools.c:69-135 | Any text of digit pairs, lone digits ended by a separator, and separators is read as exactly the values it spells, although the last character is looked at twice. |
| HexTools.LoneDigitAtEndCountsTwice | src/tools/common_tools.c:80-82 | A lone digit at the very end of the file is read twice and stored as a byte with that digit in both halves. |
| HexTools.TokensCover | src/tools/common_tools.c:84-131 | Every text without stop characters is made of digit pairs, ended lone digits and separators, with at most one digit left over at its end. |
| HexTools.ReadsItRightWhen | src/tools/common_tools.c:69-135 | Any file without stop characters, with room enough, is read as what it spells if and only if no digit is left over at its very end, or only a 0. |
| HexTools.ReadTokens | src/tools/common_tools.c:80-131 | Reading proceeds token by token and stops exactly at the limit. |
| HexTools.StopsAtSlashOrBracket | src/tools/common_tools.c:98-113 | A slash or an opening bracket ends the reading where it stands, with code -2; a digit before it counts alone. |
| HexTools.ConvertByCode | src/tools/common_tools.c:36-67 | The value of every digit, in either case, and 9 for everything else. |
| HexTools.HexDigits | src/tools/common_tools.c:84-87 | The characters taken for digits are the 22 hexadecimal ones. |
| HexTools.ConvertDigit | src/tools/common_tools.c:36-67 | Each of the sixteen printed digits converts back to its value, 9 by way of the default case. |

## Left out

- The access times of contexts and sessions, and the expiry they serve: with the default time-outs nothing expires (src/swld/include/sk_swld.h:55-61). check_nw is modelled for that case, with its need for a first session in every active context (src/swld/tapi.c:1642-1646).
- Register and unregister memory stamp the access time at the byte offset, not the slot number (src/swld/tapi.c:1349, src/swld/tapi.c:1497). An offset beyond the table is modelled as the end of the process; an offset inside it touches only the access time.
- The `pid` of a context: it is never on the wire (src/both/sk_tapi_byte_pack.c:100-105).
- The bad-id reply of the dispatch loop (src/swld/tapi.c:498-527): it stands behind a test for success and cannot be reached.
- What a message structure holds after an unpacking routine has failed half-way: the callers do not look at it.
- Freshness of handles: an assumption (`ServerRuns.FreshHandles`) on the generator's output, not a theorem; no claim about secrecy or unpredictability is made.
- Releasing an information slot closes its socket; a later connection to the same server is taken to work again, although the server accepts only once (src/platform/tcp/swld/sk_drv_server_comm.c:86-90).
- Unregistering a channel always succeeds, as in the TCP port (src/platform/tcp/nwld/sk_drv_nwld_comm.c:102-111); the branch for its failure (src/nwld/sk_drv_nwld_tapi.c:542-548) is not modelled.
- Null pointers given to the client's calls: the source answers them as it answers an empty buffer, with SK_ERROR_INVALID_PARAM (src/nwld/sk_drv_nwld_tapi.c:221-230).
- What the platform does with a registered region when it opens or closes it: its verdict is an argument of the call (src/nwld/sk_drv_nwld_tapi.c:1096, src/nwld/sk_drv_nwld_tapi.c:1219).
- The client's counters are unbounded; the source's `context_id_cnt` has 32 bits with a sign.
- The `end` and `close` routines.
- ServerTapi.Tapi.constructor: the failing allocations of init are not modelled.
- NwldTapi.Tapi.constructor: the failing allocations of init, and its refusal of a null object or of no connections, are not modelled. init steps a `void*` through the channel objects by single bytes (src/nwld/sk_drv_nwld_tapi.c:140-144), so in the program the objects of different slots overlap; here, and in `EndToEnd`, each slot has a channel of its own.
- HandlePlugin.Initialize: the failing allocation of the generator's instance is not modelled.
- ServerTapi.Tapi.OpenSessionNw: when the session scan finds no free slot the source goes on with the slot behind the table; the method ends the process there (`ServerRuns.OpenSessionHaltsWhen` says when).
- ServerTapi.Tapi.RegisterMemoryNw: a time stamp at an offset beyond the table ends the process; the source writes past the array.
- ServerTapi.Tapi.UnregisterMemoryNw: the same.
- ServerTapi.Tapi.CheckNw: the expiry of sessions and contexts is not modelled; with the default time-outs there is none.
- Partial reads and writes of sockets: a receive call returns what it was asked for unless the stream ends.
- ServerTapi.Tapi.Process: the request arrives as a sequence; the receive buffer's own allocation is not modelled.
- Comm.RecvRequest: after a short read the source goes on with lengths it has not received; the method stops with the error the source records. A structure whose size or parameter count exceeds the memory for it is treated as such an error too.
- Comm.RecvResponse: a response that announces more parameters than the client sent, or a structure of another size, is treated as a failed read; the source would use its own array beyond what it filled. A server of this repository never sends one.
- Comm.Rpc: parameters live in records of an array and their memory is a sequence in the record, so two parameters that share memory are not modelled.
- EndToEnd.Step: one size stands for the client's receive buffer and the server's send buffer.
- NwldTapi.Exchange: send and receive buffers that overlap are not modelled.
- Secure storage, the TApp loader and interpreter, the message router, the TEEC wrappers, configuration and key files, the demos and the mains.
- TOC add and remove: their buffer store does not advance (src/swld/tapp_toc_shared.c:117-120) and their shift copies one slot repeatedly (src/swld/tapp_toc.c:58-61), so the intended laws do not hold.
- The Fiasco copies of the transport and the disabled copy of RC4 (src/swld/my_rc4_prng.c:220-471).
- Known-answer values of RC4 other than the one of `Rc4.KnownAnswer`: the proofs are about all keys and states.
