# Restreamer verification

A Dafny model of the five parts of the restreamer whose correctness rests on two views of one
fact agreeing, or on a counting or queue argument: the Dropbox folder mirror, the
reference-counted asynchronous teardown of streamers, the player / control-session protocol of
the server, the format-string cursor machine, and the Dropbox action table with the request body
of a batch deletion. `dafny verify dfyconfig.toml` checks all of it with Dafny 4.11.

| file | models |
|---|---|
| `Options.dfy` | an optional value |
| `FolderModel.dfy` | what map, index and byte total must be after any sequence of entries; shrinking; the quota |
| `FolderSync.dfy` | the life of a folder from startSync on as a transition system, and the theorems about its runs |
| `DropboxFolder.dfy` | the class of `DeviceBox/DropboxFolder.cpp`, tied to `FolderModel` and refining `FolderSync` |
| `RefCounter.dfy` | `Common/RefCounter.h`: any sequence of handle operations, and the classes |
| `Teardown.dfy` | the io_service queue with all sources as a transition system, and the theorems about its runs |
| `Notifications.dfy` | bus messages and outcomes of `stream()` over every run of `Teardown`: each reported to the client once |
| `StreamingHandler.dfy` | the classes of `DeviceBox/StreamingHandler.cpp`, each method a step of `Teardown` |
| `Controller.dfy` | the source table of `DeviceBox/Controller.cpp`; the whole object graph refines `Teardown` |
| `FolderTeardown.dfy` | the folders beside the shutdown chain, and the Controller's assertion on them |
| `ServerModel.dfy` | contexts, sessions, their message logs and the posted restores as a transition system |
| `ServerWorld.dfy` | published paths on top of `ServerModel`, and the theorems about its runs |
| `ServerRuns.dfy` | the runs of `ServerWorld` from their events alone: the table of paths, the log of a session, ClientReady, retries, disconnections |
| `ControlServer.dfy` | the classes of `Server/ControlServer`, refining `ServerModel` |
| `RestreamServer.dfy` | the player and recorder callbacks of `Server/RestreamServer/Server.cpp`, refining `ServerWorld` |
| `StringFormat.dfy` | the formatter of `DeviceBox/string_format.h` against a recursive reference |
| `DropboxActions.dfy` | the action table and the upload limit of `DeviceBox/Dropbox.cpp`: the tasks as a transition system, conservation over its runs, and the class |
| `DeleteBatch.dfy` | the body of a batch deletion, and a reader of it after RFC 8259 |

Where the source updates an object in place there is a class whose methods are proved against a
pure reference; the properties are then proved about that reference, over all inputs, runs or
reachable states.

## Assumptions

Teardown (`Teardown.Allowed`):
- calls of `stopHandleSources` do not overlap, and sources are added only outside of one;
- `stream()` is not called on a handler whose shutdown has been answered;
- `stream()` is not called while a `destroyStreaming` of the previous Streamer is still queued.
  The code does not guard against the last one. `StreamIsSafeExactly` proves that the guard is
  exactly what is needed, during a stop as well as outside of one, and `StaleDestroyIsReachable`
  that the bad state is reachable: two calls of `stopStream` post `destroyStreaming` twice, and a
  Streamer made between the two is destroyed by the second with its pipeline running, or while a
  queued continuation still refers to it.

Folders (`FolderSync`): only what has been asked for is answered, and each request once. The results
on runs are about folders on which `startSync` has been called once; a source without a cloud archive
has a folder on which it is never called.

Server (`ServerWorld.Allowed`):
- a source id determines its device and the one path on which it is played and recorded
  (`OnePathPerSourceIsNeeded` shows what goes wrong with two paths);
- first-player and last-player callbacks of a path alternate;
- the configuration knows no device with an empty name, and `ClientReady` walks all active streams;
- callbacks of the RTSP thread and of the control thread do not overlap.

Dropbox actions: curl finishes only transfers it was given and reports each of them once, and
operations are distinct.

## Where the code and its intention differ

- The byte quota is computed in 32-bit arithmetic (`QuotaIsExact`): it is right exactly up to
  4095 MB, and every multiple of 4096 MB switches storage off.
- After a shrink has been carried out, the same quota asks for nothing more exactly when the bytes
  removed do not exceed the reported total (`ShrinkThenEcho`). This can fail only when the real
  total does not fit 64 bits (`WrappedTotalShrinksTooLittle`).
- The counter of a handle family is right exactly while there are at most 2^32 holders
  (`CountingIsExact`); copying the first handle 2^32 times exceeds that (`CopiesOverrunTheCounter`).
- The destructor of a control session tests the device id and uses the context. The two coincide
  exactly when no certificate was presented, or the handshake succeeded and the device was known and
  had no session (`DestructorAssertionExactly`). A handshake that fails after the certificate, an
  unknown device and a refused duplicate (`RefusedDuplicateBreaksIt`) break it. The model tests the
  context.
- The Controller's assertion that a removed source's folder is not active holds exactly when no
  delete batch is unanswered and the folder's synchronisation has been ended by a failed response, or
  by a response or timer after its shutdown (`FolderAtRemoval`). `DropboxFolder::shutdown` answers at
  once and waits for none of these, so a source stopped right after its start is removed with an
  active folder (`FolderActiveAtRemoval`).
- A batch deletion asks for what it should exactly when no path contains a quote, a backslash or a
  control character (`BodyReadsBack`).
- curl's completion messages are read only when the number of running transfers has changed. A task
  that reaches curl leaves none unread exactly when the transfers that finish are not as many as it
  adds, or when there is nothing to read (`WaitsExactly`). Otherwise all of them wait, and as long as
  no transfer is added or finishes nothing changes, however often curl is called
  (`IdlingChangesNothing`). A finished upload that waits keeps its slot: two of them with no transfer
  under way, and a third upload is refused (`FinishedUploadsKeepTheirSlots`).

## Model

| member | source | states |
|---|---|---|
| FolderModel.LastWriteWins | DeviceBox/DropboxFolder.cpp:112-141 | a path is live with an item if and only if the last entry about exactly that path is its file entry; entries about parents or other paths never matter |
| FolderModel.StableSortUnique | DeviceBox/DropboxFolder.cpp:128-133 | at most one sequence is sorted by timestamp with ties in arrival order, so the reference fixes the index completely |
| FolderModel.ArrivalsInOrder | DeviceBox/DropboxFolder.cpp:122-133 | the arrivals that the index sorts are the live items in the order of the last entries about their paths, so an overwrite moves an item behind all others |
| FolderModel.TiesInOrder | DeviceBox/DropboxFolder.cpp:128-133 | items of the index with one timestamp stand in the order of their last entries, and they are all the live items with that timestamp |
| FolderModel.StableInsert | DeviceBox/DropboxFolder.cpp:128-133 | inserting at the upper bound of the timestamp keeps the index the stable sort of the arrivals |
| FolderModel.StableWithout | DeviceBox/DropboxFolder.cpp:168-199 | removing one path from a stable sort leaves the stable sort of the remaining arrivals |
| FolderModel.ViewsAreDetermined | DeviceBox/DropboxFolder.cpp:112-141 | two mirrors that agree with the same entries are equal in map, index and total |
| FolderModel.AgreesAfterErase | DeviceBox/DropboxFolder.cpp:170-196 | erasing the slot of a live path from map, index and total is the effect of its deleted entry on all three views; while the sum fits 64 bits the subtraction does not underflow |
| FolderModel.AgreesAfterInsert | DeviceBox/DropboxFolder.cpp:122-135 | after the erase, inserting a file is the effect of its file entry on all three views, total modulo 2^64 |
| FolderModel.AgreesAfterIgnored | DeviceBox/DropboxFolder.cpp:136-141 | folder entries, unknown tags and deletions of paths that are not live change none of the views |
| FolderModel.AgreesAfterDeletes | DeviceBox/DropboxFolder.cpp:137-140 | deleted entries for the k oldest paths leave exactly the index suffix behind them |
| FolderModel.CutExceeds | DeviceBox/DropboxFolder.cpp:203-221 | under a positive quota the shrink list is not empty and removes more than the excess; under quota 0 it is the whole index if and only if all items but the youngest do not exceed the reported total, as is always so while the real total fits 64 bits; no kept item is older than a removed one |
| FolderModel.ShrinkThenEcho | DeviceBox/DropboxFolder.cpp:201-230 | when the deletions come back the index is the kept suffix, and the total is strictly below a positive quota if and only if the removed bytes do not exceed the reported total, as is always so while the real total fits 64 bits |
| FolderModel.WrappedTotalShrinksTooLittle | DeviceBox/DropboxFolder.cpp:206-217 | three file entries whose wrapped total makes a second shrink ask for more |
| FolderModel.AgreesIsReference | DeviceBox/DropboxFolder.cpp:112-141 | a mirror that agrees with the entries is the last-write-wins map, the stable sort of the arrivals and the wrapped sum of that sort |
| FolderModel.ReferenceAgrees | DeviceBox/DropboxFolder.cpp:112-141 | for every sequence of entries these three functions agree with each other: the index holds exactly the items of the map, once each, in stable order |
| FolderModel.CutIsCut | DeviceBox/DropboxFolder.cpp:206-217 | the greedy walk finds the shortest prefix whose total strictly exceeds the excess |
| FolderModel.SecondShrinkAsksNothing | DeviceBox/Controller.cpp:230-237 | after the deletions of a first shrink under a positive quota, a second one asks for nothing if and only if the bytes removed did not exceed the reported total, and the index is the kept suffix |
| FolderSync.AtMostOneOutstanding | DeviceBox/DropboxFolder.cpp:52-101 | at any time in any run from one startSync at most one list request, continue request or timer is outstanding |
| FolderSync.NothingAfterShutdown | DeviceBox/DropboxFolder.cpp:72-101 | after a shutdown no entry is taken and nothing is called in any continuation |
| FolderSync.TakenIsJoined | DeviceBox/DropboxFolder.cpp:112-161 | after any run the entries handled are those of the accepted pages that came in time and did not fail, in order, each page once |
| FolderSync.ListingIsTaken | DeviceBox/DropboxFolder.cpp:103-161 | wherever a listing is cut into pages, all its entries are taken in order and only the timer is then outstanding, with the last cursor |
| FolderSync.RequestsExactly | DeviceBox/DropboxFolder.cpp:52-88 | over every run the requests are the list request for the path, then in order one continue request with the cursor of each taken page that announces more and of each timer that fires before a shutdown |
| FolderSync.TimerIsLastCursor | DeviceBox/DropboxFolder.cpp:145-159 | an armed timer always waits with the cursor of the last page taken, which announced no more |
| FolderSync.CountsExactly | DeviceBox/DropboxFolder.cpp:223-242 | over every run the batches outstanding are those called and not answered, and the shutdown callback has been posted once per shutdown |
| FolderSync.ShrinkCalls | DeviceBox/DropboxFolder.cpp:201-230 | after any run without a shutdown a shrink calls exactly the batch that the entries taken and the quota ask for |
| FolderSync.ActiveExactly | DeviceBox/DropboxFolder.cpp:232-242 | in every run from one startSync the folder is active if and only if a delete batch is unanswered or no accepted response has failed and no accepted response or timer came after a shutdown; a shutdown has answered nevertheless |
| FolderSync.ShutdownLeavesItActive | DeviceBox/DropboxFolder.cpp:237-242 | a shutdown right after startSync answers while the folder is active |
| DropboxFolder.PagingDoesNotMatter | DeviceBox/DropboxFolder.cpp:103-161 | two folders after any runs whose accepted pages join to the same entries have equal map, index and total |
| FolderTeardown.JointStepKeeps | DeviceBox/Controller.cpp:111-141 | while stopping, the first stage of a source is queued or its folder has been shut down, whatever folders and streamers do in between |
| FolderTeardown.FolderAtRemoval | DeviceBox/Controller.cpp:98-102 | when any reachable removal is about to happen, the folder has been shut down and has answered, and the assertion that it is not active holds if and only if no delete batch is unanswered and its synchronisation was ended by a failed response or by a response or timer after the shutdown |
| FolderTeardown.FolderActiveAtRemoval | DeviceBox/Controller.cpp:98-102 | a reachable removal over an active folder |
| FolderModel.QuotaIsExact | DeviceBox/Config.cpp:38 | the configured byte quota is the number of megabytes if and only if that is at most 4095, and 0 if and only if it is a multiple of 4096 |
| DropboxFolder.LowerBound | DeviceBox/DropboxFolder.cpp:174-178 | binary search splits a sorted index before the first item that is not older |
| DropboxFolder.UpperBound | DeviceBox/DropboxFolder.cpp:128-131 | binary search splits a sorted index behind the last item that is not younger |
| DropboxFolder.SlotFound | DeviceBox/DropboxFolder.cpp:172-192 | for a live path the three searches end strictly inside the range of its stored timestamp, on the only slot there with its path, never on the range end |
| DropboxFolder.Oldest | DeviceBox/DropboxFolder.cpp:206-217 | the loop collects the paths of the shortest oldest-first prefix whose total strictly exceeds the given bytes, or of the whole index |
| DropboxFolder.Folder.constructor | DeviceBox/DropboxFolder.cpp:41-45 | a new folder agrees with no entries and waits for nothing |
| DropboxFolder.Folder.StartSync | DeviceBox/DropboxFolder.cpp:52-63 | one more list request is outstanding, whether or not there was one before; the mirror stays |
| DropboxFolder.Folder.OnListFolderResponse | DeviceBox/DropboxFolder.cpp:65-76 | the object takes the model's step: an error or a shutdown leaves the mirror alone, otherwise the page is taken and the next request or the timer follows |
| DropboxFolder.Folder.OnUpdateResponse | DeviceBox/DropboxFolder.cpp:90-101 | the same for the answer to a continue request |
| DropboxFolder.Folder.OnTimer | DeviceBox/DropboxFolder.cpp:149-159 | the object takes the model's step: one continue request with the cursor, or nothing after a shutdown |
| DropboxFolder.Folder.Update | DeviceBox/DropboxFolder.cpp:78-88 | issues one continue request unless shutting down |
| DropboxFolder.Folder.HandleFolderResponse | DeviceBox/DropboxFolder.cpp:103-161 | the three views become the reference on all entries handled before plus the page, in order, and the follow-up is the model's |
| DropboxFolder.Folder.HandleEntry | DeviceBox/DropboxFolder.cpp:112-141 | each entry keeps the agreement of map, stable index and total with the reference |
| DropboxFolder.Folder.EraseItem | DeviceBox/DropboxFolder.cpp:168-199 | is the effect of a deleted entry on all three views, found or not |
| DropboxFolder.Folder.ShrinkFolder | DeviceBox/DropboxFolder.cpp:201-230 | asks for nothing below the quota or after a shutdown, and otherwise for exactly the shortest sufficient prefix; the list is not empty under a positive quota |
| DropboxFolder.Folder.ShutdownFolder | DeviceBox/DropboxFolder.cpp:237-242 | posts the callback at once and sets the flag after which nothing is taken; an active folder stays active |
| DropboxFolder.Folder.IsActive | DeviceBox/DropboxFolder.cpp:232-235 | an object is active exactly when its model state is |
| DropboxFolder.Folder.Run | DeviceBox/DropboxFolder.cpp:52-101 | after any events the object is in the state that folding the events gives, calls and callbacks included, and map, index and total are the reference functions of exactly the entries taken in that fold |
| RefCounter.AgreesAfter | Common/RefCounter.h:36-64 | one copy, move or destruction keeps counter and holders in step if and only if there are at most 2^32 holders; the callback fires exactly when a destruction takes them from two to one |
| RefCounter.HoldersChange | Common/RefCounter.h:41-64 | which handles point at the counter after a copy, a move or a destruction |
| RefCounter.CountingIsExact | Common/RefCounter.h:36-64 | over a whole run the counter is the number of holders minus one at every moment if and only if the holders stay within 2^32 |
| RefCounter.CopiesOverrunTheCounter | Common/RefCounter.h:41-45 | k copies of the first handle are a legal run to k + 1 holders, and the counter is right throughout if and only if k is below 2^32 |
| RefCounter.FreedExactlyOnce | Common/RefCounter.h:54-64 | a run within that bound has freed the counter once if all holders are gone and never otherwise |
| RefCounter.FiredPerDrop | Common/RefCounter.h:104-111 | over a whole run within the bound the callback has fired exactly as often as a destruction took the holders from two to one |
| RefCounter.Handle.Create | Common/RefCounter.h:36-39 | a new handle is the only one on a new counter |
| RefCounter.Handle.Copy | Common/RefCounter.h:41-45 | one more handle on the same counter, which still counts them if and only if there are at most 2^32 |
| RefCounter.Handle.Move | Common/RefCounter.h:47-52 | the number of handles on the counter stays, the source is emptied |
| RefCounter.Handle.Destroy | Common/RefCounter.h:54-64 | the callback runs if and only if two handles were left, the counter is freed if and only if this was the last |
| Teardown.LocalStop | DeviceBox/StreamingHandler.cpp:364-391 | stopping keeps the invariant of a source: queued references counted, a Destroy queued exactly when it is due, one shutdown stage while stopping |
| Teardown.LocalStart | DeviceBox/StreamingHandler.cpp:497-528 | starting keeps the invariant of a source, for each outcome of the state change and any bus messages sent while it runs |
| Teardown.LocalBus | DeviceBox/StreamingHandler.cpp:202-250 | a bus message keeps the invariant of a source |
| Teardown.LocalRun | DeviceBox/StreamingHandler.cpp:393-495 | running any continuation keeps the invariant of a source |
| Teardown.LocalLast | DeviceBox/Controller.cpp:116-120 | when the last stage of a source runs, only client callbacks of that source are left in the queue |
| Teardown.InvStep | DeviceBox/Controller.cpp:88-147 | every step of the whole system keeps the invariants of all sources and of the barrier |
| Teardown.TeardownSafety | DeviceBox/Controller.cpp:98-102 | in every reachable state in which a shutdown callback is about to run, its source is registered, its Streamer is gone and no continuation holds a handle to the handler or a Streamer, so active() is false; none does afterwards |
| Teardown.NothingDangles | DeviceBox/StreamingHandler.cpp:218-242 | whatever runs in a reachable state finds its handler and, if bound to a Streamer, a Streamer that still counts it |
| Teardown.DestroyIsTimely | DeviceBox/StreamingHandler.cpp:387-425 | a live Streamer has a Destroy queued if and only if its pipeline is gone and nothing refers to it: never stuck, never premature |
| Teardown.OneStagePerSource | DeviceBox/Controller.cpp:111-141 | while stopping, each remaining source has exactly one shutdown stage ahead, queued or waiting in its handler, and none otherwise |
| Teardown.BarrierIsExact | DeviceBox/Controller.cpp:88-147 | the callback of stopHandleSources has been posted once per completed call, is queued if and only if stopping with no source left, and by then each source was removed exactly once, the case without sources included |
| Teardown.ShutdownCompletes | DeviceBox/Controller.cpp:108-147 | from any reachable state the queue runs dry; a stop under way has then removed all sources and posted its callback, and every Streamer left has a pipeline |
| Teardown.StopCompletes | DeviceBox/StreamingHandler.cpp:530-536 | from any reachable state, after stopStream and with no further event, the queue runs dry and the Streamer is gone |
| Teardown.RunIsLighter | DeviceBox/StreamingHandler.cpp:393-495 | each continuation run lowers the weight of the queue, which is why it runs dry |
| Teardown.StreamIsSafeExactly | DeviceBox/StreamingHandler.cpp:497-528 | wherever stream() can be called in a reachable state, for every outcome of its state change, the new Streamer is never destroyed with a pipeline or with references, in any allowed continuation, if and only if no Destroy of the previous one is queued |
| Teardown.StaleDestroyIsReachable | DeviceBox/StreamingHandler.cpp:364-391 | a state with such a stale Destroy is reachable by allowed steps |
| Notifications.StartIsReported | DeviceBox/StreamingHandler.cpp:319-362 | stream() on an idle source queues the messages sent meanwhile in order and behind them one task: Failed exactly for a failed state change, Streaming exactly for a successful one, the client's failure callback exactly for a pipeline that could not be built |
| Notifications.MessagesAreConserved | DeviceBox/StreamingHandler.cpp:202-250 | over every run, bus continuations queued and run are together those sent by pipelines |
| Notifications.NotificationsAreConserved | DeviceBox/StreamingHandler.cpp:393-417 | over every run, notifications under way and client callbacks run are together the successes, or the failures, of stream() and of the bus continuations run |
| Notifications.EveryOutcomeIsReported | DeviceBox/StreamingHandler.cpp:469-483 | in every run that leaves the queue empty, the client's success callback has run once per successful stream() and Playing message, and its failure callback once per failed stream() and per error or end-of-stream message |
| StreamingHandlers.StreamerObject.Stream | DeviceBox/StreamingHandler.cpp:342-361 | bus messages sent during the state change post first and hold references; then comes the failure or success notification, or nothing while it is pending |
| StreamingHandlers.StreamerObject.StopStream | DeviceBox/StreamingHandler.cpp:364-391 | refines the model's stop: state and posted tasks |
| StreamingHandlers.StreamerObject.AsyncError | DeviceBox/StreamingHandler.cpp:401-408 | notification first, then the stop |
| StreamingHandlers.StreamerObject.AsyncEos | DeviceBox/StreamingHandler.cpp:410-417 | notification first, then the stop |
| StreamingHandlers.StreamerObject.ReleaseRef | DeviceBox/StreamingHandler.cpp:419-425 | dropping a handle asks for destruction exactly when it was the last queued one and the pipeline is gone, before the count reaches zero |
| StreamingHandlers.StreamerObject.RunContinuation | DeviceBox/StreamingHandler.cpp:393-425 | call and release of the handle together refine one task of the model |
| StreamingHandlers.StreamingHandler.Stream | DeviceBox/StreamingHandler.cpp:497-528 | refines the model's start for each outcome |
| StreamingHandlers.StreamingHandler.StopStream | DeviceBox/StreamingHandler.cpp:530-536 | refines the model's stop |
| StreamingHandlers.StreamingHandler.DestroyStreaming | DeviceBox/StreamingHandler.cpp:485-495 | refines the model's Destroy task: the waiting callback is posted once and forgotten |
| StreamingHandlers.StreamingHandler.Shutdown | DeviceBox/StreamingHandler.cpp:543-553 | refines the model's shutdown: answered at once, or kept until the Streamer is destroyed |
| StreamingHandlers.StreamingHandler.OnBusMessage | DeviceBox/StreamingHandler.cpp:202-250 | refines the model's bus event; nothing without a pipeline |
| StreamingHandlers.StreamingHandler.RunContinuation | DeviceBox/StreamingHandler.cpp:393-495 | refines every task that is not a shutdown stage |
| Controllers.Controller.constructor | DeviceBox/Controller.cpp:27-34 | starts in the initial state of the model |
| Controllers.Controller.StartHandleSource | DeviceBox/Controller.cpp:64-72 | the object graph takes the model's Start step; other sources untouched |
| Controllers.Controller.StreamRequested | DeviceBox/Controller.cpp:183-201 | the object graph takes the model's Stream step; other sources untouched |
| Controllers.Controller.StopStream | DeviceBox/Controller.cpp:203-215 | the object graph takes the model's Stop step; other sources untouched |
| Controllers.Controller.OnBusMessage | DeviceBox/StreamingHandler.cpp:202-250 | the object graph takes the model's Bus step; other sources untouched |
| Controllers.Controller.RemoveSource | DeviceBox/Controller.cpp:88-106 | the object graph takes the model's removal; the callback is posted exactly when the table is empty |
| Controllers.Controller.StopHandleSources | DeviceBox/Controller.cpp:108-147 | posts one first stage per source in some order of the table, or the callback when there is none |
| Controllers.Controller.ShutdownSplitters | DeviceBox/Controller.cpp:112-142 | walks every source exactly once |
| Controllers.Controller.RunOne | DeviceBox/Controller.cpp:116-141 | running the oldest continuation is the model's run step, and the invariant holds before and after |
| Controllers.Controller.RunWork | DeviceBox/Controller.cpp:122-139 | the lambdas of the shutdown chain and the handler's continuations refine the model's tasks |
| Teardown.HeadIsSafe | DeviceBox/Controller.cpp:92-100 | under the invariant the oldest continuation finds the objects it is bound to, and a removal finds no Streamer |
| ServerModel.InformedAfterRequest | Server/ControlServer/ServerSession.cpp:266-281 | sending a wanted request restores the agreement of log and wanted streams for that source and keeps it for the others |
| ServerModel.InformedAfterStop | Server/ControlServer/ServerSession.cpp:283-289 | a stop message keeps the agreement of log and wanted streams once the source is no longer wanted |
| ServerModel.ConnectedKeeps | Server/ControlServer/ServerSession.cpp:82-110 | the end of a handshake keeps binding, posted restores and every session's log agreement |
| ServerModel.DestroyedKeeps | Server/ControlServer/ServerSession.cpp:44-55 | so does the end of a session |
| ServerModel.ClientReadyKeeps | Server/ControlServer/ServerSession.cpp:211-231 | so does ClientReady |
| ServerModel.StreamStatusKeeps | Server/ControlServer/ServerSession.cpp:233-264 | so does a status report |
| ServerModel.TimerFiresKeeps | Server/ControlServer/ServerSession.cpp:252-259 | so does a retry, also when the stream was stopped in between |
| ServerModel.RunPostedKeeps | Server/ControlServer/ServerSession.cpp:220-228 | so does a posted restore, also when the stream was stopped in between |
| ServerModel.RequestKeeps | Server/ControlServer/Server.cpp:159-178 | so does a stream request, with or without a session |
| ServerModel.StopKeeps | Server/ControlServer/Server.cpp:180-198 | so does a stop request, with or without a session |
| ServerWorld.SourceIdOfPath | Server/RestreamServer/Server.cpp:332-349 | the source id is what stands between the first slash and the second or the end; a path without a slash has none |
| ServerWorld.FirstPlayerKeeps | Server/RestreamServer/Server.cpp:351-382 | a first player keeps paths, wanted streams and sessions in agreement and never meets the branch for an already active source, even if a recorder made the entry |
| ServerWorld.LastPlayerKeeps | Server/RestreamServer/Server.cpp:384-407 | so does the last player, whether or not a recorder keeps the entry |
| ServerWorld.StepKeeps | Server/RestreamServer/Server.cpp:351-458 | every event keeps the invariants across both servers |
| ServerWorld.WantedIsWatched | Server/RestreamServer/Server.cpp:351-458 | in every reachable state the wanted map of a device holds exactly the sources of its paths with players, each with its record address; every entry has a player or a recorder; an already active source is never requested |
| ServerWorld.NeverAskedInVain | Server/ControlServer/ServerSession.cpp:266-289 | in every reachable state a session's last message about a source is a request only if the source is watched, and then it names the address in the map |
| ServerWorld.DeviceFollowsPlayers | Server/ControlServer/ServerSession.cpp:211-231 | once a session is ready and its posted restores have run, its last message about a source is a request to the record address if and only if somebody watches it |
| ServerWorld.DrainPostedKeeps | Server/ControlServer/ServerSession.cpp:220-228 | running all posted restores keeps the invariants, the wanted streams and the sessions |
| ServerRuns.TableIsHistory | Server/RestreamServer/Server.cpp:351-458 | after every run the table holds exactly the paths with a found first player or a confirmed recorder that has not left, each flag set if and only if its callbacks say so |
| ServerRuns.WantedIsHistory | Server/ServerMain.cpp:32-42 | after every run a device is to stream a source if and only if its path has a found first player that has not left, to the record address |
| ServerRuns.SessionEffects | Server/ControlServer/ServerSession.cpp:211-289 | in every reachable state, what each event sends on a session and does to its timer, in terms of who watches |
| ServerRuns.LogIsHistory | Server/ControlServer/ServerSession.cpp:266-289 | from its handshake on, the log of a session is exactly what the events of its life have told it |
| ServerRuns.ReadyRestores | Server/ControlServer/ServerSession.cpp:211-231 | in every run in which an accepted session has said ClientReady and lives on, once the restores have run its last message about a source is the request to the record address if and only if the callbacks say that it is watched |
| ServerRuns.RetryAsksAgain | Server/ControlServer/ServerSession.cpp:248-259 | after a failure report about a watched source, whatever else happens short of another failure or retry, the timer sends one more request exactly if the source is still watched |
| ServerRuns.DisconnectReleases | Server/ControlServer/ServerSession.cpp:44-55 | in every run a disconnected session leaves no entry, no posted restore and no device that it is in charge of |
| ServerRuns.ReconnectIsAccepted | Server/ControlServer/Sessions.cpp:14-32 | the device of a session that has disconnected is accepted again at once, with its wanted streams; other sessions, contexts and restores are as before |
| ServerRuns.OthersConcat | Server/ControlServer/ServerSession.cpp:225 | the restores of the other sessions keep their order and number |
| ServerRuns.RestoresInOrder | Server/ControlServer/Sessions.cpp:69-76 | ClientReady posts one restore per stream, in the order of the walk |
| ServerRuns.RecordUrlLeadsBack | Server/ServerMain.cpp:35-37 | the record address determines its source, lies on the restream server, asks for recording, and its path is one whose source id is that source |
| ServerWorld.OnePathPerSourceIsNeeded | Server/ControlServer/Sessions.cpp:38-47 | with two paths for one source the already-active branch is met, and one path's last player stops the other's stream |
| ServerWorld.DestructorAssertionExactly | Server/ControlServer/ServerSession.cpp:44-55 | in every run the destructor's assertion holds of a session, at any time after its handshake, if and only if no certificate named a device, or the handshake succeeded and the device was known and free at that moment |
| ServerWorld.RefusedDuplicateBreaksIt | Server/ControlServer/ServerSession.cpp:99-103 | the second connection of a connected device is a session that breaks it |
| ControlServers.Server.AttachBoth | Server/ControlServer/Sessions.cpp:14-21 | session and context point at each other, and in the model exactly the binding of this session and this device changes |
| ControlServers.Server.ReleaseDevice | Server/ControlServer/Sessions.cpp:23-32 | the end of a bound session frees its device and keeps its wanted streams, the other sessions and their restores |
| ControlServers.SessionContext.StreamRequested | Server/ControlServer/Sessions.cpp:34-48 | the first destination of a source wins until it is stopped |
| ControlServers.Server.Unwant | Server/ControlServer/Sessions.cpp:50-55 | in the model exactly one device stops wanting exactly one source |
| ControlServers.Server.RequestOn | Server/ControlServer/Sessions.cpp:57-67 | what a bound session sends is decided by what its device wants at that moment, as in the model |
| ControlServers.ServerSession.RequestStream | Server/ControlServer/ServerSession.cpp:266-281 | sends exactly the destination wanted at that moment, or nothing |
| ControlServers.Server.StopOn | Server/ControlServer/ServerSession.cpp:283-289 | in the model exactly the log of the bound session grows, by the stop message |
| ControlServers.ServerSession.OnClientReady | Server/ControlServer/ServerSession.cpp:211-231 | posts exactly one restore per active stream; nothing without a context |
| ControlServers.ServerSession.OnStreamStatus | Server/ControlServer/ServerSession.cpp:233-264 | arms the timer exactly for a failed source that is still wanted |
| ControlServers.Server.constructor | Server/ControlServer/Server.cpp:114-122 | starts without contexts and sessions |
| ControlServers.Server.Get | Server/ControlServer/Sessions.cpp:88-91 | finds the context or creates it empty; the model's state is otherwise unchanged |
| ControlServers.Server.OnConnected | Server/ControlServer/ServerSession.cpp:82-110 | the object graph takes the model's handshake step: bound only if the device is known and free |
| ControlServers.Server.OnDestroyed | Server/ControlServer/ServerSession.cpp:44-55 | the object graph takes the model's end of a session: the device is free again, its wanted streams stay |
| ControlServers.Server.OnClientReady | Server/ControlServer/ServerSession.cpp:211-231 | the object graph takes the model's ClientReady step, over all active streams |
| ControlServers.Server.OnStreamStatus | Server/ControlServer/ServerSession.cpp:233-264 | the object graph takes the model's status step |
| ControlServers.Server.OnTimer | Server/ControlServer/ServerSession.cpp:252-259 | the object graph takes the model's retry step |
| ControlServers.Server.RunOne | Server/ControlServer/ServerSession.cpp:225 | the object graph takes the model's restore step |
| ControlServers.Server.RequestStream | Server/ControlServer/Server.cpp:159-178 | the object graph takes the model's request step: map first, then the session in charge |
| ControlServers.Server.StopStream | Server/ControlServer/Server.cpp:180-198 | the object graph takes the model's stop step: map first, then the session in charge |
| RestreamServers.RestreamServer.constructor | Server/RestreamServer/Server.cpp:67-75 | both servers start in the initial state of the world |
| RestreamServers.RestreamServer.OnFirstPlayerConnected | Server/RestreamServer/Server.cpp:351-382 | both servers together take the world's first-player step |
| RestreamServers.RestreamServer.OnLastPlayerDisconnected | Server/RestreamServer/Server.cpp:384-407 | both servers together take the world's last-player step |
| RestreamServers.RestreamServer.OnRecorderConnected | Server/RestreamServer/Server.cpp:409-438 | takes the world's recorder step and leaves the control server alone |
| RestreamServers.RestreamServer.OnRecorderDisconnected | Server/RestreamServer/Server.cpp:440-458 | takes the world's step for a recorder that leaves |
| StringFormat.ScanEscaped | DeviceBox/string_format.h:174-176 | text with every percent sign doubled scans back to itself, whatever follows it |
| StringFormat.ScanToPercent | DeviceBox/string_format.h:166-184 | what the reference does at the next percent sign: an escape, a two-character or a one-character placeholder |
| StringFormat.SplitTemplate | DeviceBox/string_format.h:46-50 | a format made of escaped literals and placeholders determines its literals, for all characters |
| StringFormat.RenderEnoughArguments | DeviceBox/string_format.h:86-92 | any format with at least one argument per placeholder renders as its literals interleaved with the arguments, surplus ones appended |
| StringFormat.RenderMissingArguments | DeviceBox/string_format.h:191-199 | for any format with more placeholders than arguments, the first open placeholder disappears and the raw text behind it comes out as written |
| StringFormat.BehindIsSuffix | DeviceBox/string_format.h:181-184 | the raw text behind a placeholder is a suffix of the format and holds exactly the literals that are left |
| StringFormat.RoundTrip | DeviceBox/string_format.h:154-199 | escaped literals joined by placeholders and fed one argument per gap give literal, argument, literal and so on, for all strings |
| StringFormat.Examples | DeviceBox/string_format.h:46-50 | escapes, both kinds of placeholders, surplus and missing arguments on concrete formats |
| StringFormat.Formatter.Empty | DeviceBox/string_format.h:52 | a formatter without a format concatenates its arguments |
| StringFormat.Formatter.constructor | DeviceBox/string_format.h:54-58 | whatever is fed next, the outcome is the reference on the format and these arguments |
| StringFormat.Formatter.PushNext | DeviceBox/string_format.h:154-189 | the loop terminates, appends exactly the next unescaped literal and stops behind its placeholder or at the end |
| StringFormat.Formatter.PushRemainder | DeviceBox/string_format.h:191-199 | copies the rest raw, once |
| StringFormat.Formatter.Arg | DeviceBox/string_format.h:86-92 | feeding an argument advances the outcome by that argument, for all arguments that may follow |
| StringFormat.Formatter.Repeat | DeviceBox/string_format.h:71-78 | feeds the same argument that many times |
| StringFormat.Formatter.Str | DeviceBox/string_format.h:112-116 | returns the outcome without further arguments; later ones are appended |
| StringFormat.Formatter.SetFormat | DeviceBox/string_format.h:145-152 | forgets everything and starts with the new format |
| StringFormat.Format | DeviceBox/string_format.h:54-116 | construct, feed all arguments, read out: the reference, for every format and argument list |
| DropboxActions.ReadOneKeeps | DeviceBox/Dropbox.cpp:335-351 | the oldest completion message names a transfer of the table, and handling it keeps table, counters and completions in step |
| DropboxActions.StepKeeps | DeviceBox/Dropbox.cpp:353-444 | every legal task keeps them in step, with as many table entries and completions together as operations submitted |
| DropboxActions.Conservation | DeviceBox/Dropbox.cpp:335-554 | after any legal run exactly the operations of its tasks are submitted, each is in the table or completed, never both or twice, uploads are counted and within the limit, and with an empty table all have completed |
| DropboxActions.CompletionsStay | DeviceBox/Dropbox.cpp:395-413 | no completion is ever taken back or reordered |
| DropboxActions.EveryOperationIsAccounted | DeviceBox/Dropbox.cpp:395-444 | in any legal run a refused or unbuilt operation has completed with code 0, and any other is in the table or has completed with a code that curl reported for its handle since |
| DropboxActions.WaitsExactly | DeviceBox/Dropbox.cpp:355-369 | a task that reaches curl leaves no completion unread if and only if the transfers that finish are not as many as it adds, or there is nothing to read; one that does not reach curl leaves them all unread |
| DropboxActions.IdlingChangesNothing | DeviceBox/Dropbox.cpp:355-369 | calling curl any number of times while no transfer is added or finishes changes nothing, completions that wait included |
| DropboxActions.FinishedUploadsKeepTheirSlots | DeviceBox/Dropbox.cpp:420-426 | a legal run after which both upload slots are taken by finished uploads with no transfer under way, for as long as curl is left alone, and a third upload is refused |
| DropboxActions.Internal.HandleDone | DeviceBox/Dropbox.cpp:335-351 | the finished transfer is in the table, leaves it, and its completion comes once, called or posted as the action asks |
| DropboxActions.Internal.CurlPerform | DeviceBox/Dropbox.cpp:353-369 | afterwards either the running count is unchanged and the finished transfers wait, or every message has been read and the table holds exactly the running transfers |
| DropboxActions.Internal.Add | DeviceBox/Dropbox.cpp:439-443 | a new transfer enters the table and curl works, as in the model |
| DropboxActions.Internal.StartUpload | DeviceBox/Dropbox.cpp:415-444 | an upload beyond the limit or one that cannot be built completes at once with code 0 and changes nothing else; otherwise it runs |
| DropboxActions.Internal.StartRequest | DeviceBox/Dropbox.cpp:446-554 | the same for the other operations, which have no limit |
| DropboxActions.Internal.Run | DeviceBox/Dropbox.cpp:335-554 | any legal tasks leave the object in the state that executing them gives; exactly their operations are added to the submitted ones, and completions are only appended |
| DropboxActions.OnceAfterDone | DeviceBox/Dropbox.cpp:342-350 | moving an operation from the table to the completions keeps exactly-once |
| DropboxActions.TrackedAfterRead | DeviceBox/Dropbox.cpp:361-366 | the oldest message names a transfer of the table, and the rest stays tracked once it is removed |
| DropboxActions.TrackedAfterFinish | DeviceBox/Dropbox.cpp:356 | transfers that finish stay in the table, as unread messages, once each |
| DeleteBatch.WriteBody | DeviceBox/Dropbox.cpp:974-995 | the loop writes the body of the list, entries separated by commas |
| DeleteBatch.Examples | DeviceBox/Dropbox.cpp:974-995 | the text of the bodies of lists of zero, one and two paths |
| DeleteBatch.ReadBackIsPlain | DeviceBox/Dropbox.cpp:986-988 | a text written unescaped between quotes reads back as itself if and only if it has no quote, backslash or control character |
| DeleteBatch.EntriesReadBack | DeviceBox/Dropbox.cpp:979-989 | the array of a non-empty list reads back as the list if and only if all paths are such texts |
| DeleteBatch.BodyReadsBack | DeviceBox/Dropbox.cpp:974-995 | the whole body, read after sections 2, 4, 5 and 7 of RFC 8259, gives the list if and only if all paths are such texts, for lists of any length |

## Left out

- TLS, certificates, hashing, authentication and authorization of players: foreign calls and lookups.
- GStreamer pipelines: only whether there is one, and the bus messages that post continuations. curl's transport: only which transfers finish.
- JSON, protobuf and date parsing: entries come decoded. The configuration back ends, logging, daemonizing and the `main` functions.
- The io_service is a sequence of continuations; timers that fire are events. What a synchronous callback of an internal Dropbox action does in turn is not modelled.
- The splitter's part of the Controller's assertion in DeviceBox/Controller.cpp:98-100: the splitter is one stage that completes.
- Controllers.Controller.StartHandleSource: does not say that the folder's synchronisation, the splitter and the shrink timer are started, because these objects are modelled apart from the streamers; FolderTeardown starts a folder with each source.
- ServerModel.DestroyedKeeps: the model releases the device when the session is bound, where the source tests the device id and would follow a null context; DestructorAssertionExactly says when the two tests agree.
- ControlServers.Server.OnDestroyed: the same, on the objects.
- `Controller::loadConfig`, `reset` and `shutdown`, and the shutdown of `Dropbox`: curlPerform re-arms itself for ever, so the curl loop does not go idle.
- `Controller::shrinkStorage` beyond its positive-quota guard, which is a hypothesis of `SecondShrinkAsksNothing`.
- Data races: callbacks of the RTSP and control threads are atomic steps. Restores and the timer of a control session are assumed to end with the session; in the source they hold a raw pointer to it.
- Liveness of retries: one timer serves all sources of a session, so a second failure replaces the first retry. Only safety is proved.
- Debug assertions are not executed by the model; where the source continues after one in a release build, so does the model.
- `DropboxFolder.Folder`: the index holds items by value. That the set does not move its items when it grows, on which the index of pointers relies, is not modelled.
- `Teardown.Streamer`: its counter is unbounded; the bound is the subject of `RefCounter`.
- Client callbacks of `stream()` that are empty functions, which the source does not post: the model takes both as given.
- Stream manipulators and wide characters of the formatter, and the formatting of values: arguments are strings.
