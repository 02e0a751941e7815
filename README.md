# SenderService dispatcher, modelled in Dafny

This project models the dispatcher of the fmdscp DICOM router's outbound
side, `SenderService` (`src/senderservice.cpp`). The dispatcher's main loop
works as follows:

- It claims one queued row of `outgoing_sessions`. The claim is a SELECT
  followed by a conditional `UPDATE ... SET queued = 0 WHERE id = ? AND
  queued = 1` and a `SELECT ROW_COUNT()`.
- It looks up the row's destination.
- It enumerates the study's files. The walk goes from the study to its
  series to their instances, and each file sits at
  `root/study/series/sop.dcm`.
- If both lookups succeed, it starts a `Sender` and appends it to the list
  of running senders.
- After every pass it removes the senders whose task is done.

On shutdown the dispatcher stops claiming jobs. It then repeatedly removes
the finished senders and asks the others to cancel, until the list is
empty. `cancelSend` asks the first sender with a given uuid to cancel.

The model is organised in these modules:

- `Records` holds the rows the dispatcher reads and the store calls it
  makes.
  - Each store call is a `Query` value. The fault set handed to an
    operation says which calls throw.
  - A `SELECT ... WHERE` is `Filter` over a table kept in table order.
- `Paths` holds `boost::filesystem::path::operator/=` (filesystem version
  3, POSIX separator).
- `Claims` holds the conditional update as a function on the
  `outgoing_sessions` table. It also holds what any serialisation of
  competing dispatchers' updates does to that table.
- `Registry` holds two things:
  - The `Sender` handle. It is a class, because the dispatcher and the
    sender's own thread share it.
  - `Pending`, the specification of a reap pass, and `FirstMatch`, the
    specification of `cancelSend`. Next to them are the methods whose
    loops walk the list with a cursor and erase in place.
- `Enumeration` holds the specification functions of `GetFilesToSend` and
  the lemmas about them.
- `Service` holds the `SenderService` class.
  - Its fields are the `outgoing_sessions` table, the list of senders and
    the shutdown flag.
  - Its methods follow the source's functions and loops. Those that
    query the store or walk the list are proved against the functions
    above.
  - Two ghost fields make the main loop's work observable: `claims`
    counts the `getQueued` calls, and `launched` logs every sender ever
    appended to the list. `Accounted` says that the list is drawn from
    that log and that every logged sender no longer in the list has
    finished.

The world outside the dispatcher becomes parameters:

- which store calls throw (`faults`);
- which other dispatchers' updates land between this one's SELECT and its
  UPDATE (`rivals`);
- whether the host calls `stop()` during a pass (`Round.stopAfter`);
- at which pass each sender's task reports done (`doneAt`).

Three behaviours of the code worth noting:

- A study with no series is enumerated successfully. `GetFilesToSend`
  returns true with an empty map, so a sender with no files is started;
  the job is not dropped.
- When several `patient_studies` rows carry the study UID, the first one
  is used. It is not an error.
- A failed enumeration leaves the entries it already inserted in the
  caller's map. `run_internal` discards that map.

## Model

| member | source | states |
|---|---|---|
| Records.Filter | src/senderservice.cpp:199-253 | A query returns exactly the table rows that satisfy its WHERE clause, and no more rows than the table has. |
| Records.WhereClauses | src/senderservice.cpp:199-253 | The study, series and instance queries return exactly the rows whose study UID, study id or series id is the one asked for. |
| Records.FilterHead | src/senderservice.cpp:222-239 | `patient_studies_list[0]` is the earliest matching row: no row of the table before it matches. |
| Paths.AppendParts | src/senderservice.cpp:257-265 | `/=` keeps both operands, in order. It adds at most one character between them, and that character is the separator. |
| Paths.AppendPlainEnd | src/senderservice.cpp:259-260 | After appending a UID that neither starts nor ends with '/', the path does not end with a separator. |
| Paths.FilePathEnds | src/senderservice.cpp:264-265 | Every instance's file path ends with its SOP instance UID followed by ".dcm". |
| Paths.FilePathShape | src/senderservice.cpp:257-265 | For UIDs that neither start nor end with '/', the file path is exactly the root as a directory, then study/series/sop.dcm, with no separator doubled. |
| Claims.ClearQueued | src/senderservice.cpp:48-50 | The conditional UPDATE changes only the `queued` flag of row `id`. The row count it reports is at most 1, and positive exactly when the row exists and was still queued. |
| Claims.Serialize | src/senderservice.cpp:48 | After any series of rivals' conditional updates, the keys and every column but `queued` are unchanged. A row is still queued exactly when it was queued and nobody attempted it. |
| Claims.AtMostOneClaimant | src/senderservice.cpp:46-56 | However the claimants' updates are serialised, at most one of them sees a positive row count for a row. Exactly one does when the row was queued and attempted. |
| Claims.AfterClaim | src/senderservice.cpp:46-50 | One dispatcher's claim with rivals in between: a row stays queued only when it was queued and no rival attempted it. The selected row additionally needs this dispatcher's own UPDATE to have thrown. |
| Claims.ClaimedRow | src/senderservice.cpp:46-56 | A successful claim means the selected row was queued and the conditional update affected it. The row is then unqueued, and every other row is as the rivals left it. |
| Claims.ClaimClears | src/senderservice.cpp:46-58 | A claim, with its rivals' updates, keeps every row and every column but `queued`, and never sets `queued`. |
| Claims.OnlyClearedTrans | src/senderservice.cpp:72-122 | `OnlyCleared` composes: a table that only lost `queued` flags over each of two stretches only lost them over both, so across the whole main loop. |
| Claims.LostRace | src/senderservice.cpp:46-58 | If a rival's update on the same row lands first, the claim fails and leaves the out-parameter untouched. |
| Service.SenderService.GetQueued | src/senderservice.cpp:31-67 | No row is selected exactly when the SELECT throws or none is queued. The claim succeeds exactly when the conditional update took the row and no later store call threw. The out-parameter is written only on success, and the table's keying is preserved. |
| Service.SenderService.FindDestination | src/senderservice.cpp:165-190 | Found exactly when the lookup does not throw and the id is in `destinations`. The out-parameter is set only when found. |
| Enumeration.Insert | src/senderservice.cpp:266 | `std::map::insert` adds the key, and never overwrites a key already present. |
| Enumeration.SopUidsMembers | src/senderservice.cpp:262-266 | A UID is among a series' SOP UIDs exactly when some instance row carries it. |
| Enumeration.InsertInstancesEntries | src/senderservice.cpp:262-267 | The inner loop keeps the entries already there and adds one entry per SOP UID of the series. Each new entry is that UID's file in the series directory. |
| Service.SenderService.InsertSeriesFiles | src/senderservice.cpp:262-267 | The inner loop computes `InsertInstances`. |
| Enumeration.Enumerate | src/senderservice.cpp:192-276 | Without a matching study the call fails and leaves the map untouched. Success implies a study was found. A study that is found, with neither the study nor the series query throwing, and that has no series makes the call succeed and add nothing. |
| Enumeration.FillSeriesOk | src/senderservice.cpp:242-273 | The series loop succeeds exactly when no instance query throws. |
| Enumeration.EnumerateOk | src/senderservice.cpp:192-276 | The call returns true exactly when the study query does not throw and finds the study, the series query of the first match does not throw, and no instance query of those series throws. |
| Enumeration.FailureSticks | src/senderservice.cpp:242-273 | Once an instance query has thrown, the later series change nothing: the call returns false with what the earlier series added. |
| Enumeration.FillSeriesKeys | src/senderservice.cpp:242-267 | The caller's entries are kept, and only SOP UIDs of the listed series are added. On success all of them are added. |
| Enumeration.FirstSeriesWith | src/senderservice.cpp:242-266 | The series found is in range and holds the UID. |
| Enumeration.FirstSeriesWithFirst | src/senderservice.cpp:242-266 | No series before the one found holds the UID. None is found exactly when no series holds it. |
| Enumeration.FirstSeriesWithNone | src/senderservice.cpp:242-266 | No series holding the UID is found exactly when the UID is not among all the series' SOP UIDs. |
| Enumeration.FillSeriesFirstWins | src/senderservice.cpp:242-267 | A SOP UID held by several series is filed under the first of them: a later series does not overwrite it. |
| Enumeration.EnumerateEntries | src/senderservice.cpp:192-276 | A successful enumeration keeps the caller's entries and adds exactly the first matching study's SOP UIDs, each filed under the first series holding it. A failed one adds only such entries. |
| Service.SenderService.GetFilesToSend | src/senderservice.cpp:192-276 | The method's return value and map are those of `Enumerate`, including the error paths. |
| Service.SenderService.Prepare | src/senderservice.cpp:87-97 | The sender is fresh, bound to the job's uuid and id, and given the destination. It is started, with the study's files, exactly when the enumeration succeeds. It is never done or cancelled at this point. |
| Service.SenderService.StartSender | src/senderservice.cpp:79-101 | A sender is started exactly when the destination lookup and the enumeration both succeed. It is then fresh, bound to the job, given the destination and the study's files, started and not cancelled, and appended at the end of the list. Otherwise the list is unchanged. |
| Service.SenderService.DispatchStep | src/senderservice.cpp:74-101 | The claim behaves as `GetQueued` states, and `getQueued` is called once. A sender is dispatched exactly when the claim, the destination lookup and the enumeration all succeed. The list, and the log of started senders, then grow by exactly that sender, fresh and started for the claimed job. Otherwise both are unchanged. |
| Service.SenderService.LoopDispatch | src/senderservice.cpp:74-101 | The dispatch step as the main loop calls it. It has the same outcome as `DispatchStep`: the claim is as `GetQueued` states, and a sender is dispatched exactly when the claim, the destination lookup and the enumeration all succeed. The list and the log grow by exactly the dispatched sender, which is fresh, started with the enumerated files, bound to the claimed job and not done, and otherwise stay as they were. It also states that `getQueued` was called once more, that every logged sender is old or fresh, and that the table has only lost `queued` flags since the loop began. |
| Registry.Pending | src/senderservice.cpp:113-121 | A reap never lengthens the list. |
| Registry.PendingExactly | src/senderservice.cpp:112-121 | A reap keeps exactly the handles whose task is not done. |
| Registry.PendingConcat | src/senderservice.cpp:112-121 | A reap works piecewise on any split of the list, so it keeps relative order. |
| Registry.PendingIdempotent | src/senderservice.cpp:112-121 | A second reap in a row removes nothing. |
| Registry.ReapStep | src/senderservice.cpp:117-120 | Erasing a finished handle under the cursor, or stepping over a live one, advances the scan by one element of the original list. |
| Registry.EraseDone | src/senderservice.cpp:112-121 | The erase-while-iterating loop leaves exactly `Pending` of the list. |
| Registry.CancelStep | src/senderservice.cpp:130-136 | The drain step advances the scan as the reap step does, and asks exactly the live handle under the cursor to cancel. |
| Registry.CancelPending | src/senderservice.cpp:127-137 | A drain pass leaves `Pending` of the list, and asks every live handle, and no finished one, to cancel. |
| Service.SenderService.Reap | src/senderservice.cpp:112-121 | After the reap the list is `Pending` of the old list, and the service invariant holds. |
| Service.SenderService.DrainPass | src/senderservice.cpp:127-137 | After a drain pass the list is `Pending` of the old list, and each handle has been asked to cancel exactly when it was not done. |
| Service.SenderService.Elapse | src/senderservice.cpp:103-110 | While the dispatcher sleeps, exactly the tasks whose time has come report done. |
| Service.SenderService.Settle | src/senderservice.cpp:103-121 | While the dispatcher sleeps, exactly the tasks whose time has come report done. The list left is then the reap of the old list, and the flag is raised exactly when the host asked. |
| Service.SenderService.MainLoop | src/senderservice.cpp:72-122 | In total: the loop returns the number of passes it made, which is one more than the first round that asks to stop, or none when the flag is already raised. `getQueued` was called that many times. At most that many senders were added to the log, all fresh, after the old entries, which are kept. The job table has only lost `queued` flags. |
| Service.SenderService.DrainRound | src/senderservice.cpp:125-142 | The list kept is exactly the reap of the list as it stood when the round began: the handles not yet finished then, in their order. Those erased had finished. Each not finished at the start has been asked to cancel, and any kept whose time has come has finished during the sleep. |
| Service.SenderService.LoopDrainRound | src/senderservice.cpp:125-142 | The drain round as the drain loop calls it: the membership and liveness facts of `DrainRound` that the loop invariant carries. |
| Service.SenderService.Drain | src/senderservice.cpp:124-143 | The drain loop ends with an empty list. Every sender tracked at its start has finished, and each one still running at its start was asked to cancel. |
| Service.SenderService.Stop | src/senderservice.cpp:152-162 | `stop()` raises the flag that `shouldShutdown()` reports. |
| Service.FirstStop | src/senderservice.cpp:72 | The pass after which the flag is first found raised: the earliest round in which the host asks to stop. |
| Service.SenderService.RunInternal | src/senderservice.cpp:69-144 | In total, `run_internal` calls `getQueued` one more time than the index of the first round that asks to stop, and never when the flag is already raised. It returns with the flag raised and the list empty. Every sender it started, and every one running when it began, has finished. No job row was added or re-queued, and no column but `queued` changed. |
| Registry.FirstMatch | src/senderservice.cpp:278-293 | The index found is the first whose uuid matches. None is found exactly when no uuid matches. |
| Service.SenderService.CancelSend | src/senderservice.cpp:278-293 | `cancelSend` succeeds exactly when some sender has the uuid. It asks only the first such sender to cancel, and leaves the list and every other sender as they were. |
| Registry.Sender.constructor | src/senderservice.cpp:87 | A new sender is bound to the job's uuid and row id, and has no destination, no files, and nothing started, done or cancelled. |
| Registry.Sender.Initialize | src/senderservice.cpp:88 | `Initialize` records the destination. |
| Registry.Sender.SetFileList | src/senderservice.cpp:93 | `SetFileList` records the file map. |
| Registry.Sender.DoSendAsync | src/senderservice.cpp:96 | `DoSendAsync` starts the sender. |
| Registry.Sender.Cancel | src/senderservice.cpp:134 | `Cancel` records a cancel request. |
| Service.SenderService.constructor | src/senderservice.cpp:25-29 | A new service has no senders and the flag cleared. |

## Left out

- The database itself (Poco sessions, the connection pool, SQL text) is not modelled. Tables are Dafny values, and each store call is a function of them. Result order without ORDER BY is taken to be table order.
- `LIMIT 1` on the job SELECT picks an arbitrary queued row. The model picks one nondeterministically.
- Threads, the mutex and real time are not modelled:
  - `stop()` and `shouldShutdown()` are plain field accesses, and the host's `stop()` is a per-pass input.
  - Sender threads run while the dispatcher sleeps, and `doneAt` says at which pass each task reports done. The termination of the drain rests on that (every task ends at some pass).
  - The source sleeps in the main loop only when no job was claimed: 200 ms on Windows and 200 µs elsewhere. The model lets time pass on every pass.
  - The drain loop sleeps after every pass. The model sleeps only while senders remain, since a last sleep before the loop exits is not observable.
- `Sender`'s implementation (sender.cpp) is not part of this model. The transfer, its network traffic, its database writes and its reporting are out of scope; the class records only the calls the dispatcher makes.
- The cloud notification `send_updateoutsessionitem` is not modelled. It is made before the enumeration, whatever the enumeration's outcome.
- Logging (`DCMNET_INFO`, `DCMNET_ERROR`, the NDC context), the unicode macro workaround and `threadCleanup` in `run()` are left out.
- `boost::lexical_cast` of the job's uuid can throw outside any handler. In the model the uuid always parses.
- In `getQueued`, only `Poco::Exception` is caught (src/senderservice.cpp:60-64). Any other exception there escapes `run_internal`, and the model does not represent it. `findDestination` catches every exception (line 185), so its fault branch in the model covers all of them.
- The Windows path separator is not modelled: paths use '/'.
- Service.SenderService.Valid: the invariant does not track `started`. Senders are started before they are appended, and `StartSender` states it for the sender it appends.
- Service.SenderService.RunInternal: requires that the host eventually asks to stop. Without that the source loops forever, and there is nothing to prove about its return.
- Between passes the `outgoing_sessions` table changes only through this dispatcher's claims and the rivals' conditional clears: no row is inserted, re-queued or otherwise edited by another writer. The invariant that a tracked sender's job stays unqueued rests on this.
- `cancelSend` walks the list without taking the mutex while `run_internal` may be erasing from it on its own thread. The model makes `cancelSend` atomic with respect to the main loop, so that race is not represented.
- `naturalpathmap`'s comparator is not part of this model. Key equivalence is taken to be string equality, so two UIDs the comparator might treat as equal are distinct keys here.
- Service.SenderService.MainLoop: states totals over the passes, not each pass's outcome. Each pass's outcome is the contract of `LoopDispatch` and `Settle`, which the loop body calls in turn.
- Service.SenderService.LoopDrainRound: carries only the facts of `DrainRound` that the drain loop needs, not that the list kept is exactly the reap of the list at the start of the round. `DrainRound`, which it calls, states that.
- Registry.Sender.constructor: the model's `Sender` also carries the job's row id (`jobId`). The source's `Sender` is given only the parsed uuid, the cloud client and the pool (line 87). The row id is there only so the service invariant can tie each sender to the row it claimed.
- `isUUID` is modelled as equality of the uuid text the sender was created with. The source converts the job's uuid with `boost::lexical_cast<boost::uuids::uuid>`, and the body of `Sender::isUUID` (in sender.cpp) is not part of this model. If that body compares parsed uuids, another spelling of the same uuid (upper case, braces) would match in the source but not in the model.
