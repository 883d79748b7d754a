# App Linking domain verification: a verified model

The service decides which installed application may open an https link. When an
application is installed its hosts are stored unverified and a task at the agent
asks each host for its asset file; results come back to a store that is written
through to a table; link clicks are then filtered by the store, and links nobody
could take wait in a bounded cache. The project models these parts and proves
what they keep, alone and joined.

| module | what it models |
|---|---|
| VerifyTypes, Seqs, Recency, Decimal | shared records and codes, `remove_if`, recency orders, time stamps as text |
| DomainVerifier | matching an application against an asset file |
| VerifyTasks, AnswerOrder | one verification task, its interleaved callbacks, and when their order matters |
| TaskPool | four workers, a mutex, a condition variable and a queue |
| RdbTable, StatusStore, StoreRuns, Restarts | the table, the write-through map, runs of both, and what a restart finds |
| ManagerService | collecting hosts, the service's store operations, choosing abilities |
| VerificationSystem | the parts joined: every interleaving, restarts included |
| SystemRuns, InstallIdentity, IdentityRuns | which answer vouched for each verified record, and for whom |
| Completion, KeptSuccess | results can always come back; exactly when a success is kept |
| DeferredLinks | links that wait for an application, and their ageing timer |
| LruCache, AppDetails | the LRU cache and the details query it stands in front of |
| ParcelCodec, WhiteList | the parcel codec of results, the text codec of the white list |

Classes carry the fields the source updates; each method is tied by its
`ensures` to a function of the old state, and the properties are lemmas about
those functions over all inputs, runs and interleavings. Lemmas named ...Exactly
say what a function means in fields, codes and numbers alone.

## How steps are cut

- A worker's step is what it does between taking the mutex and giving it up; a
  wait may also end without a notification.
- A callback is two steps, classifying its response and finishing its host. The
  pool, the task and the store meet in VerificationSystem: the callback that
  saves does not return before the manager took the result or could not be
  reached, and other steps may come in between.
- The HTTP client calls back exactly once per task; each task object is added
  once and ids do not wrap.
- Every table write may fail, and then changes nothing; a query may fail halfway.
- The manager may restart at any time, loading as many rows as it can read; the
  agent goes on.
- Hosts sent to the agent, and the whole map for a refresh, go through a parcel
  reader that refuses more than 99 hosts of a bundle.
- A job whose HTTP client could not be created is given the empty response.
- Time is a parameter of each operation. The deferred-link timer is punctual and
  its clock monotone; for the details cache the exact condition on the clock is
  proved.
- Permission checks, preinstalled status, parsed urls, parsed asset files, the
  skill matcher and the ability filter are parameters.

## Where the code differs from what one might expect

- A written record counts retries from zero, so it holds 0 or 1 and the limit of
  seven never forbids a host; FORBIDDEN_FOREVER only comes from stored data.
- The priority belongs to the task, not to the host: an illegal one read from
  one host turns later verdicts of the same task into client errors, and a failed
  host stores the priority of a success before it (`OrderMatters`).
- A put of a resident LRU key keeps the old value.
- A failed delete inside a write-back is only logged; `SilentDeleteFailure` says
  exactly when agreement survives it.
- A task started from an older snapshot overwrites a newer success;
  `OverlappingRoundsLoseSuccess` is such a run, `KeptIffSettled` the exact condition.
- Results are merged by bundle name alone: a late result of an earlier install
  verifies the application installed since, whatever its identifier
  (`LateResultOfOtherInstall`, exact condition in `OwnIffAllOwn`).
- Old rows a failed delete left behind win at the next restart, identifier and all
  (`RestartAfterWrite`, `WriteFollows`, `StaleRowsComeBack`).
- A cursor that cannot be moved ends a query as if all rows had been read.
- One bundle with more than 99 hosts stops the refresh of all bundles.
- Emptying the white list does not clear its stored text.

## Model

| member | source | states |
|---|---|---|
| `VerificationSystem.RunInv` | services/src/agent/core/app_domain_verify_agent_service.cpp:131-146 | in every interleaving of installs, uninstalls, refreshes, restarts of the manager, Execute loops, workers, callbacks and late saves: the pool invariants hold, every task is where its own callbacks can have brought it, pool tasks and added hosts correspond one to one, the phase of a pool task tells how far its host is, a save under way belongs to a callback in progress, rows and map hold only legal priorities, and they agree while the table is intact |
| `VerificationSystem.CallbacksAreNeverHeldUp` | frameworks/common/src/httpsession/app_domain_verify_task_mgr.cpp:112-161 | in every reachable state a started pool task can classify any response (only the empty one if no client could be created), and a callback under way can return, finish its host or have its save answered: joining the parts blocks nothing |
| `VerificationSystem.IdleMeansSaved` | services/src/agent/core/app_domain_verify_agent_service.cpp:223-230 | when `IsIdle` answers true and a task's Execute is over, the task saved exactly once and completely (never, with nothing to retry), and no save is still under way |
| `VerificationSystem.ChoiceIsExact` | services/src/manager/core/app_domain_verify_mgr_service.cpp:122-161 | from every reachable store and an empty output list the filter returns exactly the order-preserving positions of the verified abilities of maximal priority, and nothing exactly when no ability is verified |
| `VerificationSystem.StoredAsLastInstalled` | services/src/manager/core/app_domain_verify_mgr_service.cpp:84-120 | however late results come back and whatever fails in the table, if each restart found the bundle's own rows as they should be (other bundles do not matter): a bundle is stored if and only if its last install was not undone, with exactly that install's identifier and hosts |
| `VerificationSystem.TableFollowsMemory` | services/src/manager/core/app_domain_verify_data_mgr.cpp:72-113 | while table operations take effect, in every reachable state the table is the flattening of the map, and a restart that reads all rows changes nothing if and only if every bundle has a host |
| `VerificationSystem.TableFollowsBundle` | services/src/manager/core/app_domain_verify_data_mgr.cpp:72-113 | for one bundle: after its last write, or a restart, took effect the table follows the map, whatever failed before and for other bundles |
| `VerificationSystem.TooManyHostsStopRefresh` | interfaces/inner_api/common/src/bundle_verify_status_info.cpp:118-124 | a stored bundle with more hosts than a parcel reader takes stops every refresh, of all bundles, until it is installed again or uninstalled or the manager restarts |
| `VerificationSystem.RefreshAsksExactly` | services/src/agent/core/app_domain_verify_agent_service.cpp:75-98 | a refresh that is launched asks exactly the stored hosts that are due, and keeps what is stored |
| `VerificationSystem.InstallAsksAll` | services/src/agent/core/app_domain_verify_agent_service.cpp:120-146 | an install asks all its hosts, or none if there are none or more than 99 |
| `VerificationSystem.AllFitExactly` | interfaces/inner_api/common/src/bundle_verify_status_info.cpp:90-172 | what blocks a refresh in the model is exactly what the parcel codec does not read back |
| `VerificationSystem.FitsExactly` | interfaces/inner_api/common/src/bundle_verify_status_info.cpp:22-77 | so for the hosts sent at an install; more than 99 are stored but never asked |
| `SystemRuns.OfferedOnlyIfVouched` | frameworks/verifier/src/verify_task.cpp:39-62 | end to end, over restarts too: an ability is offered a link only if a callback of its bundle for that very host was given a 200 response with a witness entry (whose priority is the stored one), or no HTTP status for a preinstalled app; the stored time is that callback's (for which identifier, see the next rows) |
| `InstallIdentity.OwnIffAllOwn` | services/src/manager/core/app_domain_verify_data_mgr.cpp:172-187 | the identifier installed is read from the history of installs, not from the store. For every reachable state: in every continuation without install or uninstall of the bundle, with refreshes that look up that identifier and restarts that read any part of whatever the table holds, all successes stored are vouched for it, if and only if those stored now are, those a restart would find are, and no task whose result may still come back holds another one's success of a host stored or found, or waits under another identifier for an answer that can vouch |
| `InstallIdentity.InstallInTurn` | services/src/manager/core/app_domain_verify_mgr_service.cpp:84-108 | so it is after an install at a time when no result of the bundle may still come back, if and only if its delete took effect or the old rows hold no success of another one |
| `IdentityRuns.LateResultOfOtherInstall` | services/src/manager/core/app_domain_verify_data_mgr.cpp:172-187 | a concrete run, install, uninstall, install under another identifier, after which the late result of the first verifies a host of the second |
| `IdentityRuns.StaleRowsComeBack` | services/src/manager/core/app_domain_verify_data_mgr.cpp:75-78 | a concrete run, install, success, install under another identifier whose delete fails, restart, after which the store holds the first identifier and offers the second application for its success |
| `KeptSuccess.KeptIffSettled` | services/src/manager/core/app_domain_verify_data_mgr.cpp:172-187 | for every reachable state and stored STATE_SUCCESS record, the pool stopping or not: the record is kept in every continuation short of an install or uninstall of the bundle, or a restart that does not find this bundle as it is, if and only if every task of the bundle whose result may still come back holds that very record of the host, or none, and does not wait for an answer of it |
| `KeptSuccess.RoundsKeepSuccess` | frameworks/verifier/src/verify_task.cpp:87-98 | if a bundle's tasks so far did not overlap, nor did one overlap a restart that did not find the bundle as it was, every stored success is kept in everything that follows |
| `KeptSuccess.StaysSettled` | frameworks/verifier/src/verify_task.cpp:39-62 | the condition is kept by every step: a refresh is given the success and does not retry it |
| `Completion.ResultCanComeBack` | frameworks/common/src/httpsession/app_domain_verify_task_mgr.cpp:87-175 | from every reachable state a task with hosts left (their jobs started, if the pool is stopping) or a save under way can be brought to hand over its result, with any possible answer for one chosen host: adding, queueing, starting, answering and saving never halt |
| `KeptSuccess.OverlappingRoundsLoseSuccess` | services/src/agent/core/app_domain_verify_agent_service.cpp:75-98 | a concrete run in which a refresh overlaps the first verification and a success is lost |
| `TaskPool.AppDomainVerifyTaskMgr.constructor` | frameworks/common/src/httpsession/app_domain_verify_task_mgr.cpp:87-111 | four workers about to take the mutex, nothing queued |
| `TaskPool.AppDomainVerifyTaskMgr.AddTask` | frameworks/common/src/httpsession/app_domain_verify_task_mgr.cpp:162-175 | null is refused without effect; otherwise the queue and the map gain the task and one blocked worker, if any, is woken |
| `TaskPool.AppDomainVerifyTaskMgr.WorkerLoop` | frameworks/common/src/httpsession/app_domain_verify_task_mgr.cpp:93-106 | one hold of the mutex: leave when stopping, else run the front task, else wait |
| `TaskPool.AppDomainVerifyTaskMgr.ReleaseId` | frameworks/common/src/httpsession/app_domain_verify_task_mgr.cpp:36-42 | the id leaves the map and the task is released |
| `TaskPool.AppDomainVerifyTaskMgr.IsIdle` | frameworks/common/src/httpsession/app_domain_verify_task_mgr.cpp:176-180 | idle if and only if the map is empty |
| `TaskPool.AppDomainVerifyTaskMgr.StopWorkers` | frameworks/common/src/httpsession/app_domain_verify_task_mgr.cpp:77-81 | stopping is set and every blocked worker woken |
| `TaskPool.NextNoLostWakeUp` | frameworks/common/src/httpsession/app_domain_verify_task_mgr.cpp:87-111 | every step keeps: while a worker is blocked un-notified and the pool is not stopping, the woken workers number at least the queue; when stopping nobody is blocked |
| `TaskPool.WorkIsConserved` | frameworks/common/src/httpsession/app_domain_verify_task_mgr.cpp:162-175 | a non-empty queue never coexists with all workers blocked |
| `TaskPool.NextFifo` | frameworks/common/src/httpsession/app_domain_verify_task_mgr.cpp:94-98 | starts are in the order of additions, each task once |
| `TaskPool.NextMapExact` | frameworks/common/src/httpsession/app_domain_verify_task_mgr.cpp:30-47 | the map holds exactly the ids queued or started and not released |
| `TaskPool.NextWorkersExact` | frameworks/common/src/httpsession/app_domain_verify_task_mgr.cpp:112-161 | workers run different started tasks, and a task not yet signalled or released has a worker |
| `TaskPool.RunInv` | frameworks/common/src/httpsession/app_domain_verify_task_mgr.cpp:87-175 | all four invariants hold in every reachable state |
| `TaskPool.TasksAreConserved` | frameworks/common/src/httpsession/app_domain_verify_task_mgr.cpp:87-175 | tasks added number those queued, those a worker runs and those whose callback has returned and whose worker went on; at most four run; starts are a prefix of additions |
| `TaskPool.RunningMakesProgress` | frameworks/common/src/httpsession/app_domain_verify_task_mgr.cpp:87-111 | a pool that is not stopping never comes to a halt with tasks queued: a step of a callback or of a worker with something to do is possible, and each such step uses up finite work |
| `TaskPool.IdleMeansAllDelivered` | frameworks/common/src/httpsession/app_domain_verify_task_mgr.cpp:176-180 | `IsIdle` if and only if the queue is empty and every task ever added was started, answered and released |
| `TaskPool.NoStartAfterStop` | frameworks/common/src/httpsession/app_domain_verify_task_mgr.cpp:94-105 | after `stop_` no task starts in any continuation of the run |
| `TaskPool.StoppingTerminates` | frameworks/common/src/httpsession/app_domain_verify_task_mgr.cpp:74-85 | when stopping, every step of a worker or callback uses up finite work |
| `TaskPool.StoppingNeverStuck` | frameworks/common/src/httpsession/app_domain_verify_task_mgr.cpp:74-85 | when stopping, either all workers are gone or such a step is possible |
| `VerifyTasks.RetryAfterBackoff` | frameworks/verifier/src/verify_task.cpp:152-183 | a client error stamped at second t with count c is retried at second n if and only if n - t > 3600 * 2^c |
| `VerifyTasks.BackoffDoubles` | frameworks/verifier/src/verify_task.cpp:152-156 | the backoff is 3600 seconds at count 0, doubles with every count up to the int64 range, and halves below 0 |
| `VerifyTasks.RetryMonotone` | frameworks/verifier/src/verify_task.cpp:143-183 | once due, a host stays due |
| `Decimal.RoundTrip` | frameworks/verifier/src/verify_task.cpp:162-169 | reading the printed time stamp gives the number back, over all of int64 |
| `Decimal.ReadsNumber` | frameworks/verifier/src/verify_task.cpp:164-169 | a stamp is read as blanks, sign and digits, whatever follows; beyond int64 the read fails |
| `Decimal.ReadsNothing` | frameworks/verifier/src/verify_task.cpp:164-169 | without a digit after blanks and sign the read fails |
| `Decimal.PrintsPlainly` | frameworks/verifier/src/verify_task.cpp:201 | a stamp is written in digits without a leading zero |
| `VerifyTasks.VerifyTask.constructor` | frameworks/verifier/src/verify_task.cpp:100-112 | the task starts with exactly its retry set unverified and nothing saved |
| `VerifyTasks.VerifyTask.InitUriUnVerifySetMap` | frameworks/verifier/src/verify_task.cpp:87-98 | exactly the hosts that need a retry are added to the set |
| `VerifyTasks.StartsExactly` | frameworks/verifier/src/verify_task.cpp:87-98 | a task asks a host if and only if its record is neither a success nor forbidden and, for a client error, has no stamp or one read as a time longer ago than the backoff |
| `VerifyTasks.VerifyTask.Execute` | frameworks/verifier/src/verify_task.cpp:128-141 | each unverified host is added to the pool exactly once, and no other |
| `VerifyTasks.VerifyTask.UpdateVerifyResultInfo` | frameworks/verifier/src/verify_task.cpp:197-216 | the host's record is replaced by a fresh one whose count restarts from zero, all others are kept |
| `VerifyTasks.VerifyTask.ClassifyHost` | frameworks/verifier/src/verify_task.cpp:42-53 | first step of a callback: verdict, priority check, preinstalled rule, record written |
| `VerifyTasks.VerifyTask.FinishHost` | frameworks/verifier/src/verify_task.cpp:54-60 | second step: the host leaves the set, and the result is saved when the set becomes empty |
| `VerifyTasks.VerifyTask.OnPostVerify` | frameworks/verifier/src/verify_task.cpp:39-62 | both steps in order |
| `VerifyTasks.StatusByCode` | frameworks/verifier/src/verify_task.cpp:39-53 | the record written, by response code, with codes and bounds as numbers: an illegal priority is a client error; else 3xx, 4xx and 5xx each have their status, 200 that of the file, and anything below 300 means preinstalled or no status; priority, stamp, count and all other hosts |
| `VerifyTasks.PreinstalledExactly` | frameworks/verifier/src/verify_task.cpp:44-49 | PRE_INSTALLED is written if and only if the app is preinstalled, the priority left is -1000 or in [-100, 100], and the code is below 300 and not 200 |
| `VerifyTasks.VerifyTask.OnSaveVerifyResult` | frameworks/verifier/src/verify_task.cpp:64-71 | the current result is handed over once |
| `VerifyTasks.OrderMatters` | frameworks/verifier/src/verify_task.cpp:42-53 | two hosts of a task answered in either order leave the same records if and only if the success of one does not change the priority under which the failure of the other is written |
| `AnswerOrder.OrderMattersToTask` | frameworks/verifier/src/verify_task.cpp:39-62 | all complete interleavings of a task with the same answers leave the same result if and only if no retried host fails, or none succeeds, or every witness has the priority the task starts with |
| `VerifyTasks.OrderMattersToStatus` | frameworks/verifier/src/verify_task.cpp:42-53 | a failed host stores the priority of the success before it; the statuses of both orders agree if and only if both priorities are legal or neither is, or the failure is a client error |
| `VerifyTasks.NextInv` | frameworks/verifier/src/verify_task.cpp:39-62 | every step of every interleaving keeps the task invariant |
| `VerifyTasks.SavesOnceAndCompletely` | frameworks/verifier/src/verify_task.cpp:39-62 | under every interleaving a task with hosts to retry saves exactly once, at its last callback, with the original key set, a fresh record for every retried host and the old one for every other |
| `VerifyTasks.NothingToRetryNothingSaved` | frameworks/verifier/src/verify_task.cpp:128-141 | a task with nothing to retry has no callbacks and never saves |
| `VerifyTasks.TaskKeepsPrioritiesLegal` | frameworks/verifier/src/verify_task.cpp:42-53 | whatever hosts answer, every verified record a task holds or saves has priority UNSET or within [-100, 100] |
| `DomainVerifier.VerifyHostWithAppIdentifier` | frameworks/verifier/src/domain_verifier.cpp:61-91 | the scan returns the verdict of the first deciding entry and the priority left in the record |
| `DomainVerifier.VerifyHostWithBundleName` | frameworks/verifier/src/domain_verifier.cpp:93-110 | the scan succeeds on the first entry of the same bundle and fingerprint |
| `DomainVerifier.VerifyHost` | frameworks/verifier/src/domain_verifier.cpp:22-59 | status other than 200 is classified; a 200 answer goes through the two passes |
| `DomainVerifier.FirstDecidingEntryDecides` | frameworks/verifier/src/domain_verifier.cpp:68-91 | the first deciding entry decides whatever precedes or follows it |
| `DomainVerifier.FallbackNeedsNoIdentifier` | frameworks/verifier/src/domain_verifier.cpp:85-110 | when the app has an identifier and that pass is UNKNOWN, an entry the fallback accepts has no identifier |
| `DomainVerifier.SuccessMeansWitness` | frameworks/verifier/src/domain_verifier.cpp:22-110 | success if and only if the answer is 200 with a parsed file holding a witness; its priority is the one stored; other verdicts leave the priority alone |
| `DomainVerifier.VerifiesExactly` | frameworks/verifier/src/domain_verifier.cpp:22-110 | in the fields of the entries alone: success if and only if the answer is 200 with a file one entry of which has the app's identifier, none before it claiming identifier or bundle, bundles and fingerprints agreeing where both are given, or, where no entry claims either, the app's own bundle and fingerprint; that entry's priority is left; other 200 answers fail |
| `RdbTable.RdbDataManager.InsertData` | services/src/manager/rdb/app_domain_verify_rdb_data_manager.cpp:64-84 | appends the row or changes nothing |
| `RdbTable.RdbDataManager.DeleteData` | services/src/manager/rdb/app_domain_verify_rdb_data_manager.cpp:144-158 | drops exactly the bundle's rows or changes nothing |
| `RdbTable.RdbDataManager.Query` | services/src/manager/rdb/app_domain_verify_rdb_data_manager.cpp:104-143 | the cursor loop appends the satisfying rows, in table order, to the caller's list, as far as the cursor comes: it fails at an unreadable row, and ends well when it cannot be moved |
| `RdbTable.RdbDataManager.QueryDomainByBundleName` | services/src/manager/rdb/app_domain_verify_rdb_data_manager.cpp:86-94 | appends the bundle's successful rows among those read |
| `RdbTable.RdbDataManager.QueryBundleNameByDomain` | services/src/manager/rdb/app_domain_verify_rdb_data_manager.cpp:95-103 | appends the domain's successful rows among those read |
| `RdbTable.RdbDataManager.QueryAllData` | services/src/manager/rdb/app_domain_verify_rdb_data_manager.cpp:160-188 | groups the rows read by bundle, in table order |
| `StatusStore.AppDomainVerifyDataMgr.constructor` | services/src/manager/core/app_domain_verify_data_mgr.cpp:24-32 | the map is loaded from the rows that can be read, or empty if the table is not there |
| `StatusStore.AppDomainVerifyDataMgr.GetVerifyStatus` | services/src/manager/core/app_domain_verify_data_mgr.cpp:39-55 | the bundle's entry; nothing for an empty or unknown name |
| `StatusStore.AppDomainVerifyDataMgr.VerifyResultInfoToDB` | services/src/manager/core/app_domain_verify_data_mgr.cpp:72-95 | the rows after a write-back that may fail in its delete, which is not reported, or at any insert, for every enumeration order |
| `StatusStore.ColumnsExactly` | services/src/manager/core/app_domain_verify_data_mgr.cpp:79-88 | which field of a record goes into which column |
| `StatusStore.AppDomainVerifyDataMgr.InsertVerifyStatus` | services/src/manager/core/app_domain_verify_data_mgr.cpp:114-135 | map and table after an insert, and what is returned |
| `StatusStore.AppDomainVerifyDataMgr.UpdateVerifyStatus` | services/src/manager/core/app_domain_verify_data_mgr.cpp:137-169 | map and table after an update: nothing for unknown bundles |
| `StatusStore.AppDomainVerifyDataMgr.UpdateVerifyMap` | services/src/manager/core/app_domain_verify_data_mgr.cpp:172-187 | only hosts the bundle already has are updated |
| `StatusStore.AppDomainVerifyDataMgr.DeleteVerifyStatus` | services/src/manager/core/app_domain_verify_data_mgr.cpp:189-210 | the bundle leaves the map even if the table keeps it |
| `StatusStore.ReturnsExactly` | services/src/manager/core/app_domain_verify_data_mgr.cpp:114-210 | an insert or update reports success if and only if its bundle is named, known for an update, and every row was inserted, whatever its delete did; a delete if its own took effect |
| `StatusStore.AppDomainVerifyDataMgr.DBToVerifyResultInfo` | services/src/manager/core/app_domain_verify_data_mgr.cpp:96-113 | the first row of a host counts; no rows is an error |
| `StatusStore.ReadsColumns` | services/src/manager/core/app_domain_verify_data_mgr.cpp:103-110 | which column comes back as which field |
| `StatusStore.AppDomainVerifyDataMgr.LoadAllFromRdb` | services/src/manager/core/app_domain_verify_data_mgr.cpp:236-250 | each bundle of the rows read is rebuilt; entries already present are kept; a failed query adds none |
| `StatusStore.AppDomainVerifyDataMgr.QueryAssociatedDomains` | services/src/manager/core/app_domain_verify_data_mgr.cpp:251-263 | appends the domains of the bundle's successful rows among those read to the caller's list, or nothing on failure |
| `StatusStore.AppDomainVerifyDataMgr.QueryAssociatedBundleNames` | services/src/manager/core/app_domain_verify_data_mgr.cpp:264-277 | appends the bundles of the domain's successful rows among those read to the caller's list, or nothing on failure |
| `RdbTable.Group` | services/src/manager/rdb/app_domain_verify_rdb_data_manager.cpp:175-184 | the grouping loop |
| `RdbTable.GroupedAppend` | services/src/manager/rdb/app_domain_verify_rdb_data_manager.cpp:175-184 | one more row changes the grouping as the loop body does: the partner of QueryAllData |
| `StoreRuns.StepAgrees` | services/src/manager/core/app_domain_verify_data_mgr.cpp:72-95 | an operation whose table operations take effect keeps rows and map in agreement |
| `StoreRuns.RunAgrees` | services/src/manager/core/app_domain_verify_data_mgr.cpp:114-210 | over any such run the rows are exactly the flattening of the map, one row per bundle and host |
| `StoreRuns.OtherRowsUntouched` | services/src/manager/core/app_domain_verify_data_mgr.cpp:72-95 | rows of other bundles keep their content and order, whether or not table operations succeed |
| `StoreRuns.SilentDeleteFailure` | services/src/manager/core/app_domain_verify_data_mgr.cpp:75-78 | after a write-back that reports success, agreement holds if and only if its delete took effect or the bundle had no rows |
| `StoreRuns.QueriesAreConverse` | services/src/manager/core/app_domain_verify_data_mgr.cpp:251-277 | both associated queries answer exactly the STATE_SUCCESS pairs of the map |
| `StoreRuns.QueriesAnswerOnce` | services/src/manager/core/app_domain_verify_data_mgr.cpp:251-277 | neither query repeats an answer |
| `StoreRuns.ReloadRestores` | services/src/manager/core/app_domain_verify_data_mgr.cpp:236-250 | loading an agreeing table gives the map without its host-less bundles |
| `StoreRuns.RunReloads` | services/src/manager/core/app_domain_verify_data_mgr.cpp:79-112 | persist and reload over any run and any enumeration order |
| `Restarts.RestartRestores` | services/src/manager/core/app_domain_verify_data_mgr.cpp:236-250 | a restart restores an agreeing store's map if and only if every bundle has a host |
| `Restarts.UninstalledReturns` | services/src/manager/core/app_domain_verify_data_mgr.cpp:189-210 | after a restart an uninstalled bundle is back if and only if its rows could not be deleted and it had any |
| `Restarts.RestartAfterWrite` | services/src/manager/core/app_domain_verify_data_mgr.cpp:72-113 | for every store and table, after an install or save whatever took effect: a restart finds of the bundle what was inserted, under the identifier and records that were there before unless the delete took effect; nothing if there is neither |
| `Restarts.RestartAfterDelete` | services/src/manager/core/app_domain_verify_data_mgr.cpp:189-210 | after an uninstall: nothing if the delete took effect, else what was there |
| `Restarts.RestartAfterOther` | services/src/manager/core/app_domain_verify_data_mgr.cpp:72-95 | operations on other bundles change nothing of it |
| `Restarts.WriteFollows` | services/src/manager/core/app_domain_verify_data_mgr.cpp:72-95 | for every store: after a write-back a restart would find the bundle as it is if and only if all was inserted and the old rows went or were none, or the old rows have the same identifier and, over what was inserted, make up the new hosts |
| `Restarts.RestartFinds` | services/src/manager/core/app_domain_verify_data_mgr.cpp:96-113 | over any run, whatever took effect, a restart finds of every host the first record, and of every bundle the first identifier, written since its rows were last deleted |
| `Restarts.PrefixLoads` | services/src/manager/core/app_domain_verify_data_mgr.cpp:236-250 | a start that reads only some rows finds nothing else than one that reads all |
| `Restarts.RestartAgrees` | services/src/manager/core/app_domain_verify_data_mgr.cpp:236-250 | a restart keeps agreement |
| `Restarts.LoadedFromRow` | services/src/manager/core/app_domain_verify_data_mgr.cpp:96-113 | whatever the table holds, every record loaded is that of a row |
| `StoreRuns.TableFailuresDoNotMatter` | services/src/manager/core/app_domain_verify_data_mgr.cpp:114-210 | memory depends only on the sequence of operations, not on how the table took them |
| `StoreRuns.LateResultsNeverResurrectOrWiden` | services/src/manager/core/app_domain_verify_data_mgr.cpp:137-187 | presence, hosts and each host's record are those of the last install and the last record given since, by an independent reading of the history |
| `ManagerService.CollectDomains` | services/src/manager/core/app_domain_verify_mgr_service.cpp:456-477 | exactly the keys of https skills with a host, wildcard stripped, unverified; keys already present keep their record |
| `ManagerService.CollectsExactly` | services/src/manager/core/app_domain_verify_mgr_service.cpp:456-477 | the keys collected are exactly "https://" and the host, or what follows "*." in it, of each skill with scheme "https" and a host; each with status 0, count 0, no stamp, priority -1000 |
| `ManagerService.CollectsHost` | services/src/manager/core/app_domain_verify_mgr_service.cpp:468-475 | host "*." + d gives "https://" + d, any other its own key |
| `ManagerService.AppDomainVerifyMgrService.VerifyDomain` | services/src/manager/core/app_domain_verify_mgr_service.cpp:84-108 | the install: store operation and the task sent to the agent, refused without permission |
| `ManagerService.AppDomainVerifyMgrService.ClearDomainVerifyStatus` | services/src/manager/core/app_domain_verify_mgr_service.cpp:110-120 | the uninstall, refused without permission |
| `ManagerService.AppDomainVerifyMgrService.SaveDomainVerifyStatus` | services/src/manager/core/app_domain_verify_mgr_service.cpp:235-248 | the save, refused without permission, and the event sent whether or not it was stored |
| `ManagerService.AppDomainVerifyMgrService.SendVerifiedEvent` | services/src/manager/core/app_domain_verify_mgr_service.cpp:249-276 | the event carries the identifier, and is sent if the first waiting link the bundle takes, of a host just verified, has a url; the links stay |
| `ManagerService.EventMeansLinkWaits` | services/src/manager/core/app_domain_verify_mgr_service.cpp:249-276 | it is sent if and only if such a link waits |
| `ManagerService.EventExactly` | services/src/manager/core/app_domain_verify_mgr_service.cpp:249-276 | the event is sent if and only if a waiting link is of a host the result gives status 1, and is accepted |
| `ManagerService.AppDomainVerifyMgrService.FilterAbilitiesInner` | services/src/manager/core/app_domain_verify_mgr_service.cpp:122-161 | the two loops leave the selection of maximal offers, after the caller's list if nothing rises above the floor |
| `ManagerService.SelectMax` | services/src/manager/core/app_domain_verify_mgr_service.cpp:147-160 | the second loop |
| `ManagerService.AppDomainVerifyMgrService.FilterAbilities` | services/src/manager/core/app_domain_verify_mgr_service.cpp:162-198 | who may call, what is selected, and what happens to the deferred link |
| `ManagerService.BestIsHighest` | services/src/manager/core/app_domain_verify_mgr_service.cpp:147-156 | the floor or highest offer bounds every offer and is attained |
| `ManagerService.SelectionOfAnyStore` | services/src/manager/core/app_domain_verify_mgr_service.cpp:122-161 | for every store: the selection is the order-preserving choice of maximal offers not below PRIORITY_UNSET; it is empty if and only if every offer is below it |
| `ManagerService.SelectsExactly` | services/src/manager/core/app_domain_verify_mgr_service.cpp:127-160 | selected are exactly the abilities whose bundle is stored with status 1 or 10 for the key, with a priority of at least -1000 that none of them exceeds |
| `ManagerService.CallersListKept` | services/src/manager/core/app_domain_verify_mgr_service.cpp:147-160 | a caller's list is kept, before what is selected, if and only if no ability that may open the link has a priority above -1000 |
| `ManagerService.StableArgMax` | services/src/manager/core/app_domain_verify_mgr_service.cpp:122-161 | for legal stores: exactly the positions of maximal verified abilities, in order; empty if and only if none is verified |
| `ManagerService.MemoryStaysLegal` | services/src/manager/core/app_domain_verify_data_mgr.cpp:114-187 | operations with legal hosts keep the store legal |
| `ManagerService.LinkWaitsIffNobodyVerified` | services/src/manager/core/app_domain_verify_mgr_service.cpp:182-194 | after a call the link waits in the deferred cache if and only if no ability was verified and the host is not blacklisted (or it waited already) |
| `ManagerService.LinkAfterFilter` | services/src/manager/core/app_domain_verify_mgr_service.cpp:182-194 | the link stored is that of the call, first, stamped with its second; a blacklisted one changes nothing; a match removes it and no other |
| `DeferredLinks.DeferredLinkMgr.constructor` | services/src/manager/deferred_link/deferred_link_mgr.cpp:139-147 | an empty cache, with a handler if the runner exists |
| `DeferredLinks.DeferredLinkMgr.PutDeferredLink` | services/src/manager/deferred_link/deferred_link_mgr.cpp:25-37 | timer started if empty, old link of the key dropped, last one dropped if full, new one in front |
| `DeferredLinks.DeferredLinkMgr.GetDeferredLink` | services/src/manager/deferred_link/deferred_link_mgr.cpp:39-82 | the first wanted url; not reserving, the wanted links are removed |
| `DeferredLinks.DeferredLinkMgr.PostAgeCacheTask` | services/src/manager/deferred_link/deferred_link_mgr.cpp:84-91 | the due time is replaced if there is a handler |
| `DeferredLinks.DeferredLinkMgr.AgeCacheProcess` | services/src/manager/deferred_link/deferred_link_mgr.cpp:92-105 | old links go; the task is posted again unless the list is empty |
| `DeferredLinks.DeferredLinkMgr.CheckStartTimerUnlocked` | services/src/manager/deferred_link/deferred_link_mgr.cpp:106-111 | posts only for an empty list |
| `DeferredLinks.DeferredLinkMgr.CheckFullUnlocked` | services/src/manager/deferred_link/deferred_link_mgr.cpp:112-117 | drops the last of exactly fifty |
| `DeferredLinks.DeferredLinkMgr.CheckRemoveExistedUnlocked` | services/src/manager/deferred_link/deferred_link_mgr.cpp:118-127 | drops the links of the key |
| `DeferredLinks.DeferredLinkMgr.RemoveDeferredLink` | services/src/manager/deferred_link/deferred_link_mgr.cpp:128-138 | drops the links of the key |
| `DeferredLinks.RemovesExactly` | services/src/manager/deferred_link/deferred_link_mgr.cpp:128-138 | a removal takes exactly the links of that domain and url, and keeps the order |
| `DeferredLinks.PutsRefineHistory` | services/src/manager/deferred_link/deferred_link_mgr.cpp:25-37 | after any puts the cache is the fifty most recently put distinct keys, newest first, each as last put |
| `DeferredLinks.RunStaysOrdered` | services/src/manager/deferred_link/deferred_link_mgr.cpp:25-138 | over every timed run the list stays sorted by time and at most fifty long |
| `DeferredLinks.RunStaysDistinct` | services/src/manager/deferred_link/deferred_link_mgr.cpp:118-138 | over every timed run no (domain, url) key is held twice |
| `DeferredLinks.NextTimely` | services/src/manager/deferred_link/deferred_link_mgr.cpp:84-111 | every event keeps: a non-empty cache has a task pending, due before any link turns 660 s |
| `DeferredLinks.RunBoundsAge` | services/src/manager/deferred_link/deferred_link_mgr.cpp:84-111 | over every timed run with a punctual timer and monotone clock no link is held to the age of 660 s |
| `DeferredLinks.AgesExactly` | services/src/manager/deferred_link/deferred_link_mgr.cpp:92-105 | the timer's task keeps a link if and only if it is younger than 600 s, and runs again after 60000 ms as long as links are left |
| `DeferredLinks.LeavesByAgeExactly` | services/src/manager/deferred_link/deferred_link_mgr.cpp:92-97 | over every timed run a link leaves by age at a tick if and only if at least 600 s have passed since its stamp |
| `DeferredLinks.PutStartsTimer` | services/src/manager/deferred_link/deferred_link_mgr.cpp:106-111 | a put into an empty cache, and no other, starts the timer 60000 ms ahead |
| `DeferredLinks.NoHandlerNoBound` | services/src/manager/deferred_link/deferred_link_mgr.cpp:139-147 | without a handler a link can be held to any age |
| `DeferredLinks.RunConserves` | services/src/manager/deferred_link/deferred_link_mgr.cpp:25-138 | over every run each stored link is still held or left once, by pop, remove, replacement, eviction or ageing |
| `DeferredLinks.AgeingCutsSuffix` | services/src/manager/deferred_link/deferred_link_mgr.cpp:92-97 | in a sorted list ageing removes exactly a suffix |
| `DeferredLinks.GetReturnsNewest` | services/src/manager/deferred_link/deferred_link_mgr.cpp:39-82 | the url of the first and newest wanted link; reserving changes nothing, otherwise exactly the wanted links go and the rest keep their order |
| `DeferredLinks.GetsExactly` | services/src/manager/deferred_link/deferred_link_mgr.cpp:39-82 | for every cache: what is taken, kept and answered, link by link; nothing without a bundle name |
| `LruCache.LruCacheUtil.constructor` | frameworks/common/include/utils/lru_cache_util.h:31 | an empty cache of any capacity |
| `LruCache.LruCacheUtil.Get` | frameworks/common/include/utils/lru_cache_util.h:50-62 | a hit gives the value and moves the pair to the front, a miss changes nothing |
| `LruCache.LruCacheUtil.Put` | frameworks/common/include/utils/lru_cache_util.h:64-83 | with a capacity of at least one: a resident key moves to the front with its old value; else the last pair is evicted when full |
| `LruCache.LruCacheUtil.Clear` | frameworks/common/include/utils/lru_cache_util.h:85-91 | empties list and map |
| `LruCache.LruCacheUtil.IsEmpty` | frameworks/common/include/utils/lru_cache_util.h:93-98 | empty if and only if the list is |
| `LruCache.LruCacheUtil.Residency` | frameworks/common/include/utils/lru_cache_util.h:67-76 | the map answers residency, and its size is the list's |
| `LruCache.RunRefinesHistory` | frameworks/common/include/utils/lru_cache_util.h:50-91 | over any gets, puts and clears the list is the cap most recently accessed distinct keys since the last clear, and each value the first one put since its key became resident |
| `LruCache.StepKeepsValue` | frameworks/common/include/utils/lru_cache_util.h:67-82 | a step gives a new key its value and changes no surviving one |
| `Recency.RecentMeaning` | frameworks/common/include/utils/lru_cache_util.h:50-83 | the recency order used as reference: every used key once, by last use |
| `Recency.TouchTruncates` | frameworks/common/include/utils/lru_cache_util.h:76-81 | truncating after every use and truncating the whole history agree |
| `AppDetails.CollectDetails` | services/src/manager/core/app_details_data_mgr.cpp:95-112 | each row becomes a detail with its path under the right kind |
| `AppDetails.DetailsExactly` | services/src/manager/core/app_details_data_mgr.cpp:97-112 | each detail has its row's bundle, scheme and domain, and its path under the one field its type names |
| `AppDetails.FirstMatching` | services/src/manager/filter/app_details_filter.cpp:24-47 | the detail the skill match points at |
| `AppDetails.AppDetailsDataMgr.constructor` | services/src/manager/core/app_details_data_mgr.cpp:36-42 | an empty cache of ten, begun at time zero |
| `AppDetails.AppDetailsDataMgr.QueryAppDetailsWantByCache` | services/src/manager/core/app_details_data_mgr.cpp:67-85 | an expired cache is cleared and answers nothing, else the LRU answers |
| `AppDetails.AppDetailsDataMgr.QueryAppDetailsWantByRdb` | services/src/manager/core/app_details_data_mgr.cpp:87-119 | the database's answer, cached when found |
| `AppDetails.AnswersExactly` | services/src/manager/core/app_details_data_mgr.cpp:87-119 | the answer is the bundle of the row whose uri the matcher picks, none on a failed query or no match |
| `AppDetails.AppDetailsDataMgr.QueryAppDetailsWant` | services/src/manager/core/app_details_data_mgr.cpp:46-65 | the cache first, then the database |
| `AppDetails.QueriesExactly` | services/src/manager/core/app_details_data_mgr.cpp:46-119 | after 300 s the cache is cleared and begun anew; the database is asked if and only if the cache has no name, and its answer is kept |
| `AppDetails.ReachableSound` | services/src/manager/core/app_details_data_mgr.cpp:67-119 | for any clock, every cached name was the database's answer to a query of the cache's period |
| `AppDetails.StalenessExact` | services/src/manager/core/app_details_data_mgr.cpp:67-119 | for every sequence of query times and any clock: all names served at a time are the database's answers of the last 300 s, whatever the database and the urls, if and only if the cache has expired or every query of its period was asked in the last 300 s |
| `AppDetails.StalenessBounded` | services/src/manager/core/app_details_data_mgr.cpp:46-119 | so with a clock that never goes back and any changing database every name served from the cache was the database's answer for that url at most 300 s earlier |
| `AppDetails.CacheTransparent` | services/src/manager/core/app_details_data_mgr.cpp:46-119 | with an unchanging database cached and uncached answers coincide, whatever the clock does |
| `AppDetails.BackwardClockServesOldAnswer` | services/src/manager/core/app_details_data_mgr.cpp:69-82 | a clock set back: a name is served that the database did not answer in the last 300 s |
| `ParcelCodec.MarshallingInfo` | interfaces/inner_api/common/src/bundle_verify_status_info.cpp:22-37 | appends a writing of the result, in some enumeration order |
| `ParcelCodec.OneHostFormat` | interfaces/inner_api/common/src/bundle_verify_status_info.cpp:22-37 | the tokens of a result with one host, in their order |
| `ParcelCodec.MarshallingStatus` | interfaces/inner_api/common/src/bundle_verify_status_info.cpp:90-102 | appends a writing of all bundles |
| `ParcelCodec.OneBundleFormat` | interfaces/inner_api/common/src/bundle_verify_status_info.cpp:90-102 | the tokens of one bundle, in their order |
| `ParcelCodec.WriteEntries` | interfaces/inner_api/common/src/bundle_verify_status_info.cpp:104-116 | appends one piece per host |
| `ParcelCodec.ReadHostVerifyStatusMap` | interfaces/inner_api/common/src/bundle_verify_status_info.cpp:118-142 | reads the hosts, refusing more than 99, or fails as the specification does |
| `ParcelCodec.ReadsHostsExactly` | interfaces/inner_api/common/src/bundle_verify_status_info.cpp:118-142 | token by token: reading succeeds if and only if a number of at most 99 and so many whole entries come first; the rest is left, and of two entries of one host the first counts |
| `ParcelCodec.UnmarshallingInfo` | interfaces/inner_api/common/src/bundle_verify_status_info.cpp:39-77 | reads one result, advancing the cursor over exactly its tokens |
| `ParcelCodec.UnmarshallingStatus` | interfaces/inner_api/common/src/bundle_verify_status_info.cpp:144-172 | reads all bundles |
| `ParcelCodec.InfoRoundTrip` | interfaces/inner_api/common/src/bundle_verify_status_info.cpp:22-77 | reading written tokens followed by anything gives the value and leaves exactly the rest, for every enumeration order, if and only if there are at most 99 hosts |
| `ParcelCodec.StatusRoundTrip` | interfaces/inner_api/common/src/bundle_verify_status_info.cpp:90-172 | the same for all bundles, if and only if each has at most 99 hosts |
| `ParcelCodec.ReadInfoIsSmall` | frameworks/common/include/app_domain_verify_parcel_util.h:62-72 | no reader returns more than 99 hosts |
| `WhiteList.WhiteListConfigMgr.Split` | frameworks/common/src/config/white_list_config_mgr.cpp:78-99 | terminates with exactly the non-empty pieces between commas |
| `WhiteList.PiecesExactly` | frameworks/common/src/config/white_list_config_mgr.cpp:78-99 | a piece is a non-empty stretch without a comma, between commas or ends |
| `WhiteList.WhiteListConfigMgr.LoadDynamic` | frameworks/common/src/config/white_list_config_mgr.cpp:57-70 | the stored text is split; an unreachable preference leaves the set |
| `WhiteList.WhiteListConfigMgr.Save` | frameworks/common/src/config/white_list_config_mgr.cpp:112-135 | writes every pattern followed by a comma, in some order |
| `WhiteList.SavesWithCommas` | frameworks/common/src/config/white_list_config_mgr.cpp:121-124 | each pattern is followed by a comma |
| `WhiteList.WhiteListConfigMgr.UpdateWhiteList` | frameworks/common/src/config/white_list_config_mgr.cpp:154-171 | empty patterns are dropped; an empty list is not saved |
| `WhiteList.CutPieces` | frameworks/common/src/config/white_list_config_mgr.cpp:83-90 | cutting at a comma splits the pieces in two |
| `WhiteList.SaveLoadRoundTrip` | frameworks/common/src/config/white_list_config_mgr.cpp:112-135 | splitting what was saved gives the set back, in any order, if and only if no pattern holds a comma |
| `WhiteList.ReloadAfterUpdate` | frameworks/common/src/config/white_list_config_mgr.cpp:154-171 | after an update a reload finds the list kept in memory if and only if it was saved and is comma-free, or was not (being empty, or the preference unreachable or refusing) and the text stored before gives it |

## Left out

- IPC proxies and stubs, death recipients, extension loading and permission lookup: plumbing around other libraries.
- HTTP transport, JSON, url and skill parsing, regular expressions and bundle queries: parameters or abstract functions here.
- RdbMigrateMgr: its meaning is in SQL run by the database.
- SQLite's own errors, delayed closing of the store handle and file repair: an operation succeeds or fails as a whole.
- Data races below the steps above (unlocked map writes, the shared priority field): not modelled.
- The callback's message text, logging, events, dumping, agent unload ticks, language bindings: no bearing on the properties.
- SetMaxCap: the capacity is fixed at construction.
- LruCache.LruCacheUtil.Put: not with a capacity of zero, where the source pops from an empty list.
- AddInfoToWant: adds a fixed prefix to the answer.
- Single-record parcels and Parcelable allocation: parcels are sequences of typed tokens, strings and 32-bit numbers each being one token; a write never fails.
- The default white-list url and pattern matching of the white list: abstract matching only.
- VerifyTasks.RetryAfterBackoff: the retry period saturates at the int64 range, where the source converts an out-of-range floating-point number; the elapsed time is not wrapped.
- DeferredLinks.DeferredLinkMgr.GetDeferredLink: its first locked check and its scan are one step, as another thread between them could only change which list is scanned.
- StatusStore.AppDomainVerifyDataMgr.LoadAllFromRdb: opening the table and creating it are one flag of the constructor.
- LruCache.LruCacheUtil.Get: a list iterator is a node object found in the sequence of nodes; links between nodes are not modelled.
- VerificationSystem.RunInv: a refresh takes its snapshot of one bundle and starts that bundle's task in one step with a free start time; what is sent either gets through a parcel unchanged or not at all (a map of 2^32 hosts, whose size wraps, counts as not getting through).
