# Twarga Cloud core, modelled in Dafny

This project models the core of Twarga Cloud, a small self-hosted platform. Users create and run Vagrant virtual machines through it and reach them through a web terminal. A companion "labs bakery" packages groups of VMs as lab files. The model covers the following parts:

- **Terminal registry** (`backend/terminal.py`): at most one session per VM, a wrap-around port allocator, start/reuse/stop, access checks and the idle sweep.
- **Security operations centre** (`backend/soc.py`): the append-only event log, the severity rules of its wrappers, brute-force detection over a trailing window, the newest-first filtered queries, the dashboard statistics and the per-user activity summary.
- **VM manager** (`backend/vm_manager.py`):
  - workspace naming, the OS-to-box table and the rendered Vagrantfile;
  - the `.vm_info` sidecar;
  - the parsers of `vagrant status` and `vagrant ssh-config` output;
  - the effect of create/start/stop/destroy/refresh on the database and the workspaces.
- **Resource monitor** (`backend/monitor.py`): the inclusive threshold alerts, per-VM usage with its defaults, the fixed-shape metric batches, history queries, retention cleanup and the collection pass.
- **Migration planner** (`backend/migrations.py`): forward and rollback plans over the applied versions, the run loops with their abort-on-failure behaviour, and the status summary.
- **Request validators** (`backend/schemas.py`).
- **Lab validator, exporter and importer** (`labsbakery/backend/...`): the custom warnings and result shapes, the file-name sanitiser, the `lab.json` builder, project and VM creation from a lab, the export/import round trip, and `validate_labpkg`.
- **Shell helpers** of `setup.py`.

Outside code is represented as follows:

- Every external tool run is an input: its success flag, stdout and error text. This covers vagrant, ttyd and the SSH client check.
- So are the clock (`now` in seconds, `stamp` as ISO text), tokens and session ids, whether a process is alive, and the decoded JSON.
- The database is a value: users and VMs by id, events and metrics in insertion order.

Files:

| file | module | content |
|---|---|---|
| wrappers.dfy | Wrappers | `Option`, `Result` |
| text.dfy | Text | substring search, ASCII lower case, `str(int)` with its round trip, `split`/`join` with their round trips, last whitespace token, Python string order |
| seqs.dfy | Seqs | order-preserving filter, insertion sort by a total preorder, `[:n]` |
| records.dfy | Records | users, VMs, events, metrics, the database |
| soc.dfy | Soc | `backend/soc.py` |
| terminal.dfy | Terminal | `backend/terminal.py` |
| vm_manager.dfy | VmManager | `backend/vm_manager.py` |
| monitor.dfy | Monitor | `backend/monitor.py` |
| migrations.dfy | Migrations | `backend/migrations.py` |
| schemas.dfy | Schemas | `backend/schemas.py` |
| labs.dfy | Labs | JSON values, the lab document, project and VM rows of the labs side |
| lab_validator.dfy | LabValidator | `labsbakery/backend/utils/schema_validator.py` |
| lab_export.dfy | LabExport | `labsbakery/backend/services/export_service.py` |
| lab_import.dfy | LabImport | `labsbakery/backend/services/import_service.py` |
| setup_shell.dfy | Setup | `setup.py` |

## Model

| member | source | states |
|---|---|---|
| Records.AddEvent | backend/soc.py:62-73 | Adding an event appends exactly one row under a fresh id and leaves users and VMs alone. Ids stay unique across the log. |
| Terminal.NewManager | backend/terminal.py:65-77 | A new registry has no sessions and satisfies the registry invariant. |
| Terminal.IsExpired | backend/terminal.py:40-45 | A session is expired when its process has died or its idle time is strictly above the timeout. It is a definition with no contract; Terminal.CleanupExpiredSessions states its use. |
| Terminal.NextPort | backend/terminal.py:81-93 | The port returned is held by no session, and the counter becomes port + 1. A free counter is returned as is, even above the pool. Otherwise every port scanned over is taken, and the scan wraps to the base port only past base + 1000, so a wrapped result lies in the pool. |
| Terminal.ScanStuckWhenPoolFull | backend/terminal.py:86-89 | As written, when the counter and all 1001 pool ports are taken, every port the scan reaches after any number of steps is still taken. The loop condition therefore never becomes false. |
| Terminal.UsedPortsBounded | backend/terminal.py:75 | Keyed by VM id, the registry holds no more distinct ports than sessions. |
| Terminal.PortRange | backend/terminal.py:88-89 | The pool base .. base + 1000 has exactly 1001 ports. |
| Terminal.FewSessionsCanAllocate | backend/terminal.py:86-92 | With at most 1000 sessions some pool port is free, so the scan of `_get_next_port` terminates. |
| Terminal.LogTerminalEvent | backend/terminal.py:411-444 | One "terminal" event of the given user, VM and severity is appended; nothing else changes. |
| Terminal.StopSession | backend/terminal.py:244-289 | Stopping an unknown VM answers False and changes nothing. Otherwise exactly that entry is removed, True is returned, and one event is logged when the VM row exists. |
| Terminal.StopSessionOthersUntouched | backend/terminal.py:257-273 | Every other session survives a stop unchanged, and the stopped VM has no session afterwards. |
| Terminal.LaunchSession | backend/terminal.py:159-242 | A session is created exactly when ttyd is installed, the SSH command is available and spawning does not raise. It is stored under the VM id alone, with a free port and the given token. The attempt logs one event, info on success and critical on each failure, and a failure leaves the registry as it was. |
| Terminal.StartSession | backend/terminal.py:115-242 | A VM that is not running gets None, no change and one warning event. An alive session for the VM is returned as it is, with its activity refreshed and no new entry. A dead one is dropped before a new launch. Only the entry of this VM ever changes. |
| Terminal.VerifyAccess | backend/terminal.py:303-332 | Access is granted exactly when a session exists and the user owns it or is an admin, and the token, if non-empty, matches. Success refreshes the session's activity; denial changes nothing. |
| Terminal.StrangerDenied | backend/terminal.py:315-320 | A user who is neither the owner nor an admin is denied whatever token is given. |
| Terminal.ListActive | backend/terminal.py:334-349 | Listing shows every session to an admin or when no user is given, and otherwise exactly the user's own sessions. |
| Terminal.ListActiveWithinAdminView | backend/terminal.py:344-349 | What a user sees is part of what an admin sees, which is the whole registry. |
| Terminal.StopEach | backend/terminal.py:361-375 | Stopping each chosen session whose user exists removes exactly those sessions, counts them, and only appends to the log. |
| Terminal.CleanupExpiredSessions | backend/terminal.py:351-375 | The sessions that remain are exactly those that are not expired (process alive and idle time not above the timeout) or whose user is gone. They are unchanged, and the count returned is the number removed. |
| Terminal.StopAllSessions | backend/terminal.py:377-397 | Every session whose user exists is stopped, and the count returned is the number removed. |
| Soc.LogEvent | backend/soc.py:37-79 | One event with the given type, severity, message and ids is appended. Absent details are stored as an empty object. |
| Soc.MergeDetails | backend/soc.py:102-108 | The caller's details override the wrapper's default keys, and the other defaults stay. |
| Soc.LogVmLifecycle | backend/soc.py:83-203 | The created, started and stopped events are info and the destroyed event is a warning. Each is a "vm" event of the owner and the VM carrying the VM name and user, with the caller's keys overriding the defaults. |
| Soc.LogVmError | backend/soc.py:205-233 | A VM error is a critical "vm" event of the user that carries the error text unless the caller overrides it. |
| Soc.LogSystemEvent | backend/soc.py:349-363 | A system event has no user and no VM and keeps the given severity. |
| Soc.LogSshAttempt | backend/soc.py:237-294 | An unknown VM gives None and appends nothing. Otherwise one "security" event of the VM's owner is appended: info on success, warning on failure, with the success flag in its details. |
| Soc.DetectBruteForce | backend/soc.py:296-345 | The count is the number of failed SSH warnings on the VM at or after now minus the window. It is an attack exactly when the count reaches the threshold, and then (when the VM exists) exactly one critical security event is appended; otherwise nothing changes. |
| Soc.FailedSshCount | backend/soc.py:318-324 | The count of failed attempts on the VM in the window is at most the log's length. It is zero exactly when no event of the log is such an attempt. |
| Soc.BruteForceAlertNotCounted | backend/soc.py:318-343 | The alert the detector appends is critical, so no later count, over any window, includes it. |
| Soc.FailedSshCountWindowMonotone | backend/soc.py:318-324 | A wider window never counts fewer failed attempts. |
| Soc.LogResourceAlert | backend/soc.py:365-409 | As written: an alert for a truthy VM id that names no VM fails. Otherwise one "system" event is appended, critical exactly when the value is at least 95 and a warning otherwise. |
| Soc.LogResourceAlertMissingVmFails | backend/soc.py:386-389 | An alert about a missing VM 7 fails as written, while the intended version logs it as critical. |
| Soc.LogResourceAlertIntended | backend/soc.py:365-409 | The alert is always logged: critical exactly at 95 or above, attributed to the VM's owner exactly when the VM exists. |
| Soc.LogResourceAlertAgrees | backend/soc.py:384-409 | Wherever the code as written succeeds, the intended version logs the same event. |
| Soc.NewerFirstTotal | backend/soc.py:454 | Ordering by creation time, newest first, is a total preorder. |
| Soc.GetRecentEvents | backend/soc.py:413-457 | At most `limit` events are returned. |
| Soc.GetRecentEventsSound | backend/soc.py:438-457 | Every event returned is in the log, lies in the window and matches every truthy filter, and the list is newest first. |
| Soc.GetRecentEventsComplete | backend/soc.py:438-457 | A matching event is left out only when the list is full of events at least as new. |
| Soc.Summarize | backend/soc.py:494-501 | Each dashboard row carries the id and time of its event, in order. |
| Soc.CriticalEvents | backend/soc.py:489-501 | The critical list has at most 10 rows. |
| Soc.CriticalEventsSound | backend/soc.py:489-501 | Each row of the critical list is a critical event of the window, and the rows are newest first. |
| Soc.GetEventStatistics | backend/soc.py:459-517 | The total is the number of events in the window. The four per-type counts add up to at most the total, and so do the three per-severity counts. The critical list has at most 10 rows, each a critical event of the window, newest first. The window asked for is echoed back. |
| Soc.CountsByType | backend/soc.py:477-482 | There is one count per event type. |
| Soc.CountsBySeverity | backend/soc.py:484-487 | There is one count per severity. |
| Soc.TypeCountsAdd | backend/soc.py:477-482 | Counting two disjoint sets of types separately adds up to counting their union. |
| Soc.SeverityCountsAdd | backend/soc.py:484-487 | Counting two disjoint sets of severities separately adds up to counting their union. |
| Soc.TypeCountsBounded | backend/soc.py:470-482 | The per-type counts never add up to more than the window's total. |
| Soc.SeverityCountsBounded | backend/soc.py:470-487 | The per-severity counts never add up to more than the window's total, and they equal it when every event has one of the three severities. |
| Soc.AnalyzeUserActivity | backend/soc.py:519-578 | An unknown user gives the error "User not found". Otherwise the summary names the user, its VM events plus failed logins never exceed its total events, and its active VMs are VMs of the database. |
| VmManager.VmDirExamples | test_vm_manager.py:75-85 | The workspace names the tests fix for three owners. |
| VmManager.VmDir | backend/vm_manager.py:34-36 | The workspace is named `user`, the owner's id, `-` and the VM's name. It is a definition with no contract; VmDirExamples and VmDirInjective state its properties. |
| VmManager.VmDirInjective | backend/vm_manager.py:34-36 | Two VMs share a workspace only if they have the same owner and the same name. |
| VmManager.BoxFor | backend/vm_manager.py:48-60 | The box is the table entry of the lower-cased OS name, or ubuntu/focal64 when there is none; it is always a box of the table. |
| VmManager.BoxForIgnoresCase | backend/vm_manager.py:60 | The box lookup ignores case. |
| VmManager.RenderShowsHole | backend/vm_manager.py:62-94 | Every filled-in line of the template, and the value in it, appears in the rendered text. |
| VmManager.RenderVagrantfile | backend/vm_manager.py:38-95 | The Vagrantfile is the template with the VM's fields filled in. It is a definition with no contract; VagrantfileBox, VagrantfileName, VagrantfileMemory and VagrantfileCpus state what it contains. |
| VmManager.VagrantfileBox | backend/vm_manager.py:66 | The Vagrantfile names the box of the VM's OS. |
| VmManager.VagrantfileName | backend/vm_manager.py:67 | The Vagrantfile sets the VM's name as hostname, so the name appears (test_vm_manager.py:63). |
| VmManager.VagrantfileMemory | backend/vm_manager.py:72-78 | Both providers get the VM's memory, so the amount appears (test_vm_manager.py:64). |
| VmManager.VagrantfileCpus | backend/vm_manager.py:73-79 | Both providers get the VM's CPU count, so the count appears (test_vm_manager.py:65). |
| VmManager.VmConfig | backend/vm_manager.py:99-109 | The configuration carries exactly the five fields of a VM request. |
| VmManager.ReadConfig | backend/vm_manager.py:99-109 | A configuration that reads back carries the name and memory it was read from. |
| VmManager.CreateVmInfo | backend/vm_manager.py:97-113 | The initial sidecar holds the configuration plus status "pending", no address, creation time and zero uptime. |
| VmManager.CreateVmInfoRoundTrip | backend/vm_manager.py:97-113 | The sidecar gives back the configuration the VM was created with (test_vm_manager.py:113-117). |
| VmManager.UpdateVmInfo | backend/vm_manager.py:115-129 | An update puts the new keys over the existing map (or over an empty one), adds `updated_at`, and leaves every other key as it was. |
| VmManager.UpdateVmInfoIdempotent | backend/vm_manager.py:119-126 | Repeating an update changes nothing but the stamp. |
| VmManager.GetVmStatus | backend/vm_manager.py:467-498 | A missing workspace gives not_created and a failed run gives unknown. Otherwise, on lower-cased output, "running" wins, then "poweroff"/"stopped" gives stopped, then "not created", else unknown. |
| VmManager.GetVmStatusIgnoresCase | backend/vm_manager.py:484 | The classification ignores the case of the tool's output. |
| VmManager.FirstHostLine | backend/vm_manager.py:517-519 | The index found is that of the first line containing HostName. |
| VmManager.HostAddress | backend/vm_manager.py:515-524 | An address exists exactly when some line contains HostName, and it is the last token of the first such line. |
| VmManager.HostAddressWellFormed | backend/vm_manager.py:519-521 | The address found is a non-empty run without whitespace. |
| VmManager.GetVmIp | backend/vm_manager.py:500-528 | A failed run gives None. Otherwise the result is the last token of the first HostName line of the output, when there is one. |
| VmManager.GetVmIpOfLines | backend/vm_manager.py:515-524 | For output assembled from lines, the address is the last token of the first line naming the host. |
| VmManager.PutVm | backend/vm_manager.py:237-264 | Writing a VM row changes only that row. |
| VmManager.PutEvent | backend/vm_manager.py:237-264 | Logging a VM event appends one "vm" event of the owner and VM and changes nothing else. |
| VmManager.PutSidecar | backend/vm_manager.py:115-129 | Updating a workspace's sidecar changes only that sidecar. |
| VmManager.Provision | backend/vm_manager.py:195-231 | A fresh creation makes the workspace with its Vagrantfile and sidecar, marks the row pending, and logs the request with the VM's configuration. |
| VmManager.CreateVm | backend/vm_manager.py:175-294 | A creation succeeds only when vagrant up does, and it never touches users. |
| VmManager.CreateSucceeded | backend/vm_manager.py:237-264 | After a successful vagrant up the row is running with the address found, the sidecar says running, and one info event is added. |
| VmManager.CreateFailed | backend/vm_manager.py:265-283 | After a failed vagrant up the row is failed, the sidecar is untouched, and one critical event carries the error. |
| VmManager.CreateVmRefused | backend/vm_manager.py:191-192 | An existing workspace refuses the creation with no change and no event. |
| VmManager.CreateVmWorkspace | backend/vm_manager.py:195-283 | On a fresh workspace the creation succeeds exactly when vagrant up does, and the workspace and its Vagrantfile exist either way. |
| VmManager.CreateVmRow | backend/vm_manager.py:237-283 | On a fresh workspace the row ends running with the address found, or failed. |
| VmManager.CreateVmSidecar | backend/vm_manager.py:237-283 | On a fresh workspace the sidecar says running after success and still says pending after failure. |
| VmManager.CreateVmEvents | backend/vm_manager.py:218-283 | A fresh creation adds two events: the request, then info on success or critical on failure. |
| VmManager.CreateVmKeepsWorkspaces | backend/vm_manager.py:175-294 | Creation keeps every file inside an existing workspace. |
| VmManager.CreateVmKeepsStatuses | backend/vm_manager.py:175-294 | Creation leaves every row in one of the states the manager writes. |
| VmManager.CreateTwiceRefused | backend/vm_manager.py:191-192 | A second creation of the same VM is refused and changes nothing. |
| VmManager.StartVm | backend/vm_manager.py:296-348 | A start succeeds exactly when the workspace exists and vagrant up does; a failure changes nothing. |
| VmManager.StartVmEffects | backend/vm_manager.py:311-343 | A successful start marks the row and the sidecar running, records the address found, and adds one info event. |
| VmManager.StartVmKeepsInvariants | backend/vm_manager.py:296-348 | Starting keeps files inside workspaces and rows in known states. |
| VmManager.StopVm | backend/vm_manager.py:350-399 | A stop succeeds exactly when the workspace exists and vagrant halt does; a failure changes nothing. |
| VmManager.StopVmEffects | backend/vm_manager.py:365-394 | A successful stop marks the row and the sidecar stopped and adds one info event. |
| VmManager.StopVmKeepsInvariants | backend/vm_manager.py:350-399 | Stopping keeps files inside workspaces and rows in known states. |
| VmManager.DeleteVm | backend/vm_manager.py:449-450 | Deleting a VM row removes it together with the events stored against it. |
| VmManager.DeleteKeepingPending | backend/vm_manager.py:442-450 | The event not yet flushed survives the delete; earlier events survive exactly when they are not about the VM. |
| VmManager.RemoveWorkspace | backend/vm_manager.py:436-440 | The workspace goes exactly when it exists and the removal works; no other workspace and no row changes. |
| VmManager.DestroyVm | backend/vm_manager.py:401-465 | A destroy always deletes the row and reports success. |
| VmManager.DestroyVmEvents | backend/vm_manager.py:416-460 | The destroy's event is the last one, names the VM, and is a warning exactly when there was no workspace. |
| VmManager.DestroyVmWorkspace | backend/vm_manager.py:416-460 | The workspace goes exactly when it existed and could be removed; no other workspace changes. |
| VmManager.DestroyVmKeepsInvariants | backend/vm_manager.py:401-465 | Destroying keeps files inside workspaces and rows in known states. |
| VmManager.UpdateVmStatus | backend/vm_manager.py:530-560 | The row is rewritten only when the reported state differs. The call fails only when a changed state has no workspace to write to, and the log is never touched. |
| VmManager.UpdateVmStatusSidecar | backend/vm_manager.py:546-552 | With a workspace, a changed state is also written to the sidecar. |
| VmManager.UpdateVmStatusKeepsInvariants | backend/vm_manager.py:530-560 | Refreshing keeps files inside workspaces and rows in known states. |
| Monitor.CheckOne | backend/monitor.py:402-405 | A reading at or above its threshold appends one alert line and one warning event; otherwise nothing changes. |
| Monitor.Breaches | backend/monitor.py:402-423 | The breached resources are among the resources checked. |
| Monitor.BreachesMembership | backend/monitor.py:402-423 | A resource is listed exactly when it is checked and its reading reaches its threshold. |
| Monitor.AlertTexts | backend/monitor.py:403-421 | There is one alert line per breach. |
| Monitor.AlertEvents | backend/monitor.py:404-422 | There is one event per breach. |
| Monitor.AlertTextsAt | backend/monitor.py:403-421 | Each alert line names its resource and shows its reading. |
| Monitor.AlertEventsAt | backend/monitor.py:427-443 | Each alert event is a warning of type `system_high_<x>` from the system monitor, under consecutive ids. |
| Monitor.CheckAll | backend/monitor.py:399-424 | Running the checks leaves users and VMs alone. It only appends alert lines, at most one per resource, and it appends exactly one event per alert line. |
| Monitor.CheckAllAlerts | backend/monitor.py:402-425 | Running the checks appends the alert lines of the breached resources, in check order. |
| Monitor.CheckAllEvents | backend/monitor.py:402-443 | Running the checks logs one event per breached resource, in check order. |
| Monitor.CheckResourceThresholds | backend/monitor.py:395-425 | There are as many alerts as events logged, and users and VMs are untouched. |
| Monitor.CheckResourceThresholdsAlerts | backend/monitor.py:402-423 | An alert is raised exactly when cpu ≥ 90, memory ≥ 85, disk ≥ 90 or swap ≥ 50, a missing key counting as 0. There are at most four, in that order. |
| Monitor.CheckResourceThresholdsLines | backend/monitor.py:402-423 | Every alert line names a breached resource and shows its reading. |
| Monitor.CheckResourceThresholdsEvents | backend/monitor.py:404-437 | Each alert's event is appended after the existing log as a warning of type `system_high_<x>`. |
| Monitor.VmUsage | backend/monitor.py:233-253 | A VM that is not running reports zero usage. A running VM without a sidecar reports 15/45/30. A running VM with one reports the sidecar's values, falling back to those defaults key by key. |
| Monitor.UpdateVmResourceUsage | backend/monitor.py:168-214 | Without a sidecar nothing is written. Otherwise the five usage keys and the update stamp are set and every other key stays. |
| Monitor.UpdateThenUsage | backend/monitor.py:168-253 | For a running VM, the usage read after an update is the usage written. |
| Monitor.UsedOf | backend/monitor.py:256-257 | The used amount is the percentage of the allocation, and 0 when the percentage is not positive. |
| Monitor.GetVmMetrics | backend/monitor.py:216-298 | Used plus available equals the allocation for memory and for disk, the usage is that of the VM, and a stopped VM uses nothing. |
| Monitor.Batch | backend/monitor.py:317-324 | A batch has one sample per series, each with its name and unit, the reading (0 when missing), the owner and the time. |
| Monitor.StoreHostMetrics | backend/monitor.py:300-333 | A host batch appends exactly 7 samples, all without a VM. |
| Monitor.StoreVmMetrics | backend/monitor.py:335-368 | A VM batch appends exactly 8 samples, all under the VM's id. |
| Monitor.SeriesNamesDistinct | backend/monitor.py:307-350 | The series of each batch have distinct names. |
| Monitor.NewerFirstTotal | backend/monitor.py:388 | Ordering by timestamp, newest first, is a total preorder. |
| Monitor.GetHistoricalMetrics | backend/monitor.py:370-393 | At most `limit` samples are returned, all of the named series and owner (None meaning host-only). |
| Monitor.GetHistoricalMetricsSound | backend/monitor.py:381-389 | The history is newest first, and each sample in it is a stored sample, listed no more often than it is stored. |
| Monitor.GetHistoricalMetricsComplete | backend/monitor.py:381-389 | A sample of the series is left out only when the list is full of samples at least as new. |
| Monitor.HeadIsNewest | backend/monitor.py:388 | The head of a newest-first list is at least as new as any of its samples. |
| Monitor.HostBatchCpuFirst | backend/monitor.py:307-308 | Of a host batch, only the first sample belongs to the host CPU series. |
| Monitor.NewestHeadsHistory | backend/monitor.py:381-389 | A sample newer than every other of its series heads that series' history. |
| Monitor.StoreHostThenHistory | backend/monitor.py:300-389 | After storing a host sample at the newest time, the host CPU history starts with the CPU reading just stored. |
| Monitor.CutoffSplits | backend/monitor.py:478-482 | Every sample is either older than the cutoff or not. |
| Monitor.CleanupOldMetrics | backend/monitor.py:471-491 | Cleanup keeps exactly the samples at or after now minus the retention and removes the rest. |
| Monitor.CleanupCount | backend/monitor.py:480-486 | The count returned is the number of samples older than the cutoff. |
| Monitor.CleanupIdempotent | backend/monitor.py:478-486 | A second cleanup at the same time removes nothing. |
| Monitor.StoreIfRunning | backend/monitor.py:461-465 | Only a running VM gets a batch, appended under its id. |
| Monitor.VmBatches | backend/monitor.py:462-465 | The loop over the VM list keeps what was stored before it. Every row it adds is a VM sample stamped with the collection time. |
| Monitor.VmBatchesOnlyRunning | backend/monitor.py:461-465 | Every VM sample stored by the collection pass belongs to a running VM. |
| Monitor.CollectAndStoreAllMetrics | backend/monitor.py:445-469 | The VM list must be the VM table of the same database, read in row order. An empty host sample gives an empty result with nothing stored. Otherwise the sample and its alerts are returned, and the database changes exactly as the threshold check changes it. |
| Monitor.CollectStoresHostThenRunning | backend/monitor.py:453-465 | The pass stores the host batch first, then batches of running VMs only. Every VM sample belongs to a row of the VM table whose status is running. |
| Migrations.VersionsMembership | backend/migrations.py:197 | A version is listed exactly when some migration has it. |
| Migrations.LexLeTotalPreorder | backend/migrations.py:66 | Python's `<=` on strings is a total preorder. |
| Migrations.AppliedVersions | backend/migrations.py:60-70 | The applied versions are those of the history, in ascending string order. |
| Migrations.FirstFailure | backend/migrations.py:149-157 | Every step before the first failing one completes. |
| Migrations.RunUp | backend/migrations.py:149-157 | The run only appends to the history, and what it appends is a prefix of the plan. It succeeds exactly when every step completes, and then it has appended the whole plan. |
| Migrations.RunUpSpec | backend/migrations.py:149-157 | The run records exactly the steps before the first failure, in plan order; a failing step aborts the run and neither it nor any later step is recorded. |
| Migrations.MigratePlan | backend/migrations.py:142-146 | The plan holds exactly the declared migrations that are not applied and no later than the target (all of them without one), in declaration order. |
| Migrations.Migrate | backend/migrations.py:129-159 | Migrate keeps the old history as a prefix. Every record it adds is a declared migration that was not applied and is no later than the target. It succeeds exactly when every such migration's `up` completes, and then all of them are recorded. |
| Migrations.MigrateRecords | backend/migrations.py:129-159 | A run records the planned migrations up to the first failing one and reports success exactly when none fails. |
| Migrations.MigrateIdempotent | backend/migrations.py:143-146 | After a successful run a second run with the same target selects nothing. |
| Migrations.Reverse | backend/migrations.py:172 | The reversed list has the same elements, last first. |
| Migrations.RollbackPlan | backend/migrations.py:171-175 | The rollback plan holds exactly the applied declared migrations later than the target, in reverse declaration order. |
| Migrations.Rollback | backend/migrations.py:161-188 | Rollback only removes records. It succeeds exactly when every applied declared migration later than the target rolls back. |
| Migrations.RemoveVersion | backend/migrations.py:84-92 | Removing a record keeps exactly the history rows of other versions. |
| Migrations.RunDown | backend/migrations.py:178-186 | The run only removes records: everything left was in the history before. |
| Migrations.RunDownSpec | backend/migrations.py:178-186 | The run removes exactly the records of the steps before the first failure and stops there. |
| Migrations.RollbackSpec | backend/migrations.py:161-188 | After a successful rollback no declared migration later than the target stays applied, and every record no later than it stays. |
| Migrations.LastIsGreatest | backend/migrations.py:204 | The last of the sorted applied versions is the greatest. |
| Migrations.GetMigrationStatus | backend/migrations.py:190-208 | The counts are those of the lists, and pending is the declared versions not applied. Current is present exactly when something is applied, and it is then the greatest applied version. Latest is the last declared version. |
| Migrations.StatusCountsAdd | backend/migrations.py:197-203 | Pending and applied declared versions partition the declared ones. |
| Migrations.MigrateThenNothingPending | backend/migrations.py:142-208 | After a full successful run nothing declared is pending. |
| Schemas.NameCore | backend/schemas.py:47 | Removing '-' and '_' keeps every other character and no separator. |
| Schemas.ValidateName | backend/schemas.py:39-49 | A name is accepted exactly when it has 3 to 100 characters and is alphanumeric without its separators; the stored name is its lower case. |
| Schemas.ValidateNameCharset | backend/schemas.py:45-49 | Every character of an accepted name is a letter, a digit, '-' or '_'. |
| Schemas.ValidateNameIgnoresCase | backend/schemas.py:45-49 | Case does not matter to the check, so a stored name validates to itself. |
| Schemas.ValidateOsType | backend/schemas.py:40-56 | An OS name is accepted exactly when it has 2 to 50 characters and its lower case is one of the nine names; the result is that lower case. |
| Schemas.OsTypesAreBoxKeys | backend/schemas.py:53 | The accepted OS names are exactly the keys of the box table (backend/vm_manager.py:48-58). |
| Schemas.AcceptedOsHasBox | backend/schemas.py:51-56 | An accepted OS name never falls back to the default box. |
| Schemas.ValidateOsTypeIdempotent | backend/schemas.py:51-56 | A normalised OS name validates to itself. |
| Schemas.VmErrors | backend/schemas.py:38-56 | A field is reported exactly when its check fails. |
| Schemas.ValidateVm | backend/schemas.py:38-56 | A VM request is accepted exactly when every field passes: 512 ≤ ram ≤ 16384, 10 ≤ disk ≤ 500, 1 ≤ cpu ≤ 8, and the name and OS checks. Name and OS are normalised; a refusal names at least one field. |
| Schemas.ValidateVmIdempotent | backend/schemas.py:38-56 | A validated request passes again unchanged. |
| Schemas.ValidateAction | backend/schemas.py:80 | An action is accepted exactly when it is start, stop, restart or destroy. |
| Schemas.ValidateCreditAdjustment | backend/schemas.py:123-126 | An adjustment is accepted exactly when its amount lies in -10000 .. 10000. |
| Schemas.UserErrors | backend/schemas.py:10-15 | A sign-up field is reported exactly when its length is out of range. |
| Schemas.ValidateUserCreate | backend/schemas.py:10-15 | A sign-up is accepted exactly when the username has 3..50, the email 5..100 and the password 8..100 characters. |
| LabValidator.WarningTexts | labsbakery/backend/utils/schema_validator.py:95-119 | There is one text per warning, in order. |
| LabValidator.TotalRam | labsbakery/backend/utils/schema_validator.py:107 | With sizes that are not negative, the lab's total RAM is not negative and no single VM asks for more than the total. |
| LabValidator.TotalRamAllDefault | labsbakery/backend/utils/schema_validator.py:107 | Without explicit sizes every VM counts 2048 MB. |
| LabValidator.TutorialHasSteps | labsbakery/backend/utils/schema_validator.py:115-116 | The tutorial has steps exactly when it is an object with truthy steps. A truthy tutorial that is not an object makes the check raise. |
| LabValidator.When | labsbakery/backend/utils/schema_validator.py:99-117 | A check contributes its warning exactly when it fires. |
| LabValidator.CustomWarnings | labsbakery/backend/utils/schema_validator.py:85-119 | "No VMs" fires exactly when there are no ingredients and "too many" exactly above 10. The RAM warning fires exactly when the total, 2048 per missing value, exceeds 8192, and the tutorial warning exactly when there are no steps. |
| LabValidator.CustomWarningsOrdered | labsbakery/backend/utils/schema_validator.py:95-119 | There are at most three warnings, in the order the checks are written. |
| LabValidator.DefaultRamWarning | labsbakery/backend/utils/schema_validator.py:107-112 | With all sizes left to the default, the RAM warning fires exactly above four VMs. |
| LabValidator.ErrorPath | labsbakery/backend/utils/schema_validator.py:68 | An empty path is reported as root. |
| LabValidator.Validate | labsbakery/backend/utils/schema_validator.py:34-83 | A valid result has no errors. A violation or schema fault gives one error and no warnings. Only an unloadable schema, or a tutorial the custom check cannot read, raises. |
| LabValidator.ValidateReports | labsbakery/backend/utils/schema_validator.py:60-76 | A violation yields one error that starts with its dotted path; a conforming document is valid and carries exactly its custom warnings. |
| LabValidator.ValidateFile | labsbakery/backend/utils/schema_validator.py:121-146 | A missing file or text that is not JSON gives one error and no warnings; otherwise the document is validated. |
| Labs.ListText | labsbakery/backend/services/export_service.py:59 | A rendered list is bracketed and is `[]` exactly for no items. |
| LabExport.RemoveAll | labsbakery/backend/services/export_service.py:185-187 | After removal a character remains exactly when it was present and is not removed. |
| LabExport.Clean | labsbakery/backend/services/export_service.py:181-187 | A cleaned name has no space and no invalid character. |
| LabExport.Sanitize | labsbakery/backend/services/export_service.py:171-193 | A sanitised name has no space, none of `<>:"/\|?*`, and at most 200 characters. |
| LabExport.RemoveAllIsFilter | labsbakery/backend/services/export_service.py:185-187 | Removing the invalid characters one after another keeps every other character in order. |
| LabExport.SanitizeIsFilteredPrefix | labsbakery/backend/services/export_service.py:181-193 | The result is the first 200 characters of the name with spaces turned into underscores and invalid characters dropped, the rest in order. |
| LabExport.SanitizeFixedPoints | labsbakery/backend/services/export_service.py:171-193 | The names left alone are exactly the short safe ones, so sanitising twice changes nothing. |
| LabExport.ExportTags | labsbakery/backend/services/export_service.py:143 | An empty or missing tags column gives no tags; otherwise the comma-free pieces. |
| LabExport.Ingredients | labsbakery/backend/services/export_service.py:121-132 | There is one ingredient per VM, in row order. |
| LabExport.BuildLabData | labsbakery/backend/services/export_service.py:97-154 | The metadata id is "lab_" plus the project id, and a missing description becomes "". There is one ingredient per VM, and undecodable canvas or tutorial text falls back to the empty documents. |
| LabExport.BuildLabDataIngredients | labsbakery/backend/services/export_service.py:121-132 | Each ingredient carries its VM's id as text, name, box, RAM, CPUs, network and address. |
| LabExport.PackageName | labsbakery/backend/services/export_service.py:85-86 | The package name has no path separator and ends in `.labpkg`. |
| LabExport.PackageNameSafe | labsbakery/backend/services/export_service.py:85-86 | The package name has no path separator, ends in `.labpkg`, and its stem is the sanitised title. |
| LabExport.ExportLab | labsbakery/backend/services/export_service.py:30-95 | Export yields a package exactly when the built document validates and no write, asset copy or zip step raises; its name is then the sanitised title plus `.labpkg`. A document that does not validate fails before anything is written. An exception from a later step propagates with its own message. |
| LabImport.CreateProject | labsbakery/backend/services/import_service.py:137-166 | The new project takes the next id, the status "draft" and the tags joined by commas, and keeps the store's invariant. |
| LabImport.ImportedVms | labsbakery/backend/services/import_service.py:182-193 | There is one row per ingredient, with the defaults for missing settings. |
| LabImport.CreateVms | labsbakery/backend/services/import_service.py:168-197 | One pending row per ingredient is appended under the project, and the number of ingredients is returned. |
| LabImport.ImportLab | labsbakery/backend/services/import_service.py:32-105 | Import succeeds exactly when the package is admitted and no assets copy fails. A refused package leaves the database as it was. Existing VM rows are always kept in order. On success the id returned is the next project id and the status is "success". |
| LabImport.ImportRefused | labsbakery/backend/services/import_service.py:54-69 | A package that is not a ZIP, lacks lab.json, does not decode or does not validate is refused and creates nothing. |
| LabImport.ImportAdmitted | labsbakery/backend/services/import_service.py:71-94 | An admitted package adds one project with the next id and one pending VM per ingredient, and it succeeds unless the assets fail to copy. |
| LabImport.ImportLabKeepsProjectOnCopyFailure | labsbakery/backend/services/import_service.py:71-99 | As written, a failing asset copy reports failure while the project stays. |
| LabImport.ImportLabAtomic | labsbakery/backend/services/import_service.py:96-99 | With the intended rollback a failure of any kind leaves the database as it was, with the same answer as the import. |
| LabImport.ExportImportProject | labsbakery/backend/services/import_service.py:148-160 | Export then import gives back title, author, schema version, description (absent as empty) and tags (absent as empty): joining the exported split gives back the tags column (export_service.py:143). |
| LabImport.ExportImportVms | labsbakery/backend/services/import_service.py:180-197 | Export then import gives rows with the same name, box, RAM, CPUs, network and address, in order, pending under the new project. |
| LabImport.ValidateLabpkg | labsbakery/backend/services/import_service.py:199-244 | Checking a package never raises. Any failure gives one error, no warnings and no size; success adds the VM count (the number of ingredients) and the file size, and a valid report has no errors. |
| LabImport.ValidateAgreesWithImport | labsbakery/backend/services/import_service.py:54-69 | A package's report is valid exactly when the import admits it. |
| Setup.DetectShell | setup.py:115-127 | As written: fish exactly when SHELL contains "fish"; otherwise bash exactly when it contains "bash" or "sh". |
| Setup.ShellNamesContainSh | setup.py:120-126 | "zsh", "csh" and "tcsh" all contain "sh". |
| Setup.DetectShellNeverZshOrCsh | setup.py:120-126 | As written, zsh and csh are never reported, and unknown is reported exactly when SHELL lacks "sh". |
| Setup.DetectShellZshExample | setup.py:120-123 | "/bin/zsh" is reported as bash, while the intended detector reports zsh. |
| Setup.DetectShellIntended | setup.py:115-127 | With the specific shells checked first, fish, zsh and csh are each reported exactly on their names. |
| Setup.DetectShellIntendedAgrees | setup.py:115-127 | The two detectors agree except that the written one calls a Z or C shell bash. |
| Setup.ActivationCommandCases | setup.py:129-141 | On win32 the command ignores the shell. Elsewhere fish gets its own script and every other shell the plain one; the C shell script is never chosen. |
| Setup.ActivationIntendedCsh | setup.py:138-139 | With the intended detector a C shell gets its own script, which the written code never gives. |
| Setup.VenvLayoutAgrees | setup.py:31-36 | The activation script and the interpreter live in the same directory of the environment on each platform. |
| Setup.ActivationCommand | setup.py:129-141 | As written, the command is never the C shell's activation script. |

## Left out

- Host sampling (`get_host_metrics`, psutil), network speeds, `round(x, 2)` and float formatting. Readings are reals, and the way a reading is shown in a message is a parameter (`show`).
- Subprocess invocation of vagrant and ttyd, `which ttyd`, process terminate/kill/wait and timeouts. Each run is an input: success flag, stdout and error text. Process liveness is a flag of the session.
- File I/O (sidecar JSON read/write, zip creation and extraction, copytree/rmtree, temporary directories) and log files. Only the map and sequence logic is kept. The outcome of an asset copy on import, of an export's writes, copy and zip (`writeError`), and of a workspace removal is an input.
- ORM sessions, commits and rollbacks, `init_db`. The database is a value, and a commit is the new value.
- Time: the clock is the parameters `now` (seconds) and `stamp` (ISO text). Likewise `secrets.token_urlsafe` and uuid: tokens and ids are parameters.
- jsonschema and `lab_schema.json` are not part of this model. The schema check is an oracle (`SchemaCheck`), and decoding or encoding JSON text is a parameter.
- Lab documents with a missing required key (`metadata`, `title`, `name`, ...): the typed `Lab` record always has them, so the KeyError paths those documents would take are not modelled.
- The escaping of quotes inside items when Python renders a list of strings in an error message.
- The `metadata.json` warning printed by `_validate_structure` (output only).
- `create_vm`'s outer exception handler (backend/vm_manager.py:285-294), which fires only on I/O errors.
- Listing and lookup helpers outside the core: `list_user_vms`, `get_vm_info`, `get_terminal_session`, and the regex log parsers `parse_vagrant_logs`/`parse_ssh_logs`.
- The deletion of a VM's metrics that the ORM cascade also performs on destroy; only the event cascade is modelled.
- Pydantic's type coercion: requests arrive already typed.
- Credit cost, quota and deduction: they are not defined in the VM manager.
- FastAPI routes and application wiring.
- Concurrent access to the registry: the model is sequential.
- Lower case and `isalnum` are ASCII only; non-ASCII letters are not modelled.
- Terminal.NextPort: requires that a free port exists (`CanAllocate`), because the source scan never ends when all 1001 pool ports are taken (see Findings). Terminal.FewSessionsCanAllocate proves this holds whenever at most 1000 sessions exist.
- Soc.DetectBruteForce: a failed attempt is an event whose `success` detail is false. The source instead matches the text `"success": false` inside the stored JSON column with an SQL `LIKE`. That match is case-insensitive in SQLite, also hits the phrase under nested or other keys, and depends on how the pattern is bound for a JSON column. Events written by `log_ssh_attempt` behave the same under both readings; hand-logged events may not.
- Terminal.StartSession: requires the same allocation condition on the launch path.
- Soc.GetRecentEvents and Monitor.GetHistoricalMetrics: ties in time may come out in a different order than the database would return them; the model only promises a newest-first order.

## Findings

| source | as written | input that shows it | evidently intended | confidence | as-written member | corrected member |
|---|---|---|---|---|---|---|
| setup.py:120-126 | `'sh' in shell` is checked before `zsh`, `csh` and `tcsh`, all of which contain "sh" | SHELL = "/bin/zsh" is reported as bash, so a C shell never gets activate.csh | specific shells checked before the generic "sh" | high; not executed | Setup.DetectShellZshExample | Setup.DetectShellIntendedAgrees |
| backend/soc.py:386-389 | `vm.name` is read before the `if vm` guard, so a VM id with no row raises instead of logging | vm_id = 7 with no VM 7: the critical alert is lost | log the alert without the owner, as the guard on `vm.owner_id` intends | high; not executed | Soc.LogResourceAlertMissingVmFails | Soc.LogResourceAlertAgrees |
| labsbakery/backend/services/import_service.py:71-99 | the project and its VMs are committed before the assets are copied, so the rollback in the handler cannot undo them | a package with an assets directory whose copy raises: the import reports failure and the project remains | a failed import leaves the database as it was | medium; not executed | LabImport.ImportLabKeepsProjectOnCopyFailure | LabImport.ImportLabAtomic |
| backend/terminal.py:86-89 | when every pool port and the counter are held by sessions, the `while` loop of `_get_next_port` never finds a free port and never ends | 1001 sessions on ports base .. base + 1000 with the counter at the base port: every port the scan reaches is taken | refuse to allocate, or never let the registry hold more than 1000 sessions | high; not executed | Terminal.ScanStuckWhenPoolFull | Terminal.FewSessionsCanAllocate |
