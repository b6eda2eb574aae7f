# usbip-web, modelled and verified

The system exports USB devices from a server over USB/IP and keeps them attached on clients. This project models,
in Dafny, the parts where it can go wrong over time, and proves what they keep.

* **The client's attachments** (`client/app/groups.py`, the handlers of `client/app/main.py`, `client/app/usbip_client.py`).
  A record says which device of which server sits on which virtual port, for itself or for a failover group. A watchdog
  visits records whose port is gone, backs off after three failures, asks the server for a rebind, follows a device to
  another busid by its serial, and picks another candidate for a group. A server may also push. `Client.Process` is
  this process, with its store and module state as fields; each of its methods is proved to compute a function of
  `ClientState`, and everything else is proved of those functions.
  * One operation at a time, read off records, listings and results field by field: `Attaches`, `Restores`, `Outcomes`.
  * Runs of whole handlers, one after another: modules `Registry`, `Runs`, `Attention`, `Rebinds`, `Recovery`, `Routes`.
  * The same handlers cut at their await points and interleaved in any order, each coroutine holding the snapshot it
    read: `Interleaving`, with what every interleaving keeps in `Ownership`, `Schedules` and `Rations`. Each coroutine
    left alone (tick, push, restore, group attach, direct attach) is proved to compute the whole handler (`Sequential`).
  * What interleaving can break: one record per group, the existence of the servers and groups that records name, the
    removal of a record, and the node file. `Interference` says for each exactly which step breaks it; `Snapshots` and
    `Separation` prove the first three over every interleaving that meets a condition on what is started or removed
    while coroutines are in flight; `Races` has runs that break them.
* **The server's share list** (`server/app/main.py`, `server/app/usb_devices.py`): a pass binds what is tracked and moves
  the share along when a device changes busid. `Shares.Server` is that object; `Relocation` proves what passes keep.
* **Smaller stateful cores**: tunnel addresses (`Tunnel`), the tmpfiles.d entry (`UsbipClient`), the login throttle
  (`LoginThrottle`), the config file (`ConfigStore`), the re-keying of old records (`Migration`).

`dafny verify dfyconfig.toml` checks all of it.

## How the outside is modelled

Device listings, attach and bind commands, clocks and generated ids are parameters (`Answers`, `Scans`, `Fault`), so a
statement about all parameters is a statement about every behaviour of the outside. What is assumed of it is written
in the statement that needs it:

* The kernel does not hand out a (port, local busid) pair while it is recorded under *another* attachment id, in the
  store or in a suspended snapshot (`Ownership.NotReissued`). This is shown to be exactly what ownership needs.
* Only this process attaches, so that the new port in a listing is its own (`UsbipClient.OnlyNew`).
* Generated ids are new (`Runs.EventFresh`, `Runs.TickFresh`, `Migration.FreshIds`).
* External calls succeed or raise the errors the code catches. An undeclared exception would abort a tick, and in the
  group path lose the popped record.
* The tmpfiles.d directory is mounted and its writes succeed, where a statement is about the host's file
  (`Registry.Covered`). `UsbipClient.TmpfilesHost.WriteConf` itself also models the other cases.

Model bookkeeping that the source does not store: `Record.lastFailure`, `State.used`, `State.trace`, the owner in
`Interleaving.Session`, the throttle's unpruned `failures`, and the counters of writes. Times are whole seconds.

## Where the code promises less than it seems to

* Five failed logins in five minutes is the bound when requests do not overlap. The handler awaits the form between
  check and record, so `k` overlapping requests reach `4 + k` (`LoginThrottle.BoundIsReached`).
* A pass forgets a remembered serial exactly when a device it relocates is gone again by the last listing of that
  same pass (`Relocation.ForgetsExactlyTheLost`, with an instance in `UnplugDuringPassForgets`).
* A serial that a share stores while a pass awaits its pushes survives exactly when the pass has nothing to write or
  reads that serial itself (`Shares.ShareDuringPass`, with an instance in `ShareDuringPassForgets`).
* One record per group, the existence of records' servers and groups, the removal of a record and the listing of
  every persisted node in the host's file hold over runs of whole handlers, not under interleaving (a run for each in
  `Races`); exactly when a step breaks them is in `Interference`.
* The tunnel's next host number is never checked against its /24: an issued address is a host up to 254 and never
  after (`Tunnel.IssuedAddressIsHost`).
* The comment at `client/app/config.py:22` still calls attachments keyed by local port; the code keys them by a generated
  id and re-keys older stores (`Migration`). The model follows the code.
* The server follows the last device listed with a serial and the client the first, so they agree exactly when one
  entry carries it (`Routes.LookupsAgreeExactlyOnOneCarrier`).

## Model

| member | source | states |
|---|---|---|
| Ownership.EveryInterleavingKeepsOwnership | client/app/groups.py:351-549 | Under every interleaving of ticks, pushes, attaches, detaches, edits, drops and restarts, each kernel session is recorded under one attachment id only, in the store and in every suspended snapshot |
| Ownership.OwnershipNeedsOnlyTheKernel | client/app/groups.py:381-435 | One step keeps ownership if and only if the kernel does not reissue a pair still recorded under another id, nor give a late session a recorded one; stale snapshots written back never break it |
| Ownership.UnrecordedPairIsFair | client/app/groups.py:540-545 | A kernel that never hands out a pair any record or snapshot stores under another id meets that condition |
| Ownership.StepRecords | client/app/groups.py:304-323 | The only session a step can newly record is the one its own attach was granted, under the id it was granted for |
| Ownership.LivenessIsExact | client/app/groups.py:534-548 | With a stored local busid the liveness test holds exactly when the port carries this attachment's own session |
| Ownership.PushDetachesItsOwn | client/app/groups.py:498-518 | The port a push detaches carries the session of the record found by busid, and no other record or snapshot names that session |
| Ownership.FirstSystemIsOwned | client/app/groups.py:351-549 | A client with no records starts such a run, whatever sessions the kernel already has |
| Schedules.EveryInterleavingKeepsSchedules | client/app/groups.py:85-106 | Under every interleaving every record, stored or in a snapshot, has a retry time exactly from its third failure on, at its last failure plus the capped delay |
| Sequential.RestoreAloneIsAtomic | client/app/groups.py:351-444 | A restore resumed without interference ends in the state of the whole handler |
| Sequential.TickAloneIsAtomic | client/app/groups.py:534-549 | So does a tick over all records of its snapshot |
| Sequential.PushAloneIsAtomic | client/app/groups.py:463-531 | So does a push, whether found by busid, by serial or not at all |
| Sequential.PushAloneDetachesTheSame | client/app/groups.py:504-512 | And it detaches the same port: the kernel then lacks exactly that session, or is unchanged without one to detach or when the command fails |
| Sequential.GroupAttachAloneIsAtomic | client/app/groups.py:285-334 | So does a user's group attach, with every refusal |
| Sequential.DirectAttachAloneIsAtomic | client/app/main.py:446-513 | So does a user's direct attach, through listing, share and attach |
| Interference.OnePerGroupExactlyIfFree | client/app/groups.py:372-390 | Any step of any coroutine or handler keeps one record per group if and only if the record it writes, if any, is of a group without another record at that moment |
| Interference.ServersExistExactlyIfNamed | client/app/main.py:305-312 | Any step keeps every record's server in existence if and only if the server of the record it writes is registered at that moment |
| Interference.GroupsExistExactlyIfNamed | client/app/main.py:714-721 | Likewise every record's group |
| Interference.ReturnsExactlyIfWritten | client/app/groups.py:428-435 | A record that is not in the store comes to be there exactly by a step that writes it |
| Interference.CoveredExactlyIfListed | client/app/groups.py:200-223 | While keys are distinct, any step keeps the host's file covering every persisted node if and only if the record it writes, if any, was attached and its node found by that step, or has no node, or was listed with it before |
| Interference.PutBackListedExactly | client/app/groups.py:381-387 | A record put back after a failed group attach is listed exactly if it has no node or the file still lists it |
| Separation.SeparateCoroutinesKeepOnePerGroup | client/app/groups.py:372-390 | One record per group under every interleaving in which no coroutine is started while another that concerns one of its groups is in flight |
| Separation.StepKeepsApart | client/app/groups.py:278-334 | Each such step also keeps what that rests on: nothing else is recorded for the groups of a coroutine in flight |
| Separation.QuietSystemIsApart | client/app/groups.py:278-334 | A sound store with no coroutine in flight starts such a run, and one of the next theorem |
| Snapshots.SparedNamesStayValid | client/app/main.py:305-312 | Every record's server and group exist under every interleaving in which none is deleted while a coroutine in flight names it |
| Snapshots.RemovedStaysRemoved | client/app/groups.py:337-348 | A record removed while no coroutine holds a snapshot of it never comes back, under any interleaving |
| Races.TwoRecordsForOneGroup | client/app/groups.py:372-390 | From any state with one dead group record and one candidate, six interleaved steps leave the group with two records |
| Races.StaleEntryIsPutBack | client/app/groups.py:377-387 | When the group has been reattached under a new id meanwhile, a tick's stale entry of it is put back beside the new record |
| Races.RecordOfDeletedServer | client/app/main.py:456-505 | A server deleted while a direct attach to it awaits the device list gets a record |
| Races.RecordOfDeletedGroup | client/app/main.py:714-721 | A group deleted while a user's attach of it awaits the device list gets a record |
| Races.GroupRecordOfDeletedServer | client/app/groups.py:294-323 | The server of a candidate deleted while a user's group attach awaits the device list gets a record: the coroutine goes by the servers it read before |
| Races.DetachedRecordReturns | client/app/groups.py:399-435 | A record detached while a tick awaits the device list for it is written back, with a new session |
| Races.NodeFileForgets | client/app/groups.py:377-387 | The file is rewritten by a direct attach while a tick has popped a record with a node; the record is put back and its node is not listed |
| Runs.RunKeepsSound | client/app/main.py:305-312 | Over every run of whole handlers: servers and groups of all records exist, no group has two records, every record is on schedule, and the host's file covers every persisted node |
| Runs.HandlerKeepsSound | client/app/main.py:678-721 | Each of the fourteen handlers keeps all of that; for the edits this is what their guards are for |
| Runs.FirstStateIsSound | client/app/config.py:14-37 | The state of a new installation has it |
| Runs.TickConservesKeys | client/app/groups.py:372-390 | From any point of a tick on, the stable keys (group id, else attachment id) stay, except those of dead, non-skipped records without auto-failover, though group records change their id |
| Runs.WholeTickConservesKeys | client/app/groups.py:534-549 | The same of the whole tick |
| Registry.RestoreKeeps | client/app/groups.py:351-444 | A restore of a stored record keeps soundness, touches no other record, and leaves its own gone, counted as failed, or back with failures at zero, according to the outcome |
| Attaches.AttachesTheFirstUsable | client/app/groups.py:285-334 | With the group known and unattached: the first candidate that is registered, listed first at its busid as idle, and attaches; one new record, last in order, with the serial listed there, the candidate's label or else the group's name, the group's failover flag, no rebind flag, no actions, the session granted, the time and the node found; failure, and no change, exactly when no candidate can be used |
| Attaches.QualifiesExactlyIfUsable | client/app/groups.py:265-275 | A candidate passes exactly if its server is registered and lists it, the first device at its busid idle, and the attach succeeds; its serial is that device's |
| Attaches.GroupAttachRefuses | client/app/groups.py:286-291 | An unknown group and one with a record are refused, each with its own error, and nothing changes |
| Attaches.GroupComesBackExactlyIf | client/app/groups.py:376-390 | A dropped record of a group comes back exactly if some candidate can be used, as a new record of the first such; the old one is gone |
| Attaches.DirectAttachNeedsDevice | client/app/main.py:456-471 | Without the server, an answer from it, or a device at the busid: refused, each with its own error, and nothing changes |
| Attaches.DirectAttachExactly | client/app/main.py:470-508 | The first device listed at the busid decides: refused in use, shared first if unshared; succeeds exactly if that and the attach do, and then leaves one new record with server, busid, the serial listed, the label given or else the listed one, both flags and the actions as given, the session granted, the time, no failures and the node found |
| Attaches.FailoverAttachmentStays | client/app/main.py:499-505 | A device attached with failover keeps its record, server, serial, label, flags and actions over any ticks that follow |
| Attaches.SearchFindsExactlyTheIdle | client/app/groups.py:447-460 | The search finds a busid exactly if the serial is not empty, the server answers, and the first device listed with it at another busid is idle: that one's busid |
| Restores.DirectComesBackExactlyIf | client/app/groups.py:392-444 | A dropped direct record comes back exactly if its server is registered and the first attach succeeds, or the device is found idle elsewhere and the second does; at the busid and with the session of that attach; else one failure is counted and nothing else changes |
| Restores.RebindIsAskedExactlyIf | client/app/groups.py:114-137 | After a refused restore: a rebind is asked of the record's own server, for the busid just refused, exactly with auto-rebind on and either the sixth failure, or a busy error in the first 180 seconds for an id not asked for yet; the one-shot set grows in the second case only |
| Restores.BusyExactly | client/app/groups.py:109-111 | An error is busy exactly if those four letters follow one another in it, in whatever case |
| Restores.ExportedIsBusy | client/app/groups.py:109-111 | The refusal of an exported device is one |
| Outcomes.PushByBusid | client/app/groups.py:501-518 | A push concerns the first record of that server and busid; it detaches that record's port exactly if the port is occupied and the stored local busid is absent or the one there, no other port, and restores the record |
| Outcomes.PushBySerial | client/app/groups.py:520-529 | With no record there, a push with a serial concerns the first record of it whose session is gone; it detaches nothing, stores the new busid and restores the record |
| Outcomes.PushOfUnknown | client/app/groups.py:520-531 | Else it does nothing; records whose session is still there are left alone |
| Outcomes.DetachRemovesExactly | client/app/main.py:620-635 | A detach removes exactly the record and its node from the host's file, when the command succeeds |
| Outcomes.GroupDetachRemovesExactly | client/app/groups.py:337-348 | So does a group's detach with the record of the group |
| Outcomes.StartRefreshesExactlyTheLive | client/app/groups.py:226-255 | A start empties the one-shot set and stores the node found in exactly the records whose port is occupied |
| Registry.KeysDiffer | client/app/groups.py:210-216 | The keys under which nodes are persisted name one record each |
| Registry.SyncCovers | client/app/groups.py:210-223 | After rewriting, the host's file lists every persisted node with its own numbers |
| Registry.SyncForgetsTheRest | client/app/groups.py:210-223 | And no key that no record has a node for |
| Registry.BootRecreatesEveryNode | client/app/usbip_client.py:411-457 | What is read back from the rendered file at boot includes every persisted node, with mode, owner and device numbers |
| Attention.TickAttendsToAll | client/app/groups.py:534-549 | Every record stored when a tick starts is left alone if live or backing off, else tried (its failure counted and noted, with at most a rebind request to its own server for the busid just refused, or its attachment back and that noted) or given up, whatever happens to the others |
| Attention.TickVisits | client/app/groups.py:537-549 | A tick visits each record of its snapshot as it was read, and the other visits of the tick leave the record, its servers and groups, its place in the one-shot set and its part of the trace alone |
| Attention.NoneAbandoned | client/app/groups.py:153-160 | On any schedule of ticks no further apart than `interval`, a dead record with auto-failover, direct or of a group, is untouched until it is tried again, within 1800 seconds plus `interval` of its last failure |
| Attention.FailoverRecordStays | client/app/groups.py:372-374 | No tick removes a direct record with failover on, nor changes its server, serial, label, flags or actions |
| Attention.TicksAreFailingVisits | client/app/groups.py:85-106 | Over ticks none of which brings it back, a dead record goes through exactly the failing visits of `Backoff.AfterVisits` |
| Attention.TicksSpreadFailuresOut | client/app/groups.py:93-99 | So over any such schedule the n-th failure comes at least `LeastSpan(n)` seconds after the third |
| Backoff.FailureKeepsSchedule | client/app/groups.py:85-106 | Counting or clearing a failure keeps a record on schedule |
| Backoff.OnlyTheCountChanges | client/app/groups.py:85-106 | A failure adds one to the count and notes the time, a success clears count and retry time; no other field changes |
| Backoff.DelayIsMonotone | client/app/groups.py:46-48 | The delay never shrinks and stays in 60..1800 |
| Backoff.DelayValues | client/app/groups.py:93-99 | 60, 120, 240, 480, 960, then 1800 for good |
| Backoff.FailuresSpreadOut | client/app/groups.py:153-160 | Over a run of failing visits the n-th failure comes at least 60*(2^(n-3)-1) seconds after the third up to n = 8, and 1860+1800*(n-8) beyond |
| Backoff.RetriedInTime | client/app/groups.py:153-160 | The first visit not skipped comes within 1800 seconds and one interval of the last failure |
| Rebinds.RebindsAreRationed | client/app/groups.py:114-150 | Over every run of whole handlers: at most one six-failure rebind since the last successful reconnect, at most one startup rebind per process; so since that reconnect two in all, and one more for each start of the process in between |
| Rebinds.HandlerKeepsBound | client/app/groups.py:114-150 | Each handler keeps the counts and what they rest on: an asked-for record keeps six failures, the one-shot set remembers |
| Rebinds.NothingAskedAtFirst | client/app/groups.py:57-72 | A new installation starts such a run |
| Rations.EveryInterleavingRationsRebinds | client/app/groups.py:114-150 | The same under every interleaving of coroutines, handlers, drops and restarts |
| Rations.StepKeepsFit | client/app/groups.py:381-387 | Each step keeps what that rests on: only direct attachments are ever counted against, and only group records are put back with an older count |
| Rations.FirstSystemFits | client/app/groups.py:57-72 | A new installation starts such a run |
| Recovery.RecoversInTime | client/app/groups.py:85-140 | Over whole ticks of the whole store: with a stale export the only obstacle, and only a request to the record's own server for its own busid clearing it, a direct attachment with both automatic options is back by its seventh attempt and within 900 seconds plus six intervals of its first failure |
| Recovery.TickIsVisit | client/app/groups.py:534-549 | For one direct record, and the device it is about, a tick amounts to one visit, whatever the visits to the other records do |
| Recovery.StaleVisit | client/app/groups.py:399-435 | While the export is stale an attempt fails and is counted; after the sixth the server's device is idle |
| Recovery.BusyAtStartupClears | client/app/groups.py:126-140 | A first busy refusal within 180 seconds of the start clears the export, unless this process has done so for this record |
| Recovery.ClearVisit | client/app/groups.py:399-435 | Once it is cleared the next attempt succeeds and zeroes the failures |
| Devices.RebindClearsTheExport | server/app/main.py:454-487 | Unbind then bind succeeds on exactly the shared devices and leaves them idle, whoever held the export |
| Devices.SamePlacesLookup | server/app/main.py:102-105 | The two device lookups depend only on busids and serials of a listing |
| Routes.RoutesAgree | client/app/groups.py:399-460 | With unique serials, the device bound or not: the pass tracks it at its new busid, binds and pushes it, and the client's record ends at that busid by the push and by its own search of the listing it fetches |
| Routes.ServerLeadsTo | server/app/main.py:105-118 | A pass moves the share of a missing device to the busid its serial is at, whatever its status there and whatever the last listing |
| Routes.ServerPushes | server/app/main.py:136-158 | The pass pushes the new busid with the device's serial if and only if it needed binding there and the next listing shows it shared |
| Routes.PushLeadsTo | client/app/groups.py:520-529 | A push with the new busid and a known serial moves the record there |
| Routes.GroupRecordIsFoundBySerial | client/app/groups.py:310-316 | The serial a group attach stores is what a later push finds its record by, once its session is gone and the device is elsewhere |
| Routes.SearchLeadsTo | client/app/groups.py:447-460 | A refused attach followed by a successful search moves the record there |
| Routes.LookupsAgreeExactlyOnOneCarrier | client/app/groups.py:447-460 | For every listing, the server's lookup of a serial and the client's find one busid if and only if exactly one entry carries it |
| Routes.RoutesAgreeExactlyOnOneCarrier | server/app/main.py:105-118 | So the rename and the search, where both come to a result, agree exactly then |
| Routes.DuplicateSerialsDisagree | client/app/groups.py:453-460 | On any listing with two entries of the serial they do not |
| Routes.ReconnectPreserves | client/app/groups.py:399-436 | A direct reconnect keeps id, server, serial, label, flags and actions, clears the failure state, and ends at the busid stored or the one found idle elsewhere |
| Client.Process.NoteReconnectFailure | client/app/groups.py:85-106 | Counts the failure and schedules the retry as `FailureNoted`; returns the old count plus one, 0 for a record that is gone |
| Client.Process.MaybeForceRebind | client/app/groups.py:114-140 | Asks the record's server for a rebind of the given busid exactly with auto-rebind on and either the sixth failure, or a busy error early in the process for a record not asked for yet |
| Client.Process.NoteReconnectSuccess | client/app/groups.py:143-150 | Clears the failure state of the stored record |
| Client.Process.UpdateNodeForPort | client/app/groups.py:182-207 | Persists the node, then rewrites the host's file from the whole store |
| Client.Process.CollectNodes | client/app/groups.py:210-216 | The persisted nodes by key, a later record winning |
| Client.Process.SyncTmpfilesConf | client/app/groups.py:219-223 | The host's file becomes those nodes and nothing else changes |
| Client.Process.RestorePersistedNodes | client/app/groups.py:226-255 | At process start the one-shot set is empty, live records have their node refreshed, and the file is rewritten |
| Client.Process.AttachGroup | client/app/groups.py:285-334 | The loop over candidates computes `GroupAttach` (see `Attaches.AttachesTheFirstUsable`), with its result, and keeps the registry sound |
| Client.Process.DetachGroup | client/app/groups.py:337-348 | Drops the group's record when the detach command succeeds |
| Client.Process.RestoreDirectly | client/app/groups.py:392-444 | Attach, search by serial, attach again; the record, counts and rebind request of `RestoreDirect` |
| Client.Process.RestoreDropped | client/app/groups.py:351-444 | Give up, pop and reattach the group (put back on failure), or restore directly, as `Restore`; keeps the registry sound for a record as stored |
| Client.Process.ReconnectDevice | client/app/groups.py:463-531 | The record found, the port force-detached first, and the outcome, as `Pushed` (see `Outcomes.PushByBusid`); keeps the registry sound |
| Client.Process.WatchdogTick | client/app/groups.py:534-549 | The loop over the snapshot computes `Ticked`, keeps the registry sound and conserves the stable keys but those given up |
| Client.Process.ApiDirectAttach | client/app/main.py:446-513 | Each refusal and the record stored on success, as `DirectAttach` (see `Attaches.DirectAttachExactly`); keeps the registry sound |
| Client.Process.ApiDetach | client/app/main.py:620-635 | Drops the record when the detach command succeeds |
| Client.Process.ApiUpdateAttachment | client/app/main.py:597-617 | Label, both flags and actions of an existing record become those given; every other field, record and the order stay |
| Client.Process.ApiDeleteServer | client/app/main.py:305-312 | Removed exactly if no record refers to the server, and then nothing else is |
| Client.Process.ApiCreateGroup | client/app/main.py:650-675 | Stored exactly with a name, a candidate and every candidate's server registered |
| Client.Process.ApiUpdateGroup | client/app/main.py:678-711 | As above, and only for an existing group without a record |
| Client.Process.ApiDeleteGroup | client/app/main.py:714-721 | Removed exactly if no record belongs to the group |
| UsbipClient.Attach | client/app/usbip_client.py:62-105 | Succeeds exactly when the command does and some poll shows a port the snapshot lacked; takes the lowest such port of the first such poll, which is its own session if nobody else attaches; else says what failed, with the command's output |
| UsbipClient.LivePortMap | client/app/usbip_client.py:155-159 | Its entries are listed ports, and every listed port is in it |
| UsbipClient.LastListedWins | client/app/usbip_client.py:155-159 | Of several entries on one port the last one counts |
| UsbipClient.TmpfilesHost.WriteConf | client/app/usbip_client.py:411-457 | The file's text is the rendering after every success, unchanged otherwise, and rewritten only when it differs |
| UsbipClient.TmpfilesHost.Lines | client/app/usbip_client.py:430-447 | The appended lines are the header and the block of each key in sorted order |
| UsbipClient.RenderDecodes | client/app/usbip_client.py:430-457 | Read back line by line, the text yields exactly the rendered node map: octal mode, uid, gid and major:minor under each key |
| UsbipClient.EqualTextEqualEntries | client/app/usbip_client.py:448-457 | Equal text means equal entries, so skipping the rewrite is sound |
| Shares.Server.FindRenames | server/app/main.py:110-118 | The renames, in list order: exactly the tracked busids that are empty and whose remembered serial is at an untracked busid |
| Shares.Server.ApplyRenames | server/app/main.py:120-133 | Moves share and label of each rename, in one write |
| Shares.Server.BindAll | server/app/main.py:136-158 | Binds, in the order of the list as the pass read it, all busids when forced, else those the listing does not show as idle or in use; pushes those then shown so, with the serial read then; nothing when all are |
| Shares.BoundExactly | server/app/main.py:136-141 | Bound are exactly the tracked busids when forced, else those where the listing has no device or shows the last one there neither idle nor in use |
| Shares.PushedExactly | server/app/main.py:152-156 | A busid is pushed with a serial exactly if it was bound and the last device the next listing shows there is idle or in use and has that serial |
| Shares.SelectKeepsOrder | server/app/main.py:434-451 | What the bind loop binds and what an unshare keeps is read off the list in its order |
| Shares.Server.RefreshSerials | server/app/main.py:160-171 | Of the busids the pass tracks, what the last listing reads wins and what the pass had read as remembered stays; written over whatever is stored by then, only on a difference |
| Shares.ShareDuringPass | server/app/main.py:160-171 | A serial shared meanwhile survives that write if and only if there is nothing to write or the pass reads the same serial |
| Shares.ShareDuringPassForgets | server/app/main.py:160-171 | Such a loss occurs: the pass drops a stale serial, and the new one with it |
| Shares.Server.EnsureBound | server/app/main.py:79-171 | The whole pass: the book left stored, the binds by the listing after any renames, the pushes and the number of writes; a watchdog pass over shared devices binds and pushes nothing |
| Shares.Server.Share | server/app/main.py:411-431 | The list becomes ascending and without duplicates, with exactly the busid added; the serial is remembered if there is one, every other one and the labels stay |
| Shares.Server.Unshare | server/app/main.py:434-451 | Removes exactly the busid, keeps the order of the rest and the list free of duplicates; remembered serials and labels stay |
| Relocation.RenamesAreDisjoint | server/app/main.py:110-118 | Old and new busids of a pass are disjoint, the old tracked, the new not |
| Relocation.AppliedShares | server/app/main.py:120-129 | Applying renames leaves (shared minus old) plus new, without duplicates, in any order of renames |
| Relocation.AppliedInOrder | server/app/main.py:120-128 | With no busid renamed or hit twice the list is what stays, in its order, then the new busids in the order of the renames |
| Relocation.RenamesDistinct | server/app/main.py:110-118 | With distinct remembered serials no busid is renamed twice and none is the target of two renames |
| Relocation.AppliedLength | server/app/main.py:120-129 | Then the list keeps its length |
| Relocation.AppliedLabels | server/app/main.py:129-132 | The multiset of labels is conserved, always |
| Relocation.LabelFollowsDevice | server/app/main.py:129-132 | After a pass the label of a device that has moved is at its new busid and no longer at the old one, unless the new one had its own, and then both stay |
| Relocation.SecondPassChangesNothing | server/app/main.py:100-171 | With devices and serials where they were, a second pass renames nothing and leaves the stored book as it is |
| Relocation.ForgetsExactlyTheLost | server/app/main.py:160-171 | A pass keeps every remembered serial if and only if no device it relocates is gone again by its last listing |
| Relocation.UnplugDuringPassForgets | server/app/main.py:136-171 | Such a loss occurs: unplugged while the pass awaits its notifications |
| Relocation.PassKeepsSerials | server/app/main.py:100-171 | A pass during which devices may come and go, as long as none it relocates is gone by its last listing: the tracked serials grow by those read for the first time and lose none |
| Relocation.RunKeepsSerials | server/app/main.py:100-171 | Over every run of such passes, with replugs between and during them, no tracked serial is forgotten however long its device is away; if every tracked busid had one the set never changes |
| Relocation.SteadyRunFits | server/app/main.py:100-171 | A run in which devices come and go only between passes meets that condition |
| Relocation.HandlersKeepDistinct | server/app/main.py:411-451 | Over every run of passes, shares and unshares no busid is tracked twice |
| Relocation.HandlerRemembers | server/app/main.py:411-451 | A pass, share or unshare stops following exactly the serial of a busid unshared or shared anew with another device, and starts following exactly what it reads anew |
| Relocation.OnlyDroppedSerialsAreForgotten | server/app/main.py:411-451 | Over every run of passes, shares and unshares a tracked serial is forgotten only by an unshare of its busid or a share of that busid with another device |
| Relocation.ReturningDeviceIsTracked | server/app/main.py:105-118 | After a pass a device whose serial is remembered is tracked at the busid its first listing shows, whatever happens while it runs; its serial is remembered there if the last listing reads it |
| Tunnel.Registry.Register | server/app/main.py:593-646 | Each refusal by its condition; a known key changes nothing; otherwise the saved peer with the next host number's address, all other peers kept, also when applying it fails |
| Tunnel.AddressesDiffer | server/app/main.py:617-620 | Different host numbers give different address strings |
| Tunnel.RunKeepsAllocation | server/app/main.py:612-627 | Over every run addresses of different clients differ, each is that of a host number below the next one, which never goes back |
| Tunnel.OthersKeepTheirPeers | server/app/main.py:616-627 | Over every run a client keeps key and address through the registrations of others |
| Tunnel.ReregisteringIsIdempotent | server/app/main.py:612-616 | The same key registered again stores nothing |
| Tunnel.IssuedAddressIsHost | server/app/main.py:617-620 | An issued address is a host of its /24 if and only if its number is at most 254 |
| Tunnel.EveryPeerHasAHost | server/app/main.py:612-627 | Up to that number, over every run, every client's address is a host of the subnet and not the server's own stored address |
| Tunnel.DottedPoolIsConfigured | server/app/config.py:47-54 | An empty pool over `a.b.c.0` with the server at `a.b.c.1` and the next host 2 starts such a run |
| Tunnel.FirstPoolIsConfigured | server/app/config.py:47-54 | So does the pool of a new installation |
| LoginThrottle.Throttle.Check | common/webauth.py:27-35 | Admits exactly if fewer than the maximum of all failures since the reset are younger than the window, though it stores only the pruned list |
| LoginThrottle.Throttle.RecordFailure | common/webauth.py:37-38 | Adds to the key's history and keeps the pruned list as good as the full one |
| LoginThrottle.Throttle.Reset | common/webauth.py:40-41 | Forgets one key's history |
| LoginThrottle.PruningIsInvisible | common/webauth.py:27-30 | Pruning never drops an attempt that a later check would count |
| LoginThrottle.WindowHoldsAtMost | client/app/main.py:215-228 | With `k` requests between check and record, no window holds more than `max - 1 + k` failures between resets |
| LoginThrottle.FiveInFiveMinutes | common/webauth.py:21-41 | Without overlap no 300 seconds hold more than five |
| LoginThrottle.BoundIsReached | client/app/main.py:215-228 | The bound is exact: some run reaches it |
| ConfigStore.Store.Write | common/config_store.py:26-36 | At every point of failure the file reads as the complete old or the complete new data; no other file changes |
| ConfigStore.Store.Read | common/config_store.py:38-54 | Exactly the keys of the file and of the defaults, the file's value winning; an unreadable file reads as the defaults |
| ConfigStore.Store.Update | common/config_store.py:56-61 | One locked read, change and write; a mutator that raises leaves the disk alone |
| ConfigStore.BackfillOnlyMissing | common/config_store.py:46-50 | Defaults never overwrite a key that is there |
| ConfigStore.UpdatesAreAFold | common/config_store.py:38-61 | Any sequence of updates with any faults leaves the file as it was or as the fold of the mutators over the first value, backfilled once |
| Migration.Registry.Migrate | client/app/main.py:39-61 | The loop stores the re-keyed records when some record has no id, and else leaves the store alone |
| Migration.EveryRecordKeepsItsPlace | client/app/main.py:39-61 | No record is lost, merged, reordered or altered; those without an id get one and keep the old key as their port |
| Migration.MigratingTwiceIsMigratingOnce | client/app/main.py:39-61 | Afterwards every record has an id and a second migration yields the same store |

## Left out

- HTTP, authentication, sessions, templates and validation of request fields; the bodies are already parsed values.
- Restart actions, event logs, Proxmox, Docker and the `usbipd` supervisor: effects that nothing reads back.
- Placing nodes on the file system and finding a device's paths; only the persisted node is modelled.
- ISO timestamp strings: times are integers, and the clock is a parameter.
- Ports are numbers and the listing's parsing is not modelled; nor are colliding numbers of several vhci controllers.
- Ownership.LivenessIsExact: does not cover records without a stored local busid, for which the code looks at the port alone.
- User and group detach go by port number alone (`client/app/main.py:628`, `client/app/groups.py:344`), so no ownership is claimed of them.
- Ownership.PushDetachesItsOwn: judges by the port map of the moment of the push; a session that changes between the listing and the detach command is not modelled.
- Shares.Server.EnsureBound: states a pass that no other server handler interrupts; of interruptions only a share's effect on the serials is stated (`Shares.ShareDuringPass`).
- Attention.NoneAbandoned: is about schedules of ticks only; a push or an edit in between is not part of its run.
- Recovery.RecoversInTime: the device answers to this record's own effects; rebinds or attaches of the same device by another record or client are not part of it, and the push that the rebind endpoint sends to clients (`server/app/main.py:484-486`), which can bring the record back before the next tick, is not delivered.
- Registry.Covered: speaks of runs in which every write of the tmpfiles.d file succeeds; under interleaving the exact condition of each step is stated, and no condition on whole runs.
- UsbipClient.RenderDecodes: the wording of the header lines is a parameter, required only to be comments and one directory line; keys and targets contain no blank or line break.
- Loss of power after a rename and the JSON encoding itself: a renamed file is durable and parses back to what was dumped.
- Tunnel.RunKeepsAllocation: the stored peers only; the live interface may still hold an old key after a client registers a new one.
- Relocation.RunKeepsSerials: needs that no different device is read at a tracked busid, which the code takes to be the tracked one; with shares and unshares between the passes see `OnlyDroppedSerialsAreForgotten`.
- Dropping a server's tunnel settings when it is edited, labels set by hand, and the other endpoints that only read.
