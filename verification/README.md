# Verified model of the storage tier and the host monitors

This project models the parts of the repository whose correctness lies in the order of durable steps, and
proves what they promise. Each Python class or command that changes state in place is a Dafny class or method
over the same fields; pure helpers are functions. `dafny verify dfyconfig.toml` checks everything.

**Relocation** (`storage/cold-tier.py`: `migrate`, `recover_published`, `abort_unpublished`). A relocation works
on a namespace of top-level names, a journal and a ledger row. The original tree is one node that moves between
names, the verified copy another. Every durable operation is one call of `RelocationHost.Host.Do`; before it the
writers of the original may act, and the operation may be done, raise, or never happen because the process died.
The host records every durable state it was in, so a statement about each recorded state is a statement about a
crash between any two durable operations; and it records what the processes saw of the writers, so that a deletion
can be held against what its own process had drained and scanned.

| file | what it holds |
|---|---|
| `LinkRewrite.dfy` | the symbolic-link rewriter |
| `RelocationModel.dfy` | namespace, journal, ledger row, and what every durable state must satisfy |
| `RelocationHost.dfy` | the machine, its writers and its crashes |
| `RelocationMove.dfy` | copy, comparison, flush and the first late check |
| `RelocationPublish.dfy` | publication: mirror slot, source, physical name, aliases |
| `RelocationFinish.dfy` | the second late check, retirement, restore, clean-up |
| `Relocation.dfy` | one whole move |
| `RelocationRecovery.dfy` | recovery, abort, and whole histories |

**Routes** (`DefaultRoute.dfy`, `DefaultRouteRun.dfy`, `RouteMap.dfy`). One parent's journaled route transaction
with its recovery, in the same style; and the cached rewriting of private backing names, as a run of writes,
commits, rollbacks, savepoints and other connections' commits.

**Retention** and **pacing** (`ReadBudget.dfy`). The watcher's event loop, admission of roots, restart and the
collector; the read throttle.

| file | what it holds |
|---|---|
| `Retention.dfy` | the ledger's rows and activity with the queues, and what each step does to them, as values with their history |
| `RetentionWatch.dfy` | the watcher object; each method does what the step does |
| `RetentionProof.dfy` | every event that was read is on record, still waits, or came before the root's period began |
| `RetentionHeard.dfy` | which events a round reads, and that later deletions have seen them |
| `RetentionRuns.dfy` | whole runs |
| `RetentionGaps.dfy` | exactly when a period outlives its watches, and a run in which a file is deleted under such a period |

**Watchdog** (`WatchdogModel.dfy`, `WatchdogStep.dfy`, `Watchdog.dfy`, `WatchdogProof.dfy`, `WatchdogRuns.dfy`,
`WatchdogFacts.dfy`, `WatchdogFailures.dfy`). One process over its state file, heartbeat file and archive; each durable write is done,
fails before it takes effect, or fails after. The steps on values, the object, what each step keeps, whole runs, what
checks, heartbeats and restarts do in terms of the clocks, and the cases in which the archive gets out of order.

**Reference broker** (`ReferenceModel.dfy`, `ReferenceProof.dfy`, `ReferenceCap.dfy`, `ReferenceBroker.dfy`). The
report over a process table as a function without memory, what a complete report means, and the loops with their
bounded memory tables proved equal to it.

**Pressure guard** (`PressureGuard.dfy`, `PressureRuns.dfy`, `Eligibility.dfy`, `EligibilityRules.dfy`). The sampling
and signalling machine with the log of its effects; what that log says of the scans and looks of a run; the eligibility
decision from a whole table and from a focused look, and who it admits.

**Disk scan** (`DiskScan.dfy`, `DiskScanProof.dfy`, `DiskScanner.dfy`) and **incidents** (`AlarmHistory.dfy`,
`IncidentModel.dfy`, `IncidentEngine.dfy`, `IncidentShows.dfy`, `IncidentRuns.dfy`, `IncidentFacts.dfy`). The resumable
scan as a step function and as an object; the alarm law of a sample history, the rule engine's steps, the engine, and
what it shows and has on file after any run.

Assumed of the system: `renameat2` exchanges two names atomically, a JSON file is replaced atomically, SQLite's
commit generation and change counter behave as documented, a digest distinguishes contents, the monotonic clock
does not run back on one boot, and a process number is only ever taken over by a later-started process.

## Where the code and its promises part

Each of these is proved, with the exact condition under which the promise holds and an input for which it fails.

- The watchdog's archive can get out of order: the state file still holds an opening, its archived copy has been
  pruned, and an escalation archived while the state file could not be written has not. `WatchdogFailures.MisorderedRun`
  is such a run of a new watchdog, on a host that is suspended for eight days. Replaying keeps the order exactly when
  the pending event is remembered or nothing as late of its outage is retained (`WatchdogModel.ReplayOrdered`). For a state file that is not behind the archive the
  exact condition is that a pending event which is archived is remembered (`WatchdogFailures.ReplayExact`), and files
  that hold one event more than is remembered can fail it (`WatchdogFailures.FullMemory`). A restart reads the current
  archive file last, so when a failed write of the state file ends the process the condition holds in every run, however
  long the archive (`WatchdogRuns.LiveOrDie`).
- A root that is walked again can keep its quiet period although its watches were away in between: exactly when its
  watched paths are unchanged, there is something to watch, the walk succeeds and no event is lost meanwhile
  (`RetentionGaps.KeptExactly`). `RetentionGaps.PeriodOutlivesWatches` is a run that deletes a file within the
  retention period of such a moment. Under any other period the root's watches have been in place since before it
  began (`RetentionProof.Justified`, clause on `kept`).
- A linked file whose own name ends in the kernel's deleted marker is missed exactly when another directory of the same
  device is mounted at the name without the marker and nothing else shows the candidate (`ReferenceProof.InspectMisses`).
  Every such reference is missed by a report that calls itself complete (`ReferenceProof.ShadowedMissed`), and there is
  one (`ReferenceProof.ShadowReport`). Every other linked reference is caught (`ReferenceProof.ReportSound`).
- An incident that opens on warnings shows a critical severity exactly when its kind, boot and first time stamp name a
  closed critical incident's file (`IncidentRuns.StepExact`, `IncidentRuns.RunExact`); three snapshots with a clock that
  steps back do it (`IncidentRuns.RepeatedTimestamp`). With time stamps distinct within each boot every incident shows
  exactly what its history says (`IncidentRuns.RunShows`), and whatever the clock says it is open exactly when its
  history says so (`IncidentRuns.RunFollows`).

## Model

| member | source | states |
|---|---|---|
| LinkRewrite.InsideKeepsPlace | storage/cold-tier.py:1095-1102 | a relative link target that never climbs above the unit is copied unchanged and denotes the same relative place under the destination |
| LinkRewrite.OutsideKeepsMeaning | storage/cold-tier.py:1095-1102 | any other link target, one that climbs out or is absolute, denotes its original lexical absolute path after the copy |
| LinkRewrite.StaysExactly | storage/cold-tier.py:1095-1102 | a relative target counts as inside exactly when following it step by step never leaves the unit |
| RelocationModel.SafeServes | storage/cold-tier.py:1338-1552 | in a safe durable state every name that led to the original at admission leads to the untouched original or to the compared and flushed copy |
| RelocationModel.PhaseDecides | storage/cold-tier.py:1438-1504 | a journal phase before publication means no public name has changed; "published" means source and aliases lead to the destination |
| RelocationModel.CopyMeans | storage/cold-tier.py:1360-1425 | the copy that is accepted has the names of the manifest and no other, files and directories with all that is recorded of them, and links that name the same places |
| RelocationModel.DeletedIsCopied | storage/cold-tier.py:1240-1260 | every name of the original that has been deleted was last seen with what the copy has: a file with the same data, a directory, or a link to the same place |
| RelocationHost.GroundMeans | storage/cold-tier.py:1505-1510 | deletions rest on what a drain showed only if the very next look was a scan that found no holder |
| RelocationHost.Host.Do | storage/cold-tier.py:603-610 | one durable operation: the new state is recorded and safe, or nothing changed; it deletes of the original only what a drain had shown and a scan had then found unheld, and the last of it only after all of that |
| RelocationMove.AcceptedIsCopy | storage/cold-tier.py:1407-1425 | a copy that passes the digest and metadata comparison is the admitted manifest with its links rewritten |
| RelocationMove.Compare | storage/cold-tier.py:1386-1425 | comparison succeeds only on a staging tree that equals the copy of the admitted manifest |
| RelocationMove.StillQuiet | storage/cold-tier.py:1431-1437 | the first late check passes only when writers had not changed the original since admission as the events were drained, and the scan after that found no holder; undisturbed it passes |
| RelocationMove.CopyAndVerify | storage/cold-tier.py:1360-1438 | ends in a verified, flushed, unpublished copy, every durable state on the way safe; undisturbed, a complete transfer always gets there |
| RelocationPublish.PublishMirror | storage/cold-tier.py:1440-1453 | the mirror slot is filled by one exchange after its record is saved; before that nothing is published, after a failure both copies stay |
| RelocationPublish.PublishSource | storage/cold-tier.py:1454-1471 | the public name is exchanged for a link to the copy and the original parked; interruptions keep both |
| RelocationPublish.PublishOriginal | storage/cold-tier.py:1474-1486 | a demotion's physical name becomes an alias and the original its retired entry |
| RelocationPublish.PublishAliases | storage/cold-tier.py:1487-1493 | every alias is replaced in place by a link to the destination |
| RelocationPublish.AliasLeads | storage/cold-tier.py:1491-1492 | an alias straight to the original passes the check until it is replaced |
| RelocationPublish.SavePublished | storage/cold-tier.py:1494-1504 | the published record is saved only when source and all aliases lead to the destination |
| RelocationFinish.LateCheck | storage/cold-tier.py:1505-1510 | passes exactly when the events drained show that writers have not changed the admitted original, and the scan that follows finds no holder |
| RelocationFinish.RemoveRetired | storage/cold-tier.py:1156-1177 | deletes name by name, in any interruptible order, what the tree held at the last drain and was compared equal; the tree itself goes only when every name it held then has been deleted |
| RelocationFinish.FinishMove | storage/cold-tier.py:1520-1537 | retires row, original, leftovers and journal; the row then names the archive: its target holds the copy, its location is the archive with no hot path, and source and exactly the aliases on record lead to the target |
| RelocationFinish.FinishRestore | storage/cold-tier.py:1511-1519 | a restore keeps the original at its cold place and the row names it |
| RelocationFinish.FinishedArchived | storage/cold-tier.py:1520-1537 | a finished move has a row whose target is in the namespace and holds the copy, without a hot path; source and exactly its aliases lead to that target |
| RelocationFinish.CleanUp | storage/cold-tier.py:1539-1552 | a failed unpublished move leaves every admitted name untouched |
| Relocation.Migrate | storage/cold-tier.py:1287-1552 | every durable state of any run, in any mode, with any writers and any crash, is safe and accounts for what it deletes; until the first drain and scan have passed every name is untouched; until the second have, the original is kept, and from the second drain on so are the copy and the journal; a move that finishes has seen both drains find the admitted original and both scans no holder, and leaves a row that names the archived copy, or for a restore the original at its cold place; an undisturbed move finishes |
| RelocationRecovery.NeverBoth | storage/cold-tier.py:1212-1241 | recovery and abort never both accept a state, and neither accepts "verified" or "mirror-publishing" |
| RelocationRecovery.PublishedIsAccepted | storage/cold-tier.py:1212-1241 | every published state of a move that is not a restore passes recovery's guards, however far retirement got |
| RelocationRecovery.CompareRetired | storage/cold-tier.py:1240-1260 | whatever writers do, it passes only with a scan that found no holder before and after, and with survivors that are what the tree held at the drain of its guard, less what is gone, none of which diverges from the copy in kind, data or link; undisturbed, exactly then |
| RelocationRecovery.Recover | storage/cold-tier.py:1200-1284 | interrupted or not, while the original is there it changes nothing unless it has itself compared all that survives, found no file of other data, no entry of another kind and no link to another place, and found it unheld; when it finishes all of that has been deleted, and its row names the archived copy; undisturbed, a diverged survivor makes it raise with the disk unchanged |
| RelocationRecovery.Abort | storage/cold-tier.py:1555-1573 | refuses any other phase untouched, otherwise drops only the staging tree and keeps the source; undisturbed it finishes |
| RelocationRecovery.UnpublishedIsAborted | storage/cold-tier.py:1555-1566 | abort takes over exactly the unpublished moves that are no restores and whose journal still names the staging tree, if the ledger does not |
| RelocationRecovery.History | storage/cold-tier.py:1200-1573 | any sequence of interrupted commands after an interrupted move stays safe, accounts for every deletion of the original by its own process's drain and scan, and leaves recovery accepting exactly the published moves that are not restores |
| RelocationRecovery.Converge | storage/cold-tier.py:1200-1284 | undisturbed recovery of an unwritten original ends in the namespace of the uninterrupted move, with a row whose target holds the copy and to which source and exactly its aliases lead |
| DefaultRoute.ChainLeads | storage/cold-tier.py:930-935 | in every state of a route transaction a public chain leads to the former directory or to the bridge |
| DefaultRoute.SourceLeads | storage/cold-tier.py:930-935 | before an exchange the public path still leads to the former directory |
| DefaultRouteRun.BuildAside | storage/cold-tier.py:975-983 | a bridge that was a link is replaced by a directory that already covers every child |
| DefaultRouteRun.PrepareBridge | storage/cold-tier.py:973-988 | undisturbed, succeeds exactly when the bridge can be made, and leaves it ready to fill |
| DefaultRouteRun.FillBridge | storage/cold-tier.py:989-996 | every non-temporary child gets an entry that does not lead back through the public path |
| DefaultRouteRun.Expose | storage/cold-tier.py:999-1003 | the public path leads to the bridge after one exchange |
| DefaultRouteRun.Recover | storage/cold-tier.py:926-955 | no journal and no staging name is left, the public path leads where it did, and either the ledger names the bridge it leads to, complete and with the former directory in `previous`, or the ledger is as it was |
| DefaultRouteRun.Quiescent | storage/cold-tier.py:926-955 | a safe state without a journal is settled already |
| DefaultRouteRun.ResolvedEnds | storage/cold-tier.py:926-955 | a transaction that is over has routed its parent exactly if the chain of links from the public path ends at the bridge, and nothing else differs from the start |
| DefaultRouteRun.Route | storage/cold-tier.py:958-1004 | every durable state is safe, so a bridge is exposed only when complete; a committed route names the bridge, keeps the former directory in `previous` and every entry the bridge had that did not lead back |
| DefaultRouteRun.Survive | storage/cold-tier.py:926-1004 | a route and any recoveries, all interrupted anywhere, then one recovery: nothing is left over, and the parent is routed or as it was, as its public path says |
| RouteMap.AnswersOrbit | storage/cold-tier.py:860-867 | a path is answered exactly when 31 rewrites lose every backing name, and the answer is where they lead |
| RouteMap.Idempotent | storage/cold-tier.py:860-867 | an answered path has no backing prefix, so asking again returns it |
| RouteMap.ReadMap | storage/cold-tier.py:852-857 | the parsed map holds the first source of every backing name |
| RouteMap.Rewrite | storage/cold-tier.py:860-867 | the longest-prefix loop answers as rewriting straight from the rows does, in at most 32 rounds |
| RouteMap.Store.LogicalSource | storage/cold-tier.py:838-867 | a cached call answers as uncached rewriting by the default routes and then the aliases of rows visible during the call |
| RouteMap.Store.Run | storage/cold-tier.py:838-867 | so does every call of every run of writes, rollbacks, savepoints and other connections' commits |
| Pacing.ReadBudget.Account | storage/cold-tier.py:300-306 | one call adds its own bytes to the debt, forgets unused allowance beyond 1 MiB, and returns the least sleep that ends with no debt |
| Pacing.WindowBound | storage/cold-tier.py:297-306 | the bytes of any window of calls are at most rate times its time plus 1 MiB, for any clock readings |
| Pacing.ReadBudget.Digest | storage/cold-tier.py:307-320 | reading a file block by block keeps that bound for every window |
| Pacing.SlowReaderNeverWaits | storage/cold-tier.py:300-306 | a call has no wait exactly when the allowance unused at its first clock reading, at most 1 MiB, and what the rate allows until its second reading cover the block; so a reader slower than the rate never waits |
| RetentionWatch.Watcher.Consume | storage/cold-tier.py:1769-1807 | one call does to the watcher what `Consumed` does to its value |
| RetentionProof.ConsumedLater | storage/cold-tier.py:1772-1786 | while trees are walked each event read is on record at once or waits with all it says, and what waited still does, unless every root has lost its period |
| RetentionRuns.TouchRecorded | storage/cold-tier.py:1787-1807 | outside a walk an event that is no directory and accesses, opens, modifies, changes attributes of, creates or moves in a path below its root is on record now, and so is a directory that appears there |
| RetentionRuns.LossForgets | storage/cold-tier.py:1772-1786 | when the kernel tells of lost events, or a tree changes while 65536 changes wait, every root loses its evidence |
| RetentionRuns.BeginsUncovered | storage/cold-tier.py:1810-1820 | a new watcher process, and an adoption or move of a root, begin without evidence |
| RetentionRuns.DrainAbsorbs | storage/cold-tier.py:1769-1807 | outside a walk everything that waited or was drained is on record now; exactly the roots some event breaks lose their evidence, and those it reopens are to be walked again |
| RetentionRuns.QueueAbsorbs | storage/cold-tier.py:1772-1801 | taking in a queue uncovers exactly the roots some event breaks and reopens exactly those some event reopens |
| RetentionProof.ConsumedFits | storage/cold-tier.py:1769-1807 | reading the queue keeps every event ever read accounted for: on record, waiting, or before the period of its root |
| RetentionProof.AdmittedFits | storage/cold-tier.py:1838-1876 | so does any admission, with the events it reads, its second attempt and the roots that give up their watches |
| RetentionProof.QuietMeans | storage/cold-tier.py:1652-1660 | a file that looks quiet has had, of all the events read, none on itself and no directory appear above it for the retention period |
| Retention.QuietExactly | storage/cold-tier.py:1652-1660 | the test of quiet: covered since some time, and the latest of that time, the file's own, and every note on it or on a directory above it is a retention period ago |
| RetentionHeard.AdmittedReads | storage/cold-tier.py:1834-1876 | which events an admission reads: all of them enter the history, and nothing is deleted |
| RetentionHeard.RoundedReads | storage/cold-tier.py:1823-1894 | a round adds exactly the events it drains to the history, and each deletion of its collection saw all of them |
| RetentionRuns.CandidatesPrefix | storage/cold-tier.py:1687-1713 | the candidates are the eligible files, in order, up to the first limit on files or bytes, and of those at most a thousand |
| RetentionRuns.DeletedExactly | storage/cold-tier.py:1714-1727 | a file is deleted exactly when nobody held it, it and its proof are unchanged, and by the latest note on it or above it is still quiet after everything that waited or was drained at the barrier was taken into account |
| RetentionRuns.CollectedListed | storage/cold-tier.py:1663-1728 | a collection deletes only listed, verified files of roots on the archive, and nothing when the watcher was not heard of for a minute or the broker fails |
| RetentionProof.CollectedFits | storage/cold-tier.py:1663-1728 | a collection deletes only what all events read so far justify, and its deletions take no evidence away that still matters |
| RetentionWatch.Watcher.Collect | storage/cold-tier.py:1663-1728 | one collection does to the watcher what `Collected` does to its value; without a recent heartbeat that is nothing |
| RetentionRuns.SteppedFits | storage/cold-tier.py:1810-1896 | a restart, an adoption or a round keeps every event accounted for and every deletion justified |
| RetentionRuns.RunRespects | storage/cold-tier.py:1810-1896 | the events the steps of a run give are respected by every later deletion: it came at least the retention period after each that bears on the file |
| RetentionRuns.StepEvents | storage/cold-tier.py:1810-1896 | said of the flags of the events: no later deletion comes within the retention period of an access, opening, change or move of its file, or of a directory that appeared above it |
| RetentionRuns.Live | storage/cold-tier.py:1810-1896 | in every run of the watcher each deletion had a period spanning the retention time and came that long after the file's own time and after every touch of it and every directory that appeared above it, as the events read before it and given by the rounds say |
| RetentionGaps.KeptExactly | storage/cold-tier.py:1838-1876 | a covered root that is walked again keeps its period exactly when its watched paths are unchanged and not none, the watches can be had, and no event is lost meanwhile |
| RetentionGaps.CoveredExactly | storage/cold-tier.py:1838-1876 | a reconsidered root is covered afterwards exactly when it can be watched, with the period it had or one that begins now |
| RetentionGaps.PeriodOutlivesWatches | storage/cold-tier.py:1838-1861 | for any retention period: a run from an empty watcher that deletes a file although, within that period, its watches were away |
| WatchdogModel.ReplayOrdered | monitoring/offbox-watchdog.py:302-310 | replaying the outbox keeps the archive ordered exactly when the event is remembered or nothing as late of its outage is retained |
| WatchdogFailures.ReplayExact | monitoring/offbox-watchdog.py:302-310 | for a state file not behind the archive, replaying the outbox keeps the archive ordered exactly when the pending event, if archived, is remembered, or the append fails or its copies are pruned |
| WatchdogFailures.FullMemory | monitoring/offbox-watchdog.py:297-300 | 10001 archived events for which that condition fails: the oldest is forgotten |
| WatchdogFacts.OrderedExactly | monitoring/offbox-watchdog.py:297-317 | order means that of one outage no event comes twice, and none before one that has to precede it |
| WatchdogProof.LoadedInformed | monitoring/offbox-watchdog.py:247-257 | a process that has read files which are not behind the archive, the current file last, knows all it has to |
| WatchdogModel.ArchivedInformed | monitoring/offbox-watchdog.py:297-310 | archiving the pending event keeps every event once and in order, and the bounded memory of identities keeps what may still matter |
| WatchdogModel.Brought | monitoring/offbox-watchdog.py:302-310 | bringing the pending event into the archive keeps files and process consistent, and every event a state has finished with written |
| WatchdogProof.FinishedEmpties | monitoring/offbox-watchdog.py:302-310 | once the outbox has been dealt with it is empty, its event has been written, and the state file holds what the process holds |
| WatchdogFacts.AgeAcross | monitoring/offbox-watchdog.py:283-292 | an age across boots is the wall-clock difference when it was first asked for, advanced by the monotonic clock alone, whatever is asked later |
| WatchdogProof.TickedFacts | monitoring/offbox-watchdog.py:319-344 | a check opens or escalates exactly by age and never closes an outage; when it completes nothing is pending and every event of the outage so far has been written |
| WatchdogFacts.TickSays | monitoring/offbox-watchdog.py:319-344 | a check, said of the clocks and fields: by the monotonic difference since the last heartbeat on one boot it opens a new outage now, makes the open one critical, or leaves it, sets the status, and writes the event that waited and that one and no other; failing writes only stop it, without them it completes |
| WatchdogProof.WelcomedFacts | monitoring/offbox-watchdog.py:350-373 | a heartbeat taken over closes the open outage at its own time, with exactly the age of the one lost, or the time since opening when none was |
| WatchdogProof.ReceivedFacts | monitoring/offbox-watchdog.py:350-373 | a refused heartbeat changes nothing; any other is a check and then the heartbeat itself, and only one taken over closes an outage |
| WatchdogFacts.BeatSays | monitoring/offbox-watchdog.py:350-373 | a heartbeat that does not advance is refused unless the wall clock went back; any other is on file before it counts and closes the open outage now with the age of the heartbeat before, or with the time since the opening; without failures it completes |
| WatchdogFacts.GapIsAge | monitoring/offbox-watchdog.py:350-363 | the gap is the age the check before it judged by |
| WatchdogProof.StartedFine | monitoring/offbox-watchdog.py:226-278 | a restart closes an open outage exactly when the heartbeat on file is not the one it lost, with the difference of the two ages; files stay consistent, and in order if the process knows enough |
| WatchdogFacts.RestartSays | monitoring/offbox-watchdog.py:226-278 | a restart takes over what is on file and closes an open outage exactly when the heartbeat on file is not the one it lost, at that heartbeat's time, with the difference of the two ages; it has archived what waited and the closing, and without failures it completes |
| WatchdogRuns.RunConsistent | monitoring/offbox-watchdog.py:226-373 | process and files are consistent throughout every run, so what the rows on checks, heartbeats and restarts say holds throughout |
| Watchdog.Machine.Tick | monitoring/offbox-watchdog.py:319-344 | one check does to the process and its files what `Ticked` does to their value |
| Watchdog.Machine.Receive | monitoring/offbox-watchdog.py:350-373 | one heartbeat does what `Received` does |
| Watchdog.Machine.Start | monitoring/offbox-watchdog.py:226-278 | one start does what `Started` does; an error leaves no process |
| WatchdogRuns.Live | monitoring/offbox-watchdog.py:226-373 | in every run the archive holds each event once and in order, as long as at every restart the process knew whatever was archived beyond its own account |
| WatchdogRuns.LiveOrDie | monitoring/offbox-watchdog.py:226-373 | when a failed write of the state file ends the process, every run keeps the archive in order, however long it is |
| WatchdogFailures.MisorderedRun | monitoring/offbox-watchdog.py:181-344 | a run of a new watchdog that outlives failed writes, after which an escalation is archived before its opening; it prunes nothing that is not older than the archive keeps |
| WatchdogRuns.InterruptedAlike | monitoring/offbox-watchdog.py:269-278 | a heartbeat saved just before a crash closes the outage at restart with the same time and gap as an uninterrupted one |
| ReferenceModel.FirstGoverns | storage/process-reference-broker.py:117-154 | in the sorted mount list the first match is the mount that governs the path |
| ReferenceProof.InspectMisses | storage/process-reference-broker.py:128-172 | a reference inside a candidate that is inspected without raising is missed exactly when the name without the deleted marker lies under another mount and no bind shows a part of the candidate |
| ReferenceProof.InspectSound | storage/process-reference-broker.py:128-172 | inspecting any other reference without raising blocks the candidate it physically lies in, or a bind of a part of it does |
| ReferenceProof.ShadowedMissed | storage/process-reference-broker.py:81-218 | a shadowed reference is missed by a report that calls itself complete |
| ReferenceProof.ShadowReport | storage/process-reference-broker.py:81-218 | such a world, process and candidate |
| ReferenceProof.ReportSound | storage/process-reference-broker.py:81-218 | a complete report has blocked every candidate some live process refers to by descriptor, cwd, exe, mapping or bind, hard-linked files included, unless shadowed or no longer linked by any of the process's descriptors |
| ReferenceProof.ReportReason | storage/process-reference-broker.py:81-218 | a report, complete or not, blocks no candidate without a live process that refers to it, shares its inode or binds a part of it |
| ReferenceCap.CapCautious | storage/process-reference-broker.py:184-186 | a smaller memory of unlinked files blocks at least as much and is complete only if the larger one is |
| ReferenceBroker.InspectOnce | storage/process-reference-broker.py:141-146 | the memory of inspected references, evicted at any time, changes nothing |
| ReferenceBroker.Parse | storage/process-reference-broker.py:105-122 | a cached mount table is what its text parses to |
| ReferenceBroker.CollectDirectories | storage/process-reference-broker.py:81-218 | the whole query equals the report without memory tables that remembers 4096 unlinked files |
| PressureRuns.LawfulGrows | monitoring/job-pressure-guard.py:493-519 | a lawful effect keeps the log lawful |
| PressureRuns.KillIsLawful | monitoring/job-pressure-guard.py:533-560 | a kill of the action in progress after the grace period, on its own look, is lawful |
| PressureRuns.TickedSane | monitoring/job-pressure-guard.py:575-628 | one tick keeps every signal of the log lawful and every finished action cooled down |
| PressureRuns.SamplesAreReadings | monitoring/job-pressure-guard.py:581-586 | the samples of a run are the readings of the turns that took one, each compared with the sample before, and nothing else |
| PressureRuns.SamplingExactly | monitoring/job-pressure-guard.py:575-586 | exactly the turns that found the guard alive, no action in progress and the clock moved took one |
| PressureRuns.SignalTurn | monitoring/job-pressure-guard.py:493-560 | every signal of a run was sent by one of its turns on that turn's own scan and looks, a term with all the samples so far in its intent |
| PressureRuns.TermOwed | monitoring/job-pressure-guard.py:590-609 | a term's reason held in the last samples the policy asks for: complete scans, outside a dry run, showed the worker eligible and over its limit, or the host short of memory, stalled or swapping and the worker large |
| PressureRuns.Live | monitoring/job-pressure-guard.py:444-628 | in every run each term and kill is lawful and rests on its turn's own complete looks, which show the identity and the classification of its intent, and each term on the scans of the turns before |
| PressureRuns.KillsFollowTerms | monitoring/job-pressure-guard.py:480-560 | each kill follows a lawful term through the same handle by at least the grace period with no signal between, on looks that show the same worker eligible in the same way |
| PressureRuns.ActionTicks | monitoring/job-pressure-guard.py:533-560 | a tick with an action in progress kills exactly when the grace period is over and both looks show the same worker, the reason and no memory given back; an incomplete look, or one within the grace period, changes nothing; all else ends the action |
| PressureRuns.SampleTicks | monitoring/job-pressure-guard.py:575-628 | any other tick that finds the clock moved acts exactly when its scan is complete, it is no dry run, the cooldown is over and a worker is due, and then on a greatest of those |
| PressureGuard.ChosenIsMaximum | monitoring/job-pressure-guard.py:600-609 | the chosen worker is due in the samples, over its limit before merely large, then the largest; none is chosen only if none is due |
| PressureGuard.Guard.Send | monitoring/job-pressure-guard.py:493-519 | a signal goes out exactly when a complete look shows the identity expected, with the classification expected and the reason holding by the policy's limits and, for a kill, memory not given back |
| PressureGuard.Guard.Advance | monitoring/job-pressure-guard.py:533-560 | an action in progress goes on, ends or ends in a kill as `Advanced` says: an incomplete look defers, a kill needs the grace period and two looks |
| PressureGuard.Guard.CountWorkers | monitoring/job-pressure-guard.py:587-599 | every worker's streak goes on by one or ends |
| PressureGuard.Guard.Tick | monitoring/job-pressure-guard.py:575-628 | one tick does to the guard what `Ticked` does to its value, the streaks staying the runs the samples end in |
| Eligibility.Decide | monitoring/job-pressure-guard.py:347-375 | the decision with its loops over parents, options and owners equals the decision as stated on the table |
| Eligibility.ParseNodeEntry | monitoring/job-pressure-guard.py:297-329 | the option loop reads the command line as the recursive reading does |
| Eligibility.CollectAncestors | monitoring/job-pressure-guard.py:272-282 | the loop collects the line of parents |
| Eligibility.TargetSnapshot | monitoring/job-pressure-guard.py:215-261 | a complete focused look is the climb to the first application server plus one child marker |
| Eligibility.ClimbLineage | monitoring/job-pressure-guard.py:219-235 | the line of parents read from a complete climb is the table's line up to its application server |
| Eligibility.FocusDecides | monitoring/job-pressure-guard.py:347-375 | eligibility from a complete focused look equals eligibility from the whole table |
| EligibilityRules.EligibleExactly | monitoring/job-pressure-guard.py:347-375 | who is eligible: exactly a childless process of this user in node that neither watches nor serves, of a known kind of test worker by its script and the commands above it, with an application server within 64 parents and nothing that watches or serves between |
| EligibilityRules.ParseExactly | monitoring/job-pressure-guard.py:297-329 | a command line is understood exactly when its words before the script are known options, each with the value it takes, and the entry is the first other word |
| EligibilityRules.TestFileExactly | monitoring/job-pressure-guard.py:34 | a file counts as a test exactly when its name ends in `.test.` or `.spec.` and js or ts, with c or m before and x after it or not |
| DiskScan.PushLargest | monitoring/host-health.py:603-606 | pushing a file keeps exactly the twelve largest |
| DiskScan.AtMostExactly | monitoring/host-health.py:603-606 | files are ordered by size and then by text, a text before another that it begins or from which it first differs by a smaller character |
| DiskScan.EndsAlike | monitoring/host-health.py:570-615 | scans that come to an end end alike, whatever their slices |
| DiskScanProof.StepWhole | monitoring/host-health.py:570-615 | every step without an error counts each inode at most once and misses no entry it read |
| DiskScanProof.CompleteScan | monitoring/host-health.py:545-629 | a scan that ended without an error or limit hit counted exactly the reachable inodes, each once and under a name it has; each sum is that of the inodes whose names put them under that directory, at most two levels below a root; the listed files, with their paths, are the twelve largest; every root could be looked at and every directory was read to its end |
| DiskScanProof.WhyIncomplete | monitoring/host-health.py:545-615 | a scan that counted an error had a root or an entry that cannot be looked at, a directory that cannot be read to its end, 64 directories open, or as many inodes remembered as may be |
| DiskScanner.Scanner.Turn | monitoring/host-health.py:571-615 | one turn of the loop is one step |
| DiskScanner.Scanner.Sample | monitoring/host-health.py:556-629 | one sample takes some turns from where the scan stood and reports when it is done |
| DiskScanner.Scanner.ScanToEnd | monitoring/host-health.py:556-629 | slices of any positive budgets, at monotonic readings that never go back and any wall-clock readings, come to an end, the same end; a complete report is right, and an incomplete one has a reason |
| AlarmHistory.AlarmLaw | monitoring/host-health.py:919-941 | an incident is open exactly when some run of equal levels was not followed by a run of clear samples, and critical exactly for the critical level |
| AlarmHistory.SeverityKept | monitoring/host-health.py:889-890 | by the alarm law a critical incident stays critical while it is open |
| IncidentModel.ThresholdsApart | monitoring/host-health.py:76-86 | with thresholds in the demanded order no reading is both clear and at a level |
| IncidentFacts.SampleExactly | monitoring/host-health.py:963-1016 | what each reading counts as: critical or warning from its threshold on, clear below its own and only if everything behind it was read; memory only under pressure; checks and services by their state |
| IncidentModel.OpenedKeeps | monitoring/host-health.py:876-905 | opening an incident touches no other kind and leaves at most one open |
| IncidentShows.OpenedShows | monitoring/host-health.py:876-905 | the kind's incident is open afterwards, the one that was if there was one, and critical exactly if opened so or if its file was; a critical one stays critical |
| IncidentFacts.OpenedFile | monitoring/host-health.py:876-905 | an opening goes on with the open file; otherwise it writes the one named after the journal entry, or after the boot and the time the rule first rose, and keeps the time and the critical severity of a file already so named; no other file changes |
| IncidentShows.RisenCore | monitoring/host-health.py:919-934 | after a reading at a level the incident follows its history, and is exact exactly unless it takes over a critical file of its kind, boot and first time stamp |
| IncidentShows.ReadFollows | monitoring/host-health.py:919-941 | after any reading of a metric the rule and incident follow its distinct samples since the last boot |
| IncidentShows.RestartedFollows | monitoring/host-health.py:945-951 | after another boot a metric shows nothing and its history is empty |
| IncidentShows.RestartedClears | monitoring/host-health.py:945-951 | another boot closes every incident of every kind and starts every count again, and opens the one that tells of it |
| IncidentShows.QuietCloses | monitoring/host-health.py:1022-1024 | the kinds whose latest event is a quiet period ago show nothing any more, every other what it showed |
| IncidentFacts.QuietFiles | monitoring/host-health.py:1022-1024 | exactly the open files of kinds whose latest event is a quiet period ago are closed, and no other file changes |
| IncidentFacts.CleanFiles | monitoring/host-health.py:1030-1047 | cleaning up removes only files it is told to and never an open one |
| IncidentShows.EventsHeard | monitoring/host-health.py:1018-1020 | the incident of every event of a snapshot is open, and its latest event came now |
| IncidentShows.FailedServiceShows | monitoring/host-health.py:1008-1012 | a failed service shows a critical incident at once |
| IncidentShows.EvaluatedShows | monitoring/host-health.py:943-1024 | one snapshot, at any clock reading, keeps every metric following its history, and exact exactly unless a reading of it takes over a critical file |
| IncidentEngine.Engine.Evaluate | monitoring/host-health.py:943-1024 | one snapshot does to rules and incident files what `Evaluated` does to their value |
| IncidentRuns.RunFollows | monitoring/host-health.py:858-1024 | in every run, whatever the clock says, a metric's incident is open exactly when the alarm law says so, and critical whenever it says so |
| IncidentFacts.RunFiles | monitoring/host-health.py:858-1024 | in every run a file of the metric is open exactly when some run of equal levels since the last boot was not followed by a run of clear samples, and critical if they were; with distinct stamps exactly if |
| IncidentRuns.SeverityStays | monitoring/host-health.py:889-890 | in every run, whatever files are taken over, a metric's incident shown as critical stays so while it is open and the host is not restarted |
| IncidentRuns.StepExact | monitoring/host-health.py:880-890 | a step keeps an exact display exact except exactly when it takes over a critical file |
| IncidentRuns.RunExact | monitoring/host-health.py:880-890 | a metric shows exactly what its history says throughout a run if and only if no step takes over a critical file of it |
| IncidentRuns.RunShows | monitoring/host-health.py:858-1024 | with time stamps distinct within each boot every metric shows exactly what the alarm law says |
| IncidentRuns.Watch | monitoring/host-health.py:858-1024 | so does the engine after any run of snapshots and clean-ups |
| IncidentRuns.RepeatedTimestamp | monitoring/host-health.py:880-890 | three snapshots after which a disk is shown critical where its history says warning |

## Left out

- RelocationModel.SafeServes: the kernel's own limit on the length of link chains is not modelled; the bound is two hops above the one at admission.
- Relocation.Migrate: the hard-link rehoming of a unit already on the archive device, container mounts and the host-wide reference broker are not modelled as such; whether somebody holds the tree is one observation.
- Relocation.Undisturbed: asks that aliases are links straight to the original, as publication makes them; another alias may stop a move with both copies kept.
- RelocationFinish.LateCheck: says nothing of a write and close that fall between the last drain and the scan after it, nor of writes through existing memory mappings.
- RelocationFinish.RemoveRetired: says nothing of what writers add after the last drain; the removal of the tree takes it along.
- RelocationRecovery.Converge: needs an original nobody wrote to; a divergent one is kept, as `Recover` states.
- DefaultRouteRun.Route: does not model `ensure_mirror_parent`, nor the loop over several parents; a failed route without mirror layout leaves a bridge that the next run refuses.
- RetentionWatch.Watcher.Consume: treats one call as atomic, so events drained by a nested walk during it are not interleaved, and claims nothing of events the kernel still holds.
- RetentionWatch.Watcher.Admit: watches are not modelled one by one; roots are assumed not to overlap.
- RetentionWatch.Watcher.Collect: does not model the walk of scopes, their proofs and manifests beyond a mark on each listed file, nor the removal of emptied directories.
- RetentionWatch.Watcher.Go: adoptions and moves by other processes fall between rounds, not inside one, and one clock reading stands for each operation.
- Watchdog.Machine.Append: an error after the bytes are written, or after the current file was renamed away and before a new one exists, is not modelled; rotation and size limits appear only as an arbitrary choice of what pruning removes.
- WatchdogRuns.Live: one clock reading stands for each operation of a step.
- ReferenceModel.Report: byte counters and deadlines appear as marks on the task or descriptor where they run out; a file reached by a hard link outside a candidate is not a reference inside it.
- PressureGuard.Guard.Tick: a failed write ends the process and its log; what a restarted guard does begins a new log. Incident records and their resolution are not modelled beyond the intent and whether a write fails.
- PressureGuard.HostPressure: limits and readings are real numbers; rounding is not modelled.
- Eligibility.TestFile: the file-name patterns are matched as sets of endings; a newline that ends a name, which the patterns allow, is not.
- DiskScanner.Scanner.Sample: growth between two scans and the time a scan began are not modelled; the heap is kept as an ordered list.
- IncidentEngine.Engine.Evaluate: evidence, peaks and occurrence counts are not modelled, nor a crash between an incident file and the rule state.
- Queues, receipts, adoption and partitioning of parents, artifact proofs, collection of `collect` for single files, and everything that only sequences system commands.
- The journal reader, alert delivery, installers, plugins and the search gateway.
